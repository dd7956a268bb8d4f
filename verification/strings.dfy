/** String primitives the application relies on, written out with the
    semantics of the JavaScript built-ins they stand for. */
module Strings {

  /** The characters `String.prototype.trim` removes: WhiteSpace and
      LineTerminator of the ECMAScript grammar. */
  predicate IsWhitespace(c: char) {
    || c == ' ' || c == '\t' || c == '\n' || c == '\r'
    || c == '\U{B}' || c == '\U{C}' || c == '\U{A0}' || c == '\U{FEFF}'
    || c == '\U{1680}' || ('\U{2000}' <= c <= '\U{200A}')
    || c == '\U{2028}' || c == '\U{2029}' || c == '\U{202F}'
    || c == '\U{205F}' || c == '\U{3000}'
  }

  /** No whitespace at either end. */
  predicate IsTrimmed(s: string) {
    |s| == 0 || (!IsWhitespace(s[0]) && !IsWhitespace(s[|s| - 1]))
  }

  predicate AllWhitespace(s: string) {
    forall i :: 0 <= i < |s| ==> IsWhitespace(s[i])
  }

  /** The first index at or after `i` whose character is not whitespace, or
      `|s|` when there is none. */
  function SkipLeading(s: string, i: nat): (n: nat)
    requires i <= |s|
    ensures i <= n <= |s|
    ensures forall k :: i <= k < n ==> IsWhitespace(s[k])
    ensures n == |s| || !IsWhitespace(s[n])
    decreases |s| - i
  {
    if i < |s| && IsWhitespace(s[i]) then SkipLeading(s, i + 1) else i
  }

  /** The index just past the last character before `j` (and at or after
      `lo`) that is not whitespace, or `lo` when there is none. */
  function SkipTrailing(s: string, lo: nat, j: nat): (n: nat)
    requires lo <= j <= |s|
    ensures lo <= n <= j
    ensures forall k :: n <= k < j ==> IsWhitespace(s[k])
    ensures n == lo || !IsWhitespace(s[n - 1])
    decreases j
  {
    if j > lo && IsWhitespace(s[j - 1]) then SkipTrailing(s, lo, j - 1) else j
  }

  /** `s.trim()`: whitespace removed from both ends. */
  function Trim(s: string): (r: string)
    ensures IsTrimmed(r)
    ensures |r| <= |s|
  {
    var i := SkipLeading(s, 0);
    s[i..SkipTrailing(s, i, |s|)]
  }

  /** The result of trimming is an infix of the input, and everything cut
      away at either end is whitespace. */
  lemma TrimInfix(s: string)
    ensures exists i :: 0 <= i <= i + |Trim(s)| <= |s| && Trim(s) == s[i..i + |Trim(s)|]
                        && AllWhitespace(s[..i]) && AllWhitespace(s[i + |Trim(s)|..])
  {
    var i := SkipLeading(s, 0);
    var j := SkipTrailing(s, i, |s|);
    assert Trim(s) == s[i..j];
    assert AllWhitespace(s[..i]) && AllWhitespace(s[j..]) by {
      FramedBlank(s, i, j);
    }
  }

  lemma FramedBlank(s: string, i: nat, j: nat)
    requires i <= j <= |s|
    requires forall k :: 0 <= k < i ==> IsWhitespace(s[k])
    requires forall k :: j <= k < |s| ==> IsWhitespace(s[k])
    ensures AllWhitespace(s[..i]) && AllWhitespace(s[j..])
  {
    forall k | 0 <= k < |s| - j ensures IsWhitespace(s[j..][k]) {
      assert s[j..][k] == s[j + k];
    }
  }

  /** Conversely, a trimmed infix with only whitespace around it is the
      result of trimming: together with `TrimInfix` this characterises
      `Trim` without reference to how it scans. */
  lemma TrimUnique(s: string, i: nat, j: nat)
    requires i <= j <= |s|
    requires IsTrimmed(s[i..j])
    requires AllWhitespace(s[..i]) && AllWhitespace(s[j..])
    ensures Trim(s) == s[i..j]
  {
    var i0 := SkipLeading(s, 0);
    var j0 := SkipTrailing(s, i0, |s|);
    forall k | 0 <= k < i ensures IsWhitespace(s[k]) {
      assert s[k] == s[..i][k];
    }
    forall k | j <= k < |s| ensures IsWhitespace(s[k]) {
      assert s[k] == s[j..][k - j];
    }
    if i < j {
      assert s[i] == s[i..j][0] && s[j - 1] == s[i..j][j - i - 1];
      assert i0 == i;
      assert j0 == j;
    } else {
      assert i0 == |s|;
    }
  }

  /** Trimming a string that is already trimmed changes nothing. */
  lemma TrimIdentity(s: string)
    requires IsTrimmed(s)
    ensures Trim(s) == s
  {
    assert s[0..|s|] == s && s[..0] == [] && s[|s|..] == [];
    TrimUnique(s, 0, |s|);
  }

  /** A trimmed non-empty string is not all whitespace. */
  lemma TrimmedNonEmptyNotBlank(s: string)
    requires IsTrimmed(s) && |s| > 0
    ensures !AllWhitespace(s)
  {
  }

  /** The result of trimming is empty exactly when the input is all
      whitespace. */
  lemma TrimEmptyIffBlank(s: string)
    ensures Trim(s) == "" <==> AllWhitespace(s)
  {
    var i := SkipLeading(s, 0);
    var j := SkipTrailing(s, i, |s|);
    if AllWhitespace(s) {
      assert i == |s|;
    }
    if Trim(s) == "" {
      assert i == j;
    }
  }

  /** `s.startsWith(p)`. */
  predicate StartsWith(s: string, p: string) {
    |p| <= |s| && s[..|p|] == p
  }

  /** `s.includes(sub)`. */
  predicate Contains(s: string, sub: string)
    decreases |s|
  {
    StartsWith(s, sub) || (|s| > 0 && Contains(s[1..], sub))
  }

  /** `sub` occurs in `s` starting at index `i`. */
  predicate OccursAt(s: string, sub: string, i: nat) {
    i + |sub| <= |s| && s[i..i + |sub|] == sub
  }

  /** `Contains` agrees with the existence of an occurrence. */
  lemma {:induction false} ContainsIffOccurs(s: string, sub: string)
    ensures Contains(s, sub) <==> exists i: nat :: OccursAt(s, sub, i)
    decreases |s|
  {
    if |s| > 0 {
      ContainsIffOccurs(s[1..], sub);
      if Contains(s[1..], sub) {
        var i: nat :| OccursAt(s[1..], sub, i);
        assert OccursAt(s, sub, i + 1);
      }
      if exists i: nat :: OccursAt(s, sub, i) {
        var i: nat :| OccursAt(s, sub, i);
        if i > 0 {
          assert OccursAt(s[1..], sub, i - 1);
        } else {
          assert StartsWith(s, sub);
        }
      }
    } else if exists i: nat :: OccursAt(s, sub, i) {
      var i: nat :| OccursAt(s, sub, i);
      assert StartsWith(s, sub);
    }
    if StartsWith(s, sub) {
      assert OccursAt(s, sub, 0);
    }
  }

  /** Number of occurrences of `c` in `s`. */
  function Count(s: string, c: char): nat {
    if |s| == 0 then 0 else (if s[0] == c then 1 else 0) + Count(s[1..], c)
  }

  /** `s.split(/[seps]/)`: the pieces between separator characters, in
      order; there is always at least one piece. */
  function Split(s: string, seps: set<char>): (parts: seq<string>)
    ensures |parts| >= 1
  {
    if |s| == 0 then [""]
    else
      var rest := Split(s[1..], seps);
      if s[0] in seps then [""] + rest else [[s[0]] + rest[0]] + rest[1..]
  }

  /** No piece of a split contains a separator character. */
  lemma {:induction false} SplitPiecesFree(s: string, seps: set<char>)
    ensures forall k, i :: 0 <= k < |Split(s, seps)| && 0 <= i < |Split(s, seps)[k]| ==> Split(s, seps)[k][i] !in seps
  {
    if |s| > 0 {
      SplitPiecesFree(s[1..], seps);
    }
  }

  /** A split has one piece more than the input has separator characters. */
  lemma {:induction false} SplitCount(s: string, c: char)
    ensures |Split(s, {c})| == Count(s, c) + 1
  {
    if |s| > 0 {
      SplitCount(s[1..], c);
    }
  }

  /** `parts.join(sep)`. */
  function Join(parts: seq<string>, sep: string): string {
    if |parts| == 0 then ""
    else if |parts| == 1 then parts[0]
    else parts[0] + sep + Join(parts[1..], sep)
  }

  /** Rejoining the pieces of a split on one character restores the input. */
  lemma {:induction false} SplitJoin(s: string, c: char)
    ensures Join(Split(s, {c}), [c]) == s
  {
    if |s| > 0 {
      SplitJoin(s[1..], c);
      var rest := Split(s[1..], {c});
      if s[0] != c && |rest| > 1 {
        assert Join([[s[0]] + rest[0]] + rest[1..], [c]) == [s[0]] + rest[0] + [c] + Join(rest[1..], [c]);
      }
    }
  }

  /** The pieces of `pa` then `pb`, with the last piece of `pa` glued to the
      first piece of `pb`. */
  function Glue(pa: seq<string>, pb: seq<string>): (r: seq<string>)
    requires |pa| > 0 && |pb| > 0
    ensures |r| == |pa| + |pb| - 1
  {
    pa[..|pa| - 1] + [pa[|pa| - 1] + pb[0]] + pb[1..]
  }

  lemma GlueCons(x: string, pa: seq<string>, pb: seq<string>)
    requires |pa| > 0 && |pb| > 0
    ensures Glue([x] + pa, pb) == [x] + Glue(pa, pb)
  {
    assert ([x] + pa)[..|pa|] == [x] + pa[..|pa| - 1];
  }

  lemma GlueLast(lines: seq<string>, x: string, pb: seq<string>)
    requires |pb| > 0
    ensures Glue(lines + [x], pb) == lines + Glue([x], pb)
  {
    assert (lines + [x])[..|lines|] == lines;
  }

  lemma GlueSingle(p: string, pb: seq<string>)
    requires |pb| > 0
    ensures Glue([p], pb) == [p + pb[0]] + pb[1..]
  {
  }

  /** Splitting a concatenation glues the last piece of the first part to
      the first piece of the second. */
  lemma {:induction false} SplitAppend(a: string, b: string, seps: set<char>)
    ensures Split(a + b, seps) == Glue(Split(a, seps), Split(b, seps))
    decreases |a|
  {
    if |a| == 0 {
      assert a + b == b;
      var pb := Split(b, seps);
      GlueSingle("", pb);
      assert "" + pb[0] == pb[0];
      assert [pb[0]] + pb[1..] == pb;
    } else {
      SplitAppend(a[1..], b, seps);
      if a[0] in seps {
        SplitAppendSep(a, b, seps);
      } else if |Split(a[1..], seps)| == 1 {
        SplitAppendSingle(a, b, seps);
      } else {
        SplitAppendMore(a, b, seps);
      }
    }
  }

  /** One step of `Split` on a non-empty string. */
  lemma SplitStep(s: string, seps: set<char>)
    requires |s| > 0
    ensures s[0] in seps ==> Split(s, seps) == [""] + Split(s[1..], seps)
    ensures s[0] !in seps ==>
              Split(s, seps) == [[s[0]] + Split(s[1..], seps)[0]] + Split(s[1..], seps)[1..]
  {
  }

  lemma SplitAppendSep(a: string, b: string, seps: set<char>)
    requires |a| > 0 && a[0] in seps
    requires Split(a[1..] + b, seps) == Glue(Split(a[1..], seps), Split(b, seps))
    ensures Split(a + b, seps) == Glue(Split(a, seps), Split(b, seps))
  {
    assert (a + b)[1..] == a[1..] + b;
    SplitStep(a + b, seps);
    SplitStep(a, seps);
    GlueCons("", Split(a[1..], seps), Split(b, seps));
  }

  lemma SplitAppendSingle(a: string, b: string, seps: set<char>)
    requires |a| > 0 && a[0] !in seps && |Split(a[1..], seps)| == 1
    requires Split(a[1..] + b, seps) == Glue(Split(a[1..], seps), Split(b, seps))
    ensures Split(a + b, seps) == Glue(Split(a, seps), Split(b, seps))
  {
    var pa' := Split(a[1..], seps);
    var pb := Split(b, seps);
    assert Split(a, seps) == [[a[0]] + pa'[0]] by {
      SplitStep(a, seps);
    }
    assert Split(a + b, seps) == [[a[0]] + Split(a[1..] + b, seps)[0]] + Split(a[1..] + b, seps)[1..] by {
      assert (a + b)[1..] == a[1..] + b;
      SplitStep(a + b, seps);
    }
    assert pa' == [pa'[0]];
    GlueSingle(pa'[0], pb);
    GlueTwice(a[0], pa'[0], pb, Split(a[1..] + b, seps));
  }

  lemma GlueTwice(x: char, p: string, pb: seq<string>, q: seq<string>)
    requires |pb| > 0 && q == [p + pb[0]] + pb[1..]
    ensures [[x] + q[0]] + q[1..] == Glue([[x] + p], pb)
  {
    assert q[0] == p + pb[0] && q[1..] == pb[1..];
    assert [x] + (p + pb[0]) == ([x] + p) + pb[0];
  }

  lemma SplitAppendMore(a: string, b: string, seps: set<char>)
    requires |a| > 0 && a[0] !in seps && |Split(a[1..], seps)| > 1
    requires Split(a[1..] + b, seps) == Glue(Split(a[1..], seps), Split(b, seps))
    ensures Split(a + b, seps) == Glue(Split(a, seps), Split(b, seps))
  {
    assert (a + b)[1..] == a[1..] + b;
    SplitStep(a + b, seps);
    SplitStep(a, seps);
    var pa' := Split(a[1..], seps);
    var pb := Split(b, seps);
    assert pa' == [pa'[0]] + pa'[1..];
    GlueCons(pa'[0], pa'[1..], pb);
    GlueCons([a[0]] + pa'[0], pa'[1..], pb);
  }

  predicate NoneIn(s: string, seps: set<char>) {
    forall i :: 0 <= i < |s| ==> s[i] !in seps
  }

  /** Splitting a separator-free string yields it whole. */
  lemma {:induction false} SplitFree(s: string, seps: set<char>)
    requires NoneIn(s, seps)
    ensures Split(s, seps) == [s]
  {
    if |s| > 0 {
      SplitFree(s[1..], seps);
      assert [s[0]] + s[1..] == s;
    }
  }

  /** Splitting `a + [c] + b` where `a` holds no separator puts `a` first. */
  lemma {:induction false} SplitAfterFree(a: string, c: char, b: string, seps: set<char>)
    requires NoneIn(a, seps) && c in seps
    ensures Split(a + [c] + b, seps) == [a] + Split(b, seps)
    decreases |a|
  {
    if |a| == 0 {
      assert a + [c] + b == [c] + b;
      assert ([c] + b)[1..] == b;
    } else {
      SplitAfterFree(a[1..], c, b, seps);
      assert (a + [c] + b)[1..] == a[1..] + [c] + b;
      assert [a[0]] + a[1..] == a;
    }
  }

  function Digit(d: nat): char
    requires d < 10
  {
    "0123456789"[d]
  }

  predicate IsDigit(c: char) {
    '0' <= c <= '9'
  }

  /** Decimal rendering of a natural number, as template interpolation
      prints it. */
  function NatToString(n: nat): (r: string)
    ensures |r| >= 1
    ensures forall i :: 0 <= i < |r| ==> IsDigit(r[i])
    ensures n >= 10 ==> r[0] != '0'
  {
    if n < 10 then [Digit(n)] else NatToString(n / 10) + [Digit(n % 10)]
  }

  /** Value of a string of decimal digits. */
  function DigitsValue(s: string): nat
    requires forall i :: 0 <= i < |s| ==> IsDigit(s[i])
  {
    if |s| == 0 then 0
    else
      assert IsDigit(s[|s| - 1]);
      10 * DigitsValue(s[..|s| - 1]) + (s[|s| - 1] as int - '0' as int)
  }

  /** Reading back the decimal rendering yields the number. */
  lemma {:induction false} NatToStringValue(n: nat)
    ensures DigitsValue(NatToString(n)) == n
  {
    if n >= 10 {
      NatToStringValue(n / 10);
      var r := NatToString(n);
      assert r[..|r| - 1] == NatToString(n / 10);
    }
  }

  /** Decimal rendering of an integer, with a leading '-' when negative. */
  function IntToString(i: int): (r: string)
    ensures |r| >= 1
    ensures i < 0 <==> r[0] == '-'
  {
    if i < 0 then "-" + NatToString(-i) else NatToString(i)
  }

  /** ASCII lower-casing; HTTP header names are ASCII tokens. */
  function LowerChar(c: char): char {
    if 'A' <= c <= 'Z' then (c as int + 32) as char else c
  }

  function ToLower(s: string): (r: string)
    ensures |r| == |s|
    ensures forall i :: 0 <= i < |s| ==> r[i] == LowerChar(s[i])
  {
    if |s| == 0 then "" else [LowerChar(s[0])] + ToLower(s[1..])
  }
}
