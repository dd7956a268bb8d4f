/** Orderings used by the application: the default string order of
    `Array.prototype.sort`, the sorted de-duplicated tag union several pages
    compute, and the stable key orders the store queries ask for. */
module Ordering {
  import Seqs

  /** Lexicographic strict order on strings (character by character, a
      proper prefix first). */
  predicate LexLess(a: string, b: string)
    decreases |a|
  {
    |b| > 0 && (|a| == 0 || a[0] < b[0] || (a[0] == b[0] && LexLess(a[1..], b[1..])))
  }

  lemma {:induction false} LexIrreflexive(a: string)
    ensures !LexLess(a, a)
    decreases |a|
  {
    if |a| > 0 {
      LexIrreflexive(a[1..]);
    }
  }

  lemma {:induction false} LexTransitive(a: string, b: string, c: string)
    requires LexLess(a, b) && LexLess(b, c)
    ensures LexLess(a, c)
    decreases |a|
  {
    if |a| > 0 && a[0] == b[0] && b[0] == c[0] {
      LexTransitive(a[1..], b[1..], c[1..]);
    }
  }

  lemma {:induction false} LexTotal(a: string, b: string)
    requires a != b
    ensures LexLess(a, b) || LexLess(b, a)
    decreases |a|
  {
    if |a| > 0 && |b| > 0 && a[0] == b[0] {
      assert a[1..] != b[1..] by {
        assert a == [a[0]] + a[1..];
        assert b == [b[0]] + b[1..];
      }
      LexTotal(a[1..], b[1..]);
    }
  }

  lemma LexAsymmetric(a: string, b: string)
    requires LexLess(a, b)
    ensures !LexLess(b, a)
  {
    if LexLess(b, a) {
      LexTransitive(a, b, a);
      LexIrreflexive(a);
    }
  }

  /** Strictly increasing: sorted and free of duplicates. */
  predicate StrictlySorted(s: seq<string>) {
    forall i, j :: 0 <= i < j < |s| ==> LexLess(s[i], s[j])
  }

  lemma StrictlySortedNoRepeats(s: seq<string>)
    requires StrictlySorted(s)
    ensures Seqs.NoRepeats(s)
  {
    forall i, j | 0 <= i < j < |s| ensures s[i] != s[j] {
      if s[i] == s[j] {
        LexIrreflexive(s[i]);
      }
    }
  }

  /** Inserts `x` at its place in a strictly sorted sequence, unless present. */
  function Insert(s: seq<string>, x: string): (r: seq<string>)
    requires StrictlySorted(s)
    ensures StrictlySorted(r)
    ensures forall y :: y in r <==> y in s || y == x
  {
    if |s| == 0 then [x]
    else if x == s[0] then s
    else if LexLess(x, s[0]) then
      assert forall j :: 0 < j < |s| ==> LexLess(x, s[j]) by {
        forall j | 0 < j < |s| ensures LexLess(x, s[j]) {
          LexTransitive(x, s[0], s[j]);
        }
      }
      [x] + s
    else
      LexTotal(x, s[0]);
      var t := Insert(s[1..], x);
      assert forall y :: y in t ==> LexLess(s[0], y);
      [s[0]] + t
  }

  /** `Array.from(new Set(xs)).sort()`: the distinct elements in ascending
      order. */
  function SortDistinct(xs: seq<string>): (r: seq<string>)
    ensures StrictlySorted(r)
    ensures forall y :: y in r <==> y in xs
  {
    if |xs| == 0 then []
    else
      var r := Insert(SortDistinct(xs[..|xs| - 1]), xs[|xs| - 1]);
      assert forall y :: y in xs <==> y in xs[..|xs| - 1] || y == xs[|xs| - 1] by {
        assert xs == xs[..|xs| - 1] + [xs[|xs| - 1]];
      }
      r
  }

  /** Two strictly sorted sequences with the same elements are equal: the
      sorted order of a set is unique. */
  lemma {:induction false} SortedUnique(a: seq<string>, b: seq<string>)
    requires StrictlySorted(a) && StrictlySorted(b)
    requires forall y :: y in a <==> y in b
    ensures a == b
    decreases |a|
  {
    if |a| > 0 {
      assert a[0] in a;
    }
    if |b| > 0 {
      assert b[0] in b;
    }
    if |a| > 0 && |b| > 0 {
      if a[0] != b[0] {
        assert b[0] in a;
        assert a[0] in b;
        var k :| 0 <= k < |a| && a[k] == b[0];
        var m :| 0 <= m < |b| && b[m] == a[0];
        assert k > 0 && m > 0;
        LexAsymmetric(a[0], b[0]);
        assert false;
      }
      forall y ensures y in a[1..] <==> y in b[1..] {
        if y in a[1..] {
          var k :| 1 <= k < |a| && a[k] == y;
          assert y != a[0] by { LexIrreflexive(y); }
          assert y in b;
        }
        if y in b[1..] {
          var k :| 1 <= k < |b| && b[k] == y;
          assert y != b[0] by { LexIrreflexive(y); }
          assert y in a;
        }
      }
      SortedUnique(a[1..], b[1..]);
      assert a == [a[0]] + a[1..];
      assert b == [b[0]] + b[1..];
    }
  }

  /** All elements of a sequence of lists, in order. */
  function Flatten(lists: seq<seq<string>>): (r: seq<string>)
    ensures forall y :: y in r <==> exists i :: 0 <= i < |lists| && y in lists[i]
  {
    if |lists| == 0 then []
    else
      var r := Flatten(lists[..|lists| - 1]) + lists[|lists| - 1];
      assert forall i :: 0 <= i < |lists| - 1 ==> lists[..|lists| - 1][i] == lists[i];
      r
  }

  /** The sorted, duplicate-free union of several tag lists (the
      `getAllTags` of the client pages). */
  function SortedUnion(lists: seq<seq<string>>): (r: seq<string>)
    ensures StrictlySorted(r)
    ensures forall y :: y in r <==> exists i :: 0 <= i < |lists| && y in lists[i]
  {
    SortDistinct(Flatten(lists))
  }

  /* ----- Stable orders on records, by a key ----- */

  /** Non-increasing by an integer key (`orderBy: { k: "desc" }`). */
  predicate SortedDesc<T>(s: seq<T>, key: T -> int) {
    forall i, j :: 0 <= i < j < |s| ==> key(s[i]) >= key(s[j])
  }

  lemma SortedDescCons<T>(h: T, t: seq<T>, key: T -> int)
    requires SortedDesc(t, key)
    requires forall y :: y in t ==> key(h) >= key(y)
    ensures SortedDesc([h] + t, key)
  {
    forall i, j | 0 <= i < j < |[h] + t| ensures key(([h] + t)[i]) >= key(([h] + t)[j]) {
      if i > 0 {
        assert ([h] + t)[i] == t[i - 1] && ([h] + t)[j] == t[j - 1];
      } else {
        assert ([h] + t)[j] == t[j - 1] && t[j - 1] in t;
      }
    }
  }

  function InsertDesc<T>(s: seq<T>, x: T, key: T -> int): (r: seq<T>)
    requires SortedDesc(s, key)
    ensures SortedDesc(r, key)
    ensures multiset(r) == multiset(s) + multiset{x}
  {
    if |s| == 0 then [x]
    else if key(s[0]) >= key(x) then
      var t := InsertDesc(s[1..], x, key);
      HeadBoundsInsert(s, x, key, t);
      SortedDescCons(s[0], t, key);
      assert s == [s[0]] + s[1..];
      [s[0]] + t
    else
      HeadBoundsAll(x, s, key);
      SortedDescCons(x, s, key);
      [x] + s
  }

  /** The head of a sorted sequence bounds its tail with `x` inserted, when
      it bounds `x`. */
  lemma HeadBoundsInsert<T>(s: seq<T>, x: T, key: T -> int, t: seq<T>)
    requires |s| > 0 && SortedDesc(s, key) && key(s[0]) >= key(x)
    requires multiset(t) == multiset(s[1..]) + multiset{x}
    ensures forall y :: y in t ==> key(s[0]) >= key(y)
  {
    forall y | y in t ensures key(s[0]) >= key(y) {
      assert y in multiset(t);
      if y != x {
        assert y in multiset(s[1..]);
        var j :| 0 <= j < |s[1..]| && s[1..][j] == y;
        assert s[j + 1] == y;
      }
    }
  }

  /** A key above the head of a sorted sequence bounds all of it. */
  lemma HeadBoundsAll<T>(x: T, s: seq<T>, key: T -> int)
    requires |s| > 0 && SortedDesc(s, key) && key(x) > key(s[0])
    ensures forall y :: y in s ==> key(x) >= key(y)
  {
    forall y | y in s ensures key(x) >= key(y) {
      var j :| 0 <= j < |s| && s[j] == y;
    }
  }

  /** Stable sort by a key, largest key first; elements with equal keys keep
      their input order. */
  function SortDesc<T>(xs: seq<T>, key: T -> int): (r: seq<T>)
    ensures SortedDesc(r, key)
    ensures multiset(r) == multiset(xs)
  {
    if |xs| == 0 then []
    else
      assert xs == xs[..|xs| - 1] + [xs[|xs| - 1]];
      InsertDesc(SortDesc(xs[..|xs| - 1], key), xs[|xs| - 1], key)
  }

  /** A prefix of a sorted sequence is sorted and drawn from it. */
  lemma SortedDescPrefix<T>(s: seq<T>, key: T -> int, k: nat)
    requires SortedDesc(s, key) && k <= |s|
    ensures SortedDesc(s[..k], key)
    ensures multiset(s[..k]) <= multiset(s)
    ensures forall x :: x in s[..k] ==> x in s
  {
    assert s == s[..k] + s[k..];
    assert multiset(s) == multiset(s[..k]) + multiset(s[k..]);
  }

  /** Cutting a sorted sequence after `k` elements leaves out nothing
      larger than what it keeps. */
  lemma SortedDescCut<T>(s: seq<T>, key: T -> int, k: nat, x: T, y: T)
    requires SortedDesc(s, key) && k <= |s|
    requires x in multiset(s) - multiset(s[..k])
    requires y in s[..k]
    ensures key(x) <= key(y)
  {
    assert s == s[..k] + s[k..];
    assert multiset(s) == multiset(s[..k]) + multiset(s[k..]);
    assert x in multiset(s[k..]);
    var i :| 0 <= i < |s[k..]| && s[k..][i] == x;
    var j :| 0 <= j < k && s[j] == y;
    assert s[k + i] == x;
  }

  /** A slice of a sorted sequence is sorted. */
  lemma SortedDescSlice<T>(s: seq<T>, key: T -> int, lo: nat, hi: nat)
    requires SortedDesc(s, key) && lo <= hi <= |s|
    ensures SortedDesc(s[lo..hi], key)
  {
    forall i, j | 0 <= i < j < hi - lo ensures key(s[lo..hi][i]) >= key(s[lo..hi][j]) {
      assert s[lo..hi][i] == s[lo + i] && s[lo..hi][j] == s[lo + j];
    }
  }

  /** Filtering keeps a sequence sorted. */
  lemma {:induction false} FilterSortedDesc<T(!new)>(xs: seq<T>, p: T -> bool, key: T -> int)
    requires SortedDesc(xs, key)
    ensures SortedDesc(Seqs.Filter(xs, p), key)
  {
    if |xs| > 0 {
      SortedDescSlice(xs, key, 1, |xs|);
      FilterSortedDesc(xs[1..], p, key);
      var rest := Seqs.Filter(xs[1..], p);
      if p(xs[0]) {
        forall y | y in rest ensures key(xs[0]) >= key(y) {
          var j :| 0 <= j < |xs[1..]| && xs[1..][j] == y;
          assert xs[j + 1] == y;
        }
        SortedDescCons(xs[0], rest, key);
      }
    }
  }

  /** Non-decreasing by a string key (`orderBy: { k: "asc" }`). */
  predicate SortedAsc<T>(s: seq<T>, key: T -> string) {
    forall i, j :: 0 <= i < j < |s| ==> !LexLess(key(s[j]), key(s[i]))
  }

  lemma SortedAscCons<T>(h: T, t: seq<T>, key: T -> string)
    requires SortedAsc(t, key)
    requires forall y :: y in t ==> !LexLess(key(y), key(h))
    ensures SortedAsc([h] + t, key)
  {
    forall i, j | 0 <= i < j < |[h] + t| ensures !LexLess(key(([h] + t)[j]), key(([h] + t)[i])) {
      if i > 0 {
        assert ([h] + t)[i] == t[i - 1] && ([h] + t)[j] == t[j - 1];
      } else {
        assert ([h] + t)[j] == t[j - 1] && t[j - 1] in t;
      }
    }
  }

  /** The head of an ascending sorted sequence is not above its tail with
      `x` inserted, when it is not above `x`. */
  lemma AscHeadBoundsInsert<T>(s: seq<T>, x: T, key: T -> string, t: seq<T>)
    requires |s| > 0 && SortedAsc(s, key) && !LexLess(key(x), key(s[0]))
    requires multiset(t) == multiset(s[1..]) + multiset{x}
    ensures forall y :: y in t ==> !LexLess(key(y), key(s[0]))
  {
    forall y | y in t ensures !LexLess(key(y), key(s[0])) {
      assert y in multiset(t);
      if y != x {
        assert y in multiset(s[1..]);
        var j :| 0 <= j < |s[1..]| && s[1..][j] == y;
        assert s[j + 1] == y;
      }
    }
  }

  /** Under an ascending sorted `s`, a key not above the head's is not above
      anyone's. */
  lemma AscHeadBound<T>(s: seq<T>, x: T, key: T -> string)
    requires SortedAsc(s, key) && |s| > 0
    requires LexLess(key(x), key(s[0]))
    ensures forall y :: y in s ==> !LexLess(key(y), key(x))
  {
    forall y | y in s ensures !LexLess(key(y), key(x)) {
      var j :| 0 <= j < |s| && s[j] == y;
      if LexLess(key(y), key(x)) {
        LexTransitive(key(y), key(x), key(s[0]));
        if j == 0 {
          LexIrreflexive(key(s[0]));
        }
      }
    }
  }

  function InsertAsc<T>(s: seq<T>, x: T, key: T -> string): (r: seq<T>)
    requires SortedAsc(s, key)
    ensures SortedAsc(r, key)
    ensures multiset(r) == multiset(s) + multiset{x}
  {
    if |s| == 0 then [x]
    else if !LexLess(key(x), key(s[0])) then
      var t := InsertAsc(s[1..], x, key);
      AscHeadBoundsInsert(s, x, key, t);
      SortedAscCons(s[0], t, key);
      assert s == [s[0]] + s[1..];
      [s[0]] + t
    else
      AscHeadBound(s, x, key);
      SortedAscCons(x, s, key);
      [x] + s
  }

  /** Stable sort by a string key, smallest first. */
  function SortAsc<T>(xs: seq<T>, key: T -> string): (r: seq<T>)
    ensures SortedAsc(r, key)
    ensures multiset(r) == multiset(xs)
  {
    if |xs| == 0 then []
    else
      assert xs == xs[..|xs| - 1] + [xs[|xs| - 1]];
      InsertAsc(SortAsc(xs[..|xs| - 1], key), xs[|xs| - 1], key)
  }
}
