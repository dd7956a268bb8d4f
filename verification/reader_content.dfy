/** The article body of the reader view: markup stripped with the pattern
    `/<[^>]*>/g`, the result trimmed, and the text cut into paragraphs at
    line feeds. */
module ReaderContent {
  import Strings
  import Seqs

  /** Position of the first `c` in `s`, or `|s|`. */
  function IndexOf(s: string, c: char): (i: nat)
    ensures i <= |s|
    ensures i < |s| ==> s[i] == c
    ensures forall k :: 0 <= k < i ==> s[k] != c
  {
    if |s| == 0 then 0 else if s[0] == c then 0 else 1 + IndexOf(s[1..], c)
  }

  /** No `>` anywhere after a `<`: no tag left to match. */
  predicate NoTag(s: string) {
    forall i, j :: 0 <= i < j < |s| && s[i] == '<' ==> s[j] != '>'
  }

  /** `s.replace(/<[^>]*>/g, "")`. Scanning from the left, a `<` that has a
      `>` after it starts a match that runs to the first such `>` and is
      removed; a `<` with no `>` after it stays, and so does everything
      else. */
  function StripTags(s: string): (r: string)
    ensures |r| <= |s|
    ensures forall c :: c in r ==> c in s
    ensures NoTag(r)
    ensures '<' !in s ==> r == s
    decreases |s|
  {
    if |s| == 0 then ""
    else if s[0] == '<' && '>' in s[1..] then
      var k := IndexOf(s[1..], '>');
      StripTags(s[1..][k + 1..])
    else
      var rest := StripTags(s[1..]);
      assert forall c :: c in rest ==> c in s[1..];
      ConsNoTag(s[0], rest, s[1..]);
      [s[0]] + rest
  }

  /** Keeping a character in front of a tag-free text keeps it tag-free
      unless it is a `<` with a `>` somewhere behind it. */
  lemma ConsNoTag(c: char, rest: string, tail: string)
    requires NoTag(rest)
    requires forall x :: x in rest ==> x in tail
    requires c == '<' ==> '>' !in tail
    ensures NoTag([c] + rest)
  {
    var r := [c] + rest;
    forall i, j | 0 <= i < j < |r| && r[i] == '<' ensures r[j] != '>' {
      assert r[j] == rest[j - 1];
      if i == 0 {
        assert rest[j - 1] in rest;
      } else {
        assert r[i] == rest[i - 1];
      }
    }
  }

  /** A tag in front of the text is removed whole: text without `<`, then
      `<`, text without `>`, then `>`, strips to the text and the stripped
      rest. */
  lemma {:induction false} StripTagAhead(a: string, m: string, b: string)
    requires '<' !in a && '>' !in m
    ensures StripTags(a + ("<" + m + ">" + b)) == a + StripTags(b)
    decreases |a|
  {
    var t := "<" + m + ">" + b;
    if |a| == 0 {
      assert a + t == t;
      StripLeadingTag(m, b);
    } else {
      assert '<' !in a[1..] && a[0] != '<' by {
        assert a == [a[0]] + a[1..];
      }
      StripTagAhead(a[1..], m, b);
      Seqs.DropHead(a, t);
      StripKeep(a + t);
      Seqs.ConsAppend(a, StripTags(b));
    }
  }

  /** A first character that starts no tag is kept. */
  lemma StripKeep(s: string)
    requires |s| > 0 && s[0] != '<'
    ensures StripTags(s) == [s[0]] + StripTags(s[1..])
  {
  }

  lemma StripLeadingTag(m: string, b: string)
    requires '>' !in m
    ensures StripTags("<" + m + ">" + b) == StripTags(b)
  {
    var s := "<" + m + ">" + b;
    var t := s[1..];
    assert t == m + ">" + b;
    assert t[|m|] == '>';
    IndexOfAt(t, '>', |m|);
    assert t[|m| + 1..] == b;
  }

  lemma {:induction false} IndexOfAt(s: string, c: char, k: nat)
    requires k < |s| && s[k] == c
    requires forall j :: 0 <= j < k ==> s[j] != c
    ensures IndexOf(s, c) == k
  {
    if k > 0 {
      IndexOfAt(s[1..], c, k - 1);
    }
  }

  /** Text with no tag left passes through unchanged; in particular
      stripping twice is stripping once. */
  lemma {:induction false} StripNoTag(s: string)
    requires NoTag(s)
    ensures StripTags(s) == s
    decreases |s|
  {
    if |s| > 0 {
      assert NoTag(s[1..]) by {
        forall i, j | 0 <= i < j < |s[1..]| && s[1..][i] == '<' ensures s[1..][j] != '>' {
          assert s[i + 1] == '<';
        }
      }
      StripNoTag(s[1..]);
      if s[0] == '<' {
        assert '>' !in s[1..] by {
          forall j | 0 <= j < |s[1..]| ensures s[1..][j] != '>' {
            assert s[j + 1] == s[1..][j];
          }
        }
      }
      assert s == [s[0]] + s[1..];
    }
  }

  lemma StripIdempotent(s: string)
    ensures StripTags(StripTags(s)) == StripTags(s)
  {
    StripNoTag(StripTags(s));
  }

  /** The displayed text: stripped, then trimmed. */
  function Processed(description: string): (r: string)
    ensures Strings.IsTrimmed(r)
    ensures NoTag(r)
    ensures '<' !in description ==> r == Strings.Trim(description)
  {
    var stripped := StripTags(description);
    InfixNoTag(stripped);
    Strings.Trim(stripped)
  }

  lemma InfixNoTag(s: string)
    requires NoTag(s)
    ensures NoTag(Strings.Trim(s))
  {
    var i := Strings.SkipLeading(s, 0);
    var t := Strings.Trim(s);
    assert t == s[i..Strings.SkipTrailing(s, i, |s|)];
    forall a, b | 0 <= a < b < |t| && t[a] == '<' ensures t[b] != '>' {
      assert t[a] == s[i + a] && t[b] == s[i + b];
    }
  }

  /** `processed.split("\n")`: one paragraph per line. */
  function Paragraphs(description: string): (r: seq<string>)
    ensures |r| == Strings.Count(Processed(description), '\n') + 1
    ensures Strings.Join(r, "\n") == Processed(description)
    ensures forall k :: 0 <= k < |r| ==> '\n' !in r[k]
  {
    var text := Processed(description);
    Strings.SplitCount(text, '\n');
    Strings.SplitJoin(text, '\n');
    Strings.SplitPiecesFree(text, {'\n'});
    var r := Strings.Split(text, {'\n'});
    assert forall k :: 0 <= k < |r| ==> '\n' !in r[k] by {
      forall k | 0 <= k < |r| ensures '\n' !in r[k] {
        assert forall i :: 0 <= i < |r[k]| ==> r[k][i] !in {'\n'};
      }
    }
    r
  }
}
