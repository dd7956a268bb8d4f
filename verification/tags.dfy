/** Tag lists typed or returned as free text: the text is split on a class
    of separator characters, every piece is trimmed, and blank pieces are
    dropped. The separator class is a parameter because the two call sites
    use different classes. */
module Tags {
  import Strings

  /** A tag as every parse yields it. */
  predicate Clean(t: string, seps: set<char>) {
    |t| > 0 && Strings.IsTrimmed(t) && Strings.NoneIn(t, seps)
  }

  /** `.map(t => t.trim()).filter(t => t.length > 0)` over the pieces. */
  function TrimNonBlank(pieces: seq<string>): (r: seq<string>)
    ensures |r| <= |pieces|
  {
    if |pieces| == 0 then []
    else
      var t := Strings.Trim(pieces[0]);
      (if t == "" then [] else [t]) + TrimNonBlank(pieces[1..])
  }

  /** `text.split(/[seps]/).map(t => t.trim()).filter(t => t.length > 0)`. */
  function Parse(text: string, seps: set<char>): (tags: seq<string>)
    ensures forall i :: 0 <= i < |tags| ==> Clean(tags[i], seps)
  {
    var pieces := Strings.Split(text, seps);
    Strings.SplitPiecesFree(text, seps);
    PiecesClean(pieces, seps);
    TrimNonBlank(pieces)
  }

  lemma {:induction false} PiecesClean(pieces: seq<string>, seps: set<char>)
    requires forall k, i :: 0 <= k < |pieces| && 0 <= i < |pieces[k]| ==> pieces[k][i] !in seps
    ensures forall i :: 0 <= i < |TrimNonBlank(pieces)| ==> Clean(TrimNonBlank(pieces)[i], seps)
  {
    if |pieces| > 0 {
      PiecesClean(pieces[1..], seps);
      assert Strings.NoneIn(pieces[0], seps) by {
        forall i | 0 <= i < |pieces[0]| ensures pieces[0][i] !in seps {
        }
      }
      TrimFree(pieces[0], seps);
    }
  }

  /** Trimming never introduces a character. */
  lemma TrimFree(s: string, seps: set<char>)
    requires Strings.NoneIn(s, seps)
    ensures Strings.NoneIn(Strings.Trim(s), seps)
  {
    var i := Strings.SkipLeading(s, 0);
    var j := Strings.SkipTrailing(s, i, |s|);
    assert Strings.Trim(s) == s[i..j];
    forall k | 0 <= k < j - i ensures s[i..j][k] !in seps {
      assert s[i..j][k] == s[i + k];
    }
  }

  /** The edit form shows a feed's tags joined with `", "`. */
  function Show(tags: seq<string>): string {
    Strings.Join(tags, ", ")
  }

  /** Joining clean tags with `", "` and parsing the text gives the tags
      back, provided the comma separates and the space does not. */
  lemma ShowParse(tags: seq<string>, seps: set<char>)
    requires ',' in seps && ' ' !in seps
    requires forall i :: 0 <= i < |tags| ==> Clean(tags[i], seps)
    ensures Parse(Show(tags), seps) == tags
  {
    assert "" + Show(tags) == Show(tags);
    ShowParseAfter("", tags, seps);
  }

  /** The round trip, generalised over blank text in front. */
  lemma {:induction false} ShowParseAfter(w: string, tags: seq<string>, seps: set<char>)
    requires ',' in seps && ' ' !in seps
    requires Strings.AllWhitespace(w) && Strings.NoneIn(w, seps)
    requires forall i :: 0 <= i < |tags| ==> Clean(tags[i], seps)
    ensures Parse(w + Show(tags), seps) == tags
    decreases |tags|
  {
    if |tags| == 0 {
      assert w + Show(tags) == w;
      Strings.SplitFree(w, seps);
      BlankTrims(w);
    } else if |tags| == 1 {
      var t := tags[0];
      assert w + Show(tags) == w + t;
      WordFree(w, t, seps);
      Strings.SplitFree(w + t, seps);
      PaddedTrims(w, t);
    } else {
      ShowParseAfter(" ", tags[1..], seps);
      ShowParseCons(w, tags, seps);
    }
  }

  /** One step of the round trip: the first tag, then the rest behind a
      space. */
  lemma ShowParseCons(w: string, tags: seq<string>, seps: set<char>)
    requires ',' in seps && ' ' !in seps && |tags| > 1
    requires Strings.AllWhitespace(w) && Strings.NoneIn(w, seps)
    requires Clean(tags[0], seps)
    requires Parse(" " + Show(tags[1..]), seps) == tags[1..]
    ensures Parse(w + Show(tags), seps) == tags
  {
    var t := tags[0];
    var rest := Show(tags[1..]);
    assert w + Show(tags) == (w + t) + [','] + (" " + rest);
    WordFree(w, t, seps);
    Strings.SplitAfterFree(w + t, ',', " " + rest, seps);
    PaddedTrims(w, t);
    var pieces := Strings.Split(w + Show(tags), seps);
    assert pieces == [w + t] + Strings.Split(" " + rest, seps);
    assert pieces[1..] == Strings.Split(" " + rest, seps);
    assert tags == [t] + tags[1..];
  }

  lemma WordFree(w: string, t: string, seps: set<char>)
    requires Strings.NoneIn(w, seps) && Strings.NoneIn(t, seps)
    ensures Strings.NoneIn(w + t, seps)
  {
    forall i | 0 <= i < |w + t| ensures (w + t)[i] !in seps {
      if i >= |w| {
        assert (w + t)[i] == t[i - |w|];
      }
    }
  }

  /** Blank text parses to no tags. */
  lemma BlankTrims(w: string)
    requires Strings.AllWhitespace(w)
    ensures TrimNonBlank([w]) == []
  {
    Strings.TrimEmptyIffBlank(w);
  }

  /** A clean word behind blanks trims to itself. */
  lemma PaddedTrims(w: string, t: string)
    requires Strings.AllWhitespace(w) && |t| > 0 && Strings.IsTrimmed(t)
    ensures TrimNonBlank([w + t]) == [t]
  {
    var s := w + t;
    assert s[|w|..|s|] == t;
    assert s[..|w|] == w;
    assert s[|s|..] == [];
    Strings.TrimUnique(s, |w|, |s|);
    assert TrimNonBlank([s][1..]) == [];
  }
}
