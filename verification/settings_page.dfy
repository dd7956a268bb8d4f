/** The feed settings page: tag text typed into its forms, the edit form
    that shows a feed's tags joined and saves them split again, the
    selection of feeds for a batch edit, and the batch edit itself, which
    adds the typed tags to the selected feeds one request at a time. */
module SettingsPage {
  import opened Wrappers
  import Strings
  import Seqs
  import Store
  import Tags
  import Categorizer
  import ClientFeeds
  import FeedActions

  /* ----- The separator class ----- */

  /** The class `[,…]` as it reads in the file: the full-width comma
      U+FF0C appears as the three characters its UTF-8 bytes EF BC 8C
      give in Mac Roman. */
  const SeparatorsAsWritten: set<char> := {',', 'Ô', 'º', 'å'}

  /** The class evidently meant, the one the categorizer splits on: the
      comma and the full-width comma. */
  const Separators: set<char> := Categorizer.Separators

  /** Tag text as the forms of this page read it, split on the class
      `seps` (`SeparatorsAsWritten` or `Separators`). */
  function ParseTags(text: string, seps: set<char>): (tags: seq<string>)
    ensures forall i :: 0 <= i < |tags| ==> Tags.Clean(tags[i], seps)
    ensures forall c :: c in seps ==> forall i :: 0 <= i < |tags| ==> c !in tags[i]
  {
    Tags.Parse(text, seps)
  }

  /** A clean tag parses to itself. */
  lemma ParseWord(w: string, seps: set<char>)
    requires Tags.Clean(w, seps)
    ensures Tags.Parse(w, seps) == [w]
  {
    Strings.SplitFree(w, seps);
    Strings.TrimIdentity(w);
  }

  /** Two clean tags around a separator parse to the two. */
  lemma ParsePair(a: string, c: char, b: string, seps: set<char>)
    requires Tags.Clean(a, seps) && Tags.Clean(b, seps) && c in seps
    ensures Tags.Parse(a + [c] + b, seps) == [a, b]
  {
    Strings.SplitAfterFree(a, c, b, seps);
    Strings.SplitFree(b, seps);
    Strings.TrimIdentity(a);
    Strings.TrimIdentity(b);
    assert Strings.Split(a + [c] + b, seps) == [a, b];
    assert [a, b][1..] == [b] && [b][1..] == [];
    assert Tags.TrimNonBlank([b]) == [b];
    assert Tags.TrimNonBlank([a, b]) == [a] + [b];
  }

  /** As written, a full-width comma does not separate tags. */
  lemma FullWidthCommaAsWritten()
    ensures ParseTags("科技，新闻", SeparatorsAsWritten) == ["科技，新闻"]
  {
    ParseWord("科技，新闻", SeparatorsAsWritten);
  }

  lemma FullWidthComma()
    ensures ParseTags("科技，新闻", Separators) == ["科技", "新闻"]
  {
    assert "科技，新闻" == "科技" + ['，'] + "新闻";
    ParsePair("科技", '，', "新闻", Separators);
  }

  /** As written, a tag that contains an "å" falls apart. */
  lemma LetterSplitAsWritten()
    ensures ParseTags("Småland", SeparatorsAsWritten) == ["Sm", "land"]
  {
    assert "Småland" == "Sm" + ['å'] + "land";
    ParsePair("Sm", 'å', "land", SeparatorsAsWritten);
  }

  lemma LetterKept()
    ensures ParseTags("Småland", Separators) == ["Småland"]
  {
    ParseWord("Småland", Separators);
  }

  /** As written, opening the edit form of a feed and saving it unchanged
      alters its tags: a tag the categorizer may well return is split. With
      the class evidently meant the tag comes back. */
  lemma EditRoundTripAsWritten(s: State, defaultRead: bool)
    ensures Tags.Clean("Småland", Categorizer.Separators)
    ensures var feed := Store.Feed("f", "u", "https://example.org/rss", None, ["Småland"], None, 0);
            && SaveEdit(OpenEdit(s, feed, defaultRead), SeparatorsAsWritten) == Some(UpdateFeed("f", ["Sm", "land"], defaultRead))
            && SaveEdit(OpenEdit(s, feed, defaultRead), Separators) == Some(UpdateFeed("f", ["Småland"], defaultRead))
  {
    assert Tags.Clean("Småland", Separators) by {
      ParseWord("Småland", SeparatorsAsWritten - {'å'});
    }
    LetterSplitAsWritten();
    LetterKept();
    assert Tags.Show(["Småland"]) == "Småland";
  }

  /* ----- The page state ----- */

  datatype State = State(
    feeds: seq<Store.Feed>,
    editingTags: string,
    editingFeedId: Option<string>,
    formTags: string,
    formDefaultRead: bool,
    batchEditMode: bool,
    // A JavaScript `Set` of ids: no repeats, in insertion order.
    selected: seq<string>,
    batchTags: string,
    loading: bool,
    error: string)

  /** A request to add tags to a feed, or to replace its tags and default
      read state. */
  datatype Request =
    | AddTags(feedId: string, tags: seq<string>)
    | UpdateFeed(feedId: string, tags: seq<string>, defaultRead: bool)

  /** `handleSaveTags`: the typed tags are added unless none are left after
      parsing. */
  function SaveTags(editingTags: string, feedId: string, seps: set<char>): (r: Option<Request>)
    ensures r.Some? <==> |ParseTags(editingTags, seps)| > 0
    ensures r.Some? ==> r.value == AddTags(feedId, ParseTags(editingTags, seps))
  {
    var tags := ParseTags(editingTags, seps);
    if |tags| > 0 then Some(AddTags(feedId, tags)) else None
  }

  /** `openEdit`: the form shows the feed's tags joined with ", ". */
  function OpenEdit(s: State, feed: Store.Feed, defaultRead: bool): (r: State)
    ensures r.editingFeedId == Some(feed.id) && r.formTags == Tags.Show(feed.tags)
    ensures r.formDefaultRead == defaultRead && r.selected == s.selected && r.feeds == s.feeds
  {
    s.(editingFeedId := Some(feed.id), formTags := Tags.Show(feed.tags), formDefaultRead := defaultRead)
  }

  /** `handleSaveEdit`: nothing without a feed being edited; otherwise its
      tags, possibly none, and its default read state. */
  function SaveEdit(s: State, seps: set<char>): (r: Option<Request>)
    ensures r.Some? <==> s.editingFeedId.Some?
    ensures r.Some? ==> r.value == UpdateFeed(s.editingFeedId.value, ParseTags(s.formTags, seps), s.formDefaultRead)
  {
    if s.editingFeedId.None? then None
    else Some(UpdateFeed(s.editingFeedId.value, ParseTags(s.formTags, seps), s.formDefaultRead))
  }

  /** Opening the edit form and saving it unchanged sends the feed's own
      tags back, for any tags parsing with the same class could have
      produced. */
  lemma EditRoundTrip(s: State, feed: Store.Feed, defaultRead: bool, seps: set<char>)
    requires ',' in seps && ' ' !in seps
    requires forall i :: 0 <= i < |feed.tags| ==> Tags.Clean(feed.tags[i], seps)
    ensures SaveEdit(OpenEdit(s, feed, defaultRead), seps) == Some(UpdateFeed(feed.id, feed.tags, defaultRead))
  {
    Tags.ShowParse(feed.tags, seps);
  }

  /* ----- Selecting feeds for a batch edit ----- */

  /** `Set.delete`. */
  function Remove(xs: seq<string>, x: string): (r: seq<string>)
    ensures forall y :: y in r <==> y in xs && y != x
    ensures Seqs.NoRepeats(xs) ==> Seqs.NoRepeats(r)
    ensures |r| <= |xs|
  {
    var r := Seqs.Filter(xs, (y: string) => y != x);
    assert Seqs.NoRepeats(xs) ==> Seqs.NoRepeats(r) by {
      if Seqs.NoRepeats(xs) {
        RemoveKeepsOrder(xs, x);
      }
    }
    r
  }

  lemma {:induction false} RemoveKeepsOrder(xs: seq<string>, x: string)
    requires Seqs.NoRepeats(xs)
    ensures Seqs.NoRepeats(Seqs.Filter(xs, (y: string) => y != x))
  {
    if |xs| > 0 {
      var rest := Seqs.Filter(xs[1..], (y: string) => y != x);
      assert Seqs.NoRepeats(xs[1..]) by {
        forall i, j | 0 <= i < j < |xs[1..]| ensures xs[1..][i] != xs[1..][j] {
          assert xs[1..][i] == xs[i + 1] && xs[1..][j] == xs[j + 1];
        }
      }
      RemoveKeepsOrder(xs[1..], x);
      assert xs[0] !in xs[1..];
      assert xs[0] !in rest;
    }
  }

  /** `toggleSelectFeed`: the id leaves the set if it was in, and joins it
      at the end otherwise. */
  function Toggle(selected: seq<string>, id: string): (r: seq<string>)
    ensures forall x :: x in r <==> (x in selected <==> x != id)
    ensures Seqs.NoRepeats(selected) ==> Seqs.NoRepeats(r)
  {
    if id in selected then Remove(selected, id) else selected + [id]
  }

  /** Toggling twice restores the members. The order is restored too
      unless the id was in the set and not last: it then moves to the
      end, which changes the order of the batch requests. */
  lemma ToggleTwice(selected: seq<string>, id: string)
    requires Seqs.NoRepeats(selected)
    ensures forall x :: x in Toggle(Toggle(selected, id), id) <==> x in selected
    ensures id !in selected ==> Toggle(Toggle(selected, id), id) == selected
    ensures |selected| > 1 && selected[0] == id ==> Toggle(Toggle(selected, id), id) != selected
  {
    if id !in selected {
      Seqs.FilterAll(selected, (y: string) => y != id);
      Seqs.FilterAppend(selected, [id], (y: string) => y != id);
    }
    if |selected| > 1 && selected[0] == id {
      var r := Toggle(Toggle(selected, id), id);
      var rem := Remove(selected, id);
      assert selected[1] in rem;
      assert r == rem + [id];
      assert r[0] == rem[0] && rem[0] in rem;
    }
  }

  /** `new Set(ids)`: the ids in order of first appearance. */
  function Dedup(xs: seq<string>): (r: seq<string>)
    ensures Seqs.NoRepeats(r)
    ensures forall x :: x in r <==> x in xs
    ensures Seqs.NoRepeats(xs) ==> r == xs
  {
    if |xs| == 0 then []
    else
      var init := xs[..|xs| - 1];
      var last := xs[|xs| - 1];
      assert xs == init + [last];
      assert Seqs.NoRepeats(xs) ==> Seqs.NoRepeats(init) && last !in init by {
        if Seqs.NoRepeats(xs) {
          forall i, j | 0 <= i < j < |init| ensures init[i] != init[j] {
            assert init[i] == xs[i] && init[j] == xs[j];
          }
        }
      }
      var r := Dedup(init);
      if last in r then r else r + [last]
  }

  function FeedIds(feeds: seq<Store.Feed>): (r: seq<string>)
    ensures |r| == |feeds|
    ensures forall j :: 0 <= j < |feeds| ==> r[j] == feeds[j].id
  {
    seq(|feeds|, j requires 0 <= j < |feeds| => feeds[j].id)
  }

  /** `selectAllFeeds`: a selection as large as the feed list is cleared,
      any other becomes every feed. */
  function SelectAll(selected: seq<string>, feeds: seq<Store.Feed>): (r: seq<string>)
    ensures Seqs.NoRepeats(r)
    ensures |selected| == |feeds| ==> r == []
    ensures |selected| != |feeds| ==> forall x :: x in r <==> x in FeedIds(feeds)
  {
    if |selected| == |feeds| then [] else Dedup(FeedIds(feeds))
  }

  /** With distinct feed ids and a selection of feeds of the list, "select
      all" is a switch: it clears a full selection and fills any other. */
  lemma SelectAllSwitch(selected: seq<string>, feeds: seq<Store.Feed>)
    requires Seqs.NoRepeats(FeedIds(feeds)) && Seqs.NoRepeats(selected)
    requires forall x :: x in selected ==> x in FeedIds(feeds)
    ensures (forall x :: x in FeedIds(feeds) ==> x in selected) ==> SelectAll(selected, feeds) == []
    ensures !(forall x :: x in FeedIds(feeds) ==> x in selected) ==> SelectAll(selected, feeds) == FeedIds(feeds)
  {
    var ids := FeedIds(feeds);
    var a, b := set x | x in selected, set x | x in ids;
    Seqs.SetSize(selected);
    Seqs.SetSize(ids);
    assert a <= b;
    if forall x :: x in ids ==> x in selected {
      assert a == b;
    } else {
      var x :| x in ids && x !in selected;
      Seqs.SubsetSize(a, b - {x});
      assert b == (b - {x}) + {x};
    }
  }

  /** The size test can be fooled: a selection that still holds the id of
      a feed no longer listed, and is as large as the list, is cleared
      although a listed feed is unselected. */
  lemma SelectAllStale(feed: Store.Feed, gone: string)
    requires gone != feed.id
    ensures SelectAll([gone], [feed]) == []
    ensures feed.id !in [gone]
  {
  }

  /* ----- Batch edit ----- */

  const NoneSelectedKey: string := "settings.feeds.selected"
  const RequiredKey: string := "errors.required"

  /** The number of requests the batch loop sends: up to and including the
      first one that does not succeed. */
  function Attempts(ids: seq<string>, answer: string -> FeedActions.Reply): (n: nat)
    ensures n <= |ids|
    ensures forall k :: 0 <= k < n - 1 ==> answer(ids[k]).Ok?
    ensures n < |ids| ==> n > 0 && !answer(ids[n - 1]).Ok?
  {
    if |ids| == 0 then 0
    else if !answer(ids[0]).Ok? then 1
    else 1 + Attempts(ids[1..], answer)
  }

  /** Every request of the batch loop succeeds. */
  predicate AllAdded(ids: seq<string>, answer: string -> FeedActions.Reply) {
    forall k :: 0 <= k < |ids| ==> answer(ids[k]).Ok?
  }

  /** `handleBatchUpdateTags`. `answer` is how the endpoint answers the
      request for each feed. Returns the state afterwards and the
      requests sent, in order. */
  method BatchUpdate(s: State, seps: set<char>, answer: string -> FeedActions.Reply) returns (r: State, sent: seq<Request>)
    // An empty selection is reported first, then an empty tag list; then
    // nothing is sent.
    ensures |s.selected| == 0 ==> sent == [] && r == s.(error := NoneSelectedKey)
    ensures |s.selected| > 0 && |ParseTags(s.batchTags, seps)| == 0 ==> sent == [] && r == s.(error := RequiredKey)
    // Otherwise the feeds are asked in order, up to the first failure.
    ensures |s.selected| > 0 && |ParseTags(s.batchTags, seps)| > 0 ==>
              && |sent| == Attempts(s.selected, answer)
              && (forall k :: 0 <= k < |sent| ==> sent[k] == AddTags(s.selected[k], ParseTags(s.batchTags, seps)))
              && !r.loading
    // Only a run without failure ends the batch edit.
    ensures |s.selected| > 0 && |ParseTags(s.batchTags, seps)| > 0 && AllAdded(s.selected, answer) ==>
              && r == s.(batchEditMode := false, selected := [], batchTags := "", error := "", loading := false)
    ensures |s.selected| > 0 && |ParseTags(s.batchTags, seps)| > 0 && !AllAdded(s.selected, answer) ==>
              && r.selected == s.selected && r.batchEditMode == s.batchEditMode && r.error != ""
  {
    if |s.selected| == 0 {
      return s.(error := NoneSelectedKey), [];
    }
    var tags := ParseTags(s.batchTags, seps);
    if |tags| == 0 {
      return s.(error := RequiredKey), [];
    }
    sent := [];
    var i := 0;
    while i < |s.selected|
      invariant 0 <= i <= |s.selected|
      invariant |sent| == i
      invariant forall k :: 0 <= k < i ==> sent[k] == AddTags(s.selected[k], tags) && answer(s.selected[k]).Ok?
      invariant Attempts(s.selected, answer) == i + Attempts(s.selected[i..], answer)
    {
      var id := s.selected[i];
      sent := sent + [AddTags(id, tags)];
      assert s.selected[i..][1..] == s.selected[i + 1..];
      var reply := answer(id);
      if reply.NotOk? {
        return s.(error := ClientFeeds.OrElse(reply.error, ClientFeeds.UnknownKey), loading := false), sent;
      } else if reply.Thrown? {
        return s.(error := ClientFeeds.NetworkKey, loading := false), sent;
      }
      i := i + 1;
    }
    r := s.(batchEditMode := false, selected := [], batchTags := "", error := "", loading := false);
  }
}
