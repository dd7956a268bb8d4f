/** What the client pages share about the feed list: the list of all tags,
    the check of a URL typed into the add-feed form, the exclusive
    selection of one feed or one tag, and the fallback text of an error
    reply. */
module ClientFeeds {
  import opened Wrappers
  import Strings
  import Ordering
  import Store
  import ItemRoutes

  /** Messages are written as translation keys with their namespace: a
      lookup of `k` through `useTranslations('home')` is `home.k`, one
      through `useTranslations()` is `k` itself. */
  function Home(key: string): string {
    "home." + key
  }

  /** The shared texts of a failed request, outside any namespace. */
  const UnknownKey: string := "errors.unknown"
  const NetworkKey: string := "errors.network"

  /** `data.error || fallback`: the reply's message unless it is absent or
      empty. */
  function OrElse(message: Option<string>, fallback: string): (r: string)
    ensures r == fallback || (message.Some? && r == message.value && r != "")
    ensures fallback != "" ==> r != ""
  {
    if ItemRoutes.Given(message) then message.value else fallback
  }

  /* ----- All tags ----- */

  /** Some feed of the list carries the tag. */
  predicate Tagged(feeds: seq<Store.Feed>, t: string) {
    exists j :: 0 <= j < |feeds| && t in feeds[j].tags
  }

  function TagLists(feeds: seq<Store.Feed>): (r: seq<seq<string>>)
    ensures |r| == |feeds|
    ensures forall j :: 0 <= j < |feeds| ==> r[j] == feeds[j].tags
  {
    seq(|feeds|, j requires 0 <= j < |feeds| => feeds[j].tags)
  }

  /** `getAllTags` and `allTags`: every tag of every feed, once, in
      ascending order. */
  function AllTags(feeds: seq<Store.Feed>): (r: seq<string>)
    ensures Ordering.StrictlySorted(r)
    ensures forall t :: t in r <==> Tagged(feeds, t)
  {
    Ordering.SortedUnion(TagLists(feeds))
  }

  /** The tag list depends only on which tags occur: any strictly sorted
      list of exactly those tags is it. In particular the order of the
      feeds does not matter. */
  lemma AllTagsUnique(feeds: seq<Store.Feed>, s: seq<string>)
    requires Ordering.StrictlySorted(s)
    requires forall t :: t in s <==> Tagged(feeds, t)
    ensures s == AllTags(feeds)
  {
    Ordering.SortedUnique(s, AllTags(feeds));
  }

  lemma AllTagsSameTags(a: seq<Store.Feed>, b: seq<Store.Feed>)
    requires forall t :: Tagged(a, t) <==> Tagged(b, t)
    ensures AllTags(a) == AllTags(b)
  {
    AllTagsUnique(b, AllTags(a));
  }

  /* ----- The add-feed form ----- */

  datatype UrlCheck = Blank | NotHttp | Accepted

  /** The two checks before a feed is added: a URL that is blank after
      trimming is refused first; then the URL as typed, untrimmed, must
      start with `http://` or `https://`. */
  function CheckUrl(url: string): (r: UrlCheck)
    ensures r == Blank <==> Strings.AllWhitespace(url)
    ensures r == Accepted <==>
              !Strings.AllWhitespace(url)
              && (Strings.StartsWith(url, "http://") || Strings.StartsWith(url, "https://"))
  {
    Strings.TrimEmptyIffBlank(url);
    if Strings.Trim(url) == "" then Blank
    else if !Strings.StartsWith(url, "http://") && !Strings.StartsWith(url, "https://") then NotHttp
    else Accepted
  }

  /** The scheme is checked on the text as typed: a valid URL behind a
      space is refused, although it trims to an accepted one. */
  lemma LeadingSpaceRefused(url: string)
    requires Strings.StartsWith(url, "http://")
    ensures CheckUrl(url) == Accepted
    ensures CheckUrl(" " + url) == NotHttp
  {
    assert url[0] == 'h' && !Strings.IsWhitespace(url[0]);
    assert (" " + url)[1] == url[0];
    assert !Strings.AllWhitespace(" " + url);
  }

  /* ----- Selection ----- */

  /** The selected feed and the selected tag of the sidebar and the pages. */
  datatype Selection = Selection(feedId: Option<string>, tag: Option<string>)

  const NoSelection: Selection := Selection(None, None)

  /** At most one of the two is set. */
  predicate Exclusive(s: Selection) {
    s.feedId.None? || s.tag.None?
  }

  datatype Click = FeedClick(id: string) | AllFeedsClick | TagClick(tag: Option<string>)

  /** A feed click selects the feed and clears the tag, a tag click selects
      the tag and clears the feed, "all feeds" clears both. */
  function Select(c: Click): (r: Selection)
    ensures Exclusive(r)
    ensures c.FeedClick? <==> r.feedId.Some?
    ensures c.TagClick? ==> r.tag == c.tag
    ensures c.AllFeedsClick? ==> r == NoSelection
  {
    match c
    case FeedClick(id) => Selection(Some(id), None)
    case AllFeedsClick => NoSelection
    case TagClick(t) => Selection(None, t)
  }

  /** The selection after a run of clicks. */
  function AfterClicks(s: Selection, clicks: seq<Click>): Selection
    decreases |clicks|
  {
    if |clicks| == 0 then s else AfterClicks(Select(clicks[0]), clicks[1..])
  }

  /** Whatever came before, the last click alone decides the selection, and
      the selection is exclusive after any click. */
  lemma {:induction false} LastClickDecides(s: Selection, clicks: seq<Click>)
    requires |clicks| > 0
    ensures AfterClicks(s, clicks) == Select(clicks[|clicks| - 1])
    ensures Exclusive(AfterClicks(s, clicks))
    decreases |clicks|
  {
    if |clicks| > 1 {
      LastClickDecides(Select(clicks[0]), clicks[1..]);
    }
  }

  /** After the feed `feedId` is deleted: a selection of that feed is
      cleared, the tag and any other selection are kept. */
  function AfterDelete(s: Selection, feedId: string): (r: Selection)
    ensures r.tag == s.tag
    ensures r.feedId == if s.feedId == Some(feedId) then None else s.feedId
    ensures Exclusive(s) ==> Exclusive(r)
  {
    if s.feedId == Some(feedId) then s.(feedId := None) else s
  }
}
