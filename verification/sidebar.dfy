/** The sidebar: its feed list with the collapse rule and the one-time
    background refresh of all feeds, the add-feed form, and the selection
    of a feed or a tag, which it reports to the page that holds it. */
module Sidebar {
  import opened Wrappers
  import Store
  import ClientFeeds
  import FeedActions

  datatype State = State(
    feeds: seq<Store.Feed>,
    feedsExpanded: bool,
    // `autoRefreshedRef`: a ref, so it lives as long as the sidebar.
    autoRefreshed: bool,
    selection: ClientFeeds.Selection,
    newFeedUrl: string,
    loading: bool,
    error: string,
    refreshing: Option<string>,
    deletingFeed: Option<string>,
    refreshingAll: bool)

  const Initial: State := State([], true, false, ClientFeeds.NoSelection, "", false, "", None, None, false)

  /** More feeds than this collapse the list. */
  const CollapseAbove: nat := 10

  /** `fetchFeeds` once the response is in: `None` for a failed request or a
      non-ok response, which change nothing. The flag tells whether the
      background refresh of all feeds was started. */
  function Fetched(s: State, reply: Option<seq<Store.Feed>>): (r: (State, bool))
    ensures reply.None? ==> r == (s, false)
    ensures reply.Some? ==> r.0 == s.(feeds := reply.value, feedsExpanded := r.0.feedsExpanded,
                                      autoRefreshed := r.0.autoRefreshed)
    // The list collapses when more than ten feeds arrive, and is never
    // expanded here.
    ensures r.0.feedsExpanded <==> s.feedsExpanded && !(reply.Some? && |reply.value| > CollapseAbove)
    // The refresh starts on the first non-empty list only.
    ensures r.1 <==> reply.Some? && !s.autoRefreshed && |reply.value| > 0
    ensures r.0.autoRefreshed <==> s.autoRefreshed || r.1
  {
    match reply
    case None => (s, false)
    case Some(feeds) =>
      var fire := !s.autoRefreshed && |feeds| > 0;
      (s.(feeds := feeds,
          feedsExpanded := if |feeds| > CollapseAbove then false else s.feedsExpanded,
          autoRefreshed := s.autoRefreshed || fire),
       fire)
  }

  /** A run of fetches: the state afterwards and how many times the
      background refresh was started. */
  function FetchAll(s: State, replies: seq<Option<seq<Store.Feed>>>): (r: (State, nat))
    decreases |replies|
  {
    if |replies| == 0 then (s, 0)
    else
      var (s1, fired) := Fetched(s, replies[0]);
      var (s2, n) := FetchAll(s1, replies[1..]);
      (s2, n + if fired then 1 else 0)
  }

  /** Some reply of the run brought at least one feed. */
  predicate SomeFeeds(replies: seq<Option<seq<Store.Feed>>>) {
    exists k :: 0 <= k < |replies| && replies[k].Some? && |replies[k].value| > 0
  }

  /** Over the life of a sidebar the background refresh starts at most
      once, and it starts exactly when some fetch brought a feed. */
  lemma {:induction false} RefreshAtMostOnce(s: State, replies: seq<Option<seq<Store.Feed>>>)
    ensures FetchAll(s, replies).1 <= 1
    ensures s.autoRefreshed ==> FetchAll(s, replies).1 == 0
    ensures !s.autoRefreshed ==> (FetchAll(s, replies).1 == 1 <==> SomeFeeds(replies))
    decreases |replies|
  {
    if |replies| > 0 {
      var (s1, fired) := Fetched(s, replies[0]);
      RefreshAtMostOnce(s1, replies[1..]);
      assert SomeFeeds(replies) <==> (replies[0].Some? && |replies[0].value| > 0) || SomeFeeds(replies[1..]) by {
        if SomeFeeds(replies[1..]) {
          var k :| 0 <= k < |replies[1..]| && replies[1..][k].Some? && |replies[1..][k].value| > 0;
          assert replies[k + 1] == replies[1..][k];
        }
        if SomeFeeds(replies) {
          var k :| 0 <= k < |replies| && replies[k].Some? && |replies[k].value| > 0;
          if k > 0 {
            assert replies[1..][k - 1] == replies[k];
          }
        }
      }
    }
  }

  /** Fetching never expands the list, and once more than ten feeds
      arrived it stays collapsed. */
  lemma {:induction false} NeverExpands(s: State, replies: seq<Option<seq<Store.Feed>>>)
    ensures FetchAll(s, replies).0.feedsExpanded ==> s.feedsExpanded
    ensures (exists k :: 0 <= k < |replies| && replies[k].Some? && |replies[k].value| > CollapseAbove)
            ==> !FetchAll(s, replies).0.feedsExpanded
    decreases |replies|
  {
    if |replies| > 0 {
      var (s1, _) := Fetched(s, replies[0]);
      NeverExpands(s1, replies[1..]);
      if exists k :: 0 <= k < |replies| && replies[k].Some? && |replies[k].value| > CollapseAbove {
        var k :| 0 <= k < |replies| && replies[k].Some? && |replies[k].value| > CollapseAbove;
        if k > 0 {
          assert replies[1..][k - 1] == replies[k];
        }
      }
    }
  }

  /* ----- Selection, reported to the page ----- */

  /** What the sidebar tells the page: `onFeedSelect` or `onTagSelect`. */
  datatype Notice = FeedSelected(feedId: Option<string>) | TagSelected(tag: Option<string>)

  /** The three click handlers: the new selection and the notice. */
  function Clicked(s: State, c: ClientFeeds.Click): (r: (State, Notice))
    ensures r.0 == s.(selection := ClientFeeds.Select(c))
    ensures r.1 == match c
                   case FeedClick(id) => FeedSelected(Some(id))
                   case AllFeedsClick => FeedSelected(None)
                   case TagClick(t) => TagSelected(t)
  {
    match c
    case FeedClick(id) => (s.(selection := ClientFeeds.Selection(Some(id), None)), FeedSelected(Some(id)))
    case AllFeedsClick => (s.(selection := ClientFeeds.NoSelection), FeedSelected(None))
    case TagClick(t) => (s.(selection := ClientFeeds.Selection(None, t)), TagSelected(t))
  }

  /** `handleDeleteFeed`: after a confirmed, successful DELETE of the
      selected feed the selection is reset and the page is told so. */
  function Deleted(s: State, feedId: string, confirmed: bool, reply: FeedActions.Reply): (r: (State, Option<Notice>))
    ensures !confirmed ==> r == (s, None)
    ensures confirmed ==> r.0.deletingFeed.None? && r.0.feeds == s.feeds
    ensures r.1.Some? <==> confirmed && reply.Ok? && s.selection.feedId == Some(feedId)
    ensures r.1.Some? ==> r.1.value == FeedSelected(None)
    ensures r.0.selection == if confirmed && reply.Ok? then ClientFeeds.AfterDelete(s.selection, feedId) else s.selection
  {
    if !confirmed then (s, None)
    else
      match reply
      case NotOk(e) => (s.(deletingFeed := None, error := ClientFeeds.OrElse(e, FeedActions.UnknownKey)), None)
      case Thrown => (s.(deletingFeed := None, error := FeedActions.NetworkKey), None)
      case Ok(_) =>
        var selected := s.selection.feedId == Some(feedId);
        (s.(deletingFeed := None, error := "", selection := ClientFeeds.AfterDelete(s.selection, feedId)),
         if selected then Some(FeedSelected(None)) else None)
  }

  /** `handleAddFeed`: the state afterwards, whether the POST was sent, and
      whether the page was asked to reload its items. */
  function AddFeed(s: State, reply: FeedActions.Reply): (r: (State, bool, bool))
    ensures r.1 <==> ClientFeeds.CheckUrl(s.newFeedUrl) == ClientFeeds.Accepted
    ensures r.2 <==> r.1 && reply.Ok?
    ensures !r.0.loading && r.0.selection == s.selection && r.0.feeds == s.feeds
    ensures ClientFeeds.CheckUrl(s.newFeedUrl) == ClientFeeds.Blank ==> r.0.error == FeedActions.RequiredKey
    ensures ClientFeeds.CheckUrl(s.newFeedUrl) == ClientFeeds.NotHttp ==> r.0.error == FeedActions.InvalidUrlKey
    ensures r.2 ==> r.0.newFeedUrl == "" && r.0.error == ""
  {
    match ClientFeeds.CheckUrl(s.newFeedUrl)
    case Blank => (s.(error := FeedActions.RequiredKey, loading := false), false, false)
    case NotHttp => (s.(error := FeedActions.InvalidUrlKey, loading := false), false, false)
    case Accepted =>
      match reply
      case Ok(_) => (s.(loading := false, error := "", newFeedUrl := ""), true, true)
      case NotOk(e) => (s.(loading := false, error := ClientFeeds.OrElse(e, "Failed to add feed")), true, false)
      case Thrown => (s.(loading := false, error := FeedActions.AddNetworkKey), true, false)
  }

  /** `handleRefreshFeed`: the state afterwards and whether the page was
      asked to reload its items. */
  function Refreshed(s: State, feedId: string, reply: FeedActions.Reply): (r: (State, bool))
    ensures r.0.refreshing.None? && r.0.selection == s.selection && r.0.feeds == s.feeds
    ensures r.1 <==> reply.Ok?
    ensures reply.Ok? ==> r.0.error == s.error
    ensures reply.NotOk? ==> r.0.error == FeedActions.RefreshingPrefix + ClientFeeds.OrElse(reply.error, FeedActions.UnknownKey)
    ensures reply.Thrown? ==> r.0.error == FeedActions.RefreshPrefix + FeedActions.NetworkKey
  {
    match reply
    case Ok(_) => (s.(refreshing := None), true)
    case NotOk(e) => (s.(refreshing := None, error := FeedActions.RefreshingPrefix + ClientFeeds.OrElse(e, FeedActions.UnknownKey)), false)
    case Thrown => (s.(refreshing := None, error := FeedActions.RefreshPrefix + FeedActions.NetworkKey), false)
  }

  /** `handleRefreshAllFeeds`. */
  function RefreshedAll(s: State, reply: FeedActions.Reply): (r: (State, bool))
    ensures !r.0.refreshingAll && r.0.selection == s.selection && r.0.feeds == s.feeds
    ensures r.1 <==> reply.Ok?
    ensures r.0.error == if reply.Ok? then s.error else "刷新订阅源失败"
  {
    if reply.Ok? then (s.(refreshingAll := false), true)
    else (s.(refreshingAll := false, error := "刷新订阅源失败"), false)
  }

  /** The sidebar shows the same messages as the home page's own handlers. */
  lemma SameMessages(s: State, h: FeedActions.State, feedId: string, reply: FeedActions.Reply)
    requires s.error == h.error
    ensures Refreshed(s, feedId, reply).0.error == FeedActions.RefreshFeed(h, feedId, reply).error
    ensures RefreshedAll(s, reply).0.error == FeedActions.RefreshAll(h, reply).error
  {
  }
}
