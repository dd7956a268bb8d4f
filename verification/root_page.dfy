/** The older root page, which keeps the same state as the home page but
    loads its items unpaged. Its add-feed handler is the home page's
    (`FeedActions.AddFeed`). Its refresh, delete and mark-all handlers are
    written here, each next to the home page's: the refresh and delete
    fallbacks are looked up outside the `home` namespace, and mark-all reads
    the body of a successful reply. The requests sent on a selection and a
    mark-as-read that ignores the response differ as well. */
module RootPage {
  import opened Wrappers
  import Seqs
  import ClientItems
  import ClientFeeds
  import HomeState
  import FeedActions

  /** The parameters of the root page's `fetchItems`: no paging. */
  function Query(s: ClientFeeds.Selection, filter: ClientItems.ReadFilter): seq<(string, string)> {
    ClientItems.ItemsParams(s.feedId, s.tag, Some(filter), None)
  }

  /** A click on a feed, on "all feeds" or on a tag: the new selection and
      the items request for it. */
  function Clicked(filter: ClientItems.ReadFilter, c: ClientFeeds.Click): (r: (ClientFeeds.Selection, seq<(string, string)>))
    ensures r.0 == ClientFeeds.Select(c)
    ensures r.1 == Query(r.0, filter)
    ensures |r.1| <= 3
  {
    var s := match c
      case FeedClick(id) => ClientFeeds.Selection(Some(id), None)
      case AllFeedsClick => ClientFeeds.NoSelection
      case TagClick(t) => ClientFeeds.Selection(None, t);
    (s, Query(s, filter))
  }

  /** A lookup of a name that the appended part does not carry. */
  lemma {:induction false} ParamBefore(a: seq<(string, string)>, b: seq<(string, string)>, name: string)
    requires forall k :: 0 <= k < |b| ==> b[k].0 != name
    ensures ClientItems.Param(a + b, name) == ClientItems.Param(a, name)
  {
    if |a| > 0 {
      Seqs.DropHead(a, b);
      ParamBefore(a[1..], b, name);
    } else {
      assert a + b == b;
    }
  }

  /** Paging does not change the scope: the endpoint reads the same feed,
      tag and read state from the root page's query as from the home
      page's query for any page. */
  lemma PagingKeepsScope(s: ClientFeeds.Selection, filter: ClientItems.ReadFilter, pageNum: int)
    ensures ClientItems.ServerQuery(ClientItems.ItemsParams(s.feedId, s.tag, Some(filter), Some(pageNum)))
            == ClientItems.ServerQuery(Query(s, filter))
  {
    var a := ClientItems.Named("feedId", s.feedId) + (ClientItems.Named("tag", s.tag) + ClientItems.ReadPart(Some(filter)));
    var d := ClientItems.PagePart(Some(pageNum));
    assert Query(s, filter) == a;
    assert ClientItems.ItemsParams(s.feedId, s.tag, Some(filter), Some(pageNum)) == a + d;
    ParamBefore(a, d, "feedId");
    ParamBefore(a, d, "tag");
    ParamBefore(a, d, "read");
  }

  /** After a confirmed, successful delete of the selected feed the root
      page reloads its items for the tag alone. */
  function DeleteReload(s: HomeState.State, feedId: string, confirmed: bool, reply: FeedActions.Reply): (r: Option<seq<(string, string)>>)
    ensures r.Some? <==> confirmed && reply.Ok? && s.selectedFeedId == Some(feedId)
    ensures r.Some? ==> r.value == Query(
                          ClientFeeds.Selection(FeedActions.DeleteFeed(s, feedId, confirmed, reply).selectedFeedId, s.selectedTag),
                          s.readStatusFilter)
  {
    if confirmed && reply.Ok? && s.selectedFeedId == Some(feedId) then
      Some(Query(ClientFeeds.Selection(None, s.selectedTag), s.readStatusFilter))
    else None
  }

  /** `markAsRead` of the root page: any response at all, a refusal or a
      404 included, marks the item read locally; only a thrown `fetch`
      leaves the list alone. */
  function MarkAsRead(items: seq<ClientItems.ViewItem>, id: string, thrown: bool): (r: seq<ClientItems.ViewItem>)
    ensures |r| == |items|
    ensures thrown ==> r == items
    ensures !thrown ==> forall j :: 0 <= j < |r| ==> r[j].id == items[j].id && (r[j].read <==> items[j].read || items[j].id == id)
  {
    if thrown then items else ClientItems.MarkRead(items, id)
  }

  /** On a 404 the two pages part ways: the root page keeps the missing
      item and shows it read, the home page drops it. */
  lemma MissingItemKept(items: seq<ClientItems.ViewItem>, id: string)
    requires id in ClientItems.Ids(items)
    ensures exists v :: v in MarkAsRead(items, id, false) && v.id == id && v.read
    ensures forall v :: v in ClientItems.AfterMark(items, id, ClientItems.Missing).0 ==> v.id != id
  {
    var ids := ClientItems.Ids(items);
    var j :| 0 <= j < |ids| && ids[j] == id;
    assert MarkAsRead(items, id, false)[j].id == id;
  }

  /** On success both pages leave the same list. */
  lemma MarkedAgrees(items: seq<ClientItems.ViewItem>, id: string)
    ensures MarkAsRead(items, id, false) == ClientItems.AfterMark(items, id, ClientItems.Marked).0
  {
  }

  /* ----- Refresh, delete and mark-all ----- */

  /** Whether `data.error || fallback` falls back. */
  predicate FallsBack(message: Option<string>) {
    message.None? || message.value == ""
  }

  /** `refreshFeed` of the root page: the home page's handler, except that
      its fallback texts are the shared ones. */
  function RefreshFeed(s: HomeState.State, feedId: string, reply: FeedActions.Reply): (r: HomeState.State)
    ensures r.(error := s.error) == FeedActions.RefreshFeed(s, feedId, reply).(error := s.error)
    ensures reply.Ok? ==> r.error == s.error
    ensures reply.NotOk? ==> r.error == FeedActions.RefreshingPrefix + ClientFeeds.OrElse(reply.error, ClientFeeds.UnknownKey)
    ensures reply.Thrown? ==> r.error == FeedActions.RefreshPrefix + ClientFeeds.NetworkKey
  {
    var error := match reply
      case Ok(_) => s.error
      case NotOk(e) => FeedActions.RefreshingPrefix + ClientFeeds.OrElse(e, ClientFeeds.UnknownKey)
      case Thrown => FeedActions.RefreshPrefix + ClientFeeds.NetworkKey;
    s.(refreshing := None, error := error)
  }

  /** `deleteFeed` of the root page: the home page's handler, except that
      its fallback texts are the shared ones. */
  function DeleteFeed(s: HomeState.State, feedId: string, confirmed: bool, reply: FeedActions.Reply): (r: HomeState.State)
    ensures r.(error := s.error) == FeedActions.DeleteFeed(s, feedId, confirmed, reply).(error := s.error)
    ensures !confirmed || reply.Ok? ==> r.error == FeedActions.DeleteFeed(s, feedId, confirmed, reply).error
    ensures confirmed && reply.NotOk? ==> r.error == ClientFeeds.OrElse(reply.error, ClientFeeds.UnknownKey)
    ensures confirmed && reply.Thrown? ==> r.error == ClientFeeds.NetworkKey
  {
    if !confirmed then s
    else
      var error := match reply
        case Ok(_) => ""
        case NotOk(e) => ClientFeeds.OrElse(e, ClientFeeds.UnknownKey)
        case Thrown => ClientFeeds.NetworkKey;
      var selected := if reply.Ok? && s.selectedFeedId == Some(feedId) then None else s.selectedFeedId;
      s.(deletingFeed := None, error := error, selectedFeedId := selected)
  }

  /** The two pages leave the same state after a refresh exactly when no
      fallback text is shown. */
  lemma RefreshAgrees(s: HomeState.State, feedId: string, reply: FeedActions.Reply)
    ensures RefreshFeed(s, feedId, reply) == FeedActions.RefreshFeed(s, feedId, reply)
            <==> reply.Ok? || (reply.NotOk? && !FallsBack(reply.error))
  {
    var a := RefreshFeed(s, feedId, reply);
    var b := FeedActions.RefreshFeed(s, feedId, reply);
    if reply.Thrown? {
      assert |a.error| != |b.error|;
    } else if reply.NotOk? && FallsBack(reply.error) {
      assert |a.error| != |b.error|;
    }
  }

  /** The same for a delete: they part only on a confirmed delete that
      shows a fallback text. */
  lemma DeleteAgrees(s: HomeState.State, feedId: string, confirmed: bool, reply: FeedActions.Reply)
    ensures DeleteFeed(s, feedId, confirmed, reply) == FeedActions.DeleteFeed(s, feedId, confirmed, reply)
            <==> !confirmed || reply.Ok? || (reply.NotOk? && !FallsBack(reply.error))
  {
    var a := DeleteFeed(s, feedId, confirmed, reply);
    var b := FeedActions.DeleteFeed(s, feedId, confirmed, reply);
    if confirmed && reply.Thrown? {
      assert |a.error| != |b.error|;
    } else if confirmed && reply.NotOk? && FallsBack(reply.error) {
      assert |a.error| != |b.error|;
    }
  }

  const MarkAllFailed: string := "批量标记已读失败"

  /** `markAllAsRead` of the root page. A successful reply's body is read
      as JSON before anything is marked; `parses` says whether it is JSON.
      A body that does not parse throws, and the page then marks nothing
      and shows the failure text. Refused replies are read the same way on
      both pages. */
  function MarkAllAsRead(s: HomeState.State, reply: FeedActions.Reply, parses: bool): (r: HomeState.State)
    ensures !r.markingAllRead
    ensures r.(error := s.error, items := s.items, markingAllRead := s.markingAllRead) == s
    ensures reply.Ok? && parses ==> r.items == ClientItems.MarkAllRead(s.items, s.selectedFeedId, s.selectedTag)
                                    && r.error == s.error
    ensures reply.Ok? && !parses ==> r.items == s.items && r.error == MarkAllFailed
    ensures reply.NotOk? ==> r.items == s.items && r.error == ClientFeeds.OrElse(reply.error, MarkAllFailed)
    ensures reply.Thrown? ==> r.items == s.items && r.error == MarkAllFailed
  {
    match reply
    case Ok(_) =>
      if parses then s.(markingAllRead := false, items := ClientItems.MarkAllRead(s.items, s.selectedFeedId, s.selectedTag))
      else s.(markingAllRead := false, error := MarkAllFailed)
    case NotOk(e) => s.(markingAllRead := false, error := ClientFeeds.OrElse(e, MarkAllFailed))
    case Thrown => s.(markingAllRead := false, error := MarkAllFailed)
  }

  /** Mark-all agrees with the home page's unless a successful reply has a
      body that is not JSON; then the root page marks nothing and fails
      where the home page marks the scope. */
  lemma MarkAllAgrees(s: HomeState.State, reply: FeedActions.Reply, parses: bool)
    ensures parses || !reply.Ok? ==> MarkAllAsRead(s, reply, parses) == FeedActions.MarkAllAsRead(s, reply)
    ensures reply.Ok? && !parses ==>
              && MarkAllAsRead(s, reply, parses).items == s.items
              && FeedActions.MarkAllAsRead(s, reply).items == ClientItems.MarkAllRead(s.items, s.selectedFeedId, s.selectedTag)
              && MarkAllAsRead(s, reply, parses).error == MarkAllFailed
              && FeedActions.MarkAllAsRead(s, reply).error == s.error
  {
  }
}
