/** The feed and item handlers of the home page, written over its state
    record. Each handler is the state it leaves once its request has ended;
    how the request ended is an input. Messages shown to the user are
    represented by their translation keys, in the `home` namespace
    (see `ClientFeeds.Home`), or by the literal text where the
    code has one. The follow-up reloads of the feed and item lists go
    through callbacks the handlers receive and are not part of them. */
module FeedActions {
  import opened Wrappers
  import ClientItems
  import ClientFeeds
  import HomeState

  type State = HomeState.State

  /** How a request ended: a response with `ok` set and its `message`
      member, a response without `ok` and its `error` member, or a thrown
      `fetch`. */
  datatype Reply = Ok(message: Option<string>) | NotOk(error: Option<string>) | Thrown

  const RequiredKey: string := ClientFeeds.Home("addFeed.error.required")
  const InvalidUrlKey: string := ClientFeeds.Home("addFeed.error.invalidUrl")
  const AddNetworkKey: string := ClientFeeds.Home("addFeed.error.networkError")
  const UnknownKey: string := ClientFeeds.Home(ClientFeeds.UnknownKey)
  const NetworkKey: string := ClientFeeds.Home(ClientFeeds.NetworkKey)
  /** The heads of the two refresh messages, before `: `. */
  const RefreshingPrefix: string := ClientFeeds.Home("feeds.refreshing") + ": "
  const RefreshPrefix: string := ClientFeeds.Home("feeds.refresh") + ": "

  /** The fields no handler writes: the feed list, the tag selection,
      the filter, the paging and the sidebar flags. */
  predicate Kept(s: State, r: State) {
    && r.feeds == s.feeds && r.selectedTag == s.selectedTag && r.readStatusFilter == s.readStatusFilter
    && r.page == s.page && r.hasMore == s.hasMore && r.loadingMore == s.loadingMore
    && r.autoRefreshed == s.autoRefreshed && r.feedsExpanded == s.feedsExpanded
  }

  /** `addFeed`: the state afterwards and whether the POST was sent. A
      blank URL and then a URL without an http(s) scheme are refused before
      any request. */
  function AddFeed(s: State, reply: Reply): (r: (State, bool))
    ensures r.1 <==> ClientFeeds.CheckUrl(s.newFeedUrl) == ClientFeeds.Accepted
    ensures !r.0.loading
    ensures ClientFeeds.CheckUrl(s.newFeedUrl) == ClientFeeds.Blank ==> r.0.error == RequiredKey
    ensures ClientFeeds.CheckUrl(s.newFeedUrl) == ClientFeeds.NotHttp ==> r.0.error == InvalidUrlKey
    ensures r.1 ==> r.0 == AddAnswered(s, reply)
    ensures Kept(s, r.0)
    ensures HomeState.Idle(s) ==> HomeState.Idle(r.0)
  {
    match ClientFeeds.CheckUrl(s.newFeedUrl)
    case Blank => (s.(error := RequiredKey, loading := false), false)
    case NotHttp => (s.(error := InvalidUrlKey, loading := false), false)
    case Accepted => (AddAnswered(s, reply), true)
  }

  /** The state after the POST of `addFeed` has been answered. */
  function AddAnswered(s: State, reply: Reply): (r: State)
    ensures Kept(s, r)
    ensures HomeState.Idle(s) ==> HomeState.Idle(r)
    ensures !r.loading
    ensures match reply
            case Ok(_) => r.newFeedUrl == "" && r.error == ""
            case NotOk(e) => r.newFeedUrl == s.newFeedUrl && r.error == ClientFeeds.OrElse(e, "Failed to add feed")
            case Thrown => r.newFeedUrl == s.newFeedUrl && r.error == AddNetworkKey
  {
    // `error` was cleared when the handler started.
    var error := match reply
      case Ok(_) => ""
      case NotOk(e) => ClientFeeds.OrElse(e, "Failed to add feed")
      case Thrown => AddNetworkKey;
    s.(loading := false, error := error, newFeedUrl := if reply.Ok? then "" else s.newFeedUrl)
  }

  /** `refreshFeed`. */
  function RefreshFeed(s: State, feedId: string, reply: Reply): (r: State)
    ensures Kept(s, r)
    ensures HomeState.Idle(s) ==> HomeState.Idle(r)
    ensures r.refreshing.None?
    ensures reply.Ok? ==> r.error == s.error
    ensures reply.NotOk? ==> r.error == RefreshingPrefix + ClientFeeds.OrElse(reply.error, UnknownKey)
    ensures reply.Thrown? ==> r.error == RefreshPrefix + NetworkKey

  {
    // `refreshing` is set to the feed while the request runs.
    var error := match reply
      case Ok(_) => s.error
      case NotOk(e) => RefreshingPrefix + ClientFeeds.OrElse(e, UnknownKey)
      case Thrown => RefreshPrefix + NetworkKey;
    s.(refreshing := None, error := error)
  }

  /** `deleteFeed`: nothing happens unless the user confirms. After a
      successful DELETE the selection of that feed is cleared. */
  function DeleteFeed(s: State, feedId: string, confirmed: bool, reply: Reply): (r: State)
    ensures Kept(s, r)
    ensures HomeState.Idle(s) ==> HomeState.Idle(r)
    ensures !confirmed ==> r == s
    ensures confirmed ==> r.deletingFeed.None?
    ensures confirmed && reply.Ok? ==>
              && r.error == ""
              && ClientFeeds.Selection(r.selectedFeedId, r.selectedTag)
                 == ClientFeeds.AfterDelete(ClientFeeds.Selection(s.selectedFeedId, s.selectedTag), feedId)
    ensures !(confirmed && reply.Ok?) ==> r.selectedFeedId == s.selectedFeedId
    ensures confirmed && reply.NotOk? ==> r.error == ClientFeeds.OrElse(reply.error, UnknownKey)
    ensures confirmed && reply.Thrown? ==> r.error == NetworkKey

  {
    if !confirmed then s
    else
      // `deletingFeed` is set to the feed while the request runs.
      var error := match reply
        case Ok(_) => ""
        case NotOk(e) => ClientFeeds.OrElse(e, UnknownKey)
        case Thrown => NetworkKey;
      var selected := if reply.Ok? && s.selectedFeedId == Some(feedId) then None else s.selectedFeedId;
      s.(deletingFeed := None, error := error, selectedFeedId := selected)
  }

  /** `autoCategorizeFeed`. A success shows the reply's message. */
  function AutoCategorize(s: State, feedId: string, reply: Reply): (r: State)
    ensures Kept(s, r)
    ensures HomeState.Idle(s) ==> HomeState.Idle(r)
    ensures r.autoCategorizing.None?
    ensures r.error == match reply
                       case Ok(m) => ClientFeeds.OrElse(m, "标签已自动更新")
                       case NotOk(e) => ClientFeeds.OrElse(e, "自动分类失败")
                       case Thrown => "自动分类失败"
    ensures r.error != ""

  {
    // `autoCategorizing` is set to the feed while the request runs.
    var error := match reply
      case Ok(m) => ClientFeeds.OrElse(m, "标签已自动更新")
      case NotOk(e) => ClientFeeds.OrElse(e, "自动分类失败")
      case Thrown => "自动分类失败";
    s.(autoCategorizing := None, error := error)
  }

  /** `refreshAllFeeds`. */
  function RefreshAll(s: State, reply: Reply): (r: State)
    ensures Kept(s, r)
    ensures HomeState.Idle(s) ==> HomeState.Idle(r)
    ensures !r.refreshingAll
    ensures r.error == if reply.Ok? then s.error else "刷新订阅源失败"

  {
    // `refreshingAll` is set while the request runs.
    s.(refreshingAll := false, error := if reply.Ok? then s.error else "刷新订阅源失败")
  }

  /** `markAllAsRead`: after a success the items in the scope of the
      current selection become read locally. */
  function MarkAllAsRead(s: State, reply: Reply): (r: State)
    ensures Kept(s, r)
    ensures HomeState.Idle(s) ==> HomeState.Idle(r)
    ensures !r.markingAllRead
    ensures reply.Ok? ==> r.items == ClientItems.MarkAllRead(s.items, s.selectedFeedId, s.selectedTag)
    ensures !reply.Ok? ==> r.items == s.items
    ensures reply.NotOk? ==> r.error == ClientFeeds.OrElse(reply.error, "批量标记已读失败")
    ensures reply.Thrown? ==> r.error == "批量标记已读失败"

  {
    // `markingAllRead` is set while the request runs.
    match reply
    case Ok(_) => s.(markingAllRead := false, items := ClientItems.MarkAllRead(s.items, s.selectedFeedId, s.selectedTag))
    case NotOk(e) => s.(markingAllRead := false, error := ClientFeeds.OrElse(e, "批量标记已读失败"))
    case Thrown => s.(markingAllRead := false, error := "批量标记已读失败")
  }

  /** `markAsRead`: the state afterwards and the message passed to
      `setMarkReadError`, if any. */
  function MarkAsRead(s: State, itemId: string, reply: ClientItems.MarkReply): (r: (State, Option<string>))
    ensures r.0 == s.(items := ClientItems.AfterMark(s.items, itemId, reply).0)
    ensures r.1 == ClientItems.AfterMark(s.items, itemId, reply).1
    ensures Kept(s, r.0)
  {
    var (items, message) := ClientItems.AfterMark(s.items, itemId, reply);
    (s.(items := items), message)
  }

  /* ----- All handlers ----- */

  datatype Action =
    | AddFeedAction(reply: Reply)
    | RefreshAction(feedId: string, reply: Reply)
    | DeleteAction(feedId: string, confirmed: bool, reply: Reply)
    | CategorizeAction(feedId: string, reply: Reply)
    | RefreshAllAction(reply: Reply)
    | MarkAllAction(reply: Reply)
    | MarkAction(itemId: string, markReply: ClientItems.MarkReply)

  function Handle(s: State, a: Action): (r: State)
    ensures Kept(s, r)
    ensures HomeState.Idle(s) ==> HomeState.Idle(r)
  {
    match a
    case AddFeedAction(reply) => AddFeed(s, reply).0
    case RefreshAction(id, reply) => RefreshFeed(s, id, reply)
    case DeleteAction(id, ok, reply) => DeleteFeed(s, id, ok, reply)
    case CategorizeAction(id, reply) => AutoCategorize(s, id, reply)
    case RefreshAllAction(reply) => RefreshAll(s, reply)
    case MarkAllAction(reply) => MarkAllAsRead(s, reply)
    case MarkAction(id, reply) => MarkAsRead(s, id, reply).0
  }

  function HandleAll(s: State, actions: seq<Action>): State
    decreases |actions|
  {
    if |actions| == 0 then s else HandleAll(Handle(s, actions[0]), actions[1..])
  }

  /** Every busy flag a handler raises it also lowers: from an idle state,
      any run of completed handlers ends idle again. */
  lemma {:induction false} HandlersSettle(s: State, actions: seq<Action>)
    requires HomeState.Idle(s)
    ensures HomeState.Idle(HandleAll(s, actions))
    decreases |actions|
  {
    if |actions| > 0 {
      HandlersSettle(Handle(s, actions[0]), actions[1..]);
    }
  }

  /** The handlers never change the feed list, the filter or the paging
      themselves; those follow only from the reloads. */
  lemma {:induction false} HandlersKeepListing(s: State, actions: seq<Action>)
    ensures var r := HandleAll(s, actions);
            r.feeds == s.feeds && r.readStatusFilter == s.readStatusFilter && r.page == s.page
            && r.hasMore == s.hasMore && r.selectedTag == s.selectedTag
    decreases |actions|
  {
    if |actions| > 0 {
      HandlersKeepListing(Handle(s, actions[0]), actions[1..]);
    }
  }
}
