/** The state record of the home page and its `updateState`, which spreads
    a partial record over the current one. */
module HomeState {
  import opened Wrappers
  import Store
  import ClientItems

  datatype State = State(
    feeds: seq<Store.Feed>,
    selectedFeedId: Option<string>,
    selectedTag: Option<string>,
    readStatusFilter: ClientItems.ReadFilter,
    items: seq<ClientItems.ViewItem>,
    newFeedUrl: string,
    loading: bool,
    error: string,
    refreshing: Option<string>,
    deletingFeed: Option<string>,
    autoCategorizing: Option<string>,
    markingAllRead: bool,
    page: int,
    hasMore: bool,
    loadingMore: bool,
    autoRefreshed: bool,
    feedsExpanded: bool,
    refreshingAll: bool)

  /** `Partial<HomeState>`: `None` leaves a field out of the update; a
      nullable field is set to null by `Some(None)`. */
  datatype Update = Update(
    feeds: Option<seq<Store.Feed>>,
    selectedFeedId: Option<Option<string>>,
    selectedTag: Option<Option<string>>,
    readStatusFilter: Option<ClientItems.ReadFilter>,
    items: Option<seq<ClientItems.ViewItem>>,
    newFeedUrl: Option<string>,
    loading: Option<bool>,
    error: Option<string>,
    refreshing: Option<Option<string>>,
    deletingFeed: Option<Option<string>>,
    autoCategorizing: Option<Option<string>>,
    markingAllRead: Option<bool>,
    page: Option<int>,
    hasMore: Option<bool>,
    loadingMore: Option<bool>,
    autoRefreshed: Option<bool>,
    feedsExpanded: Option<bool>,
    refreshingAll: Option<bool>)

  /** The empty update `{}`. */
  const NoChange: Update := Update(None, None, None, None, None, None, None, None, None,
                                   None, None, None, None, None, None, None, None, None)

  /** The initial state of `useHomeState`. */
  function Initial(): (s: State)
    ensures s.readStatusFilter == ClientItems.UnreadOnly && s.page == 1
    ensures s.hasMore && s.feedsExpanded && !s.autoRefreshed
    ensures s.feeds == [] && s.items == [] && s.selectedFeedId.None? && s.selectedTag.None?
    ensures Idle(s) && s.error == ""
  {
    State([], None, None, ClientItems.UnreadOnly, [], "", false, "", None, None, None, false,
          1, true, false, false, true, false)
  }

  /** No operation is in progress. */
  predicate Idle(s: State) {
    && !s.loading && s.refreshing.None? && s.deletingFeed.None? && s.autoCategorizing.None?
    && !s.markingAllRead && !s.loadingMore && !s.refreshingAll
  }

  function Pick<T>(given: Option<T>, current: T): T {
    if given.Some? then given.value else current
  }

  /** Every field the update gives has the given value in `s`. */
  predicate Holds(s: State, u: Update) {
    && (u.feeds.Some? ==> s.feeds == u.feeds.value)
    && (u.selectedFeedId.Some? ==> s.selectedFeedId == u.selectedFeedId.value)
    && (u.selectedTag.Some? ==> s.selectedTag == u.selectedTag.value)
    && (u.readStatusFilter.Some? ==> s.readStatusFilter == u.readStatusFilter.value)
    && (u.items.Some? ==> s.items == u.items.value)
    && (u.newFeedUrl.Some? ==> s.newFeedUrl == u.newFeedUrl.value)
    && (u.loading.Some? ==> s.loading == u.loading.value)
    && (u.error.Some? ==> s.error == u.error.value)
    && (u.refreshing.Some? ==> s.refreshing == u.refreshing.value)
    && (u.deletingFeed.Some? ==> s.deletingFeed == u.deletingFeed.value)
    && (u.autoCategorizing.Some? ==> s.autoCategorizing == u.autoCategorizing.value)
    && (u.markingAllRead.Some? ==> s.markingAllRead == u.markingAllRead.value)
    && (u.page.Some? ==> s.page == u.page.value)
    && (u.hasMore.Some? ==> s.hasMore == u.hasMore.value)
    && (u.loadingMore.Some? ==> s.loadingMore == u.loadingMore.value)
    && (u.autoRefreshed.Some? ==> s.autoRefreshed == u.autoRefreshed.value)
    && (u.feedsExpanded.Some? ==> s.feedsExpanded == u.feedsExpanded.value)
    && (u.refreshingAll.Some? ==> s.refreshingAll == u.refreshingAll.value)
  }

  /** Every field the update leaves out is the same in `a` and `b`. */
  predicate Keeps(a: State, b: State, u: Update) {
    && (u.feeds.None? ==> a.feeds == b.feeds)
    && (u.selectedFeedId.None? ==> a.selectedFeedId == b.selectedFeedId)
    && (u.selectedTag.None? ==> a.selectedTag == b.selectedTag)
    && (u.readStatusFilter.None? ==> a.readStatusFilter == b.readStatusFilter)
    && (u.items.None? ==> a.items == b.items)
    && (u.newFeedUrl.None? ==> a.newFeedUrl == b.newFeedUrl)
    && (u.loading.None? ==> a.loading == b.loading)
    && (u.error.None? ==> a.error == b.error)
    && (u.refreshing.None? ==> a.refreshing == b.refreshing)
    && (u.deletingFeed.None? ==> a.deletingFeed == b.deletingFeed)
    && (u.autoCategorizing.None? ==> a.autoCategorizing == b.autoCategorizing)
    && (u.markingAllRead.None? ==> a.markingAllRead == b.markingAllRead)
    && (u.page.None? ==> a.page == b.page)
    && (u.hasMore.None? ==> a.hasMore == b.hasMore)
    && (u.loadingMore.None? ==> a.loadingMore == b.loadingMore)
    && (u.autoRefreshed.None? ==> a.autoRefreshed == b.autoRefreshed)
    && (u.feedsExpanded.None? ==> a.feedsExpanded == b.feedsExpanded)
    && (u.refreshingAll.None? ==> a.refreshingAll == b.refreshingAll)
  }

  /** `{ ...prev, ...updates }`. */
  function Apply(s: State, u: Update): State {
    State(
      Pick(u.feeds, s.feeds), Pick(u.selectedFeedId, s.selectedFeedId), Pick(u.selectedTag, s.selectedTag),
      Pick(u.readStatusFilter, s.readStatusFilter), Pick(u.items, s.items), Pick(u.newFeedUrl, s.newFeedUrl),
      Pick(u.loading, s.loading), Pick(u.error, s.error), Pick(u.refreshing, s.refreshing),
      Pick(u.deletingFeed, s.deletingFeed), Pick(u.autoCategorizing, s.autoCategorizing),
      Pick(u.markingAllRead, s.markingAllRead), Pick(u.page, s.page), Pick(u.hasMore, s.hasMore),
      Pick(u.loadingMore, s.loadingMore), Pick(u.autoRefreshed, s.autoRefreshed),
      Pick(u.feedsExpanded, s.feedsExpanded), Pick(u.refreshingAll, s.refreshingAll))
  }

  /** The update overrides exactly the fields it gives. */
  lemma ApplyHolds(s: State, u: Update)
    ensures Holds(Apply(s, u), u)
  {
  }

  lemma ApplyKeeps(s: State, u: Update)
    ensures Keeps(s, Apply(s, u), u)
  {
  }

  /** The two properties pin the result down: a state that has every
      given field and keeps every other one is the result of the update. */
  lemma ApplyUnique(s: State, u: Update, t: State)
    requires Holds(t, u) && Keeps(s, t, u)
    ensures t == Apply(s, u)
  {
  }

  /** The empty update is the identity. */
  lemma ApplyNoChange(s: State)
    ensures Apply(s, NoChange) == s
  {
    ApplyUnique(s, NoChange, s);
  }

  /** One update followed by another, as a single update: the later value
      wins where both give a field. */
  function Then(u: Update, v: Update): Update
  {
    Update(
      Later(u.feeds, v.feeds), Later(u.selectedFeedId, v.selectedFeedId), Later(u.selectedTag, v.selectedTag),
      Later(u.readStatusFilter, v.readStatusFilter), Later(u.items, v.items), Later(u.newFeedUrl, v.newFeedUrl),
      Later(u.loading, v.loading), Later(u.error, v.error), Later(u.refreshing, v.refreshing),
      Later(u.deletingFeed, v.deletingFeed), Later(u.autoCategorizing, v.autoCategorizing),
      Later(u.markingAllRead, v.markingAllRead), Later(u.page, v.page), Later(u.hasMore, v.hasMore),
      Later(u.loadingMore, v.loadingMore), Later(u.autoRefreshed, v.autoRefreshed),
      Later(u.feedsExpanded, v.feedsExpanded), Later(u.refreshingAll, v.refreshingAll))
  }

  function Later<T>(first: Option<T>, second: Option<T>): Option<T> {
    if second.Some? then second else first
  }

  /** Successive updates compose: applying `u` then `v` is applying their
      combination, in which `v` wins. */
  lemma ApplyThen(s: State, u: Update, v: Update)
    ensures Apply(Apply(s, u), v) == Apply(s, Then(u, v))
  {
    ThenFields1(s, u, v);
    ThenFields2(s, u, v);
    ThenFields3(s, u, v);
    ThenFields4(s, u, v);
  }

  lemma ThenFields1(s: State, u: Update, v: Update)
    ensures var a, b := Apply(Apply(s, u), v), Apply(s, Then(u, v));
            && a.feeds == b.feeds
            && a.selectedFeedId == b.selectedFeedId
            && a.selectedTag == b.selectedTag
            && a.readStatusFilter == b.readStatusFilter
            && a.items == b.items
  {
  }

  lemma ThenFields2(s: State, u: Update, v: Update)
    ensures var a, b := Apply(Apply(s, u), v), Apply(s, Then(u, v));
            && a.newFeedUrl == b.newFeedUrl
            && a.loading == b.loading
            && a.error == b.error
            && a.refreshing == b.refreshing
  {
  }

  lemma ThenFields3(s: State, u: Update, v: Update)
    ensures var a, b := Apply(Apply(s, u), v), Apply(s, Then(u, v));
            && a.deletingFeed == b.deletingFeed
            && a.autoCategorizing == b.autoCategorizing
            && a.markingAllRead == b.markingAllRead
            && a.page == b.page
            && a.hasMore == b.hasMore
  {
  }

  lemma ThenFields4(s: State, u: Update, v: Update)
    ensures var a, b := Apply(Apply(s, u), v), Apply(s, Then(u, v));
            && a.loadingMore == b.loadingMore
            && a.autoRefreshed == b.autoRefreshed
            && a.feedsExpanded == b.feedsExpanded
            && a.refreshingAll == b.refreshingAll
  {
  }

  /** Applying an update a second time changes nothing. */
  lemma ApplyTwice(s: State, u: Update)
    ensures Apply(Apply(s, u), u) == Apply(s, u)
  {
    ApplyThen(s, u, u);
    assert Then(u, u) == u;
  }
}
