/** The home page's own state: the selection it is told about by the
    sidebar, the read filter, the paged item list and the infinite-scroll
    flag; the requests its handlers send to the items endpoint; and the
    eviction of cached items from the session storage. */
module HomePage {
  import opened Wrappers
  import Strings
  import Seqs
  import Ordering
  import ClientItems
  import ClientFeeds
  import Sidebar
  import FeedActions

  datatype Page = Page(
    selection: ClientFeeds.Selection,
    filter: ClientItems.ReadFilter,
    listing: ClientItems.Listing,
    loadingMore: bool)

  /** A call of `fetchItems`: the scope, the page wanted, and whether the
      answer is appended or replaces the list. */
  datatype Request = Request(selection: ClientFeeds.Selection, filter: ClientItems.ReadFilter,
                             pageNum: int, append: bool)

  /** The query string of a request. */
  function Params(q: Request): seq<(string, string)> {
    ClientItems.ItemsParams(q.selection.feedId, q.selection.tag, Some(q.filter), Some(q.pageNum))
  }

  /** The page once the answer to a request is in; `None` stands for a
      failed or non-ok response. */
  function Answered(p: Page, q: Request, response: Option<seq<ClientItems.ViewItem>>): Page {
    p.(listing := ClientItems.Loaded(p.listing, q.pageNum, response, q.append))
  }

  /* ----- Selection and filter ----- */

  /** `handleFeedSelect`, `handleTagSelect` and `handleReadStatusFilterChange`
      share a shape: the list is emptied, the page reset to 1, and page 1
      of the new scope requested to replace the list. */
  predicate Restarts(p: Page, r: (Page, Request)) {
    && r.0.listing.items == [] && r.0.listing.page == 1 && r.0.listing.hasMore == p.listing.hasMore
    && r.0.loadingMore == p.loadingMore
    && r.1 == Request(r.0.selection, r.0.filter, 1, false)
  }

  function FeedSelect(p: Page, feedId: Option<string>): (r: (Page, Request))
    ensures Restarts(p, r)
    ensures r.0.selection == ClientFeeds.Selection(feedId, None) && r.0.filter == p.filter
  {
    var p1 := p.(selection := ClientFeeds.Selection(feedId, None),
                 listing := p.listing.(items := [], page := 1));
    (p1, Request(p1.selection, p.filter, 1, false))
  }

  function TagSelect(p: Page, tag: Option<string>): (r: (Page, Request))
    ensures Restarts(p, r)
    ensures r.0.selection == ClientFeeds.Selection(None, tag) && r.0.filter == p.filter
  {
    var p1 := p.(selection := ClientFeeds.Selection(None, tag),
                 listing := p.listing.(items := [], page := 1));
    (p1, Request(p1.selection, p.filter, 1, false))
  }

  function FilterChange(p: Page, filter: ClientItems.ReadFilter): (r: (Page, Request))
    ensures Restarts(p, r)
    ensures r.0.selection == p.selection && r.0.filter == filter
  {
    var p1 := p.(filter := filter, listing := p.listing.(items := [], page := 1));
    (p1, Request(p.selection, filter, 1, false))
  }

  /** The handler the sidebar's notice calls. */
  function Notified(p: Page, n: Sidebar.Notice): (Page, Request) {
    match n
    case FeedSelected(id) => FeedSelect(p, id)
    case TagSelected(t) => TagSelect(p, t)
  }

  /** Sidebar and page keep the same selection: a click in the sidebar
      leaves the page with the selection the sidebar shows, and the answer
      to the request it sends is exactly the page of items asked for. */
  lemma ClickAgrees(s: Sidebar.State, p: Page, c: ClientFeeds.Click, response: seq<ClientItems.ViewItem>)
    ensures var (s1, n) := Sidebar.Clicked(s, c);
            var (p1, q) := Notified(p, n);
            && p1.selection == s1.selection
            && Answered(p1, q, Some(response)).listing
               == ClientItems.Listing(response, |response| == ClientItems.PageSize, 1)
  {
  }

  /** Deleting the selected feed in the sidebar resets the page to the
      same selection, as long as the two agreed before. */
  lemma DeleteAgrees(s: Sidebar.State, p: Page, feedId: string, reply: FeedActions.Reply)
    requires s.selection == p.selection && ClientFeeds.Exclusive(s.selection)
    ensures var (s1, n) := Sidebar.Deleted(s, feedId, true, reply);
            (if n.Some? then Notified(p, n.value).0.selection else p.selection) == s1.selection
  {
  }

  /* ----- Infinite scroll ----- */

  /** `loadMoreItems`: nothing while a load runs or after a short page;
      otherwise the next page of the current scope, to be appended. */
  function LoadMore(p: Page): (r: (Page, Option<Request>))
    ensures r.1.None? ==> r.0 == p
    ensures r.1.Some? <==> !p.loadingMore && p.listing.hasMore
    ensures r.1.Some? ==> r.0.loadingMore && r.0.listing == p.listing
    ensures r.1.Some? ==> r.1.value == Request(p.selection, p.filter, p.listing.page + 1, true)
  {
    match ClientItems.LoadMore(p.listing, p.loadingMore)
    case None => (p, None)
    case Some(_) => (p.(loadingMore := true), Some(Request(p.selection, p.filter, p.listing.page + 1, true)))
  }

  /** The end of `loadMoreItems`, once its request is answered. */
  function MoreLoaded(p: Page, q: Request, response: Option<seq<ClientItems.ViewItem>>): (r: Page)
    ensures !r.loadingMore && r.selection == p.selection && r.filter == p.filter
    ensures q.append ==> |p.listing.items| <= |r.listing.items|
                         && r.listing.items[..|p.listing.items|] == p.listing.items
  {
    Answered(p, q, response).(loadingMore := false)
  }

  /** Scrolling keeps what is listed and its ids distinct, advances the
      page by one, and stops for good after a short or failed page. */
  lemma ScrollKeeps(p: Page, response: Option<seq<ClientItems.ViewItem>>)
    requires ClientItems.DistinctIds(p.listing.items)
    requires response.Some? ==> ClientItems.DistinctIds(response.value)
    requires LoadMore(p).1.Some?
    ensures var (p1, q) := LoadMore(p);
            var r := MoreLoaded(p1, q.value, response);
            && ClientItems.DistinctIds(r.listing.items)
            && r.listing.items[..|p.listing.items|] == p.listing.items
            && (response.Some? ==> r.listing.page == p.listing.page + 1)
            && (response.Some? ==> (LoadMore(r).1.Some? <==> |response.value| == ClientItems.PageSize))
  {
    if response.Some? {
      ClientItems.AppendDistinct(p.listing.items, response.value);
    }
  }

  /* ----- Session-storage cache of items ----- */

  const ItemKeyPrefix: string := "feedflow_item_"

  /** Item keys kept when an item is opened. */
  const CacheKeep: nat := 10

  predicate IsItemKey(k: string) {
    Strings.StartsWith(k, ItemKeyPrefix)
  }

  /** The cached-item keys in ascending order. */
  function ItemKeys(keys: seq<string>): (r: seq<string>)
    ensures Ordering.StrictlySorted(r)
    ensures forall k :: k in r <==> k in keys && IsItemKey(k)
  {
    Ordering.SortDistinct(Seqs.Filter(keys, IsItemKey))
  }

  /** The keys `handleItemClick` removes: every item key but the last ten
      in sorted order. */
  function Evicted(keys: seq<string>): (r: seq<string>)
    ensures forall k :: k in r ==> k in keys && IsItemKey(k)
    ensures |r| == if |ItemKeys(keys)| > CacheKeep then |ItemKeys(keys)| - CacheKeep else 0
  {
    var ks := ItemKeys(keys);
    if |ks| > CacheKeep then ks[..|ks| - CacheKeep] else []
  }

  /** The storage keys after the removal. */
  function AfterEvict(keys: seq<string>): (r: seq<string>)
    ensures forall k :: k in r <==> k in keys && k !in Evicted(keys)
  {
    var gone := Evicted(keys);
    Seqs.Filter(keys, (k: string) => k !in gone)
  }

  function Min(a: nat, b: nat): nat {
    if a <= b then a else b
  }

  /** The item keys that survive: the last ten in sorted order. */
  function Kept(keys: seq<string>): (r: seq<string>)
    ensures var ks := ItemKeys(keys);
            |r| == Min(CacheKeep, |ks|) && ks == Evicted(keys) + r
  {
    var ks := ItemKeys(keys);
    ks[|ks| - Min(CacheKeep, |ks|)..]
  }

  /** Cutting a strictly sorted sequence leaves both parts sorted, and the
      front part below the back part. */
  lemma SortedCut(ks: seq<string>, m: nat)
    requires Ordering.StrictlySorted(ks) && m <= |ks|
    ensures Ordering.StrictlySorted(ks[m..])
    ensures forall a, b :: a in ks[..m] && b in ks[m..] ==> Ordering.LexLess(a, b)
    ensures forall k :: k in ks[m..] ==> k !in ks[..m]
  {
    var kept := ks[m..];
    forall i, j | 0 <= i < j < |kept| ensures Ordering.LexLess(kept[i], kept[j]) {
      assert kept[i] == ks[m + i] && kept[j] == ks[m + j];
    }
    forall a, b | a in ks[..m] && b in kept ensures Ordering.LexLess(a, b) {
      var i :| 0 <= i < m && ks[i] == a;
      var j :| 0 <= j < |kept| && kept[j] == b;
      assert ks[m + j] == b;
    }
    forall k | k in kept ensures k !in ks[..m] {
      if k in ks[..m] {
        Ordering.LexIrreflexive(k);
      }
    }
  }

  /** A member of a sorted sequence outside its front part is in the back part. */
  lemma CutMember(ks: seq<string>, m: nat, k: string)
    requires m <= |ks| && k in ks && k !in ks[..m]
    ensures k in ks[m..]
  {
    var i :| 0 <= i < |ks| && ks[i] == k;
    assert forall j :: 0 <= j < m ==> ks[..m][j] == ks[j];
    assert i >= m;
    assert ks[m..][i - m] == k;
  }

  lemma KeptMembers(keys: seq<string>)
    ensures forall k :: k in Kept(keys) <==> k in AfterEvict(keys) && IsItemKey(k)
  {
    var ks := ItemKeys(keys);
    var m := |ks| - Min(CacheKeep, |ks|);
    var gone, kept, after := Evicted(keys), Kept(keys), AfterEvict(keys);
    assert gone == ks[..m] && kept == ks[m..];
    SortedCut(ks, m);
    forall k ensures k in kept <==> k in after && IsItemKey(k) {
      if k in after && IsItemKey(k) {
        assert k in keys && k !in gone;
        assert k in ks;
        CutMember(ks, m, k);
      }
    }
  }

  /** Exactly the ten greatest item keys survive (all of them when there
      are fewer), every removed key sorts before every kept one, and keys
      of other entries are never removed. */
  lemma EvictKeepsLast(keys: seq<string>)
    ensures ItemKeys(AfterEvict(keys)) == Kept(keys)
    ensures |ItemKeys(AfterEvict(keys))| == Min(CacheKeep, |ItemKeys(keys)|)
    ensures forall a, b :: a in Evicted(keys) && b in Kept(keys) ==> Ordering.LexLess(a, b)
    ensures forall k :: k in keys && !IsItemKey(k) ==> k in AfterEvict(keys)
  {
    var ks := ItemKeys(keys);
    var m := |ks| - Min(CacheKeep, |ks|);
    assert Evicted(keys) == ks[..m] && Kept(keys) == ks[m..];
    SortedCut(ks, m);
    KeptMembers(keys);
    Ordering.SortedUnique(Kept(keys), ItemKeys(AfterEvict(keys)));
  }

  /** The key under which the page state is saved. */
  const HomeStateKey: string := "feedflow_home_state"

  /** `sessionStorage.setItem(k, …)`: a new key joins the storage, an
      existing one is overwritten in place. */
  function SetKey(keys: seq<string>, k: string): (r: seq<string>)
    ensures forall x :: x in r <==> x in keys || x == k
  {
    if k in keys then keys else keys + [k]
  }

  /** The storage keys after `handleItemClick(itemId)`: the eviction, the
      saved page state, and the clicked item's data when the item is in
      the list (`listed`). */
  function Click(keys: seq<string>, itemId: string, listed: bool): (r: seq<string>)
    ensures forall k :: k in r <==> k in AfterEvict(keys) || k == HomeStateKey || (listed && k == ItemKeyPrefix + itemId)
  {
    var saved := SetKey(AfterEvict(keys), HomeStateKey);
    if listed then SetKey(saved, ItemKeyPrefix + itemId) else saved
  }

  /** After a click at most eleven item keys are stored, the ten kept and
      the clicked item's, which is among them when the item is listed. */
  lemma ClickBound(keys: seq<string>, itemId: string, listed: bool)
    ensures |ItemKeys(Click(keys, itemId, listed))| <= CacheKeep + 1
    ensures listed ==> ItemKeyPrefix + itemId in ItemKeys(Click(keys, itemId, listed))
  {
    var after := AfterEvict(keys);
    var clicked := Click(keys, itemId, listed);
    var a, b := ItemKeys(after), ItemKeys(clicked);
    var x := ItemKeyPrefix + itemId;
    assert |a| <= CacheKeep by {
      EvictKeepsLast(keys);
    }
    assert IsItemKey(x) by {
      assert x[..|ItemKeyPrefix|] == ItemKeyPrefix;
    }
    HomeStateNotItem();
    forall k | k in b ensures k in a || k == x {
      assert k in clicked && IsItemKey(k);
    }
    OneMore(a, b, x);
  }

  /** The saved page state is not a cached item. */
  lemma HomeStateNotItem()
    ensures !IsItemKey(HomeStateKey)
  {
    var p := HomeStateKey[..|ItemKeyPrefix|];
    assert p[9] == 'h' && ItemKeyPrefix[9] == 'i';
  }

  /** A strictly sorted sequence whose members are those of another one
      and possibly `x` is at most one longer. */
  lemma OneMore(a: seq<string>, b: seq<string>, x: string)
    requires Ordering.StrictlySorted(a) && Ordering.StrictlySorted(b)
    requires forall k :: k in b ==> k in a || k == x
    ensures |b| <= |a| + 1
  {
    Ordering.StrictlySortedNoRepeats(a);
    Ordering.StrictlySortedNoRepeats(b);
    Seqs.SetSize(a);
    Seqs.SetSize(b);
    var sa, sb := set k | k in a, set k | k in b;
    assert sb <= sa + {x};
    Seqs.SubsetSize(sb, sa + {x});
    if x in sa {
      assert sa + {x} == sa;
    }
  }

  /** Evicting twice is evicting once: right after an eviction nothing
      more is removed. */
  lemma EvictIdempotent(keys: seq<string>)
    ensures Evicted(AfterEvict(keys)) == []
    ensures AfterEvict(AfterEvict(keys)) == AfterEvict(keys)
  {
    EvictKeepsLast(keys);
    Seqs.FilterAll(AfterEvict(keys), (k: string) => k !in Evicted(AfterEvict(keys)));
  }
}
