/** The item list the client pages hold, the query they send for it, and
    the local updates they apply to it once the server has answered. Each
    item carries the id and tags of its feed, as the items endpoint returns
    them. */
module ClientItems {
  import opened Wrappers
  import Seqs
  import Json
  import Strings
  import Store
  import ItemRoutes

  datatype FeedRef = FeedRef(id: string, tags: Option<seq<string>>)

  datatype ViewItem = ViewItem(id: string, title: string, read: bool, feed: FeedRef)

  /** The item's feed as the client sees it is the feed the store holds. */
  predicate Shows(v: ViewItem, i: Store.Item, f: Store.Feed) {
    v.id == i.id && v.read == i.read && i.feedId == f.id && v.feed == FeedRef(f.id, Some(f.tags))
  }

  /* ----- The items query ----- */

  datatype ReadFilter = All | ReadOnly | UnreadOnly

  /** `URLSearchParams` as built by `fetchItems`: `feedId` and `tag` when
      truthy, `read` unless the filter is absent or "all", and, on the home
      page, `page` and `limit=20`. */
  function ItemsParams(feedId: Option<string>, tag: Option<string>, filter: Option<ReadFilter>,
                       pageNum: Option<int>): (r: seq<(string, string)>)
    ensures ("read", "true") in r <==> filter == Some(ReadOnly)
    ensures ("read", "false") in r <==> filter == Some(UnreadOnly)
    ensures pageNum.None? ==> |r| <= 3
  {
    Named("feedId", feedId) + (Named("tag", tag) + (ReadPart(filter) + PagePart(pageNum)))
  }

  /** One parameter, appended when its value is truthy. */
  function Named(name: string, value: Option<string>): seq<(string, string)> {
    if ItemRoutes.Given(value) then [(name, value.value)] else []
  }

  function ReadPart(filter: Option<ReadFilter>): seq<(string, string)> {
    match filter
    case Some(ReadOnly) => [("read", "true")]
    case Some(UnreadOnly) => [("read", "false")]
    case _ => []
  }

  function PagePart(pageNum: Option<int>): seq<(string, string)> {
    if pageNum.Some? then [("page", Strings.IntToString(pageNum.value)), ("limit", "20")] else []
  }

  /** `URLSearchParams.get`: the first value under a name. */
  function Param(params: seq<(string, string)>, name: string): (r: Option<string>)
    ensures r.None? <==> forall k :: 0 <= k < |params| ==> params[k].0 != name
    ensures r.Some? ==> (name, r.value) in params
  {
    if |params| == 0 then None
    else if params[0].0 == name then Some(params[0].1)
    else Param(params[1..], name)
  }

  /** The query the items endpoint reads from the parameters. */
  function ServerQuery(params: seq<(string, string)>): ItemRoutes.ItemsQuery {
    ItemRoutes.ItemsQuery(Param(params, "feedId"), Param(params, "tag"), Param(params, "read"), None, None)
  }

  predicate FilterKeeps(filter: Option<ReadFilter>, read: bool) {
    match filter
    case Some(ReadOnly) => read
    case Some(UnreadOnly) => !read
    case _ => true
  }

  /** The endpoint narrows to exactly the feed, tag and read state the
      client asked for. */
  lemma QueryAgrees(feedId: Option<string>, tag: Option<string>, filter: Option<ReadFilter>, pageNum: Option<int>)
    ensures var q := ServerQuery(ItemsParams(feedId, tag, filter, pageNum));
            && (ItemRoutes.Given(q.feedId) <==> ItemRoutes.Given(feedId))
            && (ItemRoutes.Given(feedId) ==> q.feedId == feedId)
            && (ItemRoutes.Given(q.tag) <==> ItemRoutes.Given(tag))
            && (ItemRoutes.Given(tag) ==> q.tag == tag)
            && forall read: bool :: (q.read.Some? ==> read == (q.read.value == "true")) <==> FilterKeeps(filter, read)
  {
    var a, b, c, d := Named("feedId", feedId), Named("tag", tag), ReadPart(filter), PagePart(pageNum);
    TailNames(filter, pageNum);
    QueryFeed(feedId, b + (c + d));
    ParamSkips(a, b + (c + d), "tag");
    QueryTag(tag, c + d);
    ParamSkips(a, b + (c + d), "read");
    ParamSkips(b, c + d, "read");
    QueryRead(filter, d);
  }

  lemma TailNames(filter: Option<ReadFilter>, pageNum: Option<int>)
    ensures var t := ReadPart(filter) + PagePart(pageNum);
            forall k :: 0 <= k < |t| ==> t[k].0 != "tag" && t[k].0 != "feedId"
    ensures forall k :: 0 <= k < |PagePart(pageNum)| ==> PagePart(pageNum)[k].0 != "read"
  {
  }

  lemma QueryFeed(feedId: Option<string>, rest: seq<(string, string)>)
    requires forall k :: 0 <= k < |rest| ==> rest[k].0 != "feedId"
    ensures var v := Param(Named("feedId", feedId) + rest, "feedId");
            if ItemRoutes.Given(feedId) then v == feedId else v.None?
  {
    if !ItemRoutes.Given(feedId) {
      assert Named("feedId", feedId) + rest == rest;
    }
  }

  lemma QueryTag(tag: Option<string>, rest: seq<(string, string)>)
    requires forall k :: 0 <= k < |rest| ==> rest[k].0 != "tag"
    ensures var v := Param(Named("tag", tag) + rest, "tag");
            if ItemRoutes.Given(tag) then v == tag else v.None?
  {
    if !ItemRoutes.Given(tag) {
      assert Named("tag", tag) + rest == rest;
    }
  }

  lemma QueryRead(filter: Option<ReadFilter>, rest: seq<(string, string)>)
    requires forall k :: 0 <= k < |rest| ==> rest[k].0 != "read"
    ensures var v := Param(ReadPart(filter) + rest, "read");
            forall read: bool :: (v.Some? ==> read == (v.value == "true")) <==> FilterKeeps(filter, read)
  {
    if filter.None? || filter == Some(All) {
      assert ReadPart(filter) + rest == rest;
    }
  }

  /** A name absent from the front part is looked up in the rest. */
  lemma {:induction false} ParamSkips(a: seq<(string, string)>, b: seq<(string, string)>, name: string)
    requires forall k :: 0 <= k < |a| ==> a[k].0 != name
    ensures Param(a + b, name) == Param(b, name)
  {
    if |a| > 0 {
      Seqs.DropHead(a, b);
      ParamSkips(a[1..], b, name);
    } else {
      assert a + b == b;
    }
  }

  /* ----- Mark all as read ----- */

  /** The filter of the local mark-all-read update: the selected feed, if
      one is selected, and the selected tag, if one is selected. */
  predicate InScope(feedId: Option<string>, tag: Option<string>, v: ViewItem) {
    && (ItemRoutes.Given(feedId) ==> v.feed.id == feedId.value)
    && (ItemRoutes.Given(tag) ==> v.feed.tags.Some? && tag.value in v.feed.tags.value)
  }

  /** The body sent to the mark-all-read endpoint. */
  function MarkAllBody(feedId: Option<string>, tag: Option<string>): Json.Value {
    Json.Obj((if ItemRoutes.Given(feedId) then [Json.Field("feedId", Json.Str(feedId.value))] else [])
             + (if ItemRoutes.Given(tag) then [Json.Field("tag", Json.Str(tag.value))] else []))
  }

  /** The local update after a successful mark-all-read: items in scope
      become read, everything else is kept as it was. */
  function MarkAllRead(items: seq<ViewItem>, feedId: Option<string>, tag: Option<string>): (r: seq<ViewItem>)
    ensures |r| == |items|
    ensures forall j :: 0 <= j < |r| ==> r[j].read == (items[j].read || InScope(feedId, tag, items[j]))
    ensures forall j :: 0 <= j < |r| ==> r[j].(read := items[j].read) == items[j]
  {
    if |items| == 0 then []
    else
      var v := items[0];
      [if InScope(feedId, tag, v) && !v.read then v.(read := true) else v] + MarkAllRead(items[1..], feedId, tag)
  }

  /** Repeating the local update changes nothing. */
  lemma MarkAllReadIdempotent(items: seq<ViewItem>, feedId: Option<string>, tag: Option<string>)
    ensures MarkAllRead(MarkAllRead(items, feedId, tag), feedId, tag) == MarkAllRead(items, feedId, tag)
  {
    var r := MarkAllRead(items, feedId, tag);
    var r2 := MarkAllRead(r, feedId, tag);
    forall j | 0 <= j < |r| ensures r2[j] == r[j] {
      assert r[j].feed == items[j].feed;
    }
  }

  /** The local update agrees with what the endpoint does to the store:
      for an item the client shows as the store holds it, the body the
      client sends makes the endpoint mark it exactly when the local update
      does. */
  lemma MarkAllAgrees(feeds: seq<Store.Feed>, user: Store.Id, feedId: Option<string>, tag: Option<string>,
                      v: ViewItem, i: Store.Item, f: Store.Feed)
    requires Shows(v, i, f) && Store.FeedById(feeds, i.feedId) == Some(f) && f.userId == user
    ensures var body := MarkAllBody(feedId, tag);
            var sentFeed := ItemRoutes.OptionalString(body, "feedId");
            var sentTag := ItemRoutes.OptionalString(body, "tag");
            && sentFeed.Some? && sentTag.Some?
            && (v.read || InScope(feedId, tag, v))
               == (i.read || ItemRoutes.InMarkScope(feeds, user, sentFeed.value, sentTag.value, i))
  {
    SentFields(feedId, tag);
  }

  /** What the endpoint reads back from the body: the feed and the tag
      when truthy, nothing otherwise. */
  lemma SentFields(feedId: Option<string>, tag: Option<string>)
    ensures var body := MarkAllBody(feedId, tag);
            && ItemRoutes.OptionalString(body, "feedId") == Some(if ItemRoutes.Given(feedId) then feedId else None)
            && ItemRoutes.OptionalString(body, "tag") == Some(if ItemRoutes.Given(tag) then tag else None)
  {
    var body := MarkAllBody(feedId, tag);
    var a := if ItemRoutes.Given(feedId) then [Json.Field("feedId", Json.Str(feedId.value))] else [];
    var b := if ItemRoutes.Given(tag) then [Json.Field("tag", Json.Str(tag.value))] else [];
    assert body.fields == a + b;
    if ItemRoutes.Given(feedId) {
      assert Json.Lookup(body.fields, "feedId") == Some(Json.Str(feedId.value));
    } else {
      assert Json.Lookup(body.fields, "feedId").None?;
    }
    if ItemRoutes.Given(tag) {
      assert Json.Lookup(body.fields, "tag") == Some(Json.Str(tag.value));
    } else {
      assert Json.Lookup(body.fields, "tag").None?;
    }
  }

  /* ----- Mark one item as read ----- */

  /** The local update after a successful mark-as-read: only the item with
      that id changes, and only to read. */
  function MarkRead(items: seq<ViewItem>, id: string): (r: seq<ViewItem>)
    ensures |r| == |items|
    ensures forall j :: 0 <= j < |r| ==> r[j] == if items[j].id == id then items[j].(read := true) else items[j]
  {
    if |items| == 0 then []
    else [if items[0].id == id then items[0].(read := true) else items[0]] + MarkRead(items[1..], id)
  }

  /** Marking the same item again changes nothing. */
  lemma MarkReadIdempotent(items: seq<ViewItem>, id: string)
    ensures MarkRead(MarkRead(items, id), id) == MarkRead(items, id)
  {
  }

  /** How a mark-as-read request ended: marked, 404, another refusal with
      its message, or a thrown `fetch`. */
  datatype MarkReply = Marked | Missing | Refused(error: string) | Failed

  /** The list after a mark-as-read request and the message shown, if
      any: a success marks the item read, a 404 removes it from the list,
      anything else leaves the list alone. */
  function AfterMark(items: seq<ViewItem>, id: string, reply: MarkReply): (r: (seq<ViewItem>, Option<string>))
    ensures reply.Marked? <==> r.1.None?
    ensures reply == Marked ==> r.0 == MarkRead(items, id)
    ensures reply == Missing ==> r.0 == RemoveId(items, id) && r.1 == Some("home.items.errorNotFound")
    ensures reply.Refused? || reply.Failed? ==> r.0 == items
    // Afterwards the item is read, or no longer listed.
    ensures reply == Marked ==> forall v :: v in r.0 && v.id == id ==> v.read
    ensures reply == Missing ==> forall v :: v in r.0 ==> v.id != id
  {
    match reply
    case Marked => (MarkRead(items, id), None)
    case Missing => (RemoveId(items, id), Some("home.items.errorNotFound"))
    case Refused(e) => (items, Some("items.markAsReadError: " + e))
    case Failed => (items, Some("home.items.networkError"))
  }

  /* ----- Remove one item ----- */

  function Ids(items: seq<ViewItem>): (r: seq<string>)
    ensures |r| == |items|
    ensures forall j :: 0 <= j < |items| ==> r[j] == items[j].id
  {
    if |items| == 0 then [] else [items[0].id] + Ids(items[1..])
  }

  predicate DistinctIds(items: seq<ViewItem>) {
    forall j, k :: 0 <= j < k < |items| ==> items[j].id != items[k].id
  }

  /** The test `item.id !== itemId`. */
  function Other(id: string): ViewItem -> bool {
    (v: ViewItem) => v.id != id
  }

  /** `items.filter(item => item.id !== itemId)`, after a 404. */
  function RemoveId(items: seq<ViewItem>, id: string): (r: seq<ViewItem>)
    ensures forall v :: v in r <==> v in items && v.id != id
    ensures |r| <= |items|
  {
    Seqs.Filter(items, Other(id))
  }

  /** With distinct ids, removing an id that is listed shortens the list by
      exactly one, and removing one that is not listed changes nothing. */
  lemma {:induction false} RemoveIdCount(items: seq<ViewItem>, id: string)
    requires DistinctIds(items)
    ensures id in Ids(items) ==> |RemoveId(items, id)| == |items| - 1
    ensures id !in Ids(items) ==> RemoveId(items, id) == items
  {
    if |items| > 0 {
      var rest := items[1..];
      var r, rr := RemoveId(items, id), RemoveId(rest, id);
      assert DistinctIds(rest) by {
        DistinctTail(items);
      }
      RemoveIdCount(rest, id);
      assert id in Ids(items) <==> items[0].id == id || id in Ids(rest) by {
        assert Ids(items) == [items[0].id] + Ids(rest);
      }
      if items[0].id == id {
        assert r == rr by {
          Seqs.FilterCons(items, Other(id));
        }
        assert id !in Ids(rest) by {
          DistinctTail(items);
          IdsMembers(rest);
        }
      } else {
        assert r == [items[0]] + rr by {
          Seqs.FilterCons(items, Other(id));
        }
        if id !in Ids(rest) {
          assert [items[0]] + rest == items;
        }
      }
    }
  }

  lemma IdsMembers(items: seq<ViewItem>)
    ensures forall x :: x in Ids(items) <==> exists v :: v in items && v.id == x
  {
    var ids := Ids(items);
    forall x | x in ids ensures exists v :: v in items && v.id == x {
      var k :| 0 <= k < |ids| && ids[k] == x;
      assert items[k] in items;
    }
  }

  /** The tail of a list with distinct ids has distinct ids, none of them
      the head's. */
  lemma DistinctTail(items: seq<ViewItem>)
    requires DistinctIds(items) && |items| > 0
    ensures DistinctIds(items[1..])
    ensures forall v :: v in items[1..] ==> v.id != items[0].id
  {
    var rest := items[1..];
    forall j, k | 0 <= j < k < |rest| ensures rest[j].id != rest[k].id {
      assert rest[j] == items[j + 1] && rest[k] == items[k + 1];
    }
    forall v | v in rest ensures v.id != items[0].id {
      var k :| 0 <= k < |rest| && rest[k] == v;
      assert items[k + 1] == v;
    }
  }

  /** An item whose id is new in front of a list with distinct ids. */
  lemma DistinctCons(x: ViewItem, rest: seq<ViewItem>)
    requires DistinctIds(rest) && forall v :: v in rest ==> v.id != x.id
    ensures DistinctIds([x] + rest)
  {
    var r := [x] + rest;
    forall j, k | 0 <= j < k < |r| ensures r[j].id != r[k].id {
      assert r[k] == rest[k - 1];
      assert rest[k - 1] in rest;
      if j > 0 {
        assert r[j] == rest[j - 1];
      }
    }
  }

  /* ----- Pages ----- */

  /** A subsequence of a list with distinct ids has distinct ids. */
  lemma {:induction false} FilterDistinct(items: seq<ViewItem>, p: ViewItem -> bool)
    requires DistinctIds(items)
    ensures DistinctIds(Seqs.Filter(items, p))
  {
    if |items| > 0 {
      DistinctTail(items);
      FilterDistinct(items[1..], p);
      if p(items[0]) {
        DistinctCons(items[0], Seqs.Filter(items[1..], p));
      }
    }
  }

  /** The items of a page whose id is not already listed. */
  function Unseen(prev: seq<ViewItem>, page: seq<ViewItem>): (r: seq<ViewItem>)
    ensures forall v :: v in r <==> v in page && v.id !in Ids(prev)
  {
    var ids := Ids(prev);
    Seqs.Filter(page, (v: ViewItem) => v.id !in ids)
  }

  /** The list after a page arrives: in append mode the new items not yet
      listed go behind the old ones, otherwise the page replaces the list. */
  function Arrive(prev: seq<ViewItem>, page: seq<ViewItem>, append: bool): (r: seq<ViewItem>)
    ensures !append ==> r == page
    ensures append ==> |prev| <= |r| && r[..|prev|] == prev
    ensures append ==> forall v :: v in r <==> v in prev || (v in page && v.id !in Ids(prev))
    ensures append ==> r[|prev|..] == Unseen(prev, page)
  {
    if append then prev + Unseen(prev, page) else page
  }

  /** An empty page appends nothing. */
  lemma ArriveEmpty(prev: seq<ViewItem>)
    ensures Arrive(prev, [], true) == prev
  {
    assert Unseen(prev, []) == [];
  }

  /** One more item at the end of the page is appended, at the end, exactly
      when its id was not listed before the page arrived: the unseen items
      keep page order, repeats included. */
  lemma ArriveSnoc(prev: seq<ViewItem>, page: seq<ViewItem>, x: ViewItem)
    ensures Arrive(prev, page + [x], true)
            == Arrive(prev, page, true) + (if x.id !in Ids(prev) then [x] else [])
  {
    UnseenSnoc(prev, page, x);
    Seqs.Assoc(prev, Unseen(prev, page), if x.id !in Ids(prev) then [x] else []);
  }

  lemma UnseenSnoc(prev: seq<ViewItem>, page: seq<ViewItem>, x: ViewItem)
    ensures Unseen(prev, page + [x]) == Unseen(prev, page) + (if x.id !in Ids(prev) then [x] else [])
  {
    var ids := Ids(prev);
    var p := (v: ViewItem) => v.id !in ids;
    var full := page + [x];
    assert full[..|full| - 1] == page;
    Seqs.FilterSnoc(full, p);
  }

  /** Appending keeps ids distinct, and every item of the page is listed
      afterwards, itself or under an item that already had its id. */
  lemma AppendDistinct(prev: seq<ViewItem>, page: seq<ViewItem>)
    requires DistinctIds(prev) && DistinctIds(page)
    ensures DistinctIds(Arrive(prev, page, true))
    ensures forall v :: v in page ==> v.id in Ids(Arrive(prev, page, true))
  {
    var ids := Ids(prev);
    var u := Unseen(prev, page);
    FilterDistinct(page, (v: ViewItem) => v.id !in ids);
    var r := prev + u;
    forall j, k | 0 <= j < k < |r| ensures r[j].id != r[k].id {
      if k >= |prev| {
        assert r[k] == u[k - |prev|];
        assert u[k - |prev|] in u;
        if j < |prev| {
          assert r[j] == prev[j];
          assert ids[j] == prev[j].id;
        } else {
          assert r[j] == u[j - |prev|];
        }
      }
    }
    forall v | v in page ensures v.id in Ids(r) {
      var rid := Ids(r);
      if v.id in ids {
        var k :| 0 <= k < |ids| && ids[k] == v.id;
        assert r[k] == prev[k] && rid[k] == r[k].id;
      } else {
        assert v in u;
        var k :| 0 <= k < |u| && u[k] == v;
        assert r[|prev| + k] == v;
        assert rid[|prev| + k] == v.id;
      }
    }
  }

  const PageSize: nat := 20

  datatype Listing = Listing(items: seq<ViewItem>, hasMore: bool, page: int)

  /** `fetchItems` on the home page once the response is in: `None` stands
      for a failed or non-ok response, which changes nothing. */
  function Loaded(l: Listing, pageNum: int, response: Option<seq<ViewItem>>, append: bool): (r: Listing)
    ensures response.None? ==> r == l
    ensures response.Some? ==>
              && r.items == Arrive(l.items, response.value, append)
              && (r.hasMore <==> |response.value| == PageSize)
              && r.page == pageNum
  {
    match response
    case None => l
    case Some(page) => Listing(Arrive(l.items, page, append), |page| == PageSize, pageNum)
  }

  /** `loadMoreItems`: nothing while a load is running or when the last
      page was short; otherwise the next page, appended. */
  function LoadMore(l: Listing, loadingMore: bool): (r: Option<(int, bool)>)
    ensures r.Some? <==> !loadingMore && l.hasMore
    ensures r.Some? ==> r.value == (l.page + 1, true)
  {
    if loadingMore || !l.hasMore then None else Some((l.page + 1, true))
  }

  /** Loading more after a short page is impossible, and a full page in
      append mode advances the page number by one while keeping what was
      listed. */
  lemma LoadMoreAdvances(l: Listing, page: seq<ViewItem>)
    requires LoadMore(l, false).Some?
    ensures var r := Loaded(l, l.page + 1, Some(page), true);
            && r.page == l.page + 1
            && r.items[..|l.items|] == l.items
            && (LoadMore(r, false).Some? <==> |page| == PageSize)
  {
  }
}
