/** The item endpoints: `GET /api/items` (the filtered, paged list),
    `POST /api/items/mark-all-read` and `POST`/`GET /api/items/cleanup`.
    `session` is the signed-in user id, if any; `now` is the request time. */
module ItemRoutes {
  import opened Wrappers
  import Store
  import Json
  import Seqs
  import Ordering
  import TitleFilter

  function Min(a: int, b: int): int {
    if a < b then a else b
  }

  function Max(a: int, b: int): int {
    if a < b then b else a
  }

  function PubDate(i: Store.Item): int {
    i.pubDate
  }

  /** A query parameter or body member the code tests for truthiness: given
      and not the empty string. */
  predicate Given(p: Option<string>) {
    p.Some? && p.value != ""
  }

  /* ----- GET /api/items ----- */

  /** The query string. `page` and `limit` hold what `parseInt` made of a
      non-empty parameter; `None` is an absent or empty one. `read` is
      compared with `null`, so an empty `read` counts as given. */
  datatype ItemsQuery = ItemsQuery(
    feedId: Option<string>,
    tag: Option<string>,
    read: Option<string>,
    page: Option<int>,
    limit: Option<int>)

  function Page(q: ItemsQuery): int {
    if q.page.Some? then q.page.value else 1
  }

  function Limit(q: ItemsQuery): int {
    if q.limit.Some? then q.limit.value else 20
  }

  function Skip(q: ItemsQuery): int {
    (Page(q) - 1) * Limit(q)
  }

  /** The feed query's `where`: the caller's feeds, narrowed to `feedId` and
      to feeds tagged `tag` when those are given. */
  predicate FeedInScope(userId: Store.Id, feedId: Option<string>, tag: Option<string>, f: Store.Feed) {
    && f.userId == userId
    && (Given(feedId) ==> f.id == feedId.value)
    && (Given(tag) ==> tag.value in f.tags)
  }

  function ScopedFeeds(feeds: seq<Store.Feed>, userId: Store.Id, feedId: Option<string>, tag: Option<string>): seq<Store.Feed> {
    Seqs.Filter(feeds, (f: Store.Feed) => FeedInScope(userId, feedId, tag, f))
  }

  /** The item query's `where`: in a feed of the scope and, when `read` is
      given, with `read` equal to whether the parameter is `"true"`. */
  predicate Candidate(scoped: seq<Store.Feed>, read: Option<string>, i: Store.Item) {
    && Store.FeedById(scoped, i.feedId).Some?
    && (read.Some? ==> i.read == (read.value == "true"))
  }

  /** The candidates, newest first, as the store orders them. */
  function Candidates(items: seq<Store.Item>, scoped: seq<Store.Feed>, read: Option<string>): (r: seq<Store.Item>)
    ensures Ordering.SortedDesc(r, PubDate)
    ensures forall x :: x in r <==> x in items && Candidate(scoped, read, x)
  {
    var c := Seqs.Filter(items, (i: Store.Item) => Candidate(scoped, read, i));
    var r := Ordering.SortDesc(c, PubDate);
    Seqs.SameMembers(r, c);
    r
  }

  /** The rows of `findMany` with `skip` and `take: limit * 2`. A negative
      `take` makes the store read from the end of the order: it skips
      `skip` rows there, keeps `-take` rows and returns them in the query's
      order. */
  function Window(items: seq<Store.Item>, scoped: seq<Store.Feed>, q: ItemsQuery): (r: seq<Store.Item>)
    requires Skip(q) >= 0
    ensures |r| <= 2 * (if Limit(q) < 0 then -Limit(q) else Limit(q))
    ensures Ordering.SortedDesc(r, PubDate)
    ensures forall x :: x in r ==> x in items && Candidate(scoped, q.read, x)
  {
    var c := Candidates(items, scoped, q.read);
    var lo := if Limit(q) >= 0 then Min(Skip(q), |c|) else Max(0, |c| - Skip(q) + 2 * Limit(q));
    var hi := if Limit(q) >= 0 then Min(Skip(q) + 2 * Limit(q), |c|) else Max(0, |c| - Skip(q));
    Seqs.SliceIn(c, lo, hi);
    Ordering.SortedDescSlice(c, PubDate, lo, hi);
    c[lo..hi]
  }

  /** `slice(0, limit)`: a negative end counts from the end. */
  function SliceTo(k: seq<Store.Item>, limit: int): (r: seq<Store.Item>)
    ensures r <= k
    ensures limit >= 0 ==> |r| == Min(limit, |k|)
    ensures limit < 0 ==> |r| == Max(0, |k| + limit)
  {
    if limit >= 0 then k[..Min(limit, |k|)] else k[..Max(0, |k| + limit)]
  }

  /** `filterMap.get(item.feedId)`: the compiled filter of the item's feed. */
  function ItemFilter(e: TitleFilter.Engine, scoped: seq<Store.Feed>, i: Store.Item): Option<string> {
    match Store.FeedById(scoped, i.feedId)
    case None => None
    case Some(f) => TitleFilter.Compile(e, f.titleFilter)
  }

  predicate Shown(e: TitleFilter.Engine, scoped: seq<Store.Feed>, i: Store.Item) {
    TitleFilter.Keeps(e, ItemFilter(e, scoped, i), i.title)
  }

  function Kept(e: TitleFilter.Engine, scoped: seq<Store.Feed>, w: seq<Store.Item>): seq<Store.Item> {
    Seqs.Filter(w, (i: Store.Item) => Shown(e, scoped, i))
  }

  datatype ItemsResponse =
    | ItemsUnauthorized       // 401
    | ItemsFailed             // 400, the store rejects the window
    | ItemsPage(items: seq<Store.Item>)

  /** `GET /api/items`. A negative `skip` makes the store query throw,
      which the route answers with 400; a negative `limit` on the first
      page, where `skip` is 0, reads from the end instead. */
  function ItemsGet(feeds: seq<Store.Feed>, items: seq<Store.Item>, e: TitleFilter.Engine,
                    session: Option<Store.Id>, q: ItemsQuery): (r: ItemsResponse)
    ensures session.None? <==> r == ItemsUnauthorized
    ensures session.Some? ==> (r == ItemsFailed <==> Skip(q) < 0)
    ensures r.ItemsPage? ==>
              var scoped := ScopedFeeds(feeds, session.value, q.feedId, q.tag);
              && Skip(q) >= 0
              && Ordering.SortedDesc(r.items, PubDate)
              && (forall x :: x in r.items ==> x in Window(items, scoped, q) && Shown(e, scoped, x))
              && (Limit(q) >= 0 ==> |r.items| <= Limit(q))
              // A short page means the window held nothing more to show.
              && (Limit(q) >= 0 && |r.items| < Limit(q) ==>
                    forall x :: x in Window(items, scoped, q) && Shown(e, scoped, x) ==> x in r.items)
              // A negative limit drops that many shown rows from the end.
              && (Limit(q) < 0 ==>
                    && r.items <= Kept(e, scoped, Window(items, scoped, q))
                    && |r.items| == Max(0, |Kept(e, scoped, Window(items, scoped, q))| + Limit(q)))
  {
    if session.None? then ItemsUnauthorized
    else if Skip(q) < 0 then ItemsFailed
    else
      var scoped := ScopedFeeds(feeds, session.value, q.feedId, q.tag);
      var w := Window(items, scoped, q);
      var k := Kept(e, scoped, w);
      var page := SliceTo(k, Limit(q));
      Ordering.FilterSortedDesc(w, (i: Store.Item) => Shown(e, scoped, i), PubDate);
      Ordering.SortedDescPrefix(k, PubDate, |page|);
      assert page == k[..|page|];
      ItemsPage(page)
  }

  /** On the first page a negative limit is answered, not rejected: the
      window is the last `-2 * limit` candidates. */
  lemma NegativeLimitFirstPage(feeds: seq<Store.Feed>, items: seq<Store.Item>, e: TitleFilter.Engine,
                               userId: Store.Id, q: ItemsQuery)
    requires q.page == Some(1) && Limit(q) < 0
    ensures ItemsGet(feeds, items, e, Some(userId), q).ItemsPage?
    ensures var c := Candidates(items, ScopedFeeds(feeds, userId, q.feedId, q.tag), q.read);
            Window(items, ScopedFeeds(feeds, userId, q.feedId, q.tag), q) == c[Max(0, |c| + 2 * Limit(q))..]
  {
    assert Skip(q) == 0;
    LastCandidates(items, ScopedFeeds(feeds, userId, q.feedId, q.tag), q);
  }

  /** With no rows skipped, a negative limit's window ends with the last
      candidate. */
  lemma LastCandidates(items: seq<Store.Item>, scoped: seq<Store.Feed>, q: ItemsQuery)
    requires Skip(q) == 0 && Limit(q) < 0
    ensures var c := Candidates(items, scoped, q.read);
            Window(items, scoped, q) == c[Max(0, |c| + 2 * Limit(q))..]
  {
    var c := Candidates(items, scoped, q.read);
    assert Max(0, |c| - Skip(q)) == |c|;
  }

  /** A negative limit on any later page makes `skip` negative: 400. */
  lemma NegativeLimitLaterPage(feeds: seq<Store.Feed>, items: seq<Store.Item>, e: TitleFilter.Engine,
                               userId: Store.Id, q: ItemsQuery)
    requires Page(q) > 1 && Limit(q) < 0
    ensures ItemsGet(feeds, items, e, Some(userId), q) == ItemsFailed
  {
    assert Skip(q) == (Page(q) - 1) * Limit(q) < 0 by {
      MulNegative(Page(q) - 1, Limit(q));
    }
  }

  lemma MulNegative(a: int, b: int)
    requires a > 0 && b < 0
    ensures a * b < 0
  {
  }

  /** `skip` counts rows before the title filter, so consecutive pages
      overlap once the filter hides anything: when only the newest
      candidate is hidden, page 1 ends with the item page 2 starts with. */
  lemma PagesOverlap(feeds: seq<Store.Feed>, items: seq<Store.Item>, e: TitleFilter.Engine,
                     userId: Store.Id, q: ItemsQuery, L: int)
    requires q.page == Some(1) && q.limit == Some(L) && L >= 1
    requires var c := Candidates(items, ScopedFeeds(feeds, userId, q.feedId, q.tag), q.read);
             && |c| > L
             && !Shown(e, ScopedFeeds(feeds, userId, q.feedId, q.tag), c[0])
             && forall j :: 1 <= j <= L ==> Shown(e, ScopedFeeds(feeds, userId, q.feedId, q.tag), c[j])
    ensures var c := Candidates(items, ScopedFeeds(feeds, userId, q.feedId, q.tag), q.read);
            var p1 := ItemsGet(feeds, items, e, Some(userId), q);
            var p2 := ItemsGet(feeds, items, e, Some(userId), q.(page := Some(2)));
            && p1.ItemsPage? && p2.ItemsPage?
            && c[L] in p1.items
            && |p2.items| > 0 && p2.items[0] == c[L]
  {
    PageOneReaches(feeds, items, e, userId, q, L);
    PageTwoStarts(feeds, items, e, userId, q, L);
  }

  lemma PageOneReaches(feeds: seq<Store.Feed>, items: seq<Store.Item>, e: TitleFilter.Engine,
                       userId: Store.Id, q: ItemsQuery, L: int)
    requires q.page == Some(1) && q.limit == Some(L) && L >= 1
    requires var c := Candidates(items, ScopedFeeds(feeds, userId, q.feedId, q.tag), q.read);
             && |c| > L
             && !Shown(e, ScopedFeeds(feeds, userId, q.feedId, q.tag), c[0])
             && forall j :: 1 <= j <= L ==> Shown(e, ScopedFeeds(feeds, userId, q.feedId, q.tag), c[j])
    ensures var p1 := ItemsGet(feeds, items, e, Some(userId), q);
            p1.ItemsPage? && Candidates(items, ScopedFeeds(feeds, userId, q.feedId, q.tag), q.read)[L] in p1.items
  {
    var scoped := ScopedFeeds(feeds, userId, q.feedId, q.tag);
    var c := Candidates(items, scoped, q.read);
    var h1 := Min(2 * L, |c|);
    FirstWindow(items, scoped, q, L);
    PageItems(feeds, items, e, userId, q);
    FirstPageReachesOn(c, (i: Store.Item) => Shown(e, scoped, i), L, h1);
  }

  lemma PageTwoStarts(feeds: seq<Store.Feed>, items: seq<Store.Item>, e: TitleFilter.Engine,
                      userId: Store.Id, q: ItemsQuery, L: int)
    requires q.page == Some(1) && q.limit == Some(L) && L >= 1
    requires var c := Candidates(items, ScopedFeeds(feeds, userId, q.feedId, q.tag), q.read);
             |c| > L && Shown(e, ScopedFeeds(feeds, userId, q.feedId, q.tag), c[L])
    ensures var p2 := ItemsGet(feeds, items, e, Some(userId), q.(page := Some(2)));
            && p2.ItemsPage? && |p2.items| > 0
            && p2.items[0] == Candidates(items, ScopedFeeds(feeds, userId, q.feedId, q.tag), q.read)[L]
  {
    var q2 := q.(page := Some(2));
    var scoped := ScopedFeeds(feeds, userId, q.feedId, q.tag);
    var c := Candidates(items, scoped, q.read);
    var h2 := Min(3 * L, |c|);
    SecondWindow(items, scoped, q, L);
    PageItems(feeds, items, e, userId, q2);
    WindowStartsShown(c, (i: Store.Item) => Shown(e, scoped, i), L, h2);
  }

  lemma FirstWindow(items: seq<Store.Item>, scoped: seq<Store.Feed>, q: ItemsQuery, L: int)
    requires q.page == Some(1) && q.limit == Some(L) && L >= 1
    ensures Skip(q) == 0 && Limit(q) == L
    ensures var c := Candidates(items, scoped, q.read);
            Window(items, scoped, q) == c[0..Min(2 * L, |c|)]
  {
  }

  lemma SecondWindow(items: seq<Store.Item>, scoped: seq<Store.Feed>, q: ItemsQuery, L: int)
    requires q.page == Some(1) && q.limit == Some(L) && L >= 1
    requires |Candidates(items, scoped, q.read)| > L
    ensures Skip(q.(page := Some(2))) == L && Limit(q.(page := Some(2))) == L
    ensures var c := Candidates(items, scoped, q.read);
            Window(items, scoped, q.(page := Some(2))) == c[L..Min(3 * L, |c|)]
  {
    var q2 := q.(page := Some(2));
    assert Page(q2) == 2 && Skip(q2) == L;
  }

  /** A signed-in request with a valid window gets the first `limit` shown
      items of its window. */
  lemma PageItems(feeds: seq<Store.Feed>, items: seq<Store.Item>, e: TitleFilter.Engine,
                  userId: Store.Id, q: ItemsQuery)
    requires Skip(q) >= 0 && Limit(q) >= 0
    ensures var scoped := ScopedFeeds(feeds, userId, q.feedId, q.tag);
            var k := Kept(e, scoped, Window(items, scoped, q));
            ItemsGet(feeds, items, e, Some(userId), q) == ItemsPage(k[..Min(Limit(q), |k|)])
  {
  }

  /** A window whose first row is hidden and whose next `L` rows are shown
      yields a first page that reaches row `L`. */
  lemma FirstPageReachesOn<T(!new)>(c: seq<T>, p: T -> bool, L: nat, h: nat)
    requires 1 <= L < |c| && L + 1 <= h <= |c|
    requires !p(c[0]) && forall j :: 1 <= j <= L ==> p(c[j])
    ensures |Seqs.Filter(c[0..h], p)| >= L && c[L] in Seqs.Filter(c[0..h], p)[..L]
  {
    assert c[0..h] == [c[0]] + c[1..L + 1] + c[L + 1..h];
    Seqs.FilterAppend([c[0]] + c[1..L + 1], c[L + 1..h], p);
    Seqs.FilterAppend([c[0]], c[1..L + 1], p);
    Seqs.FilterAll(c[1..L + 1], p);
    assert Seqs.Filter([c[0]], p) == [] by {
      assert [c[0]][1..] == [];
    }
    var k := Seqs.Filter(c[0..h], p);
    assert k == c[1..L + 1] + Seqs.Filter(c[L + 1..h], p);
    assert k[..L] == c[1..L + 1];
    assert c[L] == k[..L][L - 1];
  }

  /** A window that starts at a shown row starts its page with it. */
  lemma WindowStartsShown<T(!new)>(c: seq<T>, p: T -> bool, lo: nat, hi: nat)
    requires lo < hi <= |c| && p(c[lo])
    ensures |Seqs.Filter(c[lo..hi], p)| > 0 && Seqs.Filter(c[lo..hi], p)[0] == c[lo]
  {
    assert c[lo..hi][0] == c[lo];
  }

  /* ----- POST /api/items/mark-all-read ----- */

  /** `z.string().optional()` on one member of an object body: `Some(None)`
      when absent, `None` when present but not a string. */
  function OptionalString(body: Json.Value, key: string): (r: Option<Option<string>>)
    requires body.Obj?
    ensures r == Some(None) <==> Json.Lookup(body.fields, key).None?
    ensures forall s :: r == Some(Some(s)) <==> Json.Lookup(body.fields, key) == Some(Json.Str(s))
  {
    match Json.Lookup(body.fields, key)
    case None => Some(None)
    case Some(Str(s)) => Some(Some(s))
    case Some(_) => None
  }

  /** The update's `where`: an unread item of one of the caller's feeds,
      restricted to feed `feedId` and to feeds tagged `tag` when given. */
  predicate InMarkScope(feeds: seq<Store.Feed>, userId: Store.Id, feedId: Option<string>,
                        tag: Option<string>, i: Store.Item) {
    var f := Store.FeedById(feeds, i.feedId);
    && f.Some? && f.value.userId == userId
    && !i.read
    && (Given(feedId) ==> f.value.id == feedId.value)
    && (Given(tag) ==> tag.value in f.value.tags)
  }

  /** `updateMany({ where, data: { read: true } })`. */
  function MarkRead(items: seq<Store.Item>, p: Store.Item -> bool): (r: seq<Store.Item>)
    ensures |r| == |items|
    ensures forall j :: 0 <= j < |items| ==> r[j] == if p(items[j]) then items[j].(read := true) else items[j]
  {
    if |items| == 0 then []
    else [if p(items[0]) then items[0].(read := true) else items[0]] + MarkRead(items[1..], p)
  }

  datatype MarkResponse =
    | MarkUnauthorized        // 401
    | MarkInvalid             // 400, the body fails the schema
    | Marked(count: nat)
    | MarkFailed              // 500, the body is not JSON

  function MarkAllRead(feeds: seq<Store.Feed>, items: seq<Store.Item>, session: Option<Store.Id>,
                       body: Option<Json.Value>): (r: (MarkResponse, seq<Store.Item>))
    ensures session.None? <==> r.0 == MarkUnauthorized
    ensures !r.0.Marked? ==> r.1 == items
    ensures session.Some? && body.Some? && !body.value.Obj? ==> r.0 == MarkInvalid
    ensures r.0.Marked? ==>
              exists feedId, tag ::
                var inScope := (i: Store.Item) => InMarkScope(feeds, session.value, feedId, tag, i);
                && body.Some? && body.value.Obj?
                && OptionalString(body.value, "feedId") == Some(feedId)
                && OptionalString(body.value, "tag") == Some(tag)
                && r.0.count == |Seqs.Filter(items, inScope)|
                && |r.1| == |items|
                && forall j :: 0 <= j < |items| ==>
                     r.1[j] == if inScope(items[j]) then items[j].(read := true) else items[j]
    // Conversely, an object body whose `feedId` and `tag` are strings or
    // absent is marked; a body that is not JSON fails.
    ensures session.Some? && body.Some? && body.value.Obj?
            && OptionalString(body.value, "feedId").Some? && OptionalString(body.value, "tag").Some?
            ==> r.0.Marked?
    ensures session.Some? && body.None? ==> r.0 == MarkFailed
    ensures session.Some? && body.Some? && body.value.Obj?
            && (OptionalString(body.value, "feedId").None? || OptionalString(body.value, "tag").None?)
            ==> r.0 == MarkInvalid
  {
    if session.None? then (MarkUnauthorized, items)
    else if body.None? then (MarkFailed, items)
    else if !body.value.Obj? then (MarkInvalid, items)
    else
      var feedId := OptionalString(body.value, "feedId");
      var tag := OptionalString(body.value, "tag");
      if feedId.None? || tag.None? then (MarkInvalid, items)
      else
        var inScope := (i: Store.Item) => InMarkScope(feeds, session.value, feedId.value, tag.value, i);
        (Marked(|Seqs.Filter(items, inScope)|), MarkRead(items, inScope))
  }

  /** After the update nothing is left in scope, so repeating the request
      marks nothing and changes nothing. */
  lemma MarkAllReadAgain(feeds: seq<Store.Feed>, items: seq<Store.Item>, session: Option<Store.Id>,
                         body: Option<Json.Value>)
    requires MarkAllRead(feeds, items, session, body).0.Marked?
    ensures var after := MarkAllRead(feeds, items, session, body).1;
            MarkAllRead(feeds, after, session, body) == (Marked(0), after)
  {
    var feedId := OptionalString(body.value, "feedId").value;
    var tag := OptionalString(body.value, "tag").value;
    MarkReadSettles(items, (i: Store.Item) => InMarkScope(feeds, session.value, feedId, tag, i));
  }

  /** Once an update has marked everything a scope of unread items holds,
      the scope is empty and a second update is the identity. */
  lemma MarkReadSettles(items: seq<Store.Item>, p: Store.Item -> bool)
    requires forall x: Store.Item :: p(x) ==> !x.read
    ensures Seqs.Filter(MarkRead(items, p), p) == []
    ensures MarkRead(MarkRead(items, p), p) == MarkRead(items, p)
  {
    var after := MarkRead(items, p);
    forall j | 0 <= j < |after| ensures !p(after[j]) {
      if p(items[j]) {
        assert after[j].read;
      }
    }
    var twice := MarkRead(after, p);
    assert forall j :: 0 <= j < |after| ==> twice[j] == after[j];
    assert twice == after;
    Seqs.FilterNone(after, p);
  }

  /* ----- POST and GET /api/items/cleanup ----- */

  /** `setDate(getDate() - days)`: `days` whole days before `now`. */
  function Cutoff(now: Store.Time, days: int): Store.Time {
    now - days * Store.DayMillis
  }

  /** The cleanup `where`: an item of one of the caller's feeds created
      before the cutoff and, under `onlyRead`, already read. */
  predicate Eligible(feeds: seq<Store.Feed>, userId: Store.Id, onlyRead: bool, cutoff: Store.Time, i: Store.Item) {
    && Store.OwnedBy(feeds, i, userId)
    && i.createdAt < cutoff
    && (onlyRead ==> i.read)
  }

  /** The items a cleanup run removes for `user` at `now`. */
  function Doomed(feeds: seq<Store.Feed>, items: seq<Store.Item>, user: Store.User, now: Store.Time): seq<Store.Item> {
    var cutoff := Cutoff(now, user.itemRetentionDays);
    Seqs.Filter(items, (i: Store.Item) => Eligible(feeds, user.id, user.itemRetentionOnlyRead, cutoff, i))
  }

  function Survivors(feeds: seq<Store.Feed>, items: seq<Store.Item>, user: Store.User, now: Store.Time): seq<Store.Item> {
    var cutoff := Cutoff(now, user.itemRetentionDays);
    Seqs.Filter(items, (i: Store.Item) => !Eligible(feeds, user.id, user.itemRetentionOnlyRead, cutoff, i))
  }

  /** The doomed and the surviving items split the table between them. */
  lemma DoomedSplit(feeds: seq<Store.Feed>, items: seq<Store.Item>, user: Store.User, now: Store.Time)
    ensures |Doomed(feeds, items, user, now)| + |Survivors(feeds, items, user, now)| == |items|
    ensures |Doomed(feeds, items, user, now)| == 0 ==> Survivors(feeds, items, user, now) == items
    ensures forall x :: x in Survivors(feeds, items, user, now)
                        <==> x in items && !Eligible(feeds, user.id, user.itemRetentionOnlyRead, Cutoff(now, user.itemRetentionDays), x)
  {
    var cutoff := Cutoff(now, user.itemRetentionDays);
    var p := (i: Store.Item) => Eligible(feeds, user.id, user.itemRetentionOnlyRead, cutoff, i);
    var q := (i: Store.Item) => !Eligible(feeds, user.id, user.itemRetentionOnlyRead, cutoff, i);
    Seqs.FilterSplit(items, p, q);
    if |Doomed(feeds, items, user, now)| == 0 {
      Seqs.FilterAll(items, q);
    }
  }

  datatype CleanupResponse =
    | CleanupUnauthorized     // 401
    | CleanupUserMissing      // 404
    | CleanupDisabled         // 400
    | Cleaned(deletedCount: nat)

  /** `POST /api/items/cleanup`. The users table is keyed by id; a user's
      `id` field agrees with its key. */
  function CleanupPost(feeds: seq<Store.Feed>, items: seq<Store.Item>, users: map<Store.Id, Store.User>,
                       session: Option<Store.Id>, now: Store.Time)
    : (r: (CleanupResponse, seq<Store.Item>, map<Store.Id, Store.User>))
    requires forall k :: k in users ==> users[k].id == k
    ensures session.None? <==> r.0 == CleanupUnauthorized
    ensures session.Some? ==> (r.0 == CleanupUserMissing <==> session.value !in users)
    ensures session.Some? && session.value in users
            ==> (r.0 == CleanupDisabled <==> users[session.value].itemRetentionDays == -1)
    ensures !r.0.Cleaned? ==> r.1 == items && r.2 == users
    ensures r.0.Cleaned? ==>
              var u := users[session.value];
              var cutoff := Cutoff(now, u.itemRetentionDays);
              && (forall x :: x in r.1 <==> x in items && !Eligible(feeds, u.id, u.itemRetentionOnlyRead, cutoff, x))
              && multiset(r.1) <= multiset(items)
              && r.0.deletedCount == |items| - |r.1|
              // The run is stamped whether or not anything was deleted.
              && r.2 == users[session.value := u.(lastItemCleanup := Some(now))]
  {
    if session.None? then (CleanupUnauthorized, items, users)
    else if session.value !in users then (CleanupUserMissing, items, users)
    else
      var u := users[session.value];
      if u.itemRetentionDays == -1 then (CleanupDisabled, items, users)
      else
        var stamped := users[session.value := u.(lastItemCleanup := Some(now))];
        var doomed := Doomed(feeds, items, u, now);
        DoomedSplit(feeds, items, u, now);
        if |doomed| == 0 then (Cleaned(0), items, stamped)
        else (Cleaned(|doomed|), Survivors(feeds, items, u, now), stamped)
  }

  datatype CleanupStatus =
    | StatusUnauthorized      // 401
    | StatusUserMissing       // 404
    | Eligibility(eligibleCount: nat, cutoff: Option<Store.Time>)

  /** `GET /api/items/cleanup`: how many items a cleanup would remove now. */
  function CleanupGet(feeds: seq<Store.Feed>, items: seq<Store.Item>, users: map<Store.Id, Store.User>,
                      session: Option<Store.Id>, now: Store.Time): (r: CleanupStatus)
    ensures session.None? <==> r == StatusUnauthorized
    ensures session.Some? ==> (r == StatusUserMissing <==> session.value !in users)
    ensures r.Eligibility? ==>
              var u := users[session.value];
              && (u.itemRetentionDays == -1 <==> r.cutoff.None?)
              && (u.itemRetentionDays == -1 ==> r.eligibleCount == 0)
              && (r.cutoff.Some? ==> r.cutoff.value == Cutoff(now, u.itemRetentionDays))
  {
    if session.None? then StatusUnauthorized
    else if session.value !in users then StatusUserMissing
    else
      var u := users[session.value];
      if u.itemRetentionDays == -1 then Eligibility(0, None)
      else Eligibility(|Doomed(feeds, items, u, now)|, Some(Cutoff(now, u.itemRetentionDays)))
  }

  /** The status count is what a cleanup at the same instant deletes: both
      use one predicate. */
  lemma StatusMatchesCleanup(feeds: seq<Store.Feed>, items: seq<Store.Item>, users: map<Store.Id, Store.User>,
                             session: Option<Store.Id>, now: Store.Time)
    requires forall k :: k in users ==> users[k].id == k
    requires session.Some? && session.value in users && users[session.value].itemRetentionDays != -1
    ensures CleanupGet(feeds, items, users, session, now).eligibleCount
            == CleanupPost(feeds, items, users, session, now).0.deletedCount
  {
    DoomedSplit(feeds, items, users[session.value], now);
  }

  /** A second cleanup with the same cutoff finds nothing left to delete. */
  lemma CleanupTwice(feeds: seq<Store.Feed>, items: seq<Store.Item>, users: map<Store.Id, Store.User>,
                     session: Option<Store.Id>, now: Store.Time)
    requires forall k :: k in users ==> users[k].id == k
    requires CleanupPost(feeds, items, users, session, now).0.Cleaned?
    ensures var (_, items', users') := CleanupPost(feeds, items, users, session, now);
            CleanupPost(feeds, items', users', session, now).0 == Cleaned(0)
  {
    var (_, items', users') := CleanupPost(feeds, items, users, session, now);
    var u := users[session.value];
    var u' := users'[session.value];
    assert u'.id == u.id && u'.itemRetentionDays == u.itemRetentionDays && u'.itemRetentionOnlyRead == u.itemRetentionOnlyRead;
    var p := (i: Store.Item) => Eligible(feeds, u.id, u.itemRetentionOnlyRead, Cutoff(now, u.itemRetentionDays), i);
    Seqs.FilterNone(items', p);
    assert Doomed(feeds, items', u', now) == [];
  }
}
