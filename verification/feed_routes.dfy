/** `POST /api/feeds` (subscribe to a feed) and `GET /api/feeds` (list the
    caller's feeds). Fetching and parsing the feed is a parameter: its
    outcome is either the parsed channel or the message of the error it
    threw. URL validation and the regular expression engine are
    parameters as well. */
module FeedRoutes {
  import opened Wrappers
  import Strings
  import Seqs
  import Ordering
  import Json
  import Store
  import TitleFilter
  import Categorizer

  /* ----- Inputs ----- */

  /** The request body: parsed JSON, or the message of the error `req.json()`
      threw. */
  datatype Body = Parsed(v: Json.Value) | Unparsable(message: string)

  /** One entry of the parsed channel as the feed parser returns it. A
      missing `pubDate` and an empty one are both `None`. */
  datatype RawItem = RawItem(
    title: Option<string>,
    link: Option<string>,
    contentSnippet: Option<string>,
    content: Option<string>,
    description: Option<string>,
    pubDate: Option<Store.Time>)

  datatype Channel = Channel(title: Option<string>, description: Option<string>, items: seq<RawItem>)

  /** What `parser.parseURL(url)` produced: the channel, or a thrown value
      (`Some(message)` for an `Error`, `None` for anything else). */
  datatype Fetch = Fetched(channel: Channel) | ParseFailed(error: Option<string>)

  /* ----- Responses ----- */

  datatype Response =
    | Unauthorized
    | Failure(status: int, error: string)
    | Created(feed: Store.Feed, items: seq<Store.Item>)

  const InvalidUrl := "无效的 URL 格式：请输入完整的 RSS 地址（如：https://example.com/rss.xml）"
  const AlreadySubscribed := "Feed already subscribed"
  const TimedOut := "连接超时：无法访问 RSS 源，请检查网络连接或稍后重试"
  const NameNotResolved := "域名解析失败：无效的 URL 或网络不可达"
  const Refused := "连接被拒绝：目标服务器拒绝连接"
  const NotAFeed := "RSS 格式错误：该 URL 不是有效的 RSS/Atom 源"
  const Unreadable := "无法解析 RSS 源：请检查 URL 是否正确"
  const Exists := "该 RSS 源已存在"
  const DatabaseDown := "数据库连接失败，请稍后重试"
  const AddFailed := "添加 RSS 源失败："

  /* ----- The body schema ----- */

  /** `z.object({ url: z.string().url(), titleFilter: z.string().optional() })`:
      the url and the optional filter, or `None` when the body fails. */
  function Schema(v: Json.Value, validUrl: string -> bool): (r: Option<(string, Option<string>)>)
    ensures r.Some? <==>
              && v.Obj?
              && Json.Lookup(v.fields, "url").Some? && Json.Lookup(v.fields, "url").value.Str?
              && validUrl(Json.Lookup(v.fields, "url").value.s)
              && (Json.Lookup(v.fields, "titleFilter").None? || Json.Lookup(v.fields, "titleFilter").value.Str?)
    ensures r.Some? ==> r.value.0 == Json.Lookup(v.fields, "url").value.s
    ensures r.Some? ==> (r.value.1.Some? <==> Json.Lookup(v.fields, "titleFilter").Some?)
  {
    if !v.Obj? then None
    else
      var url := Json.Lookup(v.fields, "url");
      var filter := Json.Lookup(v.fields, "titleFilter");
      if url.None? || !url.value.Str? || !validUrl(url.value.s) then None
      else if filter.Some? && !filter.value.Str? then None
      else Some((url.value.s, if filter.Some? then Some(filter.value.s) else None))
  }

  /* ----- Classifying a failed fetch ----- */

  /** A rule: if the message contains any of the words, answer with the
      status and error. */
  datatype Rule = Rule(words: seq<string>, status: int, error: string)

  predicate Mentions(message: string, words: seq<string>) {
    exists i :: 0 <= i < |words| && Strings.Contains(message, words[i])
  }

  /** The first rule whose words occur in the message decides. */
  function FirstMatch(rules: seq<Rule>, message: string, fallback: (int, string)): (int, string) {
    if |rules| == 0 then fallback
    else if Mentions(message, rules[0].words) then (rules[0].status, rules[0].error)
    else FirstMatch(rules[1..], message, fallback)
  }

  const ParseRules: seq<Rule> := [
    Rule(["ETIMEDOUT", "timeout"], 408, TimedOut),
    Rule(["ENOTFOUND", "getaddrinfo"], 400, NameNotResolved),
    Rule(["ECONNREFUSED"], 400, Refused),
    Rule(["Invalid XML", "parser"], 400, NotAFeed)]

  lemma MentionsPair(m: string, a: string, b: string)
    ensures Mentions(m, [a, b]) == (Strings.Contains(m, a) || Strings.Contains(m, b))
  {
    if Strings.Contains(m, a) {
      assert [a, b][0] == a;
    }
    if Strings.Contains(m, b) {
      assert [a, b][1] == b;
    }
  }

  lemma MentionsOne(m: string, a: string)
    ensures Mentions(m, [a]) == Strings.Contains(m, a)
  {
    if Strings.Contains(m, a) {
      assert [a][0] == a;
    }
  }

  /** The rule table, unfolded. */
  lemma ParseRulesInOrder(m: string)
    ensures FirstMatch(ParseRules, m, (400, Unreadable)) ==
            if Strings.Contains(m, "ETIMEDOUT") || Strings.Contains(m, "timeout") then (408, TimedOut)
            else if Strings.Contains(m, "ENOTFOUND") || Strings.Contains(m, "getaddrinfo") then (400, NameNotResolved)
            else if Strings.Contains(m, "ECONNREFUSED") then (400, Refused)
            else if Strings.Contains(m, "Invalid XML") || Strings.Contains(m, "parser") then (400, NotAFeed)
            else (400, Unreadable)
  {
    var r := ParseRules;
    MentionsPair(m, "ETIMEDOUT", "timeout");
    MentionsPair(m, "ENOTFOUND", "getaddrinfo");
    MentionsOne(m, "ECONNREFUSED");
    MentionsPair(m, "Invalid XML", "parser");
    assert r[1..][1..][1..][1..] == [];
    assert FirstMatch(r[1..][1..][1..], m, (400, Unreadable))
        == if Mentions(m, ["Invalid XML", "parser"]) then (400, NotAFeed) else (400, Unreadable);
    assert FirstMatch(r[1..][1..], m, (400, Unreadable))
        == if Mentions(m, ["ECONNREFUSED"]) then (400, Refused) else FirstMatch(r[1..][1..][1..], m, (400, Unreadable));
    assert FirstMatch(r[1..], m, (400, Unreadable))
        == if Mentions(m, ["ENOTFOUND", "getaddrinfo"]) then (400, NameNotResolved) else FirstMatch(r[1..][1..], m, (400, Unreadable));
  }

  /** The status and error for a failed fetch, as the chain of checks in
      the handler computes them. */
  function ClassifyParseError(error: Option<string>): (r: (int, string))
    // The checks are the rule table, tried in order; anything else, and
    // anything thrown that is not an `Error`, gets the generic 400.
    ensures error.Some? ==> r == FirstMatch(ParseRules, error.value, (400, Unreadable))
    ensures error.None? ==> r == (400, Unreadable)
    // Every fetch failure is a client error, and only a timeout is not 400.
    ensures r.0 == 408 || r.0 == 400
  {
    if error.None? then (400, Unreadable)
    else
      var m := error.value;
      var timeout := Strings.Contains(m, "ETIMEDOUT") || Strings.Contains(m, "timeout");
      var dns := Strings.Contains(m, "ENOTFOUND") || Strings.Contains(m, "getaddrinfo");
      var refused := Strings.Contains(m, "ECONNREFUSED");
      var xml := Strings.Contains(m, "Invalid XML") || Strings.Contains(m, "parser");
      ParseRulesInOrder(m);
      if timeout then (408, TimedOut)
      else if dns then (400, NameNotResolved)
      else if refused then (400, Refused)
      else if xml then (400, NotAFeed)
      else (400, Unreadable)
  }

  /** An error thrown anywhere else in the handler (an unparsable body, a
      failed insert). */
  function ClassifyError(message: string): (r: (int, string))
    ensures Strings.Contains(message, "unique constraint") ==> r == (409, Exists)
    ensures !Strings.Contains(message, "unique constraint") ==>
              (r == (503, DatabaseDown) <==> Strings.Contains(message, "connect") || Strings.Contains(message, "ETIMEDOUT"))
    ensures r.0 == 500 <==> r == (500, AddFailed + message)
  {
    if Strings.Contains(message, "unique constraint") then (409, Exists)
    else if Strings.Contains(message, "connect") || Strings.Contains(message, "ETIMEDOUT") then (503, DatabaseDown)
    else (500, AddFailed + message)
  }

  /* ----- Building the records ----- */

  /** An item of the new feed, before the store gives it an id. */
  datatype NewItem = NewItem(title: string, link: Option<string>, description: Option<string>, pubDate: Store.Time)

  predicate Truthy(s: Option<string>) {
    s.Some? && s.value != ""
  }

  /** `title || "Untitled"`, `contentSnippet || content || description`,
      and the publication date or the current time. */
  function Normalise(raw: RawItem, now: Store.Time): (r: NewItem)
    ensures r.title != ""
    ensures r.title == (if Truthy(raw.title) then raw.title.value else "Untitled")
    ensures r.link == raw.link
    ensures Truthy(raw.contentSnippet) ==> r.description == raw.contentSnippet
    ensures !Truthy(raw.contentSnippet) && Truthy(raw.content) ==> r.description == raw.content
    ensures !Truthy(raw.contentSnippet) && !Truthy(raw.content) ==> r.description == raw.description
    ensures r.pubDate == raw.pubDate.GetOr(now)
  {
    NewItem(if Truthy(raw.title) then raw.title.value else "Untitled",
            raw.link,
            if Truthy(raw.contentSnippet) then raw.contentSnippet
            else if Truthy(raw.content) then raw.content
            else raw.description,
            raw.pubDate.GetOr(now))
  }

  function NormaliseAll(raws: seq<RawItem>, now: Store.Time): (r: seq<NewItem>)
    ensures |r| == |raws|
    ensures forall k :: 0 <= k < |r| ==> r[k] == Normalise(raws[k], now)
  {
    seq(|raws|, k requires 0 <= k < |raws| => Normalise(raws[k], now))
  }

  /** The items stored for the feed: all of them, unless the filter is set
      and compiles, in which case those whose title it matches are
      dropped. */
  function FilterItems(e: TitleFilter.Engine, titleFilter: Option<string>, items: seq<NewItem>): (r: seq<NewItem>)
    ensures TitleFilter.Compile(e, titleFilter).None? ==> r == items
    ensures forall x :: x in r <==> x in items && TitleFilter.Keeps(e, TitleFilter.Compile(e, titleFilter), x.title)
    ensures multiset(r) <= multiset(items)
  {
    var filter := TitleFilter.Compile(e, titleFilter);
    if filter.None? then items
    else Seqs.Filter(items, (x: NewItem) => !e.matches(filter.value, x.title))
  }

  /** The rows `prisma.feed.create` writes for the items, in order, with
      store-assigned ids and the default unread state. */
  function StoredItems(items: seq<NewItem>, feedId: Store.Id, itemId: nat -> Store.Id, now: Store.Time)
    : (r: seq<Store.Item>)
    ensures |r| == |items|
    ensures forall k :: 0 <= k < |r| ==>
              && r[k].feedId == feedId && !r[k].read && r[k].createdAt == now
              && r[k].title == items[k].title && r[k].link == items[k].link
              && r[k].description == items[k].description && r[k].pubDate == items[k].pubDate
  {
    seq(|items|, k requires 0 <= k < |items| =>
      Store.Item(itemId(k), feedId, items[k].title, items[k].link, items[k].description, items[k].pubDate, false, now))
  }

  /** An already subscribed url for this user. */
  predicate Subscribed(feeds: seq<Store.Feed>, userId: Store.Id, url: string) {
    exists f :: f in feeds && f.url == url && f.userId == userId
  }

  /** The tables the handler writes. */
  datatype Tables = Tables(feeds: seq<Store.Feed>, items: seq<Store.Item>)

  /** `POST /api/feeds`. `feedId`, `itemId` and `now` are what the store and
      the clock supply; `createError` is the message of an error the insert
      throws, if it does. */
  function Subscribe(db: Tables, session: Option<Store.Id>, body: Body, validUrl: string -> bool,
                     fetch: Fetch, e: TitleFilter.Engine, now: Store.Time,
                     feedId: Store.Id, itemId: nat -> Store.Id, createError: Option<string>)
    : (r: (Response, Tables))
    // Only a created feed changes the tables.
    ensures !r.0.Created? ==> r.1 == db
    ensures session.None? <==> r.0 == Unauthorized
    ensures session.Some? && body.Parsed? ==>
              (Schema(body.v, validUrl).None? <==> r.0 == Failure(400, InvalidUrl))
    // A duplicate is refused before the feed is fetched: the outcome of
    // the fetch cannot matter.
    ensures session.Some? && body.Parsed? && Schema(body.v, validUrl).Some?
            && Subscribed(db.feeds, session.value, Schema(body.v, validUrl).value.0) ==>
              r == (Failure(400, AlreadySubscribed), db)
    ensures session.Some? && body.Parsed? && Schema(body.v, validUrl).Some?
            && !Subscribed(db.feeds, session.value, Schema(body.v, validUrl).value.0)
            && fetch.ParseFailed? ==>
              var (status, error) := ClassifyParseError(fetch.error);
              r.0 == Failure(status, error)
    ensures r.0.Created? ==>
              && session.Some? && body.Parsed? && Schema(body.v, validUrl).Some? && fetch.Fetched?
              && var (url, titleFilter) := Schema(body.v, validUrl).value;
              && !Subscribed(db.feeds, session.value, url)
              && r.0.feed == Store.Feed(feedId, session.value, url,
                                        Some(if Truthy(fetch.channel.title) then fetch.channel.title.value else url),
                                        [], if Truthy(titleFilter) then titleFilter else None, now)
              && r.0.items == StoredItems(FilterItems(e, titleFilter, NormaliseAll(fetch.channel.items, now)),
                                          feedId, itemId, now)
              && r.1 == Tables(db.feeds + [r.0.feed], db.items + r.0.items)
    // Conversely, a valid new url whose feed is fetched and inserted is
    // created; an insert that throws is reported by its message.
    ensures r.0.Created? <==>
              && session.Some? && body.Parsed? && Schema(body.v, validUrl).Some?
              && !Subscribed(db.feeds, session.value, Schema(body.v, validUrl).value.0)
              && fetch.Fetched? && createError.None?
    ensures session.Some? && body.Parsed? && Schema(body.v, validUrl).Some?
            && !Subscribed(db.feeds, session.value, Schema(body.v, validUrl).value.0)
            && fetch.Fetched? && createError.Some? ==>
              var (status, error) := ClassifyError(createError.value);
              r == (Failure(status, error), db)
  {
    if session.None? then (Unauthorized, db)
    else if body.Unparsable? then
      var (status, error) := ClassifyError(body.message);
      (Failure(status, error), db)
    else
      match Schema(body.v, validUrl)
      case None => (Failure(400, InvalidUrl), db)
      case Some((url, titleFilter)) =>
        if Subscribed(db.feeds, session.value, url) then (Failure(400, AlreadySubscribed), db)
        else if fetch.ParseFailed? then
          var (status, error) := ClassifyParseError(fetch.error);
          (Failure(status, error), db)
        else if createError.Some? then
          var (status, error) := ClassifyError(createError.value);
          (Failure(status, error), db)
        else
          var channel := fetch.channel;
          var title := if Truthy(channel.title) then channel.title.value else url;
          var feed := Store.Feed(feedId, session.value, url, Some(title), [],
                                 if Truthy(titleFilter) then titleFilter else None, now);
          var items := StoredItems(FilterItems(e, titleFilter, NormaliseAll(channel.items, now)), feedId, itemId, now);
          (Created(feed, items), Tables(db.feeds + [feed], db.items + items))
  }

  /** The categorisation started after a subscription sees the first five
      items before the title filter, and the feed as created. */
  function CategorizeInput(feed: Store.Feed, channel: Channel, now: Store.Time): (r: Categorizer.FeedInfo)
    ensures r.url == feed.url
    ensures r.items.Some? && |r.items.value| == Categorizer.Min(5, |channel.items|)
    ensures forall k :: 0 <= k < |r.items.value| ==>
              && r.items.value[k].title == Some(Normalise(channel.items[k], now).title)
              && (r.items.value[k].description.Some? <==> Truthy(Normalise(channel.items[k], now).description))
  {
    var items := NormaliseAll(channel.items, now);
    var sample := items[..Categorizer.Min(5, |items|)];
    Categorizer.FeedInfo(
      feed.url,
      if feed.title.Some? && feed.title.value != "" then feed.title else None,
      if Truthy(channel.description) then channel.description else None,
      Some(seq(|sample|, k requires 0 <= k < |sample| =>
        Categorizer.Sample(Some(sample[k].title), if Truthy(sample[k].description) then sample[k].description else None))))
  }

  /** A fetched channel with no matching filter keeps every item; a filter
      that does not compile is the same as none. */
  lemma FailOpen(e: TitleFilter.Engine, titleFilter: Option<string>, items: seq<NewItem>)
    requires titleFilter.None? || titleFilter.value == "" || !e.compiles(titleFilter.value)
    ensures FilterItems(e, titleFilter, items) == items
  {
  }

  /** With a working filter, an item is stored exactly when the pattern
      does not match its title. */
  lemma FilterDropsMatches(e: TitleFilter.Engine, p: string, items: seq<NewItem>, x: NewItem)
    requires p != "" && e.compiles(p)
    ensures x in FilterItems(e, Some(p), items) <==> x in items && !e.matches(p, x.title)
  {
  }

  /* ----- GET ----- */

  datatype ListResponse = ListUnauthorized | Feeds(feeds: seq<Store.Feed>)

  /** `GET /api/feeds`: the caller's feeds, newest first. */
  function ListFeeds(feeds: seq<Store.Feed>, session: Option<Store.Id>): (r: ListResponse)
    ensures session.None? <==> r.ListUnauthorized?
    ensures r.Feeds? ==> Ordering.SortedDesc(r.feeds, (f: Store.Feed) => f.createdAt)
    ensures r.Feeds? ==> forall f :: f in r.feeds <==> f in feeds && f.userId == session.value
    ensures r.Feeds? ==> multiset(r.feeds) <= multiset(feeds)
  {
    if session.None? then ListUnauthorized
    else
      var own := Seqs.Filter(feeds, (f: Store.Feed) => f.userId == session.value);
      var sorted := Ordering.SortDesc(own, (f: Store.Feed) => f.createdAt);
      Seqs.SameMembers(sorted, own);
      Feeds(sorted)
  }
}
