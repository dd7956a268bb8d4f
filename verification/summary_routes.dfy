/** The daily-summary endpoints over the (user, day) summary table:
    `POST /api/summaries/save` (create, or overwrite when forced) and
    `POST /api/summaries/generate` with its twin
    `POST /api/summaries/check-and-generate` (return today's row, or generate
    and store one). `session` is the signed-in user id, if any; `today` is the
    local midnight of the request; `fault` stands for a store call that
    throws. */
module SummaryRoutes {
  import opened Wrappers
  import Store
  import Json
  import ChatApi
  import DigestGenerator
  import DigestPrompt

  /** `body.key` on the parsed request body; `None` for `undefined`. Reading a
      property of `null` throws, which the caller handles. */
  function Member(body: Json.Value, key: string): Option<Json.Value> {
    match body
    case Obj(fields) => Json.Lookup(fields, key)
    case _ => None
  }

  /* ----- POST /api/summaries/save ----- */

  datatype SaveResponse =
    | SaveUnauthorized            // 401
    | ContentRequired             // 400
    | Saved(summary: Store.DailySummary)
    | SaveFailed                  // 500

  /** The parsed body: an unparsable body reads as `{}`. */
  function SaveBody(body: Option<Json.Value>): Json.Value {
    match body
    case None => Json.Obj([])
    case Some(v) => v
  }

  /** `body.force === true`. */
  function Force(body: Json.Value): (force: bool)
    ensures force <==> body.Obj? && Json.Lookup(body.fields, "force") == Some(Json.Bool(true))
  {
    Member(body, "force") == Some(Json.Bool(true))
  }

  /** `body.itemCount || 0`. */
  function ItemCount(body: Json.Value): (r: Json.Value)
    ensures Json.Truthy(r) || r == Json.Num(0)
    ensures Json.TruthyOpt(Member(body, "itemCount")) ==> Some(r) == Member(body, "itemCount")
  {
    var v := Member(body, "itemCount");
    if Json.TruthyOpt(v) then v.value else Json.Num(0)
  }

  function Save(m: Store.Summaries, users: map<Store.Id, Store.User>, session: Option<Store.Id>,
                body: Option<Json.Value>, today: Store.Time): (r: (SaveResponse, Store.Summaries))
    requires Store.KeysConsistent(m)
    ensures Store.KeysConsistent(r.1)
    // Nothing changes unless a row is saved.
    ensures !r.0.Saved? ==> r.1 == m
    ensures session.None? <==> r.0 == SaveUnauthorized
    ensures session.Some? && body.None? ==> r.0 == ContentRequired
    ensures session.Some? && SaveBody(body) != Json.Null && !Json.TruthyOpt(Member(SaveBody(body), "content"))
            ==> r.0 == ContentRequired
    // Without `force`, an existing row makes the create collide.
    ensures session.Some? && Store.SummaryKey(session.value, today) in m && !Force(SaveBody(body))
            ==> !r.0.Saved? && r.1 == m
    ensures r.0.Saved? ==>
              var k := Store.SummaryKey(session.value, today);
              && Member(SaveBody(body), "content") == Some(Json.Str(r.0.summary.content))
              && r.0.summary.language == Store.SummaryLanguage(users, session.value)
              && r.1 == m[k := r.0.summary]
              && (k in m ==> Force(SaveBody(body))
                             && r.0.summary.date == m[k].date
                             && r.0.summary.itemCount == m[k].itemCount)
              && (k !in m ==> Json.Num(r.0.summary.itemCount) == ItemCount(SaveBody(body)))
    // Conversely, a non-empty string content is saved: over the day's row
    // when forced, else as a new row when the count is a number.
    ensures && session.Some?
            && Member(SaveBody(body), "content").Some?
            && Member(SaveBody(body), "content").value.Str?
            && Member(SaveBody(body), "content").value.s != ""
            && (Store.SummaryKey(session.value, today) in m ==> Force(SaveBody(body)))
            && (Store.SummaryKey(session.value, today) !in m ==> ItemCount(SaveBody(body)).Num?)
            ==> r.0.Saved?
    ensures && session.Some?
            && Member(SaveBody(body), "content").Some?
            && Member(SaveBody(body), "content").value.Str?
            && Member(SaveBody(body), "content").value.s != ""
            && Store.SummaryKey(session.value, today) !in m
            && ItemCount(SaveBody(body)).Num?
            ==> r.0 == Saved(Store.DailySummary(session.value, today, Member(SaveBody(body), "content").value.s,
                                                Store.SummaryLanguage(users, session.value),
                                                ItemCount(SaveBody(body)).n))
  {
    if session.None? then (SaveUnauthorized, m)
    else
      var userId := session.value;
      var b := SaveBody(body);
      if b.Null? then (SaveFailed, m)
      else
        var force := Force(b);
        var content := Member(b, "content");
        var itemCount := ItemCount(b);
        if !Json.TruthyOpt(content) then (ContentRequired, m)
        else
          var existing := Store.GetTodaySummary(m, userId, today);
          var language := Store.SummaryLanguage(users, userId);
          if !content.value.Str? then (SaveFailed, m)
          else if existing.Some? && force then
            var updated := existing.value.(content := content.value.s, language := language);
            (Saved(updated), m[Store.SummaryKey(userId, today) := updated])
          else if !itemCount.Num? then (SaveFailed, m)
          else
            match Store.CreateDailySummary(m, userId, content.value.s, language, itemCount.n, today)
            case None => (SaveFailed, m)
            case Some((m', s)) => (Saved(s), m')
  }

  /* ----- POST /api/summaries/generate and /check-and-generate ----- */

  datatype GenerateResponse =
    | GenerateUnauthorized                                              // 401
    | SummaryBody(summary: Option<Store.DailySummary>, error: Option<string>)

  /** Everything the route reads besides the summary table. */
  datatype World = World(
    users: map<Store.Id, Store.User>,
    feeds: seq<Store.Feed>,
    items: seq<Store.Item>,
    configRows: map<string, string>,
    configFault: bool,
    fetchFault: bool)

  /** Unread items of the user in the 24-hour window (`prisma.item.count`). */
  function UnreadCount(w: World, userId: Store.Id, now: Store.Time): nat {
    |DigestGenerator.Eligible(w.feeds, w.items, userId, now)|
  }

  /** The articles of the window the generator fetches. */
  function Window(w: World, userId: Store.Id, now: Store.Time): seq<DigestPrompt.Article> {
    DigestGenerator.ToArticles(w.feeds, DigestGenerator.FetchWindow(w.feeds, w.items, userId, now))
  }

  function GenerateRoute(m: Store.Summaries, w: World, session: Option<Store.Id>, now: Store.Time,
                         today: Store.Time, reply: ChatApi.Reply, fault: bool): (r: (GenerateResponse, Store.Summaries))
    requires Store.KeysConsistent(m)
    ensures Store.KeysConsistent(r.1)
    ensures session.None? <==> r.0 == GenerateUnauthorized
    ensures session.None? || fault ==> r.1 == m
    // An existing row is returned as it is.
    ensures session.Some? && !fault && Store.SummaryKey(session.value, today) in m ==>
              r == (SummaryBody(Some(m[Store.SummaryKey(session.value, today)]), None), m)
    // No unread item: nothing is generated or written.
    ensures session.Some? && !fault && Store.SummaryKey(session.value, today) !in m
            && UnreadCount(w, session.value, now) == 0
            ==> r == (SummaryBody(None, None), m)
    // A tag naming an inherited member, or a failed window fetch, makes the
    // generation throw: the caught error is reported and nothing is written.
    ensures session.Some? && !fault && Store.SummaryKey(session.value, today) !in m
            && UnreadCount(w, session.value, now) > 0
            && ChatApi.GetOpenAIConfig(w.configRows, w.configFault).Some?
            && (w.fetchFault || DigestGenerator.InheritedTag(Window(w, session.value, now)))
            ==> r == (SummaryBody(None, Some(DigestGenerator.FailureMessage(Store.SummaryLanguage(w.users, session.value)))), m)
    // Without settings the generator's message is reported.
    ensures session.Some? && !fault && Store.SummaryKey(session.value, today) !in m
            && UnreadCount(w, session.value, now) > 0
            && ChatApi.GetOpenAIConfig(w.configRows, w.configFault).None?
            ==> r == (SummaryBody(None, Some(DigestGenerator.NotConfiguredMessage(Store.SummaryLanguage(w.users, session.value)))), m)
    // A reply without content is reported as such and nothing is written.
    ensures session.Some? && !fault && Store.SummaryKey(session.value, today) !in m
            && UnreadCount(w, session.value, now) > 0
            && ChatApi.GetOpenAIConfig(w.configRows, w.configFault).Some?
            && !w.fetchFault && !DigestGenerator.InheritedTag(Window(w, session.value, now))
            && DigestGenerator.Empty(reply)
            ==> r == (SummaryBody(None, Some(DigestGenerator.NoContentMessage(Store.SummaryLanguage(w.users, session.value)))), m)
    // A reply with content is stored as today's row, counting the window,
    // and that row is returned.
    ensures session.Some? && !fault && Store.SummaryKey(session.value, today) !in m
            && UnreadCount(w, session.value, now) > 0
            && ChatApi.GetOpenAIConfig(w.configRows, w.configFault).Some?
            && !w.fetchFault && !DigestGenerator.InheritedTag(Window(w, session.value, now))
            && DigestGenerator.Usable(reply)
            ==> var row := Store.DailySummary(session.value, today, ChatApi.ReplyContent(reply.data).text,
                                              Store.SummaryLanguage(w.users, session.value),
                                              |Window(w, session.value, now)|);
                r == (SummaryBody(Some(row), None), m[Store.SummaryKey(session.value, today) := row])
    // A failed generation writes nothing and reports its error.
    ensures r.0.SummaryBody? && r.0.summary.None? ==> r.1 == m
    // Success creates exactly the row of (user, today).
    ensures r.0.SummaryBody? && r.0.summary.Some? && r.1 != m ==>
              var k := Store.SummaryKey(session.value, today);
              && k !in m
              && r.1 == m[k := r.0.summary.value]
              && r.0.summary.value.language == Store.SummaryLanguage(w.users, session.value)
              && 0 < r.0.summary.value.itemCount <= DigestGenerator.FetchLimit
              && r.0.summary.value.itemCount <= UnreadCount(w, session.value, now)
  {
    if session.None? then (GenerateUnauthorized, m)
    else if fault then (SummaryBody(None, None), m)
    else
      var userId := session.value;
      var existing := Store.GetTodaySummary(m, userId, today);
      if existing.Some? then (SummaryBody(existing, None), m)
      else
        var language := Store.SummaryLanguage(w.users, userId);
        var count := UnreadCount(w, userId, now);
        if count == 0 then (SummaryBody(None, None), m)
        else
          var g := DigestGenerator.GenerateDailySummary(w.configRows, w.configFault, w.fetchFault, w.feeds, w.items,
                                                        userId, language, now, reply);
          Record(m, userId, language, count, g.outcome, today)
  }

  /** The route's reading of the generator's result when no row exists for
      the day: an error is reported, and a summary is stored, counting the
      generator's count or, when that is 0, the unread count. */
  function Record(m: Store.Summaries, userId: Store.Id, language: string, count: nat,
                  outcome: DigestGenerator.Outcome, today: Store.Time): (r: (GenerateResponse, Store.Summaries))
    requires Store.KeysConsistent(m)
    requires Store.SummaryKey(userId, today) !in m
    ensures Store.KeysConsistent(r.1)
    ensures outcome.NotGenerated? ==> r == (SummaryBody(None, Some(outcome.error)), m)
    ensures outcome.Generated? ==>
              var row := Store.DailySummary(userId, today, outcome.content, language,
                                            if outcome.itemCount != 0 then outcome.itemCount else count);
              r == (SummaryBody(Some(row), None), m[Store.SummaryKey(userId, today) := row])
  {
    match outcome
    case NotGenerated(error, _) => (SummaryBody(None, Some(error)), m)
    case Generated(content, itemCount) =>
      var stored := if itemCount != 0 then itemCount else count;
      match Store.CreateDailySummary(m, userId, content, language, stored, today)
      case None => (SummaryBody(None, None), m)
      case Some((m', s)) => (SummaryBody(Some(s), None), m')
  }

  /** A second request on the same day returns the row the first one
      created, whatever changed in between, and writes nothing. */
  lemma SecondGenerateReturnsFirst(m: Store.Summaries, w: World, w2: World, userId: Store.Id,
                                   now: Store.Time, now2: Store.Time, today: Store.Time,
                                   reply: ChatApi.Reply, reply2: ChatApi.Reply)
    requires Store.KeysConsistent(m)
    requires GenerateRoute(m, w, Some(userId), now, today, reply, false).0.SummaryBody?
    requires GenerateRoute(m, w, Some(userId), now, today, reply, false).0.summary.Some?
    ensures var (first, m1) := GenerateRoute(m, w, Some(userId), now, today, reply, false);
            GenerateRoute(m1, w2, Some(userId), now2, today, reply2, false) == (SummaryBody(first.summary, None), m1)
  {
  }

  /** A forced save of a day that already has a row keeps the row's date and
      item count and replaces its content and language only. */
  lemma ForcedSaveKeepsCount(m: Store.Summaries, users: map<Store.Id, Store.User>, userId: Store.Id,
                             content: string, today: Store.Time)
    requires Store.KeysConsistent(m)
    requires Store.SummaryKey(userId, today) in m
    requires content != ""
    ensures var body := Json.Obj([Json.Field("force", Json.Bool(true)), Json.Field("content", Json.Str(content))]);
            var old_ := m[Store.SummaryKey(userId, today)];
            Save(m, users, Some(userId), Some(body), today)
              == (Saved(old_.(content := content, language := Store.SummaryLanguage(users, userId))),
                  m[Store.SummaryKey(userId, today) := old_.(content := content, language := Store.SummaryLanguage(users, userId))])
  {
    var body := Json.Obj([Json.Field("force", Json.Bool(true)), Json.Field("content", Json.Str(content))]);
    assert "content"[0] != "force"[0];
    assert body.fields[..1] == [Json.Field("force", Json.Bool(true))];
    assert Json.Lookup(body.fields[..1], "force") == Some(Json.Bool(true));
    assert Member(body, "force") == Some(Json.Bool(true));
    assert Member(body, "content") == Some(Json.Str(content));
  }
}
