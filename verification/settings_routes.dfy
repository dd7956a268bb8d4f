/** The per-user settings endpoints: `GET`/`PATCH /api/settings/cleanup`
    (item retention) and `GET`/`PATCH /api/user/settings` (summary
    language). The users table is keyed by id. `body` is the parsed request
    body, `None` when it is not JSON. */
module SettingsRoutes {
  import opened Wrappers
  import Store
  import Json

  datatype Response<T> =
    | Unauthorized            // 401
    | UserMissing             // 404
    | Invalid(reason: string) // 400
    | Failed                  // 500
    | Ok(value: T)

  /* ----- /api/settings/cleanup ----- */

  datatype RetentionSettings = RetentionSettings(
    itemRetentionDays: int,
    itemRetentionOnlyRead: bool,
    lastItemCleanup: Option<Store.Time>)

  function Retention(u: Store.User): RetentionSettings {
    RetentionSettings(u.itemRetentionDays, u.itemRetentionOnlyRead, u.lastItemCleanup)
  }

  const BadDays := "Invalid itemRetentionDays value. Must be -1 (disabled) or a positive number."
  const BadOnlyRead := "Invalid itemRetentionOnlyRead value. Must be a boolean."

  function GetRetention(users: map<Store.Id, Store.User>, session: Option<Store.Id>): (r: Response<RetentionSettings>)
    ensures session.None? <==> r == Unauthorized
    ensures session.Some? ==> (r == UserMissing <==> session.value !in users)
    ensures r.Ok? ==> r.value == Retention(users[session.value])
  {
    if session.None? then Unauthorized
    else if session.value !in users then UserMissing
    else Ok(Retention(users[session.value]))
  }

  /** The days value the validator accepts: a number no smaller than -1. */
  predicate ValidDays(v: Option<Json.Value>) {
    v.Some? && v.value.Num? && v.value.n >= -1
  }

  /** `PATCH /api/settings/cleanup`. Destructuring a `null` body throws;
      any other non-object body has neither member. Updating a missing user
      throws as well. */
  function PatchRetention(users: map<Store.Id, Store.User>, session: Option<Store.Id>, body: Option<Json.Value>)
    : (r: (Response<RetentionSettings>, map<Store.Id, Store.User>))
    ensures !r.0.Ok? ==> r.1 == users
    ensures session.None? <==> r.0 == Unauthorized
    ensures session.Some? && body.Some? && body.value != Json.Null ==>
              var days := Json.Prop(body, "itemRetentionDays");
              var onlyRead := Json.Prop(body, "itemRetentionOnlyRead");
              // The days are checked first, then the flag.
              && (!ValidDays(days) <==> r.0 == Invalid(BadDays))
              && (ValidDays(days) && !(onlyRead.Some? && onlyRead.value.Bool?) <==> r.0 == Invalid(BadOnlyRead))
    ensures r.0.Ok? ==>
              var days := Json.Prop(body, "itemRetentionDays");
              var onlyRead := Json.Prop(body, "itemRetentionOnlyRead");
              && session.Some? && session.value in users
              && ValidDays(days) && onlyRead.Some? && onlyRead.value.Bool?
              && var u := users[session.value];
                 var u' := u.(itemRetentionDays := days.value.n, itemRetentionOnlyRead := onlyRead.value.b);
              && r.1 == users[session.value := u']
              && r.0.value == Retention(u')
              && r.0.value.lastItemCleanup == u.lastItemCleanup
    // Conversely, valid values for an existing user are stored; a body
    // that is not JSON, or a missing user, fails.
    ensures session.Some? && session.value in users && body.Some? && body.value != Json.Null
            && ValidDays(Json.Prop(body, "itemRetentionDays"))
            && Json.Prop(body, "itemRetentionOnlyRead").Some? && Json.Prop(body, "itemRetentionOnlyRead").value.Bool?
            ==> r.0.Ok?
    ensures session.Some? && (body.None? || body.value == Json.Null) ==> r.0 == Failed
    ensures session.Some? && session.value !in users && body.Some? && body.value != Json.Null
            && ValidDays(Json.Prop(body, "itemRetentionDays"))
            && Json.Prop(body, "itemRetentionOnlyRead").Some? && Json.Prop(body, "itemRetentionOnlyRead").value.Bool?
            ==> r.0 == Failed
  {
    if session.None? then (Unauthorized, users)
    else if body.None? || body.value == Json.Null then (Failed, users)
    else
      var days := Json.Prop(body, "itemRetentionDays");
      var onlyRead := Json.Prop(body, "itemRetentionOnlyRead");
      if !ValidDays(days) then (Invalid(BadDays), users)
      else if !(onlyRead.Some? && onlyRead.value.Bool?) then (Invalid(BadOnlyRead), users)
      else if session.value !in users then (Failed, users)
      else
        var u := users[session.value];
        var u' := u.(itemRetentionDays := days.value.n, itemRetentionOnlyRead := onlyRead.value.b);
        (Ok(Retention(u')), users[session.value := u'])
  }

  /** Whatever a successful update stores, a read returns, and nothing else
      of the user moves. */
  lemma PatchThenGet(users: map<Store.Id, Store.User>, session: Option<Store.Id>, body: Option<Json.Value>)
    requires PatchRetention(users, session, body).0.Ok?
    ensures var (resp, users') := PatchRetention(users, session, body);
            && GetRetention(users', session) == resp
            && users'.Keys == users.Keys
            && var u, u' := users[session.value], users'[session.value];
               u'.id == u.id && u'.email == u.email && u'.role == u.role
               && u'.summaryLanguage == u.summaryLanguage
  {
  }

  /* ----- /api/user/settings ----- */

  const Languages: set<string> := {"zh", "en"}

  datatype LanguageSetting = LanguageSetting(id: Store.Id, summaryLanguage: Option<string>)

  /** The body schema `{ summaryLanguage?: "zh" | "en" }`: `Some(None)` when
      the member is absent, `None` when the body fails the schema. */
  function ParseLanguage(body: Json.Value): (r: Option<Option<string>>)
    ensures r.None? <==> !body.Obj? || (Json.Lookup(body.fields, "summaryLanguage").Some?
                                         && Json.Lookup(body.fields, "summaryLanguage").value !in {Json.Str("zh"), Json.Str("en")})
    ensures r == Some(None) <==> body.Obj? && Json.Lookup(body.fields, "summaryLanguage").None?
    ensures r.Some? && r.value.Some? ==> r.value.value in Languages
  {
    if !body.Obj? then None
    else
      match Json.Lookup(body.fields, "summaryLanguage")
      case None => Some(None)
      case Some(v) => if v == Json.Str("zh") || v == Json.Str("en") then Some(Some(v.s)) else None
  }

  function GetLanguage(users: map<Store.Id, Store.User>, session: Option<Store.Id>): (r: Response<LanguageSetting>)
    ensures session.None? <==> r == Unauthorized
    ensures session.Some? ==> (r == UserMissing <==> session.value !in users)
    ensures r.Ok? ==> r.value == LanguageSetting(session.value, users[session.value].summaryLanguage)
  {
    if session.None? then Unauthorized
    else if session.value !in users then UserMissing
    else Ok(LanguageSetting(session.value, users[session.value].summaryLanguage))
  }

  /** `PATCH /api/user/settings`. Updating a missing user throws. */
  function PatchLanguage(users: map<Store.Id, Store.User>, session: Option<Store.Id>, body: Option<Json.Value>)
    : (r: (Response<LanguageSetting>, map<Store.Id, Store.User>))
    requires forall k :: k in users ==> users[k].id == k
    ensures !r.0.Ok? ==> r.1 == users
    ensures session.None? <==> r.0 == Unauthorized
    ensures session.Some? && body.Some? ==> (r.0 == Invalid("Invalid settings format") <==> ParseLanguage(body.value).None?)
    ensures r.0.Ok? ==>
              && session.Some? && body.Some? && ParseLanguage(body.value).Some?
              && var lang := ParseLanguage(body.value).value;
              && session.value in users
              && r.1.Keys == users.Keys
              && (forall k :: k in users && k != session.value ==> r.1[k] == users[k])
              // An omitted language leaves the stored one.
              && r.1[session.value] == (if lang.Some? then users[session.value].(summaryLanguage := lang)
                                        else users[session.value])
              && r.0.value == LanguageSetting(session.value, r.1[session.value].summaryLanguage)
    // Conversely, a body the schema admits updates an existing user; a
    // body that is not JSON, or a missing user, fails.
    ensures session.Some? && session.value in users && body.Some? && ParseLanguage(body.value).Some?
            ==> r.0.Ok?
    ensures session.Some? && body.None? ==> r.0 == Failed
    ensures session.Some? && session.value !in users && body.Some? && ParseLanguage(body.value).Some?
            ==> r.0 == Failed
  {
    if session.None? then (Unauthorized, users)
    else if body.None? then (Failed, users)
    else
      var lang := ParseLanguage(body.value);
      if lang.None? then (Invalid("Invalid settings format"), users)
      else if session.value !in users then (Failed, users)
      else
        var u := users[session.value];
        var u' := if lang.value.Some? then u.(summaryLanguage := lang.value) else u;
        (Ok(LanguageSetting(u.id, u'.summaryLanguage)), users[session.value := u'])
  }

  /** A stored language is always one the schema admits, and what `PATCH`
      reports is what `GET` reads afterwards. */
  lemma PatchLanguageThenGet(users: map<Store.Id, Store.User>, session: Option<Store.Id>, body: Option<Json.Value>)
    requires forall k :: k in users ==> users[k].id == k
    requires PatchLanguage(users, session, body).0.Ok?
    requires users[session.value].summaryLanguage.None? || users[session.value].summaryLanguage.value in Languages
    ensures var (resp, users') := PatchLanguage(users, session, body);
            && GetLanguage(users', session) == resp
            && (users'[session.value].summaryLanguage.None? || users'[session.value].summaryLanguage.value in Languages)
  {
  }
}
