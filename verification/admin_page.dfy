/** The administration page: who may see it and its user section, the four
    system settings it shows (stored values over built-in defaults), the
    edits held back until saved, and the save, which writes the edits one
    at a time and stops at the first refusal. */
module AdminPage {
  import opened Wrappers
  import Store
  import ChatApi
  import Initialize
  import ClientFeeds
  import FeedActions

  /* ----- Access ----- */

  /** The session as the page sees it: still loading, signed out, or
      signed in with a role name (possibly missing) and a user id. */
  datatype Session = Loading | SignedOut | SignedIn(role: Option<string>, userId: string)

  datatype Landing = Wait | ToSignIn | ToHome | Stay

  /** The role names the store writes. */
  function RoleName(r: Store.Role): string {
    match r
    case Member => "USER"
    case Admin => "ADMIN"
    case SuperAdmin => "SUPER_ADMIN"
  }

  /** Where the page sends its visitor: signed-out users to the sign-in
      page, signed-in users whose role is neither "ADMIN" nor
      "SUPER_ADMIN" to the home page. */
  function Gate(s: Session): (r: Landing)
    ensures r == Stay <==> s.SignedIn? && (s.role == Some("ADMIN") || s.role == Some("SUPER_ADMIN"))
    ensures r == ToSignIn <==> s.SignedOut?
    ensures r == Wait <==> s.Loading?
  {
    match s
    case Loading => Wait
    case SignedOut => ToSignIn
    case SignedIn(role, _) =>
      var name := if role.Some? then role.value else "";
      if name == "ADMIN" || name == "SUPER_ADMIN" then Stay else ToHome
  }

  /** The user-management section is shown to super administrators only. */
  predicate ShowsUsers(s: Session) {
    s.SignedIn? && s.role == Some("SUPER_ADMIN")
  }

  /** The role selector of a listed user, hidden on the visitor's own row. */
  predicate ShowsRoleSelector(s: Session, listedUserId: string) {
    s.SignedIn? && listedUserId != s.userId
  }

  /** Only administrators stay, the user section is a part of what they
      see, and nobody can change their own role here. */
  lemma AccessByRole(r: Store.Role, userId: string)
    ensures Gate(SignedIn(Some(RoleName(r)), userId)) == Stay <==> r != Store.Member
    ensures ShowsUsers(SignedIn(Some(RoleName(r)), userId)) <==> r == Store.SuperAdmin
    ensures !ShowsRoleSelector(SignedIn(Some(RoleName(r)), userId), userId)
  {
  }

  lemma UsersOnlyForAdmins(s: Session)
    ensures ShowsUsers(s) ==> Gate(s) == Stay
  {
  }

  /* ----- The settings shown ----- */

  /** A system setting as listed by the configuration endpoint. */
  datatype Setting = Setting(id: string, key: string, value: string, description: Option<string>)

  const RegistrationKey: string := "REGISTRATION_ENABLED"

  /** The four settings the page always shows, in this order, with their
      built-in values. */
  function Defaults(env: Initialize.Env): (r: seq<Setting>)
    ensures |r| == 4
    ensures r[0].key == RegistrationKey && r[1].key == ChatApi.BaseUrlKey
    ensures r[2].key == ChatApi.ApiKeyKey && r[3].key == ChatApi.ModelKey
    ensures forall i :: 0 <= i < 4 ==> r[i].id == r[i].key && r[i].description.Some? && Known(r[i].key)
    ensures r[0].value == "true" && r[2].value == ""
    ensures r[1].value == Initialize.EnvOr(env, "OPENAI_BASE_URL", "https://api.openai.com/v1")
    ensures r[3].value == Initialize.EnvOr(env, "OPENAI_MODEL", "gpt-4o-mini")
  {
    [ Setting(RegistrationKey, RegistrationKey, "true", Some("是否允许新用户注册")),
      Setting(ChatApi.BaseUrlKey, ChatApi.BaseUrlKey,
              Initialize.EnvOr(env, "OPENAI_BASE_URL", "https://api.openai.com/v1"), Some("OpenAI API 基础 URL")),
      Setting(ChatApi.ApiKeyKey, ChatApi.ApiKeyKey, "", Some("OpenAI API 密钥")),
      Setting(ChatApi.ModelKey, ChatApi.ModelKey,
              Initialize.EnvOr(env, "OPENAI_MODEL", "gpt-4o-mini"), Some("用于 RSS 分类的大模型名称")) ]
  }

  /** `find`: the first stored setting with the key. */
  function Find(stored: seq<Setting>, key: string): (r: Option<Setting>)
    ensures r.None? <==> forall j :: 0 <= j < |stored| ==> stored[j].key != key
  {
    if |stored| == 0 then None
    else if stored[0].key == key then Some(stored[0])
    else Find(stored[1..], key)
  }

  /** What `find` returns is the first stored setting with the key. */
  lemma {:induction false} FindFirst(stored: seq<Setting>, key: string)
    requires Find(stored, key).Some?
    ensures exists j :: (0 <= j < |stored| && stored[j] == Find(stored, key).value && stored[j].key == key
                         && forall k :: 0 <= k < j ==> stored[k].key != key)
    decreases |stored|
  {
    if stored[0].key != key {
      FindFirst(stored[1..], key);
      var j :| (0 <= j < |stored[1..]| && stored[1..][j] == Find(stored, key).value && stored[1..][j].key == key
                && forall k :: 0 <= k < j ==> stored[1..][k].key != key);
      assert stored[j + 1] == stored[1..][j];
      assert forall k :: 1 <= k < j + 1 ==> stored[k] == stored[1..][k - 1];
    } else {
      assert stored[0] == Find(stored, key).value;
    }
  }

  /** `a || b` on text. */
  function Or(a: string, b: string): string {
    if a != "" then a else b
  }

  function OrDescription(a: Option<string>, b: Option<string>): Option<string> {
    if a.Some? && a.value != "" then a else b
  }

  /** One default with the stored setting of its key laid over it: each of
      id, value and description is taken from the store when it is set
      and not empty. */
  function Overlay(d: Setting, found: Option<Setting>): (r: Setting)
    ensures r.key == d.key
    ensures r.value == if found.Some? && found.value.value != "" then found.value.value else d.value
    ensures r.id == if found.Some? && found.value.id != "" then found.value.id else d.id
    ensures r.description == if found.Some? && found.value.description.Some? && found.value.description.value != ""
                             then found.value.description else d.description
  {
    match found
    case None => d
    case Some(c) => d.(id := Or(c.id, d.id), value := Or(c.value, d.value),
                       description := OrDescription(c.description, d.description))
  }

  /** The list the page shows: the four defaults, in their order, each
      overlaid with the stored setting of its key. */
  function Merge(stored: seq<Setting>, env: Initialize.Env): (r: seq<Setting>)
    ensures |r| == 4
    ensures forall i :: 0 <= i < 4 ==> r[i] == Overlay(Defaults(env)[i], Find(stored, Defaults(env)[i].key))
  {
    var d := Defaults(env);
    seq(4, i requires 0 <= i < 4 => Overlay(d[i], Find(stored, d[i].key)))
  }

  predicate Known(key: string) {
    key == RegistrationKey || key == ChatApi.BaseUrlKey || key == ChatApi.ApiKeyKey || key == ChatApi.ModelKey
  }

  /** The keys of the list are the four default keys, whatever is stored. */
  lemma MergeKeys(stored: seq<Setting>, env: Initialize.Env)
    ensures forall i :: 0 <= i < 4 ==> Merge(stored, env)[i].key == Defaults(env)[i].key
    ensures forall c :: c in Merge(stored, env) ==> Known(c.key)
  {
  }

  /** A stored setting under any other key is not shown and changes
      nothing, wherever it is stored. */
  lemma MergeIgnoresUnknown(before: seq<Setting>, extra: Setting, after: seq<Setting>, env: Initialize.Env)
    requires !Known(extra.key)
    ensures Merge(before + [extra] + after, env) == Merge(before + after, env)
  {
    var d := Defaults(env);
    var m1, m2 := Merge(before + [extra] + after, env), Merge(before + after, env);
    forall i | 0 <= i < 4 ensures m1[i] == m2[i] {
      FindSkips(before, extra, after, d[i].key);
    }
  }

  lemma {:induction false} FindSkips(before: seq<Setting>, extra: Setting, after: seq<Setting>, key: string)
    requires extra.key != key
    ensures Find(before + [extra] + after, key) == Find(before + after, key)
    decreases |before|
  {
    if |before| == 0 {
      assert before + [extra] + after == [extra] + after;
      assert ([extra] + after)[1..] == after;
      assert before + after == after;
    } else {
      FindSkips(before[1..], extra, after, key);
      assert (before + [extra] + after)[1..] == before[1..] + [extra] + after;
      assert (before + after)[1..] == before[1..] + after;
    }
  }

  /** With nothing stored the page shows the defaults. */
  lemma MergeNothing(env: Initialize.Env)
    ensures Merge([], env) == Defaults(env)
  {
  }

  /* ----- Edits held back ----- */

  /** `pendingChanges`: key and value pairs, each key once, in the order
      the keys were first changed (the order `Object.keys` gives). */
  type Pending = seq<(string, string)>

  function Lookup(p: Pending, key: string): (r: Option<string>)
    ensures r.None? <==> forall j :: 0 <= j < |p| ==> p[j].0 != key
  {
    if |p| == 0 then None
    else if p[0].0 == key then Some(p[0].1)
    else Lookup(p[1..], key)
  }

  /** The pending keys in order. */
  function Keys(p: Pending): seq<string> {
    if |p| == 0 then [] else [p[0].0] + Keys(p[1..])
  }

  /** `handleConfigChange`: `{ ...prev, [key]: value }`. */
  function Change(p: Pending, key: string, value: string): (r: Pending)
    ensures Lookup(r, key) == Some(value)
    ensures forall k :: k != key ==> Lookup(r, k) == Lookup(p, k)
  {
    if |p| == 0 then [(key, value)]
    else if p[0].0 == key then [(key, value)] + p[1..]
    else [p[0]] + Change(p[1..], key, value)
  }

  /** A key already pending keeps its place; a new one goes last. */
  lemma {:induction false} ChangeOrder(p: Pending, key: string, value: string)
    ensures Keys(Change(p, key, value)) == if key in Keys(p) then Keys(p) else Keys(p) + [key]
    decreases |p|
  {
    if |p| > 0 && p[0].0 != key {
      var tail := Change(p[1..], key, value);
      ChangeOrder(p[1..], key, value);
      assert ([p[0]] + tail)[1..] == tail;
      assert key in Keys(p) <==> key in Keys(p[1..]);
      assert [p[0].0] + (Keys(p[1..]) + [key]) == ([p[0].0] + Keys(p[1..])) + [key];
    }
  }

  /** A key is pending exactly when it has a pending value. */
  lemma {:induction false} KeysLookup(p: Pending, key: string)
    ensures key in Keys(p) <==> Lookup(p, key).Some?
    decreases |p|
  {
    if |p| > 0 {
      KeysLookup(p[1..], key);
    }
  }

  /** What a toggle shows as chosen: `pendingChanges[key] ?? value`. An
      empty pending value is shown as it is. */
  function Shown(p: Pending, c: Setting): string {
    match Lookup(p, c.key)
    case Some(v) => v
    case None => c.value
  }

  /** A change shows at once on its own setting and on no other. */
  lemma ChangeShown(p: Pending, key: string, value: string, c: Setting)
    ensures Shown(Change(p, key, value), c) == if c.key == key then value else Shown(p, c)
  {
  }

  /* ----- Saving ----- */

  /** `updateConfig`: each pending value is written in key order, and the
      first refusal stops the run. Returns the writes made, the message
      shown, and whether the pending edits were dropped. `answer` is how
      the endpoint answers the write of each key. */
  method Save(p: Pending, answer: string -> FeedActions.Reply) returns (sent: seq<(string, string)>, error: string, cleared: bool)
    ensures |sent| <= |p| && sent == p[..|sent|]
    ensures forall k :: 0 <= k < |sent| - 1 ==> answer(sent[k].0).Ok?
    ensures cleared <==> forall k :: 0 <= k < |p| ==> answer(p[k].0).Ok?
    ensures cleared ==> sent == p && error == ""
    ensures !cleared ==> |sent| > 0 && !answer(sent[|sent| - 1].0).Ok? && error != ""
    ensures !cleared ==> error == match answer(sent[|sent| - 1].0)
                                  case NotOk(e) => ClientFeeds.OrElse(e, "Failed to update " + sent[|sent| - 1].0)
                                  case _ => "Failed to update configs"
  {
    sent := [];
    var i := 0;
    while i < |p|
      invariant 0 <= i <= |p|
      invariant sent == p[..i]
      invariant forall k :: 0 <= k < i ==> answer(p[k].0).Ok?
    {
      var (key, value) := p[i];
      sent := sent + [(key, value)];
      assert sent == p[..i + 1];
      var reply := answer(key);
      if reply.NotOk? {
        return sent, ClientFeeds.OrElse(reply.error, "Failed to update " + key), false;
      } else if reply.Thrown? {
        return sent, "Failed to update configs", false;
      }
      i := i + 1;
    }
    assert sent == p;
    return sent, "", true;
  }

  /** The answer of the configuration endpoint. */
  datatype Listed = Listed(stored: seq<Setting>) | Refused(error: Option<string>) | Unreachable

  /** `fetchConfigs` once answered: the list shown, the pending edits and
      the message. A listing replaces the list and drops every pending
      edit; otherwise both stay and a message is shown. */
  function ConfigsFetched(shown: seq<Setting>, p: Pending, error: string, answer: Listed, env: Initialize.Env)
    : (r: (seq<Setting>, Pending, string))
    ensures answer.Listed? ==> r == (Merge(answer.stored, env), [], error)
    ensures !answer.Listed? ==> r.0 == shown && r.1 == p && r.2 != ""
    ensures answer.Refused? && answer.error.Some? && answer.error.value != "" ==> r.2 == answer.error.value
  {
    match answer
    case Listed(stored) => (Merge(stored, env), [], error)
    case Refused(e) => (shown, p, ClientFeeds.OrElse(e, "Failed to fetch configs"))
    case Unreachable => (shown, p, "Failed to fetch configs")
  }

  /** After a save in which every write was accepted and the list was
      fetched again, every setting shows what the store now holds. */
  lemma SavedShowsStore(shown: seq<Setting>, p: Pending, stored: seq<Setting>, env: Initialize.Env)
    ensures var (list, pending, _) := ConfigsFetched(shown, p, "", Listed(stored), env);
            forall i :: 0 <= i < |list| ==> Shown(pending, list[i]) == list[i].value
  {
  }

  /** `promoteUser` once answered: the message shown and whether the user
      list was fetched again. */
  function Promoted(reply: FeedActions.Reply): (r: (string, bool))
    ensures r.1 <==> reply.Ok?
    ensures r.0 == "" <==> reply.Ok?
    ensures reply.NotOk? && reply.error.Some? && reply.error.value != "" ==> r.0 == reply.error.value
  {
    match reply
    case Ok(_) => ("", true)
    case NotOk(e) => (ClientFeeds.OrElse(e, "用户权限更新失败"), false)
    case Thrown => ("用户权限更新失败：网络错误", false)
  }
}
