/** First-start initialisation: the default system configuration rows and
    the default administrator account. The store is a pair of maps; the
    outcome of each `create` call is an input, so that a duplicate-key
    collision with a concurrent initialiser (Prisma error P2002) and any
    other store error can be told apart. */
module Initialize {
  import opened Wrappers
  import Store
  import ChatApi

  datatype ConfigItem = ConfigItem(key: string, value: string, description: string)

  /** The process environment. */
  type Env = map<string, string>

  /** `process.env[name] || fallback`. */
  function EnvOr(env: Env, name: string, fallback: string): string {
    if name in env && env[name] != "" then env[name] else fallback
  }

  const MaxItemsKey: string := "max_items_per_feed"

  /** `DEFAULT_SYSTEM_CONFIGS`. */
  function Defaults(env: Env): (r: seq<ConfigItem>)
    ensures |r| == 4
    ensures r[0].key == ChatApi.BaseUrlKey && r[1].key == ChatApi.ApiKeyKey && r[2].key == ChatApi.ModelKey
    ensures r[3].key == MaxItemsKey && r[3].value != ""
  {
    [ ConfigItem(ChatApi.BaseUrlKey, EnvOr(env, "OPENAI_BASE_URL", ""), "OpenAI API 基础 URL"),
      ConfigItem(ChatApi.ApiKeyKey, EnvOr(env, "OPENAI_API_KEY", ""), "OpenAI API 密钥"),
      ConfigItem(ChatApi.ModelKey, EnvOr(env, "OPENAI_MODEL", ""), "OpenAI 模型名称"),
      ConfigItem(MaxItemsKey, EnvOr(env, "MAX_ITEMS_PER_FEED", "100"), "每个订阅源保留的最大文章数量") ]
  }

  /** What a `create` call does: store the row, collide with a row a
      concurrent initialiser stored first (P2002), or fail otherwise. */
  datatype CreateOutcome = Stored | Duplicate | Error(code: string)

  datatype InitError =
    | ConfigFailed(key: string, code: string)
    | MissingPassword
    | AdminFailed(code: string)

  /** The state reached and, when something was thrown, what. */
  datatype Run<T> = Run(state: T, error: Option<InitError>)

  type Configs = map<string, ConfigItem>

  /** The body of the loop of `initializeSystemConfigs`: an existing row is
      left alone; a missing one is created. A duplicate-key collision means
      a concurrent initialiser stored the same default row first, and
      counts as success; any other error is rethrown and ends the loop. */
  function InitConfigs(db: Configs, items: seq<ConfigItem>, create: string -> CreateOutcome): (r: Run<Configs>)
    // Rows that existed are never modified, and nothing else is touched.
    ensures forall k :: k in db ==> k in r.state && r.state[k] == db[k]
    ensures forall k :: k in r.state ==> k in db || exists i :: 0 <= i < |items| && items[i].key == k
    // An error is thrown exactly when some missing row fails to be created.
    ensures r.error.Some? <==>
              exists i :: 0 <= i < |items| && items[i].key !in db && create(items[i].key).Error?
    ensures r.error.Some? ==> r.error.value.ConfigFailed?
    // Otherwise every default key exists afterwards.
    ensures r.error.None? ==> forall i :: 0 <= i < |items| ==> items[i].key in r.state
    decreases |items|
  {
    if |items| == 0 then Run(db, None)
    else
      var item := items[0];
      if item.key in db then
        var r := InitConfigs(db, items[1..], create);
        assert forall i :: 1 <= i < |items| ==> items[1..][i - 1] == items[i];
        r
      else
        match create(item.key)
        case Error(code) => Run(db, Some(ConfigFailed(item.key, code)))
        case _ =>
          var r := InitConfigs(db[item.key := item], items[1..], create);
          assert forall i :: 1 <= i < |items| ==> items[1..][i - 1] == items[i];
          r
  }

  /** Once every row exists, a second pass neither writes nor fails,
      whatever the store would answer to a `create`. */
  lemma {:induction false} ConfigsSettled(db: Configs, items: seq<ConfigItem>, create: string -> CreateOutcome)
    requires forall i :: 0 <= i < |items| ==> items[i].key in db
    ensures InitConfigs(db, items, create) == Run(db, None)
    decreases |items|
  {
    if |items| > 0 {
      assert forall i :: 1 <= i < |items| ==> items[1..][i - 1] == items[i];
      ConfigsSettled(db, items[1..], create);
    }
  }

  /* ----- The default administrator ----- */

  const AdminEmail: string := "admin@feedflow.local"

  datatype Account = Account(email: string, passwordHash: string, name: string, role: Store.Role)

  /** Users by e-mail address, which is unique. */
  type Users = map<string, Account>

  /** The account `initializeDefaultAdmin` creates; `hash` stands for
      bcrypt with cost 10. */
  function AdminAccount(password: string, hash: string -> string): Account {
    Account(AdminEmail, hash(password), "Default Admin", Store.SuperAdmin)
  }

  /** `initializeDefaultAdmin`. A missing or empty password throws before
      the users are looked at. */
  function InitAdmin(users: Users, password: Option<string>, hash: string -> string, create: CreateOutcome)
    : (r: Run<Users>)
    ensures password.None? || password.value == "" ==> r == Run(users, Some(MissingPassword))
    // An existing administrator is left alone, whatever the store would do.
    ensures password.Some? && password.value != "" && AdminEmail in users ==> r == Run(users, None)
    // Otherwise exactly one super-administrator is added; a duplicate-key
    // collision counts as success.
    ensures password.Some? && password.value != "" && AdminEmail !in users ==>
              if create.Error? then r == Run(users, Some(AdminFailed(create.code)))
              else r.error.None? && r.state == users[AdminEmail := AdminAccount(password.value, hash)]
    ensures r.error.None? ==> AdminEmail in r.state
  {
    match password
    case None => Run(users, Some(MissingPassword))
    case Some(pw) =>
      if pw == "" then Run(users, Some(MissingPassword))
      else if AdminEmail in users then Run(users, None)
      else
        match create
        case Error(code) => Run(users, Some(AdminFailed(code)))
        case _ => Run(users[AdminEmail := AdminAccount(pw, hash)], None)
  }

  /* ----- `initializeApplication` ----- */

  datatype Db = Db(configs: Configs, users: Users)

  /** What the store answers to each `create` of one run. */
  datatype Answers = Answers(config: string -> CreateOutcome, admin: CreateOutcome)

  /** The configuration first, then the administrator; an error in the
      first step skips the second. */
  function InitApplication(db: Db, env: Env, hash: string -> string, answers: Answers): (r: Run<Db>)
    ensures var c := InitConfigs(db.configs, Defaults(env), answers.config);
            r.state.configs == c.state
            && (c.error.Some? ==> r.error == c.error && r.state.users == db.users)
    ensures r.error.None? ==>
              && (forall i :: 0 <= i < 4 ==> Defaults(env)[i].key in r.state.configs)
              && AdminEmail in r.state.users
  {
    var c := InitConfigs(db.configs, Defaults(env), answers.config);
    if c.error.Some? then Run(Db(c.state, db.users), c.error)
    else
      var a := InitAdmin(db.users, if "DEFAULT_ADMIN_PASSWORD" in env then Some(env["DEFAULT_ADMIN_PASSWORD"]) else None,
                         hash, answers.admin);
      Run(Db(c.state, a.state), a.error)
  }

  /** Running the initialisation again after a successful run changes
      nothing and throws nothing, whatever the store would answer. */
  lemma InitializeTwice(db: Db, env: Env, hash: string -> string, first: Answers, second: Answers)
    requires InitApplication(db, env, hash, first).error.None?
    ensures var once := InitApplication(db, env, hash, first).state;
            InitApplication(once, env, hash, second) == Run(once, None)
  {
    var once := InitApplication(db, env, hash, first).state;
    ConfigsSettled(once.configs, Defaults(env), second.config);
  }
}
