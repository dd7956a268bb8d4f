/** The structured logger: how one entry is formatted, the context objects
    the helper methods build, and the request summary with sensitive
    headers removed. The clock is an input (the ISO timestamp string) and
    the console is left out: a helper's result is the entry it would
    format and print. */
module Logger {
  import opened Wrappers
  import Strings
  import Json
  import Seqs

  datatype Level = Debug | Info | Warn | Error

  function LevelName(l: Level): string {
    match l
    case Debug => "DEBUG"
    case Info => "INFO"
    case Warn => "WARN"
    case Error => "ERROR"
  }

  /* ----- Context objects ----- */

  /** An object literal's own properties in insertion order; `None` is a
      property whose value is `undefined`. */
  type Context = seq<(string, Option<Json.Value>)>

  /** The position of the first property named `key`, or `|ctx|`. */
  function Find(ctx: Context, key: string): (i: nat)
    ensures i <= |ctx|
    ensures i < |ctx| ==> ctx[i].0 == key
    ensures forall j :: 0 <= j < i ==> ctx[j].0 != key
  {
    if |ctx| == 0 then 0
    else if ctx[0].0 == key then 0
    else 1 + Find(ctx[1..], key)
  }

  /** `obj.key`, with `None` for `undefined`. */
  function Get(ctx: Context, key: string): Option<Json.Value> {
    var i := Find(ctx, key);
    if i < |ctx| then ctx[i].1 else None
  }

  /** `{ ...ctx, [key]: v }`: an existing property keeps its place and takes
      the new value; a new one goes last. */
  function Set(ctx: Context, key: string, v: Option<Json.Value>): (r: Context)
    ensures Get(r, key) == v
    ensures forall k :: k != key ==> Get(r, k) == Get(ctx, k)
    // The order of the existing properties is kept.
    ensures |r| == |ctx| || |r| == |ctx| + 1
    ensures forall j :: 0 <= j < |ctx| ==> r[j].0 == ctx[j].0
  {
    var i := Find(ctx, key);
    var r := if i < |ctx| then ctx[i := (key, v)] else ctx + [(key, v)];
    FindAt(r, key, i);
    forall k | k != key ensures Get(r, k) == Get(ctx, k) {
      SetOther(ctx, key, v, k, r);
    }
    r
  }

  lemma SetOther(ctx: Context, key: string, v: Option<Json.Value>, k: string, r: Context)
    requires k != key
    requires r == if Find(ctx, key) < |ctx| then ctx[Find(ctx, key) := (key, v)] else ctx + [(key, v)]
    ensures Get(r, k) == Get(ctx, k)
  {
    var i := Find(ctx, key);
    var j := Find(ctx, k);
    assert forall m :: 0 <= m < |ctx| ==> r[m].0 == ctx[m].0;
    assert forall m :: 0 <= m < |ctx| && m != i ==> r[m] == ctx[m];
    FindSame(ctx, r, k);
  }

  /** The first property named `key` is at `i`. */
  lemma {:induction false} FindAt(ctx: Context, key: string, i: nat)
    requires i < |ctx| && ctx[i].0 == key
    requires forall j :: 0 <= j < i ==> ctx[j].0 != key
    ensures Find(ctx, key) == i
  {
    if i > 0 {
      FindAt(ctx[1..], key, i - 1);
    }
  }

  /** Two contexts with the same keys up to the end of the shorter one
      find a key absent from the extra tail at the same place. */
  lemma FindSame(ctx: Context, r: Context, k: string)
    requires |ctx| <= |r|
    requires forall m :: 0 <= m < |ctx| ==> r[m].0 == ctx[m].0
    requires forall m :: |ctx| <= m < |r| ==> r[m].0 != k
    ensures Find(r, k) == (if Find(ctx, k) < |ctx| then Find(ctx, k) else |r|)
    decreases |r|
  {
    if |ctx| > 0 && ctx[0].0 != k {
      FindSame(ctx[1..], r[1..], k);
    } else if |ctx| == 0 && |r| > 0 {
      FindSame(ctx, r[1..], k);
    }
  }

  /** `{ ...additional, ... }`: spreading `undefined` adds nothing. */
  function Spread(additional: Option<Context>): Context {
    additional.GetOr([])
  }

  /** `JSON.stringify` of a context: properties whose value is `undefined`
      are omitted. */
  function Defined(ctx: Context): (r: seq<Json.Field>)
    ensures |r| <= |ctx|
    ensures forall f :: f in r <==> exists j :: 0 <= j < |ctx| && ctx[j].1.Some? && f == Json.Field(ctx[j].0, ctx[j].1.value)
  {
    if |ctx| == 0 then []
    else
      (if ctx[0].1.Some? then [Json.Field(ctx[0].0, ctx[0].1.value)] else []) + Defined(ctx[1..])
  }

  /** An empty context serialises no property. */
  lemma DefinedEmpty()
    ensures Defined([]) == []
  {
  }

  /** A property added at the end is serialised at the end exactly when its
      value is defined: the kept properties stay in context order. */
  lemma {:induction false} DefinedSnoc(ctx: Context, k: string, v: Option<Json.Value>)
    ensures Defined(ctx + [(k, v)]) == Defined(ctx) + (if v.Some? then [Json.Field(k, v.value)] else [])
  {
    if |ctx| > 0 {
      assert (ctx + [(k, v)])[1..] == ctx[1..] + [(k, v)];
      DefinedSnoc(ctx[1..], k, v);
    } else {
      assert ctx + [(k, v)] == [(k, v)];
    }
  }

  /* ----- Entries ----- */

  datatype ErrorInfo = ErrorInfo(name: string, message: string, stack: Option<string>, cause: Option<Json.Value>)

  datatype RequestInfo = RequestInfo(
    verb: Option<string>,
    url: Option<string>,
    userId: Option<string>,
    headers: Option<seq<(string, string)>>)

  datatype Entry = Entry(
    level: Level,
    timestamp: string,
    message: string,
    context: Option<Context>,
    error: Option<ErrorInfo>,
    request: Option<RequestInfo>)

  /** A present, non-empty string: JavaScript truthiness. */
  predicate Given(s: Option<string>) {
    s.Some? && s.value != ""
  }

  /** The request parts, in the order method, url, user. */
  function RequestParts(req: RequestInfo): (r: seq<string>)
    ensures |r| == (if Given(req.verb) then 1 else 0) + (if Given(req.url) then 1 else 0)
                   + (if Given(req.userId) then 1 else 0)
    ensures Given(req.verb) ==> r[0] == req.verb.value
    ensures Given(req.url) ==> r[if Given(req.verb) then 1 else 0] == req.url.value
    ensures Given(req.userId) ==> r[|r| - 1] == "user:" + req.userId.value
  {
    (if Given(req.verb) then [req.verb.value] else [])
    + (if Given(req.url) then [req.url.value] else [])
    + (if Given(req.userId) then ["user:" + req.userId.value] else [])
  }

  /** The `" | Request: ..."` segment. */
  function RequestSegment(request: Option<RequestInfo>): (r: string)
    ensures r != "" <==> request.Some? && (Given(request.value.verb) || Given(request.value.url)
                                          || Given(request.value.userId))
    ensures r != "" ==> r == " | Request: " + Strings.Join(RequestParts(request.value), " ")
  {
    if request.None? then ""
    else
      var parts := RequestParts(request.value);
      if |parts| > 0 then " | Request: " + Strings.Join(parts, " ") else ""
  }

  /** The `" | Context: {...}"` segment: present when the context has a
      property, even one whose value is `undefined`. */
  function ContextSegment(context: Option<Context>): (r: string)
    ensures r != "" <==> context.Some? && |context.value| > 0
    ensures r != "" ==> r == " | Context: " + Json.Stringify(Json.Obj(Defined(context.value)))
  {
    if context.Some? && |context.value| > 0 then
      " | Context: " + Json.Stringify(Json.Obj(Defined(context.value)))
    else ""
  }

  /** The lines of the error block: the error itself, then a stack line
      and a cause line only when there is a stack and a cause. */
  function ErrorLines(e: ErrorInfo): (r: seq<string>)
    ensures |r| == 1 + (if Given(e.stack) then 1 else 0) + (if Json.TruthyOpt(e.cause) then 1 else 0)
    ensures r[0] == "  Error: " + e.name + ": " + e.message
    ensures Given(e.stack) ==> r[1] == "  Stack: " + e.stack.value
    ensures Json.TruthyOpt(e.cause) ==> r[|r| - 1] == "  Cause: " + Json.Stringify(e.cause.value)
  {
    ["  Error: " + e.name + ": " + e.message]
    + (if Given(e.stack) then ["  Stack: " + e.stack.value] else [])
    + (if Json.TruthyOpt(e.cause) then ["  Cause: " + Json.Stringify(e.cause.value)] else [])
  }

  /** Every line preceded by a line feed. */
  function Block(lines: seq<string>): string {
    if |lines| == 0 then "" else "\n" + lines[0] + Block(lines[1..])
  }

  function Head(e: Entry): string {
    "[" + e.timestamp + "] [" + LevelName(e.level) + "] " + e.message
  }

  function FirstLine(e: Entry): string {
    Head(e) + RequestSegment(e.request) + ContextSegment(e.context)
  }

  function ErrorBlockLines(e: Entry): (r: seq<string>)
    ensures e.error.None? <==> r == []
  {
    if e.error.Some? then ErrorLines(e.error.value) else []
  }

  /** `formatMessage`. */
  function FormatMessage(e: Entry): (r: string)
    ensures Strings.StartsWith(r, "[" + e.timestamp + "] [" + LevelName(e.level) + "] " + e.message)
  {
    var first := FirstLine(e);
    assert first[..|Head(e)|] == Head(e);
    assert (first + Block(ErrorBlockLines(e)))[..|Head(e)|] == first[..|Head(e)|];
    first + Block(ErrorBlockLines(e))
  }

  predicate OneLine(s: string) {
    Strings.NoneIn(s, {'\n'})
  }

  /** The texts an entry interpolates hold no line feed. */
  predicate EntryOneLine(e: Entry) {
    && OneLine(e.timestamp) && OneLine(e.message)
    && (e.request.Some? ==>
          var q := e.request.value;
          (q.verb.Some? ==> OneLine(q.verb.value)) && (q.url.Some? ==> OneLine(q.url.value))
          && (q.userId.Some? ==> OneLine(q.userId.value)))
    && (e.error.Some? ==>
          var x := e.error.value;
          OneLine(x.name) && OneLine(x.message) && (x.stack.Some? ==> OneLine(x.stack.value)))
  }

  /** When the texts are single lines, the formatted entry's lines are the
      head line with the request and context segments, then the error
      block's lines. */
  lemma FormatLines(e: Entry)
    requires EntryOneLine(e)
    ensures Strings.Split(FormatMessage(e), {'\n'}) == [FirstLine(e)] + ErrorBlockLines(e)
  {
    FirstLineOneLine(e);
    var lines := ErrorBlockLines(e);
    if e.error.Some? {
      ErrorLinesOneLine(e.error.value);
    }
    BlockSplit(FirstLine(e), lines);
  }

  /** Splitting a single line followed by a block of single lines. */
  lemma {:induction false} BlockSplit(first: string, lines: seq<string>)
    requires OneLine(first)
    requires forall i :: 0 <= i < |lines| ==> OneLine(lines[i])
    ensures Strings.Split(first + Block(lines), {'\n'}) == [first] + lines
    decreases |lines|
  {
    if |lines| == 0 {
      assert first + Block(lines) == first;
      Strings.SplitFree(first, {'\n'});
    } else {
      BlockSplit(lines[0], lines[1..]);
      assert first + Block(lines) == first + ['\n'] + (lines[0] + Block(lines[1..]));
      Strings.SplitAfterFree(first, '\n', lines[0] + Block(lines[1..]), {'\n'});
      assert lines == [lines[0]] + lines[1..];
    }
  }

  lemma Concat(a: string, b: string)
    requires OneLine(a) && OneLine(b)
    ensures OneLine(a + b)
  {
    forall i | 0 <= i < |a + b| ensures (a + b)[i] != '\n' {
      if i >= |a| {
        assert (a + b)[i] == b[i - |a|];
      }
    }
  }

  lemma {:induction false} JoinOneLine(parts: seq<string>)
    requires forall i :: 0 <= i < |parts| ==> OneLine(parts[i])
    ensures OneLine(Strings.Join(parts, " "))
  {
    if |parts| > 1 {
      JoinOneLine(parts[1..]);
      Concat(parts[0], " ");
      Concat(parts[0] + " ", Strings.Join(parts[1..], " "));
    }
  }

  lemma StringifyOneLine(v: Json.Value)
    ensures OneLine(Json.Stringify(v))
  {
    Json.StringifyNoControl(v);
  }

  lemma RequestOneLine(request: Option<RequestInfo>)
    requires request.Some? ==>
               var q := request.value;
               (q.verb.Some? ==> OneLine(q.verb.value)) && (q.url.Some? ==> OneLine(q.url.value))
               && (q.userId.Some? ==> OneLine(q.userId.value))
    ensures OneLine(RequestSegment(request))
  {
    if request.Some? {
      var q := request.value;
      var parts := RequestParts(q);
      if q.userId.Some? {
        Concat("user:", q.userId.value);
      }
      assert forall i :: 0 <= i < |parts| ==> OneLine(parts[i]);
      JoinOneLine(parts);
      Concat(" | Request: ", Strings.Join(parts, " "));
    }
  }

  lemma FirstLineOneLine(e: Entry)
    requires EntryOneLine(e)
    ensures OneLine(FirstLine(e))
  {
    Concat("[", e.timestamp);
    Concat("[" + e.timestamp, "] [");
    Concat("[" + e.timestamp + "] [", LevelName(e.level));
    Concat("[" + e.timestamp + "] [" + LevelName(e.level), "] ");
    Concat("[" + e.timestamp + "] [" + LevelName(e.level) + "] ", e.message);
    RequestOneLine(e.request);
    Concat(Head(e), RequestSegment(e.request));
    if e.context.Some? && |e.context.value| > 0 {
      StringifyOneLine(Json.Obj(Defined(e.context.value)));
      Concat(" | Context: ", Json.Stringify(Json.Obj(Defined(e.context.value))));
    }
    Concat(Head(e) + RequestSegment(e.request), ContextSegment(e.context));
  }

  lemma ErrorLinesOneLine(x: ErrorInfo)
    requires OneLine(x.name) && OneLine(x.message) && (x.stack.Some? ==> OneLine(x.stack.value))
    ensures forall i :: 0 <= i < |ErrorLines(x)| ==> OneLine(ErrorLines(x)[i])
  {
    Concat("  Error: ", x.name);
    Concat("  Error: " + x.name, ": ");
    Concat("  Error: " + x.name + ": ", x.message);
    if Given(x.stack) {
      Concat("  Stack: ", x.stack.value);
    }
    if Json.TruthyOpt(x.cause) {
      StringifyOneLine(x.cause.value);
      Concat("  Cause: ", Json.Stringify(x.cause.value));
    }
  }

  /* ----- The helper methods ----- */

  /** `${duration ? ` (${duration}ms)` : ''}`: zero is falsy, so a zero
      duration prints nothing. */
  function DurationSuffix(duration: Option<int>): (r: string)
    ensures r == "" <==> duration.None? || duration.value == 0
    ensures r != "" ==> Strings.StartsWith(r, " (")
  {
    if duration.Some? && duration.value != 0 then
      var r := " (" + Strings.IntToString(duration.value) + "ms)";
      assert r[..2] == " (";
      r
    else ""
  }

  function DurationValue(duration: Option<int>): Option<Json.Value> {
    if duration.Some? then Some(Json.Num(duration.value)) else None
  }

  /** `logApiRequestStart`: the user id is accepted and dropped. */
  function ApiRequestStart(now: string, verb: string, url: string, userId: Option<string>, additional: Option<Context>)
    : (r: Entry)
    ensures r.level == Info && r.request.None? && r.error.None?
    ensures r.message == "API Request Started: " + verb + " " + url
    ensures r.context.Some? && Get(r.context.value, "phase") == Some(Json.Str("request_start"))
    ensures forall k :: k != "phase" ==> Get(r.context.value, k) == Get(Spread(additional), k)
  {
    Entry(Info, now, "API Request Started: " + verb + " " + url,
          Some(Set(Spread(additional), "phase", Some(Json.Str("request_start")))), None, None)
  }

  /** `logApiRequestSuccess`: the user id is dropped here too. */
  function ApiRequestSuccess(now: string, verb: string, url: string, userId: Option<string>, duration: Option<int>,
                             additional: Option<Context>): (r: Entry)
    ensures r.level == Info && r.request.None? && r.error.None?
    ensures r.message == "API Request Success: " + verb + " " + url + DurationSuffix(duration)
    ensures r.context.Some? && Get(r.context.value, "phase") == Some(Json.Str("request_success"))
    ensures Get(r.context.value, "duration") == DurationValue(duration)
  {
    var ctx := Set(Set(Spread(additional), "phase", Some(Json.Str("request_success"))), "duration",
                   DurationValue(duration));
    Entry(Info, now, "API Request Success: " + verb + " " + url + DurationSuffix(duration), Some(ctx), None, None)
  }

  /** `logApiRequestError`: the only helper that attaches the request. */
  function ApiRequestError(now: string, verb: string, url: string, error: ErrorInfo, userId: Option<string>,
                           duration: Option<int>, additional: Option<Context>): (r: Entry)
    ensures r.level == Error && r.error == Some(error)
    ensures r.request == Some(RequestInfo(Some(verb), Some(url), userId, None))
    ensures r.message == "API Request Error: " + verb + " " + url + DurationSuffix(duration)
    ensures r.context.Some? && Get(r.context.value, "phase") == Some(Json.Str("request_error"))
  {
    var ctx := Set(Set(Spread(additional), "phase", Some(Json.Str("request_error"))), "duration",
                   DurationValue(duration));
    Entry(Error, now, "API Request Error: " + verb + " " + url + DurationSuffix(duration), Some(ctx), Some(error),
          Some(RequestInfo(Some(verb), Some(url), userId, None)))
  }

  /** `logDatabaseOperation`: ERROR with phase `database_error` when an
      error is given, DEBUG with `database_operation` otherwise. */
  function DatabaseOperation(now: string, operation: string, model: string, context: Option<Context>,
                             error: Option<ErrorInfo>): (r: Entry)
    ensures r.level == (if error.Some? then Error else Debug)
    ensures r.error == error && r.request.None?
    ensures r.context.Some?
    ensures Get(r.context.value, "phase")
            == Some(Json.Str(if error.Some? then "database_error" else "database_operation"))
    ensures Get(r.context.value, "operation") == Some(Json.Str(operation))
    ensures Get(r.context.value, "model") == Some(Json.Str(model))
  {
    var phase := if error.Some? then "database_error" else "database_operation";
    var ctx := Set(Set(Set(Spread(context), "phase", Some(Json.Str(phase))), "operation", Some(Json.Str(operation))),
                   "model", Some(Json.Str(model)));
    if error.Some? then Entry(Error, now, "Database Error: " + operation + " on " + model, Some(ctx), error, None)
    else Entry(Debug, now, "Database Operation: " + operation + " on " + model, Some(ctx), None, None)
  }

  /** `logExternalApiCall`: ERROR with `external_api_error` when an error is
      given, INFO with `external_api_call` otherwise. */
  function ExternalApiCall(now: string, service: string, endpoint: string, context: Option<Context>,
                           error: Option<ErrorInfo>): (r: Entry)
    ensures r.level == (if error.Some? then Error else Info)
    ensures r.error == error && r.request.None?
    ensures r.context.Some?
    ensures Get(r.context.value, "phase")
            == Some(Json.Str(if error.Some? then "external_api_error" else "external_api_call"))
  {
    var phase := if error.Some? then "external_api_error" else "external_api_call";
    var ctx := Set(Set(Set(Spread(context), "phase", Some(Json.Str(phase))), "service", Some(Json.Str(service))),
                   "endpoint", Some(Json.Str(endpoint)));
    if error.Some? then Entry(Error, now, "External API Error: " + service + " - " + endpoint, Some(ctx), error, None)
    else Entry(Info, now, "External API Call: " + service + " - " + endpoint, Some(ctx), None, None)
  }

  /* ----- Request summaries ----- */

  const SensitiveHeaders: set<string> := {"authorization", "cookie", "set-cookie"}

  predicate Sensitive(h: (string, string)) {
    Strings.ToLower(h.0) in SensitiveHeaders
  }

  /** `extractRequestInfo`: the request line, the user, and the headers
      without the credential-bearing ones. */
  function ExtractRequestInfo(verb: string, url: string, headers: seq<(string, string)>, userId: Option<string>)
    : (r: RequestInfo)
    ensures r.verb == Some(verb) && r.url == Some(url) && r.userId == userId && r.headers.Some?
    // Exactly the sensitive headers are dropped, whatever their case.
    ensures forall h :: h in r.headers.value <==> h in headers && !Sensitive(h)
    ensures multiset(r.headers.value) <= multiset(headers)
  {
    RequestInfo(Some(verb), Some(url), userId, Some(Seqs.Filter(headers, (h: (string, string)) => !Sensitive(h))))
  }

  /** The kept headers are in their original order: removing the
      sensitive ones from the concatenation of two header lists removes
      them from each. */
  lemma ExtractKeepsOrder(verb: string, url: string, a: seq<(string, string)>, b: seq<(string, string)>,
                          userId: Option<string>)
    ensures ExtractRequestInfo(verb, url, a + b, userId).headers.value
            == ExtractRequestInfo(verb, url, a, userId).headers.value
               + ExtractRequestInfo(verb, url, b, userId).headers.value
  {
    Seqs.FilterAppend(a, b, (h: (string, string)) => !Sensitive(h));
  }

  /* ----- The route wrapper ----- */

  datatype Options = Options(logRequest: Option<bool>, logSuccess: Option<bool>, logError: Option<bool>)

  /** What the wrapped handler did: answered with a status, or threw. */
  datatype Outcome = Responded(status: int) | Threw(error: ErrorInfo)

  /** `options?.flag !== false`: a missing option object or flag leaves
      the line on. */
  function On(flag: Option<bool>): bool {
    flag != Some(false)
  }

  /** The entry logged once the handler has finished, if any. */
  function Finish(now: string, verb: string, url: string, o: Options, outcome: Outcome, duration: int)
    : (r: seq<Entry>)
    ensures |r| <= 1
    ensures forall e :: e in r ==> e.request.None? || e.level == Error
    ensures outcome.Responded? ==> forall e :: e in r ==> e.level == Info
    ensures o == Options(None, None, None) ==> |r| == 1
  {
    match outcome
    case Responded(status) =>
      if On(o.logSuccess) then
        [ApiRequestSuccess(now, verb, url, None, Some(duration), Some([("statusCode", Some(Json.Num(status)))]))]
      else []
    case Threw(error) =>
      if On(o.logError) then [ApiRequestError(now, verb, url, error, None, Some(duration), None)] else []
  }

  /** `withApiLogging`: the entries one wrapped request logs. Only an
      option set to `false` switches a log line off. */
  function ApiLogging(now: string, verb: string, url: string, options: Option<Options>, outcome: Outcome,
                      duration: int): (r: seq<Entry>)
    ensures |r| <= 2
    // Only an error entry carries the request, and a response logs at INFO.
    ensures forall e :: e in r ==> e.request.None? || e.level == Error
    ensures outcome.Responded? ==> forall e :: e in r ==> e.level == Info
    ensures options.None? ==> |r| == 2 && r[0] == ApiRequestStart(now, verb, url, None, None)
  {
    var o := options.GetOr(Options(None, None, None));
    var start := if On(o.logRequest) then [ApiRequestStart(now, verb, url, None, None)] else [];
    start + Finish(now, verb, url, o, outcome, duration)
  }
}
