/** `POST /api/summaries/stream` (`src/app/api/summaries/stream/route.ts`):
    the route answers with server-sent events, one `data: <json>\n\n` frame
    per event. It sends `start`, then either an error or the content deltas
    of the streamed chat completion as `token` events, and closes with
    `done`. The upstream body is a sequence of text chunks; the route cuts
    it into lines with a carried buffer, so where the chunks break does not
    matter. */
module StreamRelay {
  import opened Wrappers
  import Json
  import JsonParse
  import Strings
  import Seqs
  import Store
  import ChatApi
  import DigestPrompt
  import DigestGenerator
  import SummaryRoutes

  /* ----- Events and frames ----- */

  datatype Event =
    | Start
    | Token(data: Json.Value)
    | Error(message: Message)
    | Done(itemCount: Option<nat>)

  /** The messages of `error` events. */
  datatype Message =
    | Unauthorized
    | NotConfigured(language: string)
    | NoUnread(language: string)
    | Failure(language: string)
    | BodyMissing
    | StreamFailed

  /** The text an error event carries. */
  function MessageText(m: Message): string {
    match m
    case Unauthorized => "Unauthorized"
    case NotConfigured(language) => DigestGenerator.NotConfiguredMessage(language)
    case NoUnread(language) => DigestGenerator.NoUnreadMessage(language)
    case Failure(language) => DigestGenerator.FailureMessage(language)
    case BodyMissing => "No response body"
    case StreamFailed => "Streaming error occurred"
  }

  /** An event after which the route closes the stream. */
  predicate Terminal(e: Event) {
    e.Error? || e.Done?
  }

  /** What the route sends: at least one event, the last one terminal and
      none before it. */
  predicate WellFormed(es: seq<Event>) {
    && |es| > 0
    && Terminal(es[|es| - 1])
    && forall i :: 0 <= i < |es| - 1 ==> !Terminal(es[i])
  }

  /** The object literal each event is serialised from, members in the
      order the source writes them; `done` without a count has no
      `itemCount` member. */
  function EventValue(e: Event): Json.Value {
    match e
    case Start => Json.Obj([Json.Field("type", Json.Str("start"))])
    case Token(d) => Json.Obj([Json.Field("type", Json.Str("token")), Json.Field("data", d)])
    case Error(m) => Json.Obj([Json.Field("type", Json.Str("error")), Json.Field("data", Json.Str(MessageText(m)))])
    case Done(None) => Json.Obj([Json.Field("type", Json.Str("done"))])
    case Done(Some(n)) => Json.Obj([Json.Field("type", Json.Str("done")), Json.Field("itemCount", Json.Num(n))])
  }

  const DataPrefix: string := "data: "

  const Newline: set<char> := {'\n'}

  /** The `data:` line of an event. */
  function FrameLine(e: Event): string {
    DataPrefix + Json.Stringify(EventValue(e))
  }

  /** One enqueued frame. */
  function Frame(e: Event): string {
    FrameLine(e) + "\n\n"
  }

  /** The response body: the frames of the events in order. */
  function Frames(es: seq<Event>): string {
    if |es| == 0 then "" else Frame(es[0]) + Frames(es[1..])
  }

  /** The lines a reader of the body sees: each event's `data:` line and a
      blank line. */
  function FrameLines(es: seq<Event>): (r: seq<string>)
    ensures |r| == 2 * |es|
  {
    if |es| == 0 then [] else [FrameLine(es[0]), ""] + FrameLines(es[1..])
  }

  /** A frame line never holds a line break. */
  lemma FrameLineFree(e: Event)
    ensures Strings.NoneIn(FrameLine(e), Newline)
  {
    ValueLineFree(EventValue(e));
  }

  lemma ValueLineFree(v: Json.Value)
    ensures Strings.NoneIn(DataPrefix + Json.Stringify(v), Newline)
  {
    Json.StringifyNoControl(v);
    Json.NoControlConcat(DataPrefix, Json.Stringify(v));
    NoControlLineFree(DataPrefix + Json.Stringify(v));
  }

  lemma NoControlLineFree(s: string)
    requires Json.NoControl(s)
    ensures Strings.NoneIn(s, Newline)
  {
  }

  /** Splitting the body at line feeds yields exactly the frame lines, plus
      the empty remainder after the last frame. */
  lemma {:induction false} FramesSplit(es: seq<Event>)
    ensures Strings.Split(Frames(es), Newline) == FrameLines(es) + [""]
  {
    if |es| > 0 {
      FramesSplit(es[1..]);
      var l := FrameLine(es[0]);
      assert Strings.NoneIn(l, Newline) by {
        FrameLineFree(es[0]);
      }
      assert Frames(es) == l + "\n\n" + Frames(es[1..]);
      SplitFrameText(l, Frames(es[1..]));
      Seqs.Assoc([l, ""], FrameLines(es[1..]), [""]);
    }
  }

  /** Splitting a frame line, its blank line and what follows. */
  lemma SplitFrameText(l: string, rest: string)
    requires Strings.NoneIn(l, Newline)
    ensures Strings.Split(l + "\n\n" + rest, Newline) == [l, ""] + Strings.Split(rest, Newline)
  {
    assert l + "\n\n" + rest == l + ['\n'] + (['\n'] + rest);
    Strings.SplitAfterFree(l, '\n', ['\n'] + rest, Newline);
    Strings.SplitAfterFree("", '\n', rest, Newline);
    assert "" + ['\n'] + rest == ['\n'] + rest;
  }

  /* ----- Line buffering ----- */

  /** All chunks joined. */
  function Concat(chunks: seq<string>): string {
    if |chunks| == 0 then "" else Concat(chunks[..|chunks| - 1]) + chunks[|chunks| - 1]
  }

  /** The read loop's line buffering after the given chunks: for each chunk,
      `buffer += chunk`, split at line feeds, hand out every piece but the
      last and keep the last as the new buffer. Yields the lines handed out
      and the buffer. */
  function Buffered(chunks: seq<string>): (r: (seq<string>, string))
  {
    if |chunks| == 0 then ([], "")
    else
      var (lines, buffer) := Buffered(chunks[..|chunks| - 1]);
      var parts := Strings.Split(buffer + chunks[|chunks| - 1], Newline);
      (lines + parts[..|parts| - 1], parts[|parts| - 1])
  }

  /** The buffered lines and the buffer are the line-feed split of all the
      input so far. */
  lemma {:induction false} BufferedSplit(chunks: seq<string>)
    ensures Buffered(chunks).0 + [Buffered(chunks).1] == Strings.Split(Concat(chunks), Newline)
  {
    if |chunks| > 0 {
      var init := chunks[..|chunks| - 1];
      var c := chunks[|chunks| - 1];
      BufferedSplit(init);
      var (lines, buffer) := Buffered(init);
      SplitExtend(Concat(init), lines, buffer, c);
      var parts := Strings.Split(buffer + c, Newline);
      LastSplit(parts);
      assert lines + parts[..|parts| - 1] + [parts[|parts| - 1]] == lines + parts;
    }
  }

  lemma LastSplit<T>(s: seq<T>)
    requires |s| > 0
    ensures s[..|s| - 1] + [s[|s| - 1]] == s
  {
  }

  /** Appending `c` to text split as `lines + [buffer]`: the split of
      `buffer + c` continues the lines. */
  lemma SplitExtend(x: string, lines: seq<string>, buffer: string, c: string)
    requires Strings.Split(x, Newline) == lines + [buffer]
    ensures Strings.Split(x + c, Newline) == lines + Strings.Split(buffer + c, Newline)
  {
    var pc := Strings.Split(c, Newline);
    assert Strings.Split(buffer, Newline) == [buffer] by {
      BufferFree(x, lines, buffer);
      Strings.SplitFree(buffer, Newline);
    }
    Strings.SplitAppend(buffer, c, Newline);
    Strings.SplitAppend(x, c, Newline);
    Strings.GlueLast(lines, buffer, pc);
  }

  /** The last piece of a split holds no separator. */
  lemma BufferFree(x: string, lines: seq<string>, buffer: string)
    requires Strings.Split(x, Newline) == lines + [buffer]
    ensures Strings.NoneIn(buffer, Newline)
  {
    Strings.SplitPiecesFree(x, Newline);
    var k := |lines|;
    assert Strings.Split(x, Newline)[k] == buffer;
  }

  /** Where the chunks break does not matter: the same text yields the same
      lines and buffer. */
  lemma ChunkingIrrelevant(c1: seq<string>, c2: seq<string>)
    requires Concat(c1) == Concat(c2)
    ensures Buffered(c1) == Buffered(c2)
  {
    BufferedSplit(c1);
    BufferedSplit(c2);
    var s := Strings.Split(Concat(c1), Newline);
    assert Buffered(c1).0 == s[..|s| - 1] == Buffered(c2).0;
    assert Buffered(c1).1 == s[|s| - 1] == Buffered(c2).1;
  }

  /** One more chunk extends the buffered lines. */
  lemma BufferedStep(chunks: seq<string>, i: nat)
    requires i < |chunks|
    ensures var parts := Strings.Split(Buffered(chunks[..i]).1 + chunks[i], Newline);
            Buffered(chunks[..i + 1]) == (Buffered(chunks[..i]).0 + parts[..|parts| - 1], parts[|parts| - 1])
  {
    assert chunks[..i + 1][..i] == chunks[..i];
  }

  /** The lines after some of the chunks begin the lines after all of them. */
  lemma {:induction false} BufferedPrefix(chunks: seq<string>, k: nat)
    requires k <= |chunks|
    ensures Buffered(chunks[..k]).0 <= Buffered(chunks).0
  {
    if k == |chunks| {
      assert chunks[..k] == chunks;
    } else {
      var init := chunks[..|chunks| - 1];
      BufferedPrefix(init, k);
      assert init[..k] == chunks[..k];
      var a := Buffered(chunks[..k]).0;
      var b := Buffered(init).0;
      var c := Buffered(chunks).0;
      assert b <= c;
      assert a == b[..|a|];
      assert a == c[..|a|];
    }
  }

  /* ----- Relaying the completion ----- */

  /** What the route does with one upstream line. */
  datatype LineAction = Skip | Emit(data: Json.Value) | Finish

  /** `parsed.choices?.[0]?.delta?.content`. */
  function DeltaContent(parsed: Json.Value): Option<Json.Value> {
    Json.Prop(Json.Prop(Json.Index(Json.Prop(Some(parsed), "choices"), 0), "delta"), "content")
  }

  /** The payload marking the end of the completion. */
  const DoneMarker: string := "[DONE]"

  /** One upstream line: trimmed, only `data: ` lines count; `[DONE]`
      finishes; otherwise the JSON payload's delta content is forwarded when
      it is truthy, and a payload that does not parse is skipped. */
  function HandleLine(line: string): (a: LineAction)
    ensures a.Emit? ==> Json.Truthy(a.data)
    ensures a == Finish <==> Strings.Trim(line) == DataPrefix + DoneMarker
  {
    var trimmed := Strings.Trim(line);
    if !Strings.StartsWith(trimmed, DataPrefix) then Skip
    else
      assert trimmed == DataPrefix + trimmed[|DataPrefix|..];
      HandleData(trimmed[|DataPrefix|..])
  }

  /** The text after `data: `. */
  function HandleData(data: string): (a: LineAction)
    ensures a.Emit? ==> Json.Truthy(a.data)
    ensures a == Finish <==> data == DoneMarker
  {
    if data == DoneMarker then Finish else HandlePayload(JsonParse.Parse(data))
  }

  /** A payload, `None` when `JSON.parse` throws. */
  function HandlePayload(parsed: Option<Json.Value>): (a: LineAction)
    ensures a.Emit? ==> Json.Truthy(a.data)
    ensures a != Finish
  {
    match parsed
    case None => Skip
    case Some(v) =>
      var content := DeltaContent(v);
      if Json.TruthyOpt(content) then Emit(content.value) else Skip
  }

  /** `f` applied to each element. */
  function Map<A, B>(f: A -> B, s: seq<A>): (r: seq<B>)
    ensures |r| == |s|
  {
    if |s| == 0 then [] else Map(f, s[..|s| - 1]) + [f(s[|s| - 1])]
  }

  /** Each element of the image comes from some element of `s`. */
  lemma {:induction false} MapMember<A, B>(f: A -> B, s: seq<A>, y: B)
    requires y in Map(f, s)
    ensures exists k :: 0 <= k < |s| && f(s[k]) == y
  {
    var init := s[..|s| - 1];
    if y in Map(f, init) {
      MapMember(f, init, y);
      var k :| 0 <= k < |init| && f(init[k]) == y;
      assert s[k] == init[k];
    } else {
      assert f(s[|s| - 1]) == y;
    }
  }

  lemma {:induction false} MapAppend<A, B>(f: A -> B, a: seq<A>, b: seq<A>)
    ensures Map(f, a + b) == Map(f, a) + Map(f, b)
    decreases |b|
  {
    if |b| == 0 {
      assert a + b == a;
    } else {
      MapAppend(f, a, b[..|b| - 1]);
      assert (a + b)[..|a + b| - 1] == a + b[..|b| - 1];
    }
  }

  /** Element `k` of the image is the image of element `k`. */
  lemma {:induction false} MapAt<A, B>(f: A -> B, s: seq<A>, k: nat)
    requires k < |s|
    ensures Map(f, s)[k] == f(s[k])
  {
    if k < |s| - 1 {
      MapAt(f, s[..|s| - 1], k);
    }
  }

  /** The relay loop over the lines' actions: the `token` events sent, and
      whether `[DONE]` ended the loop. Actions after `Finish` are ignored. */
  function Relay(actions: seq<LineAction>): (r: (seq<Event>, bool))
    ensures forall i :: 0 <= i < |r.0| ==> r.0[i].Token?
  {
    if |actions| == 0 then ([], false)
    else RelayStep(Relay(actions[..|actions| - 1]), actions[|actions| - 1])
  }

  /** One line's effect on the tokens sent so far and the finished flag. */
  function RelayStep(r: (seq<Event>, bool), a: LineAction): (seq<Event>, bool)
  {
    var (events, finished) := r;
    if finished then r
    else
      match a
      case Skip => (events, false)
      case Emit(d) => (events + [Token(d)], false)
      case Finish => (events, true)
  }

  /** Every token carries the data of an emitted line. */
  lemma {:induction false} RelayTokens(actions: seq<LineAction>, i: nat)
    requires i < |Relay(actions).0|
    ensures Emit(Relay(actions).0[i].data) in actions
  {
    var init := actions[..|actions| - 1];
    if i < |Relay(init).0| {
      RelayTokens(init, i);
    }
  }

  /** The relay finishes exactly when some action is `Finish`. */
  lemma {:induction false} RelayFinishedIff(actions: seq<LineAction>)
    ensures Relay(actions).1 <==> Finish in actions
  {
    if |actions| > 0 {
      var init := actions[..|actions| - 1];
      RelayFinishedIff(init);
      assert actions == init + [actions[|actions| - 1]];
    }
  }

  /** Once finished, later actions change nothing. */
  lemma {:induction false} RelayFinishedStable(p: seq<LineAction>, q: seq<LineAction>)
    requires Relay(p).1
    ensures Relay(p + q) == Relay(p)
    decreases |q|
  {
    if |q| > 0 {
      RelayFinishedStable(p, q[..|q| - 1]);
      var pq := p + q;
      assert pq[..|pq| - 1] == p + q[..|q| - 1];
      var r := Relay(pq[..|pq| - 1]);
      assert r == Relay(p) && r.1;
      assert Relay(pq) == (r.0, true);
    } else {
      assert p + q == p;
    }
  }

  /** One more line adds its action. */
  lemma RelayLineStep(classify: string -> LineAction, before: seq<string>, line: string)
    ensures Relay(Map(classify, before + [line])) == RelayStep(Relay(Map(classify, before)), classify(line))
  {
    MapAppend(classify, before, [line]);
    var acts := Map(classify, before + [line]);
    assert acts[..|acts| - 1] == Map(classify, before);
  }

  lemma RelayFinishedPrefix(classify: string -> LineAction, p: seq<string>, full: seq<string>)
    requires p <= full && Relay(Map(classify, p)).1
    ensures Relay(Map(classify, full)) == Relay(Map(classify, p))
  {
    MapAppend(classify, p, full[|p|..]);
    assert p + full[|p|..] == full;
    RelayFinishedStable(Map(classify, p), Map(classify, full[|p|..]));
  }

  /** `reader.read()` in a loop, with the line buffer, as the route runs it,
      each line handled by `classify`: the `token` events sent and whether
      `[DONE]` ended the loop. */
  method RelayStream(chunks: seq<string>, classify: string -> LineAction) returns (events: seq<Event>, finished: bool)
    ensures (events, finished) == Relay(Map(classify, Buffered(chunks).0))
  {
    var buffer := "";
    ghost var done: seq<string> := [];
    events := [];
    var i := 0;
    while i < |chunks|
      invariant 0 <= i <= |chunks|
      invariant Buffered(chunks[..i]) == (done, buffer)
      invariant Relay(Map(classify, done)) == (events, false)
    {
      var parts := Strings.Split(buffer + chunks[i], Newline);
      var lines := parts[..|parts| - 1];
      BufferedStep(chunks, i);
      ghost var k;
      events, finished, k := RelayChunk(classify, done, lines, events);
      if finished {
        RelayStopsAt(classify, chunks, i, done, lines, k);
        return;
      }
      done := done + lines;
      buffer := parts[|parts| - 1];
      i := i + 1;
    }
    assert chunks[..i] == chunks;
    finished := false;
  }

  /** When `[DONE]` comes after `k` lines of chunk `i`, nothing later counts. */
  lemma RelayStopsAt(classify: string -> LineAction, chunks: seq<string>, i: nat, done: seq<string>,
                     lines: seq<string>, k: nat)
    requires i < |chunks| && k <= |lines|
    requires Buffered(chunks[..i + 1]).0 == done + lines
    requires Relay(Map(classify, done + lines[..k])).1
    ensures Relay(Map(classify, Buffered(chunks).0)) == Relay(Map(classify, done + lines[..k]))
  {
    BufferedPrefix(chunks, i + 1);
    Seqs.PrefixTrans(done + lines[..k], done + lines, Buffered(chunks).0);
    RelayFinishedPrefix(classify, done + lines[..k], Buffered(chunks).0);
  }

  /** The relay after one more line of the chunk. */
  lemma ChunkStep(classify: string -> LineAction, before: seq<string>, lines: seq<string>, j: nat,
                  events: seq<Event>)
    requires j < |lines|
    requires Relay(Map(classify, before + lines[..j])) == (events, false)
    ensures Relay(Map(classify, before + lines[..j + 1])) ==
            match classify(lines[j])
            case Skip => (events, false)
            case Emit(d) => (events + [Token(d)], false)
            case Finish => (events, true)
  {
    RelayLineStep(classify, before + lines[..j], lines[j]);
    assert before + lines[..j + 1] == before + lines[..j] + [lines[j]];
  }

  /** The `for (const line of lines)` loop over one chunk's complete lines;
      on `[DONE]` it stops after the first `k` lines. */
  method RelayChunk(classify: string -> LineAction, ghost before: seq<string>, lines: seq<string>,
                    events: seq<Event>) returns (emitted: seq<Event>, finished: bool, ghost k: nat)
    requires Relay(Map(classify, before)) == (events, false)
    ensures !finished ==> Relay(Map(classify, before + lines)) == (emitted, false)
    ensures finished ==> k <= |lines| && Relay(Map(classify, before + lines[..k])) == (emitted, true)
  {
    emitted := events;
    var j := 0;
    assert before + lines[..0] == before;
    while j < |lines|
      invariant 0 <= j <= |lines|
      invariant Relay(Map(classify, before + lines[..j])) == (emitted, false)
    {
      var a := classify(lines[j]);
      ChunkStep(classify, before, lines, j, emitted);
      if a.Finish? {
        return emitted, true, j + 1;
      } else if a.Emit? {
        emitted := emitted + [Token(a.data)];
      }
      j := j + 1;
    }
    assert lines[..j] == lines;
    finished := false;
    k := 0;
  }

  /** The route's relay over complete upstream lines: only truthy content
      is sent. */
  function RelayLines(lines: seq<string>): (r: (seq<Event>, bool))
    ensures forall i :: 0 <= i < |r.0| ==> r.0[i].Token? && Json.Truthy(r.0[i].data)
  {
    var actions := Map(HandleLine, lines);
    var r := Relay(actions);
    forall i | 0 <= i < |r.0| ensures Json.Truthy(r.0[i].data) {
      RelayTokens(actions, i);
      MapMember(HandleLine, lines, Emit(r.0[i].data));
      var k :| 0 <= k < |lines| && HandleLine(lines[k]) == Emit(r.0[i].data);
    }
    r
  }

  /** The relay over complete lines finishes exactly when one of them is the
      end marker, up to surrounding white space. */
  lemma RelayLinesFinished(lines: seq<string>)
    ensures RelayLines(lines).1 <==> exists k :: 0 <= k < |lines| && Strings.Trim(lines[k]) == DoneLine
  {
    var actions := Map(HandleLine, lines);
    RelayFinishedIff(actions);
    if Finish in actions {
      MapMember(HandleLine, lines, Finish);
    }
    if exists k :: 0 <= k < |lines| && Strings.Trim(lines[k]) == DoneLine {
      var k :| 0 <= k < |lines| && Strings.Trim(lines[k]) == DoneLine;
      MapAt(HandleLine, lines, k);
      assert actions[k] == Finish;
    }
  }

  /* ----- A well-formed completion stream ----- */

  /** One streamed completion chunk carrying the delta `c`. */
  function DeltaChunk(c: Json.Value): Json.Value {
    Json.Obj([Json.Field("choices", Json.Arr([
      Json.Obj([Json.Field("delta", Json.Obj([Json.Field("content", c)]))])]))])
  }

  function UpstreamLine(c: Json.Value): string {
    DataPrefix + Json.Stringify(DeltaChunk(c))
  }

  /** The lines `line(c)` for the deltas `cs`, each followed by a blank line. */
  function DeltaLines(line: Json.Value -> string, cs: seq<Json.Value>): (r: seq<string>)
    ensures |r| == 2 * |cs|
  {
    if |cs| == 0 then [] else DeltaLines(line, cs[..|cs| - 1]) + [line(cs[|cs| - 1]), ""]
  }

  /** The upstream body's lines for the deltas `cs`. */
  function UpstreamLines(cs: seq<Json.Value>): (r: seq<string>)
    ensures |r| == 2 * |cs|
  {
    DeltaLines(UpstreamLine, cs)
  }

  /** The `token` events for the deltas `cs`: one per truthy delta. */
  function DeltaTokens(cs: seq<Json.Value>): seq<Event> {
    if |cs| == 0 then []
    else
      var c := cs[|cs| - 1];
      DeltaTokens(cs[..|cs| - 1]) + (if Json.Truthy(c) then [Token(c)] else [])
  }

  lemma DeltaPath(c: Json.Value)
    ensures DeltaContent(DeltaChunk(c)) == Some(c)
  {
    var inner := Json.Obj([Json.Field("content", c)]);
    var choice := Json.Obj([Json.Field("delta", inner)]);
    var choices := Json.Arr([choice]);
    assert Json.Prop(Some(DeltaChunk(c)), "choices") == Some(choices);
    assert Json.Index(Some(choices), 0) == Some(choice);
    assert Json.Prop(Some(choice), "delta") == Some(inner);
    assert Json.Prop(Some(inner), "content") == Some(c);
  }

  /** A delta line is forwarded exactly when its content is truthy. */
  lemma DeltaLine(c: Json.Value)
    ensures HandleLine(UpstreamLine(c)) == if Json.Truthy(c) then Emit(c) else Skip
  {
    var j := Json.Stringify(DeltaChunk(c));
    DeltaData(c);
    ObjectLineTrimmed(DeltaChunk(c).fields);
    assert UpstreamLine(c)[|DataPrefix|..] == j;
  }

  lemma DeltaData(c: Json.Value)
    ensures HandleData(Json.Stringify(DeltaChunk(c))) == if Json.Truthy(c) then Emit(c) else Skip
  {
    var v := DeltaChunk(c);
    var j := Json.Stringify(v);
    assert j != DoneMarker by {
      ObjectEnds(v.fields);
      assert j[0] != DoneMarker[0];
    }
    assert JsonParse.Parse(j) == Some(v) by {
      JsonParse.ParseStringify(v);
    }
    assert HandleData(j) == HandlePayload(Some(v));
    DeltaPath(c);
  }

  /** A serialised object starts with `{` and ends with `}`. */
  lemma ObjectEnds(fields: seq<Json.Field>)
    ensures var j := Json.Stringify(Json.Obj(fields));
            |j| >= 2 && j[0] == '{' && j[|j| - 1] == '}'
  {
  }

  /** The `data:` line of an object is already trimmed. */
  lemma ObjectLineTrimmed(fields: seq<Json.Field>)
    ensures Strings.Trim(DataPrefix + Json.Stringify(Json.Obj(fields))) == DataPrefix + Json.Stringify(Json.Obj(fields))
  {
    var line := DataPrefix + Json.Stringify(Json.Obj(fields));
    ObjectEnds(fields);
    assert line[|line| - 1] == '}';
    Strings.TrimIdentity(line);
  }

  /** The line carrying the end marker. */
  const DoneLine: string := DataPrefix + DoneMarker

  lemma DoneLineFinishes()
    ensures HandleLine(DoneLine) == Finish
  {
    assert Strings.IsTrimmed(DoneLine);
    Strings.TrimIdentity(DoneLine);
  }

  /** Relaying a well-formed completion forwards exactly its truthy deltas,
      in order, and `[DONE]` finishes it. */
  lemma RelayForwardsDeltas(cs: seq<Json.Value>)
    ensures RelayLines(UpstreamLines(cs)) == (DeltaTokens(cs), false)
    ensures RelayLines(UpstreamLines(cs) + [DoneLine]) == (DeltaTokens(cs), true)
  {
    var lines := UpstreamLines(cs);
    assert Relay(Map(HandleLine, lines)) == (DeltaTokens(cs), false)
        && Relay(Map(HandleLine, lines + [DoneLine])) == (DeltaTokens(cs), true) by {
      DeltaLinesHandled();
      BlankLineSkipped();
      DoneLineFinishes();
      ForwardsDeltas(HandleLine, UpstreamLine, cs);
    }
  }

  lemma DeltaLinesHandled()
    ensures forall c :: HandleLine(UpstreamLine(c)) == if Json.Truthy(c) then Emit(c) else Skip
  {
    forall c | true ensures HandleLine(UpstreamLine(c)) == if Json.Truthy(c) then Emit(c) else Skip {
      DeltaLine(c);
    }
  }

  lemma BlankLineSkipped()
    ensures HandleLine("") == Skip
  {
  }

  /** The same for any line handler that treats delta lines, blank lines and
      the end marker as the route does. */
  lemma {:induction false} ForwardsDeltas(classify: string -> LineAction, line: Json.Value -> string,
                                          cs: seq<Json.Value>)
    requires forall c :: classify(line(c)) == if Json.Truthy(c) then Emit(c) else Skip
    requires classify("") == Skip && classify(DoneLine) == Finish
    ensures Relay(Map(classify, DeltaLines(line, cs))) == (DeltaTokens(cs), false)
    ensures Relay(Map(classify, DeltaLines(line, cs) + [DoneLine])) == (DeltaTokens(cs), true)
  {
    if |cs| > 0 {
      ForwardsDeltas(classify, line, cs[..|cs| - 1]);
      assert classify(line(cs[|cs| - 1])) == if Json.Truthy(cs[|cs| - 1]) then Emit(cs[|cs| - 1]) else Skip;
      DeltaStep(classify, line, cs);
    } else {
      assert DeltaLines(line, cs) == [];
      assert Map(classify, []) == [];
    }
    RelayLineStep(classify, DeltaLines(line, cs), DoneLine);
  }

  lemma DeltaStep(classify: string -> LineAction, line: Json.Value -> string, cs: seq<Json.Value>)
    requires |cs| > 0
    requires classify(line(cs[|cs| - 1])) == if Json.Truthy(cs[|cs| - 1]) then Emit(cs[|cs| - 1]) else Skip
    requires classify("") == Skip
    requires Relay(Map(classify, DeltaLines(line, cs[..|cs| - 1]))) == (DeltaTokens(cs[..|cs| - 1]), false)
    ensures Relay(Map(classify, DeltaLines(line, cs))) == (DeltaTokens(cs), false)
  {
    var init := cs[..|cs| - 1];
    var c := cs[|cs| - 1];
    var p := DeltaLines(line, init);
    var a := if Json.Truthy(c) then Emit(c) else Skip;
    assert DeltaLines(line, cs) == p + [line(c), ""];
    calc {
      Relay(Map(classify, DeltaLines(line, cs)));
      { RelayPair(classify, p, line(c)); }
      RelayStep(Relay(Map(classify, p)), a);
      RelayStep((DeltaTokens(init), false), a);
      { TokenStep(DeltaTokens(init), c); }
      (DeltaTokens(init) + (if Json.Truthy(c) then [Token(c)] else []), false);
      (DeltaTokens(cs), false);
    }
  }

  /** A delta's action appends its token when it is truthy. */
  lemma TokenStep(tokens: seq<Event>, c: Json.Value)
    ensures RelayStep((tokens, false), if Json.Truthy(c) then Emit(c) else Skip)
            == (tokens + (if Json.Truthy(c) then [Token(c)] else []), false)
  {
    if !Json.Truthy(c) {
      assert tokens + [] == tokens;
    }
  }

  /** A line followed by a blank line acts as the line alone. */
  lemma RelayPair(classify: string -> LineAction, p: seq<string>, l: string)
    requires classify("") == Skip
    ensures Relay(Map(classify, p + [l, ""])) == RelayStep(Relay(Map(classify, p)), classify(l))
  {
    RelayLineStep(classify, p, l);
    RelayLineStep(classify, p + [l], "");
    Seqs.AppendPair(p, l, "");
  }

  /* ----- The route ----- */


  /** The upstream chat service's answer. */
  datatype Upstream =
    | Rejected                                    // a non-2xx status
    | NoBody                                      // no readable body
    | Streamed(chunks: seq<string>, broken: bool) // the body's chunks; `broken` when a read throws after them

  /** The events sent, and the articles the prompt lists (the prompt's
      listing is `DigestPrompt.GroupedText` of them) when a completion was
      requested. */
  datatype Run = Run(events: seq<Event>, prompted: Option<seq<DigestPrompt.Article>>)

  /** Some complete line of the body is the end marker, up to surrounding
      white space. */
  predicate EndMarked(chunks: seq<string>) {
    exists k :: 0 <= k < |Buffered(chunks).0| && Strings.Trim(Buffered(chunks).0[k]) == DoneLine
  }

  /** The events after `start` once the upstream body has been read, as the
      route is written: the tokens, then a `done` without item count on
      `[DONE]`, the streaming error when a read throws before it, and a
      `done` with the number of articles when the body simply ends. */
  function BodyEventsAsWritten(chunks: seq<string>, broken: bool, itemCount: nat): (es: seq<Event>)
    ensures WellFormed(es)
    ensures forall i :: 0 <= i < |es| - 1 ==> es[i].Token? && Json.Truthy(es[i].data)
    ensures es[|es| - 1] == Done(None) <==> EndMarked(chunks)
    ensures es[|es| - 1] == Error(StreamFailed) <==> !EndMarked(chunks) && broken
    ensures es[|es| - 1] == Done(Some(itemCount)) <==> !EndMarked(chunks) && !broken
  {
    var (tokens, finished) := RelayLines(Buffered(chunks).0);
    RelayLinesFinished(Buffered(chunks).0);
    tokens + [if finished then Done(None) else if broken then Error(StreamFailed) else Done(Some(itemCount))]
  }

  /** The same as evidently intended: `done` always carries the number of
      articles. */
  function BodyEvents(chunks: seq<string>, broken: bool, itemCount: nat): (es: seq<Event>)
    ensures WellFormed(es)
    ensures forall i :: 0 <= i < |es| - 1 ==> es[i].Token? && Json.Truthy(es[i].data)
    ensures es[|es| - 1] == Error(StreamFailed) <==> !EndMarked(chunks) && broken
    ensures es[|es| - 1] == Done(Some(itemCount)) <==> EndMarked(chunks) || !broken
  {
    var (tokens, finished) := RelayLines(Buffered(chunks).0);
    RelayLinesFinished(Buffered(chunks).0);
    tokens + [if !finished && broken then Error(StreamFailed) else Done(Some(itemCount))]
  }

  /** Both send the same tokens; they differ only in the count of a `done`
      sent on `[DONE]`. */
  lemma BodyEventsDiffer(chunks: seq<string>, broken: bool, itemCount: nat)
    ensures var (a, b) := (BodyEventsAsWritten(chunks, broken, itemCount), BodyEvents(chunks, broken, itemCount));
            && |a| == |b|
            && a[..|a| - 1] == b[..|b| - 1]
            && (a != b <==> EndMarked(chunks))
  {
  }

  /** A body whose complete lines include `data: [DONE]` ends with a `done`
      that carries no item count. */
  lemma DoneLineEndsBody(chunks: seq<string>, broken: bool, itemCount: nat)
    requires DoneLine in Buffered(chunks).0
    ensures var es := BodyEventsAsWritten(chunks, broken, itemCount);
            es[|es| - 1] == Done(None)
  {
    var lines := Buffered(chunks).0;
    var k :| 0 <= k < |lines| && lines[k] == DoneLine;
    assert Strings.IsTrimmed(DoneLine);
    Strings.TrimIdentity(DoneLine);
  }

  /** The articles of the prompt: the user's unread window. */
  function Fetched(w: SummaryRoutes.World, userId: Store.Id, now: Store.Time): seq<Store.Item> {
    DigestGenerator.FetchWindow(w.feeds, w.items, userId, now)
  }

  /** The route once `start` is sent, as written: the remaining events and
      the articles prompted for. `configured` says whether the completion
      settings were found, `fault` stands for a store or network call that
      throws before the completion answers, and `articles` are the fetched
      window's articles. The grouping runs over a plain object, so a tag
      naming an inherited member throws into the `catch`. */
  function AfterStart(configured: bool, fault: bool, language: string, articles: seq<DigestPrompt.Article>,
                      upstream: Upstream): (r: Run)
    ensures WellFormed(r.events)
    ensures configured && !fault && articles != [] && DigestGenerator.InheritedTag(articles) ==>
              r == Run([Error(StreamFailed)], None)
  {
    DigestGenerator.GroupAsWrittenThrows(articles);
    if !configured then Run([Error(NotConfigured("zh"))], None)
    else if fault then Run([Error(StreamFailed)], None)
    else if |articles| == 0 then Run([Error(NoUnread(language))], None)
    else if DigestGenerator.GroupAsWritten(articles).None? then Run([Error(StreamFailed)], None)
    else Run(Answer(language, |articles|, upstream), Some(articles))
  }

  /** The route once `start` is sent, as evidently intended: every tag
      gets its section and `done` always counts the articles. */
  function AfterStartIntended(configured: bool, fault: bool, language: string, articles: seq<DigestPrompt.Article>,
                              upstream: Upstream): (r: Run)
    ensures WellFormed(r.events)
    ensures r.prompted.Some? <==> configured && !fault && articles != []
    ensures r.events[|r.events| - 1].Done? ==> r.events[|r.events| - 1].itemCount == Some(|articles|)
  {
    if !configured then Run([Error(NotConfigured("zh"))], None)
    else if fault then Run([Error(StreamFailed)], None)
    else if |articles| == 0 then Run([Error(NoUnread(language))], None)
    else Run(AnswerIntended(language, |articles|, upstream), Some(articles))
  }

  /** The two agree on every run whose articles carry no inherited tag and
      whose body carries no end marker. */
  lemma AfterStartAgrees(configured: bool, fault: bool, language: string, articles: seq<DigestPrompt.Article>,
                         upstream: Upstream)
    requires !DigestGenerator.InheritedTag(articles)
    requires upstream.Streamed? ==> !EndMarked(upstream.chunks)
    ensures AfterStart(configured, fault, language, articles, upstream)
            == AfterStartIntended(configured, fault, language, articles, upstream)
  {
    DigestGenerator.GroupAsWrittenThrows(articles);
    if upstream.Streamed? {
      BodyEventsDiffer(upstream.chunks, upstream.broken, |articles|);
    }
  }

  /** A completion is requested, listing the articles, exactly when the
      settings exist, nothing failed, there is an article and the grouping
      does not throw. */
  lemma AfterStartListing(configured: bool, fault: bool, language: string, articles: seq<DigestPrompt.Article>,
                          upstream: Upstream)
    ensures var r := AfterStart(configured, fault, language, articles, upstream);
            && (r.prompted.Some? <==> configured && !fault && articles != [] && !DigestGenerator.InheritedTag(articles))
            && (r.prompted.Some? ==> r.prompted.value == articles)
  {
    DigestGenerator.GroupAsWrittenThrows(articles);
  }

  /** Every event before the last is a token with truthy data. */
  lemma AfterStartTokens(configured: bool, fault: bool, language: string, articles: seq<DigestPrompt.Article>,
                         upstream: Upstream)
    ensures var es := AfterStart(configured, fault, language, articles, upstream).events;
            forall i :: 0 <= i < |es| - 1 ==> es[i].Token? && Json.Truthy(es[i].data)
  {
    var r := AfterStart(configured, fault, language, articles, upstream);
    if r.prompted.Some? {
      var es := Answer(language, |articles|, upstream);
      assert r.events == es;
    }
  }

  /** A closing `done` follows a completion request; it counts the articles
      unless the body carried the end marker, and then it has no count. */
  lemma AfterStartCount(configured: bool, fault: bool, language: string, articles: seq<DigestPrompt.Article>,
                        upstream: Upstream)
    ensures var r := AfterStart(configured, fault, language, articles, upstream);
            var last := r.events[|r.events| - 1];
            last.Done? ==>
              && r.prompted.Some?
              && upstream.Streamed?
              && (last.itemCount.None? <==> EndMarked(upstream.chunks))
              && (last.itemCount.Some? ==> last.itemCount == Some(|articles|))
  {
  }

  /** The events once the completion has been requested for `itemCount`
      articles, as written. */
  function Answer(language: string, itemCount: nat, upstream: Upstream): (es: seq<Event>)
    ensures WellFormed(es)
    ensures forall i :: 0 <= i < |es| - 1 ==> es[i].Token? && Json.Truthy(es[i].data)
    ensures es[|es| - 1].Done? ==>
              && upstream.Streamed?
              && (es[|es| - 1].itemCount.None? <==> EndMarked(upstream.chunks))
              && (es[|es| - 1].itemCount.Some? ==> es[|es| - 1].itemCount == Some(itemCount))
    ensures upstream.Rejected? ==> es == [Error(Failure(language))]
    ensures upstream.NoBody? ==> es == [Error(BodyMissing)]
  {
    match upstream
    case Rejected => [Error(Failure(language))]
    case NoBody => [Error(BodyMissing)]
    case Streamed(chunks, broken) => BodyEventsAsWritten(chunks, broken, itemCount)
  }

  /** The same, as evidently intended. */
  function AnswerIntended(language: string, itemCount: nat, upstream: Upstream): (es: seq<Event>)
    ensures WellFormed(es)
    ensures forall i :: 0 <= i < |es| - 1 ==> es[i].Token? && Json.Truthy(es[i].data)
    ensures es[|es| - 1].Done? ==> upstream.Streamed? && es[|es| - 1].itemCount == Some(itemCount)
    ensures upstream.Rejected? ==> es == [Error(Failure(language))]
    ensures upstream.NoBody? ==> es == [Error(BodyMissing)]
  {
    match upstream
    case Rejected => [Error(Failure(language))]
    case NoBody => [Error(BodyMissing)]
    case Streamed(chunks, broken) => BodyEvents(chunks, broken, itemCount)
  }

  /** `start` followed by a well-formed run is well formed. */
  lemma StartWellFormed(es: seq<Event>)
    requires WellFormed(es)
    ensures WellFormed([Start] + es)
  {
    var s := [Start] + es;
    forall i | 0 <= i < |s| - 1 ensures !Terminal(s[i]) {
      if i > 0 {
        assert s[i] == es[i - 1];
      }
    }
  }

  /** The route: the events sent and the articles the prompt lists. */
  function StreamRoute(w: SummaryRoutes.World, session: Option<Store.Id>, now: Store.Time,
                       fault: bool, upstream: Upstream): (r: Run)
    ensures WellFormed(r.events)
    ensures session.None? <==> r.events == [Error(Unauthorized)]
    ensures session.Some? ==> r.events[0] == Start
  {
    if session.None? then Run([Error(Unauthorized)], None)
    else
      var a := StartedRun(w, session.value, now, fault, upstream);
      StartWellFormed(a.events);
      Run([Start] + a.events, a.prompted)
  }

  /** The articles of the signed-in user's window. */
  function Window(w: SummaryRoutes.World, userId: Store.Id, now: Store.Time): seq<DigestPrompt.Article> {
    DigestGenerator.ToArticles(w.feeds, Fetched(w, userId, now))
  }

  /** What follows `start` for a signed-in user. */
  function StartedRun(w: SummaryRoutes.World, userId: Store.Id, now: Store.Time, fault: bool,
                      upstream: Upstream): Run {
    AfterStart(ChatApi.GetOpenAIConfig(w.configRows, w.configFault).Some?, fault,
               Store.SummaryLanguage(w.users, userId), Window(w, userId, now), upstream)
  }

  /** Without completion settings the route answers with the Chinese
      message whatever the user's language. */
  lemma StreamRouteNotConfigured(w: SummaryRoutes.World, userId: Store.Id, now: Store.Time,
                                 fault: bool, upstream: Upstream)
    requires ChatApi.GetOpenAIConfig(w.configRows, w.configFault).None?
    ensures StreamRoute(w, Some(userId), now, fault, upstream).events
            == [Start, Error(NotConfigured("zh"))]
  {
  }

  /** A completion is requested exactly when the user is signed in, the
      settings exist, nothing failed, there is an unread article and no tag
      of the window names an inherited member; the prompt lists the fetched
      window. */
  lemma StreamRouteListing(w: SummaryRoutes.World, session: Option<Store.Id>, now: Store.Time,
                           fault: bool, upstream: Upstream)
    ensures var r := StreamRoute(w, session, now, fault, upstream);
            && (r.prompted.Some? <==>
                  session.Some? && ChatApi.GetOpenAIConfig(w.configRows, w.configFault).Some? && !fault
                  && SummaryRoutes.UnreadCount(w, session.value, now) > 0
                  && !DigestGenerator.InheritedTag(Window(w, session.value, now)))
            && (r.prompted.Some? ==> r.prompted.value == Window(w, session.value, now))
  {
    if session.Some? {
      var fetched := Fetched(w, session.value, now);
      var articles := Window(w, session.value, now);
      assert |fetched| > 0 <==> SummaryRoutes.UnreadCount(w, session.value, now) > 0;
      assert |articles| == |fetched|;
      AfterStartListing(ChatApi.GetOpenAIConfig(w.configRows, w.configFault).Some?, fault,
                        Store.SummaryLanguage(w.users, session.value), articles, upstream);
    }
  }

  /** A tag of the window naming an inherited member ends the route with
      "Streaming error occurred" before any request. */
  lemma StreamRouteInherited(w: SummaryRoutes.World, userId: Store.Id, now: Store.Time, upstream: Upstream)
    requires ChatApi.GetOpenAIConfig(w.configRows, w.configFault).Some?
    requires DigestGenerator.InheritedTag(Window(w, userId, now))
    ensures StreamRoute(w, Some(userId), now, false, upstream) == Run([Start, Error(StreamFailed)], None)
  {
    assert Window(w, userId, now) != [];
  }

  /** Only tokens with truthy data come between `start` and the last event. */
  lemma StreamRouteTokens(w: SummaryRoutes.World, session: Option<Store.Id>, now: Store.Time,
                          fault: bool, upstream: Upstream)
    ensures var es := StreamRoute(w, session, now, fault, upstream).events;
            forall i :: 1 <= i < |es| - 1 ==> es[i].Token? && Json.Truthy(es[i].data)
  {
    if session.Some? {
      var a := StartedRun(w, session.value, now, fault, upstream);
      AfterStartTokens(ChatApi.GetOpenAIConfig(w.configRows, w.configFault).Some?, fault,
                       Store.SummaryLanguage(w.users, session.value), Window(w, session.value, now), upstream);
      StartTokens(a.events);
    }
  }

  lemma StartTokens(es: seq<Event>)
    requires forall i :: 0 <= i < |es| - 1 ==> es[i].Token? && Json.Truthy(es[i].data)
    ensures var s := [Start] + es;
            forall i :: 1 <= i < |s| - 1 ==> s[i].Token? && Json.Truthy(s[i].data)
  {
    var s := [Start] + es;
    forall i | 1 <= i < |s| - 1 ensures s[i].Token? && Json.Truthy(s[i].data) {
      assert s[i] == es[i - 1];
    }
  }

  /** A closing `done` carries no item count when the body had the end
      marker; otherwise it counts the fetched articles: at least one, at
      most the fetch limit and at most the user's unread items. */
  lemma StreamRouteCount(w: SummaryRoutes.World, session: Option<Store.Id>, now: Store.Time,
                         fault: bool, upstream: Upstream)
    ensures var es := StreamRoute(w, session, now, fault, upstream).events;
            es[|es| - 1].Done? ==>
              && session.Some?
              && upstream.Streamed?
              && (es[|es| - 1].itemCount.None? <==> EndMarked(upstream.chunks))
              && (es[|es| - 1].itemCount.Some? ==>
                    && 0 < es[|es| - 1].itemCount.value <= DigestGenerator.FetchLimit
                    && es[|es| - 1].itemCount.value <= SummaryRoutes.UnreadCount(w, session.value, now))
  {
    if session.Some? {
      var a := StartedRun(w, session.value, now, fault, upstream);
      var es := [Start] + a.events;
      assert es[|es| - 1] == a.events[|a.events| - 1];
      var fetched := Fetched(w, session.value, now);
      var articles := Window(w, session.value, now);
      assert |articles| == |fetched|;
      AfterStartCount(ChatApi.GetOpenAIConfig(w.configRows, w.configFault).Some?, fault,
                      Store.SummaryLanguage(w.users, session.value), articles, upstream);
    }
  }
}
