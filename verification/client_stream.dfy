/** The digest stream as the home page reads it (`generateSummary` in
    `src/components/HomePage.tsx`): every chunk of the response body is
    split at line feeds by itself, each `data: ` line is parsed, `token`
    data is appended to the content, an `error` event ends the reading and
    `done` posts the content to the save endpoint. */
module ClientStream {
  import opened Wrappers
  import Json
  import JsonParse
  import Strings
  import Seqs
  import StreamRelay
  import SummaryRoutes
  import DigestGenerator

  /* ----- Values as text ----- */

  /** `String(v)`, which `fullContent += v` applies to a parsed value. */
  function JsText(v: Json.Value): string
    decreases v, 1
  {
    match v
    case Null => "null"
    case Bool(b) => if b then "true" else "false"
    case Num(n) => Strings.IntToString(n)
    case Str(s) => s
    case Arr(items) => ItemsText(items)
    case Obj(_) => "[object Object]"
  }

  /** `Array.prototype.join(",")`, where a `null` element prints as
      nothing. */
  function ItemsText(items: seq<Json.Value>): string
    decreases items, 0
  {
    if |items| == 0 then ""
    else
      var first := if items[0].Null? then "" else JsText(items[0]);
      if |items| == 1 then first else first + "," + ItemsText(items[1..])
  }

  /** The text of a member that may be `undefined`. */
  function OptText(v: Option<Json.Value>): string {
    match v
    case None => "undefined"
    case Some(x) => JsText(x)
  }

  /* ----- The reader ----- */

  /** Where reading the stream ends. */
  datatype Outcome =
    | Failed(error: Option<Json.Value>)  // the page shows `parsed.data`
    | Saving(request: Json.Value)        // the body posted to the save endpoint
    | Unfinished(content: string)        // the body ended first; nothing is saved

  /** Reading so far: still going with the content gathered, or over. */
  datatype Step = Next(content: string) | Stop(outcome: Outcome)

  /** `JSON.stringify({ force, content, itemCount })`; an `undefined` count
      is left out. */
  function SaveRequest(force: bool, content: string, itemCount: Option<Json.Value>): Json.Value {
    var fields := [Json.Field("force", Json.Bool(force)), Json.Field("content", Json.Str(content))];
    Json.Obj(if itemCount.Some? then fields + [Json.Field("itemCount", itemCount.value)] else fields)
  }

  /** One line of a chunk. A line that does not start with `data: `, a
      payload that does not parse and an event of another type change
      nothing. */
  function ClientLine(force: bool, content: string, line: string): Step {
    if Strings.StartsWith(line, StreamRelay.DataPrefix) then
      ClientPayload(force, content, JsonParse.Parse(line[|StreamRelay.DataPrefix|..]))
    else Next(content)
  }

  /** A payload, `None` when `JSON.parse` throws. Reading `type` of `null`
      throws as well, and the same `catch` skips it. */
  function ClientPayload(force: bool, content: string, parsed: Option<Json.Value>): Step {
    var kind := Json.Prop(parsed, "type");
    if kind == Some(Json.Str("error")) then Stop(Failed(Json.Prop(parsed, "data")))
    else if kind == Some(Json.Str("token")) then Next(content + OptText(Json.Prop(parsed, "data")))
    else if kind == Some(Json.Str("done")) then
      Stop(Saving(SaveRequest(force, content, Json.Prop(parsed, "itemCount"))))
    else Next(content)
  }

  /** The lines in order, until one ends the reading. */
  function ClientLines(force: bool, content: string, lines: seq<string>): Step
    decreases |lines|
  {
    if |lines| == 0 then Next(content)
    else
      match ClientLine(force, content, lines[0])
      case Stop(o) => Stop(o)
      case Next(c) => ClientLines(force, c, lines[1..])
  }

  function Finish(s: Step): Outcome {
    match s
    case Next(c) => Unfinished(c)
    case Stop(o) => o
  }

  /** The lines the page reads: each chunk split at line feeds by itself. */
  function ChunkLines(chunks: seq<string>): seq<string> {
    if |chunks| == 0 then []
    else ChunkLines(chunks[..|chunks| - 1]) + Strings.Split(chunks[|chunks| - 1], StreamRelay.Newline)
  }

  /** `generateSummary` as written, over the response body's chunks. */
  function ReadAsWritten(chunks: seq<string>, force: bool): Outcome {
    Finish(ClientLines(force, "", ChunkLines(chunks)))
  }

  /** The same reader carrying the unfinished line of a chunk over to the
      next one, as the streaming route does with the upstream body. */
  function ReadBuffered(chunks: seq<string>, force: bool): Outcome {
    Finish(ClientLines(force, "", StreamRelay.Buffered(chunks).0))
  }

  /* ----- What the events mean to the page ----- */

  /** One event: `start` changes nothing, a token appends its data, an
      error shows its message and `done` saves with the event's count. */
  function EventStep(force: bool, content: string, e: StreamRelay.Event): Step {
    match e
    case Start => Next(content)
    case Token(d) => Next(content + JsText(d))
    case Error(m) => Stop(Failed(Some(Json.Str(StreamRelay.MessageText(m)))))
    case Done(n) => Stop(Saving(SaveRequest(force, content, if n.Some? then Some(Json.Num(n.value)) else None)))
  }

  /** The events in order, until one ends the reading. */
  function EventsFrom(force: bool, content: string, es: seq<StreamRelay.Event>): Step
    decreases |es|
  {
    if |es| == 0 then Next(content)
    else
      match EventStep(force, content, es[0])
      case Stop(o) => Stop(o)
      case Next(c) => EventsFrom(force, c, es[1..])
  }

  /** The text the tokens among `es` add to the content. */
  function TokensText(es: seq<StreamRelay.Event>): string {
    if |es| == 0 then ""
    else (if es[0].Token? then JsText(es[0].data) else "") + TokensText(es[1..])
  }

  /** The save endpoint reads back what the page sends: the flag, the
      content, and the count when it is truthy, 0 otherwise. */
  lemma SaveRequestRead(force: bool, content: string, itemCount: Option<Json.Value>)
    ensures var body := SaveRequest(force, content, itemCount);
            && SummaryRoutes.Force(body) == force
            && SummaryRoutes.Member(body, "content") == Some(Json.Str(content))
            && SummaryRoutes.ItemCount(body) == if Json.TruthyOpt(itemCount) then itemCount.value else Json.Num(0)
  {
    RequestMembers(force, content, itemCount);
  }

  /** The members of the request, one per key. */
  lemma RequestMembers(force: bool, content: string, itemCount: Option<Json.Value>)
    ensures var fields := SaveRequest(force, content, itemCount).fields;
            && Json.Lookup(fields, "force") == Some(Json.Bool(force))
            && Json.Lookup(fields, "content") == Some(Json.Str(content))
            && Json.Lookup(fields, "itemCount") == itemCount
  {
    var fields := [Json.Field("force", Json.Bool(force)), Json.Field("content", Json.Str(content))];
    assert "force" != "content" && "force" != "itemCount" && "content" != "itemCount" by {
      assert "force"[0] != "content"[0] && "force"[0] != "itemCount"[0] && "content"[0] != "itemCount"[0];
    }
    assert fields[..1] == [fields[0]];
    if itemCount.Some? {
      var all := fields + [Json.Field("itemCount", itemCount.value)];
      assert SaveRequest(force, content, itemCount).fields == all;
      assert all[..|all| - 1] == fields;
      assert Json.Lookup(all, "content") == Json.Lookup(fields, "content");
      assert Json.Lookup(all, "force") == Json.Lookup(fields, "force");
    } else {
      assert SaveRequest(force, content, itemCount).fields == fields;
    }
  }

  /** A blank line changes nothing. */
  lemma BlankLine(force: bool, content: string)
    ensures ClientLine(force, content, "") == Next(content)
  {
  }

  /** The page reads a frame's `data:` line as the event it carries. */
  lemma FrameLineRead(force: bool, content: string, e: StreamRelay.Event)
    ensures ClientLine(force, content, StreamRelay.FrameLine(e)) == EventStep(force, content, e)
  {
    PayloadLine(force, content, StreamRelay.EventValue(e));
    EventPayload(force, content, e);
  }

  /** A `data:` line carrying a serialised value is read as that value. */
  lemma PayloadLine(force: bool, content: string, v: Json.Value)
    ensures ClientLine(force, content, StreamRelay.DataPrefix + Json.Stringify(v)) == ClientPayload(force, content, Some(v))
  {
    var l := StreamRelay.DataPrefix + Json.Stringify(v);
    assert Strings.StartsWith(l, StreamRelay.DataPrefix) && l[|StreamRelay.DataPrefix|..] == Json.Stringify(v);
    JsonParse.ParseStringify(v);
  }

  /** The event's object means the event. */
  lemma EventPayload(force: bool, content: string, e: StreamRelay.Event)
    ensures ClientPayload(force, content, Some(StreamRelay.EventValue(e))) == EventStep(force, content, e)
  {
    EventMembers(e);
  }

  /** The members of an event's object that the page reads. */
  lemma EventMembers(e: StreamRelay.Event)
    ensures var v := Some(StreamRelay.EventValue(e));
            && Json.Prop(v, "type") == Some(Json.Str(KindName(e)))
            && (e.Token? ==> Json.Prop(v, "data") == Some(e.data))
            && (e.Error? ==> Json.Prop(v, "data") == Some(Json.Str(StreamRelay.MessageText(e.message))))
            && (e.Done? ==> Json.Prop(v, "itemCount") == if e.itemCount.Some? then Some(Json.Num(e.itemCount.value)) else None)
  {
    assert "type"[0] != "data"[0] && "type"[0] != "itemCount"[0];
    match e
    case Start =>
    case Token(d) =>
      var fs := [Json.Field("type", Json.Str("token")), Json.Field("data", d)];
      assert fs[..1] == [fs[0]];
    case Error(m) =>
      var fs := [Json.Field("type", Json.Str("error")), Json.Field("data", Json.Str(StreamRelay.MessageText(m)))];
      assert fs[..1] == [fs[0]];
    case Done(n) =>
      if n.Some? {
        var fs := [Json.Field("type", Json.Str("done")), Json.Field("itemCount", Json.Num(n.value))];
        assert fs[..1] == [fs[0]];
      } else {
        assert "done"[0] != "itemCount"[0];
      }
  }

  /** The `type` member each event is sent with. */
  function KindName(e: StreamRelay.Event): string {
    match e
    case Start => "start"
    case Token(_) => "token"
    case Error(_) => "error"
    case Done(_) => "done"
  }

  /** Reading the frame lines of `es` is reading the events themselves. */
  lemma {:induction false} FrameLinesRead(force: bool, content: string, es: seq<StreamRelay.Event>)
    ensures ClientLines(force, content, StreamRelay.FrameLines(es)) == EventsFrom(force, content, es)
    decreases |es|
  {
    if |es| > 0 {
      FrameStep(force, content, es[0], StreamRelay.FrameLines(es[1..]));
      match EventStep(force, content, es[0])
      case Stop(o) =>
      case Next(c) => FrameLinesRead(force, c, es[1..]);
    }
  }

  /** An event's line and the blank line after it. */
  lemma FrameStep(force: bool, content: string, e: StreamRelay.Event, rest: seq<string>)
    ensures var st := EventStep(force, content, e);
            ClientLines(force, content, [StreamRelay.FrameLine(e), ""] + rest)
            == if st.Stop? then st else ClientLines(force, st.content, rest)
  {
    LinesCons(force, content, StreamRelay.FrameLine(e), [""] + rest);
    FrameLineRead(force, content, e);
    var st := EventStep(force, content, e);
    if st.Next? {
      LinesCons(force, st.content, "", rest);
      BlankLine(force, st.content);
    }
  }

  /** Reading one line, then the rest. */
  lemma LinesCons(force: bool, content: string, l: string, rest: seq<string>)
    ensures var st := ClientLine(force, content, l);
            ClientLines(force, content, [l] + rest)
            == if st.Stop? then st else ClientLines(force, st.content, rest)
  {
    assert ([l] + rest)[0] == l && ([l] + rest)[1..] == rest;
  }

  /** Reading continues into appended lines unless it has stopped. */
  lemma {:induction false} ClientLinesAppend(force: bool, content: string, a: seq<string>, b: seq<string>)
    ensures ClientLines(force, content, a + b)
            == match ClientLines(force, content, a)
               case Stop(o) => Stop(o)
               case Next(c) => ClientLines(force, c, b)
    decreases |a|
  {
    if |a| > 0 {
      assert (a + b)[0] == a[0] && (a + b)[1..] == a[1..] + b;
      match ClientLine(force, content, a[0])
      case Stop(o) =>
      case Next(c) => ClientLinesAppend(force, c, a[1..], b);
    } else {
      assert a + b == b;
    }
  }

  /** The same for events. */
  lemma {:induction false} EventsAppend(force: bool, content: string, a: seq<StreamRelay.Event>, b: seq<StreamRelay.Event>)
    ensures EventsFrom(force, content, a + b)
            == match EventsFrom(force, content, a)
               case Stop(o) => Stop(o)
               case Next(c) => EventsFrom(force, c, b)
    decreases |a|
  {
    if |a| > 0 {
      assert (a + b)[0] == a[0] && (a + b)[1..] == a[1..] + b;
      match EventStep(force, content, a[0])
      case Stop(o) =>
      case Next(c) => EventsAppend(force, c, a[1..], b);
    } else {
      assert a + b == b;
    }
  }

  /** Events before the last one that does not end the reading only add
      their tokens' text; the last one decides the outcome. */
  lemma {:induction false} ClosingEvent(force: bool, content: string, es: seq<StreamRelay.Event>)
    requires |es| > 0 && StreamRelay.Terminal(es[|es| - 1])
    requires forall i :: 0 <= i < |es| - 1 ==> !StreamRelay.Terminal(es[i])
    ensures EventsFrom(force, content, es)
            == EventStep(force, content + TokensText(es[..|es| - 1]), es[|es| - 1])
    ensures EventsFrom(force, content, es).Stop?
    decreases |es|
  {
    var n := |es|;
    if n == 1 {
      assert es[..0] == [];
      assert content + "" == content;
    } else {
      var t := if es[0].Token? then JsText(es[0].data) else "";
      assert !StreamRelay.Terminal(es[0]);
      assert EventStep(force, content, es[0]) == Next(content + t);
      var tail := es[1..];
      assert tail[|tail| - 1] == es[n - 1];
      forall i | 0 <= i < |tail| - 1 ensures !StreamRelay.Terminal(tail[i]) {
        assert tail[i] == es[i + 1];
      }
      ClosingEvent(force, content + t, tail);
      assert es[..n - 1][1..] == tail[..|tail| - 1];
      assert TokensText(es[..n - 1]) == t + TokensText(tail[..|tail| - 1]);
      Seqs.Assoc(content, t, TokensText(tail[..|tail| - 1]));
    }
  }

  /** The page outcome of a well-formed stream: the tokens' text is saved
      with the closing event's count, or the error's message is shown. */
  function Closing(force: bool, es: seq<StreamRelay.Event>): Outcome
    requires StreamRelay.WellFormed(es)
  {
    Finish(EventStep(force, TokensText(es[..|es| - 1]), es[|es| - 1]))
  }

  /** Carrying partial lines, the page reads the events the route sent,
      however the body was cut into chunks. */
  lemma ClientReadsFrames(chunks: seq<string>, es: seq<StreamRelay.Event>, force: bool)
    requires StreamRelay.Concat(chunks) == StreamRelay.Frames(es)
    ensures ReadBuffered(chunks, force) == Finish(EventsFrom(force, "", es))
  {
    BufferedLines(chunks, es);
    FrameLinesRead(force, "", es);
  }

  /** A well-formed stream always ends the reading, at its last event. */
  lemma WellFormedRead(force: bool, es: seq<StreamRelay.Event>)
    requires StreamRelay.WellFormed(es)
    ensures Finish(EventsFrom(force, "", es)) == Closing(force, es)
    ensures !Closing(force, es).Unfinished?
  {
    ClosingEvent(force, "", es);
    assert "" + TokensText(es[..|es| - 1]) == TokensText(es[..|es| - 1]);
  }

  /** The complete lines of the carried split are the frame lines. */
  lemma BufferedLines(chunks: seq<string>, es: seq<StreamRelay.Event>)
    requires StreamRelay.Concat(chunks) == StreamRelay.Frames(es)
    ensures StreamRelay.Buffered(chunks).0 == StreamRelay.FrameLines(es)
  {
    StreamRelay.BufferedSplit(chunks);
    StreamRelay.FramesSplit(es);
    Seqs.SnocInjective(StreamRelay.Buffered(chunks).0, StreamRelay.Buffered(chunks).1, StreamRelay.FrameLines(es), "");
  }

  /** All the groups' events in order. */
  function Flat(groups: seq<seq<StreamRelay.Event>>): seq<StreamRelay.Event> {
    if |groups| == 0 then [] else Flat(groups[..|groups| - 1]) + groups[|groups| - 1]
  }

  /** When every chunk holds whole frames, the page as written reads the
      events the route sent. */
  lemma {:induction false} WholeFramesRead(force: bool, content: string, chunks: seq<string>,
                                           groups: seq<seq<StreamRelay.Event>>)
    requires |chunks| == |groups|
    requires forall i :: 0 <= i < |chunks| ==> chunks[i] == StreamRelay.Frames(groups[i])
    ensures ClientLines(force, content, ChunkLines(chunks)) == EventsFrom(force, content, Flat(groups))
  {
    if |chunks| > 0 {
      var n := |chunks|;
      var init := chunks[..n - 1];
      var g := groups[n - 1];
      assert forall i :: 0 <= i < |init| ==> init[i] == chunks[i];
      WholeFramesRead(force, content, init, groups[..n - 1]);
      StreamRelay.FramesSplit(g);
      ClientLinesAppend(force, content, ChunkLines(init), Strings.Split(chunks[n - 1], StreamRelay.Newline));
      EventsAppend(force, content, Flat(groups[..n - 1]), g);
      match EventsFrom(force, content, Flat(groups[..n - 1]))
      case Stop(o) =>
      case Next(c) =>
        ClientLinesAppend(force, c, StreamRelay.FrameLines(g), [""]);
        FrameLinesRead(force, c, g);
        match EventsFrom(force, c, g)
        case Stop(o) =>
        case Next(c') =>
          BlankLine(force, c');
          assert [""][1..] == [];
    } else {
      assert ChunkLines(chunks) == [] && Flat(groups) == [];
    }
  }

  /** The body of the frames of the groups, in order. */
  lemma {:induction false} WholeFramesConcat(chunks: seq<string>, groups: seq<seq<StreamRelay.Event>>)
    requires |chunks| == |groups|
    requires forall i :: 0 <= i < |chunks| ==> chunks[i] == StreamRelay.Frames(groups[i])
    ensures StreamRelay.Concat(chunks) == StreamRelay.Frames(Flat(groups))
  {
    if |chunks| > 0 {
      var n := |chunks|;
      var init := chunks[..n - 1];
      assert forall i :: 0 <= i < |init| ==> init[i] == chunks[i];
      WholeFramesConcat(init, groups[..n - 1]);
      FramesAppend(Flat(groups[..n - 1]), groups[n - 1]);
    }
  }

  lemma {:induction false} FramesAppend(a: seq<StreamRelay.Event>, b: seq<StreamRelay.Event>)
    ensures StreamRelay.Frames(a + b) == StreamRelay.Frames(a) + StreamRelay.Frames(b)
  {
    if |a| > 0 {
      assert (a + b)[0] == a[0] && (a + b)[1..] == a[1..] + b;
      FramesAppend(a[1..], b);
      Seqs.Assoc(StreamRelay.Frame(a[0]), StreamRelay.Frames(a[1..]), StreamRelay.Frames(b));
    } else {
      assert a + b == b;
    }
  }

  /** Chunks that hold whole frames are read alike with or without a
      carried line. */
  lemma WholeFramesAgree(chunks: seq<string>, groups: seq<seq<StreamRelay.Event>>, force: bool)
    requires |chunks| == |groups|
    requires forall i :: 0 <= i < |chunks| ==> chunks[i] == StreamRelay.Frames(groups[i])
    ensures ReadAsWritten(chunks, force) == ReadBuffered(chunks, force)
    ensures ReadAsWritten(chunks, force) == Finish(EventsFrom(force, "", Flat(groups)))
  {
    WholeFramesRead(force, "", chunks, groups);
    WholeFramesConcat(chunks, groups);
    ClientReadsFrames(chunks, Flat(groups), force);
  }

  /* ----- Findings ----- */

  /** An event's frame cut after its third character. */
  function CutFrame(e: StreamRelay.Event): seq<string> {
    var f := StreamRelay.Frame(e);
    assert f[..|StreamRelay.DataPrefix|] == StreamRelay.DataPrefix;
    [f[..3], f[3..]]
  }

  /** A frame cut across two chunks is lost to the page as written: when
      the closing `done` arrives as "dat" and the rest, nothing is saved,
      whereas carrying the partial line reads the event. */
  lemma CutFrameLost(e: StreamRelay.Event, force: bool)
    ensures CutFrame(e)[0] == "dat"
    ensures ReadAsWritten(CutFrame(e), force) == Unfinished("")
    ensures ReadBuffered(CutFrame(e), force) == Finish(EventStep(force, "", e))
  {
    CutFrameJoins(e);
    ClientReadsFrames(CutFrame(e), [e], force);
    assert EventsFrom(force, "", [e]) == EventStep(force, "", e) by {
      assert [e][1..] == [];
    }
    CutFrameLines(e);
    SkippedLines(force, "dat", FrameTail(e));
  }

  /** Two lines that are not `data:` lines and two blank lines are read
      as nothing. */
  lemma SkippedLines(force: bool, a: string, b: string)
    requires !Strings.StartsWith(a, StreamRelay.DataPrefix) && !Strings.StartsWith(b, StreamRelay.DataPrefix)
    ensures ClientLines(force, "", [a, b, "", ""]) == Next("")
  {
    var l0, l1, l2, l3 := [a, b, "", ""], [b, "", ""], ["", ""], [""];
    assert ClientLines(force, "", l3) == Next("") by {
      assert l3[1..] == [];
    }
    assert ClientLines(force, "", l2) == ClientLines(force, "", l3) by {
      assert l2[1..] == l3;
    }
    assert ClientLines(force, "", l1) == ClientLines(force, "", l2) by {
      assert l1[1..] == l2;
    }
    assert l0[1..] == l1;
  }

  /** The two pieces join to the frame. */
  lemma CutFrameJoins(e: StreamRelay.Event)
    ensures CutFrame(e)[0] == "dat"
    ensures StreamRelay.Concat(CutFrame(e)) == StreamRelay.Frames([e])
  {
    var f := StreamRelay.Frame(e);
    assert f[..3] == StreamRelay.DataPrefix[..3];
    TwoChunksConcat(f[..3], f[3..]);
    assert StreamRelay.Frames([e]) == f + "" by {
      assert [e][1..] == [];
    }
    assert f == f[..3] + f[3..];
  }

  lemma TwoChunksConcat(a: string, b: string)
    ensures StreamRelay.Concat([a, b]) == a + b
  {
    assert [a, b][..1] == [a] && [a][..0] == [];
    assert StreamRelay.Concat([a]) == "" + a;
  }

  /** The rest of an event's `data:` line after its first three characters. */
  function FrameTail(e: StreamRelay.Event): string {
    StreamRelay.FrameLine(e)[3..]
  }

  /** The lines the page as written sees: "dat", the rest of the `data:`
      line, which starts with 'a', and blank lines. */
  lemma CutFrameLines(e: StreamRelay.Event)
    ensures ChunkLines(CutFrame(e)) == ["dat", FrameTail(e), "", ""]
    ensures |FrameTail(e)| > 0 && FrameTail(e)[0] == 'a'
  {
    var f := StreamRelay.Frame(e);
    FrameRest(e);
    TwoChunkLines(f[..3], f[3..]);
    Strings.SplitFree("dat", StreamRelay.Newline);
    FrameRestSplit(FrameTail(e));
  }

  /** A frame is "dat", then the rest of its `data:` line, which starts
      with 'a' and holds no line feed, then the two line feeds. */
  lemma FrameRest(e: StreamRelay.Event)
    ensures StreamRelay.Frame(e)[..3] == "dat" && StreamRelay.Frame(e)[3..] == FrameTail(e) + "\n\n"
    ensures |FrameTail(e)| > 0 && FrameTail(e)[0] == 'a' && Strings.NoneIn(FrameTail(e), StreamRelay.Newline)
  {
    var l := StreamRelay.FrameLine(e);
    assert l[..|StreamRelay.DataPrefix|] == StreamRelay.DataPrefix;
    assert Strings.NoneIn(FrameTail(e), StreamRelay.Newline) by {
      StreamRelay.FrameLineFree(e);
    }
  }

  lemma TwoChunkLines(a: string, b: string)
    ensures ChunkLines([a, b]) == Strings.Split(a, StreamRelay.Newline) + Strings.Split(b, StreamRelay.Newline)
  {
    assert [a, b][..1] == [a] && [a][..0] == [];
    assert ChunkLines([a]) == [] + Strings.Split(a, StreamRelay.Newline);
  }

  /** A piece of a `data:` line, its line end and the blank line. */
  lemma FrameRestSplit(piece: string)
    requires Strings.NoneIn(piece, StreamRelay.Newline)
    ensures Strings.Split(piece + "\n\n", StreamRelay.Newline) == [piece, "", ""]
  {
    StreamRelay.SplitFrameText(piece, "");
    assert piece + "\n\n" + "" == piece + "\n\n";
  }

  /** The upstream body that is only the end marker. */
  const DoneOnly: seq<string> := [StreamRelay.DoneLine + "\n"]

  /** `[DONE]` closes the stream with a `done` that has no count, so the
      page's save request has none and the save endpoint stores 0 items;
      the corrected route sends the number of fetched articles. */
  lemma DoneMarkerLosesCount(itemCount: nat, force: bool, content: string)
    requires itemCount > 0
    ensures StreamRelay.BodyEventsAsWritten(DoneOnly, false, itemCount) == [StreamRelay.Done(None)]
    ensures StreamRelay.BodyEvents(DoneOnly, false, itemCount) == [StreamRelay.Done(Some(itemCount))]
    ensures var req := EventStep(force, content, StreamRelay.Done(None)).outcome.request;
            SummaryRoutes.ItemCount(req) == Json.Num(0)
    ensures var req := EventStep(force, content, StreamRelay.Done(Some(itemCount))).outcome.request;
            SummaryRoutes.ItemCount(req) == Json.Num(itemCount)
  {
    DoneOnlyRelayed();
    DoneRequest(force, content, None);
    DoneRequest(force, content, Some(itemCount));
  }

  /** The end marker is the one complete line, and it finishes the relay. */
  lemma DoneOnlyRelayed()
    ensures StreamRelay.RelayLines(StreamRelay.Buffered(DoneOnly).0) == ([], true)
  {
    var line := StreamRelay.DoneLine;
    assert StreamRelay.Buffered(DoneOnly).0 == [line] by {
      assert DoneOnly[..0] == [];
      assert Strings.NoneIn(line, StreamRelay.Newline);
      Strings.SplitAfterFree(line, '\n', "", StreamRelay.Newline);
      assert "" + DoneOnly[0] == line + ['\n'] + "";
    }
    assert StreamRelay.RelayLines([line]) == ([], true) by {
      StreamRelay.RelayForwardsDeltas([]);
      assert StreamRelay.UpstreamLines([]) + [line] == [line];
    }
  }

  /** A stream closed by `done` with a count saves the tokens' text with
      that count; one closed by an error saves nothing. */
  lemma ClosingSaves(force: bool, es: seq<StreamRelay.Event>)
    requires StreamRelay.WellFormed(es)
    ensures var o := Closing(force, es);
            var last := es[|es| - 1];
            && (o.Saving? <==> last.Done?)
            && (o.Saving? ==>
                  && SummaryRoutes.Member(o.request, "content") == Some(Json.Str(TokensText(es[..|es| - 1])))
                  && SummaryRoutes.Force(o.request) == force
                  && (last.itemCount.Some? && last.itemCount.value != 0 ==>
                        SummaryRoutes.ItemCount(o.request) == Json.Num(last.itemCount.value))
                  && (last.itemCount.None? ==> SummaryRoutes.ItemCount(o.request) == Json.Num(0)))
  {
    var last := es[|es| - 1];
    if last.Done? {
      DoneRequest(force, TokensText(es[..|es| - 1]), last.itemCount);
    }
  }

  /** What `done` posts. */
  lemma DoneRequest(force: bool, text: string, n: Option<nat>)
    ensures var o := Finish(EventStep(force, text, StreamRelay.Done(n)));
            && o.Saving?
            && SummaryRoutes.Member(o.request, "content") == Some(Json.Str(text))
            && SummaryRoutes.Force(o.request) == force
            && (n.Some? && n.value != 0 ==> SummaryRoutes.ItemCount(o.request) == Json.Num(n.value))
            && (n.None? ==> SummaryRoutes.ItemCount(o.request) == Json.Num(0))
  {
    SaveRequestRead(force, text, if n.Some? then Some(Json.Num(n.value)) else None);
  }

  /** End to end: however the route's output is chunked, the page either
      shows the route's error or saves the tokens' text; the count saved is
      0 when the upstream body carried `[DONE]`, and otherwise the number
      of fetched articles. */
  lemma ClientReadsRoute(w: SummaryRoutes.World, session: Option<string>, now: int, fault: bool,
                         upstream: StreamRelay.Upstream, chunks: seq<string>, force: bool)
    requires StreamRelay.Concat(chunks) == StreamRelay.Frames(StreamRelay.StreamRoute(w, session, now, fault, upstream).events)
    ensures var o := ReadBuffered(chunks, force);
            && !o.Unfinished?
            && (o.Saving? ==>
                  && session.Some?
                  && upstream.Streamed?
                  && SummaryRoutes.ItemCount(o.request).Num?
                  && (StreamRelay.EndMarked(upstream.chunks) ==> SummaryRoutes.ItemCount(o.request).n == 0)
                  && (!StreamRelay.EndMarked(upstream.chunks) ==>
                        && 0 < SummaryRoutes.ItemCount(o.request).n <= DigestGenerator.FetchLimit
                        && SummaryRoutes.ItemCount(o.request).n <= SummaryRoutes.UnreadCount(w, session.value, now)))
  {
    var es := StreamRelay.StreamRoute(w, session, now, fault, upstream).events;
    ClientReadsFrames(chunks, es, force);
    WellFormedRead(force, es);
    ClosingSaves(force, es);
    StreamRelay.StreamRouteCount(w, session, now, fault, upstream);
  }
}
