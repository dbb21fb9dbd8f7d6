/** The page's submit handler: it posts the link, reads the event stream
    chunk by chunk, cuts the text into frames at blank lines, parses every
    `data: ` line of each complete frame, and folds the events into the
    page state. The fetch, the stream's chunks and the JSON parser are
    inputs; the markup is not modelled. */
module Page {
  import opened Wrappers
  import opened JsString
  import opened JsNumber
  import opened Primitives
  import Bilibili
  import opened SummarizeRoute
  import RouteProperties

  /** `appState`. */
  datatype AppState = IdleState | ProcessingState | DoneState | ErrorState

  /** The component's state, apart from the link being typed. */
  datatype View = View(appState: AppState, steps: seq<Event>, result: Option<DoneData>,
                       error: Option<string>, videoInfo: Option<Bilibili.VideoInfo>)

  /** The state on load and after a reset. */
  const Initial := View(IdleState, [], None, None, None)
  /** The state a submission starts from. */
  const Started := View(ProcessingState, [], None, None, None)

  const DataPrefix := "data: "
  const FrameSeparator := "\n\n"
  const LineSeparator := "\n"
  const ConnectionLostMessage := "连接意外断开，请重试"
  const NoReaderMessage := "无法读取响应流"
  const RequestFailedMessage := "请求失败"
  const CancelledMessage := "已取消处理"

  // ---------------------------------------------------------------------------
  // Events into state
  // ---------------------------------------------------------------------------

  /** One parsed event: it joins the steps; its `info`, if any, replaces the
      video information; `done` with data sets the result and the done
      state; `error` sets the message and the error state. */
  function Apply(v: View, e: Event): (w: View)
    ensures w.steps == v.steps + [e]
    ensures w.videoInfo == if e.info.Some? then e.info else v.videoInfo
    ensures e.step == Done && e.data.Some? ==> w.appState == DoneState && w.result == e.data && w.error == v.error
    ensures e.step == Error ==> w.appState == ErrorState && w.error == Some(e.message) && w.result == v.result
    ensures !(e.step == Done && e.data.Some?) && e.step != Error ==>
      w.appState == v.appState && w.result == v.result && w.error == v.error
  {
    var withInfo := v.(steps := v.steps + [e], videoInfo := if e.info.Some? then e.info else v.videoInfo);
    var withResult := if e.step == Done && e.data.Some? then withInfo.(result := e.data, appState := DoneState) else withInfo;
    if e.step == Error then withResult.(error := Some(e.message), appState := ErrorState) else withResult
  }

  /** The events applied in order. */
  function ApplyAll(v: View, es: seq<Event>): View
    decreases |es|
  {
    if es == [] then v else ApplyAll(Apply(v, es[0]), es[1..])
  }

  lemma {:induction false} ApplyAllAppend(v: View, a: seq<Event>, b: seq<Event>)
    ensures ApplyAll(v, a + b) == ApplyAll(ApplyAll(v, a), b)
    decreases |a|
  {
    if a != [] {
      assert (a + b)[0] == a[0] && (a + b)[1..] == a[1..] + b;
      ApplyAllAppend(Apply(v, a[0]), a[1..], b);
    } else {
      assert a + b == b;
    }
  }

  /** Every event is recorded, in arrival order. */
  lemma {:induction false} ApplyAllSteps(v: View, es: seq<Event>)
    ensures ApplyAll(v, es).steps == v.steps + es
    decreases |es|
  {
    if es != [] {
      ApplyAllSteps(Apply(v, es[0]), es[1..]);
      assert v.steps + [es[0]] + es[1..] == v.steps + es;
    }
  }

  /** Events that are neither `done` nor `error` leave the state, the
      result and the error as they were. */
  lemma {:induction false} ApplyAllProgress(v: View, es: seq<Event>)
    requires forall k :: 0 <= k < |es| ==> !IsTerminal(es[k].step)
    ensures var w := ApplyAll(v, es);
      w.appState == v.appState && w.result == v.result && w.error == v.error
    decreases |es|
  {
    if es != [] {
      ApplyAllProgress(Apply(v, es[0]), es[1..]);
    }
  }

  // ---------------------------------------------------------------------------
  // Text into events
  // ---------------------------------------------------------------------------

  /** A line yields an event when it starts with `data: ` and the rest
      parses; any other line is skipped. */
  function LineEvents(codec: JsonCodec<Event>, line: string): (r: seq<Event>)
    ensures |r| <= 1
    ensures r != [] <==> StartsWith(line, DataPrefix) && codec.parse(line[|DataPrefix|..]).Some?
    ensures r != [] ==> r[0] == codec.parse(line[|DataPrefix|..]).value
  {
    if StartsWith(line, DataPrefix) then
      match codec.parse(line[|DataPrefix|..])
      case None => []
      case Some(e) => [e]
    else []
  }

  function LinesEvents(codec: JsonCodec<Event>, lines: seq<string>): seq<Event>
    decreases |lines|
  {
    if lines == [] then [] else LineEvents(codec, lines[0]) + LinesEvents(codec, lines[1..])
  }

  lemma {:induction false} LinesEventsSnoc(codec: JsonCodec<Event>, lines: seq<string>, line: string)
    ensures LinesEvents(codec, lines + [line]) == LinesEvents(codec, lines) + LineEvents(codec, line)
    decreases |lines|
  {
    if lines == [] {
      assert LinesEvents(codec, [line]) == LineEvents(codec, line) + LinesEvents(codec, []);
    } else {
      assert (lines + [line])[1..] == lines[1..] + [line];
      LinesEventsSnoc(codec, lines[1..], line);
    }
  }

  /** The events of one complete frame: those of its lines, in order. */
  function FrameEvents(codec: JsonCodec<Event>, frame: string): seq<Event> {
    LinesEvents(codec, Split(frame, LineSeparator))
  }

  function FramesEvents(codec: JsonCodec<Event>, frames: seq<string>): seq<Event>
    decreases |frames|
  {
    if frames == [] then [] else FrameEvents(codec, frames[0]) + FramesEvents(codec, frames[1..])
  }

  lemma {:induction false} FramesEventsAppend(codec: JsonCodec<Event>, a: seq<string>, b: seq<string>)
    ensures FramesEvents(codec, a + b) == FramesEvents(codec, a) + FramesEvents(codec, b)
    decreases |a|
  {
    if a == [] {
      assert a + b == b;
    } else {
      assert (a + b)[1..] == a[1..] + b;
      FramesEventsAppend(codec, a[1..], b);
    }
  }

  /** The events of a text: those of every frame followed by a blank line;
      the text after the last blank line is still incomplete. */
  function Decode(codec: JsonCodec<Event>, text: string): seq<Event> {
    FramesEvents(codec, AllButLast(Split(text, FrameSeparator)))
  }

  /** What is left in the buffer once a text has been read. */
  function Pending(text: string): string {
    Last(Split(text, FrameSeparator))
  }

  /** The chunks read so far, joined. */
  function Concat(chunks: seq<string>): string
    decreases |chunks|
  {
    if chunks == [] then "" else Concat(chunks[..|chunks| - 1]) + chunks[|chunks| - 1]
  }

  /** Reading one more chunk: the frames it completes are those of the
      pending text followed by the chunk, and the new pending text is
      what follows their last blank line. */
  lemma DecodeAppend(codec: JsonCodec<Event>, text: string, chunk: string)
    ensures Decode(codec, text + chunk)
      == Decode(codec, text) + FramesEvents(codec, AllButLast(Split(Pending(text) + chunk, FrameSeparator)))
    ensures Pending(text + chunk) == Pending(Pending(text) + chunk)
  {
    var parts := Split(text, FrameSeparator);
    var more := Split(Pending(text) + chunk, FrameSeparator);
    SplitAppend(text, chunk, FrameSeparator);
    assert Split(text + chunk, FrameSeparator) == AllButLast(parts) + more;
    assert AllButLast(AllButLast(parts) + more) == AllButLast(parts) + AllButLast(more);
    assert Last(AllButLast(parts) + more) == Last(more);
    FramesEventsAppend(codec, AllButLast(parts), AllButLast(more));
  }

  // ---------------------------------------------------------------------------
  // The server's frames read back
  // ---------------------------------------------------------------------------

  /** The text of one event without its blank line. */
  function Payload(codec: JsonCodec<Event>, e: Event): string {
    DataPrefix + codec.stringify(e)
  }

  function Payloads(codec: JsonCodec<Event>, es: seq<Event>): (r: seq<string>)
    ensures |r| == |es|
    decreases |es|
  {
    if es == [] then [] else [Payload(codec, es[0])] + Payloads(codec, es[1..])
  }

  lemma PayloadHasNoLineFeed(codec: JsonCodec<Event>, e: Event)
    requires LawfulCodec(codec)
    ensures forall i :: 0 <= i < |Payload(codec, e)| ==> Payload(codec, e)[i] != '\n'
  {
    var j := codec.stringify(e);
    assert '\n' !in j;
    forall i | 0 <= i < |Payload(codec, e)| ensures Payload(codec, e)[i] != '\n' {
      if i >= |DataPrefix| {
        assert Payload(codec, e)[i] == j[i - |DataPrefix|];
      }
    }
  }

  /** The stream text splits at its blank lines into the events' payloads
      and an empty remainder. */
  lemma {:induction false} SplitWire(codec: JsonCodec<Event>, es: seq<Event>)
    requires LawfulCodec(codec)
    ensures Split(Wire(codec, es), FrameSeparator) == Payloads(codec, es) + [""]
    decreases |es|
  {
    if es == [] {
      SplitNone("", FrameSeparator);
    } else {
      var p := Payload(codec, es[0]);
      PayloadHasNoLineFeed(codec, es[0]);
      assert Wire(codec, es) == p + FrameSeparator + Wire(codec, es[1..]);
      SplitHead(p, FrameSeparator, Wire(codec, es[1..]));
      SplitWire(codec, es[1..]);
    }
  }

  /** A payload is one line that yields its event. */
  lemma PayloadEvents(codec: JsonCodec<Event>, e: Event)
    requires LawfulCodec(codec)
    ensures FrameEvents(codec, Payload(codec, e)) == [e]
  {
    var p := Payload(codec, e);
    PayloadHasNoLineFeed(codec, e);
    NoCharNoText(p, LineSeparator);
    SplitNone(p, LineSeparator);
    assert p[|DataPrefix|..] == codec.stringify(e);
    assert LinesEvents(codec, [p]) == LineEvents(codec, p) + LinesEvents(codec, []);
  }

  lemma {:induction false} PayloadsEvents(codec: JsonCodec<Event>, es: seq<Event>)
    requires LawfulCodec(codec)
    ensures FramesEvents(codec, Payloads(codec, es)) == es
    decreases |es|
  {
    if es != [] {
      PayloadEvents(codec, es[0]);
      PayloadsEvents(codec, es[1..]);
      assert Payloads(codec, es)[1..] == Payloads(codec, es[1..]);
    }
  }

  /** Round trip: the page reads back exactly the events the server sent,
      in order, and nothing is left pending. */
  lemma DecodeWire(codec: JsonCodec<Event>, es: seq<Event>)
    requires LawfulCodec(codec)
    ensures Decode(codec, Wire(codec, es)) == es
    ensures Pending(Wire(codec, es)) == ""
  {
    SplitWire(codec, es);
    assert AllButLast(Payloads(codec, es) + [""]) == Payloads(codec, es);
    PayloadsEvents(codec, es);
  }

  // ---------------------------------------------------------------------------
  // The submission
  // ---------------------------------------------------------------------------

  /** A thrown value other than the abort: an `Error` with its message, or
      anything else. */
  datatype Thrown = ErrorObject(message: string) | OtherValue

  /** The message shown for a thrown value. */
  function ThrownMessage(t: Thrown): string {
    match t
    case ErrorObject(m) => m
    case OtherValue => RequestFailedMessage
  }

  /** How reading the stream ended: normally, with a thrown value, or by
      the abort. */
  datatype StreamEnd = Ended | ReadFailed(thrown: Thrown) | ReadAborted

  /** The response body: the decoded text chunks and how reading ended. */
  datatype StreamBody = StreamBody(chunks: seq<string>, end: StreamEnd)

  /** What `fetch` gave: a thrown error, the abort, or a response with its
      status, whether its content type is JSON, the `error` member of a JSON
      body (`None` when absent or empty) and its readable body, if any. */
  datatype FetchOutcome =
    | FetchFailed(thrown: Thrown)
    | FetchAborted
    | Response(ok: bool, status: int, isJson: bool, errorField: Option<string>, body: Option<StreamBody>)

  /** The message for a refused request: the server's `error`, else the status. */
  function RefusalMessage(errorField: Option<string>, status: int): (m: string)
    ensures errorField.Some? && errorField.value != "" ==> m == errorField.value
    ensures errorField.None? || errorField.value == "" ==> m == "请求失败 (" + IntToDecimal(status) + ")"
  {
    if errorField.Some? && errorField.value != "" then errorField.value else "请求失败 (" + IntToDecimal(status) + ")"
  }

  function Failed(v: View, message: string): View {
    v.(error := Some(message), appState := ErrorState)
  }

  /** The end of the stream as evidently intended: a run that is still
      processing becomes an error with the connection-lost message. */
  function EndOfStream(v: View): (w: View)
    ensures v.appState == ProcessingState ==> w == Failed(v, ConnectionLostMessage)
    ensures v.appState != ProcessingState ==> w == v
  {
    if v.appState == ProcessingState then Failed(v, ConnectionLostMessage) else v
  }

  /** The end of the stream as written: the state moves from processing to
      error, but the message is set only if `snapshot`, the `appState` the
      handler was created with, is processing. */
  function EndAsWritten(v: View, snapshot: AppState): View {
    var moved := v.(appState := if v.appState == ProcessingState then ErrorState else v.appState);
    if snapshot == ProcessingState then moved.(error := Some(ConnectionLostMessage)) else moved
  }

  /** The error panel is rendered when the state is error and there is a
      non-empty message. */
  predicate ErrorPanelShown(v: View) {
    v.appState == ErrorState && v.error.Some? && v.error.value != ""
  }

  /** `handleSubmit` from state `v` with link `url`: nothing for a blank
      link; otherwise start afresh and follow the fetch. A refused request
      with a JSON body shows its message without reading a stream; a
      missing body throws; the events of every complete frame are applied
      in order; the end of the stream, a read error or the abort follows. */
  function Submitted(v: View, url: string, codec: JsonCodec<Event>, outcome: FetchOutcome): View {
    if Trim(url) == "" then v else Fetched(codec, outcome)
  }

  /** The state a started submission reaches for each fetch outcome. */
  function Fetched(codec: JsonCodec<Event>, outcome: FetchOutcome): View {
    match outcome
    case FetchFailed(t) => Failed(Started, ThrownMessage(t))
    case FetchAborted => Started
    case Response(ok, status, isJson, errorField, body) =>
      if !ok && isJson then Failed(Started, RefusalMessage(errorField, status))
      else if body.None? then Failed(Started, NoReaderMessage)
      else Streamed(codec, body.value)
  }

  /** The state after reading a body: its events, then how reading ended. */
  function Streamed(codec: JsonCodec<Event>, body: StreamBody): View {
    var read := ApplyAll(Started, Decode(codec, Concat(body.chunks)));
    match body.end
    case Ended => EndOfStream(read)
    case ReadFailed(t) => Failed(read, ThrownMessage(t))
    case ReadAborted => read
  }

  /** One more line of a frame, applied after the earlier ones. */
  lemma LinesStep(v: View, codec: JsonCodec<Event>, lines: seq<string>, j: nat)
    requires j < |lines|
    ensures ApplyAll(v, LinesEvents(codec, lines[..j + 1]))
         == ApplyAll(ApplyAll(v, LinesEvents(codec, lines[..j])), LineEvents(codec, lines[j]))
  {
    assert lines[..j + 1] == lines[..j] + [lines[j]];
    LinesEventsSnoc(codec, lines[..j], lines[j]);
    ApplyAllAppend(v, LinesEvents(codec, lines[..j]), LineEvents(codec, lines[j]));
  }

  /** One more complete frame, applied after the earlier ones. */
  lemma FramesStep(v: View, codec: JsonCodec<Event>, frames: seq<string>, k: nat)
    requires k < |frames|
    ensures ApplyAll(v, FramesEvents(codec, frames[..k + 1]))
         == ApplyAll(ApplyAll(v, FramesEvents(codec, frames[..k])), FrameEvents(codec, frames[k]))
  {
    assert frames[..k + 1] == frames[..k] + [frames[k]];
    FramesEventsAppend(codec, frames[..k], [frames[k]]);
    assert FramesEvents(codec, [frames[k]]) == FrameEvents(codec, frames[k]) by {
      assert [frames[k]][1..] == [];
      assert FrameEvents(codec, frames[k]) + [] == FrameEvents(codec, frames[k]);
    }
    ApplyAllAppend(v, FramesEvents(codec, frames[..k]), FrameEvents(codec, frames[k]));
  }

  /** The component: the link being typed and the rendered state. */
  class Home {
    var url: string
    var appState: AppState
    var steps: seq<Event>
    var result: Option<DoneData>
    var error: Option<string>
    var videoInfo: Option<Bilibili.VideoInfo>

    /** What the page shows. */
    function Current(): View
      reads this
    {
      View(appState, steps, result, error, videoInfo)
    }

    constructor ()
      ensures Current() == Initial && url == ""
    {
      url := "";
      appState := IdleState;
      steps := [];
      result := None;
      error := None;
      videoInfo := None;
    }

    /** The input's `onChange`. */
    method SetUrl(u: string)
      modifies this
      ensures url == u && Current() == old(Current())
    {
      url := u;
    }

    method Show(v: View)
      modifies this
      ensures Current() == v && url == old(url)
    {
      appState, steps, result, error, videoInfo := v.appState, v.steps, v.result, v.error, v.videoInfo;
    }

    /** One parsed event. */
    method HandleEvent(e: Event)
      modifies this
      ensures Current() == Apply(old(Current()), e) && url == old(url)
    {
      steps := steps + [e];
      if e.info.Some? {
        videoInfo := e.info;
      }
      if e.step == Done && e.data.Some? {
        result := e.data;
        appState := DoneState;
      }
      if e.step == Error {
        error := Some(e.message);
        appState := ErrorState;
      }
    }

    /** One line of a frame. */
    method HandleLine(codec: JsonCodec<Event>, line: string)
      modifies this
      ensures Current() == ApplyAll(old(Current()), LineEvents(codec, line)) && url == old(url)
    {
      if !StartsWith(line, DataPrefix) {
        return;
      }
      var parsed := codec.parse(line[|DataPrefix|..]);
      if parsed.Some? {
        HandleEvent(parsed.value);
        assert ApplyAll(old(Current()), [parsed.value]) == ApplyAll(Apply(old(Current()), parsed.value), []);
      }
    }

    /** One complete frame, line by line. */
    method HandleFrame(codec: JsonCodec<Event>, frame: string)
      modifies this
      ensures Current() == ApplyAll(old(Current()), FrameEvents(codec, frame)) && url == old(url)
    {
      var lines := Split(frame, LineSeparator);
      var j := 0;
      while j < |lines|
        invariant 0 <= j <= |lines| && url == old(url)
        invariant Current() == ApplyAll(old(Current()), LinesEvents(codec, lines[..j]))
      {
        HandleLine(codec, lines[j]);
        LinesStep(old(Current()), codec, lines, j);
        j := j + 1;
      }
      assert lines[..j] == lines;
    }

    /** One chunk: append it to the buffer, handle every frame it
      completes, and keep the text after the last blank line. */
    method HandleChunk(codec: JsonCodec<Event>, buffer: string, chunk: string) returns (rest: string)
      modifies this
      ensures Current() == ApplyAll(old(Current()), FramesEvents(codec, AllButLast(Split(buffer + chunk, FrameSeparator))))
      ensures rest == Pending(buffer + chunk) && url == old(url)
    {
      var parts := Split(buffer + chunk, FrameSeparator);
      rest := parts[|parts| - 1];
      var frames := parts[..|parts| - 1];
      var k := 0;
      while k < |frames|
        invariant 0 <= k <= |frames| && url == old(url)
        invariant Current() == ApplyAll(old(Current()), FramesEvents(codec, frames[..k]))
      {
        HandleFrame(codec, frames[k]);
        FramesStep(old(Current()), codec, frames, k);
        k := k + 1;
      }
      assert frames[..k] == frames;
    }

    /** The read loop: the chunks in order, with the pending text carried
      from one to the next. */
    method ReadStream(codec: JsonCodec<Event>, chunks: seq<string>) returns (buffer: string)
      modifies this
      ensures Current() == ApplyAll(old(Current()), Decode(codec, Concat(chunks)))
      ensures buffer == Pending(Concat(chunks)) && url == old(url)
    {
      buffer := "";
      var i := 0;
      SplitNone("", FrameSeparator);
      assert Decode(codec, "") == [];
      while i < |chunks|
        invariant 0 <= i <= |chunks| && url == old(url)
        invariant Current() == ApplyAll(old(Current()), Decode(codec, Concat(chunks[..i])))
        invariant buffer == Pending(Concat(chunks[..i]))
      {
        var text := Concat(chunks[..i]);
        buffer := HandleChunk(codec, buffer, chunks[i]);
        assert chunks[..i + 1][..i] == chunks[..i];
        assert Concat(chunks[..i + 1]) == text + chunks[i];
        DecodeAppend(codec, text, chunks[i]);
        ApplyAllAppend(old(Current()), Decode(codec, text),
                       FramesEvents(codec, AllButLast(Split(Pending(text) + chunks[i], FrameSeparator))));
        i := i + 1;
      }
      assert chunks[..i] == chunks;
    }

    /** `handleSubmit`. The end of the stream uses the evidently intended
      handling, `EndOfStream`. */
    method HandleSubmit(codec: JsonCodec<Event>, outcome: FetchOutcome)
      modifies this
      ensures Current() == Submitted(old(Current()), old(url), codec, outcome) && url == old(url)
    {
      if Trim(url) == "" {
        return;
      }
      Show(Started);
      match outcome
      case FetchFailed(t) =>
        Show(Failed(Started, ThrownMessage(t)));
      case FetchAborted =>
      case Response(ok, status, isJson, errorField, body) =>
        if !ok && isJson {
          Show(Failed(Started, RefusalMessage(errorField, status)));
          return;
        }
        if body.None? {
          Show(Failed(Started, NoReaderMessage));
          return;
        }
        var _ := ReadStream(codec, body.value.chunks);
        match body.value.end
        case Ended =>
          Show(EndOfStream(Current()));
        case ReadFailed(t) =>
          Show(Failed(Current(), ThrownMessage(t)));
        case ReadAborted =>
    }

    /** The cancel button: abort and show the cancelled message. */
    method Cancel()
      modifies this
      ensures Current() == Failed(old(Current()), CancelledMessage) && url == old(url)
      ensures ErrorPanelShown(Current())
    {
      appState := ErrorState;
      error := Some(CancelledMessage);
    }

    /** `handleReset`: back to the initial state with an empty link. */
    method HandleReset()
      modifies this
      ensures Current() == Initial && url == ""
    {
      url := "";
      Show(Initial);
    }
  }

  // ---------------------------------------------------------------------------
  // What the page shows
  // ---------------------------------------------------------------------------

  /** While a submission is processing no message is set: every `error`
      event moves the state to error together with its message, and no
      event moves it back to processing. */
  lemma {:induction false} ProcessingHasNoError(v: View, es: seq<Event>)
    requires v.appState == ProcessingState ==> v.error == None
    ensures var w := ApplyAll(v, es); w.appState == ProcessingState ==> w.error == None
    decreases |es|
  {
    if es != [] {
      ProcessingHasNoError(Apply(v, es[0]), es[1..]);
    }
  }

  /** The handler compares the `appState` of the render it was created in,
      and a submission can start only from a state other than processing:
      while processing, the input is disabled and the submit button is
      replaced by the cancel button. A stream that closes before `done` or
      `error` then leaves the error state with no message, and the error
      panel, which needs a message, stays hidden. */
  lemma StaleStateHidesLostConnection(codec: JsonCodec<Event>, chunks: seq<string>, snapshot: AppState)
    requires snapshot != ProcessingState
    requires ApplyAll(Started, Decode(codec, Concat(chunks))).appState == ProcessingState
    ensures var shown := EndAsWritten(ApplyAll(Started, Decode(codec, Concat(chunks))), snapshot);
      shown.appState == ErrorState && shown.error == None && !ErrorPanelShown(shown)
  {
    ProcessingHasNoError(Started, Decode(codec, Concat(chunks)));
  }

  /** The smallest case: the connection closes before any event. The page
      is left in the error state with nothing to show: no steps, no video,
      no result and no message. */
  lemma EmptyStreamShowsNothing(codec: JsonCodec<Event>, snapshot: AppState)
    requires snapshot != ProcessingState
    ensures EndAsWritten(ApplyAll(Started, Decode(codec, Concat([]))), snapshot) == View(ErrorState, [], None, None, None)
  {
    SplitNone("", FrameSeparator);
    assert Decode(codec, Concat([])) == [];
  }

  /** With the current state consulted instead, a stream that closes early
      keeps every event received and shows the connection-lost message. */
  lemma LostConnectionShown(v: View, url: string, codec: JsonCodec<Event>, status: int, isJson: bool,
                            errorField: Option<string>, chunks: seq<string>)
    requires Trim(url) != ""
    requires ApplyAll(Started, Decode(codec, Concat(chunks))).appState == ProcessingState
    ensures var w := Submitted(v, url, codec, Response(true, status, isJson, errorField, Some(StreamBody(chunks, Ended))));
      && w.steps == Decode(codec, Concat(chunks))
      && w.appState == ErrorState && w.error == Some(ConnectionLostMessage) && ErrorPanelShown(w)
  {
    StreamSubmitted(v, url, codec, status, isJson, errorField, chunks);
    ApplyAllSteps(Started, Decode(codec, Concat(chunks)));
  }

  /** Exactly one final event, applied from the start of a submission:
      every event is recorded, and the final one decides the state. */
  lemma FinalApplied(evs: seq<Event>)
    requires RouteProperties.OneFinalEvent(evs)
    ensures var w := ApplyAll(Started, evs); var last := evs[|evs| - 1];
      && w.steps == evs
      && (last.step == Done && last.data.Some? ==> w.appState == DoneState && w.result == last.data && w.error == None)
      && (last.step == Error ==> w.appState == ErrorState && w.error == Some(last.message) && w.result == None)
  {
    var last := evs[|evs| - 1];
    var prefix := evs[..|evs| - 1];
    assert evs == prefix + [last];
    ApplyAllAppend(Started, prefix, [last]);
    ApplyAllProgress(Started, prefix);
    ApplyAllSteps(Started, evs);
    var p := ApplyAll(Started, prefix);
    assert ApplyAll(p, [last]) == ApplyAll(Apply(p, last), []);
  }

  /** The events of a whole run, applied from the start of a submission. */
  lemma RunApplied(input: string, env: Env)
    ensures var w := ApplyAll(Started, Run(input, env));
      var final := RouteProperties.Final(input, env);
      && w.steps == Run(input, env)
      && w.appState != ProcessingState
      && (w.appState == DoneState <==> RouteProperties.Completes(input, env))
      && (RouteProperties.Completes(input, env) ==> w.result == final.data && w.error == None)
      && (!RouteProperties.Completes(input, env) ==>
            w.appState == ErrorState && w.error == Some(final.message) && w.result == None)
  {
    RouteProperties.ExactlyOneOutcome(input, env);
    RouteProperties.DoneExactlyWhenComplete(input, env);
    FinalApplied(Run(input, env));
  }

  /** A readable body that ends normally: its events, then the end of the
      stream. */
  lemma StreamSubmitted(v: View, url: string, codec: JsonCodec<Event>, status: int, isJson: bool,
                        errorField: Option<string>, chunks: seq<string>)
    requires Trim(url) != ""
    ensures Submitted(v, url, codec, Response(true, status, isJson, errorField, Some(StreamBody(chunks, Ended))))
         == EndOfStream(ApplyAll(Started, Decode(codec, Concat(chunks))))
  {
    var body := StreamBody(chunks, Ended);
    assert Fetched(codec, Response(true, status, isJson, errorField, Some(body))) == Streamed(codec, body);
  }

  /** A submission answered with a route's event stream, cut into chunks in
      any way: the page records every event of the run in order, reaches
      the done state with the run's result exactly when the run completes,
      and otherwise reaches the error state with the final event's
      message. */
  lemma PageFollowsRun(v: View, url: string, codec: JsonCodec<Event>, status: int, isJson: bool,
                       errorField: Option<string>, input: string, env: Env, chunks: seq<string>)
    requires LawfulCodec(codec) && Trim(url) != ""
    requires Concat(chunks) == Wire(codec, Run(input, env))
    ensures var w := Submitted(v, url, codec, Response(true, status, isJson, errorField, Some(StreamBody(chunks, Ended))));
      var final := RouteProperties.Final(input, env);
      && w.steps == Run(input, env)
      && (w.appState == DoneState <==> RouteProperties.Completes(input, env))
      && (RouteProperties.Completes(input, env) ==> w.result == final.data && w.error == None)
      && (!RouteProperties.Completes(input, env) ==>
            w.appState == ErrorState && w.error == Some(final.message) && w.result == None)
  {
    StreamSubmitted(v, url, codec, status, isJson, errorField, chunks);
    DecodeWire(codec, Run(input, env));
    RunApplied(input, env);
  }
}
