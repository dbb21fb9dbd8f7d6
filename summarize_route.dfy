/** `POST /api/summarize`: admission (rate limit, body validation) and the
    video pipeline that reports its progress as server-sent events. Every
    remote exchange the pipeline makes is an input, gathered in `Env`; the
    pipeline runs to completion inside the request, and the stream's content
    is the channel's event list. */
module SummarizeRoute {
  import opened Wrappers
  import opened JsString
  import opened JsNumber
  import opened Primitives
  import Bilibili
  import Transcribe
  import Summarize
  import RateLimit

  // ---------------------------------------------------------------------------
  // Events and the event channel
  // ---------------------------------------------------------------------------

  /** The `step` field of an event. */
  datatype Step =
    | Parse | Info | InfoDone | Subtitle | SubtitleDone | Audio
    | TranscribeSubmit | TranscribePoll | TranscribeProgress | TranscribeDone
    | Summarizing | Done | Error

  /** The wire name of each step. */
  function StepName(s: Step): string {
    match s
    case Parse => "parse"
    case Info => "info"
    case InfoDone => "info_done"
    case Subtitle => "subtitle"
    case SubtitleDone => "subtitle_done"
    case Audio => "audio"
    case TranscribeSubmit => "transcribe_submit"
    case TranscribePoll => "transcribe_poll"
    case TranscribeProgress => "transcribe_progress"
    case TranscribeDone => "transcribe_done"
    case Summarizing => "summarize"
    case Done => "done"
    case Error => "error"
  }

  predicate IsTerminal(s: Step) {
    s == Done || s == Error
  }

  /** Where the transcript came from: captions or speech recognition. */
  datatype Source = FromSubtitle | FromAsr

  /** The `data` of the final event. */
  datatype DoneData = DoneData(info: Bilibili.VideoInfo, summary: string, source: Source, transcriptLength: nat)

  /** One event: `{ step, message, info?, data? }`. */
  datatype Event = Event(step: Step, message: string, info: Option<Bilibili.VideoInfo>, data: Option<DoneData>)

  function Ev(step: Step, message: string): Event {
    Event(step, message, None, None)
  }

  /** What `send` enqueues for one event: `data: <JSON>` and a blank line. */
  function Frame(codec: JsonCodec<Event>, e: Event): string {
    "data: " + codec.stringify(e) + "\n\n"
  }

  /** The text of the whole stream. */
  function Wire(codec: JsonCodec<Event>, events: seq<Event>): string
    decreases |events|
  {
    if events == [] then "" else Frame(codec, events[0]) + Wire(codec, events[1..])
  }

  /** The stream `createSSEStream` returns: what has been enqueued and
      whether the controller has been closed. */
  class EventChannel {
    var events: seq<Event>
    var closed: bool

    constructor ()
      ensures events == [] && !closed
    {
      events := [];
      closed := false;
    }

    /** `send`: enqueue one event; on a closed stream the error is swallowed
        and nothing changes. */
    method Send(e: Event)
      modifies this
      ensures closed == old(closed)
      ensures !old(closed) ==> events == old(events) + [e]
      ensures old(closed) ==> events == old(events)
    {
      if !closed {
        events := events + [e];
      }
    }

    /** `close`: a second close is swallowed; the events stay as they were. */
    method Close()
      modifies this
      ensures closed && events == old(events)
    {
      closed := true;
    }
  }

  // ---------------------------------------------------------------------------
  // The pipeline's inputs and messages
  // ---------------------------------------------------------------------------

  /** What each collaborator the pipeline awaits returns (`Err` is what it throws):
      - `follow(input)`: where the redirect-following request `resolveShortUrl`
        makes ends (`None` when it throws);
      - `videoInfo(bvid)`: `getVideoInfo`;
      - `subtitles(bvid, cid)`: `getSubtitles`;
      - `audioUrl(bvid, cid)`: `getAudioUrl`;
      - `submit(audioUrl)`: `submitTranscription`, the task id;
      - `poll(taskId)`: `pollTranscription`, its progress reports and outcome;
      - `summarize(transcript, title, duration)`: `summarizeTranscript`.
      Modules `Bilibili`, `Transcribe` and `Summarize` model each of them. */
  datatype Env = Env(
    follow: string -> Option<string>,
    videoInfo: string -> Result<Bilibili.VideoInfo>,
    subtitles: (string, int) -> Option<string>,
    audioUrl: (string, int) -> Result<string>,
    submit: string -> Result<string>,
    poll: string -> Transcribe.PollRun,
    summarize: (string, string, int) -> Result<string>)

  const ParseMessage := "正在解析视频链接..."
  const InvalidLinkMessage := "无效的 Bilibili 视频链接。请确认链接格式，例如：https://www.bilibili.com/video/BVxxxxxxxxxx"
  const InfoMessage := "正在获取视频信息..."
  const TooShortMessage := "视频时长不足 30 秒，内容过短，不需要总结。"
  const SubtitleMessage := "正在尝试获取视频字幕..."
  const AudioMessage := "未找到可用字幕，正在获取音频流地址..."
  const SubmitMessage := "正在提交语音识别任务（百炼 Paraformer）..."
  const PollMessage := "语音识别处理中，请耐心等待..."
  const SummarizeMessage := "正在通过 Qwen3 生成结构化总结..."
  const DoneMessage := "✅ 总结生成完成"
  const MaxDurationSeconds := 30 * 60
  const MinDurationSeconds := 30
  /** Captions of at most this many characters are not used. */
  const MinCaptionChars := 50

  function InfoDoneEvent(info: Bilibili.VideoInfo): Event {
    Event(InfoDone, "📺 " + info.title + "（" + IntToDecimal(Summarize.RoundMinutes(info.duration))
      + " 分钟 · UP主: " + info.owner + "）", Some(info), None)
  }

  function TooLongMessage(minutes: int): string {
    "视频时长 " + IntToDecimal(minutes) + " 分钟，超过 MVP 阶段 30 分钟上限。请选择更短的视频。"
  }

  function SubtitleDoneMessage(length: nat): string {
    "✅ 已获取视频字幕（" + NatToDecimal(length) + " 字）"
  }

  function TranscribeDoneMessage(length: nat): string {
    "✅ 语音识别完成（" + NatToDecimal(length) + " 字）"
  }

  function DoneEvent(info: Bilibili.VideoInfo, summary: string, source: Source, transcript: string): Event {
    Event(Done, DoneMessage, None, Some(DoneData(info, summary, source, |transcript|)))
  }

  function ProgressEvents(ticks: seq<nat>): (evs: seq<Event>)
    ensures |evs| == |ticks|
    ensures forall k :: 0 <= k < |evs| ==> evs[k] == Ev(TranscribeProgress, Transcribe.ProgressMessage(ticks[k]))
  {
    seq(|ticks|, k requires 0 <= k < |ticks| => Ev(TranscribeProgress, Transcribe.ProgressMessage(ticks[k])))
  }

  // ---------------------------------------------------------------------------
  // The pipeline as a specification
  // ---------------------------------------------------------------------------

  /** The identifier: parsed directly, or through the short link when direct
      parsing fails and the input mentions "b23.tv". */
  function FindBvid(input: string, env: Env): (r: Option<string>)
    ensures Bilibili.ParseBilibiliUrl(input).Some? ==> r == Bilibili.ParseBilibiliUrl(input)
    ensures r.Some? ==> Bilibili.IsBvid(r.value)
  {
    var direct := Bilibili.ParseBilibiliUrl(input);
    if direct.None? && Contains(input, "b23.tv") then Bilibili.ResolveShortUrl(input, env.follow(input)) else direct
  }

  /** Captions are used when there are more than 50 characters of them. */
  predicate UsesCaptions(bvid: string, info: Bilibili.VideoInfo, env: Env) {
    var sub := env.subtitles(bvid, info.cid);
    sub.Some? && |sub.value| > MinCaptionChars
  }

  /** The events of a whole run, from `parse` to the final `done` or `error`. */
  function Run(input: string, env: Env): seq<Event> {
    [Ev(Parse, ParseMessage)] + AfterParse(input, env)
  }

  function AfterParse(input: string, env: Env): seq<Event> {
    match FindBvid(input, env)
    case None => [Ev(Error, InvalidLinkMessage)]
    case Some(bvid) => [Ev(Info, InfoMessage)] + AfterInfo(bvid, env)
  }

  function AfterInfo(bvid: string, env: Env): seq<Event> {
    match env.videoInfo(bvid)
    case Err(e) => [Ev(Error, e)]
    case Ok(info) => [InfoDoneEvent(info)] + Gate(bvid, info, env)
  }

  /** The duration gate: more than 30 minutes or less than 30 seconds ends the run. */
  function Gate(bvid: string, info: Bilibili.VideoInfo, env: Env): seq<Event> {
    if info.duration > MaxDurationSeconds then [Ev(Error, TooLongMessage(Summarize.RoundMinutes(info.duration)))]
    else if info.duration < MinDurationSeconds then [Ev(Error, TooShortMessage)]
    else [Ev(Subtitle, SubtitleMessage)] + Transcript(bvid, info, env)
  }

  function Transcript(bvid: string, info: Bilibili.VideoInfo, env: Env): seq<Event> {
    if UsesCaptions(bvid, info, env) then
      var text := env.subtitles(bvid, info.cid).value;
      [Ev(SubtitleDone, SubtitleDoneMessage(|text|))] + SummaryStage(info, text, FromSubtitle, env)
    else [Ev(Audio, AudioMessage)] + Recognition(bvid, info, env)
  }

  function Recognition(bvid: string, info: Bilibili.VideoInfo, env: Env): seq<Event> {
    match env.audioUrl(bvid, info.cid)
    case Err(e) => [Ev(Error, e)]
    case Ok(audioUrl) =>
      [Ev(TranscribeSubmit, SubmitMessage)] +
        match env.submit(audioUrl)
        case Err(e) => [Ev(Error, e)]
        case Ok(taskId) => [Ev(TranscribePoll, PollMessage)] + Polled(info, env.poll(taskId), env)
  }

  function Polled(info: Bilibili.VideoInfo, run: Transcribe.PollRun, env: Env): seq<Event> {
    ProgressEvents(run.ticks) +
      match run.outcome
      case Err(e) => [Ev(Error, e)]
      case Ok(text) => [Ev(TranscribeDone, TranscribeDoneMessage(|text|))] + SummaryStage(info, text, FromAsr, env)
  }

  function SummaryStage(info: Bilibili.VideoInfo, text: string, source: Source, env: Env): seq<Event> {
    [Ev(Summarizing, SummarizeMessage)] +
      match env.summarize(text, info.title, info.duration)
      case Err(e) => [Ev(Error, e)]
      case Ok(summary) => [DoneEvent(info, summary, source, text)]
  }

  // ---------------------------------------------------------------------------
  // The pipeline as a method
  // ---------------------------------------------------------------------------

  /** The `onProgress` callback, once per report, in order. */
  method ReportProgress(ticks: seq<nat>, ch: EventChannel)
    requires !ch.closed
    modifies ch
    ensures !ch.closed
    ensures ch.events == old(ch.events) + ProgressEvents(ticks)
  {
    ghost var reports := ProgressEvents(ticks);
    var k := 0;
    while k < |ticks|
      invariant 0 <= k <= |ticks| && !ch.closed
      invariant ch.events == old(ch.events) + reports[..k]
    {
      ch.Send(Ev(TranscribeProgress, Transcribe.ProgressMessage(ticks[k])));
      assert reports[..k + 1] == reports[..k] + [reports[k]];
      k := k + 1;
    }
    assert reports[..k] == reports;
  }

  /** `processVideo`: every exit sends exactly the events `Run` lists and
      closes the stream; the early exits close it themselves and again on the
      way out, and the second close is swallowed. */
  method ProcessVideo(input: string, env: Env, ch: EventChannel)
    requires !ch.closed
    modifies ch
    ensures ch.closed
    ensures ch.events == old(ch.events) + Run(input, env)
  {
    ch.Send(Ev(Parse, ParseMessage));
    var bvid := ResolveBvid(input, env);
    if bvid.None? {
      ch.Send(Ev(Error, InvalidLinkMessage));
      ch.Close();
      ch.Close();
      assert Run(input, env) == [Ev(Parse, ParseMessage)] + [Ev(Error, InvalidLinkMessage)];
      return;
    }
    ch.Send(Ev(Info, InfoMessage));
    FetchInfo(bvid.value, env, ch);
    assert Run(input, env) == [Ev(Parse, ParseMessage)] + ([Ev(Info, InfoMessage)] + AfterInfo(bvid.value, env));
    Append3(old(ch.events), [Ev(Parse, ParseMessage)], [Ev(Info, InfoMessage)], AfterInfo(bvid.value, env));
  }

  /** The direct parse, then the short link only when that fails on a b23.tv input. */
  method ResolveBvid(input: string, env: Env) returns (bvid: Option<string>)
    ensures bvid == FindBvid(input, env)
  {
    bvid := Bilibili.ParseBilibiliUrl(input);
    if bvid.None? && Contains(input, "b23.tv") {
      bvid := Bilibili.ResolveShortUrl(input, env.follow(input));
    }
  }

  /** The video information and the duration gate. */
  method FetchInfo(bvid: string, env: Env, ch: EventChannel)
    requires !ch.closed
    modifies ch
    ensures ch.closed
    ensures ch.events == old(ch.events) + AfterInfo(bvid, env)
  {
    var infoResult := env.videoInfo(bvid);
    if infoResult.Err? {
      ch.Send(Ev(Error, infoResult.message));
      ch.Close();
      return;
    }
    var info := infoResult.value;
    ch.Send(InfoDoneEvent(info));
    if info.duration > MaxDurationSeconds {
      ch.Send(Ev(Error, TooLongMessage(Summarize.RoundMinutes(info.duration))));
      ch.Close();
      ch.Close();
      return;
    }
    if info.duration < MinDurationSeconds {
      ch.Send(Ev(Error, TooShortMessage));
      ch.Close();
      ch.Close();
      return;
    }
    ch.Send(Ev(Subtitle, SubtitleMessage));
    ObtainTranscript(bvid, info, env, ch);
    Append3(old(ch.events), [InfoDoneEvent(info)], [Ev(Subtitle, SubtitleMessage)], Transcript(bvid, info, env));
  }

  /** Captions when long enough, speech recognition otherwise. */
  method ObtainTranscript(bvid: string, info: Bilibili.VideoInfo, env: Env, ch: EventChannel)
    requires !ch.closed
    modifies ch
    ensures ch.closed
    ensures ch.events == old(ch.events) + Transcript(bvid, info, env)
  {
    var captions := env.subtitles(bvid, info.cid);
    if captions.Some? && |captions.value| > MinCaptionChars {
      var text := captions.value;
      ch.Send(Ev(SubtitleDone, SubtitleDoneMessage(|text|)));
      SummarizeAndFinish(info, text, FromSubtitle, env, ch);
    } else {
      ch.Send(Ev(Audio, AudioMessage));
      Recognize(bvid, info, env, ch);
    }
  }

  /** The audio address, the submission and the polling. */
  method Recognize(bvid: string, info: Bilibili.VideoInfo, env: Env, ch: EventChannel)
    requires !ch.closed
    modifies ch
    ensures ch.closed
    ensures ch.events == old(ch.events) + Recognition(bvid, info, env)
  {
    var audioUrl := env.audioUrl(bvid, info.cid);
    if audioUrl.Err? {
      ch.Send(Ev(Error, audioUrl.message));
      ch.Close();
      return;
    }
    ch.Send(Ev(TranscribeSubmit, SubmitMessage));
    var taskId := env.submit(audioUrl.value);
    if taskId.Err? {
      ch.Send(Ev(Error, taskId.message));
      ch.Close();
      return;
    }
    ch.Send(Ev(TranscribePoll, PollMessage));
    var polled := Polled(info, env.poll(taskId.value), env);
    assert Recognition(bvid, info, env) == [Ev(TranscribeSubmit, SubmitMessage)] + ([Ev(TranscribePoll, PollMessage)] + polled);
    Poll(info, env.poll(taskId.value), env, ch);
    Append3(old(ch.events), [Ev(TranscribeSubmit, SubmitMessage)], [Ev(TranscribePoll, PollMessage)], polled);
  }

  /** The progress reports of the polling, then its outcome. */
  method Poll(info: Bilibili.VideoInfo, run: Transcribe.PollRun, env: Env, ch: EventChannel)
    requires !ch.closed
    modifies ch
    ensures ch.closed
    ensures ch.events == old(ch.events) + Polled(info, run, env)
  {
    ReportProgress(run.ticks, ch);
    if run.outcome.Err? {
      ch.Send(Ev(Error, run.outcome.message));
      ch.Close();
    } else {
      var text := run.outcome.value;
      ch.Send(Ev(TranscribeDone, TranscribeDoneMessage(|text|)));
      SummarizeAndFinish(info, text, FromAsr, env, ch);
    }
  }

  /** The summary request, then `done` or `error`, then the close. */
  method SummarizeAndFinish(info: Bilibili.VideoInfo, text: string, source: Source, env: Env, ch: EventChannel)
    requires !ch.closed
    modifies ch
    ensures ch.closed
    ensures ch.events == old(ch.events) + SummaryStage(info, text, source, env)
  {
    ch.Send(Ev(Summarizing, SummarizeMessage));
    var summary := env.summarize(text, info.title, info.duration);
    if summary.Err? {
      ch.Send(Ev(Error, summary.message));
    } else {
      ch.Send(DoneEvent(info, summary.value, source, text));
    }
    ch.Close();
  }

  // ---------------------------------------------------------------------------
  // Admission
  // ---------------------------------------------------------------------------

  const UnknownClient := "unknown"
  const MalformedBodyMessage := "请求体格式错误"
  const MissingUrlMessage := "请提供视频链接"

  /** The key the rate limit counts under: the first entry of
      `x-forwarded-for`, trimmed, when that is not empty; otherwise a
      non-empty `x-real-ip`; otherwise "unknown". */
  function ClientKey(forwardedFor: Option<string>, realIp: Option<string>): (key: string)
    ensures key != ""
    ensures forwardedFor.Some? && Trim(Split(forwardedFor.value, ",")[0]) != "" ==>
      key == Trim(Split(forwardedFor.value, ",")[0])
    ensures (forwardedFor.None? || Trim(Split(forwardedFor.value, ",")[0]) == "") ==>
      key == if realIp.Some? && realIp.value != "" then realIp.value else UnknownClient
  {
    var forwarded := if forwardedFor.Some? then Trim(Split(forwardedFor.value, ",")[0]) else "";
    if forwarded != "" then forwarded
    else if realIp.Some? && realIp.value != "" then realIp.value
    else UnknownClient
  }

  /** Behind proxies the first hop counts: for `client, proxy...` the
      key is the trimmed client address, whatever follows and whatever
      `x-real-ip` says. */
  lemma FirstHopCounts(client: string, proxies: string, realIp: Option<string>)
    requires ',' !in client && Trim(client) != ""
    ensures ClientKey(Some(client + "," + proxies), realIp) == Trim(client)
  {
    assert forall i :: 0 <= i < |client| ==> client[i] != ","[0];
    SplitHead(client, ",", proxies);
  }

  /** A header without a comma is the key itself, trimmed. */
  lemma SingleHopCounts(client: string, realIp: Option<string>)
    requires ',' !in client && Trim(client) != ""
    ensures ClientKey(Some(client), realIp) == Trim(client)
  {
    NoCharNoText(client, ",");
    SplitNone(client, ",");
  }

  /** The `url` member of a parsed body: a string, absent or `null`, or
      some other JSON value. */
  datatype UrlField = UrlString(s: string) | UrlMissing | UrlOther

  /** The request body: not JSON, the JSON `null`, or any other JSON value
      (a value that is not an object has no `url` member). */
  datatype RequestBody = Unparsable | NullBody | Body(url: UrlField)

  /** The handler's answer before any event is sent: a JSON error with its
      status, or the event stream with the remaining allowance. */
  datatype Admitted =
    | Refused(status: int, error: Option<string>)
    | Accepted(inputUrl: string, remaining: int)

  /** The two JSON errors with their statuses, in the order they are
      checked, and the accepted trimmed link. `Err` is the `TypeError`
      reading `url` from `null` or calling `trim` on a value that is not a
      string; it escapes the handler. */
  function Admission(rate: RateLimit.RateLimitResult, body: RequestBody): (r: Result<Admitted>)
    ensures !rate.allowed ==> r == Ok(Refused(429, rate.message))
    ensures rate.allowed && body.Unparsable? ==> r == Ok(Refused(400, Some(MalformedBodyMessage)))
    ensures r.Err? <==> rate.allowed && (body.NullBody? || (body.Body? && body.url.UrlOther?))
    ensures r.Ok? && r.value.Accepted? <==>
      rate.allowed && body.Body? && body.url.UrlString? && Trim(body.url.s) != ""
    ensures r.Ok? && r.value.Accepted? ==>
      && r.value.inputUrl == Trim(body.url.s)
      && r.value.remaining == rate.remaining
    ensures r.Ok? && r.value.Refused? && rate.allowed && !body.Unparsable? ==>
      r.value == Refused(400, Some(MissingUrlMessage))
  {
    if !rate.allowed then Ok(Refused(429, rate.message))
    else match body
      case Unparsable => Ok(Refused(400, Some(MalformedBodyMessage)))
      case NullBody => Err("TypeError: Cannot read properties of null (reading 'url')")
      case Body(UrlOther) => Err("TypeError: body.url?.trim is not a function")
      case Body(UrlMissing) => Ok(Refused(400, Some(MissingUrlMessage)))
      case Body(UrlString(u)) =>
        if Trim(u) == "" then Ok(Refused(400, Some(MissingUrlMessage))) else Ok(Accepted(Trim(u), rate.remaining))
  }

  /** The response headers of the event stream. */
  function StreamHeaders(remaining: int): seq<(string, string)> {
    [("Content-Type", "text/event-stream"), ("Cache-Control", "no-cache, no-transform"),
     ("Connection", "keep-alive"), ("X-RateLimit-Remaining", IntToDecimal(remaining))]
  }

  /** What the handler returns: a JSON error, or the stream's headers and
      the channel the pipeline fills. */
  datatype Reply = JsonError(status: int, error: Option<string>) | Stream(headers: seq<(string, string)>)

  /** `POST`: count the request against its client key (sweeping at
      `sweepNow`, deciding at `now`), then validate the body; an accepted
      link gets the event stream, which `processVideo` fills and closes.
      Every request is counted, including those then refused for their body. */
  method Post(governor: RateLimit.RateGovernor, forwardedFor: Option<string>, realIp: Option<string>,
              sweepNow: int, now: int, body: RequestBody, env: Env)
    returns (reply: Result<Reply>, ch: EventChannel?)
    requires governor.Valid()
    modifies governor
    ensures governor.Valid()
    ensures governor.lastCleanup
      == if RateLimit.SweepDue(old(governor.lastCleanup), sweepNow) then sweepNow else old(governor.lastCleanup)
    ensures var key := ClientKey(forwardedFor, realIp);
      var swept := if RateLimit.SweepDue(old(governor.lastCleanup), sweepNow)
                   then RateLimit.Swept(old(governor.records), sweepNow) else old(governor.records);
      var admitted := Admission(RateLimit.Outcome(RateLimit.Lookup(swept, key), now), body);
      && governor.records == swept[key := RateLimit.NextRecord(RateLimit.Lookup(swept, key), now)]
      && (admitted.Err? ==> reply == Err(admitted.message) && ch == null)
      && (admitted.Ok? && admitted.value.Refused? ==>
            reply == Ok(JsonError(admitted.value.status, admitted.value.error)) && ch == null)
      && (admitted.Ok? && admitted.value.Accepted? ==>
            && reply == Ok(Stream(StreamHeaders(admitted.value.remaining)))
            && ch != null && fresh(ch) && ch.closed
            && ch.events == Run(admitted.value.inputUrl, env))
  {
    var key := ClientKey(forwardedFor, realIp);
    var rate := governor.CheckRateLimit(key, sweepNow, now);
    var admitted := Admission(rate, body);
    ch := null;
    match admitted
    case Err(e) =>
      reply := Err(e);
    case Ok(Refused(status, error)) =>
      reply := Ok(JsonError(status, error));
    case Ok(Accepted(inputUrl, remaining)) =>
      ch := new EventChannel();
      ProcessVideo(inputUrl, env, ch);
      reply := Ok(Stream(StreamHeaders(remaining)));
  }

  lemma Append3<T>(a: seq<T>, b: seq<T>, c: seq<T>, d: seq<T>)
    ensures a + b + c + d == a + (b + (c + d))
  {
  }
}
