/** Speech recognition through DashScope's asynchronous file transcription:
    submitting the downloaded audio, polling the task at most 90 times, and
    extracting the text from the result document. Every HTTP exchange is an
    input; the 3-second waits are left out. */
module Transcribe {
  import opened Wrappers
  import opened JsString
  import opened JsNumber
  import opened Primitives

  const MissingKeyMessage := "未配置 DASHSCOPE_API_KEY 环境变量，请在 .env.local 中设置千问百炼平台 API Key"

  /** `getApiKey`: the configured key; an absent or empty one throws. */
  function GetApiKey(env: Option<string>): (r: Result<string>)
    ensures r.Ok? <==> env.Some? && env.value != ""
    ensures r.Err? ==> r.message == MissingKeyMessage
  {
    if env.Some? && env.value != "" then Ok(env.value) else Err(MissingKeyMessage)
  }

  // ---------------------------------------------------------------------------
  // Submission
  // ---------------------------------------------------------------------------

  const MaxAudioBytes := 200 * MiB

  /** What the audio download from the platform's CDN produced. */
  datatype CdnResponse =
    | CdnThrew(error: string)
    | Cdn(status: int, statusText: string, contentLength: Option<string>)

  /** The JSON body of an accepted submission. */
  datatype SubmitBody = SubmitBody(message: Option<string>, taskId: Option<string>, outputMessage: Option<string>, json: string)

  /** What the upload produced: the thrown error, or the status, the body as
      text (read when not OK) and as JSON (read when OK). */
  datatype UploadResponse =
    | UploadThrew(error: string)
    | Upload(status: int, text: string, body: SubmitBody)

  /** The declared length exceeds 200 MiB; a length `parseInt` cannot read is NaN and passes. */
  predicate DeclaredTooLarge(contentLength: Option<string>) {
    contentLength.Some? && contentLength.value != ""
    && ParseInt(contentLength.value).Some? && ParseInt(contentLength.value).value > MaxAudioBytes
  }

  /** The CDN gate: an OK download whose declared size is within the limit. */
  predicate CdnPasses(cdn: CdnResponse) {
    cdn.Cdn? && IsOk(cdn.status) && !DeclaredTooLarge(cdn.contentLength)
  }

  /** `submitTranscription`: the task id of an accepted upload. The CDN gate
      comes first, then the key, then the upload (`upload` is only consulted
      once both have passed). */
  function SubmitTranscription(keyEnv: Option<string>, cdn: CdnResponse, upload: UploadResponse): (r: Result<string>)
    ensures r.Ok? <==>
      && CdnPasses(cdn) && GetApiKey(keyEnv).Ok? && upload.Upload? && IsOk(upload.status)
      && upload.body.taskId.Some? && upload.body.taskId.value != ""
    ensures r.Ok? ==> r.value == upload.body.taskId.value
    ensures cdn.Cdn? && !IsOk(cdn.status) ==>
      r == Err("从 B站 CDN 下载音频失败 (HTTP " + IntToDecimal(cdn.status) + "): " + cdn.statusText)
    ensures CdnPasses(cdn) && GetApiKey(keyEnv).Err? ==> r == Err(MissingKeyMessage)
  {
    match cdn
    case CdnThrew(e) => Err(e)
    case Cdn(status, statusText, contentLength) =>
      if !IsOk(status) then
        Err("从 B站 CDN 下载音频失败 (HTTP " + IntToDecimal(status) + "): " + statusText)
      else if DeclaredTooLarge(contentLength) then
        Err("音频文件过大: " + MiBToFixed(ParseInt(contentLength.value).value, 2) + "MB (最大 200MB)")
      else match GetApiKey(keyEnv)
        case Err(e) => Err(e)
        case Ok(_) =>
          match upload
          case UploadThrew(e) => Err(e)
          case Upload(uploadStatus, text, body) =>
            if !IsOk(uploadStatus) then
              Err("提交语音识别任务失败 (HTTP " + IntToDecimal(uploadStatus) + "): " + text)
            else if body.taskId.Some? && body.taskId.value != "" then Ok(body.taskId.value)
            else Err("提交语音识别任务失败: " + OrElse(body.message, OrElse(body.outputMessage, body.json)))
  }

  /** A download that fails the CDN gate ends the submission before any
      upload: the outcome is the same whatever the upload would have been. */
  lemma CdnGateBeforeUpload(keyEnv: Option<string>, cdn: CdnResponse, u1: UploadResponse, u2: UploadResponse)
    requires !CdnPasses(cdn)
    ensures SubmitTranscription(keyEnv, cdn, u1) == SubmitTranscription(keyEnv, cdn, u2)
    ensures SubmitTranscription(keyEnv, cdn, u1).Err?
  {
  }

  /** The declared-size gate compares the byte count itself: exactly 200 MiB
      passes and one byte more is refused. */
  lemma SizeGateBoundary()
    ensures !DeclaredTooLarge(Some(NatToDecimal(MaxAudioBytes)))
    ensures DeclaredTooLarge(Some(NatToDecimal(MaxAudioBytes + 1)))
  {
    ParseIntOfDecimal(MaxAudioBytes);
    ParseIntOfDecimal(MaxAudioBytes + 1);
  }

  // ---------------------------------------------------------------------------
  // Result extraction
  // ---------------------------------------------------------------------------

  /** One channel of the result document; absent fields are `None`. */
  datatype Channel = Channel(text: Option<string>, sentences: Option<seq<Option<string>>>)

  const NoTranscriptsMessage := "语音识别返回了空结果，可能是音频中没有可识别的语音内容"
  const EmptyTextMessage := "语音识别结果为空文本"

  /** `sentences.map(s => s.text || "").join("")`. */
  function SentenceText(sentences: seq<Option<string>>): string {
    if sentences == [] then "" else OrElse(sentences[0], "") + SentenceText(sentences[1..])
  }

  /** A channel's text: its own non-empty `text`, else its sentences run
      together, else "". */
  function ChannelText(t: Channel): (r: string)
    ensures t.text.Some? && t.text.value != "" ==> r == t.text.value
    ensures !(t.text.Some? && t.text.value != "") && t.sentences.Some? ==> r == SentenceText(t.sentences.value)
    ensures !(t.text.Some? && t.text.value != "") && t.sentences.None? ==> r == ""
  {
    if t.text.Some? && t.text.value != "" then t.text.value
    else if t.sentences.Some? then SentenceText(t.sentences.value)
    else ""
  }

  function ChannelTexts(ts: seq<Channel>): (r: seq<string>)
    ensures |r| == |ts| && forall k :: 0 <= k < |ts| ==> r[k] == ChannelText(ts[k])
  {
    seq(|ts|, k requires 0 <= k < |ts| => ChannelText(ts[k]))
  }

  /** `extractTranscript`: the channel texts joined by line feeds, trimmed.
      A missing or empty list and an all-blank text are two distinct errors. */
  function ExtractTranscript(transcripts: Option<seq<Channel>>): (r: Result<string>)
    ensures (transcripts.None? || |transcripts.value| == 0) <==> r == Err(NoTranscriptsMessage)
    ensures r.Err? ==> r.message == NoTranscriptsMessage || r.message == EmptyTextMessage
    ensures r.Ok? ==> r.value == Trim(Join(ChannelTexts(transcripts.value), "\n")) && r.value != ""
  {
    if transcripts.None? || |transcripts.value| == 0 then Err(NoTranscriptsMessage)
    else
      var text := Trim(Join(ChannelTexts(transcripts.value), "\n"));
      if text == "" then Err(EmptyTextMessage) else Ok(text)
  }

  /** Joined by line feeds, texts are all white space exactly when each is. */
  lemma {:induction false} JoinAllSpace(parts: seq<string>)
    ensures AllSpace(Join(parts, "\n")) <==> forall k :: 0 <= k < |parts| ==> AllSpace(parts[k])
    decreases |parts|
  {
    if |parts| > 1 {
      JoinAllSpace(parts[1..]);
      var rest := Join(parts[1..], "\n");
      var whole := parts[0] + "\n" + rest;
      assert Join(parts, "\n") == whole;
      if AllSpace(whole) {
        assert AllSpace(parts[0]) by {
          forall i | 0 <= i < |parts[0]| ensures IsSpace(parts[0][i]) {
            assert whole[i] == parts[0][i];
          }
        }
        assert AllSpace(rest) by {
          forall i | 0 <= i < |rest| ensures IsSpace(rest[i]) {
            assert whole[|parts[0]| + 1 + i] == rest[i];
          }
        }
        forall k | 0 <= k < |parts| ensures AllSpace(parts[k]) {
          if k > 0 {
            assert parts[k] == parts[1..][k - 1];
          }
        }
      }
      if forall k :: 0 <= k < |parts| ==> AllSpace(parts[k]) {
        assert forall k :: 0 <= k < |parts[1..]| ==> AllSpace(parts[1..][k]) by {
          forall k | 0 <= k < |parts[1..]| ensures AllSpace(parts[1..][k]) {
            assert parts[1..][k] == parts[k + 1];
          }
        }
        assert AllSpace(parts[0]);
        forall i | 0 <= i < |whole| ensures IsSpace(whole[i]) {
          if i < |parts[0]| {
            assert whole[i] == parts[0][i];
          } else if i > |parts[0]| {
            assert whole[i] == rest[i - |parts[0]| - 1];
          }
        }
      }
    }
  }

  /** Extraction succeeds exactly when the list is non-empty and some channel
      contributes text that is not all white space; the text it returns has
      no white space at either end. */
  lemma ExtractSucceedsIff(transcripts: Option<seq<Channel>>)
    ensures ExtractTranscript(transcripts).Ok? <==>
      transcripts.Some? && exists k :: 0 <= k < |transcripts.value| && !AllSpace(ChannelText(transcripts.value[k]))
    ensures ExtractTranscript(transcripts).Ok? ==>
      var r := ExtractTranscript(transcripts).value;
      !IsSpace(r[0]) && !IsSpace(r[|r| - 1])
  {
    if transcripts.Some? && |transcripts.value| > 0 {
      var ts := transcripts.value;
      var texts := ChannelTexts(ts);
      var joined := Join(texts, "\n");
      assert ExtractTranscript(transcripts).Ok? <==> !AllSpace(joined) by {
        TrimEmptyIff(joined);
      }
      assert AllSpace(joined) <==> forall k :: 0 <= k < |ts| ==> AllSpace(ChannelText(ts[k])) by {
        JoinAllSpace(texts);
      }
      TrimShape(joined);
    }
  }

  // ---------------------------------------------------------------------------
  // Polling
  // ---------------------------------------------------------------------------

  const MaxAttempts := 90
  const IntervalSeconds := 3
  const TimeoutMessage := "语音识别超时（超过 270 秒），请尝试更短的视频"
  const NoResultUrlMessage := "语音识别任务完成但未返回结果 URL"

  /** `output.task_status`, compared with "SUCCEEDED" and "FAILED"; any
      other or missing value is `Running`. */
  datatype TaskStatus = Succeeded | Failed | Running

  /** What one status request produced: a thrown error, a non-OK status, or
      the task's status, first result address and message. */
  datatype PollResponse =
    | PollThrew(error: string)
    | PollNotOk(status: int)
    | Poll(taskStatus: TaskStatus, resultUrl: Option<string>, message: Option<string>)

  /** What fetching the result document produced. */
  datatype ResultResponse =
    | ResultThrew(error: string)
    | ResultDoc(transcripts: Option<seq<Channel>>)

  const FailedPrefix := "语音识别失败: "
  const FailedSuffix := "。可能原因：音频 URL 无法访问或音频格式不支持。"

  function FailedMessage(message: Option<string>): string {
    FailedPrefix + OrElse(message, "未知错误") + FailedSuffix
  }

  /** A FAILED task's error shows the service's message, or 未知错误 when it
      is absent or empty, between a fixed prefix and suffix, so two FAILED
      errors agree exactly when the messages shown agree. */
  lemma FailedMessageCarries(message: Option<string>, other: Option<string>)
    ensures var m := FailedMessage(message);
      var shown := if message.Some? && message.value != "" then message.value else "未知错误";
      |m| == |FailedPrefix| + |shown| + |FailedSuffix|
      && m[..|FailedPrefix|] == FailedPrefix
      && m[|FailedPrefix|..|m| - |FailedSuffix|] == shown
      && m[|m| - |FailedSuffix|..] == FailedSuffix
    ensures FailedMessage(message) == FailedMessage(other) <==> OrElse(message, "未知错误") == OrElse(other, "未知错误")
  {
    var shown := OrElse(message, "未知错误");
    var m := FailedMessage(message);
    assert m == FailedPrefix + shown + FailedSuffix;
    assert m[..|FailedPrefix|] == FailedPrefix;
    assert m[|FailedPrefix|..|m| - |FailedSuffix|] == shown;
    assert m[|m| - |FailedSuffix|..] == FailedSuffix;
    var m' := FailedMessage(other);
    if m == m' {
      assert m'[|FailedPrefix|..|m'| - |FailedSuffix|] == OrElse(other, "未知错误");
    }
  }

  /** The progress text reported after attempt `i`. */
  function ProgressMessage(i: nat): string {
    "语音识别进行中... 已等待 " + NatToDecimal((i + 1) * IntervalSeconds) + " 秒"
  }

  /** A status response that neither finishes nor fails the task. */
  predicate Pending(p: PollResponse) {
    p.Poll? && p.taskStatus == Running
  }

  /** A status response that ends the polling. */
  predicate Final(p: PollResponse) {
    p.PollThrew? || (p.Poll? && !Pending(p))
  }

  predicate IsTick(i: nat) {
    i > 0 && i % 4 == 0
  }

  /** The attempts after which progress was reported, what the poll returned
      or threw, and how many status requests it made. */
  datatype PollRun = PollRun(ticks: seq<nat>, outcome: Result<string>, checks: nat)

  /** The outcome of a final response at attempt `i`. */
  function Finish(p: PollResponse, fetchResult: string -> ResultResponse): (r: Result<string>)
    requires Final(p)
    ensures p.PollThrew? ==> r == Err(p.error)
    ensures p.Poll? && p.taskStatus == Failed ==> r == Err(FailedMessage(p.message))
    ensures p.Poll? && p.taskStatus == Succeeded && (p.resultUrl.None? || p.resultUrl.value == "") ==> r == Err(NoResultUrlMessage)
    ensures p.Poll? && p.taskStatus == Succeeded && p.resultUrl.Some? && p.resultUrl.value != "" ==>
      && (fetchResult(p.resultUrl.value).ResultThrew? ==> r == Err(fetchResult(p.resultUrl.value).error))
      && (fetchResult(p.resultUrl.value).ResultDoc? ==> r == ExtractTranscript(fetchResult(p.resultUrl.value).transcripts))
    ensures r.Ok? <==> (p.Poll? && p.taskStatus == Succeeded && p.resultUrl.Some? && p.resultUrl.value != ""
                        && fetchResult(p.resultUrl.value).ResultDoc?
                        && ExtractTranscript(fetchResult(p.resultUrl.value).transcripts).Ok?)
    ensures r.Ok? ==> r.value != ""
  {
    if p.PollThrew? then Err(p.error)
    else if p.taskStatus == Succeeded then
      if p.resultUrl.None? || p.resultUrl.value == "" then Err(NoResultUrlMessage)
      else match fetchResult(p.resultUrl.value)
        case ResultThrew(e) => Err(e)
        case ResultDoc(transcripts) => ExtractTranscript(transcripts)
    else Err(FailedMessage(p.message))
  }

  /** The polling from attempt `i` on: `polls[i]` is what the `i`-th status
      request gets and `fetchResult` what each result address serves. */
  function PollFrom(keyEnv: Option<string>, polls: seq<PollResponse>, fetchResult: string -> ResultResponse, i: nat): (r: PollRun)
    requires i <= MaxAttempts <= |polls|
    ensures r.checks <= MaxAttempts - i
    decreases MaxAttempts - i
  {
    if i == MaxAttempts then PollRun([], Err(TimeoutMessage), 0)
    else if GetApiKey(keyEnv).Err? then PollRun([], Err(MissingKeyMessage), 0)
    else if Final(polls[i]) then PollRun([], Finish(polls[i], fetchResult), 1)
    else
      var rest := PollFrom(keyEnv, polls, fetchResult, i + 1);
      PollRun(StepTick(polls[i], i) + rest.ticks, rest.outcome, rest.checks + 1)
  }

  /** The progress report a still-pending attempt `i` makes, if any. */
  function StepTick(p: PollResponse, i: nat): seq<nat> {
    if p.Poll? && IsTick(i) then [i] else []
  }

  /** One attempt that neither ends the poll nor lacks the key. */
  lemma PollStep(keyEnv: Option<string>, polls: seq<PollResponse>, fetchResult: string -> ResultResponse, i: nat)
    requires i < MaxAttempts <= |polls| && GetApiKey(keyEnv).Ok? && !Final(polls[i])
    ensures var rest := PollFrom(keyEnv, polls, fetchResult, i + 1);
      PollFrom(keyEnv, polls, fetchResult, i) == PollRun(StepTick(polls[i], i) + rest.ticks, rest.outcome, rest.checks + 1)
  {
  }

  predicate Increasing(t: seq<nat>) {
    forall k, l :: 0 <= k < l < |t| ==> t[k] < t[l]
  }

  /** Progress reports at attempts from `lo` on, each a pending attempt
      `i > 0` with `i % 4 == 0`, in increasing order. */
  predicate TicksFrom(t: seq<nat>, polls: seq<PollResponse>, lo: nat)
    requires MaxAttempts <= |polls|
  {
    && (forall k :: 0 <= k < |t| ==> lo <= t[k] < MaxAttempts && IsTick(t[k]) && Pending(polls[t[k]]))
    && Increasing(t)
  }

  /** Progress is reported only after pending attempts `i > 0` with
      `i % 4 == 0`, in increasing attempt order. */
  lemma {:induction false} PollTicksShape(keyEnv: Option<string>, polls: seq<PollResponse>, fetchResult: string -> ResultResponse, i: nat)
    requires i <= MaxAttempts <= |polls|
    ensures TicksFrom(PollFrom(keyEnv, polls, fetchResult, i).ticks, polls, i)
    decreases MaxAttempts - i
  {
    if i < MaxAttempts && GetApiKey(keyEnv).Ok? && !Final(polls[i]) {
      PollTicksShape(keyEnv, polls, fetchResult, i + 1);
      PollStep(keyEnv, polls, fetchResult, i);
      var rest := PollFrom(keyEnv, polls, fetchResult, i + 1).ticks;
      if StepTick(polls[i], i) != [] {
        TickCons(i, rest, polls);
      } else {
        TickSkip(i, rest, polls);
      }
    }
  }

  lemma TickCons(i: nat, rest: seq<nat>, polls: seq<PollResponse>)
    requires i < MaxAttempts <= |polls| && TicksFrom(rest, polls, i + 1)
    requires polls[i].Poll? && Pending(polls[i]) && IsTick(i)
    ensures TicksFrom([i] + rest, polls, i) && StepTick(polls[i], i) + rest == [i] + rest
  {
    var t := [i] + rest;
    forall k | 0 < k < |t| ensures t[k] == rest[k - 1] && i < t[k] {
    }
  }

  lemma TickSkip(i: nat, rest: seq<nat>, polls: seq<PollResponse>)
    requires i < MaxAttempts <= |polls| && TicksFrom(rest, polls, i + 1)
    requires StepTick(polls[i], i) == []
    ensures TicksFrom(StepTick(polls[i], i) + rest, polls, i)
  {
    assert StepTick(polls[i], i) + rest == rest;
  }

  /** The run made of the attempts already done (`ticks`, `checks`) followed
      by the run from attempt `i` on. */
  function Resume(keyEnv: Option<string>, polls: seq<PollResponse>, fetchResult: string -> ResultResponse,
                  ticks: seq<nat>, checks: nat, i: nat): PollRun
    requires i <= MaxAttempts <= |polls|
  {
    var rest := PollFrom(keyEnv, polls, fetchResult, i);
    PollRun(ticks + rest.ticks, rest.outcome, checks + rest.checks)
  }

  /** Leaving at a response that ends the poll. */
  lemma ResumeFinal(keyEnv: Option<string>, polls: seq<PollResponse>, fetchResult: string -> ResultResponse,
                    ticks: seq<nat>, checks: nat, i: nat)
    requires i < MaxAttempts <= |polls| && GetApiKey(keyEnv).Ok? && Final(polls[i])
    ensures Resume(keyEnv, polls, fetchResult, ticks, checks, i) == PollRun(ticks, Finish(polls[i], fetchResult), checks + 1)
  {
    assert ticks + [] == ticks;
  }

  /** Leaving because the key is missing. */
  lemma ResumeNoKey(keyEnv: Option<string>, polls: seq<PollResponse>, fetchResult: string -> ResultResponse,
                    ticks: seq<nat>, checks: nat, i: nat)
    requires i < MaxAttempts <= |polls| && GetApiKey(keyEnv).Err?
    ensures Resume(keyEnv, polls, fetchResult, ticks, checks, i) == PollRun(ticks, Err(MissingKeyMessage), checks)
  {
    assert ticks + [] == ticks;
  }

  /** Moving on past an attempt that does not end the poll. */
  lemma ResumeNext(keyEnv: Option<string>, polls: seq<PollResponse>, fetchResult: string -> ResultResponse,
                   ticks: seq<nat>, checks: nat, i: nat)
    requires i < MaxAttempts <= |polls| && GetApiKey(keyEnv).Ok? && !Final(polls[i])
    ensures Resume(keyEnv, polls, fetchResult, ticks, checks, i)
      == Resume(keyEnv, polls, fetchResult, ticks + StepTick(polls[i], i), checks + 1, i + 1)
  {
    PollStep(keyEnv, polls, fetchResult, i);
    var rest := PollFrom(keyEnv, polls, fetchResult, i + 1);
    assert ticks + (StepTick(polls[i], i) + rest.ticks) == (ticks + StepTick(polls[i], i)) + rest.ticks;
  }

  /** Leaving after the last attempt. */
  lemma ResumeEnd(keyEnv: Option<string>, polls: seq<PollResponse>, fetchResult: string -> ResultResponse,
                  ticks: seq<nat>, checks: nat)
    requires MaxAttempts <= |polls|
    ensures Resume(keyEnv, polls, fetchResult, ticks, checks, MaxAttempts) == PollRun(ticks, Err(TimeoutMessage), checks)
  {
    assert ticks + [] == ticks;
  }

  /** The attempt's handling of a response that ends the poll: a thrown
      error propagates; SUCCEEDED needs a result address, whose document is
      fetched and extracted; FAILED throws with the service's message. */
  method FinishAttempt(res: PollResponse, fetchResult: string -> ResultResponse) returns (outcome: Result<string>)
    requires Final(res)
    ensures outcome == Finish(res, fetchResult)
  {
    if res.PollThrew? {
      return Err(res.error);
    }
    if res.taskStatus == Succeeded {
      if res.resultUrl.None? || res.resultUrl.value == "" {
        return Err(NoResultUrlMessage);
      }
      var doc := fetchResult(res.resultUrl.value);
      if doc.ResultThrew? {
        return Err(doc.error);
      }
      return ExtractTranscript(doc.transcripts);
    }
    return Err(FailedMessage(res.message));
  }

  /** One attempt of `pollTranscription`: read the key and request the
      status. It either ends the poll (`done`, with the outcome and the
      counts so far) or leaves the counts with which the next attempt starts. */
  method Attempt(keyEnv: Option<string>, polls: seq<PollResponse>, fetchResult: string -> ResultResponse,
                 ticks: seq<nat>, checks: nat, i: nat)
    returns (done: bool, ticks': seq<nat>, checks': nat, outcome: Result<string>)
    requires i < MaxAttempts <= |polls|
    ensures done ==> PollRun(ticks', outcome, checks') == Resume(keyEnv, polls, fetchResult, ticks, checks, i)
    ensures !done ==> Resume(keyEnv, polls, fetchResult, ticks', checks', i + 1) == Resume(keyEnv, polls, fetchResult, ticks, checks, i)
  {
    var key := GetApiKey(keyEnv);
    if key.Err? {
      ResumeNoKey(keyEnv, polls, fetchResult, ticks, checks, i);
      return true, ticks, checks, Err(key.message);
    }
    var res := polls[i];
    if Final(res) {
      ResumeFinal(keyEnv, polls, fetchResult, ticks, checks, i);
      outcome := FinishAttempt(res, fetchResult);
      return true, ticks, checks + 1, outcome;
    }
    ResumeNext(keyEnv, polls, fetchResult, ticks, checks, i);
    done, ticks', checks', outcome := false, ticks, checks + 1, Err(TimeoutMessage);
    if res.PollNotOk? {
      return;
    }
    if i > 0 && i % 4 == 0 {
      ticks' := ticks + [i];
    } else {
      assert ticks + StepTick(res, i) == ticks;
    }
  }

  /** `pollTranscription`: for each of at most 90 attempts, read the key and
      request the status; a non-OK status moves on silently, SUCCEEDED returns
      the extracted transcript, FAILED throws, and a pending status reports
      progress on every fourth attempt after the first. `ticks` lists the
      attempts at which `onProgress` was called, in order. */
  method PollTranscription(keyEnv: Option<string>, polls: seq<PollResponse>, fetchResult: string -> ResultResponse)
    returns (ticks: seq<nat>, outcome: Result<string>, checks: nat)
    requires |polls| >= MaxAttempts
    ensures PollRun(ticks, outcome, checks) == PollFrom(keyEnv, polls, fetchResult, 0)
  {
    ticks := [];
    checks := 0;
    var i := 0;
    assert Resume(keyEnv, polls, fetchResult, ticks, checks, 0) == PollFrom(keyEnv, polls, fetchResult, 0);
    while i < MaxAttempts
      invariant 0 <= i <= MaxAttempts
      invariant Resume(keyEnv, polls, fetchResult, ticks, checks, i) == PollFrom(keyEnv, polls, fetchResult, 0)
      decreases MaxAttempts - i
    {
      var done;
      done, ticks, checks, outcome := Attempt(keyEnv, polls, fetchResult, ticks, checks, i);
      if done {
        return;
      }
      i := i + 1;
    }
    ResumeEnd(keyEnv, polls, fetchResult, ticks, checks);
    outcome := Err(TimeoutMessage);
  }

  /** Progress reports are at most 22 (attempts 4, 8, ..., 88), each later
      than the last, so the reported waiting time strictly increases. */
  lemma {:induction false} TicksBound(ticks: seq<nat>)
    requires forall k :: 0 <= k < |ticks| ==> ticks[k] < MaxAttempts && IsTick(ticks[k])
    requires Increasing(ticks)
    ensures forall k :: 0 <= k < |ticks| ==> ticks[k] >= 4 * (k + 1)
    ensures |ticks| <= 22
    decreases |ticks|
  {
    if |ticks| > 0 {
      var init := ticks[..|ticks| - 1];
      TicksBound(init);
      forall k | 0 <= k < |ticks| ensures ticks[k] >= 4 * (k + 1) {
        if k < |ticks| - 1 {
          assert ticks[k] == init[k];
        } else if k > 0 {
          assert ticks[k - 1] == init[k - 1] >= 4 * k;
          assert ticks[k - 1] < ticks[k];
          assert ticks[k] % 4 == 0 && ticks[k - 1] % 4 == 0;
        }
      }
      assert ticks[|ticks| - 1] >= 4 * |ticks|;
    }
  }

  /** The whole poll makes at most 90 status requests and reports progress
      at most 22 times, only after pending attempts. */
  lemma PollBounds(keyEnv: Option<string>, polls: seq<PollResponse>, fetchResult: string -> ResultResponse)
    requires |polls| >= MaxAttempts
    ensures PollFrom(keyEnv, polls, fetchResult, 0).checks <= MaxAttempts
    ensures |PollFrom(keyEnv, polls, fetchResult, 0).ticks| <= 22
    ensures TicksFrom(PollFrom(keyEnv, polls, fetchResult, 0).ticks, polls, 0)
  {
    PollTicksShape(keyEnv, polls, fetchResult, 0);
    TicksBound(PollFrom(keyEnv, polls, fetchResult, 0).ticks);
  }

  /** With the key configured and no response from attempt `i` on ending the
      poll, every remaining attempt makes its request and the timeout is thrown. */
  lemma {:induction false} NoFinalTimesOut(keyEnv: Option<string>, polls: seq<PollResponse>, fetchResult: string -> ResultResponse, i: nat)
    requires i <= MaxAttempts <= |polls| && GetApiKey(keyEnv).Ok?
    requires forall j :: i <= j < MaxAttempts ==> !Final(polls[j])
    ensures PollFrom(keyEnv, polls, fetchResult, i).outcome == Err(TimeoutMessage)
    ensures PollFrom(keyEnv, polls, fetchResult, i).checks == MaxAttempts - i
    decreases MaxAttempts - i
  {
    if i < MaxAttempts {
      NoFinalTimesOut(keyEnv, polls, fetchResult, i + 1);
    }
  }

  /** With the key configured, an attempt `j` the poll reaches (no response
      from `i` up to `j` ends it) is reported exactly when its request
      answered a still-running task and `j > 0`, `j % 4 == 0`: every such
      attempt reports, and a non-OK status never does. */
  lemma {:induction false} TickExactlyWhenPending(keyEnv: Option<string>, polls: seq<PollResponse>, fetchResult: string -> ResultResponse, i: nat, j: nat)
    requires i <= j < MaxAttempts <= |polls| && GetApiKey(keyEnv).Ok?
    requires forall l :: i <= l <= j ==> !Final(polls[l])
    ensures j in PollFrom(keyEnv, polls, fetchResult, i).ticks <==> polls[j].Poll? && IsTick(j)
    decreases j - i
  {
    PollStep(keyEnv, polls, fetchResult, i);
    var rest := PollFrom(keyEnv, polls, fetchResult, i + 1).ticks;
    if i < j {
      TickExactlyWhenPending(keyEnv, polls, fetchResult, i + 1, j);
      assert j !in StepTick(polls[i], i);
    } else {
      PollTicksShape(keyEnv, polls, fetchResult, i + 1);
      assert j !in rest;
    }
  }

  /** With the key configured, the first response from attempt `i` on that
      ends the poll decides its outcome, after one request per attempt. */
  lemma {:induction false} FirstFinalDecides(keyEnv: Option<string>, polls: seq<PollResponse>, fetchResult: string -> ResultResponse, i: nat, j: nat)
    requires i <= j < MaxAttempts <= |polls| && GetApiKey(keyEnv).Ok?
    requires Final(polls[j]) && forall l :: i <= l < j ==> !Final(polls[l])
    ensures PollFrom(keyEnv, polls, fetchResult, i).outcome == Finish(polls[j], fetchResult)
    ensures PollFrom(keyEnv, polls, fetchResult, i).checks == j - i + 1
    decreases j - i
  {
    if i < j {
      FirstFinalDecides(keyEnv, polls, fetchResult, i + 1, j);
    }
  }

  /** Without a key the first attempt throws the configuration error before
      any status request. */
  lemma MissingKeyStopsPolling(keyEnv: Option<string>, polls: seq<PollResponse>, fetchResult: string -> ResultResponse)
    requires |polls| >= MaxAttempts && GetApiKey(keyEnv).Err?
    ensures PollFrom(keyEnv, polls, fetchResult, 0) == PollRun([], Err(MissingKeyMessage), 0)
  {
  }

  /** The timeout text differs from every FAILED text. */
  lemma TimeoutNotFailed(message: Option<string>)
    ensures TimeoutMessage != FailedMessage(message)
  {
    assert TimeoutMessage[5] != FailedMessage(message)[5];
  }
}
