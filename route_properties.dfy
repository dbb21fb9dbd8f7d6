/** What every run of the summary pipeline promises: the order of its
    steps, a single final event, the duration gate, the choice between
    captions and speech recognition, and what the final event carries. */
module RouteProperties {
  import opened Wrappers
  import opened JsString
  import Bilibili
  import Transcribe
  import Summarize
  import opened SummarizeRoute

  function Repeat(s: Step, n: nat): (r: seq<Step>)
    ensures |r| == n && forall k :: 0 <= k < n ==> r[k] == s
  {
    seq(n, k => s)
  }

  /** The steps of a run that reads captions, in order. */
  function CaptionPath(): seq<Step> {
    [Parse, Info, InfoDone, Subtitle, SubtitleDone, Summarizing, Done]
  }

  /** The steps of a run that recognises speech with `n` progress reports. */
  function AsrPath(n: nat): seq<Step> {
    [Parse, Info, InfoDone, Subtitle, Audio] + SubmitPath(n)
  }

  /** The steps from the submission of the recognition task on. */
  function SubmitPath(n: nat): seq<Step> {
    [TranscribeSubmit, TranscribePoll] + Repeat(TranscribeProgress, n) + [TranscribeDone, Summarizing, Done]
  }

  /** The events walk the steps of `path` (which holds no `error`) to its
      end, or stop part way with one `error` event: their steps are `path`
      or `path[..k] + [Error]` for some `k < |path|`. */
  predicate Walks(evs: seq<Event>, path: seq<Step>)
    decreases |evs|
  {
    && |evs| > 0 && |path| > 0
    && if |evs| == 1 then evs[0].step == Error || (|path| == 1 && evs[0].step == path[0])
       else evs[0].step == path[0] && path[0] != Error && Walks(evs[1..], path[1..])
  }

  lemma WalksCons(e: Event, rest: seq<Event>, path: seq<Step>)
    requires Walks(rest, path) && e.step != Error
    ensures Walks([e] + rest, [e.step] + path)
  {
    assert ([e] + rest)[1..] == rest;
    assert ([e.step] + path)[1..] == path;
  }

  lemma {:induction false} WalksPrefix(pre: seq<Event>, rest: seq<Event>, prePath: seq<Step>, path: seq<Step>)
    requires Walks(rest, path)
    requires |pre| == |prePath| && forall k :: 0 <= k < |pre| ==> pre[k].step == prePath[k] != Error
    ensures Walks(pre + rest, prePath + path)
    decreases |pre|
  {
    if pre != [] {
      WalksPrefix(pre[1..], rest, prePath[1..], path);
      WalksCons(pre[0], pre[1..] + rest, prePath[1..] + path);
      assert [pre[0]] + (pre[1..] + rest) == pre + rest;
      assert [pre[0].step] + (prePath[1..] + path) == prePath + path;
    } else {
      assert pre + rest == rest && prePath + path == path;
    }
  }

  lemma WalksError(e: Event, path: seq<Step>)
    requires |path| > 0 && e.step == Error
    ensures Walks([e], path)
  {
  }

  /** The number of progress reports the run's polling makes; 0 when it
      does not poll. */
  ghost function ProgressCount(input: string, env: Env): nat {
    match FindBvid(input, env)
    case None => 0
    case Some(bvid) => InfoProgress(bvid, env)
  }

  ghost function InfoProgress(bvid: string, env: Env): nat {
    match env.videoInfo(bvid)
    case Err(_) => 0
    case Ok(info) => RecognitionProgress(bvid, info, env)
  }

  ghost function RecognitionProgress(bvid: string, info: Bilibili.VideoInfo, env: Env): nat {
    match env.audioUrl(bvid, info.cid)
    case Err(_) => 0
    case Ok(u) =>
      match env.submit(u)
      case Err(_) => 0
      case Ok(task) => |env.poll(task).ticks|
  }

  lemma SummarySteps(info: Bilibili.VideoInfo, text: string, source: Source, env: Env)
    ensures Walks(SummaryStage(info, text, source, env), [Summarizing, Done])
  {
    var evs := SummaryStage(info, text, source, env);
    var last := evs[1..];
    assert Walks(last, [Done]);
    WalksCons(evs[0], last, [Done]);
    assert [evs[0]] + last == evs;
  }

  /** Progress reports are neither `error` nor the path's end. */
  lemma ProgressWalk(ticks: seq<nat>, rest: seq<Event>, tail: seq<Step>)
    requires Walks(rest, tail)
    ensures Walks(ProgressEvents(ticks) + rest, Repeat(TranscribeProgress, |ticks|) + tail)
  {
    WalksPrefix(ProgressEvents(ticks), rest, Repeat(TranscribeProgress, |ticks|), tail);
  }

  lemma PolledSteps(info: Bilibili.VideoInfo, run: Transcribe.PollRun, env: Env)
    ensures Walks(Polled(info, run, env), Repeat(TranscribeProgress, |run.ticks|) + [TranscribeDone, Summarizing, Done])
  {
    var tail := [TranscribeDone, Summarizing, Done];
    match run.outcome
    case Err(e) =>
      WalksError(Ev(Error, e), tail);
      ProgressWalk(run.ticks, [Ev(Error, e)], tail);
    case Ok(text) =>
      var summary := SummaryStage(info, text, FromAsr, env);
      SummarySteps(info, text, FromAsr, env);
      WalksCons(Ev(TranscribeDone, TranscribeDoneMessage(|text|)), summary, [Summarizing, Done]);
      ProgressWalk(run.ticks, [Ev(TranscribeDone, TranscribeDoneMessage(|text|))] + summary, tail);
  }

  lemma RecognitionSteps(bvid: string, info: Bilibili.VideoInfo, env: Env, n: nat)
    requires n == RecognitionProgress(bvid, info, env)
    ensures Walks(Recognition(bvid, info, env), SubmitPath(n))
  {
    var tail := Repeat(TranscribeProgress, n) + [TranscribeDone, Summarizing, Done];
    assert SubmitPath(n) == [TranscribeSubmit] + ([TranscribePoll] + tail);
    match env.audioUrl(bvid, info.cid)
    case Err(e) =>
      WalksError(Ev(Error, e), SubmitPath(n));
    case Ok(u) =>
      var submitted := Ev(TranscribeSubmit, SubmitMessage);
      match env.submit(u)
      case Err(e) =>
        WalksError(Ev(Error, e), [TranscribePoll] + tail);
        WalksCons(submitted, [Ev(Error, e)], [TranscribePoll] + tail);
      case Ok(task) =>
        var polled := Polled(info, env.poll(task), env);
        var inner := [Ev(TranscribePoll, PollMessage)] + polled;
        PolledSteps(info, env.poll(task), env);
        WalksCons(inner[0], polled, tail);
        WalksCons(submitted, inner, [TranscribePoll] + tail);
  }

  lemma TranscriptSteps(bvid: string, info: Bilibili.VideoInfo, env: Env, n: nat)
    requires n == RecognitionProgress(bvid, info, env)
    ensures UsesCaptions(bvid, info, env) ==> Walks(Transcript(bvid, info, env), [SubtitleDone, Summarizing, Done])
    ensures !UsesCaptions(bvid, info, env) ==> Walks(Transcript(bvid, info, env), [Audio] + SubmitPath(n))
  {
    if UsesCaptions(bvid, info, env) {
      var text := env.subtitles(bvid, info.cid).value;
      SummarySteps(info, text, FromSubtitle, env);
      WalksCons(Ev(SubtitleDone, SubtitleDoneMessage(|text|)), SummaryStage(info, text, FromSubtitle, env), [Summarizing, Done]);
    } else {
      RecognitionSteps(bvid, info, env, n);
      WalksCons(Ev(Audio, AudioMessage), Recognition(bvid, info, env), SubmitPath(n));
    }
  }

  /** The events after the identifier is known. */
  lemma AfterInfoSteps(bvid: string, env: Env, n: nat)
    requires n == InfoProgress(bvid, env)
    ensures Walks(AfterInfo(bvid, env), CaptionPath()[2..]) || Walks(AfterInfo(bvid, env), AsrPath(n)[2..])
  {
    var caption := [SubtitleDone, Summarizing, Done];
    var asr := [Audio] + SubmitPath(n);
    assert CaptionPath()[2..] == [InfoDone] + ([Subtitle] + caption);
    assert AsrPath(n)[2..] == [InfoDone] + ([Subtitle] + asr);
    match env.videoInfo(bvid)
    case Err(e) =>
      WalksError(Ev(Error, e), CaptionPath()[2..]);
    case Ok(info) =>
      var path := if UsesCaptions(bvid, info, env) then caption else asr;
      var gate := Gate(bvid, info, env);
      if info.duration > MaxDurationSeconds || info.duration < MinDurationSeconds {
        WalksError(gate[0], [Subtitle] + path);
      } else {
        TranscriptSteps(bvid, info, env, n);
        WalksCons(Ev(Subtitle, SubtitleMessage), Transcript(bvid, info, env), path);
      }
      WalksCons(InfoDoneEvent(info), gate, [Subtitle] + path);
  }

  /** Every run follows one of the two orders, from `parse` either to the
      end or to an `error` that cuts it short: `parse`, `info`, `info_done`,
      `subtitle`, then `subtitle_done` or else `audio`, `transcribe_submit`,
      `transcribe_poll`, the progress reports and `transcribe_done`, then
      `summarize` and `done`. */
  lemma StageOrder(input: string, env: Env)
    ensures Walks(Run(input, env), CaptionPath()) || Walks(Run(input, env), AsrPath(ProgressCount(input, env)))
  {
    var n := ProgressCount(input, env);
    var first := Ev(Parse, ParseMessage);
    AfterParseSteps(input, env, n);
    if Walks(AfterParse(input, env), CaptionPath()[1..]) {
      HeadTail(CaptionPath());
      WalksCons(first, AfterParse(input, env), CaptionPath()[1..]);
    } else {
      HeadTail(AsrPath(n));
      WalksCons(first, AfterParse(input, env), AsrPath(n)[1..]);
    }
  }

  lemma SecondOn<T>(s: seq<T>)
    requires |s| >= 2
    ensures s[1..] == [s[1]] + s[2..]
  {
  }

  lemma HeadTail<T>(s: seq<T>)
    requires |s| > 0
    ensures s == [s[0]] + s[1..]
  {
  }

  /** The events after `parse`. */
  lemma AfterParseSteps(input: string, env: Env, n: nat)
    requires n == ProgressCount(input, env)
    ensures Walks(AfterParse(input, env), CaptionPath()[1..]) || Walks(AfterParse(input, env), AsrPath(n)[1..])
  {
    match FindBvid(input, env)
    case None =>
      assert AfterParse(input, env) == [Ev(Error, InvalidLinkMessage)];
      WalksError(Ev(Error, InvalidLinkMessage), CaptionPath()[1..]);
    case Some(bvid) =>
      var found := Ev(Info, InfoMessage);
      assert AfterParse(input, env) == [found] + AfterInfo(bvid, env);
      assert n == InfoProgress(bvid, env);
      AfterInfoSteps(bvid, env, n);
      if Walks(AfterInfo(bvid, env), CaptionPath()[2..]) {
        SecondOn(CaptionPath());
        WalksCons(found, AfterInfo(bvid, env), CaptionPath()[2..]);
      } else {
        SecondOn(AsrPath(n));
        WalksCons(found, AfterInfo(bvid, env), AsrPath(n)[2..]);
      }
  }

  /** A path that ends with `done` and has no final step before it. */
  predicate EndsWithDone(path: seq<Step>) {
    |path| > 0 && path[|path| - 1] == Done && forall k :: 0 <= k < |path| - 1 ==> !IsTerminal(path[k])
  }

  /** The last event is `done` or `error` and no earlier one is. */
  predicate OneFinalEvent(evs: seq<Event>) {
    |evs| > 0 && IsTerminal(evs[|evs| - 1].step) && forall k :: 0 <= k < |evs| - 1 ==> !IsTerminal(evs[k].step)
  }

  lemma {:induction false} WalksEndsOnce(evs: seq<Event>, path: seq<Step>)
    requires Walks(evs, path) && EndsWithDone(path)
    ensures OneFinalEvent(evs)
    decreases |evs|
  {
    if |evs| > 1 {
      assert path[1..][|path| - 2] == Done;
      WalksEndsOnce(evs[1..], path[1..]);
      assert forall k :: 1 <= k < |evs| ==> evs[k] == evs[1..][k - 1];
    }
  }

  lemma PathsEndWithDone(n: nat)
    ensures EndsWithDone(CaptionPath()) && EndsWithDone(AsrPath(n))
  {
    var path := AsrPath(n);
    forall k | 0 <= k < |path| - 1 ensures !IsTerminal(path[k]) {
      if 7 <= k < 7 + n {
        assert path[k] == Repeat(TranscribeProgress, n)[k - 7];
      }
    }
  }

  /** Every run sends exactly one final event, `done` or `error`, and it is
      the last one: the stream is never left without an outcome and nothing
      follows the outcome. */
  lemma ExactlyOneOutcome(input: string, env: Env)
    ensures OneFinalEvent(Run(input, env))
  {
    var n := ProgressCount(input, env);
    StageOrder(input, env);
    PathsEndWithDone(n);
    if Walks(Run(input, env), CaptionPath()) {
      WalksEndsOnce(Run(input, env), CaptionPath());
    } else {
      WalksEndsOnce(Run(input, env), AsrPath(n));
    }
  }

  // ---------------------------------------------------------------------------
  // The identifier, the duration gate and the transcript's source
  // ---------------------------------------------------------------------------

  /** An input the parser cannot read and that is not a resolvable short
      link ends the run at once: `parse`, then the invalid-link error, and
      no video information is requested. */
  lemma InvalidLink(input: string, env: Env, videoInfo: string -> Result<Bilibili.VideoInfo>)
    requires FindBvid(input, env).None?
    ensures Run(input, env) == [Ev(Parse, ParseMessage), Ev(Error, InvalidLinkMessage)]
    ensures Run(input, env.(videoInfo := videoInfo)) == Run(input, env)
  {
    var other := env.(videoInfo := videoInfo);
    assert AfterParse(input, env) == [Ev(Error, InvalidLinkMessage)];
    assert AfterParse(input, other) == [Ev(Error, InvalidLinkMessage)] by {
      assert other.follow == env.follow;
      assert FindBvid(input, other) == FindBvid(input, env);
    }
  }

  /** The short link is followed only when the direct parse fails and the
      input mentions "b23.tv"; the identifier is then the one parsed from
      where the redirect ends. */
  lemma ShortLinkOnlyWhenNeeded(input: string, env: Env, follow: string -> Option<string>)
    ensures Bilibili.ParseBilibiliUrl(input).Some? || !Contains(input, "b23.tv") ==>
      Run(input, env.(follow := follow)) == Run(input, env)
    ensures Bilibili.ParseBilibiliUrl(input).None? && Contains(input, "b23.tv") ==>
      FindBvid(input, env) == if env.follow(input).None? then None else Bilibili.ParseBilibiliUrl(env.follow(input).value)
  {
    var other := env.(follow := follow);
    if Bilibili.ParseBilibiliUrl(input).Some? || !Contains(input, "b23.tv") {
      assert FindBvid(input, other) == FindBvid(input, env);
      assert AfterParse(input, other) == AfterParse(input, env) by {
        if FindBvid(input, env).Some? {
          AfterInfoIgnoresFollow(FindBvid(input, env).value, env, follow);
        }
      }
    }
  }

  lemma AfterInfoIgnoresFollow(bvid: string, env: Env, follow: string -> Option<string>)
    ensures AfterInfo(bvid, env.(follow := follow)) == AfterInfo(bvid, env)
  {
    var other := env.(follow := follow);
    if env.videoInfo(bvid).Ok? {
      var info := env.videoInfo(bvid).value;
      if UsesCaptions(bvid, info, env) {
        var text := env.subtitles(bvid, info.cid).value;
        assert SummaryStage(info, text, FromSubtitle, other) == SummaryStage(info, text, FromSubtitle, env);
      } else if env.audioUrl(bvid, info.cid).Ok? && env.submit(env.audioUrl(bvid, info.cid).value).Ok? {
        var run := env.poll(env.submit(env.audioUrl(bvid, info.cid).value).value);
        assert Polled(info, run, other) == Polled(info, run, env) by {
          if run.outcome.Ok? {
            assert SummaryStage(info, run.outcome.value, FromAsr, other) == SummaryStage(info, run.outcome.value, FromAsr, env);
          }
        }
      }
    }
  }

  /** The run's first three events once the video information has arrived. */
  function Opening(info: Bilibili.VideoInfo): seq<Event> {
    [Ev(Parse, ParseMessage), Ev(Info, InfoMessage), InfoDoneEvent(info)]
  }

  lemma RunAfterInfo(input: string, env: Env, bvid: string, info: Bilibili.VideoInfo)
    requires FindBvid(input, env) == Some(bvid) && env.videoInfo(bvid) == Ok(info)
    ensures Run(input, env) == Opening(info) + Gate(bvid, info, env)
  {
    var gate := Gate(bvid, info, env);
    assert AfterInfo(bvid, env) == [InfoDoneEvent(info)] + gate;
    assert AfterParse(input, env) == [Ev(Info, InfoMessage)] + AfterInfo(bvid, env);
    ConsThree(Ev(Parse, ParseMessage), Ev(Info, InfoMessage), InfoDoneEvent(info), gate);
  }

  lemma ConsThree<T>(a: T, b: T, c: T, rest: seq<T>)
    ensures [a, b, c] + rest == [a] + ([b] + ([c] + rest))
  {
  }

  /** The duration gate: videos of 30 seconds to 30 minutes, both ends
      included, go on to the subtitle step; longer ones end with the
      too-long error naming the rounded minutes, shorter ones with the
      too-short error, and neither kind requests captions. */
  lemma DurationGate(input: string, env: Env, bvid: string, info: Bilibili.VideoInfo)
    requires FindBvid(input, env) == Some(bvid) && env.videoInfo(bvid) == Ok(info)
    ensures |Run(input, env)| >= 4 && Run(input, env)[..3] == Opening(info)
    ensures Run(input, env)[3].step == Subtitle <==> MinDurationSeconds <= info.duration <= MaxDurationSeconds
    ensures info.duration > MaxDurationSeconds ==>
      Run(input, env) == Opening(info) + [Ev(Error, TooLongMessage(Summarize.RoundMinutes(info.duration)))]
    ensures info.duration < MinDurationSeconds ==> Run(input, env) == Opening(info) + [Ev(Error, TooShortMessage)]
  {
    RunAfterInfo(input, env, bvid, info);
    assert (Opening(info) + Gate(bvid, info, env))[..3] == Opening(info);
  }

  /** Within the accepted durations, the fifth event says which way the
      transcript comes: `subtitle_done` exactly when there are more than 50
      characters of captions, `audio` exactly otherwise. */
  lemma CaptionChoice(input: string, env: Env, bvid: string, info: Bilibili.VideoInfo)
    requires FindBvid(input, env) == Some(bvid) && env.videoInfo(bvid) == Ok(info)
    requires MinDurationSeconds <= info.duration <= MaxDurationSeconds
    ensures |Run(input, env)| > 4
    ensures Run(input, env)[4].step == SubtitleDone <==> UsesCaptions(bvid, info, env)
    ensures Run(input, env)[4].step == Audio <==> !UsesCaptions(bvid, info, env)
    ensures UsesCaptions(bvid, info, env) ==>
      Run(input, env)[4].message == SubtitleDoneMessage(|env.subtitles(bvid, info.cid).value|)
  {
    RunAfterInfo(input, env, bvid, info);
    var rest := Transcript(bvid, info, env);
    var gate := Gate(bvid, info, env);
    assert gate == [Ev(Subtitle, SubtitleMessage)] + rest;
    assert Run(input, env)[4] == gate[1] == rest[0];
    if UsesCaptions(bvid, info, env) {
      var text := env.subtitles(bvid, info.cid).value;
      assert rest[0] == Ev(SubtitleDone, SubtitleDoneMessage(|text|));
    } else {
      assert rest[0] == Ev(Audio, AudioMessage);
    }
  }

  /** On the caption path the audio address, the recognition task and its
      polling are never consulted: any answers from them give the same run. */
  lemma CaptionsSkipRecognition(input: string, env: Env, bvid: string, info: Bilibili.VideoInfo,
                                audioUrl: (string, int) -> Result<string>, submit: string -> Result<string>,
                                poll: string -> Transcribe.PollRun)
    requires FindBvid(input, env) == Some(bvid) && env.videoInfo(bvid) == Ok(info)
    requires UsesCaptions(bvid, info, env)
    ensures Run(input, env.(audioUrl := audioUrl, submit := submit, poll := poll)) == Run(input, env)
  {
    var other := env.(audioUrl := audioUrl, submit := submit, poll := poll);
    assert Run(input, other) == Opening(info) + Gate(bvid, info, other) by {
      SameIdentifier(input, env, other);
      RunAfterInfo(input, other, bvid, info);
    }
    assert Gate(bvid, info, other) == Gate(bvid, info, env) by {
      CaptionTranscript(bvid, info, env, other);
    }
    RunAfterInfo(input, env, bvid, info);
  }

  lemma SameIdentifier(input: string, env: Env, other: Env)
    requires other.follow == env.follow
    ensures FindBvid(input, other) == FindBvid(input, env)
  {
  }

  lemma CaptionTranscript(bvid: string, info: Bilibili.VideoInfo, env: Env, other: Env)
    requires UsesCaptions(bvid, info, env)
    requires other.subtitles == env.subtitles && other.summarize == env.summarize
    ensures Transcript(bvid, info, other) == Transcript(bvid, info, env)
  {
    var text := env.subtitles(bvid, info.cid).value;
    assert SummaryStage(info, text, FromSubtitle, other) == SummaryStage(info, text, FromSubtitle, env);
  }

  /** The transcript the run obtains: the captions when they are used,
      otherwise the recognised text when the audio address, the submission
      and the polling all succeed. */
  function TranscriptText(bvid: string, info: Bilibili.VideoInfo, env: Env): Option<string> {
    if UsesCaptions(bvid, info, env) then Some(env.subtitles(bvid, info.cid).value)
    else match env.audioUrl(bvid, info.cid)
      case Err(_) => None
      case Ok(u) =>
        match env.submit(u)
        case Err(_) => None
        case Ok(task) => if env.poll(task).outcome.Ok? then Some(env.poll(task).outcome.value) else None
  }

  lemma LastOfAppend(a: seq<Event>, b: seq<Event>)
    requires |b| > 0
    ensures (a + b)[|a + b| - 1] == b[|b| - 1]
  {
  }

  /** When the transcript has been obtained, the run ends with what the
      summary step answered: `done` carrying the video information, the
      summary, the transcript's source and its length, or the error. */
  lemma TranscriptEnding(bvid: string, info: Bilibili.VideoInfo, env: Env, text: string)
    requires TranscriptText(bvid, info, env) == Some(text)
    ensures var evs := Transcript(bvid, info, env);
      var source := if UsesCaptions(bvid, info, env) then FromSubtitle else FromAsr;
      |evs| > 0 && evs[|evs| - 1] == SummaryStage(info, text, source, env)[1]
  {
    var source := if UsesCaptions(bvid, info, env) then FromSubtitle else FromAsr;
    var summary := SummaryStage(info, text, source, env);
    if UsesCaptions(bvid, info, env) {
      LastOfAppend([Ev(SubtitleDone, SubtitleDoneMessage(|text|))], summary);
    } else {
      var u := env.audioUrl(bvid, info.cid).value;
      var run := env.poll(env.submit(u).value);
      var tail := [Ev(TranscribeDone, TranscribeDoneMessage(|text|))] + summary;
      LastOfAppend([Ev(TranscribeDone, TranscribeDoneMessage(|text|))], summary);
      LastOfAppend(ProgressEvents(run.ticks), tail);
      var polled := Polled(info, run, env);
      LastOfAppend([Ev(TranscribePoll, PollMessage)], polled);
      LastOfAppend([Ev(TranscribeSubmit, SubmitMessage)], [Ev(TranscribePoll, PollMessage)] + polled);
      LastOfAppend([Ev(Audio, AudioMessage)], Recognition(bvid, info, env));
    }
  }

  /** The final event of an accepted video whose transcript was obtained:
      `done` with the video information, the model's summary, the source
      (captions exactly when they were used) and the transcript's length,
      or the summary step's error. */
  lemma DoneCarries(input: string, env: Env, bvid: string, info: Bilibili.VideoInfo, text: string)
    requires FindBvid(input, env) == Some(bvid) && env.videoInfo(bvid) == Ok(info)
    requires MinDurationSeconds <= info.duration <= MaxDurationSeconds
    requires TranscriptText(bvid, info, env) == Some(text)
    ensures var evs := Run(input, env);
      var reply := env.summarize(text, info.title, info.duration);
      var source := if UsesCaptions(bvid, info, env) then FromSubtitle else FromAsr;
      && (reply.Ok? ==> evs[|evs| - 1] == Event(Done, DoneMessage, None, Some(DoneData(info, reply.value, source, |text|))))
      && (reply.Err? ==> evs[|evs| - 1] == Ev(Error, reply.message))
  {
    RunAfterInfo(input, env, bvid, info);
    TranscriptEnding(bvid, info, env, text);
    LastOfAppend([Ev(Subtitle, SubtitleMessage)], Transcript(bvid, info, env));
    LastOfAppend(Opening(info), Gate(bvid, info, env));
  }

  /** Every collaborator succeeded and the video was accepted. */
  predicate Completes(input: string, env: Env) {
    match FindBvid(input, env)
    case None => false
    case Some(bvid) =>
      match env.videoInfo(bvid)
      case Err(_) => false
      case Ok(info) =>
        && MinDurationSeconds <= info.duration <= MaxDurationSeconds
        && TranscriptText(bvid, info, env).Some?
        && env.summarize(TranscriptText(bvid, info, env).value, info.title, info.duration).Ok?
  }

  lemma TranscriptFails(bvid: string, info: Bilibili.VideoInfo, env: Env)
    requires TranscriptText(bvid, info, env).None?
    ensures var evs := Transcript(bvid, info, env); |evs| > 0 && evs[|evs| - 1].step == Error
  {
    var recognition := Recognition(bvid, info, env);
    LastOfAppend([Ev(Audio, AudioMessage)], recognition);
    match env.audioUrl(bvid, info.cid)
    case Err(_) =>
    case Ok(u) =>
      match env.submit(u)
      case Err(e) =>
        LastOfAppend([Ev(TranscribeSubmit, SubmitMessage)], [Ev(Error, e)]);
      case Ok(task) =>
        var run := env.poll(task);
        var polled := Polled(info, run, env);
        LastOfAppend(ProgressEvents(run.ticks), [Ev(Error, run.outcome.message)]);
        LastOfAppend([Ev(TranscribePoll, PollMessage)], polled);
        LastOfAppend([Ev(TranscribeSubmit, SubmitMessage)], [Ev(TranscribePoll, PollMessage)] + polled);
  }

  /** The last event of a run. */
  function Final(input: string, env: Env): Event {
    var evs := Run(input, env);
    if |evs| == 0 then Ev(Error, "") else evs[|evs| - 1]
  }

  lemma AcceptedEnding(input: string, env: Env, bvid: string, info: Bilibili.VideoInfo)
    requires FindBvid(input, env) == Some(bvid) && env.videoInfo(bvid) == Ok(info)
    requires MinDurationSeconds <= info.duration <= MaxDurationSeconds
    ensures Final(input, env).step == Done <==> Completes(input, env)
    ensures Final(input, env).step == Done || Final(input, env).step == Error
    ensures Final(input, env).step == Done ==> Final(input, env).data.Some?
  {
    if TranscriptText(bvid, info, env).Some? {
      TranscribedEnding(input, env, bvid, info);
    } else {
      UntranscribedEnding(input, env, bvid, info);
    }
  }

  lemma TranscribedEnding(input: string, env: Env, bvid: string, info: Bilibili.VideoInfo)
    requires FindBvid(input, env) == Some(bvid) && env.videoInfo(bvid) == Ok(info)
    requires MinDurationSeconds <= info.duration <= MaxDurationSeconds
    requires TranscriptText(bvid, info, env).Some?
    ensures Final(input, env).step == Done <==> Completes(input, env)
    ensures Final(input, env).step == Done || Final(input, env).step == Error
    ensures Final(input, env).step == Done ==> Final(input, env).data.Some?
  {
    var text := TranscriptText(bvid, info, env).value;
    DoneCarries(input, env, bvid, info, text);
    assert Completes(input, env) <==> env.summarize(text, info.title, info.duration).Ok?;
  }

  lemma UntranscribedEnding(input: string, env: Env, bvid: string, info: Bilibili.VideoInfo)
    requires FindBvid(input, env) == Some(bvid) && env.videoInfo(bvid) == Ok(info)
    requires MinDurationSeconds <= info.duration <= MaxDurationSeconds
    requires TranscriptText(bvid, info, env).None?
    ensures Final(input, env).step == Error && !Completes(input, env)
  {
    RunAfterInfo(input, env, bvid, info);
    TranscriptFails(bvid, info, env);
    LastOfAppend([Ev(Subtitle, SubtitleMessage)], Transcript(bvid, info, env));
    LastOfAppend(Opening(info), Gate(bvid, info, env));
  }

  lemma NoIdentifierEnding(input: string, env: Env)
    requires FindBvid(input, env).None?
    ensures Final(input, env).step == Error && !Completes(input, env)
  {
    InvalidLink(input, env, env.videoInfo);
  }

  lemma NoInfoEnding(input: string, env: Env, bvid: string)
    requires FindBvid(input, env) == Some(bvid) && env.videoInfo(bvid).Err?
    ensures Final(input, env).step == Error && !Completes(input, env)
  {
    var last := Ev(Error, env.videoInfo(bvid).message);
    assert AfterInfo(bvid, env) == [last];
    assert Run(input, env) == [Ev(Parse, ParseMessage)] + ([Ev(Info, InfoMessage)] + [last]);
  }

  lemma RejectedEnding(input: string, env: Env, bvid: string, info: Bilibili.VideoInfo)
    requires FindBvid(input, env) == Some(bvid) && env.videoInfo(bvid) == Ok(info)
    requires info.duration < MinDurationSeconds || info.duration > MaxDurationSeconds
    ensures Final(input, env).step == Error && !Completes(input, env)
  {
    DurationGate(input, env, bvid, info);
  }

  /** A run ends with `done` exactly when the identifier was found, the
      video information arrived, the duration was accepted, a transcript was
      obtained and the model answered; otherwise it ends with `error`. A
      `done` always carries its data. */
  lemma DoneExactlyWhenComplete(input: string, env: Env)
    ensures Final(input, env).step == Done <==> Completes(input, env)
    ensures Final(input, env).step != Done ==> Final(input, env).step == Error
    ensures Final(input, env).step == Done ==> Final(input, env).data.Some?
  {
    var bvid := FindBvid(input, env);
    if bvid.None? {
      NoIdentifierEnding(input, env);
    } else if env.videoInfo(bvid.value).Err? {
      NoInfoEnding(input, env, bvid.value);
    } else {
      var info := env.videoInfo(bvid.value).value;
      if MinDurationSeconds <= info.duration <= MaxDurationSeconds {
        AcceptedEnding(input, env, bvid.value, info);
      } else {
        RejectedEnding(input, env, bvid.value, info);
      }
    }
  }
}
