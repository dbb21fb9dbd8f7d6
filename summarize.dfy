/** The summary step: the transcript is cut to 50,000 characters, wrapped in
    the user prompt with the title and the rounded duration, and sent to the
    Qwen3 chat model through a lazily built client. The chat call itself is
    an input. */
module Summarize {
  import opened Wrappers
  import opened JsString
  import opened JsNumber

  const MissingKeyMessage := "未配置 DASHSCOPE_API_KEY 环境变量，请在 .env.local 中设置千问百炼平台 API Key"
  const BaseUrl := "https://dashscope.aliyuncs.com/compatible-mode/v1"
  const ModelName := "qwen3-235b-a22b"
  /** The sampling temperature 0.3, in tenths. */
  const TemperatureTenths := 3
  const MaxTokens := 8000
  const MaxChars := 50000
  const TruncationMarker := "\n\n[... 文本过长，已截断后续内容 ...]"
  const EmptyReplyMessage := "总结生成失败，Qwen3 模型未返回有效内容"

  /** The OpenAI-compatible client: its key and endpoint. */
  datatype Client = Client(apiKey: string, baseUrl: string)

  /** The module-level `_client`, built on first use and reused afterwards. */
  class ClientCache {
    var client: Option<Client>

    /** Every cached client carries a key and the DashScope endpoint. */
    ghost predicate Valid()
      reads this
    {
      client.Some? ==> client.value.apiKey != "" && client.value.baseUrl == BaseUrl
    }

    /** The module is loaded with no client. */
    constructor ()
      ensures client.None? && Valid()
    {
      client := None;
    }

    /** `getClient`: the cached client if there is one, whatever the key now
        is; otherwise a missing or empty key throws and a present one builds
        and caches the client. */
    method GetClient(keyEnv: Option<string>) returns (r: Result<Client>)
      requires Valid()
      modifies this
      ensures Valid()
      ensures old(client).Some? ==> r == Ok(old(client).value) && client == old(client)
      ensures old(client).None? && (keyEnv.None? || keyEnv.value == "") ==>
        r == Err(MissingKeyMessage) && client.None?
      ensures old(client).None? && keyEnv.Some? && keyEnv.value != "" ==>
        r == Ok(Client(keyEnv.value, BaseUrl)) && client == Some(r.value)
    {
      if client.None? {
        if keyEnv.None? || keyEnv.value == "" {
          return Err(MissingKeyMessage);
        }
        client := Some(Client(keyEnv.value, BaseUrl));
      }
      return Ok(client.value);
    }

    /** `summarizeTranscript`: obtain the client, then ask the model for a
        summary of the prompt built from the transcript, title and duration. */
    method SummarizeTranscript(keyEnv: Option<string>, transcript: string, title: string, durationSeconds: int,
                               chat: (Client, ChatRequest) -> ChatReply)
      returns (r: Result<string>)
      requires Valid()
      modifies this
      ensures Valid()
      ensures r == Summarized(old(client), keyEnv, transcript, title, durationSeconds, chat)
      ensures client == CachedAfter(old(client), keyEnv)
    {
      var c := GetClient(keyEnv);
      if c.Err? {
        return Err(c.message);
      }
      var reply := chat(c.value, Request(transcript, title, durationSeconds));
      r := SummaryOf(reply);
    }
  }

  /** The client `getClient` yields from a cache state, and the cache after it. */
  function ClientFor(cached: Option<Client>, keyEnv: Option<string>): (r: Result<Client>)
    ensures r.Err? <==> cached.None? && (keyEnv.None? || keyEnv.value == "")
    ensures r.Err? ==> r.message == MissingKeyMessage
  {
    if cached.Some? then Ok(cached.value)
    else if keyEnv.None? || keyEnv.value == "" then Err(MissingKeyMessage)
    else Ok(Client(keyEnv.value, BaseUrl))
  }

  function CachedAfter(cached: Option<Client>, keyEnv: Option<string>): Option<Client> {
    if ClientFor(cached, keyEnv).Ok? then Some(ClientFor(cached, keyEnv).value) else None
  }

  /** Once a client is cached, the key is never read again: later calls get
      the same client whatever the configuration has become. */
  lemma ClientBuiltOnce(cached: Option<Client>, k1: Option<string>, k2: Option<string>)
    requires ClientFor(cached, k1).Ok?
    ensures ClientFor(CachedAfter(cached, k1), k2) == ClientFor(cached, k1)
    ensures CachedAfter(CachedAfter(cached, k1), k2) == CachedAfter(cached, k1)
  {
  }

  /** The transcript passed to the model: unchanged up to 50,000 characters,
      otherwise its first 50,000 followed by the truncation marker. */
  function Truncate(t: string): (r: string)
    ensures |t| <= MaxChars ==> r == t
    ensures |t| > MaxChars ==>
      && |r| == MaxChars + |TruncationMarker|
      && r[..MaxChars] == t[..MaxChars]
      && r[MaxChars..] == TruncationMarker
  {
    if |t| > MaxChars then t[..MaxChars] + TruncationMarker else t
  }

  /** Truncation keeps the transcript's first 50,000 characters (all of a
      shorter one), never grows beyond the limit plus the marker, and is
      idempotent. */
  lemma TruncateProperties(t: string)
    ensures var r := Truncate(t);
      && |r| <= MaxChars + |TruncationMarker|
      && (if |t| <= MaxChars then r == t else StartsWith(r, t[..MaxChars]))
      && Truncate(r) == r
  {
    var r := Truncate(t);
    if |t| > MaxChars {
      assert r[..MaxChars] == t[..MaxChars];
      assert r[..MaxChars] + TruncationMarker == r;
    }
  }

  /** `Math.round(seconds / 60)`. */
  function RoundMinutes(seconds: int): (m: int)
    ensures 120 * m - 60 <= 2 * seconds < 120 * m + 60
  {
    RoundDiv(seconds, 60)
  }

  /** Durations the pipeline accepts, 30 to 1800 seconds, round to 1 to 30 minutes. */
  lemma AcceptedDurationMinutes(seconds: int)
    requires 30 <= seconds <= 30 * 60
    ensures 1 <= RoundMinutes(seconds) <= 30
  {
  }

  const TitleLabel := "视频标题："
  const DurationLabel := "\n视频时长：约 "
  const TranscriptLabel := " 分钟\n\n以下是视频的转写文本：\n\n"

  /** The user message: the title, the rounded minutes and the truncated transcript. */
  function UserPrompt(title: string, minutes: int, transcript: string): string {
    TitleLabel + title + DurationLabel + IntToDecimal(minutes) + TranscriptLabel + Truncate(transcript)
  }

  /** The prompt holds, in this order, the title, the minutes and the
      truncated transcript, the last of them as its ending. */
  lemma PromptOrder(title: string, minutes: int, transcript: string)
    ensures var p := UserPrompt(title, minutes, transcript);
      var atTitle := |TitleLabel|;
      var atMinutes := atTitle + |title| + |DurationLabel|;
      var atText := atMinutes + |IntToDecimal(minutes)| + |TranscriptLabel|;
      && OccursAt(p, title, atTitle)
      && OccursAt(p, IntToDecimal(minutes), atMinutes)
      && atTitle <= atMinutes < atText
      && atText + |Truncate(transcript)| == |p|
      && p[atText..] == Truncate(transcript)
  {
    SixParts(TitleLabel, title, DurationLabel, IntToDecimal(minutes), TranscriptLabel, Truncate(transcript));
  }

  /** Where the second, fourth and last of six joined pieces sit. */
  lemma SixParts<T>(a: seq<T>, b: seq<T>, c: seq<T>, d: seq<T>, e: seq<T>, f: seq<T>)
    ensures var p := a + b + c + d + e + f;
      && |p| == |a| + |b| + |c| + |d| + |e| + |f|
      && p[|a|..|a| + |b|] == b
      && p[|a| + |b| + |c|..|a| + |b| + |c| + |d|] == d
      && p[|a| + |b| + |c| + |d| + |e|..] == f
  {
    var p := a + b + c + d + e + f;
    Middle(a, b, c + d + e + f);
    assert a + b + (c + d + e + f) == p;
    Middle(a + b + c, d, e + f);
    assert a + b + c + d + (e + f) == p;
    Middle(a + b + c + d + e, f, []);
    assert a + b + c + d + e + f + [] == p;
  }

  lemma Middle<T>(x: seq<T>, y: seq<T>, z: seq<T>)
    ensures (x + y + z)[|x|..|x| + |y|] == y && (x + y + z)[|x| + |y|..] == z
  {
  }

  /** The chat request: model, user prompt (after the fixed system prompt),
      temperature and token cap. */
  datatype ChatRequest = ChatRequest(model: string, userPrompt: string, temperatureTenths: int, maxTokens: int)

  /** What the chat call produced: a thrown error, or the first choice's
      message content (`None` when there is no choice or no content). */
  datatype ChatReply = ChatThrew(error: string) | Reply(content: Option<string>)

  function Request(transcript: string, title: string, durationSeconds: int): ChatRequest {
    ChatRequest(ModelName, UserPrompt(title, RoundMinutes(durationSeconds), transcript), TemperatureTenths, MaxTokens)
  }

  /** The summary is the model's content verbatim; missing or empty content
      throws, and so does the call itself. */
  function SummaryOf(reply: ChatReply): (r: Result<string>)
    ensures r.Ok? <==> reply.Reply? && reply.content.Some? && reply.content.value != ""
    ensures r.Ok? ==> r.value == reply.content.value
    ensures reply.Reply? && r.Err? ==> r.message == EmptyReplyMessage
    ensures reply.ChatThrew? ==> r == Err(reply.error)
  {
    match reply
    case ChatThrew(e) => Err(e)
    case Reply(content) =>
      if content.None? || content.value == "" then Err(EmptyReplyMessage) else Ok(content.value)
  }

  /** The outcome of `summarizeTranscript` from a cache state. */
  function Summarized(cached: Option<Client>, keyEnv: Option<string>, transcript: string, title: string,
                      durationSeconds: int, chat: (Client, ChatRequest) -> ChatReply): (r: Result<string>)
    ensures ClientFor(cached, keyEnv).Err? ==> r == Err(MissingKeyMessage)
    ensures ClientFor(cached, keyEnv).Ok? ==>
      r == SummaryOf(chat(ClientFor(cached, keyEnv).value, Request(transcript, title, durationSeconds)))
    ensures r.Ok? ==> r.value != ""
  {
    match ClientFor(cached, keyEnv)
    case Err(e) => Err(e)
    case Ok(c) => SummaryOf(chat(c, Request(transcript, title, durationSeconds)))
  }

  /** Two transcripts that agree on their first 50,000 characters and are
      both longer than that give the model the same request. */
  lemma LongTailIgnored(t1: string, t2: string, title: string, durationSeconds: int)
    requires |t1| > MaxChars && |t2| > MaxChars && t1[..MaxChars] == t2[..MaxChars]
    ensures Request(t1, title, durationSeconds) == Request(t2, title, durationSeconds)
  {
  }
}
