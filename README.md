# bilibili-summarizer, modelled in Dafny

This project models the core of bilibili-summarizer, a web application that turns a Bilibili video link into a structured study summary. The model covers these parts:

- **The summary route** (`POST /api/summarize`):
  - admission: the per-client rate limit, the body check and the trimmed link;
  - the video pipeline, which reports its progress as server-sent events: `parse`, `info`, `info_done`, `subtitle`, then either `subtitle_done` or `audio` … `transcribe_done`, then `summarize` and `done`, or an `error` that cuts the run short.
- **The platform client** (`src/lib/bilibili.ts`): it extracts BV identifiers, resolves short links, maps video metadata, chooses a caption track, picks the lowest-bandwidth audio stream with a two-strategy fallback, and gates audio downloads.
- **The DashScope speech recognition client** (`src/lib/transcribe.ts`): the gates before upload, the bounded 90-attempt poll with progress reports, and the extraction of the transcript text.
- **The Qwen3 summary step** (`src/lib/summarize.ts`): the lazily built client, the 50,000-character truncation and the prompt.
- **The in-memory rate governor** (`src/lib/rate-limit.ts`): at most ten requests per client per hour, with a sweep of expired records every ten minutes.
- **Two relay-token schemes**:
  - the audio proxy's `base64url(JSON) + "." + MAC` capsule, and its `GET` handler;
  - the `url|expires` capsule, with a signed and an unsigned mode.
- **The page's submit handler** (`src/app/page.tsx`): it reads the event stream chunk by chunk, cuts it into frames at blank lines, parses the `data: ` lines, and folds the events into the page state. Also covered: the cancel button and the reset.

How the model is built:

- **Remote calls and the clock are inputs.** Every remote exchange (platform APIs, CDN, DashScope, the chat model, the browser's `fetch`) becomes a value describing what came back, or what was thrown. The clock is a parameter.
- **Platform primitives are abstract.** Base64url, HMAC-SHA256 and `JSON.stringify`/`JSON.parse` are opaque functions. The laws the proofs rely on are stated as predicates (`Primitives.Lawful`, `Primitives.LawfulCodec`).
- **State that changes in place is a class.** The rate table (`RateLimit.RateGovernor`), the cached chat client (`Summarize.ClientCache`), the event stream (`SummarizeRoute.EventChannel`) and the page component (`Page.Home`) are classes. Each of their methods is proved against a specification function.
- **The poll loop and the page's read loop are methods with loops.** Each is proved equal to a recursive specification, and the properties are proved about that specification.

Files:
- `wrappers.dfy`: `Option` and `Result`.
- `js_string.dfy`: the JavaScript string operations the program uses (`trim`, `split`, `indexOf` and others).
- `js_number.dfy`: the number operations it uses (`String(n)`, `Number`, `parseInt`, `Math.ceil`/`Math.round` of a quotient, `toFixed` of a MiB count).
- `primitives.dfy`: the abstract encodings and their laws.
- One file per source module.
- `route_properties.dfy`: what every pipeline run promises.

## Model

| member | source | states |
|---|---|---|
| RateLimit.Outcome | src/lib/rate-limit.ts:44-69 | A check is allowed exactly when it opens a new window (unknown key, or `now` strictly past the reset time) or the window has fewer than 10 requests. A new window answers remaining 9. A refusal answers remaining 0 with the wait in whole minutes, rounded up. |
| RateLimit.NextRecord | src/lib/rate-limit.ts:51-68 | The key's record after a check: a fresh `{1, now + 1 h}` when a window opens, unchanged on refusal, otherwise the count plus one with the same reset time. |
| RateLimit.Swept | src/lib/rate-limit.ts:28-32 | A sweep at `now` removes exactly the records with `now > resetTime` and keeps the others unchanged. |
| RateLimit.CheckKeepsInvariant | src/lib/rate-limit.ts:51-68 | Every check keeps each stored count in 1..10. The remaining allowance is between 0 and 9: 10 minus the new count when allowed, 0 when refused. A refusal happens only at count 10 and leaves the record as it was. |
| RateLimit.ResetIsStrict | src/lib/rate-limit.ts:51 | At exactly the reset time the old window still applies (a full window is still refused); one millisecond later a new window opens. |
| RateLimit.RejectMinutesBound | src/lib/rate-limit.ts:58 | Inside a window the reported wait is between 0 and 60 minutes and is the ceiling of the milliseconds left divided by 60,000. |
| RateLimit.SweepInvisible | src/lib/rate-limit.ts:23-33 | A sweep no later than the check changes neither the answer nor the key's new record. |
| RateLimit.WithinWindow | src/lib/rate-limit.ts:57-68 | Within one window, the k-th later check is allowed exactly while the earlier count plus k is below 10. |
| RateLimit.TenPerWindow | src/lib/rate-limit.ts:16-17 | From an unknown key, the first ten checks within the hour are allowed and every later one in that hour is refused. |
| RateLimit.RateGovernor.constructor | src/lib/rate-limit.ts:13-21 | The table starts empty, with the last sweep at load time. |
| RateLimit.RateGovernor.Cleanup | src/lib/rate-limit.ts:23-33 | Within 10 minutes of the last sweep nothing changes. Otherwise the sweep time is recorded and the table becomes the swept table; the loop over the keys is proved against `Swept`. |
| RateLimit.RateGovernor.CheckRateLimit | src/lib/rate-limit.ts:44-69 | Sweep, then decide. The answer is `Outcome` of the key's swept record. Only that key's record changes beyond the sweep. Every count stays in 1..10. |
| AudioProxyToken.ExpiresAt | src/lib/audio-proxy-token.ts:13 | The expiry is the current second (milliseconds divided by 1000, rounded down) plus the lifetime. |
| AudioProxyToken.Generate | src/lib/audio-proxy-token.ts:12-21 | Without a secret, the capsule is the encoded `url|expires`. With one, it is the encoded payload, a dot, and the MAC of the raw payload. |
| AudioProxyToken.ReadPayload | src/lib/audio-proxy-token.ts:29-30 | The address read back never holds a `|`. A payload without `|` reads as itself with a NaN expiry. |
| AudioProxyToken.TimingSafeEqual | src/lib/audio-proxy-token.ts:47 | Texts whose UTF-8 encodings differ in byte length throw. Texts of equal byte length compare for equality. |
| AudioProxyToken.TimingSafeEqualCountsBytes | src/lib/audio-proxy-token.ts:47 | The comparison goes by byte length, not character count: "é" against "ab" (two bytes each) is unequal without a throw, and "é" against "a" throws. |
| AudioProxyToken.Verify | src/lib/audio-proxy-token.ts:23-55 | Every failure, including an empty token, is `{valid: false}` with no address. In signed mode a valid token has exactly two dot-separated parts, an authentic MAC over the decoded payload, and an expiry not passed. In unsigned mode only the expiry is checked. |
| AudioProxyToken.ReadPayloadOf | src/lib/audio-proxy-token.ts:14-30 | A payload built from an address without `|` reads back as that address and its expiry. |
| AudioProxyToken.SignedSplit | src/lib/audio-proxy-token.ts:20-38 | An encoded payload and its MAC joined by a dot split back into exactly those two parts. |
| AudioProxyToken.MintedAccepted | src/lib/audio-proxy-token.ts:15-33 | A capsule in the configured mode's form verifies until its expiry. In unsigned mode this holds for any capsule anyone encodes. |
| AudioProxyToken.GenerateVerifyRoundTrip | src/lib/audio-proxy-token.ts:12-51 | For an address without `|`, verifying a generated capsule at any time up to its expiry gives `{valid: true, url}`. |
| AudioProxyToken.GeneratedExpires | src/lib/audio-proxy-token.ts:31-42 | After the expiry second has passed, the same capsule is refused. |
| AudioProxyToken.DefaultLifetime | src/lib/audio-proxy-token.ts:12-42 | With the default lifetime of 300 seconds, a capsule is accepted for at least 299 seconds after it is generated and refused once 300 seconds have passed. |
| AudioProxyToken.PipeInUrlReadsTail | src/lib/audio-proxy-token.ts:29-42 | For an address with a `|`, only the text before it comes back, and the expiry checked is the text after it read by `Number`, not the generated one. |
| AudioProxyToken.PipeInUrlNeverExpires | src/lib/audio-proxy-token.ts:29-42 | When the text after the `|` reads as NaN, such a token never expires. |
| AudioProxyToken.HexTailExpires | src/lib/audio-proxy-token.ts:29-31 | For `http://a|0x10` the expiry read is second 16, so the token is refused from then on, whatever the generated expiry. |
| AudioProxyToken.UnsignedIgnoresMac | src/lib/audio-proxy-token.ts:26-33 | Without a secret the verdict does not depend on the MAC at all. |
| AudioProxyRoute.GetSecret | src/app/api/audio-proxy/route.ts:22-26 | The key is used when present and non-empty; otherwise it throws "DASHSCOPE_API_KEY not configured". |
| AudioProxyRoute.SignAudioToken | src/app/api/audio-proxy/route.ts:37-45 | The capsule is the encoded `{url, exp: now + ttl}`, a dot, and the MAC of the encoded part. It throws exactly when the secret is missing. |
| AudioProxyRoute.VerifyToken | src/app/api/audio-proxy/route.ts:48-68 | A token without a dot is rejected before the secret is read. An accepted token has a MAC that matches the text before its last dot, parsable claims, a numeric expiry not passed, and an `http` address, which is returned. Every rejection looks the same. |
| AudioProxyRoute.SignedTokenSplit | src/app/api/audio-proxy/route.ts:44-53 | The last dot of a signed capsule is the one between payload and signature. |
| AudioProxyRoute.SignVerifyRoundTrip | src/app/api/audio-proxy/route.ts:37-68 | A capsule signed for an `http` address verifies to that address at any time up to its expiry. |
| AudioProxyRoute.ExpiredRejected | src/app/api/audio-proxy/route.ts:62 | After its expiry a capsule is rejected. |
| AudioProxyRoute.DefaultLifetime | src/app/api/audio-proxy/route.ts:37-68 | With the default lifetime, a capsule for an `http` address is accepted for exactly fifteen minutes after signing and rejected afterwards. |
| AudioProxyRoute.NonHttpRejected | src/app/api/audio-proxy/route.ts:63 | An address not starting with `http` is rejected, even in an authentic, fresh capsule. |
| AudioProxyRoute.BadSignatureRejected | src/app/api/audio-proxy/route.ts:55-58 | A wrong signature is rejected whatever the payload would decode or parse to. |
| AudioProxyRoute.RelayHeaders | src/app/api/audio-proxy/route.ts:97-106 | The upstream content type, or `audio/mp4`; the upstream length only when one was sent; and `no-store` caching. |
| AudioProxyRoute.Get | src/app/api/audio-proxy/route.ts:74-107 | 400 without a token, 403 when it does not verify, 502 exactly when a verified token meets an upstream status that is neither OK nor 206, and 200 relaying the upstream stream with the relay headers whenever a verified token meets an OK or 206 upstream. It throws exactly when a token with a dot meets a missing secret, or a verified token's upstream fetch throws. |
| AudioProxyRoute.FreshTokenRelayed | src/app/api/audio-proxy/route.ts:37-107 | A freshly signed `http` capsule, before its expiry and with an upstream answering OK or 206, is relayed with status 200, the upstream stream and the relay headers. |
| Bilibili.FindMatch | src/lib/bilibili.ts:50 | Finds the leftmost position where `BV`/`bv` is followed by at least 10 alphanumerics, or reports that there is none. |
| Bilibili.Capture | src/lib/bilibili.ts:50 | The greedy capture takes 10 to 12 alphanumerics. |
| Bilibili.ParseBilibiliUrl | src/lib/bilibili.ts:46-56 | Returns null exactly when the pattern matches nowhere in the trimmed input. Otherwise the result has identifier shape and is `BV` plus the capture at the leftmost match. |
| Bilibili.ParseBvid | src/lib/bilibili.ts:46-56 | Any text of identifier shape parses to itself. |
| Bilibili.ParseIdempotent | src/lib/bilibili.ts:50-53 | Parsing a parsed identifier gives it back unchanged. |
| Bilibili.ResolveShortUrl | src/lib/bilibili.ts:61-75 | Returns null without a request when the input lacks `b23.tv`, and null when the request throws. Otherwise it is the parse of the address the redirects end at. |
| Bilibili.NormalizeUrl | src/lib/bilibili.ts:132-135 | A `//` address gets `https:` in front; any other address is unchanged. |
| Bilibili.GetVideoInfo | src/lib/bilibili.ts:81-100 | Succeeds exactly on code 0. Otherwise it throws with the service's message, or 未知错误. The fields are mapped one to one: a missing description or owner becomes "", and the cover address is normalised. |
| Bilibili.PreferredTrack | src/lib/bilibili.ts:121-127 | The first track whose language is zh-CN, ai-zh or zh-Hans; if there is none, the first track. |
| Bilibili.GetSubtitles | src/lib/bilibili.ts:106-152 | Returns text exactly when the code is 0, tracks exist, the preferred track has an address, and its document has a non-empty body whose lines, joined by line feeds, are non-empty. The text is that join. |
| Bilibili.LowestBandwidth | src/lib/bilibili.ts:175-179 | The first rendition of least bandwidth, the one a stable ascending sort puts first. |
| Bilibili.PickAudio | src/lib/bilibili.ts:174-180 | The lowest-bandwidth rendition's `baseUrl`, else its `base_url`; nothing if both are empty. |
| Bilibili.GetAudioUrl | src/lib/bilibili.ts:164-220 | Strategy 1's address if it found one, else strategy 2's. It throws, with the fixed message, exactly when neither found one. |
| Bilibili.PageFallbackPicksLowest | src/lib/bilibili.ts:187-215 | When the page is consulted, the address belongs to a rendition of least bandwidth among the page's renditions. |
| Bilibili.DownloadAudio | src/lib/bilibili.ts:233-256 | Succeeds exactly for an OK or 206 response of at most 200 MiB, returning the body unchanged. |
| Transcribe.GetApiKey | src/lib/transcribe.ts:19-27 | The key when present and non-empty; otherwise the configuration error. |
| Transcribe.SubmitTranscription | src/lib/transcribe.ts:58-120 | Returns the task id exactly when the CDN download is OK with a declared size of at most 200 MiB, the key is set, and the upload is OK with a task id. A failed download gives its HTTP error, and a missing key gives the configuration error. |
| Transcribe.CdnGateBeforeUpload | src/lib/transcribe.ts:66-82 | A download that fails the status or size gate fails the submission whatever the upload would have done. |
| Transcribe.SizeGateBoundary | src/lib/transcribe.ts:73-81 | A declared length of exactly 200 MiB passes; one byte more is refused. |
| Transcribe.ChannelText | src/lib/transcribe.ts:216-220 | A channel contributes its non-empty text, else its sentences run together, else "". |
| Transcribe.ExtractTranscript | src/lib/transcribe.ts:202-230 | A missing or empty list gives the no-result error, and only that does. Any other failure is the empty-text error. A success is the trimmed, line-feed join of the channel texts and is never empty. |
| Transcribe.JoinAllSpace | src/lib/transcribe.ts:222-223 | A line-feed join is all white space exactly when every part is. |
| Transcribe.ExtractSucceedsIff | src/lib/transcribe.ts:210-229 | Extraction succeeds exactly when some channel's text is not all white space. The result has no white space at either end. |
| Transcribe.PollFrom | src/lib/transcribe.ts:140-183 | The poll from attempt `i` on makes at most `90 - i` status requests. |
| Transcribe.PollTicksShape | src/lib/transcribe.ts:176-180 | Progress is reported only after pending attempts `i > 0` with `i % 4 == 0`, in increasing order. |
| Transcribe.Finish | src/lib/transcribe.ts:157-174 | Case by case: a thrown status request gives its error; FAILED gives the FAILED error; SUCCEEDED without an address gives the no-address error, and with one the fetch's error or the extraction of the fetched document. It succeeds exactly on SUCCEEDED with an address, a fetched document and a successful extraction, and a success is never empty. |
| Transcribe.FinishAttempt | src/lib/transcribe.ts:157-174 | The method's branches end the poll with the outcome `Finish` gives. |
| Transcribe.FailedMessageCarries | src/lib/transcribe.ts:169-172 | The FAILED error shows the service's message, or 未知错误 when it is absent or empty, between a fixed prefix and suffix; two FAILED errors agree exactly when the messages shown agree. |
| Transcribe.Attempt | src/lib/transcribe.ts:141-180 | One attempt either ends the poll with what `PollFrom` gives, or leaves the counts from which the rest of the poll gives the same run. |
| Transcribe.PollTranscription | src/lib/transcribe.ts:133-184 | The loop's progress reports, outcome and request count equal `PollFrom` from attempt 0. |
| Transcribe.TicksBound | src/lib/transcribe.ts:177-179 | Reports at multiples of 4 below 90 in increasing order are at most 22. The k-th is at attempt 4(k+1) or later, so the reported waits strictly increase. |
| Transcribe.PollBounds | src/lib/transcribe.ts:137-183 | The whole poll makes at most 90 status requests and at most 22 progress reports, each after a pending attempt. |
| Transcribe.NoFinalTimesOut | src/lib/transcribe.ts:140-183 | When no response settles the task, every attempt makes its request and the timeout error is thrown. |
| Transcribe.TickExactlyWhenPending | src/lib/transcribe.ts:147-180 | With the key set, an attempt the poll reaches is reported exactly when its request answered a running task and its index is a positive multiple of 4: every such attempt reports, and a non-OK status never does. |
| Transcribe.FirstFinalDecides | src/lib/transcribe.ts:157-174 | The first response that settles the task decides the outcome, after one request per attempt. |
| Transcribe.MissingKeyStopsPolling | src/lib/transcribe.ts:143-144 | Without a key the first attempt throws the configuration error before any request. |
| Transcribe.TimeoutNotFailed | src/lib/transcribe.ts:171-183 | The timeout text differs from every FAILED text. |
| Summarize.ClientCache.constructor | src/lib/summarize.ts:18 | No client is cached at load. |
| Summarize.ClientCache.GetClient | src/lib/summarize.ts:20-34 | A cached client is returned whatever the key now is. Otherwise a missing key throws and a present one builds the DashScope client and caches it. |
| Summarize.ClientCache.SummarizeTranscript | src/lib/summarize.ts:129-171 | The outcome is `Summarized` from the old cache, and the cache afterwards is `CachedAfter`. |
| Summarize.ClientFor | src/lib/summarize.ts:20-34 | Fails, with the configuration error, exactly when nothing is cached and the key is missing. |
| Summarize.ClientBuiltOnce | src/lib/summarize.ts:21-33 | Once a client is cached, later calls get the same client and the cache stays as it is, whatever the key. |
| Summarize.Truncate | src/lib/summarize.ts:140-146 | A transcript of at most 50,000 characters is unchanged. A longer one becomes its first 50,000 characters followed by the marker. |
| Summarize.TruncateProperties | src/lib/summarize.ts:140-146 | Truncation keeps the transcript's start, is bounded by the limit plus the marker, and is idempotent. |
| Summarize.RoundMinutes | src/lib/summarize.ts:135 | The rounded minutes are the integer nearest to seconds/60, halves rounded up. |
| Summarize.AcceptedDurationMinutes | src/lib/summarize.ts:135 | Durations the pipeline accepts round to 1 to 30 minutes. |
| Summarize.PromptOrder | src/lib/summarize.ts:148-153 | The prompt holds the title, then the minutes, then the truncated transcript, which ends it. |
| Summarize.SummaryOf | src/lib/summarize.ts:165-170 | The model's content is returned verbatim. Missing or empty content throws the fixed message, and a failed call throws its own error. |
| Summarize.Summarized | src/lib/summarize.ts:129-171 | A missing client throws the configuration error. Otherwise the result is the reply to the request built from the transcript, and a success is never empty. |
| Summarize.LongTailIgnored | src/lib/summarize.ts:142-146 | Two long transcripts that agree on their first 50,000 characters give the model the same request. |
| SummarizeRoute.EventChannel.constructor | src/app/api/summarize/route.ts:37-45 | A new stream is open and empty. |
| SummarizeRoute.EventChannel.Send | src/app/api/summarize/route.ts:47-55 | An open stream gains the event at its end. On a closed stream the error is swallowed and nothing changes. |
| SummarizeRoute.EventChannel.Close | src/app/api/summarize/route.ts:57-63 | The stream is closed and its events are kept. A second close is swallowed. |
| SummarizeRoute.ProgressEvents | src/app/api/summarize/route.ts:208-210 | One `transcribe_progress` event per report, in order, carrying the report's text. |
| SummarizeRoute.FindBvid | src/app/api/summarize/route.ts:126-131 | A direct parse wins. Any identifier found has the parser's shape. |
| SummarizeRoute.ReportProgress | src/app/api/summarize/route.ts:208-210 | The `onProgress` callback sends each report's event, in order. |
| SummarizeRoute.ProcessVideo | src/app/api/summarize/route.ts:117-250 | Every exit sends exactly the events `Run` lists and closes the stream. |
| SummarizeRoute.ResolveBvid | src/app/api/summarize/route.ts:126-131 | The identifier is the direct parse, or the short link's only when that fails on a `b23.tv` input. |
| SummarizeRoute.FetchInfo | src/app/api/summarize/route.ts:143-172 | The video information, then the duration gate; the events are those `AfterInfo` lists. |
| SummarizeRoute.ObtainTranscript | src/app/api/summarize/route.ts:174-217 | Captions when they are long enough, speech recognition otherwise; the events are those `Transcript` lists. |
| SummarizeRoute.Recognize | src/app/api/summarize/route.ts:186-210 | The audio address, the submission and the poll; the events are those `Recognition` lists. |
| SummarizeRoute.Poll | src/app/api/summarize/route.ts:208-216 | The progress reports, then the poll's outcome. |
| SummarizeRoute.SummarizeAndFinish | src/app/api/summarize/route.ts:219-249 | `summarize`, then `done` with its data or the error, then the close. |
| SummarizeRoute.ClientKey | src/app/api/summarize/route.ts:74-77 | The key is never empty: the trimmed first `x-forwarded-for` entry when non-empty, else a non-empty `x-real-ip`, else `unknown`. |
| SummarizeRoute.FirstHopCounts | src/app/api/summarize/route.ts:75 | Behind proxies the key is the trimmed client address, whatever follows and whatever `x-real-ip` says. |
| SummarizeRoute.SingleHopCounts | src/app/api/summarize/route.ts:75 | A header without a comma is the key itself, trimmed. |
| SummarizeRoute.Admission | src/app/api/summarize/route.ts:79-95 | The rate refusal (429) comes before the body. An unparsable body gives 400, as does a missing or blank link. A link is accepted exactly when it is a string that is not blank, and the accepted link is trimmed. A null body or a non-string link throws. |
| SummarizeRoute.Post | src/app/api/summarize/route.ts:72-111 | Every request is counted against its client key: the new rate table and the new last-sweep time are those of `CheckRateLimit`. An accepted link gets the stream headers with the remaining allowance, and a fresh, closed channel holding exactly `Run` of the link. |
| RouteProperties.StageOrder | src/app/api/summarize/route.ts:124-241 | Every run follows the caption order or the recognition order, with as many progress events as the poll reported, to its end or to one `error` that cuts it short. |
| RouteProperties.ExactlyOneOutcome | src/app/api/summarize/route.ts:122-249 | Every run sends exactly one `done` or `error` event, and it is the last one. |
| RouteProperties.InvalidLink | src/app/api/summarize/route.ts:133-141 | Without an identifier the run is `parse` followed by the invalid-link error, and the video information is never requested. |
| RouteProperties.ShortLinkOnlyWhenNeeded | src/app/api/summarize/route.ts:129-131 | The short link is followed only when the direct parse fails on a `b23.tv` input, and the identifier then comes from where the redirects end. |
| RouteProperties.DurationGate | src/app/api/summarize/route.ts:156-172 | The run reaches `subtitle` exactly when the duration is 30 to 1800 seconds, both included. Longer videos end with the too-long error naming the rounded minutes, shorter ones with the too-short error. |
| RouteProperties.CaptionChoice | src/app/api/summarize/route.ts:177-192 | `subtitle_done` comes exactly when there are more than 50 characters of captions, and `audio` exactly otherwise. |
| RouteProperties.CaptionsSkipRecognition | src/app/api/summarize/route.ts:180-185 | On the caption path the audio address, submission and poll are never consulted. |
| RouteProperties.DoneCarries | src/app/api/summarize/route.ts:219-241 | With a transcript, the final event is `done` carrying the information, the summary, the source (captions exactly when used) and the transcript's length, or else the summary step's error. |
| RouteProperties.DoneExactlyWhenComplete | src/app/api/summarize/route.ts:122-249 | A run ends with `done` exactly when every collaborator succeeded and the duration was accepted; otherwise it ends with `error`. A `done` always carries its data. |
| Page.Apply | src/app/page.tsx:110-128 | Every event joins the steps, and its `info` replaces the video information. `done` with data sets the result and the done state; `error` sets the message and the error state; any other event leaves them. |
| Page.ApplyAllSteps | src/app/page.tsx:111 | Every event is recorded in arrival order. |
| Page.ApplyAllProgress | src/app/page.tsx:119-128 | Events that are neither `done` nor `error` leave the state, result and error as they were. |
| Page.LineEvents | src/app/page.tsx:104-131 | A line yields its event exactly when it starts with `data: ` and the text after those six characters parses; any other line is skipped. |
| Page.DecodeAppend | src/app/page.tsx:98-102 | After each chunk, the buffer is the text after the last blank line of the old buffer plus the chunk. The frames handled are exactly those that chunk completes. |
| Page.DecodeWire | src/app/page.tsx:94-108 | The page reads back exactly the events the server's `data: …` frames carry, in order, with nothing left pending. |
| Page.RefusalMessage | src/app/page.tsx:82 | The server's `error` if non-empty, else `请求失败 (status)`. |
| Page.EndOfStream | src/app/page.tsx:136-140 | Intended end of stream: a run still processing becomes an error with the connection-lost message; any other state is kept. |
| Page.Home.constructor | src/app/page.tsx:46-51 | The page starts idle with an empty link and no steps, result, error or video. |
| Page.Home.SetUrl | src/app/page.tsx:206 | Typing changes only the link. |
| Page.Home.HandleEvent | src/app/page.tsx:110-128 | The state after one event is `Apply` of the old state. |
| Page.Home.HandleLine | src/app/page.tsx:104-131 | One line applies the events `LineEvents` gives. |
| Page.Home.HandleFrame | src/app/page.tsx:102-133 | A frame's lines are applied in order. |
| Page.Home.HandleChunk | src/app/page.tsx:98-133 | Every frame the chunk completes is applied in order, and the returned buffer is the text after the last blank line. |
| Page.Home.ReadStream | src/app/page.tsx:94-134 | The read loop leaves the state as the events of the concatenated chunks applied in order, and the buffer as the unfinished tail. |
| Page.Home.HandleSubmit | src/app/page.tsx:55-149 | A blank link does nothing. Otherwise the state is `Submitted`: reset, then the refusal, the missing-reader error, or the stream's events followed by how reading ended. The end of the stream follows the corrected `Page.EndOfStream`, not lines 137-140 as written (see Findings). |
| Page.Home.Cancel | src/app/page.tsx:218-222 | Cancelling shows the error state with the cancelled message, so the error panel is shown. |
| Page.Home.HandleReset | src/app/page.tsx:152-160 | Back to the initial idle state with an empty link. |
| Page.ProcessingHasNoError | src/app/page.tsx:110-128 | Applying any events keeps the rule that a page still processing has no error message. |
| Page.StaleStateHidesLostConnection | src/app/page.tsx:137-140 | As written: when a stream closes before `done` or `error`, the state becomes error with no message, and the error panel stays hidden. |
| Page.EmptyStreamShowsNothing | src/app/page.tsx:137-140 | As written: a stream that closes before any event leaves the error state with no steps, video, result or message. |
| Page.LostConnectionShown | src/app/page.tsx:136-140 | As intended: the early close keeps every event received and shows the connection-lost message. |
| Page.FinalApplied | src/app/page.tsx:110-128 | With exactly one final event, the page records every event, and the final one decides the state, result and error. |
| Page.RunApplied | src/app/page.tsx:110-128 | A whole run applied leaves processing, reaches done exactly when the run completes, and otherwise shows the final event's message. |
| Page.PageFollowsRun | src/app/page.tsx:55-149 | A stream carrying a run, cut into chunks in any way, leaves the page with every event of the run. It is done with the run's result exactly when the run completes, and otherwise in error with the final message. |
| JsString.Split | src/app/page.tsx:99 | Joining the parts with the separator gives the text back, and no part contains the separator. |
| JsString.SplitCutsLeftmost | src/app/page.tsx:99 | Each cut is at the leftmost occurrence: there is more than one part exactly when the separator occurs, and no occurrence starts inside a part, even one running on into the next separator. |
| JsString.SplitAppend | src/app/page.tsx:98-100 | Splitting a text with more appended keeps all but the last part and re-splits the last one with the addition. |
| JsString.TrimEmptyIff | src/lib/transcribe.ts:223-225 | Trimming gives "" exactly when the text is all white space. |
| JsString.Utf8Length | src/lib/audio-proxy-token.ts:47 | The byte length of `Buffer.from(s)`: between the character count and four times it, and equal to the character count exactly when every character is ASCII. |
| JsString.LastIndexOf | src/app/api/audio-proxy/route.ts:49 | The last occurrence of the character, or none. |
| JsNumber.CeilDiv | src/lib/rate-limit.ts:58 | The least integer not below the quotient. |
| JsNumber.RoundDiv | src/lib/summarize.ts:135 | The nearest integer to the quotient, halves rounded up. |
| JsNumber.ToNumberOfDecimal | src/lib/audio-proxy-token.ts:30 | `Number` reads back the decimal text of any integer. |
| JsNumber.HexLiteral | src/lib/audio-proxy-token.ts:30 | `Number` reads an unsigned hexadecimal literal: `0x10` is 16. |
| JsNumber.SignedHexLiteral | src/lib/audio-proxy-token.ts:30 | `Number` reads a signed hexadecimal literal (`-0x10`) as NaN. |
| JsNumber.InfinityLiteral | src/lib/audio-proxy-token.ts:30 | `Number` reads `-Infinity` as negative infinity. |
| JsNumber.ParseIntOfDecimal | src/lib/transcribe.ts:75 | `parseInt` reads back the decimal text of any non-negative integer. |

## Left out

- Network I/O: every `fetch`, the chat completion call, the ReadableStream controller and the detached `processVideo` task. Their results are inputs (`Env`, `CdnResponse`, `PollResponse`, `FetchOutcome` and the like). The pipeline runs to completion inside `Post`, so the response is not returned before the events are produced.
- Clocks and timers: `Date.now()` is a parameter, and the 3-second waits between polls are not modelled.
- Base64url, HMAC-SHA256, `timingSafeEqual`'s constant-time behaviour and `JSON.parse`/`JSON.stringify` are abstract functions with stated laws. `TimingSafeEqual` compares the texts' UTF-8 byte lengths, as `Buffer.from` gives them.
- `TextEncoder`/`TextDecoder`: not modelled. The server's frames and the page's chunks are text already, so chunks are cut between characters, never inside a character's bytes.
- JSON that parses to an unexpected shape (other than the cases each datatype lists), and a refused response with a JSON content type whose body is not JSON: that `SyntaxError` would show its own message and is not distinguished.
- `FetchOutcome.Response.errorField`: a non-string `error` member of a refused response is not modelled.
- String lengths: `.length` counts UTF-16 code units in the source and characters here. The caption threshold, the truncation at 50,000 and the reported lengths agree only for text in the Basic Multilingual Plane.
- AudioProxyRoute.VerifyToken: JSON numbers in the capsule's claims are integers. A fractional `exp` (the lifetime `ttlMs` may be fractional) is read as a non-number and rejected, where the source's `typeof data.exp !== "number"` test accepts it and compares it with the clock. The capsules `SignAudioToken` makes from integer times and lifetimes are not affected.
- JsNumber.ToNumber: decimal integers, unsigned `0x`/`0o`/`0b` literals and the signed infinities are read. Decimal fractions and exponents (`Number("1.5e9")`, `"1."`, `".5"`) read as NaN here, where JavaScript gives a number. Integers are exact, so neither the rounding of integers beyond 2^53 nor the overflow of huge literals to Infinity is modelled.
- Floating point: `toFixed` and the MiB division appear only in error texts and are modelled as integer rounding. The size gates compare byte counts, which is exact.
- getAudioUrl's in-place `sort` of the renditions: it is modelled by the position a stable ascending sort moves to the front (`Bilibili.LowestBandwidth`). The sorted array is not observed afterwards.
- The `__playinfo__` page scrape (`src/lib/bilibili.ts:187-202`): its outcome is an input, the renditions found or none.
- `submitTranscription`'s upload body (form data, model name and language hint): it is not modelled. The upload's answer is an input.
- The system prompt text and the request's message list: `Summarize.ChatRequest` carries the model, the user prompt, the temperature in tenths and the token cap.
- SummarizeRoute.Env: the pipeline takes each collaborator's result as an input rather than calling the models of `Bilibili`, `Transcribe` and `Summarize`. The cached chat client is not threaded through a run.
- SummarizeRoute.ReportProgress: progress reports are collected by the poll and sent afterwards. Nothing else is sent while polling, so the event order is the same.
- The abort controller: a cancel during an in-flight submission is not interleaved with that submission. `Page.Home.Cancel` and `Page.Home.HandleSubmit` are separate operations, and an aborted fetch or read keeps the state it reached.
- The JSX markup, Markdown rendering, clipboard and styles of `src/app/page.tsx`. Only the disabled input (line 208), the button swap (lines 215-229) and the error panel condition (line 328) enter the model.
- Console logging, the `AUDIO_PROXY_SECRET` start-up warning, `scripts/diagnose.ts` (a command-line diagnostic over live requests) and `next.config.ts` (static configuration).

## Findings

| source | as written | input that shows it | evidently intended | confidence | as-written member | corrected member |
|---|---|---|---|---|---|---|
| src/app/page.tsx:137-140 | After the stream ends, the handler tests `appState`, the value from the render it was created in. A submission can start only when that value is not `processing`: the input is disabled (line 208) and the submit button is replaced by cancel (lines 215-229). So the connection-lost message is never set. | A stream that closes before any `done` or `error` event, e.g. an empty body: the page moves to the error state with no message, and the error panel (line 328) stays hidden. | A run still processing when the stream ends shows "连接意外断开，请重试". | not executed | Page.EndAsWritten, Page.StaleStateHidesLostConnection, Page.EmptyStreamShowsNothing | Page.EndOfStream, Page.LostConnectionShown |
