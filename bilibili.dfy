/** The video platform client: pulling a BV identifier out of a link,
    resolving a short link, mapping the metadata response, choosing a
    caption track, locating the audio stream and downloading it. Every HTTP
    exchange is an input: the response the platform gave, or the message of
    the error the fetch threw. */
module Bilibili {
  import opened Wrappers
  import opened JsString
  import opened JsNumber
  import opened Primitives

  // ---------------------------------------------------------------------------
  // BV identifiers
  // ---------------------------------------------------------------------------

  const MinIdLength := 10
  const MaxIdLength := 12

  predicate IsAlnum(c: char) {
    'a' <= c <= 'z' || 'A' <= c <= 'Z' || '0' <= c <= '9'
  }

  /** How many characters the greedy `[a-zA-Z0-9]{..cap}` takes at `j`. */
  function AlnumRun(t: string, j: nat, cap: nat): (n: nat)
    requires j <= |t|
    ensures n <= cap && j + n <= |t|
    ensures forall k :: j <= k < j + n ==> IsAlnum(t[k])
    ensures n < cap && j + n < |t| ==> !IsAlnum(t[j + n])
    decreases cap
  {
    if cap == 0 || j == |t| || !IsAlnum(t[j]) then 0 else 1 + AlnumRun(t, j + 1, cap - 1)
  }

  /** The pattern `(?:BV|bv)([a-zA-Z0-9]{10,12})` matches at position `i` of `t`. */
  predicate MatchesAt(t: string, i: nat) {
    i + 2 <= |t| && (t[i..i + 2] == "BV" || t[i..i + 2] == "bv")
    && AlnumRun(t, i + 2, MaxIdLength) >= MinIdLength
  }

  /** The leftmost position at or after `i` where the pattern matches. */
  function FindMatch(t: string, i: nat): (r: Option<nat>)
    requires i <= |t|
    ensures r.Some? ==> i <= r.value && MatchesAt(t, r.value)
    ensures r.Some? ==> forall j :: i <= j < r.value ==> !MatchesAt(t, j)
    ensures r.None? ==> forall j :: i <= j ==> !MatchesAt(t, j)
    decreases |t| - i
  {
    if MatchesAt(t, i) then Some(i)
    else if i + 2 >= |t| then None
    else FindMatch(t, i + 1)
  }

  /** The pattern matches at `i` and nowhere before it. */
  predicate LeftmostMatch(t: string, i: nat) {
    MatchesAt(t, i) && forall j :: 0 <= j < i ==> !MatchesAt(t, j)
  }

  /** The characters the capture group takes at a match. */
  function Capture(t: string, i: nat): (c: string)
    requires MatchesAt(t, i)
    ensures MinIdLength <= |c| <= MaxIdLength
    ensures forall k :: 0 <= k < |c| ==> IsAlnum(c[k])
  {
    t[i + 2..i + 2 + AlnumRun(t, i + 2, MaxIdLength)]
  }

  /** The shape of every identifier the parser returns. */
  predicate IsBvid(id: string) {
    StartsWith(id, "BV") && 2 + MinIdLength <= |id| <= 2 + MaxIdLength
    && forall k :: 2 <= k < |id| ==> IsAlnum(id[k])
  }

  lemma BvidOfCapture(c: string)
    requires MinIdLength <= |c| <= MaxIdLength
    requires forall k :: 0 <= k < |c| ==> IsAlnum(c[k])
    ensures IsBvid("BV" + c)
  {
    var id := "BV" + c;
    assert id[..2] == "BV";
    forall k | 2 <= k < |id| ensures IsAlnum(id[k]) {
      assert id[k] == c[k - 2];
    }
  }

  /** "BV" and the capture at the leftmost match in `t`, if there is one. */
  function FirstId(t: string): Option<string> {
    match FindMatch(t, 0)
    case None => None
    case Some(i) => Some("BV" + Capture(t, i))
  }

  /** `parseBilibiliUrl`: "BV" followed by the 10 to 12 characters the pattern
      captures at its leftmost match in the trimmed input; `None` when the
      pattern matches nowhere. */
  function ParseBilibiliUrl(url: string): (r: Option<string>)
    ensures r.None? <==> forall i :: !MatchesAt(Trim(url), i)
    ensures r.Some? ==> IsBvid(r.value)
    ensures r.Some? ==> exists i :: LeftmostMatch(Trim(url), i) && r.value == "BV" + Capture(Trim(url), i)
  {
    FirstIdSpec(Trim(url));
    FirstId(Trim(url))
  }

  lemma FirstIdSpec(t: string)
    ensures FirstId(t).None? <==> forall i :: !MatchesAt(t, i)
    ensures FirstId(t).Some? ==> IsBvid(FirstId(t).value)
    ensures FirstId(t).Some? ==> exists i :: LeftmostMatch(t, i) && FirstId(t).value == "BV" + Capture(t, i)
  {
    if FindMatch(t, 0).Some? {
      var i := FindMatch(t, 0).value;
      BvidOfCapture(Capture(t, i));
      assert LeftmostMatch(t, i);
    }
  }

  lemma {:induction false} AlnumRunAll(t: string, j: nat, cap: nat)
    requires j <= |t| && |t| - j <= cap
    requires forall k :: j <= k < |t| ==> IsAlnum(t[k])
    ensures AlnumRun(t, j, cap) == |t| - j
    decreases cap
  {
    if j < |t| {
      AlnumRunAll(t, j + 1, cap - 1);
    }
  }

  /** An identifier of the parser's shape has no white space to trim. */
  lemma BvidUntrimmed(id: string)
    requires IsBvid(id)
    ensures Trim(id) == id
  {
    assert id[0] == 'B' by {
      assert id[..2] == "BV";
    }
    assert IsAlnum(id[|id| - 1]);
    TrimUnpadded(id);
  }

  /** An identifier of the parser's shape is matched at its own start. */
  lemma BvidMatchesAtStart(id: string)
    requires IsBvid(id)
    ensures MatchesAt(id, 0) && Capture(id, 0) == id[2..]
  {
    AlnumRunAll(id, 2, MaxIdLength);
    assert id[0..2] == id[..2];
  }

  lemma BvidSplit(id: string)
    requires IsBvid(id)
    ensures id == "BV" + id[2..]
  {
    assert id == id[..2] + id[2..];
  }

  /** An identifier of the parser's shape parses to itself. */
  lemma ParseBvid(id: string)
    requires IsBvid(id)
    ensures ParseBilibiliUrl(id) == Some(id)
  {
    BvidUntrimmed(id);
    FirstIdOfBvid(id);
  }

  lemma FirstIdOfBvid(id: string)
    requires IsBvid(id)
    ensures FirstId(id) == Some(id)
  {
    BvidMatchesAtStart(id);
    BvidSplit(id);
    assert FindMatch(id, 0) == Some(0);
  }

  /** Parsing an identifier the parser produced gives it back unchanged. */
  lemma ParseIdempotent(url: string)
    requires ParseBilibiliUrl(url).Some?
    ensures ParseBilibiliUrl(ParseBilibiliUrl(url).value) == ParseBilibiliUrl(url)
  {
    ParseBvid(ParseBilibiliUrl(url).value);
  }

  /** `resolveShortUrl`: without "b23.tv" in the input it is `None` and no
      request is made; otherwise the identifier parsed from the address the
      redirect-following HEAD request ends at, or `None` if that request
      threw. `finalUrl` is that address. */
  function ResolveShortUrl(url: string, finalUrl: Option<string>): (r: Option<string>)
    ensures !Contains(url, "b23.tv") ==> r.None?
    ensures finalUrl.None? ==> r.None?
    ensures r.Some? ==> r == ParseBilibiliUrl(finalUrl.value)
    ensures Contains(url, "b23.tv") && finalUrl.Some? ==> r == ParseBilibiliUrl(finalUrl.value)
  {
    if !Contains(url, "b23.tv") then None
    else match finalUrl
      case None => None
      case Some(u) => ParseBilibiliUrl(u)
  }

  // ---------------------------------------------------------------------------
  // Video metadata
  // ---------------------------------------------------------------------------

  datatype VideoInfo = VideoInfo(
    bvid: string, cid: int, title: string, description: string,
    duration: int, owner: string, pic: string)

  /** The `data` object of the metadata API; absent optional fields are `None`. */
  datatype ViewData = ViewData(
    bvid: string, cid: int, title: string, desc: Option<string>,
    duration: int, ownerName: Option<string>, pic: string)

  /** What the metadata request produced: the thrown error, or the JSON body. */
  datatype ViewResponse =
    | ViewThrew(error: string)
    | View(code: int, message: Option<string>, data: ViewData)

  /** `x || ""` for an optional string. */
  function OrEmpty(s: Option<string>): string {
    if s.Some? then s.value else ""
  }

  /** A protocol-relative address ("//host/...") gets the "https:" scheme;
      any other address is left as it is. */
  function NormalizeUrl(u: string): (r: string)
    ensures !StartsWith(r, "//")
    ensures StartsWith(u, "//") ==> r == "https:" + u
    ensures !StartsWith(u, "//") ==> r == u
  {
    if StartsWith(u, "//") then
      assert ("https:" + u)[0] == 'h';
      "https:" + u
    else u
  }

  const UnknownError := "未知错误"

  /** `getVideoInfo`: a non-zero code throws with the service's message (or
      "未知错误"); otherwise the fields are mapped, a missing description or
      owner becomes "" and the cover address is normalised. */
  function GetVideoInfo(resp: ViewResponse): (r: Result<VideoInfo>)
    ensures r.Ok? <==> resp.View? && resp.code == 0
    ensures resp.View? && resp.code != 0 ==>
      r == Err("获取视频信息失败: " + OrElse(resp.message, UnknownError))
    ensures r.Ok? ==>
      && r.value.title == resp.data.title && r.value.duration == resp.data.duration
      && r.value.cid == resp.data.cid && r.value.bvid == resp.data.bvid
      && r.value.description == OrEmpty(resp.data.desc)
      && r.value.owner == OrEmpty(resp.data.ownerName)
      && r.value.pic == NormalizeUrl(resp.data.pic)
  {
    match resp
    case ViewThrew(e) => Err(e)
    case View(code, message, d) =>
      if code != 0 then Err("获取视频信息失败: " + OrElse(message, UnknownError))
      else Ok(VideoInfo(d.bvid, d.cid, d.title, OrEmpty(d.desc), d.duration,
                        OrEmpty(d.ownerName), NormalizeUrl(d.pic)))
  }

  // ---------------------------------------------------------------------------
  // Captions
  // ---------------------------------------------------------------------------

  /** One caption track; a missing `subtitle_url` is "". */
  datatype SubtitleTrack = SubtitleTrack(lan: string, subtitleUrl: string)

  /** What the player API request produced. */
  datatype PlayerResponse =
    | PlayerThrew
    | Player(code: int, tracks: Option<seq<SubtitleTrack>>)

  /** What fetching one caption document produced: its `body` contents. */
  datatype SubtitleDoc =
    | DocThrew
    | SubtitleDoc(body: Option<seq<string>>)

  predicate IsChinese(lan: string) {
    lan == "zh-CN" || lan == "ai-zh" || lan == "zh-Hans"
  }

  function FirstChinese(tracks: seq<SubtitleTrack>, from: nat): (r: Option<nat>)
    requires from <= |tracks|
    ensures r.Some? ==> from <= r.value < |tracks| && IsChinese(tracks[r.value].lan)
    ensures r.Some? ==> forall j :: from <= j < r.value ==> !IsChinese(tracks[j].lan)
    ensures r.None? ==> forall j :: from <= j < |tracks| ==> !IsChinese(tracks[j].lan)
    decreases |tracks| - from
  {
    if from == |tracks| then None
    else if IsChinese(tracks[from].lan) then Some(from)
    else FirstChinese(tracks, from + 1)
  }

  /** The track `getSubtitles` reads: the first Chinese one, else the first. */
  function PreferredTrack(tracks: seq<SubtitleTrack>): (k: nat)
    requires |tracks| > 0
    ensures k < |tracks|
    ensures forall j :: 0 <= j < k ==> !IsChinese(tracks[j].lan)
    ensures !IsChinese(tracks[k].lan) ==> k == 0 && forall j :: 0 <= j < |tracks| ==> !IsChinese(tracks[j].lan)
  {
    match FirstChinese(tracks, 0)
    case Some(k) => k
    case None => 0
  }

  /** `getSubtitles`: the caption lines of the preferred track joined with
      "\n", fetched from its normalised address (`fetchDoc` gives what each
      address returns). `None` on a non-zero code, no tracks, a track without
      an address, an empty body, an empty joined text or any thrown error. */
  function GetSubtitles(player: PlayerResponse, fetchDoc: string -> SubtitleDoc): (r: Option<string>)
    ensures r.Some? ==> r.value != ""
    ensures r.Some? <==>
      && player.Player? && player.code == 0
      && player.tracks.Some? && |player.tracks.value| > 0
      && var track := player.tracks.value[PreferredTrack(player.tracks.value)];
      && track.subtitleUrl != ""
      && var doc := fetchDoc(NormalizeUrl(track.subtitleUrl));
      && doc.SubtitleDoc? && doc.body.Some? && |doc.body.value| > 0
      && Join(doc.body.value, "\n") != ""
    ensures r.Some? ==>
      r.value == Join(fetchDoc(NormalizeUrl(player.tracks.value[PreferredTrack(player.tracks.value)].subtitleUrl)).body.value, "\n")
  {
    if player.PlayerThrew? || player.code != 0 then None
    else if player.tracks.None? || |player.tracks.value| == 0 then None
    else
      var track := player.tracks.value[PreferredTrack(player.tracks.value)];
      if track.subtitleUrl == "" then None
      else match fetchDoc(NormalizeUrl(track.subtitleUrl))
        case DocThrew => None
        case SubtitleDoc(body) =>
          if body.None? || |body.value| == 0 then None
          else
            var text := Join(body.value, "\n");
            if |text| > 0 then Some(text) else None
  }

  // ---------------------------------------------------------------------------
  // Audio stream
  // ---------------------------------------------------------------------------

  /** One DASH audio rendition; a missing `baseUrl` or `base_url` is "". */
  datatype AudioStream = AudioStream(bandwidth: int, baseUrl: string, snakeBaseUrl: string)

  /** What the playurl API request produced. */
  datatype PlayUrlResponse =
    | PlayUrlThrew
    | PlayUrl(code: int, audio: Option<seq<AudioStream>>)

  /** The position a stable ascending sort by bandwidth moves to the front:
      the first rendition of least bandwidth. */
  function LowestBandwidth(audios: seq<AudioStream>): (k: nat)
    requires |audios| > 0
    ensures k < |audios|
    ensures forall j :: 0 <= j < |audios| ==> audios[k].bandwidth <= audios[j].bandwidth
    ensures forall j :: 0 <= j < k ==> audios[j].bandwidth > audios[k].bandwidth
  {
    if |audios| == 1 then 0
    else
      var k := LowestBandwidth(audios[..|audios| - 1]);
      if audios[|audios| - 1].bandwidth < audios[k].bandwidth then |audios| - 1 else k
  }

  /** `a.baseUrl || a.base_url`. */
  function StreamUrl(a: AudioStream): string {
    if a.baseUrl != "" then a.baseUrl else a.snakeBaseUrl
  }

  /** The address of the lowest-bandwidth rendition, if it has one. */
  function PickAudio(audios: seq<AudioStream>): (r: Option<string>)
    ensures r.Some? ==> |audios| > 0 && r.value != "" && r.value == StreamUrl(audios[LowestBandwidth(audios)])
    ensures |audios| > 0 && StreamUrl(audios[LowestBandwidth(audios)]) != "" ==> r.Some?
  {
    if audios == [] then None
    else
      var u := StreamUrl(audios[LowestBandwidth(audios)]);
      if u == "" then None else Some(u)
  }

  /** Strategy 1: the playurl API, when it answers code 0 with renditions. */
  function FromPlayUrl(resp: PlayUrlResponse): Option<string> {
    if resp.PlayUrl? && resp.code == 0 && resp.audio.Some? then PickAudio(resp.audio.value) else None
  }

  /** Strategy 2: the renditions embedded in the video page, when the page
      fetch, the pattern match and the JSON parse all succeeded (`scraped`). */
  function FromPage(scraped: Option<seq<AudioStream>>): Option<string> {
    if scraped.Some? then PickAudio(scraped.value) else None
  }

  const NoAudioMessage := "无法获取音频流，可能是视频不可用或 Bilibili 接口发生变动"

  /** `getAudioUrl`: strategy 1's address if it found one, else strategy 2's;
      a strategy's failures are swallowed and only exhausting both throws. */
  function GetAudioUrl(playUrl: PlayUrlResponse, scraped: Option<seq<AudioStream>>): (r: Result<string>)
    ensures FromPlayUrl(playUrl).Some? ==> r == Ok(FromPlayUrl(playUrl).value)
    ensures FromPlayUrl(playUrl).None? && FromPage(scraped).Some? ==> r == Ok(FromPage(scraped).value)
    ensures r.Err? <==> FromPlayUrl(playUrl).None? && FromPage(scraped).None?
    ensures r.Err? ==> r.message == NoAudioMessage
  {
    match FromPlayUrl(playUrl)
    case Some(u) => Ok(u)
    case None =>
      match FromPage(scraped)
      case Some(u) => Ok(u)
      case None => Err(NoAudioMessage)
  }

  /** When the page is consulted, the address is the lowest-bandwidth one
      among the page's renditions. */
  lemma PageFallbackPicksLowest(playUrl: PlayUrlResponse, audios: seq<AudioStream>)
    requires FromPlayUrl(playUrl).None?
    requires |audios| > 0 && StreamUrl(audios[LowestBandwidth(audios)]) != ""
    ensures GetAudioUrl(playUrl, Some(audios)).Ok?
    ensures var u := GetAudioUrl(playUrl, Some(audios)).value;
      exists k :: 0 <= k < |audios| && u == StreamUrl(audios[k])
        && forall j :: 0 <= j < |audios| ==> audios[k].bandwidth <= audios[j].bandwidth
  {
    var k := LowestBandwidth(audios);
    assert GetAudioUrl(playUrl, Some(audios)).value == StreamUrl(audios[k]);
  }

  // ---------------------------------------------------------------------------
  // Audio download
  // ---------------------------------------------------------------------------

  const MaxAudioBytes := 200 * MiB

  /** What the ranged audio request produced. */
  datatype Download =
    | DownloadThrew(error: string)
    | Downloaded(status: int, body: seq<bv8>)

  /** `downloadAudio`: an OK or 206 response of at most 200 MiB is returned
      as it is; any other status, or a larger payload, throws. */
  function DownloadAudio(resp: Download): (r: Result<seq<bv8>>)
    ensures r.Ok? <==> resp.Downloaded? && (IsOk(resp.status) || resp.status == 206) && |resp.body| <= MaxAudioBytes
    ensures r.Ok? ==> r.value == resp.body
  {
    match resp
    case DownloadThrew(e) => Err(e)
    case Downloaded(status, body) =>
      if !IsOk(status) && status != 206 then Err("下载音频失败: HTTP " + IntToDecimal(status))
      else if |body| > MaxAudioBytes then
        Err("音频文件过大（" + MiBToFixed(|body|, 1) + " MB），超过 200MB 限制，请尝试更短的视频")
      else Ok(body)
  }
}
