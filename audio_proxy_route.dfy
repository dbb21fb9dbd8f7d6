/** The audio relay: a signed capsule `base64url(JSON{url, exp}) + "." + MAC`
    that lets the speech-recognition service fetch a platform audio stream
    through this server, and the handler that checks it and relays the
    stream. The secret is the DashScope API key; the clock is a parameter
    (milliseconds). */
module AudioProxyRoute {
  import opened Wrappers
  import opened JsString
  import opened Primitives
  import JsNumber

  const DefaultTtlMs := 15 * 60 * 1000
  const MissingSecretMessage := "DASHSCOPE_API_KEY not configured"

  /** `getSecret`: the configured key; an absent or empty one throws. */
  function GetSecret(env: Option<string>): (r: Result<string>)
    ensures r.Ok? <==> env.Some? && env.value != ""
    ensures r.Ok? ==> r.value == env.value
    ensures r.Err? ==> r.message == MissingSecretMessage
  {
    if env.Some? && env.value != "" then Ok(env.value) else Err(MissingSecretMessage)
  }

  /** `signAudioToken`: the encoded payload, a dot, and the MAC of the
      encoded payload under the secret; throws when there is no secret. */
  function SignAudioToken(c: Crypto, secretEnv: Option<string>, audioUrl: string, now: int, ttlMs: int): (r: Result<string>)
    ensures r.Err? <==> GetSecret(secretEnv).Err?
    ensures r.Err? ==> r.message == MissingSecretMessage
    ensures r.Ok? ==> var payload := c.encode(c.stringifyClaims(audioUrl, now + ttlMs));
      r.value == payload + "." + c.hmac(secretEnv.value, payload)
  {
    match GetSecret(secretEnv)
    case Err(e) => Err(e)
    case Ok(secret) =>
      var payload := c.encode(c.stringifyClaims(audioUrl, now + ttlMs));
      Ok(payload + "." + c.hmac(secret, payload))
  }

  /** The claims a verified capsule must carry: a numeric expiry not before
      `now` and a string address starting with "http". */
  predicate ClaimsAccepted(claims: Claims, now: int) {
    claims.exp.FNum? && claims.exp.n >= now && claims.url.FStr? && StartsWith(claims.url.s, "http")
  }

  /** `verifyToken`: `Ok(Some(url))` for an authentic, unexpired capsule,
      `Ok(None)` for every kind of rejection alike, and `Err` when a dotted
      token meets a missing secret. The token is cut at its last dot; a token
      without one is rejected before the secret is read. */
  function VerifyToken(c: Crypto, secretEnv: Option<string>, token: string, now: int): (r: Result<Option<string>>)
    ensures LastIndexOf(token, '.').None? ==> r == Ok(None)
    ensures r.Err? <==> LastIndexOf(token, '.').Some? && GetSecret(secretEnv).Err?
    ensures r.Ok? && r.value.Some? ==>
      && var dot := LastIndexOf(token, '.').value;
      && token[dot + 1..] == c.hmac(secretEnv.value, token[..dot])
      && c.parseClaims(c.decode(token[..dot])).Some?
      && var claims := c.parseClaims(c.decode(token[..dot])).value;
      && ClaimsAccepted(claims, now) && r.value.value == claims.url.s
  {
    match LastIndexOf(token, '.')
    case None => Ok(None)
    case Some(dot) =>
      var payload := token[..dot];
      var sig := token[dot + 1..];
      match GetSecret(secretEnv)
      case Err(e) => Err(e)
      case Ok(secret) =>
        if sig != c.hmac(secret, payload) then Ok(None)
        else match c.parseClaims(c.decode(payload))
          case None => Ok(None)
          case Some(claims) =>
            if !claims.exp.FNum? || claims.exp.n < now then Ok(None)
            else if !claims.url.FStr? || !StartsWith(claims.url.s, "http") then Ok(None)
            else Ok(Some(claims.url.s))
  }

  /** The last dot of a signed capsule is the one `signAudioToken` put
      between payload and signature, because neither holds a dot. */
  lemma SignedTokenSplit(c: Crypto, secret: string, payload: string)
    requires Lawful(c) && IsBase64Url(payload)
    ensures var token := payload + "." + c.hmac(secret, payload);
      && LastIndexOf(token, '.') == Some(|payload|)
      && token[..|payload|] == payload
      && token[|payload| + 1..] == c.hmac(secret, payload)
  {
    var sig := c.hmac(secret, payload);
    var token := payload + "." + sig;
    assert IsBase64Url(sig);
    assert token[|payload|] == '.';
    forall j | |payload| < j < |token| ensures token[j] != '.' {
      assert token[j] == sig[j - |payload| - 1];
      assert IsBase64UrlChar(sig[j - |payload| - 1]);
    }
    LastDotAt(token, |payload|);
    assert token[..|payload|] == payload;
    assert token[|payload| + 1..] == sig;
  }

  lemma {:induction false} LastDotAt(s: string, k: nat)
    requires k < |s| && s[k] == '.'
    requires forall j :: k < j < |s| ==> s[j] != '.'
    ensures LastIndexOf(s, '.') == Some(k)
    decreases |s|
  {
    if k < |s| - 1 {
      LastDotAt(s[..|s| - 1], k);
    }
  }

  /** Round trip: a capsule signed at `now` for an "http" address gives the
      address back at any time up to its expiry. */
  lemma SignVerifyRoundTrip(c: Crypto, secretEnv: Option<string>, url: string, now: int, ttlMs: int, later: int)
    requires Lawful(c) && GetSecret(secretEnv).Ok?
    requires StartsWith(url, "http") && later <= now + ttlMs
    ensures VerifyToken(c, secretEnv, SignAudioToken(c, secretEnv, url, now, ttlMs).value, later) == Ok(Some(url))
  {
    var payload := c.encode(c.stringifyClaims(url, now + ttlMs));
    SignedTokenSplit(c, secretEnv.value, payload);
  }

  /** A capsule is refused once its expiry has passed. */
  lemma ExpiredRejected(c: Crypto, secretEnv: Option<string>, url: string, now: int, ttlMs: int, later: int)
    requires Lawful(c) && GetSecret(secretEnv).Ok?
    requires later > now + ttlMs
    ensures VerifyToken(c, secretEnv, SignAudioToken(c, secretEnv, url, now, ttlMs).value, later) == Ok(None)
  {
    var payload := c.encode(c.stringifyClaims(url, now + ttlMs));
    SignedTokenSplit(c, secretEnv.value, payload);
  }

  /** With the default lifetime a capsule for an "http" address is accepted
      for exactly fifteen minutes after signing. */
  lemma DefaultLifetime(c: Crypto, secretEnv: Option<string>, url: string, now: int, later: int)
    requires Lawful(c) && GetSecret(secretEnv).Ok? && StartsWith(url, "http")
    ensures VerifyToken(c, secretEnv, SignAudioToken(c, secretEnv, url, now, DefaultTtlMs).value, later)
      == if later <= now + 900_000 then Ok(Some(url)) else Ok(None)
  {
    if later <= now + DefaultTtlMs {
      SignVerifyRoundTrip(c, secretEnv, url, now, DefaultTtlMs, later);
    } else {
      ExpiredRejected(c, secretEnv, url, now, DefaultTtlMs, later);
    }
  }

  /** An address that does not start with "http" is refused even when the
      capsule is authentic and fresh. */
  lemma NonHttpRejected(c: Crypto, secretEnv: Option<string>, url: string, now: int, ttlMs: int, later: int)
    requires Lawful(c) && GetSecret(secretEnv).Ok?
    requires !StartsWith(url, "http")
    ensures VerifyToken(c, secretEnv, SignAudioToken(c, secretEnv, url, now, ttlMs).value, later) == Ok(None)
  {
    var payload := c.encode(c.stringifyClaims(url, now + ttlMs));
    SignedTokenSplit(c, secretEnv.value, payload);
  }

  /** A wrong signature is refused whatever the payload holds: the verdict
      does not depend on how the payload would decode or parse. */
  lemma BadSignatureRejected(c: Crypto, d: Crypto, secretEnv: Option<string>, payload: string, sig: string, now: int)
    requires GetSecret(secretEnv).Ok? && '.' !in sig
    requires sig != c.hmac(secretEnv.value, payload)
    requires d.hmac == c.hmac
    ensures VerifyToken(c, secretEnv, payload + "." + sig, now) == Ok(None)
    ensures VerifyToken(d, secretEnv, payload + "." + sig, now) == Ok(None)
  {
    var token := payload + "." + sig;
    assert token[|payload|] == '.';
    forall j | |payload| < j < |token| ensures token[j] != '.' {
      assert token[j] == sig[j - |payload| - 1];
    }
    LastDotAt(token, |payload|);
    assert token[..|payload|] == payload;
    assert token[|payload| + 1..] == sig;
  }

  /** Where the handler's response body comes from. */
  datatype Body = Text(text: string) | UpstreamStream

  datatype Response = Response(status: int, body: Body, headers: seq<(string, string)>)

  /** What the ranged fetch of the audio address produced. */
  datatype Upstream =
    | UpstreamThrew(error: string)
    | Upstream(status: int, contentType: Option<string>, contentLength: Option<string>)

  /** The relayed response's headers: the upstream content type or
      "audio/mp4", the upstream length only when it sent one, and no caching. */
  function RelayHeaders(up: Upstream): (h: seq<(string, string)>)
    requires up.Upstream?
    ensures |h| == 2 || |h| == 3
    ensures h[0] == ("Content-Type", OrElse(up.contentType, "audio/mp4"))
    ensures h[|h| - 1] == ("Cache-Control", "no-store")
    ensures |h| == 3 <==> up.contentLength.Some? && up.contentLength.value != ""
    ensures |h| == 3 ==> h[1] == ("Content-Length", up.contentLength.value)
  {
    [("Content-Type", OrElse(up.contentType, "audio/mp4"))]
    + (if up.contentLength.Some? && up.contentLength.value != "" then [("Content-Length", up.contentLength.value)] else [])
    + [("Cache-Control", "no-store")]
  }

  /** `GET /api/audio-proxy?token=...`: 400 without a token, 403 when it does
      not verify, 502 when the upstream answers neither OK nor 206, and
      otherwise 200 relaying the stream. `Err` is a thrown error (no secret,
      failed fetch), which the framework turns into a 500. `up` is consulted
      only once the token has verified. */
  function Get(c: Crypto, secretEnv: Option<string>, token: Option<string>, now: int, up: Upstream): (r: Result<Response>)
    ensures (token.None? || token.value == "") ==> r == Ok(Response(400, Text("Missing token"), []))
    ensures token.Some? && token.value != "" && VerifyToken(c, secretEnv, token.value, now) == Ok(None) ==>
      r == Ok(Response(403, Text("Invalid or expired token"), []))
    ensures r.Ok? && r.value.status == 502 <==>
      token.Some? && token.value != "" && VerifyToken(c, secretEnv, token.value, now).Ok?
      && VerifyToken(c, secretEnv, token.value, now).value.Some?
      && up.Upstream? && !(200 <= up.status <= 299) && up.status != 206
    ensures r.Ok? && r.value.status == 200 ==> up.Upstream? && r.value.body == UpstreamStream && r.value.headers == RelayHeaders(up)
    ensures (token.Some? && token.value != "" && VerifyToken(c, secretEnv, token.value, now).Ok?
             && VerifyToken(c, secretEnv, token.value, now).value.Some?
             && up.Upstream? && (200 <= up.status <= 299 || up.status == 206))
            ==> r == Ok(Response(200, UpstreamStream, RelayHeaders(up)))
    ensures r.Err? <==> (token.Some? && token.value != "" &&
                         (VerifyToken(c, secretEnv, token.value, now).Err?
                          || (VerifyToken(c, secretEnv, token.value, now).value.Some? && up.UpstreamThrew?)))
    ensures r.Ok? ==> r.value.status in {200, 400, 403, 502}
  {
    if token.None? || token.value == "" then Ok(Response(400, Text("Missing token"), []))
    else match VerifyToken(c, secretEnv, token.value, now)
      case Err(e) => Err(e)
      case Ok(None) => Ok(Response(403, Text("Invalid or expired token"), []))
      case Ok(Some(_)) =>
        match up
        case UpstreamThrew(e) => Err(e)
        case Upstream(status, _, _) =>
          if !(200 <= status <= 299) && status != 206 then
            Ok(Response(502, Text("Upstream error: " + JsNumber.IntToDecimal(status)), []))
          else Ok(Response(200, UpstreamStream, RelayHeaders(up)))
  }

  /** A freshly signed capsule for an "http" address, with an upstream that
      answers OK or 206, is relayed with status 200 and the relay headers. */
  lemma FreshTokenRelayed(c: Crypto, secretEnv: Option<string>, url: string, now: int, ttlMs: int, later: int,
                          status: int, contentType: Option<string>, contentLength: Option<string>)
    requires Lawful(c) && GetSecret(secretEnv).Ok?
    requires StartsWith(url, "http") && later <= now + ttlMs
    requires 200 <= status <= 299 || status == 206
    ensures var token := SignAudioToken(c, secretEnv, url, now, ttlMs).value;
      var up := Upstream(status, contentType, contentLength);
      Get(c, secretEnv, Some(token), later, up) == Ok(Response(200, UpstreamStream, RelayHeaders(up)))
  {
    SignVerifyRoundTrip(c, secretEnv, url, now, ttlMs, later);
    var payload := c.encode(c.stringifyClaims(url, now + ttlMs));
    assert SignAudioToken(c, secretEnv, url, now, ttlMs).value != "" by {
      assert |payload + "." + c.hmac(secretEnv.value, payload)| > 0;
    }
  }
}
