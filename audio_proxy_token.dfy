/** The second relay capsule: the payload `url|expires` (expiry in whole
    seconds), sent as `base64url(payload)` when no secret is configured and
    as `base64url(payload) + "." + MAC(payload)` when one is. The secret is
    the configured `AUDIO_PROXY_SECRET`, "" when unset; the clock is a
    parameter in milliseconds. */
module AudioProxyToken {
  import opened Wrappers
  import opened JsString
  import opened JsNumber
  import opened Primitives

  const DefaultTtlSeconds := 300

  /** `Math.floor(nowMs / 1000) + ttlSeconds`. */
  function ExpiresAt(nowMs: int, ttlSeconds: int): (e: int)
    ensures 1000 * (e - ttlSeconds) <= nowMs < 1000 * (e - ttlSeconds + 1)
  {
    nowMs / 1000 + ttlSeconds
  }

  /** The text `${url}|${expires}`. */
  function Payload(url: string, expires: int): string {
    url + "|" + IntToDecimal(expires)
  }

  /** `generateAudioProxyToken`. */
  function Generate(c: Crypto, secret: string, url: string, nowMs: int, ttlSeconds: int): (r: string)
    ensures secret == "" ==> r == c.encode(Payload(url, ExpiresAt(nowMs, ttlSeconds)))
    ensures secret != "" ==> var p := Payload(url, ExpiresAt(nowMs, ttlSeconds));
      r == c.encode(p) + "." + c.hmac(secret, p)
  {
    var payload := Payload(url, ExpiresAt(nowMs, ttlSeconds));
    if secret == "" then c.encode(payload)
    else c.encode(payload) + "." + c.hmac(secret, payload)
  }

  /** `{ valid, url? }`. */
  datatype VerifyResult = VerifyResult(valid: bool, url: Option<string>)

  const Invalid := VerifyResult(false, None)

  /** `const [url, expiresStr] = payload.split("|"); Number(expiresStr)`: the
      text before the first "|", and the second segment read as a number
      (NaN when there is none). */
  function ReadPayload(payload: string): (r: (string, Number))
    ensures '|' !in r.0
    ensures !Contains(payload, "|") ==> r == (payload, NaN)
  {
    var parts := Split(payload, "|");
    assert !Contains(parts[0], "|");
    assert '|' !in parts[0] by {
      forall j | 0 <= j < |parts[0]| ensures parts[0][j] != '|' {
        if parts[0][j] == '|' {
          ContainsAt(parts[0], "|", j);
        }
      }
    }
    (parts[0], if |parts| > 1 then ToNumber(parts[1]) else NaN)
  }

  /** `Date.now() / 1000 > expires`: never true for NaN or for positive
      infinity, always true for negative infinity. */
  predicate Expired(nowMs: int, expires: Number) {
    match expires
    case NaN => false
    case Num(n) => nowMs > 1000 * n
    case Infinity(negative) => negative
  }

  /** `crypto.timingSafeEqual(Buffer.from(a), Buffer.from(b))`: the two
      texts' UTF-8 encodings are compared, and encodings of unequal byte
      length throw. UTF-8 is one-to-one, so equal bytes mean equal texts. */
  function TimingSafeEqual(a: string, b: string): (r: Result<bool>)
    ensures r.Ok? <==> Utf8Length(a) == Utf8Length(b)
    ensures r.Ok? ==> (r.value <==> a == b)
  {
    if Utf8Length(a) != Utf8Length(b) then Err("Input buffers must have the same byte length") else Ok(a == b)
  }

  /** The lengths compared are byte lengths, not character counts: "é" and
      "ab" are both two bytes long and compare unequal without a throw,
      while "é" and "a", one character each, throw. */
  lemma TimingSafeEqualCountsBytes()
    ensures TimingSafeEqual("é", "ab") == Ok(false)
    ensures TimingSafeEqual("é", "a").Err?
  {
    assert Utf8Length("é") == 2 by {
      assert "é"[1..] == [];
    }
    assert Utf8Length("ab") == 2 by {
      assert "ab"[1..] == "b" && "b"[1..] == [];
    }
  }

  /** `verifyAudioProxyToken`: every failure, including the thrown length
      mismatch, is `{valid: false}` without an address. */
  function Verify(c: Crypto, secret: string, token: string, nowMs: int): (r: VerifyResult)
    ensures token == "" ==> r == Invalid
    ensures !r.valid ==> r == Invalid
    ensures r.valid ==> r.url.Some? && '|' !in r.url.value
    ensures secret != "" && |Split(token, ".")| != 2 ==> r == Invalid
    ensures secret != "" && r.valid ==>
      var parts := Split(token, ".");
      |parts| == 2 && parts[1] == c.hmac(secret, c.decode(parts[0]))
      && r.url.value == ReadPayload(c.decode(parts[0])).0
      && !Expired(nowMs, ReadPayload(c.decode(parts[0])).1)
    ensures secret == "" && r.valid ==>
      r.url.value == ReadPayload(c.decode(token)).0 && !Expired(nowMs, ReadPayload(c.decode(token)).1)
  {
    if token == "" then Invalid
    else if secret == "" then
      var (url, expires) := ReadPayload(c.decode(token));
      if Expired(nowMs, expires) then Invalid else VerifyResult(true, Some(url))
    else
      var parts := Split(token, ".");
      if |parts| != 2 then Invalid
      else
        var payload := c.decode(parts[0]);
        var (url, expires) := ReadPayload(payload);
        if Expired(nowMs, expires) then Invalid
        else match TimingSafeEqual(parts[1], c.hmac(secret, payload))
          case Err(_) => Invalid
          case Ok(same) => if !same then Invalid else VerifyResult(true, Some(url))
  }

  /** A payload with an address free of "|" reads back as that address and
      its expiry. */
  lemma ReadPayloadOf(url: string, expires: int)
    requires '|' !in url
    ensures ReadPayload(Payload(url, expires)) == (url, Num(expires))
  {
    var dec := IntToDecimal(expires);
    assert forall i :: 0 <= i < |url| ==> url[i] != "|"[0];
    SplitHead(url, "|", dec);
    NoCharNoText(dec, "|");
    SplitNone(dec, "|");
    assert Split(Payload(url, expires), "|") == [url, dec];
    ToNumberOfDecimal(expires);
  }

  /** An encoded payload and a digest joined by a dot split back into the two. */
  lemma SignedSplit(c: Crypto, secret: string, payload: string)
    requires Lawful(c)
    ensures Split(c.encode(payload) + "." + c.hmac(secret, payload), ".") == [c.encode(payload), c.hmac(secret, payload)]
  {
    var enc := c.encode(payload);
    var sig := c.hmac(secret, payload);
    assert IsBase64Url(enc) && IsBase64Url(sig);
    assert forall i :: 0 <= i < |enc| ==> enc[i] != "."[0] by {
      Base64UrlHasNoSeparator(enc, '.');
    }
    SplitHead(enc, ".", sig);
    Base64UrlHasNoSeparator(sig, '.');
    NoCharNoText(sig, ".");
    SplitNone(sig, ".");
  }

  /** Any capsule built for an address without "|" and an expiry, in the
      form the configured mode expects, verifies until that expiry and
      yields the address. With no secret nothing but the encoding is needed,
      so anyone can build one. */
  lemma MintedAccepted(c: Crypto, secret: string, url: string, expires: int, laterMs: int)
    requires Lawful(c) && '|' !in url && laterMs <= 1000 * expires
    ensures var p := Payload(url, expires);
      var token := if secret == "" then c.encode(p) else c.encode(p) + "." + c.hmac(secret, p);
      Verify(c, secret, token, laterMs) == VerifyResult(true, Some(url))
  {
    var p := Payload(url, expires);
    ReadPayloadOf(url, expires);
    if secret == "" {
      assert p != "";
    } else {
      SignedSplit(c, secret, p);
    }
  }

  /** Round trip: for an address without "|", verifying a generated capsule
      at any time up to its expiry gives `{valid: true, url}`. */
  lemma GenerateVerifyRoundTrip(c: Crypto, secret: string, url: string, nowMs: int, ttlSeconds: int, laterMs: int)
    requires Lawful(c) && '|' !in url
    requires laterMs <= 1000 * ExpiresAt(nowMs, ttlSeconds)
    ensures Verify(c, secret, Generate(c, secret, url, nowMs, ttlSeconds), laterMs) == VerifyResult(true, Some(url))
  {
    MintedAccepted(c, secret, url, ExpiresAt(nowMs, ttlSeconds), laterMs);
  }

  /** With the default lifetime of 300 seconds a capsule is accepted for
      at least 299 seconds after it is generated and refused once 300
      seconds have passed (the expiry counts from the current whole second). */
  lemma DefaultLifetime(c: Crypto, secret: string, url: string, nowMs: int, laterMs: int)
    requires Lawful(c) && '|' !in url
    ensures laterMs <= nowMs + 299_000 ==>
      Verify(c, secret, Generate(c, secret, url, nowMs, DefaultTtlSeconds), laterMs) == VerifyResult(true, Some(url))
    ensures laterMs > nowMs + 300_000 ==>
      Verify(c, secret, Generate(c, secret, url, nowMs, DefaultTtlSeconds), laterMs) == Invalid
  {
    if laterMs <= nowMs + 299_000 {
      GenerateVerifyRoundTrip(c, secret, url, nowMs, DefaultTtlSeconds, laterMs);
    } else if laterMs > nowMs + 300_000 {
      GeneratedExpires(c, secret, url, nowMs, DefaultTtlSeconds, laterMs);
    }
  }

  /** After the expiry second has passed the same capsule is refused; at
      exactly `1000 * expires` it is still accepted (the test is strict). */
  lemma GeneratedExpires(c: Crypto, secret: string, url: string, nowMs: int, ttlSeconds: int, laterMs: int)
    requires Lawful(c) && '|' !in url
    requires laterMs > 1000 * ExpiresAt(nowMs, ttlSeconds)
    ensures Verify(c, secret, Generate(c, secret, url, nowMs, ttlSeconds), laterMs) == Invalid
  {
    var p := Payload(url, ExpiresAt(nowMs, ttlSeconds));
    ReadPayloadOf(url, ExpiresAt(nowMs, ttlSeconds));
    if secret != "" {
      SignedSplit(c, secret, p);
    }
  }

  /** An address holding "|" does not survive the round trip: only the text
      before the "|" comes back, and the expiry is read from the text after
      it instead of from the generated expiry. */
  lemma PipeInUrlReadsTail(c: Crypto, secret: string, head: string, tail: string, nowMs: int, ttlSeconds: int, laterMs: int)
    requires Lawful(c) && '|' !in head && '|' !in tail
    ensures Verify(c, secret, Generate(c, secret, head + "|" + tail, nowMs, ttlSeconds), laterMs)
      == if Expired(laterMs, ToNumber(tail)) then Invalid else VerifyResult(true, Some(head))
  {
    var p := Payload(head + "|" + tail, ExpiresAt(nowMs, ttlSeconds));
    ReadPayloadWithPipe(head, tail, ExpiresAt(nowMs, ttlSeconds));
    if secret == "" {
      assert p != "";
      VerifyUnsignedOf(c, p, laterMs);
    } else {
      VerifySignedOf(c, secret, p, laterMs);
    }
  }

  /** An unsigned capsule of a payload is judged on what the payload reads as. */
  lemma VerifyUnsignedOf(c: Crypto, p: string, laterMs: int)
    requires Lawful(c) && p != ""
    ensures var (url, expires) := ReadPayload(p);
      Verify(c, "", c.encode(p), laterMs) == if Expired(laterMs, expires) then Invalid else VerifyResult(true, Some(url))
  {
    assert c.encode(p) != "" && c.decode(c.encode(p)) == p;
  }

  /** A capsule signed by the same secret is judged on what the payload reads as. */
  lemma VerifySignedOf(c: Crypto, secret: string, p: string, laterMs: int)
    requires Lawful(c) && secret != ""
    ensures var (url, expires) := ReadPayload(p);
      Verify(c, secret, c.encode(p) + "." + c.hmac(secret, p), laterMs)
        == if Expired(laterMs, expires) then Invalid else VerifyResult(true, Some(url))
  {
    SignedSplit(c, secret, p);
    assert c.decode(c.encode(p)) == p;
  }

  /** In particular, when the text after the "|" is not a number, the token
      never expires. */
  lemma PipeInUrlNeverExpires(c: Crypto, secret: string, head: string, tail: string, nowMs: int, ttlSeconds: int, laterMs: int)
    requires Lawful(c) && '|' !in head && '|' !in tail && ToNumber(tail) == NaN
    ensures Verify(c, secret, Generate(c, secret, head + "|" + tail, nowMs, ttlSeconds), laterMs)
      == VerifyResult(true, Some(head))
  {
    PipeInUrlReadsTail(c, secret, head, tail, nowMs, ttlSeconds, laterMs);
  }

  /** For example, "http://a|0x10" comes back as "http://a" with expiry
      second 16, so it is refused from then on whatever expiry was generated. */
  lemma HexTailExpires(c: Crypto, secret: string, nowMs: int, ttlSeconds: int, laterMs: int)
    requires Lawful(c) && laterMs > 16000
    ensures Verify(c, secret, Generate(c, secret, "http://a|0x10", nowMs, ttlSeconds), laterMs) == Invalid
  {
    assert "http://a|0x10" == "http://a" + "|" + "0x10";
    assert '|' !in "http://a" && '|' !in "0x10";
    PipeInUrlReadsTail(c, secret, "http://a", "0x10", nowMs, ttlSeconds, laterMs);
    HexLiteral();
  }

  lemma ReadPayloadWithPipe(head: string, tail: string, expires: int)
    requires '|' !in head && '|' !in tail
    ensures ReadPayload(Payload(head + "|" + tail, expires)) == (head, ToNumber(tail))
  {
    var p := Payload(head + "|" + tail, expires);
    var dec := IntToDecimal(expires);
    assert p == head + "|" + (tail + "|" + dec);
    assert forall i :: 0 <= i < |head| ==> head[i] != "|"[0];
    assert forall i :: 0 <= i < |tail| ==> tail[i] != "|"[0];
    SplitHead(head, "|", tail + "|" + dec);
    SplitHead(tail, "|", dec);
    assert Split(p, "|")[1] == tail;
  }

  /** Without a secret the verdict does not involve the MAC at all: two
      platforms that decode alike give the same verdict on every token. */
  lemma UnsignedIgnoresMac(c: Crypto, d: Crypto, token: string, nowMs: int)
    requires c.decode == d.decode
    ensures Verify(c, "", token, nowMs) == Verify(d, "", token, nowMs)
  {
  }
}
