/** What the program takes from its platform: base64url, HMAC-SHA256 with a
    base64url digest, `JSON.stringify` / `JSON.parse` for the two JSON
    documents whose shape matters, and the `ok` flag of a fetch response.
    The encodings are opaque functions; the laws the proofs rely on are
    stated as predicates and required by the lemmas that use them. */
module Primitives {
  import opened Wrappers
  import opened JsString

  /** `response.ok`: a status in the 2xx range. */
  predicate IsOk(status: int) {
    200 <= status <= 299
  }

  /** The base64url alphabet: letters, digits, '-' and '_' (no padding). */
  predicate IsBase64UrlChar(c: char) {
    'A' <= c <= 'Z' || 'a' <= c <= 'z' || '0' <= c <= '9' || c == '-' || c == '_'
  }

  predicate IsBase64Url(s: string) {
    forall i :: 0 <= i < |s| ==> IsBase64UrlChar(s[i])
  }

  /** A base64url text holds neither of the separators the tokens use. */
  lemma Base64UrlHasNoSeparator(s: string, sep: char)
    requires IsBase64Url(s) && !IsBase64UrlChar(sep)
    ensures forall i :: 0 <= i < |s| ==> s[i] != sep
  {
  }

  /** A field of a parsed JSON object: a string, an integral number, some
      other JSON value, or absent. */
  datatype Field = FStr(s: string) | FNum(n: int) | FOther | FAbsent

  /** The fields `url` and `exp` of a parsed relay-token payload. */
  datatype Claims = Claims(url: Field, exp: Field)

  /** The platform operations:
      - `encode(s)`: `Buffer.from(s).toString("base64url")`;
      - `decode(s)`: `Buffer.from(s, "base64url").toString()`, which never throws;
      - `hmac(key, msg)`: `createHmac("sha256", key).update(msg).digest("base64url")`;
      - `stringifyClaims(url, exp)`: `JSON.stringify({url, exp})`;
      - `parseClaims(text)`: `JSON.parse(text)` read as an object, `None` when it throws. */
  datatype Crypto = Crypto(
    encode: string -> string,
    decode: string -> string,
    hmac: (string, string) -> string,
    stringifyClaims: (string, int) -> string,
    parseClaims: string -> Option<Claims>)

  /** The laws: decoding undoes encoding, only the empty text encodes to the
      empty text, encodings and digests are base64url text, and parsing a
      stringified payload gives its two fields back. */
  ghost predicate Lawful(c: Crypto) {
    && (forall s :: c.decode(c.encode(s)) == s)
    && (forall s :: s != "" ==> c.encode(s) != "")
    && (forall s :: IsBase64Url(c.encode(s)))
    && (forall key, msg :: IsBase64Url(c.hmac(key, msg)))
    && (forall url, exp :: c.parseClaims(c.stringifyClaims(url, exp)) == Some(Claims(FStr(url), FNum(exp))))
  }

  /** `JSON.stringify` and `JSON.parse` for a value type `T`. */
  datatype JsonCodec<!T> = JsonCodec(stringify: T -> string, parse: string -> Option<T>)

  /** The laws: parsing a stringified value gives it back, and the compact
      text `JSON.stringify` produces holds no line feed (one inside a string
      is escaped as `\n`). */
  ghost predicate LawfulCodec<T(!new)>(j: JsonCodec<T>) {
    && (forall v :: j.parse(j.stringify(v)) == Some(v))
    && (forall v :: '\n' !in j.stringify(v))
  }
}
