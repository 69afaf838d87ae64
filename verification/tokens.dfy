/**
 * Ecopoint validation tokens (`src/lib/tokens.ts`). A token is the
 * base64url text of the JSON payload, one ".", then the base64url HMAC of
 * that text. JSON, base64url and the keyed HMAC are not modelled
 * byte by byte: they are the function values of a `Codec`, and `Sound`
 * states the few facts about them that the format relies on.
 */
module Tokens {
  import opened Common

  /** Tokens expire this many days after the day they were made. */
  const ExpirationDays := 90

  /** `ValidationToken`; `expiresAt` is in epoch milliseconds. */
  datatype Payload = Payload(ecopointId: string, email: string, expiresAt: int)

  /** `JSON.stringify`/`JSON.parse` (a parse that throws is `None`),
      `Buffer` base64url in both directions, and the HMAC-SHA256 digest
      under the server secret. */
  datatype Codec = Codec(
    encodeJson: Payload -> string,
    decodeJson: string -> Option<Payload>,
    toBase64Url: string -> string,
    fromBase64Url: string -> string,
    hmac: string -> string)

  /** JSON and base64url round-trip, a JSON text is never empty, base64url
      keeps a non-empty text non-empty, and neither base64url nor the
      digest ever contains a ".". */
  ghost predicate Sound(c: Codec) {
    && (forall p :: c.decodeJson(c.encodeJson(p)) == Some(p))
    && (forall p :: c.encodeJson(p) != [])
    && (forall s :: c.fromBase64Url(c.toBase64Url(s)) == s)
    && (forall s :: s != [] ==> c.toBase64Url(s) != [])
    && (forall s :: '.' !in c.toBase64Url(s))
    && (forall s :: c.hmac(s) != [] && '.' !in c.hmac(s))
  }

  /** The encoded payload that a token for these fields starts with. */
  function EncodedPayload(c: Codec, p: Payload): string {
    c.toBase64Url(c.encodeJson(p))
  }

  /** `generateValidationToken`: `expiresAt` is the start of the day
      `ExpirationDays` ahead, which the caller supplies. */
  function Generate(c: Codec, ecopointId: string, email: string, expiresAt: int): (token: string)
    requires Sound(c)
    ensures var b := EncodedPayload(c, Payload(ecopointId, email, expiresAt));
      token == b + "." + c.hmac(b) && b != [] && '.' !in b
  {
    var b := EncodedPayload(c, Payload(ecopointId, email, expiresAt));
    b + "." + c.hmac(b)
  }

  /** `const [base64Payload, signature] = token.split('.')`: the first two
      pieces, a missing second piece reading as "". */
  function FirstTwo(token: string): (parts: (string, string))
    ensures '.' !in parts.0 && '.' !in parts.1
  {
    var pieces := Split(token, '.');
    SplitJoin(token, '.');
    (pieces[0], if |pieces| > 1 then pieces[1] else "")
  }

  /** `verifyValidationToken`. Every failure, a parse that throws included,
      gives `None`; a token is still good at exactly `expiresAt`. */
  function Verify(c: Codec, token: string, now: int): (r: Option<Payload>)
    ensures r.Some? ==>
      var (b, sig) := FirstTwo(token);
      b != [] && sig != [] && sig == c.hmac(b)
      && c.decodeJson(c.fromBase64Url(b)) == r && now <= r.value.expiresAt
  {
    var (b, sig) := FirstTwo(token);
    if b == [] || sig == [] then None
    else if sig != c.hmac(b) then None
    else match c.decodeJson(c.fromBase64Url(b))
      case None => None
      case Some(p) => if now > p.expiresAt then None else Some(p)
  }

  /** A generated token splits into exactly its payload and its signature. */
  lemma GeneratedSplits(c: Codec, ecopointId: string, email: string, expiresAt: int)
    requires Sound(c)
    ensures var b := EncodedPayload(c, Payload(ecopointId, email, expiresAt));
      Split(Generate(c, ecopointId, email, expiresAt), '.') == [b, c.hmac(b)]
  {
    var b := EncodedPayload(c, Payload(ecopointId, email, expiresAt));
    SplitAfterPiece(b, c.hmac(b), '.');
    SplitNoSeparator(c.hmac(b), '.');
    assert b + "." + c.hmac(b) == b + ['.'] + c.hmac(b);
  }

  /** Round trip: before expiry a fresh token verifies to its own payload. */
  lemma RoundTrip(c: Codec, ecopointId: string, email: string, expiresAt: int, now: int)
    requires Sound(c) && now <= expiresAt
    ensures Verify(c, Generate(c, ecopointId, email, expiresAt), now) == Some(Payload(ecopointId, email, expiresAt))
  {
    GeneratedSplits(c, ecopointId, email, expiresAt);
  }

  /** After `expiresAt` the same token is refused. */
  lemma ExpiredRefused(c: Codec, ecopointId: string, email: string, expiresAt: int, now: int)
    requires Sound(c) && now > expiresAt
    ensures Verify(c, Generate(c, ecopointId, email, expiresAt), now).None?
  {
    GeneratedSplits(c, ecopointId, email, expiresAt);
  }

  /** An empty payload piece or an empty signature piece is refused, and so
      is a signature that is not the HMAC of the payload piece. */
  lemma Rejections(c: Codec, token: string, now: int)
    ensures FirstTwo(token).0 == [] ==> Verify(c, token, now).None?
    ensures FirstTwo(token).1 == [] ==> Verify(c, token, now).None?
    ensures FirstTwo(token).1 != c.hmac(FirstTwo(token).0) ==> Verify(c, token, now).None?
    ensures Verify(c, "", now).None?
  {
  }

  /** Only the first two pieces are looked at: whatever follows a second
      "." does not change the verdict. */
  lemma {:induction false} ExtraPiecesIgnored(c: Codec, b: string, sig: string, rest: string, now: int)
    requires '.' !in b && '.' !in sig
    ensures Verify(c, b + "." + sig + "." + rest, now) == Verify(c, b + "." + sig, now)
  {
    SplitAfterPiece(b, sig + "." + rest, '.');
    assert b + "." + sig + "." + rest == b + ['.'] + (sig + "." + rest);
    SplitAfterPiece(sig, rest, '.');
    assert sig + "." + rest == sig + ['.'] + rest;
    SplitAfterPiece(b, sig, '.');
    assert b + "." + sig == b + ['.'] + sig;
    SplitNoSeparator(sig, '.');
  }
}
