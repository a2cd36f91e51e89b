/**
 * The JSON Web Token operations used by login and by the authorization gate,
 * as `jsonwebtoken` performs them with an HMAC secret: `sign` with
 * `expiresIn: "1h"` and `verify`. The compact serialization (base64url of JSON
 * parts and an HMAC signature) is modelled by five dot-separated fields whose
 * text is escaped so that no field contains a dot or a space; the signature
 * is modelled by the key the token was signed with.
 */
module Tokens {
  import opened Wrappers
  import opened Text

  /** `expiresIn: "1h"`, in seconds. */
  const Lifetime: nat := 3600

  /** The decoded payload: the claims login puts in, plus issue and expiry times in seconds. */
  datatype Payload = Payload(id: string, userName: string, iat: nat, exp: nat)

  datatype Token = Token(payload: Payload, key: string)

  /** `jwt.sign({ id, userName }, secret, { expiresIn: "1h" })` at time `now`. */
  function Sign(id: string, userName: string, secret: string, now: nat): Token
  {
    Token(Payload(id, userName, now, now + Lifetime), secret)
  }

  function Fields(t: Token): seq<string>
  {
    [Escape(t.payload.id), Escape(t.payload.userName), Digits(t.payload.iat), Digits(t.payload.exp), Escape(t.key)]
  }

  lemma FieldsAvoid(t: Token, c: char)
    requires c == ' ' || c == '.'
    ensures forall i :: 0 <= i < |Fields(t)| ==> c !in Fields(t)[i]
  {
  }

  /** The string form a client sends back; it is never empty and never contains a space. */
  function Encode(t: Token): (s: string)
    ensures s != [] && ' ' !in s
  {
    FieldsAvoid(t, ' ');
    JoinAvoids(Fields(t), '.', ' ');
    Join(Fields(t), '.')
  }

  /** Parses the string form; anything that is not five well-formed fields is malformed. */
  function Decode(s: string): Option<Token>
  {
    var parts := Split(s, '.');
    if |parts| != 5 then None
    else
      match (Unescape(parts[0]), Unescape(parts[1]), ParseNat(parts[2]), ParseNat(parts[3]), Unescape(parts[4]))
      case (Some(id), Some(userName), Some(iat), Some(exp), Some(key)) =>
        Some(Token(Payload(id, userName, iat, exp), key))
      case _ => None
  }

  lemma DecodeEncode(t: Token)
    ensures Decode(Encode(t)) == Some(t)
  {
    FieldsAvoid(t, '.');
    SplitJoin(Fields(t), '.');
    UnescapeEscape(t.payload.id);
    UnescapeEscape(t.payload.userName);
    UnescapeEscape(t.key);
    ParseDigits(t.payload.iat);
    ParseDigits(t.payload.exp);
  }

  /** `jsonwebtoken`'s error classes: `JsonWebTokenError` (malformed or bad signature) and `TokenExpiredError`. */
  datatype VerifyError = Malformed | BadSignature | Expired

  /**
   * `jwt.verify(s, secret)` at time `now`: structure first, then the signature,
   * then expiry, which holds once `now >= exp`. On success the result is the
   * payload of a token signed with `secret` that has not yet expired.
   */
  function Verify(s: string, secret: string, now: nat): (r: Result<Payload, VerifyError>)
    ensures r.Success? ==> Decode(s) == Some(Token(r.value, secret)) && now < r.value.exp
  {
    match Decode(s)
    case None => Failure(Malformed)
    case Some(t) =>
      if t.key != secret then Failure(BadSignature)
      else if now >= t.payload.exp then Failure(Expired)
      else Success(t.payload)
  }

  /** Round trip: a signed token verifies with its claims until one hour after issue, and is expired from then on. */
  lemma VerifySigned(id: string, userName: string, secret: string, issuedAt: nat, now: nat)
    ensures Verify(Encode(Sign(id, userName, secret, issuedAt)), secret, now) ==
      if now < issuedAt + Lifetime then Success(Payload(id, userName, issuedAt, issuedAt + Lifetime))
      else Failure(Expired)
  {
    DecodeEncode(Sign(id, userName, secret, issuedAt));
  }

  /** A token signed with another key is rejected, expired or not. */
  lemma VerifyOtherKey(t: Token, secret: string, now: nat)
    requires t.key != secret
    ensures Verify(Encode(t), secret, now) == Failure(BadSignature)
  {
    DecodeEncode(t);
  }

  /** A string that does not split on dots into exactly five fields is malformed, a dot-free one among them. */
  lemma VerifyUnstructured(s: string, secret: string, now: nat)
    requires |Split(s, '.')| != 5
    ensures Verify(s, secret, now) == Failure(Malformed)
  {
  }
}
