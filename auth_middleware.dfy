/**
 * The authorization gate `authenticateJWT`: take the second space-separated
 * field of the `Authorization` header as the token, answer 403 when there is
 * none, 401 when it does not verify, and otherwise attach the decoded claims
 * to the request and call `next` once.
 */
module AuthMiddleware {
  import opened Wrappers
  import opened Text
  import opened Tokens
  import opened Outcomes

  /** `req.header("Authorization")?.split(" ")[1]`, with an absent or empty field as `None` (both falsy). */
  function ExtractToken(authorization: Option<string>): (token: Option<string>)
    ensures token.Some? ==> token.value != [] && ' ' !in token.value
    ensures token.Some? ==> authorization.Some? && |Split(authorization.value, ' ')| >= 2 && Split(authorization.value, ' ')[1] == token.value
    ensures authorization.Some? && |Split(authorization.value, ' ')| >= 2 && Split(authorization.value, ' ')[1] != [] ==>
      token == Some(Split(authorization.value, ' ')[1])
  {
    match authorization
    case None => None
    case Some(header) =>
      var fields := Split(header, ' ');
      if |fields| < 2 || fields[1] == [] then None else Some(fields[1])
  }

  /** The three ways a request leaves the gate. */
  datatype Decision = Forbid | Reject(why: VerifyError) | Proceed(claims: Payload)

  function Decide(authorization: Option<string>, secret: string, now: nat): (d: Decision)
    ensures d == Forbid <==> ExtractToken(authorization).None?
    ensures d.Proceed? ==> now < d.claims.exp
    ensures d.Proceed? ==> Decode(ExtractToken(authorization).value) == Some(Token(d.claims, secret))
  {
    match ExtractToken(authorization)
    case None => Forbid
    case Some(token) =>
      match Verify(token, secret, now)
      case Success(claims) => Proceed(claims)
      case Failure(why) => Reject(why)
  }

  /** Whatever the scheme word, the field after the first space is the token. */
  lemma {:induction false} SchemeNotChecked(scheme: string, token: string)
    requires ' ' !in scheme && ' ' !in token && token != []
    ensures ExtractToken(Some(scheme + " " + token)) == Some(token)
  {
    SplitFirstPiece(scheme, ' ', token);
    SplitWithoutSeparator(token, ' ');
  }

  /** A header with no space has no second field. */
  lemma {:induction false} NoSecondField(header: string, secret: string, now: nat)
    requires ' ' !in header
    ensures Decide(Some(header), secret, now) == Forbid
  {
    SplitWithoutSeparator(header, ' ');
  }

  /** Two spaces after the scheme leave the second field empty. */
  lemma {:induction false} EmptySecondField(scheme: string, rest: string, secret: string, now: nat)
    requires ' ' !in scheme
    ensures Decide(Some(scheme + "  " + rest), secret, now) == Forbid
  {
    assert scheme + "  " + rest == scheme + [' '] + ([' '] + rest);
    SplitFirstPiece(scheme, ' ', [' '] + rest);
    SplitFirstPiece([], ' ', rest);
    assert [] + [' '] + rest == [' '] + rest;
  }

  /** A token issued at `issuedAt` and presented as `Bearer <token>` passes with its claims for one hour, and is rejected as expired afterwards. */
  lemma IssuedTokenAdmitted(id: string, userName: string, secret: string, issuedAt: nat, now: nat)
    ensures Decide(Some("Bearer " + Encode(Sign(id, userName, secret, issuedAt))), secret, now) ==
      if now < issuedAt + Lifetime then Proceed(Payload(id, userName, issuedAt, issuedAt + Lifetime))
      else Reject(Expired)
  {
    var token := Encode(Sign(id, userName, secret, issuedAt));
    assert "Bearer " + token == "Bearer" + " " + token;
    SchemeNotChecked("Bearer", token);
    VerifySigned(id, userName, secret, issuedAt, now);
  }

  /** Whatever the header looks like, a token it yields that is signed with the secret and unexpired proceeds with its claims. */
  lemma ValidTokenProceeds(authorization: Option<string>, t: Token, secret: string, now: nat)
    requires ExtractToken(authorization) == Some(Encode(t)) && t.key == secret && now < t.payload.exp
    ensures Decide(authorization, secret, now) == Proceed(t.payload)
  {
    DecodeEncode(t);
  }

  /** A token signed with another key is rejected. */
  lemma ForeignTokenRejected(t: Token, secret: string, now: nat)
    requires t.key != secret
    ensures Decide(Some("Bearer " + Encode(t)), secret, now) == Reject(BadSignature)
  {
    assert "Bearer " + Encode(t) == "Bearer" + " " + Encode(t);
    SchemeNotChecked("Bearer", Encode(t));
    VerifyOtherKey(t, secret, now);
  }

  class Request {
    const authorization: Option<string>
    var user: Option<Payload>

    constructor (authorization: Option<string>)
      ensures this.authorization == authorization && user == None
    {
      this.authorization := authorization;
      user := None;
    }
  }

  class Response {
    var statusCode: Option<int>

    constructor ()
      ensures statusCode == None
    {
      statusCode := None;
    }
  }

  /** The continuation `next`, counting its calls. */
  class Next {
    var calls: nat

    constructor ()
      ensures calls == 0
    {
      calls := 0;
    }

    method Call()
      modifies this
      ensures calls == old(calls) + 1
    {
      calls := calls + 1;
    }
  }

  /**
   * `authenticateJWT(req, res, next)`: exactly one of a 403 answer, a 401
   * answer, or `req.user` set to the claims followed by one call of `next`.
   */
  method AuthenticateJWT(req: Request, res: Response, next: Next, secret: string, now: nat)
    modifies req, res, next
    ensures match Decide(req.authorization, secret, now)
      case Forbid =>
        res.statusCode == Some(StatusCode(Forbidden)) && req.user == old(req.user) && next.calls == old(next.calls)
      case Reject(_) =>
        res.statusCode == Some(StatusCode(Unauthorized)) && req.user == old(req.user) && next.calls == old(next.calls)
      case Proceed(claims) =>
        req.user == Some(claims) && next.calls == old(next.calls) + 1 && res.statusCode == old(res.statusCode)
  {
    var token := ExtractToken(req.authorization);
    if token.None? {
      res.statusCode := Some(StatusCode(Forbidden));
      return;
    }
    var verified := Verify(token.value, secret, now);
    match verified
    case Success(claims) =>
      req.user := Some(claims);
      next.Call();
    case Failure(_) =>
      res.statusCode := Some(StatusCode(Unauthorized));
  }
}
