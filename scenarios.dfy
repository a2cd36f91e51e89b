/**
 * The workflows composed as the service's test suites drive them: register
 * into an empty directory, register the same name again, log in, and present
 * the issued token to the gate as `Bearer <token>`.
 */
module Scenarios {
  import opened Wrappers
  import opened Bcrypt
  import opened Tokens
  import opened Outcomes
  import opened Users
  import opened AuthController
  import opened AuthMiddleware
  import opened UserController
  import PasswordPolicy

  /** A fresh account with a policy-conforming password registers once, is refused the second time, and can then log in. */
  method RegisterTwiceThenLogin(userName: string, password: string, salt: nat, newId: ObjectId, otherId: ObjectId, secret: string, now: nat)
    returns (first: Result<Json, ErrorKind>, second: Result<Json, ErrorKind>, login: Result<LoginReply, ErrorKind>)
    ensures !PasswordPolicy.RegexTest(password) ==>
      && first == Failure(WeakPassword) && second == Failure(WeakPassword) && login == Failure(NotFound)
      && Answer(first, true) == 400 && Answer(login, false) == 404
    ensures PasswordPolicy.RegexTest(password) && userName != [] ==>
      && first == Success(map["_id" := Str(newId), "userName" := Str(userName)])
      && second == Failure(DuplicateUsername)
      && login == Success(LoginReply(Encode(Sign(newId, userName, secret, now)), userName, newId))
      && Answer(first, true) == 201 && Answer(second, true) == 400 && Answer(login, false) == 200
  {
    var db := new Directory();
    first := Register(db, userName, password, salt, newId);
    second := Register(db, userName, password, salt, otherId);
    login := LoginUser(db, userName, password, secret, now);
    if first.Success? {
      assert newId in db.records && db.records[newId].userName == userName;
    }
  }

  /**
   * Log in at `issuedAt`, then present the token at `presentedAt`: before the
   * hour is up the gate attaches the login's claims and calls `next` once;
   * afterwards it answers 401 and does not call `next`.
   */
  method LoginThenPresent(db: Directory, userName: string, password: string, secret: string, issuedAt: nat, presentedAt: nat)
    returns (login: Result<LoginReply, ErrorKind>, user: Option<Payload>, nextCalls: nat, status: Option<int>)
    requires db.Valid()
    ensures login.Success? && presentedAt < issuedAt + Lifetime ==>
      user == Some(Payload(login.value.id, userName, issuedAt, issuedAt + Lifetime)) && nextCalls == 1 && status == None
    ensures login.Success? && presentedAt >= issuedAt + Lifetime ==>
      user == None && nextCalls == 0 && status == Some(401)
    ensures login.Failure? ==> user == None && nextCalls == 0 && status == None
  {
    login := LoginUser(db, userName, password, secret, issuedAt);
    if login.Failure? {
      return login, None, 0, None;
    }
    var req := new Request(Some("Bearer " + login.value.token));
    var res := new Response();
    var next := new Next();
    IssuedTokenAdmitted(login.value.id, userName, secret, issuedAt, presentedAt);
    AuthenticateJWT(req, res, next, secret, presentedAt);
    user, nextCalls, status := req.user, next.calls, res.statusCode;
  }

  /**
   * Save a new account, rename it with `updateUserById`, then save the same
   * document again: the second save finds no modified path, writes nothing,
   * and the rename stays.
   */
  method SaveAgainKeepsRename(id: ObjectId, salt: nat) returns (saved: Result<(), DbError>, storedName: string)
    ensures saved.Success? && storedName == "bob"
  {
    var db := new Directory();
    var doc := new UserDocument(id, "alice", "Prueba123!");
    var first := db.Save(doc, salt);
    assert !NameTakenByOther(map[], "alice", id);
    assert db.records == map[id := Account("alice", Hash(salt, Plain("Prueba123!")))];
    var renamed := db.UpdateUserById(id, Some("bob"), None, salt);
    assert db.records == map[id := Account("bob", Hash(salt, Plain("Prueba123!")))];
    saved := db.Save(doc, salt);
    storedName := db.records[id].userName;
  }

  /**
   * Create an account under a stored id, then look it up and delete it under
   * another spelling that casts to the same id (the upper-case spelling, say):
   * both reach the account, and the lookup answers the id as stored.
   */
  method CaseVariantId(stored: ObjectId, spelled: string, salt: nat) returns (found: Result<Option<Json>, ErrorKind>, remaining: nat)
    requires IsObjectId(spelled) && CastId(spelled) == stored
    ensures found == Success(Some(map["_id" := Str(stored), "userName" := Str("alice")]))
    ensures remaining == 0
  {
    var db := new Directory();
    var created := db.CreateUser("alice", "Prueba123!", salt, stored);
    found := FindUserById(db, spelled);
    PublicView(stored, db.records[stored]);
    var deleted := DeleteUser(db, spelled);
    remaining := |db.records|;
  }
}
