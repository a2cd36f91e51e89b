/**
 * The authentication controller: `register` and `loginUser`. Each request
 * runs as one sequential step against the directory; the outcome is either
 * the success body or the `ErrorKind` the response reports.
 */
module AuthController {
  import opened Wrappers
  import opened Bcrypt
  import opened Tokens
  import opened Outcomes
  import opened Users
  import PasswordPolicy

  /**
   * `register`: an existing name is refused before the password is looked at;
   * a password the policy rejects is refused next; otherwise the account is
   * created, and a failure of the store (an empty name fails the `required`
   * validator, a taken id the unique index) is an internal error. Success
   * answers the new account's id and name, never its password.
   */
  method Register(db: Directory, userName: string, password: string, salt: nat, newId: ObjectId) returns (r: Result<Json, ErrorKind>)
    requires db.Valid() && HashedAtRest(db.records)
    modifies db
    ensures db.Valid() && HashedAtRest(db.records)
    ensures NameTaken(old(db.records), userName) ==>
      r == Failure(DuplicateUsername) && db.records == old(db.records)
    ensures !NameTaken(old(db.records), userName) && !PasswordPolicy.RegexTest(password) ==>
      r == Failure(WeakPassword) && db.records == old(db.records)
    ensures !NameTaken(old(db.records), userName) && PasswordPolicy.RegexTest(password) && (userName == [] || newId in old(db.records)) ==>
      r == Failure(Internal) && db.records == old(db.records)
    ensures !NameTaken(old(db.records), userName) && PasswordPolicy.RegexTest(password) && userName != [] && newId !in old(db.records) ==>
      && r == Success(map["_id" := Str(newId), "userName" := Str(userName)])
      && db.records == old(db.records)[newId := Account(userName, Hash(salt, Plain(password)))]
      && db.records[newId].userName == userName
      && db.records[newId].ComparePassword(password)
  {
    var existing := db.FindOneUser(userName);
    if existing.Some? {
      return Failure(DuplicateUsername);
    }
    if !PasswordPolicy.RegexTest(password) {
      return Failure(WeakPassword);
    }
    PasswordPolicy.RegexTestIsPolicy(password);
    var created := db.CreateUser(userName, password, salt, newId);
    match created
    case Failure(_) =>
      r := Failure(Internal);
    case Success(doc) =>
      PublicView(doc.id, doc.Record());
      r := Success(ToJSON(ToObject(doc.id, doc.Record())));
  }

  /** The body of a successful login: the token and the account's name and id. */
  datatype LoginReply = LoginReply(token: string, userName: string, id: ObjectId)

  /**
   * `loginUser`: an unknown name is NotFound, a password that does not match
   * the stored hash is InvalidCredential, and otherwise the reply carries a
   * token signed with `secret` at `now` whose claims are the account's id and
   * name. The directory is only read.
   */
  method LoginUser(db: Directory, userName: string, password: string, secret: string, now: nat) returns (r: Result<LoginReply, ErrorKind>)
    requires db.Valid()
    ensures r.Failure? ==> r.error == NotFound || r.error == InvalidCredential
    ensures r == Failure(NotFound) <==> !NameTaken(db.records, userName)
    ensures r == Failure(InvalidCredential) <==>
      exists id :: id in db.records && db.records[id].userName == userName && !db.records[id].ComparePassword(password)
    ensures r.Success? ==>
      && r.value.id in db.records
      && db.records[r.value.id].userName == userName
      && db.records[r.value.id].ComparePassword(password)
      && r.value.userName == userName
      && r.value.token == Encode(Sign(r.value.id, userName, secret, now))
  {
    var user := db.FindOneUser(userName);
    if user.None? {
      return Failure(NotFound);
    }
    var (id, account) := user.value;
    if !account.ComparePassword(password) {
      return Failure(InvalidCredential);
    }
    var token := Encode(Sign(id, account.userName, secret, now));
    r := Success(LoginReply(token, account.userName, id));
  }
}
