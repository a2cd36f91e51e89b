/**
 * The user controller: lookups by id and by name, partial update and
 * delete. Every failure of the store is answered as an internal error.
 */
module UserController {
  import opened Wrappers
  import opened Outcomes
  import opened Users
  import PasswordPolicy

  /** JavaScript truthiness of an optional string body field: present and nonempty. */
  predicate Truthy(field: Option<string>)
  {
    field.Some? && field.value != ""
  }

  /** `findUserById`: the account's public view, or null when no account has the id; a malformed id is an internal error. */
  method FindUserById(db: Directory, id: string) returns (r: Result<Option<Json>, ErrorKind>)
    ensures !IsObjectId(id) ==> r == Failure(Internal)
    ensures IsObjectId(id) ==> r == Success(if CastId(id) in db.records then Some(ToJSON(ToObject(CastId(id), db.records[CastId(id)]))) else None)
    ensures r.Success? && r.value.Some? ==> "password" !in r.value.value
  {
    var found := db.FindOneUserById(id);
    match found
    case Failure(_) =>
      r := Failure(Internal);
    case Success(None) =>
      r := Success(None);
    case Success(Some(account)) =>
      r := Success(Some(ToJSON(ToObject(CastId(id), account))));
  }

  /** `findUserByName`: the public view of the account with that name, or null. */
  method FindUserByName(db: Directory, userName: string) returns (r: Option<Json>)
    requires db.Valid()
    ensures r.None? <==> !NameTaken(db.records, userName)
    ensures r.Some? ==> exists id :: id in db.records && db.records[id].userName == userName && r.value == ToJSON(ToObject(id, db.records[id]))
    ensures r.Some? ==> "password" !in r.value
  {
    var found := db.FindOneUser(userName);
    match found
    case None =>
      r := None;
    case Some((id, account)) =>
      r := Some(ToJSON(ToObject(id, account)));
  }

  /** The account a successful `updateUser` leaves: truthy fields replace, others stay. */
  function Revised(account: Account, userName: Option<string>, password: Option<string>, salt: nat): (r: Account)
    ensures r.userName == if Truthy(userName) then userName.value else account.userName
    ensures Truthy(password) ==> r.ComparePassword(password.value)
    ensures !Truthy(password) ==> r.password == account.password
  {
    Updated(account, if Truthy(userName) then userName else None, if Truthy(password) then password else None, salt)
  }

  /**
   * `updateUser`: the update object gets the truthy fields; a truthy password
   * the policy rejects is refused before anything is written, even when a new
   * name was given. Then the store writes the account with that id; a
   * malformed id or a name another account has is an internal error, and an
   * id no account has changes nothing.
   */
  method UpdateUser(db: Directory, id: string, userName: Option<string>, password: Option<string>, salt: nat) returns (r: Result<(), ErrorKind>)
    requires db.Valid() && HashedAtRest(db.records)
    modifies db
    ensures db.Valid() && HashedAtRest(db.records)
    ensures Truthy(password) && !PasswordPolicy.RegexTest(password.value) ==>
      r == Failure(WeakPassword) && db.records == old(db.records)
    ensures !(Truthy(password) && !PasswordPolicy.RegexTest(password.value)) ==>
      && (!IsObjectId(id) ==> r == Failure(Internal) && db.records == old(db.records))
      && (IsObjectId(id) && CastId(id) !in old(db.records) ==> r == Success(()) && db.records == old(db.records))
      && (IsObjectId(id) && CastId(id) in old(db.records) ==>
            var revised := Revised(old(db.records)[CastId(id)], userName, password, salt);
            if NameTakenByOther(old(db.records), revised.userName, CastId(id)) then r == Failure(Internal) && db.records == old(db.records)
            else r == Success(()) && db.records == old(db.records)[CastId(id) := revised])
  {
    var newName: Option<string> := None;
    var newPassword: Option<string> := None;
    if Truthy(userName) {
      newName := userName;
    }
    if Truthy(password) {
      if !PasswordPolicy.RegexTest(password.value) {
        return Failure(WeakPassword);
      }
      newPassword := password;
    }
    var written := db.UpdateUserById(id, newName, newPassword, salt);
    r := if written.Success? then Success(()) else Failure(Internal);
  }

  /** `deleteUser`: a malformed id is an internal error; otherwise the account with that id, if any, is gone and nothing else changes. */
  method DeleteUser(db: Directory, id: string) returns (r: Result<(), ErrorKind>)
    requires db.Valid() && HashedAtRest(db.records)
    modifies db
    ensures db.Valid() && HashedAtRest(db.records)
    ensures !IsObjectId(id) ==> r == Failure(Internal) && db.records == old(db.records)
    ensures IsObjectId(id) ==> r == Success(()) && db.records == old(db.records) - {CastId(id)}
  {
    var removed := db.DeleteUserById(id);
    r := if removed.Success? then Success(()) else Failure(Internal);
  }
}
