/**
 * The user model: the account schema with its unique `userName` index, the
 * password-hashing hooks that run before `save` and before
 * `findOneAndUpdate`, `comparePassword`, `toJSON`, and the five collection
 * operations the controllers use. The collection is a `Directory` object
 * whose map from id to account the operations update in place; failures of
 * the document store are `DbError` values instead of thrown errors.
 */
module Users {
  import opened Wrappers
  import opened Text
  import opened Bcrypt

  /** What `_id` casts from: twenty-four hexadecimal digits, in either case. */
  predicate IsObjectId(s: string)
  {
    |s| == 24 && forall i :: 0 <= i < |s| ==> IsHexDigit(s[i])
  }

  predicate IsLowerHexDigit(c: char) { IsDigit(c) || 'a' <= c <= 'f' }

  /** How the store keeps and prints an id: twenty-four lower-case hexadecimal digits. */
  predicate IsCanonicalId(s: string)
  {
    |s| == 24 && forall i :: 0 <= i < |s| ==> IsLowerHexDigit(s[i])
  }

  type ObjectId = s: string | IsCanonicalId(s) witness "000000000000000000000000"

  /** The four bits a hexadecimal digit stands for, as `Buffer.from(s, "hex")` reads it. */
  function HexValue(c: char): (v: nat)
    requires IsHexDigit(c)
    ensures v < 16
  {
    if IsDigit(c) then c as int - '0' as int
    else if 'a' <= c <= 'f' then c as int - 'a' as int + 10
    else c as int - 'A' as int + 10
  }

  function LowerHex(c: char): (d: char)
    requires IsHexDigit(c)
    ensures IsLowerHexDigit(d) && HexValue(d) == HexValue(c)
  {
    if 'A' <= c <= 'F' then (c as int - 'A' as int + 'a' as int) as char else c
  }

  /** Two hexadecimal digits print alike in lower case exactly when they stand for the same bits. */
  lemma LowerHexValue(c: char, d: char)
    requires IsHexDigit(c) && IsHexDigit(d)
    ensures LowerHex(c) == LowerHex(d) <==> HexValue(c) == HexValue(d)
  {
  }

  /**
   * `new ObjectId(s)` for a twenty-four-digit string: the twelve bytes the
   * digits stand for, whatever their case, which the store prints back in
   * lower case.
   */
  function CastId(s: string): (r: ObjectId)
    requires IsObjectId(s)
    ensures forall i :: 0 <= i < 24 ==> HexValue(r[i]) == HexValue(s[i])
    ensures IsCanonicalId(s) ==> r == s
  {
    seq(24, i requires 0 <= i < 24 => LowerHex(s[i]))
  }

  /** The upper-case spelling of an id casts to the lower-case id the store keeps. */
  lemma UpperCaseCasts()
    ensures IsObjectId("AAAAAAAAAAAAAAAAAAAAAAAA") && CastId("AAAAAAAAAAAAAAAAAAAAAAAA") == "aaaaaaaaaaaaaaaaaaaaaaaa"
  {
    var upper := "AAAAAAAAAAAAAAAAAAAAAAAA";
    assert forall i :: 0 <= i < 24 ==> upper[i] == 'A';
  }

  /** Two strings cast to the same id exactly when their digits stand for the same bytes: the cast ignores case. */
  lemma {:induction false} CastIdSameBytes(a: string, b: string)
    requires IsObjectId(a) && IsObjectId(b)
    ensures CastId(a) == CastId(b) <==> forall i :: 0 <= i < 24 ==> HexValue(a[i]) == HexValue(b[i])
  {
    if forall i :: 0 <= i < 24 ==> HexValue(a[i]) == HexValue(b[i]) {
      forall i | 0 <= i < 24
        ensures CastId(a)[i] == CastId(b)[i]
      {
        LowerHexValue(a[i], b[i]);
      }
    }
  }

  /** A stored account: `{ userName, password }`, the password as the hooks left it. */
  datatype Account = Account(userName: string, password: Secret)
  {
    /** `comparePassword(plain)`: `bcrypt.compare` against the stored password. */
    function ComparePassword(plain: string): bool
    {
      Compare(plain, password)
    }
  }

  /** A JSON value of a user document. */
  datatype Value = Str(text: string) | Hashed(secret: Secret)

  type Json = map<string, Value>

  /** `toObject()` of a user document. */
  function ToObject(id: ObjectId, account: Account): Json
  {
    map["_id" := Str(id), "userName" := Str(account.userName), "password" := Hashed(account.password)]
  }

  /** `toJSON()`: the object with its `password` field deleted, every other field kept. */
  function ToJSON(obj: Json): (r: Json)
    ensures "password" !in r
    ensures forall k :: k in obj && k != "password" ==> k in r && r[k] == obj[k]
    ensures forall k :: k in r ==> k in obj
  {
    obj - {"password"}
  }

  /** What a client sees of an account: its id and its name, never its password. */
  lemma PublicView(id: ObjectId, account: Account)
    ensures ToJSON(ToObject(id, account)) == map["_id" := Str(id), "userName" := Str(account.userName)]
  {
  }

  /** Errors the document store raises: a bad id, a failed `required` validator, a unique-index violation (E11000), a vanished document. */
  datatype DbError = CastError | ValidationError | DuplicateKey | DocumentNotFound

  /** No two accounts share a `userName` (the unique index). */
  ghost predicate UniqueNames(m: map<ObjectId, Account>)
  {
    forall a, b :: a in m && b in m && m[a].userName == m[b].userName ==> a == b
  }

  predicate NameTaken(m: map<ObjectId, Account>, userName: string)
  {
    exists id :: id in m && m[id].userName == userName
  }

  /** Some account other than `id` already has `userName`. */
  predicate NameTakenByOther(m: map<ObjectId, Account>, userName: string, id: ObjectId)
  {
    exists other :: other in m && other != id && m[other].userName == userName
  }

  /** Every stored password is a digest of a plaintext. */
  ghost predicate HashedAtRest(m: map<ObjectId, Account>)
  {
    forall id :: id in m ==> m[id].password.Digest? && m[id].password.of.Plain?
  }

  /** Writing `account` under `id` keeps names unique when no other account has its name. */
  lemma UniqueAfterWrite(m: map<ObjectId, Account>, id: ObjectId, account: Account)
    requires UniqueNames(m) && !NameTakenByOther(m, account.userName, id)
    ensures UniqueNames(m[id := account])
  {
  }

  /**
   * A user document as the save hook sees it. Mongoose tracks which paths were
   * modified since the document was loaded or last saved; a document built by
   * `new User({ userName, password })` is new and has both paths modified.
   */
  class UserDocument {
    const id: ObjectId
    var userName: string
    var password: Secret
    var isNew: bool
    var userNameModified: bool
    var passwordModified: bool

    constructor (id: ObjectId, userName: string, password: string)
      ensures this.id == id && this.userName == userName && this.password == Plain(password)
      ensures isNew && userNameModified && passwordModified
    {
      this.id := id;
      this.userName := userName;
      this.password := Plain(password);
      isNew := true;
      userNameModified := true;
      passwordModified := true;
    }

    function Record(): Account
      reads this
    {
      Account(userName, password)
    }

    /** The `pre("save")` hook: hash the password only when it was modified, so an unmodified digest is never hashed again. */
    method PreSave(salt: nat)
      modifies this
      ensures password == if old(passwordModified) then Hash(salt, old(password)) else old(password)
      ensures userName == old(userName) && isNew == old(isNew)
      ensures userNameModified == old(userNameModified) && passwordModified == old(passwordModified)
    {
      if !passwordModified {
        return;
      }
      password := Hash(salt, password);
    }
  }

  /**
   * What `save()` of a document that is already stored leaves in the stored
   * account: only the modified paths are written (`$set`), the others keep
   * what the collection holds.
   */
  function Persisted(stored: Account, doc: Account, userNameModified: bool, passwordModified: bool): (r: Account)
    ensures !userNameModified && !passwordModified ==> r == stored
    ensures userNameModified && passwordModified ==> r == doc
  {
    Account(if userNameModified then doc.userName else stored.userName,
            if passwordModified then doc.password else stored.password)
  }

  /** A `findOneAndUpdate` query on `{ userName, password }`; an absent field is `None`. */
  class UpdateQuery {
    var userName: Option<string>
    var password: Option<Secret>

    constructor (userName: Option<string>, password: Option<string>)
      ensures this.userName == userName
      ensures this.password == if password.Some? then Some(Plain(password.value)) else None
    {
      this.userName := userName;
      this.password := if password.Some? then Some(Plain(password.value)) else None;
    }

    /** The `pre("findOneAndUpdate")` hook: a truthy (present, nonempty) password is replaced by its hash; anything else passes through. */
    method PreFindOneAndUpdate(salt: nat)
      modifies this
      ensures password == if old(password).Some? && old(password).value != Plain("") then Some(Hash(salt, old(password).value)) else old(password)
      ensures userName == old(userName)
    {
      if password.Some? && password.value != Plain("") {
        password := Some(Hash(salt, password.value));
      }
    }
  }

  /** What `findByIdAndUpdate(id, { userName, password })` leaves in a matched account. */
  function Updated(account: Account, userName: Option<string>, password: Option<string>, salt: nat): (r: Account)
    ensures userName.None? ==> r.userName == account.userName
    ensures userName.Some? ==> r.userName == userName.value
    ensures password.None? ==> r.password == account.password
    ensures password.Some? && password.value != "" ==> r.password == Hash(salt, Plain(password.value)) && r.ComparePassword(password.value)
    ensures password == Some("") ==> r.password == Plain("")
  {
    Account(userName.GetOr(account.userName),
            if password.None? then account.password
            else if password.value == "" then Plain("")
            else Hash(salt, Plain(password.value)))
  }

  /** The user collection. */
  class Directory {
    var records: map<ObjectId, Account>

    ghost predicate Valid()
      reads this
    {
      UniqueNames(records)
    }

    constructor ()
      ensures records == map[] && Valid()
    {
      records := map[];
    }

    /**
     * `doc.save()`: the `required` validators, then the save hook, then the
     * write. A new document is inserted, and the unique index rejects a taken
     * id or a name another account has. A stored document gets only its
     * modified paths written; the document must still exist, and the unique
     * index is consulted only when the name is among the modified paths.
     */
    method Save(doc: UserDocument, salt: nat) returns (r: Result<(), DbError>)
      requires Valid()
      modifies this, doc
      ensures Valid()
      ensures r != Failure(CastError)
      ensures old(doc.userName) == [] || old(doc.password) == Plain([]) ==>
        r == Failure(ValidationError) && records == old(records) && doc.Record() == old(doc.Record())
      ensures old(doc.userName) != [] && old(doc.password) != Plain([]) ==>
        && doc.password == (if old(doc.passwordModified) then Hash(salt, old(doc.password)) else old(doc.password))
        && doc.userName == old(doc.userName)
        && r != Failure(ValidationError)
        && (r == Failure(DocumentNotFound) <==> !old(doc.isNew) && doc.id !in old(records))
        && (r == Failure(DuplicateKey) <==>
              if old(doc.isNew) then doc.id in old(records) || NameTakenByOther(old(records), doc.userName, doc.id)
              else doc.id in old(records) && old(doc.userNameModified) && NameTakenByOther(old(records), doc.userName, doc.id))
        && (r.Success? <==> r != Failure(DocumentNotFound) && r != Failure(DuplicateKey))
      ensures r.Failure? ==>
        && records == old(records) && doc.isNew == old(doc.isNew)
        && doc.userNameModified == old(doc.userNameModified) && doc.passwordModified == old(doc.passwordModified)
      ensures r.Success? && old(doc.isNew) ==> records == old(records)[doc.id := doc.Record()]
      ensures r.Success? && !old(doc.isNew) ==>
        && doc.id in old(records)
        && records == old(records)[doc.id := Persisted(old(records)[doc.id], doc.Record(), old(doc.userNameModified), old(doc.passwordModified))]
      ensures r.Success? ==> !doc.isNew && !doc.userNameModified && !doc.passwordModified
    {
      if doc.userName == [] || doc.password == Plain([]) {
        return Failure(ValidationError);
      }
      doc.PreSave(salt);
      var written: Account;
      if doc.isNew {
        if doc.id in records {
          return Failure(DuplicateKey);
        }
        written := doc.Record();
      } else {
        if doc.id !in records {
          return Failure(DocumentNotFound);
        }
        written := Persisted(records[doc.id], doc.Record(), doc.userNameModified, doc.passwordModified);
      }
      if (doc.isNew || doc.userNameModified) && exists other :: other in records && other != doc.id && records[other].userName == doc.userName {
        return Failure(DuplicateKey);
      }
      UniqueAfterWrite(records, doc.id, written);
      records := records[doc.id := written];
      doc.isNew := false;
      doc.userNameModified := false;
      doc.passwordModified := false;
      r := Success(());
    }

    /** `createUser(userName, password)`: build a new document under the freshly generated id `newId` and save it. */
    method CreateUser(userName: string, password: string, salt: nat, newId: ObjectId) returns (r: Result<UserDocument, DbError>)
      requires Valid()
      modifies this
      ensures Valid()
      ensures r == Failure(ValidationError) <==> userName == [] || password == []
      ensures userName != [] && password != [] ==>
        (r == Failure(DuplicateKey) <==> newId in old(records) || NameTaken(old(records), userName))
      ensures r.Failure? ==> records == old(records) && (r.error == ValidationError || r.error == DuplicateKey)
      ensures r.Success? ==>
        && fresh(r.value) && r.value.id == newId
        && r.value.Record() == Account(userName, Hash(salt, Plain(password)))
        && records == old(records)[newId := Account(userName, Hash(salt, Plain(password)))]
        && records[newId].ComparePassword(password)
    {
      var doc := new UserDocument(newId, userName, password);
      var saved := Save(doc, salt);
      match saved
      case Failure(e) =>
        r := Failure(e);
      case Success(_) =>
        r := Success(doc);
    }

    /** `findOneUser(userName)`: the account with that name, or none; nothing changes. */
    method FindOneUser(userName: string) returns (r: Option<(ObjectId, Account)>)
      ensures r.None? <==> !NameTaken(records, userName)
      ensures r.Some? ==> r.value.0 in records && records[r.value.0] == r.value.1 && r.value.1.userName == userName
      ensures r.Some? && Valid() ==> forall id :: id in records && records[id].userName == userName ==> id == r.value.0
    {
      if exists id :: id in records && records[id].userName == userName {
        var id :| id in records && records[id].userName == userName;
        r := Some((id, records[id]));
      } else {
        r := None;
      }
    }

    /** `findOneUserById(id)`: a malformed id fails to cast; a well-formed one yields its account or none; nothing changes. */
    method FindOneUserById(id: string) returns (r: Result<Option<Account>, DbError>)
      ensures !IsObjectId(id) <==> r == Failure(CastError)
      ensures IsObjectId(id) ==> r == Success(if CastId(id) in records then Some(records[CastId(id)]) else None)
    {
      if !IsObjectId(id) {
        return Failure(CastError);
      }
      var oid := CastId(id);
      r := if oid in records then Success(Some(records[oid])) else Success(None);
    }

    /**
     * `updateUserById(id, userName, password)`: the update hook runs, the id
     * is cast, a matched account gets the present fields, and the unique index
     * rejects a name another account has. No document matched is no change.
     */
    method UpdateUserById(id: string, userName: Option<string>, password: Option<string>, salt: nat) returns (r: Result<(), DbError>)
      requires Valid()
      modifies this
      ensures Valid()
      ensures !IsObjectId(id) ==> r == Failure(CastError) && records == old(records)
      ensures IsObjectId(id) && CastId(id) !in old(records) ==> r == Success(()) && records == old(records)
      ensures IsObjectId(id) && CastId(id) in old(records) ==>
        var updated := Updated(old(records)[CastId(id)], userName, password, salt);
        if NameTakenByOther(old(records), updated.userName, CastId(id)) then r == Failure(DuplicateKey) && records == old(records)
        else r == Success(()) && records == old(records)[CastId(id) := updated]
    {
      var query := new UpdateQuery(userName, password);
      query.PreFindOneAndUpdate(salt);
      if !IsObjectId(id) {
        return Failure(CastError);
      }
      var oid := CastId(id);
      if oid !in records {
        return Success(());
      }
      var account := Account(query.userName.GetOr(records[oid].userName), query.password.GetOr(records[oid].password));
      assert account == Updated(records[oid], userName, password, salt);
      if exists other :: other in records && other != oid && records[other].userName == account.userName {
        return Failure(DuplicateKey);
      }
      UniqueAfterWrite(records, oid, account);
      records := records[oid := account];
      r := Success(());
    }

    /** `deleteUserById(id)`: a malformed id fails to cast; otherwise the account with that id, if any, is removed. */
    method DeleteUserById(id: string) returns (r: Result<(), DbError>)
      requires Valid()
      modifies this
      ensures Valid()
      ensures !IsObjectId(id) ==> r == Failure(CastError) && records == old(records)
      ensures IsObjectId(id) ==> r == Success(()) && records == old(records) - {CastId(id)}
    {
      if !IsObjectId(id) {
        return Failure(CastError);
      }
      records := records - {CastId(id)};
      r := Success(());
    }
  }
}
