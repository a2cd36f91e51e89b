# Identity service: accounts, credentials and the token gate

A model of the account and credential logic of a small Express/Mongoose
identity service, with proofs about it.

- **Password policy.** The regular expression both controllers test
  passwords with is modelled as the matcher JavaScript runs, lookaheads
  included. It is proved equal to the policy in plain words: at least eight
  characters, only `A-Z a-z 0-9 @$!%*?&`, and at least one lowercase letter,
  one uppercase letter, one digit and one of `@$!%*?&`.
- **User model.**
  - A `Directory` object holds the collection, a map from ObjectId to
    `{ userName, password }`. Its invariant is the unique `userName` index.
  - A `UserDocument` object carries the pre-save hook. It hashes the password
    only when the password was modified.
  - An `UpdateQuery` object carries the pre-`findOneAndUpdate` hook. It
    hashes a truthy password in the update.
  - `comparePassword` and `toJSON` are modelled, and so are the five
    collection operations.
- **bcrypt** is abstract. A digest remembers its salt and what was hashed,
  so a double hash can be represented. `compare` holds exactly when the
  digest was made from that plaintext.
- **JSON Web Tokens.**
  - `sign` uses a one-hour lifetime.
  - `verify` checks structure first, then the signature, then expiry. A
    token has expired once `now >= exp`.
  - The string form is a five-field dot-separated encoding. No field of it
    contains a dot or a space. The round trip is proved: decoding an encoded
    token gives the token back.
- **Workflows.** `register` and `loginUser`; `findUserById`, `updateUser`,
  `deleteUser` and `findUserByName`. Each is a method against the
  directory. It returns either the success body or an `ErrorKind`, and
  `StatusCode` maps each `ErrorKind` to its HTTP status.
- **Authorization gate** `authenticateJWT`. The token is field 1 of the
  `Authorization` header split on one space. The gate ends in exactly one
  of three ways: 403, 401, or `req.user` set to the claims and `next`
  called once.

The main results:
- Register checks for a duplicate name before it checks the password.
- A failed workflow leaves the directory unchanged; a successful one writes
  at most the one record with that id (an update or delete of an unknown id
  changes nothing).
- Names stay unique under every collection operation. `Register`,
  `UpdateUser` and `DeleteUser` also keep every stored password hashed. The
  bare `Directory.UpdateUserById` does not: an empty password passes its
  hook unhashed.
- A token issued at login passes the gate, with the login's claims, for one
  hour and is rejected as expired after that.

Notes on the code:
- `src/routes/userRoutes.ts:7-13` does not attach `authenticateJWT` and has
  no by-name route. The gate is modelled as a standalone step, and nothing
  here claims the routes are guarded.
- The regular expression also refuses any character outside
  `[A-Za-z0-9@$!%*?&]`, not only passwords that miss one of the four
  required classes.
- The test at `tests/auth.test.ts:73` expects a different weak-password
  message than the one `src/controllers/authController.ts:27` sends. The
  model keeps only the outcome kind.

Modules: `Wrappers`, `Text` (JavaScript `split`/`join` and the token text
codecs), `PasswordPolicy`, `Bcrypt`, `Tokens`, `Outcomes`, `Users`,
`AuthController`, `UserController`, `AuthMiddleware`, and `Scenarios` (the
workflows chained as the test suites chain them).

## Model

| member | source | states |
|---|---|---|
| `PasswordPolicy.RegexTest` | src/controllers/authController.ts:6 | `passwordValidationRegex.test(p)` as JavaScript runs it without flags: the four lookaheads `(?=.*[a-z])`, `(?=.*[A-Z])`, `(?=.*\d)`, `(?=.*[@$!%*?&])` at the start, then the anchored run `[A-Za-z\d@$!%*?&]{8,}$` |
| `PasswordPolicy.LookaheadMeaning` | src/controllers/authController.ts:6 | `(?=.*[k])` at the start succeeds iff some member of class k appears with no line terminator before it |
| `PasswordPolicy.AllowedToEndMeaning` | src/controllers/authController.ts:6 | `[A-Za-z\d@$!%*?&]{n,}$` succeeds iff the string has at least n characters, all from the allowed set |
| `PasswordPolicy.RegexTestIsPolicy` | src/controllers/authController.ts:6 | the regex test accepts p iff \|p\| >= 8, every character is allowed, and p has a lowercase letter, an uppercase letter, a digit and one of `@$!%*?&` |
| `PasswordPolicy.ForeignCharacterRejected` | src/controllers/authController.ts:6 | any password containing a character outside the allowed set (space, `#`, ...) is rejected |
| `PasswordPolicy.ShortRejected` | src/controllers/authController.ts:6 | any password shorter than eight characters is rejected |
| `PasswordPolicy.AcceptsTestPassword` | tests/auth.test.ts:29-40 | "Prueba123!" passes the policy |
| `PasswordPolicy.AcceptsAtMinimumLength` | src/controllers/authController.ts:6 | an eight-character password with one character of each class passes (the length boundary) |
| `PasswordPolicy.RejectsShortPasswords` | tests/auth.test.ts:64-74 | "123456", "1234" and the seven-character "Prueb1!" are rejected |
| `PasswordPolicy.RejectsForeignCharacters` | src/controllers/authController.ts:6 | "Prueba 123!" and "Prueba123#" are rejected, although they have every required class |
| `Text.Split` | src/middleware/auth.ts:14 | `split(sep)` always gives at least one piece, and no piece contains the separator |
| `Text.SplitJoin` | src/middleware/auth.ts:14 | splitting the join of separator-free pieces gives those pieces back |
| `Text.JoinSplit` | src/middleware/auth.ts:14 | joining the pieces of a split gives the original string back |
| `Text.UnescapeEscape` | src/controllers/authController.ts:62 | the escape codec for text fields of a token round-trips |
| `Text.ParseDigits` | src/controllers/authController.ts:62 | the decimal numerals for `iat`/`exp` parse back to the same number |
| `Bcrypt.Hash` | src/models/users.ts:21-24 | `bcrypt.hash(value, salt)`: a digest recording the salt and the hashed value, so a digest of a digest is a distinct value |
| `Bcrypt.Compare` | src/models/users.ts:43-45 | compare is true iff the stored value is a digest of exactly this plaintext, under some salt |
| `Bcrypt.DoubleHashLosesPassword` | src/models/users.ts:21 | a hash of a hash no longer verifies the plaintext (why the hook must skip unmodified passwords) |
| `Tokens.Sign` | src/controllers/authController.ts:62 | `jwt.sign`: claims {id, userName}, `iat` = now, `exp` = now + 3600, signed with the secret |
| `Tokens.Encode` | src/controllers/authController.ts:62 | an issued token string is nonempty and contains no space, so it fits in the header's second field |
| `Tokens.Decode` | src/middleware/auth.ts:23 | the parsing step of `jwt.verify`: exactly five dot-separated fields, text fields unescaped and times parsed as decimal numerals, anything else malformed (None) |
| `Tokens.DecodeEncode` | src/controllers/authController.ts:62 | decoding the string form of any token gives that token back |
| `Tokens.Verify` | src/middleware/auth.ts:23 | verification succeeds only for a string that decodes to a token signed with the secret, and only before its `exp` |
| `Tokens.VerifySigned` | src/controllers/authController.ts:62 | a token signed at t verifies with claims {id, userName, iat = t, exp = t + 3600} while now < t + 3600, and is Expired from then on |
| `Tokens.VerifyOtherKey` | src/middleware/auth.ts:22-29 | a token signed with any other key fails with BadSignature, whatever the time |
| `Tokens.VerifyUnstructured` | src/middleware/auth.ts:22-29 | a string that does not split on dots into exactly five fields is Malformed |
| `Outcomes.Answer` | src/controllers/authController.ts:33 | a response is 2xx exactly when the workflow succeeded: 201 for a successful register, 200 for other successes, the error's status otherwise |
| `Outcomes.StatusCode` | src/controllers/authController.ts:21-68 | every error kind answers a 4xx/5xx status; 400 exactly for duplicate name or weak password, 500 exactly for Internal |
| `Users.Account.ComparePassword` | src/models/users.ts:43-45 | `comparePassword(plain)`: `bcrypt.compare` of the plaintext against the stored password field |
| `Users.ToObject` | src/models/users.ts:50 | `toObject()` of a stored account: `{ _id, userName, password }` with the password as stored |
| `Users.ToJSON` | src/models/users.ts:49-53 | the output has every field of the object except `password`, with the same values, and nothing else |
| `Users.PublicView` | src/models/users.ts:49-53 | the JSON of an account is exactly `{ _id, userName }` |
| `Users.UniqueAfterWrite` | src/models/users.ts:14 | writing an account whose name no other account has keeps names unique |
| `Users.Updated` | src/models/users.ts:74-77 | a present name replaces the stored one; a present nonempty password is stored hashed and verifies; an absent field keeps the stored value; an empty password passes the hook unhashed |
| `Users.UserDocument.constructor` | src/models/users.ts:61 | a new document holds the given name and the plaintext password, is new, and has its password marked modified |
| `Users.UserDocument.PreSave` | src/models/users.ts:20-25 | a modified password is replaced by its hash; an unmodified one is left exactly as it was (no double hashing) |
| `Users.UpdateQuery.constructor` | src/models/users.ts:76 | the update holds the given name and password, absent fields absent |
| `Users.UpdateQuery.PreFindOneAndUpdate` | src/models/users.ts:29-40 | a truthy password in the update is replaced by its hash; an absent or empty one and the name pass through unmodified |
| `Users.Directory.Save` | src/models/users.ts:62 | required validators first (nothing changes); then the hook; a new document is inserted, refused by the unique index for a taken id or name; a stored document must still exist and gets only its modified paths written, the name checked against the index only when modified; success clears the new and modified flags |
| `Users.Directory.CreateUser` | src/models/users.ts:60-64 | an empty name or password fails validation; an existing name or id fails with a duplicate key; failures change nothing; success adds exactly one record, whose password is the hash of p and for which `comparePassword(p)` holds |
| `Users.Directory.FindOneUser` | src/models/users.ts:66-68 | returns the account with that name, the only one under the index, or none exactly when no account has the name |
| `Users.CastId` | src/models/users.ts:71 | the `_id` cast of a twenty-four-digit hex string: each digit of the result stands for the same four bits as the input's, in the lower case the store prints; a stored id casts to itself |
| `Users.CastIdSameBytes` | src/models/users.ts:71 | two strings cast to the same id exactly when their digits stand for the same bytes, so the cast ignores case |
| `Users.UpperCaseCasts` | src/models/users.ts:71 | `"AAAA…A"` (24 digits) is a valid id and casts to `"aaaa…a"` |
| `Users.Directory.FindOneUserById` | src/models/users.ts:70-72 | a malformed id is a cast error; otherwise the account stored under the cast id (case ignored), or none |
| `Users.Directory.UpdateUserById` | src/models/users.ts:74-77 | malformed id: cast error, no change; unknown id: success, no change; otherwise (the id cast, case ignored) only that record becomes the updated account, unless another account has the new name (duplicate key, no change) |
| `Users.Directory.DeleteUserById` | src/models/users.ts:79-81 | malformed id: cast error, no change; otherwise exactly the record under the cast id (case ignored), if any, is removed |
| `AuthController.Register` | src/controllers/authController.ts:14-38 | an existing name gives DuplicateUsername before the password is checked; then an invalid password gives WeakPassword; a store failure gives Internal; each leaves the directory unchanged. Success adds exactly the one record, whose hash verifies the password, and answers `{ _id, userName }` without the password |
| `AuthController.LoginUser` | src/controllers/authController.ts:42-70 | unknown name gives NotFound; a known name with a wrong password gives InvalidCredential; otherwise the reply is the record's id and name and a token signed now with claims {id, userName}; the directory is only read |
| `UserController.FindUserById` | src/controllers/userController.ts:7-16 | a malformed id gives Internal; otherwise exactly the directory lookup under the cast id as public JSON, `_id` as stored, null included |
| `UserController.FindUserByName` | src/controllers/userController.ts:60-69 | null exactly when no account has the name, else the public JSON of the account that has it |
| `UserController.Revised` | src/controllers/userController.ts:24-39 | an absent or empty name keeps the stored name; an absent or empty password keeps the stored hash; a truthy password is stored so that it verifies |
| `UserController.UpdateUser` | src/controllers/userController.ts:19-45 | a truthy password failing the policy gives WeakPassword with no change, even when a new name was sent; otherwise only the record under the cast id (case ignored) is revised; a malformed id or a taken name gives Internal with no change |
| `UserController.DeleteUser` | src/controllers/userController.ts:48-57 | a malformed id gives Internal with no change; otherwise exactly the record under the cast id is removed |
| `AuthMiddleware.ExtractToken` | src/middleware/auth.ts:14 | the token is field 1 of the header split on one space, exactly when that field exists and is nonempty (later fields are ignored); it never has a space |
| `AuthMiddleware.Decide` | src/middleware/auth.ts:13-30 | Forbid exactly when no token can be extracted; Proceed only with the unexpired claims of a token signed with the secret |
| `AuthMiddleware.SchemeNotChecked` | src/middleware/auth.ts:14 | for any leading word, `<word> <token>` yields the token: the scheme is not checked |
| `AuthMiddleware.NoSecondField` | src/middleware/auth.ts:14-20 | a header without a space is answered 403 |
| `AuthMiddleware.EmptySecondField` | src/middleware/auth.ts:14-20 | a header whose second field is empty is answered 403 |
| `AuthMiddleware.IssuedTokenAdmitted` | src/middleware/auth.ts:22-25 | `Bearer <token issued at t>` proceeds with claims {id, userName, t, t + 3600} while now < t + 3600, and is rejected as expired afterwards |
| `AuthMiddleware.ValidTokenProceeds` | src/middleware/auth.ts:22-25 | for any header, a token it yields that is signed with the secret and not yet expired proceeds with exactly its claims |
| `AuthMiddleware.ForeignTokenRejected` | src/middleware/auth.ts:26-29 | a bearer token signed with another key is rejected |
| `AuthMiddleware.AuthenticateJWT` | src/middleware/auth.ts:13-30 | exactly one of: 403 with `req.user` and `next` untouched; 401 likewise; or `req.user` set to the claims and `next` called exactly once, with nothing answered |
| `Scenarios.RegisterTwiceThenLogin` | tests/auth.test.ts:29-96 | into an empty directory, registration succeeds with `{ _id, userName }`, a second registration of the name gives DuplicateUsername and login succeeds with a token for the new id; with a weak password both registrations give WeakPassword and login gives NotFound; the answers are 201, 400 and 200, or 400 and 404 |
| `Scenarios.SaveAgainKeepsRename` | src/models/users.ts:62 | saving a new account, renaming it by id and saving the same document again succeeds and keeps the new name: an unmodified document writes nothing |
| `Scenarios.CaseVariantId` | src/controllers/userController.ts:7-16 | an account created under a stored id is found, with `_id` as stored, and then deleted, through any spelling that casts to that id |
| `Scenarios.LoginThenPresent` | tests/user.test.ts:13-47 | a token from a successful login, presented as `Bearer <token>` within the hour, attaches the login's claims and calls `next` once; after the hour it gives 401 and `next` is not called |

## Left out

- HTTP plumbing is not modelled: Express app setup, CORS, routing, `app.listen`, the database connection and the type augmentation of `req.user`. The controllers are modelled as methods, not as routes.
- The `JWT_SECRET` startup check is environment loading; the secret is a parameter.
- Time (`Date.now()` in `sign` and `verify`), bcrypt salt generation and the generation of new ObjectIds are parameters. Each is supplied by the caller.
- Bcrypt's cost factor and its one-way cryptography are not modelled. Neither is the claim that two hashes of one password differ: the abstract hash is deterministic in its salt.
- Bcrypt.Compare: compares the whole plaintext, while node `bcrypt` uses only a password's first 72 bytes. The policy sets no maximum length, so `LoginUser`'s InvalidCredential guarantee holds only for passwords of at most 72 bytes; two longer passwords that agree on their first 72 bytes are accepted for each other by the service.
- HMAC signing, base64url and JSON encoding of tokens are not modelled. A token carries the key it was signed with, and verification compares that key.
- Tokens.Verify: it does not model `jsonwebtoken`'s other checks (`nbf`, `iat` type, algorithm choice, clock tolerance), which this service never configures.
- Async/await and concurrency are not modelled: each request is one atomic step. This hides the race between `register`'s lookup and its insert, which the unique index would turn into an Internal outcome.
- Storage failures other than the ones listed are not modelled: an unreachable database and other thrown errors. They are what `findUserByName`'s and `loginUser`'s catch branches would answer 500 for, so neither is modelled as ever returning Internal.
- Response messages and logging via `console.error` are not modelled. Outcomes are `ErrorKind` values and `StatusCode` gives their statuses.
- Request bodies with missing fields in `register`/`loginUser` are not modelled. There, fields are strings. JavaScript `undefined` in a Mongoose filter (which would match any user) is outside the model. `updateUser` does model absent fields, as `None`.
- Users.Updated: assumes, as Mongoose 6 and later do, that a key whose value is `undefined` is dropped from the update. Mongoose 5 set such a key to null, so a password-only `updateUser` would clear `userName` there. The source does not fix the Mongoose version. `Directory.UpdateUserById` inherits the assumption.
- Users.IsObjectId: models casting as "twenty-four hexadecimal digits, in either case", and `CastId` as reading those digits as bytes, so spellings that differ only in case are one id. Other values the driver might accept (12-byte strings, ObjectId objects) are not modelled.
- Mongoose's `select: false` projection of the password is not modelled as a separate read mode. Finds return the stored record, and every response goes through `ToJSON`, which drops the password either way.
- The `__v` version key and timestamps of Mongoose documents are not modelled.
- Mongoose's change tracking is modelled only as one "modified" flag per schema path. Only a document's construction sets it, and a successful save clears it; the service never assigns to a saved document's fields, so setters are not modelled.
