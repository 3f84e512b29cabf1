# JWT authentication with gin and MongoDB — a Dafny model of the auth core

This project models the authentication and authorization logic of a small Go
web service built with gin and MongoDB. The service has four parts:

- **Authorization policy** (`helpers/authHelper.go`). `CheckUserType` and
  `MatchUserTypeToUId` decide over the per-request context.
- **Access guard** (`middleware/authMiddleware.go`). `Authenticate` reads the
  `token` header, has the token helper validate it, and then either aborts
  with 507 or 500 or fills the context and continues.
- **User handlers** (`controllers/userController.go`):
  - `SignUp`: bind, validate, e-mail check, phone check, insert.
  - `Login`: look up by e-mail, verify the password, generate tokens, update
    them, re-read the record.
  - `GetUsers`: paginated listing.
  - `GetUser`: lookup by userId.
- **User record** (`models/userModel.go`). The `User` struct, whose
  `validate` tags make up the sign-up validation.

Everything is written as pure functions over immutable values. The user
collection is a `seq<User>` in collection order. A handler takes the
collection and returns the reply together with the collection afterwards.
Nilable `*string` fields are `Option<string>`.

Pieces the model does not contain are passed in as function-valued
parameters:

- the validator's e-mail pattern (`isEmail`);
- bcrypt's hash and compare (`hash`, `matches`);
- the token helper's `GenerateAllTokens`, `ValidateToken` and
  `UpdateAllTokens`.

The only property of bcrypt the proofs use is `HashSound`: a password matches
its own hash. It appears as a precondition, never as an axiom. The new
ObjectID, the current time and whether the store acknowledged the insert are
also parameters.

The router is created with `gin.New()` and no recovery middleware. A
handler that panics therefore writes no reply and the connection is dropped.
The model shows this as the response `Panicked`.

Routing is assumed as in `routes/`: `Authenticate` guards `/users` and
`/users/:userId`, while signup and login are unguarded. `GetUsers` and
`GetUser` never call the policy functions, so the policy is modelled on its
own, together with the guard's context.

The model follows the code where it departs from the evident design. For
example, the self-or-role check is meant to fall through to a check against
the elevated role. The code instead compares the caller's role with itself
(see Findings).

## Model

| member | source | states |
|---|---|---|
| `AuthHelper.CheckUserType` | helpers/authHelper.go:9-16 | no error iff the context's userType (read as "" when absent) equals the required role exactly; the error is "Unauthorized to access this resource" |
| `AuthHelper.AbsentRoleDenied` | helpers/authHelper.go:10-14 | with no userType in the context, every non-empty role requirement is refused |
| `AuthHelper.MatchUserTypeToUId` | helpers/authHelper.go:18-29 | refuses exactly when userType is "USER" and uid differs from the target; same message as CheckUserType |
| `AuthHelper.NonUserRolesAlwaysMatch` | helpers/authHelper.go:27-28 | any role other than "USER" (ADMIN, empty, unknown) reaches every target, because the fallthrough checks the role against itself |
| `AuthHelper.RequireSelfOrAdmin` | helpers/authHelper.go:18-29 | the intended decision: allowed iff (USER and own uid) or ADMIN |
| `AuthHelper.PoliciesAgreeOnKnownRoles` | helpers/authHelper.go:23-28 | for userType USER or ADMIN the written and intended decisions are equal |
| `AuthHelper.UnknownRoleAdmittedAsWritten` | helpers/authHelper.go:27 | for any other role the written check allows and the intended one refuses |
| `AuthHelper.EmptyContextReachesAnyUser` | helpers/authHelper.go:19-28 | an empty context reaching user "u2" is allowed as written, refused as intended |
| `AuthMiddleware.Populate` | middleware/authMiddleware.go:24-27 | the context handed on has exactly the old keys plus email, firstName, uid and userType; those four hold the claims' values and every other key keeps its value |
| `AuthMiddleware.Authenticate` | middleware/authMiddleware.go:10-30 | aborts iff the header is empty/absent or the validator's message is non-empty; 507 exactly for the missing header, otherwise 500; every request ends in exactly one of Abort or Next |
| `AuthMiddleware.MissingTokenRejected` | middleware/authMiddleware.go:12-17 | an empty or absent header gives Abort(507, "No Authorization header provided") and the outcome does not depend on the validator |
| `AuthMiddleware.InvalidTokenRejected` | middleware/authMiddleware.go:18-23 | a token the validator rejects gives Abort(500, the validator's message), with no context |
| `AuthMiddleware.ValidTokenPopulates` | middleware/authMiddleware.go:24-28 | an accepted token continues with exactly email, firstName, uid, userType set from the claims; lastName and all other keys unchanged |
| `AuthMiddleware.PolicyDecidesOnClaims` | middleware/authMiddleware.go:24-28 | behind the guard, CheckUserType passes iff the claimed role is the required one and MatchUserTypeToUId refuses only a claimed USER asking for another uid |
| `UserModel.FirstFailing` | models/userModel.go:10-16 | a field passes iff every tag in its list holds; otherwise it reports the first tag in the list that fails, every earlier tag holding |
| `UserModel.CheckFields` | models/userModel.go:10-16 | no errors iff every tagged field passes; each reported error names a field whose reported tag fails |
| `UserModel.CheckFieldsReportsExactlyFailures` | models/userModel.go:10-16 | every failing field is reported with its first failing tag, and every reported error is the report of some failing field |
| `UserModel.Validate` | controllers/userController.go:64 | `validate.Struct(user)` returns no errors iff the record is valid as written out field by field; every error names a field that fails its tag, and every failing field of the User struct is reported |
| `UserModel.NameRules` | models/userModel.go:10-11 | `required,min=2,max=100` holds iff the name is present with length 2 to 100 |
| `UserModel.RoleRules` | models/userModel.go:16 | `required,eq=ADMIN\|eq=USER` holds iff userType is present and exactly "ADMIN" or "USER" |
| `UserModel.UserRulesIffValid` | models/userModel.go:10-16 | the tag table accepts a record iff: first and last name present with length 2..100, password present with length >= 6, e-mail present and well-formed, phone present, userType ADMIN or USER |
| `UserModel.CheckFieldsReadsOnlyTagged` | models/userModel.go:10-16 | a tag table's verdict depends only on the fields it names |
| `UserModel.ValidityIgnoresUntaggedFields` | models/userModel.go:9-20 | changing ID, token, refreshToken, createdAt, updatedAt or userId never changes the validation result |
| `ObjectIds.Hex` | controllers/userController.go:103-104 | the userId derived from an ObjectID is 24 lower-case hexadecimal characters |
| `ObjectIds.DecodeEncode` | controllers/userController.go:104 | decoding the hexadecimal form gives back the identifier's bytes |
| `ObjectIds.EncodeDecode` | controllers/userController.go:104 | every decodable string is the hexadecimal form of what it decodes to |
| `ObjectIds.HexInjective` | controllers/userController.go:103-104 | two identifiers have the same userId iff they are equal |
| `Store.DocGetStoredFields` | models/userModel.go:8-20 | each pointer field is read back from its lower-cased key, and userId from "userid" |
| `Store.FindIndex` | controllers/userController.go:139 | the index returned is the first document matching the filter; none iff no document matches |
| `Store.FindOne` | controllers/userController.go:139 | returns a document iff one matches, and then the first match in collection order |
| `Store.CountDocuments` | controllers/userController.go:71-89 | the count is 0 iff no document matches the filter |
| `Store.FindOneAppended` | controllers/userController.go:110 | a matching document inserted behind non-matching ones is what FindOne returns |
| `Store.OverwriteTokens` | controllers/userController.go:155 | reference token update: records with the userId get the new pair and update time, all others are unchanged, length kept |
| `Pagination.Wrap64` | controllers/userController.go:190 | 64-bit wrap-around: identity on int64 values, congruent modulo 2^64 otherwise |
| `Pagination.Normalise` | controllers/userController.go:178-187 | the result is >= 1; a parsed value >= 1 is kept, anything else becomes the default (10 for recordPerPage, 1 for page) |
| `Pagination.StartIndexAsWritten` | controllers/userController.go:190 | the 64-bit start index equals (page-1)*recordPerPage when that product fits in int64, and is congruent to it modulo 2^64 otherwise |
| `Pagination.StartIndex` | controllers/userController.go:190 | the start index is never negative, is 0 exactly for page 1, and is one page short of page * recordPerPage |
| `Pagination.StartIndexExactWithoutOverflow` | controllers/userController.go:190 | when (page-1)*recordPerPage fits in int64, the 64-bit start index equals the exact one and is >= 0 |
| `Pagination.StartIndexWraps` | controllers/userController.go:190 | page 2^62+1 of size 4 wraps to start index 0 instead of 2^64 |
| `Pagination.Window` | controllers/userController.go:207 | the window has min(n, remaining) elements, none past the end, and its i-th element is data[start+i] |
| `Pagination.MongoSlice` | controllers/userController.go:207 | `$slice` from a non-negative position p has min(n, remaining) elements starting at data[p], none past the end; from a negative position p it takes min(n, -p, size) elements starting that many places from the end (from the front when -p exceeds the size) |
| `Pagination.PageOfIndex` | controllers/userController.go:190-207 | record i is item i % n of page i / n + 1 |
| `UserController.VerifyPassword` | controllers/userController.go:37-46 | the flag is true iff the stored hash matches the given password; the flag is false iff the message is non-empty, and then it is "Email or Password is incorrect" |
| `UserController.VerifyOwnHash` | controllers/userController.go:28-46 | with a sound hash, a password verifies against its own hash with (true, "") |
| `UserController.NewRecord` | controllers/userController.go:84-107 | the inserted record has the new ID, userId = Hex(ID), password = hash(submitted), both timestamps now, submitted names/e-mail/phone/role, and tokens generated from its own claims |
| `UserController.SignUp` | controllers/userController.go:49-120 | 200 iff the body binds, validates, its e-mail and phone are unused and the insert is acknowledged; then the reply is the new ID and exactly one record is appended; every failure leaves the collection unchanged |
| `UserController.SignUpCheckOrder` | controllers/userController.go:58-116 | bind failure 400, validation failure 400 listing every failing field, e-mail in use 500 "This email already exists" even when the phone is also in use, phone in use 500 "This phone already exists", insert failure 500 "User was not created" |
| `UserController.FindByUserId` | controllers/userController.go:158 | corrected re-read key: finds a record iff one has the userId, and that record has it |
| `UserController.LoginRereadingBy` | controllers/userController.go:123-167 | for any re-read key: a 200 reply carries a record that has a value under that key; an error reply other than the failed re-read leaves the collection unchanged |
| `UserController.Login` | controllers/userController.go:123-167 | corrected re-read key: a 200 reply always carries a record; an error reply other than the failed re-read leaves the collection unchanged |
| `UserController.LoginAsWritten` | controllers/userController.go:123-167 | with the "userId" re-read key of line 158: an error reply other than the failed re-read leaves the collection unchanged |
| `UserController.LoginAsWrittenNeverSucceeds` | controllers/userController.go:155-161 | for documents stored through the User struct, Login as written never replies 200; wherever the corrected Login succeeds, the one as written has written the tokens and replies 500 "mongo: no documents in result" |
| `UserController.LoginFailuresIndistinguishable` | controllers/userController.go:139-151 | an unknown e-mail and a wrong password give the identical 500 "Email or Password is incorrect" and leave the collection unchanged |
| `UserController.LoginSuccess` | controllers/userController.go:139-165 | a 200 Login found the first record with the e-mail, matched the password against its hash, generated tokens from that record's claims, passed them to the token update under its userId, and replies with the record re-read under that userId |
| `UserController.LoginWithoutPasswordPanics` | controllers/userController.go:147 | a body without a password for an existing e-mail dereferences nil and drops the connection |
| `UserController.LoginReturnsFreshTokens` | controllers/userController.go:139-165 | with the reference token update, a Login whose e-mail is found and whose password matches the stored hash replies 200 with a record of the found userId carrying exactly the pair generated from the found record's claims and the update time |
| `UserController.SignUpThenLogin` | controllers/userController.go:49-167 | sign-up followed by login with the same e-mail and password replies 200 with the new record carrying the login's tokens |
| `UserController.GetUser` | controllers/userController.go:236-255 | 200 iff some record has the userId, replying with such a record; otherwise 500 "Error occurred while fetching the user" |
| `UserController.GetUserAsWritten` | controllers/userController.go:242-253 | as written, the lookup always produces a reply, never a panic |
| `UserController.GetUserAsWrittenNeverFinds` | controllers/userController.go:246 | as written, the lookup fails for every collection of documents stored through the User struct and every id, even when the corrected lookup succeeds |
| `UserController.GetUsers` | controllers/userController.go:172-231 | always 200 with totalCount = number of records and the items of the normalised page: min(size, remaining) records starting at (page-1)*size, empty past the end |
| `UserController.GetUsersEmptyStore` | controllers/userController.go:229 | the corrected listing of an empty collection is an empty page with total count 0 |
| `UserController.FifteenRecordsSecondPage` | controllers/userController.go:190-210 | 15 records, page 2 of size 10: total 15 and the last five records |
| `UserController.GetUsersAsWritten` | controllers/userController.go:172-231 | as written, it panics iff the collection is empty; otherwise 200 with the full count |
| `UserController.GetUsersAgreeWithoutOverflow` | controllers/userController.go:190-229 | on a non-empty collection with a start index that fits in 64 bits, the written and corrected listings are equal |
| `UserController.EmptyCollectionPanics` | controllers/userController.go:229 | as written, an empty collection panics; the corrected listing replies |
| `UserController.OverflowReturnsFirstPage` | controllers/userController.go:190 | as written, page 2^62+1 of size 4 returns the first four records; corrected, it returns none |

## Left out

- Store failures are not modelled:
  - `CountDocuments` errors end in `log.Panic` (controllers/userController.go:74, 92).
  - `Aggregate` errors reply 500 "Error occurred while listing user items".
  - Cursor errors end in `log.Fatal` (line 225).
  - Decode errors are not modelled either.
  - Only the insert acknowledgement is modelled, as a boolean parameter.
- MongoDB's limits on `$slice` arguments are not modelled. The server rejects positions outside 32 bits.
- `UserController.GetUsersAsWritten`: both `$slice` arguments are taken as unbounded integers. The server refuses a position (startIndex) or a count (recordPerPage) outside 32 bits, for example `recordPerPage=5000000000`, and the handler then replies 500 "Error occurred while listing user items" (controllers/userController.go:218). This reply is not modelled.
- `UserController.NewRecord`: createdAt and updatedAt are one `now` parameter. The source reads the clock twice (controllers/userController.go:101-102), so the two can differ by the time between the reads.
- `UserController.NewRecord`: `hash` is a function, so equal passwords hash alike. bcrypt draws a random salt on each call, and only `matches` against the hash is meaningful.
- `UserController.Login`, `UserController.FindByUserId`: the re-read after the token update uses the "userid" key the driver writes. The source uses "userId" (controllers/userController.go:158; see Findings). `UserController.LoginAsWritten` models the written key.
- `UserController.LoginSuccess`: its success case is that of the corrected re-read key; as written no Login succeeds.
- `UserController.LoginReturnsFreshTokens`: states the reply of the corrected re-read; as written the same inputs give 500 "mongo: no documents in result".
- `UserController.SignUpThenLogin`: states the login reply of the corrected re-read; as written the login after sign-up gives 500 "mongo: no documents in result".
- `HashPassword` panics are not modelled. This includes recent bcrypt versions refusing passwords over 72 bytes.
- The bcrypt cost factor is not modelled.
- Signing, expiry and claim decoding in the token helper are not modelled. That helper is not part of this model; its three functions are parameters.
- The guard assumes `ValidateToken` returns claims whenever its message is empty. A nil claims pointer there would panic; that case is not modelled.
- What `UpdateAllTokens` writes, and under which key, is the token helper's business. `Store.OverwriteTokens` is the update the handlers expect, used only by the lemmas that assume it.
- Gin's JSON binding is not modelled. A body either binds to a `User` or fails with a message.
- `strconv.Atoi` is an `Option<int64>` input. Go's `int` is taken as 64 bits.
- The rendering of validation errors to text is left to the validator library. The 400 reply carries the list of failing fields and tags.
- Validator lengths count characters. Go counts runes of possibly invalid UTF-8; that difference is not modelled.
- Context values are strings only. `GetString` on a non-string value also reads as "", which is not modelled.
- The context timeouts, `time.Now`/RFC 3339 formatting and ObjectID randomness are not modelled. The new ID and the time are parameters.
- The race between the uniqueness counts and the insert under concurrent sign-ups is not modelled.
- Startup code is not modelled: `.env` loading, port default, Mongo connection and route registration.
- `Decode` into an already-filled struct at controllers/userController.go:158 is modelled as replacing the record. Stored documents hold every field, so nothing of the old value survives.

## Findings

| source | as written | input that shows it | evidently intended | confidence | as-written member | corrected member |
|---|---|---|---|---|---|---|
| helpers/authHelper.go:27 | the fallthrough calls `CheckUserType(c, userType)`, comparing the role with itself, so every non-USER role passes | a context without "userType" (the guard never ran) or with userType "GUEST", target "u2": allowed | only ADMIN may reach other users' ids | medium, not executed | `AuthHelper.UnknownRoleAdmittedAsWritten` | `AuthHelper.RequireSelfOrAdmin` |
| controllers/userController.go:246 | filters on key "userId", but the driver stores the untagged `UserId` field of every document written through the User struct under "userid" | any signed-up user, `GET /users/<its userId>`: 500 "Error occurred while fetching the user" | find the record by its userId | medium, not executed | `UserController.GetUserAsWrittenNeverFinds` | `UserController.GetUser` |
| controllers/userController.go:158 | Login's re-read after the token update filters on key "userId", which no document written through the User struct has | sign up a user, then log in with its e-mail and password: the tokens are updated, then 500 "mongo: no documents in result" | reply 200 with the updated record | medium, not executed | `UserController.LoginAsWrittenNeverSucceeds` | `UserController.Login` |
| controllers/userController.go:229 | `allUsers[0]` on the aggregation result, which is empty for an empty collection | `GET /users` with no users stored: panic, connection dropped | 200 with total count 0 and no items | high, not executed | `UserController.EmptyCollectionPanics` | `UserController.GetUsersEmptyStore` |
| controllers/userController.go:190 | `(page-1)*recordPerPage` in 64-bit `int` wraps | `page=4611686018427387905&recordPerPage=4`: start index 0, the first four users | an empty page, since the page lies past the end | medium, not executed | `UserController.OverflowReturnsFirstPage` | `UserController.GetUsers` |

The Login finding assumes that `UpdateAllTokens`, which is not part of this
model, keeps the documents' shape: it does not add a "userId" key.
