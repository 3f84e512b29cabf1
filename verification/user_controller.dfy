/**
 * The user handlers: SignUp and Login (unguarded), GetUsers and GetUser
 * (behind the guard). Each takes the collection as it stands and returns the
 * reply together with the collection afterwards. The foreign pieces they
 * call are parameters: the e-mail pattern, the password hash and its compare
 * function, the token generator and the token update.
 */
module UserController {
  import opened Wrappers
  import opened ObjectIds
  import opened UserModel
  import opened Tokens
  import opened Store
  import opened Pagination

  const StatusOK: int := 200
  const StatusBadRequest: int := 400
  const StatusInternalServerError: int := 500

  const IncorrectCredentials: string := "Email or Password is incorrect"
  const EmailExists: string := "This email already exists"
  const PhoneExists: string := "This phone already exists"
  const NotCreated: string := "User was not created"
  const FetchFailed: string := "Error occurred while fetching the user"
  /** The driver's `ErrNoDocuments` text. */
  const NoDocuments: string := "mongo: no documents in result"

  /** The JSON bodies the handlers write. */
  datatype Body =
    | ErrorMsg(error: string)
    | InvalidFields(errors: seq<FieldError>)
    | Inserted(insertedId: ObjectId)
    | Record(user: User)
    | Page(totalCount: nat, userItems: seq<User>)

  /**
   * What the client sees. The router has no recovery middleware, so a
   * panicking handler writes no reply and the connection is dropped.
   */
  datatype Response = Reply(status: int, body: Body) | Panicked

  /** A reply and the collection after the request. */
  datatype Step = Step(response: Response, store: Collection)

  /**
   * The foreign functions the handlers call: the validator's e-mail pattern,
   * bcrypt's hash (cost 14) and `CompareHashAndPassword(hash, password)`
   * succeeding, and the token helper's `GenerateAllTokens`.
   */
  datatype Services = Services(
    isEmail: string -> bool,
    hash: string -> string,
    matches: (string, string) -> bool,
    generate: Claims -> TokenPair)

  /** The one property of bcrypt the model relies on: a password matches its own hash. */
  ghost predicate HashSound(s: Services)
  {
    forall p :: s.matches(s.hash(p), p)
  }

  /** `VerifyPassword(userPassword, providedPassword)`; the second argument is the stored hash. */
  function VerifyPassword(matches: (string, string) -> bool, userPassword: string, providedPassword: string): (r: (bool, string))
    ensures r.0 <==> matches(providedPassword, userPassword)
    ensures r.0 <==> r.1 == ""
    ensures !r.0 ==> r.1 == IncorrectCredentials
  {
    if matches(providedPassword, userPassword) then (true, "") else (false, IncorrectCredentials)
  }

  /** With a sound hash, a password always verifies against its own stored hash. */
  lemma VerifyOwnHash(s: Services, password: string)
    requires HashSound(s)
    ensures VerifyPassword(s.matches, password, s.hash(password)) == (true, "")
  {
  }

  /** Whether a record has the four identity fields a token is generated from. */
  predicate HasClaims(u: User)
  {
    u.email.Some? && u.firstName.Some? && u.lastName.Some? && u.userType.Some?
  }

  /** The claims a token for this record carries. */
  function ClaimsOf(u: User): Claims
    requires HasClaims(u)
  {
    Claims(u.email.value, u.firstName.value, u.lastName.value, u.userType.value, u.userId)
  }

  /**
   * The record SignUp inserts for a validated body: the new ID, userId its
   * hexadecimal form, password replaced by its hash, both timestamps `now`,
   * tokens generated from the record's own claims.
   */
  function NewRecord(u: User, s: Services, newId: ObjectId, now: Time): (rec: User)
    requires IsValid(u, s.isEmail)
    ensures rec.id == newId && rec.userId == Hex(rec.id)
    ensures rec.password == Some(s.hash(u.password.value))
    ensures rec.createdAt == now && rec.updatedAt == now
    ensures rec.firstName == u.firstName && rec.lastName == u.lastName && rec.email == u.email
    ensures rec.phone == u.phone && rec.userType == u.userType
    ensures HasClaims(rec) && rec.token.Some? && rec.refreshToken.Some?
    ensures s.generate(ClaimsOf(rec)) == TokenPair(rec.token.value, rec.refreshToken.value)
  {
    var uid := Hex(newId);
    var pair := s.generate(Claims(u.email.value, u.firstName.value, u.lastName.value, u.userType.value, uid));
    u.(password := Some(s.hash(u.password.value)),
       createdAt := now, updatedAt := now,
       id := newId, userId := uid,
       token := Some(pair.token), refreshToken := Some(pair.refreshToken))
  }

  /**
   * `SignUp`. `payload` is the bound JSON body or the binding error; `newId`
   * and `now` are the generated ObjectID and the current time; `insertOk`
   * says whether the store acknowledged the insert.
   */
  function SignUp(store: Collection, payload: Result<User, string>, s: Services, newId: ObjectId, now: Time, insertOk: bool): (r: Step)
    ensures r.response.Reply?
    ensures r.response.status == StatusOK <==>
              && payload.Success?
              && IsValid(payload.value, s.isEmail)
              && !InUse(store, "email", payload.value.email)
              && !InUse(store, "phone", payload.value.phone)
              && insertOk
    ensures r.response.status == StatusOK ==>
              r.response.body == Inserted(newId) && r.store == store + [NewRecord(payload.value, s, newId, now)]
    ensures r.response.status != StatusOK ==> r.store == store
  {
    match payload
    case Failure(msg) => Step(Reply(StatusBadRequest, ErrorMsg(msg)), store)
    case Success(u) =>
      var errs := Validate(u, s.isEmail);
      if errs != [] then Step(Reply(StatusBadRequest, InvalidFields(errs)), store)
      else if CountDocuments(store, "email", u.email) > 0 then Step(Reply(StatusInternalServerError, ErrorMsg(EmailExists)), store)
      else if CountDocuments(store, "phone", u.phone) > 0 then Step(Reply(StatusInternalServerError, ErrorMsg(PhoneExists)), store)
      else
        var rec := NewRecord(u, s, newId, now);
        if !insertOk then Step(Reply(StatusInternalServerError, ErrorMsg(NotCreated)), store)
        else Step(Reply(StatusOK, Inserted(newId)), store + [rec])
  }

  /**
   * SignUp's checks run in a fixed order and the first failing one answers:
   * binding (400), validation (400 listing every failing field), e-mail in use
   * (500), phone in use (500), insert (500). A body whose e-mail and phone
   * are both taken gets the e-mail message.
   */
  lemma SignUpCheckOrder(store: Collection, payload: Result<User, string>, s: Services, newId: ObjectId, now: Time, insertOk: bool)
    ensures var r := SignUp(store, payload, s, newId, now, insertOk).response;
            && (payload.Failure? ==> r == Reply(StatusBadRequest, ErrorMsg(payload.error)))
            && (payload.Success? && !IsValid(payload.value, s.isEmail) ==>
                  r.status == StatusBadRequest && r.body.InvalidFields? && r.body.errors != []
                  && r.body.errors == Validate(payload.value, s.isEmail)
                  && forall i :: 0 <= i < |UserRules| && !Passes(UserRules[i], payload.value, s.isEmail) ==>
                       ErrorFor(UserRules[i], payload.value, s.isEmail) in r.body.errors)
            && (payload.Success? && IsValid(payload.value, s.isEmail) && InUse(store, "email", payload.value.email) ==>
                  r == Reply(StatusInternalServerError, ErrorMsg(EmailExists)))
            && (payload.Success? && IsValid(payload.value, s.isEmail) && !InUse(store, "email", payload.value.email)
                && InUse(store, "phone", payload.value.phone) ==>
                  r == Reply(StatusInternalServerError, ErrorMsg(PhoneExists)))
            && (payload.Success? && IsValid(payload.value, s.isEmail) && !InUse(store, "email", payload.value.email)
                && !InUse(store, "phone", payload.value.phone) && !insertOk ==>
                  r == Reply(StatusInternalServerError, ErrorMsg(NotCreated)))
  {
  }

  /** The first record whose stored userId is `userId`, looked up under the key the driver writes. */
  function FindByUserId(store: Collection, userId: string): (r: Option<User>)
    ensures r.Some? ==> r.value.userId == userId
    ensures r.None? <==> forall i :: 0 <= i < |store| ==> store[i].userId != userId
  {
    var r := FindOne(store, UserIdKey, Some(userId));
    assert forall i :: 0 <= i < |store| ==> (Matches(store[i], UserIdKey, Some(userId)) <==> store[i].userId == userId);
    r
  }

  /**
   * The body of `Login`, with the key its final re-read filters on as a
   * parameter. `updateTokens` is the token helper's `UpdateAllTokens`,
   * applied to the collection; its write is not checked, as in the source.
   */
  function LoginRereadingBy(key: string, store: Collection, payload: Result<User, string>, s: Services,
                            updateTokens: (Collection, TokenPair, string) -> Collection): (r: Step)
    ensures r.response.Reply? && r.response.status != StatusOK && r.response.body != ErrorMsg(NoDocuments) ==> r.store == store
    ensures r.response.Reply? && r.response.status == StatusOK ==>
              && r.response.body.Record?
              && DocGet(r.response.body.user, key).Some?
  {
    match payload
    case Failure(msg) => Step(Reply(StatusBadRequest, ErrorMsg(msg)), store)
    case Success(u) =>
      match FindOne(store, "email", u.email)
      case None => Step(Reply(StatusInternalServerError, ErrorMsg(IncorrectCredentials)), store)
      case Some(found) =>
        if u.password.None? || found.password.None? then Step(Panicked, store)
        else
          var (ok, msg) := VerifyPassword(s.matches, u.password.value, found.password.value);
          if !ok then Step(Reply(StatusInternalServerError, ErrorMsg(msg)), store)
          else if !HasClaims(found) then Step(Panicked, store)
          else
            var pair := s.generate(ClaimsOf(found));
            var updated := updateTokens(store, pair, found.userId);
            match FindOne(updated, key, Some(found.userId))
            case None => Step(Reply(StatusInternalServerError, ErrorMsg(NoDocuments)), updated)
            case Some(fetched) =>
              assert Matches(fetched, key, Some(found.userId));
              Step(Reply(StatusOK, Record(fetched)), updated)
  }

  /**
   * `Login`, re-reading the updated record under the key the driver writes
   * the userId field to.
   */
  function Login(store: Collection, payload: Result<User, string>, s: Services,
                 updateTokens: (Collection, TokenPair, string) -> Collection): (r: Step)
    ensures r.response.Reply? && r.response.status != StatusOK && r.response.body != ErrorMsg(NoDocuments) ==> r.store == store
    ensures r.response.Reply? && r.response.status == StatusOK ==> r.response.body.Record?
  {
    LoginRereadingBy(UserIdKey, store, payload, s, updateTokens)
  }

  /** `Login` as written: the re-read filters on "userId", the same key as `GetUserAsWritten`. */
  function LoginAsWritten(store: Collection, payload: Result<User, string>, s: Services,
                          updateTokens: (Collection, TokenPair, string) -> Collection): (r: Step)
    ensures r.response.Reply? && r.response.status != StatusOK && r.response.body != ErrorMsg(NoDocuments) ==> r.store == store
  {
    LoginRereadingBy(UserIdKeyAsWritten, store, payload, s, updateTokens)
  }

  /**
   * As written, Login never answers 200, whatever the collection and the
   * token update: where the corrected Login succeeds, the one as written
   * has already written the new tokens and then replies 500 with the
   * driver's no-documents message.
   */
  lemma LoginAsWrittenNeverSucceeds(store: Collection, payload: Result<User, string>, s: Services,
                                    updateTokens: (Collection, TokenPair, string) -> Collection)
    ensures var r := LoginAsWritten(store, payload, s, updateTokens).response;
            r.Reply? ==> r.status != StatusOK
    ensures var r := Login(store, payload, s, updateTokens);
            r.response.Reply? && r.response.status == StatusOK ==>
              LoginAsWritten(store, payload, s, updateTokens)
                == Step(Reply(StatusInternalServerError, ErrorMsg(NoDocuments)), r.store)
  {
  }

  /**
   * An unknown e-mail and a wrong password get the same 500 reply with the
   * same message, and neither changes the collection.
   */
  lemma LoginFailuresIndistinguishable(store: Collection, payload: Result<User, string>, s: Services,
                                       updateTokens: (Collection, TokenPair, string) -> Collection)
    requires payload.Success? && payload.value.password.Some?
    requires var found := FindOne(store, "email", payload.value.email);
             found.None? ||
             (found.value.password.Some? && !s.matches(found.value.password.value, payload.value.password.value))
    ensures Login(store, payload, s, updateTokens) == Step(Reply(StatusInternalServerError, ErrorMsg(IncorrectCredentials)), store)
  {
  }

  /**
   * A successful Login found the first record with the given e-mail, checked
   * the password against its stored hash, generated tokens from that record's
   * own claims, passed them to the token update under its userId, and replies
   * with the record re-read under that userId.
   */
  lemma LoginSuccess(store: Collection, payload: Result<User, string>, s: Services,
                     updateTokens: (Collection, TokenPair, string) -> Collection)
    requires Login(store, payload, s, updateTokens).response.Reply?
    requires Login(store, payload, s, updateTokens).response.status == StatusOK
    ensures payload.Success? && payload.value.password.Some?
    ensures var found := FindOne(store, "email", payload.value.email);
            && found.Some?
            && found.value.email == payload.value.email
            && found.value.password.Some?
            && s.matches(found.value.password.value, payload.value.password.value)
            && HasClaims(found.value)
            && var updated := updateTokens(store, s.generate(ClaimsOf(found.value)), found.value.userId);
               && Login(store, payload, s, updateTokens).store == updated
               && Login(store, payload, s, updateTokens).response.body == Record(FindByUserId(updated, found.value.userId).value)
               && Login(store, payload, s, updateTokens).response.body.user.userId == found.value.userId
  {
  }

  /** Login from a body that names no password, for an existing e-mail, panics on the nil pointer. */
  lemma LoginWithoutPasswordPanics(store: Collection, payload: Result<User, string>, s: Services,
                                   updateTokens: (Collection, TokenPair, string) -> Collection)
    requires payload.Success? && payload.value.password.None?
    requires InUse(store, "email", payload.value.email)
    ensures Login(store, payload, s, updateTokens).response == Panicked
  {
  }

  /**
   * With the token update performing the expected overwrite, a Login whose
   * e-mail is found and whose password matches the stored hash succeeds, and
   * the reply carries exactly the token pair generated from the found
   * record's claims, stamped with the update time.
   */
  lemma LoginReturnsFreshTokens(store: Collection, email: Option<string>, password: string, body: User, s: Services, now: Time)
    requires body.email == email && body.password == Some(password)
    requires FindOne(store, "email", email).Some?
    requires FindOne(store, "email", email).value.password.Some?
    requires s.matches(FindOne(store, "email", email).value.password.value, password)
    requires HasClaims(FindOne(store, "email", email).value)
    ensures var found := FindOne(store, "email", email).value;
            var pair := s.generate(ClaimsOf(found));
            var r := Login(store, Success(body), s, (c, p, id) => OverwriteTokens(c, p, id, now)).response;
            && r.Reply? && r.status == StatusOK
            && r.body.user.userId == found.userId
            && r.body.user.token == Some(pair.token)
            && r.body.user.refreshToken == Some(pair.refreshToken)
            && r.body.user.updatedAt == now
  {
  }

  /**
   * Signing up and then logging in with the same e-mail and password
   * succeeds and returns the new record with the login's tokens, provided no
   * earlier record shares the new userId. The login may use a different token
   * generator (tokens carry their issue time) but the same bcrypt.
   */
  lemma SignUpThenLogin(store: Collection, u: User, s: Services, newId: ObjectId, now: Time,
                        credentials: User, login: Services, later: Time)
    requires HashSound(s) && login.matches == s.matches
    requires IsValid(u, s.isEmail)
    requires SignUp(store, Success(u), s, newId, now, true).response == Reply(StatusOK, Inserted(newId))
    requires forall i :: 0 <= i < |store| ==> store[i].userId != Hex(newId)
    requires credentials.email == u.email && credentials.password == u.password
    ensures var signedUp := SignUp(store, Success(u), s, newId, now, true).store;
            var rec := NewRecord(u, s, newId, now);
            var pair := login.generate(ClaimsOf(rec));
            Login(signedUp, Success(credentials), login, (c, p, id) => OverwriteTokens(c, p, id, later)).response
              == Reply(StatusOK, Record(rec.(token := Some(pair.token), refreshToken := Some(pair.refreshToken), updatedAt := later)))
  {
    var rec := NewRecord(u, s, newId, now);
    var signedUp := store + [rec];
    DocGetStoredFields(rec);
    assert BsonKey(Email) == "email";
    FindOneAppended(store, rec, "email", u.email);
    assert FindOne(signedUp, "email", credentials.email) == Some(rec);
    var pair := login.generate(ClaimsOf(rec));
    var updated := OverwriteTokens(signedUp, pair, rec.userId, later);
    var rec' := rec.(token := Some(pair.token), refreshToken := Some(pair.refreshToken), updatedAt := later);
    assert updated == OverwriteTokens(store, pair, rec.userId, later) + [rec'];
    DocGetStoredFields(rec');
    FindOneAppended(OverwriteTokens(store, pair, rec.userId, later), rec', UserIdKey, Some(rec.userId));
  }

  /** `GetUser`: the first record with the requested userId, or 500 when there is none. */
  function GetUser(store: Collection, userId: string): (r: Response)
    ensures r.Reply?
    ensures r.status == StatusOK <==> exists i :: 0 <= i < |store| && store[i].userId == userId
    ensures r.status == StatusOK ==>
              && r.body.Record? && r.body.user.userId == userId
              && exists i :: 0 <= i < |store| && store[i] == r.body.user
    ensures r.status != StatusOK ==> r == Reply(StatusInternalServerError, ErrorMsg(FetchFailed))
  {
    match FindByUserId(store, userId)
    case None => Reply(StatusInternalServerError, ErrorMsg(FetchFailed))
    case Some(u) =>
      assert u == FindOne(store, UserIdKey, Some(userId)).value;
      Reply(StatusOK, Record(u))
  }

  /** The key the source filters on when looking a user up by id. */
  const UserIdKeyAsWritten: string := "userId"

  /** `GetUser` as written: the filter names "userId", a key no stored document has. */
  function GetUserAsWritten(store: Collection, userId: string): (r: Response)
    ensures r.Reply?
  {
    match FindOne(store, UserIdKeyAsWritten, Some(userId))
    case None => Reply(StatusInternalServerError, ErrorMsg(FetchFailed))
    case Some(u) => Reply(StatusOK, Record(u))
  }

  /** As written, the lookup fails for every collection and every id. */
  lemma GetUserAsWrittenNeverFinds(store: Collection, userId: string)
    ensures GetUserAsWritten(store, userId) == Reply(StatusInternalServerError, ErrorMsg(FetchFailed))
    ensures (exists i :: 0 <= i < |store| && store[i].userId == userId) ==> GetUser(store, userId).status == StatusOK
  {
  }

  /**
   * `GetUsers` with the start index computed exactly and an empty collection
   * answered with an empty page: the total count and the window of the
   * normalised page.
   */
  function GetUsers(store: Collection, recordPerPageParam: Option<int64>, pageParam: Option<int64>): (r: Response)
    ensures var n := Normalise(recordPerPageParam, DefaultRecordPerPage);
            var page := Normalise(pageParam, DefaultPage);
            var start := StartIndex(page, n);
            && r.Reply? && r.status == StatusOK && r.body.Page?
            && r.body.totalCount == |store|
            && |r.body.userItems| == (if start >= |store| then 0 else Pagination.Min(n, |store| - start))
            && forall i :: 0 <= i < |r.body.userItems| ==> r.body.userItems[i] == store[start + i]
  {
    var n := Normalise(recordPerPageParam, DefaultRecordPerPage);
    var page := Normalise(pageParam, DefaultPage);
    Reply(StatusOK, Page(|store|, Window(store, StartIndex(page, n), n)))
  }

  /** An empty collection is an empty page with total count 0. */
  lemma GetUsersEmptyStore(recordPerPageParam: Option<int64>, pageParam: Option<int64>)
    ensures GetUsers([], recordPerPageParam, pageParam) == Reply(StatusOK, Page(0, []))
  {
  }

  /** Fifteen records, page 2 of size 10: total 15 and the last five records. */
  lemma FifteenRecordsSecondPage(store: Collection)
    requires |store| == 15
    ensures GetUsers(store, Some(10), Some(2)) == Reply(StatusOK, Page(15, store[10..15]))
  {
  }

  /**
   * `GetUsers` as written: the start index in 64-bit arithmetic, MongoDB's
   * `$slice`, and `allUsers[0]` on the aggregation result, which is empty
   * when the collection is, since `$group` then emits no document.
   */
  function GetUsersAsWritten(store: Collection, recordPerPageParam: Option<int64>, pageParam: Option<int64>): (r: Response)
    ensures r.Panicked? <==> store == []
    ensures r.Reply? ==> r.status == StatusOK && r.body.Page? && r.body.totalCount == |store|
  {
    var n := Normalise(recordPerPageParam, DefaultRecordPerPage);
    var page := Normalise(pageParam, DefaultPage);
    var start := StartIndexAsWritten(page, n);
    if store == [] then Panicked
    else Reply(StatusOK, Page(|store|, MongoSlice(store, start, n)))
  }

  /** On a non-empty collection and a start index that fits, the written and the corrected handler agree. */
  lemma GetUsersAgreeWithoutOverflow(store: Collection, recordPerPageParam: Option<int64>, pageParam: Option<int64>)
    requires store != []
    requires (Normalise(pageParam, DefaultPage) - 1) * Normalise(recordPerPageParam, DefaultRecordPerPage) <= MaxInt64
    ensures GetUsersAsWritten(store, recordPerPageParam, pageParam) == GetUsers(store, recordPerPageParam, pageParam)
  {
  }

  /** As written, listing an empty collection panics instead of replying. */
  lemma EmptyCollectionPanics(recordPerPageParam: Option<int64>, pageParam: Option<int64>)
    ensures GetUsersAsWritten([], recordPerPageParam, pageParam) == Panicked
    ensures GetUsers([], recordPerPageParam, pageParam).Reply?
  {
  }

  /**
   * As written, page 2^62 + 1 of size 4 wraps to start index 0 and returns
   * the first four records; the page lies far past the end and should be
   * empty.
   */
  lemma OverflowReturnsFirstPage(store: Collection)
    requires 4 <= |store| <= MaxInt64
    ensures GetUsersAsWritten(store, Some(4), Some(0x4000_0000_0000_0001)) == Reply(StatusOK, Page(|store|, store[..4]))
    ensures GetUsers(store, Some(4), Some(0x4000_0000_0000_0001)) == Reply(StatusOK, Page(|store|, []))
  {
  }
}
