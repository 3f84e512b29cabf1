/**
 * The `user` collection as an ordered sequence of documents, and the three
 * query shapes the handlers use: an equality filter on one key, FindOne (the
 * first matching document in collection order) and CountDocuments.
 *
 * The MongoDB Go driver stores a struct field under its name lower-cased
 * unless a `bson` tag says otherwise; `User` tags only its ID, so `UserId` is
 * stored under "userid" and `Email` under "email". Keys are case-sensitive.
 */
module Store {
  import opened Wrappers
  import opened UserModel
  import opened Tokens

  type Collection = seq<User>

  /** The key a `User` field is stored under. */
  function BsonKey(f: Field): string
  {
    match f
    case FirstName => "firstname"
    case LastName => "lastname"
    case Password => "password"
    case Email => "email"
    case Phone => "phone"
    case Token => "token"
    case UserType => "usertype"
    case RefreshToken => "refreshtoken"
  }

  /** The key the non-pointer `UserId` field is stored under. */
  const UserIdKey: string := "userid"

  /**
   * The string value a stored document holds under `key`. A nil pointer is
   * stored as null, and null and a missing key both read as None, which is
   * also what an equality filter on null matches.
   */
  function DocGet(u: User, key: string): Option<string>
  {
    if key == UserIdKey then Some(u.userId)
    else if key == "email" then u.email
    else if key == "phone" then u.phone
    else if key == "firstname" then u.firstName
    else if key == "lastname" then u.lastName
    else if key == "password" then u.password
    else if key == "token" then u.token
    else if key == "usertype" then u.userType
    else if key == "refreshtoken" then u.refreshToken
    else None
  }

  /** Every pointer field reads back from its own key, and the userId from "userid". */
  lemma DocGetStoredFields(u: User)
    ensures forall f: Field :: DocGet(u, BsonKey(f)) == FieldOf(u, f)
    ensures DocGet(u, UserIdKey) == Some(u.userId)
  {
  }

  /** The equality filter `bson.M{key: v}`. */
  predicate Matches(u: User, key: string, v: Option<string>)
  {
    DocGet(u, key) == v
  }

  /** Whether some document matches the filter. */
  predicate InUse(c: Collection, key: string, v: Option<string>)
  {
    exists i :: 0 <= i < |c| && Matches(c[i], key, v)
  }

  /** Position of the first matching document. */
  function FindIndex(c: Collection, key: string, v: Option<string>): (r: Option<nat>)
    ensures r.Some? ==> r.value < |c| && Matches(c[r.value], key, v)
    ensures r.Some? ==> forall j :: 0 <= j < r.value ==> !Matches(c[j], key, v)
    ensures r.None? <==> !InUse(c, key, v)
  {
    if c == [] then None
    else if Matches(c[0], key, v) then Some(0)
    else
      match FindIndex(c[1..], key, v)
      case None => None
      case Some(k) => Some(k + 1)
  }

  /** `FindOne(ctx, bson.M{key: v})`: the first matching document, if any. */
  function FindOne(c: Collection, key: string, v: Option<string>): (r: Option<User>)
    ensures r.Some? <==> InUse(c, key, v)
    ensures r.Some? ==> Matches(r.value, key, v)
    ensures r.Some? ==> exists i :: 0 <= i < |c| && c[i] == r.value && forall j :: 0 <= j < i ==> !Matches(c[j], key, v)
  {
    match FindIndex(c, key, v)
    case None => None
    case Some(i) => Some(c[i])
  }

  /** `CountDocuments(ctx, bson.M{key: v})`. */
  function CountDocuments(c: Collection, key: string, v: Option<string>): (n: nat)
    ensures n <= |c|
    ensures n == 0 <==> !InUse(c, key, v)
  {
    if c == [] then 0
    else
      var rest := CountDocuments(c[1..], key, v);
      assert InUse(c[1..], key, v) ==> InUse(c, key, v);
      (if Matches(c[0], key, v) then 1 else 0) + rest
  }

  /** Appending a matching document behind non-matching ones makes it the first match. */
  lemma FindOneAppended(c: Collection, x: User, key: string, v: Option<string>)
    requires !InUse(c, key, v)
    requires Matches(x, key, v)
    ensures FindOne(c + [x], key, v) == Some(x)
  {
    var c' := c + [x];
    assert c'[|c|] == x;
  }

  /**
   * The token update the token helper is expected to perform: every document
   * with the given userId gets the new token pair and update time; all other
   * documents and fields stay as they were.
   */
  function OverwriteTokens(c: Collection, pair: TokenPair, userId: string, now: Time): (r: Collection)
    ensures |r| == |c|
    ensures forall i :: 0 <= i < |c| && c[i].userId != userId ==> r[i] == c[i]
    ensures forall i :: 0 <= i < |c| && c[i].userId == userId ==>
              r[i] == c[i].(token := Some(pair.token), refreshToken := Some(pair.refreshToken), updatedAt := now)
  {
    if c == [] then []
    else
      var u := c[0];
      var u' := if u.userId == userId
                then u.(token := Some(pair.token), refreshToken := Some(pair.refreshToken), updatedAt := now)
                else u;
      [u'] + OverwriteTokens(c[1..], pair, userId, now)
  }
}
