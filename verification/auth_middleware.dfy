/**
 * The access guard in front of the user routes: reads the `token` header,
 * has the token helper validate it, and either aborts the request with a
 * status and message or fills four context keys from the claims and lets
 * the request continue.
 */
module AuthMiddleware {
  import opened Wrappers
  import opened Tokens
  import opened AuthHelper

  const StatusInsufficientStorage: int := 507
  const StatusInternalServerError: int := 500
  const NoHeader: string := "No Authorization header provided"

  /** The two ways a request leaves the guard. */
  datatype Outcome = Abort(status: int, error: string) | Next(context: Context)

  /** The context the guard hands on: the four claim keys set, everything else as before. */
  function Populate(c: Context, claims: Claims): (c': Context)
    ensures c'.Keys == c.Keys + {"email", "firstName", "uid", "userType"}
    ensures c'["email"] == claims.email && c'["firstName"] == claims.firstName
    ensures c'["uid"] == claims.uid && c'["userType"] == claims.userType
    ensures forall k :: k in c && k !in {"email", "firstName", "uid", "userType"} ==> c'[k] == c[k]
  {
    c["email" := claims.email]["firstName" := claims.firstName]["uid" := claims.uid]["userType" := claims.userType]
  }

  /**
   * `Authenticate`. An absent header and an empty one read alike; `validate`
   * is the token helper's `ValidateToken`.
   */
  function Authenticate(header: Option<string>, c: Context, validate: string -> Validation): (o: Outcome)
    ensures o.Abort? <==> header.GetOr("") == "" || validate(header.GetOr("")).msg != ""
    ensures o.Abort? ==> (o.status == StatusInsufficientStorage <==> header.GetOr("") == "")
    ensures o.Abort? ==> o.status == StatusInsufficientStorage || o.status == StatusInternalServerError
  {
    var token := header.GetOr("");
    if token == "" then Abort(StatusInsufficientStorage, NoHeader)
    else
      var v := validate(token);
      if v.msg != "" then Abort(StatusInternalServerError, v.msg)
      else Next(Populate(c, v.claims))
  }

  /** A missing or empty header is refused with 507 whatever the validator would say. */
  lemma MissingTokenRejected(header: Option<string>, c: Context, validate: string -> Validation, other: string -> Validation)
    requires header.GetOr("") == ""
    ensures Authenticate(header, c, validate) == Abort(StatusInsufficientStorage, NoHeader)
    ensures Authenticate(header, c, validate) == Authenticate(header, c, other)
  {
  }

  /** A token the validator rejects is refused with 500 and the validator's own message. */
  lemma InvalidTokenRejected(token: string, c: Context, validate: string -> Validation)
    requires token != ""
    requires validate(token).msg != ""
    ensures Authenticate(Some(token), c, validate) == Abort(StatusInternalServerError, validate(token).msg)
  {
  }

  /**
   * A token the validator accepts continues the chain with exactly email,
   * firstName, uid and userType taken from the claims; the last name and
   * every other key are left as they were.
   */
  lemma ValidTokenPopulates(token: string, c: Context, validate: string -> Validation)
    requires token != ""
    requires validate(token).msg == ""
    ensures var o := Authenticate(Some(token), c, validate);
            var claims := validate(token).claims;
            && o.Next?
            && o.context.Keys == c.Keys + {"email", "firstName", "uid", "userType"}
            && o.context["email"] == claims.email
            && o.context["firstName"] == claims.firstName
            && o.context["uid"] == claims.uid
            && o.context["userType"] == claims.userType
            && (forall k :: k in c && k !in {"email", "firstName", "uid", "userType"} ==> o.context[k] == c[k])
            && ("lastName" in o.context <==> "lastName" in c)
  {
  }

  /**
   * Behind the guard the policy decides on the token's claims: the role check
   * passes iff the claimed role is the required one, and the self check
   * refuses only a claimed USER asking for another user's id.
   */
  lemma PolicyDecidesOnClaims(token: string, c: Context, validate: string -> Validation, role: string, userId: string)
    requires token != ""
    requires validate(token).msg == ""
    ensures var ctx := Authenticate(Some(token), c, validate).context;
            var claims := validate(token).claims;
            && (CheckUserType(ctx, role).None? <==> claims.userType == role)
            && (MatchUserTypeToUId(ctx, userId).Some? <==> claims.userType == UserRole && claims.uid != userId)
  {
  }
}
