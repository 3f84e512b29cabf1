/**
 * The authorization policy: two decisions over the per-request context that
 * the guard fills in. Each returns the error it would report, None for
 * "allowed". Neither touches the context, which is passed by value here.
 */
module AuthHelper {
  import opened Wrappers

  /** The per-request key/value store; only string values are ever set in it. */
  type Context = map<string, string>

  const Unauthorized: string := "Unauthorized to access this resource"
  const UserRole: string := "USER"
  const AdminRole: string := "ADMIN"

  /** `c.GetString(key)`: the string under `key`, or "" when the key was never set. */
  function GetString(c: Context, key: string): string
  {
    if key in c then c[key] else ""
  }

  /** `CheckUserType`: only a caller whose role is exactly `role` is allowed. */
  function CheckUserType(c: Context, role: string): (err: Option<string>)
    ensures err.None? <==> GetString(c, "userType") == role
    ensures err.Some? ==> err.value == Unauthorized
  {
    if GetString(c, "userType") != role then Some(Unauthorized) else None
  }

  /**
   * `MatchUserTypeToUId` as written: a USER may only reach its own userId;
   * for any other role the fallthrough checks the role against itself and
   * so always allows.
   */
  function MatchUserTypeToUId(c: Context, userId: string): (err: Option<string>)
    ensures err.Some? <==> GetString(c, "userType") == UserRole && GetString(c, "uid") != userId
    ensures err.Some? ==> err.value == Unauthorized
  {
    var userType := GetString(c, "userType");
    var uid := GetString(c, "uid");
    if userType == UserRole && uid != userId then Some(Unauthorized)
    else CheckUserType(c, userType)
  }

  /** With no role in the context, every non-empty role requirement is refused. */
  lemma AbsentRoleDenied(c: Context, role: string)
    requires "userType" !in c
    requires role != ""
    ensures CheckUserType(c, role) == Some(Unauthorized)
  {
  }

  /** As written, any role other than USER (ADMIN, empty, unknown) reaches every userId. */
  lemma NonUserRolesAlwaysMatch(c: Context, userId: string)
    requires GetString(c, "userType") != UserRole
    ensures MatchUserTypeToUId(c, userId).None?
  {
  }

  /**
   * The decision the fallthrough is evidently meant to make: a USER reaches
   * only its own userId, an ADMIN reaches every userId, and anyone else is
   * refused.
   */
  function RequireSelfOrAdmin(c: Context, userId: string): (err: Option<string>)
    ensures err.None? <==>
              (GetString(c, "userType") == UserRole && GetString(c, "uid") == userId)
              || GetString(c, "userType") == AdminRole
    ensures err.Some? ==> err.value == Unauthorized
  {
    var userType := GetString(c, "userType");
    if userType == UserRole then
      (if GetString(c, "uid") != userId then Some(Unauthorized) else None)
    else CheckUserType(c, AdminRole)
  }

  /** For the two roles a record can hold, the written and the intended decisions agree. */
  lemma PoliciesAgreeOnKnownRoles(c: Context, userId: string)
    requires GetString(c, "userType") == UserRole || GetString(c, "userType") == AdminRole
    ensures MatchUserTypeToUId(c, userId) == RequireSelfOrAdmin(c, userId)
  {
  }

  /**
   * They disagree on every other role: a context whose role is missing (read
   * as "") or unknown is allowed by the written check and refused by the
   * intended one.
   */
  lemma UnknownRoleAdmittedAsWritten(c: Context, userId: string)
    requires GetString(c, "userType") != UserRole && GetString(c, "userType") != AdminRole
    ensures MatchUserTypeToUId(c, userId).None?
    ensures RequireSelfOrAdmin(c, userId) == Some(Unauthorized)
  {
  }

  /** The concrete case: an empty context (the guard never ran) reaching user "u2". */
  lemma EmptyContextReachesAnyUser()
    ensures MatchUserTypeToUId(map[], "u2") == None
    ensures RequireSelfOrAdmin(map[], "u2") == Some(Unauthorized)
  {
  }
}
