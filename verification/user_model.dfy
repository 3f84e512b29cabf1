/**
 * The `User` record and the validation its struct tags declare. Pointer
 * fields are `Option<string>`: `None` is a field absent from the JSON body
 * (a nil pointer), which is different from an empty string.
 */
module UserModel {
  import opened Wrappers
  import opened ObjectIds

  /** Seconds since the epoch; the source keeps timestamps at RFC 3339 precision. */
  type Time = int

  datatype User = User(
    id: ObjectId,
    firstName: Option<string>,
    lastName: Option<string>,
    password: Option<string>,
    email: Option<string>,
    phone: Option<string>,
    token: Option<string>,
    userType: Option<string>,
    refreshToken: Option<string>,
    createdAt: Time,
    updatedAt: Time,
    userId: string)

  /** The string-pointer fields of `User`. */
  datatype Field = FirstName | LastName | Password | Email | Phone | Token | UserType | RefreshToken

  function FieldOf(u: User, f: Field): Option<string>
  {
    match f
    case FirstName => u.firstName
    case LastName => u.lastName
    case Password => u.password
    case Email => u.email
    case Phone => u.phone
    case Token => u.token
    case UserType => u.userType
    case RefreshToken => u.refreshToken
  }

  /**
   * One tag of a `validate:"..."` list. Lengths count characters (runes),
   * as the validator's `min` and `max` do for strings; `EmailFormat` is the
   * validator's e-mail pattern, passed in as `isEmail`.
   */
  datatype Rule = Required | Min(bound: nat) | Max(bound: nat) | EmailFormat | OneOf(values: seq<string>)

  /** The struct tags of `User`, in declaration order; untagged fields are absent. */
  const UserRules: seq<(Field, seq<Rule>)> := [
    (FirstName, [Required, Min(2), Max(100)]),
    (LastName, [Required, Min(2), Max(100)]),
    (Password, [Required, Min(6)]),
    (Email, [EmailFormat, Required]),
    (Phone, [Required]),
    (UserType, [Required, OneOf(["ADMIN", "USER"])])
  ]

  /** Whether one tag accepts a field value. A nil pointer fails whichever tag is checked first. */
  predicate Holds(r: Rule, v: Option<string>, isEmail: string -> bool)
  {
    match v
    case None => false
    case Some(s) =>
      match r
      case Required => true
      case Min(n) => |s| >= n
      case Max(n) => |s| <= n
      case EmailFormat => isEmail(s)
      case OneOf(values) => s in values
  }

  /** The first tag of a field's list that rejects its value; the validator reports only that one. */
  function FirstFailing(rules: seq<Rule>, v: Option<string>, isEmail: string -> bool): (r: Option<Rule>)
    ensures r.None? <==> forall i :: 0 <= i < |rules| ==> Holds(rules[i], v, isEmail)
    ensures r.Some? ==> exists i :: && 0 <= i < |rules| && rules[i] == r.value && !Holds(rules[i], v, isEmail)
                                    && forall j :: 0 <= j < i ==> Holds(rules[j], v, isEmail)
  {
    if rules == [] then None
    else if !Holds(rules[0], v, isEmail) then Some(rules[0])
    else
      FirstFailing(rules[1..], v, isEmail)
  }

  /** Whether a field passes every tag its table entry lists. */
  predicate Passes(entry: (Field, seq<Rule>), u: User, isEmail: string -> bool)
  {
    FirstFailing(entry.1, FieldOf(u, entry.0), isEmail).None?
  }

  /** A reported validation failure: the field and the tag it failed. */
  datatype FieldError = FieldError(field: Field, failed: Rule)

  /** The error a failing table entry is reported with: its field and the first tag it fails. */
  function ErrorFor(entry: (Field, seq<Rule>), u: User, isEmail: string -> bool): FieldError
    requires !Passes(entry, u, isEmail)
  {
    FieldError(entry.0, FirstFailing(entry.1, FieldOf(u, entry.0), isEmail).value)
  }

  /** Runs a tag table over a record, collecting one error per failing field, in table order. */
  function CheckFields(table: seq<(Field, seq<Rule>)>, u: User, isEmail: string -> bool): (errs: seq<FieldError>)
    ensures |errs| <= |table|
    ensures errs == [] <==> forall i :: 0 <= i < |table| ==> Passes(table[i], u, isEmail)
    ensures forall k :: 0 <= k < |errs| ==> !Holds(errs[k].failed, FieldOf(u, errs[k].field), isEmail)
  {
    if table == [] then []
    else
      var rest := CheckFields(table[1..], u, isEmail);
      match FirstFailing(table[0].1, FieldOf(u, table[0].0), isEmail)
      case None => rest
      case Some(r) => [FieldError(table[0].0, r)] + rest
  }

  /**
   * The errors are exactly those of the failing entries: every failing field
   * is reported with the first tag it fails, and every reported error is
   * such a report.
   */
  lemma {:induction false} CheckFieldsReportsExactlyFailures(table: seq<(Field, seq<Rule>)>, u: User, isEmail: string -> bool)
    ensures forall i :: 0 <= i < |table| && !Passes(table[i], u, isEmail) ==>
              ErrorFor(table[i], u, isEmail) in CheckFields(table, u, isEmail)
    ensures forall e :: e in CheckFields(table, u, isEmail) ==>
              exists i :: 0 <= i < |table| && !Passes(table[i], u, isEmail) && e == ErrorFor(table[i], u, isEmail)
  {
    if table != [] {
      var errs := CheckFields(table, u, isEmail);
      var rest := CheckFields(table[1..], u, isEmail);
      CheckFieldsReportsExactlyFailures(table[1..], u, isEmail);
      forall i | 0 <= i < |table| && !Passes(table[i], u, isEmail)
        ensures ErrorFor(table[i], u, isEmail) in errs
      {
        if i > 0 {
          assert table[i] == table[1..][i - 1];
        }
      }
      forall e | e in errs
        ensures exists i :: 0 <= i < |table| && !Passes(table[i], u, isEmail) && e == ErrorFor(table[i], u, isEmail)
      {
        if e in rest {
          var j :| 0 <= j < |table[1..]| && !Passes(table[1..][j], u, isEmail) && e == ErrorFor(table[1..][j], u, isEmail);
          assert table[j + 1] == table[1..][j];
        } else {
          assert e == ErrorFor(table[0], u, isEmail);
        }
      }
    }
  }

  /** `validate.Struct(user)`: the list of field errors, empty when the record is valid. */
  function Validate(u: User, isEmail: string -> bool): (errs: seq<FieldError>)
    ensures errs == [] <==> IsValid(u, isEmail)
    ensures forall e :: e in errs ==> !Holds(e.failed, FieldOf(u, e.field), isEmail)
    ensures forall i :: 0 <= i < |UserRules| && !Passes(UserRules[i], u, isEmail) ==>
              ErrorFor(UserRules[i], u, isEmail) in errs
  {
    UserRulesIffValid(u, isEmail);
    CheckFieldsReportsExactlyFailures(UserRules, u, isEmail);
    CheckFields(UserRules, u, isEmail)
  }

  /** The validity the tags are meant to express, written out field by field. */
  predicate IsValid(u: User, isEmail: string -> bool)
  {
    && u.firstName.Some? && 2 <= |u.firstName.value| <= 100
    && u.lastName.Some? && 2 <= |u.lastName.value| <= 100
    && u.password.Some? && |u.password.value| >= 6
    && u.email.Some? && isEmail(u.email.value)
    && u.phone.Some?
    && u.userType.Some? && (u.userType.value == "ADMIN" || u.userType.value == "USER")
  }

  /** `required,min=2,max=100`: present and of length 2 to 100. */
  lemma NameRules(f: Field, u: User, isEmail: string -> bool)
    ensures var v := FieldOf(u, f);
            Passes((f, [Required, Min(2), Max(100)]), u, isEmail) <==> v.Some? && 2 <= |v.value| <= 100
  {
    var rules := [Required, Min(2), Max(100)];
    assert rules[0] == Required && rules[1] == Min(2) && rules[2] == Max(100);
  }

  /** `required,eq=ADMIN|eq=USER`: present and one of the two roles. */
  lemma RoleRules(u: User, isEmail: string -> bool)
    ensures Passes((UserType, [Required, OneOf(["ADMIN", "USER"])]), u, isEmail) <==>
            u.userType.Some? && (u.userType.value == "ADMIN" || u.userType.value == "USER")
  {
    var rules := [Required, OneOf(["ADMIN", "USER"])];
    assert rules[0] == Required && rules[1] == OneOf(["ADMIN", "USER"]);
  }

  /** The record's tag table accepts a record exactly when the written-out predicate does. */
  lemma UserRulesIffValid(u: User, isEmail: string -> bool)
    ensures CheckFields(UserRules, u, isEmail) == [] <==> IsValid(u, isEmail)
  {
    var t := UserRules;
    assert (forall i :: 0 <= i < |t| ==> Passes(t[i], u, isEmail)) <==>
      Passes(t[0], u, isEmail) && Passes(t[1], u, isEmail) && Passes(t[2], u, isEmail) &&
      Passes(t[3], u, isEmail) && Passes(t[4], u, isEmail) && Passes(t[5], u, isEmail);
    NameRules(FirstName, u, isEmail);
    NameRules(LastName, u, isEmail);
    RoleRules(u, isEmail);
    assert t[2].1[0] == Required && t[2].1[1] == Min(6);
    assert Passes(t[2], u, isEmail) <==> u.password.Some? && |u.password.value| >= 6;
    assert t[3].1[0] == EmailFormat && t[3].1[1] == Required;
    assert Passes(t[3], u, isEmail) <==> u.email.Some? && isEmail(u.email.value);
    assert Passes(t[4], u, isEmail) <==> u.phone.Some?;
  }

  /** A tag table reads only the fields it names. */
  lemma {:induction false} CheckFieldsReadsOnlyTagged(table: seq<(Field, seq<Rule>)>, u: User, u': User, isEmail: string -> bool)
    requires forall i :: 0 <= i < |table| ==> FieldOf(u, table[i].0) == FieldOf(u', table[i].0)
    ensures CheckFields(table, u, isEmail) == CheckFields(table, u', isEmail)
  {
    if table != [] {
      CheckFieldsReadsOnlyTagged(table[1..], u, u', isEmail);
    }
  }

  /** Validity does not depend on the untagged fields: ID, token, refresh token, timestamps and userId. */
  lemma ValidityIgnoresUntaggedFields(u: User, id: ObjectId, token: Option<string>, refreshToken: Option<string>,
                                     createdAt: Time, updatedAt: Time, userId: string, isEmail: string -> bool)
    ensures var u' := u.(id := id, token := token, refreshToken := refreshToken,
                         createdAt := createdAt, updatedAt := updatedAt, userId := userId);
            Validate(u', isEmail) == Validate(u, isEmail)
  {
    var u' := u.(id := id, token := token, refreshToken := refreshToken,
                 createdAt := createdAt, updatedAt := updatedAt, userId := userId);
    CheckFieldsReadsOnlyTagged(UserRules, u, u', isEmail);
  }
}
