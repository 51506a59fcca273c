/** The four-value `UserRole` enum and the string checks made against it. */
module Roles {
  import opened Common

  datatype UserRole = Xvariate | Ambassador | Client | Freelancer

  /** `Object.values(UserRole)`, in declaration order. */
  const AllRoles: seq<UserRole> := [Xvariate, Ambassador, Client, Freelancer]

  /** The enum value's string, as stored and as sent by clients. */
  function RoleName(r: UserRole): string {
    match r
    case Xvariate => "XVARIATE"
    case Ambassador => "AMBASSADOR"
    case Client => "CLIENT"
    case Freelancer => "FREELANCER"
  }

  /** The strings `Object.values(UserRole)` yields. */
  function RoleValues(): (vs: seq<string>)
    ensures |vs| == |AllRoles|
    ensures forall i :: 0 <= i < |AllRoles| ==> vs[i] == RoleName(AllRoles[i])
  {
    seq(|AllRoles|, i requires 0 <= i < |AllRoles| => RoleName(AllRoles[i]))
  }

  lemma RoleValuesListed()
    ensures RoleValues() == ["XVARIATE", "AMBASSADOR", "CLIENT", "FREELANCER"]
  {
  }

  /** `Object.values(UserRole).includes(s)`, returning the matched role. */
  function ParseRole(s: string): (r: Option<UserRole>)
    ensures r.Some? <==> s in RoleValues()
    ensures r.Some? ==> RoleName(r.value) == s
  {
    RoleValuesListed();
    if s == "XVARIATE" then Some(Xvariate)
    else if s == "AMBASSADOR" then Some(Ambassador)
    else if s == "CLIENT" then Some(Client)
    else if s == "FREELANCER" then Some(Freelancer)
    else None
  }

  /** The same check on an optional argument: `undefined` is never an enum value. */
  function ParseOptionalRole(s: Option<string>): (r: Option<UserRole>)
    ensures r.Some? <==> s.Some? && s.value in RoleValues()
    ensures r.Some? ==> Some(RoleName(r.value)) == s
  {
    match s
    case None => None
    case Some(v) => ParseRole(v)
  }

  /** Every role is listed, and parsing a role's own name gives that role back. */
  lemma ParseRoleName(r: UserRole)
    ensures r in AllRoles
    ensures ParseRole(RoleName(r)) == Some(r)
  {
  }

  lemma RoleNameInjective(a: UserRole, b: UserRole)
    requires RoleName(a) == RoleName(b)
    ensures a == b
  {
  }
}
