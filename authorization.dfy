/**
 * The authorization evaluator of a Subject: single, bulk and "all" permission
 * and role queries, and their enforcing `check*` forms.
 *
 * The matching itself belongs to an external Authorizer and is a parameter
 * here. Every query of a Subject `s` is the function below applied to
 * `s.authorizer` and `s.principals`.
 */
module Authorization {
  import opened Wrappers
  import opened Principals
  import Aggregation

  /** A capability descriptor; its inner structure is the Authorizer's business. */
  datatype Permission = Permission(descriptor: string)

  /** A role identifier. */
  type Role = string

  /**
   * The external Authorizer: how a permission string is resolved into a
   * Permission, whether the principals imply a permission, whether they
   * hold a role.
   */
  datatype Authorizer = Authorizer(
    resolve: string -> Permission,
    implies: (seq<Principal>, Permission) -> bool,
    holds: (seq<Principal>, Role) -> bool)

  /** What an enforcing check signals (AuthorizationException), naming what was missing. */
  datatype AuthorizationError = PermissionDenied(permission: Permission) | RoleMissing(role: Role)

  // ---------------------------------------------------------------- permissions

  /** isPermitted(Permission): a denial is the value `false`, never an error. */
  function IsPermitted(az: Authorizer, ps: seq<Principal>, p: Permission): bool
  {
    az.implies(ps, p)
  }

  /**
   * isPermitted(String): the string is resolved first, then checked like a
   * Permission, so it holds exactly when checkPermission of the resolved
   * Permission returns normally.
   */
  function IsPermittedText(az: Authorizer, ps: seq<Principal>, s: string): (r: bool)
    ensures r <==> CheckPermission(az, ps, az.resolve(s)).Pass?
  {
    IsPermitted(az, ps, az.resolve(s))
  }

  /** isPermitted(List<Permission>): entry i answers exactly perms[i]. */
  function IsPermittedEach(az: Authorizer, ps: seq<Principal>, perms: seq<Permission>): (r: seq<bool>)
    ensures |r| == |perms|
    ensures forall i :: 0 <= i < |perms| ==> r[i] == IsPermitted(az, ps, perms[i])
  {
    Aggregation.Each(p => IsPermitted(az, ps, p), perms)
  }

  /** isPermitted(String...): entry i answers exactly the string at i. */
  function IsPermittedEachText(az: Authorizer, ps: seq<Principal>, ss: seq<string>): (r: seq<bool>)
    ensures |r| == |ss|
    ensures forall i :: 0 <= i < |ss| ==> r[i] == IsPermittedText(az, ps, ss[i])
  {
    Aggregation.Each(s => IsPermittedText(az, ps, s), ss)
  }

  /** isPermittedAll(Collection<Permission>): every permission is implied. */
  function IsPermittedAll(az: Authorizer, ps: seq<Principal>, perms: seq<Permission>): (r: bool)
    ensures r <==> forall i :: 0 <= i < |perms| ==> IsPermitted(az, ps, perms[i])
  {
    Aggregation.All(p => IsPermitted(az, ps, p), perms)
  }

  /** isPermittedAll(String...): every string, once resolved, is implied. */
  function IsPermittedAllText(az: Authorizer, ps: seq<Principal>, ss: seq<string>): (r: bool)
    ensures r <==> forall i :: 0 <= i < |ss| ==> IsPermittedText(az, ps, ss[i])
  {
    Aggregation.All(s => IsPermittedText(az, ps, s), ss)
  }

  /** checkPermission(Permission): returns normally exactly when isPermitted holds. */
  function CheckPermission(az: Authorizer, ps: seq<Principal>, p: Permission): (r: Outcome<AuthorizationError>)
    ensures r.Pass? <==> IsPermitted(az, ps, p)
    ensures r.Fail? ==> r.error == PermissionDenied(p)
  {
    if IsPermitted(az, ps, p) then Pass else Fail(PermissionDenied(p))
  }

  /** checkPermission(String): as checkPermission of the resolved Permission. */
  function CheckPermissionText(az: Authorizer, ps: seq<Principal>, s: string): (r: Outcome<AuthorizationError>)
    ensures r.Pass? <==> IsPermittedText(az, ps, s)
    ensures r.Fail? ==> r.error == PermissionDenied(az.resolve(s))
  {
    CheckPermission(az, ps, az.resolve(s))
  }

  /**
   * checkPermissions(Collection<Permission>): returns normally exactly when
   * isPermittedAll holds; otherwise fails fast, naming the first permission
   * of the request that is not implied.
   */
  function CheckPermissions(az: Authorizer, ps: seq<Principal>, perms: seq<Permission>): (r: Outcome<AuthorizationError>)
    ensures r.Pass? <==> IsPermittedAll(az, ps, perms)
    ensures r.Fail? ==> r.error.PermissionDenied? && r.error.permission in perms
    ensures r.Fail? ==> !IsPermitted(az, ps, r.error.permission)
  {
    match Aggregation.FirstFailing(p => IsPermitted(az, ps, p), perms)
    case None => Pass
    case Some(i) => Fail(PermissionDenied(perms[i]))
  }

  /** checkPermissions(String...): as checkPermissions of the resolved Permissions. */
  function CheckPermissionsText(az: Authorizer, ps: seq<Principal>, ss: seq<string>): (r: Outcome<AuthorizationError>)
    ensures r.Pass? <==> IsPermittedAllText(az, ps, ss)
    ensures r.Fail? ==> exists i :: 0 <= i < |ss| && r.error == PermissionDenied(az.resolve(ss[i]))
                                     && !IsPermittedText(az, ps, ss[i])
  {
    match Aggregation.FirstFailing(s => IsPermittedText(az, ps, s), ss)
    case None => Pass
    case Some(i) => Fail(PermissionDenied(az.resolve(ss[i])))
  }

  // ---------------------------------------------------------------- roles

  /** hasRole(String): a missing role is the value `false`, never an error. */
  function HasRole(az: Authorizer, ps: seq<Principal>, role: Role): bool
  {
    az.holds(ps, role)
  }

  /** hasRoles(List<String>): entry i answers exactly roles[i]. */
  function HasRoles(az: Authorizer, ps: seq<Principal>, roles: seq<Role>): (r: seq<bool>)
    ensures |r| == |roles|
    ensures forall i :: 0 <= i < |roles| ==> r[i] == HasRole(az, ps, roles[i])
  {
    Aggregation.Each(role => HasRole(az, ps, role), roles)
  }

  /** hasAllRoles(Collection<String>): every role is held. */
  function HasAllRoles(az: Authorizer, ps: seq<Principal>, roles: seq<Role>): (r: bool)
    ensures r <==> forall i :: 0 <= i < |roles| ==> HasRole(az, ps, roles[i])
  {
    Aggregation.All(role => HasRole(az, ps, role), roles)
  }

  /** checkRole(String): returns normally exactly when hasRole holds. */
  function CheckRole(az: Authorizer, ps: seq<Principal>, role: Role): (r: Outcome<AuthorizationError>)
    ensures r.Pass? <==> HasRole(az, ps, role)
    ensures r.Fail? ==> r.error == RoleMissing(role)
  {
    if HasRole(az, ps, role) then Pass else Fail(RoleMissing(role))
  }

  /**
   * checkRoles(Collection<String>): returns normally exactly when hasAllRoles
   * holds; otherwise fails fast, naming the first role that is not held.
   */
  function CheckRoles(az: Authorizer, ps: seq<Principal>, roles: seq<Role>): (r: Outcome<AuthorizationError>)
    ensures r.Pass? <==> HasAllRoles(az, ps, roles)
    ensures r.Fail? ==> r.error.RoleMissing? && r.error.role in roles
    ensures r.Fail? ==> !HasRole(az, ps, r.error.role)
  {
    match Aggregation.FirstFailing(role => HasRole(az, ps, role), roles)
    case None => Pass
    case Some(i) => Fail(RoleMissing(roles[i]))
  }

  // ---------------------------------------------------------------- relations between the families

  /** The string overloads of the bulk query answer as the Permission form over the resolved strings. */
  lemma IsPermittedEachTextResolves(az: Authorizer, ps: seq<Principal>, ss: seq<string>)
    ensures IsPermittedEachText(az, ps, ss) ==
      IsPermittedEach(az, ps, seq(|ss|, i requires 0 <= i < |ss| => az.resolve(ss[i])))
  {
  }

  /** The string overload of "all" answers as the Permission form over the resolved strings. */
  lemma IsPermittedAllTextResolves(az: Authorizer, ps: seq<Principal>, ss: seq<string>)
    ensures IsPermittedAllText(az, ps, ss) ==
      IsPermittedAll(az, ps, seq(|ss|, i requires 0 <= i < |ss| => az.resolve(ss[i])))
  {
    var perms := seq(|ss|, i requires 0 <= i < |ss| => az.resolve(ss[i]));
    assert forall i :: 0 <= i < |ss| ==> perms[i] == az.resolve(ss[i]);
  }

  /** isPermittedAll holds exactly when the bulk isPermitted holds no `false`. */
  lemma IsPermittedAllIffEachTrue(az: Authorizer, ps: seq<Principal>, perms: seq<Permission>)
    ensures IsPermittedAll(az, ps, perms) <==> false !in IsPermittedEach(az, ps, perms)
  {
  }

  /** hasAllRoles holds exactly when hasRoles holds no `false`. */
  lemma HasAllRolesIffEachTrue(az: Authorizer, ps: seq<Principal>, roles: seq<Role>)
    ensures HasAllRoles(az, ps, roles) <==> false !in HasRoles(az, ps, roles)
  {
  }

  /** The plural checks on a one-element request are the singular checks. */
  lemma CheckSingletonAgrees(az: Authorizer, ps: seq<Principal>, p: Permission, role: Role)
    ensures CheckPermissions(az, ps, [p]) == CheckPermission(az, ps, p)
    ensures CheckRoles(az, ps, [role]) == CheckRole(az, ps, role)
  {
  }

  /** Permissions are asked as a Collection: order and repetition do not change the answer. */
  lemma IsPermittedAllIgnoresOrder(az: Authorizer, ps: seq<Principal>, a: seq<Permission>, b: seq<Permission>)
    requires forall p :: p in a <==> p in b
    ensures IsPermittedAll(az, ps, a) == IsPermittedAll(az, ps, b)
    ensures CheckPermissions(az, ps, a).Pass? == CheckPermissions(az, ps, b).Pass?
  {
    Aggregation.AllDependsOnlyOnMembers(p => IsPermitted(az, ps, p), a, b);
  }

  /** Roles are asked as a Collection: order and repetition do not change the answer. */
  lemma HasAllRolesIgnoresOrder(az: Authorizer, ps: seq<Principal>, a: seq<Role>, b: seq<Role>)
    requires forall role :: role in a <==> role in b
    ensures HasAllRoles(az, ps, a) == HasAllRoles(az, ps, b)
    ensures CheckRoles(az, ps, a).Pass? == CheckRoles(az, ps, b).Pass?
  {
    Aggregation.AllDependsOnlyOnMembers(role => HasRole(az, ps, role), a, b);
  }
}
