/** The role check built by `restrictToadmin(...allowedRoles)`
    (middlewares/restrictToadmin.js): it lets a request through when one of
    the allowed roles is among the user's roles. */
module RestrictToAdmin {
  import opened JsValues
  import opened Http

  datatype Access = Refuse(response: Response) | Grant

  const RoleNotFound := Response(403, MessageBody("Access denied: Role not found"))
  const Insufficient := Response(403, MessageBody("Access denied: Insufficient permissions"))

  /** `Array.isArray(userRole) ? userRole : [userRole]`. */
  function UserRoles(userRole: JsValue): seq<JsValue> {
    if userRole.Arr? then userRole.items else [userRole]
  }

  /** SameValueZero, the comparison of `includes`: strict equality, except
      that NaN equals NaN. */
  predicate SameValueZero(a: JsValue, b: JsValue) {
    StrictEquals(a, b) || (a.NaN? && b.NaN?)
  }

  /** `roles.includes(x)`. */
  function ArrayIncludes(roles: seq<JsValue>, x: JsValue): bool
    decreases |roles|
  {
    |roles| > 0 && (SameValueZero(roles[0], x) || ArrayIncludes(roles[1..], x))
  }

  /** `allowed.some((role) => roles.includes(role))`. */
  function SomeIncluded(allowed: seq<JsValue>, roles: seq<JsValue>): bool
    decreases |allowed|
  {
    |allowed| > 0 && (ArrayIncludes(roles, allowed[0]) || SomeIncluded(allowed[1..], roles))
  }

  lemma {:induction false} ArrayIncludesIff(roles: seq<JsValue>, x: JsValue)
    ensures ArrayIncludes(roles, x) <==> exists j :: 0 <= j < |roles| && SameValueZero(roles[j], x)
    decreases |roles|
  {
    if |roles| > 0 {
      ArrayIncludesIff(roles[1..], x);
      if exists j :: 0 <= j < |roles| && SameValueZero(roles[j], x) {
        var j :| 0 <= j < |roles| && SameValueZero(roles[j], x);
        if j > 0 { assert roles[1..][j - 1] == roles[j]; }
      }
      if ArrayIncludes(roles[1..], x) {
        var j :| 0 <= j < |roles[1..]| && SameValueZero(roles[1..][j], x);
        assert roles[j + 1] == roles[1..][j];
      }
    }
  }

  /** The permission test holds exactly when some allowed role equals some
      user role. */
  lemma {:induction false} SomeIncludedIff(allowed: seq<JsValue>, roles: seq<JsValue>)
    ensures SomeIncluded(allowed, roles) <==>
      exists i, j :: 0 <= i < |allowed| && 0 <= j < |roles| && SameValueZero(roles[j], allowed[i])
    decreases |allowed|
  {
    if |allowed| > 0 {
      SomeIncludedIff(allowed[1..], roles);
      ArrayIncludesIff(roles, allowed[0]);
      if exists i, j :: 0 <= i < |allowed| && 0 <= j < |roles| && SameValueZero(roles[j], allowed[i]) {
        var i, j :| 0 <= i < |allowed| && 0 <= j < |roles| && SameValueZero(roles[j], allowed[i]);
        if i > 0 { assert allowed[1..][i - 1] == allowed[i]; }
      }
      if SomeIncluded(allowed[1..], roles) {
        var i, j :| 0 <= i < |allowed[1..]| && 0 <= j < |roles| && SameValueZero(roles[j], allowed[1..][i]);
        assert allowed[i + 1] == allowed[1..][i];
      }
    }
  }

  /** The middleware for the roles `allowed` and the user's `req.userRole`. */
  function Restrict(allowed: seq<JsValue>, userRole: JsValue): (r: Access)
    ensures r.Refuse? ==> r.response.status == 403
  {
    if !Truthy(userRole) then Refuse(RoleNotFound)
    else if !SomeIncluded(allowed, UserRoles(userRole)) then Refuse(Insufficient)
    else Grant
  }

  /** A falsy role (missing, null, empty string, 0, false) is refused as
      not found, whatever roles are allowed. */
  lemma RoleNotFoundIff(allowed: seq<JsValue>, userRole: JsValue)
    ensures Restrict(allowed, userRole) == Refuse(RoleNotFound) <==> !Truthy(userRole)
  {
  }

  /** `next()` is called exactly when the role is truthy and some allowed
      role is among the user's roles; otherwise a truthy role is refused for
      insufficient permissions. */
  lemma GrantIff(allowed: seq<JsValue>, userRole: JsValue)
    ensures var roles := UserRoles(userRole);
      var permitted := exists i, j :: 0 <= i < |allowed| && 0 <= j < |roles| && SameValueZero(roles[j], allowed[i]);
      && (Restrict(allowed, userRole) == Grant <==> Truthy(userRole) && permitted)
      && (Truthy(userRole) && !permitted ==> Restrict(allowed, userRole) == Refuse(Insufficient))
  {
    SomeIncludedIff(allowed, UserRoles(userRole));
  }

  /** A single role is treated as the list holding just that role. */
  lemma ScalarRoleIsSingleton(allowed: seq<JsValue>, userRole: JsValue)
    requires Truthy(userRole) && !userRole.Arr?
    ensures Restrict(allowed, userRole) == Restrict(allowed, Arr([userRole]))
  {
  }

  /** With no allowed roles nobody is let through. */
  lemma NoAllowedRolesNeverGrants(userRole: JsValue)
    ensures Restrict([], userRole) != Grant
  {
  }

  /** An empty role list is truthy, so it is refused for insufficient
      permissions rather than as a missing role. */
  lemma EmptyRoleListInsufficient(allowed: seq<JsValue>)
    ensures Restrict(allowed, Arr([])) == Refuse(Insufficient)
  {
    SomeIncludedIff(allowed, []);
  }

  /** An "admin" user passes a check that allows "admin" among other roles. */
  lemma AdminAllowed(others: seq<JsValue>)
    ensures Restrict(others + [Str("admin")], Str("admin")) == Grant
  {
    var allowed := others + [Str("admin")];
    SomeIncludedIff(allowed, [Str("admin")]);
    assert SameValueZero([Str("admin")][0], allowed[|others|]);
  }
}
