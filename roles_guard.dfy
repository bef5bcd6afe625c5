/** RolesGuard: decides whether the authenticated user may reach a route
    that requires one of some roles. It either allows or throws Forbidden;
    it never answers false. */
module Roles {
  import opened Wrappers
  import opened Js
  import FirebaseAuth

  const NotAuthenticated := Forbidden("Usuario no autenticado")
  const AccessDenied := Forbidden("Acceso denegado")

  /** `req.firebaseUser || req.user` */
  function RequestUser(firebaseUser: JsValue, user: JsValue): JsValue {
    if Truthy(firebaseUser) then firebaseUser else user
  }

  /** `user.isAdmin === true || user.admin === true` */
  predicate AdminFlag(u: JsValue) {
    Get(u, "isAdmin") == JBool(true) || Get(u, "admin") == JBool(true)
  }

  /** `Array.isArray(user.roles) ? user.roles : []` */
  function UserRoles(u: JsValue): seq<JsValue> {
    if Get(u, "roles").JArray? then Get(u, "roles").items else []
  }

  /** `required.some((r) => roles.includes(r))` */
  predicate HasSomeRole(required: seq<string>, roles: seq<JsValue>) {
    exists r :: r in required && JStr(r) in roles
  }

  /** `canActivate(ctx)`: the roles the route requires (none when the
      metadata is absent), and the request's two user fields. */
  function CanActivate(required: Option<seq<string>>, firebaseUser: JsValue, user: JsValue): (r: Result<bool>)
    ensures r.Ok? ==> r.value
    ensures r.Err? ==> r.error == NotAuthenticated || r.error == AccessDenied
  {
    if required.None? || |required.value| == 0 then Ok(true)
    else
      var u := RequestUser(firebaseUser, user);
      if !Truthy(u) then Err(NotAuthenticated)
      else if AdminFlag(u) then Ok(true)
      else if HasSomeRole(required.value, UserRoles(u)) then Ok(true)
      else Err(AccessDenied)
  }

  // ---------------------------------------------------------------------
  // Properties
  // ---------------------------------------------------------------------

  /** The decision in full: no required roles allows; otherwise no user
      is "Usuario no autenticado", and a user passes iff it carries an
      admin flag or one of the required roles, else "Acceso denegado". */
  lemma CanActivateDecides(required: Option<seq<string>>, firebaseUser: JsValue, user: JsValue)
    ensures var r := CanActivate(required, firebaseUser, user);
      var u := RequestUser(firebaseUser, user);
      && (required.None? || required == Some([]) ==> r == Ok(true))
      && (required.Some? && required.value != [] ==>
            && (!Truthy(u) <==> r == Err(NotAuthenticated))
            && (r == Ok(true) <==> Truthy(u) && (AdminFlag(u) || HasSomeRole(required.value, UserRoles(u))))
            && (r == Err(AccessDenied) <==> Truthy(u) && !AdminFlag(u) && !HasSomeRole(required.value, UserRoles(u))))
  {
  }

  /** A roles field that is not an array counts as no roles: such a user
      is denied unless an admin flag is set. */
  lemma RolesNotArray(required: seq<string>, roles: JsValue)
    requires required != [] && !roles.JArray?
    ensures CanActivate(Some(required), JObject(map["roles" := roles]), JUndefined) == Err(AccessDenied)
  {
    var u := JObject(map["roles" := roles]);
    assert Get(u, "isAdmin") == JUndefined && Get(u, "admin") == JUndefined;
    assert UserRoles(u) == [];
  }

  /** The firebase user wins over `req.user` when it is set. */
  lemma FirebaseUserFirst(required: seq<string>, firebaseUser: JsValue, user: JsValue)
    requires Truthy(firebaseUser)
    ensures CanActivate(Some(required), firebaseUser, user) == CanActivate(Some(required), firebaseUser, JUndefined)
  {
  }

  /** Required roles are alternatives: listing more of them never turns
      an allowed user away, and their order does not matter. (An empty
      list allows anyone, so it is excluded here.) */
  lemma MoreAlternatives(required: seq<string>, more: seq<string>, firebaseUser: JsValue, user: JsValue)
    requires required != [] && CanActivate(Some(required), firebaseUser, user).Ok?
    ensures CanActivate(Some(required + more), firebaseUser, user).Ok?
    ensures CanActivate(Some(more + required), firebaseUser, user).Ok?
  {
    var u := RequestUser(firebaseUser, user);
    if !AdminFlag(u) {
      var r :| r in required && JStr(r) in UserRoles(u);
      assert r in required + more && r in more + required;
    }
  }

  /** After FirebaseAuthGuard stored its record, RolesGuard allows
      exactly an admin token or a token carrying one of the required
      roles. */
  lemma AfterFirebaseGuard(required: seq<string>, authorization: Option<string>,
                           verifyIdToken: string -> Result<JsValue>)
    requires required != []
    requires FirebaseAuth.GuardSpec(authorization, verifyIdToken).Ok?
    ensures var n := FirebaseAuth.GuardSpec(authorization, verifyIdToken).value;
      var stored := FirebaseAuth.ToJs(n);
      (CanActivate(Some(required), stored, stored).Ok? <==> n.isAdmin || exists r :: r in required && r in n.roles)
  {
    var n := FirebaseAuth.GuardSpec(authorization, verifyIdToken).value;
    var stored := FirebaseAuth.ToJs(n);
    FirebaseAuth.ToJsReadsBack(n);
    FirebaseAuth.NormalizedFields(verifyIdToken(FirebaseAuth.HeaderToken(authorization)).value);
    assert AdminFlag(stored) <==> n.isAdmin;
  }
}
