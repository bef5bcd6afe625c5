/** FirebaseAuthGuard: takes the Bearer token of the Authorization header,
    verifies it with Firebase and stores one normalised record, with its
    roles and admin flags, as both `req.user` and `req.firebaseUser`.
    Firebase's `verifyIdToken` is a parameter yielding the decoded token
    as a dynamic value. */
module FirebaseAuth {
  import opened Wrappers
  import opened Js

  const TokenMissing := Unauthorized("Token no enviado")
  const TokenInvalid := Unauthorized("Token inválido o expirado")

  /** The record the guard stores on the request. */
  datatype Normalized = Normalized(
    uid: JsValue,
    email: JsValue,
    claims: JsValue,
    roles: seq<string>,
    isAdmin: bool,
    admin: bool)

  /** `hdr.startsWith('Bearer ') ? hdr.slice(7) : ''` on `authorization || ''`. */
  function HeaderToken(authorization: Option<string>): (t: string)
    ensures t != "" ==> authorization.Some? && authorization.value == "Bearer " + t
  {
    var hdr := authorization.GetOr("");
    if StartsWith(hdr, "Bearer ") then
      assert hdr == "Bearer " + hdr[7..];
      hdr[7..]
    else ""
  }

  /** `admin === true || isAdmin === true || claims?.admin === true` */
  predicate AdminClaim(decoded: JsValue) {
    || Get(decoded, "admin") == JBool(true)
    || Get(decoded, "isAdmin") == JBool(true)
    || Get(Get(decoded, "claims"), "admin") == JBool(true)
  }

  /** `roles ?? claims?.roles ?? (role ? [role] : [])` */
  function TokenRolesRaw(decoded: JsValue): JsValue {
    Coalesce(Coalesce(Get(decoded, "roles"), Get(Get(decoded, "claims"), "roles")),
             if Truthy(Get(decoded, "role")) then JArray([Get(decoded, "role")]) else JArray([]))
  }

  /** `Array.isArray(raw) ? raw.map(String) : []` */
  function StringRoles(raw: JsValue): (r: seq<string>)
    ensures |r| == (if raw.JArray? then |raw.items| else 0)
  {
    if raw.JArray? then seq(|raw.items|, i requires 0 <= i < |raw.items| => ToString(raw.items[i]))
    else []
  }

  /** The roles with "admin" pushed for an admin that lacks it. */
  function WithAdmin(roles: seq<string>, adminClaim: bool): seq<string> {
    if adminClaim && "admin" !in roles then roles + ["admin"] else roles
  }

  /** The record built from a decoded token. */
  function Normalize(decoded: JsValue): Normalized {
    var adminClaim := AdminClaim(decoded);
    Normalized(Get(decoded, "uid"), Get(decoded, "email"), decoded,
               WithAdmin(StringRoles(TokenRolesRaw(decoded)), adminClaim), adminClaim, adminClaim)
  }

  /** `canActivate`: the record to store, or the Unauthorized thrown. */
  function GuardSpec(authorization: Option<string>, verifyIdToken: string -> Result<JsValue>): (r: Result<Normalized>)
    ensures r.Err? ==> r.error == TokenMissing || r.error == TokenInvalid
  {
    var token := HeaderToken(authorization);
    if token == "" then Err(TokenMissing)
    else
      match verifyIdToken(token)
      case Err(_) => Err(TokenInvalid)
      case Ok(decoded) => Ok(Normalize(decoded))
  }

  /** The record as the object later guards and handlers read. */
  function ToJs(n: Normalized): JsValue {
    JObject(map[
      "uid" := n.uid,
      "email" := n.email,
      "claims" := n.claims,
      "roles" := JArray(seq(|n.roles|, i requires 0 <= i < |n.roles| => JStr(n.roles[i]))),
      "isAdmin" := JBool(n.isAdmin),
      "admin" := JBool(n.admin)])
  }

  // ---------------------------------------------------------------------
  // Properties
  // ---------------------------------------------------------------------

  /** Only the text after a "Bearer " prefix is a token: it is handed to
      the verifier as it is, and a missing header, another scheme or an
      empty token is refused before any verification. */
  lemma TokenExtraction(t: string, other: string, verifyIdToken: string -> Result<JsValue>)
    requires !StartsWith(other, "Bearer ")
    ensures HeaderToken(Some("Bearer " + t)) == t
    ensures GuardSpec(None, verifyIdToken) == Err(TokenMissing)
    ensures GuardSpec(Some(other), verifyIdToken) == Err(TokenMissing)
    ensures GuardSpec(Some("Bearer "), verifyIdToken) == Err(TokenMissing)
  {
    assert StartsWith("Bearer " + t, "Bearer ") by {
      assert ("Bearer " + t)[..7] == "Bearer ";
    }
    assert ("Bearer " + t)[7..] == t;
    assert !StartsWith("", "Bearer ");
    assert HeaderToken(Some("Bearer ")) == "" by {
      assert StartsWith("Bearer ", "Bearer ");
    }
  }

  /** A token the verifier rejects is "Token inválido o expirado",
      whatever the verifier's own error; an accepted one is normalised. */
  lemma VerifyOutcome(t: string, verifyIdToken: string -> Result<JsValue>)
    requires t != ""
    ensures verifyIdToken(t).Err? ==> GuardSpec(Some("Bearer " + t), verifyIdToken) == Err(TokenInvalid)
    ensures verifyIdToken(t).Ok? ==> GuardSpec(Some("Bearer " + t), verifyIdToken) == Ok(Normalize(verifyIdToken(t).value))
  {
    TokenExtraction(t, "", verifyIdToken);
  }

  /** Only the boolean true counts as an admin claim: the text "true"
      does not, while `claims.admin` set to true does. */
  lemma AdminClaimStrict()
    ensures !AdminClaim(JObject(map["admin" := JStr("true")]))
    ensures !AdminClaim(JObject(map["isAdmin" := JNum(Fin(1.0))]))
    ensures AdminClaim(JObject(map["claims" := JObject(map["admin" := JBool(true)])]))
  {
    assert Get(JObject(map["admin" := JStr("true")]), "admin") == JStr("true");
    assert Get(JObject(map["admin" := JStr("true")]), "claims") == JUndefined;
    assert Get(JObject(map["isAdmin" := JNum(Fin(1.0))]), "claims") == JUndefined;
  }

  /** `roles` wins over `claims.roles`, which wins over a single truthy
      `role`; a present value that is not an array gives no roles at all. */
  lemma RolesPrecedence(decoded: JsValue)
    ensures !Nullish(Get(decoded, "roles")) ==> TokenRolesRaw(decoded) == Get(decoded, "roles")
    ensures Nullish(Get(decoded, "roles")) && !Nullish(Get(Get(decoded, "claims"), "roles"))
      ==> TokenRolesRaw(decoded) == Get(Get(decoded, "claims"), "roles")
    ensures Nullish(Get(decoded, "roles")) && Nullish(Get(Get(decoded, "claims"), "roles"))
      ==> StringRoles(TokenRolesRaw(decoded))
          == (if Truthy(Get(decoded, "role")) then [ToString(Get(decoded, "role"))] else [])
    ensures !Nullish(Get(decoded, "roles")) && !Get(decoded, "roles").JArray? ==> StringRoles(TokenRolesRaw(decoded)) == []
  {
  }

  /** Roles given as one text instead of an array are dropped. */
  lemma RolesTextIgnored()
    ensures Normalize(JObject(map["roles" := JStr("cajero")])).roles == []
  {
    var decoded := JObject(map["roles" := JStr("cajero")]);
    assert Get(decoded, "roles") == JStr("cajero");
    assert Get(decoded, "claims") == JUndefined;
    assert !AdminClaim(decoded);
  }

  /** "admin" is appended for an admin only when missing: the token's
      roles stay in front, an admin ends up with exactly one more "admin"
      when it had none and no more otherwise, and a non-admin keeps the
      token's roles unchanged. */
  lemma AdminAppendedOnce(decoded: JsValue)
    ensures var raw := StringRoles(TokenRolesRaw(decoded));
      var roles := Normalize(decoded).roles;
      && roles[..|raw|] == raw
      && (AdminClaim(decoded) ==> "admin" in roles)
      && (AdminClaim(decoded) ==> multiset(roles)["admin"] == if "admin" in raw then multiset(raw)["admin"] else 1)
      && (!AdminClaim(decoded) ==> roles == raw)
      && |roles| <= |raw| + 1
  {
    var raw := StringRoles(TokenRolesRaw(decoded));
    var roles := Normalize(decoded).roles;
    if AdminClaim(decoded) && "admin" !in raw {
      assert roles == raw + ["admin"];
      assert multiset(raw)["admin"] == 0;
      assert multiset(roles) == multiset(raw) + multiset{"admin"};
    }
  }

  /** The stored record keeps the decoded token as claims, its uid and
      email, and one admin flag under both names. */
  lemma NormalizedFields(decoded: JsValue)
    ensures var n := Normalize(decoded);
      && n.claims == decoded && n.uid == Get(decoded, "uid") && n.email == Get(decoded, "email")
      && n.isAdmin == n.admin
      && (n.isAdmin <==> AdminClaim(decoded))
  {
  }

  /** The stored object reads back the record's roles and flags. */
  lemma ToJsReadsBack(n: Normalized)
    ensures Truthy(ToJs(n))
    ensures Get(ToJs(n), "isAdmin") == JBool(n.isAdmin) && Get(ToJs(n), "admin") == JBool(n.admin)
    ensures Get(ToJs(n), "roles").JArray?
    ensures forall r: string :: JStr(r) in Get(ToJs(n), "roles").items <==> r in n.roles
  {
    var items := Get(ToJs(n), "roles").items;
    forall r: string
      ensures JStr(r) in items <==> r in n.roles
    {
      if JStr(r) in items {
        var i :| 0 <= i < |items| && items[i] == JStr(r);
        assert n.roles[i] == r;
      }
      if r in n.roles {
        var i :| 0 <= i < |n.roles| && n.roles[i] == r;
        assert items[i] == JStr(r);
      }
    }
  }

  /** The request as the guard sees it: its Authorization header and the
      two fields it writes. */
  class Request {
    const authorization: Option<string>
    var user: JsValue
    var firebaseUser: JsValue

    constructor(authorization: Option<string>)
      ensures this.authorization == authorization
      ensures user == JUndefined && firebaseUser == JUndefined
    {
      this.authorization := authorization;
      user := JUndefined;
      firebaseUser := JUndefined;
    }
  }

  class FirebaseAuthGuard {
    const verifyIdToken: string -> Result<JsValue>

    constructor(verifyIdToken: string -> Result<JsValue>)
      ensures this.verifyIdToken == verifyIdToken
    {
      this.verifyIdToken := verifyIdToken;
    }

    /** `canActivate(ctx)`: true after storing the record under both
        names, or the Unauthorized thrown with the request untouched. */
    method CanActivate(req: Request) returns (r: Result<bool>)
      modifies req
      ensures var g := GuardSpec(req.authorization, verifyIdToken);
        && (g.Ok? ==> r == Ok(true) && req.user == ToJs(g.value) && req.firebaseUser == ToJs(g.value))
        && (g.Err? ==> r == Err(g.error) && unchanged(req))
    {
      var token := HeaderToken(req.authorization);
      if token == "" {
        return Err(TokenMissing);
      }
      var decoded := verifyIdToken(token);
      if decoded.Err? {
        return Err(TokenInvalid);
      }
      var claims := decoded.value;
      var adminClaim := AdminClaim(claims);
      var roles := StringRoles(TokenRolesRaw(claims));
      if adminClaim && "admin" !in roles {
        roles := roles + ["admin"];
      }
      var normalized := Normalized(Get(claims, "uid"), Get(claims, "email"), claims, roles, adminClaim, adminClaim);
      req.user := ToJs(normalized);
      req.firebaseUser := ToJs(normalized);
      r := Ok(true);
    }
  }
}
