/**
 * The decision chain of the `verifyAdminJWT(userCollection, requireRole)`
 * middleware (verifyAdminJWT.js): cookie token, signature, user lookup,
 * role.
 *
 * `jwt.verify` and the user lookup are inputs: the caller supplies the
 * decoded token or the failure, and the user collection or the failure of
 * the query.
 */
module AdminJwt {
  import opened Types
  import opened Text

  /** A decoded token, reduced to the email the lookup uses and the rest kept opaque. */
  datatype Decoded = Decoded(email: string, payload: string)

  /** The outcome of `jwt.verify`: an error (bad signature, expired), or the decoded token. */
  datatype JwtCheck = JwtError | JwtOk(decoded: Decoded)

  /**
   * The `requireRole` argument: absent (or another falsy value), one role
   * given as a string, or a list of roles.
   */
  datatype RoleReq = NoRole | OneRole(role: string) | RoleList(roles: seq<string>)

  /** `req.user = decoded; next()`, or a status with the `message` of the JSON body. */
  datatype Outcome = Proceed(user: Decoded) | Deny(status: int, message: string)

  /** `s.includes(t)` for strings: `t` occurs somewhere in `s` as a contiguous piece. */
  predicate Contains(s: string, t: string)
    decreases |s|
  {
    StartsWith(s, t) || (s != [] && Contains(s[1..], t))
  }

  /**
   * The role test exactly as written, `requireRole.includes(user.userType)`:
   * on an array it is membership, on a string it is the substring test.
   * An absent user type never matches.
   */
  predicate RoleAllowsAsWritten(r: RoleReq, userType: string) {
    match r
    case NoRole => true
    case OneRole(role) => role == "" || (userType != "" && Contains(role, userType))
    case RoleList(roles) => userType != "" && userType in roles
  }

  /**
   * As written, a single required role "admin" admits the user type "min":
   * the string test matches any piece of the role's name.
   */
  lemma SubstringRoleAdmitsOthers()
    ensures RoleAllowsAsWritten(OneRole("admin"), "min")
    ensures "min" != "admin"
  {
    assert StartsWith("min", "min");
    assert "admin"[1..] == "dmin" && "dmin"[1..] == "min";
  }

  /** The role test as intended: one role means that role, a list means one of its roles. */
  predicate RoleAllows(r: RoleReq, userType: string) {
    match r
    case NoRole => true
    case OneRole(role) => role == "" || (userType != "" && userType == role)
    case RoleList(roles) => userType != "" && userType in roles
  }

  /** The intended test admits a single required role's holders and nobody else. */
  lemma RoleAllowsOneRole(role: string, userType: string)
    requires role != ""
    ensures RoleAllows(OneRole(role), userType) <==> userType == role
  {
  }

  /** The two tests agree on role lists and on no role; for one role, the intended test is the stricter. */
  lemma RoleTestsAgree(r: RoleReq, userType: string)
    ensures !r.OneRole? ==> (RoleAllows(r, userType) <==> RoleAllowsAsWritten(r, userType))
    ensures RoleAllows(r, userType) ==> RoleAllowsAsWritten(r, userType)
  {
    if r.OneRole? && r.role != "" && userType == r.role {
      assert StartsWith(r.role, userType);
    }
  }

  /**
   * The middleware. `token` is `req.cookies.token` ("" when absent);
   * `users` is the user collection, or None when its query throws. The role
   * check is `requireRole.includes(user.userType)` as written.
   */
  function Authorize(token: string, check: JwtCheck, users: Option<map<string, Profile>>, requireRole: RoleReq): Outcome {
    Decide(token, check, users, (t: string) => RoleAllowsAsWritten(requireRole, t))
  }

  /** The chain of checks, given the role test it applies to the user's type. */
  function Decide(token: string, check: JwtCheck, users: Option<map<string, Profile>>, roleOk: string -> bool): Outcome {
    if token == "" then Deny(401, "No token, authorization denied")
    else
      match check
      case JwtError => Deny(403, "Invalid token, authorization denied")
      case JwtOk(decoded) =>
        match users
        case None => Deny(500, "Server error")
        case Some(m) =>
          if decoded.email !in m then Deny(404, "User not found")
          else if !roleOk(m[decoded.email].userType) then
            Deny(403, "User does not have the required role to access this resource")
          else Proceed(decoded)
  }

  /**
   * The checks run strictly in order: each failure is answered only when
   * every earlier check passed, and a request that passes all of them
   * proceeds with the decoded token as `req.user`.
   */
  lemma AuthorizeOrder(token: string, check: JwtCheck, users: Option<map<string, Profile>>, requireRole: RoleReq)
    ensures var o := Authorize(token, check, users, requireRole);
            && (o.Deny? && o.status == 401 <==> token == "")
            && (o.Deny? && o.status == 403 && check.JwtError? <==> token != "" && check.JwtError?)
            && (o.Deny? && o.status == 500 <==> token != "" && check.JwtOk? && users.None?)
            && (o.Deny? && o.status == 404 <==> token != "" && check.JwtOk? && users.Some? && check.decoded.email !in users.value)
            && (o.Proceed? <==>
                  && token != "" && check.JwtOk? && users.Some? && check.decoded.email in users.value
                  && RoleAllowsAsWritten(requireRole, users.value[check.decoded.email].userType))
            && (o.Proceed? ==> o.user == check.decoded)
  {
  }

  /** An empty role list admits nobody: an array is truthy even when empty. */
  lemma EmptyRoleListDeniesAll(token: string, d: Decoded, users: map<string, Profile>)
    requires token != "" && d.email in users
    ensures Authorize(token, JwtOk(d), Some(users), RoleList([])).Deny?
    ensures Authorize(token, JwtOk(d), Some(users), RoleList([])).status == 403
  {
  }

  /**
   * As written, the middleware guarding a route with the single role "admin"
   * lets a user whose type is "min" through.
   */
  lemma AuthorizeAdmitsSubstringRole(token: string, d: Decoded, users: map<string, Profile>)
    requires token != "" && d.email in users && users[d.email].userType == "min"
    ensures Authorize(token, JwtOk(d), Some(users), OneRole("admin")) == Proceed(d)
    ensures AuthorizeIntended(token, JwtOk(d), Some(users), OneRole("admin")) == Deny(403, "User does not have the required role to access this resource")
  {
    SubstringRoleAdmitsOthers();
  }

  /**
   * The middleware with the intended role test. It answers as the written
   * one except that a single required role admits only that role's holders;
   * whatever it admits, the written one admits too.
   */
  function AuthorizeIntended(token: string, check: JwtCheck, users: Option<map<string, Profile>>, requireRole: RoleReq): (o: Outcome)
    ensures !requireRole.OneRole? ==> o == Authorize(token, check, users, requireRole)
    ensures o.Proceed? ==> o == Authorize(token, check, users, requireRole)
    ensures o.Proceed? && requireRole.OneRole? && requireRole.role != "" ==>
              users.Some? && check.JwtOk? && check.decoded.email in users.value
              && users.value[check.decoded.email].userType == requireRole.role
  {
    RoleTestsAgreeAll(requireRole);
    Decide(token, check, users, (t: string) => RoleAllows(requireRole, t))
  }

  lemma RoleTestsAgreeAll(r: RoleReq)
    ensures forall t :: !r.OneRole? ==> (RoleAllows(r, t) <==> RoleAllowsAsWritten(r, t))
    ensures forall t :: RoleAllows(r, t) ==> RoleAllowsAsWritten(r, t)
  {
    forall t
      ensures RoleAllows(r, t) ==> RoleAllowsAsWritten(r, t)
    {
      RoleTestsAgree(r, t);
    }
  }
}
