/**
 * The decision chain of the `verifyFirebaseAuth(userCollection,
 * requireRole, options)` middleware (verifyFirebaseAuth.js): token
 * extraction, token verification, user lookup, blocked, pending approval,
 * role.
 *
 * `admin.auth().verifyIdToken` is an input: the caller supplies its outcome
 * (`TokenCheck`). Header and claim values that are absent are "".
 */
module FirebaseAuth {
  import opened Types
  import opened Text

  /** The three places a token may come from. */
  datatype Headers = Headers(authorization: string, cookieToken: string, accessToken: string)

  /** The claims of a verified ID token that the middleware reads. */
  datatype Claims = Claims(uid: string, email: string, claimsEmail: string, role: string, userType: string)

  /** The outcome of `verifyIdToken`: it throws, or it yields the decoded token. */
  datatype TokenCheck = Rejected | Verified(claims: Claims)

  /** The `requireRole` argument: absent, an array, or some other truthy value. */
  datatype RoleOption = NoRoleOption | RoleArray(roles: seq<string>) | NonArray

  /** The `req.user` the middleware sets before the role check. */
  datatype AuthUser = AuthUser(uid: string, email: string, name: string, userType: string, verify: string)

  /** Either the request proceeds with `req.user`, or it is answered with a status, a code and a message. */
  datatype Outcome = Proceed(user: AuthUser) | Deny(status: int, code: string, message: string)

  /** The first present source, in the order authorization header, `token` cookie, `x-access-token` header. */
  function AuthHeader(h: Headers): string {
    if h.authorization != "" then h.authorization
    else if h.cookieToken != "" then h.cookieToken
    else h.accessToken
  }

  /** A "Bearer " value gives its second space-separated field; any other value is the token itself. */
  function ExtractToken(h: Headers): string {
    var header := AuthHeader(h);
    if StartsWith(header, "Bearer ") then
      BearerFields(header);
      Split(header, ' ')[1]
    else header
  }

  lemma BearerFields(header: string)
    requires StartsWith(header, "Bearer ")
    ensures |Split(header, ' ')| >= 2
    ensures Split(header, ' ')[1] == Split(header[7..], ' ')[0]
  {
    assert header == "Bearer" + [' '] + header[7..];
    SplitAtSeparator("Bearer", ' ', header[7..]);
  }

  /** A bearer header carries its token back out, and a bare token is taken as it is. */
  lemma ExtractTokenRoundTrip(t: string, cookie: string, access: string)
    requires ' ' !in t
    ensures ExtractToken(Headers("Bearer " + t, cookie, access)) == t
    ensures !StartsWith(t, "Bearer ") && t != "" ==> ExtractToken(Headers(t, cookie, access)) == t
  {
    var header := "Bearer " + t;
    assert StartsWith(header, "Bearer ");
    assert header[7..] == t;
    BearerFields(header);
    SplitWithoutSeparator(t, ' ');
  }

  /** A later source is consulted only when every earlier one is absent. */
  lemma HeaderPrecedence(h: Headers)
    ensures h.authorization != "" ==> AuthHeader(h) == h.authorization
    ensures h.authorization == "" && h.cookieToken != "" ==> AuthHeader(h) == h.cookieToken
    ensures h.authorization == "" && h.cookieToken == "" ==> AuthHeader(h) == h.accessToken
    ensures AuthHeader(h) == "" <==> h == Headers("", "", "")
  {
  }

  /** `decoded.email || decoded.claims.email` */
  function ClaimEmail(c: Claims): string {
    if c.email != "" then c.email else c.claimsEmail
  }

  /**
   * The middleware. `users` is the user collection (None when the factory
   * got none); `requireApproved` is `options.requireApproved`.
   */
  function Authenticate(h: Headers, check: TokenCheck, users: Option<map<string, Profile>>,
                        requireRole: RoleOption, requireApproved: bool): Outcome
  {
    var token := ExtractToken(h);
    if token == "" then Deny(401, "", "No token provided")
    else
      match check
      case Rejected => Deny(401, "", "Invalid or expired token")
      case Verified(c) =>
        var email := ClaimEmail(c);
        var looked := users.Some? && email != "";
        if looked && email !in users.value then Deny(404, "", "User not found")
        else
          var user := if looked then Some(users.value[email]) else None;
          if user.Some? && user.value.verify == "blocked" then
            Deny(403, "ACCOUNT_BLOCKED", "Your account is blocked. Contact campus support.")
          else if requireApproved && !IsAdmin(user) && !IsApproved(user) then
            Deny(403, "ACCOUNT_PENDING", "Your account is pending approval.")
          else
            var authUser := AuthUser(c.uid, email, Field(user, (u: Profile) => u.name),
                                     Field(user, (u: Profile) => u.userType), Field(user, (u: Profile) => u.verify));
            if RoleChecked(requireRole) && !RoleGranted(requireRole.roles, c, user) then
              Deny(403, "", "User does not have required role")
            else Proceed(authUser)
  }

  function Field(user: Option<Profile>, f: Profile -> string): string {
    if user.Some? then f(user.value) else ""
  }

  predicate IsAdmin(user: Option<Profile>) {
    user.Some? && user.value.userType == "admin"
  }

  predicate IsApproved(user: Option<Profile>) {
    user.Some? && user.value.verify == "approved"
  }

  /** `requireRole && Array.isArray(requireRole) && requireRole.length` */
  predicate RoleChecked(r: RoleOption) {
    r.RoleArray? && |r.roles| > 0
  }

  /** The token's role claim (`role || userType`) or the stored user type is one of the roles. */
  predicate RoleGranted(roles: seq<string>, c: Claims, user: Option<Profile>) {
    var claimRole := if c.role != "" then c.role else c.userType;
    (claimRole != "" && claimRole in roles) || (user.Some? && user.value.userType != "" && user.value.userType in roles)
  }

  /** The user record the chain works with: looked up by the claimed email when there is a collection and an email. */
  function UserOf(c: Claims, users: Option<map<string, Profile>>): Option<Profile> {
    var email := ClaimEmail(c);
    if users.Some? && email != "" && email in users.value then Some(users.value[email]) else None
  }

  /** Whether the lookup stage lets the request through (the record exists whenever it is looked up). */
  predicate Found(c: Claims, users: Option<map<string, Profile>>) {
    var email := ClaimEmail(c);
    !(users.Some? && email != "") || email in users.value
  }

  /**
   * The whole chain as one condition: the request proceeds exactly when a
   * token is present and verifies, the user is found when looked up, is not
   * blocked, is admin or approved when approval is required, and holds a
   * required role when roles are required.
   */
  lemma ProceedIff(h: Headers, check: TokenCheck, users: Option<map<string, Profile>>, requireRole: RoleOption, requireApproved: bool)
    ensures Authenticate(h, check, users, requireRole, requireApproved).Proceed? <==>
              && ExtractToken(h) != ""
              && check.Verified?
              && Found(check.claims, users)
              && !(UserOf(check.claims, users).Some? && UserOf(check.claims, users).value.verify == "blocked")
              && (requireApproved ==> IsAdmin(UserOf(check.claims, users)) || IsApproved(UserOf(check.claims, users)))
              && (RoleChecked(requireRole) ==> RoleGranted(requireRole.roles, check.claims, UserOf(check.claims, users)))
  {
  }

  /** A request without a token is refused with 401 before the token is ever verified. */
  lemma NoTokenFirst(h: Headers, check: TokenCheck, users: Option<map<string, Profile>>, requireRole: RoleOption, requireApproved: bool)
    requires ExtractToken(h) == ""
    ensures Authenticate(h, check, users, requireRole, requireApproved) == Deny(401, "", "No token provided")
  {
  }

  /** A token that fails verification is refused with 401, whatever the options. */
  lemma RejectedToken(h: Headers, users: Option<map<string, Profile>>, requireRole: RoleOption, requireApproved: bool)
    requires ExtractToken(h) != ""
    ensures Authenticate(h, Rejected, users, requireRole, requireApproved) == Deny(401, "", "Invalid or expired token")
  {
  }

  /** A blocked account is refused whatever the options: the check comes before approval and roles. */
  lemma BlockedBeforeOptions(h: Headers, c: Claims, users: Option<map<string, Profile>>, requireRole: RoleOption, requireApproved: bool)
    requires ExtractToken(h) != ""
    requires UserOf(c, users).Some? && UserOf(c, users).value.verify == "blocked"
    ensures Authenticate(h, Verified(c), users, requireRole, requireApproved).code == "ACCOUNT_BLOCKED"
    ensures Authenticate(h, Verified(c), users, requireRole, requireApproved).status == 403
  {
  }

  /** An email with no user record is 404 before any other check on the user. */
  lemma MissingUser(h: Headers, c: Claims, users: map<string, Profile>, requireRole: RoleOption, requireApproved: bool)
    requires ExtractToken(h) != "" && ClaimEmail(c) != "" && ClaimEmail(c) !in users
    ensures Authenticate(h, Verified(c), Some(users), requireRole, requireApproved) == Deny(404, "", "User not found")
  {
  }

  /** Admins are never held for approval; anyone else without an approved record is. */
  lemma PendingIff(h: Headers, c: Claims, users: Option<map<string, Profile>>, requireRole: RoleOption)
    requires ExtractToken(h) != "" && Found(c, users)
    requires !(UserOf(c, users).Some? && UserOf(c, users).value.verify == "blocked")
    ensures (Authenticate(h, Verified(c), users, requireRole, true) == Deny(403, "ACCOUNT_PENDING", "Your account is pending approval."))
        <==> (!IsAdmin(UserOf(c, users)) && !IsApproved(UserOf(c, users)))
  {
  }

  /** Without a non-empty role array there is no role check at all. */
  lemma NoRoleCheck(h: Headers, c: Claims, users: Option<map<string, Profile>>, requireRole: RoleOption, requireApproved: bool)
    requires !RoleChecked(requireRole)
    ensures Authenticate(h, Verified(c), users, requireRole, requireApproved)
         == Authenticate(h, Verified(c), users, NoRoleOption, requireApproved)
  {
  }

  /** A request that proceeds carries the claimed email and the stored record's fields. */
  lemma ProceedUser(h: Headers, c: Claims, users: Option<map<string, Profile>>, requireRole: RoleOption, requireApproved: bool)
    requires Authenticate(h, Verified(c), users, requireRole, requireApproved).Proceed?
    ensures var u := Authenticate(h, Verified(c), users, requireRole, requireApproved).user;
            && u.uid == c.uid && u.email == ClaimEmail(c)
            && (UserOf(c, users).Some? ==> u.userType == UserOf(c, users).value.userType && u.verify == UserOf(c, users).value.verify)
            && (UserOf(c, users).None? ==> u.userType == "" && u.verify == "")
  {
  }
}
