/**
 * The request guards in front of the routes: token authentication, which attaches the decoded
 * claims to the request, and the role and permission checks, each of which either answers the
 * request with one error response or passes it on to the next handler.
 */
module AuthMiddleware {

  import opened Common
  import opened Permissions
  import opened AuthService

  /** What a middleware does with a request: call `next()`, or send exactly one response. */
  datatype Decision = Next | Respond(status: int, message: string)

  /** The part of an Express request the guards look at. */
  class Request {
    /** The Authorization header, when present. */
    var authorization: Option<string>
    /** `req.user`, set by `authenticate`. */
    var user: Option<JwtPayload>

    constructor (authorization: Option<string>)
      ensures this.authorization == authorization && user == None
    {
      this.authorization := authorization;
      user := None;
    }
  }

  /** `authorization?.split(' ')[1]`: the second space-separated field, when there is one. */
  function TokenFromHeader(header: Option<string>): (r: Option<string>)
    ensures r.Some? <==> header.Some? && |Split(header.value, ' ')| >= 2
    ensures r.Some? ==> r.value == Split(header.value, ' ')[1] && ' ' !in r.value
  {
    match header
    case None => None
    case Some(h) =>
      var fields := Split(h, ' ');
      if |fields| >= 2 then Some(fields[1]) else None
  }

  /** A header "Bearer t" with t free of spaces yields exactly t. */
  lemma {:induction false} BearerTokenExtracted(t: string)
    requires ' ' !in t
    ensures TokenFromHeader(Some("Bearer " + t)) == Some(t)
  {
    var h := "Bearer " + t;
    assert IndexOf(h, ' ') == 6 by {
      assert h[6] == ' ';
      assert ' ' !in h[..6] by { assert h[..6] == "Bearer"; }
    }
    assert h[7..] == t;
    assert IndexOf(t, ' ') == -1;
    assert Split(t, ' ') == [t];
    assert Split(h, ' ') == [h[..6]] + Split(h[7..], ' ');
    assert h[..6] == "Bearer";
  }

  /** A header with no space in it carries no token. */
  lemma {:induction false} NoSpaceNoToken(h: string)
    requires ' ' !in h
    ensures TokenFromHeader(Some(h)) == None
  {
    assert IndexOf(h, ' ') == -1;
    assert Split(h, ' ') == [h];
  }

  /** Whether `authenticate` lets the request through: a non-empty token that verifies. */
  predicate Authenticates(header: Option<string>, verify: string -> Option<JwtPayload>) {
    Truthy(TokenFromHeader(header)) && verify(TokenFromHeader(header).value).Some?
  }

  /**
   * `authenticate`: take the token from the header and verify it (`verify` stands for
   * `jwt.verify` with the configured secret); on success attach the claims and call next,
   * otherwise answer 401 and leave the request as it was.
   */
  method Authenticate(req: Request, verify: string -> Option<JwtPayload>) returns (d: Decision)
    modifies req
    ensures req.authorization == old(req.authorization)
    ensures d.Next? <==> Authenticates(req.authorization, verify)
    ensures d.Next? ==> req.user == verify(TokenFromHeader(req.authorization).value)
    ensures d.Respond? ==> d == Respond(401, "Authentication failed") && req.user == old(req.user)
  {
    var token := TokenFromHeader(req.authorization);
    if !Truthy(token) {
      return Respond(401, "Authentication failed");
    }
    var decoded := verify(token.value);
    if decoded.None? {
      return Respond(401, "Authentication failed");
    }
    req.user := decoded;
    d := Next;
  }

  /** `authorize(roles)`: 401 without a user, 403 when the user's role is not listed. */
  function Authorize(roles: seq<Role>, user: Option<JwtPayload>): (d: Decision)
    ensures user.None? <==> d == Respond(401, "Authentication required")
    ensures user.Some? && user.value.role !in roles <==> d == Respond(403, "Access denied")
    ensures d.Next? <==> user.Some? && user.value.role in roles
  {
    if user.None? then Respond(401, "Authentication required")
    else if user.value.role !in roles then Respond(403, "Access denied")
    else Next
  }

  /** The common shape of the three permission guards, given whether the role passes. */
  function PermissionGuard(user: Option<JwtPayload>, granted: Role -> bool): (d: Decision)
    ensures user.None? ==> d == Respond(401, "Authentication required")
    ensures user.Some? && !granted(user.value.role) ==> d == Respond(403, "Insufficient permissions")
    ensures d.Next? <==> user.Some? && granted(user.value.role)
  {
    if user.None? then Respond(401, "Authentication required")
    else if !granted(user.value.role) then Respond(403, "Insufficient permissions")
    else Next
  }

  /** `requirePermission(permission)`. */
  function RequirePermission(permission: string, user: Option<JwtPayload>): (d: Decision)
    ensures d.Next? <==> user.Some? && HasPermission(user.value.role, permission)
    ensures user.None? ==> d == Respond(401, "Authentication required")
    ensures user.Some? && !HasPermission(user.value.role, permission) ==> d == Respond(403, "Insufficient permissions")
  {
    PermissionGuard(user, role => HasPermission(role, permission))
  }

  /** `requireAllPermissions(permissions)`. */
  function RequireAllPermissions(permissions: seq<string>, user: Option<JwtPayload>): (d: Decision)
    ensures d.Next? <==> user.Some? && forall k :: 0 <= k < |permissions| ==> HasPermission(user.value.role, permissions[k])
    ensures user.None? ==> d == Respond(401, "Authentication required")
    ensures user.Some? && !HasAllPermissions(user.value.role, permissions) ==> d == Respond(403, "Insufficient permissions")
  {
    PermissionGuard(user, role => HasAllPermissions(role, permissions))
  }

  /** `requireAnyPermission(permissions)`. */
  function RequireAnyPermission(permissions: seq<string>, user: Option<JwtPayload>): (d: Decision)
    ensures d.Next? <==> user.Some? && exists k :: 0 <= k < |permissions| && HasPermission(user.value.role, permissions[k])
    ensures user.None? ==> d == Respond(401, "Authentication required")
    ensures user.Some? && !HasAnyPermission(user.value.role, permissions) ==> d == Respond(403, "Insufficient permissions")
  {
    PermissionGuard(user, role => HasAnyPermission(role, permissions))
  }

  /** Every refusal is one response with 401 or 403; a request is never both refused and passed on. */
  lemma GuardsRespondOnceOrPass(roles: seq<Role>, permission: string, permissions: seq<string>, user: Option<JwtPayload>)
    ensures Authorize(roles, user).Respond? ==> Authorize(roles, user).status in {401, 403}
    ensures RequirePermission(permission, user).Respond? ==> RequirePermission(permission, user).status in {401, 403}
    ensures RequireAllPermissions(permissions, user).Respond? ==> RequireAllPermissions(permissions, user).status in {401, 403}
    ensures RequireAnyPermission(permissions, user).Respond? ==> RequireAnyPermission(permissions, user).status in {401, 403}
  {
  }

  /** A one-element list makes the all- and any-permission guards agree with the single one. */
  lemma SingletonGuardsAgree(permission: string, user: Option<JwtPayload>)
    ensures RequireAllPermissions([permission], user) == RequirePermission(permission, user)
    ensures RequireAnyPermission([permission], user) == RequirePermission(permission, user)
  {
  }

  /** With an empty list, the all-guard passes any authenticated user and the any-guard passes none. */
  lemma EmptyPermissionListGuards(user: JwtPayload)
    ensures RequireAllPermissions([], Some(user)) == Next
    ensures RequireAnyPermission([], Some(user)) == Respond(403, "Insufficient permissions")
  {
  }

  /** An ADMIN passes every permission guard over declared permissions. */
  lemma {:induction false} AdminPassesDeclaredPermissions(permissions: seq<string>, user: JwtPayload)
    requires user.role == ADMIN
    requires forall k :: 0 <= k < |permissions| ==> permissions[k] in AllPermissions
    ensures RequireAllPermissions(permissions, Some(user)) == Next
  {
    forall k | 0 <= k < |permissions| ensures HasPermission(ADMIN, permissions[k]) {
      AdminHoldsEverything(permissions[k]);
    }
  }

  /** A USER is refused the routes guarded by the permissions it lacks. */
  lemma UserRefusedFileWrites(user: JwtPayload)
    requires user.role == USER
    ensures RequirePermission(UPLOAD_FILE, Some(user)) == Respond(403, "Insufficient permissions")
    ensures RequirePermission(DELETE_FILE, Some(user)) == Respond(403, "Insufficient permissions")
    ensures RequirePermission(SHARE_FILE, Some(user)) == Respond(403, "Insufficient permissions")
  {
    UserRestrictions();
  }
}
