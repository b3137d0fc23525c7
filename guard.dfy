/** The access guard of `api/v1/auth_backend.py`: the bearer authentication that refuses
    blacklisted tokens, the decorator that lets a view run only for a role holding the view's
    active service, the device step that finds the caller's active profile, and the user-agent
    check. The JWT library and the user-agent parser are not modelled: their verdicts are
    parameters. */
module Guard {
  import opened Wrappers
  import opened Text
  import opened Models
  import opened Store
  import opened AuthHelpers
  import opened Schemas
  import opened AuthEndpoints

  const TOKEN_EXPIRED: string := "Token is expired."
  const SERVICE_NOT_ACCESSIBLE: string := "This service is not accessible."
  const ACCOUNT_NOT_FOUND: string := "We can\U{2019}t find an account for that email address."
  const MOBILE_ONLY: string := "Access restricted to mobile devices only."

  /** What simplejwt's `JWTAuthentication().authenticate(request)` gives for the request's
      header: the user and the claims of a valid token; `AuthenticationFailed` (a bad or expired
      token, an unknown or inactive user); or `None`, when it finds no token of its own header
      type in the header. */
  datatype JwtOutcome = Verified(user: string, claims: Claims) | Rejected | NoToken

  /** The attributes the guard sets on the request. `user` is the username of `request.user`,
      the empty username of Django's anonymous user until a token is accepted; `userId` and
      `userRole` are absent until then; `metaProfile` and `metaRole` are
      `request.META["profile_obj"]` and `request.META["user_role"]`. */
  datatype RequestFields = RequestFields(user: string, userId: Option<nat>, userRole: Option<string>, loggedIn: bool,
                                         metaProfile: Option<string>, metaRole: Option<string>)

  /** A request as it reaches the guard. */
  const ARRIVING: RequestFields := RequestFields("", None, None, false, None, None)

  /** `check_blacklisted_token` */
  function CheckBlacklistedToken(t: Tables, token: string): Outcome
  {
    if token in t.blacklist then Fail(Http(UNAUTHORIZED, TOKEN_EXPIRED)) else Pass
  }

  /** `NinjaAuthBearer.authenticate` for the bearer `token`: `Ok(true)` is its `True`, `Ok(false)`
      its `None` (ninja then answers 401). A `None` from simplejwt makes `response[0]` raise a
      `TypeError`, which is not caught. */
  function BearerAuthenticate(t: Tables, req: RequestFields, token: string, jwt: JwtOutcome): (Result<bool>, RequestFields)
  {
    match CheckBlacklistedToken(t, token)
    case Fail(e) => (Err(e), req)
    case Pass =>
      match jwt
      case Rejected => (Ok(false), req)
      case NoToken => (Err(Crash("TypeError")), req)
      case Verified(u, c) =>
        (Ok(true), req.(user := u, userId := Some(c.roleId), userRole := Some(c.roleName), loggedIn := true))
  }

  /** The blacklist is consulted first: a blacklisted token is refused with 401 whatever the JWT
      library would say of it, and that answer comes from no other cause. Only a verified token
      changes the request. */
  lemma BearerAuthenticateOutcome(t: Tables, req: RequestFields, token: string, jwt: JwtOutcome)
    ensures var (r, req') := BearerAuthenticate(t, req, token, jwt);
            (r == Err(Http(UNAUTHORIZED, TOKEN_EXPIRED)) <==> token in t.blacklist)
            && (r == Ok(true) <==> token !in t.blacklist && jwt.Verified?)
            && (r == Ok(false) <==> token !in t.blacklist && jwt.Rejected?)
            && (r != Ok(true) ==> req' == req)
  {
  }

  /** A verified token puts its role claims on the request: `user_id` holds the role's id (the
      `role_id` claim), not the user's, and `user_role` the role's name. */
  lemma BearerAuthenticateSetsClaims(t: Tables, req: RequestFields, token: string, u: string, c: Claims)
    requires token !in t.blacklist
    ensures var (r, req') := BearerAuthenticate(t, req, token, Verified(u, c));
            r == Ok(true) && req'.loggedIn && req'.user == u
            && req'.userId == Some(c.roleId) && req'.userRole == Some(c.roleName)
            && req'.metaProfile == req.metaProfile && req'.metaRole == req.metaRole
  {
  }

  /** After a logout succeeds, neither its refresh token nor the access token of its header is
      accepted again, whatever the JWT library says of them. */
  lemma LoggedOutTokensRefused(t: Tables, payload: LogOutIn, access: string, req: RequestFields, jwt: JwtOutcome)
    requires ' ' !in access
    ensures var t' := Logout(t, payload, true, true, Some("Bearer " + access)).1;
            BearerAuthenticate(t', req, access, jwt) == (Err(Http(UNAUTHORIZED, TOKEN_EXPIRED)), req)
            && BearerAuthenticate(t', req, payload.refreshToken, jwt) == (Err(Http(UNAUTHORIZED, TOKEN_EXPIRED)), req)
  {
    LogoutEffect(t, payload, true, true, access);
  }

  /** The access token a successful `verify_otp` returns, once verified, gives the request the
      role the login answered with, and the id of that role's row. */
  lemma VerifiedLoginTokenCarriesRole(t: Tables, payload: VerifyOtpIn, now: int, newPassword: int,
                                      req: RequestFields, token: string)
    requires Valid(t)
    requires VerifyOtp(t, payload, now, newPassword).0.Ok?
    requires token !in VerifyOtp(t, payload, now, newPassword).1.blacklist
    ensures var (r, t') := VerifyOtp(t, payload, now, newPassword);
            var access := r.value.token.access;
            var req' := BearerAuthenticate(t', req, token, Verified(access.username, access)).1;
            req'.userRole == Some(r.value.userRole) && r.value.userRole in t.roles
            && req'.userId == Some(t.roles[r.value.userRole].id)
  {
    var p := ProfileIexact(t, payload.username).value;
    assert GetUserRole(t, p) in t.roles;
  }

  /** `get_object_or_404(UserRole, name=...)` followed by the query for an active service with
      the view's name among the role's services. */
  function ServiceAccess(t: Tables, roleName: string, codeName: string): (r: Outcome)
  {
    if roleName !in t.roles then Fail(Http(NOT_FOUND, "Not Found"))
    else if codeName in t.roles[roleName].services && codeName in t.services && t.services[codeName].isActive then Pass
    else Fail(Http(FORBIDDEN, SERVICE_NOT_ACCESSIBLE))
  }

  /** The service check passes exactly when the role exists and holds an active service of that
      code name; otherwise an unknown role is 404 and a known one 403. */
  lemma ServiceAccessOutcome(t: Tables, roleName: string, codeName: string)
    requires Valid(t)
    ensures var r := ServiceAccess(t, roleName, codeName);
            (r.Pass? <==> roleName in t.roles
                          && exists c :: c in t.roles[roleName].services && c in t.services
                                          && t.services[c].codeName == codeName && t.services[c].isActive)
            && (r.Fail? ==> r.error == (if roleName in t.roles then Http(FORBIDDEN, SERVICE_NOT_ACCESSIBLE)
                                        else Http(NOT_FOUND, "Not Found")))
  {
    if roleName in t.roles && ServiceAccess(t, roleName, codeName).Fail? {
      forall c | c in t.roles[roleName].services && c in t.services && t.services[c].codeName == codeName
        ensures !t.services[c].isActive
      {
        assert c == codeName;
      }
    }
  }

  /** The active profiles whose username equals `email` ignoring case, in primary-key order:
      the rows `Profile.objects.get(user__username__iexact=email, is_active=True)` sees. */
  function ActiveMatches(order: seq<string>, profiles: map<string, Profile>, email: string): (r: seq<string>)
    ensures forall q :: q in r <==> q in order && q in profiles && profiles[q].isActive && SameIgnoringCase(q, email)
  {
    if order == [] then []
    else
      var rest := ActiveMatches(order[1..], profiles, email);
      assert forall q :: q in order <==> q == order[0] || q in order[1..];
      if order[0] in profiles && profiles[order[0]].isActive && SameIgnoringCase(order[0], email)
      then [order[0]] + rest
      else rest
  }

  /** The matches of an order without repeats have no repeats. */
  lemma {:induction false} ActiveMatchesDistinct(order: seq<string>, profiles: map<string, Profile>, email: string)
    requires NoRepeats(order)
    ensures NoRepeats(ActiveMatches(order, profiles, email))
  {
    if order != [] {
      assert NoRepeats(order[1..]);
      ActiveMatchesDistinct(order[1..], profiles, email);
      var rest := ActiveMatches(order[1..], profiles, email);
      assert order[0] !in order[1..];
      assert order[0] !in rest;
      var r := ActiveMatches(order, profiles, email);
      if r != rest {
        assert r == [order[0]] + rest;
        forall i, j | 0 <= i < j < |r|
          ensures r[i] != r[j]
        {
          if i == 0 {
            assert r[j] == rest[j - 1] && rest[j - 1] in rest;
          } else {
            assert r[i] == rest[i - 1] && r[j] == rest[j - 1];
          }
        }
      }
    }
  }

  /** `fetch_user_profile`: exactly one match is the profile; none is 404; several raise
      `MultipleObjectsReturned`, which is not caught. */
  function FetchUserProfile(t: Tables, email: string): (r: Result<string>)
  {
    var matches := ActiveMatches(t.profileOrder, t.profiles, email);
    if |matches| == 0 then Err(Http(NOT_FOUND, ACCOUNT_NOT_FOUND))
    else if |matches| == 1 then Ok(matches[0])
    else Err(Crash("MultipleObjectsReturned"))
  }

  /** The profile found is active, matches the e-mail ignoring case, and is the only one that
      does; 404 means no active profile matches; the crash means two distinct ones do. */
  lemma FetchUserProfileOutcome(t: Tables, email: string)
    requires Valid(t)
    ensures var r := FetchUserProfile(t, email);
            (r.Ok? ==> r.value in t.profiles && t.profiles[r.value].isActive && SameIgnoringCase(r.value, email)
                       && forall q :: q in t.profiles && t.profiles[q].isActive && SameIgnoringCase(q, email) ==> q == r.value)
            && (r == Err(Http(NOT_FOUND, ACCOUNT_NOT_FOUND))
                <==> forall q :: q in t.profiles && t.profiles[q].isActive ==> !SameIgnoringCase(q, email))
            && (r == Err(Crash("MultipleObjectsReturned"))
                <==> exists q, q' :: q in t.profiles && q' in t.profiles && q != q'
                                    && t.profiles[q].isActive && SameIgnoringCase(q, email)
                                    && t.profiles[q'].isActive && SameIgnoringCase(q', email))
  {
    var matches := ActiveMatches(t.profileOrder, t.profiles, email);
    if |matches| == 0 {
      forall q | q in t.profiles && t.profiles[q].isActive
        ensures !SameIgnoringCase(q, email)
      {
        assert q !in matches;
      }
    } else if |matches| == 1 {
      assert matches[0] in matches;
      forall q | q in t.profiles && t.profiles[q].isActive && SameIgnoringCase(q, email)
        ensures q == matches[0]
      {
        assert q in matches;
      }
    } else {
      assert NoRepeats(t.profileOrder);
      ActiveMatchesDistinct(t.profileOrder, t.profiles, email);
      assert matches[0] in matches && matches[1] in matches && matches[0] != matches[1];
    }
  }

  /** `validate_device_type_with_geo_fencing`: the e-mail is the signed-in user's username, or
      else the `email` of the view's payload (a missing one raises `KeyError` or
      `AttributeError`); the active profile found and its role's name are recorded on the
      request. */
  function DeviceStep(t: Tables, req: RequestFields, payloadEmail: Option<string>): (Outcome, RequestFields)
    requires Valid(t)
  {
    var email := if req.loggedIn then Some(req.user) else payloadEmail;
    match email
    case None => (Fail(Crash("KeyError")), req)
    case Some(e) =>
      match FetchUserProfile(t, e)
      case Err(err) => (Fail(err), req)
      case Ok(p) =>
        FetchUserProfileOutcome(t, e);
        (Pass, req.(metaProfile := Some(p), metaRole := Some(t.profiles[p].role)))
  }

  /** The wrapper `validate_role_for_service_access` puts around the view named `codeName`:
      `Pass` means the view is called. A request without `user_role` raises `AttributeError`. */
  function ServiceGate(t: Tables, req: RequestFields, codeName: string, payloadEmail: Option<string>): (Outcome, RequestFields)
    requires Valid(t)
  {
    match req.userRole
    case None => (Fail(Crash("AttributeError")), req)
    case Some(role) =>
      match ServiceAccess(t, role, codeName)
      case Fail(e) => (Fail(e), req)
      case Pass => DeviceStep(t, req, payloadEmail)
  }

  /** The view runs only for a role that holds its active service, and only for a caller with
      exactly one active profile matching the username (or payload e-mail) ignoring case; the
      request then records that profile and its role. A refused request is left as it was. */
  lemma ServiceGateOutcome(t: Tables, req: RequestFields, codeName: string, payloadEmail: Option<string>)
    requires Valid(t)
    ensures var (r, req') := ServiceGate(t, req, codeName, payloadEmail);
            (r.Fail? ==> req' == req)
            && (r.Pass? ==> req.userRole.Some? && ServiceAccess(t, req.userRole.value, codeName).Pass?
                            && req'.metaProfile.Some? && req'.metaProfile.value in t.profiles
                            && t.profiles[req'.metaProfile.value].isActive
                            && req'.metaRole == Some(t.profiles[req'.metaProfile.value].role)
                            && req'.user == req.user && req'.userRole == req.userRole && req'.userId == req.userId)
            && (req.loggedIn && r.Pass? ==> SameIgnoringCase(req'.metaProfile.value, req.user))
            && (req.userRole.Some? && ServiceAccess(t, req.userRole.value, codeName).Fail?
                ==> r == ServiceAccess(t, req.userRole.value, codeName))
  {
    var email := if req.loggedIn then Some(req.user) else payloadEmail;
    if email.Some? {
      FetchUserProfileOutcome(t, email.value);
    }
  }

  /** `q` is the only active profile whose username equals `email` ignoring case. */
  predicate SoleActiveMatch(t: Tables, q: string, email: string)
  {
    q in t.profiles && t.profiles[q].isActive && SameIgnoringCase(q, email)
    && forall q' :: q' in t.profiles && t.profiles[q'].isActive && SameIgnoringCase(q', email) ==> q' == q
  }

  /** The e-mail the device step looks up: the signed-in user's username, else the payload's. */
  function DeviceEmail(req: RequestFields, payloadEmail: Option<string>): Option<string>
  {
    if req.loggedIn then Some(req.user) else payloadEmail
  }

  /** `validate_device_type_login`: the device step alone, before the login view. It passes
      exactly when the e-mail has a single active profile matching it ignoring case, and then
      records that profile and its role's name in META; no e-mail raises `KeyError`, no match is
      404, and a refused request is left as it was. */
  function DeviceLoginGate(t: Tables, req: RequestFields, payloadEmail: Option<string>): (r: (Outcome, RequestFields))
    requires Valid(t)
    ensures var e := DeviceEmail(req, payloadEmail);
            r.0.Pass? ==> e.Some? && r.1.metaProfile.Some? && SoleActiveMatch(t, r.1.metaProfile.value, e.value)
    ensures var e := DeviceEmail(req, payloadEmail);
            forall q :: e.Some? && SoleActiveMatch(t, q, e.value) ==>
              r == (Pass, req.(metaProfile := Some(q), metaRole := Some(t.profiles[q].role)))
    ensures r.0.Fail? ==> r.1 == req
    ensures DeviceEmail(req, payloadEmail).None? ==> r.0 == Fail(Crash("KeyError"))
    ensures var e := DeviceEmail(req, payloadEmail);
            e.Some? ==> (r.0 == Fail(Http(NOT_FOUND, ACCOUNT_NOT_FOUND))
                         <==> forall q :: q in t.profiles && t.profiles[q].isActive ==> !SameIgnoringCase(q, e.value))
  {
    var e := DeviceEmail(req, payloadEmail);
    if e.Some? then
      FetchUserProfileOutcome(t, e.value);
      DeviceStep(t, req, payloadEmail)
    else DeviceStep(t, req, payloadEmail)
  }

  /** What `user_agents.parse` makes of the `User-Agent` header: a mobile agent, another agent,
      or an exception (a missing header is parsed as `None`, which the parser refuses). */
  datatype AgentParse = MobileAgent | OtherAgent | ParseRaises

  /** The roles that must use a mobile device. */
  predicate MobileOnlyRole(role: string)
  {
    role in [NURSE, OT_ADMIN, COURIER]
  }

  /** `validate_user_agent`: any exception inside the check is also answered 403. */
  function ValidateUserAgent(role: string, agent: AgentParse): Outcome
  {
    match agent
    case ParseRaises => Fail(Http(FORBIDDEN, MOBILE_ONLY))
    case MobileAgent => Pass
    case OtherAgent => if MobileOnlyRole(role) then Fail(Http(FORBIDDEN, MOBILE_ONLY)) else Pass
  }

  /** Only NURSE, OT_ADMIN and COURIER are held to mobile agents; an agent that cannot be parsed
      is refused for every role; every refusal is the same 403. */
  lemma ValidateUserAgentOutcome(role: string, agent: AgentParse)
    ensures var r := ValidateUserAgent(role, agent);
            (r.Pass? <==> agent == MobileAgent || (agent == OtherAgent && role != NURSE && role != OT_ADMIN && role != COURIER))
            && (r.Fail? ==> r.error == Http(FORBIDDEN, MOBILE_ONLY))
  {
  }

  /** The request object the guard writes to. */
  class Request {
    var user: string
    var userId: Option<nat>
    var userRole: Option<string>
    var loggedIn: bool
    var metaProfile: Option<string>
    var metaRole: Option<string>

    function State(): RequestFields
      reads this
    {
      RequestFields(user, userId, userRole, loggedIn, metaProfile, metaRole)
    }

    /** A request as it arrives. */
    constructor()
      ensures State() == ARRIVING
    {
      user, userId, userRole, loggedIn := "", None, None, false;
      metaProfile, metaRole := None, None;
    }

    /** `NinjaAuthBearer.authenticate` */
    method Authenticate(db: Database, token: string, jwt: JwtOutcome) returns (r: Result<bool>)
      modifies this
      ensures (r, State()) == BearerAuthenticate(db.State(), old(State()), token, jwt)
    {
      var check := CheckBlacklistedToken(db.State(), token);
      if check.Fail? {
        return Err(check.error);
      }
      match jwt
      case Rejected => return Ok(false);
      case NoToken => return Err(Crash("TypeError"));
      case Verified(u, claims) =>
        user := u;
        userId := Some(claims.roleId);
        userRole := Some(claims.roleName);
        loggedIn := true;
        return Ok(true);
    }

    /** `validate_device_type_with_geo_fencing` */
    method DeviceStepOn(db: Database, payloadEmail: Option<string>) returns (r: Outcome)
      requires Valid(db.State())
      modifies this
      ensures (r, State()) == DeviceStep(db.State(), old(State()), payloadEmail)
    {
      var email := if loggedIn then Some(user) else payloadEmail;
      if email.None? {
        return Fail(Crash("KeyError"));
      }
      var found := FetchUserProfile(db.State(), email.value);
      if found.Err? {
        return Fail(found.error);
      }
      FetchUserProfileOutcome(db.State(), email.value);
      metaProfile := Some(found.value);
      metaRole := Some(db.profiles[found.value].role);
      return Pass;
    }

    /** The wrapper of `validate_role_for_service_access` around the view `codeName`. */
    method ServiceGateOn(db: Database, codeName: string, payloadEmail: Option<string>) returns (r: Outcome)
      requires Valid(db.State())
      modifies this
      ensures (r, State()) == ServiceGate(db.State(), old(State()), codeName, payloadEmail)
    {
      if userRole.None? {
        return Fail(Crash("AttributeError"));
      }
      var access := ServiceAccess(db.State(), userRole.value, codeName);
      if access.Fail? {
        return access;
      }
      r := DeviceStepOn(db, payloadEmail);
    }
  }
}
