/** The authentication endpoints of `api/v1/auth.py`, each as a function from the database
    before the request to the response and the database after it. A `transaction.atomic` block
    that raises leaves the database as it was when the block began; a write made outside such a
    block stays. Random codes and the clock are parameters, and a mail handed to the mail thread
    is recorded in the `mails` table. */
module AuthEndpoints {
  import opened Wrappers
  import opened Text
  import opened Models
  import opened Store
  import opened Backend
  import opened AuthHelpers
  import opened Schemas

  const USERNAME_RESERVED: string := "Username is already reserved!"
  const NOT_AUTHORIZED_TO_LOGIN: string := "You are not authorized to login from this service."
  const SOMETHING_WENT_WRONG: string := "Something went wrong."
  const TRY_AGAIN: string := "Something went wrong. Please try again."
  const LOGIN_OTP_SENT: string := "An OTP has been sent to your email address to login."
  const ADMIN_OTP_SENT: string := "An OTP has been sent to your email address for login."
  const PASSWORD_INCORRECT: string := "Provided password is incorrect."
  const REGISTER_FIRST: string := "We cannot find this account in our database. Please register first."
  const SUSPICIOUS_LOGIN: string := "Suspicious activity found while login."
  const LOGIN_SUCCESSFUL: string := "Login Successful."
  const TOKEN_NOT_VALID: string := "Token is not valid."
  const LOGOUT_SUCCESSFUL: string := "Logout successful."
  const OLD_PASSWORD_INCORRECT: string := "Old password is incorrect"
  const NEW_PASSWORD_SAME: string := "New password cannot be same."
  const PASSWORD_CHANGED: string := "Your password has been changed successfully"
  const RECOVERY_OTP_SENT: string := "An OTP has been sent to your email address to recover password."
  const PASSWORD_RESET: string := "Success! Your password has been updated securely."

  /** A value `randint(100000, 999999)` can return. */
  predicate OtpDraw(n: int)
  {
    100000 <= n <= 999999
  }

  /** The roles that may ask for an OTP on the user login route. */
  predicate MayRequestUserOtp(role: string)
  {
    role == NORMAL_USER || role == TECHNICIAN
  }

  /** The tail shared by the user login route once the profile `p` exists: the kind follows the
      profile's activity, the ledger is replaced by the new record, and the mail is sent. */
  function IssueLoginOtp(t: Tables, p: string, code: string, expiresAt: int): (Result<string>, Tables)
    requires p in t.profiles
  {
    var created := !t.profiles[p].isActive;
    var kind := if created then SignUp else SignIn;
    var t1 := CreateOtpT(DeleteOtpsT(t, p), p, OtpRecord(code, kind, expiresAt, false));
    (Ok(LOGIN_OTP_SENT), SendMailT(t1, LoginMail(p, created, code)))
  }

  /** `authenticate_user_with_otp`: a staff username is refused before the block. Inside it, an
      existing profile must hold a user role and gets the code as its password; an unknown
      username gets a user (created, or updated if one exists without a profile) and a
      `NORMAL_USER` profile, and a missing `NORMAL_USER` role rolls the block back. */
  function RequestOtp(t: Tables, payload: LoginRequest, n: int, expiresAt: int): (r: (Result<string>, Tables))
    requires Valid(t) && OtpDraw(n)
  {
    var name := payload.username;
    var code := IntToString(n);
    if name in t.users && t.users[name].isStaff then (Err(Unprocessable(USERNAME_RESERVED)), t)
    else if name in t.profiles then
      if !MayRequestUserOtp(GetUserRole(t, name)) then (Err(Unprocessable(NOT_AUTHORIZED_TO_LOGIN)), t)
      else IssueLoginOtp(SetPasswordT(t, name, code), name, code, expiresAt)
    else if NORMAL_USER !in t.roles then (Err(Unprocessable(SOMETHING_WENT_WRONG)), t)
    else
      var t1 := if name in t.users then SetPasswordT(t, name, code) else CreateUserT(t, name, code);
      IssueLoginOtp(CreateProfileT(t1, name, name, NORMAL_USER), name, code, expiresAt)
  }

  /** The user login route refuses exactly staff usernames, profiles of other roles, and new
      accounts when the `NORMAL_USER` role is missing, and a refusal writes nothing. */
  lemma RequestOtpRefusals(t: Tables, payload: LoginRequest, n: int, expiresAt: int)
    requires Valid(t) && OtpDraw(n)
    ensures var (r, t') := RequestOtp(t, payload, n, expiresAt);
            var name := payload.username;
            (r.Err? ==> t' == t && r.error.Http? && r.error.status == UNPROCESSABLE_ENTITY)
            && (r.Err? <==> (name in t.users && t.users[name].isStaff)
                            || (name in t.profiles && !MayRequestUserOtp(t.profiles[name].role))
                            || (name !in t.profiles && NORMAL_USER !in t.roles))
            && (name in t.users && t.users[name].isStaff ==> r == Err(Unprocessable(USERNAME_RESERVED)))
  {
  }

  /** Issuing a login code leaves the code as the profile's single unused record, of the kind
      its activity calls for, and records the mail; users and profiles are untouched. */
  lemma IssueLoginOtpEffect(t: Tables, p: string, code: string, expiresAt: int)
    requires p in t.profiles
    ensures var (r, t') := IssueLoginOtp(t, p, code, expiresAt);
            r == Ok(LOGIN_OTP_SENT)
            && OtpsOf(t', p) == [OtpRecord(code, if t.profiles[p].isActive then SignIn else SignUp, expiresAt, false)]
            && t'.users == t.users && t'.profiles == t.profiles
            && t'.mails == t.mails + [LoginMail(p, !t.profiles[p].isActive, code)]
  {
    ReplaceOtps(t, p, OtpRecord(code, if t.profiles[p].isActive then SignIn else SignUp, expiresAt, false));
  }

  /** Issuing a login code keeps the database valid. */
  lemma IssueLoginOtpKeepsValid(t: Tables, p: string, code: string, expiresAt: int)
    requires Valid(t) && p in t.profiles
    ensures Valid(IssueLoginOtp(t, p, code, expiresAt).1)
  {
    var record := OtpRecord(code, if t.profiles[p].isActive then SignIn else SignUp, expiresAt, false);
    ReplaceOtpsKeepsValid(t, p, record);
    SendMailKeepsValid(CreateOtpT(DeleteOtpsT(t, p), p, record), LoginMail(p, !t.profiles[p].isActive, code));
  }

  /** The user login route keeps the database valid. */
  lemma RequestOtpKeepsValid(t: Tables, payload: LoginRequest, n: int, expiresAt: int)
    requires Valid(t) && OtpDraw(n)
    ensures Valid(RequestOtp(t, payload, n, expiresAt).1)
  {
    var name := payload.username;
    var code := IntToString(n);
    if name in t.users && t.users[name].isStaff {
    } else if name in t.profiles {
      if MayRequestUserOtp(t.profiles[name].role) {
        SetPasswordKeepsValid(t, name, code);
        IssueLoginOtpKeepsValid(SetPasswordT(t, name, code), name, code, expiresAt);
      }
    } else if NORMAL_USER in t.roles {
      if name in t.users {
        SetPasswordKeepsValid(t, name, code);
        NewProfileKeepsValid(SetPasswordT(t, name, code), name, name, NORMAL_USER);
      } else {
        NewAccountKeepsValid(t, name, code, name, NORMAL_USER);
      }
      var t1 := if name in t.users then SetPasswordT(t, name, code) else CreateUserT(t, name, code);
      IssueLoginOtpKeepsValid(CreateProfileT(t1, name, name, NORMAL_USER), name, code, expiresAt);
    }
  }

  /** An issued login OTP: the profile's ledger is exactly one unused record whose code is the six
      digits drawn, a sign-in record for an active profile and a sign-up record otherwise; the
      code is the user's password; a new username gets an inactive `NORMAL_USER` profile whose
      e-mail is the username; and the mail goes to the username. */
  lemma RequestOtpIssues(t: Tables, payload: LoginRequest, n: int, expiresAt: int)
    requires Valid(t) && OtpDraw(n)
    requires RequestOtp(t, payload, n, expiresAt).0.Ok?
    ensures var (r, t') := RequestOtp(t, payload, n, expiresAt);
            var name := payload.username;
            var active := name in t.profiles && t.profiles[name].isActive;
            r == Ok(LOGIN_OTP_SENT)
            && OtpsOf(t', name) == [OtpRecord(IntToString(n), if active then SignIn else SignUp, expiresAt, false)]
            && |IntToString(n)| == 6 && AllDigits(IntToString(n))
            && name in t'.users && t'.users[name].password == IntToString(n)
            && name in t'.profiles
            && (name !in t.profiles ==> t'.profiles[name] == Profile(name, NORMAL_USER, false, false))
            && (name in t.profiles ==> t'.profiles[name] == t.profiles[name])
            && t'.mails == t.mails + [LoginMail(name, !active, IntToString(n))]
  {
    var name := payload.username;
    var code := IntToString(n);
    SixDigits(n);
    assert n >= 0;
    if name in t.profiles {
      IssueLoginOtpEffect(SetPasswordT(t, name, code), name, code, expiresAt);
    } else {
      var t1 := if name in t.users then SetPasswordT(t, name, code) else CreateUserT(t, name, code);
      IssueLoginOtpEffect(CreateProfileT(t1, name, name, NORMAL_USER), name, code, expiresAt);
    }
  }

  /** `authenticate_admin_user`, all inside one block: the admin account check, then the backend
      check of the password, and only then the ledger is replaced by a two-factor record. */
  function AdminOtp(t: Tables, payload: AdminLoginRequest, n: int, expiresAt: int): (r: (Result<string>, Tables))
    requires Valid(t) && OtpDraw(n)
    ensures Valid(r.1)
  {
    match CheckAdminAccountStatus(t, payload.username)
    case Err(e) => (Err(e), t)
    case Ok(p) =>
      match Authenticate(t, payload.username, payload.password)
      case Err(_) => (Err(Unprocessable(SOMETHING_WENT_WRONG)), t)
      case Ok(None) => (Err(Http(UNAUTHORIZED, PASSWORD_INCORRECT)), t)
      case Ok(Some(_)) =>
        var code := IntToString(n);
        var t1 := CreateOtpT(DeleteOtpsT(t, p), p, OtpRecord(code, TwoFactor, expiresAt, false));
        ReplaceOtpsKeepsValid(t, p, OtpRecord(code, TwoFactor, expiresAt, false));
        SendMailKeepsValid(t1, LoginMail(payload.username, false, code));
        (Ok(ADMIN_OTP_SENT), SendMailT(t1, LoginMail(payload.username, false, code)))
  }

  /** The admin route refuses an account the admin check refuses, with that check's error, and
      credentials the backend does not accept, a wrong password with 401; a refusal writes
      nothing. */
  lemma AdminOtpRefusals(t: Tables, payload: AdminLoginRequest, n: int, expiresAt: int)
    requires Valid(t) && OtpDraw(n)
    ensures var (r, t') := AdminOtp(t, payload, n, expiresAt);
            (r.Err? ==> t' == t)
            && (r.Ok? <==> CheckAdminAccountStatus(t, payload.username).Ok?
                           && Authenticate(t, payload.username, payload.password).Ok?
                           && Authenticate(t, payload.username, payload.password).value.Some?)
            && (CheckAdminAccountStatus(t, payload.username).Err? ==> r == Err(CheckAdminAccountStatus(t, payload.username).error))
            && (CheckAdminAccountStatus(t, payload.username).Ok? && Authenticate(t, payload.username, payload.password) == Ok(None)
                ==> r == Err(Http(UNAUTHORIZED, PASSWORD_INCORRECT)))
  {
  }

  /** An issued admin code is the account's single two-factor record; only the ledger and the
      mails change. */
  lemma AdminOtpIssues(t: Tables, payload: AdminLoginRequest, n: int, expiresAt: int)
    requires Valid(t) && OtpDraw(n)
    requires AdminOtp(t, payload, n, expiresAt).0.Ok?
    ensures CheckAdminAccountStatus(t, payload.username).Ok?
    ensures var t' := AdminOtp(t, payload, n, expiresAt).1;
            var p := CheckAdminAccountStatus(t, payload.username).value;
            Valid(t') && OtpsOf(t', p) == [OtpRecord(IntToString(n), TwoFactor, expiresAt, false)]
            && t'.users == t.users && t'.profiles == t.profiles && t'.profileOrder == t.profileOrder
            && t'.mails == t.mails + [LoginMail(payload.username, false, IntToString(n))]
  {
    var p := CheckAdminAccountStatus(t, payload.username).value;
    var record := OtpRecord(IntToString(n), TwoFactor, expiresAt, false);
    ReplaceOtpsKeepsValid(t, p, record);
    SendMailKeepsValid(CreateOtpT(DeleteOtpsT(t, p), p, record), LoginMail(payload.username, false, IntToString(n)));
  }

  /** The body of a successful `verify_otp`. */
  datatype LoginResponse = LoginResponse(token: TokenPair, message: string, userRole: string, firstTimePasswordChanged: bool)

  /** What `verify_otp` does once the code has been consumed, on the database `t1` left by the
      check: an admin logs in as the profile's user; anyone else must pass the backend with the
      code as password, and on success that user's password becomes the drawn `newPassword`. A failure
      here writes nothing more, and the code stays consumed. */
  function LoginAfterCheck(t1: Tables, p: string, role: string, roleId: nat, username: string, code: string,
                           newPassword: int, firstTime: bool): (r: (Result<LoginResponse>, Tables))
    requires Valid(t1) && p in t1.users
    ensures Valid(r.1) && r.1.otps == t1.otps && r.1.profiles == t1.profiles && r.1.profileOrder == t1.profileOrder
            && r.1.roles == t1.roles
    ensures r.0.Err? ==> r.1 == t1 && r.0.error != Http(NOT_FOUND, REGISTER_FIRST)
    ensures r.0.Ok? ==> r.0.value.userRole == role && r.0.value.message == LOGIN_SUCCESSFUL
                        && r.0.value.token.access.roleName == role && r.0.value.token.access.roleId == roleId
                        && r.0.value.token.refresh == r.0.value.token.access
                        && r.0.value.firstTimePasswordChanged == firstTime
    ensures role == ADMIN ==> r.1 == t1 && r.0.Ok? && r.0.value.token.access.username == p
    ensures role != ADMIN && r.0.Ok? ==>
              var u := r.0.value.token.access.username;
              u in t1.users && Selects(t1.users, u, username) && t1.users[u].password == code
              && CanAuthenticate(t1.users[u])
              && r.1.users == t1.users[u := t1.users[u].(password := IntToString(newPassword))]
    ensures role != ADMIN && Authenticate(t1, username, code) == Ok(None) ==> r.0 == Err(Http(UNAUTHORIZED, SUSPICIOUS_LOGIN))
    ensures role != ADMIN && Authenticate(t1, username, code).Ok? && Authenticate(t1, username, code).value.Some? ==>
              r.0.Ok? && r.0.value.token.access.username == Authenticate(t1, username, code).value.value
    ensures role != ADMIN && Authenticate(t1, username, code).Err? ==> r.0 == Err(Unprocessable(SOMETHING_WENT_WRONG))
  {
    if role == ADMIN then
      (Ok(LoginResponse(TokensForUser(p, t1.users[p].email, role, roleId), LOGIN_SUCCESSFUL, role, firstTime)), t1)
    else
      match Authenticate(t1, username, code)
      case Err(_) => (Err(Unprocessable(SOMETHING_WENT_WRONG)), t1)
      case Ok(None) => (Err(Http(UNAUTHORIZED, SUSPICIOUS_LOGIN)), t1)
      case Ok(Some(u)) =>
        SetPasswordKeepsValid(t1, u, IntToString(newPassword));
        var tokens := TokensForUser(u, t1.users[u].email, role, roleId);
        (Ok(LoginResponse(tokens, LOGIN_SUCCESSFUL, role, firstTime)), SetPasswordT(t1, u, IntToString(newPassword)))
  }

  /** The OTP check `verify_otp` makes for the profile `p`: a just-created (inactive) account
      expects a sign-up code, an ADMIN a two-factor code, anyone else a sign-in code. */
  function VerifyCheck(t: Tables, p: string, otp: int, now: int): (Outcome, Tables)
    requires p in t.profiles
  {
    AuthenticateUser(t, p, IntToString(otp), !t.profiles[p].isActive, t.profiles[p].role == ADMIN, now)
  }

  /** `verify_otp`. The profile is the first whose username matches ignoring case. Only the OTP
      check is inside a block; the rest is `LoginAfterCheck`. The tokens carry the profile's role
      name and id. */
  function VerifyOtp(t: Tables, payload: VerifyOtpIn, now: int, newPassword: int): (r: (Result<LoginResponse>, Tables))
    requires Valid(t)
    ensures Valid(r.1)
  {
    match ProfileIexact(t, payload.username)
    case None => (Err(Http(NOT_FOUND, REGISTER_FIRST)), t)
    case Some(p) =>
      var role := GetUserRole(t, p);
      var code := IntToString(payload.otp);
      var (o, t1) := VerifyCheck(t, p, payload.otp, now);
      AuthenticateUserFrame(t, p, code, !t.profiles[p].isActive, role == ADMIN, now);
      AuthenticateUserPreservesValid(t, p, code, !t.profiles[p].isActive, role == ADMIN, now);
      if o.Fail? then (Err(o.error), t)
      else LoginAfterCheck(t1, p, role, t.roles[role].id, payload.username, code, newPassword, t.profiles[p].firstTimePasswordChanged)
  }

  /** `verify_otp` keeps which profiles exist, their order and their roles, and the role table. */
  lemma VerifyOtpFrame(t: Tables, payload: VerifyOtpIn, now: int, newPassword: int)
    requires Valid(t)
    ensures var t' := VerifyOtp(t, payload, now, newPassword).1;
            t'.profileOrder == t.profileOrder && t'.roles == t.roles && t'.profiles.Keys == t.profiles.Keys
            && (forall q :: q in t.profiles ==> t'.profiles[q].role == t.profiles[q].role)
  {
    match ProfileIexact(t, payload.username)
    case None =>
    case Some(p) =>
      AuthenticateUserFrame(t, p, IntToString(payload.otp), !t.profiles[p].isActive, t.profiles[p].role == ADMIN, now);
  }

  /** The answer is 404 "register first" exactly when no profile has the username, ignoring case. */
  lemma VerifyOtpUnknownUser(t: Tables, payload: VerifyOtpIn, now: int, newPassword: int)
    requires Valid(t)
    ensures VerifyOtp(t, payload, now, newPassword).0 == Err(Http(NOT_FOUND, REGISTER_FIRST))
            <==> forall p :: p in t.profiles ==> !SameIgnoringCase(p, payload.username)
  {
    match ProfileIexact(t, payload.username)
    case None =>
    case Some(p) =>
      AuthenticateUserFrame(t, p, IntToString(payload.otp), !t.profiles[p].isActive, t.profiles[p].role == ADMIN, now);
  }

  /** A failed OTP check is answered with the check's error, and nothing is written. */
  lemma VerifyOtpCheckFails(t: Tables, payload: VerifyOtpIn, now: int, newPassword: int)
    requires Valid(t)
    ensures var found := ProfileIexact(t, payload.username);
            found.Some? && VerifyCheck(t, found.value, payload.otp, now).0.Fail? ==>
              VerifyOtp(t, payload, now, newPassword)
              == (Err(CheckOtp(t, found.value, IntToString(payload.otp),
                               ExpectedOtpType(!t.profiles[found.value].isActive, t.profiles[found.value].role == ADMIN), now).error), t)
  {
    match ProfileIexact(t, payload.username)
    case None =>
    case Some(p) =>
      AuthenticateUserFrame(t, p, IntToString(payload.otp), !t.profiles[p].isActive, t.profiles[p].role == ADMIN, now);
  }

  /** Once the OTP check of the profile `p` has passed, the ledgers `verify_otp` leaves are the
      ones the check left, whatever the backend then answers. */
  lemma VerifyOtpKeepsCheckLedger(t: Tables, payload: VerifyOtpIn, p: string, now: int, newPassword: int)
    requires Valid(t) && ProfileIexact(t, payload.username) == Some(p)
    requires VerifyCheck(t, p, payload.otp, now).0.Pass?
    ensures VerifyOtp(t, payload, now, newPassword).1.otps == VerifyCheck(t, p, payload.otp, now).1.otps
  {
  }

  /** A profile whose every record is used cannot log in, whatever code it sends. */
  lemma VerifyOtpRejectsSpentLedger(t: Tables, payload: VerifyOtpIn, now: int, newPassword: int)
    requires Valid(t) && ProfileIexact(t, payload.username).Some?
    requires var ledger := OtpsOf(t, ProfileIexact(t, payload.username).value);
             forall j :: 0 <= j < |ledger| ==> ledger[j].used
    ensures VerifyOtp(t, payload, now, newPassword).0.Err?
  {
    var p := ProfileIexact(t, payload.username).value;
    var code := IntToString(payload.otp);
    var created, twoFactor := !t.profiles[p].isActive, t.profiles[p].role == ADMIN;
    DeadCodeNeverVerifies(t, p, code, ExpectedOtpType(created, twoFactor), now);
    AuthenticateUserFrame(t, p, code, created, twoFactor, now);
    VerifyOtpCheckFails(t, payload, now, newPassword);
  }

  /** A successful verification consumed a live code of the expected kind, activated the profile,
      and answers with the profile's role; an admin's password is untouched, while another
      user's password no longer is the code. */
  lemma VerifyOtpSucceeds(t: Tables, payload: VerifyOtpIn, now: int, newPassword: int)
    requires Valid(t)
    requires VerifyOtp(t, payload, now, newPassword).0.Ok?
    ensures ProfileIexact(t, payload.username).Some?
    ensures var p := ProfileIexact(t, payload.username).value;
            var role := t.profiles[p].role;
            CheckOtp(t, p, IntToString(payload.otp), ExpectedOtpType(!t.profiles[p].isActive, role == ADMIN), now).Ok?
    ensures var p := ProfileIexact(t, payload.username).value;
            var r := VerifyOtp(t, payload, now, newPassword).0;
            var t' := VerifyOtp(t, payload, now, newPassword).1;
            var role := t.profiles[p].role;
            r.value.userRole == role && r.value.token.access.roleId == t.roles[role].id
            && p in t'.profiles && t'.profiles[p].isActive
            && (role == ADMIN ==> t'.users == t.users)
            && (role != ADMIN ==> var u := r.value.token.access.username;
                                  u in t.users && t.users[u].password == IntToString(payload.otp)
                                  && t'.users[u].password == IntToString(newPassword))
  {
    var p := ProfileIexact(t, payload.username).value;
    var role := t.profiles[p].role;
    var code := IntToString(payload.otp);
    AuthenticateUserFrame(t, p, code, !t.profiles[p].isActive, role == ADMIN, now);
    AuthenticateUserConsumes(t, p, code, !t.profiles[p].isActive, role == ADMIN, now);
    AuthenticateUserPreservesValid(t, p, code, !t.profiles[p].isActive, role == ADMIN, now);
  }

  /** Once the OTP check has passed, a later refusal by the backend does not give the code
      back: the same code fails every later check. */
  lemma VerifyOtpFailureAfterCheckConsumes(t: Tables, payload: VerifyOtpIn, now: int, newPassword: int, kind: OtpKind, later: int)
    requires Valid(t)
    requires VerifyOtp(t, payload, now, newPassword).0 == Err(Http(UNAUTHORIZED, SUSPICIOUS_LOGIN))
    ensures ProfileIexact(t, payload.username).Some?
    ensures CheckOtp(VerifyOtp(t, payload, now, newPassword).1, ProfileIexact(t, payload.username).value, IntToString(payload.otp), kind, later).Err?
  {
    SuspiciousLoginPassedCheck(t, payload, now, newPassword);
    var p := ProfileIexact(t, payload.username).value;
    VerifyOtpKeepsCheckLedger(t, payload, p, now, newPassword);
    SecondVerificationFails(t, VerifyOtp(t, payload, now, newPassword).1, p, IntToString(payload.otp),
                            !t.profiles[p].isActive, t.profiles[p].role == ADMIN, now, kind, later);
  }

  /** The refusal after the check is not a rollback: the consumed code is written, so the
      database `verify_otp` leaves differs from the one it was given. */
  lemma SuspiciousLoginWrites(t: Tables, payload: VerifyOtpIn, now: int, newPassword: int)
    requires Valid(t)
    requires VerifyOtp(t, payload, now, newPassword).0 == Err(Http(UNAUTHORIZED, SUSPICIOUS_LOGIN))
    ensures VerifyOtp(t, payload, now, newPassword).1 != t
  {
    SuspiciousLoginPassedCheck(t, payload, now, newPassword);
    var p := ProfileIexact(t, payload.username).value;
    var code := IntToString(payload.otp);
    VerifyOtpKeepsCheckLedger(t, payload, p, now, newPassword);
    AuthenticateUserSpends(t, p, code, !t.profiles[p].isActive, t.profiles[p].role == ADMIN, now);
    assert OtpsOf(VerifyOtp(t, payload, now, newPassword).1, p)[0].used != OtpsOf(t, p)[0].used;
  }

  /** The backend's refusal is only reached past a successful OTP check. */
  lemma SuspiciousLoginPassedCheck(t: Tables, payload: VerifyOtpIn, now: int, newPassword: int)
    requires Valid(t)
    requires VerifyOtp(t, payload, now, newPassword).0 == Err(Http(UNAUTHORIZED, SUSPICIOUS_LOGIN))
    ensures ProfileIexact(t, payload.username).Some?
    ensures VerifyCheck(t, ProfileIexact(t, payload.username).value, payload.otp, now).0.Pass?
  {
    VerifyOtpUnknownUser(t, payload, now, newPassword);
    VerifyOtpCheckFails(t, payload, now, newPassword);
  }

  /** A successful verification cannot be replayed: the same request fails afterwards. */
  lemma VerifyOtpNoReplay(t: Tables, payload: VerifyOtpIn, now: int, newPassword: int, later: int, newPassword2: int)
    requires Valid(t)
    requires VerifyOtp(t, payload, now, newPassword).0.Ok?
    ensures VerifyOtp(VerifyOtp(t, payload, now, newPassword).1, payload, later, newPassword2).0.Err?
  {
    var t' := VerifyOtp(t, payload, now, newPassword).1;
    VerifyOtpSucceeds(t, payload, now, newPassword);
    var p := ProfileIexact(t, payload.username).value;
    AuthenticateUserFrame(t, p, IntToString(payload.otp), !t.profiles[p].isActive, t.profiles[p].role == ADMIN, now);
    VerifyOtpKeepsCheckLedger(t, payload, p, now, newPassword);
    SecondVerificationFails(t, t', p, IntToString(payload.otp), !t.profiles[p].isActive, t.profiles[p].role == ADMIN,
                            now, SignIn, later);
    VerifyOtpFrame(t, payload, now, newPassword);
    SameOrderSameLookup(t, t', payload.username);
    VerifyOtpRejectsSpentLedger(t', payload, later, newPassword2);
  }

  /** A MANAGER passes the admin account check, but the code the admin route sends is a
      two-factor record while `verify_otp` expects a sign-in record for every role but ADMIN: with
      a ledger holding only that record, the manager's code is refused as incorrect. */
  lemma ManagerAdminCodeRefused(t: Tables, payload: AdminLoginRequest, n: int, expiresAt: int, newPassword: int, now: int)
    requires Valid(t) && OtpDraw(n)
    requires AdminOtp(t, payload, n, expiresAt).0.Ok?
    requires t.profiles[CheckAdminAccountStatus(t, payload.username).value].role == MANAGER
    ensures VerifyOtp(AdminOtp(t, payload, n, expiresAt).1, VerifyOtpIn(payload.username, n), now, newPassword).0
            == Err(Unprocessable(INCORRECT_CODE))
  {
    AdminOtpIssues(t, payload, n, expiresAt);
    var p := CheckAdminAccountStatus(t, payload.username).value;
    var t' := AdminOtp(t, payload, n, expiresAt).1;
    var code := IntToString(n);
    SameOrderSameLookup(t, t', payload.username);
    var kind := ExpectedOtpType(!t'.profiles[p].isActive, false);
    assert !Matches(OtpsOf(t', p)[0], code, kind);
    assert CheckOtp(t', p, code, kind, now) == Err(Unprocessable(INCORRECT_CODE));
    AuthenticateUserFrame(t', p, code, !t'.profiles[p].isActive, false, now);
    VerifyOtpCheckFails(t', VerifyOtpIn(payload.username, n), now, newPassword);
  }

  /** An admin's code verifies: after a successful admin OTP request, `verify_otp` with the drawn
      code before it expires logs the admin in as the account's profile with the role ADMIN, and
      no password changes. */
  lemma AdminRoundTrip(t: Tables, payload: AdminLoginRequest, n: int, expiresAt: int, now: int, newPassword: int)
    requires Valid(t) && OtpDraw(n)
    requires AdminOtp(t, payload, n, expiresAt).0.Ok?
    requires t.profiles[CheckAdminAccountStatus(t, payload.username).value].role == ADMIN
    requires now < expiresAt
    ensures var (r, t'') := VerifyOtp(AdminOtp(t, payload, n, expiresAt).1, VerifyOtpIn(payload.username, n), now, newPassword);
            r.Ok? && r.value.userRole == ADMIN
            && r.value.token.access.username == CheckAdminAccountStatus(t, payload.username).value
            && t''.users == t.users
  {
    AdminOtpIssues(t, payload, n, expiresAt);
    var p := CheckAdminAccountStatus(t, payload.username).value;
    var t' := AdminOtp(t, payload, n, expiresAt).1;
    var code := IntToString(n);
    SameOrderSameLookup(t, t', payload.username);
    assert ProfileIexact(t', payload.username) == Some(p);
    assert FirstOtp(OtpsOf(t', p), code, TwoFactor) == Some(0);
    assert CheckOtp(t', p, code, TwoFactor, now) == Ok(0);
    VerifyOtpAccepts(t', VerifyOtpIn(payload.username, n), now, newPassword);
    VerifyOtpSucceeds(t', VerifyOtpIn(payload.username, n), now, newPassword);
  }

  /** `verify_otp` logs in whenever a profile matches the username ignoring case, its OTP check
      of the expected kind passes and, for every role but ADMIN, the backend accepts the username
      with the code as password; the user logged in is the profile's for an ADMIN and the one the
      backend found otherwise (`VerifyOtpSucceeds` gives the converse). */
  lemma VerifyOtpAccepts(t: Tables, payload: VerifyOtpIn, now: int, newPassword: int)
    requires Valid(t) && ProfileIexact(t, payload.username).Some?
    requires var p := ProfileIexact(t, payload.username).value;
             CheckOtp(t, p, IntToString(payload.otp), ExpectedOtpType(!t.profiles[p].isActive, t.profiles[p].role == ADMIN), now).Ok?
    requires var p := ProfileIexact(t, payload.username).value;
             var backend := Authenticate(t, payload.username, IntToString(payload.otp));
             t.profiles[p].role != ADMIN ==> backend.Ok? && backend.value.Some?
    ensures var r := VerifyOtp(t, payload, now, newPassword).0;
            var p := ProfileIexact(t, payload.username).value;
            r.Ok?
            && r.value.token.access.username
               == if t.profiles[p].role == ADMIN then p
                  else Authenticate(t, payload.username, IntToString(payload.otp)).value.value
  {
    var p := ProfileIexact(t, payload.username).value;
    var code := IntToString(payload.otp);
    var role := t.profiles[p].role;
    var created, twoFactor := !t.profiles[p].isActive, role == ADMIN;
    AuthenticateUserFrame(t, p, code, created, twoFactor, now);
    AuthenticateUserPreservesValid(t, p, code, created, twoFactor, now);
    var t1 := AuthenticateUser(t, p, code, created, twoFactor, now).1;
    assert t1.users == t.users && t1.userOrder == t.userOrder;
    assert Authenticate(t1, payload.username, code) == Authenticate(t, payload.username, code);
  }

  /** The users a successful user OTP request leaves: the requested name is a user, active
      unless it was an inactive user before, and every other user is as it was. Its profile
      holds a role that may ask for a user OTP. */
  lemma RequestOtpUsers(t: Tables, payload: LoginRequest, n: int, expiresAt: int)
    requires Valid(t) && OtpDraw(n)
    requires RequestOtp(t, payload, n, expiresAt).0.Ok?
    ensures var t' := RequestOtp(t, payload, n, expiresAt).1;
            var name := payload.username;
            name in t'.users && name in t'.profiles && MayRequestUserOtp(t'.profiles[name].role)
            && t'.users[name].isActive == (name !in t.users || t.users[name].isActive)
            && forall v :: v in t'.users && v != name ==> v in t.users && t'.users[v] == t.users[v]
  {
    var name := payload.username;
    var code := IntToString(n);
    var t' := RequestOtp(t, payload, n, expiresAt).1;
    if name in t.profiles {
      var t0 := SetPasswordT(t, name, code);
      assert t' == IssueLoginOtp(t0, name, code, expiresAt).1;
      IssueLoginOtpEffect(t0, name, code, expiresAt);
    } else {
      var t0 := if name in t.users then SetPasswordT(t, name, code) else CreateUserT(t, name, code);
      var t1 := CreateProfileT(t0, name, name, NORMAL_USER);
      assert t' == IssueLoginOtp(t1, name, code, expiresAt).1;
      IssueLoginOtpEffect(t1, name, code, expiresAt);
    }
  }

  /** A login code verifies: when a profile of any role but ADMIN holds a single unused record of
      the kind `verify_otp` expects, its user's password is that code, the user row is active and
      no other account has the name as username or e-mail ignoring case, the code logs the user in
      before it expires, activates the profile and replaces the password by the new draw. */
  lemma FreshLoginCodeVerifies(t: Tables, name: string, n: int, expiresAt: int, now: int, newPassword: int)
    requires Valid(t) && name in t.profiles && t.profiles[name].role != ADMIN
    requires OtpsOf(t, name) == [OtpRecord(IntToString(n), ExpectedOtpType(!t.profiles[name].isActive, false), expiresAt, false)]
    requires now < expiresAt
    requires name in t.users && t.users[name].password == IntToString(n) && t.users[name].isActive
    requires forall v :: v in t.users && v != name ==> !SameIgnoringCase(v, name) && !SameIgnoringCase(t.users[v].email, name)
    ensures var (r, t') := VerifyOtp(t, VerifyOtpIn(name, n), now, newPassword);
            r.Ok? && r.value.token.access.username == name && r.value.userRole == t.profiles[name].role
            && name in t'.profiles && t'.profiles[name].isActive
            && name in t'.users && t'.users[name].password == IntToString(newPassword)
  {
    FreshLoginCodeChecks(t, name, n, expiresAt, now);
    var payload := VerifyOtpIn(name, n);
    VerifyOtpAccepts(t, payload, now, newPassword);
    VerifyOtpSucceeds(t, payload, now, newPassword);
  }

  /** The checks `verify_otp` makes pass for such a code: the lookup finds the profile, the OTP
      check accepts its record, and the backend selects and accepts the user alone. */
  lemma FreshLoginCodeChecks(t: Tables, name: string, n: int, expiresAt: int, now: int)
    requires Valid(t) && name in t.profiles
    requires OtpsOf(t, name) == [OtpRecord(IntToString(n), ExpectedOtpType(!t.profiles[name].isActive, false), expiresAt, false)]
    requires now < expiresAt
    requires name in t.users && t.users[name].password == IntToString(n) && t.users[name].isActive
    requires forall v :: v in t.users && v != name ==> !SameIgnoringCase(v, name) && !SameIgnoringCase(t.users[v].email, name)
    ensures ProfileIexact(t, name) == Some(name) && OnlySelected(t.users, name, name)
    ensures CheckOtp(t, name, IntToString(n), ExpectedOtpType(!t.profiles[name].isActive, false), now) == Ok(0)
    ensures Authenticate(t, name, IntToString(n)) == Ok(Some(name))
  {
    var code := IntToString(n);
    var kind := ExpectedOtpType(!t.profiles[name].isActive, false);
    RequestOtpLookup(t, name);
    assert FirstOtp(OtpsOf(t, name), code, kind) == Some(0);
  }

  /** The sign-in and sign-up round trip: the code a user OTP request mails verifies before it
      expires, when no other account has the username or e-mail of that name ignoring case and
      the user row is active. The user logs in under that name with the profile's role, the
      profile becomes active and the password becomes the new draw. */
  lemma RequestOtpThenVerify(t: Tables, payload: LoginRequest, n: int, expiresAt: int, now: int, newPassword: int)
    requires Valid(t) && OtpDraw(n)
    requires RequestOtp(t, payload, n, expiresAt).0.Ok?
    requires now < expiresAt
    requires forall v :: v in t.users && v != payload.username ==>
               !SameIgnoringCase(v, payload.username) && !SameIgnoringCase(t.users[v].email, payload.username)
    requires payload.username in t.users ==> t.users[payload.username].isActive
    ensures var t' := RequestOtp(t, payload, n, expiresAt).1;
            Valid(t') && payload.username in t'.profiles
            && var (r, t'') := VerifyOtp(t', VerifyOtpIn(payload.username, n), now, newPassword);
               r.Ok? && r.value.token.access.username == payload.username
               && r.value.userRole == t'.profiles[payload.username].role
               && payload.username in t''.profiles && t''.profiles[payload.username].isActive
               && payload.username in t''.users && t''.users[payload.username].password == IntToString(newPassword)
  {
    var name := payload.username;
    var t' := RequestOtp(t, payload, n, expiresAt).1;
    RequestOtpKeepsValid(t, payload, n, expiresAt);
    RequestOtpIssues(t, payload, n, expiresAt);
    RequestOtpUsers(t, payload, n, expiresAt);
    assert t'.profiles[name].isActive == (name in t.profiles && t.profiles[name].isActive);
    FreshLoginCodeVerifies(t', name, n, expiresAt, now, newPassword);
  }

  /** A name that is a profile and that no other user's username or e-mail equals ignoring case
      is found by the case-insensitive lookup, and the backend selects it alone. */
  lemma RequestOtpLookup(t: Tables, name: string)
    requires Valid(t) && name in t.profiles
    requires forall v :: v in t.users && v != name ==> !SameIgnoringCase(v, name) && !SameIgnoringCase(t.users[v].email, name)
    ensures ProfileIexact(t, name) == Some(name)
    ensures OnlySelected(t.users, name, name)
  {
    assert SameIgnoringCase(name, name);
  }

  /** `user_logout`. The refresh token's validity and whether the token library accepts it
      are inputs. An invalid token is refused before any write; an accepted one is blacklisted at
      once, and the access token (the second space-separated part of the Authorization header)
      next, outside any block, so a malformed header leaves the refresh token blacklisted. */
  function Logout(t: Tables, payload: LogOutIn, refreshValid: bool, refreshAccepted: bool, authorization: Option<string>): (r: (Result<string>, Tables))
  {
    var refresh := payload.refreshToken;
    if !refreshValid then (Err(Unprocessable(TOKEN_NOT_VALID)), t)
    else if !refreshAccepted then (Err(Unprocessable(TRY_AGAIN)), t)
    else
      var t1 := BlacklistT(t, refresh);
      match authorization
      case None => (Err(Unprocessable(TRY_AGAIN)), t1)
      case Some(header) =>
        var parts := SplitOn(header, ' ');
        if |parts| < 2 then (Err(Unprocessable(TRY_AGAIN)), t1)
        else (Ok(LOGOUT_SUCCESSFUL), BlacklistT(t1, parts[1]))
  }

  /** The access token a well-formed header `Bearer <token>` carries. */
  lemma BearerHeaderToken(token: string)
    requires ' ' !in token
    ensures SplitOn("Bearer " + token, ' ') == ["Bearer", token]
  {
    assert "Bearer " + token == "Bearer" + [' '] + token;
    SplitOnFirst("Bearer", ' ', token);
    SplitOnNone(token, ' ');
  }

  /** Logout writes nothing for an invalid or refused refresh token; when it succeeds both the
      refresh token and the header's access token are blacklisted, and nothing else changes. */
  lemma LogoutEffect(t: Tables, payload: LogOutIn, refreshValid: bool, refreshAccepted: bool, token: string)
    requires ' ' !in token
    ensures Logout(t, payload, false, refreshAccepted, Some("Bearer " + token)) == (Err(Unprocessable(TOKEN_NOT_VALID)), t)
    ensures !refreshAccepted ==> Logout(t, payload, refreshValid, refreshAccepted, Some("Bearer " + token)).1 == t
    ensures refreshValid && refreshAccepted ==>
              Logout(t, payload, refreshValid, refreshAccepted, Some("Bearer " + token))
              == (Ok(LOGOUT_SUCCESSFUL), t.(blacklist := t.blacklist + {payload.refreshToken, token}))
  {
    BearerHeaderToken(token);
    assert t.blacklist + {payload.refreshToken} + {token} == t.blacklist + {payload.refreshToken, token};
  }

  /** A logout that fails after the refresh token was accepted still blacklists it. */
  lemma LogoutBlacklistsRefreshFirst(t: Tables, payload: LogOutIn, authorization: Option<string>)
    ensures payload.refreshToken in Logout(t, payload, true, true, authorization).1.blacklist
    ensures Logout(t, payload, true, true, authorization).1.users == t.users
  {
  }

  /** `user_change_password` once the service gate has let the request through: the old
      password must be the user's, and the new one must differ from it. */
  function ChangePassword(t: Tables, username: string, payload: ChangePasswordIn): (r: (Result<string>, Tables))
    requires username in t.users
  {
    if payload.oldPassword != t.users[username].password then (Err(Unprocessable(OLD_PASSWORD_INCORRECT)), t)
    else if payload.oldPassword == payload.password then (Err(Unprocessable(NEW_PASSWORD_SAME)), t)
    else (Ok(PASSWORD_CHANGED), SetPasswordT(t, username, payload.password))
  }

  /** A change succeeds exactly when the old password is right and the new one differs; a
      refusal writes nothing; after a change the old password no longer opens the account, so
      the same request is refused. */
  lemma ChangePasswordEffect(t: Tables, username: string, payload: ChangePasswordIn)
    requires username in t.users
    ensures var (r, t') := ChangePassword(t, username, payload);
            (r.Ok? <==> payload.oldPassword == t.users[username].password && payload.password != payload.oldPassword)
            && (r.Err? ==> t' == t && r.error.Http? && r.error.status == UNPROCESSABLE_ENTITY)
            && (r.Ok? ==> username in t'.users && t'.users[username].password == payload.password
                          && ChangePassword(t', username, payload) == (Err(Unprocessable(OLD_PASSWORD_INCORRECT)), t'))
  {
  }

  /** `forgot_password`: the admin account check, then, inside a block, the ledger replaced by a
      forgot-password record, and the mail to the username given. */
  function ForgotPassword(t: Tables, payload: ForgotPwdIn, n: int, expiresAt: int): (r: (Result<string>, Tables))
    requires Valid(t) && OtpDraw(n)
    ensures Valid(r.1)
  {
    match CheckAdminAccountStatus(t, payload.username)
    case Err(e) => (Err(e), t)
    case Ok(p) =>
      var code := IntToString(n);
      var t1 := CreateOtpT(DeleteOtpsT(t, p), p, OtpRecord(code, ForgotPwd, expiresAt, false));
      ReplaceOtpsKeepsValid(t, p, OtpRecord(code, ForgotPwd, expiresAt, false));
      SendMailKeepsValid(t1, ForgotMail(payload.username, code));
      (Ok(RECOVERY_OTP_SENT), SendMailT(t1, ForgotMail(payload.username, code)))
  }

  /** Recovery codes go only to active ADMIN or MANAGER accounts; the account's ledger is then that
      one code, and nothing but the ledger and the mails changes. */
  lemma ForgotPasswordEffect(t: Tables, payload: ForgotPwdIn, n: int, expiresAt: int)
    requires Valid(t) && OtpDraw(n)
    ensures var (r, t') := ForgotPassword(t, payload, n, expiresAt);
            (r.Ok? <==> CheckAdminAccountStatus(t, payload.username).Ok?)
            && (r.Err? ==> r == Err(CheckAdminAccountStatus(t, payload.username).error) && t' == t)
            && (r.Ok? ==> OtpsOf(t', CheckAdminAccountStatus(t, payload.username).value)
                            == [OtpRecord(IntToString(n), ForgotPwd, expiresAt, false)]
                          && t'.users == t.users && t'.profiles == t.profiles && t'.profileOrder == t.profileOrder
                          && t'.blacklist == t.blacklist
                          && t'.mails == t.mails + [ForgotMail(payload.username, IntToString(n))])
  {
    match CheckAdminAccountStatus(t, payload.username)
    case Err(_) =>
    case Ok(p) =>
      ReplaceOtps(t, p, OtpRecord(IntToString(n), ForgotPwd, expiresAt, false));
  }

  /** `reset_password`: the user with exactly this username must exist (a plain 404 otherwise),
      the account must pass the admin check (ignoring case), and the forgot-password code must
      pass the OTP check; the record is marked used, that user's password set, and the record
      deleted, with no block around them. */
  function ResetPassword(t: Tables, payload: ResetPwdIn, now: int): (r: (Result<string>, Tables))
    requires Valid(t)
    ensures Valid(r.1)
  {
    if payload.username !in t.users then (Err(Http(NOT_FOUND, "Not Found")), t)
    else match CheckAdminAccountStatus(t, payload.username)
      case Err(e) => (Err(e), t)
      case Ok(p) =>
        match CheckOtp(t, p, payload.otp, ForgotPwd, now)
        case Err(e) => (Err(e), t)
        case Ok(i) =>
          ResetWritesKeepValid(t, p, i, payload.username, payload.password);
          var t2 := SetPasswordT(MarkUsedT(t, p, i), payload.username, payload.password);
          (Ok(PASSWORD_RESET), DeleteOtpAtT(t2, p, i))
  }

  /** A reset succeeds exactly for an existing user whose account passes the admin check and
      whose code is a live forgot-password record; an unknown username is a plain 404, and a
      refusal writes nothing. */
  lemma ResetPasswordOutcome(t: Tables, payload: ResetPwdIn, now: int)
    requires Valid(t)
    ensures var r := ResetPassword(t, payload, now);
            (r.0.Ok? <==> payload.username in t.users && CheckAdminAccountStatus(t, payload.username).Ok?
                          && CheckOtp(t, CheckAdminAccountStatus(t, payload.username).value, payload.otp, ForgotPwd, now).Ok?)
            && (payload.username !in t.users ==> r.0 == Err(Http(NOT_FOUND, "Not Found")))
            && (r.0.Err? ==> r.1 == t)
  {
  }

  /** An existing user whose account passes the admin check and whose code passes the OTP check
      gets that password, and no other user changes; the profile's record is deleted and the
      profiles are left as they were. */
  lemma ResetPasswordSucceeds(t: Tables, payload: ResetPwdIn, now: int)
    requires Valid(t) && payload.username in t.users && CheckAdminAccountStatus(t, payload.username).Ok?
    requires CheckOtp(t, CheckAdminAccountStatus(t, payload.username).value, payload.otp, ForgotPwd, now).Ok?
    ensures ResetPassword(t, payload, now).0 == Ok(PASSWORD_RESET)
    ensures var t' := ResetPassword(t, payload, now).1;
            t'.users == t.users[payload.username := t.users[payload.username].(password := payload.password)]
            && t'.profiles == t.profiles && t'.profileOrder == t.profileOrder
            && OtpsOf(t', CheckAdminAccountStatus(t, payload.username).value) == []
  {
    var p := CheckAdminAccountStatus(t, payload.username).value;
    var i := CheckOtp(t, p, payload.otp, ForgotPwd, now).value;
    assert |OtpsOf(t, p)| <= 1 && i == 0;
    var t2 := SetPasswordT(MarkUsedT(t, p, i), payload.username, payload.password);
    assert ResetPassword(t, payload, now) == (Ok(PASSWORD_RESET), DeleteOtpAtT(t2, p, i));
    assert |OtpsOf(t2, p)| == 1;
  }

  /** Consuming the record, setting the password and deleting the record keep the database valid. */
  lemma ResetWritesKeepValid(t: Tables, p: string, i: nat, username: string, password: string)
    requires Valid(t) && p in t.profiles && i < |OtpsOf(t, p)| && username in t.users
    ensures var t2 := SetPasswordT(MarkUsedT(t, p, i), username, password);
            i < |OtpsOf(t2, p)| && Valid(DeleteOtpAtT(t2, p, i))
  {
    var t1 := MarkUsedT(t, p, i);
    MarkUsedKeepsValid(t, p, i);
    var t2 := SetPasswordT(t1, username, password);
    SetPasswordKeepsValid(t1, username, password);
    assert OtpsOf(t2, p) == OtpsOf(t1, p);
    DeleteOtpAtKeepsValid(t2, p, i);
  }

  /** The record is gone after a successful reset, so the same code cannot be used again. */
  lemma ResetPasswordNoReuse(t: Tables, payload: ResetPwdIn, now: int, later: int)
    requires Valid(t) && ResetPassword(t, payload, now).0.Ok?
    ensures ResetPassword(ResetPassword(t, payload, now).1, payload, later).0 == Err(Unprocessable(INCORRECT_CODE))
  {
    ResetPasswordOutcome(t, payload, now);
    ResetPasswordSucceeds(t, payload, now);
    var p := CheckAdminAccountStatus(t, payload.username).value;
    var t' := ResetPassword(t, payload, now).1;
    SameProfilesSameStatus(t, t', payload.username);
    assert CheckOtp(t', p, payload.otp, ForgotPwd, later) == Err(Unprocessable(INCORRECT_CODE));
  }

  /** A recovery code issued by `forgot_password` resets the password of the account it was sent
      for, as long as it is used before it expires. */
  lemma ForgotThenReset(t: Tables, username: string, n: int, expiresAt: int, password: string, now: int)
    requires Valid(t) && OtpDraw(n) && username in t.users
    requires ForgotPassword(t, LoginRequest(username), n, expiresAt).0.Ok?
    requires now < expiresAt
    ensures ResetPassword(ForgotPassword(t, LoginRequest(username), n, expiresAt).1,
                          ResetPwdIn(username, password, IntToString(n), password), now).0 == Ok(PASSWORD_RESET)
  {
    ForgotPasswordEffect(t, LoginRequest(username), n, expiresAt);
    var p := CheckAdminAccountStatus(t, username).value;
    var t' := ForgotPassword(t, LoginRequest(username), n, expiresAt).1;
    SameProfilesSameStatus(t, t', username);
    assert FirstOtp(OtpsOf(t', p), IntToString(n), ForgotPwd) == Some(0);
    assert CheckOtp(t', p, IntToString(n), ForgotPwd, now) == Ok(0);
    ResetPasswordSucceeds(t', ResetPwdIn(username, password, IntToString(n), password), now);
  }
}
