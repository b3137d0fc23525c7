/** The views of `api/v1/auth.py` as they run: each one performs its writes on the database one
    `save`, `create` or `delete` at a time, in the order the view makes them, and a
    `transaction.atomic` block that raises rolls back to the tables as they were when it began.
    Each view is proved to leave the database and answer exactly as its function in
    `AuthEndpoints` says, so the properties proved there hold of these methods too. */
module AuthViews {
  import opened Wrappers
  import opened Text
  import opened Models
  import opened Store
  import opened Backend
  import opened AuthHelpers
  import opened Schemas
  import opened AuthEndpoints

  /** The shared tail of the user login route for the profile `name`: replace the ledger by one
      fresh record, then hand the mail to the mail thread. */
  method IssueLoginOtpOn(db: Database, name: string, code: string, expiresAt: int) returns (r: Result<string>)
    requires name in db.profiles
    modifies db
    ensures (r, db.State()) == IssueLoginOtp(old(db.State()), name, code, expiresAt)
  {
    var created := !db.profiles[name].isActive;
    var kind := if created then SignUp else SignIn;
    db.DeleteOtps(name);
    db.CreateOtp(name, OtpRecord(code, kind, expiresAt, false));
    db.SendMail(LoginMail(name, created, code));
    return Ok(LOGIN_OTP_SENT);
  }

  /** `authenticate_user_with_otp` */
  method RequestOtpOn(db: Database, payload: LoginRequest, n: int, expiresAt: int) returns (r: Result<string>)
    requires Valid(db.State()) && OtpDraw(n)
    modifies db
    ensures (r, db.State()) == RequestOtp(old(db.State()), payload, n, expiresAt)
  {
    var name := payload.username;
    var code := IntToString(n);
    if name in db.users && db.users[name].isStaff {
      return Err(Unprocessable(USERNAME_RESERVED));
    }
    var saved := db.State();
    if name in db.profiles {
      if !MayRequestUserOtp(GetUserRole(db.State(), name)) {
        return Err(Unprocessable(NOT_AUTHORIZED_TO_LOGIN));
      }
      db.SetPassword(name, code);
    } else {
      if name in db.users {
        db.SetPassword(name, code);
      } else {
        db.CreateUser(name, code);
      }
      if NORMAL_USER !in db.roles {
        // `UserRole.DoesNotExist` leaves the block, which undoes the user write
        db.Restore(saved);
        return Err(Unprocessable(SOMETHING_WENT_WRONG));
      }
      db.CreateProfile(name, name, NORMAL_USER);
    }
    r := IssueLoginOtpOn(db, name, code, expiresAt);
  }

  /** `authenticate_admin_user`: every write comes after the last check that can refuse, so the
      block never has anything to roll back. */
  method AdminOtpOn(db: Database, payload: AdminLoginRequest, n: int, expiresAt: int) returns (r: Result<string>)
    requires Valid(db.State()) && OtpDraw(n)
    modifies db
    ensures (r, db.State()) == AdminOtp(old(db.State()), payload, n, expiresAt)
  {
    var status := CheckAdminAccountStatus(db.State(), payload.username);
    if status.Err? {
      return Err(status.error);
    }
    var p := status.value;
    var user := Authenticate(db.State(), payload.username, payload.password);
    if user.Err? {
      return Err(Unprocessable(SOMETHING_WENT_WRONG));
    }
    if user.value.None? {
      return Err(Http(UNAUTHORIZED, PASSWORD_INCORRECT));
    }
    var code := IntToString(n);
    db.DeleteOtps(p);
    db.CreateOtp(p, OtpRecord(code, TwoFactor, expiresAt, false));
    db.SendMail(LoginMail(payload.username, false, code));
    return Ok(ADMIN_OTP_SENT);
  }

  /** `verify_otp`: the OTP check runs in its own block; the backend check and the new random
      password come after it, outside any block. */
  method VerifyOtpOn(db: Database, payload: VerifyOtpIn, now: int, newPassword: int) returns (r: Result<LoginResponse>)
    requires Valid(db.State())
    modifies db
    ensures (r, db.State()) == VerifyOtp(old(db.State()), payload, now, newPassword)
  {
    ghost var t := db.State();
    var found := ProfileIexact(db.State(), payload.username);
    if found.None? {
      return Err(Http(NOT_FOUND, REGISTER_FIRST));
    }
    var p := found.value;
    var isAccountCreated := !db.profiles[p].isActive;
    var role := GetUserRole(db.State(), p);
    var roleId := db.roles[role].id;
    var firstTime := db.profiles[p].firstTimePasswordChanged;
    var code := IntToString(payload.otp);
    AuthenticateUserFrame(t, p, code, isAccountCreated, role == ADMIN, now);
    AuthenticateUserPreservesValid(t, p, code, isAccountCreated, role == ADMIN, now);
    var o := AuthenticateUserOn(db, p, code, isAccountCreated, role == ADMIN, now);
    if o.Fail? {
      return Err(o.error);
    }
    if role == ADMIN {
      return Ok(LoginResponse(TokensForUser(p, db.users[p].email, role, roleId), LOGIN_SUCCESSFUL, role, firstTime));
    }
    var user := Authenticate(db.State(), payload.username, code);
    if user.Err? {
      return Err(Unprocessable(SOMETHING_WENT_WRONG));
    }
    if user.value.None? {
      return Err(Http(UNAUTHORIZED, SUSPICIOUS_LOGIN));
    }
    var u := user.value.value;
    var tokens := TokensForUser(u, db.users[u].email, role, roleId);
    db.SetPassword(u, IntToString(newPassword));
    return Ok(LoginResponse(tokens, LOGIN_SUCCESSFUL, role, firstTime));
  }

  /** `logout`: the refresh token is blacklisted before the header is read, so a missing or
      malformed header still leaves it blacklisted. */
  method LogoutOn(db: Database, payload: LogOutIn, refreshValid: bool, refreshAccepted: bool, authorization: Option<string>)
      returns (r: Result<string>)
    modifies db
    ensures (r, db.State()) == Logout(old(db.State()), payload, refreshValid, refreshAccepted, authorization)
  {
    if !refreshValid {
      return Err(Unprocessable(TOKEN_NOT_VALID));
    }
    if !refreshAccepted {
      return Err(Unprocessable(TRY_AGAIN));
    }
    db.Blacklist(payload.refreshToken);
    if authorization.None? {
      return Err(Unprocessable(TRY_AGAIN));
    }
    var parts := SplitOn(authorization.value, ' ');
    if |parts| < 2 {
      return Err(Unprocessable(TRY_AGAIN));
    }
    db.Blacklist(parts[1]);
    return Ok(LOGOUT_SUCCESSFUL);
  }

  /** `user_change_password` for the signed-in user `username`. */
  method ChangePasswordOn(db: Database, username: string, payload: ChangePasswordIn) returns (r: Result<string>)
    requires username in db.users
    modifies db
    ensures (r, db.State()) == ChangePassword(old(db.State()), username, payload)
  {
    if payload.oldPassword != db.users[username].password {
      return Err(Unprocessable(OLD_PASSWORD_INCORRECT));
    }
    if payload.oldPassword == payload.password {
      return Err(Unprocessable(NEW_PASSWORD_SAME));
    }
    db.SetPassword(username, payload.password);
    return Ok(PASSWORD_CHANGED);
  }

  /** `forgot_password` */
  method ForgotPasswordOn(db: Database, payload: ForgotPwdIn, n: int, expiresAt: int) returns (r: Result<string>)
    requires Valid(db.State()) && OtpDraw(n)
    modifies db
    ensures (r, db.State()) == ForgotPassword(old(db.State()), payload, n, expiresAt)
  {
    var status := CheckAdminAccountStatus(db.State(), payload.username);
    if status.Err? {
      return Err(status.error);
    }
    var p := status.value;
    var code := IntToString(n);
    db.DeleteOtps(p);
    db.CreateOtp(p, OtpRecord(code, ForgotPwd, expiresAt, false));
    db.SendMail(ForgotMail(payload.username, code));
    return Ok(RECOVERY_OTP_SENT);
  }

  /** `reset_password`: the record is marked used and saved, the password set and saved, and the
      record deleted, each write on its own. */
  method ResetPasswordOn(db: Database, payload: ResetPwdIn, now: int) returns (r: Result<string>)
    requires Valid(db.State())
    modifies db
    ensures (r, db.State()) == ResetPassword(old(db.State()), payload, now)
  {
    if payload.username !in db.users {
      return Err(Http(NOT_FOUND, "Not Found"));
    }
    var status := CheckAdminAccountStatus(db.State(), payload.username);
    if status.Err? {
      return Err(status.error);
    }
    var p := status.value;
    var checked := CheckOtp(db.State(), p, payload.otp, ForgotPwd, now);
    if checked.Err? {
      return Err(checked.error);
    }
    var i := checked.value;
    db.MarkUsed(p, i);
    db.SetPassword(payload.username, payload.password);
    db.DeleteOtpAt(p, i);
    return Ok(PASSWORD_RESET);
  }
}
