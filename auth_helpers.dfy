/** The helpers the authentication endpoints import (`utils/auth.py`): the admin account check,
    the OTP check, OTP verification and token minting. */
module AuthHelpers {
  import opened Wrappers
  import opened Text
  import opened Models
  import opened Store

  const ACCOUNT_NOT_FOUND: string := "We cannot find this account in our database."
  const ACCOUNT_DEACTIVATED: string := "Account is deactivated."
  const NOT_AUTHORIZED_FOR_SERVICE: string := "You are not authorized to use this service."
  const INCORRECT_CODE: string := "Incorrect verification code."
  const OTP_EXPIRED: string := "This Otp is expired. Please get a new OTP."
  const OTP_USED: string := "This Otp is already used."

  /** `get_user_role(profile_obj)`: the name of the profile's role, a row of the role table. */
  function GetUserRole(t: Tables, p: string): (r: string)
    requires Valid(t) && p in t.profiles
    ensures r in t.roles && t.roles[r].name == r
  {
    t.profiles[p].role
  }

  /** The roles allowed to use the admin services. */
  predicate IsAdminRole(role: string)
  {
    role == ADMIN || role == MANAGER
  }

  /** `check_admin_account_status`: the first profile whose username matches ignoring case must
      exist, be active and hold the role ADMIN or MANAGER, checked in that order. */
  function CheckAdminAccountStatus(t: Tables, username: string): (r: Result<string>)
    requires Valid(t)
    ensures r.Ok? <==> ProfileIexact(t, username).Some? && t.profiles[ProfileIexact(t, username).value].isActive
                       && IsAdminRole(t.profiles[ProfileIexact(t, username).value].role)
    ensures r.Ok? ==> r.value == ProfileIexact(t, username).value && SameIgnoringCase(r.value, username)
    ensures r == Err(Http(NOT_FOUND, ACCOUNT_NOT_FOUND)) <==> forall p :: p in t.profiles ==> !SameIgnoringCase(p, username)
    ensures r == Err(Unprocessable(ACCOUNT_DEACTIVATED)) <==>
              ProfileIexact(t, username).Some? && !t.profiles[ProfileIexact(t, username).value].isActive
  {
    match ProfileIexact(t, username)
    case None => Err(Http(NOT_FOUND, ACCOUNT_NOT_FOUND))
    case Some(p) =>
      if !t.profiles[p].isActive then Err(Unprocessable(ACCOUNT_DEACTIVATED))
      else if !IsAdminRole(GetUserRole(t, p)) then Err(Unprocessable(NOT_AUTHORIZED_FOR_SERVICE))
      else Ok(p)
  }

  /** A record `OtpHistory.objects.filter(profile=..., otp=code, otp_type=kind)` selects. */
  predicate Matches(record: OtpRecord, code: string, kind: OtpKind)
  {
    record.code == code && record.kind == kind
  }

  /** The position of the first selected record: `.first()`. */
  function FirstOtp(records: seq<OtpRecord>, code: string, kind: OtpKind): (r: Option<nat>)
    ensures r.Some? ==> r.value < |records| && Matches(records[r.value], code, kind)
    ensures r.Some? ==> forall j :: 0 <= j < r.value ==> !Matches(records[j], code, kind)
    ensures r.None? <==> forall j :: 0 <= j < |records| ==> !Matches(records[j], code, kind)
  {
    if records == [] then None
    else if Matches(records[0], code, kind) then Some(0)
    else match FirstOtp(records[1..], code, kind)
      case None => None
      case Some(i) => Some(i + 1)
  }

  /** A record that may be consumed at time `now`: it expires strictly later and is unused. */
  predicate Live(record: OtpRecord, now: int)
  {
    now < record.expiresAt && !record.used
  }

  /** `check_otp`: the position of the first record of the profile with this code and kind. It
      must exist, must not have expired (expiring exactly now counts as expired) and must not have
      been used, checked in that order. */
  function CheckOtp(t: Tables, p: string, code: string, kind: OtpKind, now: int): (r: Result<nat>)
    ensures r.Ok? ==> r.value < |OtpsOf(t, p)| && Matches(OtpsOf(t, p)[r.value], code, kind)
                      && Live(OtpsOf(t, p)[r.value], now)
    ensures r.Ok? ==> forall j :: 0 <= j < r.value ==> !Matches(OtpsOf(t, p)[j], code, kind)
    ensures r == Err(Unprocessable(INCORRECT_CODE)) <==>
              forall j :: 0 <= j < |OtpsOf(t, p)| ==> !Matches(OtpsOf(t, p)[j], code, kind)
    ensures r == Err(Unprocessable(OTP_EXPIRED)) <==>
              exists i :: FirstOtp(OtpsOf(t, p), code, kind) == Some(i) && OtpsOf(t, p)[i].expiresAt <= now
    ensures r == Err(Unprocessable(OTP_USED)) <==>
              exists i :: FirstOtp(OtpsOf(t, p), code, kind) == Some(i) && now < OtpsOf(t, p)[i].expiresAt && OtpsOf(t, p)[i].used
    ensures forall i :: FirstOtp(OtpsOf(t, p), code, kind) == Some(i) && Live(OtpsOf(t, p)[i], now) ==> r == Ok(i)
    ensures r.Err? ==> r.error.Http? && r.error.status == UNPROCESSABLE_ENTITY
  {
    match FirstOtp(OtpsOf(t, p), code, kind)
    case None => Err(Unprocessable(INCORRECT_CODE))
    case Some(i) =>
      var record := OtpsOf(t, p)[i];
      if record.expiresAt <= now then Err(Unprocessable(OTP_EXPIRED))
      else if record.used then Err(Unprocessable(OTP_USED))
      else Ok(i)
  }

  /** When every record with this code and kind is used or expired, the check fails. */
  lemma {:induction false} DeadCodeNeverVerifies(t: Tables, p: string, code: string, kind: OtpKind, now: int)
    requires forall j :: 0 <= j < |OtpsOf(t, p)| && Matches(OtpsOf(t, p)[j], code, kind) ==> !Live(OtpsOf(t, p)[j], now)
    ensures CheckOtp(t, p, code, kind, now).Err?
  {
  }

  /** The account check reads only the profiles and their order. */
  lemma SameProfilesSameStatus(t: Tables, t': Tables, username: string)
    requires Valid(t) && Valid(t') && t'.profiles == t.profiles && t'.profileOrder == t.profileOrder
    ensures CheckAdminAccountStatus(t', username) == CheckAdminAccountStatus(t, username)
  {
    SameOrderSameLookup(t, t', username);
  }

  /** The kind of OTP `authenticate_user` expects: a just-created account wins over two-factor. */
  function ExpectedOtpType(isAccountCreated: bool, isTwoFactor: bool): (k: OtpKind)
    ensures k == SignUp <==> isAccountCreated
    ensures k == TwoFactor <==> !isAccountCreated && isTwoFactor
    ensures k != ForgotPwd
  {
    if isAccountCreated then SignUp
    else if isTwoFactor then TwoFactor
    else SignIn
  }

  /** `authenticate_user` on a state: the outcome and the state after it. On success the
      profile is activated when the account was just created and the record is marked used;
      a failed check raises before any write. */
  function AuthenticateUser(t: Tables, p: string, code: string, isAccountCreated: bool, isTwoFactor: bool, now: int): (r: (Outcome, Tables))
    requires p in t.profiles
  {
    match CheckOtp(t, p, code, ExpectedOtpType(isAccountCreated, isTwoFactor), now)
    case Err(e) => (Fail(e), t)
    case Ok(i) =>
      var activated := if isAccountCreated then ActivateProfileT(t, p) else t;
      assert OtpsOf(activated, p) == OtpsOf(t, p);
      (Pass, MarkUsedT(activated, p, i))
  }

  /** Verification passes exactly when the check does; a failed one changes nothing, and none
      touches the users, roles, services, blacklist, mails, or which profiles exist and their roles. */
  lemma AuthenticateUserFrame(t: Tables, p: string, code: string, isAccountCreated: bool, isTwoFactor: bool, now: int)
    requires p in t.profiles
    ensures var r := AuthenticateUser(t, p, code, isAccountCreated, isTwoFactor, now);
            (r.0.Pass? <==> CheckOtp(t, p, code, ExpectedOtpType(isAccountCreated, isTwoFactor), now).Ok?)
            && (r.0.Fail? ==> r == (Fail(CheckOtp(t, p, code, ExpectedOtpType(isAccountCreated, isTwoFactor), now).error), t))
            && r.1.users == t.users && r.1.roles == t.roles && r.1.services == t.services
            && r.1.blacklist == t.blacklist && r.1.mails == t.mails && r.1.profileOrder == t.profileOrder
            && r.1.profiles.Keys == t.profiles.Keys
            && (forall q :: q in t.profiles ==> r.1.profiles[q].role == t.profiles[q].role)
  {
  }

  /** A successful verification marks used exactly the record the check selected, a live record
      of the expected kind, and leaves the profile active when the account was just created. */
  lemma AuthenticateUserConsumes(t: Tables, p: string, code: string, isAccountCreated: bool, isTwoFactor: bool, now: int)
    requires p in t.profiles
    requires AuthenticateUser(t, p, code, isAccountCreated, isTwoFactor, now).0.Pass?
    ensures CheckOtp(t, p, code, ExpectedOtpType(isAccountCreated, isTwoFactor), now).Ok?
    ensures var i := CheckOtp(t, p, code, ExpectedOtpType(isAccountCreated, isTwoFactor), now).value;
            var t' := AuthenticateUser(t, p, code, isAccountCreated, isTwoFactor, now).1;
            OtpsOf(t', p) == OtpsOf(t, p)[i := OtpsOf(t, p)[i].(used := true)]
            && p in t'.profiles && t'.profiles[p].isActive == (isAccountCreated || t.profiles[p].isActive)
  {
    var i := CheckOtp(t, p, code, ExpectedOtpType(isAccountCreated, isTwoFactor), now).value;
    var activated := if isAccountCreated then ActivateProfileT(t, p) else t;
    assert OtpsOf(activated, p) == OtpsOf(t, p);
  }

  /** Verification keeps the database valid. */
  lemma AuthenticateUserPreservesValid(t: Tables, p: string, code: string, isAccountCreated: bool, isTwoFactor: bool, now: int)
    requires Valid(t) && p in t.profiles
    ensures Valid(AuthenticateUser(t, p, code, isAccountCreated, isTwoFactor, now).1)
  {
    match CheckOtp(t, p, code, ExpectedOtpType(isAccountCreated, isTwoFactor), now)
    case Err(_) =>
    case Ok(i) =>
      var activated := if isAccountCreated then ActivateProfileT(t, p) else t;
      if isAccountCreated {
        ActivateKeepsValid(t, p);
      }
      assert OtpsOf(activated, p) == OtpsOf(t, p);
      MarkUsedKeepsValid(activated, p, i);
  }

  /** A profile holds at most one record, so a successful verification found exactly one live
      record and leaves it, used, as the whole ledger. */
  lemma AuthenticateUserSpends(t: Tables, p: string, code: string, isAccountCreated: bool, isTwoFactor: bool, now: int)
    requires Valid(t) && p in t.profiles
    requires AuthenticateUser(t, p, code, isAccountCreated, isTwoFactor, now).0.Pass?
    ensures |OtpsOf(t, p)| == 1 && Live(OtpsOf(t, p)[0], now)
    ensures OtpsOf(AuthenticateUser(t, p, code, isAccountCreated, isTwoFactor, now).1, p) == [OtpsOf(t, p)[0].(used := true)]
  {
    AuthenticateUserConsumes(t, p, code, isAccountCreated, isTwoFactor, now);
    assert |OtpsOf(t, p)| <= 1;
  }

  /** The same code cannot be verified twice: in any state `t'` whose ledgers are those a
      successful verification left, every record of the profile is used, so a check of that code
      fails whatever kind is expected and whenever it is made. */
  lemma SecondVerificationFails(t: Tables, t': Tables, p: string, code: string, isAccountCreated: bool, isTwoFactor: bool,
                                now: int, kind: OtpKind, later: int)
    requires Valid(t) && p in t.profiles
    requires AuthenticateUser(t, p, code, isAccountCreated, isTwoFactor, now).0.Pass?
    requires t'.otps == AuthenticateUser(t, p, code, isAccountCreated, isTwoFactor, now).1.otps
    ensures forall j :: 0 <= j < |OtpsOf(t', p)| ==> OtpsOf(t', p)[j].used
    ensures CheckOtp(t', p, code, kind, later).Err?
  {
    AuthenticateUserSpends(t, p, code, isAccountCreated, isTwoFactor, now);
    var ledger := OtpsOf(t', p);
    assert ledger == [OtpsOf(t, p)[0].(used := true)];
    assert |ledger| == 1 && ledger[0].used;
    DeadCodeNeverVerifies(t', p, code, kind, later);
  }

  /** `authenticate_user` on the live database; the record's `save()` follows the profile's. */
  method AuthenticateUserOn(db: Database, p: string, code: string, isAccountCreated: bool, isTwoFactor: bool, now: int)
      returns (o: Outcome)
    requires p in db.profiles
    modifies db
    ensures (o, db.State()) == AuthenticateUser(old(db.State()), p, code, isAccountCreated, isTwoFactor, now)
  {
    var kind := ExpectedOtpType(isAccountCreated, isTwoFactor);
    var checked := CheckOtp(db.State(), p, code, kind, now);
    if checked.Err? {
      return Fail(checked.error);
    }
    if isAccountCreated {
      db.ActivateProfile(p);
    }
    db.MarkUsed(p, checked.value);
    return Pass;
  }

  /** The custom claims of a token pair: `email`, `role_id` and `role_name`, plus the user it is
      for. Signing and expiry are not modelled; a token is its claims. */
  datatype Claims = Claims(username: string, email: string, roleId: nat, roleName: string)

  /** The pair `get_tokens_for_user` returns. */
  datatype TokenPair = TokenPair(refresh: Claims, access: Claims)

  /** `get_tokens_for_user`: the access token is derived from the refresh token, so both carry the
      same claims, naming the user, their e-mail and the role given. */
  function TokensForUser(username: string, email: string, roleName: string, roleId: nat): (r: TokenPair)
    ensures r.access == r.refresh
    ensures r.access.username == username && r.access.email == email
    ensures r.access.roleName == roleName && r.access.roleId == roleId
  {
    var claims := Claims(username, email, roleId, roleName);
    TokenPair(claims, claims)
  }
}
