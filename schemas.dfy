/** The request shapes of `schemas/auth.py`. Parsing a request body runs the schema's "before"
    validators on the raw values (a subclass's own validator before the one it inherits), then
    coerces each declared field: a `str` field takes only a string, an `int` field an int, a bool
    or a decimal string. `username` is lower-cased by its string constraint. */
module Schemas {
  import opened Wrappers
  import opened Text
  import opened Values
  import opened Validators
  import opened AuthValidators

  datatype LoginRequest = LoginRequest(username: string)
  datatype AdminLoginRequest = AdminLoginRequest(username: string, password: string)
  /** `ForgotPwdIn` adds nothing to `LoginRequest`. */
  type ForgotPwdIn = LoginRequest
  datatype ResetPwdIn = ResetPwdIn(username: string, password: string, otp: string, confirmPassword: string)
  datatype VerifyOtpIn = VerifyOtpIn(username: string, otp: int)
  datatype LogOutIn = LogOutIn(refreshToken: string)
  datatype ChangePasswordIn = ChangePasswordIn(oldPassword: string, password: string, confirmPassword: string)

  /** A `str` field: pydantic takes a string as it is and rejects everything else. */
  function StrField(values: Attrs, name: string): (r: Result<string>)
    ensures r.Ok? <==> name in values && values[name].Str?
    ensures r.Ok? ==> r.value == values[name].s
    ensures r.Err? ==> r.error == Invalid(name)
  {
    if name in values && values[name].Str? then Ok(values[name].s) else Err(Invalid(name))
  }

  /** An `int` field: an int, a bool, or an optionally negative run of ASCII digits. */
  function IntField(values: Attrs, name: string): (r: Result<int>)
    ensures r.Ok? ==> name in values
    ensures r.Ok? && values[name].Str? && values[name].s != [] && values[name].s[0] != '-'
            ==> r.value >= 0 && AllDigits(values[name].s)
    ensures r.Ok? && values[name].Int? ==> r.value == values[name].i
    ensures name in values && values[name].Int? ==> r.Ok?
    ensures name in values && values[name].Str? && values[name].s != [] && AllDigits(values[name].s)
            ==> r == Ok(DigitsValue(values[name].s) as int)
    ensures name !in values ==> r == Err(Invalid(name))
  {
    if name !in values then Err(Invalid(name))
    else match values[name]
      case Int(i) => Ok(i)
      case Bool(b) => Ok(if b then 1 else 0)
      case Str(s) =>
        if s != [] && AllDigits(s) then Ok(DigitsValue(s))
        else if |s| >= 2 && s[0] == '-' && AllDigits(s[1..]) then Ok(-(DigitsValue(s[1..]) as int))
        else Err(Invalid(name))
      case _ => Err(Invalid(name))
  }

  /** `username: Annotated[str, StringConstraints(to_lower=True)]` */
  function UsernameField(values: Attrs): (r: Result<string>)
    ensures r.Ok? ==> "username" in values && values["username"].Str?
    ensures r.Ok? ==> SameIgnoringCase(r.value, values["username"].s)
    ensures r.Ok? ==> forall k :: 0 <= k < |r.value| ==> !IsUpper(r.value[k])
  {
    var name :- StrField(values, "username");
    LowerIsLower(name);
    Ok(Lower(name))
  }

  /** `LoginRequest`: a lower-cased username that passed the e-mail check. */
  function ParseLogin(values: Attrs): (r: Result<LoginRequest>)
    ensures r.Ok? <==> LoginValidate(values).Ok? && "username" in values && values["username"].Str?
    ensures r.Ok? ==> EmailLanguage(r.value.username) && SameIgnoringCase(r.value.username, values["username"].s)
  {
    var _ :- LoginValidate(values);
    var username :- UsernameField(values);
    LowerKeepsEmail(values["username"].s);
    Ok(LoginRequest(username))
  }

  /** `ForgotPwdIn` parses exactly as `LoginRequest`. */
  function ParseForgotPwd(values: Attrs): (r: Result<ForgotPwdIn>)
    ensures r.Ok? ==> EmailLanguage(r.value.username)
  {
    ParseLogin(values)
  }

  /** `AdminLoginRequest`: the admin-login check, then a username and a string password. */
  function ParseAdminLogin(values: Attrs): (r: Result<AdminLoginRequest>)
    ensures r.Ok? <==> AdminLoginValidate(values).Ok? && "username" in values && values["username"].Str?
                       && "password" in values && values["password"].Str?
    ensures r.Ok? ==> EmailLanguage(r.value.username) && 8 <= |r.value.password| <= 15
    ensures r.Ok? ==> r.value.password == values["password"].s
  {
    var _ :- AdminLoginValidate(values);
    var login :- ParseLogin(values);
    var password :- StrField(values, "password");
    Ok(AdminLoginRequest(login.username, password))
  }

  /** `ResetPwdIn`: the reset check, then the admin-login fields and string otp and confirmation. */
  function ParseResetPwd(values: Attrs): (r: Result<ResetPwdIn>)
    ensures r.Ok? ==> ResetValidate(values).Ok?
    ensures r.Ok? ==> |r.value.otp| == 6 && NumericText(r.value.otp, false)
    ensures r.Ok? ==> r.value.password == r.value.confirmPassword && 8 <= |r.value.password| <= 15
    ensures r.Ok? ==> EmailLanguage(r.value.username)
  {
    var _ :- ResetValidate(values);
    var admin :- ParseAdminLogin(values);
    var otp :- StrField(values, "otp");
    var confirm :- StrField(values, "confirm_password");
    Ok(ResetPwdIn(admin.username, admin.password, otp, confirm))
  }

  /** `VerifyOtpIn`: its own OTP check runs before the inherited e-mail check; the otp becomes an
      int. */
  function ParseVerifyOtp(values: Attrs): (r: Result<VerifyOtpIn>)
    ensures VerifyOtpValidate(values).Err? ==> r == Err(VerifyOtpValidate(values).error)
    ensures r.Ok? ==> VerifyOtpValidate(values).Ok? && ParseLogin(values).Ok?
  {
    var _ :- VerifyOtpValidate(values);
    var login :- ParseLogin(values);
    var otp :- IntField(values, "otp");
    Ok(VerifyOtpIn(login.username, otp))
  }

  /** A parsed OTP is never negative and an int OTP is taken as it is; the username is an e-mail
      address. */
  lemma ParseVerifyOtpSound(values: Attrs)
    requires ParseVerifyOtp(values).Ok?
    ensures var r := ParseVerifyOtp(values).value;
            r.otp >= 0 && EmailLanguage(r.username) && (values["otp"].Int? ==> r.otp == values["otp"].i)
  {
    assert VerifyOtpValidate(values).Ok?;
    assert "otp" in values;
    var v := values["otp"];
    if v.Str? {
      assert PyStr(v) == v.s;
      assert !IsDigit('-') && !IsSpace('-');
      assert v.s != [] && v.s[0] != '-';
    }
  }

  /** A string e-mail username of at most 254 characters and a natural int OTP are parsed, to the
      lower-cased username and that OTP. */
  lemma ParseVerifyOtpComplete(values: Attrs, n: nat)
    requires "username" in values && values["username"].Str?
    requires EmailLanguage(values["username"].s) && |values["username"].s| <= 254
    requires "otp" in values && values["otp"] == Int(n)
    ensures ParseVerifyOtp(values) == Ok(VerifyOtpIn(Lower(values["username"].s), n))
  {
    VerifyOtpNoLengthCheck(values, n);
    assert values["otp" := Int(n)] == values;
  }

  /** A reset request of a string e-mail username of at most 254 characters, a non-blank password
      of 8 to 15 characters with an equal confirmation, and an OTP of six ASCII digits is parsed,
      as given but for the lower-cased username. */
  lemma ParseResetPwdComplete(values: Attrs)
    requires "username" in values && values["username"].Str?
    requires EmailLanguage(values["username"].s) && |values["username"].s| <= 254
    requires "password" in values && values["password"].Str?
    requires !IsBlank(values["password"].s) && 8 <= |values["password"].s| <= 15
    requires "confirm_password" in values && values["confirm_password"] == values["password"]
    requires "otp" in values && values["otp"].Str? && |values["otp"].s| == 6 && AllDigits(values["otp"].s)
    ensures ParseResetPwd(values)
            == Ok(ResetPwdIn(Lower(values["username"].s), values["password"].s, values["otp"].s, values["password"].s))
  {
    ResetValidateMatch(values);
  }

  /** `LogOutIn`: a present refresh token, as a string. */
  function ParseLogOut(values: Attrs): (r: Result<LogOutIn>)
    ensures r.Ok? <==> "refresh_token" in values && values["refresh_token"].Str? && !IsBlank(values["refresh_token"].s)
    ensures r.Ok? ==> r.value.refreshToken == values["refresh_token"].s
  {
    var _ :- LogoutValidate(values);
    var token :- StrField(values, "refresh_token");
    Ok(LogOutIn(token))
  }

  /** `ChangePasswordIn`: the change-password check, then three string fields. */
  function ParseChangePassword(values: Attrs): (r: Result<ChangePasswordIn>)
    ensures r.Ok? ==> ChangeValidate(values).Ok?
  {
    var _ :- ChangeValidate(values);
    var oldPassword :- StrField(values, "old_password");
    var password :- StrField(values, "password");
    var confirm :- StrField(values, "confirm_password");
    Ok(ChangePasswordIn(oldPassword, password, confirm))
  }

  /** A parsed change-password request has a non-blank old password, a new password of letters
      and digits with a digit, 8 to 15 long, and an equal confirmation. */
  lemma ParseChangePasswordSound(values: Attrs)
    requires ParseChangePassword(values).Ok?
    ensures var r := ParseChangePassword(values).value;
            NewPasswordShape(Str(r.password)) && r.confirmPassword == r.password && !IsBlank(r.oldPassword)
  {
    ChangeValidateSound(values);
  }

  /** Every well-formed string request is parsed. */
  lemma ParseChangePasswordComplete(values: Attrs)
    requires Present(Get(values, "old_password")) && Get(values, "old_password").Str?
    requires NewPasswordShape(Get(values, "password")) && Get(values, "confirm_password") == Get(values, "password")
    ensures ParseChangePassword(values).Ok?
  {
    ChangeValidateComplete(values);
  }

  /** Lower-casing maps the class `[\w\.-]` into itself and keeps '@' and '+'. */
  lemma LowerKeepsEmail(s: string)
    requires EmailLanguage(s)
    ensures EmailLanguage(Lower(s))
  {
    var a: string, p: string, b: string, d: string :| (p == "" || p == "+") && a != [] && b != [] && d != []
      && AllEmailChars(a) && AllEmailChars(b) && AllEmailChars(d) && s == a + p + b + "@" + d;
    LowerEmailParts(a, p, b, d);
    LowerKeepsEmailChars(a);
    LowerKeepsEmailChars(b);
    LowerKeepsEmailChars(d);
  }

  /** Lower-casing an address works part by part, leaving the '+' and the '@'. */
  lemma LowerEmailParts(a: string, p: string, b: string, d: string)
    requires p == "" || p == "+"
    ensures Lower(a + p + b + "@" + d) == Lower(a) + p + Lower(b) + "@" + Lower(d)
  {
    LowerConcat(a, p + b + "@" + d);
    LowerConcat(p, b + "@" + d);
    LowerConcat(b, "@" + d);
    LowerConcat("@", d);
    assert Lower(p) == p && Lower("@") == "@";
    assert (a + p + b + "@" + d) == a + (p + (b + ("@" + d)));
    assert Lower(a) + (p + (Lower(b) + ("@" + Lower(d)))) == Lower(a) + p + Lower(b) + "@" + Lower(d);
  }

  lemma LowerConcat(x: string, y: string)
    ensures Lower(x + y) == Lower(x) + Lower(y)
  {
  }

  lemma LowerKeepsEmailChars(x: string)
    requires AllEmailChars(x)
    ensures AllEmailChars(Lower(x)) && |Lower(x)| == |x|
  {
  }
}
