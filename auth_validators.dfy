/** The request validators of `custom_validations/auth.py`: compositions of the field validators
    that either raise or hand the request values back unchanged. `values` is what the schema's
    "before" validator receives; a missing attribute reads as None. */
module AuthValidators {
  import opened Wrappers
  import opened Text
  import opened Values
  import opened Validators

  /** A value `required_field` lets through that is nevertheless falsy (False, 0, []), so the
      checks guarded by `if value:` are skipped for it. */
  predicate FalsyPresent(v: Value)
  {
    !Truthy(v) && !v.Null? && !v.Str?
  }

  /** Present: neither None nor a blank string. */
  predicate Present(v: Value)
  {
    !v.Null? && !(v.Str? && IsBlank(v.s))
  }

  /** A username `validate_email` accepts as required. */
  ghost predicate AcceptedEmail(v: Value)
  {
    FalsyPresent(v) || (v.Str? && EmailLanguage(v.s) && |v.s| <= 254)
  }

  function OutcomeToResult(o: Outcome, values: Attrs): (r: Result<Attrs>)
    ensures r.Ok? <==> o == Pass
    ensures r.Ok? ==> r.value == values
    ensures r.Err? ==> r.error == o.error
  {
    if o.Fail? then Err(o.error) else Ok(values)
  }

  /** `login_validate_attributes`: the username must be an acceptable e-mail address. */
  function LoginValidate(values: Attrs): (r: Result<Attrs>)
    ensures r.Ok? <==> AcceptedEmail(Get(values, "username"))
    ensures r.Ok? ==> r.value == values
  {
    OutcomeToResult(ValidateEmail(Get(values, "username"), true), values)
  }

  /** `admin_login_validate_attributes`: the login check, then a required password of 8 to 15
      characters. No character class is demanded of the password. */
  function AdminLoginValidate(values: Attrs): (r: Result<Attrs>)
    ensures LoginValidate(values).Err? ==> r == LoginValidate(values)
    ensures r.Ok? ==> LoginValidate(values).Ok? && r.value == values
    ensures r.Ok? ==> Present(Get(values, "password"))
    ensures r.Ok? && Get(values, "password").Str? ==> 8 <= |Get(values, "password").s| <= 15
    ensures (LoginValidate(values).Ok? && Get(values, "password").Str? && !IsBlank(Get(values, "password").s)
             && 8 <= |Get(values, "password").s| <= 15) ==> r.Ok?
  {
    var login := LoginValidate(values);
    if login.Err? then login
    else OutcomeToResult(ValidateLength(Get(values, "password"), "Password", true, 8, 15), values)
  }

  /** `varify_otp_in_validate_attributes`: only `str(otp)` being digits and whitespace is checked. */
  function VerifyOtpValidate(values: Attrs): (r: Result<Attrs>)
    ensures r.Ok? <==> !IsBlank(PyStr(Get(values, "otp"))) && NumericText(PyStr(Get(values, "otp")), false)
    ensures r.Ok? ==> r.value == values
  {
    var t := PyStr(Get(values, "otp"));
    OutcomeToResult(IsNumericOnly(Str(t), "OTP", true, false), values)
  }

  /** Any natural number passes as an OTP, whatever its number of digits; a missing one does not. */
  lemma VerifyOtpNoLengthCheck(values: Attrs, n: nat)
    ensures VerifyOtpValidate(values["otp" := Int(n)]).Ok?
    ensures "otp" !in values ==> VerifyOtpValidate(values).Err?
  {
    NatToStringRoundTrip(n);
    var t := PyStr(Int(n));
    assert t == NatToString(n);
    assert !IsSpace(t[0]);
    assert Get(values["otp" := Int(n)], "otp") == Int(n);
  }

  /** `logout_validate_attributes`: the refresh token must be present. */
  function LogoutValidate(values: Attrs): (r: Result<Attrs>)
    ensures r.Ok? <==> Present(Get(values, "refresh_token"))
    ensures r.Err? ==> r.error == Unprocessable("Refresh Token is required.")
    ensures r.Ok? ==> r.value == values
  {
    OutcomeToResult(RequiredField(Get(values, "refresh_token"), "Refresh Token"), values)
  }

  /** `reset_pwd_validate_attributes`: the admin-login checks, a numeric OTP of exactly six
      characters, a present confirmation and equal passwords, in that order. */
  function ResetValidate(values: Attrs): (r: Result<Attrs>)
    ensures r.Ok? ==> r.value == values
  {
    var admin := AdminLoginValidate(values);
    var otp := Get(values, "otp");
    var password := Get(values, "password");
    var confirm := Get(values, "confirm_password");
    if admin.Err? then admin
    else
      var checks := Then(IsNumericOnly(Str(PyStr(otp)), "OTP", true, false),
                     Then(ValidateLength(otp, "OTP", true, 6, 6),
                     RequiredField(confirm, "Confirm Password")));
      if checks.Fail? then Err(checks.error)
      else if !PyEq(password, confirm) then Err(Unprocessable("Password does not match."))
      else Ok(values)
  }

  /** The admin-login checks come first: their refusal is the answer, and a request that passes
      passed them. */
  lemma ResetValidateAdminFirst(values: Attrs)
    ensures AdminLoginValidate(values).Err? ==> ResetValidate(values) == AdminLoginValidate(values)
    ensures ResetValidate(values).Ok? ==> AdminLoginValidate(values).Ok?
  {
  }

  /** An accepted request has a six-character numeric OTP (or the int 0, which is numeric and,
      being falsy, skips the length check), a present confirmation, and equal passwords. */
  lemma ResetValidateSound(values: Attrs)
    requires ResetValidate(values).Ok?
    ensures (Get(values, "otp").Str? && |Get(values, "otp").s| == 6 && NumericText(Get(values, "otp").s, false))
            || Get(values, "otp") == Int(0)
    ensures Present(Get(values, "confirm_password")) && PyEq(Get(values, "password"), Get(values, "confirm_password"))
  {
    var otp := Get(values, "otp");
    if otp.Str? {
      assert PyStr(otp) == otp.s;
    }
  }

  /** With the earlier checks passed, different passwords are refused with their own message,
      and equal ones are accepted. */
  lemma ResetValidateMatch(values: Attrs)
    requires AdminLoginValidate(values).Ok? && Present(Get(values, "confirm_password"))
    requires Get(values, "otp").Str? && |Get(values, "otp").s| == 6 && AllDigits(Get(values, "otp").s)
    ensures !PyEq(Get(values, "password"), Get(values, "confirm_password"))
            ==> ResetValidate(values) == Err(Unprocessable("Password does not match."))
    ensures Get(values, "password") == Get(values, "confirm_password") ==> ResetValidate(values) == Ok(values)
  {
    var otp := Get(values, "otp");
    assert PyStr(otp) == otp.s;
    assert !IsSpace(otp.s[0]);
  }

  /** `change_pwd_validate_attributes`: old password present; new password alphanumeric without
      spaces, with a digit, 8 to 15 long; confirmation present and equal. */
  function ChangeValidate(values: Attrs): (r: Result<Attrs>)
    ensures r.Ok? ==> r.value == values
  {
    var pwd := Get(values, "password");
    var confirm := Get(values, "confirm_password");
    OutcomeToResult(
      Then(RequiredField(Get(values, "old_password"), "Old Password"),
      Then(IsAlphanumeric(pwd, "New Password", true, true),
      Then(ValidateLength(pwd, "New Password", true, 8, 15),
      Then(RequiredField(confirm, "Confirm Password"),
      PwdMatch(pwd, confirm))))), values)
  }

  /** The new password the change-password check accepts when it is a string. */
  predicate NewPasswordShape(v: Value)
  {
    v.Str? && 8 <= |v.s| <= 15
    && (forall k :: 0 <= k < |v.s| ==> IsAsciiLetter(v.s[k]) || IsDigit(v.s[k]))
    && exists k :: 0 <= k < |v.s| && IsDigit(v.s[k])
  }

  /** A missing old password is refused first. */
  lemma ChangeValidateOldFirst(values: Attrs)
    ensures !Present(Get(values, "old_password")) ==> ChangeValidate(values) == Err(Unprocessable("Old Password is required."))
  {
  }

  /** An accepted request has an old password, a new one of the right shape (or a falsy non-string
      the checks skip), and an equal confirmation. */
  lemma ChangeValidateSound(values: Attrs)
    requires ChangeValidate(values).Ok?
    ensures Present(Get(values, "old_password"))
    ensures Present(Get(values, "confirm_password")) && PyEq(Get(values, "password"), Get(values, "confirm_password"))
    ensures FalsyPresent(Get(values, "password")) || NewPasswordShape(Get(values, "password"))
  {
    var pwd := Get(values, "password");
    if Truthy(pwd) {
      assert IsAlphanumeric(pwd, "New Password", true, true) == Pass;
      var k :| 0 <= k < |pwd.s| && IsDigit(pwd.s[k]) && '\n' !in pwd.s[..k];
      assert ValidateLength(pwd, "New Password", true, 8, 15) == Pass;
    }
  }

  /** A present old password, a well-shaped new one and an equal confirmation are accepted. */
  lemma ChangeValidateComplete(values: Attrs)
    requires Present(Get(values, "old_password")) && NewPasswordShape(Get(values, "password"))
    requires Get(values, "confirm_password") == Get(values, "password")
    ensures ChangeValidate(values) == Ok(values)
  {
    var pwd := Get(values, "password");
    var d :| 0 <= d < |pwd.s| && IsDigit(pwd.s[d]);
    AlphanumericAccepts(pwd.s, "New Password", d);
  }
}

/** `permission_service.py`: the code names of a permission request. */
module PermissionValidators {
  import opened Wrappers
  import opened Values
  import opened Validators

  /** `api_service_validate_attributes`: code names are optional, but every listed one must be an
      identifier string; a missing list reaches the iteration and raises TypeError. */
  function ApiServiceValidate(values: Attrs): (r: Result<Attrs>)
    ensures r.Ok? ==> r.value == values
    ensures Get(values, "code_names").List? ==>
              (r.Ok? <==> forall k :: 0 <= k < |Get(values, "code_names").items| ==> IsCodeName(Get(values, "code_names").items[k]))
    ensures Get(values, "code_names") == List([]) ==> r.Ok?
    ensures Get(values, "code_names").Null? ==> r.Err? && r.error.Crash?
    ensures r.Err? && r.error.Http? ==> r.error == Unprocessable("Some of code names are not valid.")
  {
    var o := ValidateCodeNames(Get(values, "code_names"), "Code name", false);
    if o.Fail? then Err(o.error) else Ok(values)
  }
}
