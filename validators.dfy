/** The field validators of `custom_validations/base.py`. Each one either passes or raises
    an HTTP 422 whose detail names the field; a value of a kind the check cannot handle makes
    Python raise a non-HTTP exception, modelled as `Crash`. */
module Validators {
  import opened Wrappers
  import opened Text
  import opened Values

  /** `required_field`: None and whitespace-only strings are missing. */
  function RequiredField(field: Value, name: string): (o: Outcome)
    ensures o.Fail? <==> field.Null? || (field.Str? && IsBlank(field.s))
    ensures o.Fail? ==> o.error == Unprocessable(name + " is required.")
  {
    match field
    case Null => Fail(Unprocessable(name + " is required."))
    case Str(s) =>
      StripEmptyIffBlank(s);
      if Strip(s) == "" then Fail(Unprocessable(name + " is required.")) else Pass
    case _ => Pass
  }

  /** The `if is_required: required_field(...)` that opens most validators. */
  function Required(isRequired: bool, field: Value, name: string): Outcome
  {
    if isRequired then RequiredField(field, name) else Pass
  }

  /** `validate_length`. A bound of 0 stands for both 0 and None: Python ignores either. */
  function ValidateLength(v: Value, name: string, isRequired: bool, minLength: int, maxLength: int): (o: Outcome)
    ensures !isRequired && !Truthy(v) ==> o == Pass
    ensures o == Pass && Truthy(v) && maxLength != 0 ==> Len(v).Some? && Len(v).value <= maxLength
    ensures o == Pass && Truthy(v) && minLength != 0 ==> Len(v).Some? && Len(v).value >= minLength
    ensures o == Pass && isRequired ==> RequiredField(v, name) == Pass
    ensures ((!isRequired || RequiredField(v, name) == Pass) && Truthy(v) && Len(v).Some?
             && (maxLength == 0 || Len(v).value <= maxLength) && (minLength == 0 || Len(v).value >= minLength))
            ==> o == Pass
    // the upper bound is checked before the lower one
    ensures ((!isRequired || RequiredField(v, name) == Pass) && Truthy(v) && Len(v).Some?
             && maxLength != 0 && Len(v).value > maxLength)
            ==> o == Fail(Unprocessable(name + " exceeds character limit"))
    ensures ((!isRequired || RequiredField(v, name) == Pass) && Truthy(v) && Len(v).Some?
             && (maxLength == 0 || Len(v).value <= maxLength) && minLength != 0 && Len(v).value < minLength)
            ==> o == Fail(Unprocessable(name + " should have at least " + IntToString(minLength) + " character"))
  {
    Then(Required(isRequired, v, name),
      if !Truthy(v) then Pass
      else Then(
        if maxLength == 0 then Pass
        else if Len(v).None? then Fail(Crash("TypeError: object has no len()"))
        else if Len(v).value > maxLength then Fail(Unprocessable(name + " exceeds character limit"))
        else Pass,
        if minLength == 0 then Pass
        else if Len(v).None? then Fail(Crash("TypeError: object has no len()"))
        else if Len(v).value < minLength then Fail(Unprocessable(name + " should have at least " + IntToString(minLength) + " character"))
        else Pass))
  }

  /** The text matches `^[0-9\s]+$`, or `^\d+$` when spaces are not allowed. */
  predicate NumericText(t: string, withoutSpaces: bool)
  {
    t != [] && forall k :: 0 <= k < |t| ==> IsDigit(t[k]) || (!withoutSpaces && IsSpace(t[k]))
  }

  /** `is_numeric_only`: `str(value)` must be digits (and whitespace unless `without_spaces`). */
  function IsNumericOnly(v: Value, name: string, isRequired: bool, withoutSpaces: bool): (o: Outcome)
    ensures o == Pass && Truthy(v) ==> PyStr(v) != []
    ensures o == Pass && Truthy(v) && withoutSpaces ==> AllDigits(PyStr(v))
    ensures o == Pass && Truthy(v) ==> forall k :: 0 <= k < |PyStr(v)| ==> IsDigit(PyStr(v)[k]) || IsSpace(PyStr(v)[k])
    ensures o.Fail? && o.error.Http? && o.error.detail != name + " is required." ==>
              o.error.detail == (if withoutSpaces then "In " + name + ", enter numbers only, No spaces." else "In " + name + ", enter numbers.")
    // once the required check passes, a value is refused exactly when its text does not match
    ensures Required(isRequired, v, name) == Pass ==>
              (o == Pass <==> !Truthy(v) || NumericText(PyStr(v), withoutSpaces))
  {
    Then(Required(isRequired, v, name),
      if Truthy(v) && !NumericText(PyStr(v), withoutSpaces) then
        Fail(Unprocessable(if withoutSpaces then "In " + name + ", enter numbers only, No spaces." else "In " + name + ", enter numbers."))
      else Pass)
  }

  /** A positive integer passes the numeric check; a negative one never does. */
  lemma {:induction false} NumericOnlyOnIntegers(i: int, name: string, withoutSpaces: bool)
    ensures i > 0 ==> IsNumericOnly(Int(i), name, true, withoutSpaces) == Pass
    ensures i < 0 ==> IsNumericOnly(Int(i), name, true, withoutSpaces).Fail?
  {
    if i > 0 {
      NatToStringRoundTrip(i);
      assert PyStr(Int(i)) == NatToString(i);
    } else if i < 0 {
      assert PyStr(Int(i))[0] == '-';
    }
  }

  /** A non-blank string of digits (and whitespace, where allowed) passes, required or not. */
  lemma NumericOnlyOnDigitStrings(s: string, name: string, isRequired: bool, withoutSpaces: bool)
    requires NumericText(s, withoutSpaces) && !IsBlank(s)
    ensures IsNumericOnly(Str(s), name, isRequired, withoutSpaces) == Pass
  {
    assert PyStr(Str(s)) == s;
  }

  /** The first line of `s` (the part `.` can match) holds a digit: the look-ahead `(?=.*\d)`. */
  predicate FirstLineHasDigit(s: string)
  {
    s != [] && s[0] != '\n' && (IsDigit(s[0]) || FirstLineHasDigit(s[1..]))
  }

  /** The look-ahead scan finds a digit that no newline precedes. */
  lemma {:induction false} FirstLineHasDigitIff(s: string)
    ensures FirstLineHasDigit(s) <==> exists k :: 0 <= k < |s| && IsDigit(s[k]) && '\n' !in s[..k]
  {
    if s != [] && s[0] != '\n' && !IsDigit(s[0]) {
      FirstLineHasDigitIff(s[1..]);
      if FirstLineHasDigit(s[1..]) {
        var k :| 0 <= k < |s[1..]| && IsDigit(s[1..][k]) && '\n' !in s[1..][..k];
        assert s[..k + 1] == [s[0]] + s[1..][..k];
      } else {
        forall k | 0 <= k < |s| && IsDigit(s[k])
          ensures '\n' in s[..k]
        {
          assert k > 0;
          var t := s[1..];
          assert 0 <= k - 1 < |t| && t[k - 1] == s[k];
          assert s[..k] == [s[0]] + t[..k - 1];
        }
      }
    } else if s != [] && s[0] != '\n' {
      assert s[..0] == [];
    } else if s != [] {
      forall k | 0 <= k < |s| && IsDigit(s[k])
        ensures '\n' in s[..k]
      {
        assert s[..k][0] == '\n';
      }
    }
  }

  /** The character class `[A-Za-z0-9\s]`, or `[A-Za-z0-9]` without spaces. */
  predicate AlphanumericChar(c: char, withoutSpaces: bool)
  {
    IsAsciiLetter(c) || IsDigit(c) || (!withoutSpaces && IsSpace(c))
  }

  /** `is_alphanumeric`: `^(?=.*\d)[A-Za-z0-9\s]+$` (no `\s` when `without_spaces`). */
  function IsAlphanumeric(v: Value, name: string, isRequired: bool, withoutSpaces: bool): (o: Outcome)
    ensures o == Pass && Truthy(v) ==> v.Str? && forall k :: 0 <= k < |v.s| ==> AlphanumericChar(v.s[k], withoutSpaces)
    ensures o == Pass && Truthy(v) ==> exists k :: 0 <= k < |v.s| && IsDigit(v.s[k]) && '\n' !in v.s[..k]
    ensures Truthy(v) && !v.Str? && (!isRequired || RequiredField(v, name) == Pass) ==> o.Fail? && o.error.Crash?
  {
    Then(Required(isRequired, v, name),
      if !Truthy(v) then Pass
      else if !v.Str? then Fail(Crash("TypeError: expected string"))
      else if FirstLineHasDigit(v.s) && forall k :: 0 <= k < |v.s| ==> AlphanumericChar(v.s[k], withoutSpaces) then
        FirstLineHasDigitIff(v.s);
        Pass
      else
        Fail(Unprocessable(if withoutSpaces then "In " + name + ", alphanumeric characters only, no spaces."
                           else "In " + name + ", alphanumeric characters only.")))
  }

  /** A password made of letters and digits with at least one digit passes the no-spaces check. */
  lemma AlphanumericAccepts(s: string, name: string, d: nat)
    requires d < |s| && IsDigit(s[d])
    requires forall k :: 0 <= k < |s| ==> IsAsciiLetter(s[k]) || IsDigit(s[k])
    ensures IsAlphanumeric(Str(s), name, true, true) == Pass
  {
    assert !IsSpace(s[0]);
    assert '\n' !in s[..d];
    FirstLineHasDigitIff(s);
  }

  /** `pwd_match` */
  function PwdMatch(pwd: Value, confirm: Value): (o: Outcome)
    ensures o == Pass <==> PyEq(pwd, confirm)
    ensures o.Fail? ==> o.error == Unprocessable("Passwords do not match.")
  {
    if !PyEq(pwd, confirm) then Fail(Unprocessable("Passwords do not match.")) else Pass
  }

  /** The class `[\w\.-]` of the e-mail pattern. */
  predicate IsEmailChar(c: char) { IsWordChar(c) || c == '.' || c == '-' }

  predicate AllEmailChars(s: string)
  {
    forall k :: 0 <= k < |s| ==> IsEmailChar(s[k])
  }

  /** The position of the first `c` in `s`, or `|s|` when there is none. */
  function IndexOf(s: string, c: char): (k: nat)
    ensures k <= |s| && c !in s[..k]
    ensures k < |s| ==> s[k] == c
  {
    if s == [] then 0
    else if s[0] == c then 0
    else
      var k := IndexOf(s[1..], c);
      assert s[..k + 1] == [s[0]] + s[1..][..k];
      k + 1
  }

  /** The part before '@' in the e-mail pattern: `[\w\.-]+[+]{0,1}[\w\.-]+`. */
  predicate LocalPartMatches(l: string)
  {
    var q := IndexOf(l, '+');
    if q == |l| then AllEmailChars(l) && |l| >= 2
    else 1 <= q && q + 1 < |l| && AllEmailChars(l[..q]) && AllEmailChars(l[q + 1..])
  }

  /** `re.match(r"^[\w\.-]+[+]{0,1}[\w\.-]+@[\w\.-]+$", s)`, scanned left to right. */
  predicate EmailPatternMatches(s: string)
  {
    var k := IndexOf(s, '@');
    k < |s| && LocalPartMatches(s[..k]) && s[k + 1..] != [] && AllEmailChars(s[k + 1..])
  }

  /** The language of the e-mail pattern, stated as the regular expression reads. */
  ghost predicate EmailLanguage(s: string)
  {
    exists a: string, p: string, b: string, d: string
      {:trigger AllEmailChars(a), AllEmailChars(b), AllEmailChars(d), a + p + b + "@" + d} ::
      (p == "" || p == "+") && a != [] && b != [] && d != []
      && AllEmailChars(a) && AllEmailChars(b) && AllEmailChars(d) && s == a + p + b + "@" + d
  }

  /** The scanner accepts exactly the language of the pattern. */
  lemma EmailPatternIsLanguage(s: string)
    ensures EmailPatternMatches(s) <==> EmailLanguage(s)
  {
    if EmailPatternMatches(s) {
      EmailPatternSound(s);
    }
    if EmailLanguage(s) {
      var a: string, p: string, b: string, d: string :| (p == "" || p == "+") && a != [] && b != [] && d != []
        && AllEmailChars(a) && AllEmailChars(b) && AllEmailChars(d) && s == a + p + b + "@" + d;
      EmailPatternComplete(a, p, b, d);
    }
  }

  lemma EmailPatternSound(s: string)
    requires EmailPatternMatches(s)
    ensures EmailLanguage(s)
  {
    var k := IndexOf(s, '@');
    var l, d := s[..k], s[k + 1..];
    var q := IndexOf(l, '+');
    var a, p, b := if q == |l| then l[..1] else l[..q], if q == |l| then "" else "+", if q == |l| then l[1..] else l[q + 1..];
    assert l == a + p + b;
    assert s == l + "@" + d;
    assert AllEmailChars(a) && AllEmailChars(b) && AllEmailChars(d);
    assert s == a + p + b + "@" + d;
  }

  lemma EmailPatternComplete(a: string, p: string, b: string, d: string)
    requires (p == "" || p == "+") && a != [] && b != [] && d != []
    requires AllEmailChars(a) && AllEmailChars(b) && AllEmailChars(d)
    ensures EmailPatternMatches(a + p + b + "@" + d)
  {
    var s := a + p + b + "@" + d;
    var l := a + p + b;
    assert forall k :: 0 <= k < |l| ==> l[k] == '+' || IsEmailChar(l[k]);
    assert s[..|l|] == l && s[|l|] == '@';
    IndexOfFirst(s, '@', |l|);
    assert s[|l| + 1..] == d;
    if p == "" {
      assert forall k :: 0 <= k < |l| ==> IsEmailChar(l[k]);
      IndexOfAbsent(l, '+');
    } else {
      assert l[..|a|] == a && l[|a|] == '+';
      IndexOfFirst(l, '+', |a|);
      assert l[|a| + 1..] == b;
    }
  }

  lemma IndexOfFirst(s: string, c: char, k: nat)
    requires k < |s| && s[k] == c && c !in s[..k]
    ensures IndexOf(s, c) == k
  {
    var j := IndexOf(s, c);
    forall i | 0 <= i < k ensures s[i] != c {
      assert s[i] == s[..k][i];
    }
    forall i | 0 <= i < j ensures s[i] != c {
      assert s[i] == s[..j][i];
    }
  }

  lemma IndexOfAbsent(s: string, c: char)
    requires c !in s
    ensures IndexOf(s, c) == |s|
  {
  }

  /** `validate_email`: the pattern is checked first, then the length limit of 254. */
  function ValidateEmail(v: Value, isRequired: bool): (o: Outcome)
    ensures o == Pass && Truthy(v) ==> v.Str? && EmailLanguage(v.s) && |v.s| <= 254
    ensures Truthy(v) && v.Str? && !EmailPatternMatches(v.s) && (!isRequired || RequiredField(v, "Email") == Pass)
            ==> o == Fail(Unprocessable("Invalid email input."))
    ensures o == Fail(Unprocessable("Email address is too long. It should be 254 characters or less."))
            ==> v.Str? && EmailLanguage(v.s) && |v.s| > 254
    ensures v.Str? && EmailLanguage(v.s) && |v.s| <= 254 ==> o == Pass
  {
    if v.Str? then
      EmailPatternIsLanguage(v.s);
      if EmailPatternMatches(v.s) then
        EmailNotBlank(v.s);
        Then(Required(isRequired, v, "Email"), EmailChecks(v))
      else Then(Required(isRequired, v, "Email"), EmailChecks(v))
    else Then(Required(isRequired, v, "Email"), EmailChecks(v))
  }

  /** `validate_email` after its required-field check. */
  function EmailChecks(v: Value): Outcome
  {
    if !Truthy(v) then Pass
    else if !v.Str? then Fail(Crash("TypeError: expected string"))
    else if !EmailPatternMatches(v.s) then Fail(Unprocessable("Invalid email input."))
    else if |v.s| > 254 then Fail(Unprocessable("Email address is too long. It should be 254 characters or less."))
    else Pass
  }

  /** A matching address holds an '@', so it is not blank. */
  lemma EmailNotBlank(s: string)
    requires EmailPatternMatches(s)
    ensures s != [] && !IsBlank(s)
  {
    assert !IsSpace(s[IndexOf(s, '@')]);
  }

  /** An address that passes has at least two characters before its one '@'. */
  lemma EmailHasTwoLocalChars(s: string)
    requires EmailPatternMatches(s)
    ensures IndexOf(s, '@') >= 2 && '@' !in s[IndexOf(s, '@') + 1..]
  {
    var k := IndexOf(s, '@');
    assert forall j :: k + 1 <= j < |s| ==> s[j] == s[k + 1..][j - k - 1];
  }

  /** The digits of an `int()` literal: digits, with single underscores between them. */
  predicate DigitGroups(b: string)
  {
    b != [] && IsDigit(b[0]) && IsDigit(b[|b| - 1])
    && forall k :: 0 <= k < |b| ==> IsDigit(b[k]) || (b[k] == '_' && k + 1 < |b| && IsDigit(b[k + 1]))
  }

  /** `int(s)` succeeds: surrounding whitespace, an optional sign, then digit groups. */
  predicate IntLiteral(s: string)
  {
    var u := Strip(s);
    if u != [] && (u[0] == '+' || u[0] == '-') then DigitGroups(u[1..]) else DigitGroups(u)
  }

  /** `int(v)` succeeds. */
  predicate IntConvertible(v: Value)
  {
    IsPyInt(v) || (v.Str? && IntLiteral(v.s))
  }

  /** Two positions hold Python-equal values. */
  predicate HasDuplicates(xs: seq<Value>)
  {
    exists i, j :: 0 <= i < j < |xs| && PyEq(xs[i], xs[j])
  }

  /** `validate_int_list`: a list of `int()`-convertible elements without repeated values. */
  function ValidateIntList(v: Value, name: string, isRequired: bool): (o: Outcome)
    ensures o == Pass && Truthy(v) ==> v.List? && (forall k :: 0 <= k < |v.items| ==> IntConvertible(v.items[k]))
    ensures o == Pass && Truthy(v) ==> forall i, j :: 0 <= i < j < |v.items| ==> !PyEq(v.items[i], v.items[j])
    ensures Truthy(v) && !v.List? && (!isRequired || RequiredField(v, name) == Pass)
            ==> o == Fail(Unprocessable(name + " must be a list."))
    ensures !isRequired && !Truthy(v) ==> o == Pass
    // once the required check passes, a list is accepted exactly when its items convert and
    // none repeats; a bad item is reported before a repeat
    ensures Required(isRequired, v, name) == Pass && Truthy(v) && v.List? ==>
              (o == Pass <==> (forall k :: 0 <= k < |v.items| ==> IntConvertible(v.items[k])) && !HasDuplicates(v.items))
    ensures Required(isRequired, v, name) == Pass && Truthy(v) && v.List?
            && (exists k :: 0 <= k < |v.items| && !IntConvertible(v.items[k]))
            ==> o == Fail(Unprocessable("All elements in " + name + " must be integers."))
    ensures Required(isRequired, v, name) == Pass && Truthy(v) && v.List?
            && (forall k :: 0 <= k < |v.items| ==> IntConvertible(v.items[k])) && HasDuplicates(v.items)
            ==> o == Fail(Unprocessable("Some duplicate " + name + " IDs found."))
  {
    Then(Required(isRequired, v, name),
      if !Truthy(v) then Pass
      else if !v.List? then Fail(Unprocessable(name + " must be a list."))
      else if !(forall k :: 0 <= k < |v.items| ==> IntConvertible(v.items[k])) then
        Fail(Unprocessable("All elements in " + name + " must be integers."))
      else if HasDuplicates(v.items) then Fail(Unprocessable("Some duplicate " + name + " IDs found."))
      else Pass)
  }

  /** A list holding 1 and True repeats a value: Python's `set` counts them once. */
  lemma IntListOneAndTrue(name: string)
    ensures ValidateIntList(List([Int(1), Bool(true)]), name, true) == Fail(Unprocessable("Some duplicate " + name + " IDs found."))
  {
    assert PyEq(List([Int(1), Bool(true)]).items[0], List([Int(1), Bool(true)]).items[1]);
  }

  /** `validate_bool_type`: the strings "true", "1", "True" read as True, "False", "false", "0" as
      False; a real bool or a falsy value gives None (the function falls off its end). */
  function ValidateBoolType(v: Value, name: string, isRequired: bool): (r: Result<Option<bool>>)
    ensures r == Ok(Some(true)) <==> (Required(isRequired, v, name) == Pass && v in [Str("true"), Str("1"), Str("True")])
    ensures r == Ok(Some(false)) <==> (Required(isRequired, v, name) == Pass && v in [Str("False"), Str("false"), Str("0")])
    ensures r.Err? && r.error != Unprocessable(name + " is required.") ==> r.error == Unprocessable(name + " field should be boolean.")
    ensures v.Bool? ==> r == Ok(None)
  {
    var req := Required(isRequired, v, name);
    if req.Fail? then Err(req.error)
    else if !Truthy(v) || v.Bool? then Ok(None)
    else if PyEq(v, Str("true")) || PyEq(v, Str("1")) || PyEq(v, Str("True")) then Ok(Some(true))
    else if PyEq(v, Str("False")) || PyEq(v, Str("false")) || PyEq(v, Str("0")) then Ok(Some(false))
    else Err(Unprocessable(name + " field should be boolean."))
  }

  /** `re.sub(r"\s", "", s)` */
  function RemoveSpaces(s: string): (r: string)
    ensures forall k :: 0 <= k < |r| ==> !IsSpace(r[k])
    ensures |r| <= |s|
  {
    if s == [] then [] else (if IsSpace(s[0]) then [] else [s[0]]) + RemoveSpaces(s[1..])
  }

  /** Removing whitespace keeps every other character: a digit survives it. */
  lemma {:induction false} RemoveSpacesKeeps(s: string, k: nat)
    requires k < |s| && !IsSpace(s[k])
    ensures s[k] in RemoveSpaces(s)
  {
    if k > 0 {
      RemoveSpacesKeeps(s[1..], k - 1);
    }
  }

  /** Removing whitespace adds no character. */
  lemma {:induction false} RemoveSpacesFrom(s: string)
    ensures forall c :: c in RemoveSpaces(s) ==> c in s
  {
    if s != [] {
      RemoveSpacesFrom(s[1..]);
      assert RemoveSpaces(s) == (if IsSpace(s[0]) then [] else [s[0]]) + RemoveSpaces(s[1..]);
    }
  }

  /** `validate_contact_number`: once whitespace is removed, only digits remain, at least one. */
  function ValidateContactNumber(v: Value, name: string, isRequired: bool): (o: Outcome)
    ensures o == Pass && Truthy(v) ==> v.Str? && RemoveSpaces(v.s) != [] && AllDigits(RemoveSpaces(v.s))
    ensures o == Pass && Truthy(v) ==> forall k :: 0 <= k < |v.s| ==> IsDigit(v.s[k]) || IsSpace(v.s[k])
    ensures !isRequired && !Truthy(v) ==> o == Pass
    // once the required check passes, a string is accepted exactly when whitespace removal
    // leaves digits only, at least one; `re.sub` on a non-string raises
    ensures Required(isRequired, v, name) == Pass && Truthy(v) && v.Str? ==>
              (o == Pass <==> RemoveSpaces(v.s) != [] && AllDigits(RemoveSpaces(v.s)))
    ensures Required(isRequired, v, name) == Pass && Truthy(v) && v.Str? && o.Fail? ==>
              o.error == Unprocessable("Invalid " + name + " format.")
    ensures Truthy(v) && !v.Str? ==> o.Fail? && o.error.Crash?
  {
    Then(Required(isRequired, v, name),
      if !Truthy(v) then Pass
      else if !v.Str? then Fail(Crash("TypeError: expected string"))
      else if RemoveSpaces(v.s) != [] && AllDigits(RemoveSpaces(v.s)) then
        assert forall k :: 0 <= k < |v.s| && !IsSpace(v.s[k]) ==> IsDigit(v.s[k]) by {
          forall k | 0 <= k < |v.s| && !IsSpace(v.s[k]) ensures IsDigit(v.s[k]) {
            RemoveSpacesKeeps(v.s, k);
          }
        }
        Pass
      else Fail(Unprocessable("Invalid " + name + " format.")))
  }

  /** A string of digits and whitespace holding at least one digit passes, required or not. */
  lemma ContactNumberAccepts(s: string, name: string, isRequired: bool)
    requires forall k :: 0 <= k < |s| ==> IsDigit(s[k]) || IsSpace(s[k])
    requires exists k :: 0 <= k < |s| && IsDigit(s[k])
    ensures ValidateContactNumber(Str(s), name, isRequired) == Pass
  {
    var k :| 0 <= k < |s| && IsDigit(s[k]);
    RemoveSpacesKeeps(s, k);
    RemoveSpacesFrom(s);
    var r := RemoveSpaces(s);
    assert r != [];
    forall j | 0 <= j < |r| ensures IsDigit(r[j]) {
      assert r[j] in s && !IsSpace(r[j]);
    }
    assert !IsBlank(s);
  }

  /** The texts of a split that are not empty, as string values. */
  function NonEmptyPieces(parts: seq<string>): (r: seq<Value>)
    ensures forall k :: 0 <= k < |r| ==> r[k].Str? && r[k].s != []
  {
    if parts == [] then []
    else (if parts[0] == "" then [] else [Str(parts[0])]) + NonEmptyPieces(parts[1..])
  }

  /** The elements that are not the empty string, in order. */
  function DropEmpty(xs: seq<Value>): (r: seq<Value>)
    ensures forall k :: 0 <= k < |r| ==> r[k] != Str("")
    ensures forall v :: v in r <==> v in xs && v != Str("")
  {
    if xs == [] then []
    else (if PyEq(xs[0], Str("")) then [] else [xs[0]]) + DropEmpty(xs[1..])
  }

  /** `split_list`. A single element holding a comma is split on commas; otherwise empty strings
      are dropped. A single element on which `"," in x` or `x.split` raises is returned as given. */
  function SplitList(xs: seq<Value>): (r: seq<Value>)
    ensures forall k :: 0 <= k < |r| ==> r[k] != Str("")
    ensures |xs| != 1 ==> forall v :: v in r <==> v in xs && v != Str("")
  {
    if |xs| == 1 && xs[0].Str? && Contains(xs[0].s, ",") then NonEmptyPieces(SplitOn(xs[0].s, ','))
    else if |xs| == 1 && !xs[0].Str? && !xs[0].List? then xs
    else if |xs| == 1 && xs[0].List? && exists k :: 0 <= k < |xs[0].items| && PyEq(xs[0].items[k], Str(",")) then xs
    else DropEmpty(xs)
  }

  /** Concatenated texts of a list of string values. */
  function Texts(vs: seq<Value>): string
    requires forall k :: 0 <= k < |vs| ==> vs[k].Str?
  {
    if vs == [] then [] else vs[0].s + Texts(vs[1..])
  }

  lemma {:induction false} NonEmptyPiecesTexts(parts: seq<string>)
    ensures Texts(NonEmptyPieces(parts)) == Concat(parts)
  {
    if parts != [] {
      NonEmptyPiecesTexts(parts[1..]);
      var rest := NonEmptyPieces(parts[1..]);
      if parts[0] != "" {
        assert NonEmptyPieces(parts) == [Str(parts[0])] + rest;
        assert ([Str(parts[0])] + rest)[1..] == rest;
      } else {
        assert NonEmptyPieces(parts) == rest;
      }
    }
  }

  /** Splitting "a,,b" style input: the pieces are non-empty, free of commas, and together hold
      every other character of the text, in order. */
  lemma SplitListPieces(s: string)
    requires Contains(s, ",")
    ensures forall k :: 0 <= k < |SplitList([Str(s)])| ==>
              (SplitList([Str(s)])[k].Str? && SplitList([Str(s)])[k].s != [] && ',' !in SplitList([Str(s)])[k].s)
    ensures Texts(SplitList([Str(s)])) == Without(s, ',')
  {
    SplitJoinRoundTrip(s, ',');
    SplitConcat(s, ',');
    NonEmptyPiecesTexts(SplitOn(s, ','));
    NonEmptyPiecesFrom(SplitOn(s, ','));
  }

  lemma {:induction false} NonEmptyPiecesFrom(parts: seq<string>)
    ensures forall k :: 0 <= k < |NonEmptyPieces(parts)| ==> NonEmptyPieces(parts)[k].s in parts
  {
    if parts != [] {
      NonEmptyPiecesFrom(parts[1..]);
    }
  }

  /** `^[a-zA-Z_][a-zA-Z0-9_]*$` */
  predicate IsIdentifier(t: string)
  {
    t != [] && (IsAsciiLetter(t[0]) || t[0] == '_') && forall k :: 0 <= k < |t| ==> IsWordChar(t[k])
  }

  predicate IsCodeName(v: Value)
  {
    v.Str? && IsIdentifier(v.s)
  }

  /** `validate_code_names`. Iterating a string visits its characters; iterating None, a bool or an
      int raises TypeError. */
  function ValidateCodeNames(v: Value, name: string, isRequired: bool): (o: Outcome)
    ensures o == Pass ==> v.List? || v.Str?
    ensures o == Pass && v.List? ==> forall k :: 0 <= k < |v.items| ==> v.items[k].Str? && IsIdentifier(v.items[k].s)
    ensures isRequired && !Truthy(v) ==> o == Fail(Unprocessable(name + " list should have at least one entry."))
    ensures !isRequired && v.List? ==> (o == Pass <==> forall k :: 0 <= k < |v.items| ==> IsCodeName(v.items[k]))
    ensures o.Fail? && o.error.Http? && o.error.detail != name + " list should have at least one entry."
            ==> o.error.detail == "Some of code names are not valid."
  {
    if isRequired && !Truthy(v) then Fail(Unprocessable(name + " list should have at least one entry."))
    else match v
      case List(items) =>
        if forall k :: 0 <= k < |items| ==> IsCodeName(items[k]) then Pass
        else Fail(Unprocessable("Some of code names are not valid."))
      case Str(s) =>
        if forall k :: 0 <= k < |s| ==> IsIdentifier([s[k]]) then Pass
        else Fail(Unprocessable("Some of code names are not valid."))
      case _ => Fail(Crash("TypeError: object is not iterable"))
  }
}
