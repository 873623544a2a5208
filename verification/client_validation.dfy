/**
 * The browser-side form validators. Field values are strings, or `None`
 * for JavaScript's null/undefined. `parseFloat` is passed in, with `None`
 * standing for NaN.
 */
module ClientValidation {
  import opened Wrappers
  import opened Strings

  /** JavaScript's whitespace and line terminators (`\s`, and what `trim()` removes). */
  predicate IsJsSpace(c: char) {
    || c == '\t' || c == '\n' || c == '\U{B}' || c == '\U{C}' || c == '\r' || c == ' '
    || c == '\U{A0}' || c == '\U{1680}' || ('\U{2000}' <= c <= '\U{200A}')
    || c == '\U{2028}' || c == '\U{2029}' || c == '\U{202F}' || c == '\U{205F}'
    || c == '\U{3000}' || c == '\U{FEFF}'
  }

  /** `value.trim()`. */
  function JsTrim(s: string): string {
    TrimWith(s, IsJsSpace)
  }

  /** `isEmpty`: null, undefined, or a string of whitespace only. */
  predicate IsEmpty(v: Option<string>)
  {
    v.None? || JsTrim(v.value) == ""
  }

  /** `isEmpty` holds exactly for a missing value or one with no non-whitespace character. */
  lemma IsEmptyMeaning(v: Option<string>)
    ensures IsEmpty(v) <==> v.None? || forall k :: 0 <= k < |v.value| ==> IsJsSpace(v.value[k])
  {
  }

  function RequiredMessage(fieldName: string): string {
    fieldName + " is required"
  }

  /** `validateRequired`. */
  function ValidateRequired(v: Option<string>, fieldName: string): (r: Option<string>)
    ensures r.Some? <==> IsEmpty(v)
    ensures r.Some? ==> r.value == RequiredMessage(fieldName)
  {
    if IsEmpty(v) then Some(RequiredMessage(fieldName)) else None
  }

  /** A character allowed on either side of the `@`: `[^\s@]`. */
  predicate IsEmailChar(c: char) {
    !IsJsSpace(c) && c != '@'
  }

  predicate AllEmailChars(s: string) {
    forall k :: 0 <= k < |s| ==> IsEmailChar(s[k])
  }

  /** The domain half of the email regex, `[^\s@]+\.[^\s@]+`: a dot with a character on each side. */
  predicate IsEmailDomain(t: string) {
    AllEmailChars(t) && exists j :: 0 < j < |t| - 1 && t[j] == '.'
  }

  /** `/^[^\s@]+@[^\s@]+\.[^\s@]+$/` read as a description of the strings it matches. */
  ghost predicate MatchesEmailRegex(s: string) {
    exists i :: 0 < i < |s| && s[i] == '@' && AllEmailChars(s[..i]) && IsEmailDomain(s[i + 1..])
  }

  /** Position of the first `c` in `s`. */
  function IndexOf(s: string, c: char): (r: Option<nat>)
    ensures r.Some? ==> r.value < |s| && s[r.value] == c && c !in s[..r.value]
    ensures r.None? ==> c !in s
  {
    if s == [] then None
    else if s[0] == c then Some(0)
    else
      var rest := IndexOf(s[1..], c);
      if rest.Some? then
        assert s[..rest.value + 1] == [s[0]] + s[1..][..rest.value];
        Some(rest.value + 1)
      else None
  }

  /** The email regex test, by locating the single `@`. */
  function EmailPatternTest(s: string): bool
  {
    var at := IndexOf(s, '@');
    at.Some? && at.value > 0 && AllEmailChars(s[..at.value]) && IsEmailDomain(s[at.value + 1..])
  }

  /** Locating the first `@` decides the regex: the local part may not contain another one. */
  lemma EmailPatternTestIsRegex(s: string)
    ensures EmailPatternTest(s) <==> MatchesEmailRegex(s)
  {
    if MatchesEmailRegex(s) {
      var i :| 0 < i < |s| && s[i] == '@' && AllEmailChars(s[..i]) && IsEmailDomain(s[i + 1..]);
      var at := IndexOf(s, '@');
      assert at.Some?;
      assert at.value == i by {
        assert s[i] == '@';
        assert forall k :: 0 <= k < i ==> s[..i][k] == s[k];
        assert '@' !in s[..at.value];
      }
    }
  }

  /** `validateEmail`: emptiness is reported before the format. */
  function ValidateEmail(v: Option<string>): (r: Option<string>)
    ensures IsEmpty(v) ==> r == Some(RequiredMessage("Email"))
    ensures !IsEmpty(v) ==> (r.None? <==> MatchesEmailRegex(v.value))
    ensures !IsEmpty(v) && r.Some? ==> r.value == "Please enter a valid email address"
  {
    if IsEmpty(v) then Some(RequiredMessage("Email"))
    else
      EmailPatternTestIsRegex(v.value);
      if !EmailPatternTest(v.value) then Some("Please enter a valid email address") else None
  }

  /** The class `[0-9\-\+\s\(\)]` with JavaScript's `\s`. */
  predicate IsPhoneChar(c: char) {
    ('0' <= c <= '9') || c == '-' || c == '+' || IsJsSpace(c) || c == '(' || c == ')'
  }

  /** `/^[0-9\-\+\s\(\)]{7,20}$/.test(s)`: JavaScript's `$` is the very end of the input. */
  predicate PhonePatternMatches(s: string) {
    7 <= |s| <= 20 && forall k :: 0 <= k < |s| ==> IsPhoneChar(s[k])
  }

  /** `validatePhone(phone, required = true)`. */
  function ValidatePhone(v: Option<string>, required: bool): (r: Option<string>)
    ensures IsEmpty(v) ==> (r.None? <==> !required)
    ensures IsEmpty(v) && required ==> r == Some(RequiredMessage("Phone number"))
    ensures !IsEmpty(v) ==> (r.None? <==> PhonePatternMatches(v.value))
    ensures !IsEmpty(v) && r.Some? ==> r.value == "Please enter a valid phone number"
  {
    if IsEmpty(v) then (if required then Some(RequiredMessage("Phone number")) else None)
    else if !PhonePatternMatches(v.value) then Some("Please enter a valid phone number")
    else None
  }

  /** `validatePassword`: required, then at least 6 characters. */
  function ValidatePassword(v: Option<string>): (r: Option<string>)
    ensures r.None? <==> !IsEmpty(v) && |v.value| >= 6
    ensures IsEmpty(v) ==> r == Some(RequiredMessage("Password"))
    ensures !IsEmpty(v) && r.Some? ==> r.value == "Password must be at least 6 characters"
  {
    if IsEmpty(v) then Some(RequiredMessage("Password"))
    else if |v.value| < 6 then Some("Password must be at least 6 characters")
    else None
  }

  /** `validatePasswordMatch`: the confirmation is required, then must equal the password. */
  function ValidatePasswordMatch(password: Option<string>, confirm: Option<string>): (r: Option<string>)
    ensures IsEmpty(confirm) ==> r == Some(RequiredMessage("Confirm Password"))
    ensures !IsEmpty(confirm) ==> (r.None? <==> password == confirm)
    ensures !IsEmpty(confirm) && r.Some? ==> r.value == "Passwords do not match"
  {
    if IsEmpty(confirm) then Some(RequiredMessage("Confirm Password"))
    else if password != confirm then Some("Passwords do not match")
    else None
  }

  /** `validateName`: required, then at least two characters counted before trimming. */
  function ValidateName(v: Option<string>, fieldName: string): (r: Option<string>)
    ensures r.None? <==> !IsEmpty(v) && |v.value| >= 2
    ensures IsEmpty(v) ==> r == Some(RequiredMessage(fieldName))
    ensures !IsEmpty(v) && r.Some? ==> r.value == fieldName + " must be at least 2 characters"
  {
    if IsEmpty(v) then Some(RequiredMessage(fieldName))
    else if |v.value| < 2 then Some(fieldName + " must be at least 2 characters")
    else None
  }

  /** `validateSelect`: empty and the placeholder "0" are both unselected. */
  function ValidateSelect(v: Option<string>, fieldName: string): (r: Option<string>)
    ensures r.None? <==> !IsEmpty(v) && v.value != "0"
    ensures r.Some? ==> r.value == "Please select a " + fieldName
  {
    if IsEmpty(v) || v.value == "0" || v.value == "" then Some("Please select a " + fieldName) else None
  }

  /** Decimal digits of a natural number. */
  function NatToString(n: nat): (s: string)
    ensures |s| >= 1
    ensures forall k :: 0 <= k < |s| ==> '0' <= s[k] <= '9'
    decreases n
  {
    var d := ['0' + (n % 10) as char];
    if n < 10 then d else NatToString(n / 10) + d
  }

  /** `validateNumber(value, fieldName, min, max)` with the bounds this form uses (natural numbers). */
  function ValidateNumber(v: Option<string>, fieldName: string, min: Option<nat>, max: Option<nat>,
                          parseFloat: string -> Option<real>): (r: Option<string>)
    ensures IsEmpty(v) ==> r == Some(RequiredMessage(fieldName))
    ensures r.None? <==>
      && !IsEmpty(v)
      && parseFloat(v.value).Some?
      && (min.Some? ==> parseFloat(v.value).value >= min.value as real)
      && (max.Some? ==> parseFloat(v.value).value <= max.value as real)
  {
    if IsEmpty(v) then Some(RequiredMessage(fieldName))
    else
      var num := parseFloat(v.value);
      if num.None? then Some("Please enter a valid " + fieldName)
      else if min.Some? && num.value < min.value as real then Some(fieldName + " must be at least " + NatToString(min.value))
      else if max.Some? && num.value > max.value as real then Some(fieldName + " must not exceed " + NatToString(max.value))
      else None
  }

  /** The values of the registration form's fields. */
  datatype RegistrationForm = RegistrationForm(
    userType: string,
    fullName: string,
    email: string,
    phone: string,
    password: string,
    confirmPassword: string,
    serviceCategory: string,
    experience: string,
    hourlyRate: string)

  /** The form fields an error can be shown next to (the element ids of the form). */
  datatype Field =
    | FullName | Email | Phone | Password | ConfirmPassword | ServiceCategory | Experience | HourlyRate
  {
    /** Checked for every registration, not only for providers. */
    predicate IsCommon() {
      FullName? || Email? || Phone? || Password? || ConfirmPassword?
    }
  }

  /** An error shown next to a form field. */
  datatype FieldError = FieldError(field: Field, message: string)

  /** A form check: whether the form may be submitted, and every error shown. */
  datatype FormCheck = FormCheck(valid: bool, errors: seq<FieldError>)

  /** The error shown for `field`, if its validator returned one. */
  function Shown(field: Field, err: Option<string>): (r: seq<FieldError>)
    ensures |r| <= 1
    ensures forall e :: e in r <==> err.Some? && e == FieldError(field, err.value)
  {
    if err.Some? then [FieldError(field, err.value)] else []
  }

  /** Some error is shown for `field`. */
  predicate Flagged(errors: seq<FieldError>, field: Field) {
    exists e :: e in errors && e.field == field
  }

  lemma FlaggedConcat(a: seq<FieldError>, b: seq<FieldError>, field: Field)
    ensures Flagged(a + b, field) <==> Flagged(a, field) || Flagged(b, field)
  {
    if Flagged(a + b, field) {
      var e :| e in a + b && e.field == field;
      assert e in a || e in b;
    }
    if Flagged(b, field) {
      var e :| e in b && e.field == field;
      assert e in a + b;
    }
    if Flagged(a, field) {
      var e :| e in a && e.field == field;
      assert e in a + b;
    }
  }

  lemma FlaggedShown(shownField: Field, err: Option<string>, field: Field)
    ensures Flagged(Shown(shownField, err), field) <==> err.Some? && shownField == field
  {
    if err.Some? && shownField == field {
      assert FieldError(shownField, err.value) in Shown(shownField, err);
    }
  }

  /** The validator the registration form applies to each field, with its arguments. */
  function FieldValidator(f: RegistrationForm, field: Field, parseFloat: string -> Option<real>): Option<string>
  {
    match field
    case FullName => ValidateName(Some(f.fullName), "Full Name")
    case Email => ValidateEmail(Some(f.email))
    case Phone => ValidatePhone(Some(f.phone), true)
    case Password => ValidatePassword(Some(f.password))
    case ConfirmPassword => ValidatePasswordMatch(Some(f.password), Some(f.confirmPassword))
    case ServiceCategory => ValidateSelect(Some(f.serviceCategory), "service category")
    case Experience => ValidateNumber(Some(f.experience), "Experience", Some(0), Some(50), parseFloat)
    case HourlyRate => ValidateNumber(Some(f.hourlyRate), "Hourly Rate", Some(1), None, parseFloat)
  }

  /** The errors of the given fields' validators, in the order given. */
  function ErrorsOf(f: RegistrationForm, fields: seq<Field>, parseFloat: string -> Option<real>): (r: seq<FieldError>)
    ensures forall g :: Flagged(r, g) <==> g in fields && FieldValidator(f, g, parseFloat).Some?
  {
    if fields == [] then []
    else
      var head := Shown(fields[0], FieldValidator(f, fields[0], parseFloat));
      var rest := ErrorsOf(f, fields[1..], parseFloat);
      assert forall g :: Flagged(head + rest, g) <==> Flagged(head, g) || Flagged(rest, g) by {
        forall g { FlaggedConcat(head, rest, g); }
      }
      assert forall g :: Flagged(head, g) <==> fields[0] == g && FieldValidator(f, g, parseFloat).Some? by {
        forall g { FlaggedShown(fields[0], FieldValidator(f, fields[0], parseFloat), g); }
      }
      assert forall g :: g in fields <==> g == fields[0] || g in fields[1..];
      head + rest
  }

  const CommonFields: seq<Field> := [FullName, Email, Phone, Password, ConfirmPassword]
  const ProviderFields: seq<Field> := [ServiceCategory, Experience, HourlyRate]

  /**
   * `validateRegistrationForm`: every validator runs and reports its own
   * field whatever the others found (no short-circuit); the provider fields
   * are checked only when the user type is "provider"; the form is valid
   * exactly when nothing was reported.
   */
  function ValidateRegistrationForm(f: RegistrationForm, parseFloat: string -> Option<real>): (r: FormCheck)
    ensures r.valid <==> r.errors == []
    ensures forall g :: Flagged(r.errors, g) <==>
      (g.IsCommon() || f.userType == "provider") && FieldValidator(f, g, parseFloat).Some?
  {
    var fields := if f.userType == "provider" then CommonFields + ProviderFields else CommonFields;
    forall g
      ensures g in fields <==> g.IsCommon() || f.userType == "provider"
    {
      assert g.IsCommon() <==> g in CommonFields;
      assert !g.IsCommon() <==> g in ProviderFields;
    }
    var errors := ErrorsOf(f, fields, parseFloat);
    FormCheck(errors == [], errors)
  }

  /** A form that passes has a well-formed email and a password of at least 6 characters. */
  lemma RegistrationFormAccepted(f: RegistrationForm, parseFloat: string -> Option<real>)
    requires ValidateRegistrationForm(f, parseFloat).valid
    ensures MatchesEmailRegex(f.email) && |f.password| >= 6 && f.confirmPassword == f.password
  {
    AcceptedFieldPasses(f, Email, parseFloat);
    AcceptedFieldPasses(f, Password, parseFloat);
    AcceptedFieldPasses(f, ConfirmPassword, parseFloat);
    EmailFieldPasses(f, parseFloat);
    PasswordFieldPasses(f, parseFloat);
    ConfirmFieldPasses(f, parseFloat);
  }

  /** A form the browser accepts has no failing common field. */
  lemma AcceptedFieldPasses(f: RegistrationForm, g: Field, parseFloat: string -> Option<real>)
    requires ValidateRegistrationForm(f, parseFloat).valid
    requires g.IsCommon()
    ensures FieldValidator(f, g, parseFloat).None?
  {
    var r := ValidateRegistrationForm(f, parseFloat);
    assert !Flagged(r.errors, g);
  }

  /** The email validator passing means the email matches the pattern. */
  lemma EmailFieldPasses(f: RegistrationForm, parseFloat: string -> Option<real>)
    requires FieldValidator(f, Email, parseFloat).None?
    ensures MatchesEmailRegex(f.email)
  {
    assert ValidateEmail(Some(f.email)).None?;
  }

  /** The password validator passing means at least 6 characters. */
  lemma PasswordFieldPasses(f: RegistrationForm, parseFloat: string -> Option<real>)
    requires FieldValidator(f, Password, parseFloat).None?
    ensures |f.password| >= 6
  {
    assert ValidatePassword(Some(f.password)).None?;
  }

  /** The confirmation validator passing means the two passwords are equal. */
  lemma ConfirmFieldPasses(f: RegistrationForm, parseFloat: string -> Option<real>)
    requires FieldValidator(f, ConfirmPassword, parseFloat).None?
    ensures f.confirmPassword == f.password
  {
    assert ValidatePasswordMatch(Some(f.password), Some(f.confirmPassword)).None?;
  }

  /** `validateLoginForm`: email and a required password, both checked. */
  function ValidateLoginForm(email: string, password: string): (r: FormCheck)
    ensures r.valid <==> r.errors == []
    ensures Flagged(r.errors, Email) <==> ValidateEmail(Some(email)).Some?
    ensures Flagged(r.errors, Password) <==> IsEmpty(Some(password))
  {
    var a := Shown(Email, ValidateEmail(Some(email)));
    var b := Shown(Password, ValidateRequired(Some(password), "Password"));
    FlaggedConcat(a, b, Email);
    FlaggedConcat(a, b, Password);
    FlaggedShown(Email, ValidateEmail(Some(email)), Email);
    FlaggedShown(Email, ValidateEmail(Some(email)), Password);
    FlaggedShown(Password, ValidateRequired(Some(password), "Password"), Email);
    FlaggedShown(Password, ValidateRequired(Some(password), "Password"), Password);
    FormCheck(a + b == [], a + b)
  }
}
