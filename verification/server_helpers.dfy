/**
 * The shared helpers of the PHP back end: the JSON envelope, the
 * server-side field validators and the session queries.
 */
module ServerHelpers {
  import opened Wrappers
  import opened Model
  import opened Strings

  /** `sendJsonResponse($success, $message, $data = null)`: the envelope always has all three members. */
  function SendJsonResponse(success: bool, message: string, data: Data := Null): (e: Envelope)
    ensures e.success == success && e.message == message && e.data == data
  {
    Envelope(success, message, data)
  }

  /** Leaving out the data argument yields JSON null. */
  lemma EnvelopeDataDefaultsToNull(success: bool, message: string)
    ensures SendJsonResponse(success, message).data == Null
  {
  }

  /** One `if (failed) { $errors[] = message; }` step of the endpoints' collected validation. */
  function Check<E(!new)>(failed: bool, problem: E): (r: seq<E>)
    ensures r == [] <==> !failed
    ensures |r| <= 1
    ensures forall e :: e in r <==> failed && e == problem
  {
    if failed then [problem] else []
  }

  /**
   * The problems of `r` appear in the order the source checks them, none
   * twice: `rank` numbers the checks, and the ranks strictly increase.
   */
  ghost predicate InCheckOrder<E>(r: seq<E>, rank: E -> nat) {
    forall i, j :: 0 <= i < j < |r| ==> rank(r[i]) < rank(r[j])
  }

  /** Every problem of `r` comes from a check numbered below `n`. */
  ghost predicate RanksBelow<E>(r: seq<E>, rank: E -> nat, n: nat) {
    forall x :: x in r ==> rank(x) < n
  }

  /**
   * Appending the problems of checks numbered in `[n, m)` to those of checks
   * numbered below `n` keeps the check order, and all ranks stay below `m`.
   */
  lemma AppendLater<E>(a: seq<E>, b: seq<E>, rank: E -> nat, n: nat, m: nat)
    requires InCheckOrder(a, rank) && InCheckOrder(b, rank) && RanksBelow(a, rank, n)
    requires n <= m && forall y :: y in b ==> n <= rank(y) < m
    ensures InCheckOrder(a + b, rank) && RanksBelow(a + b, rank, m)
  {
    ConcatInCheckOrder(a, b, rank);
  }

  /** Appending the problems of later checks keeps the check order. */
  lemma ConcatInCheckOrder<E>(a: seq<E>, b: seq<E>, rank: E -> nat)
    requires InCheckOrder(a, rank) && InCheckOrder(b, rank)
    requires forall x, y :: x in a && y in b ==> rank(x) < rank(y)
    ensures InCheckOrder(a + b, rank)
  {
    forall i, j | 0 <= i < j < |a + b|
      ensures rank((a + b)[i]) < rank((a + b)[j])
    {
      if j < |a| {
        assert (a + b)[i] == a[i] && (a + b)[j] == a[j];
      } else if |a| <= i {
        assert (a + b)[i] == b[i - |a|] && (a + b)[j] == b[j - |a|];
      } else {
        assert (a + b)[i] == a[i] && a[i] in a;
        assert (a + b)[j] == b[j - |a|] && b[j - |a|] in b;
      }
    }
  }

  /** `implode(', ', $errors)`: the single message a failed validation reports. */
  function JoinErrors(errors: seq<string>): string
  {
    Implode(", ", errors)
  }

  /** `validateRequired`: an error exactly when the trimmed value is PHP-empty (which includes "0"). */
  function ValidateRequired(value: string, fieldName: string): (r: Option<string>)
    ensures r.Some? <==> PhpEmpty(PhpTrim(value))
    ensures r.Some? ==> r.value == fieldName + " is required"
  {
    if PhpEmpty(PhpTrim(value)) then Some(fieldName + " is required") else None
  }

  /** A value passes `validateRequired` iff it has a non-blank character and is not "0" once trimmed. */
  lemma ValidateRequiredAccepts(value: string, fieldName: string)
    ensures ValidateRequired(value, fieldName).None? <==>
      (exists k :: 0 <= k < |value| && !IsPhpTrimSpace(value[k])) && PhpTrim(value) != "0"
  {
  }

  /** `validateEmail`: the format check itself (`filter_var`) is the host's. */
  function ValidateEmail(host: Host, email: string): (r: Option<string>)
    ensures r.Some? <==> !host.isEmail(email)
    ensures r.Some? ==> r.value == "Invalid email format"
  {
    if !host.isEmail(email) then Some("Invalid email format") else None
  }

  /** `validatePassword`: an error exactly when shorter than 6 characters. */
  function ValidatePassword(password: string): (r: Option<string>)
    ensures r.Some? <==> |password| < 6
    ensures r.Some? ==> r.value == "Password must be at least 6 characters"
  {
    if |password| < 6 then Some("Password must be at least 6 characters") else None
  }

  /** PCRE's `\s`: space, tab, newline, vertical tab, form feed, carriage return. */
  predicate IsPcreSpace(c: char) {
    c == ' ' || c == '\t' || c == '\n' || c == '\U{B}' || c == '\U{C}' || c == '\r'
  }

  /** The class `[0-9\-\+\s\(\)]`. */
  predicate IsPhoneChar(c: char) {
    ('0' <= c <= '9') || c == '-' || c == '+' || IsPcreSpace(c) || c == '(' || c == ')'
  }

  predicate AllPhoneChars(s: string) {
    forall k :: 0 <= k < |s| ==> IsPhoneChar(s[k])
  }

  /**
   * `preg_match('/^[0-9\-\+\s\(\)]{7,20}$/', $s)`. Without the D modifier
   * PCRE's `$` also matches just before a final newline, so a 21st
   * character is accepted when it is that newline.
   */
  predicate PhonePatternMatches(s: string) {
    AllPhoneChars(s) && (7 <= |s| <= 20 || (|s| == 21 && s[20] == '\n'))
  }

  /** `validatePhone` as written: empty (including "0") passes; otherwise the pattern must match. */
  function ValidatePhone(phone: string): (r: Option<string>)
    ensures r.None? <==> PhpEmpty(phone) || PhonePatternMatches(phone)
    ensures r.Some? ==> r.value == "Invalid phone number format"
  {
    if !PhpEmpty(phone) && !PhonePatternMatches(phone) then Some("Invalid phone number format") else None
  }

  /** The 21-character string of twenty digits and a newline passes the check as written. */
  lemma PhoneAcceptsTwentyOneCharacters()
    ensures var s := "12345678901234567890\n"; |s| == 21 && ValidatePhone(s).None?
  {
    var s := "12345678901234567890\n";
    assert forall k :: 0 <= k < |s| ==> IsPhoneChar(s[k]);
  }

  /** `validatePhone` with the intended 7 to 20 character bound (the regex anchored at the very end). */
  function ValidatePhoneIntended(phone: string): (r: Option<string>)
    ensures r.None? ==> PhpEmpty(phone) || (7 <= |phone| <= 20 && AllPhoneChars(phone))
    ensures r.None? <== PhpEmpty(phone) || (7 <= |phone| <= 20 && AllPhoneChars(phone))
    ensures r.Some? ==> r.value == "Invalid phone number format"
  {
    if !PhpEmpty(phone) && !(7 <= |phone| <= 20 && AllPhoneChars(phone))
    then Some("Invalid phone number format") else None
  }

  /** The intended check agrees with the written one except on 21-character strings ending in a newline. */
  lemma PhoneChecksAgree(phone: string)
    requires |phone| != 21 || phone[20] != '\n'
    ensures ValidatePhone(phone) == ValidatePhoneIntended(phone)
  {
  }

  /** `isLoggedIn()`. */
  predicate IsLoggedIn(s: Session) {
    s.user.Some? || s.provider.Some?
  }

  /** `isUser()`: tests the user key only. */
  predicate IsUser(s: Session) {
    s.user.Some?
  }

  /** `isProvider()`: tests the provider key only. */
  predicate IsProvider(s: Session) {
    s.provider.Some?
  }

  /** `getCurrentUserId()`: the session's user id, or null. */
  function CurrentUserId(s: Session): (r: Option<int>)
    ensures r.Some? <==> IsUser(s)
    ensures r.Some? ==> r.value == s.user.value.id
  {
    if s.user.Some? then Some(s.user.value.id) else None
  }

  /** `getCurrentProviderId()`: the session's provider id, or null. */
  function CurrentProviderId(s: Session): (r: Option<int>)
    ensures r.Some? <==> IsProvider(s)
    ensures r.Some? ==> r.value == s.provider.value.id
  {
    if s.provider.Some? then Some(s.provider.value.id) else None
  }

  /** Logged in means one of the two id getters returns an id; the two kinds are independent. */
  lemma SessionQueries(s: Session)
    ensures IsLoggedIn(s) <==> IsUser(s) || IsProvider(s)
    ensures IsLoggedIn(s) <==> CurrentUserId(s).Some? || CurrentProviderId(s).Some?
    ensures IsUser(s.(provider := None)) == IsUser(s)
    ensures IsProvider(s.(user := None)) == IsProvider(s)
  {
  }
}
