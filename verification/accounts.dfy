/**
 * Accounts and sessions: registration and login for both account kinds,
 * the session check, logout, and reading and editing one's own profile.
 */
module Accounts {
  import opened Wrappers
  import opened Seqs
  import opened Model
  import opened Strings
  import opened ServerHelpers
  import ClientValidation

  /** The problems registration and login report, one message each. */
  datatype AccountProblem =
    | NoFullName | NoEmail | BadEmail | NoPhone | NoPassword | ShortPassword | PasswordMismatch
    | NoServiceCategory | BadExperience | BadHourlyRate
  {
    function Message(): string {
      match this
      case NoFullName => "Full name is required"
      case NoEmail => "Email is required"
      case BadEmail => "Invalid email format"
      case NoPhone => "Phone number is required"
      case NoPassword => "Password is required"
      case ShortPassword => "Password must be at least 6 characters"
      case PasswordMismatch => "Passwords do not match"
      case NoServiceCategory => "Service category is required"
      case BadExperience => "Valid experience years is required"
      case BadHourlyRate => "Valid hourly rate is required"
    }
  }

  /** Where register and login append a problem's message: earlier checks rank lower. */
  function AccountRank(p: AccountProblem): nat {
    match p
    case NoFullName => 0
    case NoEmail => 1
    case BadEmail => 2
    case NoPhone => 3
    case NoPassword => 4
    case ShortPassword => 5
    case PasswordMismatch => 6
    case NoServiceCategory => 7
    case BadExperience => 8
    case BadHourlyRate => 9
  }

  function AccountErrorMessage(problems: seq<AccountProblem>): string {
    JoinErrors(seq(|problems|, i requires 0 <= i < |problems| => problems[i].Message()))
  }

  /** `sanitizeInput($_POST['userType'] ?? 'user')`. */
  function AccountType(host: Host, req: Request): string {
    host.sanitize(ParamOr(req, "userType", "user"))
  }

  /** The table an account type selects: `provider` means providers, anything else means users. */
  function KindOf(accountType: string): (k: Kind)
    ensures k == ProviderKind <==> accountType == "provider"
  {
    if accountType == "provider" then ProviderKind else UserKind
  }

  /** The password exactly as posted (it is never sanitized). */
  function Password(req: Request): string { ParamOr(req, "password", "") }

  /** The email check shared by registration and login: required, then well-formed. */
  function EmailProblems(host: Host, email: string): (errors: seq<AccountProblem>)
    ensures NoEmail in errors <==> PhpEmpty(email)
    ensures BadEmail in errors <==> !PhpEmpty(email) && !host.isEmail(email)
    ensures forall e :: e in errors ==> e == NoEmail || e == BadEmail
    ensures |errors| <= 1
    ensures errors == [] <==> !PhpEmpty(email) && host.isEmail(email)
    ensures InCheckOrder(errors, AccountRank)
  {
    if PhpEmpty(email) then [NoEmail] else Check(!host.isEmail(email), BadEmail)
  }

  /** The checks every registration runs: name, email, phone, password and its confirmation. */
  function CommonProblems(host: Host, req: Request): (errors: seq<AccountProblem>)
    ensures NoFullName in errors <==> PhpEmpty(TextParam(host, req, "fullName"))
    ensures NoPhone in errors <==> PhpEmpty(TextParam(host, req, "phone"))
    ensures NoPassword in errors <==> PhpEmpty(Password(req))
    ensures ShortPassword in errors <==> !PhpEmpty(Password(req)) && |Password(req)| < 6
    ensures PasswordMismatch in errors <==> Password(req) != ParamOr(req, "confirmPassword", "")
    ensures errors == EmailProblems(host, TextParam(host, req, "email")) ==>
      errors == [] || forall e :: e in errors ==> e == NoEmail || e == BadEmail
    ensures errors == [] <==>
      && !PhpEmpty(TextParam(host, req, "fullName")) && EmailProblems(host, TextParam(host, req, "email")) == []
      && !PhpEmpty(TextParam(host, req, "phone")) && !PhpEmpty(Password(req)) && |Password(req)| >= 6
      && Password(req) == ParamOr(req, "confirmPassword", "")
  {
    var pw := Password(req);
    var nameProblems := Check(PhpEmpty(TextParam(host, req, "fullName")), NoFullName);
    var emailProblems := EmailProblems(host, TextParam(host, req, "email"));
    var phoneProblems := Check(PhpEmpty(TextParam(host, req, "phone")), NoPhone);
    var passwordProblems := if PhpEmpty(pw) then [NoPassword] else Check(|pw| < 6, ShortPassword);
    var matchProblems := Check(pw != ParamOr(req, "confirmPassword", ""), PasswordMismatch);
    assert NoPassword in passwordProblems <==> PhpEmpty(pw);
    assert ShortPassword in passwordProblems <==> !PhpEmpty(pw) && |pw| < 6;
    nameProblems + emailProblems + phoneProblems + passwordProblems + matchProblems
  }

  /**
   * Registration lists the common messages in the order it runs the checks
   * (name, email, phone, password, confirmation), none twice, all ranked
   * before the provider checks.
   */
  lemma CommonProblemsInOrder(host: Host, req: Request)
    ensures InCheckOrder(CommonProblems(host, req), AccountRank)
    ensures RanksBelow(CommonProblems(host, req), AccountRank, 7)
  {
    var pw := Password(req);
    var name := Check(PhpEmpty(TextParam(host, req, "fullName")), NoFullName);
    var email := EmailProblems(host, TextParam(host, req, "email"));
    var phone := Check(PhpEmpty(TextParam(host, req, "phone")), NoPhone);
    var password := if PhpEmpty(pw) then [NoPassword] else Check(|pw| < 6, ShortPassword);
    var mismatch := Check(pw != ParamOr(req, "confirmPassword", ""), PasswordMismatch);
    CommonPiecesInOrder(name, email, phone, password, mismatch);
    assert CommonProblems(host, req) == name + email + phone + password + mismatch;
  }

  /** The five groups of common registration checks, each ranked after the one before. */
  lemma CommonPiecesInOrder(name: seq<AccountProblem>, email: seq<AccountProblem>, phone: seq<AccountProblem>,
                            password: seq<AccountProblem>, mismatch: seq<AccountProblem>)
    requires |name| <= 1 && |email| <= 1 && |phone| <= 1 && |password| <= 1 && |mismatch| <= 1
    requires forall e :: e in name ==> e == NoFullName
    requires forall e :: e in email ==> e == NoEmail || e == BadEmail
    requires forall e :: e in phone ==> e == NoPhone
    requires forall e :: e in password ==> e == NoPassword || e == ShortPassword
    requires forall e :: e in mismatch ==> e == PasswordMismatch
    ensures InCheckOrder(name + email + phone + password + mismatch, AccountRank)
    ensures RanksBelow(name + email + phone + password + mismatch, AccountRank, 7)
  {
    AppendLater([], name, AccountRank, 0, 1);
    assert [] + name == name;
    AppendLater(name, email, AccountRank, 1, 3);
    AppendLater(name + email, phone, AccountRank, 3, 4);
    AppendLater(name + email + phone, password, AccountRank, 4, 6);
    AppendLater(name + email + phone + password, mismatch, AccountRank, 6, 7);
  }

  /** The checks a provider registration adds: category, numeric experience, numeric hourly rate. */
  function ProviderProblems(host: Host, req: Request): (errors: seq<AccountProblem>)
    ensures NoServiceCategory in errors <==> PhpEmpty(TextParam(host, req, "serviceCategory"))
    ensures var e := TextParam(host, req, "experience"); BadExperience in errors <==> e == "" || !host.isNumeric(e)
    ensures var h := TextParam(host, req, "hourlyRate"); BadHourlyRate in errors <==> PhpEmpty(h) || !host.isNumeric(h)
    ensures errors == [] <==>
      && !PhpEmpty(TextParam(host, req, "serviceCategory"))
      && TextParam(host, req, "experience") != "" && host.isNumeric(TextParam(host, req, "experience"))
      && !PhpEmpty(TextParam(host, req, "hourlyRate")) && host.isNumeric(TextParam(host, req, "hourlyRate"))
  {
    var experience, rate := TextParam(host, req, "experience"), TextParam(host, req, "hourlyRate");
    var category := Check(PhpEmpty(TextParam(host, req, "serviceCategory")), NoServiceCategory);
    var years := Check(experience == "" || !host.isNumeric(experience), BadExperience);
    var hourly := Check(PhpEmpty(rate) || !host.isNumeric(rate), BadHourlyRate);
    category + years + hourly
  }

  /**
   * A provider registration lists the provider messages in the order it runs
   * the checks (category, experience, hourly rate), none twice, all ranked
   * after the common checks.
   */
  lemma ProviderProblemsInOrder(host: Host, req: Request)
    ensures InCheckOrder(ProviderProblems(host, req), AccountRank)
    ensures forall e :: e in ProviderProblems(host, req) ==> 7 <= AccountRank(e) < 10
  {
    var experience, rate := TextParam(host, req, "experience"), TextParam(host, req, "hourlyRate");
    var category := Check(PhpEmpty(TextParam(host, req, "serviceCategory")), NoServiceCategory);
    var years := Check(experience == "" || !host.isNumeric(experience), BadExperience);
    var hourly := Check(PhpEmpty(rate) || !host.isNumeric(rate), BadHourlyRate);
    var errors := category + years + hourly;
    assert InCheckOrder(errors, AccountRank) && RanksBelow(errors, AccountRank, 10) by {
      AppendLater([], category, AccountRank, 0, 8);
      assert [] + category == category;
      AppendLater(category, years, AccountRank, 8, 9);
      AppendLater(category + years, hourly, AccountRank, 9, 10);
    }
    assert forall e :: e in errors ==> 7 <= AccountRank(e) by {
      forall e | e in errors
        ensures 7 <= AccountRank(e)
      {
        assert e in category || e in years || e in hourly;
      }
    }
    assert ProviderProblems(host, req) == errors;
  }

  /** Registration's collected validation: the common checks, then the provider checks for a provider. */
  function RegisterProblems(host: Host, req: Request): (errors: seq<AccountProblem>)
    ensures errors == [] <==>
      CommonProblems(host, req) == [] && (AccountType(host, req) == "provider" ==> ProviderProblems(host, req) == [])
    ensures AccountType(host, req) != "provider" ==> forall e :: e in errors ==> e in CommonProblems(host, req)
    ensures InCheckOrder(errors, AccountRank)
  {
    var extra := if AccountType(host, req) == "provider" then ProviderProblems(host, req) else [];
    CommonProblemsInOrder(host, req);
    ProviderProblemsInOrder(host, req);
    AppendLater(CommonProblems(host, req), extra, AccountRank, 7, 10);
    CommonProblems(host, req) + extra
  }

  /**
   * The two sides agree on passwords: a registration form the browser
   * accepts never trips the server's password, length or confirmation
   * check when the same two strings are posted.
   */
  lemma BrowserAcceptedPasswordPassesServer(host: Host, req: Request, f: ClientValidation.RegistrationForm,
                                            parseFloat: string -> Option<real>)
    requires ClientValidation.ValidateRegistrationForm(f, parseFloat).valid
    requires Password(req) == f.password && ParamOr(req, "confirmPassword", "") == f.confirmPassword
    ensures var errors := CommonProblems(host, req);
      NoPassword !in errors && ShortPassword !in errors && PasswordMismatch !in errors
  {
    ClientValidation.RegistrationFormAccepted(f, parseFloat);
  }

  /** Whether an account of that kind already uses the email. */
  predicate EmailTaken(db: Db, kind: Kind, email: string) {
    match kind
    case UserKind => exists k :: k in db.users.rows && db.users.rows[k].email == email
    case ProviderKind => exists k :: k in db.providers.rows && db.providers.rows[k].email == email
  }

  /**
   * The provider row registration inserts. The category and experience are
   * bound as text, so the INTEGER columns keep whatever SQLite's affinity
   * makes of them (REAL for "2.5", TEXT for "3abc"); the hourly rate has
   * passed `is_numeric` and is read as its number.
   */
  function NewProvider(host: Host, req: Request): (p: Provider)
    ensures p.fullName == TextParam(host, req, "fullName") && p.email == TextParam(host, req, "email")
    ensures p.passwordHash == host.hash(Password(req)) && p.phone == TextParam(host, req, "phone")
    ensures p.serviceCategoryId == Some(host.integerAffinity(TextParam(host, req, "serviceCategory")))
    ensures p.experienceYears == Some(host.integerAffinity(TextParam(host, req, "experience")))
    ensures p.hourlyRate == Some(host.toFloat(TextParam(host, req, "hourlyRate")))
    ensures p.bio == TextParam(host, req, "bio")
    ensures p.rating == 0.0 && p.totalJobs == 0 && !p.isVerified && p.createdAt == host.now
  {
    Provider(TextParam(host, req, "fullName"), TextParam(host, req, "email"), host.hash(Password(req)),
             TextParam(host, req, "phone"), Some(host.integerAffinity(TextParam(host, req, "serviceCategory"))),
             Some(host.integerAffinity(TextParam(host, req, "experience"))),
             Some(host.toFloat(TextParam(host, req, "hourlyRate"))), TextParam(host, req, "bio"),
             0.0, 0, false, host.now)
  }

  /** The user row registration inserts; the address is kept only when the type is exactly `user`. */
  function NewUser(host: Host, req: Request): (u: User)
    ensures u.fullName == TextParam(host, req, "fullName") && u.email == TextParam(host, req, "email")
    ensures u.passwordHash == host.hash(Password(req)) && u.phone == TextParam(host, req, "phone")
    ensures u.address == if AccountType(host, req) == "user" then TextParam(host, req, "address") else ""
    ensures u.createdAt == host.now
  {
    User(TextParam(host, req, "fullName"), TextParam(host, req, "email"), host.hash(Password(req)),
         TextParam(host, req, "phone"),
         if AccountType(host, req) == "user" then TextParam(host, req, "address") else "", host.now)
  }

  const EmailInUse := "Email already registered. Please use a different email or login."
  const Welcome := "Registration successful! Welcome to HomeServe."

  /**
   * register: the collected validation, then the email must be new in the
   * chosen kind's table; the account is inserted with the hashed password
   * and the session is logged in as it (the other kind's identity stays).
   */
  function Register(host: Host, db: Db, s: Session, req: Request): (r: Response)
    ensures !r.envelope.success ==> r.db == db && r.session == s && r.envelope.data == Null
    ensures !req.isPost ==> r == Fail("Invalid request method", db, s)
    ensures req.isPost && RegisterProblems(host, req) != [] ==>
      r == Fail(AccountErrorMessage(RegisterProblems(host, req)), db, s)
    ensures var kind, email := KindOf(AccountType(host, req)), TextParam(host, req, "email");
      req.isPost && RegisterProblems(host, req) == [] && EmailTaken(db, kind, email) ==>
        r == Fail(EmailInUse, db, s)
    ensures r.envelope.success <==>
      req.isPost && RegisterProblems(host, req) == []
      && !EmailTaken(db, KindOf(AccountType(host, req)), TextParam(host, req, "email"))
    ensures var name, email := TextParam(host, req, "fullName"), TextParam(host, req, "email");
      r.envelope.success && KindOf(AccountType(host, req)) == ProviderKind ==>
        && r.envelope == Envelope(true, Welcome, LoggedIn(ProviderKind, db.providers.next, name))
        && r.db == db.(providers := db.providers.Insert(NewProvider(host, req)))
        && r.session == s.(provider := Some(Identity(db.providers.next, name, email)))
    ensures var name, email := TextParam(host, req, "fullName"), TextParam(host, req, "email");
      r.envelope.success && KindOf(AccountType(host, req)) == UserKind ==>
        && r.envelope == Envelope(true, Welcome, LoggedIn(UserKind, db.users.next, name))
        && r.db == db.(users := db.users.Insert(NewUser(host, req)))
        && r.session == s.(user := Some(Identity(db.users.next, name, email)))
  {
    if !req.isPost then Fail("Invalid request method", db, s)
    else
      var problems := RegisterProblems(host, req);
      if problems != [] then Fail(AccountErrorMessage(problems), db, s)
      else
        var kind, name, email := KindOf(AccountType(host, req)), TextParam(host, req, "fullName"), TextParam(host, req, "email");
        if EmailTaken(db, kind, email) then Fail(EmailInUse, db, s)
        else if kind == ProviderKind then
          var id := db.providers.next;
          Response(SendJsonResponse(true, Welcome, LoggedIn(ProviderKind, id, name)),
                   db.(providers := db.providers.Insert(NewProvider(host, req))),
                   s.(provider := Some(Identity(id, name, email))))
        else
          var id := db.users.next;
          Response(SendJsonResponse(true, Welcome, LoggedIn(UserKind, id, name)),
                   db.(users := db.users.Insert(NewUser(host, req))),
                   s.(user := Some(Identity(id, name, email))))
  }

  /** Login's collected validation: the email check, then a non-empty password. */
  function LoginProblems(host: Host, req: Request): (errors: seq<AccountProblem>)
    ensures NoPassword in errors <==> PhpEmpty(Password(req))
    ensures errors == [] <==> EmailProblems(host, TextParam(host, req, "email")) == [] && !PhpEmpty(Password(req))
    ensures InCheckOrder(errors, AccountRank)
  {
    var email := EmailProblems(host, TextParam(host, req, "email"));
    var password := Check(PhpEmpty(Password(req)), NoPassword);
    ConcatInCheckOrder(email, password, AccountRank);
    email + password
  }

  /** `SELECT ... WHERE email = ?` then `fetch()`: the first account of the kind with that email. */
  function FindAccount(db: Db, kind: Kind, email: string): (r: Option<int>)
    ensures r.Some? ==> match kind
      case UserKind => r.value in db.users.rows && db.users.rows[r.value].email == email
      case ProviderKind => r.value in db.providers.rows && db.providers.rows[r.value].email == email
    ensures r.None? && kind == UserKind ==>
      forall k :: 1 <= k < db.users.next && k in db.users.rows ==> db.users.rows[k].email != email
    ensures r.None? && kind == ProviderKind ==>
      forall k :: 1 <= k < db.providers.next && k in db.providers.rows ==> db.providers.rows[k].email != email
  {
    match kind
    case UserKind => FirstKeyWhere(db.users.rows, db.users.next, (u: User) => u.email == email)
    case ProviderKind => FirstKeyWhere(db.providers.rows, db.providers.next, (p: Provider) => p.email == email)
  }

  /** The stored name and hash of an account. */
  function AccountName(db: Db, kind: Kind, id: int): string
    requires kind == UserKind ==> id in db.users.rows
    requires kind == ProviderKind ==> id in db.providers.rows
  {
    match kind
    case UserKind => db.users.rows[id].fullName
    case ProviderKind => db.providers.rows[id].fullName
  }

  function AccountHash(db: Db, kind: Kind, id: int): string
    requires kind == UserKind ==> id in db.users.rows
    requires kind == ProviderKind ==> id in db.providers.rows
  {
    match kind
    case UserKind => db.users.rows[id].passwordHash
    case ProviderKind => db.providers.rows[id].passwordHash
  }

  /** A session logged in as exactly one account. */
  function SessionFor(kind: Kind, who: Identity): (s: Session)
    ensures kind == UserKind ==> s == Session(Some(who), None)
    ensures kind == ProviderKind ==> s == Session(None, Some(who))
  {
    match kind
    case UserKind => Session(Some(who), None)
    case ProviderKind => Session(None, Some(who))
  }

  const BadCredentials := "Invalid email or password"

  /**
   * login: the collected validation, then the account of the chosen kind
   * with that email and a password that verifies against its hash. An
   * unknown email and a wrong password get the same answer. Success
   * replaces the whole session with the one account; the database never changes.
   */
  function Login(host: Host, db: Db, s: Session, req: Request): (r: Response)
    ensures r.db == db
    ensures !r.envelope.success ==> r.session == s && r.envelope.data == Null
    ensures !req.isPost ==> r == Fail("Invalid request method", db, s)
    ensures req.isPost && LoginProblems(host, req) != [] ==>
      r == Fail(AccountErrorMessage(LoginProblems(host, req)), db, s)
    ensures var kind, email := KindOf(AccountType(host, req)), TextParam(host, req, "email");
      var found := FindAccount(db, kind, email);
      req.isPost && LoginProblems(host, req) == [] ==>
        (r.envelope.success <==> found.Some? && host.verify(Password(req), AccountHash(db, kind, found.value)))
    ensures var kind, email := KindOf(AccountType(host, req)), TextParam(host, req, "email");
      req.isPost && LoginProblems(host, req) == [] && !r.envelope.success ==> r == Fail(BadCredentials, db, s)
    ensures var kind, email := KindOf(AccountType(host, req)), TextParam(host, req, "email");
      var found := FindAccount(db, kind, email);
      r.envelope.success ==>
        && req.isPost && LoginProblems(host, req) == [] && found.Some?
        && var name := AccountName(db, kind, found.value);
        && r.envelope == Envelope(true, "Login successful!", LoggedIn(kind, found.value, name))
        && r.session == SessionFor(kind, Identity(found.value, name, email))
  {
    if !req.isPost then Fail("Invalid request method", db, s)
    else
      var problems := LoginProblems(host, req);
      if problems != [] then Fail(AccountErrorMessage(problems), db, s)
      else
        var kind, email := KindOf(AccountType(host, req)), TextParam(host, req, "email");
        match FindAccount(db, kind, email)
        case None => Fail(BadCredentials, db, s)
        case Some(id) =>
          if !host.verify(Password(req), AccountHash(db, kind, id)) then Fail(BadCredentials, db, s)
          else
            var name := AccountName(db, kind, id);
            Response(SendJsonResponse(true, "Login successful!", LoggedIn(kind, id, name)), db,
                     SessionFor(kind, Identity(id, name, email)))
  }

  /** Login does not tell an unknown email from a wrong password: both failures give the same envelope. */
  lemma LoginHidesWhichCheckFailed(host: Host, db: Db, s: Session, req: Request, other: Request)
    requires req.isPost && LoginProblems(host, req) == [] && other.isPost && LoginProblems(host, other) == []
    requires !Login(host, db, s, req).envelope.success && !Login(host, db, s, other).envelope.success
    ensures Login(host, db, s, req).envelope == Login(host, db, s, other).envelope
  {
  }

  /**
   * A registration's own fields log in: right after registering, the same
   * form posted to login succeeds as the new account, provided the
   * password verifies against its own hash.
   */
  lemma RegisterThenLogin(host: Host, db: Db, s: Session, req: Request)
    requires db.users.Valid() && db.providers.Valid()
    requires Register(host, db, s, req).envelope.success
    requires host.verify(Password(req), host.hash(Password(req)))
    ensures var r := Register(host, db, s, req);
      var l := Login(host, r.db, r.session, req);
      && l.envelope.success
      && l.envelope.data == r.envelope.data
  {
    var r := Register(host, db, s, req);
    var kind, email := KindOf(AccountType(host, req)), TextParam(host, req, "email");
    assert LoginProblems(host, req) == [];
    var found := FindAccount(r.db, kind, email);
    if kind == ProviderKind {
      var id := db.providers.next;
      assert id in r.db.providers.rows && r.db.providers.rows[id].email == email;
      assert found.Some? && found.value == id;
    } else {
      var id := db.users.next;
      assert id in r.db.users.rows && r.db.users.rows[id].email == email;
      assert found.Some? && found.value == id;
    }
  }

  /** The account an auth check reports, the user's first. */
  function CheckAuth(db: Db, s: Session): (r: Response)
    ensures r.db == db && r.session == s
    ensures r.envelope.success <==> IsLoggedIn(s)
    ensures !r.envelope.success ==> r == Fail("Not authenticated", db, s)
    ensures s.user.Some? ==>
      r.envelope == Envelope(true, "Authenticated",
                             AuthInfo(UserKind, s.user.value.id, s.user.value.name, s.user.value.email))
    ensures s.user.None? && s.provider.Some? ==>
      r.envelope == Envelope(true, "Authenticated",
                             AuthInfo(ProviderKind, s.provider.value.id, s.provider.value.name, s.provider.value.email))
  {
    if s.user.Some? then
      var u := s.user.value;
      Response(SendJsonResponse(true, "Authenticated", AuthInfo(UserKind, u.id, u.name, u.email)), db, s)
    else if s.provider.Some? then
      var p := s.provider.value;
      Response(SendJsonResponse(true, "Authenticated", AuthInfo(ProviderKind, p.id, p.name, p.email)), db, s)
    else Fail("Not authenticated", db, s)
  }

  /** logout: every session key is dropped; it always succeeds. */
  function Logout(db: Db, s: Session): (r: Response)
    ensures r.envelope.success && r.envelope.message == "Logged out successfully"
    ensures r.db == db && !IsLoggedIn(r.session)
  {
    Response(SendJsonResponse(true, "Logged out successfully"), db, EmptySession)
  }

  /** After a successful login the auth check reports the account that logged in. */
  lemma LoginThenCheckAuth(host: Host, db: Db, s: Session, req: Request)
    requires Login(host, db, s, req).envelope.success
    ensures var l := Login(host, db, s, req);
      var a := CheckAuth(l.db, l.session);
      && a.envelope.success
      && a.envelope.data.kind == l.envelope.data.kind
      && a.envelope.data.id == l.envelope.data.id
      && a.envelope.data.name == l.envelope.data.name
  {
  }

  /** After logout nothing is authenticated. */
  lemma LogoutThenCheckAuth(db: Db, s: Session)
    ensures var l := Logout(db, s);
      CheckAuth(l.db, l.session) == Fail("Not authenticated", db, EmptySession)
  {
  }

  /** `isset($params['type']) ? sanitizeInput($params['type']) : 'user'`. */
  function ProfileType(host: Host, req: Request): string {
    if "type" in req.params then host.sanitize(req.params["type"]) else "user"
  }

  /** `isset($_POST[name]) ? (int)$_POST[name] : null`, bound as an INTEGER. */
  function OptionalInt(host: Host, req: Request, name: string): (v: Option<SqlValue>)
    ensures v.Some? <==> name in req.params
    ensures v.Some? ==> v.value == SqlInt(host.toInt(req.params[name]))
  {
    if name in req.params then Some(SqlInt(host.toInt(req.params[name]))) else None
  }

  /** `isset($_POST[name]) ? (float)$_POST[name] : null`. */
  function OptionalFloat(host: Host, req: Request, name: string): (v: Option<real>)
    ensures v.Some? <==> name in req.params
    ensures v.Some? ==> v.value == host.toFloat(req.params[name])
  {
    if name in req.params then Some(host.toFloat(req.params[name])) else None
  }

  /** The provider columns update-profile rewrites; an absent numeric field becomes NULL. */
  function EditedProvider(host: Host, req: Request, p: Provider): (q: Provider)
    ensures q.fullName == TextParam(host, req, "fullName") && q.phone == TextParam(host, req, "phone")
    ensures q.serviceCategoryId == OptionalInt(host, req, "serviceCategory")
    ensures q.experienceYears == OptionalInt(host, req, "experience")
    ensures q.hourlyRate == OptionalFloat(host, req, "hourlyRate") && q.bio == TextParam(host, req, "bio")
    ensures q.email == p.email && q.passwordHash == p.passwordHash && q.rating == p.rating
    ensures q.totalJobs == p.totalJobs && q.isVerified == p.isVerified && q.createdAt == p.createdAt
  {
    p.(fullName := TextParam(host, req, "fullName"), phone := TextParam(host, req, "phone"),
       serviceCategoryId := OptionalInt(host, req, "serviceCategory"),
       experienceYears := OptionalInt(host, req, "experience"),
       hourlyRate := OptionalFloat(host, req, "hourlyRate"), bio := TextParam(host, req, "bio"))
  }

  /** The user columns update-profile rewrites. */
  function EditedUser(host: Host, req: Request, u: User): (v: User)
    ensures v.fullName == TextParam(host, req, "fullName") && v.phone == TextParam(host, req, "phone")
    ensures v.address == TextParam(host, req, "address")
    ensures v.email == u.email && v.passwordHash == u.passwordHash && v.createdAt == u.createdAt
  {
    u.(fullName := TextParam(host, req, "fullName"), phone := TextParam(host, req, "phone"),
       address := TextParam(host, req, "address"))
  }

  /**
   * update-profile: the requested type must match a logged-in identity and
   * the name must not be empty. Only that account's row changes (a row that
   * no longer exists is left alone), never its email or password, and the
   * session takes the new name.
   */
  function UpdateProfile(host: Host, db: Db, s: Session, req: Request): (r: Response)
    ensures !r.envelope.success ==> r.db == db && r.session == s && r.envelope.data == Null
    ensures !req.isPost ==> r == Fail("Invalid request method", db, s)
    ensures var t := ProfileType(host, req);
      req.isPost && !(t == "provider" && s.provider.Some?) && !(t == "user" && s.user.Some?) ==>
        r == Fail("Not authenticated", db, s)
    ensures var t := ProfileType(host, req);
      r.envelope.success <==>
        req.isPost && ((t == "provider" && s.provider.Some?) || (t == "user" && s.user.Some?))
        && !PhpEmpty(TextParam(host, req, "fullName"))
    ensures var t := ProfileType(host, req);
      req.isPost && ((t == "provider" && s.provider.Some?) || (t == "user" && s.user.Some?))
      && PhpEmpty(TextParam(host, req, "fullName")) ==>
        r == Fail("Full name is required", db, s)
    ensures r.envelope.success ==> r.envelope == Envelope(true, "Profile updated successfully", Null)
    ensures var name := TextParam(host, req, "fullName");
      r.envelope.success && ProfileType(host, req) == "provider" ==>
        var pid := s.provider.value.id;
        && r.db.users == db.users && r.db.bookings == db.bookings && r.db.reviews == db.reviews
        && r.db.categories == db.categories
        && r.db.providers.rows.Keys == db.providers.rows.Keys && r.db.providers.next == db.providers.next
        && (forall q :: q in db.providers.rows && q != pid ==> r.db.providers.rows[q] == db.providers.rows[q])
        && (pid in db.providers.rows ==> r.db.providers.rows[pid] == EditedProvider(host, req, db.providers.rows[pid]))
        && r.session == s.(provider := Some(s.provider.value.(name := name)))
    ensures var name := TextParam(host, req, "fullName");
      r.envelope.success && ProfileType(host, req) == "user" ==>
        var uid := s.user.value.id;
        && r.db.providers == db.providers && r.db.bookings == db.bookings && r.db.reviews == db.reviews
        && r.db.categories == db.categories
        && r.db.users.rows.Keys == db.users.rows.Keys && r.db.users.next == db.users.next
        && (forall q :: q in db.users.rows && q != uid ==> r.db.users.rows[q] == db.users.rows[q])
        && (uid in db.users.rows ==> r.db.users.rows[uid] == EditedUser(host, req, db.users.rows[uid]))
        && r.session == s.(user := Some(s.user.value.(name := name)))
  {
    if !req.isPost then Fail("Invalid request method", db, s)
    else
      var t, name := ProfileType(host, req), TextParam(host, req, "fullName");
      if t == "provider" && s.provider.Some? then
        if PhpEmpty(name) then Fail("Full name is required", db, s)
        else
          var pid := s.provider.value.id;
          var providers :=
            if pid in db.providers.rows then db.providers.Update(pid, EditedProvider(host, req, db.providers.rows[pid]))
            else db.providers;
          Response(SendJsonResponse(true, "Profile updated successfully"), db.(providers := providers),
                   s.(provider := Some(s.provider.value.(name := name))))
      else if t == "user" && s.user.Some? then
        if PhpEmpty(name) then Fail("Full name is required", db, s)
        else
          var uid := s.user.value.id;
          var users :=
            if uid in db.users.rows then db.users.Update(uid, EditedUser(host, req, db.users.rows[uid]))
            else db.users;
          Response(SendJsonResponse(true, "Profile updated successfully"), db.(users := users),
                   s.(user := Some(s.user.value.(name := name))))
      else Fail("Not authenticated", db, s)
  }

  /**
   * get-profile: the requested type must match a logged-in identity; the
   * answer is that account's row without its password. Nothing changes.
   */
  function GetProfile(host: Host, db: Db, s: Session, req: Request): (r: Response)
    ensures r.db == db && r.session == s
    ensures !r.envelope.success ==> r.envelope.data == Null
    ensures var t := ProfileType(host, req);
      !(t == "provider" && s.provider.Some?) && !(t == "user" && s.user.Some?) ==>
        r.envelope.message == "Not authenticated"
    ensures var t := ProfileType(host, req);
      r.envelope.success <==>
        (t == "provider" && s.provider.Some? && s.provider.value.id in db.providers.rows)
        || (t == "user" && s.user.Some? && s.user.value.id in db.users.rows)
    ensures var t := ProfileType(host, req);
      ((t == "provider" && s.provider.Some?) || (t == "user" && s.user.Some?)) && !r.envelope.success ==>
        r.envelope.message == "Profile not found"
    ensures r.envelope.success && ProfileType(host, req) == "provider" ==>
      var pid := s.provider.value.id;
      r.envelope == Envelope(true, "Profile retrieved successfully",
                             ProviderProfile(InfoOf(pid, db.providers.rows[pid]), db.providers.rows[pid].createdAt))
    ensures r.envelope.success && ProfileType(host, req) == "user" ==>
      var uid := s.user.value.id;
      var u := db.users.rows[uid];
      r.envelope == Envelope(true, "Profile retrieved successfully",
                             UserProfile(uid, u.fullName, u.email, u.phone, u.address, u.createdAt))
  {
    var t := ProfileType(host, req);
    if t == "provider" && s.provider.Some? then
      var pid := s.provider.value.id;
      if pid in db.providers.rows then
        var p := db.providers.rows[pid];
        Response(SendJsonResponse(true, "Profile retrieved successfully", ProviderProfile(InfoOf(pid, p), p.createdAt)), db, s)
      else Fail("Profile not found", db, s)
    else if t == "user" && s.user.Some? then
      var uid := s.user.value.id;
      if uid in db.users.rows then
        var u := db.users.rows[uid];
        Response(SendJsonResponse(true, "Profile retrieved successfully",
                                  UserProfile(uid, u.fullName, u.email, u.phone, u.address, u.createdAt)), db, s)
      else Fail("Profile not found", db, s)
    else Fail("Not authenticated", db, s)
  }

  /** An edited profile reads back with the new name, phone and address and the old email. */
  lemma UserProfileReadsBack(host: Host, db: Db, s: Session, req: Request, view: Request)
    requires UpdateProfile(host, db, s, req).envelope.success && ProfileType(host, req) == "user"
    requires s.user.value.id in db.users.rows && ProfileType(host, view) == "user"
    ensures var r := UpdateProfile(host, db, s, req);
      var g := GetProfile(host, r.db, r.session, view);
      && g.envelope.success
      && g.envelope.data.fullName == TextParam(host, req, "fullName")
      && g.envelope.data.phone == TextParam(host, req, "phone")
      && g.envelope.data.address == TextParam(host, req, "address")
      && g.envelope.data.email == db.users.rows[s.user.value.id].email
  {
  }

  /**
   * A provider's edit reads back: the profile shows the posted name, phone
   * and bio, the cast numeric fields, and the rating, job count and email
   * the edit does not touch.
   */
  lemma ProviderProfileReadsBack(host: Host, db: Db, s: Session, req: Request, view: Request)
    requires UpdateProfile(host, db, s, req).envelope.success && ProfileType(host, req) == "provider"
    requires s.provider.value.id in db.providers.rows && ProfileType(host, view) == "provider"
    ensures var r := UpdateProfile(host, db, s, req);
      var g := GetProfile(host, r.db, r.session, view);
      var before := db.providers.rows[s.provider.value.id];
      && g.envelope.success
      && g.envelope.data.ProviderProfile?
      && g.envelope.data.info.fullName == TextParam(host, req, "fullName")
      && g.envelope.data.info.phone == TextParam(host, req, "phone")
      && g.envelope.data.info.bio == TextParam(host, req, "bio")
      && g.envelope.data.info.serviceCategoryId == OptionalInt(host, req, "serviceCategory")
      && g.envelope.data.info.experienceYears == OptionalInt(host, req, "experience")
      && g.envelope.data.info.hourlyRate == OptionalFloat(host, req, "hourlyRate")
      && g.envelope.data.info.email == before.email
      && g.envelope.data.info.rating == before.rating && g.envelope.data.info.totalJobs == before.totalJobs
  {
  }
}
