/**
 * The booking lifecycle: creating a booking (book-service) and moving it
 * through pending, accepted, completed and cancelled (update-booking).
 */
module BookingLifecycle {
  import opened Wrappers
  import opened Model
  import opened Strings
  import opened ServerHelpers

  function StatusName(st: Status): string {
    match st
    case Pending => "pending"
    case Accepted => "accepted"
    case Completed => "completed"
    case Cancelled => "cancelled"
  }

  /** `in_array($status, [...])` over the four names; none is numeric, so the loose comparison is plain string equality. */
  function ParseStatus(s: string): (r: Option<Status>)
    ensures r.Some? <==> s in {"pending", "accepted", "completed", "cancelled"}
    ensures r.Some? ==> StatusName(r.value) == s
  {
    if s == "pending" then Some(Pending)
    else if s == "accepted" then Some(Accepted)
    else if s == "completed" then Some(Completed)
    else if s == "cancelled" then Some(Cancelled)
    else None
  }

  /** Every status is written and read back under the same name. */
  lemma ParseStatusName(st: Status)
    ensures ParseStatus(StatusName(st)) == Some(st)
  {
  }

  /** The session's user owns the booking. */
  predicate ActsAsOwner(s: Session, b: Booking) {
    s.user.Some? && b.userId == s.user.value.id
  }

  /** The session's provider is assigned to the booking. */
  predicate ActsAsAssignee(s: Session, b: Booking) {
    s.provider.Some? && b.providerId == s.provider.value.id
  }

  /** What the owning user may do: cancel a pending booking. */
  predicate UserMay(from: Status, to: Status) {
    from == Pending && to == Cancelled
  }

  /** What the assigned provider may do: accept or decline a pending booking, complete an accepted one. */
  predicate ProviderMay(from: Status, to: Status) {
    || (from == Pending && to == Accepted)
    || (from == Accepted && to == Completed)
    || (from == Pending && to == Cancelled)
  }

  /** `$canUpdate`: the user rule OR the provider rule, each for its own identity. */
  predicate CanUpdate(s: Session, b: Booking, to: Status) {
    (ActsAsOwner(s, b) && UserMay(b.status, to)) || (ActsAsAssignee(s, b) && ProviderMay(b.status, to))
  }

  /** The transition table as (from, to, who) triples. */
  const TransitionTable: set<(Status, Status, Kind)> := {
    (Pending, Cancelled, UserKind),
    (Pending, Accepted, ProviderKind),
    (Accepted, Completed, ProviderKind),
    (Pending, Cancelled, ProviderKind)
  }

  /** The permission check is exactly the transition table, applied to the roles the session holds. */
  lemma CanUpdateIsTable(s: Session, b: Booking, to: Status)
    ensures CanUpdate(s, b, to) <==>
      || ((b.status, to, UserKind) in TransitionTable && ActsAsOwner(s, b))
      || ((b.status, to, ProviderKind) in TransitionTable && ActsAsAssignee(s, b))
  {
  }

  /** Completed and cancelled are terminal; nothing re-enters pending; no status moves to itself. */
  lemma NoIllegalTransition(s: Session, b: Booking, to: Status)
    ensures b.status == Completed || b.status == Cancelled ==> !CanUpdate(s, b, to)
    ensures !CanUpdate(s, b, Pending)
    ensures !CanUpdate(s, b, b.status)
    ensures CanUpdate(s, b, to) ==> b.status == Pending || (b.status == Accepted && to == Completed)
  {
  }

  /** Someone who is neither the owner nor the assignee may change nothing. */
  lemma StrangerCannotUpdate(s: Session, b: Booking, to: Status)
    requires !ActsAsOwner(s, b) && !ActsAsAssignee(s, b)
    ensures !CanUpdate(s, b, to)
  {
  }

  /** `(int)$_POST['booking_id']`, 0 when absent. */
  function RequestedBooking(host: Host, req: Request): int {
    IntParam(host, req, "booking_id")
  }

  /** The sanitized `status` parameter read as a status. */
  function RequestedStatus(host: Host, req: Request): Option<Status> {
    ParseStatus(TextParam(host, req, "status"))
  }

  const NoPermission := "You do not have permission to update this booking"

  /** `UPDATE providers SET total_jobs = total_jobs + 1 WHERE provider_id = ?` (no row, no change). */
  function AddJob(t: Table<Provider>, pid: int): (r: Table<Provider>)
    ensures r.rows.Keys == t.rows.Keys && r.next == t.next
    ensures forall q :: q in t.rows && q != pid ==> r.rows[q] == t.rows[q]
    ensures pid in t.rows ==> r.rows[pid] == t.rows[pid].(totalJobs := t.rows[pid].totalJobs + 1)
  {
    if pid in t.rows then t.Update(pid, t.rows[pid].(totalJobs := t.rows[pid].totalJobs + 1)) else t
  }

  /**
   * update-booking. The checks run in order (method, session, id, status
   * name, existence, permission) and the first failure answers with the
   * database unchanged. On success only the booking's status changes, to
   * the requested one, and a completion adds one job to the assigned provider.
   */
  function UpdateBooking(host: Host, db: Db, s: Session, req: Request): (r: Response)
    ensures r.session == s
    ensures !r.envelope.success ==> r.db == db && r.envelope.data == Null
    ensures !req.isPost ==> r == Fail("Invalid request method", db, s)
    ensures req.isPost && !IsLoggedIn(s) ==> r == Fail("Not authenticated", db, s)
    ensures req.isPost && IsLoggedIn(s) && RequestedBooking(host, req) == 0 ==>
      r == Fail("Booking ID is required", db, s)
    ensures req.isPost && IsLoggedIn(s) && RequestedBooking(host, req) != 0 && RequestedStatus(host, req).None? ==>
      r == Fail("Invalid status", db, s)
    ensures req.isPost && IsLoggedIn(s) && RequestedBooking(host, req) != 0 && RequestedStatus(host, req).Some?
            && RequestedBooking(host, req) !in db.bookings.rows ==>
      r == Fail("Booking not found", db, s)
    ensures var id, to := RequestedBooking(host, req), RequestedStatus(host, req);
      r.envelope.success <==>
        req.isPost && IsLoggedIn(s) && id != 0 && to.Some? && id in db.bookings.rows
        && CanUpdate(s, db.bookings.rows[id], to.value)
    ensures var id, to := RequestedBooking(host, req), RequestedStatus(host, req);
      req.isPost && IsLoggedIn(s) && id != 0 && to.Some? && id in db.bookings.rows
      && !CanUpdate(s, db.bookings.rows[id], to.value) ==>
        r == Fail(NoPermission, db, s)
    ensures var id, to := RequestedBooking(host, req), RequestedStatus(host, req);
      r.envelope.success ==>
        && r.envelope.message == "Booking updated successfully"
        && r.db.users == db.users && r.db.reviews == db.reviews && r.db.categories == db.categories
        && r.db.bookings.rows.Keys == db.bookings.rows.Keys && r.db.bookings.next == db.bookings.next
        && r.db.bookings.rows[id] == db.bookings.rows[id].(status := to.value)
        && (forall k :: k in db.bookings.rows && k != id ==> r.db.bookings.rows[k] == db.bookings.rows[k])
    ensures var id, to := RequestedBooking(host, req), RequestedStatus(host, req);
      r.envelope.success ==>
        && r.db.providers.rows.Keys == db.providers.rows.Keys && r.db.providers.next == db.providers.next
        && (forall q :: q in db.providers.rows ==>
              r.db.providers.rows[q] == db.providers.rows[q].(totalJobs :=
                db.providers.rows[q].totalJobs
                + if to.value == Completed && q == db.bookings.rows[id].providerId then 1 else 0))
  {
    if !req.isPost then Fail("Invalid request method", db, s)
    else if !IsLoggedIn(s) then Fail("Not authenticated", db, s)
    else
      var id, to := RequestedBooking(host, req), RequestedStatus(host, req);
      if id == 0 then Fail("Booking ID is required", db, s)
      else if to.None? then Fail("Invalid status", db, s)
      else if id !in db.bookings.rows then Fail("Booking not found", db, s)
      else
        var b := db.bookings.rows[id];
        if !CanUpdate(s, b, to.value) then Fail(NoPermission, db, s)
        else
          var bookings := db.bookings.Update(id, b.(status := to.value));
          var providers := if to.value == Completed then AddJob(db.providers, b.providerId) else db.providers;
          Response(SendJsonResponse(true, "Booking updated successfully"),
                   db.(bookings := bookings, providers := providers), s)
  }

  /** When the session holds both identities, either role's rule is enough. */
  lemma DualSessionPermission(host: Host, db: Db, u: Identity, p: Identity, req: Request)
    requires req.isPost && RequestedBooking(host, req) in db.bookings.rows && RequestedBooking(host, req) != 0
    requires RequestedStatus(host, req).Some?
    ensures var b, to := db.bookings.rows[RequestedBooking(host, req)], RequestedStatus(host, req).value;
      UpdateBooking(host, db, Session(Some(u), Some(p)), req).envelope.success <==>
        UpdateBooking(host, db, Session(Some(u), None), req).envelope.success
        || UpdateBooking(host, db, Session(None, Some(p)), req).envelope.success
  {
  }

  /** A successful update moves the booking along the table from its old status to the requested one. */
  lemma UpdateFollowsTable(host: Host, db: Db, s: Session, req: Request)
    requires UpdateBooking(host, db, s, req).envelope.success
    ensures var id := RequestedBooking(host, req);
      var before, after := db.bookings.rows[id], UpdateBooking(host, db, s, req).db.bookings.rows[id];
      || (before.status, after.status, UserKind) in TransitionTable
      || (before.status, after.status, ProviderKind) in TransitionTable
  {
    var id, to := RequestedBooking(host, req), RequestedStatus(host, req).value;
    CanUpdateIsTable(s, db.bookings.rows[id], to);
  }

  /** The problems book-service reports, one message each. */
  datatype BookingProblem = NoProvider | NoCategory | NoDate | PastDate | NoTime | NoAddress
  {
    function Message(): string {
      match this
      case NoProvider => "Provider is required"
      case NoCategory => "Service category is required"
      case NoDate => "Booking date is required"
      case PastDate => "Booking date cannot be in the past"
      case NoTime => "Booking time is required"
      case NoAddress => "Service address is required"
    }
  }

  /** Where book-service appends a problem's message: earlier checks rank lower. */
  function BookingRank(p: BookingProblem): nat {
    match p
    case NoProvider => 0
    case NoCategory => 1
    case NoDate => 2
    case PastDate => 3
    case NoTime => 4
    case NoAddress => 5
  }

  /** The collected validation of book-service, in the order the source appends the messages. */
  function BookingProblems(host: Host, req: Request): (errors: seq<BookingProblem>)
    ensures var date := TextParam(host, req, "booking_date");
      && (NoProvider in errors <==> IntParam(host, req, "provider_id") == 0)
      && (NoCategory in errors <==> IntParam(host, req, "category_id") == 0)
      && (NoDate in errors <==> PhpEmpty(date))
      && (PastDate in errors <==> !PhpEmpty(date) && host.dayOf(date) < host.today)
      && (NoTime in errors <==> PhpEmpty(TextParam(host, req, "booking_time")))
      && (NoAddress in errors <==> PhpEmpty(TextParam(host, req, "address")))
    ensures var date := TextParam(host, req, "booking_date");
      errors == [] <==>
        && IntParam(host, req, "provider_id") != 0 && IntParam(host, req, "category_id") != 0
        && !PhpEmpty(date) && host.dayOf(date) >= host.today
        && !PhpEmpty(TextParam(host, req, "booking_time")) && !PhpEmpty(TextParam(host, req, "address"))
  {
    var date := TextParam(host, req, "booking_date");
    var dateProblems := if PhpEmpty(date) then [NoDate] else Check(host.dayOf(date) < host.today, PastDate);
    var provider := Check(IntParam(host, req, "provider_id") == 0, NoProvider);
    var category := Check(IntParam(host, req, "category_id") == 0, NoCategory);
    var time := Check(PhpEmpty(TextParam(host, req, "booking_time")), NoTime);
    var address := Check(PhpEmpty(TextParam(host, req, "address")), NoAddress);
    var front, back := provider + category, time + address;
    assert NoDate in dateProblems <==> PhpEmpty(date);
    assert PastDate in dateProblems <==> !PhpEmpty(date) && host.dayOf(date) < host.today;
    front + dateProblems + back
  }

  /**
   * book-service lists its messages in the order it runs the checks
   * (provider, category, date, time, address), none twice.
   */
  lemma BookingProblemsInOrder(host: Host, req: Request)
    ensures InCheckOrder(BookingProblems(host, req), BookingRank)
  {
    var date := TextParam(host, req, "booking_date");
    var dateProblems := if PhpEmpty(date) then [NoDate] else Check(host.dayOf(date) < host.today, PastDate);
    var provider := Check(IntParam(host, req, "provider_id") == 0, NoProvider);
    var category := Check(IntParam(host, req, "category_id") == 0, NoCategory);
    var time := Check(PhpEmpty(TextParam(host, req, "booking_time")), NoTime);
    var address := Check(PhpEmpty(TextParam(host, req, "address")), NoAddress);
    BookingPiecesInOrder(provider, category, dateProblems, time, address);
    assert BookingProblems(host, req) == provider + category + dateProblems + time + address;
  }

  /** The five groups of book-service checks, each ranked after the one before. */
  lemma BookingPiecesInOrder(provider: seq<BookingProblem>, category: seq<BookingProblem>,
                             date: seq<BookingProblem>, time: seq<BookingProblem>, address: seq<BookingProblem>)
    requires |provider| <= 1 && |category| <= 1 && |date| <= 1 && |time| <= 1 && |address| <= 1
    requires forall e :: e in provider ==> e == NoProvider
    requires forall e :: e in category ==> e == NoCategory
    requires forall e :: e in date ==> e == NoDate || e == PastDate
    requires forall e :: e in time ==> e == NoTime
    requires forall e :: e in address ==> e == NoAddress
    ensures InCheckOrder(provider + category + date + time + address, BookingRank)
  {
    AppendLater([], provider, BookingRank, 0, 1);
    assert [] + provider == provider;
    AppendLater(provider, category, BookingRank, 1, 2);
    AppendLater(provider + category, date, BookingRank, 2, 4);
    AppendLater(provider + category + date, time, BookingRank, 4, 5);
    AppendLater(provider + category + date + time, address, BookingRank, 5, 6);
  }

  /** The joined message of a failed book-service validation. */
  function BookingErrorMessage(problems: seq<BookingProblem>): string {
    JoinErrors(seq(|problems|, i requires 0 <= i < |problems| => problems[i].Message()))
  }

  /** `isset($_POST['total_price']) ? (float)$_POST['total_price'] : 0`. */
  function RequestedPrice(host: Host, req: Request): real {
    if "total_price" in req.params then host.toFloat(req.params["total_price"]) else 0.0
  }

  /** The booking book-service inserts for the session's user and an existing provider. */
  function NewBookingRecord(host: Host, req: Request, userId: int, provider: Provider): (b: Booking)
    ensures b.status == Pending && b.userId == userId
    ensures b.providerId == IntParam(host, req, "provider_id") && b.categoryId == IntParam(host, req, "category_id")
    ensures b.date == TextParam(host, req, "booking_date") && b.time == TextParam(host, req, "booking_time")
    ensures b.address == TextParam(host, req, "address") && b.description == TextParam(host, req, "description")
    ensures RequestedPrice(host, req) == 0.0 ==> b.totalPrice == provider.hourlyRate
    ensures RequestedPrice(host, req) != 0.0 ==> b.totalPrice == Some(RequestedPrice(host, req))
    ensures b.createdAt == host.now
  {
    var price := RequestedPrice(host, req);
    Booking(userId, IntParam(host, req, "provider_id"), IntParam(host, req, "category_id"),
            TextParam(host, req, "booking_date"), TextParam(host, req, "booking_time"),
            TextParam(host, req, "address"), TextParam(host, req, "description"), Pending,
            if price == 0.0 then provider.hourlyRate else Some(price), host.now)
  }

  /**
   * book-service: a user session, then every validation error at once,
   * then the provider must exist; the booking is inserted as pending under
   * the next id, which the response returns.
   */
  function BookService(host: Host, db: Db, s: Session, req: Request): (r: Response)
    ensures r.session == s
    ensures !r.envelope.success ==> r.db == db && r.envelope.data == Null
    ensures !req.isPost ==> r == Fail("Invalid request method", db, s)
    ensures req.isPost && s.user.None? ==> r == Fail("Please login to book a service", db, s)
    ensures req.isPost && s.user.Some? && BookingProblems(host, req) != [] ==>
      r == Fail(BookingErrorMessage(BookingProblems(host, req)), db, s)
    ensures req.isPost && s.user.Some? && BookingProblems(host, req) == []
            && IntParam(host, req, "provider_id") !in db.providers.rows ==>
      r == Fail("Provider not found", db, s)
    ensures r.envelope.success <==>
      req.isPost && s.user.Some? && BookingProblems(host, req) == [] && IntParam(host, req, "provider_id") in db.providers.rows
    ensures r.envelope.success ==>
      var id, pid := db.bookings.next, IntParam(host, req, "provider_id");
      && r.envelope.message == "Booking created successfully!"
      && r.envelope.data == NewBooking(id)
      && r.db == db.(bookings := db.bookings.Insert(NewBookingRecord(host, req, s.user.value.id, db.providers.rows[pid])))
  {
    if !req.isPost then Fail("Invalid request method", db, s)
    else if s.user.None? then Fail("Please login to book a service", db, s)
    else
      var problems := BookingProblems(host, req);
      if problems != [] then Fail(BookingErrorMessage(problems), db, s)
      else
        var pid := IntParam(host, req, "provider_id");
        if pid !in db.providers.rows then Fail("Provider not found", db, s)
        else
          var b := NewBookingRecord(host, req, s.user.value.id, db.providers.rows[pid]);
          var id := db.bookings.next;
          Response(SendJsonResponse(true, "Booking created successfully!", NewBooking(id)),
                   db.(bookings := db.bookings.Insert(b)), s)
  }

  /** Validation failures are reported without looking at the database: any two databases give the same answer. */
  lemma BookingValidationPrecedesLookup(host: Host, db1: Db, db2: Db, s: Session, req: Request)
    requires req.isPost && s.user.Some? && BookingProblems(host, req) != []
    ensures BookService(host, db1, s, req).envelope == BookService(host, db2, s, req).envelope
  {
  }

  /** The category id is never looked up: the category table has no say in the outcome. */
  lemma BookingIgnoresCategories(host: Host, db: Db, cats: map<int, Category>, s: Session, req: Request)
    ensures BookService(host, db.(categories := cats), s, req).envelope == BookService(host, db, s, req).envelope
  {
  }

  /** A new booking starts pending, belongs to the session's user and is the only row added. */
  lemma NewBookingIsPending(host: Host, db: Db, s: Session, req: Request)
    requires db.bookings.Valid()
    requires BookService(host, db, s, req).envelope.success
    ensures var r := BookService(host, db, s, req);
      var id := r.envelope.data.bookingId;
      && id !in db.bookings.rows && id in r.db.bookings.rows
      && r.db.bookings.rows[id].status == Pending
      && r.db.bookings.rows[id].userId == s.user.value.id
      && r.db.bookings.rows - {id} == db.bookings.rows
  {
  }
}
