/**
 * The booking read endpoints: one booking with both parties'
 * contacts (get-booking-details) and the list of a user's or a provider's
 * bookings (get-bookings).
 */
module BookingReads {
  import opened Wrappers
  import opened Seqs
  import opened Model
  import opened ServerHelpers
  import opened BookingLifecycle

  /** `LEFT JOIN users`: the customer's contact, if the user row exists. */
  function CustomerContact(db: Db, userId: int): (c: Option<Contact>)
    ensures c.Some? <==> userId in db.users.rows
    ensures c.Some? ==> c.value.name == db.users.rows[userId].fullName && c.value.email == db.users.rows[userId].email
  {
    if userId in db.users.rows then
      var u := db.users.rows[userId];
      Some(Contact(u.fullName, u.phone, u.email))
    else None
  }

  /** `LEFT JOIN providers`: the provider's contact, if the provider row exists. */
  function ProviderContact(db: Db, providerId: int): (c: Option<Contact>)
    ensures c.Some? <==> providerId in db.providers.rows
    ensures c.Some? ==> c.value.name == db.providers.rows[providerId].fullName
  {
    if providerId in db.providers.rows then
      var p := db.providers.rows[providerId];
      Some(Contact(p.fullName, p.phone, p.email))
    else None
  }

  /** Whether some review names the booking (the `has_review` column). */
  predicate HasReview(db: Db, bookingId: int) {
    exists j :: j in db.reviews.rows && db.reviews.rows[j].bookingId == bookingId
  }

  /**
   * The access check of get-booking-details as two successive blocks:
   * a logged-in user who does not own the booking passes only as its
   * provider, and a logged-in provider not assigned to it passes only as
   * its user.
   */
  predicate ReadAccessAsWritten(s: Session, b: Booking) {
    && !(s.user.Some? && b.userId != s.user.value.id
         && !(s.provider.Some? && b.providerId == s.provider.value.id))
    && !(s.provider.Some? && b.providerId != s.provider.value.id
         && !(s.user.Some? && b.userId == s.user.value.id))
  }

  /** For any logged-in session the two blocks grant exactly the booking's owner and its assigned provider. */
  lemma ReadAccessIsOwnership(s: Session, b: Booking)
    requires IsLoggedIn(s)
    ensures ReadAccessAsWritten(s, b) <==> ActsAsOwner(s, b) || ActsAsAssignee(s, b)
  {
  }

  /** The joined row get-booking-details answers with. */
  function DetailRow(db: Db, id: int, b: Booking): (row: BookingRow)
    ensures row.BookingDetailRow? && row.id == id && row.booking == b
    ensures row.customer == CustomerContact(db, b.userId) && row.provider == ProviderContact(db, b.providerId)
  {
    BookingDetailRow(id, b, CustomerContact(db, b.userId), ProviderContact(db, b.providerId),
                     CategoryName(db, Some(SqlInt(b.categoryId))))
  }

  /** `isset($_GET['id']) ? (int)$_GET['id'] : 0`. */
  function RequestedDetail(host: Host, req: Request): int {
    IntParam(host, req, "id")
  }

  /**
   * get-booking-details: a session, a nonzero id, an existing booking and
   * the access check, in that order. It never changes anything; on
   * success the data is the booking joined with both parties and its category.
   */
  function GetBookingDetails(host: Host, db: Db, s: Session, req: Request): (r: Response)
    ensures r.db == db && r.session == s
    ensures !r.envelope.success ==> r.envelope.data == Null
    ensures !IsLoggedIn(s) ==> r.envelope.message == "Not authenticated"
    ensures IsLoggedIn(s) && RequestedDetail(host, req) == 0 ==> r.envelope.message == "Booking ID is required"
    ensures IsLoggedIn(s) && RequestedDetail(host, req) != 0 && RequestedDetail(host, req) !in db.bookings.rows ==>
      r.envelope.message == "Booking not found"
    ensures var id := RequestedDetail(host, req);
      r.envelope.success <==>
        IsLoggedIn(s) && id != 0 && id in db.bookings.rows
        && (ActsAsOwner(s, db.bookings.rows[id]) || ActsAsAssignee(s, db.bookings.rows[id]))
    ensures var id := RequestedDetail(host, req);
      IsLoggedIn(s) && id != 0 && id in db.bookings.rows && !r.envelope.success ==>
        r.envelope.message == "Access denied"
    ensures var id := RequestedDetail(host, req);
      r.envelope.success ==>
        && r.envelope.message == "Booking retrieved successfully"
        && r.envelope.data == BookingDetail(DetailRow(db, id, db.bookings.rows[id]))
  {
    if !IsLoggedIn(s) then Fail("Not authenticated", db, s)
    else
      var id := RequestedDetail(host, req);
      if id == 0 then Fail("Booking ID is required", db, s)
      else if id !in db.bookings.rows then Fail("Booking not found", db, s)
      else
        var b := db.bookings.rows[id];
        ReadAccessIsOwnership(s, b);
        if !ReadAccessAsWritten(s, b) then Fail("Access denied", db, s)
        else Response(SendJsonResponse(true, "Booking retrieved successfully", BookingDetail(DetailRow(db, id, b))), db, s)
  }

  /** A booking row of the provider's list: the customer's contact and the category. */
  function ProviderRow(db: Db, id: int, b: Booking): (row: BookingRow)
    ensures row.ProviderBookingRow? && row.id == id && row.booking == b
    ensures row.customer == CustomerContact(db, b.userId)
  {
    ProviderBookingRow(id, b, CustomerContact(db, b.userId), CategoryName(db, Some(SqlInt(b.categoryId))))
  }

  /** A booking row of the user's list: the provider's contact, the category and whether it was reviewed. */
  function UserRow(db: Db, id: int, b: Booking): (row: BookingRow)
    ensures row.UserBookingRow? && row.id == id && row.booking == b
    ensures row.provider == ProviderContact(db, b.providerId)
    ensures row.hasReview <==> exists j :: j in db.reviews.rows && db.reviews.rows[j].bookingId == id
  {
    UserBookingRow(id, b, ProviderContact(db, b.providerId), CategoryName(db, Some(SqlInt(b.categoryId))), HasReview(db, id))
  }

  /** `ORDER BY b.created_at DESC`. */
  predicate NewestFirst(a: BookingRow, b: BookingRow) {
    a.booking.createdAt >= b.booking.createdAt
  }

  lemma NewestFirstIsPreorder()
    ensures TotalPreorder(NewestFirst)
  {
  }

  /** Which bookings a list shows: those of the given provider, or of the given user. */
  predicate OfProvider(pid: int, b: Booking) { b.providerId == pid }
  predicate OfUser(uid: int, b: Booking) { b.userId == uid }

  /**
   * A booking list as the SELECT produces it from a table whose ids lie
   * below its counter: exactly the bookings `belongs` picks, each once,
   * each built by `row`, newest first.
   */
  ghost predicate ListsExactly(rows: seq<BookingRow>, db: Db, belongs: Booking -> bool,
                               row: (int, Booking) -> BookingRow)
  {
    var t := db.bookings.rows;
    && Sorted(rows, NewestFirst)
    && (forall i :: 0 <= i < |rows| ==>
          rows[i].id in t && belongs(t[rows[i].id]) && rows[i] == row(rows[i].id, t[rows[i].id]))
    && (forall k :: k in t && belongs(t[k]) ==> exists i :: 0 <= i < |rows| && rows[i].id == k)
    && (forall i, j :: 0 <= i < j < |rows| ==> rows[i].id != rows[j].id)
  }

  function ListBookings(db: Db, belongs: Booking -> bool, row: (int, Booking) -> BookingRow): (rows: seq<BookingRow>)
    requires forall k, b :: row(k, b).id == k
    ensures db.bookings.Valid() ==> ListsExactly(rows, db, belongs, row)
  {
    NewestFirstIsPreorder();
    Select(db.bookings.rows, db.bookings.next, belongs, row, (x: BookingRow) => x.id, NewestFirst)
  }

  /** `isset($_GET['type']) ? sanitizeInput($_GET['type']) : 'user'`. */
  function ListType(host: Host, req: Request): string {
    if "type" in req.params then host.sanitize(req.params["type"]) else "user"
  }

  /**
   * get-bookings: a provider asking for `type=provider` gets the bookings
   * assigned to them, a user asking for `type=user` (the default) gets the
   * bookings they made; any other combination is "Not authenticated". It
   * never changes anything.
   */
  function GetBookings(host: Host, db: Db, s: Session, req: Request): (r: Response)
    ensures r.db == db && r.session == s
    ensures r.envelope.success <==>
      (ListType(host, req) == "provider" && s.provider.Some?) || (ListType(host, req) == "user" && s.user.Some?)
    ensures !r.envelope.success ==> r == Fail("Not authenticated", db, s)
    ensures r.envelope.success ==>
      r.envelope.message == "Bookings retrieved successfully" && r.envelope.data.BookingList?
    ensures r.envelope.success && db.bookings.Valid() && ListType(host, req) == "provider" ==>
      var pid := s.provider.value.id;
      ListsExactly(r.envelope.data.rows, db, b => OfProvider(pid, b), (k, b) => ProviderRow(db, k, b))
    ensures r.envelope.success && db.bookings.Valid() && ListType(host, req) == "user" ==>
      var uid := s.user.value.id;
      ListsExactly(r.envelope.data.rows, db, b => OfUser(uid, b), (k, b) => UserRow(db, k, b))
  {
    var t := ListType(host, req);
    if t == "provider" && s.provider.Some? then
      var pid := s.provider.value.id;
      var rows := ListBookings(db, b => OfProvider(pid, b), (k, b) => ProviderRow(db, k, b));
      Response(SendJsonResponse(true, "Bookings retrieved successfully", BookingList(rows)), db, s)
    else if t == "user" && s.user.Some? then
      var uid := s.user.value.id;
      var rows := ListBookings(db, b => OfUser(uid, b), (k, b) => UserRow(db, k, b));
      Response(SendJsonResponse(true, "Bookings retrieved successfully", BookingList(rows)), db, s)
    else Fail("Not authenticated", db, s)
  }

  /** Every booking a user sees in their list is theirs, and every booking they made is listed. */
  lemma UserSeesOwnBookings(host: Host, db: Db, s: Session, req: Request, k: int)
    requires db.bookings.Valid() && s.user.Some? && ListType(host, req) == "user"
    ensures var rows := GetBookings(host, db, s, req).envelope.data.rows;
      && (forall i :: 0 <= i < |rows| ==> db.bookings.rows[rows[i].id].userId == s.user.value.id)
      && (k in db.bookings.rows && db.bookings.rows[k].userId == s.user.value.id ==>
            exists i :: 0 <= i < |rows| && rows[i].id == k)
  {
    var uid := s.user.value.id;
    var rows := GetBookings(host, db, s, req).envelope.data.rows;
    assert ListsExactly(rows, db, b => OfUser(uid, b), (k, b) => UserRow(db, k, b));
  }

  /** Whatever the list endpoint shows, the detail endpoint lets the same session open. */
  lemma ListedBookingsAreReadable(host: Host, db: Db, s: Session, req: Request, detail: Request)
    requires db.bookings.Valid()
    requires GetBookings(host, db, s, req).envelope.success
    requires var rows := GetBookings(host, db, s, req).envelope.data.rows;
      exists i :: 0 <= i < |rows| && rows[i].id == RequestedDetail(host, detail)
    ensures GetBookingDetails(host, db, s, detail).envelope.success
  {
    var rows := GetBookings(host, db, s, req).envelope.data.rows;
    var i :| 0 <= i < |rows| && rows[i].id == RequestedDetail(host, detail);
    if ListType(host, req) == "provider" && s.provider.Some? {
      var pid := s.provider.value.id;
      assert ListsExactly(rows, db, b => OfProvider(pid, b), (k, b) => ProviderRow(db, k, b));
    } else {
      var uid := s.user.value.id;
      assert ListsExactly(rows, db, b => OfUser(uid, b), (k, b) => UserRow(db, k, b));
    }
  }
}
