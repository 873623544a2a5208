/**
 * The state and the request/response shapes shared by every endpoint of the
 * home-service marketplace: the five tables, the PHP session, the request
 * parameters and the `{success, message, data}` JSON envelope.
 */
module Model {
  import opened Wrappers

  /** The two disjoint account namespaces. */
  datatype Kind = UserKind | ProviderKind

  /** The `status` column of `bookings`. */
  datatype Status = Pending | Accepted | Completed | Cancelled

  /**
   * A value in an INTEGER-affinity column. SQLite converts bound text that
   * reads as a whole number to INTEGER and other numeric text to REAL; any
   * other text is stored as TEXT.
   */
  datatype SqlValue = SqlInt(i: int) | SqlReal(r: real) | SqlText(t: string)

  /** A customer row of `users` (its id is the table key). */
  datatype User = User(
    fullName: string,
    email: string,
    passwordHash: string,
    phone: string,
    address: string,
    createdAt: int)

  /** A row of `providers`; `rating` is derived from reviews, `totalJobs` counts completions. */
  datatype Provider = Provider(
    fullName: string,
    email: string,
    passwordHash: string,
    phone: string,
    serviceCategoryId: Option<SqlValue>,
    experienceYears: Option<SqlValue>,
    hourlyRate: Option<real>,
    bio: string,
    rating: real,
    totalJobs: int,
    isVerified: bool,
    createdAt: int)

  /** A row of `service_categories` (seed data, read-only). */
  datatype Category = Category(name: string, description: string, icon: string)

  /** A row of `bookings`. */
  datatype Booking = Booking(
    userId: int,
    providerId: int,
    categoryId: int,
    date: string,
    time: string,
    address: string,
    description: string,
    status: Status,
    totalPrice: Option<real>,
    createdAt: int)

  /** A row of `reviews`. */
  datatype Review = Review(
    bookingId: int,
    userId: int,
    providerId: int,
    rating: int,
    comment: string,
    createdAt: int)

  /**
   * An AUTOINCREMENT table: rows by id, and the id the next insert receives
   * (one more than the largest id ever issued; the first id is 1).
   */
  datatype Table<T> = Table(rows: map<int, T>, next: int) {

    ghost predicate Valid() {
      next >= 1 && forall k :: k in rows ==> 1 <= k < next
    }

    /** INSERT: the new row gets id `next`, which no row of a valid table has yet. */
    function Insert(v: T): (r: Table<T>)
      ensures Valid() ==> r.Valid() && next !in rows && |r.rows| == |rows| + 1
      ensures r.rows == rows[next := v] && r.next == next + 1
    {
      Table(rows[next := v], next + 1)
    }

    /** UPDATE ... WHERE id = k: replaces an existing row, keeps ids and counter. */
    function Update(k: int, v: T): (r: Table<T>)
      requires k in rows
      ensures Valid() ==> r.Valid()
      ensures r.rows.Keys == rows.Keys && r.rows[k] == v && r.next == next
      ensures forall j :: j in rows && j != k ==> r.rows[j] == rows[j]
    {
      Table(rows[k := v], next)
    }
  }

  datatype Db = Db(
    users: Table<User>,
    providers: Table<Provider>,
    categories: map<int, Category>,
    bookings: Table<Booking>,
    reviews: Table<Review>)

  /** The id, name and email a session keeps for one account kind. */
  datatype Identity = Identity(id: int, name: string, email: string)

  /**
   * `$_SESSION`: the `user_id`/`user_name`/`user_email` keys and the
   * `provider_*` keys, each group set or unset together.
   */
  datatype Session = Session(user: Option<Identity>, provider: Option<Identity>)

  const EmptySession := Session(None, None)

  /** One HTTP request: whether it is a POST, and its `$_POST` (or `$_GET`) parameters. */
  datatype Request = Request(isPost: bool, params: map<string, string>)

  /** `$params[name] ?? default`. */
  function ParamOr(req: Request, name: string, default: string): (v: string)
    ensures name in req.params ==> v == req.params[name]
    ensures name !in req.params ==> v == default
  {
    if name in req.params then req.params[name] else default
  }

  /**
   * What the endpoints take from the platform, left uninterpreted:
   * `sanitizeInput`, the `(int)` and `(float)` casts, `is_numeric`,
   * `filter_var(..., FILTER_VALIDATE_EMAIL)`, `password_hash`,
   * `password_verify`, a date string read as a day number, the clock, and
   * SQLite's conversion of text bound to an INTEGER-affinity column.
   */
  datatype Host = Host(
    sanitize: string -> string,
    toInt: string -> int,
    toFloat: string -> real,
    isNumeric: string -> bool,
    isEmail: string -> bool,
    hash: string -> string,
    verify: (string, string) -> bool,
    dayOf: string -> int,
    integerAffinity: string -> SqlValue,
    now: int,
    today: int)

  /** `isset($params[name]) ? (int)$params[name] : 0`. */
  function IntParam(host: Host, req: Request, name: string): (n: int)
    ensures name !in req.params ==> n == 0
    ensures name in req.params ==> n == host.toInt(req.params[name])
  {
    if name in req.params then host.toInt(req.params[name]) else 0
  }

  /** `sanitizeInput($params[name] ?? '')`. */
  function TextParam(host: Host, req: Request, name: string): (v: string)
    ensures v == host.sanitize(ParamOr(req, name, ""))
  {
    host.sanitize(ParamOr(req, name, ""))
  }

  /** Name, phone and email of the other party of a booking (a LEFT JOIN: absent when the row is missing). */
  datatype Contact = Contact(name: string, phone: string, email: string)

  /** The booking rows the read endpoints return; each carries the booking's id and row. */
  datatype BookingRow =
    | ProviderBookingRow(id: int, booking: Booking, customer: Option<Contact>, categoryName: Option<string>)
    | UserBookingRow(id: int, booking: Booking, provider: Option<Contact>, categoryName: Option<string>, hasReview: bool)
    | BookingDetailRow(id: int, booking: Booking, customer: Option<Contact>, provider: Option<Contact>, categoryName: Option<string>)

  /** The provider columns the read endpoints select: every column but the password. */
  datatype ProviderInfo = ProviderInfo(
    id: int,
    fullName: string,
    email: string,
    phone: string,
    serviceCategoryId: Option<SqlValue>,
    experienceYears: Option<SqlValue>,
    hourlyRate: Option<real>,
    bio: string,
    rating: real,
    totalJobs: int,
    isVerified: bool)

  /** A provider with its category's name, as the catalog lists it. */
  datatype CatalogRow = CatalogRow(info: ProviderInfo, categoryName: Option<string>)

  /** A review with the reviewing customer's name. */
  datatype ReviewRow = ReviewRow(id: int, review: Review, customerName: Option<string>)

  /** The `data` member of the envelope; `Null` is JSON null. */
  datatype Data =
    | Null
    | NewBooking(bookingId: int)
    | LoggedIn(kind: Kind, id: int, name: string)
    | AuthInfo(kind: Kind, id: int, name: string, email: string)
    | BookingDetail(row: BookingRow)
    | BookingList(rows: seq<BookingRow>)
    | ProviderList(providers: seq<CatalogRow>)
    | ProviderDetail(provider: CatalogRow)
    | ProviderProfile(info: ProviderInfo, createdAt: int)
    | UserProfile(id: int, fullName: string, email: string, phone: string, address: string, createdAt: int)
    | ReviewList(reviews: seq<ReviewRow>)

  /** The JSON body every endpoint answers with. */
  datatype Envelope = Envelope(success: bool, message: string, data: Data)

  /** What a request leaves behind: the envelope, the database and the session. */
  datatype Response = Response(envelope: Envelope, db: Db, session: Session)

  /** A failure envelope with null data; database and session as they were. */
  function Fail(message: string, db: Db, s: Session): (r: Response)
    ensures !r.envelope.success && r.envelope.message == message && r.envelope.data == Null
    ensures r.db == db && r.session == s
  {
    Response(Envelope(false, message, Null), db, s)
  }

  /** The provider's public columns. */
  function InfoOf(id: int, p: Provider): (i: ProviderInfo)
    ensures i.id == id && i.fullName == p.fullName && i.email == p.email && i.rating == p.rating
    ensures i.totalJobs == p.totalJobs && i.hourlyRate == p.hourlyRate && i.serviceCategoryId == p.serviceCategoryId
  {
    ProviderInfo(id, p.fullName, p.email, p.phone, p.serviceCategoryId, p.experienceYears,
                 p.hourlyRate, p.bio, p.rating, p.totalJobs, p.isVerified)
  }

  /**
   * `LEFT JOIN service_categories ON c.id = ...`: the category's name, if the
   * column holds the integer id of a category. NULL, REAL and TEXT values
   * never equal an INTEGER primary key.
   */
  function CategoryName(db: Db, id: Option<SqlValue>): (name: Option<string>)
    ensures name.Some? <==> id.Some? && id.value.SqlInt? && id.value.i in db.categories
    ensures name.Some? ==> name.value == db.categories[id.value.i].name
  {
    if id.Some? && id.value.SqlInt? && id.value.i in db.categories then Some(db.categories[id.value.i].name) else None
  }
}
