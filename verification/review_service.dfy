/**
 * Reviews: a customer rates a completed booking once (add-review), the
 * provider's rating becomes the rounded mean of their reviews, and a
 * provider lists the reviews about them (get-reviews).
 */
module ReviewService {
  import opened Wrappers
  import opened Seqs
  import opened Model
  import opened Rounding
  import opened ServerHelpers
  import BookingReads

  /** The problems add-review reports, one message each. */
  datatype ReviewProblem = MissingBooking | MissingProvider | RatingOutOfRange
  {
    function Message(): string {
      match this
      case MissingBooking => "Booking ID is required"
      case MissingProvider => "Provider ID is required"
      case RatingOutOfRange => "Rating must be between 1 and 5"
    }
  }

  /** Where add-review appends a problem's message: earlier checks rank lower. */
  function ReviewRank(p: ReviewProblem): nat {
    match p
    case MissingBooking => 0
    case MissingProvider => 1
    case RatingOutOfRange => 2
  }

  function RequestedBooking(host: Host, req: Request): int { IntParam(host, req, "booking_id") }
  function RequestedProvider(host: Host, req: Request): int { IntParam(host, req, "provider_id") }
  function RequestedRating(host: Host, req: Request): int { IntParam(host, req, "rating") }

  /** The collected validation of add-review, in the order the source appends the messages. */
  function ReviewProblems(host: Host, req: Request): (errors: seq<ReviewProblem>)
    ensures MissingBooking in errors <==> RequestedBooking(host, req) == 0
    ensures MissingProvider in errors <==> RequestedProvider(host, req) == 0
    ensures RatingOutOfRange in errors <==> !(1 <= RequestedRating(host, req) <= 5)
    ensures errors == [] <==>
      RequestedBooking(host, req) != 0 && RequestedProvider(host, req) != 0 && 1 <= RequestedRating(host, req) <= 5
    ensures InCheckOrder(errors, ReviewRank)
  {
    var rating := RequestedRating(host, req);
    var booking := Check(RequestedBooking(host, req) == 0, MissingBooking);
    var provider := Check(RequestedProvider(host, req) == 0, MissingProvider);
    var range := Check(rating < 1 || rating > 5, RatingOutOfRange);
    ConcatInCheckOrder(booking, provider, ReviewRank);
    ConcatInCheckOrder(booking + provider, range, ReviewRank);
    booking + provider + range
  }

  function ReviewErrorMessage(problems: seq<ReviewProblem>): string {
    JoinErrors(seq(|problems|, i requires 0 <= i < |problems| => problems[i].Message()))
  }

  /** Sum of the ratings of `pid`'s reviews with ids in `[1, n)`. */
  function RatingSum(rows: map<int, Review>, pid: int, n: int): int
    decreases n
  {
    if n <= 1 then 0
    else RatingSum(rows, pid, n - 1) + (if n - 1 in rows && rows[n - 1].providerId == pid then rows[n - 1].rating else 0)
  }

  /** Number of `pid`'s reviews with ids in `[1, n)`. */
  function RatingCount(rows: map<int, Review>, pid: int, n: int): nat
    decreases n
  {
    if n <= 1 then 0
    else RatingCount(rows, pid, n - 1) + (if n - 1 in rows && rows[n - 1].providerId == pid then 1 else 0)
  }

  /** `SELECT AVG(rating) FROM reviews WHERE provider_id = ?`; no rows gives NULL, which `round` turns into 0. */
  function AverageRating(t: Table<Review>, pid: int): real {
    var c := RatingCount(t.rows, pid, t.next);
    if c == 0 then 0.0 else RatingSum(t.rows, pid, t.next) as real / c as real
  }

  /** Every review of `pid` carries a rating on the 1 to 5 scale. */
  ghost predicate RatingsOnScale(rows: map<int, Review>, pid: int) {
    forall k :: k in rows && rows[k].providerId == pid ==> 1 <= rows[k].rating <= 5
  }

  /** A row at or past `n` does not enter the sums over `[1, n)`. */
  lemma {:induction false} RatingsIgnoreLaterRows(rows: map<int, Review>, pid: int, n: int, k: int, v: Review)
    requires k >= n
    ensures RatingSum(rows[k := v], pid, n) == RatingSum(rows, pid, n)
    ensures RatingCount(rows[k := v], pid, n) == RatingCount(rows, pid, n)
    decreases n
  {
    if n > 1 {
      RatingsIgnoreLaterRows(rows, pid, n - 1, k, v);
    }
  }

  /** Inserting a review adds its rating to its provider's sum and one to their count, and leaves other providers' alone. */
  lemma InsertAddsRating(t: Table<Review>, v: Review, pid: int)
    requires t.Valid()
    ensures var u := t.Insert(v);
      && RatingSum(u.rows, pid, u.next) == RatingSum(t.rows, pid, t.next) + (if v.providerId == pid then v.rating else 0)
      && RatingCount(u.rows, pid, u.next) == RatingCount(t.rows, pid, t.next) + (if v.providerId == pid then 1 else 0)
  {
    RatingsIgnoreLaterRows(t.rows, pid, t.next, t.next, v);
  }

  /** With every rating on the scale, the sum lies between one and five times the count. */
  lemma {:induction false} RatingSumBounds(rows: map<int, Review>, pid: int, n: int)
    requires RatingsOnScale(rows, pid)
    ensures RatingCount(rows, pid, n) <= RatingSum(rows, pid, n) <= 5 * RatingCount(rows, pid, n)
    decreases n
  {
    if n > 1 {
      RatingSumBounds(rows, pid, n - 1);
    }
  }

  /** The mean of ratings on the scale is on the scale. */
  lemma AverageOnScale(t: Table<Review>, pid: int)
    requires RatingsOnScale(t.rows, pid) && RatingCount(t.rows, pid, t.next) > 0
    ensures 1.0 <= AverageRating(t, pid) <= 5.0
  {
    var s, c := RatingSum(t.rows, pid, t.next), RatingCount(t.rows, pid, t.next);
    RatingSumBounds(t.rows, pid, t.next);
    assert c as real <= s as real <= 5.0 * c as real;
    assert AverageRating(t, pid) == s as real / c as real;
    MeanBounds(s as real, c as real);
  }

  lemma MeanBounds(s: real, c: real)
    requires c > 0.0 && c <= s <= 5.0 * c
    ensures 1.0 <= s / c <= 5.0
  {
    var a := s / c;
    assert a * c == s;
    ProductPositive(1.0 - a, c);
    ProductPositive(a - 5.0, c);
  }

  lemma ProductPositive(x: real, y: real)
    requires y > 0.0
    ensures x > 0.0 ==> x * y > 0.0
  {
  }

  /** `UPDATE providers SET rating = ? WHERE provider_id = ?` (no row, no change). */
  function SetRating(t: Table<Provider>, pid: int, rating: real): (r: Table<Provider>)
    ensures r.rows.Keys == t.rows.Keys && r.next == t.next
    ensures forall q :: q in t.rows && q != pid ==> r.rows[q] == t.rows[q]
    ensures pid in t.rows ==> r.rows[pid] == t.rows[pid].(rating := rating)
  {
    if pid in t.rows then t.Update(pid, t.rows[pid].(rating := rating)) else t
  }

  /** The booking add-review looks up: the requested id, owned by this user and assigned to the requested provider. */
  predicate ReviewableMatch(db: Db, bid: int, uid: int, pid: int) {
    bid in db.bookings.rows && db.bookings.rows[bid].userId == uid && db.bookings.rows[bid].providerId == pid
  }

  /** The review add-review inserts. */
  function NewReview(host: Host, req: Request, uid: int): (v: Review)
    ensures v.bookingId == RequestedBooking(host, req) && v.userId == uid
    ensures v.providerId == RequestedProvider(host, req) && v.rating == RequestedRating(host, req)
    ensures v.comment == TextParam(host, req, "comment") && v.createdAt == host.now
  {
    Review(RequestedBooking(host, req), uid, RequestedProvider(host, req), RequestedRating(host, req),
           TextParam(host, req, "comment"), host.now)
  }

  /**
   * add-review: a user session, the collected validation, then the booking
   * must match (id, user and provider), be completed and not be reviewed
   * yet. On success the review is inserted and the provider's rating
   * becomes the rounded mean of all their reviews.
   */
  function AddReview(host: Host, db: Db, s: Session, req: Request): (r: Response)
    ensures r.session == s
    ensures !r.envelope.success ==> r.db == db && r.envelope.data == Null
    ensures !req.isPost ==> r == Fail("Invalid request method", db, s)
    ensures req.isPost && s.user.None? ==> r == Fail("Not authenticated", db, s)
    ensures req.isPost && s.user.Some? && ReviewProblems(host, req) != [] ==>
      r == Fail(ReviewErrorMessage(ReviewProblems(host, req)), db, s)
    ensures var bid, pid := RequestedBooking(host, req), RequestedProvider(host, req);
      req.isPost && s.user.Some? && ReviewProblems(host, req) == [] ==>
        && (!ReviewableMatch(db, bid, s.user.value.id, pid) ==> r == Fail("Booking not found", db, s))
        && (ReviewableMatch(db, bid, s.user.value.id, pid) && db.bookings.rows[bid].status != Completed ==>
              r == Fail("You can only review completed bookings", db, s))
        && (ReviewableMatch(db, bid, s.user.value.id, pid) && db.bookings.rows[bid].status == Completed
            && BookingReads.HasReview(db, bid) ==>
              r == Fail("You have already reviewed this booking", db, s))
    ensures var bid, pid := RequestedBooking(host, req), RequestedProvider(host, req);
      r.envelope.success <==>
        && req.isPost && s.user.Some? && ReviewProblems(host, req) == []
        && ReviewableMatch(db, bid, s.user.value.id, pid)
        && db.bookings.rows[bid].status == Completed
        && !BookingReads.HasReview(db, bid)
    ensures var pid := RequestedProvider(host, req);
      r.envelope.success ==>
        && r.envelope == Envelope(true, "Review submitted successfully", Null)
        && r.db.reviews == db.reviews.Insert(NewReview(host, req, s.user.value.id))
        && r.db.users == db.users && r.db.bookings == db.bookings && r.db.categories == db.categories
        && r.db.providers == SetRating(db.providers, pid, Round2(AverageRating(r.db.reviews, pid)))
  {
    if !req.isPost then Fail("Invalid request method", db, s)
    else if s.user.None? then Fail("Not authenticated", db, s)
    else
      var problems := ReviewProblems(host, req);
      if problems != [] then Fail(ReviewErrorMessage(problems), db, s)
      else
        var uid, bid, pid := s.user.value.id, RequestedBooking(host, req), RequestedProvider(host, req);
        if !ReviewableMatch(db, bid, uid, pid) then Fail("Booking not found", db, s)
        else if db.bookings.rows[bid].status != Completed then Fail("You can only review completed bookings", db, s)
        else if BookingReads.HasReview(db, bid) then Fail("You have already reviewed this booking", db, s)
        else
          var reviews := db.reviews.Insert(NewReview(host, req, uid));
          var providers := SetRating(db.providers, pid, Round2(AverageRating(reviews, pid)));
          Response(SendJsonResponse(true, "Review submitted successfully"),
                   db.(reviews := reviews, providers := providers), s)
  }

  /** The new rating is the rounded running mean: the old sum plus the new rating, over the old count plus one. */
  lemma RatingIsRunningMean(host: Host, db: Db, s: Session, req: Request)
    requires db.reviews.Valid()
    requires AddReview(host, db, s, req).envelope.success
    requires RequestedProvider(host, req) in db.providers.rows
    ensures var pid := RequestedProvider(host, req);
      AddReview(host, db, s, req).db.providers.rows[pid].rating ==
        Round2((RatingSum(db.reviews.rows, pid, db.reviews.next) + RequestedRating(host, req)) as real
               / (RatingCount(db.reviews.rows, pid, db.reviews.next) + 1) as real)
  {
    InsertAddsRating(db.reviews, NewReview(host, req, s.user.value.id), RequestedProvider(host, req));
  }

  /** When the stored reviews are on the scale, the recomputed rating is between 1.00 and 5.00. */
  lemma RatingStaysOnScale(host: Host, db: Db, s: Session, req: Request)
    requires db.reviews.Valid() && RatingsOnScale(db.reviews.rows, RequestedProvider(host, req))
    requires AddReview(host, db, s, req).envelope.success
    requires RequestedProvider(host, req) in db.providers.rows
    ensures var r := AddReview(host, db, s, req);
      && RatingsOnScale(r.db.reviews.rows, RequestedProvider(host, req))
      && 1.0 <= r.db.providers.rows[RequestedProvider(host, req)].rating <= 5.0
  {
    var pid := RequestedProvider(host, req);
    var v := NewReview(host, req, s.user.value.id);
    var reviews := db.reviews.Insert(v);
    InsertAddsRating(db.reviews, v, pid);
    assert RatingsOnScale(reviews.rows, pid);
    AverageOnScale(reviews, pid);
    var a := AverageRating(reviews, pid);
    Round2Monotone(1.0, a);
    Round2Monotone(a, 5.0);
    Round2Cents(1.0);
    Round2Cents(5.0);
  }

  /** A successful review leaves exactly one review of that booking, and it is the one just written. */
  lemma OneReviewPerBooking(host: Host, db: Db, s: Session, req: Request)
    requires db.reviews.Valid()
    requires AddReview(host, db, s, req).envelope.success
    ensures var rows, bid := AddReview(host, db, s, req).db.reviews.rows, RequestedBooking(host, req);
      forall k :: k in rows && rows[k].bookingId == bid <==> k == db.reviews.next
  {
  }

  /** `LEFT JOIN users`: the reviewing customer's name. */
  function CustomerName(db: Db, uid: int): (n: Option<string>)
    ensures n.Some? <==> uid in db.users.rows
    ensures n.Some? ==> n.value == db.users.rows[uid].fullName
  {
    if uid in db.users.rows then Some(db.users.rows[uid].fullName) else None
  }

  /** `ORDER BY r.created_at DESC`. */
  predicate NewestReviewFirst(a: ReviewRow, b: ReviewRow) {
    a.review.createdAt >= b.review.createdAt
  }

  function ReviewRowOf(db: Db, k: int, v: Review): (row: ReviewRow)
    ensures row.id == k && row.review == v && row.customerName == CustomerName(db, v.userId)
  {
    ReviewRow(k, v, CustomerName(db, v.userId))
  }

  /**
   * get-reviews: a provider session gets every review about them, each
   * once, with the customer's name, newest first; it never changes anything.
   */
  function GetReviews(db: Db, s: Session): (r: Response)
    ensures r.db == db && r.session == s
    ensures r.envelope.success <==> s.provider.Some?
    ensures s.provider.None? ==> r == Fail("Not authenticated", db, s)
    ensures r.envelope.success ==>
      r.envelope.message == "Reviews retrieved successfully" && r.envelope.data.ReviewList?
    ensures r.envelope.success ==>
      var rows, pid, t := r.envelope.data.reviews, s.provider.value.id, db.reviews.rows;
      && Sorted(rows, NewestReviewFirst)
      && (forall i :: 0 <= i < |rows| ==>
            rows[i].id in t && t[rows[i].id].providerId == pid && rows[i] == ReviewRowOf(db, rows[i].id, t[rows[i].id]))
      && (db.reviews.Valid() ==>
            forall k :: k in t && t[k].providerId == pid ==> exists i :: 0 <= i < |rows| && rows[i].id == k)
      && (forall i, j :: 0 <= i < j < |rows| ==> rows[i].id != rows[j].id)
  {
    if s.provider.None? then Fail("Not authenticated", db, s)
    else
      var pid := s.provider.value.id;
      assert TotalPreorder(NewestReviewFirst);
      var rows := Select(db.reviews.rows, db.reviews.next, (v: Review) => v.providerId == pid,
                         (k, v) => ReviewRowOf(db, k, v), (x: ReviewRow) => x.id, NewestReviewFirst);
      Response(SendJsonResponse(true, "Reviews retrieved successfully", ReviewList(rows)), db, s)
  }
}
