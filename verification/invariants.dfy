/**
 * What every request keeps true of the database: ids below the counters,
 * one account per email in each table, bookings that name existing
 * providers, reviews only of completed bookings by their own customer,
 * one review per booking, ratings on the 1 to 5 scale, and each
 * provider's rating equal to the rounded mean of their reviews.
 */
module Invariants {
  import opened Wrappers
  import opened Model
  import opened Rounding
  import opened ServerHelpers
  import opened BookingLifecycle
  import ReviewService
  import Accounts

  ghost predicate UniqueUserEmails(t: Table<User>) {
    forall j, k :: j in t.rows && k in t.rows && t.rows[j].email == t.rows[k].email ==> j == k
  }

  ghost predicate UniqueProviderEmails(t: Table<Provider>) {
    forall j, k :: j in t.rows && k in t.rows && t.rows[j].email == t.rows[k].email ==> j == k
  }

  ghost predicate BookingsHaveProviders(db: Db) {
    forall k :: k in db.bookings.rows ==> db.bookings.rows[k].providerId in db.providers.rows
  }

  /** A review names a completed booking of the same customer and provider, with a rating on the scale. */
  ghost predicate ReviewFits(db: Db, v: Review) {
    && v.bookingId in db.bookings.rows
    && db.bookings.rows[v.bookingId].userId == v.userId
    && db.bookings.rows[v.bookingId].providerId == v.providerId
    && db.bookings.rows[v.bookingId].status == Completed
    && 1 <= v.rating <= 5
  }

  ghost predicate ReviewsFit(db: Db) {
    forall k :: k in db.reviews.rows ==> ReviewFits(db, db.reviews.rows[k])
  }

  ghost predicate OneReviewPerBooking(db: Db) {
    forall j, k ::
      (j in db.reviews.rows && k in db.reviews.rows && db.reviews.rows[j].bookingId == db.reviews.rows[k].bookingId)
      ==> j == k
  }

  /** Every provider's stored rating is the rounded mean of the reviews about them (0 without reviews). */
  ghost predicate RatingsAreMeans(db: Db) {
    forall q :: q in db.providers.rows ==>
      db.providers.rows[q].rating == Round2(ReviewService.AverageRating(db.reviews, q))
  }

  ghost predicate Consistent(db: Db) {
    && db.users.Valid() && db.providers.Valid() && db.bookings.Valid() && db.reviews.Valid()
    && UniqueUserEmails(db.users) && UniqueProviderEmails(db.providers)
    && BookingsHaveProviders(db) && ReviewsFit(db) && OneReviewPerBooking(db) && RatingsAreMeans(db)
  }

  /** The empty database with fresh counters is consistent. */
  lemma EmptyIsConsistent(categories: map<int, Category>)
    ensures Consistent(Db(Table(map[], 1), Table(map[], 1), categories, Table(map[], 1), Table(map[], 1)))
  {
  }

  /** A provider nobody reviewed has count zero and rating sum zero. */
  lemma {:induction false} UnreviewedHasNoRatings(rows: map<int, Review>, pid: int, n: int)
    requires forall k :: k in rows ==> rows[k].providerId != pid
    ensures ReviewService.RatingCount(rows, pid, n) == 0
    decreases n
  {
    if n > 1 {
      UnreviewedHasNoRatings(rows, pid, n - 1);
    }
  }

  /** Ratings of providers other than the reviewed one are unaffected by a new review. */
  lemma OtherMeansUnchanged(t: Table<Review>, v: Review, q: int)
    requires t.Valid() && q != v.providerId
    ensures ReviewService.AverageRating(t.Insert(v), q) == ReviewService.AverageRating(t, q)
  {
    ReviewService.InsertAddsRating(t, v, q);
  }

  /**
   * update-booking keeps the database consistent: a reviewed booking is
   * completed, and a completed booking never moves, so reviews keep fitting.
   */
  lemma UpdateBookingKeepsConsistency(host: Host, db: Db, s: Session, req: Request)
    requires Consistent(db)
    ensures Consistent(UpdateBooking(host, db, s, req).db)
  {
    var r := UpdateBooking(host, db, s, req);
    if r.envelope.success {
      var id := RequestedBooking(host, req);
      NoIllegalTransition(s, db.bookings.rows[id], RequestedStatus(host, req).value);
      forall k | k in r.db.reviews.rows
        ensures ReviewFits(r.db, r.db.reviews.rows[k])
      {
        assert ReviewFits(db, db.reviews.rows[k]);
      }
      assert RatingsAreMeans(r.db) by {
        forall q | q in r.db.providers.rows
          ensures r.db.providers.rows[q].rating == Round2(ReviewService.AverageRating(r.db.reviews, q))
        {
          assert r.db.providers.rows[q].rating == db.providers.rows[q].rating;
        }
      }
    }
  }

  /** book-service keeps the database consistent: the new booking names an existing provider. */
  lemma BookServiceKeepsConsistency(host: Host, db: Db, s: Session, req: Request)
    requires Consistent(db)
    ensures Consistent(BookService(host, db, s, req).db)
  {
    var r := BookService(host, db, s, req);
    if r.envelope.success {
      forall k | k in r.db.reviews.rows
        ensures ReviewFits(r.db, r.db.reviews.rows[k])
      {
        assert ReviewFits(db, db.reviews.rows[k]);
      }
    }
  }

  /**
   * add-review keeps the database consistent: the review fits its booking,
   * is the booking's first, and the recomputed rating is the new mean while
   * every other provider's mean is unchanged.
   */
  lemma AddReviewKeepsConsistency(host: Host, db: Db, s: Session, req: Request)
    requires Consistent(db)
    ensures Consistent(ReviewService.AddReview(host, db, s, req).db)
  {
    var r := ReviewService.AddReview(host, db, s, req);
    if r.envelope.success {
      var v := ReviewService.NewReview(host, req, s.user.value.id);
      var pid := v.providerId;
      assert r.db.reviews == db.reviews.Insert(v);
      assert ReviewFits(r.db, v);
      forall k | k in r.db.reviews.rows
        ensures ReviewFits(r.db, r.db.reviews.rows[k])
      {
        if k != db.reviews.next {
          assert ReviewFits(db, db.reviews.rows[k]);
        }
      }
      assert OneReviewPerBooking(r.db) by {
        ReviewService.OneReviewPerBooking(host, db, s, req);
      }
      forall q | q in r.db.providers.rows
        ensures r.db.providers.rows[q].rating == Round2(ReviewService.AverageRating(r.db.reviews, q))
      {
        if q != pid {
          OtherMeansUnchanged(db.reviews, v, q);
        }
      }
    }
  }

  /**
   * register keeps the database consistent: the email was free in its
   * table, and a new provider has no reviews, so its starting rating 0 is
   * the rounded mean.
   */
  lemma RegisterKeepsConsistency(host: Host, db: Db, s: Session, req: Request)
    requires Consistent(db)
    ensures Consistent(Accounts.Register(host, db, s, req).db)
  {
    var r := Accounts.Register(host, db, s, req);
    if r.envelope.success && Accounts.KindOf(Accounts.AccountType(host, req)) == ProviderKind {
      var id := db.providers.next;
      forall k | k in db.reviews.rows
        ensures db.reviews.rows[k].providerId != id
      {
        assert ReviewFits(db, db.reviews.rows[k]);
      }
      UnreviewedHasNoRatings(db.reviews.rows, id, db.reviews.next);
      Round2Cents(0.0);
      forall k | k in r.db.reviews.rows
        ensures ReviewFits(r.db, r.db.reviews.rows[k])
      {
        assert ReviewFits(db, db.reviews.rows[k]);
      }
    }
  }

  /** update-profile keeps the database consistent: emails, ratings and ids are untouched. */
  lemma UpdateProfileKeepsConsistency(host: Host, db: Db, s: Session, req: Request)
    requires Consistent(db)
    ensures Consistent(Accounts.UpdateProfile(host, db, s, req).db)
  {
    var r := Accounts.UpdateProfile(host, db, s, req);
    if r.envelope.success && Accounts.ProfileType(host, req) == "provider" {
      forall k | k in r.db.reviews.rows
        ensures ReviewFits(r.db, r.db.reviews.rows[k])
      {
        assert ReviewFits(db, db.reviews.rows[k]);
      }
      assert RatingsAreMeans(r.db) by {
        forall q | q in r.db.providers.rows
          ensures r.db.providers.rows[q].rating == Round2(ReviewService.AverageRating(r.db.reviews, q))
        {
          assert r.db.providers.rows[q].rating == db.providers.rows[q].rating;
        }
      }
    }
  }
}
