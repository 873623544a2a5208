# HomeServe booking marketplace — a Dafny model

HomeServe is a home-service marketplace. Customers ("users") and service
providers have separate accounts. A user books a provider for a date and
an address. The provider accepts and completes the job, or either side
cancels it while it is pending. After completion the customer leaves one
review, and the provider's rating becomes the rounded mean of the reviews
about them. The back end is a set of PHP endpoints over one SQLite
database and the PHP session. The browser runs field validators before it
posts a form.

This project models that core as pure functions over immutable data:

- `Model` holds the state. There are five tables (users, providers,
  seeded service categories, bookings, reviews). Each AUTOINCREMENT table
  is a map from id to row plus the counter of the next id. The session
  holds an optional user identity and an optional provider identity; the
  two can coexist.
- Every endpoint is a function `(Host, Db, Session, Request) -> Response`.
  The response carries the `{success, message, data}` envelope, the new
  database and the new session.
- `Host` gathers what the platform supplies and the model leaves
  uninterpreted: `sanitizeInput`, the `(int)`/`(float)` casts,
  `is_numeric`, `filter_var(FILTER_VALIDATE_EMAIL)`, `password_hash`,
  `password_verify`, reading a date as a day number, the clock, and
  SQLite's conversion of text bound to an INTEGER column (`SqlValue`:
  INTEGER, REAL or TEXT).
- SQL queries become `Seqs.Select`: the rows of the ids in `[1, next)`
  that pass the WHERE predicate, each once, sorted by the ORDER BY
  comparator. Its contract states soundness, completeness, no duplicates
  and sortedness.
- `Invariants.Consistent` is what every writing endpoint preserves:
  - ids lie below the counters;
  - emails are unique per table;
  - bookings name existing providers;
  - reviews only cover completed bookings of the same customer and
    provider, with ratings from 1 to 5;
  - each booking has at most one review;
  - each provider's rating is the rounded mean of their reviews.

Modules and files:

| module | file | models |
|---|---|---|
| `Wrappers` | wrappers.dfy | `Option` |
| `Strings` | strings.dfy | PHP `trim`, `empty`, `explode`/`implode`, one-character `str_replace` |
| `Seqs` | seqs.dfy | sorting, key enumeration, `Select` |
| `Rounding` | rounding.dfy | `round($x, 2)` on exact reals |
| `Model` | model.dfy | tables, session, request, envelope, host |
| `ServerHelpers` | server_helpers.dfy | config/database.php helpers |
| `ClientValidation` | client_validation.dfy | js/validation.js validators |
| `BookingLifecycle` | booking_lifecycle.dfy | book-service, update-booking |
| `BookingReads` | booking_reads.dfy | get-booking-details, get-bookings |
| `ReviewService` | review_service.dfy | add-review, get-reviews |
| `Catalog` | catalog.dfy | get-providers, get-provider |
| `Accounts` | accounts.dfy | register, login, check-auth, logout, get-profile, update-profile |
| `Invariants` | invariants.dfy | database consistency, preserved by every writing endpoint |

Where the design description and the code differ, the model follows the
code:

- The session can hold a user and a provider identity at the same time.
  Registration sets one kind and leaves the other in place; only login
  clears the session first.
- An unauthorized caller and an illegal status transition both get the
  same message, "You do not have permission to update this booking".
- The statements of one request are not wrapped in a transaction. Each
  request is modelled as one atomic step.
- `category_id` of a new booking is only checked to be nonzero. It is
  never looked up.
- Registration with any `userType` other than `provider` creates a
  user. The address is stored only when the type is exactly `user`.

## Model

| member | source | states |
|---|---|---|
| ServerHelpers.SendJsonResponse | config/database.php:36-44 | the envelope always carries success, message and data as given |
| ServerHelpers.EnvelopeDataDefaultsToNull | config/database.php:36 | leaving out the data argument gives JSON null |
| ServerHelpers.ValidateRequired | config/database.php:49-54 | an error, "<field> is required", exactly when the trimmed value is PHP-empty ("" or "0") |
| ServerHelpers.ValidateRequiredAccepts | config/database.php:49-54 | a value passes iff it has a non-blank character and does not trim to "0" |
| ServerHelpers.ValidateEmail | config/database.php:56-61 | an error exactly when the email filter rejects the value |
| ServerHelpers.ValidatePassword | config/database.php:63-68 | an error exactly when the password is shorter than 6 characters |
| ServerHelpers.ValidatePhone | config/database.php:70-75 | as written: an empty value passes; otherwise the PCRE pattern must match, whose `$` also accepts a final newline |
| ServerHelpers.PhoneAcceptsTwentyOneCharacters | config/database.php:71 | twenty digits and a newline, 21 characters, pass the check as written |
| ServerHelpers.ValidatePhoneIntended | config/database.php:70-75 | an empty value passes; otherwise 7 to 20 characters, all digits, `-`, `+`, whitespace or parentheses |
| ServerHelpers.PhoneChecksAgree | config/database.php:70-75 | the written and intended checks agree on every input except 21 characters ending in a newline |
| ServerHelpers.SessionQueries | config/database.php:80-96 | logged in iff a user or a provider id is set; each kind's query ignores the other kind |
| ServerHelpers.CurrentUserId | config/database.php:101-103 | the session's user id, or null exactly when no user is logged in |
| ServerHelpers.CurrentProviderId | config/database.php:105-107 | the session's provider id, or null exactly when no provider is logged in |
| ClientValidation.IsEmptyMeaning | js/validation.js:27-29 | empty iff the value is null/undefined or consists of whitespace only |
| ClientValidation.ValidateRequired | js/validation.js:31-36 | an error exactly for an empty value |
| ClientValidation.EmailPatternTestIsRegex | js/validation.js:11 | the email test holds iff the value is non-whitespace, non-`@` text, one `@`, then text with an inner dot |
| ClientValidation.ValidateEmail | js/validation.js:38-46 | an empty value is "Email is required" before any format check; otherwise valid iff the pattern matches |
| ClientValidation.ValidatePhone | js/validation.js:48-59 | an empty value passes iff not required; otherwise valid iff 7 to 20 phone characters |
| ClientValidation.ValidatePassword | js/validation.js:61-69 | valid iff non-empty and at least 6 characters; emptiness is reported first |
| ClientValidation.ValidatePasswordMatch | js/validation.js:71-79 | an empty confirmation is "required"; otherwise an error iff the two differ |
| ClientValidation.ValidateName | js/validation.js:81-89 | valid iff non-empty and at least 2 characters, counted before trimming |
| ClientValidation.ValidateSelect | js/validation.js:91-96 | an error for an empty value and for "0" |
| ClientValidation.ValidateNumber | js/validation.js:98-118 | valid iff non-empty, a number, and within the given bounds |
| ClientValidation.ErrorsOf | js/validation.js:176-252 | a field is flagged iff it is checked and its own validator fails, whatever the other fields do |
| ClientValidation.ValidateRegistrationForm | js/validation.js:176-255 | valid iff no error; common fields always checked, provider fields only for providers, no short-circuit |
| ClientValidation.RegistrationFormAccepted | js/validation.js:189-225 | an accepted form has a well-formed email, a password of 6 or more characters and a matching confirmation |
| ClientValidation.ValidateLoginForm | js/validation.js:257-277 | email and password are both checked; valid iff neither is flagged |
| Strings.TrimWith | config/database.php:50 | the trimmed string is empty iff every character is trimmable, and otherwise starts and ends with a kept character |
| Strings.Explode | php/get-providers.php:56 | one piece more than there are delimiters, and no piece contains the delimiter |
| Strings.ImplodeExplode | php/get-providers.php:56 | joining the pieces with the delimiter gives back the string |
| Strings.ExplodeImplode | php/get-providers.php:56-57 | splitting a join of delimiter-free pieces gives back the pieces |
| Strings.RemoveChar | php/get-providers.php:62 | the result has no `+`, keeps every other character, and is shorter by the number removed |
| Rounding.Round2 | php/add-review.php:102 | the result is a whole number of cents within half a cent of the input; a half-cent tie goes away from zero; non-negative input stays non-negative |
| Rounding.HalfCentRoundsAway | php/add-review.php:102 | 4.125 rounds to 4.13 and -4.125 to -4.13 |
| Rounding.Round2Monotone | php/add-review.php:102 | rounding preserves order |
| Rounding.Round2Cents | php/add-review.php:102 | a value already in whole cents rounds to itself |
| Seqs.SortBy | php/get-bookings.php:43 | the result is sorted and a permutation of the input |
| Seqs.KeysWhere | php/get-bookings.php:42 | exactly the ids below the counter whose row passes the WHERE predicate, increasing |
| Seqs.Select | php/get-bookings.php:39-43 | the rows of every id that passes the predicate, each once, built from its row, sorted |
| BookingLifecycle.ParseStatus | php/update-booking.php:31-34 | a status exactly for the four status names, and it carries that name |
| BookingLifecycle.ParseStatusName | php/update-booking.php:31 | every status parses back from its own name |
| BookingLifecycle.CanUpdateIsTable | php/update-booking.php:48-67 | permission is exactly the transition table applied to the roles the session holds |
| BookingLifecycle.NoIllegalTransition | php/update-booking.php:51-67 | completed and cancelled are terminal; nothing moves to pending or stays put; only pending and accepted ever move |
| BookingLifecycle.StrangerCannotUpdate | php/update-booking.php:52-67 | neither the owner nor the assignee: no change is permitted |
| BookingLifecycle.UpdateBooking | php/update-booking.php:12-83 | checks in order (method, session, id, status, existence, permission) with the database unchanged on failure; success iff permitted; only that booking's status changes; completion adds one job to the assigned provider |
| BookingLifecycle.DualSessionPermission | php/update-booking.php:52-67 | with both identities in the session, an update succeeds iff it succeeds for one of them alone |
| BookingLifecycle.UpdateFollowsTable | php/update-booking.php:48-75 | a successful update moves the booking along an entry of the transition table |
| BookingLifecycle.BookingProblems | php/book-service.php:33-61 | each of the six problems is reported iff its condition holds; none means all fields are present and the date is not past |
| BookingLifecycle.BookingProblemsInOrder | php/book-service.php:33-61 | the messages appear in the order the checks run (provider, category, date, time, address), none twice |
| BookingLifecycle.NewBookingRecord | php/book-service.php:79-99 | the new booking is pending, the session user's, carries the request's fields, and a zero or missing price becomes the provider's hourly rate |
| BookingLifecycle.BookService | php/book-service.php:12-105 | checks in order (method, user session, collected errors, provider existence); on success the booking is inserted under the next id, which is returned |
| BookingLifecycle.BookingValidationPrecedesLookup | php/book-service.php:63-77 | a validation failure answers the same whatever the database holds |
| BookingLifecycle.BookingIgnoresCategories | php/book-service.php:39-41 | the category table has no influence on the answer |
| BookingLifecycle.NewBookingIsPending | php/book-service.php:85-105 | the returned id is new, the booking under it is pending and the user's, and no other booking changes |
| BookingReads.ReadAccessIsOwnership | php/get-booking-details.php:61-74 | for a logged-in session the two-block check grants exactly the booking's user and its provider |
| BookingReads.GetBookingDetails | php/get-booking-details.php:12-76 | checks in order (session, id, existence, access); success iff owner or assignee; never changes anything |
| BookingReads.UserRow | php/get-bookings.php:52-73 | a user's list row: the provider's contact, and `has_review` iff some review names the booking |
| BookingReads.ListBookings | php/get-bookings.php:22-46 | exactly the bookings picked, each once, newest first |
| BookingReads.GetBookings | php/get-bookings.php:13-86 | the type defaults to user; a provider gets exactly their assigned bookings, a user exactly their own; any other combination is "Not authenticated"; nothing changes |
| BookingReads.UserSeesOwnBookings | php/get-bookings.php:48-78 | every listed booking is the user's, and every booking of the user is listed |
| BookingReads.ListedBookingsAreReadable | php/get-booking-details.php:61-74 | any booking a session sees in its list, it may open in detail |
| ReviewService.ReviewProblems | php/add-review.php:31-43 | each of the three problems is reported iff its condition holds, in check order (booking, provider, rating), none twice |
| ReviewService.InsertAddsRating | php/add-review.php:79-100 | a new review adds its rating to its provider's sum and one to the count, and leaves other providers alone |
| ReviewService.RatingSumBounds | php/add-review.php:94-97 | with ratings from 1 to 5, the sum lies between the count and five times the count |
| ReviewService.AverageOnScale | php/add-review.php:94-102 | the mean of ratings from 1 to 5 lies between 1 and 5 |
| ReviewService.AddReview | php/add-review.php:12-107 | checks in order (method, user session, collected errors, matching booking, completed, not yet reviewed), nothing written on failure; on success one review is added and the provider's rating becomes the rounded mean |
| ReviewService.RatingIsRunningMean | php/add-review.php:92-105 | the new rating is round((old sum + new rating) / (old count + 1), 2) |
| ReviewService.RatingStaysOnScale | php/add-review.php:41-43 | with stored ratings on the scale, the recomputed rating lies between 1.00 and 5.00 |
| ReviewService.OneReviewPerBooking | php/add-review.php:70-90 | after a successful review exactly one review names that booking |
| ReviewService.GetReviews | php/get-reviews.php:13-41 | requires a provider session; exactly the reviews about that provider, each once, newest first; nothing changes |
| Catalog.ParsePrice | php/get-providers.php:55-66 | no filter for a falsy string; a range iff exactly one dash; otherwise a lower bound iff a `+` occurs |
| Catalog.RangeParses | php/get-providers.php:56-60 | "lo-hi" with dash-free bounds is the range from lo to hi |
| Catalog.LowerBoundParses | php/get-providers.php:61-64 | "min+" is the lower bound min |
| Catalog.GetProviders | php/get-providers.php:12-79 | always succeeds; exactly the providers passing every active filter, each once, by rating and then jobs, both descending; an empty list has its own message |
| Catalog.UnfilteredListsEveryone | php/get-providers.php:37-46 | without filter parameters every provider is listed |
| Catalog.FiltersOnlyNarrow | php/get-providers.php:42-66 | a filtered list never shows a provider the unfiltered list lacks |
| Catalog.GetProvider | php/get-provider.php:13-48 | a zero id is rejected first; success iff the provider exists, with its catalog row; no session needed; nothing changes |
| Catalog.UnconvertedCategoryNeverMatches | php/get-providers.php:21-45 | a category stored as REAL or TEXT never passes the category filter and joins no category name |
| Catalog.DetailMatchesCatalog | php/get-provider.php:22-45 | a provider's detail row equals the row the catalog lists for them |
| Accounts.EmailProblems | php/register.php:33-37 | "Email is required" for an empty email, else "Invalid email format" iff the filter rejects it; at most one of the two |
| Accounts.CommonProblems | php/register.php:28-51 | each common problem iff its condition; empty password and short password exclusive; the mismatch check independent |
| Accounts.CommonProblemsInOrder | php/register.php:28-51 | the common messages appear in check order (name, email, phone, password, confirmation), none twice, all before any provider message |
| Accounts.ProviderProblems | php/register.php:54-71 | category required; experience non-empty and numeric ("0" allowed); hourly rate non-empty, not "0" and numeric |
| Accounts.ProviderProblemsInOrder | php/register.php:54-71 | the provider messages appear in check order (category, experience, hourly rate), none twice |
| Accounts.RegisterProblems | php/register.php:26-81 | the common checks, plus the provider checks only for the provider type, all in check order |
| Accounts.NewProvider | php/register.php:103-118 | the posted category and experience are stored as SQLite's INTEGER affinity makes of the text (REAL for "2.5", TEXT for "3abc"); the password only as its hash; rating 0, no jobs, unverified |
| Accounts.Register | php/register.php:12-158 | checks in order (method, collected errors, email free in the chosen table); on success inserts the account and sets that kind's session identity, keeping the other |
| Accounts.BrowserAcceptedPasswordPassesServer | php/register.php:43-51 | a form the browser accepts never fails the server's password checks |
| Accounts.LoginProblems | php/login.php:23-37 | email problems, plus "Password is required" iff the password is PHP-empty, in check order |
| Accounts.FindAccount | php/login.php:44-51 | an account of the chosen kind with that email, or none exists below the counter |
| Accounts.Login | php/login.php:12-109 | the database never changes; success iff the account exists and the password verifies; success replaces the session by that one identity; failure leaves it |
| Accounts.LoginHidesWhichCheckFailed | php/login.php:53-94 | an unknown email and a wrong password give the identical envelope |
| Accounts.RegisterThenLogin | php/register.php:120-158 | right after registering, the same form logs in as the new account |
| Accounts.CheckAuth | php/check-auth.php:13-33 | success iff logged in; the user identity takes precedence; id, name and email copied from the session |
| Accounts.LoginThenCheckAuth | php/check-auth.php:13-30 | after a login the auth check reports the account that logged in |
| Accounts.Logout | php/logout.php:13-30 | always succeeds, and afterwards nobody is logged in |
| Accounts.LogoutThenCheckAuth | php/logout.php:13 | after logout the auth check answers "Not authenticated" |
| Accounts.UpdateProfile | php/update-profile.php:12-95 | type defaults to user and must match a session identity; an empty name is rejected with "Full name is required"; only that account's row changes, and the session takes the new name |
| Accounts.GetProfile | php/get-profile.php:13-74 | type/session gating; the caller's row without the password, or "Profile not found"; nothing changes |
| Accounts.UserProfileReadsBack | php/update-profile.php:75-89 | an edited user profile reads back with the new fields and the old email |
| Accounts.ProviderProfileReadsBack | php/update-profile.php:40-57 | an edited provider profile reads back with the posted name, phone, bio and cast numbers, and the old email, rating and job count |
| Invariants.OtherMeansUnchanged | php/add-review.php:92-99 | a review of one provider leaves every other provider's mean alone |
| Invariants.UpdateBookingKeepsConsistency | php/update-booking.php:48-81 | update-booking preserves database consistency, so a reviewed booking stays completed |
| Invariants.BookServiceKeepsConsistency | php/book-service.php:71-99 | book-service preserves database consistency |
| Invariants.AddReviewKeepsConsistency | php/add-review.php:52-105 | add-review preserves database consistency, including one review per booking and ratings as rounded means |
| Invariants.RegisterKeepsConsistency | php/register.php:86-145 | register preserves database consistency, including unique emails per table |
| Invariants.UpdateProfileKeepsConsistency | php/update-profile.php:40-86 | update-profile preserves database consistency |

## Left out

- Storage failures: every `PDOException` branch and `getConnection` (config/database.php:15-24). The model has no failing database.
- HTTP and JSON: headers, JSON encoding and the request method beyond a POST flag. Logout's reply has no `data` member; the model gives it null data.
- `sanitizeInput`, the `(int)`/`(float)` casts, `is_numeric`, the email filter, `password_hash`/`password_verify` and JavaScript's `parseFloat`: these are uninterpreted functions of `Host` (or parameters), so no property depends on their details.
- `RegisterThenLogin` assumes that `password_verify` accepts a password against its own hash. That is the hashing library's promise, not something this model can check.
- Dates: `new DateTime(...)` becomes a day number, and "today" is a parameter. Comparing with midnight today is the same as comparing days. An unparseable date throws in PHP, and that error path is not modelled.
- Numbers: prices and ratings are exact reals. SQLite's AVG and PHP's `round` work on floats, and floating-point error is not modelled.
- SQLite column affinity: `integerAffinity` (the text-to-INTEGER-column conversion) is uninterpreted, so the model does not fix which texts become INTEGER, REAL or TEXT.
- Accounts.NewProvider: the hourly rate is stored as the float cast of the posted text. SQLite's REAL affinity gives the same number for the numeric text that passes `is_numeric`, but the model does not prove that the two agree.
- Lengths count characters. PHP's `strlen` counts bytes and JavaScript's `length` counts UTF-16 units; they differ only outside ASCII.
- Ordering: SQL leaves the order of rows with equal sort keys open, and so does the model.
- `ORDER BY created_at` compares integer timestamps, not text.
- Duplicate rows: a LEFT JOIN on reviews would list a booking twice if it had two reviews. Consistency rules that out, and `BookingReads.UserRow` reports one row with `has_review`.
- Login's `fetch()` takes the first account with the email. The model takes the lowest id, and unique emails make the choice moot.
- Concurrency: the statements of one request are not atomic in the source. Each request is one step here, and races are not modelled.
- Seed data: js/main.js, js/jquery-handlers.js and setup.php (UI code, schema and seed data) are not part of this model. `Invariants.Consistent` is proved preserved, not established for the seeded database.
- The non-writing endpoints (get-booking-details, get-bookings, get-reviews, get-providers, get-provider, get-profile, check-auth, login) return the database unchanged by their own contracts. No separate consistency lemma is stated for them.

## Findings

| source | as written | input that shows it | evidently intended | confidence | as-written member | corrected member |
|---|---|---|---|---|---|---|
| config/database.php:71 | `/^[0-9\-\+\s\(\)]{7,20}$/` without the D modifier: PCRE's `$` also matches before a final newline | "12345678901234567890\n" (21 characters) is accepted | at most 20 characters, as the browser's identical pattern enforces | medium, not executed | ServerHelpers.ValidatePhone (with ServerHelpers.PhoneAcceptsTwentyOneCharacters) | ServerHelpers.ValidatePhoneIntended (with ServerHelpers.PhoneChecksAgree) |
