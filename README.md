# Cat-bathing service: booking and rating lifecycle

A Dafny model of the core of a small Next.js web application. The application
takes home-visit cat-bathing bookings ("mandi kucing") and collects customer
ratings of finished visits. The model covers these parts:

- **The store** (`Database`): the booking, rating and promo tables that `lib/database.ts`
  wraps. It includes their queries, which return rows newest first, and the
  create, update, delete and seeding operations.
- **The HTTP routes**: creating and listing bookings, a customer cancelling a booking, the
  admin changing a booking's status, submitting and listing ratings, moderating and
  deleting ratings, and the admin's notification list.
- **The decision rules of the client components**, as functions and lemmas:
  - the landing page's booking form, service-area check and admin login;
  - the order-tracking page's cancel eligibility, countdown, progress steps and search;
  - the rating form's guards;
  - the admin dashboard's offered status changes and counters;
  - the rating moderation screen's actions, counters and stars.

The store is a class, `Database.Db`, whose three `seq` fields the route methods reassign.
Every POST, PATCH and DELETE handler is a method whose `ensures` gives the reply and the new
tables for every branch the handler takes, in the handler's own order of checks. The GET
handlers of the bookings, ratings and moderation routes only read the store, so they are
functions of the table they read. The admin notification list is a
module-level array in the source, so it is a class too (`NotifyAdminRoute.AdminInbox`).
The notifications the routes ask to have sent to customers are appended to a
`Notifications.NotificationLog`.

Several behaviours follow from the code, and the model proves them:

- A booking can be cancelled until the 31st whole minute has passed, not the 30th. The
  minutes are floored before they are compared with 30.
- The tracking page's countdown already shows nothing during that last minute.
- Rating a booking always marks it completed, even a cancelled one.
- The admin status route accepts any change. This includes completed back to pending, and a
  cancellation that records neither a time nor a reason. Only the dashboard's buttons follow
  the lifecycle.
- A booking has at most one approved or pending rating as long as ratings go through the
  rating route and the moderation screen. Approving a rejected rating through the moderation
  route directly can break this.

Times are integers (milliseconds since the epoch). Ids and the current time are
parameters of the operations, because the store and the clock generate them in the source.

## Model

| member | source | states |
|---|---|---|
| Tables.IndexOf | src/lib/database.ts:56-60 | the index of the first row with the id, and None exactly when no row has it |
| Tables.IndexOfUnique | src/lib/database.ts:56-60 | in a table with unique ids, looking up a row's own id finds that row |
| Tables.SortDesc | src/lib/database.ts:51-55 | the rows sorted newest first, a permutation of the input |
| Tables.SortDescOfSorted | src/app/api/ratings/route.ts:107-111 | sorting rows that are already newest first returns them unchanged |
| Tables.OrderedSelect | src/lib/database.ts:67-72 | exactly the rows satisfying the filter, each with its multiplicity, newest first |
| Text.Trim | src/components/OrderTracking.tsx:75 | the trimmed string occurs in the input with only whitespace before and after it, has no whitespace at either end, and is empty exactly when the input is all whitespace |
| Text.TrimUnpadded | src/components/RatingForm.tsx:32 | trimming a string with no whitespace at either end leaves it unchanged |
| Text.Utf16Length | src/components/RatingForm.tsx:32 | JavaScript's `length`: between one and two units per character, equal to the character count exactly when every character is in the Basic Multilingual Plane and twice it exactly when none is |
| Text.Lower | src/app/page.tsx:98-101 | same length, each ASCII capital lowered, every other character kept |
| Text.ContainsIff | src/lib/database.ts:73-84 | `contains` holds exactly when the query occurs at some position |
| Text.ContainsTransitive | src/lib/database.ts:73-84 | containment is transitive |
| Text.LexLeTransitive | src/lib/database.ts:182-192 | the ISO-date string comparison is transitive |
| Text.LexLeAntisymmetric | src/lib/database.ts:182-192 | and antisymmetric |
| Validation.FirstAbsent | src/app/api/bookings/route.ts:16-24 | None exactly when every field is present; otherwise the name of an absent field with all earlier fields present |
| Validation.FindMissingField | src/app/api/ratings/route.ts:12-21 | the loop over the fields returns the first absent field, or None |
| Records.NewBooking.ToRecord | src/lib/database.ts:85-89 | a created booking gets the given id, is stamped with the creation time, has no cancellation, and carries every supplied field unchanged |
| Records.NewRating.ToRecord | src/lib/database.ts:145-149 | a created rating gets the given id, is stamped with the creation time, and carries every supplied field unchanged |
| Records.NewPromo.ToRecord | src/lib/database.ts:193-197 | a created promo gets the given id, is stamped with the creation time, and carries every supplied field unchanged |
| Records.Catalog | src/app/api/bookings/route.ts:4-8 | a service exactly for the three codes, each with a name and a positive price |
| Records.ElapsedMinutes | src/app/api/cancel-booking/route.ts:36-41 | the floored whole minutes; at most 30 exactly when under 1,860,000 ms have passed; negative for a creation time in the future |
| Database.AllBookings | src/lib/database.ts:51-55 | every booking, newest first |
| Database.FindBookingById | src/lib/database.ts:56-60 | a booking with that id when one exists, and None exactly when none does |
| Database.BookingsByPhone | src/lib/database.ts:61-66 | exactly the bookings with that phone, newest first |
| Database.BookingsByStatus | src/lib/database.ts:67-72 | exactly the bookings with that status, newest first |
| Database.SearchBookings | src/lib/database.ts:73-84 | exactly the bookings whose phone, id or name contains the query, newest first |
| Database.AllRatings | src/lib/database.ts:123-127 | every rating, newest first |
| Database.FindRatingById | src/lib/database.ts:128-132 | a rating with that id when one exists, and None exactly when none does |
| Database.RatingsByBookingId | src/lib/database.ts:133-138 | exactly the ratings of that booking, newest first |
| Database.RatingsByStatus | src/lib/database.ts:139-144 | exactly the ratings whose status is spelled that way (an unknown spelling selects none), newest first |
| Database.AllPromos | src/lib/database.ts:177-181 | every promo, newest first |
| Database.ActivePromos | src/lib/database.ts:182-192 | exactly the active promos whose start is not after now and whose end is not before it, newest first |
| Database.ActivePromoHasOrderedWindow | src/lib/database.ts:182-192 | a promo whose end date sorts before its start date is never listed as active |
| Database.PatchBooking | src/lib/database.ts:90-107 | each field the patch names (status, cancellation time, cancellation reason) takes the patch's value, each one it leaves out is kept; the id, creation time and price cannot be patched in this model; the update time is now |
| Database.PatchPromo | src/lib/database.ts:198-209 | each of the eight fields the patch names takes the patch's value, each one it leaves out is kept; the id and creation time never change; the update time is now |
| Database.RemoveAt | src/lib/database.ts:108-118 | the table with exactly that one row left out, the others in order |
| Database.SampleRatings | src/lib/database.ts:277-304 | one approved rating for each seeded booking |
| Database.SampleBookingsMatchCatalog | src/lib/database.ts:229-268 | every seeded booking carries its service's catalog name and price |
| Database.Db.constructor | src/lib/database.ts:48-50 | an empty store with unique ids |
| Database.Db.CreateBooking | src/lib/database.ts:85-89 | appends exactly the new row; ids stay unique |
| Database.Db.UpdateBooking | src/lib/database.ts:90-107 | null and no change for an unknown id; otherwise only that row changes, to the patched row |
| Database.Db.DeleteBooking | src/lib/database.ts:108-118 | false and no change for an unknown id; otherwise true and exactly that row removed |
| Database.Db.CreateRating | src/lib/database.ts:145-149 | appends exactly the new row; ids stay unique |
| Database.Db.UpdateRating | src/lib/database.ts:150-161 | null and no change for an unknown id; otherwise only that row's status and update stamp change |
| Database.Db.DeleteRating | src/lib/database.ts:162-172 | false and no change for an unknown id; otherwise true and exactly that row removed |
| Database.Db.CreatePromo | src/lib/database.ts:193-197 | appends exactly the new row; ids stay unique |
| Database.Db.UpdatePromo | src/lib/database.ts:198-209 | null and no change for an unknown id; otherwise only that row changes, to the patched row |
| Database.Db.DeletePromo | src/lib/database.ts:210-220 | false and no change for an unknown id; otherwise true and exactly that row removed |
| Database.Db.SeedBookings | src/lib/database.ts:269-273 | the loop leaves exactly the three sample bookings, in order, with the given ids |
| Database.Db.SeedRatings | src/lib/database.ts:305-307 | the loop leaves exactly the three sample ratings, each naming its seeded booking |
| Database.Db.InitializeSampleData | src/lib/database.ts:225-309 | seeds bookings only into an empty booking table, and ratings only when both tables were empty; otherwise nothing changes |
| Notifications.NotificationLog.Send | src/app/api/bookings/route.ts:49-64 | the log grows by exactly the requested delivery |
| BookingsRoute.RequiredFieldsOrder | src/app/api/bookings/route.ts:16-24 | the check passes exactly when all six fields are present; otherwise it names the first missing one in the order name, phone, address, service, date, time |
| BookingsRoute.NewBookingFor | src/app/api/bookings/route.ts:35-46 | a new booking is pending, named and priced from the catalog whatever the client sent, and notes are copied |
| BookingsRoute.Post | src/app/api/bookings/route.ts:11-86 | 400 for a missing field, then 400 for an unknown service, with nothing stored or sent; otherwise 200 with exactly one appended booking and one new-booking notification |
| BookingsRoute.Get | src/app/api/bookings/route.ts:88-115 | newest first; a search replaces the status filter; exactly the selected bookings; the single-booking shape exactly when a search has one hit |
| CancelBookingRoute.StoredReason | src/app/api/cancel-booking/route.ts:52 | the stored reason is never empty, and is the given one whenever that is non-empty |
| CancelBookingRoute.Post | src/app/api/cancel-booking/route.ts:10-60 | 400 missing id, 404 unknown booking, 400 wrong status, 400 too late, in that order, changing nothing; otherwise only that booking becomes cancelled with time and reason; 200 exactly when the tracking page's eligibility rule holds |
| CancelBookingRoute.PageReasonIsStored | src/components/OrderTracking.tsx:183-186 | a reason the tracking page lets through is stored as typed |
| CancelBookingRoute.PageCopyMatchesStored | src/components/OrderTracking.tsx:204-215 | the page's local copy of a cancelled booking equals the stored one except for the two clocks |
| UpdateBookingRoute.NoticeKindFor | src/app/api/update-booking/route.ts:34-58 | confirmed and completed each trigger their own notification, and every other status none |
| UpdateBookingRoute.NoticesFor | src/app/api/update-booking/route.ts:34-58 | at most one notification, and exactly one for confirmed or completed |
| UpdateBookingRoute.Post | src/app/api/update-booking/route.ts:12-67 | 400 when the id or status is missing, 404 for an unknown booking, with nothing changed or sent; otherwise any status replaces any other, only status and update stamp change, and the matching notification is requested |
| RatingsRoute.RequiredFieldsPresent | src/app/api/ratings/route.ts:12-21 | the check passes exactly when all four fields are truthy; a rating of 0 is reported as missing |
| RatingsRoute.AnyLive | src/app/api/ratings/route.ts:47 | true exactly when some rating is approved or pending |
| RatingsRoute.DuplicateRule | src/app/api/ratings/route.ts:44-55 | a booking counts as rated exactly when the table holds an approved or pending rating for it |
| RatingsRoute.NewRatingFor | src/app/api/ratings/route.ts:58-65 | a new rating is pending and carries the booking's service name |
| RatingsRoute.Post | src/app/api/ratings/route.ts:12-82 | 400 missing field, 400 out of range, 404 unknown booking, 400 already rated, in that order, changing nothing; otherwise one pending rating appended and the booking set to completed; at most one live rating per booking is preserved |
| RatingsRoute.NoLiveBeforeAppend | src/app/api/ratings/route.ts:44-65 | appending a rating to a booking with no live one keeps at most one live rating per booking |
| RatingsRoute.Get | src/app/api/ratings/route.ts:93-112 | exactly the ratings of the effective status, newest first; only approved ones by default |
| RatingsRoute.GetDefaultIsApproved | src/app/api/ratings/route.ts:101-105 | asking for no status gives the same reply as asking for approved, exactly the approved ratings |
| ModerateRatingRoute.ActionStatus | src/app/api/moderate-rating/route.ts:16-26 | approve writes approved, reject writes rejected, and any other action is refused |
| ModerateRatingRoute.Moderated | src/app/api/moderate-rating/route.ts:9-41 | the table after a moderation: unchanged for a missing id, an invalid action or an unknown id; otherwise only the first rating with the id changes, to the action's status and the moderation time; ids and bookings are kept |
| ModerateRatingRoute.ModerationIdempotent | src/app/api/moderate-rating/route.ts:24-26 | moderating twice with the same id, action and time leaves the table as moderating once, and finds the rating at the same place |
| ModerateRatingRoute.Post | src/app/api/moderate-rating/route.ts:9-41 | 400 missing field, 400 invalid action, 404 unknown rating, changing nothing; otherwise only that rating's status and update stamp change, whatever its current status; the new table is the moderated one |
| ModerateRatingRoute.ModerateTwice | src/app/api/moderate-rating/route.ts:9-41 | repeating a moderation at the same instant gives the same reply and leaves the table exactly as one moderation does |
| ModerateRatingRoute.Get | src/app/api/moderate-rating/route.ts:52-68 | every rating, or exactly those of the given status, newest first |
| DeleteRatingRoute.Delete | src/app/api/delete-rating/route.ts:4-32 | 400 without an id; 500 for an unknown id; otherwise 200 and exactly that row removed |
| DeleteRatingRoute.RemovesExactlyThatRating | src/app/api/delete-rating/route.ts:16-19 | the table loses exactly that one rating, and no row with its id remains |
| NotifyAdminRoute.MessageFor | src/app/api/notify-admin/route.ts:18-20 | for a new rating, the rating prefix followed by the customer's name, and the booking id in the text; otherwise the generic prefix and the type in the text |
| NotifyAdminRoute.CountUnread | src/app/api/notify-admin/route.ts:55-57 | zero exactly when every entry is read |
| NotifyAdminRoute.MarkReadCount | src/app/api/notify-admin/route.ts:80-86 | marking an unread entry read lowers the unread count by one; marking a read one changes nothing |
| NotifyAdminRoute.AppendCount | src/app/api/notify-admin/route.ts:25 | appending an unread entry raises the unread count by one |
| NotifyAdminRoute.NatToString | src/app/api/notify-admin/route.ts:13 | a non-empty string of decimal digits, without a leading zero, whose decimal value is the number |
| NotifyAdminRoute.IntToString | src/app/api/notify-admin/route.ts:13 | a minus sign exactly for a negative number, followed by digits whose value is the number's magnitude |
| NotifyAdminRoute.IntToStringInjective | src/app/api/notify-admin/route.ts:13 | distinct times give distinct notification ids |
| NotifyAdminRoute.AdminInbox.Post | src/app/api/notify-admin/route.ts:6-37 | appends one unread entry with the message for its type; earlier entries are kept; the unread count grows by one |
| NotifyAdminRoute.AdminInbox.Get | src/app/api/notify-admin/route.ts:48-64 | newest first; the unread ones without changing the list, or all of them with the list itself sorted |
| NotifyAdminRoute.AdminInbox.Patch | src/app/api/notify-admin/route.ts:75-91 | with markAsRead, the first entry with the id becomes read and nothing else changes; always a success reply |
| OrderTracking.CanCancelBooking | src/components/OrderTracking.tsx:153-164 | pending or confirmed, and less than 1,860,000 ms since creation |
| OrderTracking.TimeUntilCancel | src/components/OrderTracking.tsx:166-180 | none once 30 whole minutes have passed; otherwise hours and minutes adding up to the minutes left |
| OrderTracking.CancellableWithoutCountdown | src/components/OrderTracking.tsx:153-180 | during the 31st minute a booking can still be cancelled while no countdown is shown |
| OrderTracking.Progress | src/components/OrderTracking.tsx:138-151 | a status's position among the four steps, and 0 for a status without a step |
| OrderTracking.StatusSteps | src/components/OrderTracking.tsx:138-151 | four steps in lifecycle order, completed exactly up to the status; only the first step for a cancelled booking |
| OrderTracking.SearchRequest | src/components/OrderTracking.tsx:75-78 | no request exactly when the query is blank; otherwise the query as typed |
| OrderTracking.SearchOutcomeFor | src/components/OrderTracking.tsx:106-111 | a booking is shown exactly when the reply has the single-booking shape, and it is the booking the reply carries |
| OrderTracking.SearchShowsSingleHit | src/components/OrderTracking.tsx:105-111 | a booking is shown exactly when the server's search has one hit, and then it is that hit |
| OrderTracking.FallbackFind | src/components/OrderTracking.tsx:87-104 | the first booking whose phone equals the query or whose id contains it (the hit with no earlier hit), and None only when there is none |
| OrderTracking.FallbackFindsOnlySearchHits | src/components/OrderTracking.tsx:93-95 | whatever the fallback finds, the server's search finds too |
| OrderTracking.FallbackMissesNameMatches | src/components/OrderTracking.tsx:93-95 | a name fragment is found by the server's search but not by the fallback |
| OrderTracking.MaySendCancel | src/components/OrderTracking.tsx:183-186 | a cancellation is sent exactly when a booking is shown and the reason is not all whitespace |
| OrderTracking.LocallyCancelled | src/components/OrderTracking.tsx:204-215 | the local copy is cancelled with the page's time and the typed reason, and keeps id, price and creation time |
| RatingForm.RatingAfterClicks | src/components/RatingForm.tsx:105-109 | 0 until a star is clicked, then the last star clicked, between 1 and 5 |
| RatingForm.CheckSubmission | src/components/RatingForm.tsx:27-51 | no stars first, then a trimmed comment under 10 UTF-16 code units; otherwise the body sent, with the comment trimmed |
| RatingForm.SubmitDisabled | src/components/RatingForm.tsx:147 | when the button is enabled, a star has been picked, so the no-stars guard never fires |
| RatingForm.AfterReply | src/components/RatingForm.tsx:58-66 | after a reply the form is no longer submitting, and becomes submitted on success |
| RatingForm.FormRequestPassesServerValidation | src/components/RatingForm.tsx:24-51 | every body the form sends passes the server's field and range checks |
| RatingForm.CommentMinimumIsClientOnly | src/components/RatingForm.tsx:32-35 | the server accepts a two-character comment that the form refuses |
| RatingForm.NineCharactersRefused | src/components/RatingForm.tsx:32-35 | a comment of nine digits is refused |
| RatingForm.TenCharactersSent | src/components/RatingForm.tsx:32-35 | a comment of ten digits is sent |
| RatingForm.AstralCharactersCountTwice | src/components/RatingForm.tsx:32-35 | a comment of five emoji outside the Basic Multilingual Plane counts as ten units and is sent |
| HomePage.AnyAreaMatches | src/app/page.tsx:98-101 | true exactly when one of the areas matches the address in either direction |
| HomePage.AcceptedByArea | src/app/page.tsx:98-101 | an address matching any one area is accepted |
| HomePage.AreaPrefixAccepted | src/app/page.tsx:98-101 | any prefix of an area name, in any ASCII case, is accepted |
| HomePage.FindPrice | src/app/page.tsx:117 | the price of the first service with the id, and 0 when no service has it |
| HomePage.ClientCatalogMatchesServer | src/app/page.tsx:44-79 | the page's services and prices are exactly the server catalog's, and an unknown service is sent with price 0 |
| HomePage.RequestFor | src/app/page.tsx:114-118 | the form's fields, pending, priced from the page's list |
| HomePage.CheckBooking | src/app/page.tsx:92-108 | an incomplete form first, then an address outside the areas; otherwise the request is sent |
| HomePage.CompletenessMatchesServer | src/app/page.tsx:92-95 | the page's completeness check holds exactly when the server's required-field check passes |
| HomePage.SentPriceIsStoredPrice | src/app/page.tsx:114-118 | for a known service, the price the page sends is the one the server stores |
| HomePage.AdminLogin | src/app/page.tsx:172-181 | admin mode exactly for the right password, which is then cleared; a wrong one is kept |
| AdminDashboard.RowActions | src/components/AdminDashboard.tsx:362-387 | at most one button per row, present exactly for pending, confirmed and in progress, and leading one step along the progress bar |
| AdminDashboard.DetailActions | src/components/AdminDashboard.tsx:490-532 | the row buttons, plus a refusal exactly for a pending booking |
| AdminDashboard.OfferedTransitions | src/components/AdminDashboard.tsx:362-532 | the offered changes are exactly pending to confirmed or cancelled, confirmed to in progress, and in progress to completed; nothing out of completed or cancelled |
| AdminDashboard.OfferedChangesAdvanceOneStep | src/components/AdminDashboard.tsx:362-532 | every offered change except a refusal moves one step along the tracking page's progress bar |
| AdminDashboard.CountStatus | src/components/AdminDashboard.tsx:226-232 | at most the number of bookings, and zero exactly when no booking has the status |
| AdminDashboard.CardCountsFilteredList | src/components/AdminDashboard.tsx:226-232 | a card's count is the length of the list filtered by its status |
| AdminDashboard.CountUncarded | src/components/AdminDashboard.tsx:226-232 | zero exactly when every booking's status has a card |
| AdminDashboard.CardsPartition | src/components/AdminDashboard.tsx:226-232 | the four cards plus the uncounted bookings are all the bookings |
| AdminDashboard.CardTotalBound | src/components/AdminDashboard.tsx:226-232 | the cards add up to at most the number of bookings, and to exactly that number when none is cancelled |
| AdminDashboard.CancelledAreUncarded | src/components/AdminDashboard.tsx:226-232 | when every status is one of the five, the uncounted bookings are the cancelled ones |
| AdminDashboard.DecrementUnread | src/components/AdminDashboard.tsx:147 | one less, never below zero |
| AdminDashboard.BadgeTracksInbox | src/components/AdminDashboard.tsx:147 | a correct badge stays correct when an unread entry is marked, and falls one below the truth when a read entry is marked |
| AdminDashboard.BookingsQuery | src/components/AdminDashboard.tsx:90 | no query for "all"; otherwise the status parameter |
| AdminDashboard.FilterSelectsOnServer | src/components/AdminDashboard.tsx:90 | "all" lists every booking, and any other non-empty filter exactly the bookings of that status, in the list shape |
| RatingModeration.OfferedActions | src/components/RatingModeration.tsx:282-308 | delete always; approve and reject exactly for a pending rating |
| RatingModeration.OfferedModerationKeepsOneLive | src/components/RatingModeration.tsx:291-308 | moderating as the screen offers keeps at most one live rating per booking |
| RatingModeration.ServerApprovalCanBreakOneLive | src/app/api/moderate-rating/route.ts:16-26 | approving a rejected rating of a booking that has been rated again leaves two live ratings |
| RatingModeration.CountStatus | src/components/RatingModeration.tsx:164-169 | at most the number of ratings, and zero exactly when no rating has the status |
| RatingModeration.CardCountsFilteredList | src/components/RatingModeration.tsx:164-169 | a card's count is the length of the list filtered by its status |
| RatingModeration.CountsPartition | src/components/RatingModeration.tsx:164-169 | every rating is counted by exactly one of the three cards |
| RatingModeration.RenderStars | src/components/RatingModeration.tsx:134-143 | five stars, exactly the first `rating` of them filled |
| RatingModeration.FilledStars | src/components/RatingModeration.tsx:134-143 | exactly the rating clamped to 0..5 stars are filled |
| RatingModeration.FilterSelectsOnServer | src/components/RatingModeration.tsx:59 | "all" lists every rating, and any other non-empty filter exactly the ratings of that status |
| Scenarios.StoreWithBooking | src/app/api/bookings/route.ts:11-86 | a fresh store after one booking request holds one pending, uncancelled booking |
| Scenarios.RatingCompletesCancelledBooking | src/app/api/ratings/route.ts:69-70 | a booking cancelled and then rated ends up completed |
| Scenarios.AdminCancelLeavesNoRecord | src/app/api/update-booking/route.ts:20 | an admin cancellation leaves no cancellation time and no reason |
| Scenarios.CompletedBackToPending | src/app/api/update-booking/route.ts:12-28 | the server reopens a completed booking that the dashboard never offers to reopen |
| Scenarios.CancelWindowEnd | src/app/api/cancel-booking/route.ts:36-46 | a cancellation at 1,859,999 ms is accepted and one at 1,860,000 ms is refused |
| Scenarios.StoreWithPendingRating | src/app/api/ratings/route.ts:57-65 | a submitted rating is stored pending |
| Scenarios.DuplicateRefused | src/app/api/ratings/route.ts:44-55 | a second rating is refused while the first is pending |
| Scenarios.StoreWithRejectedRating | src/app/api/moderate-rating/route.ts:24-26 | rejecting the pending rating succeeds and stores it rejected |
| Scenarios.ResubmitAfterRejection | src/app/api/ratings/route.ts:47 | once the first rating is rejected, a new one is accepted |

## Left out

- The 500 replies of the catch-all error handlers: a failing request body or store is not part of this model.
- CancelBookingRoute.Post: the route's "Failed to cancel booking" 500 reply cannot happen. The update follows a successful lookup of the same id, so the model does not have that branch.
- The customer notification gateway (`lib/notifications.ts`) is not part of this model. The routes' requests to it are recorded in a `NotificationLog`. Message text, delivery and the swallowed delivery errors are not modelled.
- Console logging, alerts, React state updates other than the flags modelled, and `fetch` itself are not modelled.
- Reply bodies are reduced to the record or list they carry. The routes' field projections and success messages (other than those of the delete, notify and patch routes) are not modelled.
- Ids and the current time are parameters, because the store and the clock generate them. The model stamps every update with the current time in `updatedAt`; the store does this itself, outside the source.
- Times are integer milliseconds. Locale formatting, the date and time strings of a booking, and the text of the countdown are not modelled.
- NotifyAdminRoute.AdminInbox.Post: the entry's `timestamp` is kept as the millisecond value, not its ISO 8601 text. The ordering it induces is the same. The route reads the clock twice, once for the id (`Date.now()`, src/app/api/notify-admin/route.ts:13) and once for the timestamp (route.ts:21); the model takes both from one `now`. No property of the model depends on the two readings being equal.
- Text.Lower: lowers ASCII letters only. JavaScript's `toLowerCase` also folds other scripts.
- Request fields are modelled as strings and an integer rating. Absent is the empty string or 0. JavaScript truthiness of other JSON values, and non-integer ratings, are not modelled.
- Prisma sorts rows with equal `createdAt` in some order, and `NotifyAdminRoute.AdminInbox.Get` sorts its array with JavaScript's stable `sort` (src/app/api/notify-admin/route.ts:61-63), which keeps entries with equal timestamps in the order they were pushed. The model fixes one order of ties, and its contracts state only the descending order and the multiset of rows, not the order of ties.
- Database.PatchBooking: together with Database.Db.UpdateRating, it models updates only in part. The store's `bookings.update` and `ratings.update` (src/lib/database.ts:90-107, 150-161) write any field of the partial record they are given. The model's patches carry only the fields the modelled routes send: the status (src/app/api/update-booking/route.ts:19, src/app/api/ratings/route.ts:70), the status, time and reason of a cancellation (src/app/api/cancel-booking/route.ts:48-52), and a rating's status (src/app/api/moderate-rating/route.ts:24-26). An update of any other field, such as the price or the id, is not modelled.
- Database.ActivePromos: compares the ISO 8601 strings the query sends as text. The database's own date comparison is not modelled.
- Two requests racing between the duplicate-rating check and the insert are not modelled. Each route runs as one atomic step.
- The bookings route's catalog lookup by key also answers inherited object properties. The model's catalog has exactly the three service codes.
- AdminDashboard.DecrementUnread: the dashboard defines `markNotificationAsRead` (src/components/AdminDashboard.tsx:133-150) but nothing in the rendered page calls it, so the badge decrement and BadgeTracksInbox describe code the user cannot reach.
- The rating detail modal, the testimonial display, the layout and the `bookings/[id]` route are not part of this model.
