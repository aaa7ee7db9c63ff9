/** End-to-end runs of the routes against a fresh store, each exhibiting a
    behaviour that no single route states on its own. */
module Scenarios {
  import opened Tables
  import opened Records
  import opened Database
  import opened Notifications
  import Validation
  import BookingsRoute
  import CancelBookingRoute
  import UpdateBookingRoute
  import RatingsRoute
  import ModerateRatingRoute
  import AdminDashboard

  /** A complete booking request for the cheapest service. */
  function SampleRequest(): (req: BookingsRoute.BookingRequest)
    ensures Validation.FirstAbsent(BookingsRoute.RequiredFields(req)).None?
    ensures Catalog(req.service).Some?
  {
    var req := BookingsRoute.BookingRequest("Ani", "0812", "Jl. Sudirman, Jakarta Pusat", "mandi-biasa",
                                            "2024-02-01", "10:00", "", "", 0);
    BookingsRoute.RequiredFieldsOrder(req);
    req
  }

  /** A store holding one new pending booking "b1", created at time 0. */
  method StoreWithBooking() returns (db: Db, log: NotificationLog)
    ensures fresh(db) && fresh(log) && db.Valid()
    ensures |db.bookings| == 1 && db.bookings[0].id == "b1"
    ensures db.bookings[0].status == PENDING && db.bookings[0].createdAt == 0
    ensures db.bookings[0].cancelledAt.None? && db.bookings[0].cancelReason.None?
    ensures db.ratings == []
  {
    db := new Db();
    log := new NotificationLog();
    var _ := BookingsRoute.Post(db, log, SampleRequest(), "b1", 0);
  }

  /** A customer cancels, then rates the cancelled booking: the rating is
      accepted and turns the booking into a completed one. */
  method RatingCompletesCancelledBooking() returns (cancel: Response, rate: Response, status: string)
    ensures cancel.code == 200 && rate.code == 200
    ensures status == COMPLETED
  {
    var db, log := StoreWithBooking();
    cancel := CancelBookingRoute.Post(db, "b1", "berubah rencana", 60000);
    assert db.bookings[0].status == CANCELLED;
    var req := RatingsRoute.RatingRequest("b1", "Ani", 5, "Pelayanan bagus");
    RatingsRoute.RequiredFieldsPresent(req);
    rate := RatingsRoute.Post(db, req, "r1", 120000);
    status := db.bookings[0].status;
  }

  /** The admin cancels through the status update: the booking is cancelled
      but carries neither a cancellation time nor a reason. */
  method AdminCancelLeavesNoRecord() returns (r: Response)
    ensures r.code == 200 && r.payload.OneBooking?
    ensures r.payload.booking.status == CANCELLED
    ensures r.payload.booking.cancelledAt.None? && r.payload.booking.cancelReason.None?
  {
    var db, log := StoreWithBooking();
    r := UpdateBookingRoute.Post(db, log, "b1", CANCELLED, 1000);
  }

  /** The server ignores the lifecycle the dashboard offers: a completed
      booking can be put back to pending. */
  method CompletedBackToPending() returns (done: Response, reopened: Response)
    ensures !AdminDashboard.Offered(COMPLETED, PENDING)
    ensures done.code == 200 && reopened.code == 200 && reopened.payload.OneBooking?
    ensures reopened.payload.booking.status == PENDING
  {
    var db, log := StoreWithBooking();
    done := UpdateBookingRoute.Post(db, log, "b1", COMPLETED, 1000);
    reopened := UpdateBookingRoute.Post(db, log, "b1", PENDING, 2000);
    AdminDashboard.OfferedTransitions(COMPLETED, PENDING);
  }

  /** The cancel window ends at 31 minutes, not 30: one millisecond before
      the 31st minute is complete the booking is still cancelled, at that
      instant it is not. */
  method CancelWindowEnd() returns (inTime: Response, late: Response)
    ensures inTime.code == 200 && late.code == 400
  {
    var db, _ := StoreWithBooking();
    late := CancelBookingRoute.Post(db, "b1", "telat", 1860000);
    inTime := CancelBookingRoute.Post(db, "b1", "masih sempat", 1859999);
  }

  /** The store after the customer has rated booking "b1": rating "r1",
      pending moderation. */
  method StoreWithPendingRating() returns (db: Db)
    ensures fresh(db) && db.Valid()
    ensures |db.bookings| == 1 && db.bookings[0].id == "b1"
    ensures |db.ratings| == 1 && db.ratings[0].id == "r1" && db.ratings[0].bookingId == "b1"
    ensures db.ratings[0].status == RatingPending
  {
    var log;
    db, log := StoreWithBooking();
    var req := RatingsRoute.RatingRequest("b1", "Ani", 2, "Kurang rapi");
    RatingsRoute.RequiredFieldsPresent(req);
    var _ := RatingsRoute.Post(db, req, "r1", 1000);
  }

  /** A second rating for the same booking is refused while the first is
      pending... */
  method DuplicateRefused() returns (duplicate: Response)
    ensures duplicate == Response(400, Error("Anda sudah memberikan rating untuk booking ini"))
  {
    var db := StoreWithPendingRating();
    var req := RatingsRoute.RatingRequest("b1", "Ani", 5, "Sudah lebih baik");
    RatingsRoute.RequiredFieldsPresent(req);
    RatingsRoute.DuplicateRule(db.ratings, "b1");
    duplicate := RatingsRoute.Post(db, req, "r2", 2000);
  }

  /** The store after the admin has rejected that rating. */
  method StoreWithRejectedRating() returns (db: Db, reject: Response)
    ensures fresh(db) && db.Valid()
    ensures reject.code == 200
    ensures |db.bookings| == 1 && db.bookings[0].id == "b1"
    ensures |db.ratings| == 1 && db.ratings[0].id == "r1" && db.ratings[0].bookingId == "b1"
    ensures db.ratings[0].status == Rejected
  {
    db := StoreWithPendingRating();
    reject := ModerateRatingRoute.Post(db, "r1", "reject", 3000);
  }

  /** ... and accepted once the first has been rejected. */
  method ResubmitAfterRejection() returns (reject: Response, again: Response)
    ensures reject.code == 200 && again.code == 200
  {
    var db;
    db, reject := StoreWithRejectedRating();
    RatingsRoute.DuplicateRule(db.ratings, "b1");
    var req := RatingsRoute.RatingRequest("b1", "Ani", 5, "Sudah lebih baik");
    RatingsRoute.RequiredFieldsPresent(req);
    again := RatingsRoute.Post(db, req, "r2", 4000);
  }
}
