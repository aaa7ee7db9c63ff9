/** /api/ratings: POST records a customer's rating of a booking (at most one
    live rating per booking) and marks the booking completed; GET lists the
    ratings of one status, approved ones by default. */
module RatingsRoute {
  import opened Tables
  import opened Records
  import opened Database
  import opened Validation

  /** The request body. An absent text field is the empty string and an
      absent rating is 0: both are falsy, as the route's check sees them. */
  datatype RatingRequest = RatingRequest(
    bookingId: string,
    customerName: string,
    rating: int,
    comment: string)

  /** `requiredFields`, in the order the route checks them. */
  function RequiredFields(req: RatingRequest): seq<Field>
  {
    [ ("bookingId", req.bookingId != ""), ("customerName", req.customerName != ""),
      ("rating", req.rating != 0), ("comment", req.comment != "") ]
  }

  /** The required-field check passes exactly when all four fields are
      truthy; a rating of 0 is reported as missing, not as out of range. */
  lemma RequiredFieldsPresent(req: RatingRequest)
    ensures FirstAbsent(RequiredFields(req)).None? <==>
      req.bookingId != "" && req.customerName != "" && req.rating != 0 && req.comment != ""
    ensures req.bookingId != "" && req.customerName != "" && req.rating == 0 ==>
      FirstAbsent(RequiredFields(req)) == Some("rating")
  {
    var f := RequiredFields(req);
    assert f[4..] == [];
    assert FirstAbsent(f[3..]) == if req.comment == "" then Some("comment") else None;
    assert FirstAbsent(f[2..]) == if req.rating == 0 then Some("rating") else FirstAbsent(f[3..]);
    assert FirstAbsent(f[1..]) ==
      if req.customerName == "" then Some("customerName") else FirstAbsent(f[2..]);
  }

  /** Whether a request passes both validation steps. */
  predicate ValidRequest(req: RatingRequest)
  {
    FirstAbsent(RequiredFields(req)).None? && 1 <= req.rating <= 5
  }

  /** A rating still counts against its booking while it is approved or
      pending; a rejected one does not. */
  predicate IsLive(x: Rating)
  {
    x.status == Approved || x.status == RatingPending
  }

  /** `existingRatings.some(...)`. */
  function AnyLive(rs: seq<Rating>): (r: bool)
    ensures r <==> exists x :: x in rs && IsLive(x)
  {
    if rs == [] then false
    else IsLive(rs[0]) || AnyLive(rs[1..])
  }

  /** The duplicate rule in terms of the whole table: a booking already has
      a rating exactly when some approved or pending rating names it. */
  lemma DuplicateRule(rs: seq<Rating>, bookingId: string)
    ensures AnyLive(RatingsByBookingId(rs, bookingId)) <==>
      exists x :: x in rs && x.bookingId == bookingId && x.status != Rejected
  {
    if exists x :: x in rs && x.bookingId == bookingId && x.status != Rejected {
      var x :| x in rs && x.bookingId == bookingId && x.status != Rejected;
      assert x in RatingsByBookingId(rs, bookingId);
    }
  }

  /** The invariant the route keeps: no booking has two live ratings. */
  ghost predicate OneLivePerBooking(rs: seq<Rating>)
  {
    forall i, j :: 0 <= i < j < |rs| && rs[i].bookingId == rs[j].bookingId ==>
      !IsLive(rs[i]) || !IsLive(rs[j])
  }

  /** The row a valid request becomes: pending moderation, carrying the
      booking's service name. */
  function NewRatingFor(req: RatingRequest, booking: Booking): (d: NewRating)
    ensures d.status == RatingPending && d.serviceName == booking.serviceName
    ensures d.bookingId == req.bookingId && d.customerName == req.customerName
    ensures d.rating == req.rating && d.comment == req.comment
  {
    NewRating(req.bookingId, req.customerName, booking.serviceName, req.rating, req.comment,
              RatingPending)
  }

  method Post(db: Db, req: RatingRequest, newId: string, now: int) returns (r: Response)
    requires db.Valid() && FindRatingById(db.ratings, newId).None?
    modifies db
    ensures db.Valid()
    ensures db.promos == old(db.promos)
    ensures FirstAbsent(RequiredFields(req)).Some? ==>
      && r == Response(400, Error(MissingFieldMessage(FirstAbsent(RequiredFields(req)).value)))
      && db.bookings == old(db.bookings) && db.ratings == old(db.ratings)
    ensures FirstAbsent(RequiredFields(req)).None? && !(1 <= req.rating <= 5) ==>
      && r == Response(400, Error("Rating must be between 1 and 5"))
      && db.bookings == old(db.bookings) && db.ratings == old(db.ratings)
    ensures ValidRequest(req) && IndexOf(old(db.bookings), BookingKey, req.bookingId).None? ==>
      && r == Response(404, Error("Booking not found"))
      && db.bookings == old(db.bookings) && db.ratings == old(db.ratings)
    ensures ValidRequest(req) && IndexOf(old(db.bookings), BookingKey, req.bookingId).Some? ==>
      var i := IndexOf(old(db.bookings), BookingKey, req.bookingId).value;
      var b := old(db.bookings)[i];
      && (AnyLive(RatingsByBookingId(old(db.ratings), req.bookingId)) ==>
            && r == Response(400, Error("Anda sudah memberikan rating untuk booking ini"))
            && db.bookings == old(db.bookings) && db.ratings == old(db.ratings))
      && (!AnyLive(RatingsByBookingId(old(db.ratings), req.bookingId)) ==>
            var x := NewRatingFor(req, b).ToRecord(newId, now);
            && r == Response(200, OneRating(x))
            && db.ratings == old(db.ratings) + [x]
            && db.bookings == old(db.bookings)[i := b.(status := COMPLETED, updatedAt := now)])
    // after a successful submission the booking has a live rating, so a
    // second submission for it is refused
    ensures r.code == 200 ==> AnyLive(RatingsByBookingId(db.ratings, req.bookingId))
    ensures OneLivePerBooking(old(db.ratings)) ==> OneLivePerBooking(db.ratings)
  {
    var missing := FindMissingField(RequiredFields(req));
    if missing.Some? {
      return Response(400, Error(MissingFieldMessage(missing.value)));
    }
    if req.rating < 1 || req.rating > 5 {
      return Response(400, Error("Rating must be between 1 and 5"));
    }
    var found := FindBookingById(db.bookings, req.bookingId);
    if found.None? {
      return Response(404, Error("Booking not found"));
    }
    var booking := found.value;
    var existing := RatingsByBookingId(db.ratings, req.bookingId);
    if AnyLive(existing) {
      return Response(400, Error("Anda sudah memberikan rating untuk booking ini"));
    }
    ghost var before := db.ratings;
    var rating := db.CreateRating(NewRatingFor(req, booking), newId, now);
    var _ := db.UpdateBooking(booking.id, BookingPatch(Some(COMPLETED), None, None), now);
    r := Response(200, OneRating(rating));
    assert rating in RatingsByBookingId(db.ratings, req.bookingId);
    NoLiveBeforeAppend(before, rating);
  }

  /** Appending a live rating to a table where its booking has none keeps
      the invariant. */
  lemma NoLiveBeforeAppend(rs: seq<Rating>, x: Rating)
    requires !AnyLive(RatingsByBookingId(rs, x.bookingId))
    ensures OneLivePerBooking(rs) ==> OneLivePerBooking(rs + [x])
  {
    DuplicateRule(rs, x.bookingId);
  }

  /** The status GET filters by: the `status` parameter, or approved when
      it is absent or empty. */
  function EffectiveStatus(status: string): (s: string)
    ensures status != "" ==> s == status
    ensures status == "" ==> s == Approved.Name()
  {
    if status != "" then status else Approved.Name()
  }

  /** GET: the ratings of the effective status, newest first. The route
      sorts again what the store already returns sorted, which changes
      nothing. */
  function Get(rs: seq<Rating>, status: string): (r: Response)
    ensures r.code == 200 && r.payload.Ratings?
    ensures r.payload.ratings == RatingsByStatus(rs, EffectiveStatus(status))
    ensures SortedDesc(r.payload.ratings, RatingCreated)
    ensures forall x :: x in r.payload.ratings <==>
      x in rs && x.status.Name() == EffectiveStatus(status)
    ensures status == "" ==> forall x :: x in r.payload.ratings ==> x.status == Approved
  {
    var found := RatingsByStatus(rs, EffectiveStatus(status));
    SortDescOfSorted(found, RatingCreated);
    Response(200, Ratings(SortDesc(found, RatingCreated)))
  }

  /** Asking for no status is asking for the approved ratings: the public
      list shows nothing pending or rejected. */
  lemma GetDefaultIsApproved(rs: seq<Rating>)
    ensures Get(rs, "") == Get(rs, Approved.Name())
    ensures forall x :: x in Get(rs, "").payload.ratings <==> x in rs && x.status == Approved
  {
  }
}
