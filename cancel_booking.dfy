/** POST /api/cancel-booking: a customer cancels their own booking. The
    guards run in a fixed order (missing id, unknown booking, status, time
    window) and the first that fails decides the reply; only when all pass
    is the booking rewritten. */
module CancelBookingRoute {
  import opened Tables
  import opened Records
  import opened Database
  import OrderTracking

  const DEFAULT_REASON := "Cancelled by customer"

  /** The reason stored with a cancellation: the given one, or the default
      when none (an empty string) was given. */
  function StoredReason(reason: string): (r: string)
    ensures r != ""
    ensures reason != "" ==> r == reason
  {
    if reason != "" then reason else DEFAULT_REASON
  }

  /** The update the route applies on success. */
  function CancelPatch(reason: string, now: int): BookingPatch
  {
    BookingPatch(Some(CANCELLED), Some(now), Some(StoredReason(reason)))
  }

  method Post(db: Db, bookingId: string, cancelReason: string, now: int) returns (r: Response)
    requires db.Valid()
    modifies db
    ensures db.Valid()
    ensures db.ratings == old(db.ratings) && db.promos == old(db.promos)
    // the order of the guards
    ensures bookingId == "" ==>
      r == Response(400, Error("Booking ID is required")) && db.bookings == old(db.bookings)
    ensures bookingId != "" && IndexOf(old(db.bookings), BookingKey, bookingId).None? ==>
      r == Response(404, Error("Booking not found")) && db.bookings == old(db.bookings)
    ensures bookingId != "" && IndexOf(old(db.bookings), BookingKey, bookingId).Some? ==>
      var i := IndexOf(old(db.bookings), BookingKey, bookingId).value;
      var b := old(db.bookings)[i];
      && (b.status != PENDING && b.status != CONFIRMED ==>
            r == Response(400, Error("Booking cannot be cancelled. Status: " + b.status))
            && db.bookings == old(db.bookings))
      && ((b.status == PENDING || b.status == CONFIRMED) && ElapsedMinutes(b.createdAt, now) > 30 ==>
            r == Response(400, Error("Booking can only be cancelled within 30 minutes of ordering"))
            && db.bookings == old(db.bookings))
      && ((b.status == PENDING || b.status == CONFIRMED) && ElapsedMinutes(b.createdAt, now) <= 30 ==>
            var c := b.(status := CANCELLED, cancelledAt := Some(now),
                        cancelReason := Some(StoredReason(cancelReason)), updatedAt := now);
            r == Response(200, OneBooking(c)) && db.bookings == old(db.bookings)[i := c])
    // the server applies exactly the tracking page's eligibility rule
    ensures r.code == 200 <==>
      bookingId != "" && IndexOf(old(db.bookings), BookingKey, bookingId).Some? &&
      var b := old(db.bookings)[IndexOf(old(db.bookings), BookingKey, bookingId).value];
      OrderTracking.CanCancelBooking(b.status, b.createdAt, now)
    ensures r.code != 200 ==> db.bookings == old(db.bookings)
  {
    if bookingId == "" {
      return Response(400, Error("Booking ID is required"));
    }
    var found := FindBookingById(db.bookings, bookingId);
    if found.None? {
      return Response(404, Error("Booking not found"));
    }
    var booking := found.value;
    if booking.status != PENDING && booking.status != CONFIRMED {
      return Response(400, Error("Booking cannot be cancelled. Status: " + booking.status));
    }
    var minutesDiff := ElapsedMinutes(booking.createdAt, now);
    if minutesDiff > 30 {
      return Response(400, Error("Booking can only be cancelled within 30 minutes of ordering"));
    }
    var updated := db.UpdateBooking(bookingId, CancelPatch(cancelReason, now), now);
    r := Response(200, OneBooking(updated.value));
  }

  /** A reason the tracking page lets through is stored as typed: the
      default reason is only ever used by other callers. */
  lemma PageReasonIsStored(reason: string)
    requires OrderTracking.MaySendCancel(true, reason)
    ensures StoredReason(reason) == reason
  {
  }

  /** The page's own copy of a cancelled booking agrees with the stored one
      in everything but the clocks: the cancellation time is the page's and
      the update stamp is left as it was. */
  lemma PageCopyMatchesStored(b: Booking, reason: string, now: int, clientNow: int)
    requires OrderTracking.MaySendCancel(true, reason)
    ensures OrderTracking.LocallyCancelled(b, reason, clientNow) ==
      b.(status := CANCELLED, cancelledAt := Some(now), cancelReason := Some(StoredReason(reason)),
         updatedAt := now).(cancelledAt := Some(clientNow), updatedAt := b.updatedAt)
  {
    PageReasonIsStored(reason);
  }
}
