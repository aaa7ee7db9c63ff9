/** POST /api/update-booking: the admin overwrites a booking's status, with
    no check of the current status, then asks for the customer notification
    that the new status calls for. */
module UpdateBookingRoute {
  import opened Tables
  import opened Records
  import opened Database
  import opened Notifications

  /** Which notification a new status triggers: confirmed and completed
      each have one, every other status none. */
  function NoticeKindFor(status: string): (k: Option<Kind>)
    ensures k == Some(ConfirmedKind) <==> status == CONFIRMED
    ensures k == Some(CompletedKind) <==> status == COMPLETED
    ensures k.None? <==> status != CONFIRMED && status != COMPLETED
  {
    if status == CONFIRMED then Some(ConfirmedKind)
    else if status == COMPLETED then Some(CompletedKind)
    else None
  }

  /** The notifications requested for a booking moved to `status`. */
  function NoticesFor(status: string, bookingId: string): (ns: seq<Notice>)
    ensures |ns| <= 1
    ensures |ns| == 1 <==> status == CONFIRMED || status == COMPLETED
    ensures forall n :: n in ns ==> n.bookingId == bookingId && Some(n.kind) == NoticeKindFor(status)
  {
    match NoticeKindFor(status)
    case None => []
    case Some(k) => [Notice(k, bookingId)]
  }

  method Post(db: Db, log: NotificationLog, id: string, status: string, now: int)
    returns (r: Response)
    requires db.Valid()
    modifies db, log
    ensures db.Valid()
    ensures db.ratings == old(db.ratings) && db.promos == old(db.promos)
    ensures id == "" || status == "" ==>
      && r == Response(400, Error("ID and status are required"))
      && db.bookings == old(db.bookings) && log.sent == old(log.sent)
    ensures id != "" && status != "" && IndexOf(old(db.bookings), BookingKey, id).None? ==>
      && r == Response(404, Error("Booking not found"))
      && db.bookings == old(db.bookings) && log.sent == old(log.sent)
    // any status may replace any other; only the status (and the update
    // stamp) changes, so cancelling here sets neither cancelledAt nor
    // cancelReason
    ensures id != "" && status != "" && IndexOf(old(db.bookings), BookingKey, id).Some? ==>
      var i := IndexOf(old(db.bookings), BookingKey, id).value;
      var b := old(db.bookings)[i].(status := status, updatedAt := now);
      && r == Response(200, OneBooking(b))
      && db.bookings == old(db.bookings)[i := b]
      && log.sent == old(log.sent) + NoticesFor(status, id)
  {
    if id == "" || status == "" {
      return Response(400, Error("ID and status are required"));
    }
    var updated := db.UpdateBooking(id, BookingPatch(Some(status), None, None), now);
    if updated.None? {
      return Response(404, Error("Booking not found"));
    }
    var booking := updated.value;
    if status == CONFIRMED {
      log.Send(Notice(ConfirmedKind, booking.id));
    } else if status == COMPLETED {
      log.Send(Notice(CompletedKind, booking.id));
    }
    r := Response(200, OneBooking(booking));
  }
}
