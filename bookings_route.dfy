/** /api/bookings: POST creates a booking from a customer's form, pricing it
    from the fixed catalog; GET lists bookings, by status or by search. */
module BookingsRoute {
  import opened Tables
  import opened Records
  import opened Database
  import opened Validation
  import opened Notifications

  /** The request body. A field the client left out is the empty string;
      `status` and `totalPrice` are whatever the client sent, and are
      ignored. */
  datatype BookingRequest = BookingRequest(
    name: string,
    phone: string,
    address: string,
    service: string,
    date: string,
    time: string,
    notes: string,
    status: string,
    totalPrice: int)

  /** `requiredFields`, in the order the route checks them. */
  function RequiredFields(req: BookingRequest): seq<Field>
  {
    [ ("name", req.name != ""), ("phone", req.phone != ""), ("address", req.address != ""),
      ("service", req.service != ""), ("date", req.date != ""), ("time", req.time != "") ]
  }

  /** The required-field check fails exactly when one of the six fields is
      empty, and then names the first of them; notes are optional. */
  lemma RequiredFieldsOrder(req: BookingRequest)
    ensures FirstAbsent(RequiredFields(req)).None? <==>
      req.name != "" && req.phone != "" && req.address != "" &&
      req.service != "" && req.date != "" && req.time != ""
    ensures req.name == "" ==> FirstAbsent(RequiredFields(req)) == Some("name")
    ensures req.name != "" && req.phone == "" ==> FirstAbsent(RequiredFields(req)) == Some("phone")
    ensures req.name != "" && req.phone != "" && req.address == "" ==>
      FirstAbsent(RequiredFields(req)) == Some("address")
    ensures req.name != "" && req.phone != "" && req.address != "" && req.service == "" ==>
      FirstAbsent(RequiredFields(req)) == Some("service")
    ensures (req.name != "" && req.phone != "" && req.address != "" && req.service != "" &&
             req.date == "") ==> FirstAbsent(RequiredFields(req)) == Some("date")
    ensures (req.name != "" && req.phone != "" && req.address != "" && req.service != "" &&
             req.date != "" && req.time == "") ==> FirstAbsent(RequiredFields(req)) == Some("time")
  {
    var f := RequiredFields(req);
    assert f[6..] == [];
    assert FirstAbsent(f[5..]) == if req.time == "" then Some("time") else None;
    assert FirstAbsent(f[4..]) == if req.date == "" then Some("date") else FirstAbsent(f[5..]);
    assert FirstAbsent(f[3..]) == if req.service == "" then Some("service") else FirstAbsent(f[4..]);
    assert FirstAbsent(f[2..]) == if req.address == "" then Some("address") else FirstAbsent(f[3..]);
    assert FirstAbsent(f[1..]) == if req.phone == "" then Some("phone") else FirstAbsent(f[2..]);
    assert FirstAbsent(f) == if req.name == "" then Some("name") else FirstAbsent(f[1..]);
  }

  /** The row a valid request becomes: pending, named and priced from the
      catalog, whatever status or price the client sent. */
  function NewBookingFor(req: BookingRequest, service: Service): (d: NewBooking)
    ensures d.status == PENDING && d.serviceName == service.name && d.totalPrice == service.price
    ensures d.name == req.name && d.phone == req.phone && d.address == req.address
    ensures d.service == req.service && d.date == req.date && d.time == req.time
    ensures d.notes == req.notes
  {
    NewBooking(req.name, req.phone, req.address, req.service, service.name,
               req.date, req.time, req.notes, PENDING, service.price)
  }

  method Post(db: Db, log: NotificationLog, req: BookingRequest, newId: string, now: int)
    returns (r: Response)
    requires db.Valid() && FindBookingById(db.bookings, newId).None?
    modifies db, log
    ensures db.Valid()
    ensures db.ratings == old(db.ratings) && db.promos == old(db.promos)
    ensures FirstAbsent(RequiredFields(req)).Some? ==>
      && r == Response(400, Error(MissingFieldMessage(FirstAbsent(RequiredFields(req)).value)))
      && db.bookings == old(db.bookings) && log.sent == old(log.sent)
    ensures FirstAbsent(RequiredFields(req)).None? && Catalog(req.service).None? ==>
      && r == Response(400, Error("Invalid service selected"))
      && db.bookings == old(db.bookings) && log.sent == old(log.sent)
    ensures FirstAbsent(RequiredFields(req)).None? && Catalog(req.service).Some? ==>
      var b := NewBookingFor(req, Catalog(req.service).value).ToRecord(newId, now);
      && r == Response(200, OneBooking(b))
      && db.bookings == old(db.bookings) + [b]
      && log.sent == old(log.sent) + [Notice(NewBookingKind, newId)]
  {
    var missing := FindMissingField(RequiredFields(req));
    if missing.Some? {
      return Response(400, Error(MissingFieldMessage(missing.value)));
    }
    var service := Catalog(req.service);
    if service.None? {
      return Response(400, Error("Invalid service selected"));
    }
    var booking := db.CreateBooking(NewBookingFor(req, service.value), newId, now);
    log.Send(Notice(NewBookingKind, booking.id));
    r := Response(200, OneBooking(booking));
  }

  /** The bookings a reply carries, whichever shape it has. */
  function Listed(p: Payload): seq<Booking>
  {
    match p
    case OneBooking(b) => [b]
    case Bookings(bs) => bs
    case _ => []
  }

  /** Which bookings GET selects: a search replaces the status filter
      entirely; with neither parameter every booking is selected. */
  predicate Selected(b: Booking, status: string, search: string)
  {
    if search != "" then MatchesSearch(b, search)
    else if status != "" then b.status == status
    else true
  }

  /** GET, with absent query parameters as empty strings. */
  function Get(bs: seq<Booking>, status: string, search: string): (r: Response)
    ensures r.code == 200
    ensures r.payload.OneBooking? || r.payload.Bookings?
    ensures SortedDesc(Listed(r.payload), BookingCreated)
    ensures forall b {:trigger multiset(Listed(r.payload))[b]} ::
      multiset(Listed(r.payload))[b] == if Selected(b, status, search) then multiset(bs)[b] else 0
    ensures r.payload.OneBooking? <==> search != "" && |SearchBookings(bs, search)| == 1
  {
    if search != "" then
      var hits := SearchBookings(bs, search);
      if |hits| == 1 then
        assert hits == [hits[0]];
        Response(200, OneBooking(hits[0]))
      else Response(200, Bookings(hits))
    else if status != "" then Response(200, Bookings(BookingsByStatus(bs, status)))
    else Response(200, Bookings(AllBookings(bs)))
  }
}
