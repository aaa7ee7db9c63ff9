/** The landing page's decision rules: the booking form's completeness and
    service-area checks, the request body it sends with its client-side
    price, and the admin password check. */
module HomePage {
  import opened Tables
  import opened Text
  import opened Records
  import opened Validation
  import BookingsRoute

  /** The booking form's fields. */
  datatype BookingForm = BookingForm(
    name: string,
    phone: string,
    address: string,
    service: string,
    date: string,
    time: string,
    notes: string)

  /** The form refuses to submit while any field but notes is empty. */
  predicate FormComplete(f: BookingForm)
  {
    f.name != "" && f.phone != "" && f.address != "" &&
    f.service != "" && f.date != "" && f.time != ""
  }

  const SERVICE_AREAS: seq<string> := [
    "Jakarta Pusat", "Jakarta Selatan", "Jakarta Barat",
    "Tangerang Kota", "Tangerang Selatan", "Kab. Tangerang"
  ]

  /** One area check: the address contains the area or the area contains
      the address, ignoring ASCII case. */
  predicate AreaMatch(address: string, area: string)
  {
    Contains(Lower(address), Lower(area)) || Contains(Lower(area), Lower(address))
  }

  /** `areas.some(...)`. */
  function AnyAreaMatches(areas: seq<string>, address: string): (r: bool)
    ensures r <==> exists k :: 0 <= k < |areas| && AreaMatch(address, areas[k])
  {
    if areas == [] then false
    else if AreaMatch(address, areas[0]) then true
    else
      var r := AnyAreaMatches(areas[1..], address);
      assert forall k :: 1 <= k < |areas| ==> areas[k] == areas[1..][k - 1];
      r
  }

  /** `isValidArea`. */
  predicate InServiceArea(address: string)
  {
    AnyAreaMatches(SERVICE_AREAS, address)
  }

  /** An address that matches one area is accepted. */
  lemma AcceptedByArea(address: string, k: nat)
    requires k < |SERVICE_AREAS| && AreaMatch(address, SERVICE_AREAS[k])
    ensures InServiceArea(address)
  {
  }

  /** Any prefix of an area name, in any ASCII case, is accepted as an
      address ("jakarta", or just "j"): the check also accepts an area that
      contains the address. */
  lemma {:induction false} AreaPrefixAccepted(address: string, k: nat)
    requires k < |SERVICE_AREAS|
    requires StartsWith(Lower(SERVICE_AREAS[k]), Lower(address))
    ensures InServiceArea(address)
  {
    AcceptedByArea(address, k);
  }

  /** One entry of the page's own service list, reduced to what the request
      uses. */
  datatype ClientService = ClientService(id: string, name: string, price: int)

  const CLIENT_SERVICES: seq<ClientService> := [
    ClientService("mandi-biasa", "Mandi Biasa", 50000),
    ClientService("mandi-kutu", "Mandi Anti Kutu", 75000),
    ClientService("mandi-grooming", "Mandi + Grooming Lengkap", 99000)
  ]

  /** `services.find(s => s.id === id)?.price || 0`: the price of the first
      service with the id, and 0 when none has it (a price of 0 is 0 either
      way). */
  function FindPrice(services: seq<ClientService>, id: string): (p: int)
    ensures p != 0 ==> exists k :: 0 <= k < |services| && services[k].id == id && services[k].price == p
    ensures (forall k :: 0 <= k < |services| ==> services[k].id != id) ==> p == 0
    ensures forall k ::
      (0 <= k < |services| && services[k].id == id && forall j :: 0 <= j < k ==> services[j].id != id)
      ==> p == services[k].price
  {
    if services == [] then 0
    else if services[0].id == id then services[0].price
    else
      var p := FindPrice(services[1..], id);
      assert forall k :: 1 <= k < |services| ==> services[k] == services[1..][k - 1];
      p
  }

  function ClientPrice(id: string): int
  {
    FindPrice(CLIENT_SERVICES, id)
  }

  /** The page's prices and names are the server catalog's: the price a
      form sends is the one the server stores, and an unknown service is
      sent with price 0. */
  lemma ClientCatalogMatchesServer(id: string)
    ensures Catalog(id).Some? ==> ClientPrice(id) == Catalog(id).value.price
    ensures Catalog(id).None? ==> ClientPrice(id) == 0
    ensures forall k :: 0 <= k < |CLIENT_SERVICES| ==>
      Catalog(CLIENT_SERVICES[k].id) ==
        Some(Service(CLIENT_SERVICES[k].name, CLIENT_SERVICES[k].price))
  {
  }

  /** The body `handleBookingSubmit` posts: the form, pending, priced from
      the page's list. */
  function RequestFor(f: BookingForm): (req: BookingsRoute.BookingRequest)
    ensures req.status == PENDING && req.totalPrice == ClientPrice(f.service)
    ensures req.name == f.name && req.phone == f.phone && req.address == f.address
    ensures req.service == f.service && req.date == f.date && req.time == f.time
    ensures req.notes == f.notes
  {
    BookingsRoute.BookingRequest(f.name, f.phone, f.address, f.service, f.date, f.time,
                                 f.notes, PENDING, ClientPrice(f.service))
  }

  /** What submitting the booking form does. */
  datatype BookingSubmission = Incomplete | OutsideArea | Send(request: BookingsRoute.BookingRequest)

  function CheckBooking(f: BookingForm): (s: BookingSubmission)
    ensures s == Incomplete <==> !FormComplete(f)
    ensures s == OutsideArea <==> FormComplete(f) && !InServiceArea(f.address)
    ensures s.Send? <==> FormComplete(f) && InServiceArea(f.address)
    ensures s.Send? ==> s.request == RequestFor(f)
  {
    if !FormComplete(f) then Incomplete
    else if !InServiceArea(f.address) then OutsideArea
    else Send(RequestFor(f))
  }

  /** The page's completeness check is the server's required-field check:
      a request the page sends never fails it, and a form the page refuses
      would fail it too. */
  lemma CompletenessMatchesServer(f: BookingForm)
    ensures FormComplete(f) <==> FirstAbsent(BookingsRoute.RequiredFields(RequestFor(f))).None?
  {
    BookingsRoute.RequiredFieldsOrder(RequestFor(f));
  }

  /** A request the page sends is stored with the price the page showed,
      whenever its service is one the server knows. */
  lemma SentPriceIsStoredPrice(f: BookingForm)
    requires CheckBooking(f).Send? && Catalog(f.service).Some?
    ensures BookingsRoute.NewBookingFor(RequestFor(f), Catalog(f.service).value).totalPrice ==
      RequestFor(f).totalPrice
  {
    ClientCatalogMatchesServer(f.service);
  }

  const ADMIN_PASSWORD := "admin123"

  /** `handleAdminLogin`: whether admin mode is entered, and the password
      field afterwards (cleared on success, kept on failure). */
  function AdminLogin(password: string): (r: (bool, string))
    ensures r.0 <==> password == ADMIN_PASSWORD
    ensures r.0 ==> r.1 == ""
    ensures !r.0 ==> r.1 == password
  {
    if password == ADMIN_PASSWORD then (true, "") else (false, password)
  }
}
