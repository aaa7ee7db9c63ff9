/** The records the store keeps (Booking, Rating, Promo), the fixed service
    catalog, the elapsed-minutes arithmetic shared by the server and the
    tracking page, and the shape of a route's response. */
module Records {
  import opened Tables

  /** A booking row. `status` is free text: the admin update route stores
      whatever string it is given. Times are milliseconds since the epoch. */
  datatype Booking = Booking(
    id: string,
    name: string,
    phone: string,
    address: string,
    service: string,
    serviceName: string,
    date: string,
    time: string,
    notes: string,
    status: string,
    totalPrice: int,
    cancelledAt: Option<int>,
    cancelReason: Option<string>,
    createdAt: int,
    updatedAt: int)

  /** The fields a caller supplies when creating a booking; the store adds
      the id and the timestamps. */
  datatype NewBooking = NewBooking(
    name: string,
    phone: string,
    address: string,
    service: string,
    serviceName: string,
    date: string,
    time: string,
    notes: string,
    status: string,
    totalPrice: int)
  {
    function ToRecord(id: string, now: int): (b: Booking)
      ensures b.id == id && b.createdAt == now && b.updatedAt == now
      ensures b.cancelledAt.None? && b.cancelReason.None?
      ensures b.name == name && b.phone == phone && b.address == address
      ensures b.service == service && b.serviceName == serviceName
      ensures b.date == date && b.time == time && b.notes == notes
      ensures b.status == status && b.totalPrice == totalPrice
    {
      Booking(id, name, phone, address, service, serviceName, date, time, notes,
              status, totalPrice, None, None, now, now)
    }
  }

  const PENDING := "pending"
  const CONFIRMED := "confirmed"
  const IN_PROGRESS := "in-progress"
  const COMPLETED := "completed"
  const CANCELLED := "cancelled"

  /** The rating statuses. Only literals are ever written to a rating's
      status, so the model makes it an enumeration. */
  datatype RatingStatus = RatingPending | Approved | Rejected
  {
    function Name(): string
    {
      match this
      case RatingPending => "pending"
      case Approved => "approved"
      case Rejected => "rejected"
    }
  }

  datatype Rating = Rating(
    id: string,
    bookingId: string,
    customerName: string,
    serviceName: string,
    rating: int,
    comment: string,
    status: RatingStatus,
    createdAt: int,
    updatedAt: int)

  datatype NewRating = NewRating(
    bookingId: string,
    customerName: string,
    serviceName: string,
    rating: int,
    comment: string,
    status: RatingStatus)
  {
    function ToRecord(id: string, now: int): (r: Rating)
      ensures r.id == id && r.createdAt == now && r.updatedAt == now
      ensures r.bookingId == bookingId && r.customerName == customerName
      ensures r.serviceName == serviceName && r.rating == rating
      ensures r.comment == comment && r.status == status
    {
      Rating(id, bookingId, customerName, serviceName, rating, comment, status, now, now)
    }
  }

  /** A promotion; `startDate` and `endDate` are ISO 8601 strings. */
  datatype Promo = Promo(
    id: string,
    title: string,
    description: string,
    startDate: string,
    endDate: string,
    isActive: bool,
    originalPrice: int,
    discountedPrice: Option<int>,
    discountPercentage: Option<int>,
    createdAt: int,
    updatedAt: int)

  datatype NewPromo = NewPromo(
    title: string,
    description: string,
    startDate: string,
    endDate: string,
    isActive: bool,
    originalPrice: int,
    discountedPrice: Option<int>,
    discountPercentage: Option<int>)
  {
    function ToRecord(id: string, now: int): (p: Promo)
      ensures p.id == id && p.createdAt == now && p.updatedAt == now
      ensures p.title == title && p.description == description
      ensures p.startDate == startDate && p.endDate == endDate && p.isActive == isActive
      ensures p.originalPrice == originalPrice && p.discountedPrice == discountedPrice
      ensures p.discountPercentage == discountPercentage
    {
      Promo(id, title, description, startDate, endDate, isActive, originalPrice,
            discountedPrice, discountPercentage, now, now)
    }
  }

  function BookingKey(b: Booking): string { b.id }
  function BookingCreated(b: Booking): int { b.createdAt }
  function RatingKey(r: Rating): string { r.id }
  function RatingCreated(r: Rating): int { r.createdAt }
  function PromoKey(p: Promo): string { p.id }
  function PromoCreated(p: Promo): int { p.createdAt }

  /** One entry of the server's service catalog. */
  datatype Service = Service(name: string, price: int)

  /** The server's fixed catalog of exactly three service codes. */
  function Catalog(code: string): (s: Option<Service>)
    ensures s.Some? <==> code in ["mandi-biasa", "mandi-kutu", "mandi-grooming"]
    ensures s.Some? ==> s.value.price > 0 && s.value.name != ""
  {
    if code == "mandi-biasa" then Some(Service("Mandi Biasa", 50000))
    else if code == "mandi-kutu" then Some(Service("Mandi Anti Kutu", 75000))
    else if code == "mandi-grooming" then Some(Service("Mandi + Grooming Lengkap", 99000))
    else None
  }

  /** `Math.floor((now - createdAt) / 60000)`: whole minutes since creation.
      Dafny's division by a positive constant rounds toward minus infinity,
      as `Math.floor` does, also for a creation time in the future. */
  function ElapsedMinutes(createdAt: int, now: int): (m: int)
    ensures m <= 30 <==> now - createdAt < 1860000
    ensures m >= 30 <==> now - createdAt >= 1800000
    ensures now - createdAt < 0 ==> m < 0
    ensures now - createdAt >= 0 ==> m >= 0
    ensures m * 60000 <= now - createdAt < (m + 1) * 60000
  {
    (now - createdAt) / 60000
  }

  /** The JSON body of a route's reply, reduced to what the model tracks. */
  datatype Payload =
    | Error(message: string)
    | OneBooking(booking: Booking)
    | Bookings(bookings: seq<Booking>)
    | OneRating(rating: Rating)
    | Ratings(ratings: seq<Rating>)
    | Done(message: string)

  /** An HTTP status code and its body. */
  datatype Response = Response(code: int, payload: Payload)
}
