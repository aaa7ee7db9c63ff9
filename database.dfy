/** The store behind the routes (`dbOperations` in the source): three tables
    held in insertion order, read-only queries that return their rows newest
    first, and the create, update, delete and seeding operations. */
module Database {
  import opened Tables
  import opened Text
  import opened Records

  // ---------------------------------------------------------------------
  // Booking queries
  // ---------------------------------------------------------------------

  /** `bookings.getAll`: every booking, newest first. */
  function AllBookings(bs: seq<Booking>): (r: seq<Booking>)
    ensures SortedDesc(r, BookingCreated)
    ensures multiset(r) == multiset(bs)
  {
    SortDesc(bs, BookingCreated)
  }

  /** `bookings.findById`: the booking with that id, if there is one. */
  function FindBookingById(bs: seq<Booking>, id: string): (r: Option<Booking>)
    ensures r.Some? <==> exists i :: 0 <= i < |bs| && bs[i].id == id
    ensures r.Some? ==> r.value in bs && r.value.id == id
  {
    match IndexOf(bs, BookingKey, id)
    case None => None
    case Some(i) => Some(bs[i])
  }

  /** `bookings.findByPhone`: exactly the bookings with that phone number. */
  function BookingsByPhone(bs: seq<Booking>, phone: string): (r: seq<Booking>)
    ensures SortedDesc(r, BookingCreated)
    ensures forall b {:trigger multiset(r)[b]} ::
      multiset(r)[b] == if b.phone == phone then multiset(bs)[b] else 0
  {
    OrderedSelect(bs, (b: Booking) => b.phone == phone, BookingCreated)
  }

  /** `bookings.findByStatus`: exactly the bookings with that status. */
  function BookingsByStatus(bs: seq<Booking>, status: string): (r: seq<Booking>)
    ensures SortedDesc(r, BookingCreated)
    ensures forall b {:trigger multiset(r)[b]} ::
      multiset(r)[b] == if b.status == status then multiset(bs)[b] else 0
  {
    OrderedSelect(bs, (b: Booking) => b.status == status, BookingCreated)
  }

  /** The `where` of `bookings.search`: phone, id or name contains `q`
      (case-sensitive). */
  predicate MatchesSearch(b: Booking, q: string)
  {
    Contains(b.phone, q) || Contains(b.id, q) || Contains(b.name, q)
  }

  /** `bookings.search`: exactly the bookings whose phone, id or name
      contains `q`. */
  function SearchBookings(bs: seq<Booking>, q: string): (r: seq<Booking>)
    ensures SortedDesc(r, BookingCreated)
    ensures forall b {:trigger multiset(r)[b]} ::
      multiset(r)[b] == if MatchesSearch(b, q) then multiset(bs)[b] else 0
  {
    OrderedSelect(bs, (b: Booking) => MatchesSearch(b, q), BookingCreated)
  }

  // ---------------------------------------------------------------------
  // Rating queries
  // ---------------------------------------------------------------------

  /** `ratings.getAll`: every rating, newest first. */
  function AllRatings(rs: seq<Rating>): (r: seq<Rating>)
    ensures SortedDesc(r, RatingCreated)
    ensures multiset(r) == multiset(rs)
  {
    SortDesc(rs, RatingCreated)
  }

  /** `ratings.findById`. */
  function FindRatingById(rs: seq<Rating>, id: string): (r: Option<Rating>)
    ensures r.Some? <==> exists i :: 0 <= i < |rs| && rs[i].id == id
    ensures r.Some? ==> r.value in rs && r.value.id == id
  {
    match IndexOf(rs, RatingKey, id)
    case None => None
    case Some(i) => Some(rs[i])
  }

  /** `ratings.findByBookingId`: exactly the ratings of that booking. */
  function RatingsByBookingId(rs: seq<Rating>, bookingId: string): (r: seq<Rating>)
    ensures SortedDesc(r, RatingCreated)
    ensures forall x {:trigger multiset(r)[x]} ::
      multiset(r)[x] == if x.bookingId == bookingId then multiset(rs)[x] else 0
    ensures forall x :: x in r <==> x in rs && x.bookingId == bookingId
  {
    OrderedSelect(rs, (x: Rating) => x.bookingId == bookingId, RatingCreated)
  }

  /** `ratings.findByStatus`: exactly the ratings whose status is spelled
      `status`; an unknown spelling selects nothing. */
  function RatingsByStatus(rs: seq<Rating>, status: string): (r: seq<Rating>)
    ensures SortedDesc(r, RatingCreated)
    ensures forall x {:trigger multiset(r)[x]} ::
      multiset(r)[x] == if x.status.Name() == status then multiset(rs)[x] else 0
    ensures forall x :: x in r <==> x in rs && x.status.Name() == status
  {
    OrderedSelect(rs, (x: Rating) => x.status.Name() == status, RatingCreated)
  }

  // ---------------------------------------------------------------------
  // Promo queries
  // ---------------------------------------------------------------------

  /** `promos.getAll`. */
  function AllPromos(ps: seq<Promo>): (r: seq<Promo>)
    ensures SortedDesc(r, PromoCreated)
    ensures multiset(r) == multiset(ps)
  {
    SortDesc(ps, PromoCreated)
  }

  /** The `where` of `promos.findActive`, with `nowIso` the current time as
      an ISO 8601 string: active, and started and not yet ended when the
      strings are compared. */
  predicate IsActivePromo(p: Promo, nowIso: string)
  {
    p.isActive && LexLe(p.startDate, nowIso) && LexLe(nowIso, p.endDate)
  }

  /** `promos.findActive`: exactly the active promos. */
  function ActivePromos(ps: seq<Promo>, nowIso: string): (r: seq<Promo>)
    ensures SortedDesc(r, PromoCreated)
    ensures forall p {:trigger multiset(r)[p]} ::
      multiset(r)[p] == if IsActivePromo(p, nowIso) then multiset(ps)[p] else 0
    ensures forall p :: p in r <==> p in ps && IsActivePromo(p, nowIso)
  {
    OrderedSelect(ps, (p: Promo) => IsActivePromo(p, nowIso), PromoCreated)
  }

  /** A promo whose end date sorts before its start date is never active. */
  lemma ActivePromoHasOrderedWindow(ps: seq<Promo>, nowIso: string, p: Promo)
    requires p in ActivePromos(ps, nowIso)
    ensures p.isActive && LexLe(p.startDate, p.endDate)
  {
    LexLeTransitive(p.startDate, nowIso, p.endDate);
  }

  // ---------------------------------------------------------------------
  // Partial updates
  // ---------------------------------------------------------------------

  /** The fields of a booking update that the routes use; `None` leaves a
      field as it is. */
  datatype BookingPatch = BookingPatch(
    status: Option<string>,
    cancelledAt: Option<int>,
    cancelReason: Option<string>)

  /** A booking after `patch`, stamped with `now`. Everything the patch does
      not name is kept: in particular the id, the creation time and the
      price snapshot never change. */
  function PatchBooking(b: Booking, patch: BookingPatch, now: int): (r: Booking)
    ensures r.id == b.id && r.createdAt == b.createdAt && r.totalPrice == b.totalPrice
    ensures r.name == b.name && r.phone == b.phone && r.address == b.address
    ensures r.service == b.service && r.serviceName == b.serviceName
    ensures r.date == b.date && r.time == b.time && r.notes == b.notes
    ensures patch.status.None? ==> r.status == b.status
    ensures patch.cancelledAt.None? ==> r.cancelledAt == b.cancelledAt
    ensures patch.cancelReason.None? ==> r.cancelReason == b.cancelReason
    ensures patch.status.Some? ==> r.status == patch.status.value
    ensures patch.cancelledAt.Some? ==> r.cancelledAt == Some(patch.cancelledAt.value)
    ensures patch.cancelReason.Some? ==> r.cancelReason == Some(patch.cancelReason.value)
    ensures r.updatedAt == now
  {
    b.(status := if patch.status.Some? then patch.status.value else b.status,
       cancelledAt := if patch.cancelledAt.Some? then Some(patch.cancelledAt.value) else b.cancelledAt,
       cancelReason := if patch.cancelReason.Some? then Some(patch.cancelReason.value) else b.cancelReason,
       updatedAt := now)
  }

  /** The fields of a promo update; `None` leaves a field as it is. */
  datatype PromoPatch = PromoPatch(
    title: Option<string>,
    description: Option<string>,
    startDate: Option<string>,
    endDate: Option<string>,
    isActive: Option<bool>,
    originalPrice: Option<int>,
    discountedPrice: Option<Option<int>>,
    discountPercentage: Option<Option<int>>)

  /** A promo after `patch`, stamped with `now`: each field the patch names
      takes the patch's value, every other field is kept. */
  function PatchPromo(p: Promo, patch: PromoPatch, now: int): (r: Promo)
    ensures r.id == p.id && r.createdAt == p.createdAt
    ensures patch.isActive.None? ==> r.isActive == p.isActive
    ensures patch.startDate.None? ==> r.startDate == p.startDate
    ensures patch.endDate.None? ==> r.endDate == p.endDate
    ensures patch.title.None? ==> r.title == p.title
    ensures patch.description.None? ==> r.description == p.description
    ensures patch.originalPrice.None? ==> r.originalPrice == p.originalPrice
    ensures patch.discountedPrice.None? ==> r.discountedPrice == p.discountedPrice
    ensures patch.discountPercentage.None? ==> r.discountPercentage == p.discountPercentage
    ensures patch.title.Some? ==> r.title == patch.title.value
    ensures patch.description.Some? ==> r.description == patch.description.value
    ensures patch.startDate.Some? ==> r.startDate == patch.startDate.value
    ensures patch.endDate.Some? ==> r.endDate == patch.endDate.value
    ensures patch.isActive.Some? ==> r.isActive == patch.isActive.value
    ensures patch.originalPrice.Some? ==> r.originalPrice == patch.originalPrice.value
    ensures patch.discountedPrice.Some? ==> r.discountedPrice == patch.discountedPrice.value
    ensures patch.discountPercentage.Some? ==> r.discountPercentage == patch.discountPercentage.value
    ensures r.updatedAt == now
  {
    Promo(p.id,
          Overwrite(patch.title, p.title),
          Overwrite(patch.description, p.description),
          Overwrite(patch.startDate, p.startDate),
          Overwrite(patch.endDate, p.endDate),
          Overwrite(patch.isActive, p.isActive),
          Overwrite(patch.originalPrice, p.originalPrice),
          Overwrite(patch.discountedPrice, p.discountedPrice),
          Overwrite(patch.discountPercentage, p.discountPercentage),
          p.createdAt,
          now)
  }

  /** `s` without its row at `i`. */
  function RemoveAt<R>(s: seq<R>, i: nat): (r: seq<R>)
    requires i < |s|
    ensures |r| == |s| - 1
    ensures forall j :: 0 <= j < i ==> r[j] == s[j]
    ensures forall j :: i <= j < |r| ==> r[j] == s[j + 1]
  {
    s[..i] + s[i + 1..]
  }

  // ---------------------------------------------------------------------
  // Seed data
  // ---------------------------------------------------------------------

  /** The three bookings seeded into an empty store. */
  const SAMPLE_BOOKINGS: seq<NewBooking> := [
    NewBooking("John Doe", "08123456789", "Jl. Sudirman No. 123, Jakarta Pusat",
               "mandi-biasa", "Mandi Biasa", "2024-01-15", "10:00",
               "Kucing saya agak takut dengan orang asing", COMPLETED, 50000),
    NewBooking("Sarah P.", "08123456788", "Jl. Thamrin No. 456, Jakarta Selatan",
               "mandi-kutu", "Mandi Anti Kutu", "2024-01-16", "14:00",
               "Mohon treatment extra untuk kutu", COMPLETED, 75000),
    NewBooking("Budi S.", "08123456787", "Jl. Gatot Subroto No. 789, Jakarta Barat",
               "mandi-grooming", "Mandi + Grooming Lengkap", "2024-01-17", "09:00",
               "Kucing persia, bulu panjang", COMPLETED, 99000)
  ]

  /** Customer name, service name and comment of the three seeded ratings,
      all of them five stars and approved. */
  const SAMPLE_RATING_TEXTS: seq<(string, string, string)> := [
    ("John Doe", "Mandi Biasa",
     "Pelayanan sangat memuaskan! Petugasnya ramah dan sabar sama kucing saya. Hasil groomingnya rapi banget."),
    ("Sarah P.", "Mandi Anti Kutu",
     "Praktis banget, ga perlu repot bawa kucing ke salon. Harganya worth it untuk hasil sebagus ini."),
    ("Budi S.", "Mandi + Grooming Lengkap",
     "Kucing saya jadi wangi dan bersih. Petugasnya profesional dan tepat waktu. Recommended!")
  ]

  /** The ratings seeded beside the sample bookings, one per seeded booking,
      given the ids the seeded bookings received. */
  function SampleRatings(bookingIds: seq<string>): (r: seq<NewRating>)
    requires |bookingIds| == 3
    ensures |r| == 3
    ensures forall k :: 0 <= k < 3 ==> r[k].bookingId == bookingIds[k] && r[k].status == Approved
  {
    seq(3, k requires 0 <= k < 3 =>
      NewRating(bookingIds[k], SAMPLE_RATING_TEXTS[k].0, SAMPLE_RATING_TEXTS[k].1, 5,
                SAMPLE_RATING_TEXTS[k].2, Approved))
  }

  /** Every seeded booking carries its service's catalog name and price. */
  lemma SampleBookingsMatchCatalog()
    ensures forall k :: 0 <= k < |SAMPLE_BOOKINGS| ==>
      Catalog(SAMPLE_BOOKINGS[k].service) ==
        Some(Service(SAMPLE_BOOKINGS[k].serviceName, SAMPLE_BOOKINGS[k].totalPrice))
  {
  }

  /** Rows built from creation data, one id each, all stamped `now`. */
  function Materialize(data: seq<NewBooking>, ids: seq<string>, now: int): (r: seq<Booking>)
    requires |data| == |ids|
  {
    seq(|data|, k requires 0 <= k < |data| => data[k].ToRecord(ids[k], now))
  }

  function MaterializeRatings(data: seq<NewRating>, ids: seq<string>, now: int): (r: seq<Rating>)
    requires |data| == |ids|
  {
    seq(|data|, k requires 0 <= k < |data| => data[k].ToRecord(ids[k], now))
  }

  ghost predicate Distinct(ids: seq<string>)
  {
    forall i, j :: 0 <= i < j < |ids| ==> ids[i] != ids[j]
  }

  // ---------------------------------------------------------------------
  // The store
  // ---------------------------------------------------------------------

  class Db {
    var bookings: seq<Booking>
    var ratings: seq<Rating>
    var promos: seq<Promo>

    /** Ids are unique within each table. */
    ghost predicate Valid()
      reads this
    {
      && UniqueKeys(bookings, BookingKey)
      && UniqueKeys(ratings, RatingKey)
      && UniqueKeys(promos, PromoKey)
    }

    constructor ()
      ensures Valid() && bookings == [] && ratings == [] && promos == []
    {
      bookings, ratings, promos := [], [], [];
    }

    /** `bookings.create`: appends one row with the given fresh id. */
    method CreateBooking(data: NewBooking, id: string, now: int) returns (b: Booking)
      requires Valid() && FindBookingById(bookings, id).None?
      modifies this`bookings
      ensures Valid()
      ensures b == data.ToRecord(id, now)
      ensures bookings == old(bookings) + [b]
    {
      b := data.ToRecord(id, now);
      bookings := bookings + [b];
    }

    /** `bookings.update`: null and no change for an unknown id; otherwise
        the patched row, and only that row changes. */
    method UpdateBooking(id: string, patch: BookingPatch, now: int) returns (r: Option<Booking>)
      requires Valid()
      modifies this`bookings
      ensures Valid()
      ensures match IndexOf(old(bookings), BookingKey, id)
        case None => r.None? && bookings == old(bookings)
        case Some(i) =>
          && r == Some(PatchBooking(old(bookings)[i], patch, now))
          && bookings == old(bookings)[i := r.value]
    {
      match IndexOf(bookings, BookingKey, id)
      case None =>
        r := None;
      case Some(i) =>
        var b := PatchBooking(bookings[i], patch, now);
        bookings := bookings[i := b];
        r := Some(b);
    }

    /** `bookings.delete`: true iff a row was removed. */
    method DeleteBooking(id: string) returns (ok: bool)
      requires Valid()
      modifies this`bookings
      ensures Valid()
      ensures match IndexOf(old(bookings), BookingKey, id)
        case None => !ok && bookings == old(bookings)
        case Some(i) => ok && bookings == RemoveAt(old(bookings), i)
    {
      match IndexOf(bookings, BookingKey, id)
      case None =>
        ok := false;
      case Some(i) =>
        bookings := RemoveAt(bookings, i);
        ok := true;
    }

    /** `ratings.create`. */
    method CreateRating(data: NewRating, id: string, now: int) returns (r: Rating)
      requires Valid() && FindRatingById(ratings, id).None?
      modifies this`ratings
      ensures Valid()
      ensures r == data.ToRecord(id, now)
      ensures ratings == old(ratings) + [r]
    {
      r := data.ToRecord(id, now);
      ratings := ratings + [r];
    }

    /** `ratings.update`, with the one field the routes update. */
    method UpdateRating(id: string, status: RatingStatus, now: int) returns (r: Option<Rating>)
      requires Valid()
      modifies this`ratings
      ensures Valid()
      ensures match IndexOf(old(ratings), RatingKey, id)
        case None => r.None? && ratings == old(ratings)
        case Some(i) =>
          && r == Some(old(ratings)[i].(status := status, updatedAt := now))
          && ratings == old(ratings)[i := r.value]
    {
      match IndexOf(ratings, RatingKey, id)
      case None =>
        r := None;
      case Some(i) =>
        var x := ratings[i].(status := status, updatedAt := now);
        ratings := ratings[i := x];
        r := Some(x);
    }

    /** `ratings.delete`, and the `rating.delete` the delete route issues:
        true iff a row was removed. */
    method DeleteRating(id: string) returns (ok: bool)
      requires Valid()
      modifies this`ratings
      ensures Valid()
      ensures match IndexOf(old(ratings), RatingKey, id)
        case None => !ok && ratings == old(ratings)
        case Some(i) => ok && ratings == RemoveAt(old(ratings), i)
    {
      match IndexOf(ratings, RatingKey, id)
      case None =>
        ok := false;
      case Some(i) =>
        ratings := RemoveAt(ratings, i);
        ok := true;
    }

    /** `promos.create`. */
    method CreatePromo(data: NewPromo, id: string, now: int) returns (p: Promo)
      requires Valid() && IndexOf(promos, PromoKey, id).None?
      modifies this`promos
      ensures Valid()
      ensures p == data.ToRecord(id, now)
      ensures promos == old(promos) + [p]
    {
      p := data.ToRecord(id, now);
      promos := promos + [p];
    }

    /** `promos.update`. */
    method UpdatePromo(id: string, patch: PromoPatch, now: int) returns (r: Option<Promo>)
      requires Valid()
      modifies this`promos
      ensures Valid()
      ensures match IndexOf(old(promos), PromoKey, id)
        case None => r.None? && promos == old(promos)
        case Some(i) =>
          && r == Some(PatchPromo(old(promos)[i], patch, now))
          && promos == old(promos)[i := r.value]
    {
      match IndexOf(promos, PromoKey, id)
      case None =>
        r := None;
      case Some(i) =>
        var p := PatchPromo(promos[i], patch, now);
        promos := promos[i := p];
        r := Some(p);
    }

    /** `promos.delete`. */
    method DeletePromo(id: string) returns (ok: bool)
      requires Valid()
      modifies this`promos
      ensures Valid()
      ensures match IndexOf(old(promos), PromoKey, id)
        case None => !ok && promos == old(promos)
        case Some(i) => ok && promos == RemoveAt(old(promos), i)
    {
      match IndexOf(promos, PromoKey, id)
      case None =>
        ok := false;
      case Some(i) =>
        promos := RemoveAt(promos, i);
        ok := true;
    }

    /** The first loop of `initializeSampleData`: creates the sample
        bookings one by one in an empty booking table. */
    method SeedBookings(bookingIds: seq<string>, now: int) returns (created: seq<Booking>)
      requires Valid() && bookings == []
      requires |bookingIds| == 3 && Distinct(bookingIds)
      modifies this`bookings
      ensures Valid()
      ensures created == bookings == Materialize(SAMPLE_BOOKINGS, bookingIds, now)
    {
      created := [];
      for k := 0 to 3
        invariant Valid()
        invariant |created| == k && bookings == created
        invariant forall j :: 0 <= j < k ==> created[j] == SAMPLE_BOOKINGS[j].ToRecord(bookingIds[j], now)
      {
        var b := CreateBooking(SAMPLE_BOOKINGS[k], bookingIds[k], now);
        created := created + [b];
      }
    }

    /** The second loop: creates one sample rating per seeded booking in an
        empty rating table. */
    method SeedRatings(bookingIds: seq<string>, ratingIds: seq<string>, now: int)
      requires Valid() && ratings == []
      requires |bookingIds| == 3
      requires |ratingIds| == 3 && Distinct(ratingIds)
      modifies this`ratings
      ensures Valid()
      ensures ratings == MaterializeRatings(SampleRatings(bookingIds), ratingIds, now)
    {
      var samples := SampleRatings(bookingIds);
      for k := 0 to 3
        invariant Valid()
        invariant |ratings| == k
        invariant forall j :: 0 <= j < k ==> ratings[j] == samples[j].ToRecord(ratingIds[j], now)
      {
        var _ := CreateRating(samples[k], ratingIds[k], now);
      }
    }

    /** `initializeSampleData`: seeds only an empty booking table, and seeds
        ratings only in that case and only when the rating table is empty
        too. The ids the store would generate are passed in. */
    method InitializeSampleData(bookingIds: seq<string>, ratingIds: seq<string>, now: int)
      requires Valid()
      requires |bookingIds| == 3 && Distinct(bookingIds)
      requires |ratingIds| == 3 && Distinct(ratingIds)
      modifies this`bookings, this`ratings
      ensures Valid()
      ensures bookings ==
        if old(bookings) == [] then Materialize(SAMPLE_BOOKINGS, bookingIds, now) else old(bookings)
      ensures ratings ==
        if old(bookings) == [] && old(ratings) == []
        then MaterializeRatings(SampleRatings(bookingIds), ratingIds, now)
        else old(ratings)
    {
      var noRatings := ratings == [];
      if bookings == [] {
        var created := SeedBookings(bookingIds, now);
        if noRatings {
          var createdIds := [created[0].id, created[1].id, created[2].id];
          assert createdIds == bookingIds;
          SeedRatings(createdIds, ratingIds, now);
        }
      }
    }
  }
}
