/** The decision rules of the customer's order-tracking page: cancel
    eligibility and its countdown, the progress steps, the search guard and
    its fallback lookup, and the cancel-reason guard with the local update
    that follows a successful cancellation. */
module OrderTracking {
  import opened Tables
  import opened Text
  import opened Records
  import opened Database
  import BookingsRoute

  /** `canCancelBooking`: pending or confirmed, and at most 30 whole minutes
      since creation. In milliseconds that admits anything under 31 minutes,
      and any creation time in the future. */
  predicate CanCancelBooking(status: string, createdAt: int, now: int)
    ensures CanCancelBooking(status, createdAt, now) <==>
      (status == PENDING || status == CONFIRMED) && now - createdAt < 1860000
  {
    (status == PENDING || status == CONFIRMED) && ElapsedMinutes(createdAt, now) <= 30
  }

  /** What `getTimeUntilCancel` renders as "H jam M menit" or "M menit". */
  datatype Countdown = Countdown(hours: int, minutes: int)

  /** `getTimeUntilCancel`: the minutes left until the 30th whole minute, or
      null once none are left. */
  function TimeUntilCancel(createdAt: int, now: int): (r: Option<Countdown>)
    ensures r.None? <==> ElapsedMinutes(createdAt, now) >= 30
    ensures r.Some? ==>
      && 0 <= r.value.minutes < 60 && r.value.hours >= 0
      && r.value.hours * 60 + r.value.minutes == 30 - ElapsedMinutes(createdAt, now)
    ensures r.Some? && now >= createdAt ==> r.value.hours == 0 && 1 <= r.value.minutes <= 30
  {
    var left := 30 - ElapsedMinutes(createdAt, now);
    if left <= 0 then None else Some(Countdown(left / 60, left % 60))
  }

  /** During the 31st minute (whole minute 30) the booking may still be
      cancelled, yet the countdown shown beside the cancel button is null. */
  lemma CancellableWithoutCountdown(status: string, createdAt: int, now: int)
    requires status == PENDING || status == CONFIRMED
    requires 1800000 <= now - createdAt < 1860000
    ensures CanCancelBooking(status, createdAt, now)
    ensures TimeUntilCancel(createdAt, now).None?
  {
  }

  /** One entry of the progress bar. */
  datatype Step = Step(key: string, title: string, completed: bool)

  const STEP_KEYS: seq<string> := [PENDING, CONFIRMED, IN_PROGRESS, COMPLETED]

  /** How far along the lifecycle a status is: the index of its step, and 0
      for any status that has no step. */
  function Progress(status: string): (p: nat)
    ensures p < |STEP_KEYS|
    ensures 0 < p ==> STEP_KEYS[p] == status
    ensures p == 0 ==> status !in STEP_KEYS[1..]
  {
    if status == CONFIRMED then 1
    else if status == IN_PROGRESS then 2
    else if status == COMPLETED then 3
    else 0
  }

  /** `getStatusSteps`: four steps, the first `Progress(status) + 1` of them
      completed; a cancelled booking shows only the first step. */
  function StatusSteps(status: string): (r: seq<Step>)
    ensures status == CANCELLED ==> r == [Step(PENDING, "Pesanan Dibuat", true)]
    ensures status != CANCELLED ==> |r| == 4
    ensures forall k :: 0 <= k < |r| ==> r[k].key == STEP_KEYS[k]
    ensures forall k :: 0 <= k < |r| ==> (r[k].completed <==> k <= Progress(status))
    ensures forall j, k :: 0 <= j < k < |r| && r[k].completed ==> r[j].completed
  {
    var steps := [
      Step(PENDING, "Pesanan Dibuat", true),
      Step(CONFIRMED, "Dikonfirmasi Admin", status in [CONFIRMED, IN_PROGRESS, COMPLETED]),
      Step(IN_PROGRESS, "Petugas Sedang Dalam Perjalanan", status in [IN_PROGRESS, COMPLETED]),
      Step(COMPLETED, "Layanan Selesai", status == COMPLETED)
    ];
    if status == CANCELLED then steps[..1] else steps
  }

  /** `handleSearch`'s guard: a blank (after trimming) query issues no
      request; otherwise the query is sent as typed, untrimmed. */
  function SearchRequest(query: string): (r: Option<string>)
    ensures r.None? <==> AllSpace(query)
    ensures r.Some? ==> r.value == query
  {
    if Trim(query) == "" then None else Some(query)
  }

  /** What the page ends up showing after a search. */
  datatype SearchOutcome = BlankQuery | Shown(booking: Booking) | NotFound

  /** The normal path of `handleSearch`: the page shows a booking only when
      the reply has the single-booking shape. */
  function SearchOutcomeFor(payload: Payload): (r: SearchOutcome)
    ensures r != BlankQuery
    ensures r.Shown? <==> payload.OneBooking?
    ensures r.Shown? ==> BookingsRoute.Listed(payload) == [r.booking]
  {
    if payload.OneBooking? then Shown(payload.booking) else NotFound
  }

  /** With a non-blank query the page shows a booking exactly when the
      server's search has a single hit, and then it shows that hit. */
  lemma SearchShowsSingleHit(bs: seq<Booking>, query: string)
    requires SearchRequest(query).Some?
    ensures SearchOutcomeFor(BookingsRoute.Get(bs, "", query).payload).Shown? <==>
      |SearchBookings(bs, query)| == 1
    ensures SearchOutcomeFor(BookingsRoute.Get(bs, "", query).payload).Shown? ==>
      SearchOutcomeFor(BookingsRoute.Get(bs, "", query).payload).booking == SearchBookings(bs, query)[0]
  {
  }

  /** The fallback `find`'s test: the phone equals the query or the id
      contains it. */
  predicate FallbackHit(b: Booking, query: string)
  {
    b.phone == query || Contains(b.id, query)
  }

  /** The fallback `find` over the full booking list: the first booking
      whose phone equals the query or whose id contains it. */
  function FallbackFind(bookings: seq<Booking>, query: string): (r: Option<Booking>)
    ensures r.Some? ==> r.value in bookings
    ensures r.Some? ==> r.value.phone == query || Contains(r.value.id, query)
    ensures r.None? ==> forall b :: b in bookings ==> b.phone != query && !Contains(b.id, query)
    ensures forall k ::
      (0 <= k < |bookings| && FallbackHit(bookings[k], query) &&
       forall j :: 0 <= j < k ==> !FallbackHit(bookings[j], query))
      ==> r == Some(bookings[k])
  {
    if bookings == [] then None
    else if FallbackHit(bookings[0], query) then Some(bookings[0])
    else
      var r := FallbackFind(bookings[1..], query);
      assert forall k :: 1 <= k < |bookings| ==> bookings[k] == bookings[1..][k - 1];
      r
  }

  /** The fallback is narrower than the server's search: whatever it finds,
      the server's search would have found too. */
  lemma {:induction false} FallbackFindsOnlySearchHits(bookings: seq<Booking>, query: string)
    requires FallbackFind(bookings, query).Some?
    ensures MatchesSearch(FallbackFind(bookings, query).value, query)
    ensures FallbackFind(bookings, query).value in SearchBookings(bookings, query)
  {
    var b := FallbackFind(bookings, query).value;
    if b.phone == query {
      ContainsSelfAndEmpty(b.phone);
    }
    assert MatchesSearch(b, query);
    var hits := SearchBookings(bookings, query);
    assert b in multiset(bookings);
    assert multiset(hits)[b] == multiset(bookings)[b];
  }

  /** ... and strictly narrower: a name fragment is found by the server's
      search and not by the fallback. */
  lemma FallbackMissesNameMatches()
    ensures var b := Booking("c1", "Budi S.", "0812", "Jl. Gatot Subroto", "mandi-biasa",
                             "Mandi Biasa", "2024-01-17", "09:00", "", PENDING, 50000,
                             None, None, 0, 0);
      MatchesSearch(b, "Budi") && FallbackFind([b], "Budi").None?
  {
    var b := Booking("c1", "Budi S.", "0812", "Jl. Gatot Subroto", "mandi-biasa",
                     "Mandi Biasa", "2024-01-17", "09:00", "", PENDING, 50000,
                     None, None, 0, 0);
    assert StartsWith(b.name, "Budi");
    assert !Contains(b.id, "Budi") by {
      assert !StartsWith(b.id, "Budi");
      assert !StartsWith(b.id[1..], "Budi");
      assert b.id[1..][1..] == [];
    }
  }

  /** `handleCancelBooking`'s guard: nothing is sent without a booking on
      screen and a reason that is not blank. */
  predicate MaySendCancel(hasBooking: bool, reason: string)
    ensures MaySendCancel(hasBooking, reason) <==> hasBooking && !AllSpace(reason)
  {
    hasBooking && Trim(reason) != ""
  }

  /** The page's own copy of the booking after a successful cancellation:
      cancelled, stamped with the page's clock, with the reason as entered. */
  function LocallyCancelled(b: Booking, reason: string, clientNow: int): (r: Booking)
    ensures r.status == CANCELLED && r.cancelReason == Some(reason) && r.cancelledAt == Some(clientNow)
    ensures r.id == b.id && r.totalPrice == b.totalPrice && r.createdAt == b.createdAt
  {
    b.(status := CANCELLED, cancelledAt := Some(clientNow), cancelReason := Some(reason))
  }
}
