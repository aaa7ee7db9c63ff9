/** The admin dashboard's decision rules: which status changes it offers
    for a booking, its per-status counters, the unread-notification badge
    and the status filter it sends with the booking list request. */
module AdminDashboard {
  import opened Tables
  import opened Records
  import OrderTracking
  import BookingsRoute
  import NotifyAdminRoute
  import Database

  /** The buttons of a booking's row in the table. */
  function RowActions(status: string): (r: seq<string>)
    ensures |r| <= 1
    ensures r != [] <==> status == PENDING || status == CONFIRMED || status == IN_PROGRESS
    ensures forall t :: t in r ==> OrderTracking.Progress(t) == OrderTracking.Progress(status) + 1
  {
    if status == PENDING then [CONFIRMED]
    else if status == CONFIRMED then [IN_PROGRESS]
    else if status == IN_PROGRESS then [COMPLETED]
    else []
  }

  /** The buttons of the booking detail view, which can also refuse a
      pending booking. */
  function DetailActions(status: string): (r: seq<string>)
    ensures |r| <= 2
    ensures forall t :: t in RowActions(status) ==> t in r
    ensures CANCELLED in r <==> status == PENDING
    ensures forall t :: t in r && t != CANCELLED ==> t in RowActions(status)
  {
    if status == PENDING then [CONFIRMED, CANCELLED]
    else if status == CONFIRMED then [IN_PROGRESS]
    else if status == IN_PROGRESS then [COMPLETED]
    else []
  }

  /** The dashboard offers the change from `from` to `to` somewhere. */
  predicate Offered(from: string, to: string)
  {
    to in RowActions(from) || to in DetailActions(from)
  }

  /** The only place the lifecycle graph exists: pending to confirmed or
      cancelled, confirmed to in progress, in progress to completed, and
      nothing out of completed or cancelled (or any unknown status). */
  lemma OfferedTransitions(from: string, to: string)
    ensures Offered(from, to) <==>
      || (from == PENDING && (to == CONFIRMED || to == CANCELLED))
      || (from == CONFIRMED && to == IN_PROGRESS)
      || (from == IN_PROGRESS && to == COMPLETED)
    ensures from == COMPLETED || from == CANCELLED ==> !Offered(from, to)
  {
  }

  /** Every offered change other than a refusal moves the booking exactly
      one step along the progress bar of the tracking page. */
  lemma OfferedChangesAdvanceOneStep(from: string, to: string)
    requires Offered(from, to) && to != CANCELLED
    ensures OrderTracking.Progress(to) == OrderTracking.Progress(from) + 1
  {
    OfferedTransitions(from, to);
  }

  /** The statuses that have a counter card: all but cancelled. */
  const CARD_STATUSES: seq<string> := [PENDING, CONFIRMED, IN_PROGRESS, COMPLETED]

  /** `bookings.filter(b => b.status === status).length`. */
  function CountStatus(bs: seq<Booking>, status: string): (c: nat)
    ensures c <= |bs|
    ensures c == 0 <==> forall k :: 0 <= k < |bs| ==> bs[k].status != status
  {
    if bs == [] then 0
    else
      var c := CountStatus(bs[1..], status);
      assert forall k :: 1 <= k < |bs| ==> bs[k] == bs[1..][k - 1];
      (if bs[0].status == status then 1 else 0) + c
  }

  /** A card shows how many bookings the list filtered by its status would
      hold. */
  lemma {:induction false} CardCountsFilteredList(bs: seq<Booking>, status: string)
    ensures CountStatus(bs, status) == |Database.BookingsByStatus(bs, status)|
  {
    var r := Database.BookingsByStatus(bs, status);
    if bs == [] {
      forall x: Booking ensures multiset(r)[x] == 0 {
        assert multiset(r)[x] == if x.status == status then multiset(bs)[x] else 0;
      }
      assert multiset(r) == multiset{};
    } else {
      CardCountsFilteredList(bs[1..], status);
      var t := Database.BookingsByStatus(bs[1..], status);
      var head: multiset<Booking> := if bs[0].status == status then multiset{bs[0]} else multiset{};
      assert bs == [bs[0]] + bs[1..];
      assert multiset(bs) == multiset{bs[0]} + multiset(bs[1..]);
      forall x: Booking ensures multiset(r)[x] == (head + multiset(t))[x] {
        assert multiset(r)[x] == if x.status == status then multiset(bs)[x] else 0;
        assert multiset(t)[x] == if x.status == status then multiset(bs[1..])[x] else 0;
      }
      assert multiset(r) == head + multiset(t);
    }
  }

  /** The bookings no card counts. */
  function CountUncarded(bs: seq<Booking>): (c: nat)
    ensures c <= |bs|
    ensures c == 0 <==> forall k :: 0 <= k < |bs| ==> bs[k].status in CARD_STATUSES
  {
    if bs == [] then 0
    else (if bs[0].status in CARD_STATUSES then 0 else 1) + CountUncarded(bs[1..])
  }

  /** The sum of the four cards. */
  function CardTotal(bs: seq<Booking>): nat
  {
    CountStatus(bs, PENDING) + CountStatus(bs, CONFIRMED) +
    CountStatus(bs, IN_PROGRESS) + CountStatus(bs, COMPLETED)
  }

  /** The cards and the uncounted bookings together are all the bookings. */
  lemma {:induction false} CardsPartition(bs: seq<Booking>)
    ensures CardTotal(bs) + CountUncarded(bs) == |bs|
  {
    if bs != [] {
      CardsPartition(bs[1..]);
    }
  }

  /** So the cards add up to at most the number of bookings, and to
      exactly that number when every status has a card; when every status
      is one of the five, that is when no booking is cancelled. */
  lemma CardTotalBound(bs: seq<Booking>)
    ensures CardTotal(bs) <= |bs|
    ensures CardTotal(bs) == |bs| <==> forall k :: 0 <= k < |bs| ==> bs[k].status in CARD_STATUSES
    ensures (forall k :: 0 <= k < |bs| ==> bs[k].status in CARD_STATUSES + [CANCELLED]) ==>
      (CardTotal(bs) == |bs| <==> CountStatus(bs, CANCELLED) == 0)
  {
    CardsPartition(bs);
    if forall k :: 0 <= k < |bs| ==> bs[k].status in CARD_STATUSES + [CANCELLED] {
      CancelledAreUncarded(bs);
    }
  }

  lemma {:induction false} CancelledAreUncarded(bs: seq<Booking>)
    requires forall k :: 0 <= k < |bs| ==> bs[k].status in CARD_STATUSES + [CANCELLED]
    ensures CountUncarded(bs) == CountStatus(bs, CANCELLED)
  {
    if bs != [] {
      CancelledAreUncarded(bs[1..]);
    }
  }

  /** The badge after marking one notification read:
      `Math.max(0, prev - 1)`. */
  function DecrementUnread(prev: int): (n: int)
    ensures n >= 0
    ensures prev >= 1 ==> n == prev - 1
    ensures prev <= 1 ==> n == 0
  {
    if prev - 1 > 0 then prev - 1 else 0
  }

  /** When the badge shows the true unread count, marking an unread entry
      keeps it true; marking an entry that was already read makes the badge
      fall one below the truth. */
  lemma BadgeTracksInbox(ns: seq<NotifyAdminRoute.AdminNotification>, i: nat)
    requires i < |ns|
    ensures var marked := ns[i := ns[i].(read := true)];
      && (!ns[i].read ==>
            DecrementUnread(NotifyAdminRoute.CountUnread(ns)) == NotifyAdminRoute.CountUnread(marked))
      && (ns[i].read && NotifyAdminRoute.CountUnread(ns) > 0 ==>
            DecrementUnread(NotifyAdminRoute.CountUnread(ns)) == NotifyAdminRoute.CountUnread(marked) - 1)
  {
    NotifyAdminRoute.MarkReadCount(ns, i);
  }

  /** The query string of the booking list request for a filter choice. */
  function BookingsQuery(filter: string): (q: string)
    ensures filter == "all" ==> q == ""
    ensures filter != "all" ==> q == "?status=" + filter
  {
    if filter != "all" then "?status=" + filter else ""
  }

  /** The `status` parameter the server reads from that query; absent is
      the empty string. */
  function StatusParam(filter: string): (s: string)
    ensures filter == "all" ==> s == ""
    ensures filter != "all" ==> s == filter
  {
    if filter != "all" then filter else ""
  }

  /** The filter composes with the server's listing: "all" lists every
      booking and any other filter lists that status (an empty one, sent as
      an empty parameter, lists everything too); either way the reply has
      the list shape the dashboard reads. */
  lemma FilterSelectsOnServer(bs: seq<Booking>, filter: string)
    ensures var r := BookingsRoute.Get(bs, StatusParam(filter), "");
      && r.payload.Bookings?
      && (filter == "all" || filter == "" ==> multiset(r.payload.bookings) == multiset(bs))
      && (filter != "all" && filter != "" ==>
            forall b :: b in r.payload.bookings <==> b in bs && b.status == filter)
  {
    var r := BookingsRoute.Get(bs, StatusParam(filter), "");
    assert BookingsRoute.Listed(r.payload) == r.payload.bookings;
    if filter == "all" || filter == "" {
      forall b ensures multiset(r.payload.bookings)[b] == multiset(bs)[b] {
        assert BookingsRoute.Selected(b, StatusParam(filter), "");
      }
    } else {
      forall b ensures b in r.payload.bookings <==> b in bs && b.status == filter {
        assert BookingsRoute.Selected(b, StatusParam(filter), "") <==> b.status == filter;
        assert multiset(r.payload.bookings)[b] ==
          if b.status == filter then multiset(bs)[b] else 0;
      }
    }
  }
}
