/** /api/notify-admin: the admin's notification list, a module-level array
    that POST appends to, GET filters and sorts (sorting the array itself
    when every entry is asked for) and PATCH marks as read. */
module NotifyAdminRoute {
  import opened Tables
  import opened Records
  import opened Text

  /** One entry of the list; `timestamp` is the creation time in
      milliseconds and the id is the text of that time. */
  datatype AdminNotification = AdminNotification(
    id: string,
    kind: string,
    bookingId: string,
    customerName: string,
    serviceName: string,
    message: string,
    timestamp: int,
    read: bool)

  function NotificationKey(n: AdminNotification): string { n.id }
  function NotificationTime(n: AdminNotification): int { n.timestamp }

  const NEW_RATING := "new_rating"

  /** The message of a new entry: for a new rating, the rating template
      naming the customer and then the booking; otherwise a generic text
      naming the type. */
  function MessageFor(kind: string, bookingId: string, customerName: string): (m: string)
    ensures kind == NEW_RATING ==>
      && StartsWith(m, RATING_PREFIX)
      && OccursAt(m, customerName, |RATING_PREFIX|)
      && Contains(m, bookingId)
    ensures kind != NEW_RATING ==> StartsWith(m, GENERIC_PREFIX) && Contains(m, kind)
  {
    if kind == NEW_RATING then
      var m := RATING_PREFIX + customerName + " untuk booking " + bookingId;
      assert m[..|RATING_PREFIX|] == RATING_PREFIX;
      assert m[|RATING_PREFIX|..|RATING_PREFIX| + |customerName|] == customerName;
      assert m == (RATING_PREFIX + customerName + " untuk booking ") + bookingId + [];
      ContainsInfix(RATING_PREFIX + customerName + " untuk booking ", bookingId, []);
      m
    else
      var m := GENERIC_PREFIX + kind;
      assert m[..|GENERIC_PREFIX|] == GENERIC_PREFIX;
      assert m == GENERIC_PREFIX + kind + [];
      ContainsInfix(GENERIC_PREFIX, kind, []);
      m
  }

  const RATING_PREFIX := "\U{2B50} Rating baru dari "
  const GENERIC_PREFIX := "Notifikasi: "

  /** How many entries are unread. */
  function CountUnread(ns: seq<AdminNotification>): (c: nat)
    ensures c <= |ns|
    ensures c == 0 <==> forall k :: 0 <= k < |ns| ==> ns[k].read
  {
    if ns == [] then 0
    else (if ns[0].read then 0 else 1) + CountUnread(ns[1..])
  }

  /** Marking an unread entry read lowers the unread count by exactly one;
      marking a read one changes nothing. */
  lemma {:induction false} MarkReadCount(ns: seq<AdminNotification>, i: nat)
    requires i < |ns|
    ensures CountUnread(ns[i := ns[i].(read := true)]) ==
      if ns[i].read then CountUnread(ns) else CountUnread(ns) - 1
  {
    var ms := ns[i := ns[i].(read := true)];
    if i == 0 {
      assert ms[1..] == ns[1..];
    } else {
      assert ms[1..] == ns[1..][i - 1 := ns[1..][i - 1].(read := true)];
      MarkReadCount(ns[1..], i - 1);
    }
  }

  class AdminInbox {
    var notifications: seq<AdminNotification>

    constructor ()
      ensures notifications == []
    {
      notifications := [];
    }

    /** POST: appends one unread entry; the entries already there are kept
        as they are. */
    method Post(kind: string, bookingId: string, customerName: string, serviceName: string, now: int)
      returns (r: Response)
      modifies this
      ensures r == Response(200, Done("Notifikasi terkirim ke admin"))
      ensures notifications == old(notifications) +
        [AdminNotification(IntToString(now), kind, bookingId, customerName, serviceName,
                           MessageFor(kind, bookingId, customerName), now, false)]
      ensures CountUnread(notifications) == CountUnread(old(notifications)) + 1
    {
      var n := AdminNotification(IntToString(now), kind, bookingId, customerName, serviceName,
                                 MessageFor(kind, bookingId, customerName), now, false);
      AppendCount(notifications, n);
      notifications := notifications + [n];
      r := Response(200, Done("Notifikasi terkirim ke admin"));
    }

    /** GET: the unread entries, or all of them, newest first. Asking for
        all of them sorts the stored list itself; asking for the unread
        ones sorts a copy. */
    method Get(unreadOnly: string) returns (r: seq<AdminNotification>)
      modifies this
      ensures SortedDesc(r, NotificationTime)
      ensures unreadOnly == "true" ==>
        && notifications == old(notifications)
        && forall n {:trigger multiset(r)[n]} ::
             multiset(r)[n] == if !n.read then multiset(notifications)[n] else 0
      ensures unreadOnly != "true" ==>
        notifications == r && multiset(r) == multiset(old(notifications))
    {
      if unreadOnly == "true" {
        r := OrderedSelect(notifications, (n: AdminNotification) => !n.read, NotificationTime);
      } else {
        notifications := SortDesc(notifications, NotificationTime);
        r := notifications;
      }
    }

    /** PATCH: with `markAsRead`, the first entry with that id is marked
        read and nothing else changes; an unknown id, or no `markAsRead`,
        changes nothing. The reply is always a success. */
    method Patch(notificationId: string, markAsRead: bool) returns (r: Response)
      modifies this
      ensures r == Response(200, Done("Notification updated"))
      ensures !markAsRead || IndexOf(old(notifications), NotificationKey, notificationId).None? ==>
        notifications == old(notifications)
      ensures markAsRead && IndexOf(old(notifications), NotificationKey, notificationId).Some? ==>
        var i := IndexOf(old(notifications), NotificationKey, notificationId).value;
        notifications == old(notifications)[i := old(notifications)[i].(read := true)]
    {
      if markAsRead {
        var found := IndexOf(notifications, NotificationKey, notificationId);
        if found.Some? {
          var i := found.value;
          notifications := notifications[i := notifications[i].(read := true)];
        }
      }
      r := Response(200, Done("Notification updated"));
    }
  }

  /** An appended unread entry adds one to the unread count. */
  lemma {:induction false} AppendCount(ns: seq<AdminNotification>, n: AdminNotification)
    ensures CountUnread(ns + [n]) == CountUnread(ns) + (if n.read then 0 else 1)
  {
    if ns != [] {
      assert (ns + [n])[1..] == ns[1..] + [n];
      AppendCount(ns[1..], n);
    }
  }

  /** `Date.now().toString()`: the decimal digits of a time, with a minus
      sign before a negative one. */
  function IntToString(n: int): (s: string)
    ensures |s| >= 1
    ensures s[0] == '-' <==> n < 0
    ensures n < 0 ==> |s| >= 2 && IsDigits(s[1..]) && DecimalValue(s[1..]) == -n
    ensures n >= 0 ==> IsDigits(s) && DecimalValue(s) == n
  {
    if n < 0 then
      var s := "-" + NatToString(-n);
      assert s[1..] == NatToString(-n);
      s
    else NatToString(n)
  }

  /** Distinct times give distinct notification ids. */
  lemma IntToStringInjective(a: int, b: int)
    ensures IntToString(a) == IntToString(b) ==> a == b
  {
  }

  predicate IsDigits(s: string)
  {
    forall k :: 0 <= k < |s| ==> '0' <= s[k] <= '9'
  }

  /** The number a string of decimal digits denotes. */
  function DecimalValue(s: string): nat
    requires IsDigits(s)
  {
    if s == [] then 0 else 10 * DecimalValue(s[..|s| - 1]) + (s[|s| - 1] as int - '0' as int)
  }

  /** The decimal digits of `n`, most significant first, without leading
      zeros. */
  function NatToString(n: nat): (s: string)
    ensures |s| >= 1
    ensures IsDigits(s) && DecimalValue(s) == n
    ensures |s| > 1 ==> s[0] != '0'
    decreases n
  {
    if n < 10 then ['0' + n as char]
    else
      var s := NatToString(n / 10) + ['0' + (n % 10) as char];
      assert s[..|s| - 1] == NatToString(n / 10);
      s
  }
}
