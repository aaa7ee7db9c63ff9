/** The customer-notification gateway, reduced to a log of the deliveries
    the routes request. Message text, delays and delivery itself are not
    part of this model; a failed delivery is swallowed by every caller, so
    it never changes a route's reply. */
module Notifications {

  /** The event kinds the gateway knows. */
  datatype Kind = NewBookingKind | ConfirmedKind | CompletedKind | ReminderKind

  /** One requested delivery: which event, for which booking. */
  datatype Notice = Notice(kind: Kind, bookingId: string)

  class NotificationLog {
    var sent: seq<Notice>

    constructor ()
      ensures sent == []
    {
      sent := [];
    }

    /** Requests one delivery; the log grows by exactly that request. */
    method Send(n: Notice)
      modifies this
      ensures sent == old(sent) + [n]
    {
      sent := sent + [n];
    }
  }
}
