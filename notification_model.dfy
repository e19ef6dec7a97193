/**
  The notification aggregate of the notification service and its
  repository. A notification is written once, by a plain INSERT, and listed
  per user.
 */
module NotificationModel {
  import opened Base
  import opened Uuids

  datatype Notification = Notification(notificationId: Uuid, orderId: Uuid, userId: Uuid, message: string, createdAt: Time)

  /** ErrNotificationNotFound (declared; no operation here returns it), and any storage failure. */
  datatype NotificationError = NotificationNotFound | Infra(message: string)

  function Fault(failure: Option<string>): (err: Option<NotificationError>)
    ensures err.None? <==> failure.None?
    ensures failure.Some? ==> err == Some(Infra(failure.value))
  {
    match failure
    case None => None
    case Some(message) => Some(Infra(message))
  }

  /** FindForUser, without its ordering: the stored notifications of one user, in the order they were stored. */
  function ForUser(records: seq<Notification>, userId: Uuid): (r: seq<Notification>)
    ensures forall i :: 0 <= i < |r| ==> r[i].userId == userId && r[i] in records
    ensures forall n :: n in records && n.userId == userId ==> n in r
  {
    if records == [] then []
    else
      var rest := ForUser(records[..|records| - 1], userId);
      var last := records[|records| - 1];
      assert records == records[..|records| - 1] + [last];
      if last.userId == userId then rest + [last] else rest
  }

  /** Storing one more notification lists it for its user after the ones already there, and changes no other user's list. */
  lemma {:induction false} ForUserAppend(records: seq<Notification>, n: Notification, userId: Uuid)
    ensures ForUser(records + [n], userId) ==
      if n.userId == userId then ForUser(records, userId) + [n] else ForUser(records, userId)
  {
    assert (records + [n])[..|records + [n]| - 1] == records;
  }

  class NotificationRepository {
    /** The rows of the notification table, in insertion order. */
    var records: seq<Notification>

    constructor ()
      ensures records == []
    {
      records := [];
    }

    /** NextID: a fresh UUID v7, made outside and passed in, or the failure to make one. */
    method NextID(generated: Uuid, fault: Option<string>) returns (id: Uuid, err: Option<NotificationError>)
      ensures err == Fault(fault)
      ensures id == if fault.None? then generated else Nil
    {
      if fault.Some? {
        return Nil, Fault(fault);
      }
      return generated, None;
    }

    /** Store: one INSERT of the notification, or the failure of the statement. */
    method Store(notification: Notification, fault: Option<string>) returns (err: Option<NotificationError>)
      modifies this
      ensures err == Fault(fault)
      ensures records == if fault.None? then old(records) + [notification] else old(records)
    {
      if fault.Some? {
        return Fault(fault);
      }
      records := records + [notification];
      return None;
    }
  }
}
