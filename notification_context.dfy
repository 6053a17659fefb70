/** The notification store (frontend/src/context/NotificationContext.tsx): the
    signed-in user's notifications, replaced by a fetch when the user changes
    and patched locally after a notification is marked read. */
module NotificationContext {
  import opened Common

  /** A `notifications` row; `trip_id` is optional. */
  datatype Notification = Notification(
    id: string,
    userId: string,
    tripId: Option<string>,
    message: string,
    isRead: bool,
    createdAt: string)

  /** What a caller passes as `notificationId`. The context declares a string,
      but a caller can hand it a whole notification object. */
  datatype MarkArg = IdArg(id: string) | ObjectArg(notification: Notification)

  /** `notification.id === notificationId`: a string is never strictly equal to
      an object. */
  predicate Matches(n: Notification, arg: MarkArg) {
    match arg
    case IdArg(id) => n.id == id
    case ObjectArg(_) => false
  }

  /** The local patch: `prev.map(n => n.id === notificationId ? {...n, is_read: true} : n)`. */
  function MarkRead(ns: seq<Notification>, arg: MarkArg): (r: seq<Notification>)
    ensures |r| == |ns|
    ensures forall k :: 0 <= k < |ns| && Matches(ns[k], arg) ==> r[k] == ns[k].(isRead := true)
    ensures forall k :: 0 <= k < |ns| && !Matches(ns[k], arg) ==> r[k] == ns[k]
  {
    if ns == [] then []
    else [if Matches(ns[0], arg) then ns[0].(isRead := true) else ns[0]] + MarkRead(ns[1..], arg)
  }

  /** Marking the same notification twice is marking it once. */
  lemma MarkReadIdempotent(ns: seq<Notification>, arg: MarkArg)
    ensures MarkRead(MarkRead(ns, arg), arg) == MarkRead(ns, arg)
  {
    var once := MarkRead(ns, arg);
    var twice := MarkRead(once, arg);
    forall k | 0 <= k < |ns| ensures twice[k] == once[k] {
      assert Matches(once[k], arg) <==> Matches(ns[k], arg);
    }
  }

  /** Handed a notification object instead of its id, the patch changes
      nothing. */
  lemma ObjectArgumentMarksNothing(ns: seq<Notification>, n: Notification)
    ensures MarkRead(ns, ObjectArg(n)) == ns
  {
    var r := MarkRead(ns, ObjectArg(n));
    assert forall k :: 0 <= k < |ns| ==> r[k] == ns[k];
  }

  /** The list after the fetch effect: with a user, the fetched rows (or `[]`
      for a null result) replace the list; without one, or when the fetch
      throws, the list is kept. */
  function FetchResult(current: seq<Notification>, user: Option<string>, fetched: Fetch<Option<seq<Notification>>>): (r: seq<Notification>)
    ensures user.None? || fetched.Threw? ==> r == current
  {
    if user.Some? && fetched.Fetched? then
      (match fetched.value case Some(data) => data case None => [])
    else current
  }

  /** With a signed-in user and a fetch that resolves, the list becomes the
      fetched rows, whatever it held before. */
  lemma FetchReplacesList(current: seq<Notification>, other: seq<Notification>, uid: string, data: Option<seq<Notification>>)
    ensures FetchResult(current, Some(uid), Fetched(data)) == FetchResult(other, Some(uid), Fetched(data))
    ensures data.Some? ==> FetchResult(current, Some(uid), Fetched(data)) == data.value
    ensures data.None? ==> FetchResult(current, Some(uid), Fetched(data)) == []
  {
  }

  /** The binding imported as `fetchNotificationsbyUserId` names no export of
      the notification service, so calling it throws whatever the store would
      have answered. */
  function ImportedFetchAsWritten(answer: Fetch<Option<seq<Notification>>>): (f: Fetch<Option<seq<Notification>>>)
    ensures f.Threw?
  {
    Threw
  }

  /** As written, the fetch effect never changes the list: from the initial
      `[]` the provider shows no notifications at all. */
  lemma AsWrittenFetchNeverUpdates(current: seq<Notification>, user: Option<string>, answer: Fetch<Option<seq<Notification>>>)
    ensures FetchResult(current, user, ImportedFetchAsWritten(answer)) == current
  {
  }

  /** The provider's state cell. */
  class NotificationProvider {
    var notifications: seq<Notification>

    constructor ()
      ensures notifications == []
    {
      notifications := [];
    }

    /** `fetchUserNotifications`, given what the imported fetch yields. */
    method FetchUserNotifications(user: Option<string>, fetched: Fetch<Option<seq<Notification>>>)
      modifies this
      ensures notifications == FetchResult(old(notifications), user, fetched)
    {
      if user.Some? {
        if fetched.Fetched? {
          var data := fetched.value;
          notifications := if data.Some? then data.value else [];
        }
      }
    }

    /** `markNotificationAsRead`: the remote update first; only when it
        completes is the list patched. */
    method MarkNotificationAsRead(arg: MarkArg, remote: Completion)
      modifies this
      ensures remote == Completed ==> notifications == MarkRead(old(notifications), arg)
      ensures remote == Thrown ==> notifications == old(notifications)
    {
      if remote == Completed {
        notifications := MarkRead(notifications, arg);
      }
    }
  }
}
