/** The notification bell and popover (frontend/src/components/Notifications.tsx):
    the unread badge, the empty-list text, the trip icon colour and the
    Accept/Decline controls of each notification. */
module NotificationsView {
  import opened Common
  import opened NotificationContext

  /** The number of unread notifications, counted head first. */
  function UnreadCount(ns: seq<Notification>): (c: nat)
    ensures c <= |ns|
  {
    if ns == [] then 0 else (if ns[0].isRead then 0 else 1) + UnreadCount(ns[1..])
  }

  /** The count is the badge's `notifications.filter(n => !n.is_read).length`. */
  lemma {:induction false} UnreadCountIsFilterLength(ns: seq<Notification>)
    ensures UnreadCount(ns) == |Filter(ns, (n: Notification) => !n.isRead)|
  {
    if ns != [] {
      UnreadCountIsFilterLength(ns[1..]);
    }
  }

  /** The count is zero exactly when every notification is read. */
  lemma NoUnreadIffAllRead(ns: seq<Notification>)
    ensures UnreadCount(ns) == 0 <==> forall k :: 0 <= k < |ns| ==> ns[k].isRead
  {
    UnreadCountIsFilterLength(ns);
    var unread := Filter(ns, (n: Notification) => !n.isRead);
    assert unread != [] ==> unread[0] in unread;
    if exists k :: 0 <= k < |ns| && !ns[k].isRead {
      var k :| 0 <= k < |ns| && !ns[k].isRead;
      assert ns[k] in ns;
    }
  }

  /** The badge is shown iff the unread count is positive. */
  predicate ShowsBadge(ns: seq<Notification>) {
    UnreadCount(ns) > 0
  }

  /** The badge is shown iff some notification is unread. */
  lemma BadgeIffSomeUnread(ns: seq<Notification>)
    ensures ShowsBadge(ns) <==> exists k :: 0 <= k < |ns| && !ns[k].isRead
  {
    NoUnreadIffAllRead(ns);
  }

  /** "No new notifications" is shown iff the list is empty. */
  predicate ShowsEmptyText(ns: seq<Notification>) {
    |ns| == 0
  }

  /** Accept and Decline are rendered only for an unread notification. */
  predicate ShowsControls(n: Notification) {
    !n.isRead
  }

  /** The trip icon is red iff `trip_id` is falsy: absent or empty. */
  predicate TripIconRed(n: Notification) {
    n.tripId.None? || n.tripId.value == ""
  }

  /** What both controls pass to `markNotificationAsRead` as written: the
      notification object itself (the extra boolean is dropped). */
  function ControlArgumentAsWritten(n: Notification): (a: MarkArg)
    ensures !Matches(n, a)
  {
    ObjectArg(n)
  }

  /** What the context's signature asks for: the notification's id. */
  function ControlArgument(n: Notification): (a: MarkArg)
    ensures Matches(n, a)
  {
    IdArg(n.id)
  }

  /** The unread count of a non-empty list: its head, then its tail. */
  lemma UnreadOfHead(ns: seq<Notification>)
    requires ns != []
    ensures UnreadCount(ns) == (if ns[0].isRead then 0 else 1) + UnreadCount(ns[1..])
  {
  }

  /** `b` has every notification of `a` read that `a` has read. */
  predicate ReadAtLeast(a: seq<Notification>, b: seq<Notification>) {
    |a| == |b| && forall j :: 0 <= j < |a| ==> a[j].isRead ==> b[j].isRead
  }

  lemma {:induction false} ReadingNeverRaisesUnread(a: seq<Notification>, b: seq<Notification>)
    requires ReadAtLeast(a, b)
    ensures UnreadCount(b) <= UnreadCount(a)
  {
    if a != [] {
      assert ReadAtLeast(a[1..], b[1..]) by {
        forall j | 0 <= j < |a| - 1 ensures a[1..][j].isRead ==> b[1..][j].isRead {
          assert a[1..][j] == a[j + 1] && b[1..][j] == b[j + 1];
        }
      }
      ReadingNeverRaisesUnread(a[1..], b[1..]);
      UnreadOfHead(a);
      UnreadOfHead(b);
    }
  }

  lemma {:induction false} ReadingLowersUnread(a: seq<Notification>, b: seq<Notification>, k: int)
    requires ReadAtLeast(a, b) && 0 <= k < |a| && !a[k].isRead && b[k].isRead
    ensures UnreadCount(b) < UnreadCount(a)
    decreases k
  {
    assert ReadAtLeast(a[1..], b[1..]) by {
      forall j | 0 <= j < |a| - 1 ensures a[1..][j].isRead ==> b[1..][j].isRead {
        assert a[1..][j] == a[j + 1] && b[1..][j] == b[j + 1];
      }
    }
    UnreadOfHead(a);
    UnreadOfHead(b);
    if k == 0 {
      ReadingNeverRaisesUnread(a[1..], b[1..]);
    } else {
      assert a[1..][k - 1] == a[k] && b[1..][k - 1] == b[k];
      ReadingLowersUnread(a[1..], b[1..], k - 1);
    }
  }

  /** Marking never raises the unread count. */
  lemma MarkReadNeverRaisesUnread(ns: seq<Notification>, arg: MarkArg)
    ensures UnreadCount(MarkRead(ns, arg)) <= UnreadCount(ns)
  {
    ReadingNeverRaisesUnread(ns, MarkRead(ns, arg));
  }

  /** Marking an unread notification by its id lowers the unread count. */
  lemma MarkingUnreadLowersCount(ns: seq<Notification>, k: int)
    requires 0 <= k < |ns| && !ns[k].isRead
    ensures UnreadCount(MarkRead(ns, IdArg(ns[k].id))) < UnreadCount(ns)
  {
    ReadingLowersUnread(ns, MarkRead(ns, IdArg(ns[k].id)), k);
  }

  /** As wired, pressing Accept or Decline leaves the list as it was, whether
      or not the remote call completes. */
  lemma AsWrittenControlsChangeNothing(ns: seq<Notification>, k: int)
    requires 0 <= k < |ns|
    ensures MarkRead(ns, ControlArgumentAsWritten(ns[k])) == ns
  {
    ObjectArgumentMarksNothing(ns, ns[k]);
  }

  /** Passing the id, a pressed control marks its notification read, hides its
      controls and lowers the badge count. */
  lemma ControlMarksItsNotification(ns: seq<Notification>, k: int)
    requires 0 <= k < |ns| && ShowsControls(ns[k])
    ensures MarkRead(ns, ControlArgument(ns[k]))[k].isRead
    ensures !ShowsControls(MarkRead(ns, ControlArgument(ns[k]))[k])
    ensures UnreadCount(MarkRead(ns, ControlArgument(ns[k]))) < UnreadCount(ns)
  {
    MarkingUnreadLowersCount(ns, k);
  }
}
