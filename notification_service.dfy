/** Trip-share invitations (frontend/src/lib/notification-service.ts): one
    notification row per invited user, inserted in one batch, and the result
    record the caller receives. */
module NotificationService {
  import opened Common

  /** `{ user_id, trip_id, message }` */
  datatype NotificationRow = NotificationRow(userId: string, tripId: Option<string>, message: string)

  /** `{ success, error? }` */
  datatype ShareResult = ShareResult(success: bool, error: Option<string>)

  /** What `addNotificationsForTripShare` sends and what it returns. */
  datatype ShareCall = ShareCall(rows: seq<NotificationRow>, result: ShareResult)

  /** `userIds.map(userId => ({ user_id: userId, trip_id: tripId, message }))` */
  function BuildRows(userIds: seq<string>, tripId: Option<string>, message: string): (rows: seq<NotificationRow>)
    ensures |rows| == |userIds|
    ensures forall k :: 0 <= k < |rows| ==> rows[k].userId == userIds[k]
    ensures forall k :: 0 <= k < |rows| ==> rows[k].tripId == tripId && rows[k].message == message
  {
    if userIds == [] then [] else [NotificationRow(userIds[0], tripId, message)] + BuildRows(userIds[1..], tripId, message)
  }

  /** Rows for two runs of users are the rows of each run, in turn. */
  lemma {:induction false} BuildRowsConcat(a: seq<string>, b: seq<string>, tripId: Option<string>, message: string)
    ensures BuildRows(a + b, tripId, message) == BuildRows(a, tripId, message) + BuildRows(b, tripId, message)
  {
    if a == [] {
      assert a + b == b;
    } else {
      assert (a + b)[0] == a[0];
      assert (a + b)[1..] == a[1..] + b;
      BuildRowsConcat(a[1..], b, tripId, message);
    }
  }

  /** The result record for each answer of the store. */
  function ShareOutcome(answer: InsertAnswer): (r: ShareResult)
    ensures r.success <==> answer == Inserted
    ensures r.success ==> r.error == None
    ensures answer.InsertError? ==> r.error == Some(answer.message)
    ensures answer == InsertThrew ==> r.error == Some("Unexpected error occurred")
  {
    match answer
    case Inserted => ShareResult(true, None)
    case InsertError(m) => ShareResult(false, Some(m))
    case InsertThrew => ShareResult(false, Some("Unexpected error occurred"))
  }

  /** `addNotificationsForTripShare`: every answer produces a result record;
      nothing escapes to the caller. */
  function AddNotificationsForTripShare(userIds: seq<string>, tripId: Option<string>, message: string, answer: InsertAnswer): (c: ShareCall)
    ensures |c.rows| == |userIds| && forall k :: 0 <= k < |userIds| ==> c.rows[k] == NotificationRow(userIds[k], tripId, message)
    ensures c.result.success <==> answer == Inserted
    ensures !c.result.success ==> c.result.error.Some?
  {
    ShareCall(BuildRows(userIds, tripId, message), ShareOutcome(answer))
  }
}
