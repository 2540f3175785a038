/** IsHostRequirementHandler.HandleRequirementAsync
    (Infrastructure/Security/IsHostRequirement.cs): only the host of the
    activity named by the route may pass. */
module IsHostRequirement {
  import opened Wrappers
  import opened Domain

  /** What the handler does to the authorization context. It never calls
      `Fail` and never writes to the database; `SingleOrDefaultAsync` throws
      when two rows match. */
  datatype Decision = Succeeded | NotSucceeded | Throws

  /** The join-table rows of user `u` in activity `activityId`. */
  function Matching(rows: seq<AttendeeRow>, u: string, activityId: string): (r: seq<AttendeeRow>)
    ensures forall x :: x in r <==> x in rows && x.userId == u && x.activity.id == activityId
    ensures (forall x :: x in rows ==> x.userId != u || x.activity.id != activityId) ==> r == []
  {
    if rows == [] then []
    else
      var rest := Matching(rows[1..], u, activityId);
      assert forall x :: x in rows <==> x == rows[0] || x in rows[1..];
      if rows[0].userId == u && rows[0].activity.id == activityId then [rows[0]] + rest else rest
  }

  /** `userId` is the NameIdentifier claim, `routeId` the route value "id" when
      it is a string, `rows` the ActivityAttendees table. */
  function HandleRequirement(userId: Option<string>, routeId: Option<string>, rows: seq<AttendeeRow>)
    : (d: Decision)
    ensures userId.None? || routeId.None? ==> d == NotSucceeded
    ensures userId.Some? && routeId.Some? ==>
      var m := Matching(rows, userId.value, routeId.value);
      && (|m| == 0 ==> d == NotSucceeded)
      && (|m| == 1 ==> (d == Succeeded <==> m[0].isHost))
      && (|m| > 1 ==> d == Throws)
  {
    match (userId, routeId)
    case (Some(u), Some(id)) =>
      var m := Matching(rows, u, id);
      if |m| == 0 then NotSucceeded
      else if |m| > 1 then Throws
      else if m[0].isHost then Succeeded
      else NotSucceeded
    case _ => NotSucceeded
  }

  /** The composite key (ActivityId, UserId) of the join table. */
  predicate KeyedRows(rows: seq<AttendeeRow>) {
    forall i, j :: 0 <= i < j < |rows| ==>
      rows[i].userId != rows[j].userId || rows[i].activity.id != rows[j].activity.id
  }

  /** Under the composite key a user has at most one row per activity. */
  lemma {:induction false} KeyedRowsMatchAtMostOnce(rows: seq<AttendeeRow>, u: string, activityId: string)
    requires KeyedRows(rows)
    ensures |Matching(rows, u, activityId)| <= 1
  {
    if rows != [] {
      assert KeyedRows(rows[1..]) by {
        forall i, j | 0 <= i < j < |rows[1..]|
          ensures rows[1..][i].userId != rows[1..][j].userId || rows[1..][i].activity.id != rows[1..][j].activity.id
        {
          assert rows[1..][i] == rows[i + 1] && rows[1..][j] == rows[j + 1];
        }
      }
      KeyedRowsMatchAtMostOnce(rows[1..], u, activityId);
      if rows[0].userId == u && rows[0].activity.id == activityId {
        // nothing after the first row shares its key
        forall x | x in rows[1..] ensures x.userId != u || x.activity.id != activityId {
          var j :| 0 <= j < |rows[1..]| && rows[1..][j] == x;
          assert rows[j + 1] == x;
        }
      }
    }
  }

  /** On a keyed table the handler never throws, and it succeeds exactly when
      the user's row in that activity is a host row. */
  lemma HostOnly(userId: Option<string>, routeId: Option<string>, rows: seq<AttendeeRow>)
    requires KeyedRows(rows)
    ensures HandleRequirement(userId, routeId, rows) != Throws
    ensures HandleRequirement(userId, routeId, rows) == Succeeded <==>
      && userId.Some? && routeId.Some?
      && exists x :: x in rows && x.userId == userId.value && x.activity.id == routeId.value && x.isHost
  {
    if userId.Some? && routeId.Some? {
      var m := Matching(rows, userId.value, routeId.value);
      KeyedRowsMatchAtMostOnce(rows, userId.value, routeId.value);
      if |m| == 1 {
        assert m[0] in m;
        forall x | x in rows && x.userId == userId.value && x.activity.id == routeId.value
          ensures x == m[0]
        {
          assert x in m;
        }
      }
    }
  }
}
