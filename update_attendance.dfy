/** UpdateAttendance.Handler (Application/Activities/Commands/UpdateAttendance.cs):
    the current user joins an activity, leaves it, or, as its host, toggles
    its cancellation. */
module UpdateAttendance {
  import opened Wrappers
  import opened Domain
  import opened CoreResult
  import opened Persistence

  /** What the handler does to the loaded activity for user `u`: the first row
      of `u` decides; a host row of `u` flips `isCancelled`, any other row is
      removed, and a user without a row is added as a guest. */
  function Toggle(a: Activity, u: string): (r: Activity)
    // only the attendee list and the cancellation flag can change
    ensures r == a.(attendees := r.attendees, isCancelled := r.isCancelled)
    // a user without a row joins at the end as a guest
    ensures !Attends(a.attendees, u) ==>
      r.attendees == a.attendees + [Attendee(u, false)] && r.isCancelled == a.isCancelled
    // an attending guest loses one row, the first of theirs, and the rest keep their order
    ensures Attends(a.attendees, u) && !HostedBy(a.attendees, u) ==>
      && r.isCancelled == a.isCancelled
      && exists i :: 0 <= i < |a.attendees| && a.attendees[i].userId == u
           && (forall j :: 0 <= j < i ==> a.attendees[j].userId != u)
           && r.attendees == RemoveAt(a.attendees, i)
    // the host keeps the list and flips the flag
    ensures HostedBy(a.attendees, u) ==>
      r.attendees == a.attendees && r.isCancelled == !a.isCancelled
    // nobody's host row is ever removed or added
    ensures HostRows(r.attendees) == HostRows(a.attendees)
    // other users keep their rows, and `u` ends with at most one row if it had at most one
    ensures forall v :: v != u ==> Occurrences(r.attendees, v) == Occurrences(a.attendees, v)
    ensures Occurrences(a.attendees, u) <= 1 ==> Occurrences(r.attendees, u) <= 1
  {
    match IndexOfUser(a.attendees, u)
    case Some(i) =>
      if HostedBy(a.attendees, u) then
        a.(isCancelled := !a.isCancelled)
      else
        assert !a.attendees[i].isHost;
        HostRowsWithoutGuest(a.attendees, i);
        forall v ensures Occurrences(RemoveAt(a.attendees, i), v) ==
            Occurrences(a.attendees, v) - (if a.attendees[i].userId == v then 1 else 0) {
          OccurrencesRemoveAt(a.attendees, i, v);
        }
        a.(attendees := RemoveAt(a.attendees, i))
    case None =>
      HostRowsWithGuest(a.attendees, Attendee(u, false));
      forall v ensures Occurrences(a.attendees + [Attendee(u, false)], v) ==
          Occurrences(a.attendees, v) + (if u == v then 1 else 0) {
        OccurrencesConcat(a.attendees, [Attendee(u, false)], v);
        assert [Attendee(u, false)][1..] == [];
      }
      OccurrencesAttends(a.attendees, u);
      a.(attendees := a.attendees + [Attendee(u, false)])
  }

  /** One row per user before the toggle gives one row per user after it. */
  lemma ToggleKeepsCompositeKey(a: Activity, u: string)
    requires UniqueAttendees(a.attendees)
    ensures UniqueAttendees(Toggle(a, u).attendees)
  {
    var r := Toggle(a, u);
    forall v ensures Occurrences(r.attendees, v) <= 1 {
      UniqueCountsAtMostOnce(a.attendees, v);
    }
    AtMostOnceIsUnique(r.attendees);
  }

  /** A list in which every user is counted at most once has one row per user. */
  lemma AtMostOnceIsUnique(s: seq<Attendee>)
    requires forall v :: Occurrences(s, v) <= 1
    ensures UniqueAttendees(s)
  {
    forall i, j | 0 <= i < j < |s| ensures s[i].userId != s[j].userId {
      if s[i].userId == s[j].userId {
        TwoRowsCountTwice(s, i, j);
        assert false;
      }
    }
  }

  /** Two rows of one user count at least twice. */
  lemma {:induction false} TwoRowsCountTwice(s: seq<Attendee>, i: nat, j: nat)
    requires i < j < |s| && s[i].userId == s[j].userId
    ensures Occurrences(s, s[i].userId) >= 2
  {
    var v := s[i].userId;
    if i == 0 {
      OccurrencesAttends(s[1..], v);
      assert s[1..][j - 1].userId == v;
    } else {
      assert s[1..][i - 1] == s[i] && s[1..][j - 1] == s[j];
      TwoRowsCountTwice(s[1..], i - 1, j - 1);
    }
  }

  /** With the composite key, an attending guest is no longer an attendee afterwards. */
  lemma GuestLeaves(a: Activity, u: string)
    requires UniqueAttendees(a.attendees)
    requires Attends(a.attendees, u) && !HostedBy(a.attendees, u)
    ensures !Attends(Toggle(a, u).attendees, u)
    ensures Toggle(a, u).isCancelled == a.isCancelled
  {
    var i := IndexOfUser(a.attendees, u).value;
    UniqueCountsAtMostOnce(a.attendees, u);
    OccurrencesAttends(a.attendees, u);
    OccurrencesRemoveAt(a.attendees, i, u);
    OccurrencesAttends(Toggle(a, u).attendees, u);
  }

  /** The host toggling twice, or a newcomer joining and then leaving, restores
      the activity; only an attending guest who leaves and rejoins moves to the end. */
  lemma ToggleTwiceRestores(a: Activity, u: string)
    requires HostedBy(a.attendees, u) || !Attends(a.attendees, u)
    ensures Toggle(Toggle(a, u), u) == a
  {
    if !Attends(a.attendees, u) {
      var once := Toggle(a, u);
      var n := |a.attendees|;
      assert once.attendees[n].userId == u;
      assert !HostedBy(once.attendees, u);
      assert IndexOfUser(once.attendees, u) == Some(n);
      assert RemoveAt(once.attendees, n) == a.attendees;
    }
  }

  /** `Handler.Handle`: load the activity, apply `Toggle` for the current user,
      and turn the save outcome into the result. */
  method Handle(db: AppDbContext, userId: string, activityId: string, saved: bool) returns (r: Result<Unit>)
    requires db.Valid()
    requires userId in db.users
    modifies db
    ensures db.Valid()
    ensures db.users == old(db.users) && db.userFollowings == old(db.userFollowings)
    ensures activityId !in old(db.activities) ==>
      r == Failure("Activity not found", 404) && db.activities == old(db.activities)
    ensures activityId in old(db.activities) ==>
      && db.activities == old(db.activities)[activityId := Toggle(old(db.activities)[activityId], userId)]
      && r == if saved then Success(Unit) else Failure("Problem updating the DB", 400)
  {
    if activityId !in db.activities {
      return Failure("Activity not found", 404);
    }
    var activity := db.activities[activityId];
    var attendance := IndexOfUser(activity.attendees, userId);
    var isHost := HostedBy(activity.attendees, userId);
    if attendance.Some? {
      if isHost {
        activity := activity.(isCancelled := !activity.isCancelled);
      } else {
        activity := activity.(attendees := RemoveAt(activity.attendees, attendance.value));
      }
    } else {
      activity := activity.(attendees := activity.attendees + [Attendee(userId, false)]);
    }
    ToggleKeepsCompositeKey(db.activities[activityId], userId);
    db.activities := db.activities[activityId := activity];
    r := if saved then Success(Unit) else Failure("Problem updating the DB", 400);
  }
}
