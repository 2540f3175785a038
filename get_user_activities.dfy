/** GetUserActivities.Handler (Application/Profiles/Queries/GetUserActivities.cs):
    the activities a user attends, in ascending date order, narrowed by the
    "past", "hosting" or default (future) filter. */
module GetUserActivities {
  import opened Wrappers
  import opened Domain
  import opened CoreResult

  predicate SortedByDate(s: seq<Activity>) {
    forall i, j :: 0 <= i < j < |s| ==> s[i].date <= s[j].date
  }

  /** `Where(u => u.User.Id == userId).Select(x => x.Activity)` over the join
      table, in table order. */
  function OfUser(rows: seq<AttendeeRow>, userId: string): (r: seq<Activity>)
    ensures forall a :: a in r <==>
      exists k :: 0 <= k < |rows| && rows[k].userId == userId && rows[k].activity == a
  {
    if rows == [] then []
    else
      var rest := OfUser(rows[1..], userId);
      assert forall k :: 1 <= k < |rows| ==> rows[k] == rows[1..][k - 1];
      if rows[0].userId == userId then [rows[0].activity] + rest else rest
  }

  /** Insertion of one activity after every activity with the same or an earlier date. */
  function InsertByDate(a: Activity, s: seq<Activity>): (r: seq<Activity>)
    requires SortedByDate(s)
    ensures SortedByDate(r)
    ensures multiset(r) == multiset(s) + multiset{a}
    ensures forall x :: x in r ==> x == a || x in s
  {
    if s == [] then [a]
    else if a.date < s[0].date then [a] + s
    else
      var rest := InsertByDate(a, s[1..]);
      assert s == [s[0]] + s[1..];
      assert forall x :: x in rest ==> s[0].date <= x.date by {
        forall x | x in rest ensures s[0].date <= x.date {
          if x != a {
            var k :| 0 <= k < |s[1..]| && s[1..][k] == x;
            assert s[k + 1] == x;
          }
        }
      }
      [s[0]] + rest
  }

  /** `OrderBy(a => a.Activity.Date)`: ascending by date and a permutation of its
      input; activities with equal dates may come out in any order. */
  function SortByDate(s: seq<Activity>): (r: seq<Activity>)
    ensures SortedByDate(r)
    ensures multiset(r) == multiset(s)
  {
    if s == [] then []
    else
      assert s == [s[0]] + s[1..];
      InsertByDate(s[0], SortByDate(s[1..]))
  }

  /** The filter switch of the handler: "past" and the default arm both keep
      the day itself, "hosting" ignores the date. */
  predicate Keeps(filter: string, today: DateTime, userId: string, a: Activity) {
    if filter == "past" then a.date <= today && Attends(a.attendees, userId)
    else if filter == "hosting" then HostedBy(a.attendees, userId)
    else a.date >= today && Attends(a.attendees, userId)
  }

  /** `query.Where(...)` with the chosen arm. */
  function Narrow(s: seq<Activity>, filter: string, today: DateTime, userId: string): (r: seq<Activity>)
    ensures forall a :: a in r <==> a in s && Keeps(filter, today, userId, a)
    ensures SortedByDate(s) ==> SortedByDate(r)
  {
    if s == [] then []
    else
      var rest := Narrow(s[1..], filter, today, userId);
      assert forall a :: a in s <==> a == s[0] || a in s[1..];
      assert SortedByDate(s) ==> forall x :: x in rest ==> s[0].date <= x.date by {
        if SortedByDate(s) {
          forall x | x in rest ensures s[0].date <= x.date {
            var k :| 0 <= k < |s[1..]| && s[1..][k] == x;
            assert s[k + 1] == x;
          }
        }
      }
      if Keeps(filter, today, userId, s[0]) then [s[0]] + rest else rest
  }

  /** Narrowing keeps every kept activity as often as it occurs. */
  lemma {:induction false} NarrowCount(s: seq<Activity>, filter: string, today: DateTime, userId: string, a: Activity)
    ensures multiset(Narrow(s, filter, today, userId))[a] ==
            if Keeps(filter, today, userId, a) then multiset(s)[a] else 0
  {
    if s != [] {
      assert s == [s[0]] + s[1..];
      NarrowCount(s[1..], filter, today, userId, a);
    }
  }

  /** `Handler.Handle`; `today` is `DateTime.UtcNow`. The date order is applied
      before the filter, as in the query; the activities are returned as
      entities, without the UserActivityDto projection. */
  function Handle(rows: seq<AttendeeRow>, userId: string, filter: string, today: DateTime)
    : (r: Result<seq<Activity>>)
    ensures r.IsSuccess && r.Value.Some?
    ensures SortedByDate(r.Value.value)
    ensures forall a :: a in r.Value.value <==>
      && (exists k :: 0 <= k < |rows| && rows[k].userId == userId && rows[k].activity == a)
      && Keeps(filter, today, userId, a)
    ensures forall a :: a in r.Value.value ==> Attends(a.attendees, userId)
    ensures filter == "past" ==> forall a :: a in r.Value.value ==> a.date <= today
    ensures filter == "hosting" ==> forall a :: a in r.Value.value ==> HostedBy(a.attendees, userId)
    ensures filter != "past" && filter != "hosting" ==> forall a :: a in r.Value.value ==> a.date >= today
  {
    var mine := OfUser(rows, userId);
    var sorted := SortByDate(mine);
    assert forall a :: a in sorted <==> a in mine by {
      forall a ensures a in sorted <==> a in mine {
        assert a in sorted <==> a in multiset(sorted);
        assert a in mine <==> a in multiset(mine);
      }
    }
    Success(Narrow(sorted, filter, today, userId))
  }

  /** The result holds each kept activity exactly as often as the user's rows name it. */
  lemma HandleKeepsMultiplicity(rows: seq<AttendeeRow>, userId: string, filter: string, today: DateTime, a: Activity)
    ensures multiset(Handle(rows, userId, filter, today).Value.value)[a] ==
            if Keeps(filter, today, userId, a) then multiset(OfUser(rows, userId))[a] else 0
  {
    NarrowCount(SortByDate(OfUser(rows, userId)), filter, today, userId, a);
    assert Handle(rows, userId, filter, today).Value.value == Narrow(SortByDate(OfUser(rows, userId)), filter, today, userId);
  }

  /** An attended activity dated exactly today is both past and upcoming. */
  lemma TodayIsPastAndFuture(rows: seq<AttendeeRow>, userId: string, today: DateTime, k: nat, other: string)
    requires k < |rows| && rows[k].userId == userId
    requires rows[k].activity.date == today && Attends(rows[k].activity.attendees, userId)
    requires other != "past" && other != "hosting"
    ensures rows[k].activity in Handle(rows, userId, "past", today).Value.value
    ensures rows[k].activity in Handle(rows, userId, other, today).Value.value
  {
  }
}
