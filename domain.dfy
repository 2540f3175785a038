/** The persisted entities (the classes under Domain/) as values, and the searches over
    their collections that the handlers share. */
module Domain {
  import opened Wrappers

  /** A `DateTime`, as a count of ticks: only comparisons are made on it. */
  type DateTime = int

  /** A row of the attendee join table on the activity side; its ActivityId is
      the id of the activity that holds it. */
  datatype Attendee = Attendee(userId: string, isHost: bool)

  datatype Comment = Comment(id: string, body: string, createdAt: DateTime, userId: string, activityId: string)

  datatype Activity = Activity(
    id: string,
    title: string,
    date: DateTime,
    description: string,
    category: string,
    isCancelled: bool,
    city: string,
    venue: string,
    latitude: real,
    longitude: real,
    attendees: seq<Attendee>,
    comments: seq<Comment>)

  datatype Photo = Photo(id: string, url: string, publicId: string, userId: string)

  /** The application's fields of an identity user; `None` is a C# `null`. */
  datatype User = User(
    id: string,
    displayName: Option<string>,
    bio: Option<string>,
    imageUrl: Option<string>,
    photos: seq<Photo>)

  /** A follow row: Observer follows Target. */
  datatype UserFollowing = UserFollowing(observerId: string, targetId: string)

  /** A row of the ActivityAttendees table together with its Activity navigation. */
  datatype AttendeeRow = AttendeeRow(userId: string, isHost: bool, activity: Activity)

  /** Some attendee row belongs to user `u`. */
  predicate Attends(atts: seq<Attendee>, u: string) {
    exists i :: 0 <= i < |atts| && atts[i].userId == u
  }

  /** Some attendee row of user `u` carries the host flag. */
  predicate HostedBy(atts: seq<Attendee>, u: string) {
    exists i :: 0 <= i < |atts| && atts[i].isHost && atts[i].userId == u
  }

  /** The composite key (ActivityId, UserId) of the join table: one row per user. */
  predicate UniqueAttendees(atts: seq<Attendee>) {
    forall i, j :: 0 <= i < j < |atts| ==> atts[i].userId != atts[j].userId
  }

  /** Number of rows that belong to user `u`. */
  function Occurrences(atts: seq<Attendee>, u: string): nat {
    if atts == [] then 0
    else (if atts[0].userId == u then 1 else 0) + Occurrences(atts[1..], u)
  }

  /** The host rows, in order. */
  function HostRows(atts: seq<Attendee>): seq<Attendee> {
    if atts == [] then []
    else (if atts[0].isHost then [atts[0]] else []) + HostRows(atts[1..])
  }

  /** `FirstOrDefault(x => x.UserId == u)`, as the index of the row it finds. */
  function IndexOfUser(atts: seq<Attendee>, u: string): (r: Option<nat>)
    ensures r.None? <==> !Attends(atts, u)
    ensures r.Some? ==> r.value < |atts| && atts[r.value].userId == u
    ensures r.Some? ==> forall j :: 0 <= j < r.value ==> atts[j].userId != u
  {
    if atts == [] then None
    else if atts[0].userId == u then Some(0)
    else
      match IndexOfUser(atts[1..], u)
      case None =>
        assert forall j :: 1 <= j < |atts| ==> atts[j] == atts[1..][j - 1];
        None
      case Some(i) => Some(i + 1)
  }

  /** Some photo in the list has id `id`. */
  predicate HasPhoto(photos: seq<Photo>, id: string) {
    exists i :: 0 <= i < |photos| && photos[i].id == id
  }

  /** `FirstOrDefault(x => x.Id == id)` over a user's photos, as an index. */
  function IndexOfPhoto(photos: seq<Photo>, id: string): (r: Option<nat>)
    ensures r.None? <==> !HasPhoto(photos, id)
    ensures r.Some? ==> r.value < |photos| && photos[r.value].id == id
    ensures r.Some? ==> forall j :: 0 <= j < r.value ==> photos[j].id != id
  {
    if photos == [] then None
    else if photos[0].id == id then Some(0)
    else
      match IndexOfPhoto(photos[1..], id)
      case None =>
        assert forall j :: 1 <= j < |photos| ==> photos[j] == photos[1..][j - 1];
        None
      case Some(i) => Some(i + 1)
  }

  /** `ICollection.Remove` of the element at index `i`: the others keep their order. */
  function RemoveAt<T>(s: seq<T>, i: nat): (r: seq<T>)
    requires i < |s|
    ensures |r| == |s| - 1
    ensures forall j :: 0 <= j < i ==> r[j] == s[j]
    ensures forall j :: i <= j < |r| ==> r[j] == s[j + 1]
  {
    s[..i] + s[i + 1..]
  }

  /** A list is its prefix, the element at `i` and its suffix. */
  lemma SplitAround<T>(s: seq<T>, i: nat)
    requires i < |s|
    ensures s == s[..i] + ([s[i]] + s[i + 1..])
  {
    assert s[i..] == [s[i]] + s[i + 1..];
    assert s == s[..i] + s[i..];
  }

  lemma {:induction false} OccurrencesConcat(s: seq<Attendee>, t: seq<Attendee>, u: string)
    ensures Occurrences(s + t, u) == Occurrences(s, u) + Occurrences(t, u)
  {
    if s == [] {
      assert s + t == t;
    } else {
      assert (s + t)[1..] == s[1..] + t;
      OccurrencesConcat(s[1..], t, u);
    }
  }

  /** A user has rows exactly when they are counted. */
  lemma {:induction false} OccurrencesAttends(s: seq<Attendee>, u: string)
    ensures Occurrences(s, u) > 0 <==> Attends(s, u)
  {
    if s != [] {
      OccurrencesAttends(s[1..], u);
      if Attends(s[1..], u) {
        var i :| 0 <= i < |s[1..]| && s[1..][i].userId == u;
        assert s[i + 1].userId == u;
      }
      if Attends(s, u) && s[0].userId != u {
        var i :| 0 <= i < |s| && s[i].userId == u;
        assert s[1..][i - 1].userId == u;
      }
    }
  }

  /** Under the composite key every user is counted at most once. */
  lemma {:induction false} UniqueCountsAtMostOnce(s: seq<Attendee>, u: string)
    requires UniqueAttendees(s)
    ensures Occurrences(s, u) <= 1
  {
    if s != [] {
      assert UniqueAttendees(s[1..]) by {
        forall i, j | 0 <= i < j < |s[1..]| ensures s[1..][i].userId != s[1..][j].userId {
          assert s[1..][i] == s[i + 1] && s[1..][j] == s[j + 1];
        }
      }
      UniqueCountsAtMostOnce(s[1..], u);
      if s[0].userId == u {
        OccurrencesAttends(s[1..], u);
        assert !Attends(s[1..], u) by {
          forall i | 0 <= i < |s[1..]| ensures s[1..][i].userId != u {
            assert s[1..][i] == s[i + 1];
          }
        }
      }
    }
  }

  /** Removing row `i` uncounts exactly that row's user. */
  lemma OccurrencesRemoveAt(s: seq<Attendee>, i: nat, u: string)
    requires i < |s|
    ensures Occurrences(RemoveAt(s, i), u) == Occurrences(s, u) - (if s[i].userId == u then 1 else 0)
  {
    assert s == s[..i] + ([s[i]] + s[i + 1..]);
    OccurrencesConcat(s[..i], [s[i]] + s[i + 1..], u);
    OccurrencesConcat([s[i]], s[i + 1..], u);
    OccurrencesConcat(s[..i], s[i + 1..], u);
    assert Occurrences([s[i]], u) == (if s[i].userId == u then 1 else 0) by {
      assert [s[i]][1..] == [];
    }
  }

  lemma {:induction false} HostRowsConcat(s: seq<Attendee>, t: seq<Attendee>)
    ensures HostRows(s + t) == HostRows(s) + HostRows(t)
  {
    if s == [] {
      assert s + t == t;
    } else {
      assert (s + t)[0] == s[0] && (s + t)[1..] == s[1..] + t;
      HostRowsConcat(s[1..], t);
      var head := if s[0].isHost then [s[0]] else [];
      assert HostRows(s + t) == head + (HostRows(s[1..]) + HostRows(t));
      assert head + (HostRows(s[1..]) + HostRows(t)) == (head + HostRows(s[1..])) + HostRows(t);
    }
  }

  /** Removing or appending a row without the host flag keeps the host rows. */
  lemma HostRowsWithoutGuest(s: seq<Attendee>, i: nat)
    requires i < |s| && !s[i].isHost
    ensures HostRows(RemoveAt(s, i)) == HostRows(s)
  {
    SplitAround(s, i);
    HostRowsSkipGuest(s[..i], s[i], s[i + 1..]);
  }

  lemma HostRowsSkipGuest(p: seq<Attendee>, a: Attendee, q: seq<Attendee>)
    requires !a.isHost
    ensures HostRows(p + ([a] + q)) == HostRows(p + q)
  {
    var t := [a] + q;
    HostRowsConcat(p, t);
    assert t != [] && t[0] == a && t[1..] == q;
    assert HostRows(t) == HostRows(q);
    HostRowsConcat(p, q);
  }

  lemma HostRowsWithGuest(s: seq<Attendee>, a: Attendee)
    requires !a.isHost
    ensures HostRows(s + [a]) == HostRows(s)
  {
    HostRowsConcat(s, [a]);
    assert HostRows([a]) == [] by {
      assert [a][1..] == [];
    }
  }
}
