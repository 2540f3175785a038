/** The activity side of the client cache (client/src/lib/hooks/useActivities.ts):
    per-user flags added on every read, the optimistic attendance update, and
    its rollback. */
module UseActivities {
  import opened Wrappers
  import opened Domain
  import UpdateAttendance

  /** An attendee as the client receives it. */
  datatype AttendeeProfile = AttendeeProfile(id: string, displayName: string, imageUrl: Option<string>)

  /** The signed-in user from the account query. */
  datatype CurrentUser = CurrentUser(id: string, displayName: string, imageUrl: Option<string>)

  /** The client's `Activity`; `hostId` is the first attendee with the host flag. */
  datatype ClientActivity = ClientActivity(
    id: string,
    title: string,
    date: string,
    hostId: string,
    isCancelled: bool,
    attendees: seq<AttendeeProfile>)

  /** An activity with the fields `select` adds. */
  datatype EnrichedActivity = EnrichedActivity(
    activity: ClientActivity, isHost: bool, isGoing: bool, hostImageUrl: Option<string>)

  datatype Page = Page(items: seq<ClientActivity>, nextCursor: Option<string>)

  datatype EnrichedPage = EnrichedPage(items: seq<EnrichedActivity>, nextCursor: Option<string>)

  /** `attendees.find(x => x.id === id)`, as the index of the attendee it finds. */
  function FindAttendee(atts: seq<AttendeeProfile>, id: string): (r: Option<nat>)
    ensures r.None? <==> forall i :: 0 <= i < |atts| ==> atts[i].id != id
    ensures r.Some? ==> r.value < |atts| && atts[r.value].id == id
    ensures r.Some? ==> forall j :: 0 <= j < r.value ==> atts[j].id != id
  {
    if atts == [] then None
    else if atts[0].id == id then Some(0)
    else
      match FindAttendee(atts[1..], id)
      case None =>
        assert forall j :: 1 <= j < |atts| ==> atts[j] == atts[1..][j - 1];
        None
      case Some(i) => Some(i + 1)
  }

  /** `attendees.filter(x => x.id !== id)`. */
  function WithoutAttendee(atts: seq<AttendeeProfile>, id: string): (r: seq<AttendeeProfile>)
    ensures |r| <= |atts|
    ensures forall x :: x in r <==> x in atts && x.id != id
  {
    if atts == [] then []
    else
      var rest := WithoutAttendee(atts[1..], id);
      assert forall x :: x in atts <==> x == atts[0] || x in atts[1..];
      if atts[0].id != id then [atts[0]] + rest else rest
  }

  /** The filter keeps the others in order: it commutes with concatenation. */
  lemma {:induction false} WithoutAttendeeConcat(s: seq<AttendeeProfile>, t: seq<AttendeeProfile>, id: string)
    ensures WithoutAttendee(s + t, id) == WithoutAttendee(s, id) + WithoutAttendee(t, id)
  {
    if s == [] {
      assert s + t == t;
    } else {
      assert (s + t)[1..] == s[1..] + t;
      WithoutAttendeeConcat(s[1..], t, id);
    }
  }

  /** The `select` mapper of both activity queries. With no signed-in user the
      optional chain yields `undefined`, which equals no string id. */
  function Enrich(a: ClientActivity, user: Option<CurrentUser>): (e: EnrichedActivity)
    ensures e.activity == a
    ensures e.isHost <==> user.Some? && user.value.id == a.hostId
    ensures e.isGoing <==> user.Some? && exists i :: 0 <= i < |a.attendees| && a.attendees[i].id == user.value.id
    ensures (forall i :: 0 <= i < |a.attendees| ==> a.attendees[i].id != a.hostId) ==> e.hostImageUrl == None
    ensures forall i :: 0 <= i < |a.attendees| && a.attendees[i].id == a.hostId
                        && (forall j :: 0 <= j < i ==> a.attendees[j].id != a.hostId)
                        ==> e.hostImageUrl == a.attendees[i].imageUrl
  {
    var going := user.Some? && FindAttendee(a.attendees, user.value.id).Some?;
    var hostImageUrl := match FindAttendee(a.attendees, a.hostId)
      case None => None
      case Some(i) => a.attendees[i].imageUrl;
    EnrichedActivity(a, user.Some? && user.value.id == a.hostId, going, hostImageUrl)
  }

  /** The `select` of the paged list query: every page keeps its cursor and
      the order of its items, and every item is enriched. */
  function SelectPages(pages: seq<Page>, user: Option<CurrentUser>): (r: seq<EnrichedPage>)
    ensures |r| == |pages|
    ensures forall i :: 0 <= i < |pages| ==>
      && r[i].nextCursor == pages[i].nextCursor
      && |r[i].items| == |pages[i].items|
      && forall j :: 0 <= j < |pages[i].items| ==> r[i].items[j] == Enrich(pages[i].items[j], user)
  {
    seq(|pages|, i requires 0 <= i < |pages| =>
      EnrichedPage(seq(|pages[i].items|, j requires 0 <= j < |pages[i].items| => Enrich(pages[i].items[j], user)),
                   pages[i].nextCursor))
  }

  /** The updater handed to `setQueryData` in `onMutate`. */
  function UpdatedAttendance(cached: Option<ClientActivity>, user: Option<CurrentUser>): (r: Option<ClientActivity>)
    ensures cached.None? || user.None? ==> r == cached
    ensures cached.Some? && user.Some? ==>
      var a := cached.value;
      var u := user.value;
      var attending := exists i :: 0 <= i < |a.attendees| && a.attendees[i].id == u.id;
      && r.Some?
      && r.value == a.(isCancelled := r.value.isCancelled, attendees := r.value.attendees)
      && r.value.isCancelled == (if a.hostId == u.id then !a.isCancelled else a.isCancelled)
      && (attending && a.hostId == u.id ==> r.value.attendees == a.attendees)
      && (attending && a.hostId != u.id ==> r.value.attendees == WithoutAttendee(a.attendees, u.id))
      && (!attending ==> r.value.attendees == a.attendees + [AttendeeProfile(u.id, u.displayName, u.imageUrl)])
  {
    match (cached, user)
    case (Some(a), Some(u)) =>
      var isHost := a.hostId == u.id;
      var isAttending := FindAttendee(a.attendees, u.id).Some?;
      Some(a.(
        isCancelled := if isHost then !a.isCancelled else a.isCancelled,
        attendees :=
          if isAttending then
            if isHost then a.attendees else WithoutAttendee(a.attendees, u.id)
          else a.attendees + [AttendeeProfile(u.id, u.displayName, u.imageUrl)]))
    case _ => cached
  }

  /** The cached entry of `['activities', id]`, `undefined` when absent. */
  function Lookup(entries: map<string, ClientActivity>, id: string): (r: Option<ClientActivity>)
    ensures r.None? <==> id !in entries
    ensures r.Some? ==> id in entries && r.value == entries[id]
  {
    if id in entries then Some(entries[id]) else None
  }

  /** The cache after `onMutate`; an updater returning `undefined` stores nothing. */
  function AfterMutate(entries: map<string, ClientActivity>, id: string, user: Option<CurrentUser>)
    : (r: map<string, ClientActivity>)
    ensures r.Keys == entries.Keys
    ensures forall k :: k in entries && k != id ==> r[k] == entries[k]
    ensures id in entries ==> Some(r[id]) == UpdatedAttendance(Some(entries[id]), user)
  {
    if id in entries then entries[id := UpdatedAttendance(Some(entries[id]), user).value] else entries
  }

  /** The cache after `onError` with the snapshot taken in `onMutate`. */
  function Restore(entries: map<string, ClientActivity>, id: string, prev: Option<ClientActivity>)
    : (r: map<string, ClientActivity>)
    ensures prev.None? ==> r == entries
    ensures prev.Some? ==> r == entries[id := prev.value]
  {
    if prev.Some? then entries[id := prev.value] else entries
  }

  /** Rolling back with the snapshot gives back exactly the cache before the mutation. */
  lemma RollbackRestores(entries: map<string, ClientActivity>, id: string, user: Option<CurrentUser>)
    ensures Restore(AfterMutate(entries, id, user), id, Lookup(entries, id)) == entries
  {
  }

  /** The query cache's activity entries. */
  class ActivityCache {
    var entries: map<string, ClientActivity>

    constructor (entries: map<string, ClientActivity>)
      ensures this.entries == entries
    {
      this.entries := entries;
    }

    /** `onMutate`: take the snapshot, then apply the optimistic update. */
    method OnMutate(activityId: string, currentUser: Option<CurrentUser>) returns (prevActivity: Option<ClientActivity>)
      modifies this
      ensures prevActivity == Lookup(old(entries), activityId)
      ensures entries == AfterMutate(old(entries), activityId, currentUser)
    {
      prevActivity := Lookup(entries, activityId);
      if activityId in entries {
        var updated := UpdatedAttendance(Some(entries[activityId]), currentUser);
        entries := entries[activityId := updated.value];
      }
    }

    /** `onError`: write the snapshot back when there is one. */
    method OnError(activityId: string, prevActivity: Option<ClientActivity>)
      modifies this
      ensures entries == Restore(old(entries), activityId, prevActivity)
    {
      if prevActivity.Some? {
        entries := entries[activityId := prevActivity.value];
      }
    }
  }

  // The optimistic update against the server's toggle.

  function ServerIds(atts: seq<Attendee>): seq<string> {
    seq(|atts|, i requires 0 <= i < |atts| => atts[i].userId)
  }

  function ClientIds(ps: seq<AttendeeProfile>): seq<string> {
    seq(|ps|, i requires 0 <= i < |ps| => ps[i].id)
  }

  /** The client's copy shows the server's activity: the same attendees in the
      same order, the same cancellation flag, and `hostId` names the only
      user whose row carries the host flag. */
  predicate Mirrors(c: ClientActivity, a: Activity) {
    && c.id == a.id
    && c.isCancelled == a.isCancelled
    && ClientIds(c.attendees) == ServerIds(a.attendees)
    && Attends(a.attendees, c.hostId)
    && forall i :: 0 <= i < |a.attendees| ==> (a.attendees[i].isHost <==> a.attendees[i].userId == c.hostId)
  }

  /** `ids` without every occurrence of `u`. */
  function DropId(ids: seq<string>, u: string): seq<string> {
    if ids == [] then []
    else (if ids[0] != u then [ids[0]] else []) + DropId(ids[1..], u)
  }

  lemma {:induction false} DropIdConcat(s: seq<string>, t: seq<string>, u: string)
    ensures DropId(s + t, u) == DropId(s, u) + DropId(t, u)
  {
    if s == [] {
      assert s + t == t;
    } else {
      assert (s + t)[1..] == s[1..] + t;
      DropIdConcat(s[1..], t, u);
    }
  }

  lemma {:induction false} DropAbsentId(s: seq<string>, u: string)
    requires u !in s
    ensures DropId(s, u) == s
  {
    if s != [] {
      assert u !in s[1..] by {
        forall k | 0 <= k < |s[1..]| ensures s[1..][k] != u { assert s[1..][k] == s[k + 1]; }
      }
      DropAbsentId(s[1..], u);
    }
  }

  lemma {:induction false} ClientIdsWithout(ps: seq<AttendeeProfile>, u: string)
    ensures ClientIds(WithoutAttendee(ps, u)) == DropId(ClientIds(ps), u)
  {
    if ps != [] {
      var ids := ClientIds(ps);
      var rest := WithoutAttendee(ps[1..], u);
      ClientIdsWithout(ps[1..], u);
      assert ids[0] == ps[0].id && ids[1..] == ClientIds(ps[1..]);
      if ps[0].id != u {
        ClientIdsCons(ps[0], rest);
      }
    }
  }

  lemma ClientIdsCons(p: AttendeeProfile, ps: seq<AttendeeProfile>)
    ensures ClientIds([p] + ps) == [p.id] + ClientIds(ps)
  {
  }

  lemma ServerIdsRemoveAt(atts: seq<Attendee>, i: nat)
    requires i < |atts|
    ensures ServerIds(RemoveAt(atts, i)) == ServerIds(atts)[..i] + ServerIds(atts)[i + 1..]
  {
  }

  /** Dropping the value only the middle element of `p + [u] + q` carries. */
  lemma DropOnlyCarrier(p: seq<string>, u: string, q: seq<string>)
    requires u !in p && u !in q
    ensures DropId(p + ([u] + q), u) == p + q
  {
    var t := [u] + q;
    DropIdConcat(p, t, u);
    assert t != [] && t[0] == u && t[1..] == q;
    assert DropId(t, u) == DropId(q, u);
    DropAbsentId(p, u);
    DropAbsentId(q, u);
  }

  /** Dropping a value that occurs once removes just its position. */
  lemma DropOnlyOccurrence(ids: seq<string>, i: nat)
    requires i < |ids|
    requires ids[i] !in ids[..i] && ids[i] !in ids[i + 1..]
    ensures DropId(ids, ids[i]) == ids[..i] + ids[i + 1..]
  {
    SplitAround(ids, i);
    DropOnlyCarrier(ids[..i], ids[i], ids[i + 1..]);
  }

  /** Removing the only row of `u` drops exactly `u` from the id list. */
  lemma ServerIdsRemoveUnique(atts: seq<Attendee>, i: nat)
    requires UniqueAttendees(atts) && i < |atts|
    ensures ServerIds(RemoveAt(atts, i)) == DropId(ServerIds(atts), atts[i].userId)
  {
    var ids := ServerIds(atts);
    ServerIdsRemoveAt(atts, i);
    assert ids[i] !in ids[..i] by {
      forall x | x in ids[..i] ensures x != ids[i] {
        var k :| 0 <= k < i && ids[..i][k] == x;
        assert ids[k] == atts[k].userId;
      }
    }
    var post := ids[i + 1..];
    assert ids[i] !in post by {
      forall x | x in post ensures x != ids[i] {
        var k :| 0 <= k < |post| && post[k] == x;
        assert post[k] == atts[i + 1 + k].userId;
      }
    }
    DropOnlyOccurrence(ids, i);
  }

  /** On a mirrored activity both sides agree on who attends and who hosts. */
  lemma MirrorAgrees(c: ClientActivity, a: Activity, u: string)
    requires Mirrors(c, a)
    ensures (exists i :: 0 <= i < |c.attendees| && c.attendees[i].id == u) <==> Attends(a.attendees, u)
    ensures HostedBy(a.attendees, u) <==> u == c.hostId
  {
    if exists i :: 0 <= i < |c.attendees| && c.attendees[i].id == u {
      var i :| 0 <= i < |c.attendees| && c.attendees[i].id == u;
      assert ClientIds(c.attendees)[i] == u;
      assert a.attendees[i].userId == u;
    }
    if Attends(a.attendees, u) {
      var i :| 0 <= i < |a.attendees| && a.attendees[i].userId == u;
      assert ServerIds(a.attendees)[i] == u;
      assert c.attendees[i].id == u;
    }
  }

  /** A newcomer joins on both sides. */
  lemma MirrorJoin(c: ClientActivity, a: Activity, p: AttendeeProfile)
    requires Mirrors(c, a) && p.id != c.hostId
    ensures Mirrors(c.(attendees := c.attendees + [p]), a.(attendees := a.attendees + [Attendee(p.id, false)]))
  {
    var h :| 0 <= h < |a.attendees| && a.attendees[h].userId == c.hostId;
    assert (a.attendees + [Attendee(p.id, false)])[h] == a.attendees[h];
    assert ClientIds(c.attendees + [p]) == ClientIds(c.attendees) + [p.id];
    assert ServerIds(a.attendees + [Attendee(p.id, false)]) == ServerIds(a.attendees) + [p.id];
  }

  /** A guest leaves on both sides. */
  lemma MirrorLeave(c: ClientActivity, a: Activity, i: nat)
    requires UniqueAttendees(a.attendees) && Mirrors(c, a)
    requires i < |a.attendees| && a.attendees[i].userId != c.hostId
    ensures Mirrors(c.(attendees := WithoutAttendee(c.attendees, a.attendees[i].userId)),
                    a.(attendees := RemoveAt(a.attendees, i)))
  {
    var u := a.attendees[i].userId;
    ServerIdsRemoveUnique(a.attendees, i);
    ClientIdsWithout(c.attendees, u);
    var h :| 0 <= h < |a.attendees| && a.attendees[h].userId == c.hostId;
    assert h != i;
    if h < i {
      assert RemoveAt(a.attendees, i)[h] == a.attendees[h];
    } else {
      assert RemoveAt(a.attendees, i)[h - 1] == a.attendees[h];
    }
  }

  /** The optimistic update is the server's toggle seen from the client: on a
      mirrored activity with one row per user, both end in mirrored states. */
  lemma OptimisticUpdateMirrorsToggle(c: ClientActivity, a: Activity, user: CurrentUser)
    requires UniqueAttendees(a.attendees) && Mirrors(c, a)
    ensures Mirrors(UpdatedAttendance(Some(c), Some(user)).value, UpdateAttendance.Toggle(a, user.id))
  {
    var u := user.id;
    MirrorAgrees(c, a, u);
    if !Attends(a.attendees, u) {
      MirrorJoin(c, a, AttendeeProfile(u, user.displayName, user.imageUrl));
    } else if u != c.hostId {
      var t := UpdateAttendance.Toggle(a, u);
      var i :| 0 <= i < |a.attendees| && a.attendees[i].userId == u && t.attendees == RemoveAt(a.attendees, i);
      MirrorLeave(c, a, i);
    }
  }
}
