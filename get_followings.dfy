/** GetFollowings.Handler (Application/Profiles/Queries/GetFollowings.cs):
    the followers or the followings of a user, read off the follow table. */
module GetFollowings {
  import opened Wrappers
  import opened Domain
  import opened CoreResult

  /** The `Predicate` a query carries when the client names none. */
  const DefaultPredicate := "followers"

  /** `Where(x => x.TargetId == userId).Select(x => x.Observer)`: every observer
      of the user, once per follow row, in table order. */
  function Followers(rows: seq<UserFollowing>, userId: string): (r: seq<string>)
    ensures forall v :: multiset(r)[v] == multiset(rows)[UserFollowing(v, userId)]
  {
    if rows == [] then []
    else
      assert rows == [rows[0]] + rows[1..];
      var rest := Followers(rows[1..], userId);
      if rows[0].targetId == userId then [rows[0].observerId] + rest else rest
  }

  /** `Where(x => x.ObserverId == userId).Select(x => x.Target)`. */
  function Followings(rows: seq<UserFollowing>, userId: string): (r: seq<string>)
    ensures forall v :: multiset(r)[v] == multiset(rows)[UserFollowing(userId, v)]
  {
    if rows == [] then []
    else
      assert rows == [rows[0]] + rows[1..];
      var rest := Followings(rows[1..], userId);
      if rows[0].observerId == userId then [rows[0].targetId] + rest else rest
  }

  /** `Handler.Handle`, with the profiles as user ids. Any other predicate
      leaves the list empty, and an unknown user simply has no rows. */
  function Handle(rows: seq<UserFollowing>, kind: string, userId: string): (r: Result<seq<string>>)
    ensures r.IsSuccess && r.Value.Some?
    ensures kind == "followers" ==>
      forall v :: v in r.Value.value <==> UserFollowing(v, userId) in rows
    ensures kind == "followings" ==>
      forall v :: v in r.Value.value <==> UserFollowing(userId, v) in rows
    ensures kind != "followers" && kind != "followings" ==> r.Value.value == []
  {
    var profiles :=
      if kind == "followers" then Followers(rows, userId)
      else if kind == "followings" then Followings(rows, userId)
      else [];
    Success(profiles)
  }

  /** A query that names no predicate lists the user's followers, with their
      multiplicities. */
  lemma DefaultQueryListsFollowers(rows: seq<UserFollowing>, u: string)
    ensures Handle(rows, DefaultPredicate, u).Value.value == Followers(rows, u)
    ensures forall v :: multiset(Handle(rows, DefaultPredicate, u).Value.value)[v] ==
                        multiset(rows)[UserFollowing(v, u)]
  {
  }

  /** `v` follows `u` exactly as often as `u` is followed by `v`: the two lists
      are the two readings of the same rows. */
  lemma FollowDuality(rows: seq<UserFollowing>, u: string, v: string)
    ensures multiset(Followers(rows, u))[v] == multiset(Followings(rows, v))[u]
    ensures v in Handle(rows, DefaultPredicate, u).Value.value <==>
            u in Handle(rows, "followings", v).Value.value
  {
  }
}
