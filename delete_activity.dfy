/** DeleteActivity.Handler (Application/Activities/Commands/DeleteActivity.cs):
    find an activity and remove it. */
module DeleteActivity {
  import opened Wrappers
  import opened Domain
  import opened CoreResult
  import opened Persistence

  /** `Handler.Handle`. */
  method Handle(db: AppDbContext, id: string, saved: bool) returns (r: Result<Unit>)
    requires db.Valid()
    modifies db
    ensures db.Valid()
    ensures db.users == old(db.users) && db.userFollowings == old(db.userFollowings)
    ensures id !in old(db.activities) ==>
      r == Failure("Activity not found", 404) && db.activities == old(db.activities)
    ensures id in old(db.activities) ==>
      && db.activities == old(db.activities) - {id}
      && r == if saved then Success(Unit) else Failure("Failed to delete the activity", 400)
    ensures id !in db.activities
    ensures forall k :: k in old(db.activities) && k != id ==>
      k in db.activities && db.activities[k] == old(db.activities)[k]
  {
    if id !in db.activities {
      return Failure("Activity not found", 404);
    }
    db.activities := db.activities - {id};
    if !saved {
      return Failure("Failed to delete the activity", 400);
    }
    return Success(Unit);
  }
}
