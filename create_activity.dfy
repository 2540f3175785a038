/** CreateActivity.Handler (Application/Activities/Commands/CreateActivity.cs):
    map the DTO to a new activity, add it, and return its id. */
module CreateActivity {
  import opened Domain
  import opened CoreResult
  import opened Persistence
  import opened ActivityDtos

  /** `mapper.Map<Activity>(dto)`: the DTO's fields, the fresh id the entity
      draws for itself, and the entity's defaults for everything else. */
  function FromDto(dto: BaseActivityDto, id: string): (a: Activity)
    ensures CarriesFields(a, dto) && a.id == id
    ensures a.attendees == [] && a.comments == [] && !a.isCancelled
    ensures ActivityStored(id, a)
  {
    Activity(id, dto.title, dto.date, dto.description, dto.category, false,
             dto.city, dto.venue, dto.latitude, dto.longitude, [], [])
  }

  /** `Handler.Handle`. `newId` is the `Guid.NewGuid()` the new entity draws,
      so it names no stored activity. */
  method Handle(db: AppDbContext, dto: BaseActivityDto, newId: string, saved: bool) returns (r: Result<string>)
    requires db.Valid()
    requires newId !in db.activities
    modifies db
    ensures db.Valid()
    ensures db.activities == old(db.activities)[newId := FromDto(dto, newId)]
    ensures db.users == old(db.users) && db.userFollowings == old(db.userFollowings)
    ensures r == if saved then Success(newId) else Failure("Failed to create the activity", 400)
    ensures r.Code != 404
  {
    var activity := FromDto(dto, newId);
    db.activities := db.activities[newId := activity];
    if !saved {
      return Failure("Failed to create the activity", 400);
    }
    return Success(activity.id);
  }
}
