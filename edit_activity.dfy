/** EditActivity.Handler (Application/Activities/Commands/EditActivity.cs):
    find the activity and overwrite its fields from the DTO. */
module EditActivity {
  import opened Wrappers
  import opened Domain
  import opened CoreResult
  import opened Persistence
  import opened ActivityDtos

  /** `mapper.Map(dto, activity)`: the DTO's id and fields overwrite the entity's;
      its attendees, comments and cancellation flag stay as they were. */
  function Overwrite(a: Activity, dto: EditActivityDto): (r: Activity)
    ensures CarriesFields(r, dto.fields) && r.id == dto.id
    ensures r.attendees == a.attendees && r.comments == a.comments && r.isCancelled == a.isCancelled
  {
    a.(id := dto.id, title := dto.fields.title, date := dto.fields.date,
       description := dto.fields.description, category := dto.fields.category,
       city := dto.fields.city, venue := dto.fields.venue,
       latitude := dto.fields.latitude, longitude := dto.fields.longitude)
  }

  /** The edit form's DTO of an activity: its own id and field values. */
  function DtoOf(a: Activity): (dto: EditActivityDto)
    ensures dto.id == a.id && CarriesFields(a, dto.fields)
  {
    EditActivityDto(a.id, BaseActivityDto(a.title, a.date, a.description, a.category,
                                          a.city, a.venue, a.latitude, a.longitude))
  }

  /** Submitting an activity's own values changes nothing, and the result of
      an edit depends on the DTO and the three untouched parts alone. */
  lemma OverwriteDeterminedByDto(a: Activity, b: Activity, dto: EditActivityDto)
    ensures Overwrite(a, DtoOf(a)) == a
    ensures a.attendees == b.attendees && a.comments == b.comments && a.isCancelled == b.isCancelled
      ==> Overwrite(a, dto) == Overwrite(b, dto)
  {
  }

  /** `Handler.Handle`. */
  method Handle(db: AppDbContext, dto: EditActivityDto, saved: bool) returns (r: Result<Unit>)
    requires db.Valid()
    modifies db
    ensures db.Valid()
    ensures db.users == old(db.users) && db.userFollowings == old(db.userFollowings)
    ensures dto.id !in old(db.activities) ==>
      r == Failure("Activity not found", 404) && db.activities == old(db.activities)
    ensures dto.id in old(db.activities) ==>
      && db.activities == old(db.activities)[dto.id := Overwrite(old(db.activities)[dto.id], dto)]
      && r == if saved then Success(Unit) else Failure("Failed to update the activity", 400)
  {
    if dto.id !in db.activities {
      return Failure("Activity not found", 404);
    }
    var activity := db.activities[dto.id];
    activity := Overwrite(activity, dto);
    db.activities := db.activities[dto.id := activity];
    if !saved {
      return Failure("Failed to update the activity", 400);
    }
    return Success(Unit);
  }
}
