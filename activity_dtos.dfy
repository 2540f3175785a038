/** The activity DTOs of Application/Activities/DTO: the fields a client sends
    to create or edit an activity, and the comment a client gets back. */
module ActivityDtos {
  import opened Wrappers
  import opened Domain

  /** BaseActivityDto; CreateActivityDto adds nothing to it. */
  datatype BaseActivityDto = BaseActivityDto(
    title: string,
    date: DateTime,
    description: string,
    category: string,
    city: string,
    venue: string,
    latitude: real,
    longitude: real)

  /** EditActivityDto: the base fields plus the id of the activity to edit. */
  datatype EditActivityDto = EditActivityDto(id: string, fields: BaseActivityDto)

  datatype CommentDto = CommentDto(
    id: string,
    body: string,
    createdAt: DateTime,
    userId: string,
    displayName: Option<string>,
    imageUrl: Option<string>)

  /** The activity holds exactly the field values of the DTO. */
  predicate CarriesFields(a: Activity, dto: BaseActivityDto) {
    && a.title == dto.title
    && a.date == dto.date
    && a.description == dto.description
    && a.category == dto.category
    && a.city == dto.city
    && a.venue == dto.venue
    && a.latitude == dto.latitude
    && a.longitude == dto.longitude
  }
}
