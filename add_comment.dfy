/** AddComment.Handler (Application/Activities/Commands/AddComment.cs):
    append the current user's comment to an activity. */
module AddComment {
  import opened Domain
  import opened CoreResult
  import opened Persistence
  import opened ActivityDtos

  /** `activity.Comments.Add(comment)`: exactly one comment more, at the end. */
  function WithComment(a: Activity, c: Comment): (r: Activity)
    ensures |r.comments| == |a.comments| + 1
    ensures r.comments[..|a.comments|] == a.comments && r.comments[|a.comments|] == c
    ensures r == a.(comments := r.comments)
  {
    a.(comments := a.comments + [c])
  }

  /** The DTO of a comment written by `author`. */
  function ToDto(c: Comment, author: User): (d: CommentDto)
    ensures d.id == c.id && d.body == c.body && d.createdAt == c.createdAt && d.userId == c.userId
    ensures d.displayName == author.displayName && d.imageUrl == author.imageUrl
  {
    CommentDto(c.id, c.body, c.createdAt, c.userId, author.displayName, author.imageUrl)
  }

  /** `Handler.Handle`. `commentId` and `now` are the new comment's generated id
      and creation time. */
  method Handle(db: AppDbContext, userId: string, activityId: string, body: string,
                commentId: string, now: DateTime, saved: bool) returns (r: Result<CommentDto>)
    requires db.Valid()
    requires userId in db.users
    modifies db
    ensures db.Valid()
    ensures db.users == old(db.users) && db.userFollowings == old(db.userFollowings)
    ensures activityId !in old(db.activities) ==>
      r == Failure("Could not find activity", 404) && db.activities == old(db.activities)
    ensures activityId in old(db.activities) ==>
      var c := Comment(commentId, body, now, userId, activityId);
      && db.activities == old(db.activities)[activityId := WithComment(old(db.activities)[activityId], c)]
      && r == if saved then Success(ToDto(c, db.users[userId])) else Failure("Failed to add comment", 400)
  {
    if activityId !in db.activities {
      return Failure("Could not find activity", 404);
    }
    var activity := db.activities[activityId];
    var user := db.users[userId];
    var comment := Comment(commentId, body, now, user.id, activity.id);
    activity := WithComment(activity, comment);
    db.activities := db.activities[activityId := activity];
    r := if saved then Success(ToDto(comment, user)) else Failure("Failed to add comment", 400);
  }
}
