/** The shared database state that the handlers load, change and save
    (Persistence/AppDbContext.cs). */
module Persistence {
  import opened Domain

  /** An activity stored under key `k`: its id is the key, the composite key
      (ActivityId, UserId) allows one attendee row per user, and its comments
      point back to it. */
  predicate ActivityStored(k: string, a: Activity) {
    && a.id == k
    && UniqueAttendees(a.attendees)
    && forall i :: 0 <= i < |a.comments| ==> a.comments[i].activityId == k
  }

  /** A user stored under key `k`: its id is the key and its photos are its own. */
  predicate UserStored(k: string, u: User) {
    && u.id == k
    && forall i :: 0 <= i < |u.photos| ==> u.photos[i].userId == k
  }

  predicate ActivitiesStored(activities: map<string, Activity>) {
    forall k :: k in activities ==> ActivityStored(k, activities[k])
  }

  predicate UsersStored(users: map<string, User>) {
    forall k :: k in users ==> UserStored(k, users[k])
  }

  /** The tracked state of the database context. A handler's changes to the
      entities it loaded are changes to these fields; `SaveChangesAsync`
      reporting 0 rows only turns the handler's result into a failure. */
  class AppDbContext {
    var activities: map<string, Activity>
    var users: map<string, User>
    var userFollowings: seq<UserFollowing>

    ghost predicate Valid()
      reads this
    {
      ActivitiesStored(activities) && UsersStored(users)
    }

    constructor (activities: map<string, Activity>, users: map<string, User>, userFollowings: seq<UserFollowing>)
      requires ActivitiesStored(activities) && UsersStored(users)
      ensures Valid()
      ensures this.activities == activities && this.users == users && this.userFollowings == userFollowings
    {
      this.activities := activities;
      this.users := users;
      this.userFollowings := userFollowings;
    }
  }
}
