/** EditProfile.Handler (Application/Profiles/Command/EditProfile.cs):
    overwrite the current user's display name and bio. */
module EditProfile {
  import opened Wrappers
  import opened Domain
  import opened CoreResult
  import opened Persistence

  /** The command; a field the client leaves out binds to the empty string. */
  datatype Command = Command(displayName: string, bio: string)

  const DefaultCommand := Command("", "")

  /** The two assignments of the handler. */
  function Apply(u: User, cmd: Command): (r: User)
    ensures r.displayName == Some(cmd.displayName) && r.bio == Some(cmd.bio)
    ensures r.id == u.id && r.imageUrl == u.imageUrl && r.photos == u.photos
  {
    u.(displayName := Some(cmd.displayName), bio := Some(cmd.bio))
  }

  /** Editing is idempotent and the last edit wins, and the default command
      clears the bio to the empty string rather than to null. */
  lemma LastEditWins(u: User, first: Command, second: Command)
    ensures Apply(Apply(u, first), second) == Apply(u, second)
    ensures Apply(u, DefaultCommand).bio == Some("")
  {
  }

  /** A command whose fields the client leaves out stores empty strings, not
      nulls, as the display name and the bio. */
  lemma DefaultCommandStoresEmptyText(u: User)
    ensures Apply(u, DefaultCommand).displayName == Some("")
    ensures Apply(u, DefaultCommand).bio == Some("")
  {
  }

  /** `Handler.Handle`. */
  method Handle(db: AppDbContext, userId: string, cmd: Command, saved: bool) returns (r: Result<Unit>)
    requires db.Valid()
    requires userId in db.users
    modifies db
    ensures db.Valid()
    ensures db.activities == old(db.activities) && db.userFollowings == old(db.userFollowings)
    ensures db.users == old(db.users)[userId := Apply(old(db.users)[userId], cmd)]
    ensures r == if saved then Success(Unit) else Failure("Failed to update profile", 400)
  {
    var user := db.users[userId];
    user := user.(displayName := Some(cmd.displayName));
    user := user.(bio := Some(cmd.bio));
    db.users := db.users[userId := user];
    r := if saved then Success(Unit) else Failure("Failed to update profile", 400);
  }
}
