# Reactivities, modelled in Dafny

Reactivities is a social events application. Its ASP.NET Core server keeps
activities, the users who attend them, their comments and their photos,
and it answers through MediatR handlers that return a `Result<T>`. Its React
client caches the server's answers with TanStack Query, updates that cache
optimistically, validates forms with zod and keeps small MobX stores.

This project models the part of that system that decides things:

- the command handlers that change activities and profiles;
- the two profile queries;
- the host-only authorization check;
- the result and error pipeline: `Result<T>`, `HandleResult`, `ValidationBehavior` and `ExceptionMiddleware`;
- the activity validators and the paging parameters;
- the client's cache updaters in `useActivities` and `useProfile`;
- the password and register schemas;
- the counter, activity and UI stores.

Each source file is one module.

The database context is a class, `Persistence.AppDbContext`. It holds the
activities and users by key, and the follow table. A handler's `Handle` is a
method that changes that object. Its contract gives the new state as a pure
function of the old state, for example `UpdateAttendance.Toggle` or
`AddPhoto.WithUploadedPhoto`, and lemmas state what those functions keep.

`SaveChangesAsync` returning more than 0 rows is the parameter `saved`. The
tracked entities are changed before the save, and a save of 0 rows only
turns the result into a failure; the code never rolls anything back.

Values the code draws from outside become parameters:
- the signed-in user's id (`userId`);
- a new comment's id and time. Comment.cs is not part of this model; the
  model assumes its usual defaults, a fresh `Guid` and `DateTime.UtcNow`;
- today's date (`today`, `now`);
- the photo upload's outcome (`upload`);
- the route value and claim (`routeId`, `userId` as options);
- the development flag (`isDevelopment`);
- zod's email pattern (`isEmail`);
- `Date.toISOString` (`toISOString`).

The client's TanStack Query cache holds each query key's data or nothing:
`None` is `undefined`. Its entries are the classes `UseActivities.ActivityCache`
and `UseProfile.ProfileCache`; the updaters they apply are functions about
which the lemmas speak. The MobX stores are the classes `Counter.CounterStore`,
`ActivityFilters.ActivityStore` and `Ui.UiStore`.

Where the comments and the code differ, the model follows the code:

- the "future" filter is any filter other than "past" and "hosting" (as the switch's default arm), and
  an activity dated exactly today is in both "past" and "future";
- `GetFollowings` returns an empty success for an unknown predicate;
- the title rule's message keeps the source's spelling "excees";
- the page-size setter has no lower bound (0 and negative sizes are kept).

## Model

| member | source | states |
|---|---|---|
| `Wrappers.OrSome` | Reactivities/Application/Profiles/Command/AddPhoto.cs:51 | `??=`: a present value is kept, an absent one becomes the given value, and the result is always present |
| `CoreResult.Success` | Reactivities/Application/Core/Result.cs:34 | a success carries its value, no error and code 0 |
| `CoreResult.Failure` | Reactivities/Application/Core/Result.cs:42-47 | a failure carries its error and code and no value |
| `CoreResult.FactoriesAreDistinctAndInjective` | Reactivities/Application/Core/Result.cs:34-47 | no success equals a failure, and each factory's result determines its arguments |
| `Domain.IndexOfUser` | Reactivities/Application/Activities/Commands/UpdateAttendance.cs:46 | `FirstOrDefault` by user: none exactly when the user has no row, otherwise the first row of that user |
| `Domain.IndexOfPhoto` | Reactivities/Application/Profiles/Command/DeletePhoto.cs:38 | `FirstOrDefault` by photo id: none exactly when no photo has the id, otherwise the first such photo |
| `Domain.RemoveAt` | Reactivities/Application/Activities/Commands/UpdateAttendance.cs:52 | `Remove` of one element: one fewer, the others in their order |
| `Domain.UniqueCountsAtMostOnce` | Reactivities/Persistence/AppDbContext.cs:36 | under the (ActivityId, UserId) key every user has at most one row |
| `Persistence.AppDbContext.constructor` | Reactivities/Persistence/AppDbContext.cs:15-36 | a context holds the given tables and keeps the keys and the composite key |
| `UpdateAttendance.Toggle` | Reactivities/Application/Activities/Commands/UpdateAttendance.cs:46-62 | a newcomer is appended as a guest; the first row of an attending guest is removed; a host flips `IsCancelled`; host rows and other users' rows never change |
| `UpdateAttendance.ToggleKeepsCompositeKey` | Reactivities/Application/Activities/Commands/UpdateAttendance.cs:49-62 | one row per user before the toggle gives one row per user after it |
| `UpdateAttendance.GuestLeaves` | Reactivities/Application/Activities/Commands/UpdateAttendance.cs:52 | with one row per user, an attending guest no longer attends afterwards and the flag is unchanged |
| `UpdateAttendance.ToggleTwiceRestores` | Reactivities/Application/Activities/Commands/UpdateAttendance.cs:49-62 | for the host or a newcomer, toggling twice gives back the activity |
| `UpdateAttendance.Handle` | Reactivities/Application/Activities/Commands/UpdateAttendance.cs:37-68 | an unknown id gives "Activity not found" 404 and changes nothing; otherwise the activity becomes its toggle, the result is success or "Problem updating the DB" 400, and the context stays well keyed |
| `AddComment.WithComment` | Reactivities/Application/Activities/Commands/AddComment.cs:62 | exactly one comment more, at the end, and nothing else changes |
| `AddComment.ToDto` | Reactivities/Application/Activities/Commands/AddComment.cs:67 | the returned DTO carries the comment's fields and its author's name and image |
| `AddComment.Handle` | Reactivities/Application/Activities/Commands/AddComment.cs:46-68 | an unknown activity gives "Could not find activity" 404 and changes nothing; otherwise the user's comment is appended and the result is its DTO or "Failed to add comment" 400 |
| `CreateActivity.FromDto` | Reactivities/Application/Activities/Commands/CreateActivity.cs:45 | the new activity holds the DTO's fields and the fresh id, not cancelled, with no attendees and no comments |
| `CreateActivity.Handle` | Reactivities/Application/Activities/Commands/CreateActivity.cs:45-53 | the new activity is stored under its fresh id, and the result is that id or "Failed to create the activity" 400, never 404 |
| `EditActivity.Overwrite` | Reactivities/Application/Activities/Commands/EditActivity.cs:46 | the DTO's id and fields replace the entity's; attendees, comments and the cancellation flag stay |
| `EditActivity.DtoOf` | Reactivities/Application/Activities/Commands/EditActivity.cs:46 | an activity's own edit DTO carries its id and field values |
| `EditActivity.OverwriteDeterminedByDto` | Reactivities/Application/Activities/Commands/EditActivity.cs:46 | submitting an activity's own values changes nothing, and an edit depends only on the DTO and the untouched parts |
| `EditActivity.Handle` | Reactivities/Application/Activities/Commands/EditActivity.cs:42-52 | an unknown id gives "Activity not found" 404 and changes nothing; otherwise the activity is overwritten and the result is success or "Failed to update the activity" 400 |
| `DeleteActivity.Handle` | Reactivities/Application/Activities/Commands/DeleteActivity.cs:40-50 | an unknown id gives "Activity not found" 404 and changes nothing; otherwise that activity is gone, every other one is kept, and the result is success or "Failed to delete the activity" 400 |
| `PhotoStorage.PhotoService.constructor` | Reactivities/Application/Interfaces/IPhotoService.cs:10-25 | a fresh photo service has deleted nothing |
| `PhotoStorage.PhotoService.DeletePhoto` | Reactivities/Application/Interfaces/IPhotoService.cs:24 | a remote deletion is recorded, in order, by public id |
| `AddPhoto.WithUploadedPhoto` | Reactivities/Application/Profiles/Command/AddPhoto.cs:51-53 | the photo is appended and the rest kept; `ImageUrl` becomes its url only when it was null |
| `AddPhoto.FirstUploadStaysMain` | Reactivities/Application/Profiles/Command/AddPhoto.cs:51 | for a user without an image, the first of two uploads is the image and both photos are kept in order |
| `AddPhoto.Handle` | Reactivities/Application/Profiles/Command/AddPhoto.cs:38-59 | no upload result gives "Failed to upload photo" 400 and changes nothing; otherwise the photo carries the upload's url and public id and the user's id, is added, and the result is that photo or "Problem saving photo to DB" 400 |
| `DeletePhoto.CheckPhoto` | Reactivities/Application/Profiles/Command/DeletePhoto.cs:38-42 | the missing check comes first; otherwise the first photo with the id (`FirstOrDefault`) decides: it is the main one when its url is the image, and removable, at its index, when not |
| `DeletePhoto.WithoutPhoto` | Reactivities/Application/Profiles/Command/DeletePhoto.cs:46 | only that photo is removed, and the image url and other fields are kept |
| `DeletePhoto.MainPhotoSurvives` | Reactivities/Application/Profiles/Command/DeletePhoto.cs:42-46 | a removal never takes the photo the image url points at |
| `DeletePhoto.Handle` | Reactivities/Application/Profiles/Command/DeletePhoto.cs:36-52 | "Cannot find photo" 400 or "Cannot delete main photo" 400 change nothing and delete nothing remotely; otherwise the remote copy is deleted, the photo removed, and the result is success or "Problem deleting photo" 400 |
| `SetMainPhoto.SetMain` | Reactivities/Application/Profiles/Command/SetMainPhoto.cs:37-41 | no photo with the id gives nothing; otherwise only `ImageUrl` changes, to the url of the first photo with the id (`FirstOrDefault`), and the photos are kept |
| `SetMainPhoto.SetMainIdempotent` | Reactivities/Application/Profiles/Command/SetMainPhoto.cs:41 | setting the same photo twice is setting it once |
| `SetMainPhoto.Handle` | Reactivities/Application/Profiles/Command/SetMainPhoto.cs:35-47 | a missing photo gives "Cannot find photo" 400 and changes nothing; otherwise the image is the photo's url and the result is success or "Problem updating the main photo" 400 |
| `EditProfile.Apply` | Reactivities/Application/Profiles/Command/EditProfile.cs:52-53 | display name and bio become the command's; id, image and photos are kept |
| `EditProfile.DefaultCommandStoresEmptyText` | Reactivities/Application/Profiles/Command/EditProfile.cs:24-29 | a command whose fields were not given (`DefaultCommand`) stores an empty display name and an empty bio, not nulls |
| `EditProfile.LastEditWins` | Reactivities/Application/Profiles/Command/EditProfile.cs:24-53 | two edits leave what the second one says, and the default command stores an empty bio |
| `EditProfile.Handle` | Reactivities/Application/Profiles/Command/EditProfile.cs:50-59 | only the current user changes, as `Apply` says, and the result is success or "Failed to update profile" 400 |
| `GetUserActivities.OfUser` | Reactivities/Application/Profiles/Queries/GetUserActivities.cs:42-45 | the activities of exactly the user's attendee rows |
| `GetUserActivities.InsertByDate` | Reactivities/Application/Profiles/Queries/GetUserActivities.cs:44 | inserting into a date-sorted list keeps it sorted and adds exactly that activity |
| `GetUserActivities.SortByDate` | Reactivities/Application/Profiles/Queries/GetUserActivities.cs:44 | `OrderBy(Date)`: ascending by date and a permutation of its input; the order of equal dates is not fixed |
| `GetUserActivities.Narrow` | Reactivities/Application/Profiles/Queries/GetUserActivities.cs:50-58 | keeps exactly the activities the filter arm accepts, and a sorted list stays sorted |
| `GetUserActivities.NarrowCount` | Reactivities/Application/Profiles/Queries/GetUserActivities.cs:50-58 | an accepted activity keeps its number of copies, a rejected one has none |
| `GetUserActivities.Handle` | Reactivities/Application/Profiles/Queries/GetUserActivities.cs:42-65 | always success; ascending by date; exactly the user's activities the filter keeps; "past" only up to today, "hosting" only where the user's row is the host, any other filter only from today on |
| `GetUserActivities.HandleKeepsMultiplicity` | Reactivities/Application/Profiles/Queries/GetUserActivities.cs:42-63 | an activity appears as often as the user's rows for it when the filter keeps it, and not at all otherwise |
| `GetUserActivities.TodayIsPastAndFuture` | Reactivities/Application/Profiles/Queries/GetUserActivities.cs:52-57 | an attended activity dated exactly today is listed under "past" and under the default arm |
| `GetFollowings.Followers` | Reactivities/Application/Profiles/Queries/GetFollowings.cs:49-51 | one observer per row that targets the user, with multiplicity |
| `GetFollowings.Followings` | Reactivities/Application/Profiles/Queries/GetFollowings.cs:57-59 | one target per row the user observes, with multiplicity |
| `GetFollowings.Handle` | Reactivities/Application/Profiles/Queries/GetFollowings.cs:44-66 | always success; "followers" and "followings" pick their query; any other predicate gives an empty list |
| `GetFollowings.DefaultQueryListsFollowers` | Reactivities/Application/Profiles/Queries/GetFollowings.cs:28 | a query that names no predicate (`DefaultPredicate`) gets the followers list, each observer as often as it has a row |
| `GetFollowings.FollowDuality` | Reactivities/Application/Profiles/Queries/GetFollowings.cs:28-62 | v is among u's followers (the default predicate) exactly as often as u is among v's followings |
| `IsHostRequirement.Matching` | Reactivities/Infrastructure/Security/IsHostRequirement.cs:41-43 | the rows of that user for that activity, and none when there are none |
| `IsHostRequirement.HandleRequirement` | Reactivities/Infrastructure/Security/IsHostRequirement.cs:34-47 | no claim or no string route id: not succeeded; no row: not succeeded; one row: succeeded exactly for a host row; several rows: `SingleOrDefault` throws |
| `IsHostRequirement.KeyedRowsMatchAtMostOnce` | Reactivities/Infrastructure/Security/IsHostRequirement.cs:41-43 | under the composite key the query finds at most one row |
| `IsHostRequirement.HostOnly` | Reactivities/Infrastructure/Security/IsHostRequirement.cs:34-47 | with the composite key the check never throws, and it succeeds exactly for the host row of the route's activity |
| `BaseApiController.HandleResult` | Reactivities/API/Controllers/BaseApiController.cs:32-39 | NotFound exactly for a 404 failure, Ok exactly for a success with a value, otherwise BadRequest with the error |
| `BaseApiController.HandleFactories` | Reactivities/API/Controllers/BaseApiController.cs:32-39 | success maps to Ok, a 404 failure to NotFound, any other failure to BadRequest with its message, a success without value to BadRequest with no message |
| `ActivityValidators.FailureOf` | Reactivities/Application/Activities/Validators/BaseActivityValidator.cs:20-45 | each base rule's property and message; none names the edit rule's property |
| `ActivityValidators.FailureOfInjective` | Reactivities/Application/Activities/Validators/BaseActivityValidator.cs:20-45 | different rules report different failures |
| `ActivityValidators.Check` | Reactivities/Application/Activities/Validators/BaseActivityValidator.cs:20-45 | a listed rule's failure is reported exactly when the rule is broken, and nothing else is |
| `ActivityValidators.AllRulesListed` | Reactivities/Application/Activities/Validators/BaseActivityValidator.cs:20-45 | the rule list holds every rule |
| `ActivityValidators.ValidateBase` | Reactivities/Application/Activities/Validators/BaseActivityValidator.cs:18-46 | every broken rule is reported, and only broken rules |
| `ActivityValidators.BaseValidIff` | Reactivities/Application/Activities/Validators/BaseActivityValidator.cs:20-45 | no failures exactly when every field rule holds |
| `ActivityValidators.ValidateEdit` | Reactivities/Application/Activities/Validators/EditActivityValidator.cs:16-19 | the base failures first, then "Id is required" at ActivityDto.Id exactly when the id is blank |
| `ActivityValidators.EditValidIff` | Reactivities/Application/Activities/Validators/EditActivityValidator.cs:16-19 | an edit is valid exactly when the base rules hold and the id is not blank |
| `ValidationBehavior.Handle` | Reactivities/Application/Core/ValidationBehavior.cs:25-37 | without a validator, or with no failures, the next handler runs once; with failures it never runs and a validation exception carries them |
| `ValidationBehavior.EditReachesHandlerOnlyWhenValid` | Reactivities/Application/Core/ValidationBehavior.cs:27-36 | the edit handler runs exactly when the edit is valid |
| `ExceptionMiddleware.HttpResponse.constructor` | Reactivities/API/Middleware/ExceptionMiddleware.cs:25-29 | a response before the pipeline writes to it: 200, no content type, no body |
| `ExceptionMiddleware.MessagesForSnoc` | Reactivities/API/Middleware/ExceptionMiddleware.cs:76-83 | one more error adds its message to its own property's list only |
| `ExceptionMiddleware.PropertyNamesSnoc` | Reactivities/API/Middleware/ExceptionMiddleware.cs:76-83 | one more error adds its property name to the keys |
| `ExceptionMiddleware.NoMessagesForAbsentName` | Reactivities/API/Middleware/ExceptionMiddleware.cs:76-83 | a name no error carries has no messages |
| `ExceptionMiddleware.GroupErrors` | Reactivities/API/Middleware/ExceptionMiddleware.cs:70-85 | null errors give an empty dictionary; the keys are the errors' property names, and each key's list is its messages in order |
| `ExceptionMiddleware.DistinctNames` | Reactivities/API/Middleware/ExceptionMiddleware.cs:70-85 | each property name once, and exactly the names that occur |
| `ExceptionMiddleware.TotalSnoc` | Reactivities/API/Middleware/ExceptionMiddleware.cs:76-83 | one more error adds one to the count of a listed name |
| `ExceptionMiddleware.TotalAppend` | Reactivities/API/Middleware/ExceptionMiddleware.cs:76-83 | one more key adds the length of its list |
| `ExceptionMiddleware.GroupingKeepsEveryMessage` | Reactivities/API/Middleware/ExceptionMiddleware.cs:70-85 | the grouped lists hold exactly as many messages as there were errors |
| `ExceptionMiddleware.Middleware.constructor` | Reactivities/API/Middleware/ExceptionMiddleware.cs:16-17 | the middleware keeps the environment's development flag |
| `ExceptionMiddleware.Middleware.HandleException` | Reactivities/API/Middleware/ExceptionMiddleware.cs:46-60 | 500, JSON content, and the message with the stack trace only in development |
| `ExceptionMiddleware.Middleware.HandleValidationException` | Reactivities/API/Middleware/ExceptionMiddleware.cs:68-97 | status 400, the content type not modelled (`WriteAsJsonAsync` sets it), and a problem body with status 400, type "ValidationFailure", title "Validation error", the fixed detail, one key per property name and under it that property's messages in failure order (null errors give an empty dictionary) |
| `ExceptionMiddleware.Middleware.InvokeAsync` | Reactivities/API/Middleware/ExceptionMiddleware.cs:25-38 | a completed request leaves the response alone; a validation exception gets exactly the validation handler's response (400, content type not modelled (`WriteAsJsonAsync` sets it), and the same body, built from its errors); any other exception gets the 500 JSON response |
| `Pagination.ClampPageSize` | Reactivities/Application/Core/PaginationParams.cs:13-19 | a value above 50 becomes 50; any other value, 0 and negatives included, is kept |
| `Pagination.PaginationParams.constructor` | Reactivities/Application/Core/PaginationParams.cs:14-15 | no cursor and page size 3 |
| `Pagination.PaginationParams.PageSize` | Reactivities/Application/Core/PaginationParams.cs:18 | the page size read back is never above 50 |
| `Pagination.PaginationParams.SetPageSize` | Reactivities/Application/Core/PaginationParams.cs:19 | stores the clamped value and keeps the cursor |
| `Pagination.PaginationParams.SetCursor` | Reactivities/Application/Core/PaginationParams.cs:14 | stores the cursor and keeps the page size |
| `UseActivities.FindAttendee` | Reactivities/client/src/lib/hooks/useActivities.ts:96 | `find` by id: none exactly when no attendee has it, otherwise the first one |
| `UseActivities.WithoutAttendee` | Reactivities/client/src/lib/hooks/useActivities.ts:163 | `filter`: exactly the attendees with another id |
| `UseActivities.WithoutAttendeeConcat` | Reactivities/client/src/lib/hooks/useActivities.ts:163 | the filter keeps the order: it commutes with concatenation |
| `UseActivities.Enrich` | Reactivities/client/src/lib/hooks/useActivities.ts:95-102 | `isHost` exactly for the host, `isGoing` exactly for a user among the attendees, the host image from the first attendee with the host's id or none |
| `UseActivities.SelectPages` | Reactivities/client/src/lib/hooks/useActivities.ts:71-85 | every page keeps its cursor and every item is enriched in place |
| `UseActivities.UpdatedAttendance` | Reactivities/client/src/lib/hooks/useActivities.ts:149-171 | no cached activity or no user leaves it as is; the host flips the flag; an attending guest is filtered out; a newcomer is appended |
| `UseActivities.AfterMutate` | Reactivities/client/src/lib/hooks/useActivities.ts:147-171 | only the mutated key changes, to its updated attendance |
| `UseActivities.Lookup` | Reactivities/client/src/lib/hooks/useActivities.ts:147 | `getQueryData` of `['activities', id]`: the stored entry when the key is present, `undefined` exactly when it is absent |
| `UseActivities.Restore` | Reactivities/client/src/lib/hooks/useActivities.ts:175-179 | a snapshot that exists is written back, otherwise nothing changes |
| `UseActivities.RollbackRestores` | Reactivities/client/src/lib/hooks/useActivities.ts:144-179 | an error right after the optimistic update gives back the cache as it was |
| `UseActivities.ActivityCache.constructor` | Reactivities/client/src/lib/hooks/useActivities.ts:48 | a cache over the given entries |
| `UseActivities.ActivityCache.OnMutate` | Reactivities/client/src/lib/hooks/useActivities.ts:144-173 | returns the previous entry and applies the optimistic update |
| `UseActivities.ActivityCache.OnError` | Reactivities/client/src/lib/hooks/useActivities.ts:175-179 | restores the snapshot when there is one |
| `UseActivities.DropIdConcat` | Reactivities/client/src/lib/hooks/useActivities.ts:163 | dropping an id commutes with concatenation |
| `UseActivities.DropAbsentId` | Reactivities/client/src/lib/hooks/useActivities.ts:163 | dropping an id nobody has changes nothing |
| `UseActivities.ClientIdsWithout` | Reactivities/client/src/lib/hooks/useActivities.ts:163 | the ids after the filter are the ids with that one dropped |
| `UseActivities.ServerIdsRemoveAt` | Reactivities/Application/Activities/Commands/UpdateAttendance.cs:52 | the ids after removing a row are the ids with that position removed |
| `UseActivities.DropOnlyOccurrence` | Reactivities/client/src/lib/hooks/useActivities.ts:163 | dropping an id that occurs once removes exactly that position |
| `UseActivities.ServerIdsRemoveUnique` | Reactivities/Application/Activities/Commands/UpdateAttendance.cs:52 | with one row per user, removing a row drops its user's id |
| `UseActivities.MirrorAgrees` | Reactivities/client/src/lib/hooks/useActivities.ts:154-155 | on a mirrored activity client and server agree on who attends and who hosts |
| `UseActivities.MirrorJoin` | Reactivities/client/src/lib/hooks/useActivities.ts:164-168 | a newcomer appended on both sides keeps them mirrored |
| `UseActivities.MirrorLeave` | Reactivities/client/src/lib/hooks/useActivities.ts:163 | a guest removed on both sides keeps them mirrored |
| `UseActivities.OptimisticUpdateMirrorsToggle` | Reactivities/client/src/lib/hooks/useActivities.ts:149-171 | the optimistic update of a mirrored activity mirrors the server's toggle |
| `UseProfile.UserWithUpload` | Reactivities/client/src/lib/hooks/useProfile.ts:65-71 | an absent user stays absent; the url becomes the image only when there was none; nothing else changes |
| `UseProfile.ProfileWithUpload` | Reactivities/client/src/lib/hooks/useProfile.ts:72-78 | the same for the profile |
| `UseProfile.UserWithMain` | Reactivities/client/src/lib/hooks/useProfile.ts:95-101 | an absent user stays absent; otherwise the image becomes the chosen url, nothing else changes |
| `UseProfile.ProfileWithMain` | Reactivities/client/src/lib/hooks/useProfile.ts:103-109 | the same for the profile |
| `UseProfile.MarkMain` | Reactivities/client/src/lib/hooks/useProfile.ts:111-117 | same length, order, ids and urls; `isMain` exactly for the chosen id |
| `UseProfile.PhotosWithMain` | Reactivities/client/src/lib/hooks/useProfile.ts:111-117 | an absent photo list stays absent |
| `UseProfile.ExactlyOneMain` | Reactivities/client/src/lib/hooks/useProfile.ts:111-117 | with unique ids and the chosen photo listed, exactly one photo is main |
| `UseProfile.MarkMainIdempotent` | Reactivities/client/src/lib/hooks/useProfile.ts:111-117 | marking twice is marking once, and ids stay unique |
| `UseProfile.WithoutPhotoId` | Reactivities/client/src/lib/hooks/useProfile.ts:140 | exactly the photos with another id |
| `UseProfile.WithoutPhotoIdConcat` | Reactivities/client/src/lib/hooks/useProfile.ts:140 | the filter keeps the order: it commutes with concatenation |
| `UseProfile.WithoutAbsentPhotoId` | Reactivities/client/src/lib/hooks/useProfile.ts:140 | filtering an id no photo has changes nothing |
| `UseProfile.WithoutOnlyCarrier` | Reactivities/client/src/lib/hooks/useProfile.ts:140 | filtering the id only one photo carries removes just that photo |
| `UseProfile.DeleteRemovesOnlyThatPhoto` | Reactivities/client/src/lib/hooks/useProfile.ts:138-141 | with unique ids exactly the deleted photo is removed and the others keep their order |
| `UseProfile.PhotosWithout` | Reactivities/client/src/lib/hooks/useProfile.ts:139-141 | an absent photo list stays absent |
| `UseProfile.RestoreEntry` | Reactivities/client/src/lib/hooks/useProfile.ts:122-130 | a snapshot that exists, even an empty list, is written back; otherwise the entry is kept |
| `UseProfile.IsCurrentUser` | Reactivities/client/src/lib/hooks/useProfile.ts:145-147 | true exactly when the id equals the cached user's id, and also when both are undefined |
| `UseProfile.ProfileCache.constructor` | Reactivities/client/src/lib/hooks/useProfile.ts:32-50 | a cache over the three given entries |
| `UseProfile.ProfileCache.UploadPhotoSuccess` | Reactivities/client/src/lib/hooks/useProfile.ts:61-79 | user and profile take the upload fallback; photos stay |
| `UseProfile.ProfileCache.SetMainOnMutate` | Reactivities/client/src/lib/hooks/useProfile.ts:86-120 | returns the three snapshots and applies the three optimistic updates |
| `UseProfile.ProfileCache.SetMainOnError` | Reactivities/client/src/lib/hooks/useProfile.ts:121-131 | restores each snapshot that exists, and nothing without a context |
| `UseProfile.ProfileCache.DeletePhotoSuccess` | Reactivities/client/src/lib/hooks/useProfile.ts:138-142 | filters the photo list and keeps user and profile |
| `UseProfile.RollbackRestores` | Reactivities/client/src/lib/hooks/useProfile.ts:91-131 | an error right after the optimistic update gives back all three entries as they were |
| `UseProfile.UploadAfterMainKeepsMain` | Reactivities/client/src/lib/hooks/useProfile.ts:69-99 | after a set-main the upload fallback no longer changes the image |
| `SchemaUtil.RequiredString` | Reactivities/client/src/lib/util/util.ts:41-43 | a string shorter than one character gives the single issue "<field> is required", any other none |
| `SchemaUtil.RequiredMessage` | Reactivities/client/src/lib/util/util.ts:43 | the message starts with the field name and adds " is required" |
| `ChangePasswordSchema.Issues` | Reactivities/client/src/lib/schemas/changePasswordSchema.ts:25-33 | each field's "is required" exactly when it is empty, and "Passwords must match" at confirmPassword exactly when they differ |
| `ChangePasswordSchema.ValidIff` | Reactivities/client/src/lib/schemas/changePasswordSchema.ts:25-33 | accepted exactly when all three are filled in and the confirmation matches |
| `ChangePasswordSchema.ReusingThePasswordIsAccepted` | Reactivities/client/src/lib/schemas/changePasswordSchema.ts:25-33 | a new password equal to the current one is accepted |
| `ResetPasswordSchema.Issues` | Reactivities/client/src/lib/schemas/resetPasswordSchema.ts:23-30 | each field's "is required" exactly when it is empty, and "Passwords must match" at confirmPassword exactly when they differ |
| `ResetPasswordSchema.ValidIff` | Reactivities/client/src/lib/schemas/resetPasswordSchema.ts:23-30 | accepted exactly when both are filled in and equal |
| `ResetPasswordSchema.EmptyPairIsNotAMismatch` | Reactivities/client/src/lib/schemas/resetPasswordSchema.ts:23-30 | two empty fields give the two "is required" issues in order and no mismatch |
| `RegisterSchema.Issues` | Reactivities/client/src/lib/schemas/registerSchema.ts:17-21 | the email issue exactly for a non-email, "displayName is required" when empty, the too-big issue above 15 characters, "password is required" when empty |
| `RegisterSchema.ValidIff` | Reactivities/client/src/lib/schemas/registerSchema.ts:17-21 | accepted exactly for an email, a display name of 1 to 15 characters and a non-empty password |
| `Counter.Digits` | Reactivities/client/src/lib/stores/counterStore.ts:24 | decimal digits without leading zeros |
| `Counter.IntToString` | Reactivities/client/src/lib/stores/counterStore.ts:24 | the text of an integer starts with "-" exactly for negatives |
| `Counter.DigitsRoundTrip` | Reactivities/client/src/lib/stores/counterStore.ts:24 | the digits read back give the number |
| `Counter.IntToStringRoundTrip` | Reactivities/client/src/lib/stores/counterStore.ts:24 | the text of an integer read back gives the integer, so a log line names its count unambiguously |
| `Counter.ChangeAndUndo` | Reactivities/client/src/lib/stores/counterStore.ts:22-31 | an increment by a followed by a decrement by a, or the reverse, restores the count |
| `Counter.LogShape` | Reactivities/client/src/lib/stores/counterStore.ts:7-36 | the log has one line more than changes, starts with the initial line, and later changes never alter earlier lines |
| `Counter.InitialEventText` | Reactivities/client/src/lib/stores/counterStore.ts:7-9 | the initial line reads "Initial count is 42" |
| `Counter.CounterStore.constructor` | Reactivities/client/src/lib/stores/counterStore.ts:5-9 | count 42 and the single initial line |
| `Counter.CounterStore.Increment` | Reactivities/client/src/lib/stores/counterStore.ts:22-25 | adds the amount (1 when none is given) and appends "Incremented by a - count is now n" with the new count |
| `Counter.CounterStore.Decrement` | Reactivities/client/src/lib/stores/counterStore.ts:28-31 | subtracts the amount (1 when none is given) and appends "Decremented by a - count is now n" with the new count |
| `Counter.CounterStore.EventCount` | Reactivities/client/src/lib/stores/counterStore.ts:34-36 | the number of events, which is the number of changes plus one |
| `ActivityFilters.ActivityStore.constructor` | Reactivities/client/src/lib/stores/activityStore.ts:23-24 | filter 'all' and the ISO text of now |
| `ActivityFilters.ActivityStore.SetFilter` | Reactivities/client/src/lib/stores/activityStore.ts:35-37 | sets the filter and keeps the start date |
| `ActivityFilters.ActivityStore.SetStartDate` | Reactivities/client/src/lib/stores/activityStore.ts:39-41 | sets the start date to the date's ISO text and keeps the filter |
| `Ui.Step` | Reactivities/client/src/lib/stores/uiStore.ts:11-18 | after a call the flag is set exactly for `isBusy`, whatever it was |
| `Ui.LastCallDecides` | Reactivities/client/src/lib/stores/uiStore.ts:11-18 | after any sequence of calls the flag depends only on the last one |
| `Ui.Idempotent` | Reactivities/client/src/lib/stores/uiStore.ts:11-18 | repeating a call changes nothing |
| `Ui.UiStore.constructor` | Reactivities/client/src/lib/stores/uiStore.ts:4 | not loading at first |
| `Ui.UiStore.IsBusy` | Reactivities/client/src/lib/stores/uiStore.ts:11-13 | sets loading |
| `Ui.UiStore.IsIdle` | Reactivities/client/src/lib/stores/uiStore.ts:16-18 | clears loading |

## Left out

- `IUserAccessor` is a parameter: the current user is a `userId` known to the context. `GetUserAsync` throwing for a missing user is not modelled.
- Photos, comments and the follow table are fields of the users, activities and context. The `AppDbContext.cs` shown declares only its activity and attendee sets.
- Entity aliasing is not modelled: an attendee row and its Activity are values, not shared references.
- AutoMapper projections are not modelled: `UserActivityDto`, `UserProfile` and the profile's `IsMain` field. Queries return the activities and user ids they select. MappingProfiles.cs declares no `Activity` to `UserActivityDto` map, so `ProjectTo<UserActivityDto>` (GetUserActivities.cs:60-61) has no map to use; the model returns the selected activities instead.
- `AddComment.ToDto`: MappingProfiles.cs declares no `Comment` to `CommentDto` map, so `mapper.Map<CommentDto>` at AddComment.cs:67 would throw AutoMapper's missing-map exception as the source stands. The model assumes the conventional map instead: the comment's own fields, plus the author's DisplayName and ImageUrl through `comment.User`.
- The host id comes from the profile mapping, the first attendee with the host flag. The client's `hostId` is taken as that value, and `Mirrors` requires it.
- `UseActivities.UpdatedAttendance`: it follows the client's code. A user who is the activity's host but has no attendee row gets the flag flipped and is also appended. The server would only append them. Under `Mirrors` the host always has a row, so the two cannot diverge.
- `GetUserActivities.Handle`: `DateTime.UtcNow` is the parameter `today`, and dates are integer ticks. The same holds for the validator's `now`, which the source reads when the validator is built.
- `ActivityValidators.ValidateBase`: `NotEmpty` on a double is modelled as "not 0". NaN and floating-point rounding are not modelled. Whitespace is the Latin-1 set that .NET treats as white space; the other Unicode space separators are not modelled.
- String lengths count Unicode scalar values. JavaScript counts UTF-16 code units, and .NET counts chars. They differ only outside the Basic Multilingual Plane.
- zod's behaviour is modelled for string fields. A missing field or a non-string aborts the parse before the refinement; that is not modelled. The email pattern is a parameter. The default messages for the email and `max` checks are written out as constants.
- `RegisterSchema.Issues`: zod reports issues with a path array and a code; the model keeps the first path element and the message.
- Counter amounts are integers. JavaScript numbers are doubles, so fractional amounts and their printing are not modelled.
- `Date.toISOString` and the clock are parameters of the activity store.
- Asynchrony is not modelled: `await`, `cancelQueries`, and the refetch that `invalidateQueries` starts. The photo list after an upload is left as it was until that refetch.
- The JSON serialisation of the middleware's body is not modelled, and neither is `WriteAsJsonAsync` setting its own content type or the logging. The body is kept as a value.
- `ValidationBehavior.Handle` takes the validator as a pure function. `ValidateAsync` cancellation is not modelled.
- `IsHostRequirement.HandleRequirement` records `SingleOrDefault` raising on two matching rows as the `Throws` decision; `HostOnly` shows that the composite key rules it out.
- The remaining files are wiring, single projection queries or one-rule validators, and are not modelled: Program.cs, the other controllers, the e-mail sender, SignalR, the login, edit-profile and activity schemas, and the remaining hooks and queries.
