# Digital-Stories story and user controllers, modelled in Dafny

This project models the core of a social-feed backend. Users post stories, comment on them and
vote them up or down. Users can be created, updated, queried and deleted. The two Express
controllers are modelled without HTTP and MongoDB. Each handler becomes a method on one `Store`
class holding the two collections as `map<Id, Story>` and `map<Id, User>`.

Every handler first runs its validation gate, in the source's order: required fields present
(JavaScript truthiness, `Common.Truthy`), id well-formed (`ObjectId.isValid`, the uninterpreted
`validId`), then the document exists. Each handler's contract names the exact error for each
failure and says that a failure changes nothing.

Modules:

- `Common`: identifiers, `Option`, `Result` and the `Error` replies. Invalid-id and not-found
  errors carry the collection they concern.
- `StorySchema` (server/models/Story.js): the story and comment records, their defaults and
  their `required` fields. The owner is `Option<Id>` because the user deletion sweep writes null.
- `UserSchema`: the user record, the password-free view the read queries return, and username
  uniqueness.
- `Votes`: the toggle of `voteStory` on the voter sets `upvotes` and `downvotes`. The sets stay
  mutually exclusive, and a repeated vote undoes itself.
- `Sweep`: the two bulk updates of `deleteUser`, as written. Owned stories lose their owner.
  In each story, only the first comment by the user loses its user, because of the positional
  operator. A corrected sweep is beside it (see Findings).
- `Listing`: the filter / newest-first sort / limit query of `getAllStories`.
- `Controllers`: the `Store` class with all handlers. Its invariant `Valid()` holds exclusive
  vote sets and unique usernames, and every handler keeps it.

## Model

| member | source | states |
|---|---|---|
| `StorySchema.NewStory` | server/models/Story.js:3-30 | a created story has the given owner, content and time, empty vote sets, `edited = false`, no comments; it has every required field of the schema (the owner; `Mixed` content is never null) |
| `StorySchema.NewComment` | server/models/Story.js:31-50 | a pushed comment keeps its user and content; `edited` defaults to false; a supplied `timestamp` is kept and an absent one becomes now; the comment has its required fields |
| `UserSchema.Public` | server/controllers/usersController.js:29 | the returned user view is the stored user without the password |
| `UserSchema.AtMostOneHolder` | server/models/User.js:10-16 | under the unique-username invariant, at most one user holds a given username |
| `Votes.Cast` | server/controllers/storiesController.js:159-173 | upvote by an upvoter removes it with downvotes unchanged; upvote by anyone else puts the voter in upvotes and out of downvotes; downvote mirrors; any other vote string changes nothing; other voters' memberships and all other story fields are unchanged; exclusivity is preserved |
| `Votes.CastTwice` | server/controllers/storiesController.js:159-173 | casting the same vote twice restores the story if and only if the voter was not in the opposite set |
| `Votes.CastAllKeepsExclusive` | server/controllers/storiesController.js:159-173 | after any sequence of votes no voter is in both sets |
| `Votes.CastAllSparesOthers` | server/controllers/storiesController.js:159-173 | a user who casts none of a sequence of votes keeps their memberships, and only the vote sets change |
| `Votes.ToggleExample` | server/controllers/storiesController.js:159-173 | from empty sets: up gives {u}; up again gives {}; down gives downvotes {u}; up gives upvotes {u} and downvotes {} |
| `Sweep.FirstBy` | server/controllers/usersController.js:160-163 | the position the positional operator selects: the first comment by the user, or the length when there is none |
| `Sweep.NullFirstBy` | server/controllers/usersController.js:160-163 | same length; exactly the first comment by the user loses its user, every other comment is unchanged |
| `Sweep.DisownStories` | server/controllers/usersController.js:154-157 | every story owned by the user gets owner null (None); stories of other owners are unchanged; only the owner field changes |
| `Sweep.ClearFirstComments` | server/controllers/usersController.js:160-163 | only comment lists change; stories without a comment by the user are unchanged; the others get `NullFirstBy` |
| `Sweep.SweepUser` | server/controllers/usersController.js:153-163 | the two updates together: the user's stories get owner null, other owners kept, comments swept by `NullFirstBy`, vote sets untouched |
| `Sweep.CommentedByAfterDisown` | server/controllers/usersController.js:154-163 | the second update's filter selects the same stories before and after the first update |
| `Sweep.FirstOnlyLeavesLaterReference` | server/controllers/usersController.js:160-163 | with two comments by the user, the later one is untouched and still refers to the user |
| `Sweep.SweepLeavesReference` | server/controllers/usersController.js:153-163 | a story with two comments by the deleted user still refers to that user after the sweep |
| `Sweep.ClearAllBy` | server/controllers/usersController.js:159-163 | corrected update: every comment by the user gets user null (None); comments by others are unchanged; only the user field changes |
| `Sweep.SweepUserCompletely` | server/controllers/usersController.js:153-163 | corrected sweep: the user's stories get owner null, other owners are kept, and no comment refers to the user afterwards |
| `Sweep.SweepsAgreeOnSingleComments` | server/controllers/usersController.js:160-163 | the as-written and corrected comment updates agree when a story has at most one comment by the user |
| `Sweep.OwnedBy` | server/controllers/usersController.js:155 | the filter `{ user: id }`: exactly the stored stories whose owner is the user; its size is the first `modifiedCount` |
| `Sweep.CommentedBy` | server/controllers/usersController.js:161 | the filter `{ "comments.user": id }`: exactly the stored stories with some comment by the user; its size is the second `modifiedCount` |
| `UserSchema.Holders` | server/controllers/usersController.js:55 | `findOne({ username })` and `find({ username })`: exactly the ids of users with that username |
| `Controllers.Store.Matching` | server/controllers/storiesController.js:12-26 | the query of `getAllStories`: with an owner, exactly the stories owned by that owner; without one, every story |
| `Listing.Cap` | server/controllers/storiesController.js:31 | `.limit(amount)` returns at most |amount| and never more than there are, and exactly min(|amount|, total); absent or 0 means no limit; a non-zero limit lets at least one story through when there is one |
| `Listing.InsertNewest` | server/controllers/storiesController.js:29-30 | inserting into a newest-first listing keeps it newest first and adds exactly the one id |
| `Listing.SortNewestFirst` | server/controllers/storiesController.js:29-30 | the result is newest first and holds each given id exactly once |
| `Listing.PrefixIsNewest` | server/controllers/storiesController.js:29-33 | the first n of a newest-first arrangement are n distinct matching ids, newest first, with no left-out match newer than a returned one |
| `Controllers.Store.GetAllStories` | server/controllers/storiesController.js:9-41 | owner given: invalid id or unknown user is an error; otherwise an error exactly when nothing matches, else min(limit, matches) distinct matching stories newest first, none newer left out, all owned by the owner when one is given |
| `Controllers.Store.CreateNewStory` | server/controllers/storiesController.js:46-79 | missing content or owner, invalid owner id, unknown owner, in that order, are errors with no change; on success exactly the new default story is added |
| `Controllers.Store.UpdateStory` | server/controllers/storiesController.js:84-121 | gate order: missing id, invalid id, unknown story, no data, invalid comment; any error leaves every story unchanged, including content already assigned; success replaces content when given and appends the comment last, keeping earlier ones and every other field |
| `Controllers.Store.VoteStory` | server/controllers/storiesController.js:126-182 | gate order: missing field, invalid story id, invalid user id, unknown user, unknown story; errors change nothing; success replaces only that story, by `Votes.Cast`; users untouched |
| `Controllers.Store.DeleteStory` | server/controllers/storiesController.js:187-211 | missing, invalid or unknown id is an error with no change; success removes exactly that story |
| `Controllers.Store.GetAllUsers` | server/controllers/usersController.js:10-20 | an error exactly when there are no users; otherwise every user, without password |
| `Controllers.Store.GetUser` | server/controllers/usersController.js:25-39 | an error exactly when no user has the username; otherwise exactly the users with that username, without password |
| `Controllers.Store.GetUserFindsAtMostOne` | server/controllers/usersController.js:29-36 | under the store invariant a successful `getUser` returns exactly one user |
| `Controllers.Store.CreateNewUser` | server/controllers/usersController.js:44-81 | a missing field or a taken username is an error with no change; success adds exactly the new user with the hashed password, and it is the only holder of its username |
| `Controllers.Store.UpdateUser` | server/controllers/usersController.js:86-129 | gate order: missing field, invalid id, unknown user, username held by another user; the user's own username is accepted; password replaced only when given; age and picture always overwritten; the user is then the only holder of the username |
| `Controllers.Store.DeleteUser` | server/controllers/usersController.js:134-180 | missing, invalid or unknown id is an error with no change; success applies both bulk updates, then removes the user; the counts are the numbers of stories each update matched; no story is owned by the user afterwards |
| `Controllers.SweepBreaksRequiredOwner` | server/models/Story.js:18-22 | the required owner holds only at creation: after the sweep, a story of the deleted user no longer has its required fields |

## Findings

| source | as written | input that shows it | evidently intended | confidence | as-written member | corrected member |
|---|---|---|---|---|---|---|
| server/controllers/usersController.js:159-163 | `$set: { "comments.$.user": null }` nulls only the first matching comment of each story | a story with two comments by the deleted user: the second still refers to the removed user | every comment by the deleted user is tombstoned, as the comment on line 159 says | not executed; high (positional `$` semantics) | `Sweep.SweepLeavesReference` | `Sweep.SweepUserCompletely` |

`Controllers.Store.DeleteUser` keeps the as-written sweep, because it models the deployed handler.
The corrected sweep and its completeness proof stand beside it, and
`Sweep.SweepsAgreeOnSingleComments` shows where the two coincide.

## Left out

- HTTP request/response plumbing, status codes and reply strings. Each error reply is an `Error` constructor, and each success returns the value its reply echoes.
- `asyncHandler`, `.lean()`, `.exec()` and the query builder. The collections are in-memory maps, and each handler runs atomically. The read-then-write race between `findById` and `findByIdAndUpdate` in `voteStory` is therefore not modelled.
- Store I/O failures. A bulk update that throws part-way through `deleteUser` is not modelled, so the partial state it could leave is not either.
- `mongoose.Types.ObjectId.isValid` and `bcrypt.hash` are the uninterpreted `validId` and `hash`. Their rules and the hash's salt are not modelled.
- `Date.now` and database-assigned ids are the `now` and `newId` parameters. `newId` must be unused, as ObjectIds are.
- Mongoose casting and save-time validation are not modelled. A comment whose user is not an ObjectId would fail the cast. `save()` could reject a story whose owner or comment user was tombstoned. The never-taken `else` branches after `Story.create`/`User.create` are left out too.
- Story and comment `content` is `Mixed` in the schema and a string here. Falsy non-string values such as `0` or `false` are not modelled.
- Only `age` and `picture` of the extra user fields are kept, since the schema drops any others.
- Request ids are assumed canonical, meaning lower-case 24-digit hex, for every lookup and filter. The source casts each id to an ObjectId in `findById`, in the `{ user: id }` and `"comments.user": id` filters, and in `updateUser`'s `_id.toString() !== id` comparison. An upper-case or 12-byte id string that the source would still find is `NotFound` in the model. `updateUser` with such an id rejects the user's own username in the source but not in the model.
- `Controllers.Store.GetAllStories` returns the ids of the listed stories in order, and the documents are `stories[id]`. It fixes no order among stories with equal `timeCreated`, since MongoDB's sort does not either.
- server/routes/storyRoutes.js (route wiring) and the `min`/`max` options in server/models/User.js are not modelled. Those options do not constrain string length.
- The comment on line 159 of server/controllers/usersController.js promises that every comment by the user is updated, and the reply speaks of comment counts. The code nulls only the first such comment per story and counts stories. The model follows the code (see Findings).
