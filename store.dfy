/** The two controllers (server/controllers/storiesController.js and
    server/controllers/usersController.js) as handlers on one in-memory store
    holding both collections. Each handler runs its validation gate first and
    changes nothing when a check fails. */
module Controllers {
  import opened Common
  import opened StorySchema
  import opened UserSchema
  import Votes
  import Sweep
  import Listing

  /** What `deleteUser` reports: the deleted user and the `modifiedCount` of
      each bulk update (stories, not comments, in both cases). */
  datatype DeleteReport = DeleteReport(username: string, id: Id, storiesUpdated: nat, commentsUpdated: nat)

  class Store {
    /** `mongoose.Types.ObjectId.isValid`, whose rules are not modelled. */
    const validId: string -> bool
    /** `bcrypt.hash(password, 10)`, a one-way function. */
    const hash: string -> string

    var stories: map<Id, Story>
    var users: map<Id, User>

    /** No voter is in both vote sets of a story; usernames are unique. */
    ghost predicate Valid()
      reads this
    {
      && (forall k | k in stories :: VotesExclusive(stories[k]))
      && UniqueUsernames(users)
    }

    constructor (validId: string -> bool, hash: string -> string)
      ensures Valid()
      ensures this.validId == validId && this.hash == hash
      ensures stories == map[] && users == map[]
    {
      this.validId := validId;
      this.hash := hash;
      stories := map[];
      users := map[];
    }

    /** The stories the query `{ user: owner }` selects, or all of them when no owner is given. */
    function Matching(owner: Option<string>): (r: set<Id>)
      reads this
      ensures r <= stories.Keys
      ensures Truthy(owner) ==> forall k :: k in r <==> k in stories && stories[k].user == Some(owner.value)
      ensures !Truthy(owner) ==> r == stories.Keys
    {
      if Truthy(owner) then Sweep.OwnedBy(stories, owner.value) else stories.Keys
    }

    /** `getAllStories`: the newest `amount` stories, optionally only those of one owner. */
    method GetAllStories(owner: Option<string>, amount: Option<int>) returns (r: Result<seq<Id>>)
      ensures Truthy(owner) && !validId(owner.value) ==> r == Err(InvalidIdentifier(UserKind))
      ensures Truthy(owner) && validId(owner.value) && owner.value !in users ==> r == Err(NotFound(UserKind))
      ensures !Truthy(owner) || (validId(owner.value) && owner.value in users) ==>
                if Matching(owner) == {} then r == Err(NoneFound(StoryKind))
                else r.Ok? && Listing.NewestPrefix(r.value, stories, Matching(owner), Listing.Cap(amount, |Matching(owner)|))
      ensures r.Ok? ==> r.value != [] && forall i | 0 <= i < |r.value| :: r.value[i] in stories
      ensures r.Ok? && Truthy(owner) ==> forall i | 0 <= i < |r.value| :: stories[r.value[i]].user == Some(owner.value)
    {
      if Truthy(owner) {
        if !validId(owner.value) {
          return Err(InvalidIdentifier(UserKind));
        }
        if owner.value !in users {
          return Err(NotFound(UserKind));
        }
      }
      var matching := Matching(owner);
      var sorted := Listing.SortNewestFirst(stories, matching);
      Listing.ArrangementFacts(sorted, matching);
      var n := Listing.Cap(amount, |sorted|);
      Listing.PrefixIsNewest(sorted, stories, matching, n);
      if n == 0 {
        return Err(NoneFound(StoryKind));
      }
      r := Ok(sorted[..n]);
    }

    /** `createNewStory`: a story owned by an existing user, with the schema's defaults.
        `newId` is the id the database assigns and `now` the creation time. */
    method CreateNewStory(content: Option<string>, owner: Option<string>, newId: Id, now: nat) returns (r: Result<()>)
      requires Valid()
      requires newId !in stories
      modifies this
      ensures Valid()
      ensures r == if !Truthy(content) || !Truthy(owner) then Err(MissingField)
                   else if !validId(owner.value) then Err(InvalidIdentifier(UserKind))
                   else if owner.value !in old(users) then Err(NotFound(UserKind))
                   else Ok(())
      ensures r.Err? ==> stories == old(stories)
      ensures r.Ok? ==> stories == old(stories)[newId := NewStory(owner.value, content.value, now)]
      ensures r.Ok? ==> StoryComplete(stories[newId])
      ensures users == old(users)
    {
      if !Truthy(content) || !Truthy(owner) {
        return Err(MissingField);
      }
      if !validId(owner.value) {
        return Err(InvalidIdentifier(UserKind));
      }
      if owner.value !in users {
        return Err(NotFound(UserKind));
      }
      stories := stories[newId := NewStory(owner.value, content.value, now)];
      r := Ok(());
    }

    /** `updateStory`: replaces the content, appends a comment, or both; returns
        the story's owner. An invalid comment aborts before the save, so the
        content assigned in memory is not stored either. */
    method UpdateStory(storyId: Option<string>, content: Option<string>, comment: Option<CommentInput>, now: nat)
      returns (r: Result<Option<Id>>)
      requires Valid()
      modifies this
      ensures Valid()
      ensures r.Err? <==>
                || !Truthy(storyId) || !validId(storyId.value) || storyId.value !in old(stories)
                || (!Truthy(content) && comment.None?)
                || (comment.Some? && (!Truthy(comment.value.user) || !Truthy(comment.value.content)))
      ensures r == Err(MissingField) <==> !Truthy(storyId)
      ensures Truthy(storyId) ==>
                r == if !validId(storyId.value) then Err(InvalidIdentifier(StoryKind))
                     else if storyId.value !in old(stories) then Err(NotFound(StoryKind))
                     else if !Truthy(content) && comment.None? then Err(NoData)
                     else if comment.Some? && (!Truthy(comment.value.user) || !Truthy(comment.value.content))
                     then Err(InvalidComment)
                     else Ok(old(stories)[storyId.value].user)
      ensures r.Err? ==> stories == old(stories)
      ensures r.Ok? ==> storyId.value in stories
      ensures r.Ok? ==>
                var s := old(stories)[storyId.value];
                var s' := stories[storyId.value];
                && stories == old(stories)[storyId.value := s']
                && s' == s.(content := s'.content, comments := s'.comments)
                && s'.content == (if Truthy(content) then content.value else s.content)
                && s'.comments == (if comment.Some? then s.comments + [NewComment(comment.value, now)] else s.comments)
      ensures r.Ok? ==> StoryComplete(old(stories)[storyId.value]) ==> StoryComplete(stories[storyId.value])
      ensures users == old(users)
    {
      if !Truthy(storyId) {
        return Err(MissingField);
      }
      var id := storyId.value;
      if !validId(id) {
        return Err(InvalidIdentifier(StoryKind));
      }
      if id !in stories {
        return Err(NotFound(StoryKind));
      }
      var story := stories[id];
      if !Truthy(content) && comment.None? {
        return Err(NoData);
      }
      if Truthy(content) {
        story := story.(content := content.value);
      }
      if comment.Some? {
        if !Truthy(comment.value.user) || !Truthy(comment.value.content) {
          return Err(InvalidComment);
        }
        story := story.(comments := story.comments + [NewComment(comment.value, now)]);
      }
      stories := stories[id := story];
      r := Ok(story.user);
    }

    /** `voteStory`: toggles the voter's vote on the story; returns the story id. */
    method VoteStory(id: Option<string>, vote: Option<string>, userId: Option<string>) returns (r: Result<Id>)
      requires Valid()
      modifies this
      ensures Valid()
      ensures !Truthy(id) || !Truthy(vote) || !Truthy(userId) ==> r == Err(MissingField)
      ensures Truthy(id) && Truthy(vote) && Truthy(userId) ==>
                r == if !validId(id.value) then Err(InvalidIdentifier(StoryKind))
                     else if !validId(userId.value) then Err(InvalidIdentifier(UserKind))
                     else if userId.value !in old(users) then Err(NotFound(UserKind))
                     else if id.value !in old(stories) then Err(NotFound(StoryKind))
                     else Ok(id.value)
      ensures r.Err? ==> stories == old(stories)
      ensures r.Ok? ==> stories == old(stories)[id.value := Votes.Cast(old(stories)[id.value], userId.value, vote.value)]
      ensures users == old(users)
    {
      if !Truthy(id) || !Truthy(vote) || !Truthy(userId) {
        return Err(MissingField);
      }
      var sid, voter := id.value, userId.value;
      if !validId(sid) {
        return Err(InvalidIdentifier(StoryKind));
      }
      if !validId(voter) {
        return Err(InvalidIdentifier(UserKind));
      }
      if voter !in users {
        return Err(NotFound(UserKind));
      }
      if sid !in stories {
        return Err(NotFound(StoryKind));
      }
      var story := stories[sid];
      var up, down := story.upvotes, story.downvotes;
      if vote.value == Votes.Upvote {
        if voter in up {
          up := up - {voter};
        } else {
          down := down - {voter};
          up := up + {voter};
        }
      } else if vote.value == Votes.Downvote {
        if voter in down {
          down := down - {voter};
        } else {
          up := up - {voter};
          down := down + {voter};
        }
      }
      stories := stories[sid := story.(upvotes := up, downvotes := down)];
      r := Ok(sid);
    }

    /** `deleteStory`: removes an existing story; returns its id. */
    method DeleteStory(id: Option<string>) returns (r: Result<Id>)
      requires Valid()
      modifies this
      ensures Valid()
      ensures r == if !Truthy(id) then Err(MissingField)
                   else if !validId(id.value) then Err(InvalidIdentifier(StoryKind))
                   else if id.value !in old(stories) then Err(NotFound(StoryKind))
                   else Ok(id.value)
      ensures r.Err? ==> stories == old(stories)
      ensures r.Ok? ==> stories == old(stories) - {id.value}
      ensures users == old(users)
    {
      if !Truthy(id) {
        return Err(MissingField);
      }
      if !validId(id.value) {
        return Err(InvalidIdentifier(StoryKind));
      }
      if id.value !in stories {
        return Err(NotFound(StoryKind));
      }
      stories := stories - {id.value};
      r := Ok(id.value);
    }

    /** `getAllUsers`: every user without the password, or an error when there is none. */
    function GetAllUsers(): (r: Result<map<Id, PublicUser>>)
      reads this
      ensures r.Err? <==> users == map[]
      ensures r.Err? ==> r.error == NoneFound(UserKind)
      ensures r.Ok? ==> r.value.Keys == users.Keys && forall k | k in users :: r.value[k] == Public(users[k])
    {
      if users == map[] then Err(NoneFound(UserKind))
      else Ok(map k | k in users :: Public(users[k]))
    }

    /** `getUser`: the users whose username is `username`, without the password,
        or an error when there is none. */
    function GetUser(username: string): (r: Result<map<Id, PublicUser>>)
      reads this
      ensures r.Err? <==> forall k | k in users :: users[k].username != username
      ensures r.Err? ==> r.error == NoneFound(UserKind)
      ensures r.Ok? ==> forall k :: k in r.value <==> k in users && users[k].username == username
      ensures r.Ok? ==> forall k | k in r.value :: r.value[k] == Public(users[k])
    {
      var found := Holders(users, username);
      if found == {} then Err(NoneFound(UserKind))
      else Ok(map k | k in found :: Public(users[k]))
    }

    /** With unique usernames `getUser` returns at most one user. */
    lemma GetUserFindsAtMostOne(username: string)
      requires Valid()
      ensures GetUser(username).Ok? ==> |GetUser(username).value| == 1
    {
      AtMostOneHolder(users, username);
      if GetUser(username).Ok? {
        assert GetUser(username).value.Keys == Holders(users, username);
      }
    }

    /** `createNewUser`: adds a user with a fresh username and the hashed
        password. `newId` is the id the database assigns. */
    method CreateNewUser(name: Option<string>, username: Option<string>, password: Option<string>,
                         email: Option<string>, age: Option<int>, picture: Option<string>, newId: Id)
      returns (r: Result<()>)
      requires Valid()
      requires newId !in users
      modifies this
      ensures Valid()
      ensures r == if !Truthy(name) || !Truthy(username) || !Truthy(password) || !Truthy(email) then Err(MissingField)
                   else if Holders(old(users), username.value) != {} then Err(DuplicateUsername)
                   else Ok(())
      ensures r.Err? ==> users == old(users)
      ensures r.Ok? ==> users == old(users)[newId := User(name.value, username.value, hash(password.value), email.value, age, picture)]
      ensures r.Ok? ==> Holders(users, username.value) == {newId}
      ensures stories == old(stories)
    {
      if !Truthy(name) || !Truthy(username) || !Truthy(password) || !Truthy(email) {
        return Err(MissingField);
      }
      if Holders(users, username.value) != {} {
        return Err(DuplicateUsername);
      }
      users := users[newId := User(name.value, username.value, hash(password.value), email.value, age, picture)];
      r := Ok(());
    }

    /** `updateUser`: overwrites the user's fields; the username may be the
        user's own but not another user's; the password changes only when one
        is given; age and picture are always overwritten, possibly to absent.
        Returns the new username. */
    method UpdateUser(id: Option<string>, name: Option<string>, username: Option<string>, password: Option<string>,
                      email: Option<string>, age: Option<int>, picture: Option<string>)
      returns (r: Result<string>)
      requires Valid()
      modifies this
      ensures Valid()
      ensures r == if !Truthy(id) || !Truthy(name) || !Truthy(username) || !Truthy(email) then Err(MissingField)
                   else if !validId(id.value) then Err(InvalidIdentifier(UserKind))
                   else if id.value !in old(users) then Err(NotFound(UserKind))
                   else if Holders(old(users), username.value) - {id.value} != {} then Err(DuplicateUsername)
                   else Ok(username.value)
      ensures r.Err? ==> users == old(users)
      ensures r.Ok? ==>
                var u := old(users)[id.value];
                users == old(users)[id.value := User(name.value, username.value,
                                                     if Truthy(password) then hash(password.value) else u.password,
                                                     email.value, age, picture)]
      ensures r.Ok? ==> Holders(users, username.value) == {id.value}
      ensures stories == old(stories)
    {
      if !Truthy(id) || !Truthy(name) || !Truthy(username) || !Truthy(email) {
        return Err(MissingField);
      }
      var uid := id.value;
      if !validId(uid) {
        return Err(InvalidIdentifier(UserKind));
      }
      if uid !in users {
        return Err(NotFound(UserKind));
      }
      if Holders(users, username.value) - {uid} != {} {
        return Err(DuplicateUsername);
      }
      forall k | k in users && k != uid ensures users[k].username != username.value {
        assert k !in Holders(users, username.value) - {uid};
      }
      var user := users[uid];
      user := user.(name := name.value, username := username.value, email := email.value, age := age, picture := picture);
      if Truthy(password) {
        user := user.(password := hash(password.value));
      }
      users := users[uid := user];
      r := Ok(username.value);
    }

    /** `deleteUser`: tombstones the user's stories, then the first comment by
        the user in each story, then removes the user. */
    method DeleteUser(id: Option<string>) returns (r: Result<DeleteReport>)
      requires Valid()
      modifies this
      ensures Valid()
      ensures r.Err? ==> r.error == (if !Truthy(id) then MissingField
                                     else if !validId(id.value) then InvalidIdentifier(UserKind)
                                     else NotFound(UserKind))
      ensures r.Ok? <==> Truthy(id) && validId(id.value) && id.value in old(users)
      ensures r.Err? ==> stories == old(stories) && users == old(users)
      ensures r.Ok? ==>
                && stories == Sweep.SweepUser(old(stories), id.value)
                && users == old(users) - {id.value}
                && r.value == DeleteReport(old(users)[id.value].username, id.value,
                                           |Sweep.OwnedBy(old(stories), id.value)|,
                                           |Sweep.CommentedBy(old(stories), id.value)|)
      ensures r.Ok? ==> forall k | k in stories :: stories[k].user != Some(id.value)
    {
      if !Truthy(id) {
        return Err(MissingField);
      }
      var uid := id.value;
      if !validId(uid) {
        return Err(InvalidIdentifier(UserKind));
      }
      if uid !in users {
        return Err(NotFound(UserKind));
      }
      var user := users[uid];
      var owned := Sweep.OwnedBy(stories, uid);
      stories := Sweep.DisownStories(stories, uid);
      var commented := Sweep.CommentedBy(stories, uid);
      Sweep.CommentedByAfterDisown(old(stories), uid);
      stories := Sweep.ClearFirstComments(stories, uid);
      users := users - {uid};
      r := Ok(DeleteReport(user.username, uid, |owned|, |commented|));
    }
  }

  /** The owner is required only at creation: the user deletion sweep leaves
      any story of the deleted user without one. */
  lemma SweepBreaksRequiredOwner(stories: map<Id, Story>, id: Id, k: Id)
    requires k in stories && stories[k].user == Some(id)
    ensures k in Sweep.SweepUser(stories, id) && !StoryComplete(Sweep.SweepUser(stories, id)[k])
  {
  }
}
