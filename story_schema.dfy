/** The Story document and its embedded comments (server/models/Story.js). */
module StorySchema {
  import opened Common

  /** An embedded comment. `user` is required by the schema but becomes None
      when the user deletion sweep tombstones it. */
  datatype Comment = Comment(user: Option<Id>, content: string, edited: bool, timestamp: nat)

  /** A story. The schema's `Map<id, true>` vote maps carry no information in
      their values, so they are sets of voter ids. `user` is the owner, required
      at creation and tombstoned to None by the user deletion sweep. */
  datatype Story = Story(
    content: string,
    upvotes: set<Id>,
    downvotes: set<Id>,
    user: Option<Id>,
    edited: bool,
    timeCreated: nat,
    comments: seq<Comment>)

  /** A comment as a client sends it; the fields it leaves out take the schema's defaults. */
  datatype CommentInput = CommentInput(
    user: Option<string>,
    content: Option<string>,
    edited: Option<bool>,
    timestamp: Option<nat>)

  /** No voter is in both vote sets of the story. */
  predicate VotesExclusive(s: Story)
  {
    s.upvotes !! s.downvotes
  }

  /** The schema's `required` fields of a comment are present. The content is
      `Mixed`, whose required check is only "not null", and a string never is. */
  predicate CommentComplete(c: Comment)
  {
    c.user.Some?
  }

  /** The schema's `required` fields of a story and of all its comments are
      present; as for comments, the `Mixed` content always passes. */
  predicate StoryComplete(s: Story)
  {
    && s.user.Some?
    && forall i | 0 <= i < |s.comments| :: CommentComplete(s.comments[i])
  }

  /** `Story.create({ user, content })`: every other field takes its default;
      `now` stands for `Date.now` at creation. */
  function NewStory(owner: Id, content: string, now: nat): (s: Story)
    ensures s.user == Some(owner) && s.content == content && s.timeCreated == now
    ensures s.upvotes == {} && s.downvotes == {} && !s.edited && s.comments == []
    ensures VotesExclusive(s)
    ensures StoryComplete(s)
  {
    Story(content, {}, {}, Some(owner), false, now, [])
  }

  /** The comment subdocument made from a pushed comment object: `edited`
      defaults to false and `timestamp` to `now`. */
  function NewComment(input: CommentInput, now: nat): (c: Comment)
    requires input.user.Some? && input.content.Some?
    ensures c.user == input.user && c.content == input.content.value
    ensures c.edited <==> input.edited == Some(true)
    ensures input.timestamp.None? ==> c.timestamp == now
    ensures input.timestamp.Some? ==> c.timestamp == input.timestamp.value
    ensures CommentComplete(c)
  {
    Comment(input.user, input.content.value,
            if input.edited.Some? then input.edited.value else false,
            if input.timestamp.Some? then input.timestamp.value else now)
  }
}
