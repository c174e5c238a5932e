/** The reference sweep of `deleteUser` (server/controllers/usersController.js):
    two bulk updates over the story collection that tombstone references to
    the deleted user. */
module Sweep {
  import opened Common
  import opened StorySchema

  /** Some comment of `cs` is by `id`: the filter `{ "comments.user": id }`. */
  predicate HasCommentBy(cs: seq<Comment>, id: Id)
  {
    exists j | 0 <= j < |cs| :: cs[j].user == Some(id)
  }

  /** The position of the first comment by `id`, or |cs| when there is none:
      the element the positional operator `comments.$` designates. */
  function FirstBy(cs: seq<Comment>, id: Id): (k: nat)
    ensures k <= |cs|
    ensures k < |cs| ==> cs[k].user == Some(id)
    ensures forall j | 0 <= j < k :: cs[j].user != Some(id)
  {
    if cs == [] then 0
    else if cs[0].user == Some(id) then 0
    else 1 + FirstBy(cs[1..], id)
  }

  /** `$set: { "comments.$.user": null }` on one story: the first comment by
      `id` loses its user, every other comment is kept as it was. */
  function NullFirstBy(cs: seq<Comment>, id: Id): (r: seq<Comment>)
    ensures |r| == |cs|
    ensures forall j | 0 <= j < |cs| ::
              r[j] == if j == FirstBy(cs, id) then cs[j].(user := None) else cs[j]
  {
    if cs == [] then []
    else if cs[0].user == Some(id) then [cs[0].(user := None)] + cs[1..]
    else [cs[0]] + NullFirstBy(cs[1..], id)
  }

  /** The stories owned by `id`: the filter `{ user: id }`. */
  function OwnedBy(stories: map<Id, Story>, id: Id): (r: set<Id>)
    ensures forall k :: k in r <==> k in stories && stories[k].user == Some(id)
    ensures r <= stories.Keys
  {
    set k | k in stories && stories[k].user == Some(id)
  }

  /** The stories holding a comment by `id`: the filter `{ "comments.user": id }`. */
  function CommentedBy(stories: map<Id, Story>, id: Id): (r: set<Id>)
    ensures forall k :: k in r <==> k in stories && FirstBy(stories[k].comments, id) < |stories[k].comments|
    ensures r <= stories.Keys
  {
    set k | k in stories && HasCommentBy(stories[k].comments, id)
  }

  /** The first bulk update: every story owned by `id` gets owner null.
      Afterwards no story is owned by `id`; other stories are untouched and
      only the owner field of the swept ones changes. */
  function DisownStories(stories: map<Id, Story>, id: Id): (r: map<Id, Story>)
    ensures r.Keys == stories.Keys
    ensures forall k | k in r :: r[k].user != Some(id)
    ensures forall k | k in stories :: r[k] == stories[k].(user := r[k].user)
    ensures forall k | k in stories && stories[k].user != Some(id) :: r[k] == stories[k]
    ensures forall k | k in stories && stories[k].user == Some(id) :: r[k].user == None
  {
    map k | k in stories :: if stories[k].user == Some(id) then stories[k].(user := None) else stories[k]
  }

  /** The second bulk update: in every story with a comment by `id`, the first
      such comment gets user null. Only comment lists change, and only in
      stories that had a comment by `id`. */
  function ClearFirstComments(stories: map<Id, Story>, id: Id): (r: map<Id, Story>)
    ensures r.Keys == stories.Keys
    ensures forall k | k in stories :: r[k] == stories[k].(comments := r[k].comments)
    ensures forall k | k in stories && !HasCommentBy(stories[k].comments, id) :: r[k] == stories[k]
    ensures forall k | k in stories :: r[k].comments == NullFirstBy(stories[k].comments, id)
  {
    map k | k in stories ::
      if HasCommentBy(stories[k].comments, id)
      then stories[k].(comments := NullFirstBy(stories[k].comments, id))
      else stories[k]
  }

  /** The story-side effect of deleting user `id`, as the code does it. */
  function SweepUser(stories: map<Id, Story>, id: Id): (r: map<Id, Story>)
    ensures r.Keys == stories.Keys
    ensures forall k | k in r :: r[k].user != Some(id)
    ensures forall k | k in stories && stories[k].user != Some(id) :: r[k].user == stories[k].user
    ensures forall k | k in stories && stories[k].user == Some(id) :: r[k].user == None
    ensures forall k | k in stories ::
              r[k] == stories[k].(user := r[k].user, comments := NullFirstBy(stories[k].comments, id))
    ensures forall k | k in stories :: r[k].upvotes == stories[k].upvotes && r[k].downvotes == stories[k].downvotes
  {
    ClearFirstComments(DisownStories(stories, id), id)
  }

  /** The first bulk update leaves comments alone, so the second one selects
      the same stories whether it is counted before or after the first. */
  lemma CommentedByAfterDisown(stories: map<Id, Story>, id: Id)
    ensures CommentedBy(DisownStories(stories, id), id) == CommentedBy(stories, id)
  {
  }

  /** Finding, as written: a story with two comments by `id` still refers to
      `id` after the sweep, through the later comment. */
  lemma FirstOnlyLeavesLaterReference(cs: seq<Comment>, id: Id, i: nat, j: nat)
    requires i < j < |cs|
    requires cs[i].user == Some(id) && cs[j].user == Some(id)
    ensures NullFirstBy(cs, id)[j] == cs[j]
    ensures HasCommentBy(NullFirstBy(cs, id), id)
  {
  }

  /** The sweep leaves a comment reference to the deleted user behind in any
      story with two comments by that user. */
  lemma SweepLeavesReference(stories: map<Id, Story>, id: Id, k: Id, i: nat, j: nat)
    requires k in stories
    requires i < j < |stories[k].comments|
    requires stories[k].comments[i].user == Some(id) && stories[k].comments[j].user == Some(id)
    ensures k in SweepUser(stories, id) && HasCommentBy(SweepUser(stories, id)[k].comments, id)
  {
  }

  /** The evidently intended comment update (`comments.$[].user` with a filter):
      every comment by `id` loses its user, the others are kept. */
  function ClearAllBy(cs: seq<Comment>, id: Id): (r: seq<Comment>)
    ensures |r| == |cs|
    ensures !HasCommentBy(r, id)
    ensures forall j | 0 <= j < |cs| :: r[j] == cs[j].(user := r[j].user)
    ensures forall j | 0 <= j < |cs| && cs[j].user != Some(id) :: r[j] == cs[j]
    ensures forall j | 0 <= j < |cs| && cs[j].user == Some(id) :: r[j].user == None
  {
    seq(|cs|, j requires 0 <= j < |cs| => if cs[j].user == Some(id) then cs[j].(user := None) else cs[j])
  }

  /** The corrected sweep: no story and no comment refers to `id` afterwards. */
  function SweepUserCompletely(stories: map<Id, Story>, id: Id): (r: map<Id, Story>)
    ensures r.Keys == stories.Keys
    ensures forall k | k in r :: r[k].user != Some(id) && !HasCommentBy(r[k].comments, id)
    ensures forall k | k in stories && stories[k].user == Some(id) :: r[k].user == None
    ensures forall k | k in stories && stories[k].user != Some(id) :: r[k].user == stories[k].user
    ensures forall k | k in stories ::
              r[k] == stories[k].(user := r[k].user, comments := ClearAllBy(stories[k].comments, id))
  {
    map k | k in DisownStories(stories, id) ::
      DisownStories(stories, id)[k].(comments := ClearAllBy(stories[k].comments, id))
  }

  /** The two sweeps agree wherever each story has at most one comment by `id`. */
  lemma SweepsAgreeOnSingleComments(cs: seq<Comment>, id: Id)
    requires forall i, j | 0 <= i < j < |cs| :: !(cs[i].user == Some(id) && cs[j].user == Some(id))
    ensures NullFirstBy(cs, id) == ClearAllBy(cs, id)
  {
  }
}
