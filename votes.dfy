/** The vote engine of `voteStory` (server/controllers/storiesController.js):
    a toggle over the story's two voter sets. */
module Votes {
  import opened Common
  import opened StorySchema

  const Upvote: string := "upvote"
  const Downvote: string := "downvote"

  /** The vote sets after `voter` casts `vote`. An upvote by a current upvoter
      withdraws it; any other upvote moves the voter out of the downvoters and
      into the upvoters; downvotes mirror this; any other vote string changes
      nothing. Nothing but the two sets changes. */
  function Cast(s: Story, voter: Id, vote: string): (r: Story)
    ensures r == s.(upvotes := r.upvotes, downvotes := r.downvotes)
    ensures vote == Upvote && voter in s.upvotes ==>
              r.upvotes == s.upvotes - {voter} && r.downvotes == s.downvotes
    ensures vote == Upvote && voter !in s.upvotes ==>
              voter in r.upvotes && voter !in r.downvotes
    ensures vote == Downvote && voter in s.downvotes ==>
              r.downvotes == s.downvotes - {voter} && r.upvotes == s.upvotes
    ensures vote == Downvote && voter !in s.downvotes ==>
              voter in r.downvotes && voter !in r.upvotes
    ensures vote != Upvote && vote != Downvote ==> r == s
    ensures forall u | u != voter :: (u in r.upvotes <==> u in s.upvotes) && (u in r.downvotes <==> u in s.downvotes)
    ensures VotesExclusive(s) ==> VotesExclusive(r)
  {
    if vote == Upvote then
      if voter in s.upvotes then s.(upvotes := s.upvotes - {voter})
      else s.(upvotes := s.upvotes + {voter}, downvotes := s.downvotes - {voter})
    else if vote == Downvote then
      if voter in s.downvotes then s.(downvotes := s.downvotes - {voter})
      else s.(downvotes := s.downvotes + {voter}, upvotes := s.upvotes - {voter})
    else
      s
  }

  /** Casting the same vote twice restores the story exactly when the voter
      was not in the opposite set to begin with: an upvote from a downvoter
      loses the downvote for good. */
  lemma CastTwice(s: Story, voter: Id, vote: string)
    ensures Cast(Cast(s, voter, vote), voter, vote) == s <==>
              (vote == Upvote ==> voter !in s.downvotes) && (vote == Downvote ==> voter !in s.upvotes)
  {
  }

  /** The story after a sequence of (voter, vote) requests, in order. */
  function CastAll(s: Story, ballots: seq<(Id, string)>): Story
    decreases |ballots|
  {
    if ballots == [] then s else CastAll(Cast(s, ballots[0].0, ballots[0].1), ballots[1..])
  }

  /** After any sequence of votes no voter is in both sets. */
  lemma {:induction false} CastAllKeepsExclusive(s: Story, ballots: seq<(Id, string)>)
    requires VotesExclusive(s)
    ensures VotesExclusive(CastAll(s, ballots))
    decreases |ballots|
  {
    if ballots != [] {
      CastAllKeepsExclusive(Cast(s, ballots[0].0, ballots[0].1), ballots[1..]);
    }
  }

  /** A user who casts none of the votes keeps their place in both sets, and
      nothing outside the vote sets changes. */
  lemma {:induction false} CastAllSparesOthers(s: Story, ballots: seq<(Id, string)>, u: Id)
    requires forall i | 0 <= i < |ballots| :: ballots[i].0 != u
    ensures var r := CastAll(s, ballots);
      && (u in r.upvotes <==> u in s.upvotes)
      && (u in r.downvotes <==> u in s.downvotes)
      && r == s.(upvotes := r.upvotes, downvotes := r.downvotes)
    decreases |ballots|
  {
    if ballots != [] {
      CastAllSparesOthers(Cast(s, ballots[0].0, ballots[0].1), ballots[1..], u);
    }
  }

  /** One voter on a fresh story: up, up again, down, up. */
  lemma ToggleExample(s: Story, u: Id)
    requires s.upvotes == {} && s.downvotes == {}
    ensures var s1 := Cast(s, u, Upvote);
      && s1.upvotes == {u} && s1.downvotes == {}
      && var s2 := Cast(s1, u, Upvote);
      && s2.upvotes == {} && s2.downvotes == {}
      && var s3 := Cast(s2, u, Downvote);
      && s3.upvotes == {} && s3.downvotes == {u}
      && var s4 := Cast(s3, u, Upvote);
      && s4.upvotes == {u} && s4.downvotes == {}
  {
  }
}
