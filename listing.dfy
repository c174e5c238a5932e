/** The query of `getAllStories` (server/controllers/storiesController.js):
    `Story.find(query).sort({ timeCreated: -1 }).limit(amount)`. */
module Listing {
  import opened Common
  import opened StorySchema

  /** The creation time of story `k` (0 for an id that is not stored). */
  function Time(stories: map<Id, Story>, k: Id): nat
  {
    if k in stories then stories[k].timeCreated else 0
  }

  /** `s` lists stories newest first. */
  ghost predicate NewestFirst(s: seq<Id>, stories: map<Id, Story>)
  {
    forall i, j | 0 <= i < j < |s| :: Time(stories, s[i]) >= Time(stories, s[j])
  }

  /** `s` holds each id of `ids` exactly once and nothing else. */
  ghost predicate Arrangement(s: seq<Id>, ids: set<Id>)
  {
    multiset(s) == multiset(ids)
  }

  /** `r` is what the sorted, limited query may return: distinct ids drawn
      from `matching`, newest first, exactly `n` of them, and no matching
      story left out is newer than one returned. */
  ghost predicate NewestPrefix(r: seq<Id>, stories: map<Id, Story>, matching: set<Id>, n: nat)
  {
    && |r| == n
    && NewestFirst(r, stories)
    && (forall i | 0 <= i < |r| :: r[i] in matching)
    && (forall i, j | 0 <= i < j < |r| :: r[i] != r[j])
    && (forall x, i | x in matching && x !in r && 0 <= i < |r| :: Time(stories, x) <= Time(stories, r[i]))
  }

  /** The number of documents `.limit(amount)` lets through out of `total`:
      no limit when `amount` is absent or 0, otherwise at most |amount|
      (a negative limit returns a single batch of that size). */
  function Cap(amount: Option<int>, total: nat): (n: nat)
    ensures n <= total
    ensures amount.None? || amount == Some(0) ==> n == total
    ensures amount.Some? && amount.value != 0 ==> n >= 1 || total == 0
    ensures amount.Some? && amount.value != 0 ==>
              var bound := if amount.value < 0 then -amount.value else amount.value;
              n <= bound && (n == bound || n == total)
  {
    if amount.None? || amount.value == 0 then total
    else
      var bound := if amount.value < 0 then -amount.value else amount.value;
      if bound < total then bound else total
  }

  /** `k` inserted into a newest-first listing after every story at least as new. */
  function InsertNewest(s: seq<Id>, k: Id, stories: map<Id, Story>): (r: seq<Id>)
    requires NewestFirst(s, stories)
    ensures NewestFirst(r, stories)
    ensures multiset(r) == multiset(s) + multiset{k}
  {
    if s == [] || Time(stories, s[0]) < Time(stories, k) then
      ConsNewest(k, s, stories);
      [k] + s
    else
      var tail := s[1..];
      assert s == [s[0]] + tail;
      var rest := InsertNewest(tail, k, stories);
      NoNewerThanHead(s, k, rest, stories);
      ConsNewest(s[0], rest, stories);
      [s[0]] + rest
  }

  /** Putting a story no older than any in a newest-first listing in front keeps it newest first. */
  lemma ConsNewest(x: Id, s: seq<Id>, stories: map<Id, Story>)
    requires NewestFirst(s, stories)
    requires s != [] ==> Time(stories, x) >= Time(stories, s[0])
    ensures NewestFirst([x] + s, stories)
  {
  }

  /** When the head of `s` is no older than `k`, it is no older than anything
      made from the rest of `s` and `k`. */
  lemma NoNewerThanHead(s: seq<Id>, k: Id, rest: seq<Id>, stories: map<Id, Story>)
    requires s != [] && NewestFirst(s, stories)
    requires Time(stories, s[0]) >= Time(stories, k)
    requires multiset(rest) == multiset(s[1..]) + multiset{k}
    ensures forall i | 0 <= i < |rest| :: Time(stories, s[0]) >= Time(stories, rest[i])
  {
    forall i | 0 <= i < |rest| ensures Time(stories, s[0]) >= Time(stories, rest[i]) {
      assert rest[i] in multiset(rest);
      if rest[i] != k {
        assert rest[i] in multiset(s[1..]);
        var m :| 0 <= m < |s[1..]| && s[1..][m] == rest[i];
        assert s[m + 1] == rest[i];
      }
    }
  }

  /** Orders the stories `ids` newest first. */
  method SortNewestFirst(stories: map<Id, Story>, ids: set<Id>) returns (s: seq<Id>)
    ensures NewestFirst(s, stories)
    ensures Arrangement(s, ids)
  {
    s := [];
    var rest := ids;
    while rest != {}
      invariant rest <= ids
      invariant NewestFirst(s, stories)
      invariant multiset(s) == multiset(ids - rest)
      decreases |rest|
    {
      var k :| k in rest;
      s := InsertNewest(s, k, stories);
      assert ids - (rest - {k}) == (ids - rest) + {k};
      rest := rest - {k};
    }
    assert ids - rest == ids;
  }

  /** An arrangement of a set has no repeats and has the set's size. */
  lemma ArrangementFacts(s: seq<Id>, ids: set<Id>)
    requires Arrangement(s, ids)
    ensures |s| == |ids|
    ensures forall i | 0 <= i < |s| :: s[i] in ids
    ensures forall x | x in ids :: x in s
    ensures forall i, j | 0 <= i < j < |s| :: s[i] != s[j]
  {
    assert |multiset(s)| == |s|;
    forall i | 0 <= i < |s| ensures s[i] in ids {
      assert s[i] in multiset(s);
    }
    forall x | x in ids ensures x in s {
      assert x in multiset(ids);
    }
    forall i, j | 0 <= i < j < |s| ensures s[i] != s[j] {
      TwiceCountsTwice(s, i, j);
      assert multiset(ids)[s[i]] <= 1;
    }
  }

  /** An id found at two positions occurs at least twice in the multiset. */
  lemma TwiceCountsTwice(s: seq<Id>, i: nat, j: nat)
    requires i < j < |s|
    ensures s[i] == s[j] ==> multiset(s)[s[i]] >= 2
  {
    assert s == s[..j] + s[j..];
    assert s[i] in s[..j] && s[j] in s[j..];
  }

  /** The first `n` stories of a newest-first arrangement of `matching` are
      what the limited query returns. */
  lemma {:induction false} PrefixIsNewest(full: seq<Id>, stories: map<Id, Story>, matching: set<Id>, n: nat)
    requires NewestFirst(full, stories) && Arrangement(full, matching)
    requires n <= |full|
    ensures NewestPrefix(full[..n], stories, matching, n)
  {
    ArrangementFacts(full, matching);
    var r := full[..n];
    assert forall m | 0 <= m < n :: r[m] == full[m];
    forall x, i | x in matching && x !in r && 0 <= i < |r|
      ensures Time(stories, x) <= Time(stories, r[i])
    {
      var j :| 0 <= j < |full| && full[j] == x;
      assert i < j;
    }
  }
}
