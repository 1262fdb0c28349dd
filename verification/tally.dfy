/**
 Properties of a ballot (`Vote`): the tally stays equal to the count of
 recorded choices, a repeated ballot changes nothing, a changed ballot moves
 one count, and a ballot for an entry outside the pair can only withdraw.
 */
module TallyProperties {
  import opened Wrappers
  import opened Core

  /** Withdrawing voter `c` lowers the count of `c`'s choice by one and
      leaves every other count alone. */
  lemma CountAfterRemove(votes: map<Voter, Entry>, c: Voter, e: Entry)
    requires c in votes
    ensures CountVotes(votes - {c}, e) == CountVotes(votes, e) - (if votes[c] == e then 1 else 0)
  {
    var before := set c' | c' in votes && votes[c'] == e;
    var after := set c' | c' in votes - {c} && (votes - {c})[c'] == e;
    if votes[c] == e {
      assert after == before - {c};
    } else {
      assert after == before;
    }
  }

  /** Recording a new voter's choice `x` raises the count of `x` by one and
      leaves every other count alone. */
  lemma CountAfterAdd(votes: map<Voter, Entry>, c: Voter, x: Entry, e: Entry)
    requires c !in votes
    ensures CountVotes(votes[c := x], e) == CountVotes(votes, e) + (if x == e then 1 else 0)
  {
    var before := set c' | c' in votes && votes[c'] == e;
    var m := votes[c := x];
    var after := set c' | c' in m && m[c'] == e;
    if x == e {
      assert after == before + {c};
    } else {
      assert after == before;
    }
  }

  /** In a consistent round every recorded choice has a tally, so a ballot
      never meets the missing-tally path. */
  lemma ConsistentIsSafe(v: VoteRound, c: Voter)
    requires TallyConsistent(v)
    ensures VoteSafe(v, c)
  {
    if c in v.votes {
      var e := v.votes[c];
      var holders := set c' | c' in v.votes && v.votes[c'] == e;
      assert holders == (holders - {c}) + {c};
      assert CountVotes(v.votes, e) >= 1;
      assert TallyOf(v.tally, e) >= 1;
    }
  }

  /** After any ballot, `tally[e]` still equals the number of voters whose
      recorded choice is `e`, and tallies and choices stay within the pair. */
  lemma VotePreservesWellFormed(v: VoteRound, e: Option<Entry>, c: Voter)
    requires WellFormedRound(v)
    ensures VoteSafe(v, c)
    ensures WellFormedRound(Vote(v, e, c))
  {
    ConsistentIsSafe(v, c);
    var mid := RemoveVote(v, c);
    var r := AddVote(mid, e, c);
    assert r == Vote(v, e, c);
    forall x
      ensures TallyOf(mid.tally, x) == CountVotes(mid.votes, x)
    {
      if c in v.votes {
        CountAfterRemove(v.votes, c, x);
        assert mid.votes == v.votes - {c};
      } else {
        assert mid.votes == v.votes;
      }
    }
    forall x
      ensures TallyOf(r.tally, x) == CountVotes(r.votes, x)
    {
      if ValidChoice(mid.pair, e) {
        CountAfterAdd(mid.votes, c, e.value, x);
      }
    }
  }

  /** Casting the same ballot twice has the effect of casting it once. */
  lemma VoteIdempotent(v: VoteRound, e: Option<Entry>, c: Voter)
    requires VoteSafe(v, c)
    ensures Vote(Vote(v, e, c), e, c) == Vote(v, e, c)
  {
  }

  /** A voter who switches from `x` to `y` moves exactly one count from `x`
      to `y`; every other tally is unchanged and the record now says `y`. */
  lemma VoteChangeMovesOneCount(v: VoteRound, c: Voter, y: Entry)
    requires VoteSafe(v, c)
    requires c in v.votes && v.votes[c] != y && v.pair.Contains(y)
    ensures var r := Vote(v, Some(y), c);
      && TallyOf(r.tally, v.votes[c]) == TallyOf(v.tally, v.votes[c]) - 1
      && TallyOf(r.tally, y) == TallyOf(v.tally, y) + 1
      && (forall z :: z != y && z != v.votes[c] ==> TallyOf(r.tally, z) == TallyOf(v.tally, z))
      && r.votes == v.votes[c := y]
  {
  }

  /** A ballot for an entry outside the pair (or for no entry) creates no
      tally key, records nothing, and at most withdraws the voter's existing
      choice; with no existing choice the round is unchanged. */
  lemma InvalidVoteOnlyWithdraws(v: VoteRound, e: Option<Entry>, c: Voter)
    requires VoteSafe(v, c)
    requires !ValidChoice(v.pair, e)
    ensures var r := Vote(v, e, c);
      && r.tally.Keys == v.tally.Keys
      && r.votes == v.votes - {c}
      && (forall x :: TallyOf(r.tally, x) <= TallyOf(v.tally, x))
      && (c !in v.votes ==> r == v)
  {
  }
}
