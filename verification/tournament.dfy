/**
 A whole tournament played through the dispatcher with one ballot per
 round for the front member of the pair: from N distinct entries no round
 before the (N-1)-th ends it, and the (N-1)-th leaves a single winner drawn
 from the entries.
 */
module Tournament {
  import opened Wrappers
  import opened Core
  import opened Reducer
  import RoundProperties

  predicate Distinct(q: seq<Entry>) {
    forall i, j :: 0 <= i < j < |q| ==> q[i] != q[j]
  }

  /** The snapshot after `SET_ENTRIES` then `NEXT` from the empty one. */
  function Start(entries: seq<Entry>): State
    requires |entries| >= 1
  {
    Reduce(Some(Reduce(None, SetEntriesAction(entries))), NextAction)
  }

  /** One round of play: `voter` votes for the front member of the pair,
      then the round is advanced; `None` if the dispatcher refuses. */
  function PlayRound(s: State, voter: Voter): Option<State>
    requires s.vote.Some?
  {
    Replay(s, [VoteAction(Some(s.vote.value.pair.a), voter), NextAction])
  }

  /** The snapshot after `k` rounds of play from `start`; `None` if play
      stopped earlier (no round left to vote on, or a refused action). */
  function Play(start: State, voter: Voter, k: nat): Option<State>
  {
    if k == 0 then Some(start)
    else match Play(start, voter, k - 1)
      case None => None
      case Some(s) => if s.vote.Some? then PlayRound(s, voter) else None
  }

  /** A freshly opened round with no ballots, whose live contestants are
      distinct and drawn from `entries`. */
  ghost predicate FreshRound(s: State, entries: seq<Entry>) {
    && s.vote.Some? && s.entries.Some?
    && s.vote.value.tally == map[] && s.vote.value.votes == map[]
    && Distinct(Contestants(s))
    && (forall x :: x in Contestants(s) ==> x in entries)
  }

  /** Sending the front of a pair of distinct contestants to the back of
      the queue keeps the contestants distinct. */
  lemma {:induction false} RotateKeepsDistinct(a: Entry, b: Entry, q: seq<Entry>)
    requires Distinct([a, b] + q)
    ensures Distinct(q + [a])
  {
    var before := [a, b] + q;
    var after := q + [a];
    forall i, j | 0 <= i < j < |after|
      ensures after[i] != after[j]
    {
      assert after[i] == before[i + 2];
      if j < |q| {
        assert after[j] == before[j + 2];
      } else {
        assert after[j] == before[0];
      }
    }
  }

  /** Seeding N >= 2 distinct entries and advancing opens a fresh round on
      all N of them. */
  lemma StartIsFresh(entries: seq<Entry>)
    requires |entries| >= 2 && Distinct(entries)
    ensures FreshRound(Start(entries), entries)
    ensures Contestants(Start(entries)) == entries
  {
  }

  /** One round of play on a fresh round of distinct contestants is
      decisive: with two contestants left it declares a winner drawn from
      `entries`; with more it opens a fresh round on one contestant fewer. */
  lemma {:induction false} PlayRoundDecisive(s: State, voter: Voter, entries: seq<Entry>)
    requires FreshRound(s, entries)
    ensures PlayRound(s, voter).Some?
    ensures |Contestants(s)| == 2 ==>
      var t := PlayRound(s, voter).value;
      t.vote.None? && t.entries.None? && t.winner.Some? && t.winner.value in entries
    ensures |Contestants(s)| > 2 ==>
      var t := PlayRound(s, voter).value;
      FreshRound(t, entries) && |Contestants(t)| == |Contestants(s)| - 1
  {
    var v := s.vote.value;
    var ballot := VoteAction(Some(v.pair.a), voter);
    var cast := Reduce(Some(s), ballot);
    var t := Reduce(Some(cast), NextAction);
    assert Accepts(s, ballot) && Accepts(cast, NextAction);
    assert [ballot, NextAction][1..] == [NextAction];
    assert [NextAction][1..] == [];
    assert Replay(cast, [NextAction]) == Replay(t, []) == Some(t);
    assert PlayRound(s, voter) == Replay(cast, [NextAction]);
    assert Contestants(cast) == Contestants(s) == [v.pair.a, v.pair.b] + s.entries.value;
    assert v.pair.a != v.pair.b by {
      assert Contestants(s)[0] == v.pair.a && Contestants(s)[1] == v.pair.b;
    }
    assert Winners(cast.vote) == [v.pair.a];
    if t.vote.Some? {
      RoundProperties.NextContestantCount(cast);
      RotateKeepsDistinct(v.pair.a, v.pair.b, cast.entries.value);
    } else {
      RoundProperties.WinnerIsContestant(cast);
    }
  }

  /** After `k` < N - 1 rounds of play from N distinct entries the
      tournament is still open, on a fresh round of N - k contestants. */
  lemma {:induction false} PlayProgress(entries: seq<Entry>, voter: Voter, k: nat)
    requires |entries| >= 2 && Distinct(entries) && k < |entries| - 1
    ensures Play(Start(entries), voter, k).Some?
    ensures FreshRound(Play(Start(entries), voter, k).value, entries)
    ensures |Contestants(Play(Start(entries), voter, k).value)| == |entries| - k
  {
    if k == 0 {
      StartIsFresh(entries);
    } else {
      PlayProgress(entries, voter, k - 1);
      PlayRoundDecisive(Play(Start(entries), voter, k - 1).value, voter, entries);
    }
  }

  /** Played from N >= 2 distinct entries, the tournament is still open
      after every one of the first N - 2 rounds, and after exactly N - 1
      rounds it holds only a winner, drawn from the entries. */
  lemma PlayEndsAfterNMinusOneRounds(entries: seq<Entry>, voter: Voter)
    requires |entries| >= 2 && Distinct(entries)
    ensures forall k: nat :: k < |entries| - 1 ==>
      Play(Start(entries), voter, k).Some? && Play(Start(entries), voter, k).value.vote.Some?
    ensures var f := Play(Start(entries), voter, |entries| - 1);
      && f.Some?
      && f.value.vote.None? && f.value.entries.None? && f.value.winner.Some?
      && f.value.winner.value in entries
  {
    forall k: nat | k < |entries| - 1
      ensures Play(Start(entries), voter, k).Some? && Play(Start(entries), voter, k).value.vote.Some?
    {
      PlayProgress(entries, voter, k);
    }
    var n := |entries|;
    PlayProgress(entries, voter, n - 2);
    PlayRoundDecisive(Play(Start(entries), voter, n - 2).value, voter, entries);
  }

  /** Plays the tournament out round by round; the result is the play's
      snapshot after exactly N - 1 rounds, a lone winner from the entries. */
  method PlayOut(entries: seq<Entry>, voter: Voter) returns (final: State, rounds: nat)
    requires |entries| >= 2 && Distinct(entries)
    ensures Play(Start(entries), voter, rounds) == Some(final)
    ensures rounds == |entries| - 1
    ensures final.vote.None? && final.entries.None? && final.winner.Some?
    ensures final.winner.value in entries
  {
    var s := Start(entries);
    StartIsFresh(entries);
    rounds := 0;
    while s.vote.Some?
      invariant Play(Start(entries), voter, rounds) == Some(s)
      invariant s.vote.Some? ==>
        FreshRound(s, entries) && |Contestants(s)| == |entries| - rounds >= 2
      invariant s.vote.None? ==>
        && s.entries.None? && s.winner.Some?
        && s.winner.value in entries
        && rounds == |entries| - 1
      decreases |Contestants(s)|
    {
      PlayRoundDecisive(s, voter, entries);
      s := PlayRound(s, voter).value;
      rounds := rounds + 1;
    }
    final := s;
  }
}
