/**
 Properties of round advance (`Next`): the winner rule read as "the
 members with the highest tally", conservation of contestants, the count
 falling by one on a decisive round, and the well-formedness of new rounds.
 */
module RoundProperties {
  import opened Wrappers
  import opened Core

  function Max(x: int, y: int): int {
    if x >= y then x else y
  }

  /** The winners are exactly the pair members holding the highest tally;
      there is a single winner precisely when the round is decisive. */
  lemma WinnersHoldHighestTally(v: VoteRound, x: Entry)
    ensures var w := Winners(Some(v));
      var top := Max(TallyOf(v.tally, v.pair.a), TallyOf(v.tally, v.pair.b));
      && (x in w <==> v.pair.Contains(x) && TallyOf(v.tally, x) == top)
      && (|w| == 1 <==> Decisive(v))
  {
  }

  /** Both members of a pair that names one contestant twice always tie. */
  lemma SelfPairNeverDecisive(v: VoteRound)
    requires v.pair.a == v.pair.b
    ensures !Decisive(v) && Winners(Some(v)) == [v.pair.a, v.pair.a]
  {
  }

  /** When a round opens, the live contestants are the old queue followed by
      the winners: a decisive round removes exactly one contestant, a tie
      none, and the first advance (no active round) none; nobody new
      appears. */
  lemma NextContestantCount(s: State)
    requires CanAdvance(s) && Next(s).vote.Some?
    ensures |Contestants(Next(s))| ==
      |Contestants(s)| - (if s.vote.Some? && Decisive(s.vote.value) then 1 else 0)
    ensures multiset(Contestants(Next(s))) <= multiset(Contestants(s))
  {
  }

  /** The declared winner is one of the live contestants. */
  lemma WinnerIsContestant(s: State)
    requires CanAdvance(s) && Next(s).vote.None?
    ensures Next(s).winner.Some? && Next(s).winner.value in Contestants(s)
  {
  }

  /** A newly opened round is well formed: empty tally and record, and a
      round number one above the previous (at least 1). */
  lemma NextPreservesWellFormed(s: State)
    requires CanAdvance(s) && WellFormed(s)
    ensures WellFormed(Next(s))
    ensures Next(s).vote.Some? ==> Next(s).vote.value.round == PreviousRound(s) + 1 >= 1
  {
  }

  /** `next` keeps a stale `winner`: its round-opening branch only merges
      the new round and queue into the snapshot, so a snapshot that holds a
      winner (one re-seeded after a finished tournament, say) ends up with
      an active round and a winner at once. */
  lemma StaleWinnerSurvivesNext(s: State)
    requires CanAdvance(s) && s.winner.Some? && |Merged(s)| != 1
    ensures Next(s).vote.Some? && Next(s).winner == s.winner
  {
  }
}
