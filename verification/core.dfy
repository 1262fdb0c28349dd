/**
 The tournament state engine: four pure transitions over an immutable
 snapshot `{entries, vote?, winner?}`.

 A snapshot holds the queue of contestants still waiting for a match, the
 active round (two contestants, their tallies and each voter's recorded
 choice) and, once the tournament is over, the single winner.
 */
module Core {
  import opened Wrappers

  /** A contestant id. Ids are non-empty, so "the voter has a recorded
      choice" is the same as "the voter's key is present". */
  type Entry = s: string | s != [] witness "?"

  /** A client (session) id. */
  type Voter = string

  /** The two contestants of the active round, in queue order. */
  datatype Pair = Pair(a: Entry, b: Entry) {

    predicate Contains(e: Entry) {
      e == a || e == b
    }

    function Members(): seq<Entry> {
      [a, b]
    }
  }

  /** The active round. An absent `tally` or `votes` map is the empty map. */
  datatype VoteRound = VoteRound(
    round: int,
    pair: Pair,
    tally: map<Entry, int>,
    votes: map<Voter, Entry>)

  datatype State = State(
    entries: Option<seq<Entry>>,
    vote: Option<VoteRound>,
    winner: Option<Entry>)

  /** The empty snapshot the dispatcher starts from. */
  const InitialState: State := State(None, None, None)

  /** A missing tally counts as zero. */
  function TallyOf(tally: map<Entry, int>, e: Entry): int {
    if e in tally then tally[e] else 0
  }

  /** The number of voters whose recorded choice is `e`. */
  function CountVotes(votes: map<Voter, Entry>, e: Entry): nat {
    |set c | c in votes && votes[c] == e|
  }

  /** The tally agrees with the per-voter record. */
  ghost predicate TallyConsistent(v: VoteRound) {
    forall e :: TallyOf(v.tally, e) == CountVotes(v.votes, e)
  }

  /** The invariant every round built by `Next` and `Vote` keeps. */
  ghost predicate WellFormedRound(v: VoteRound) {
    && v.round >= 1
    && TallyConsistent(v)
    && (forall e :: e in v.tally ==> v.pair.Contains(e))
    && (forall c :: c in v.votes ==> v.pair.Contains(v.votes[c]))
  }

  ghost predicate WellFormed(s: State) {
    s.vote.Some? ==> WellFormedRound(s.vote.value)
  }

  /** The live contestants in queue order: the active pair, then the queue. */
  function Contestants(s: State): seq<Entry> {
    (if s.vote.Some? then s.vote.value.pair.Members() else []) + s.entries.GetOr([])
  }

  /** A round whose tallies differ sends exactly one contestant on. */
  predicate Decisive(v: VoteRound) {
    TallyOf(v.tally, v.pair.a) != TallyOf(v.tally, v.pair.b)
  }

  /** The winner resolution rule: with no active round there are no
      winners; a strictly higher tally wins alone; a tie (missing tallies
      count as zero) carries both members back, in pair order. */
  function Winners(vote: Option<VoteRound>): (r: seq<Entry>)
    ensures vote.None? ==> r == []
    ensures vote.Some? ==> 1 <= |r| <= 2
    ensures vote.Some? ==>
      var v := vote.value;
      var ta := TallyOf(v.tally, v.pair.a);
      var tb := TallyOf(v.tally, v.pair.b);
      && (ta > tb ==> r == [v.pair.a])
      && (tb > ta ==> r == [v.pair.b])
      && (ta == tb ==> r == v.pair.Members())
  {
    match vote
    case None => []
    case Some(v) =>
      var ta := TallyOf(v.tally, v.pair.a);
      var tb := TallyOf(v.tally, v.pair.b);
      if ta > tb then [v.pair.a]
      else if ta < tb then [v.pair.b]
      else [v.pair.a, v.pair.b]
  }

  /** Seeds the queue; nothing else changes. */
  function SetEntries(s: State, entries: seq<Entry>): (r: State)
    ensures r.entries == Some(entries)
    ensures r.vote == s.vote && r.winner == s.winner
  {
    s.(entries := Some(entries))
  }

  /** The source crashes on a snapshot without a queue, and builds an
      empty pair from an empty merged queue; both are excluded here. */
  predicate CanAdvance(s: State) {
    s.entries.Some? && (s.entries.value != [] || s.vote.Some?)
  }

  /** The queue after the current round's winners are appended to its tail. */
  function Merged(s: State): (m: seq<Entry>)
    requires s.entries.Some?
    ensures CanAdvance(s) ==> |m| >= 1
  {
    s.entries.value + Winners(s.vote)
  }

  /** The round number of the previous round; zero when none is active. */
  function PreviousRound(s: State): int {
    match s.vote
    case None => 0
    case Some(v) => v.round
  }

  /** Resolves the active round, re-queues its winners, and then either
      declares the single remaining contestant the winner or opens the next
      round on the front two of the merged queue. */
  function Next(s: State): (r: State)
    requires CanAdvance(s)
    ensures r.vote.None? <==> |Merged(s)| == 1
    ensures r.vote.None? ==> r == State(None, None, Some(Merged(s)[0]))
    ensures r.vote.Some? ==>
      && r.vote.value.pair == Pair(Merged(s)[0], Merged(s)[1])
      && r.entries == Some(Merged(s)[2..])
      && Contestants(r) == Merged(s)
      && r.vote.value.round == PreviousRound(s) + 1
      && r.vote.value.tally == map[]
      && r.vote.value.votes == map[]
      && r.winner == s.winner
  {
    var m := Merged(s);
    if |m| == 1 then
      State(None, None, Some(m[0]))
    else
      State(Some(m[2..]), Some(VoteRound(PreviousRound(s) + 1, Pair(m[0], m[1]), map[], map[])), s.winner)
  }

  /** `e` is a member of the round's pair (an undefined entry never is). */
  predicate ValidChoice(p: Pair, e: Option<Entry>) {
    e.Some? && p.Contains(e.value)
  }

  /** The source decrements the prior choice's tally without a default;
      a recorded choice with no tally would yield NaN, so it is excluded. */
  predicate VoteSafe(v: VoteRound, c: Voter) {
    c in v.votes ==> v.votes[c] in v.tally
  }

  /** Withdraws the voter's recorded choice, if any. The tally key of the
      withdrawn choice stays, one lower. */
  function RemoveVote(v: VoteRound, c: Voter): (r: VoteRound)
    requires VoteSafe(v, c)
    ensures r.round == v.round && r.pair == v.pair
    ensures c !in r.votes
    ensures forall c' :: c' != c ==> (c' in r.votes <==> c' in v.votes)
    ensures forall c' :: c' in r.votes ==> r.votes[c'] == v.votes[c']
    ensures r.tally.Keys == v.tally.Keys
    ensures forall e ::
      TallyOf(r.tally, e) == TallyOf(v.tally, e) - (if c in v.votes && v.votes[c] == e then 1 else 0)
  {
    if c in v.votes then
      var prev := v.votes[c];
      v.(tally := v.tally[prev := v.tally[prev] - 1], votes := v.votes - {c})
    else
      v
  }

  /** Records `e` as the voter's choice when it is a member of the pair,
      counting it in the tally; otherwise changes nothing. */
  function AddVote(v: VoteRound, e: Option<Entry>, c: Voter): (r: VoteRound)
    ensures r.round == v.round && r.pair == v.pair
    ensures !ValidChoice(v.pair, e) ==> r == v
    ensures ValidChoice(v.pair, e) ==>
      && r.votes == v.votes[c := e.value]
      && r.tally.Keys == v.tally.Keys + {e.value}
      && (forall x :: TallyOf(r.tally, x) == TallyOf(v.tally, x) + (if x == e.value then 1 else 0))
  {
    if ValidChoice(v.pair, e) then
      var x := e.value;
      v.(tally := v.tally[x := TallyOf(v.tally, x) + 1], votes := v.votes[c := x])
    else
      v
  }

  /** Applies one ballot: the voter's previous choice is withdrawn, then the
      new one is recorded if it names a member of the pair. */
  function Vote(v: VoteRound, e: Option<Entry>, c: Voter): (r: VoteRound)
    requires VoteSafe(v, c)
    ensures r.round == v.round && r.pair == v.pair
    ensures c in r.votes <==> ValidChoice(v.pair, e)
    ensures c in r.votes ==> r.votes[c] == e.value
    ensures forall c' :: c' != c ==> (c' in r.votes <==> c' in v.votes)
    ensures forall c' :: c' != c && c' in r.votes ==> r.votes[c'] == v.votes[c']
    ensures VoteSafe(r, c)
  {
    AddVote(RemoveVote(v, c), e, c)
  }

  /** Restarts the tournament from `initial`, whatever the prior snapshot:
      the queue is reseeded and round 1 opens at once. */
  function ResetVoting(initial: seq<Entry>): (r: State)
    requires |initial| >= 1
    ensures |initial| == 1 ==> r == State(None, None, Some(initial[0]))
    ensures |initial| >= 2 ==>
      && r.vote == Some(VoteRound(1, Pair(initial[0], initial[1]), map[], map[]))
      && r.entries == Some(initial[2..])
      && r.winner == None
  {
    var seeded := SetEntries(InitialState, initial).(winner := None);
    assert Merged(seeded) == initial + [] == initial;
    Next(seeded)
  }
}
