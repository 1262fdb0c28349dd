/**
 The action dispatcher: maps a tagged action to one engine transition and
 returns the new snapshot. A missing snapshot means the empty one.
 */
module Reducer {
  import opened Wrappers
  import opened Core
  import TallyProperties
  import RoundProperties

  /** An action type the dispatcher has no case for, `RESET_VOTING` among them. */
  type Unhandled = k: string | k != "SET_ENTRIES" && k != "NEXT" && k != "VOTE" witness "RESET_VOTING"

  /** The tagged actions. Any type the dispatcher has no case for arrives
      as `OtherAction`. */
  datatype Action =
    | SetEntriesAction(entries: seq<Entry>)
    | NextAction
    | VoteAction(entry: Option<Entry>, clientId: Voter)
    | OtherAction(kind: Unhandled)

  /** The snapshots on which the dispatcher does not crash: advancing needs
      a queue and a non-empty merged queue, and a ballot needs an active
      round whose voter's recorded choice has a tally. */
  predicate Accepts(s: State, action: Action) {
    match action
    case NextAction => CanAdvance(s)
    case VoteAction(_, c) => s.vote.Some? && VoteSafe(s.vote.value, c)
    case _ => true
  }

  /** One dispatch step. `SET_ENTRIES` and `NEXT` are exactly the engine
      transitions; `VOTE` rewrites only the active round; every other
      action type leaves the snapshot as it is. */
  function Reduce(state: Option<State>, action: Action): (r: State)
    requires Accepts(state.GetOr(InitialState), action)
    ensures var s := state.GetOr(InitialState);
      && (action.SetEntriesAction? ==> r == SetEntries(s, action.entries))
      && (action.NextAction? ==> r == Next(s))
      && (action.VoteAction? ==>
            && r.entries == s.entries
            && r.winner == s.winner
            && r.vote == Some(Vote(s.vote.value, action.entry, action.clientId)))
      && (action.OtherAction? ==> r == s)
  {
    var s := state.GetOr(InitialState);
    match action
    case SetEntriesAction(entries) => SetEntries(s, entries)
    case NextAction => Next(s)
    case VoteAction(e, c) => s.(vote := Some(Vote(s.vote.value, e, c)))
    case OtherAction(_) => s
  }

  /** Applies the actions in order from `s`; `None` when the dispatcher
      would crash on one of them or take a path excluded by `Accepts`. */
  function Replay(s: State, actions: seq<Action>): Option<State>
    decreases |actions|
  {
    if actions == [] then Some(s)
    else if !Accepts(s, actions[0]) then None
    else Replay(Reduce(Some(s), actions[0]), actions[1..])
  }

  /** On a well-formed snapshot a ballot never crashes as long as a round
      is active. */
  lemma BallotAccepted(s: State, e: Option<Entry>, c: Voter)
    requires WellFormed(s) && s.vote.Some?
    ensures Accepts(s, VoteAction(e, c))
  {
    TallyProperties.ConsistentIsSafe(s.vote.value, c);
  }

  /** Every dispatch step keeps the snapshot well formed: in particular the
      tally of the active round equals the count of recorded choices. */
  lemma ReducePreservesWellFormed(s: State, action: Action)
    requires WellFormed(s) && Accepts(s, action)
    ensures WellFormed(Reduce(Some(s), action))
  {
    match action
    case SetEntriesAction(_) =>
    case NextAction => RoundProperties.NextPreservesWellFormed(s);
    case VoteAction(e, c) => TallyProperties.VotePreservesWellFormed(s.vote.value, e, c);
    case OtherAction(_) =>
  }

  /** Every snapshot the dispatcher reaches from a well-formed one (the
      empty initial snapshot in particular) is well formed. */
  lemma {:induction false} ReplayPreservesWellFormed(s: State, actions: seq<Action>)
    requires WellFormed(s)
    ensures Replay(s, actions).Some? ==> WellFormed(Replay(s, actions).value)
    decreases |actions|
  {
    if actions != [] && Accepts(s, actions[0]) {
      ReducePreservesWellFormed(s, actions[0]);
      ReplayPreservesWellFormed(Reduce(Some(s), actions[0]), actions[1..]);
    }
  }

  /** `RESET_VOTING` reaches no engine transition through the dispatcher. */
  lemma ResetVotingIgnored(state: Option<State>)
    ensures Reduce(state, OtherAction("RESET_VOTING")) == state.GetOr(InitialState)
  {
  }
}
