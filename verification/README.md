# Tournament voting engine — Dafny model

A model of the state engine of a pairwise, single-elimination voting
server, and of the action dispatcher that drives it.

The snapshot is `{entries, vote?, winner?}`:

- `entries` is the queue of contestants waiting for a match.
- `vote` is the active round: its round number, its pair, a tally per entry and each voter's recorded choice.
- `winner` is set once one contestant remains.

The engine has four pure transitions:

- `setEntries` seeds the queue.
- `next` resolves the current pair. A strictly higher tally wins alone; a tie sends both members on. It appends the winners to the tail of the queue, then either declares the single remaining contestant the winner or opens the next round on the front two of the queue.
- `vote` applies one voter's ballot to the active round. It first withdraws the voter's earlier choice, then records the new one if it names a member of the pair.
- `resetVoting` reseeds the queue from the initial entries and opens round 1 at once.

The dispatcher maps `SET_ENTRIES`, `NEXT` and `VOTE` to these transitions.
It leaves the snapshot unchanged for every other action type (`Reducer.Unhandled`).

Modules:

- `Wrappers` (wrappers.dfy): `Option`.
- `Core` (core.dfy): the data model and the four transitions.
- `TallyProperties` (tally.dfy): the ballot properties.
- `RoundProperties` (rounds.dfy): the round-advance properties.
- `Reducer` (reducer.dfy): the dispatcher, replay of action sequences and the reachable-state invariant.
- `Tournament` (tournament.dfy): a complete tournament played through the dispatcher.
- `Scenarios` (examples.dfy): the documented example snapshots.

Representation choices:

- Immutable.js maps and lists become Dafny `seq`, `map` and `Option`, compared structurally.
- An absent `tally` or `votes` map inside a round is the empty map.
- A vote's `entry` is an `Option<Entry>`; `None` stands for an undefined entry.
- Entry ids are non-empty strings (the subset type `Entry`). So "the voter has a recorded choice" (`if (prevVote)`, src/core.js:42) is exactly "the voter's key is present".

Behaviour of the code worth knowing, as the model states it:

- `winner` is not exclusive with an active round. `next` merges a new round into the snapshot without removing `winner` (src/core.js:28-34). A snapshot reseeded with `SET_ENTRIES` after a finished tournament and then advanced with `NEXT` therefore carries both an active round and the old winner; `RoundProperties.StaleWinnerSurvivesNext` states this for every such snapshot.
- `resetVoting` opens round 1 only when there are at least two initial entries. With exactly one initial entry it goes straight to the terminal state with that entry as winner. `Core.ResetVoting` states both cases.
- `resetVoting` ignores its arguments `(voteState, clientId)` and reads the entries from a file. `Core.ResetVoting` takes only the initial entries.
- Distinct entries guarantee that no pair names one contestant twice, which is what `Tournament.PlayEndsAfterNMinusOneRounds` and `Tournament.PlayOut` need. With duplicate entries a self pair can arise. A self pair always ties (`RoundProperties.SelfPairNeverDecisive`), so such a tournament may never end (for example from the entries `[A, A]`).

## Model

| member | source | states |
|---|---|---|
| Core.Winners | src/core.js:5-13 | no active round gives no winners; missing tallies count as 0; a strictly higher tally wins alone; a tie returns both members in pair order; an active round yields one or two winners |
| Core.SetEntries | src/core.js:15-17 | the queue becomes exactly the given sequence; the active round and winner are unchanged |
| Core.Merged | src/core.js:20-21 | the queue with the winners appended is non-empty whenever the snapshot can advance |
| Core.Next | src/core.js:19-37 | terminal iff the merged queue has one member, and then only `winner` (that member) remains; otherwise round = previous round (0 if none) + 1, pair = first two of the merged queue, queue = the rest, so pair followed by queue equals the merged queue (old queue followed by the winners); tally and record emptied; `winner` kept |
| Core.RemoveVote | src/core.js:39-50 | the voter's record is gone and no other voter's record changes; the withdrawn choice's tally drops by one and keeps its key; no other tally changes |
| Core.AddVote | src/core.js:52-61 | for an entry in the pair, records the voter's choice and raises that entry's tally by one (from 0 if missing); for any other entry the round is unchanged |
| Core.Vote | src/core.js:63-69 | round and pair unchanged; the voter ends with a record iff the entry is in the pair, and the record names that entry; every other voter's record is unchanged |
| Core.ResetVoting | src/core.js:71-75 | whatever came before: with two or more initial entries, round 1 on the first two, the rest queued, and no winner; with one entry, that entry is the winner |
| TallyProperties.ConsistentIsSafe | src/core.js:39-46 | when the tally agrees with the record, a withdrawn choice always has a tally to decrement |
| TallyProperties.VotePreservesWellFormed | src/core.js:39-69 | after any ballot, the tally of each entry equals the number of voters whose recorded choice is that entry, and tallies and choices stay within the pair |
| TallyProperties.VoteIdempotent | src/core.js:63-69 | casting the same (entry, voter) ballot twice equals casting it once |
| TallyProperties.VoteChangeMovesOneCount | src/core.js:39-61 | a voter switching to the other member moves exactly one count from the old choice to the new one; all other tallies unchanged; the record now names the new choice |
| TallyProperties.InvalidVoteOnlyWithdraws | src/core.js:52-60 | a ballot for an entry outside the pair (or undefined) creates no tally key and records nothing; it only removes the voter's record and no tally rises; with no prior record the round is unchanged |
| RoundProperties.WinnersHoldHighestTally | src/core.js:5-13 | the winners are exactly the pair members holding the highest tally; there is one winner iff the tallies differ |
| RoundProperties.SelfPairNeverDecisive | src/core.js:7-12 | a pair naming one contestant twice always ties and sends that contestant on twice |
| RoundProperties.NextContestantCount | src/core.js:20-33 | when a round opens, the live contestants fall by exactly one after a decisive round and by none after a tie or on the first advance; the new contestants are a sub-multiset of the old |
| RoundProperties.WinnerIsContestant | src/core.js:20-26 | the declared winner is one of the live contestants |
| RoundProperties.NextPreservesWellFormed | src/core.js:28-34 | a newly opened round is well formed (empty tally agrees with empty record) and numbered one above the previous round, at least 1 |
| RoundProperties.StaleWinnerSurvivesNext | src/core.js:28-34 | for every snapshot that holds a winner and opens a new round, the result has both the active round and that same winner |
| Reducer.Reduce | src/reducer.js:3-16 | a missing snapshot means the empty one; `SET_ENTRIES` is exactly `setEntries`; `NEXT` is exactly `next`; `VOTE` replaces only the active round with the ballot's result and leaves queue and winner untouched; any other action type returns the snapshot unchanged |
| Reducer.BallotAccepted | src/reducer.js:11-13 | on a well-formed snapshot with an active round, a `VOTE` never meets the missing-tally path |
| Reducer.ReducePreservesWellFormed | src/reducer.js:6-15 | every dispatch step keeps the snapshot well formed, including the tally-equals-record-count invariant |
| Reducer.ReplayPreservesWellFormed | src/reducer.js:3-16 | every snapshot reached by a sequence of dispatched actions from a well-formed snapshot is well formed |
| Reducer.ResetVotingIgnored | src/reducer.js:6-15 | `RESET_VOTING` has no case in the dispatcher and returns the snapshot unchanged |
| Tournament.PlayRoundDecisive | src/core.js:20-34 | one round of play through the dispatcher (a ballot for the front member, then `NEXT`) on a fresh round of distinct contestants is decisive: with two left it declares a winner from the entries, otherwise it opens a fresh round on one contestant fewer, still distinct |
| Tournament.PlayProgress | src/core.js:19-37 | after k < N−1 rounds of play from N distinct entries the tournament is still open, on a fresh round of N−k contestants |
| Tournament.PlayEndsAfterNMinusOneRounds | src/core.js:19-37 | from N ≥ 2 distinct entries, with one ballot per round for the front member of the pair, play through the dispatcher is still open after each of the first N−2 rounds and after exactly N−1 rounds holds only a winner drawn from the entries |
| Tournament.PlayOut | src/core.js:19-37 | the round-by-round play returns the dispatcher-driven play's snapshot after exactly N−1 rounds: no round, no queue and a winner drawn from the entries |
| Scenarios.SeedingAddsEntries | test/core_spec.js:10-18 | seeding the empty snapshot yields exactly the queue |
| Scenarios.FirstAdvanceTakesFrontPair | test/core_spec.js:24-37 | the first advance opens round 1 on the front two entries |
| Scenarios.WinnerGoesToTail | test/core_spec.js:39-60 | the round's winner goes to the tail and round 2 opens on the next pair |
| Scenarios.TieSendsBothToTail | test/core_spec.js:62-83 | a tie sends both members to the tail in pair order |
| Scenarios.LastEntryIsWinner | test/core_spec.js:85-102 | with an empty queue, a decisive round leaves only the winner |
| Scenarios.FirstBallotCreatesTally | test/core_spec.js:108-125 | the first ballot creates the tally and the record |
| Scenarios.BallotAddsToExistingTally | test/core_spec.js:127-161 | a new voter's ballot adds one to an existing tally |
| Scenarios.UndefinedEntryIgnored | test/core_spec.js:163-175 | a ballot with no entry leaves a fresh round unchanged |
| Scenarios.ResetStartsRoundOne | test/core_spec.js:180-202 | a reset opens round 1 on the first two initial entries |

## Left out

- index.js: store creation, server start-up and console logging are process bootstrap and I/O.
- The read of the initial entries file in `resetVoting` (src/core.js:72) is I/O. The entries become the parameter of `Core.ResetVoting`.
- Immutable.js structural sharing and `merge` are replaced by values with structural equality. An absent inner `tally`/`votes` map and an empty one are the same value in the model, although Immutable.js equality tells them apart.
- Crash and garbage paths of the source are preconditions (`Core.CanAdvance`, `Core.VoteSafe`, `Core.ResetVoting`, `Reducer.Accepts`):
  - `next` on a snapshot without `entries` crashes.
  - `next` whose merged queue is empty would open a round on an empty pair.
  - `resetVoting` with no initial entries reaches that same empty-pair path, so `Core.ResetVoting` requires at least one entry.
  - `VOTE` with no active round calls `getIn` on undefined.
  - Withdrawing a choice that has no tally computes `undefined - 1`.
- JavaScript truthiness of `prevVote` is not modelled beyond key presence, because entry ids are non-empty.
- An undefined `clientId` is not modelled: voters are strings.
- An active round without a `round` field cannot arise from these transitions, so the round number is always present. The default of 0 applies only when no round is active.
- Tallies and round numbers are unbounded integers. JavaScript numbers are exact far beyond any reachable count.
- Nothing concurrent is modelled. The dispatcher's caller serialises actions.
