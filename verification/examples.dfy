/**
 The engine's documented scenarios, stated on the model: each lemma fixes
 one input snapshot and states the expected output snapshot.
 */
module Scenarios {
  import opened Wrappers
  import opened Core

  const T: Entry := "Trainspotting"
  const D: Entry := "28 Days Later"

  lemma SeedingAddsEntries()
    ensures SetEntries(InitialState, [T, D]) == State(Some([T, D]), None, None)
  {
  }

  lemma FirstAdvanceTakesFrontPair()
    ensures Next(State(Some([T, D, "Sunshine"]), None, None))
         == State(Some(["Sunshine"]), Some(VoteRound(1, Pair(T, D), map[], map[])), None)
  {
    assert Merged(State(Some([T, D, "Sunshine"]), None, None)) == [T, D, "Sunshine"];
  }

  lemma WinnerGoesToTail()
    ensures Next(State(Some(["Sunshine", "Millions", "127 Hours"]),
                       Some(VoteRound(1, Pair(T, D), map[T := 4, D := 2], map[])), None))
         == State(Some(["127 Hours", T]),
                  Some(VoteRound(2, Pair("Sunshine", "Millions"), map[], map[])), None)
  {
    var s := State(Some(["Sunshine", "Millions", "127 Hours"]),
                   Some(VoteRound(1, Pair(T, D), map[T := 4, D := 2], map[])), None);
    assert Merged(s) == ["Sunshine", "Millions", "127 Hours", T];
  }

  lemma TieSendsBothToTail()
    ensures Next(State(Some(["Sunshine", "Millions", "127 Hours"]),
                       Some(VoteRound(10, Pair(T, D), map[T := 3, D := 3], map[])), None))
         == State(Some(["127 Hours", T, D]),
                  Some(VoteRound(11, Pair("Sunshine", "Millions"), map[], map[])), None)
  {
    var s := State(Some(["Sunshine", "Millions", "127 Hours"]),
                   Some(VoteRound(10, Pair(T, D), map[T := 3, D := 3], map[])), None);
    assert Merged(s) == ["Sunshine", "Millions", "127 Hours", T, D];
  }

  lemma LastEntryIsWinner()
    ensures Next(State(Some([]), Some(VoteRound(1024, Pair(T, D), map[T := 4, D := 2], map[])), None))
         == State(None, None, Some(T))
  {
  }

  lemma FirstBallotCreatesTally()
    ensures Vote(VoteRound(1, Pair(T, D), map[], map[]), Some(T), "clientId1")
         == VoteRound(1, Pair(T, D), map[T := 1], map["clientId1" := T])
  {
  }

  lemma BallotAddsToExistingTally()
    ensures Vote(VoteRound(1, Pair(T, D), map[T := 3, D := 2],
                           map["client1" := T, "client2" := T, "client3" := T,
                               "client4" := D, "client5" := D]),
                 Some(T), "client6")
         == VoteRound(1, Pair(T, D), map[T := 4, D := 2],
                      map["client1" := T, "client2" := T, "client3" := T,
                          "client4" := D, "client5" := D, "client6" := T])
  {
  }

  lemma UndefinedEntryIgnored(c: Voter)
    ensures Vote(VoteRound(1, Pair(T, D), map[], map[]), None, c)
         == VoteRound(1, Pair(T, D), map[], map[])
  {
  }

  lemma ResetStartsRoundOne()
    ensures ResetVoting(["BigHero6", "SantaClauze", "Zootopia", "Kingdom", "Trolls", "Lala Land"])
         == State(Some(["Zootopia", "Kingdom", "Trolls", "Lala Land"]),
                  Some(VoteRound(1, Pair("BigHero6", "SantaClauze"), map[], map[])), None)
  {
  }
}
