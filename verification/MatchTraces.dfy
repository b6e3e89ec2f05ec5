/** The attempts of one match as values: two games each, with the agents taking turns to start. */
module MatchTraces {
  import opened Text
  import opened Database
  import opened GameTraces
  import opened Scoring

  const MAX_ATTEMPTS: nat := 6

  datatype Attempt = Attempt(game1: GameTrace, game2: GameTrace)

  ghost predicate Played(at: Attempt, a: int, b: int, kinds: map<int, AgentType>)
    requires kinds.Keys == {a, b}
  {
    && at.game1.first == a && at.game1.second == b && Finished(at.game1, kinds)
    && at.game2.first == b && at.game2.second == a && Finished(at.game2, kinds)
  }

  function Points(winner1: Option<int>, winner2: Option<int>, agent: int): nat {
    (if winner1 == Some(agent) then 1 else 0) + (if winner2 == Some(agent) then 1 else 0)
  }

  ghost function Wins(at: Attempt, agent: int): nat {
    Points(Winner(at.game1), Winner(at.game2), agent)
  }

  /** An agent's samples across both games of one attempt. */
  function Samples(at: Attempt, agent: int): seq<int> {
    SamplesOf(at.game1.first, at.game1.second, at.game1.plays, agent) +
    SamplesOf(at.game2.first, at.game2.second, at.game2.plays, agent)
  }

  function SideAgent(side: Option<Side>, a: int, b: int): Option<int> {
    match side
    case None => None
    case Some(SideA) => Some(a)
    case Some(SideB) => Some(b)
  }

  ghost function Outcome(at: Attempt, a: int, b: int): Option<int> {
    SideAgent(Decision(Wins(at, a), Wins(at, b), Samples(at, a), Samples(at, b)), a, b)
  }

  /** The outcome names exactly the agent that has more wins, or as many and the lower average time. */
  lemma OutcomeMeaning(at: Attempt, a: int, b: int)
    requires a != b && Bounded(Samples(at, a)) && Bounded(Samples(at, b))
    ensures Outcome(at, a, b) == Some(a) <==> Better(Wins(at, a), Wins(at, b), Samples(at, a), Samples(at, b))
    ensures Outcome(at, a, b) == Some(b) <==> Better(Wins(at, b), Wins(at, a), Samples(at, b), Samples(at, a))
    ensures Outcome(at, a, b) in {None, Some(a), Some(b)}
  {
    hide Bounded, Decision, Verdict, Better, Wins, Samples;
    DecisionIsVerdict(Wins(at, a), Wins(at, b), Samples(at, a), Samples(at, b));
    VerdictMeaning(Wins(at, a), Wins(at, b), Samples(at, a), Samples(at, b));
  }

  ghost function AfterAttempt(t: Tables, matchID: int, at: Attempt, attempt: int): Tables {
    AfterGame(AfterGame(t, matchID, at.game1, attempt, 1), matchID, at.game2, attempt, 2)
  }

  ghost function AfterAttempts(t: Tables, matchID: int, attempts: seq<Attempt>): Tables {
    if attempts == [] then t
    else
      var n := |attempts| - 1;
      AfterAttempt(AfterAttempts(t, matchID, attempts[..n]), matchID, attempts[n], n)
  }

  /** The two runners are announced in some order, and then the attempts are played. */
  ghost function AfterMatch(t: Tables, matchID: int, order: seq<int>, attempts: seq<Attempt>): Tables
    requires |order| == 2
  {
    var started := Appended(t.events, matchID, None, [BotStarted(order[0]), BotStarted(order[1])]);
    AfterAttempts(t.(events := started), matchID, attempts)
  }

  /** The last event of a match that was played to its end. */
  ghost function Completion(t: Tables, matchID: int, winner: Option<int>): Tables {
    t.(events := Appended(t.events, matchID, None, [MatchCompleted(winner)]))
  }

  // ----- the running tallies of an attempt -----

  function AddWin(wins: map<int, nat>, winner: Option<int>): map<int, nat>
    requires winner.Some? ==> winner.value in wins
  {
    if winner == None then wins else wins[winner.value := wins[winner.value] + 1]
  }

  lemma WinnerIsPlayer(tr: GameTrace)
    ensures Winner(tr) in {None, Some(tr.first), Some(tr.second)}
  {
  }

  lemma TallyOfTwo(winner1: Option<int>, winner2: Option<int>, a: int, b: int)
    requires a != b
    requires winner1 in {None, Some(a), Some(b)} && winner2 in {None, Some(a), Some(b)}
    ensures var zero: map<int, nat> := map[a := 0, b := 0];
            AddWin(AddWin(zero, winner1), winner2) ==
            map[a := Points(winner1, winner2, a), b := Points(winner1, winner2, b)]
  {
  }

  lemma SamplesOfTwo(at: Attempt, a: int, b: int, s1: map<int, seq<int>>, s2: map<int, seq<int>>)
    requires Sampled(map[a := [], b := []], s1, at.game1.first, at.game1.second, at.game1.plays)
    requires Sampled(s1, s2, at.game2.first, at.game2.second, at.game2.plays)
    ensures s2.Keys == {a, b} && s2[a] == Samples(at, a) && s2[b] == Samples(at, b)
  {
  }

  // ----- several attempts -----

  ghost predicate PlayedAt(attempts: seq<Attempt>, i: nat, a: int, b: int, kinds: map<int, AgentType>)
    requires kinds.Keys == {a, b} && i < |attempts|
  {
    Played(attempts[i], a, b, kinds)
  }

  ghost predicate AllPlayed(attempts: seq<Attempt>, a: int, b: int, kinds: map<int, AgentType>)
    requires kinds.Keys == {a, b}
  {
    forall i {:trigger PlayedAt(attempts, i, a, b, kinds)} :: 0 <= i < |attempts| ==> PlayedAt(attempts, i, a, b, kinds)
  }

  ghost predicate TiedAt(attempts: seq<Attempt>, i: nat, a: int, b: int)
    requires i < |attempts|
  {
    Outcome(attempts[i], a, b) == None
  }

  /** The first `n` attempts had no winner. */
  ghost predicate Tied(attempts: seq<Attempt>, n: nat, a: int, b: int)
    requires n <= |attempts|
  {
    forall i {:trigger TiedAt(attempts, i, a, b)} :: 0 <= i < n ==> TiedAt(attempts, i, a, b)
  }

  /** The result of a list of attempts that were made one after the other. */
  ghost predicate Decisive(attempts: seq<Attempt>, a: int, b: int, winner: Option<int>) {
    && 1 <= |attempts| <= 6
    && Tied(attempts, |attempts| - 1, a, b) && winner == Outcome(attempts[|attempts| - 1], a, b)
    && (winner == None ==> |attempts| == 6)
  }

  lemma AttemptsSnoc(attempts: seq<Attempt>, at: Attempt, a: int, b: int, kinds: map<int, AgentType>)
    requires kinds.Keys == {a, b} && AllPlayed(attempts, a, b, kinds) && Played(at, a, b, kinds)
    requires Tied(attempts, |attempts|, a, b)
    ensures AllPlayed(attempts + [at], a, b, kinds) && Tied(attempts + [at], |attempts|, a, b)
    ensures Outcome(at, a, b) == None ==> Tied(attempts + [at], |attempts| + 1, a, b)
  {
    forall i: nat | i < |attempts|
      ensures PlayedAt(attempts + [at], i, a, b, kinds) && TiedAt(attempts + [at], i, a, b)
    {
      assert PlayedAt(attempts, i, a, b, kinds) && TiedAt(attempts, i, a, b);
    }
  }

  lemma AfterAttemptsSnoc(t: Tables, matchID: int, attempts: seq<Attempt>, at: Attempt)
    ensures AfterAttempts(t, matchID, attempts + [at]) ==
            AfterAttempt(AfterAttempts(t, matchID, attempts), matchID, at, |attempts|)
  {
    assert (attempts + [at])[..|attempts|] == attempts;
  }
}
