/** What the stored records of a match tell about the games that were played. */
module MatchFacts {
  import opened Text
  import opened Grids
  import opened Caro
  import opened CaroRuns
  import opened MoveText
  import opened Database
  import opened GameTraces
  import opened MatchTraces
  import opened Scoring
  import Opponent
  import OpponentTactics

  // ----- the event stream replays the game -----

  /** The moves that a list of events reports as accepted. */
  function AcceptedIn(events: seq<Event>): seq<Position> {
    if events == [] then []
    else
      var last := events[|events| - 1];
      AcceptedIn(events[..|events| - 1]) + (if last.MoveAccepted? then [Position(last.x, last.y)] else [])
  }

  lemma AcceptedSnoc(events: seq<Event>, event: Event)
    ensures AcceptedIn(events + [event]) ==
            AcceptedIn(events) + (if event.MoveAccepted? then [Position(event.x, event.y)] else [])
  {
    assert (events + [event])[..|events|] == events;
  }

  /** If event `k` sends a state, it is the text of a fresh game after replaying the moves accepted before it. */
  ghost predicate FaithfulAt(first: int, second: int, events: seq<Event>, k: nat)
    requires k < |events|
  {
    events[k].StateSent? ==>
      var moves := AcceptedIn(events[..k]);
      && events[k].state == Flatten(Run(Start(first, second), moves).grid)
      && events[k].turn == |moves| + 1 && events[k].agent == Mover(first, second, |moves|)
  }

  ghost predicate Faithful(first: int, second: int, events: seq<Event>) {
    forall k {:trigger FaithfulAt(first, second, events, k)} :: 0 <= k < |events| ==>
      FaithfulAt(first, second, events, k)
  }

  lemma FaithfulSnoc(first: int, second: int, events: seq<Event>, event: Event)
    requires Faithful(first, second, events)
    requires event.StateSent? ==>
               var moves := AcceptedIn(events);
               && event.state == Flatten(Run(Start(first, second), moves).grid)
               && event.turn == |moves| + 1 && event.agent == Mover(first, second, |moves|)
    ensures Faithful(first, second, events + [event])
  {
    forall k: nat | k < |events + [event]| ensures FaithfulAt(first, second, events + [event], k) {
      if k < |events| {
        assert FaithfulAt(first, second, events, k);
        assert (events + [event])[..k] == events[..k];
      } else {
        assert (events + [event])[..k] == events;
      }
    }
  }

  lemma TakesPlay(first: int, second: int, kinds: map<int, AgentType>, plays: seq<Accepted>, i: nat)
    requires first in kinds && second in kinds && Legal(first, second, kinds, plays) && i < |plays|
    ensures Takes(StateAfter(first, second, plays[..i]), Line(plays[i].raw, plays[i].durationMS))
    ensures ParseMove(plays[i].raw) == Some(plays[i].pos)
  {
    assert LegalAt(first, second, kinds, plays, i);
  }

  lemma OutcomeAccepted(s: GameState, number: int, turn: int, agent: int, reply: Reply)
    requires WellFormed(s)
    ensures var event := OutcomeEvent(s, number, turn, agent, reply);
            && !event.StateSent? && (event.MoveAccepted? <==> Takes(s, reply))
            && (event.MoveAccepted? ==> ParseMove(reply.raw) == Some(Position(event.x, event.y)))
  {
  }

  /** One turn keeps the events faithful and adds the taken move, if any, to the accepted ones. */
  lemma TurnIsFaithful(
      first: int, second: int, s: GameState, number: int, turn: int, agent: int, events: seq<Event>, reply: Reply)
    requires WellFormed(s) && Faithful(first, second, events)
    requires s == Run(Start(first, second), AcceptedIn(events))
    requires turn == |AcceptedIn(events)| + 1 && agent == Mover(first, second, |AcceptedIn(events)|)
    ensures var more := TurnEvents(s, number, turn, agent, reply);
            && Faithful(first, second, events + more)
            && AcceptedIn(events + more) ==
               AcceptedIn(events) + (if Takes(s, reply) then [ParseMove(reply.raw).value] else [])
  {
    hide Play, Flatten, ParseMove, OutcomeEvent, Faithful, Mover;
    var sent, outcome := StateSent(number, turn, agent, Flatten(s.grid)), OutcomeEvent(s, number, turn, agent, reply);
    OutcomeAccepted(s, number, turn, agent, reply);
    FaithfulSnoc(first, second, events, sent);
    AcceptedSnoc(events, sent);
    FaithfulSnoc(first, second, events + [sent], outcome);
    AcceptedSnoc(events + [sent], outcome);
    assert events + TurnEvents(s, number, turn, agent, reply) == events + [sent] + [outcome];
  }

  lemma StartIsFaithful(attempt: int, number: int, first: int, second: int)
    ensures var started := [GameStarted(attempt, number, first, second)];
            Faithful(first, second, started) && AcceptedIn(started) == []
  {
    var started := [GameStarted(attempt, number, first, second)];
    assert started[..0] == [];
  }

  lemma PlayEventsUnfold(first: int, second: int, number: int, started: seq<Event>, init: seq<Accepted>, last: Accepted)
    ensures started + PlayEvents(first, second, number, init + [last]) ==
            (started + PlayEvents(first, second, number, init)) +
            TurnEvents(StateAfter(first, second, init), number, |init| + 1, Mover(first, second, |init|),
              Line(last.raw, last.durationMS))
  {
    RecordsSnoc(first, second, number, 0, init, last);
  }

  lemma {:induction false} PlayEventsFaithful(
      first: int, second: int, kinds: map<int, AgentType>, number: int, started: seq<Event>, plays: seq<Accepted>)
    requires first in kinds && second in kinds && Legal(first, second, kinds, plays)
    requires Faithful(first, second, started) && AcceptedIn(started) == []
    ensures Faithful(first, second, started + PlayEvents(first, second, number, plays))
    ensures AcceptedIn(started + PlayEvents(first, second, number, plays)) == Positions(plays)
  {
    hide Faithful, TurnEvents, Takes, Play, Answers, Flatten;
    if plays == [] {
      assert started + [] == started;
    } else {
      var init, last := plays[..|plays| - 1], plays[|plays| - 1];
      assert plays == init + [last];
      LegalSnoc(first, second, kinds, init, last);
      PlayEventsFaithful(first, second, kinds, number, started, init);
      TakesPlay(first, second, kinds, plays, |init|);
      TurnIsFaithful(first, second, StateAfter(first, second, init), number, |init| + 1, Mover(first, second, |init|),
        started + PlayEvents(first, second, number, init), Line(last.raw, last.durationMS));
      PlayEventsUnfold(first, second, number, started, init, last);
      PositionsSnoc(init, last);
    }
  }

  lemma FaultIsFaithful(tr: GameTrace, kinds: map<int, AgentType>, number: int, events: seq<Event>)
    requires tr.first in kinds && tr.second in kinds && Finished(tr, kinds)
    requires Faithful(tr.first, tr.second, events) && AcceptedIn(events) == Positions(tr.plays)
    ensures Faithful(tr.first, tr.second, events + FaultEvents(tr, number))
    ensures AcceptedIn(events + FaultEvents(tr, number)) == Positions(tr.plays)
  {
    if tr.fault.Some? {
      TurnIsFaithful(tr.first, tr.second, StateAfter(tr.first, tr.second, tr.plays), number, |tr.plays| + 1,
        Mover(tr.first, tr.second, |tr.plays|), events, tr.fault.value);
    } else {
      assert events + [] == events;
    }
  }

  lemma EndIsFaithful(first: int, second: int, events: seq<Event>, ended: Event)
    requires Faithful(first, second, events) && ended.GameEnded?
    ensures Faithful(first, second, events + [ended]) && AcceptedIn(events + [ended]) == AcceptedIn(events)
  {
    FaithfulSnoc(first, second, events, ended);
    AcceptedSnoc(events, ended);
  }

  lemma TurnsAreFaithful(tr: GameTrace, kinds: map<int, AgentType>, number: int, started: seq<Event>)
    requires tr.first in kinds && tr.second in kinds && Finished(tr, kinds)
    requires Faithful(tr.first, tr.second, started) && AcceptedIn(started) == []
    ensures var events := started + PlayEvents(tr.first, tr.second, number, tr.plays) + FaultEvents(tr, number);
            Faithful(tr.first, tr.second, events) && AcceptedIn(events) == Positions(tr.plays)
  {
    PlayEventsFaithful(tr.first, tr.second, kinds, number, started, tr.plays);
    FaultIsFaithful(tr, kinds, number, started + PlayEvents(tr.first, tr.second, number, tr.plays));
  }

  /**
    In the events of every game, each state that went out is what a fresh engine shows after
    the moves accepted before it, and all accepted moves together lead to the final engine.
   */
  lemma ReplayFidelity(tr: GameTrace, kinds: map<int, AgentType>, attempt: int, number: int)
    requires tr.first in kinds && tr.second in kinds && Finished(tr, kinds)
    ensures Faithful(tr.first, tr.second, GameEvents(tr, attempt, number))
    ensures Run(Start(tr.first, tr.second), AcceptedIn(GameEvents(tr, attempt, number))) ==
            StateAfter(tr.first, tr.second, tr.plays)
    ensures AcceptedIn(GameEvents(tr, attempt, number)) == Positions(tr.plays)
  {
    var started := [GameStarted(attempt, number, tr.first, tr.second)];
    StartIsFaithful(attempt, number, tr.first, tr.second);
    TurnsAreFaithful(tr, kinds, number, started);
    EndIsFaithful(tr.first, tr.second,
      started + PlayEvents(tr.first, tr.second, number, tr.plays) + FaultEvents(tr, number),
      GameEnded(number, ResultCode(Winner(tr), tr.first), Winner(tr)));
  }

  // ----- the shape of the stream -----

  /** The event of one turn: a state that goes out, or what became of it. */
  predicate IsTurn(event: Event, sent: bool, number: int, turn: int, agent: int) {
    match event
    case StateSent(n, t, a, _) => sent && n == number && t == turn && a == agent
    case MoveAccepted(n, t, a, _, _, _) => !sent && n == number && t == turn && a == agent
    case MoveRejected(n, t, a, _, _) => !sent && n == number && t == turn && a == agent
    case TurnTimeout(n, t, a) => !sent && n == number && t == turn && a == agent
    case TurnCrash(n, t, a) => !sent && n == number && t == turn && a == agent
    case _ => false
  }

  /** From `from` on, states and outcomes alternate; turn `k` is asked of the agent whose turn it is. */
  ghost predicate Alternates(events: seq<Event>, number: int, first: int, second: int) {
    && |events| % 2 == 0
    && forall i :: 0 <= i < |events| ==>
         IsTurn(events[i], i % 2 == 0, number, i / 2 + 1, Mover(first, second, i / 2))
  }

  lemma AlternatesTurn(
      events: seq<Event>, first: int, second: int, s: GameState, number: int, turn: int, agent: int, reply: Reply)
    requires WellFormed(s) && Alternates(events, number, first, second)
    requires turn == |events| / 2 + 1 && agent == Mover(first, second, |events| / 2)
    ensures Alternates(events + TurnEvents(s, number, turn, agent, reply), number, first, second)
  {
    hide Flatten, ParseMove, Play;
  }

  lemma {:induction false} PlaysAlternate(first: int, second: int, number: int, plays: seq<Accepted>)
    ensures |PlayEvents(first, second, number, plays)| == 2 * |plays|
    ensures Alternates(PlayEvents(first, second, number, plays), number, first, second)
  {
    hide Alternates, Mover, StateAfter;
    if plays == [] {
      NoneAlternate(number, first, second);
    } else {
      var init, last := plays[..|plays| - 1], plays[|plays| - 1];
      PlaysAlternate(first, second, number, init);
      AlternatesTurn(PlayEvents(first, second, number, init), first, second, StateAfter(first, second, init), number,
        |plays|, Mover(first, second, |init|), Line(last.raw, last.durationMS));
    }
  }

  lemma NoneAlternate(number: int, first: int, second: int)
    ensures Alternates([], number, first, second)
  {
  }

  /**
    The stream of a game opens with its start and closes with its end, both under its number, and in
    between states and outcomes alternate.
   */
  ghost predicate Framed(
      events: seq<Event>, attempt: int, number: int, first: int, second: int, code: string)
  {
    && |events| >= 2 && events[0] == GameStarted(attempt, number, first, second)
    && Alternates(events[1..|events| - 1], number, first, second)
    && var end := events[|events| - 1];
       && end.GameEnded? && end.number == number && end.result == code
       && (end.winner == Some(first) <==> code == "player_a_win")
       && (end.winner == Some(second) <==> code == "player_b_win")
       && (end.winner == None <==> code == "draw")
  }

  lemma GameIsFramed(tr: GameTrace, attempt: int, number: int)
    requires tr.first != tr.second
    ensures Framed(
              GameEvents(tr, attempt, number), attempt, number, tr.first, tr.second, ResultCode(Winner(tr), tr.first))
  {
    hide Alternates, PlayEvents, TurnEvents, Winner, ResultCode, StateAfter;
    var played := PlayEvents(tr.first, tr.second, number, tr.plays);
    PlaysAlternate(tr.first, tr.second, number, tr.plays);
    if tr.fault.Some? {
      AlternatesTurn(played, tr.first, tr.second, StateAfter(tr.first, tr.second, tr.plays), number, |tr.plays| + 1,
        Mover(tr.first, tr.second, |tr.plays|), tr.fault.value);
    } else {
      assert played + FaultEvents(tr, number) == played;
    }
    var all := GameEvents(tr, attempt, number);
    assert all[1..|all| - 1] == played + FaultEvents(tr, number);
    WinnerIsPlayer(tr);
    CodeMeaning(Winner(tr), tr.first, tr.second);
  }

  // ----- the result is read off the events -----

  /** The agent that lost its last turn, if the last turn was lost. */
  function LostBy(events: seq<Event>): Option<int> {
    if events == [] then None
    else
      var last := events[|events| - 1];
      if last.MoveRejected? || last.TurnTimeout? || last.TurnCrash? then Some(last.agent)
      else if last.MoveAccepted? then None
      else LostBy(events[..|events| - 1])
  }

  lemma LostBySnoc(events: seq<Event>, event: Event)
    ensures LostBy(events + [event]) ==
            if event.MoveRejected? || event.TurnTimeout? || event.TurnCrash? then Some(event.agent)
            else if event.MoveAccepted? then None
            else LostBy(events)
  {
    assert (events + [event])[..|events|] == events;
  }

  lemma LostByTurn(events: seq<Event>, s: GameState, number: int, turn: int, agent: int, reply: Reply)
    requires WellFormed(s)
    ensures LostBy(events + TurnEvents(s, number, turn, agent, reply)) == if Takes(s, reply) then None else Some(agent)
  {
    var outcome := OutcomeEvent(s, number, turn, agent, reply);
    var sent := StateSent(number, turn, agent, Flatten(s.grid));
    assert events + TurnEvents(s, number, turn, agent, reply) == events + [sent] + [outcome];
    LostBySnoc(events + [sent], outcome);
    hide Flatten, ParseMove, LostBy;
  }

  lemma LostByPlays(
      first: int, second: int, kinds: map<int, AgentType>, number: int, started: seq<Event>, plays: seq<Accepted>)
    requires first in kinds && second in kinds && Legal(first, second, kinds, plays) && LostBy(started) == None
    ensures LostBy(started + PlayEvents(first, second, number, plays)) == None
  {
    hide LostBy, TurnEvents, Takes, PlayEvents;
    if plays == [] {
      NoPlays(first, second, number, started);
    } else {
      var init, last := plays[..|plays| - 1], plays[|plays| - 1];
      assert plays == init + [last];
      TakesPlay(first, second, kinds, plays, |init|);
      PlayEventsUnfold(first, second, number, started, init, last);
      LostByTurn(started + PlayEvents(first, second, number, init), StateAfter(first, second, init), number, |init| + 1,
        Mover(first, second, |init|), Line(last.raw, last.durationMS));
    }
  }

  lemma NoPlays(first: int, second: int, number: int, started: seq<Event>)
    ensures started + PlayEvents(first, second, number, []) == started
  {
  }

  lemma LostByGame(tr: GameTrace, kinds: map<int, AgentType>, attempt: int, number: int)
    requires tr.first in kinds && tr.second in kinds && Finished(tr, kinds)
    ensures LostBy(GameEvents(tr, attempt, number)) ==
            if tr.fault.Some? then Some(Mover(tr.first, tr.second, |tr.plays|)) else None
  {
    hide PlayEvents, LostBy, TurnEvents, Takes, Winner, ResultCode;
    var started := [GameStarted(attempt, number, tr.first, tr.second)];
    var played := started + PlayEvents(tr.first, tr.second, number, tr.plays);
    StartIsUnlost(started[0]);
    LostByPlays(tr.first, tr.second, kinds, number, started, tr.plays);
    if tr.fault.Some? {
      LostByTurn(played, StateAfter(tr.first, tr.second, tr.plays), number, |tr.plays| + 1,
        Mover(tr.first, tr.second, |tr.plays|), tr.fault.value);
    } else {
      assert played + FaultEvents(tr, number) == played;
    }
    LostBySnoc(played + FaultEvents(tr, number), GameEnded(number, ResultCode(Winner(tr), tr.first), Winner(tr)));
  }

  lemma StartIsUnlost(event: Event)
    requires event.GameStarted?
    ensures LostBy([event]) == None
  {
    assert [event][..0] == [];
  }

  /**
    What the stored result and move count of a game say about the events stored for it: the code
    names the owner of a line of five on the replayed board, or the opponent of the agent that
    lost its last turn; a draw is a full board without either.
   */
  ghost predicate ResultFits(code: string, moveCount: int, events: seq<Event>, first: int, second: int) {
    var s, lost := Run(Start(first, second), AcceptedIn(events)), LostBy(events);
    && moveCount == |AcceptedIn(events)|
    && (code == "player_a_win" <==> FiveOf(s, 0) || lost == Some(second))
    && (code == "player_b_win" <==> FiveOf(s, 1) || lost == Some(first))
    && (code == "draw" <==> Full(s.grid) && !FiveOf(s, 0) && !FiveOf(s, 1) && lost == None)
    && code in {"player_a_win", "player_b_win", "draw"}
  }

  lemma WinnerMeaning(tr: GameTrace, kinds: map<int, AgentType>)
    requires tr.first != tr.second && tr.first in kinds && tr.second in kinds && Finished(tr, kinds)
    ensures var s := StateAfter(tr.first, tr.second, tr.plays);
            var lost := if tr.fault.Some? then Some(Mover(tr.first, tr.second, |tr.plays|)) else None;
            && (Winner(tr) == Some(tr.first) <==> FiveOf(s, 0) || lost == Some(tr.second))
            && (Winner(tr) == Some(tr.second) <==> FiveOf(s, 1) || lost == Some(tr.first))
            && (Winner(tr) == None <==> Full(s.grid) && !FiveOf(s, 0) && !FiveOf(s, 1) && lost == None)
  {
    StateAfterIsSound(tr.first, tr.second, tr.plays);
    hide StateAfter, Legal, Takes, Answers, Tallied, HasFive, Full;
  }

  lemma CodeMeaning(winner: Option<int>, first: int, second: int)
    requires first != second && winner in {None, Some(first), Some(second)}
    ensures var code := ResultCode(winner, first);
            && (code == "player_a_win" <==> winner == Some(first))
            && (code == "player_b_win" <==> winner == Some(second))
            && (code == "draw" <==> winner == None)
  {
    assert PLAYER_A_WIN[7] != PLAYER_B_WIN[7] && |DRAW| != |PLAYER_A_WIN| && |DRAW| != |PLAYER_B_WIN|;
  }

  lemma ResultFollowsEvents(tr: GameTrace, kinds: map<int, AgentType>, attempt: int, number: int)
    requires tr.first != tr.second && tr.first in kinds && tr.second in kinds && Finished(tr, kinds)
    ensures ResultFits(
              ResultCode(Winner(tr), tr.first), |tr.plays|, GameEvents(tr, attempt, number), tr.first, tr.second)
  {
    hide GameEvents, StateAfter, AcceptedIn, LostBy, Finished, Faithful, FiveOf, Full, Winner, ResultCode;
    ReplayFidelity(tr, kinds, attempt, number);
    LostByGame(tr, kinds, attempt, number);
    WinnerMeaning(tr, kinds);
    WinnerIsPlayer(tr);
    CodeMeaning(Winner(tr), tr.first, tr.second);
  }

  // ----- the move rows are the projection of the events -----

  /** One event's move row, by the projection rule of the event stream. */
  function RowOf(gameID: int, event: Event): seq<MoveRow> {
    if event.MoveAccepted? then
      [MoveRow(gameID, event.turn, event.agent, Place, At(event.x, event.y), true, Some(event.durationMS))]
    else if event.MoveRejected? then [MoveRow(gameID, event.turn, event.agent, Invalid, Raw(event.raw), false, None)]
    else if event.TurnTimeout? then [MoveRow(gameID, event.turn, event.agent, TimedOut, Payload.Empty, false, None)]
    else if event.TurnCrash? then [MoveRow(gameID, event.turn, event.agent, Crashed, Payload.Empty, false, None)]
    else []
  }

  function Project(gameID: int, events: seq<Event>): seq<MoveRow> {
    if events == [] then [] else Project(gameID, events[..|events| - 1]) + RowOf(gameID, events[|events| - 1])
  }

  lemma ConcatEnds<T>(a: seq<T>, b: seq<T>)
    requires b != []
    ensures (a + b)[..|a + b| - 1] == a + b[..|b| - 1] && (a + b)[|a + b| - 1] == b[|b| - 1]
  {
  }

  lemma {:induction false} ProjectConcat(gameID: int, a: seq<Event>, b: seq<Event>)
    ensures Project(gameID, a + b) == Project(gameID, a) + Project(gameID, b)
  {
    hide RowOf;
    if b == [] {
      assert a + b == a;
    } else {
      var init, last := b[..|b| - 1], b[|b| - 1];
      ProjectConcat(gameID, a, init);
      ConcatEnds(a, b);
    }
  }

  lemma ProjectOne(gameID: int, event: Event)
    ensures Project(gameID, [event]) == RowOf(gameID, event)
  {
    assert [event][..0] == [];
  }

  lemma ProjectTurn(gameID: int, s: GameState, number: int, turn: int, agent: int, reply: Reply)
    requires WellFormed(s)
    ensures Project(gameID, TurnEvents(s, number, turn, agent, reply)) == [TurnRow(s, gameID, turn, agent, reply)]
  {
    var sent, outcome := StateSent(number, turn, agent, Flatten(s.grid)), OutcomeEvent(s, number, turn, agent, reply);
    assert TurnEvents(s, number, turn, agent, reply) == [sent] + [outcome];
    ProjectConcat(gameID, [sent], [outcome]);
    ProjectOne(gameID, sent);
    ProjectOne(gameID, outcome);
  }

  lemma {:induction false} ProjectPlays(gameID: int, first: int, second: int, number: int, plays: seq<Accepted>)
    ensures Project(gameID, PlayEvents(first, second, number, plays)) == PlayRows(gameID, first, second, plays)
  {
    if plays != [] {
      var init, last := plays[..|plays| - 1], plays[|plays| - 1];
      var s, agent := StateAfter(first, second, init), Mover(first, second, |init|);
      ProjectPlays(gameID, first, second, number, init);
      ProjectTurn(gameID, s, number, |plays|, agent, Line(last.raw, last.durationMS));
      ProjectConcat(gameID, PlayEvents(first, second, number, init),
        TurnEvents(s, number, |plays|, agent, Line(last.raw, last.durationMS)));
    }
  }

  lemma ProjectFault(gameID: int, tr: GameTrace, number: int)
    ensures PlayRows(gameID, tr.first, tr.second, tr.plays) + Project(gameID, FaultEvents(tr, number)) ==
            GameRows(tr, gameID)
  {
    if tr.fault.Some? {
      ProjectTurn(gameID, StateAfter(tr.first, tr.second, tr.plays), number, |tr.plays| + 1,
        Mover(tr.first, tr.second, |tr.plays|), tr.fault.value);
    }
  }

  lemma ProjectFramed(gameID: int, started: Event, played: seq<Event>, fault: seq<Event>, ended: Event)
    requires RowOf(gameID, started) == [] && RowOf(gameID, ended) == []
    ensures Project(gameID, [started] + played + fault + [ended]) == Project(gameID, played) + Project(gameID, fault)
  {
    hide Project, RowOf;
    ProjectOne(gameID, started);
    ProjectOne(gameID, ended);
    ProjectConcat(gameID, [started], played);
    ProjectConcat(gameID, [started] + played, fault);
    ProjectConcat(gameID, [started] + played + fault, [ended]);
  }

  /** The rows written during a game are exactly those re-derived from its events. */
  lemma MovesAreProjection(tr: GameTrace, gameID: int, attempt: int, number: int)
    ensures Project(gameID, GameEvents(tr, attempt, number)) == GameRows(tr, gameID)
  {
    hide PlayEvents, FaultEvents, PlayRows, TurnRow, Winner, ResultCode, Project;
    ProjectFramed(gameID, GameStarted(attempt, number, tr.first, tr.second),
      PlayEvents(tr.first, tr.second, number, tr.plays), FaultEvents(tr, number),
      GameEnded(number, ResultCode(Winner(tr), tr.first), Winner(tr)));
    ProjectPlays(gameID, tr.first, tr.second, number, tr.plays);
    ProjectFault(gameID, tr, number);
  }

  lemma {:induction false} PlayRowAt(gameID: int, first: int, second: int, plays: seq<Accepted>, i: nat)
    requires i < |plays|
    ensures |PlayRows(gameID, first, second, plays)| == |plays|
    ensures PlayRows(gameID, first, second, plays)[i] ==
            TurnRow(StateAfter(first, second, plays[..i]), gameID, i + 1, Mover(first, second, i),
              Line(plays[i].raw, plays[i].durationMS))
  {
    PlayRowsShape(gameID, first, second, plays);
    if i < |plays| - 1 {
      var init := plays[..|plays| - 1];
      PlayRowsShape(gameID, first, second, init);
      PlayRowAt(gameID, first, second, init, i);
      assert init[..i] == plays[..i];
    }
  }

  lemma PlayRowIs(gameID: int, first: int, second: int, kinds: map<int, AgentType>, plays: seq<Accepted>, i: nat)
    requires first in kinds && second in kinds && Legal(first, second, kinds, plays) && i < |plays|
    ensures |PlayRows(gameID, first, second, plays)| == |plays|
    ensures PlayRows(gameID, first, second, plays)[i] ==
            MoveRow(gameID, i + 1, Mover(first, second, i), Place, At(plays[i].pos.X, plays[i].pos.Y), true,
              Some(plays[i].durationMS))
  {
    PlayRowAt(gameID, first, second, plays, i);
    TakesPlay(first, second, kinds, plays, i);
  }

  /**
    The rows of a game number 1, 2, ...; all are accepted but possibly the last, which is refused
    exactly in a lost game.
   */
  lemma RowsOfGame(tr: GameTrace, kinds: map<int, AgentType>, gameID: int)
    requires tr.first in kinds && tr.second in kinds && Finished(tr, kinds)
    ensures var rows := GameRows(tr, gameID);
            && |rows| == |tr.plays| + (if tr.fault.Some? then 1 else 0)
            && (forall i :: 0 <= i < |rows| ==>
                  && rows[i].gameID == gameID && rows[i].seqNo == i + 1
                  && rows[i].agent == Mover(tr.first, tr.second, i)
                  && (rows[i].accepted <==> i < |tr.plays|)
                  && (rows[i].durationMS.Some? <==> rows[i].accepted))
  {
    PlayRowsShape(gameID, tr.first, tr.second, tr.plays);
    var rows := GameRows(tr, gameID);
    forall i | 0 <= i < |rows|
      ensures && rows[i].gameID == gameID && rows[i].seqNo == i + 1 && rows[i].agent == Mover(tr.first, tr.second, i)
              && (rows[i].accepted <==> i < |tr.plays|) && (rows[i].durationMS.Some? <==> rows[i].accepted)
    {
      if i < |tr.plays| {
        PlayRowIs(gameID, tr.first, tr.second, kinds, tr.plays, i);
      }
    }
  }

  // ----- the tie-break samples are the accepted rows -----

  /** The durations of one agent's accepted rows, in order. */
  function DurationsOf(rows: seq<MoveRow>, agent: int): seq<int> {
    if rows == [] then []
    else
      var last := rows[|rows| - 1];
      DurationsOf(rows[..|rows| - 1], agent) +
      (if last.accepted && last.agent == agent && last.durationMS.Some? then [last.durationMS.value] else [])
  }

  /** The positions of an agent's accepted rows that took `ms` milliseconds. */
  function RowsThatTook(rows: seq<MoveRow>, agent: int, ms: int): set<nat> {
    set i: nat | i < |rows| && rows[i].accepted && rows[i].agent == agent && rows[i].durationMS == Some(ms)
  }

  lemma RowsThatTookSnoc(rows: seq<MoveRow>, row: MoveRow, agent: int, ms: int)
    ensures RowsThatTook(rows + [row], agent, ms) ==
            RowsThatTook(rows, agent, ms) +
            (if row.accepted && row.agent == agent && row.durationMS == Some(ms) then {|rows|} else {})
  {
  }

  /** Each duration is among them as often as an accepted row of the agent has it. */
  lemma {:induction false} DurationsMeaning(rows: seq<MoveRow>, agent: int, ms: int)
    ensures multiset(DurationsOf(rows, agent))[ms] == |RowsThatTook(rows, agent, ms)|
  {
    if rows != [] {
      var init, last := rows[..|rows| - 1], rows[|rows| - 1];
      assert rows == init + [last];
      DurationsMeaning(init, agent, ms);
      RowsThatTookSnoc(init, last, agent, ms);
      assert |init| !in RowsThatTook(init, agent, ms);
      hide RowsThatTook;
    }
  }

  lemma {:induction false} PlayRowSamples(
      gameID: int, first: int, second: int, kinds: map<int, AgentType>, plays: seq<Accepted>, agent: int)
    requires first in kinds && second in kinds && Legal(first, second, kinds, plays)
    ensures DurationsOf(PlayRows(gameID, first, second, plays), agent) == SamplesOf(first, second, plays, agent)
  {
    if plays != [] {
      var init, last := plays[..|plays| - 1], plays[|plays| - 1];
      assert plays == init + [last];
      LegalSnoc(first, second, kinds, init, last);
      PlayRowSamples(gameID, first, second, kinds, init, agent);
      TakesPlay(first, second, kinds, plays, |init|);
      var rows := PlayRows(gameID, first, second, plays);
      assert rows[..|rows| - 1] == PlayRows(gameID, first, second, init);
    }
  }

  lemma GameRowSamples(tr: GameTrace, kinds: map<int, AgentType>, gameID: int, agent: int)
    requires tr.first in kinds && tr.second in kinds && Finished(tr, kinds)
    ensures DurationsOf(GameRows(tr, gameID), agent) == SamplesOf(tr.first, tr.second, tr.plays, agent)
  {
    PlayRowSamples(gameID, tr.first, tr.second, kinds, tr.plays, agent);
    var rows := GameRows(tr, gameID);
    RowsOfGame(tr, kinds, gameID);
    if tr.fault.Some? {
      assert rows[..|rows| - 1] == PlayRows(gameID, tr.first, tr.second, tr.plays);
    } else {
      assert rows == PlayRows(gameID, tr.first, tr.second, tr.plays);
    }
  }

  lemma {:induction false} SampleCounts(first: int, second: int, plays: seq<Accepted>)
    requires first != second
    ensures |SamplesOf(first, second, plays, first)| == (|plays| + 1) / 2
    ensures |SamplesOf(first, second, plays, second)| == |plays| / 2
  {
    if plays != [] {
      SampleCounts(first, second, plays[..|plays| - 1]);
    }
  }

  lemma SampleCountsBounded(first: int, second: int, kinds: map<int, AgentType>, plays: seq<Accepted>)
    requires first != second && first in kinds && second in kinds && Legal(first, second, kinds, plays)
    ensures |SamplesOf(first, second, plays, first)| + |SamplesOf(first, second, plays, second)| == |plays|
    ensures |SamplesOf(first, second, plays, first)| <= 32 && |SamplesOf(first, second, plays, second)| <= 32
  {
    SampleCounts(first, second, plays);
    LegalState(first, second, kinds, plays);
  }

  /** Across an attempt the samples of both agents are as many as the accepted moves, and neither has more than 64. */
  lemma SampleTotals(at: Attempt, a: int, b: int, kinds: map<int, AgentType>)
    requires a != b && kinds.Keys == {a, b} && Played(at, a, b, kinds)
    ensures |Samples(at, a)| + |Samples(at, b)| == |at.game1.plays| + |at.game2.plays|
    ensures |Samples(at, a)| <= MAX_SAMPLES && |Samples(at, b)| <= MAX_SAMPLES
  {
    SampleCountsBounded(a, b, kinds, at.game1.plays);
    SampleCountsBounded(b, a, kinds, at.game2.plays);
  }

  // ----- the built-in opponent -----

  /** No game is ever lost by a bad reply of the built-in opponent: it answers every running game with a legal move. */
  lemma SystemAgentNeverFaults(tr: GameTrace, kinds: map<int, AgentType>)
    requires tr.first in kinds && tr.second in kinds && Finished(tr, kinds)
    ensures tr.fault.Some? ==> kinds[Mover(tr.first, tr.second, |tr.plays|)] == UserAgent
  {
    var s := StateAfter(tr.first, tr.second, tr.plays);
    if tr.fault.Some? && kinds[Mover(tr.first, tr.second, |tr.plays|)] == SystemAgent {
      var reply, state := tr.fault.value, Flatten(s.grid);
      StateAfterIsSound(tr.first, tr.second, tr.plays);
      OpponentTactics.BestMoveIsLegal(s, 0);
      var k :| Opponent.IsBest(state, k) && reply.Line? && reply.raw == FormatPosition(OpponentTactics.PositionOf(k));
      OpponentTactics.BestMoveIsLegal(s, k);
      ParseFormatPosition(OpponentTactics.PositionOf(k));
    }
  }

  /** So whoever beats it has a line of five on the final board. */
  lemma BeatingTheSystemAgentTakesFive(tr: GameTrace, kinds: map<int, AgentType>)
    requires tr.first != tr.second && tr.first in kinds && tr.second in kinds && Finished(tr, kinds)
    ensures kinds[tr.second].SystemAgent? && Winner(tr) == Some(tr.first) ==>
              FiveOf(StateAfter(tr.first, tr.second, tr.plays), 0)
    ensures kinds[tr.first].SystemAgent? && Winner(tr) == Some(tr.second) ==>
              FiveOf(StateAfter(tr.first, tr.second, tr.plays), 1)
  {
    SystemAgentNeverFaults(tr, kinds);
  }
}
