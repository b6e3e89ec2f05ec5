/** The match executor: the turn loop of one game, recording every step in the store. */
module Executor {
  import opened Text
  import opened Grids
  import opened Caro
  import opened MoveText
  import opened Database
  import opened GameTraces
  import opened MatchTraces
  import opened Scoring
  import opened StoredMatches
  import Opponent
  import OpponentTactics

  lemma InsertFresh(rows: seq<MoveRow>, first: int, second: int, plays: seq<Accepted>, row: MoveRow)
    requires forall i :: 0 <= i < |rows| ==> rows[i].gameID < row.gameID
    requires row.seqNo == |plays| + 1
    ensures InsertMoveRow(rows + PlayRows(row.gameID, first, second, plays), row) ==
            rows + (PlayRows(row.gameID, first, second, plays) + [row])
  {
    PlayRowsShape(row.gameID, first, second, plays);
  }

  lemma MoverIsCurrent(first: int, second: int, kinds: map<int, AgentType>, plays: seq<Accepted>)
    requires first in kinds && second in kinds && Legal(first, second, kinds, plays)
    requires IsInt64(first) && IsInt64(second)
    ensures var s := StateAfter(first, second, plays);
            ParseIntOrDefault(s.players[s.current]) == Mover(first, second, |plays|)
  {
    LegalState(first, second, kinds, plays);
    ParseIntFormatInt(first);
    ParseIntFormatInt(second);
  }

  /** The recorded result text gives back the winner's ID, and no ID prints as "draw". */
  lemma ResultNamesWinner(first: int, second: int, plays: seq<Accepted>)
    requires IsInt64(first) && IsInt64(second)
    requires StateAfter(first, second, plays).over
    ensures var s := StateAfter(first, second, plays);
            var winner := Winner(GameTrace(first, second, plays, None));
            && (s.result == DRAW <==> winner == None)
            && (winner != None ==> winner == Some(ParseIntOrDefault(s.result)))
  {
    StateAfterIsSound(first, second, plays);
    FormatIntIsNumeral(first);
    FormatIntIsNumeral(second);
    assert FormatInt(first)[0] != DRAW[0] && FormatInt(second)[0] != DRAW[0];
    ParseIntFormatInt(first);
    ParseIntFormatInt(second);
  }

  /** What the tables hold once `events` and `rows` of the running game have been written. */
  function Written(before: Tables, matchID: int, game: GameRow, events: seq<Event>, rows: seq<MoveRow>): Tables {
    var id := before.lastGame + 1;
    Tables(Appended(before.events, matchID, Some(id), events), before.games[id := game], id, before.moves + rows)
  }

  /** The tables after one more turn, as the store's own statements leave them. */
  ghost function AfterTurn(
      t: Tables, matchID: int, s: GameState, number: int, turn: int, agent: int, reply: Reply): Tables
    requires WellFormed(s)
  {
    t.(events := Appended(t.events, matchID, Some(t.lastGame), TurnEvents(s, number, turn, agent, reply)),
       moves := InsertMoveRow(t.moves, TurnRow(s, t.lastGame, turn, agent, reply)))
  }

  lemma WrittenTurn(
      before: Tables, matchID: int, game: GameRow, s: GameState, number: int, turn: int, agent: int, reply: Reply,
      events: seq<Event>, rows: seq<MoveRow>)
    requires WellFormed(s)
    requires var id := before.lastGame + 1;
             InsertMoveRow(before.moves + rows, TurnRow(s, id, turn, agent, reply)) ==
             before.moves + (rows + [TurnRow(s, id, turn, agent, reply)])
    ensures AfterTurn(Written(before, matchID, game, events, rows), matchID, s, number, turn, agent, reply) ==
            Written(before, matchID, game, events + TurnEvents(s, number, turn, agent, reply),
              rows + [TurnRow(s, before.lastGame + 1, turn, agent, reply)])
  {
    AppendedConcat(before.events, matchID, Some(before.lastGame + 1), events,
      TurnEvents(s, number, turn, agent, reply));
  }

  lemma WrittenTaken(
      before: Tables, matchID: int, game: GameRow, first: int, second: int, number: int, plays: seq<Accepted>,
      started: seq<Event>, play: Accepted)
    requires forall i :: 0 <= i < |before.moves| ==> before.moves[i].gameID <= before.lastGame
    ensures var id := before.lastGame + 1;
            var s, turn, agent := StateAfter(first, second, plays), |plays| + 1, Mover(first, second, |plays|);
            AfterTurn(
              Written(before, matchID, game, started + PlayEvents(first, second, number, plays),
                PlayRows(id, first, second, plays)),
              matchID, s, number, turn, agent, Line(play.raw, play.durationMS)) ==
            Written(before, matchID, game, started + PlayEvents(first, second, number, plays + [play]),
              PlayRows(id, first, second, plays + [play]))
  {
    hide PlayEvents, PlayRows, TurnEvents, TurnRow, StateAfter, Appended, Written, AfterTurn, InsertMoveRow;
    var s, turn, agent, id :=
      StateAfter(first, second, plays), |plays| + 1, Mover(first, second, |plays|), before.lastGame + 1;
    var reply := Line(play.raw, play.durationMS);
    RecordsSnoc(first, second, number, id, plays, play);
    TurnRowShape(s, id, turn, agent, reply);
    InsertFresh(before.moves, first, second, plays, TurnRow(s, id, turn, agent, reply));
    WrittenTurn(before, matchID, game, s, number, turn, agent, reply,
      started + PlayEvents(first, second, number, plays), PlayRows(id, first, second, plays));
    Regroup(started, PlayEvents(first, second, number, plays), TurnEvents(s, number, turn, agent, reply));
  }

  lemma Regroup<T>(a: seq<T>, b: seq<T>, c: seq<T>)
    ensures a + b + c == a + (b + c)
  {
  }

  lemma WrittenFault(
      before: Tables, matchID: int, game: GameRow, first: int, second: int, number: int, plays: seq<Accepted>,
      started: seq<Event>, reply: Reply)
    requires forall i :: 0 <= i < |before.moves| ==> before.moves[i].gameID <= before.lastGame
    ensures var id := before.lastGame + 1;
            var s, turn, agent := StateAfter(first, second, plays), |plays| + 1, Mover(first, second, |plays|);
            var tr := GameTrace(first, second, plays, Some(reply));
            AfterTurn(
              Written(before, matchID, game, started + PlayEvents(first, second, number, plays),
                PlayRows(id, first, second, plays)),
              matchID, s, number, turn, agent, reply) ==
            Written(before, matchID, game,
              started + PlayEvents(first, second, number, plays) + FaultEvents(tr, number), GameRows(tr, id))
  {
    hide PlayEvents, PlayRows, TurnEvents, StateAfter, Appended;
    var s, turn, agent := StateAfter(first, second, plays), |plays| + 1, Mover(first, second, |plays|);
    InsertFresh(before.moves, first, second, plays, TurnRow(s, before.lastGame + 1, turn, agent, reply));
    WrittenTurn(before, matchID, game, s, number, turn, agent, reply,
      started + PlayEvents(first, second, number, plays), PlayRows(before.lastGame + 1, first, second, plays));
  }

  /** A game that has just been created is at the start of its trace. */
  lemma GameBegins(
      before: Tables, matchID: int, row: GameRow, first: int, second: int, number: int, started: seq<Event>)
    ensures StateAfter(first, second, []) == Start(first, second)
    ensures Written(before, matchID, row, started + PlayEvents(first, second, number, []),
              PlayRows(before.lastGame + 1, first, second, []))
            == Tables(Appended(before.events, matchID, Some(before.lastGame + 1), started),
                 before.games[before.lastGame + 1 := row], before.lastGame + 1, before.moves)
  {
    assert Positions([]) == [];
    assert started + [] == started;
    assert before.moves + [] == before.moves;
  }

  /** The tables after the result of game `id` and its last event were written. */
  function Closed(
      t: Tables, matchID: int, id: int, number: int, winner: Option<int>, playerA: int, moveCount: int): Tables
    requires id in t.games
  {
    t.(games := t.games[id := t.games[id].(result := ResultCode(winner, playerA), moveCount := moveCount)],
       events := Appended(t.events, matchID, Some(id), [GameEnded(number, ResultCode(winner, playerA), winner)]))
  }

  /** Writing the result and the last event completes what the trace says is stored. */
  lemma GameCloses(before: Tables, matchID: int, row: GameRow, tr: GameTrace, attempt: int, number: int)
    requires row == GameRow(matchID, FormatInt(tr.first), FormatInt(tr.second), "", 0)
    ensures var id := before.lastGame + 1;
            var played := [GameStarted(attempt, number, tr.first, tr.second)] +
                          PlayEvents(tr.first, tr.second, number, tr.plays) + FaultEvents(tr, number);
            var t := Written(before, matchID, row, played, GameRows(tr, id));
            Closed(t, matchID, id, number, Winner(tr), tr.first, |tr.plays|) ==
            AfterGame(before, matchID, tr, attempt, number)
  {
    hide PlayEvents, FaultEvents, GameRows, Winner;
    var played := [GameStarted(attempt, number, tr.first, tr.second)] +
                  PlayEvents(tr.first, tr.second, number, tr.plays) + FaultEvents(tr, number);
    AppendedConcat(before.events, matchID, Some(before.lastGame + 1), played,
      [GameEnded(number, ResultCode(Winner(tr), tr.first), Winner(tr))]);
  }

  /** What is found behind a user's agent when its runner is to be started. */
  datatype Program =
    | NoSubmission(id: int)                  // the agent names a row that is missing
    | NoBinary(id: int)                      // the submission has no binary
    | NoImage(id: int, reason: string)       // building its image fails
    | NoStart(reason: string)                // starting it fails
    | Runnable

  /** Why the runner of an agent does not start. An agent without an entry names no submission. */
  function StartError(agent: int, kind: AgentType, programs: map<int, Program>): Option<string> {
    if kind.SystemAgent? then None
    else if agent !in programs then Some("user agent " + FormatInt(agent) + " has no submission")
    else match programs[agent]
      case NoSubmission(_) => Some("sql: no rows in result set")
      case NoBinary(id) => Some("submission " + FormatInt(id) + " has no binary")
      case NoImage(id, reason) => Some("build image for submission " + FormatInt(id) + ": " + reason)
      case NoStart(reason) => Some(reason)
      case Runnable => None
  }

  /** Exactly the system agent and a program that can be run start. */
  lemma StartMeaning(agent: int, kind: AgentType, programs: map<int, Program>)
    ensures StartError(agent, kind, programs) == None <==>
              kind == SystemAgent || (agent in programs && programs[agent] == Runnable)
  {
  }

  /** The runners are started in order; the first failure ends the attempt. */
  function FirstError(
      agentA: int, typeA: AgentType, agentB: int, typeB: AgentType, programs: map<int, Program>)
    : (error: Option<string>)
    ensures error == None <==>
              StartError(agentA, typeA, programs) == None && StartError(agentB, typeB, programs) == None
    ensures StartError(agentA, typeA, programs) != None ==> error == StartError(agentA, typeA, programs)
  {
    var errorA := StartError(agentA, typeA, programs);
    if errorA != None then errorA else StartError(agentB, typeB, programs)
  }

  function ErrorOf(error: Option<string>): Error {
    if error == None then NoError else StoreError(error.value)
  }

  class Processor {
    const store: Store

    constructor (store: Store)
      ensures this.store == store
    {
      this.store := store;
    }

    ghost function Stored(): Tables
      reads store
    {
      Tables(store.events, store.games, store.lastGame, store.moves)
    }

    /** The time since some start, as the runners report it. */
    method Elapsed() returns (ms: int)
      ensures IsDuration(ms)
    {
      var elapsed: Nanoseconds := *;
      ms := Milliseconds(elapsed);
    }

    /** One request to an agent's runner. */
    method Ask(kind: AgentType, state: string) returns (reply: Reply)
      requires |state| == Opponent.CELL_COUNT
      ensures Answers(kind, state, reply)
    {
      match kind {
        case SystemAgent =>
          var x, y := Opponent.SystemBestMove(state);
          var elapsed := Elapsed();
          reply := Line(FormatPosition(Position(x, y)), elapsed);
          if EMPTY in state {
            var k := (y - 1) * BOARD_SIZE + (x - 1);
            assert OpponentTactics.PositionOf(k) == Position(x, y);
          }
        case UserAgent =>
          var fails: bool, text: string := *, *;
          var elapsed := Elapsed();
          reply := if fails then Failure(text) else Line(text, elapsed);
      }
    }

    /** An event write whose error is dropped. */
    method Log(matchID: int, gameID: Option<int>, event: Event)
      requires store.Valid() && (gameID.Some? ==> gameID.value <= store.lastGame)
      modifies store`events
      ensures store.Valid()
      ensures store.reliable ==> store.events == Appended(old(store.events), matchID, gameID, [event])
    {
      var _ := store.AppendEvent(matchID, gameID, event);
    }

    method ProjectMove(row: MoveRow)
      requires store.Valid() && row.gameID <= store.lastGame
      modifies store`moves
      ensures store.Valid()
      ensures store.reliable ==> store.moves == InsertMoveRow(old(store.moves), row)
    {
      var _ := store.InsertMove(row);
    }

    method FinishGame(matchID: int, gameID: int, number: int, winner: Option<int>, playerA: int, moveCount: int)
      returns (err: Error)
      requires store.Valid() && gameID in store.games
      modifies store`events, store`games
      ensures store.Valid()
      ensures store.reliable ==>
                err == NoError && Stored() == Closed(old(Stored()), matchID, gameID, number, winner, playerA, moveCount)
    {
      var result := DRAW;
      if winner != None {
        result := if winner.value == playerA then PLAYER_A_WIN else PLAYER_B_WIN;
      }
      err := store.FinishGame(gameID, result, moveCount);
      if err == NoError {
        err := store.AppendEvent(matchID, Some(gameID), GameEnded(number, result, winner));
      }
    }

    /** The three ways to lose a turn, and the one way to keep playing. */
    method Judge(game: Game, gameID: int, number: int, turn: int, agentID: int, reply: Reply)
      returns (taken: bool, event: Event, row: MoveRow)
      requires game.Valid()
      modifies game, game.board.Cells
      ensures game.Valid()
      ensures var s := old(game.State());
              && taken == Takes(s, reply)
              && game.State() == After(s, reply)
              && event == OutcomeEvent(s, number, turn, agentID, reply)
              && row == TurnRow(s, gameID, turn, agentID, reply)
    {
      ghost var s := game.State();
      if reply.Failure? {
        if Contains(reply.message, "timeout") {
          return false, TurnTimeout(number, turn, agentID),
            MoveRow(gameID, turn, agentID, TimedOut, Payload.Empty, false, None);
        }
        return false, TurnCrash(number, turn, agentID),
          MoveRow(gameID, turn, agentID, Crashed, Payload.Empty, false, None);
      }
      var pos := ParseMove(reply.raw);
      if pos == None {
        return false, MoveRejected(number, turn, agentID, "invalid_format", reply.raw),
          MoveRow(gameID, turn, agentID, Invalid, Raw(reply.raw), false, None);
      }
      var err := game.ApplyMove(pos.value);
      if err != None {
        assert Play(s, pos.value) == Rejected(err.value);
        return false, MoveRejected(number, turn, agentID, ErrorText(err.value), reply.raw),
          MoveRow(gameID, turn, agentID, Invalid, Raw(reply.raw), false, None);
      }
      assert Play(s, pos.value) == Next(game.State());
      return true, MoveAccepted(number, turn, agentID, pos.value.X, pos.value.Y, reply.durationMS),
        MoveRow(gameID, turn, agentID, Place, At(pos.value.X, pos.value.Y), true, Some(reply.durationMS));
    }

    /** The running game's state goes out to the agent, and a reply comes back. */
    method SendState(game: Game, matchID: int, gameID: int, number: int, turn: int, agentID: int, kind: AgentType)
      returns (reply: Reply)
      requires store.Valid() && gameID <= store.lastGame && game.Valid() && game.board.Size == BOARD_SIZE
      modifies store`events
      ensures store.Valid()
      ensures var state := Flatten(game.State().grid);
              && Answers(kind, state, reply)
              && (store.reliable ==>
                  store.events == Appended(old(store.events), matchID, Some(gameID),
                      [StateSent(number, turn, agentID, state)]))
    {
      var state := game.Snapshot();
      FlattenLength(game.State().grid, BOARD_SIZE);
      Log(matchID, Some(gameID), StateSent(number, turn, agentID, state));
      reply := Ask(kind, state);
    }

    /** Records what became of a turn whose state was sent when `rows` were the events. */
    method RecordTurn(
        matchID: int, gameID: int, event: Event, row: MoveRow, ghost rows: seq<EventRow>, ghost sent: Event)
      requires store.Valid() && row.gameID <= store.lastGame && gameID <= store.lastGame
      requires store.reliable ==> store.events == Appended(rows, matchID, Some(gameID), [sent])
      modifies store`events, store`moves
      ensures store.Valid()
      ensures store.reliable ==>
                && store.events == Appended(rows, matchID, Some(gameID), [sent, event])
                && store.moves == InsertMoveRow(old(store.moves), row)
    {
      Log(matchID, Some(gameID), event);
      AppendedConcat(rows, matchID, Some(gameID), [sent], [event]);
      assert [sent] + [event] == [sent, event];
      ProjectMove(row);
    }

    /**
      One turn: the state goes out, the reply comes back, and the outcome is recorded. A move
      the engine takes changes the engine; any other reply leaves it alone.
     */
    method TakeTurn(game: Game, matchID: int, gameID: int, number: int, turn: int, agentID: int, kind: AgentType)
      returns (taken: bool, reply: Reply)
      requires store.Valid() && gameID <= store.lastGame
      requires game.Valid() && game.board.Size == BOARD_SIZE
      modifies store`events, store`moves, game, game.board.Cells
      ensures store.Valid() && game.Valid()
      ensures var s := old(game.State());
              && Answers(kind, Flatten(s.grid), reply)
              && taken == Takes(s, reply)
              && game.State() == After(s, reply)
              && (store.reliable ==>
                  && store.events == Appended(old(store.events), matchID, Some(gameID),
                     TurnEvents(s, number, turn, agentID, reply))
                  && store.moves == InsertMoveRow(old(store.moves), TurnRow(s, gameID, turn, agentID, reply)))
    {
      ghost var s, rows := game.State(), store.events;
      reply := SendState(game, matchID, gameID, number, turn, agentID, kind);
      var event, row;
      taken, event, row := Judge(game, gameID, number, turn, agentID, reply);
      RecordTurn(matchID, gameID, event, row, rows, StateSent(number, turn, agentID, Flatten(s.grid)));
    }

    /** What the store holds once `events` and `rows` of the running game have been written. */
    ghost predicate Wrote(before: Tables, matchID: int, game: GameRow, events: seq<Event>, rows: seq<MoveRow>)
      reads store
    {
      Stored() == Written(before, matchID, game, events, rows)
    }

    /** The engine is where the accepted moves lead, and the records so far are exactly theirs. */
    ghost predicate Playing(
        game: Game, first: int, second: int, runners: map<int, AgentType>, plays: seq<Accepted>,
        before: Tables, matchID: int, row: GameRow, number: int, started: seq<Event>)
      requires runners.Keys == {first, second}
      reads store, game, game.board.Cells
    {
      && game.Valid() && game.State() == StateAfter(first, second, plays) && Legal(first, second, runners, plays)
      && (store.reliable ==>
          Wrote(before, matchID, row, started + PlayEvents(first, second, number, plays),
            PlayRows(before.lastGame + 1, first, second, plays)))
    }

    /** One pass of the turn loop. */
    method OneTurn(
        game: Game, matchID: int, gameID: int, first: int, second: int, runners: map<int, AgentType>, number: int,
        turn: int, ghost plays: seq<Accepted>, ghost before: Tables, ghost row: GameRow, ghost started: seq<Event>)
      returns (taken: bool, agentID: int, reply: Reply)
      requires store.Valid() && gameID == before.lastGame + 1 == store.lastGame
      requires first != second && IsInt64(first) && IsInt64(second)
      requires runners.Keys == {first, second} && turn == |plays| + 1
      requires Playing(game, first, second, runners, plays, before, matchID, row, number, started) && !game.gameOver
      requires forall i :: 0 <= i < |before.moves| ==> before.moves[i].gameID <= before.lastGame
      modifies store`events, store`moves, game, game.board.Cells
      ensures store.Valid() && agentID == Mover(first, second, |plays|)
      ensures taken ==>
                && reply.Line? && ParseMove(reply.raw).Some?
                && Playing(game, first, second, runners,
                     plays + [Accepted(ParseMove(reply.raw).value, reply.raw, reply.durationMS)],
                     before, matchID, row, number, started)
      ensures !taken ==>
                var tr := GameTrace(first, second, plays, Some(reply));
                && game.Valid() && game.State() == StateAfter(first, second, plays) && Finished(tr, runners)
                && (store.reliable ==>
                    Wrote(before, matchID, row,
                      started + PlayEvents(first, second, number, plays) + FaultEvents(tr, number),
                      GameRows(tr, gameID)))
    {
      ghost var s := game.State();
      ghost var stored := Stored();
      LegalState(first, second, runners, plays);
      MoverIsCurrent(first, second, runners, plays);
      agentID := ParseIntOrDefault(game.CurrentPlayer());
      taken, reply := TakeTurn(game, matchID, gameID, number, turn, agentID, runners[agentID]);
      assert store.reliable ==> Stored() == AfterTurn(stored, matchID, s, number, turn, agentID, reply);
      if taken {
        ghost var play := Accepted(ParseMove(reply.raw).value, reply.raw, reply.durationMS);
        assert reply == Line(play.raw, play.durationMS);
        TurnAdvances(first, second, runners, plays, reply);
        WrittenTaken(before, matchID, row, first, second, number, plays, started, play);
      } else {
        WrittenFault(before, matchID, row, first, second, number, plays, started, reply);
      }
    }

    /** The turn loop: it ends when the engine says the game is over, or at the first reply the engine cannot take. */
    method PlayOut(
        game: Game, matchID: int, gameID: int, first: int, second: int, runners: map<int, AgentType>, number: int,
        samples: map<int, seq<int>>, ghost before: Tables, ghost row: GameRow, ghost started: seq<Event>)
      returns (lost: Option<int>, samples': map<int, seq<int>>, ghost tr: GameTrace)
      requires store.Valid() && gameID == before.lastGame + 1 == store.lastGame
      requires first != second && IsInt64(first) && IsInt64(second)
      requires runners.Keys == {first, second} && samples.Keys == {first, second}
      requires Playing(game, first, second, runners, [], before, matchID, row, number, started) && !game.gameOver
      requires forall i :: 0 <= i < |before.moves| ==> before.moves[i].gameID <= before.lastGame
      modifies store`events, store`moves, game, game.board.Cells
      ensures store.Valid() && game.Valid()
      ensures tr.first == first && tr.second == second && Finished(tr, runners)
      ensures lost == if tr.fault.Some? then Some(Mover(first, second, |tr.plays|)) else None
      ensures game.State() == StateAfter(first, second, tr.plays)
      ensures Sampled(samples, samples', first, second, tr.plays)
      ensures store.reliable ==>
                Wrote(before, matchID, row,
                  started + PlayEvents(first, second, number, tr.plays) + FaultEvents(tr, number), GameRows(tr, gameID))
    {
      samples', lost := samples, None;
      var turn := 0;
      ghost var plays: seq<Accepted> := [];
      while !game.gameOver
        invariant store.Valid() && store.lastGame == gameID
        invariant Playing(game, first, second, runners, plays, before, matchID, row, number, started)
        invariant turn == |plays| <= BOARD_SIZE * BOARD_SIZE
        invariant Sampled(samples, samples', first, second, plays)
        decreases BOARD_SIZE * BOARD_SIZE - |plays|
      {
        turn := turn + 1;
        var taken, agentID, reply := OneTurn(game, matchID, gameID, first, second, runners, number, turn,
          plays, before, row, started);
        if !taken {
          tr := GameTrace(first, second, plays, Some(reply));
          lost := Some(agentID);
          return;
        }
        ghost var play := Accepted(ParseMove(reply.raw).value, reply.raw, reply.durationMS);
        LegalState(first, second, runners, plays + [play]);
        SampledSnoc(samples, samples', first, second, plays, play);
        samples' := samples'[agentID := samples'[agentID] + [reply.durationMS]];
        plays := plays + [play];
      }
      tr := GameTrace(first, second, plays, None);
      assert started + PlayEvents(first, second, number, plays) + FaultEvents(tr, number) ==
             started + PlayEvents(first, second, number, plays);
    }

    /** Creates the game row, announces the game, and sets up a fresh engine. */
    method BeginGame(matchID: int, first: int, second: int, runners: map<int, AgentType>, attempt: int, number: int)
      returns (err: Error, gameID: int, game: Game)
      requires store.Valid() && runners.Keys == {first, second}
      modifies store`events, store`games, store`lastGame
      ensures store.Valid() && fresh(game) && fresh(game.board.Cells)
      ensures store.reliable ==> err == NoError
      ensures err == NoError ==>
                && gameID == old(store.lastGame) + 1 == store.lastGame && gameID in store.games && !game.gameOver
                && Playing(game, first, second, runners, [], old(Stored()), matchID,
                     GameRow(matchID, FormatInt(first), FormatInt(second), "", 0), number,
                     [GameStarted(attempt, number, first, second)])
    {
      ghost var before := Stored();
      err, gameID := store.CreateGame(matchID, FormatInt(first), FormatInt(second));
      game := new Game([FormatInt(first), FormatInt(second)], BOARD_SIZE);
      if err != NoError {
        return;
      }
      Log(matchID, Some(gameID), GameStarted(attempt, number, first, second));
      GameBegins(before, matchID, GameRow(matchID, FormatInt(first), FormatInt(second), "", 0), first, second, number,
        [GameStarted(attempt, number, first, second)]);
    }

    /** Who won: the other agent if a reply lost the game, and otherwise whoever the engine's result text names. */
    method GameWinner(
        game: Game, lost: Option<int>, first: int, second: int, ghost tr: GameTrace, ghost kinds: map<int, AgentType>)
      returns (winner: Option<int>)
      requires IsInt64(first) && IsInt64(second) && kinds.Keys == {first, second}
      requires tr.first == first && tr.second == second && Finished(tr, kinds)
      requires game.Valid() && game.State() == StateAfter(first, second, tr.plays)
      requires lost == if tr.fault.Some? then Some(Mover(first, second, |tr.plays|)) else None
      ensures winner == Winner(tr)
    {
      if lost != None {
        return Some(Other(lost.value, first, second));
      }
      ResultNamesWinner(first, second, tr.plays);
      if game.gameResult == DRAW {
        return None;
      }
      return Some(ParseIntOrDefault(game.gameResult));
    }

    method RunGame(
        matchID: int, first: int, second: int, runners: map<int, AgentType>, attempt: int, number: int,
        samples: map<int, seq<int>>)
      returns (err: Error, winner: Option<int>, samples': map<int, seq<int>>, ghost tr: GameTrace)
      requires store.Valid()
      requires first != second && IsInt64(first) && IsInt64(second)
      requires runners.Keys == {first, second} && samples.Keys == {first, second}
      modifies store`events, store`moves, store`games, store`lastGame
      ensures store.Valid()
      ensures err == NoError ==>
                && tr.first == first && tr.second == second && Finished(tr, runners) && winner == Winner(tr)
                && Sampled(samples, samples', first, second, tr.plays)
      ensures store.reliable ==>
                err == NoError && Stored() == AfterGame(old(Stored()), matchID, tr, attempt, number)
    {
      hide AfterGame, Appended, GameRows, FaultEvents, PlayEvents, Sampled, Winner, Closed;
      samples', winner, tr := samples, None, GameTrace(first, second, [], None);
      ghost var before := Stored();
      ghost var row := GameRow(matchID, FormatInt(first), FormatInt(second), "", 0);
      var gameID, game, lost;
      err, gameID, game := BeginGame(matchID, first, second, runners, attempt, number);
      if err != NoError {
        return;
      }
      lost, samples', tr := PlayOut(game, matchID, gameID, first, second, runners, number, samples,
        before, row, [GameStarted(attempt, number, first, second)]);
      winner := GameWinner(game, lost, first, second, tr, runners);
      LegalTurns(first, second, runners, tr.plays);
      err := FinishGame(matchID, gameID, number, winner, first, game.turnCount);
      GameCloses(before, matchID, row, tr, attempt, number);
    }

    /** Both orders of play, with one sample table across the two games. */
    method RunBothOrders(matchID: int, agentA: int, agentB: int, runners: map<int, AgentType>, attempt: int)
      returns (err: Error, winner1: Option<int>, winner2: Option<int>, samples: map<int, seq<int>>, ghost at: Attempt)
      requires store.Valid()
      requires agentA != agentB && IsInt64(agentA) && IsInt64(agentB) && runners.Keys == {agentA, agentB}
      modifies store`events, store`moves, store`games, store`lastGame
      ensures store.Valid()
      ensures err == NoError ==>
                && Played(at, agentA, agentB, runners)
                && winner1 == Winner(at.game1) && winner2 == Winner(at.game2)
                && samples.Keys == {agentA, agentB}
                && samples[agentA] == Samples(at, agentA) && samples[agentB] == Samples(at, agentB)
      ensures store.reliable ==> err == NoError && Stored() == AfterAttempt(old(Stored()), matchID, at, attempt)
    {
      winner1, winner2, samples := None, None, map[agentA := [], agentB := []];
      ghost var samples1;
      ghost var game1, game2 := GameTrace(agentA, agentB, [], None), GameTrace(agentB, agentA, [], None);
      at := Attempt(game1, game2);
      err, winner1, samples, game1 := RunGame(matchID, agentA, agentB, runners, attempt, 1, samples);
      if err != NoError {
        return;
      }
      samples1 := samples;
      err, winner2, samples, game2 := RunGame(matchID, agentB, agentA, runners, attempt, 2, samples);
      at := Attempt(game1, game2);
      if err != NoError {
        return;
      }
      SamplesOfTwo(at, agentA, agentB, samples1, samples);
    }

    method RunTwoGames(matchID: int, agentA: int, agentB: int, runners: map<int, AgentType>, attempt: int)
      returns (err: Error, winner: Option<int>, ghost at: Attempt)
      requires store.Valid()
      requires agentA != agentB && IsInt64(agentA) && IsInt64(agentB) && runners.Keys == {agentA, agentB}
      modifies store`events, store`moves, store`games, store`lastGame
      ensures store.Valid()
      ensures err == NoError ==> Played(at, agentA, agentB, runners) && winner == Outcome(at, agentA, agentB)
      ensures store.reliable ==> err == NoError && Stored() == AfterAttempt(old(Stored()), matchID, at, attempt)
    {
      winner := None;
      var winner1, winner2, samples;
      err, winner1, winner2, samples, at := RunBothOrders(matchID, agentA, agentB, runners, attempt);
      if err != NoError {
        return;
      }
      WinnerIsPlayer(at.game1);
      WinnerIsPlayer(at.game2);
      TallyOfTwo(winner1, winner2, agentA, agentB);
      var wins := AddWin(AddWin(map[agentA := 0, agentB := 0], winner1), winner2);
      var side := Decide(wins[agentA], wins[agentB], samples[agentA], samples[agentB]);
      winner := SideAgent(side, agentA, agentB);
    }

    /** Rematches until someone wins, six attempts at most. */
    method RunAttempts(matchID: int, agentA: int, agentB: int, runners: map<int, AgentType>)
      returns (err: Error, winner: Option<int>, ghost attempts: seq<Attempt>)
      requires store.Valid()
      requires agentA != agentB && IsInt64(agentA) && IsInt64(agentB) && runners.Keys == {agentA, agentB}
      modifies store`events, store`moves, store`games, store`lastGame
      ensures store.Valid()
      ensures err == NoError ==>
                AllPlayed(attempts, agentA, agentB, runners) && Decisive(attempts, agentA, agentB, winner)
      ensures store.reliable ==> err == NoError && Stored() == AfterAttempts(old(Stored()), matchID, attempts)
    {
      hide Played, Outcome, AfterAttempt;
      err, winner, attempts := NoError, None, [];
      for attempt := 0 to MAX_ATTEMPTS
        invariant store.Valid() && |attempts| == attempt && err == NoError
        invariant AllPlayed(attempts, agentA, agentB, runners) && Tied(attempts, |attempts|, agentA, agentB)
        invariant attempt > 0 ==> winner == Outcome(attempts[attempt - 1], agentA, agentB) == None
        invariant store.reliable ==> Stored() == AfterAttempts(old(Stored()), matchID, attempts)
      {
        ghost var at;
        err, winner, at := RunTwoGames(matchID, agentA, agentB, runners, attempt);
        if err != NoError {
          return;
        }
        AttemptsSnoc(attempts, at, agentA, agentB, runners);
        AfterAttemptsSnoc(old(Stored()), matchID, attempts, at);
        attempts := attempts + [at];
        if winner != None {
          return;
        }
      }
    }

    method StartRunners(agentA: int, typeA: AgentType, agentB: int, typeB: AgentType, programs: map<int, Program>)
      returns (err: Error, runners: map<int, AgentType>)
      ensures err == NoError ==>
                && runners == map[agentA := typeA, agentB := typeB]
                && FirstError(agentA, typeA, agentB, typeB, programs) == None
      ensures store.reliable ==> err == ErrorOf(FirstError(agentA, typeA, agentB, typeB, programs))
      ensures err == NoError ==>
                && (typeA == SystemAgent || (agentA in programs && programs[agentA] == Runnable))
                && (typeB == SystemAgent || (agentB in programs && programs[agentB] == Runnable))
    {
      runners := map[];
      err := StartRunner(agentA, typeA, programs);
      if err != NoError {
        return;
      }
      runners := runners[agentA := typeA];
      err := StartRunner(agentB, typeB, programs);
      if err != NoError {
        return;
      }
      runners := runners[agentB := typeB];
    }

    /** The built-in opponent always starts; a user's program needs its submission, its binary and its image. */
    method StartRunner(agent: int, kind: AgentType, programs: map<int, Program>) returns (err: Error)
      ensures err == NoError ==> StartError(agent, kind, programs) == None
      ensures store.reliable ==> err == ErrorOf(StartError(agent, kind, programs))
    {
      err := NoError;
      if kind.SystemAgent? {
        return;
      }
      if agent !in programs {
        return StoreError("user agent " + FormatInt(agent) + " has no submission");
      }
      err := store.Exec();
      if err != NoError {
        return;
      }
      match programs[agent] {
        case NoSubmission(_) => err := StoreError("sql: no rows in result set");
        case NoBinary(id) => err := StoreError("submission " + FormatInt(id) + " has no binary");
        case NoImage(id, reason) => err := StoreError("build image for submission " + FormatInt(id) + ": " + reason);
        case NoStart(reason) => err := StoreError(reason);
        case Runnable =>
      }
    }

    /** Announces both runners; a map has no fixed order, so either may come first. */
    method AnnounceRunners(matchID: int, agentA: int, agentB: int) returns (order: seq<int>)
      requires store.Valid()
      modifies store`events
      ensures store.Valid()
      ensures order == [agentA, agentB] || order == [agentB, agentA]
      ensures store.reliable ==>
                store.events == Appended(old(store.events), matchID, None, [BotStarted(order[0]), BotStarted(order[1])])
    {
      var reversed: bool := *;
      order := if reversed then [agentB, agentA] else [agentA, agentB];
      ghost var rows := store.events;
      Log(matchID, None, BotStarted(order[0]));
      Log(matchID, None, BotStarted(order[1]));
      AppendedConcat(rows, matchID, None, [BotStarted(order[0])], [BotStarted(order[1])]);
      assert [BotStarted(order[0])] + [BotStarted(order[1])] == [BotStarted(order[0]), BotStarted(order[1])];
    }

    method RunMatchAttempts(
        matchID: int, agentA: int, typeA: AgentType, agentB: int, typeB: AgentType, programs: map<int, Program>)
      returns (err: Error, winner: Option<int>, ghost order: seq<int>, ghost attempts: seq<Attempt>)
      requires store.Valid() && agentA != agentB && IsInt64(agentA) && IsInt64(agentB)
      modifies store`events, store`moves, store`games, store`lastGame
      ensures store.Valid()
      ensures err == NoError ==>
                && FirstError(agentA, typeA, agentB, typeB, programs) == None
                && AllPlayed(attempts, agentA, agentB, map[agentA := typeA, agentB := typeB])
                && Decisive(attempts, agentA, agentB, winner)
                && (order == [agentA, agentB] || order == [agentB, agentA])
      ensures store.reliable ==>
                && err == ErrorOf(FirstError(agentA, typeA, agentB, typeB, programs))
                && Stored() ==
                   if err == NoError then AfterMatch(old(Stored()), matchID, order, attempts) else old(Stored())
    {
      hide AllPlayed, Decisive, AfterAttempts, Appended, FirstError;
      winner, order, attempts := None, [], [];
      var runners;
      err, runners := StartRunners(agentA, typeA, agentB, typeB, programs);
      if err != NoError {
        return;
      }
      order := AnnounceRunners(matchID, agentA, agentB);
      err, winner, attempts := RunAttempts(matchID, agentA, agentB, runners);
    }

    /**
      How an executed match ends, when the store is reliable and held `before` and `row`. If both
      runners start, the row is completed with the decided winner, which is the scoring rule read
      off the tables, and the tables hold the whole match and then its last event. Otherwise the
      row is failed, and only the event that says so is stored.
     */
    ghost predicate Ended(
        before: Tables, row: MatchRow, matchID: int, error: Option<string>, winner: Option<int>, order: seq<int>,
        attempts: seq<Attempt>)
      reads store
    {
      && matchID in store.matches
      && if error == None then
           && store.matches[matchID] == row.(status := Completed, winner := winner)
           && (order == [row.agentA, row.agentB] || order == [row.agentB, row.agentA])
           && Stored() == AfterMatch(before, matchID, order, attempts).(
                events := Appended(
                  AfterMatch(before, matchID, order, attempts).events, matchID, None, [MatchCompleted(winner)]))
           && MatchIs(Stored(), before.lastGame + 1, |attempts|, row.agentA, row.agentB, winner)
         else
           && store.matches[matchID] == row.(status := Failed, errorMsg := error.value)
           && Stored() == before.(events := Appended(before.events, matchID, None, [MatchFailed(error.value)]))
    }

    ghost predicate IsRunning(matchID: int, agentA: int, agentB: int)
      reads store
    {
      && matchID in store.matches && store.matches[matchID].status == Running
      && store.matches[matchID].agentA == agentA && store.matches[matchID].agentB == agentB
    }

    /**
      Runs a prepared match to its end. No other match row changes. With a reliable store a running
      match ends completed exactly when both runners start, and failed otherwise.
     */
    method Execute(
        matchID: int, agentA: int, typeA: AgentType, agentB: int, typeB: AgentType, programs: map<int, Program>)
      returns (ghost err: Error, ghost winner: Option<int>, ghost order: seq<int>, ghost attempts: seq<Attempt>)
      requires store.Valid() && agentA != agentB && IsInt64(agentA) && IsInt64(agentB)
      modifies store
      ensures store.Valid()
      ensures store.matches.Keys == old(store.matches).Keys
      ensures forall id :: id in old(store.matches) && (id != matchID || Terminal(old(store.matches)[id].status)) ==>
                store.matches[id] == old(store.matches)[id]
      ensures store.reliable ==> err == ErrorOf(FirstError(agentA, typeA, agentB, typeB, programs))
      ensures err == NoError ==>
                && AllPlayed(attempts, agentA, agentB, map[agentA := typeA, agentB := typeB])
                && Decisive(attempts, agentA, agentB, winner)
      ensures store.reliable && old(IsRunning(matchID, agentA, agentB)) ==>
                Ended(old(Stored()), old(store.matches)[matchID], matchID,
                  FirstError(agentA, typeA, agentB, typeB, programs), winner, order, attempts)
    {
      hide AllPlayed, Decisive, AfterMatch, Appended, FirstError, MatchIs, Numbered, GamesAreKnown;
      ghost var before := Stored();
      var runErr, won;
      runErr, won, order, attempts := RunMatchAttempts(matchID, agentA, typeA, agentB, typeB, programs);
      err, winner := runErr, won;
      if runErr != NoError {
        Log(matchID, None, MatchFailed(runErr.message));
        var _ := store.FailMatch(matchID, runErr.message);
        return;
      }
      ghost var t := Stored();
      Log(matchID, None, MatchCompleted(won));
      var _ := store.CompleteMatch(matchID, won);
      if store.reliable {
        assert Known(before);
        MatchFollowsTheRule(before, matchID, order, attempts, agentA, agentB,
          map[agentA := typeA, agentB := typeB], won);
        SameGamesAfter(t, matchID, [MatchCompleted(won)], before.lastGame + 1, 2 * |attempts|);
        MatchStays(t, Completion(t, matchID, won), before.lastGame + 1, |attempts|, agentA, agentB, won);
      }
    }

    ghost predicate CanPractice(userAgentID: int, systemAgentID: int)
      reads store
    {
      && userAgentID in store.agents && store.agents[userAgentID] == UserAgent
      && systemAgentID in store.agents && store.agents[systemAgentID] == SystemAgent
    }

    /** Creates and starts the match row. The two agents differ because their types do. */
    method Prepare(userAgentID: int, systemAgentID: int) returns (err: Error, matchID: int)
      requires store.Valid()
      modifies store`matches, store`lastMatch, store`events
      ensures store.Valid()
      ensures forall id :: id in old(store.matches) ==>
                id in store.matches && store.matches[id] == old(store.matches)[id]
      ensures err == NoError ==>
                && CanPractice(userAgentID, systemAgentID) && userAgentID != systemAgentID
                && matchID !in old(store.matches) && matchID in store.matches
                && store.matches[matchID] == MatchRow(userAgentID, systemAgentID, Running, None, "")
                && store.events == Appended(old(store.events), matchID, None,
                   [MatchStarted(userAgentID, systemAgentID)])
      ensures store.reliable ==> (err == NoError <==> CanPractice(userAgentID, systemAgentID))
      ensures store.reliable && err != NoError ==>
                store.matches == old(store.matches) && store.events == old(store.events)
    {
      matchID := 0;
      var userType, systemType;
      err, userType := store.AgentByID(userAgentID);
      if err != NoError {
        return;
      }
      err, systemType := store.AgentByID(systemAgentID);
      if err != NoError {
        return;
      }
      if userType != UserAgent || systemType != SystemAgent {
        err := StoreError("practice requires one user agent and one system agent");
        return;
      }
      err, matchID := store.CreateMatch(userAgentID, systemAgentID);
      if err != NoError {
        return;
      }
      err := store.StartMatch(matchID);
      if err != NoError {
        return;
      }
      err := store.AppendEvent(matchID, None, MatchStarted(userAgentID, systemAgentID));
    }

    ghost function Announced(t: Tables, matchID: int, agentA: int, agentB: int): Tables {
      t.(events := Appended(t.events, matchID, None, [MatchStarted(agentA, agentB)]))
    }

    /**
      A whole match: with a reliable store and two suitable agents it is announced, executed, and ends
      in a terminal row.
     */
    method Process(userAgentID: int, systemAgentID: int, programs: map<int, Program>)
      returns (err: Error, matchID: int,
               ghost runErr: Error, ghost winner: Option<int>, ghost order: seq<int>, ghost attempts: seq<Attempt>)
      requires store.Valid()
      modifies store
      ensures store.Valid()
      ensures forall id :: id in old(store.matches) ==>
                id in store.matches && store.matches[id] == old(store.matches)[id]
      ensures store.reliable ==> (err == NoError <==> old(CanPractice(userAgentID, systemAgentID)))
      ensures store.reliable && err != NoError ==> store.matches == old(store.matches) && Stored() == old(Stored())
      ensures err == NoError && runErr == NoError ==>
                && userAgentID != systemAgentID
                && AllPlayed(attempts, userAgentID, systemAgentID,
                   map[userAgentID := UserAgent, systemAgentID := SystemAgent])
                && Decisive(attempts, userAgentID, systemAgentID, winner)
      ensures store.reliable && err == NoError ==>
                && matchID !in old(store.matches)
                && runErr == ErrorOf(StartError(userAgentID, UserAgent, programs))
                && Ended(Announced(old(Stored()), matchID, userAgentID, systemAgentID),
                     MatchRow(userAgentID, systemAgentID, Running, None, ""), matchID,
                     StartError(userAgentID, UserAgent, programs), winner, order, attempts)
    {
      hide AllPlayed, Decisive, Ended, Appended, Numbered, GamesAreKnown;
      runErr, winner, order, attempts := NoError, None, [], [];
      err, matchID := Prepare(userAgentID, systemAgentID);
      if err != NoError {
        return;
      }
      runErr, winner, order, attempts := Execute(matchID, userAgentID, UserAgent, systemAgentID, SystemAgent, programs);
    }
  }
}
