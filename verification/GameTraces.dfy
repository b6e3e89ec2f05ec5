/**
  One game between two agents as a value: the accepted moves in order and, when the game
  ended early, the reply that lost it. Everything the executor stores is stated from it.
 */
module GameTraces {
  import opened Text
  import opened Grids
  import opened Caro
  import opened CaroRuns
  import opened MoveText
  import opened Database
  import Opponent
  import OpponentTactics

  type Nanoseconds = n: int | IsInt64(n)

  /** The largest duration in milliseconds. */
  const MAX_MILLISECONDS: int := 9_223_372_036_854

  predicate IsDuration(ms: int) {
    -MAX_MILLISECONDS <= ms <= MAX_MILLISECONDS
  }

  /** Whole milliseconds, rounded towards zero. */
  function Milliseconds(nanoseconds: Nanoseconds): (ms: int)
    ensures IsDuration(ms)
    ensures if nanoseconds >= 0 then 0 <= nanoseconds - ms * 1_000_000 < 1_000_000
            else 0 <= ms * 1_000_000 - nanoseconds < 1_000_000
  {
    var n: int := nanoseconds;
    assert IsInt64(n);
    if n >= 0 then n / 1_000_000 else -(-n / 1_000_000)
  }

  /** What an agent's runner gives back for one state: a line and its duration, or an error. */
  datatype Reply = Line(raw: string, durationMS: int) | Failure(message: string)

  datatype Accepted = Accepted(pos: Position, raw: string, durationMS: int)

  datatype GameTrace = GameTrace(first: int, second: int, plays: seq<Accepted>, fault: Option<Reply>)

  function Names(first: int, second: int): seq<string> {
    [FormatInt(first), FormatInt(second)]
  }

  function Start(first: int, second: int): GameState {
    Initial(BOARD_SIZE, Names(first, second))
  }

  function Positions(plays: seq<Accepted>): seq<Position> {
    seq(|plays|, i requires 0 <= i < |plays| => plays[i].pos)
  }

  /** The engine after the accepted moves have been replayed from a fresh game. */
  ghost function StateAfter(first: int, second: int, plays: seq<Accepted>): (s: GameState)
    ensures WellFormed(s) && |s.grid| == BOARD_SIZE && s.players == Names(first, second)
  {
    Run(Start(first, second), Positions(plays))
  }

  /** The agent to move after `n` accepted moves. */
  function Mover(first: int, second: int, n: nat): int {
    if n % 2 == 0 then first else second
  }

  function Other(agent: int, first: int, second: int): int {
    if agent == first then second else first
  }

  /** The built-in opponent answers with its best cell; a user's program may answer anything. */
  ghost predicate Answers(kind: AgentType, state: string, reply: Reply) {
    && (reply.Line? ==> IsDuration(reply.durationMS))
    && (kind.SystemAgent? && |state| == Opponent.CELL_COUNT && EMPTY in state ==>
        exists k :: && Opponent.IsBest(state, k) && reply.Line?
                    && reply.raw == FormatPosition(OpponentTactics.PositionOf(k)))
  }

  ghost predicate Takes(s: GameState, reply: Reply)
    requires WellFormed(s)
  {
    reply.Line? && ParseMove(reply.raw).Some? && Play(s, ParseMove(reply.raw).value).Next?
  }

  /** Move `i` was asked of the right agent on the right state, parsed, and accepted by a running game. */
  ghost predicate LegalAt(first: int, second: int, kinds: map<int, AgentType>, plays: seq<Accepted>, i: nat)
    requires first in kinds && second in kinds && i < |plays|
  {
    var s, play := StateAfter(first, second, plays[..i]), plays[i];
    && !s.over && ParseMove(play.raw) == Some(play.pos) && Play(s, play.pos).Next?
    && Answers(kinds[Mover(first, second, i)], Flatten(s.grid), Line(play.raw, play.durationMS))
  }

  ghost predicate Legal(first: int, second: int, kinds: map<int, AgentType>, plays: seq<Accepted>)
    requires first in kinds && second in kinds
  {
    forall i {:trigger LegalAt(first, second, kinds, plays, i)} :: 0 <= i < |plays| ==>
      LegalAt(first, second, kinds, plays, i)
  }

  /** A whole game: it ends with the engine's verdict, or with one reply that the engine could not take. */
  ghost predicate Finished(tr: GameTrace, kinds: map<int, AgentType>)
    requires tr.first in kinds && tr.second in kinds
  {
    var s := StateAfter(tr.first, tr.second, tr.plays);
    && Legal(tr.first, tr.second, kinds, tr.plays)
    && match tr.fault
       case None => s.over
       case Some(reply) =>
         !s.over && !Takes(s, reply) && Answers(kinds[Mover(tr.first, tr.second, |tr.plays|)], Flatten(s.grid), reply)
  }

  /** The owner of a line of five wins; an early end loses for the agent that was to move. */
  ghost function Winner(tr: GameTrace): Option<int> {
    var s := StateAfter(tr.first, tr.second, tr.plays);
    match tr.fault
    case Some(_) => Some(Other(Mover(tr.first, tr.second, |tr.plays|), tr.first, tr.second))
    case None => if FiveOf(s, 0) then Some(tr.first) else if FiveOf(s, 1) then Some(tr.second) else None
  }

  const PLAYER_A_WIN := "player_a_win"
  const PLAYER_B_WIN := "player_b_win"
  const DRAW := "draw"

  function ResultCode(winner: Option<int>, playerA: int): string {
    match winner
    case None => DRAW
    case Some(agent) => if agent == playerA then PLAYER_A_WIN else PLAYER_B_WIN
  }

  // ----- what is stored -----

  function ErrorText(error: MoveError): string {
    match error
    case ErrOutOfBounds => "move out of bounds"
    case ErrOccupied => "cell already occupied"
  }

  /** The engine after a reply: moved on if it took the move, unchanged otherwise. */
  ghost function After(s: GameState, reply: Reply): (r: GameState)
    requires WellFormed(s)
    ensures WellFormed(r)
  {
    if Takes(s, reply) then Play(s, ParseMove(reply.raw).value).state else s
  }

  ghost function OutcomeEvent(s: GameState, number: int, turn: int, agent: int, reply: Reply): Event
    requires WellFormed(s)
  {
    match reply
    case Failure(message) =>
      if Contains(message, "timeout") then TurnTimeout(number, turn, agent) else TurnCrash(number, turn, agent)
    case Line(raw, durationMS) =>
      match ParseMove(raw)
      case None => MoveRejected(number, turn, agent, "invalid_format", raw)
      case Some(pos) =>
        match Play(s, pos)
        case Rejected(error) => MoveRejected(number, turn, agent, ErrorText(error), raw)
        case Next(_) => MoveAccepted(number, turn, agent, pos.X, pos.Y, durationMS)
  }

  /**
    Which of the four outcomes a reply has, and the reason recorded for a refusal: by the message of
    an error, and otherwise by what the line denotes on the board.
   */
  lemma OutcomeMeaning(s: GameState, number: int, turn: int, agent: int, reply: Reply)
    requires WellFormed(s)
    ensures var event := OutcomeEvent(s, number, turn, agent, reply);
            match reply
            case Failure(message) =>
              var late := exists before: string, behind: string :: before + "timeout" + behind == message;
              event == if late then TurnTimeout(number, turn, agent) else TurnCrash(number, turn, agent)
            case Line(raw, ms) =>
              && (forall pos :: Denotes(raw, pos) ==>
                    event ==
                    if !OnBoard(s.grid, pos.X - 1, pos.Y - 1)
                    then MoveRejected(number, turn, agent, "move out of bounds", raw)
                    else if s.grid[pos.Y - 1][pos.X - 1] != '.'
                    then MoveRejected(number, turn, agent, "cell already occupied", raw)
                    else MoveAccepted(number, turn, agent, pos.X, pos.Y, ms))
              && ((forall pos :: !Denotes(raw, pos)) ==>
                  event == MoveRejected(number, turn, agent, "invalid_format", raw))
  {
    hide Denotes, ParseMove, Contains, FiveThrough, Full;
    match reply {
      case Failure(message) => ContainsMeaning(message, "timeout");
      case Line(raw, ms) =>
        forall pos ensures Denotes(raw, pos) <==> ParseMove(raw) == Some(pos) {
          ParseMoveMeaning(raw, pos);
        }
    }
  }

  ghost function TurnEvents(s: GameState, number: int, turn: int, agent: int, reply: Reply): seq<Event>
    requires WellFormed(s)
  {
    [StateSent(number, turn, agent, Flatten(s.grid)), OutcomeEvent(s, number, turn, agent, reply)]
  }

  ghost function TurnRow(s: GameState, gameID: int, turn: int, agent: int, reply: Reply): MoveRow
    requires WellFormed(s)
  {
    match reply
    case Failure(message) =>
      var action := if Contains(message, "timeout") then TimedOut else Crashed;
      MoveRow(gameID, turn, agent, action, Payload.Empty, false, None)
    case Line(raw, durationMS) =>
      if Takes(s, reply)
      then MoveRow(gameID, turn, agent, Place, At(ParseMove(raw).value.X, ParseMove(raw).value.Y), true,
             Some(durationMS))
      else MoveRow(gameID, turn, agent, Invalid, Raw(raw), false, None)
  }

  /** The row of a turn, by the message of an error, and otherwise by what the line denotes on the board. */
  lemma RowMeaning(s: GameState, gameID: int, turn: int, agent: int, reply: Reply)
    requires WellFormed(s)
    ensures var row := TurnRow(s, gameID, turn, agent, reply);
            match reply
            case Failure(message) =>
              var late := exists before: string, behind: string :: before + "timeout" + behind == message;
              row == MoveRow(gameID, turn, agent, if late then TimedOut else Crashed, Payload.Empty, false, None)
            case Line(raw, ms) =>
              && (forall pos :: Denotes(raw, pos) ==>
                    row ==
                    if OnBoard(s.grid, pos.X - 1, pos.Y - 1) && s.grid[pos.Y - 1][pos.X - 1] == '.'
                    then MoveRow(gameID, turn, agent, Place, At(pos.X, pos.Y), true, Some(ms))
                    else MoveRow(gameID, turn, agent, Invalid, Raw(raw), false, None))
              && ((forall pos :: !Denotes(raw, pos)) ==>
                  row == MoveRow(gameID, turn, agent, Invalid, Raw(raw), false, None))
  {
    hide Denotes, ParseMove, Contains, FiveThrough, Full;
    match reply {
      case Failure(message) => ContainsMeaning(message, "timeout");
      case Line(raw, ms) =>
        forall pos ensures Denotes(raw, pos) <==> ParseMove(raw) == Some(pos) {
          ParseMoveMeaning(raw, pos);
        }
    }
  }

  ghost function PlayEvents(first: int, second: int, number: int, plays: seq<Accepted>): seq<Event> {
    if plays == [] then []
    else
      var init, last := plays[..|plays| - 1], plays[|plays| - 1];
      PlayEvents(first, second, number, init) +
      TurnEvents(StateAfter(first, second, init), number, |plays|, Mover(first, second, |init|),
        Line(last.raw, last.durationMS))
  }

  ghost function FaultEvents(tr: GameTrace, number: int): seq<Event> {
    match tr.fault
    case None => []
    case Some(reply) =>
      var s := StateAfter(tr.first, tr.second, tr.plays);
      TurnEvents(s, number, |tr.plays| + 1, Mover(tr.first, tr.second, |tr.plays|), reply)
  }

  /** The events of the game in order. */
  ghost function GameEvents(tr: GameTrace, attempt: int, number: int): seq<Event> {
    [GameStarted(attempt, number, tr.first, tr.second)]
    + PlayEvents(tr.first, tr.second, number, tr.plays)
    + FaultEvents(tr, number)
    + [GameEnded(number, ResultCode(Winner(tr), tr.first), Winner(tr))]
  }

  ghost function PlayRows(gameID: int, first: int, second: int, plays: seq<Accepted>): seq<MoveRow> {
    if plays == [] then []
    else
      var init, last := plays[..|plays| - 1], plays[|plays| - 1];
      PlayRows(gameID, first, second, init) +
      [TurnRow(StateAfter(first, second, init), gameID, |plays|, Mover(first, second, |init|),
        Line(last.raw, last.durationMS))]
  }

  ghost function GameRows(tr: GameTrace, gameID: int): seq<MoveRow> {
    PlayRows(gameID, tr.first, tr.second, tr.plays) +
    match tr.fault
    case None => []
    case Some(reply) =>
      var s := StateAfter(tr.first, tr.second, tr.plays);
      [TurnRow(s, gameID, |tr.plays| + 1, Mover(tr.first, tr.second, |tr.plays|), reply)]
  }

  /** The durations of one agent's accepted moves, in order. */
  function SamplesOf(first: int, second: int, plays: seq<Accepted>, agent: int): seq<int> {
    if plays == [] then []
    else
      var init, last := plays[..|plays| - 1], plays[|plays| - 1];
      SamplesOf(first, second, init, agent) +
      (if Mover(first, second, |init|) == agent then [last.durationMS] else [])
  }

  /** The tables that a game writes to. */
  datatype Tables = Tables(events: seq<EventRow>, games: map<int, GameRow>, lastGame: int, moves: seq<MoveRow>)

  ghost function FinishedRow(matchID: int, tr: GameTrace): GameRow {
    GameRow(matchID, FormatInt(tr.first), FormatInt(tr.second), ResultCode(Winner(tr), tr.first), |tr.plays|)
  }

  /** Everything one game adds to the tables. */
  datatype Record = Record(events: seq<Event>, game: GameRow, rows: seq<MoveRow>)

  /** The tables after a game's record was added under the next game number. */
  function Extend(t: Tables, matchID: int, rec: Record): Tables {
    var id := t.lastGame + 1;
    Tables(Appended(t.events, matchID, Some(id), rec.events), t.games[id := rec.game], id, t.moves + rec.rows)
  }

  ghost function RecordOf(matchID: int, tr: GameTrace, gameID: int, attempt: int, number: int): Record {
    Record(GameEvents(tr, attempt, number), FinishedRow(matchID, tr), GameRows(tr, gameID))
  }

  ghost function AfterGame(t: Tables, matchID: int, tr: GameTrace, attempt: int, number: int): Tables {
    Extend(t, matchID, RecordOf(matchID, tr, t.lastGame + 1, attempt, number))
  }

  // ----- growing a trace by one move -----

  lemma PositionsSnoc(plays: seq<Accepted>, play: Accepted)
    ensures Positions(plays + [play]) == Positions(plays) + [play.pos]
  {
  }

  lemma StateAfterSnoc(first: int, second: int, plays: seq<Accepted>, play: Accepted)
    requires !StateAfter(first, second, plays).over
    requires Play(StateAfter(first, second, plays), play.pos).Next?
    ensures StateAfter(first, second, plays + [play]) == Play(StateAfter(first, second, plays), play.pos).state
  {
    PositionsSnoc(plays, play);
    RunExtends(Start(first, second), Positions(plays), play.pos);
  }

  lemma LegalSnoc(first: int, second: int, kinds: map<int, AgentType>, plays: seq<Accepted>, play: Accepted)
    requires first in kinds && second in kinds
    ensures Legal(first, second, kinds, plays + [play]) <==>
            Legal(first, second, kinds, plays) && LegalAt(first, second, kinds, plays + [play], |plays|)
  {
    forall i: nat | i < |plays|
      ensures LegalAt(first, second, kinds, plays + [play], i) == LegalAt(first, second, kinds, plays, i)
    {
      assert (plays + [play])[..i] == plays[..i];
    }
    if Legal(first, second, kinds, plays + [play]) {
      forall i | 0 <= i < |plays| ensures LegalAt(first, second, kinds, plays, i) {
        assert LegalAt(first, second, kinds, plays + [play], i);
      }
    }
  }

  lemma RecordsSnoc(first: int, second: int, number: int, gameID: int, plays: seq<Accepted>, play: Accepted)
    ensures var s, turn, agent := StateAfter(first, second, plays), |plays| + 1, Mover(first, second, |plays|);
            var reply := Line(play.raw, play.durationMS);
            && PlayEvents(first, second, number, plays + [play]) ==
               PlayEvents(first, second, number, plays) + TurnEvents(s, number, turn, agent, reply)
            && PlayRows(gameID, first, second, plays + [play]) ==
               PlayRows(gameID, first, second, plays) + [TurnRow(s, gameID, turn, agent, reply)]
            && forall a :: SamplesOf(first, second, plays + [play], a) ==
                 SamplesOf(first, second, plays, a) + (if agent == a then [play.durationMS] else [])
  {
    assert (plays + [play])[..|plays|] == plays;
  }

  lemma StateAfterIsSound(first: int, second: int, plays: seq<Accepted>)
    ensures Sound(StateAfter(first, second, plays))
    ensures StateAfter(first, second, plays).turns <= BOARD_SIZE * BOARD_SIZE
  {
    InitialIsSound(BOARD_SIZE, Names(first, second));
    RunIsSound(Start(first, second), Positions(plays));
    TurnMeaning(BOARD_SIZE, Names(first, second), Positions(plays));
  }

  lemma {:induction false} LegalTurns(first: int, second: int, kinds: map<int, AgentType>, plays: seq<Accepted>)
    requires first in kinds && second in kinds && Legal(first, second, kinds, plays)
    ensures StateAfter(first, second, plays).turns == |plays|
  {
    if plays != [] {
      var init, last := plays[..|plays| - 1], plays[|plays| - 1];
      assert plays == init + [last];
      LegalSnoc(first, second, kinds, init, last);
      LegalTurns(first, second, kinds, init);
      assert plays[..|init|] == init;
      StateAfterSnoc(first, second, init, last);
    }
  }

  /** All along a game the engine is sound and has taken exactly the accepted moves, at most one per cell. */
  lemma LegalState(first: int, second: int, kinds: map<int, AgentType>, plays: seq<Accepted>)
    requires first in kinds && second in kinds && Legal(first, second, kinds, plays)
    ensures var s := StateAfter(first, second, plays);
            Sound(s) && s.turns == |plays| <= BOARD_SIZE * BOARD_SIZE && s.current == |plays| % 2
  {
    StateAfterIsSound(first, second, plays);
    LegalTurns(first, second, kinds, plays);
  }

  /** A reply that the running game takes extends a legal run by one move. */
  lemma TurnAdvances(first: int, second: int, kinds: map<int, AgentType>, plays: seq<Accepted>, reply: Reply)
    requires first in kinds && second in kinds && Legal(first, second, kinds, plays)
    requires var s := StateAfter(first, second, plays);
             && !s.over && Takes(s, reply)
             && Answers(kinds[Mover(first, second, |plays|)], Flatten(s.grid), reply)
    ensures var play := Accepted(ParseMove(reply.raw).value, reply.raw, reply.durationMS);
            && Legal(first, second, kinds, plays + [play])
            && StateAfter(first, second, plays + [play]) == After(StateAfter(first, second, plays), reply)
  {
    var play := Accepted(ParseMove(reply.raw).value, reply.raw, reply.durationMS);
    assert reply == Line(play.raw, play.durationMS);
    assert (plays + [play])[..|plays|] == plays;
    LegalSnoc(first, second, kinds, plays, play);
    StateAfterSnoc(first, second, plays, play);
  }

  lemma TurnRowShape(s: GameState, gameID: int, turn: int, agent: int, reply: Reply)
    requires WellFormed(s)
    ensures var row := TurnRow(s, gameID, turn, agent, reply);
            row.gameID == gameID && row.seqNo == turn && row.agent == agent
  {
  }

  lemma {:induction false} PlayRowsShape(gameID: int, first: int, second: int, plays: seq<Accepted>)
    ensures |PlayRows(gameID, first, second, plays)| == |plays|
    ensures forall i :: 0 <= i < |plays| ==>
              var row := PlayRows(gameID, first, second, plays)[i];
              row.gameID == gameID && row.seqNo == i + 1 && row.agent == Mover(first, second, i)
  {
    hide TurnRow, StateAfter;
    if plays != [] {
      var init, last := plays[..|plays| - 1], plays[|plays| - 1];
      PlayRowsShape(gameID, first, second, init);
      TurnRowShape(StateAfter(first, second, init), gameID, |plays|, Mover(first, second, |init|),
        Line(last.raw, last.durationMS));
    }
  }

  /** Each agent's samples have grown by the durations of its accepted moves. */
  ghost predicate Sampled(
      before: map<int, seq<int>>, after: map<int, seq<int>>, first: int, second: int, plays: seq<Accepted>)
  {
    after.Keys == before.Keys
    && forall a :: a in before ==> after[a] == before[a] + SamplesOf(first, second, plays, a)
  }

  lemma SampledSnoc(
      before: map<int, seq<int>>, after: map<int, seq<int>>, first: int, second: int, plays: seq<Accepted>,
      play: Accepted)
    requires Sampled(before, after, first, second, plays)
    requires Mover(first, second, |plays|) in before
    ensures var agent := Mover(first, second, |plays|);
            Sampled(before, after[agent := after[agent] + [play.durationMS]], first, second, plays + [play])
  {
    forall a ensures SamplesOf(first, second, plays + [play], a) ==
                     SamplesOf(first, second, plays, a) +
                     (if Mover(first, second, |plays|) == a then [play.durationMS] else []) {
      assert (plays + [play])[..|plays|] == plays;
    }
    hide SamplesOf, Mover;
  }
}
