/** The replay page: stored rows become replay moves, and replay moves become stones on a board. */
module GameView {
  import opened Text
  import opened Grids
  import opened Caro
  import opened MoveText
  import opened CaroRuns
  import opened Database
  import opened GameTraces
  import opened MatchFacts

  const BLACK: char := 'B'
  const WHITE: char := 'W'

  datatype GameInfo = GameInfo(blackAgent: int, whiteAgent: int, result: string, moveCount: int)

  datatype MoveView = MoveView(num: int, agent: int, pos: string, accepted: bool, durationMS: Option<int>)

  /** One entry of the list handed to the board renderer. */
  datatype Stone = Stone(x: int, y: int, mark: Option<char>)

  function GameFrom(row: GameRow): GameInfo {
    GameInfo(ParseIntOrDefault(row.playerA), ParseIntOrDefault(row.playerB), row.result, row.moveCount)
  }

  /** A payload without coordinates decodes to 0, 0. */
  function Coordinates(payload: Payload): (int, int) {
    match payload
    case At(x, y) => (x, y)
    case _ => (0, 0)
  }

  function MarkFor(game: GameInfo, agent: int): Option<char> {
    var marks := map[game.blackAgent := BLACK, game.whiteAgent := WHITE];
    if agent in marks then Some(marks[agent]) else None
  }

  function StoneOf(game: GameInfo, row: MoveRow): Stone {
    var (x, y) := Coordinates(row.payload);
    Stone(x, y, MarkFor(game, row.agent))
  }

  function ViewOf(row: MoveRow, i: nat): MoveView {
    var (x, y) := Coordinates(row.payload);
    var pos := if x > 0 && y > 0 then FormatInt(x) + "," + FormatInt(y) else "";
    MoveView(i + 1, row.agent, pos, row.accepted, row.durationMS)
  }

  function StonesOf(game: GameInfo, rows: seq<MoveRow>): seq<Stone> {
    seq(|rows|, i requires 0 <= i < |rows| => StoneOf(game, rows[i]))
  }

  method ToGameView(game: GameInfo, rows: seq<MoveRow>) returns (views: seq<MoveView>, stones: seq<Stone>)
    ensures |views| == |rows| && stones == StonesOf(game, rows)
    ensures forall i :: 0 <= i < |rows| ==> views[i] == ViewOf(rows[i], i)
  {
    views, stones := [], [];
    for i := 0 to |rows|
      invariant |views| == |stones| == i
      invariant forall j :: 0 <= j < i ==> views[j] == ViewOf(rows[j], j) && stones[j] == StoneOf(game, rows[j])
    {
      var (x, y) := Coordinates(rows[i].payload);
      var pos := "";
      if x > 0 && y > 0 {
        pos := FormatInt(x) + "," + FormatInt(y);
      }
      views := views + [MoveView(i + 1, rows[i].agent, pos, rows[i].accepted, rows[i].durationMS)];
      stones := stones + [Stone(x, y, MarkFor(game, rows[i].agent))];
    }
  }

  /** The renderer's board after the first `upTo` entries: entries off the board draw nothing. */
  function BoardOf(stones: seq<Stone>, upTo: nat): (g: Grid)
    requires upTo <= |stones|
    ensures |g| == BOARD_SIZE && Square(g)
  {
    if upTo == 0 then EmptyGrid(BOARD_SIZE)
    else
      var g, s := BoardOf(stones, upTo - 1), stones[upTo - 1];
      if OnBoard(g, s.x - 1, s.y - 1) then Put(g, s.x - 1, s.y - 1, if s.mark.Some? then s.mark.value else EMPTY) else g
  }

  function Color(mark: char): char {
    if mark == 'X' then 'B' else if mark == 'O' then 'W' else '.'
  }

  /** The engine's board in the renderer's colours. */
  function Colored(g: Grid): (r: Grid)
    requires Square(g)
    ensures |r| == |g| && Square(r)
    ensures forall x, y :: OnBoard(g, x, y) ==> r[y][x] == Color(g[y][x])
  {
    seq(|g|, y requires 0 <= y < |g| => seq(|g|, x requires 0 <= x < |g| => Color(g[y][x])))
  }

  lemma ColoredPut(g: Grid, x: int, y: int, m: char)
    requires Square(g) && OnBoard(g, x, y)
    ensures Colored(Put(g, x, y, m)) == Put(Colored(g), x, y, Color(m))
  {
    SameGrid(Colored(Put(g, x, y, m)), Put(Colored(g), x, y, Color(m)));
  }

  lemma LegalPrefix(first: int, second: int, kinds: map<int, AgentType>, plays: seq<Accepted>, n: nat)
    requires first in kinds && second in kinds && Legal(first, second, kinds, plays) && n <= |plays|
    ensures Legal(first, second, kinds, plays[..n])
  {
    hide Answers, StateAfter;
    forall i: nat | i < n ensures LegalAt(first, second, kinds, plays[..n], i) {
      assert LegalAt(first, second, kinds, plays, i);
      assert plays[..n][..i] == plays[..i];
    }
  }

  /** One more accepted row puts one more stone where the engine put its mark. */
  lemma StoneFollowsEngine(tr: GameTrace, kinds: map<int, AgentType>, game: GameInfo, n: nat, row: MoveRow)
    requires tr.first != tr.second && tr.first in kinds && tr.second in kinds && n < |tr.plays|
    requires Legal(tr.first, tr.second, kinds, tr.plays)
    requires game.blackAgent == tr.first && game.whiteAgent == tr.second
    requires row.agent == Mover(tr.first, tr.second, n) && row.payload == At(tr.plays[n].pos.X, tr.plays[n].pos.Y)
    ensures var g := StateAfter(tr.first, tr.second, tr.plays[..n]).grid;
            var g' := StateAfter(tr.first, tr.second, tr.plays[..n + 1]).grid;
            var stone := StoneOf(game, row);
            && OnBoard(g, stone.x - 1, stone.y - 1) && stone.mark.Some?
            && Colored(g') == Put(Colored(g), stone.x - 1, stone.y - 1, stone.mark.value)
  {
    var before, play := tr.plays[..n], tr.plays[n];
    var s := StateAfter(tr.first, tr.second, before);
    assert tr.plays[..n + 1] == before + [play];
    assert LegalAt(tr.first, tr.second, kinds, tr.plays, n);
    LegalPrefix(tr.first, tr.second, kinds, tr.plays, n);
    LegalState(tr.first, tr.second, kinds, before);
    StateAfterSnoc(tr.first, tr.second, before, play);
    NextMove(s, play.pos);
    ColoredPut(s.grid, play.pos.X - 1, play.pos.Y - 1, Mark(s.current));
    hide StateAfter, Play, Legal, Answers;
  }

  lemma RefusedRowIsBlank(tr: GameTrace, kinds: map<int, AgentType>, gameID: int)
    requires tr.first in kinds && tr.second in kinds && Finished(tr, kinds) && tr.fault.Some?
    ensures |GameRows(tr, gameID)| == |tr.plays| + 1
    ensures Coordinates(GameRows(tr, gameID)[|tr.plays|].payload) == (0, 0)
  {
    hide Play, Answers;
    PlayRowsShape(gameID, tr.first, tr.second, tr.plays);
  }

  lemma FinishedIsLegal(tr: GameTrace, kinds: map<int, AgentType>)
    requires tr.first in kinds && tr.second in kinds && Finished(tr, kinds)
    ensures Legal(tr.first, tr.second, kinds, tr.plays)
  {
  }

  lemma BlankBoards(first: int, second: int)
    ensures EmptyGrid(BOARD_SIZE) == Colored(StateAfter(first, second, []).grid)
  {
    assert Positions([]) == [];
    SameGrid(EmptyGrid(BOARD_SIZE), Colored(StateAfter(first, second, []).grid));
  }

  /**
    The replay page shows the engine: after any number of stored rows the rendered board is the
    engine's board after as many accepted moves, and a refused last row draws nothing.
   */
  lemma {:induction false} ReplayShowsTheEngine(
      tr: GameTrace, kinds: map<int, AgentType>, gameID: int, game: GameInfo, stones: seq<Stone>, upTo: nat)
    requires tr.first != tr.second && tr.first in kinds && tr.second in kinds && Finished(tr, kinds)
    requires game.blackAgent == tr.first && game.whiteAgent == tr.second
    requires |stones| == |GameRows(tr, gameID)| && upTo <= |stones|
    requires forall i :: 0 <= i < |stones| ==> stones[i] == StoneOf(game, GameRows(tr, gameID)[i])
    ensures BoardOf(stones, upTo) ==
            Colored(StateAfter(tr.first, tr.second, tr.plays[..if upTo <= |tr.plays| then upTo else |tr.plays|]).grid)
  {
    hide Play, TurnRow, Takes, Answers, StateAfter, Colored, Put, Legal, PlayRows, MarkFor;
    RowsOfGame(tr, kinds, gameID);
    PlayRowsShape(gameID, tr.first, tr.second, tr.plays);
    FinishedIsLegal(tr, kinds);
    if upTo == 0 {
      assert tr.plays[..0] == [];
      BlankBoards(tr.first, tr.second);
    } else {
      ReplayShowsTheEngine(tr, kinds, gameID, game, stones, upTo - 1);
      if upTo <= |tr.plays| {
        PlayRowIs(gameID, tr.first, tr.second, kinds, tr.plays, upTo - 1);
        StoneFollowsEngine(tr, kinds, game, upTo - 1, GameRows(tr, gameID)[upTo - 1]);
      } else {
        assert tr.plays[..|tr.plays|] == tr.plays;
        assert upTo - 1 == |tr.plays| && stones[upTo - 1].x == 0 by {
          RefusedRowIsBlank(tr, kinds, gameID);
        }
      }
    }
  }

  /**
    The page drawn from a stored game and its stored move rows follows the moves that the stored
    events report as accepted: after `upTo` rows it shows a fresh engine after as many of them.
   */
  ghost predicate PageFollows(
      game: GameInfo, rows: seq<MoveRow>, events: seq<Event>, first: int, second: int, upTo: nat)
    requires upTo <= |rows|
  {
    var moves := AcceptedIn(events);
    && |moves| <= |rows|
    && BoardOf(StonesOf(game, rows), upTo) ==
       Colored(Run(Start(first, second), moves[..if upTo <= |moves| then upTo else |moves|]).grid)
  }

  /** The page reads the right game, and follows its events at every step. */
  ghost predicate PageShows(game: GameInfo, rows: seq<MoveRow>, events: seq<Event>, first: int, second: int) {
    && game.blackAgent == first && game.whiteAgent == second
    && forall upTo :: 0 <= upTo <= |rows| ==> PageFollows(game, rows, events, first, second, upTo)
  }

  lemma PositionsPrefix(plays: seq<Accepted>, n: nat)
    requires n <= |plays|
    ensures Positions(plays)[..n] == Positions(plays[..n])
  {
  }

  /** So the page of a game, drawn from its rows, replays the events of the game. */
  lemma PageShowsTheEvents(
      matchID: int, tr: GameTrace, kinds: map<int, AgentType>, gameID: int, attempt: int, number: int)
    requires tr.first != tr.second && IsInt64(tr.first) && IsInt64(tr.second)
    requires tr.first in kinds && tr.second in kinds && Finished(tr, kinds)
    ensures PageShows(
              GameFrom(FinishedRow(matchID, tr)), GameRows(tr, gameID), GameEvents(tr, attempt, number),
              tr.first, tr.second)
  {
    hide FinishedRow, GameRows, GameEvents, Finished, GameFrom, StoneOf, AcceptedIn, Colored, Faithful, BoardOf;
    var game, rows := GameFrom(FinishedRow(matchID, tr)), GameRows(tr, gameID);
    PlayersReadBack(matchID, tr);
    ReplayFidelity(tr, kinds, attempt, number);
    RowsOfGame(tr, kinds, gameID);
    forall upTo: nat | upTo <= |rows|
      ensures PageFollows(game, rows, GameEvents(tr, attempt, number), tr.first, tr.second, upTo)
    {
      ReplayShowsTheEngine(tr, kinds, gameID, game, StonesOf(game, rows), upTo);
      PositionsPrefix(tr.plays, if upTo <= |tr.plays| then upTo else |tr.plays|);
    }
  }

  /** The page learns the right players: the IDs stored as text read back as the agents of the game. */
  lemma PlayersReadBack(matchID: int, tr: GameTrace)
    requires IsInt64(tr.first) && IsInt64(tr.second)
    ensures var game := GameFrom(FinishedRow(matchID, tr));
            && game.blackAgent == tr.first && game.whiteAgent == tr.second
            && game.moveCount == |tr.plays| && game.result == ResultCode(Winner(tr), tr.first)
  {
    ParseIntFormatInt(tr.first);
    ParseIntFormatInt(tr.second);
  }

  /** The list beside the board: move `i` names its mover, and its text reads back as the accepted move. */
  lemma ViewReadsBack(tr: GameTrace, kinds: map<int, AgentType>, gameID: int, i: nat)
    requires tr.first in kinds && tr.second in kinds && Finished(tr, kinds)
    requires i < |GameRows(tr, gameID)|
    ensures var view := ViewOf(GameRows(tr, gameID)[i], i);
            && view.num == i + 1 && view.agent == Mover(tr.first, tr.second, i)
            && (view.accepted <==> i < |tr.plays|)
            && (if i < |tr.plays|
                then ParseMove(view.pos) == Some(tr.plays[i].pos) && view.durationMS == Some(tr.plays[i].durationMS)
                else view.pos == "" && view.durationMS == None)
  {
    hide Play, TurnRow, StateAfter, FormatInt, ParseMove, Answers;
    RowsOfGame(tr, kinds, gameID);
    if i < |tr.plays| {
      AcceptedIsOnBoard(tr, kinds, i);
      PlayRowIs(gameID, tr.first, tr.second, kinds, tr.plays, i);
      ParseFormatPosition(tr.plays[i].pos);
    } else {
      RefusedRowIsBlank(tr, kinds, gameID);
    }
  }

  lemma AcceptedIsOnBoard(tr: GameTrace, kinds: map<int, AgentType>, i: nat)
    requires tr.first in kinds && tr.second in kinds && Finished(tr, kinds) && i < |tr.plays|
    ensures 1 <= tr.plays[i].pos.X <= BOARD_SIZE && 1 <= tr.plays[i].pos.Y <= BOARD_SIZE
  {
    assert LegalAt(tr.first, tr.second, kinds, tr.plays, i);
    NextMove(StateAfter(tr.first, tr.second, tr.plays[..i]), tr.plays[i].pos);
    hide Play, StateAfter;
  }
}
