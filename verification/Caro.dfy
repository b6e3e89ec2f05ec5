/** The Caro engine: a mutable board and a game that detects a win by scanning around the last move. */
module Caro {
  import opened Text
  import opened Grids

  const BOARD_SIZE: nat := 8

  /** One-based coordinates, as the bot protocol uses them. */
  datatype Position = Position(X: int, Y: int)

  datatype MoveError = ErrOutOfBounds | ErrOccupied

  function Mark(player: nat): char {
    if player == 0 then 'X' else 'O'
  }

  /** The error that a placement on `g` reports, if any. */
  function Check(g: Grid, pos: Position): Option<MoveError>
    requires Square(g)
  {
    if !OnBoard(g, pos.X - 1, pos.Y - 1) then Some(ErrOutOfBounds)
    else if g[pos.Y - 1][pos.X - 1] != EMPTY then Some(ErrOccupied)
    else None
  }

  // ----- what a move means, with wins defined by lines rather than by scanning -----

  datatype GameState = GameState(
    grid: Grid, players: seq<string>, current: nat, turns: nat, over: bool, result: string)

  datatype PlayResult = Rejected(error: MoveError) | Next(state: GameState)

  ghost predicate WellFormed(s: GameState) {
    Square(s.grid) && |s.players| == 2 && s.current < 2
  }

  function Initial(size: nat, players: seq<string>): GameState {
    GameState(EmptyGrid(size), players, 0, 0, false, "")
  }

  ghost function Play(s: GameState, pos: Position): (r: PlayResult)
    requires WellFormed(s)
    ensures r.Next? ==> WellFormed(r.state) && |r.state.grid| == |s.grid| && r.state.players == s.players
  {
    match Check(s.grid, pos)
    case Some(error) => Rejected(error)
    case None =>
      var x, y, mark := pos.X - 1, pos.Y - 1, Mark(s.current);
      var s' := s.(grid := Put(s.grid, x, y, mark), turns := s.turns + 1, current := (s.current + 1) % 2);
      Next(Settle(s', s.players[s.current], FiveThrough(s'.grid, x, y, mark), Full(s'.grid)))
  }

  /** The verdict after a placement by `mover`; a line of five counts before a full board. */
  function Settle(s: GameState, mover: string, five: bool, full: bool): GameState {
    if five then s.(over := true, result := mover)
    else if full then s.(over := true, result := "draw")
    else s
  }

  // ----- the board -----

  class Board {
    const Size: nat
    const Cells: array2<char>

    ghost predicate Valid() {
      Cells.Length0 == Size && Cells.Length1 == Size
    }

    ghost function Grid(): (g: Grid)
      requires Valid()
      reads Cells
      ensures |g| == Size && Square(g)
      ensures forall x, y :: OnBoard(g, x, y) ==> g[y][x] == Cells[y, x]
    {
      seq(Size, y requires 0 <= y < Size reads Cells =>
        seq(Size, x requires 0 <= x < Size reads Cells => Cells[y, x]))
    }

    constructor (size: nat)
      ensures Valid() && fresh(Cells)
      ensures Grid() == EmptyGrid(size)
    {
      Size := size;
      Cells := new char[size, size]((_, _) => EMPTY);
      new;
      SameGrid(Grid(), EmptyGrid(size));
    }

    method Apply(pos: Position, mark: char) returns (err: Option<MoveError>)
      requires Valid()
      modifies Cells
      ensures err == Check(old(Grid()), pos)
      ensures Grid() == if err == None then Put(old(Grid()), pos.X - 1, pos.Y - 1, mark) else old(Grid())
    {
      if pos.X < 1 || pos.Y < 1 || pos.X > Size || pos.Y > Size {
        return Some(ErrOutOfBounds);
      }
      var x, y := pos.X - 1, pos.Y - 1;
      if Cells[y, x] != EMPTY {
        return Some(ErrOccupied);
      }
      Cells[y, x] := mark;
      SameGrid(Grid(), Put(old(Grid()), x, y, mark));
      return None;
    }

    /** One line of text, row by row. */
    method Snapshot() returns (text: string)
      requires Valid()
      ensures text == Flatten(Grid())
    {
      text := "";
      ghost var g := Grid();
      for y := 0 to Size
        invariant text + Flatten(g[y..]) == Flatten(g)
      {
        var row := seq(Size, x requires 0 <= x < Size reads Cells => Cells[y, x]);
        assert row == g[y];
        assert g[y..][1..] == g[y + 1..];
        text := text + row;
      }
    }
  }

  // ----- the game -----

  const SCAN_DIRECTIONS: seq<Direction> := [Vertical, Horizontal, DownRight, UpRight]

  /** Runs of `p` marks forward and `q` marks backward, each at most four, meet in a five exactly when p + q >= 4. */
  lemma ScanMeaning(g: Grid, x: int, y: int, d: Direction, p: int, q: int, m: char)
    requires Square(g) && MarkAt(g, x, y, d, 0, m)
    requires 0 <= p <= 4 && (forall i :: 1 <= i <= p ==> MarkAt(g, x, y, d, i, m))
    requires 0 <= q <= 4 && (forall i :: -q <= i <= -1 ==> MarkAt(g, x, y, d, i, m))
    requires p == 4 || !MarkAt(g, x, y, d, p + 1, m)
    requires q == 4 || !MarkAt(g, x, y, d, -q - 1, m)
    ensures p + q >= 4 <==> exists o :: -4 <= o <= 0 && Five(g, x, y, d, o, m)
  {
    if p + q >= 4 {
      assert Five(g, x, y, d, p - 4, m);
    } else {
      forall o | -4 <= o <= 0 ensures !Five(g, x, y, d, o, m) {
        assert p + 1 <= o + 4 || o <= -q - 1;
      }
    }
  }

  function Toward(forward: bool, i: int): int {
    if forward then i else -i
  }

  /** The same for the two runs as they are counted. */
  lemma RunsMeet(g: Grid, x: int, y: int, d: Direction, p: int, q: int, m: char)
    requires Square(g) && OnBoard(g, x, y) && g[y][x] == m
    requires 0 <= p <= 4 && forall j :: 1 <= j <= p ==> MarkAt(g, x, y, d, Toward(true, j), m)
    requires 0 <= q <= 4 && forall j :: 1 <= j <= q ==> MarkAt(g, x, y, d, Toward(false, j), m)
    requires p == 4 || !MarkAt(g, x, y, d, Toward(true, p + 1), m)
    requires q == 4 || !MarkAt(g, x, y, d, Toward(false, q + 1), m)
    ensures p + q >= 4 <==> exists o :: -4 <= o <= 0 && Five(g, x, y, d, o, m)
  {
    forall i: int | -q <= i <= -1 ensures MarkAt(g, x, y, d, i, m) {
      assert MarkAt(g, x, y, d, Toward(false, -i), m);
    }
    forall i: int | 1 <= i <= p ensures MarkAt(g, x, y, d, i, m) {
      assert MarkAt(g, x, y, d, Toward(true, i), m);
    }
    ScanMeaning(g, x, y, d, p, q, m);
  }

  class Game {
    const board: Board
    const players: seq<string>
    var currentPlayerIndex: nat
    var turnCount: nat
    var gameOver: bool
    var gameResult: string

    ghost predicate Valid()
      reads this
    {
      board.Valid() && |players| == 2 && currentPlayerIndex < 2
    }

    ghost function State(): (s: GameState)
      requires Valid()
      reads this, board.Cells
      ensures WellFormed(s)
    {
      GameState(board.Grid(), players, currentPlayerIndex, turnCount, gameOver, gameResult)
    }

    constructor (players: seq<string>, size: nat)
      requires |players| == 2
      ensures Valid() && fresh(board) && fresh(board.Cells)
      ensures State() == Initial(size, players)
    {
      board := new Board(size);
      this.players := players;
      currentPlayerIndex, turnCount, gameOver, gameResult := 0, 0, false, "";
    }

    /** Nothing here looks at `gameOver`: stopping at the end of the game is the caller's business. */
    method ApplyMove(pos: Position) returns (err: Option<MoveError>)
      requires Valid()
      modifies this, board.Cells
      ensures Valid()
      ensures match Play(old(State()), pos)
              case Rejected(error) => err == Some(error) && State() == old(State())
              case Next(state) => err == None && State() == state
    {
      hide FiveThrough, Full;
      ghost var s := State();
      var prevPlayerIdx := currentPlayerIndex;
      var mark := Mark(prevPlayerIdx);
      err := board.Apply(pos, mark);
      if err != None {
        assert State() == s;
        return;
      }
      turnCount := turnCount + 1;
      currentPlayerIndex := (currentPlayerIndex + 1) % |players|;
      ghost var s' := State();
      assert s' == s.(
        grid := Put(s.grid, pos.X - 1, pos.Y - 1, mark), turns := s.turns + 1, current := (s.current + 1) % 2);
      assert Play(s, pos) ==
             Next(Settle(s', s.players[s.current], FiveThrough(s'.grid, pos.X - 1, pos.Y - 1, mark), Full(s'.grid)));
      hide Play, Put, Check;

      var won := IsWinningMove(pos, mark);
      if won {
        gameOver := true;
        gameResult := players[prevPlayerIdx];
        return;
      }
      var full := IsBoardFull();
      if full {
        gameOver := true;
        gameResult := "draw";
        return;
      }
    }

    method Snapshot() returns (text: string)
      requires Valid()
      ensures text == Flatten(State().grid)
    {
      text := board.Snapshot();
    }

    function CurrentPlayer(): string
      requires Valid()
      reads this
    {
      players[currentPlayerIndex]
    }

    /** How many marks follow (x, y) without a gap on one side, four at most. */
    method Follow(x: int, y: int, d: Direction, forward: bool, mark: char) returns (n: int)
      requires Valid()
      ensures 0 <= n <= 4 && forall j :: 1 <= j <= n ==> MarkAt(board.Grid(), x, y, d, Toward(forward, j), mark)
      ensures n == 4 || !MarkAt(board.Grid(), x, y, d, Toward(forward, n + 1), mark)
    {
      n := 0;
      var i := 1;
      while i < 5
        invariant 1 <= i <= 5 && n == i - 1
        invariant forall j :: 1 <= j < i ==> MarkAt(board.Grid(), x, y, d, Toward(forward, j), mark)
      {
        var nx, ny := StepX(x, d, Toward(forward, i)), StepY(y, d, Toward(forward, i));
        if nx < 0 || nx >= board.Size || ny < 0 || ny >= board.Size {
          break;
        }
        if board.Cells[ny, nx] != mark {
          break;
        }
        n := n + 1;
        i := i + 1;
      }
    }

    method IsWinningMove(pos: Position, mark: char) returns (won: bool)
      requires Valid()
      requires OnBoard(board.Grid(), pos.X - 1, pos.Y - 1) && board.Grid()[pos.Y - 1][pos.X - 1] == mark
      ensures won <==> FiveThrough(board.Grid(), pos.X - 1, pos.Y - 1, mark)
    {
      hide Five, MarkAt;
      ghost var g := board.Grid();
      var x, y := pos.X - 1, pos.Y - 1;
      for k := 0 to |SCAN_DIRECTIONS|
        invariant forall j, o :: 0 <= j < k && -4 <= o <= 0 ==> !Five(g, x, y, SCAN_DIRECTIONS[j], o, mark)
      {
        var d := SCAN_DIRECTIONS[k];
        var count := 1;
        var forward := Follow(x, y, d, true, mark);
        count := count + forward;
        var backward := Follow(x, y, d, false, mark);
        count := count + backward;
        RunsMeet(g, x, y, d, forward, backward, mark);
        if count >= 5 {
          return true;
        }
      }
      forall d: Direction, o | -4 <= o <= 0 ensures !Five(g, x, y, d, o, mark) {
        assert d == SCAN_DIRECTIONS[0] || d == SCAN_DIRECTIONS[1] || d == SCAN_DIRECTIONS[2] || d == SCAN_DIRECTIONS[3];
      }
      return false;
    }

    method IsBoardFull() returns (full: bool)
      requires Valid()
      ensures full <==> Full(board.Grid())
    {
      ghost var g := board.Grid();
      for y := 0 to board.Size
        invariant forall u, v :: 0 <= v < y && OnBoard(g, u, v) ==> g[v][u] != EMPTY
      {
        for x := 0 to board.Size
          invariant forall u, v :: 0 <= v < y && OnBoard(g, u, v) ==> g[v][u] != EMPTY
          invariant forall u :: 0 <= u < x ==> g[y][u] != EMPTY
        {
          if board.Cells[y, x] == EMPTY {
            assert g[y][x] == EMPTY;
            return false;
          }
        }
      }
      return true;
    }
  }

  method NewGame(players: seq<string>) returns (g: Game?)
    ensures g == null <==> |players| != 2
    ensures g != null ==>
              && g.Valid() && fresh(g) && fresh(g.board) && fresh(g.board.Cells)
              && g.State() == Initial(BOARD_SIZE, players)
  {
    if |players| != 2 {
      return null;
    }
    g := new Game(players, BOARD_SIZE);
  }
}
