/**
  A game in which the opponent blocks instead of winning, against the intent stated beside its weights.
  A user's program opens and takes five cells of the seventh column around a gap; the opponent,
  always on its best cell, builds an open four in the fifth column and then fills the gap.
 */
module OpponentGap {
  import opened Text
  import opened Grids
  import opened Caro
  import opened CaroRuns
  import opened MoveText
  import opened Database
  import opened GameTraces
  import opened Opponent
  import opened OpponentTactics

  // ----- the game -----

  const X_ROWS: seq<int> := [1, 6, 5, 2, 3]
  const O_ROWS: seq<int> := [3, 4, 5, 2]
  const X_COLUMN := 6
  const O_COLUMN := 4

  /** How many O moves are made before the one on this row; X moves likewise. */
  function OTurn(row: int): nat {
    if row == 3 then 0 else if row == 4 then 1 else if row == 5 then 2 else if row == 2 then 3 else 64
  }

  function XTurn(row: int): nat {
    if row == 1 then 0 else if row == 6 then 1 else if row == 5 then 2 else if row == 2 then 3
    else if row == 3 then 4 else 64
  }

  /** The column and row of move `i`; the tenth move fills the gap. */
  function GapColumn(i: nat): int {
    if i % 2 == 0 || i == 9 then X_COLUMN else O_COLUMN
  }

  function GapRow(i: nat): int
    requires i <= 9
  {
    if i == 9 then 4 else if i % 2 == 0 then X_ROWS[i / 2] else O_ROWS[i / 2]
  }

  function GapMove(i: nat): Position
    requires i <= 9
  {
    Position(GapColumn(i) + 1, GapRow(i) + 1)
  }

  predicate HasO(n: nat, row: int) {
    OTurn(row) < n / 2
  }

  predicate HasX(n: nat, row: int) {
    XTurn(row) < (n + 1) / 2
  }

  /** The board after the first `n` moves. */
  function GapCell(n: nat, x: int, y: int): char {
    if x == O_COLUMN && HasO(n, y) then 'O' else if x == X_COLUMN && HasX(n, y) then 'X' else EMPTY
  }

  // ----- what a cell is worth on it -----

  /** The text of the board after `n` moves, O to move. */
  ghost predicate GapText(state: Text64, n: nat) {
    && n <= 9
    && (forall x, y :: Inside(x, y) ==> state[y * BOARD_SIZE + x] == GapCell(n, x, y))
    && Sides(state) == ('O', 'X')
  }

  lemma CellOnTheWay(state: Text64, n: nat, x: int, y: int, d: Direction, i: int)
    requires GapText(state, n) && Inside(StepX(x, d, i), StepY(y, d, i))
    ensures Holds(state, x, y, d, i, 'O') <==> StepX(x, d, i) == O_COLUMN && HasO(n, StepY(y, d, i))
    ensures Holds(state, x, y, d, i, 'X') <==> StepX(x, d, i) == X_COLUMN && HasX(n, StepY(y, d, i))
  {
    hide HasO, HasX;
    assert state[StepY(y, d, i) * BOARD_SIZE + StepX(x, d, i)] == GapCell(n, StepX(x, d, i), StepY(y, d, i));
  }

  /** A window that is not vertical meets each column at one row, so it holds at most one O and one X. */
  lemma {:induction false} CrossHits(state: Text64, n: nat, x: int, y: int, d: Direction, o: int, k: nat)
    requires GapText(state, n) && d != Vertical
    requires forall i :: o <= i < o + k ==> Inside(StepX(x, d, i), StepY(y, d, i))
    ensures var i := O_COLUMN - x;
            Hits(state, x, y, d, o, k, 'O') == if o <= i < o + k && HasO(n, StepY(y, d, i)) then 1 else 0
    ensures var i := X_COLUMN - x;
            Hits(state, x, y, d, o, k, 'X') == if o <= i < o + k && HasX(n, StepY(y, d, i)) then 1 else 0
  {
    hide GapText, HasO, HasX, Holds, Inside;
    if k > 0 {
      CrossHits(state, n, x, y, d, o, k - 1);
      CellOnTheWay(state, n, x, y, d, o + k - 1);
    }
  }

  /** A window from column `s` to `s + 4`, on a line with or without an O and an X; the O column is in each. */
  function CrossTerm(s: int, withO: bool, withX: bool): nat {
    if s < 0 || s > 3 then 0
    else if withO then (if withX && s >= 2 then 0 else 10)
    else if withX && s >= 2 then 9 else 0
  }

  lemma CrossWindow(state: Text64, n: nat, x: int, y: int, d: Direction, o: int)
    requires GapText(state, n) && d != Vertical && Free(state, x, y, 'O', 'X') && -4 <= o <= 0
    ensures WindowScore(state, x, y, d, o, 'O', 'X') ==
            if WindowInside(x, y, d, o)
            then CrossTerm(x + o, HasO(n, StepY(y, d, O_COLUMN - x)), HasX(n, StepY(y, d, X_COLUMN - x))) else 0
  {
    if WindowInside(x, y, d, o) {
      assert Inside(StepX(x, d, o), StepY(y, d, o)) && Inside(StepX(x, d, o + 4), StepY(y, d, o + 4));
      CrossHits(state, n, x, y, d, o, 5);
    }
  }

  function CrossLine(x: int, withO: bool, withX: bool): nat {
    CrossTerm(x - 4, withO, withX) + CrossTerm(x - 3, withO, withX) + CrossTerm(x - 2, withO, withX) +
    CrossTerm(x - 1, withO, withX) + CrossTerm(x, withO, withX)
  }

  /** The edge cuts no window of a line that has a mark. */
  ghost predicate Uncut(n: nat, x: int, y: int, d: Direction) {
    HasO(n, StepY(y, d, O_COLUMN - x)) || HasX(n, StepY(y, d, X_COLUMN - x)) ==>
      forall o :: -4 <= o <= 0 && 0 <= x + o <= 3 ==> WindowInside(x, y, d, o)
  }

  /** A line that is not vertical: worth at most all its windows, and exactly that if the edge cuts none of them. */
  lemma CrossWorth(state: Text64, n: nat, x: int, y: int, d: Direction)
    requires GapText(state, n) && d != Vertical && Free(state, x, y, 'O', 'X')
    ensures var withO, withX := HasO(n, StepY(y, d, O_COLUMN - x)), HasX(n, StepY(y, d, X_COLUMN - x));
            && LineScore(state, x, y, d, 5, 'O', 'X') <= CrossLine(x, withO, withX)
            && (Uncut(n, x, y, d) ==>
                LineScore(state, x, y, d, 5, 'O', 'X') == CrossLine(x, withO, withX))
  {
    hide WindowScore, WindowInside, HasO, HasX, Free, LineScore;
    LineUnfolds(state, x, y, d, 'O', 'X');
    forall o | -4 <= o <= 0
      ensures WindowScore(state, x, y, d, o, 'O', 'X') ==
              if WindowInside(x, y, d, o)
              then CrossTerm(x + o, HasO(n, StepY(y, d, O_COLUMN - x)), HasX(n, StepY(y, d, X_COLUMN - x))) else 0
    {
      CrossWindow(state, n, x, y, d, o);
    }
  }

  /** How many of the rows `s`, ..., `s + k - 1` of a column are marked. */
  function Marked(n: nat, x: int, s: int, k: nat): (c: nat)
    ensures c <= k
    ensures x != O_COLUMN && x != X_COLUMN ==> c == 0
  {
    if k == 0 then 0
    else Marked(n, x, s, k - 1) + (if GapCell(n, x, s + k - 1) != EMPTY then 1 else 0)
  }

  lemma {:induction false} VerticalHits(state: Text64, n: nat, x: int, y: int, o: int, k: nat)
    requires GapText(state, n)
    requires forall i :: o <= i < o + k ==> Inside(StepX(x, Vertical, i), StepY(y, Vertical, i))
    ensures Hits(state, x, y, Vertical, o, k, 'O') == if x == O_COLUMN then Marked(n, x, y + o, k) else 0
    ensures Hits(state, x, y, Vertical, o, k, 'X') == if x == X_COLUMN then Marked(n, x, y + o, k) else 0
  {
    hide GapText, HasO, HasX, Holds, Inside;
    if k > 0 {
      VerticalHits(state, n, x, y, o, k - 1);
      CellOnTheWay(state, n, x, y, Vertical, o + k - 1);
    }
  }

  /** The vertical window from row `s` to `s + 4`. */
  function VerticalTerm(n: nat, x: int, s: int): int
  {
    var c := Marked(n, x, s, 5);
    if s < 0 || s > 3 || c > 4 then 0 else if x == O_COLUMN then OFF_SCORE[c] else DEF_SCORE[c]
  }

  lemma VerticalWindow(state: Text64, n: nat, x: int, y: int, o: int)
    requires GapText(state, n) && Free(state, x, y, 'O', 'X') && -4 <= o <= 0
    ensures WindowScore(state, x, y, Vertical, o, 'O', 'X') == VerticalTerm(n, x, y + o)
  {
    if WindowInside(x, y, Vertical, o) {
      assert Inside(StepX(x, Vertical, o), StepY(y, Vertical, o))
             && Inside(StepX(x, Vertical, o + 4), StepY(y, Vertical, o + 4));
    }
    hide GapText, HasO, HasX, Holds;
    HitsMissTheCentre(state, x, y, Vertical, o, 5, 'O');
    HitsMissTheCentre(state, x, y, Vertical, o, 5, 'X');
    if 0 <= y + o <= 3 {
      VerticalHits(state, n, x, y, o, 5);
    }
  }

  function VerticalLine(n: nat, x: int, y: int): int {
    VerticalTerm(n, x, y - 4) + VerticalTerm(n, x, y - 3) + VerticalTerm(n, x, y - 2) +
    VerticalTerm(n, x, y - 1) + VerticalTerm(n, x, y)
  }

  lemma VerticalWorth(state: Text64, n: nat, x: int, y: int)
    requires GapText(state, n) && Free(state, x, y, 'O', 'X')
    ensures LineScore(state, x, y, Vertical, 5, 'O', 'X') == VerticalLine(n, x, y)
  {
    hide WindowScore, VerticalTerm, Free, GapText, LineScore;
    LineUnfolds(state, x, y, Vertical, 'O', 'X');
    VerticalWindow(state, n, x, y, -4);
    VerticalWindow(state, n, x, y, -3);
    VerticalWindow(state, n, x, y, -2);
    VerticalWindow(state, n, x, y, -1);
    VerticalWindow(state, n, x, y, 0);
  }

  /** The same by the number of windows of the line through column `x`, and of those that reach the X column. */
  function CrossTable(x: int, withO: bool, withX: bool): int {
    var all := if x <= 3 then x + 1 else 8 - x;
    var shared := if x <= 1 then 0 else if x == 2 || x == 7 then 1 else 2;
    if withO then 10 * (if withX then all - shared else all) else if withX then 9 * shared else 0
  }

  lemma CrossLineIsTable(x: int, withO: bool, withX: bool)
    requires 0 <= x < BOARD_SIZE
    ensures CrossLine(x, withO, withX) == CrossTable(x, withO, withX)
  {
  }

  predicate OToMove(n: nat) {
    n == 1 || n == 3 || n == 5 || n == 7 || n == 9
  }

  /** What the four vertical windows of a column are worth after `n` moves. */
  function Terms(n: nat, x: int): (t: seq<int>)
    ensures |t| == 4
  {
    if x == X_COLUMN then
      if n == 1 then [9, 9, 0, 0] else if n == 3 then [9, 9, 9, 9] else if n == 5 then [9, 90, 90, 90]
      else if n == 7 then [90, 900, 900, 90] else [900, 90_000, 90_000, 900]
    else if x == O_COLUMN then
      if n == 1 then [0, 0, 0, 0] else if n == 3 then [10, 10, 10, 10] else if n == 5 then [100, 100, 100, 100]
      else if n == 7 then [100, 1000, 1000, 1000] else [1000, 100_000, 100_000, 1000]
    else [0, 0, 0, 0]
  }

  function VerticalTable(n: nat, x: int, y: int): int {
    var t := Terms(n, x);
    (if y <= 4 then t[0] else 0) + (if 1 <= y <= 5 then t[1] else 0) +
    (if 2 <= y <= 6 then t[2] else 0) + (if 3 <= y then t[3] else 0)
  }

  lemma MarkedUnfolds(n: nat, x: int, s: int)
    ensures Marked(n, x, s, 5) ==
            (if GapCell(n, x, s) != EMPTY then 1 else 0) + (if GapCell(n, x, s + 1) != EMPTY then 1 else 0) +
            (if GapCell(n, x, s + 2) != EMPTY then 1 else 0) + (if GapCell(n, x, s + 3) != EMPTY then 1 else 0) +
            (if GapCell(n, x, s + 4) != EMPTY then 1 else 0)
  {
    hide GapCell;
    assert Marked(n, x, s, 3) == Marked(n, x, s, 2) + (if GapCell(n, x, s + 2) != EMPTY then 1 else 0);
    assert Marked(n, x, s, 1) == if GapCell(n, x, s) != EMPTY then 1 else 0;
  }

  lemma VerticalTermIs(n: nat, x: int, s: int)
    requires OToMove(n) && 0 <= s <= 3
    ensures VerticalTerm(n, x, s) == Terms(n, x)[s]
  {
    MarkedUnfolds(n, x, s);
    hide Marked;
  }

  lemma VerticalLineIsTable(n: nat, x: int, y: int)
    requires OToMove(n) && Inside(x, y)
    ensures VerticalLine(n, x, y) == VerticalTable(n, x, y)
  {
    forall s | 0 <= s <= 3 ensures VerticalTerm(n, x, s) == Terms(n, x)[s] {
      VerticalTermIs(n, x, s);
    }
    hide Terms, Marked;
  }

  /** What a cell is worth if the edge cuts no window on its lines. */
  function Estimate(n: nat, x: int, y: int): int {
    CenterBonus(x, y) + VerticalTable(n, x, y)
    + CrossTable(x, HasO(n, y), HasX(n, y))
    + CrossTable(x, HasO(n, y + (O_COLUMN - x)), HasX(n, y + (X_COLUMN - x)))
    + CrossTable(x, HasO(n, y - (O_COLUMN - x)), HasX(n, y - (X_COLUMN - x)))
  }

  lemma CellEstimate(state: Text64, n: nat, x: int, y: int)
    requires GapText(state, n) && OToMove(n) && Inside(x, y) && GapCell(n, x, y) == EMPTY
    ensures EmptyCell(state, y * BOARD_SIZE + x) && Opponent.Value(state, y * BOARD_SIZE + x) <= Estimate(n, x, y)
    ensures Uncut(n, x, y, Horizontal) && Uncut(n, x, y, DownRight) && Uncut(n, x, y, UpRight) ==>
              Opponent.Value(state, y * BOARD_SIZE + x) == Estimate(n, x, y)
  {
    hide LineScore, StarScore, VerticalLine, VerticalTable, CrossTable, CrossLine, HasO, HasX, WindowInside;
    var k := y * BOARD_SIZE + x;
    assert state[k] == EMPTY && Column(k) == x && Row(k) == y;
    StarUnfolds(state, k, 'O', 'X');
    VerticalWorth(state, n, x, y);
    VerticalLineIsTable(n, x, y);
    forall d: Direction | d != Vertical
      ensures var withO, withX := HasO(n, StepY(y, d, O_COLUMN - x)), HasX(n, StepY(y, d, X_COLUMN - x));
              && LineScore(state, x, y, d, 5, 'O', 'X') <= CrossTable(x, withO, withX)
              && (Uncut(n, x, y, d) ==> LineScore(state, x, y, d, 5, 'O', 'X') == CrossTable(x, withO, withX))
    {
      CrossWorth(state, n, x, y, d);
      CrossLineIsTable(x, HasO(n, StepY(y, d, O_COLUMN - x)), HasX(n, StepY(y, d, X_COLUMN - x)));
    }
    hide GapText, GapCell, Uncut;
  }

  // ----- the replies -----

  /** The cell that O takes after `n` moves, and its worth. */
  function Reply(n: nat): nat
    requires OToMove(n)
  {
    GapRow(n) * BOARD_SIZE + GapColumn(n)
  }

  function Top(n: nat): int {
    if n == 1 then 25 else if n == 3 then 66 else if n == 5 then 325 else if n == 7 then 2124 else 181_846
  }

  /** The estimate of (x, y) is below `top`, or it is `top` and cell `k` comes no later in reading order. */
  predicate Below(n: nat, x: int, y: int, top: int, k: nat) {
    Estimate(n, x, y) < top || (Estimate(n, x, y) == top && k <= y * BOARD_SIZE + x)
  }

  /** Off both columns there is nothing to gain but crossings. */
  lemma CrossingIsSmall(n: nat, x: int, y: int)
    requires Inside(x, y) && x != O_COLUMN && x != X_COLUMN
    ensures Estimate(n, x, y) <= 128
  {
    hide HasO, HasX;
  }

  lemma Others1(x: int, y: int)
    requires Inside(x, y) && GapCell(1, x, y) == EMPTY
    ensures Below(1, x, y, 25, 28)
  {
  }

  lemma Others3(x: int, y: int)
    requires Inside(x, y) && GapCell(3, x, y) == EMPTY
    ensures Below(3, x, y, 66, 36)
  {
  }

  lemma Others5(x: int, y: int)
    requires Inside(x, y) && GapCell(5, x, y) == EMPTY
    ensures Below(5, x, y, 325, 44)
  {
  }

  lemma Others7(x: int, y: int)
    requires Inside(x, y) && GapCell(7, x, y) == EMPTY
    ensures Below(7, x, y, 2124, 20)
  {
    if x != O_COLUMN && x != X_COLUMN {
      hide Estimate;
      CrossingIsSmall(7, x, y);
    }
  }

  lemma Others9(x: int, y: int)
    requires Inside(x, y) && GapCell(9, x, y) == EMPTY
    ensures Below(9, x, y, 181_846, 38)
  {
    if x != O_COLUMN && x != X_COLUMN {
      hide Estimate;
      CrossingIsSmall(9, x, y);
    }
  }

  lemma Others(n: nat, x: int, y: int)
    requires OToMove(n) && Inside(x, y) && GapCell(n, x, y) == EMPTY
    ensures Below(n, x, y, Top(n), Reply(n))
  {
    hide Below, GapCell;
    if n == 1 {
      Others1(x, y);
    } else if n == 3 {
      Others3(x, y);
    } else if n == 5 {
      Others5(x, y);
    } else if n == 7 {
      Others7(x, y);
    } else {
      Others9(x, y);
    }
  }

  lemma ReplyIsUncut(n: nat, d: Direction)
    requires OToMove(n) && d != Vertical
    ensures Uncut(n, GapColumn(n), GapRow(n), d)
  {
    var x, y := GapColumn(n), GapRow(n);
    if HasO(n, StepY(y, d, O_COLUMN - x)) || HasX(n, StepY(y, d, X_COLUMN - x)) {
      forall o | -4 <= o <= 0 && 0 <= x + o <= 3 ensures WindowInside(x, y, d, o) {
      }
    }
  }

  lemma ReplyIsTop(n: nat)
    requires OToMove(n)
    ensures Inside(GapColumn(n), GapRow(n)) && GapCell(n, GapColumn(n), GapRow(n)) == EMPTY
    ensures Estimate(n, GapColumn(n), GapRow(n)) == Top(n)
  {
  }

  /** Each of O's moves is its best one. */
  lemma ReplyIsBest(state: Text64, n: nat)
    requires GapText(state, n) && OToMove(n)
    ensures IsBest(state, Reply(n))
  {
    hide Estimate, Uncut, Opponent.Value, GapCell, HasO, HasX, GapText;
    ReplyIsTop(n);
    ReplyIsUncut(n, Horizontal);
    ReplyIsUncut(n, DownRight);
    ReplyIsUncut(n, UpRight);
    CellEstimate(state, n, GapColumn(n), GapRow(n));
    var best := Reply(n);
    forall j | 0 <= j < CELL_COUNT && j != best && EmptyCell(state, j) ensures Preferred(state, best, j) {
      var x, y := j % BOARD_SIZE, j / BOARD_SIZE;
      EmptyIsUnmarked(state, n, x, y);
      Others(n, x, y);
      CellEstimate(state, n, x, y);
    }
  }

  lemma EmptyIsUnmarked(state: Text64, n: nat, x: int, y: int)
    requires GapText(state, n) && Inside(x, y)
    ensures state[y * BOARD_SIZE + x] == GapCell(n, x, y)
  {
  }

  // ----- the win that is passed over -----

  const WIN_CELL: nat := 12

  lemma WinIsThere(state: Text64)
    requires GapText(state, 9)
    ensures Wins(state, WIN_CELL)
  {
    forall i | 0 <= i <= 4 && i != 0 ensures Holds(state, Column(WIN_CELL), Row(WIN_CELL), Vertical, i, 'O') {
      CellOnTheWay(state, 9, Column(WIN_CELL), Row(WIN_CELL), Vertical, i);
    }
    EmptyIsUnmarked(state, 9, Column(WIN_CELL), Row(WIN_CELL));
    assert FourAround(state, WIN_CELL, Vertical, 0, 'O');
  }

  lemma BlockIsNoWin(state: Text64)
    requires GapText(state, 9)
    ensures !Wins(state, Reply(9))
  {
    forall d: Direction, o ensures !FourAround(state, Reply(9), d, o, 'O') {
      var x, y := Column(Reply(9)), Row(Reply(9));
      var i := if o <= -1 then -1 else 1;
      if Inside(StepX(x, d, i), StepY(y, d, i)) {
        CellOnTheWay(state, 9, x, y, d, i);
      }
      assert !Holds(state, x, y, d, i, 'O');
    }
  }

  // ----- the game is played as the executor plays it -----

  function GapPlays(n: nat): (plays: seq<Accepted>)
    requires n <= 9
    ensures |plays| == n
  {
    seq(n, i requires 0 <= i < n => Accepted(GapMove(i), FormatPosition(GapMove(i)), 0))
  }

  function GapKinds(first: int, second: int): map<int, AgentType> {
    map[first := UserAgent, second := SystemAgent]
  }

  /** The engine after `n` moves of the game: it goes on, and the board is as described. */
  ghost predicate GapState(s: GameState, n: nat) {
    && WellFormed(s) && |s.grid| == BOARD_SIZE && !s.over && s.current == n % 2
    && forall x, y :: OnBoard(s.grid, x, y) ==> s.grid[y][x] == GapCell(n, x, y)
  }

  lemma NoFiveYet(g: Grid, n: nat, x: int, y: int, m: char)
    requires Square(g) && |g| == BOARD_SIZE && n <= 9 && m in {'X', 'O'}
    requires forall u, v :: OnBoard(g, u, v) ==> g[v][u] == GapCell(n, u, v)
    ensures !FiveThrough(g, x, y, m)
  {
    forall d: Direction, o | -4 <= o <= 0 ensures !Five(g, x, y, d, o, m) {
      var column := if m == 'X' then X_COLUMN else O_COLUMN;
      var i := if !d.Vertical? then (if StepX(x, d, o) == column then o + 1 else o)
               else if y + o < 0 then o else if y + o > 3 then o + 4
               else if m == 'X' then 4 - y else if y + o <= 1 then 1 - y else 6 - y;
      assert !MarkAt(g, x, y, d, i, m);
    }
  }

  lemma GapPlay(s: GameState, n: nat)
    requires GapState(s, n) && n < 9
    ensures Play(s, GapMove(n)).Next? && GapState(Play(s, GapMove(n)).state, n + 1)
  {
    var x, y := GapColumn(n), GapRow(n);
    assert GapCell(n, x, y) == EMPTY;
    var g := Put(s.grid, x, y, Mark(s.current));
    forall u, v | OnBoard(g, u, v) ensures g[v][u] == GapCell(n + 1, u, v) {
    }
    NoFiveYet(g, n + 1, x, y, Mark(s.current));
    assert OnBoard(g, 0, 0) && g[0][0] == EMPTY;
    hide GapCell, FiveThrough;
  }

  lemma GapTextOf(s: GameState, n: nat)
    requires GapState(s, n) && Sound(s) && n <= 9 && n % 2 == 1
    ensures |Flatten(s.grid)| == CELL_COUNT && GapText(Flatten(s.grid), n)
  {
    hide GapCell;
    TextLength(s);
    SidesAreTheEngines(s);
    forall x, y | Inside(x, y) ensures Flatten(s.grid)[y * BOARD_SIZE + x] == GapCell(n, x, y) {
      TextAt(s, x, y);
    }
    hide Sound, WellFormed, Sides, Flatten;
  }

  function GapReply(n: nat): Reply
    requires n <= 9
  {
    Line(FormatPosition(GapMove(n)), 0)
  }

  /** The running game takes move `n`, and the opponent's moves are its answers. */
  lemma GapTurn(s: GameState, n: nat)
    requires GapState(s, n) && Sound(s) && n < 9
    ensures !s.over && Takes(s, GapReply(n)) && GapState(After(s, GapReply(n)), n + 1)
    ensures ParseMove(GapReply(n).raw) == Some(GapMove(n))
    ensures Answers(if n % 2 == 0 then UserAgent else SystemAgent, Flatten(s.grid), GapReply(n))
  {
    hide Play, ParseMove, FormatPosition, Sound, IsBest, Flatten, GapCell, GapText;
    ParseFormatPosition(GapMove(n));
    GapPlay(s, n);
    GapTurnIsBest(s, n);
  }

  lemma GapTurnIsBest(s: GameState, n: nat)
    requires GapState(s, n) && Sound(s) && n < 9
    ensures n % 2 == 1 ==>
              && |Flatten(s.grid)| == CELL_COUNT && IsBest(Flatten(s.grid), Reply(n))
              && PositionOf(Reply(n)) == GapMove(n)
  {
    hide GapState, Sound, IsBest, GapText;
    if n % 2 == 1 {
      GapTextOf(s, n);
      ReplyIsBest(Flatten(s.grid), n);
    }
  }

  lemma GapStep(first: int, second: int, n: nat)
    requires first != second && n < 9
    requires Legal(first, second, GapKinds(first, second), GapPlays(n))
    requires GapState(StateAfter(first, second, GapPlays(n)), n)
    ensures Legal(first, second, GapKinds(first, second), GapPlays(n + 1))
    ensures GapState(StateAfter(first, second, GapPlays(n + 1)), n + 1)
  {
    hide StateAfter, Legal, GapState, Sound, Answers, Takes, After, ParseMove, FormatPosition, GapMove;
    var plays, s := GapPlays(n), StateAfter(first, second, GapPlays(n));
    LegalState(first, second, GapKinds(first, second), plays);
    GapTurn(s, n);
    TurnAdvances(first, second, GapKinds(first, second), plays, GapReply(n));
    assert GapPlays(n + 1) == plays + [Accepted(GapMove(n), GapReply(n).raw, GapReply(n).durationMS)];
  }

  /** The game is legal: the moves are accepted, and those of the opponent are its best ones. */
  lemma {:induction false} GapGame(first: int, second: int, n: nat)
    requires first != second && n <= 9
    ensures Legal(first, second, GapKinds(first, second), GapPlays(n))
    ensures GapState(StateAfter(first, second, GapPlays(n)), n)
  {
    if n == 0 {
      assert Positions([]) == [];
    } else {
      hide Legal, StateAfter, GapState, GapPlays;
      GapGame(first, second, n - 1);
      GapStep(first, second, n - 1);
    }
  }

  /**
    A real game, every reply of the opponent being its best cell, reaches a board on which it
    could win at once; its best cell there is the gap, which does not win.
   */
  lemma WinIsNotAlwaysTaken(first: int, second: int)
    requires first != second
    ensures var plays := GapPlays(9);
            var s := StateAfter(first, second, plays);
            var state := Flatten(s.grid);
            && Legal(first, second, GapKinds(first, second), plays) && !s.over
            && Mover(first, second, |plays|) == second
            && |state| == CELL_COUNT && Wins(state, WIN_CELL)
            && forall best :: IsBest(state, best) ==> !Wins(state, best)
  {
    hide Wins, IsBest;
    var s := StateAfter(first, second, GapPlays(9));
    GapGame(first, second, 9);
    LegalState(first, second, GapKinds(first, second), GapPlays(9));
    GapTextOf(s, 9);
    var state := Flatten(s.grid);
    WinIsThere(state);
    BlockIsNoWin(state);
    ReplyIsBest(state, 9);
    forall best | IsBest(state, best) ensures best == Reply(9) {
      BestIsUnique(state, best, Reply(9));
    }
  }

  lemma BestIsUnique(state: Text64, k: int, j: int)
    requires IsBest(state, k) && IsBest(state, j)
    ensures k == j
  {
  }
}
