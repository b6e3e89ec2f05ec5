/** The built-in opponent: it scores every empty cell of the board text and plays the first best one. */
module Opponent {
  import opened Grids
  import opened Caro

  const CELL_COUNT: nat := BOARD_SIZE * BOARD_SIZE

  // Weights of a five-cell window by the number of marks already in it.
  const OFF_SCORE: seq<int> := [0, 10, 100, 1000, 100_000]
  const DEF_SCORE: seq<int> := [0, 9, 90, 900, 90_000]

  const DIRECTIONS: seq<Direction> := [Horizontal, Vertical, DownRight, UpRight]

  type Text64 = s: string | |s| == CELL_COUNT witness seq(CELL_COUNT, _ => EMPTY)

  predicate Inside(x: int, y: int) {
    0 <= x < BOARD_SIZE && 0 <= y < BOARD_SIZE
  }

  /** The cell `i` steps from (x, y) lies on the board and holds `m`. */
  predicate Holds(state: Text64, x: int, y: int, d: Direction, i: int, m: char) {
    var nx, ny := StepX(x, d, i), StepY(y, d, i);
    Inside(nx, ny) && state[ny * BOARD_SIZE + nx] == m
  }

  predicate WindowInside(x: int, y: int, d: Direction, o: int) {
    forall i :: o <= i <= o + 4 ==> Inside(StepX(x, d, i), StepY(y, d, i))
  }

  /** How many of the `n` cells at steps `o`, `o + 1`, ... hold `m`. */
  function Hits(state: Text64, x: int, y: int, d: Direction, o: int, n: nat, m: char): (hits: nat)
    ensures hits <= n
  {
    if n == 0 then 0
    else Hits(state, x, y, d, o, n - 1, m) + (if Holds(state, x, y, d, o + n - 1, m) then 1 else 0)
  }

  lemma HitsStep(state: Text64, x: int, y: int, d: Direction, o: int, n: nat, m: char)
    requires Inside(StepX(x, d, o + n), StepY(y, d, o + n))
    ensures Hits(state, x, y, d, o, n + 1, m) == Hits(state, x, y, d, o, n, m) +
              (if state[StepY(y, d, o + n) * BOARD_SIZE + StepX(x, d, o + n)] == m then 1 else 0)
  {
  }

  /** A window around a cell that does not hold `m` has at most four `m`: the weight tables have five entries. */
  lemma {:induction false} HitsMissTheCentre(state: Text64, x: int, y: int, d: Direction, o: int, n: nat, m: char)
    requires o <= 0 && !Holds(state, x, y, d, 0, m)
    ensures Hits(state, x, y, d, o, n, m) <= if -o < n then n - 1 else n
  {
    if n > 0 {
      HitsMissTheCentre(state, x, y, d, o, n - 1, m);
    }
  }

  predicate Free(state: Text64, x: int, y: int, my: char, opp: char) {
    Inside(x, y) && my != opp && state[y * BOARD_SIZE + x] != my && state[y * BOARD_SIZE + x] != opp
  }

  /** What the window at offset `o` is worth: nothing when it leaves the board or is contested. */
  function WindowScore(state: Text64, x: int, y: int, d: Direction, o: int, my: char, opp: char): (score: int)
    requires Free(state, x, y, my, opp) && -4 <= o <= 0
    ensures score >= 0
  {
    var mine, theirs := Hits(state, x, y, d, o, 5, my), Hits(state, x, y, d, o, 5, opp);
    HitsMissTheCentre(state, x, y, d, o, 5, my);
    HitsMissTheCentre(state, x, y, d, o, 5, opp);
    if !WindowInside(x, y, d, o) || (mine > 0 && theirs > 0) then 0
    else if mine > 0 then OFF_SCORE[mine]
    else DEF_SCORE[theirs]
  }

  /** The first `n` windows through the cell in direction `d`. */
  function LineScore(state: Text64, x: int, y: int, d: Direction, n: nat, my: char, opp: char): (score: int)
    requires Free(state, x, y, my, opp) && n <= 5
    ensures score >= 0
  {
    if n == 0 then 0
    else LineScore(state, x, y, d, n - 1, my, opp) + WindowScore(state, x, y, d, n - 5, my, opp)
  }

  /** All windows through the cell in the first `k` directions. */
  function StarScore(state: Text64, x: int, y: int, k: nat, my: char, opp: char): (score: int)
    requires Free(state, x, y, my, opp) && k <= |DIRECTIONS|
    ensures score >= 0
  {
    if k == 0 then 0
    else StarScore(state, x, y, k - 1, my, opp) + LineScore(state, x, y, DIRECTIONS[k - 1], 5, my, opp)
  }

  function Abs(n: int): int {
    if n < 0 then -n else n
  }

  function CenterBonus(x: int, y: int): int {
    var mid := BOARD_SIZE / 2;
    BOARD_SIZE - Abs(x - mid) - Abs(y - mid)
  }

  /** Walks one window until it leaves the board, counting both marks. */
  method ScanWindow(state: Text64, cx: int, cy: int, d: Direction, offset: int, my: char, opp: char)
    returns (valid: bool, mine: nat, theirs: nat)
    requires my != opp
    ensures valid <==> WindowInside(cx, cy, d, offset)
    ensures valid ==> mine == Hits(state, cx, cy, d, offset, 5, my) && theirs == Hits(state, cx, cy, d, offset, 5, opp)
  {
    mine, theirs := 0, 0;
    for i := 0 to 5
      invariant forall j :: offset <= j < offset + i ==> Inside(StepX(cx, d, j), StepY(cy, d, j))
      invariant mine == Hits(state, cx, cy, d, offset, i, my)
      invariant theirs == Hits(state, cx, cy, d, offset, i, opp)
    {
      var nx, ny := StepX(cx, d, offset + i), StepY(cy, d, offset + i);
      if !Inside(nx, ny) {
        return false, mine, theirs;
      }
      var cell := state[ny * BOARD_SIZE + nx];
      HitsStep(state, cx, cy, d, offset, i, my);
      HitsStep(state, cx, cy, d, offset, i, opp);
      if cell == my {
        mine := mine + 1;
      } else if cell == opp {
        theirs := theirs + 1;
      }
    }
    return true, mine, theirs;
  }

  method CellScore(state: Text64, cx: int, cy: int, my: char, opp: char) returns (total: int)
    requires Free(state, cx, cy, my, opp)
    ensures total == StarScore(state, cx, cy, |DIRECTIONS|, my, opp)
  {
    hide Hits, WindowInside;
    total := 0;
    for k := 0 to |DIRECTIONS|
      invariant total == StarScore(state, cx, cy, k, my, opp)
    {
      var d := DIRECTIONS[k];
      for offset := -4 to 1
        invariant total == StarScore(state, cx, cy, k, my, opp) + LineScore(state, cx, cy, d, offset + 4, my, opp)
      {
        var valid, mine, theirs := ScanWindow(state, cx, cy, d, offset, my, opp);
        HitsMissTheCentre(state, cx, cy, d, offset, 5, my);
        HitsMissTheCentre(state, cx, cy, d, offset, 5, opp);
        if !valid || (mine > 0 && theirs > 0) {
          continue;
        }
        if mine > 0 {
          total := total + OFF_SCORE[mine];
        } else if theirs > 0 {
          total := total + DEF_SCORE[theirs];
        }
      }
    }
  }

  // ----- choosing a move -----

  /** (own mark, opponent's mark), from the number of marks on the board. */
  function Sides(state: string): (char, char) {
    if Count(state, 'X') == Count(state, 'O') then ('X', 'O') else ('O', 'X')
  }

  function Value(state: Text64, k: nat): (value: int)
    requires k < CELL_COUNT && state[k] == EMPTY
    ensures value >= 0
  {
    var (my, opp) := Sides(state);
    CenterBonus(k % BOARD_SIZE, k / BOARD_SIZE) +
    StarScore(state, k % BOARD_SIZE, k / BOARD_SIZE, |DIRECTIONS|, my, opp)
  }

  predicate EmptyCell(state: Text64, k: int) {
    0 <= k < CELL_COUNT && state[k] == EMPTY
  }

  /** Cell `k` is preferred to cell `j`: more valuable, or equally valuable and earlier in reading order. */
  predicate Preferred(state: Text64, k: nat, j: nat)
    requires EmptyCell(state, k) && EmptyCell(state, j)
  {
    Value(state, k) > Value(state, j) || (Value(state, k) == Value(state, j) && k < j)
  }

  /** The first most valuable empty cell. */
  predicate IsBest(state: Text64, k: int) {
    EmptyCell(state, k) && forall j :: 0 <= j < CELL_COUNT && j != k && EmptyCell(state, j) ==> Preferred(state, k, j)
  }

  method CountMarks(state: string) returns (xCount: nat, oCount: nat)
    ensures xCount == Count(state, 'X') && oCount == Count(state, 'O')
  {
    xCount, oCount := 0, 0;
    for i := 0 to |state|
      invariant xCount == Count(state[..i], 'X') && oCount == Count(state[..i], 'O')
    {
      assert state[..i + 1] == state[..i] + [state[i]];
      if state[i] == 'X' {
        xCount := xCount + 1;
      } else if state[i] == 'O' {
        oCount := oCount + 1;
      }
    }
    assert state[..|state|] == state;
  }

  method SystemBestMove(state: Text64) returns (x: int, y: int)
    ensures EMPTY !in state ==> x == -1 && y == -1
    ensures EMPTY in state ==> Inside(x - 1, y - 1) && IsBest(state, (y - 1) * BOARD_SIZE + (x - 1))
  {
    hide Count, StarScore, CenterBonus;
    var xCount, oCount := CountMarks(state);
    var my, opp := if xCount == oCount then 'X' else 'O', if xCount == oCount then 'O' else 'X';

    var bestVal := -1;
    x, y := -1, -1;
    ghost var best := -1;
    for i := 0 to |state|
      invariant best == -1 ==> bestVal == -1 && x == -1 && y == -1 && EMPTY !in state[..i]
      invariant best != -1 ==>
                  && 0 <= best < i && EmptyCell(state, best) && bestVal == Value(state, best)
                  && x == best % BOARD_SIZE + 1 && y == best / BOARD_SIZE + 1
                  && forall j :: 0 <= j < i && j != best && EmptyCell(state, j) ==> Preferred(state, best, j)
    {
      if state[i] != EMPTY {
        continue;
      }
      var cx, cy := i % BOARD_SIZE, i / BOARD_SIZE;
      var score := CellScore(state, cx, cy, my, opp);
      var val := CenterBonus(cx, cy) + score;
      assert val == Value(state, i);
      if val > bestVal {
        bestVal := val;
        x, y := cx + 1, cy + 1;
        best := i;
      }
    }
    if x == -1 {
      // The fallback looks for any empty cell; no value is below zero, so there is none left to find.
      for i := 0 to |state| {
        if state[i] == EMPTY {
          assert false;
        }
      }
    }
  }
}
