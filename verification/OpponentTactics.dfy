/** What the opponent's weights guarantee: immediate wins and blocks, and legal moves in every real game. */
module OpponentTactics {
  import opened Grids
  import opened Caro
  import opened CaroRuns
  import opened Opponent

  function Column(k: nat): nat { k % BOARD_SIZE }
  function Row(k: nat): nat { k / BOARD_SIZE }

  /** The four other cells of an on-board window around cell `k` all hold `m`. */
  predicate FourAround(state: Text64, k: nat, d: Direction, o: int, m: char) {
    && -4 <= o <= 0 && WindowInside(Column(k), Row(k), d, o)
    && forall i :: o <= i <= o + 4 && i != 0 ==> Holds(state, Column(k), Row(k), d, i, m)
  }

  /** Placing `m` on cell `k` completes a line of five. */
  ghost predicate Completes(state: Text64, k: nat, m: char) {
    exists d: Direction, o :: FourAround(state, k, d, o, m)
  }

  predicate FreeCell(state: Text64, k: nat, my: char, opp: char) {
    k < CELL_COUNT && Free(state, Column(k), Row(k), my, opp)
  }

  /** An empty cell that completes a line for the side to move. */
  ghost predicate Wins(state: Text64, k: nat) {
    EmptyCell(state, k) && Completes(state, k, Sides(state).0)
  }

  ghost predicate Blocks(state: Text64, k: nat) {
    EmptyCell(state, k) && Completes(state, k, Sides(state).1)
  }

  // ----- the weights, by what a window holds -----

  /** The steps of a window at which the cell holds `m`. */
  function Marks(state: Text64, x: int, y: int, d: Direction, o: int, n: nat, m: char): set<int> {
    set i | o <= i < o + n && Holds(state, x, y, d, i, m)
  }

  lemma {:induction false} HitsAreMarks(state: Text64, x: int, y: int, d: Direction, o: int, n: nat, m: char)
    ensures Hits(state, x, y, d, o, n, m) == |Marks(state, x, y, d, o, n, m)|
  {
    hide Holds, Marks;
    if n == 0 {
      NoMarks(state, x, y, d, o, m);
    } else {
      HitsAreMarks(state, x, y, d, o, n - 1, m);
      MarksStep(state, x, y, d, o, n, m);
    }
  }

  lemma NoMarks(state: Text64, x: int, y: int, d: Direction, o: int, m: char)
    ensures Marks(state, x, y, d, o, 0, m) == {}
  {
  }

  lemma MarksStep(state: Text64, x: int, y: int, d: Direction, o: int, n: nat, m: char)
    requires n > 0
    ensures var last := o + n - 1;
            && last !in Marks(state, x, y, d, o, n - 1, m)
            && Marks(state, x, y, d, o, n, m) ==
               Marks(state, x, y, d, o, n - 1, m) + (if Holds(state, x, y, d, last, m) then {last} else {})
  {
    hide Holds;
  }

  /** A window that leaves the board, or that holds a mark of each side, is worth nothing. */
  lemma ContestedIsWorthless(state: Text64, x: int, y: int, d: Direction, o: int, my: char, opp: char)
    requires Free(state, x, y, my, opp) && -4 <= o <= 0
    requires || (exists i :: o <= i <= o + 4 && !Inside(StepX(x, d, i), StepY(y, d, i)))
             || ((exists i :: o <= i <= o + 4 && Holds(state, x, y, d, i, my))
                 && exists j :: o <= j <= o + 4 && Holds(state, x, y, d, j, opp))
    ensures WindowScore(state, x, y, d, o, my, opp) == 0
  {
    HitsAreMarks(state, x, y, d, o, 5, my);
    HitsAreMarks(state, x, y, d, o, 5, opp);
    if i, j :| o <= i <= o + 4 && Holds(state, x, y, d, i, my) && o <= j <= o + 4 && Holds(state, x, y, d, j, opp) {
      assert i in Marks(state, x, y, d, o, 5, my) && j in Marks(state, x, y, d, o, 5, opp);
      hide Hits, Holds;
    }
  }

  /** A window with marks of one side only is worth by their number alone, own marks more than the other's. */
  lemma UncontestedWeight(state: Text64, x: int, y: int, d: Direction, o: int, my: char, opp: char)
    requires Free(state, x, y, my, opp) && -4 <= o <= 0 && WindowInside(x, y, d, o)
    ensures var mine, theirs := |Marks(state, x, y, d, o, 5, my)|, |Marks(state, x, y, d, o, 5, opp)|;
            && mine <= 4 && theirs <= 4
            && (theirs == 0 ==>
                WindowScore(state, x, y, d, o, my, opp) ==
                if mine == 0 then 0 else if mine == 1 then 10 else if mine == 2 then 100
                else if mine == 3 then 1000 else 100_000)
            && (mine == 0 ==>
                WindowScore(state, x, y, d, o, my, opp) ==
                if theirs == 0 then 0 else if theirs == 1 then 9 else if theirs == 2 then 90
                else if theirs == 3 then 900 else 90_000)
  {
    hide Hits, Marks, WindowInside;
    HitsAreMarks(state, x, y, d, o, 5, my);
    HitsAreMarks(state, x, y, d, o, 5, opp);
    HitsMissTheCentre(state, x, y, d, o, 5, my);
    HitsMissTheCentre(state, x, y, d, o, 5, opp);
  }

  /** The bonus is 8 in the middle and falls by one with every step away from it, in either coordinate. */
  lemma CenterBonusFalls(x: int, y: int)
    ensures CenterBonus(4, 4) == 8
    ensures CenterBonus(x + 1, y) == if x < 4 then CenterBonus(x, y) + 1 else CenterBonus(x, y) - 1
    ensures CenterBonus(x, y + 1) == if y < 4 then CenterBonus(x, y) + 1 else CenterBonus(x, y) - 1
  {
  }

  /** The windows of one line through a cell. */
  function LineSum(state: Text64, x: int, y: int, d: Direction, my: char, opp: char): int
    requires Free(state, x, y, my, opp)
  {
    WindowScore(state, x, y, d, -4, my, opp) + WindowScore(state, x, y, d, -3, my, opp) +
    WindowScore(state, x, y, d, -2, my, opp) + WindowScore(state, x, y, d, -1, my, opp) +
    WindowScore(state, x, y, d, 0, my, opp)
  }

  /** A cell is worth its bonus and each of the twenty windows through it once. */
  lemma ValueIsSum(state: Text64, k: nat)
    requires EmptyCell(state, k) && Free(state, Column(k), Row(k), Sides(state).0, Sides(state).1)
    ensures var (my, opp) := Sides(state);
            var x, y := Column(k), Row(k);
            Value(state, k) ==
            CenterBonus(x, y) + LineSum(state, x, y, Horizontal, my, opp) + LineSum(state, x, y, Vertical, my, opp)
            + LineSum(state, x, y, DownRight, my, opp) + LineSum(state, x, y, UpRight, my, opp)
  {
    hide LineScore, WindowScore;
    var (my, opp) := Sides(state);
    StarUnfolds(state, k, my, opp);
    LineUnfolds(state, Column(k), Row(k), Horizontal, my, opp);
    LineUnfolds(state, Column(k), Row(k), Vertical, my, opp);
    LineUnfolds(state, Column(k), Row(k), DownRight, my, opp);
    LineUnfolds(state, Column(k), Row(k), UpRight, my, opp);
  }

  // ----- one window -----

  lemma {:induction false} HitsOfFour(state: Text64, x: int, y: int, d: Direction, o: int, n: nat, m: char, other: char)
    requires -4 <= o <= 0 && n <= 5 && m != other
    requires !Holds(state, x, y, d, 0, m) && !Holds(state, x, y, d, 0, other)
    requires forall i :: o <= i < o + n && i != 0 ==> Holds(state, x, y, d, i, m)
    ensures Hits(state, x, y, d, o, n, m) == if -o < n then n - 1 else n
    ensures Hits(state, x, y, d, o, n, other) == 0
  {
    if n > 0 {
      HitsOfFour(state, x, y, d, o, n - 1, m, other);
    }
  }

  lemma {:induction false} FourFromHits(state: Text64, x: int, y: int, d: Direction, o: int, n: nat, m: char)
    requires -4 <= o <= 0 && n <= 5 && !Holds(state, x, y, d, 0, m)
    requires Hits(state, x, y, d, o, n, m) >= if -o < n then n - 1 else n
    ensures forall i :: o <= i < o + n && i != 0 ==> Holds(state, x, y, d, i, m)
  {
    if n > 0 {
      HitsMissTheCentre(state, x, y, d, o, n - 1, m);
      if n - 1 != -o {
        assert Holds(state, x, y, d, o + n - 1, m);
      }
      FourFromHits(state, x, y, d, o, n - 1, m);
    }
  }

  lemma FreeHoldsNeither(state: Text64, k: nat, d: Direction, my: char, opp: char)
    requires FreeCell(state, k, my, opp)
    ensures !Holds(state, Column(k), Row(k), d, 0, my) && !Holds(state, Column(k), Row(k), d, 0, opp)
  {
  }

  /** A window is worth 100,000 or 90,000 when it lacks just this cell, and at most 1,000 otherwise. */
  lemma WindowWorth(state: Text64, k: nat, d: Direction, o: int, my: char, opp: char)
    requires FreeCell(state, k, my, opp) && -4 <= o <= 0
    ensures var score := WindowScore(state, Column(k), Row(k), d, o, my, opp);
            if FourAround(state, k, d, o, my) then score == 100_000
            else if FourAround(state, k, d, o, opp) then score == 90_000
            else score <= 1000
  {
    var x, y := Column(k), Row(k);
    FreeHoldsNeither(state, k, d, my, opp);
    if FourAround(state, k, d, o, my) {
      HitsOfFour(state, x, y, d, o, 5, my, opp);
    } else if FourAround(state, k, d, o, opp) {
      HitsOfFour(state, x, y, d, o, 5, opp, my);
    } else {
      HitsMissTheCentre(state, x, y, d, o, 5, my);
      HitsMissTheCentre(state, x, y, d, o, 5, opp);
      if WindowInside(x, y, d, o) {
        if Hits(state, x, y, d, o, 5, my) == 4 {
          FourFromHits(state, x, y, d, o, 5, my);
        }
        if Hits(state, x, y, d, o, 5, opp) == 4 {
          FourFromHits(state, x, y, d, o, 5, opp);
        }
      }
    }
  }

  // ----- one cell -----

  lemma {:induction false} LineAtLeast(state: Text64, k: nat, d: Direction, n: nat, o: int, my: char, opp: char)
    requires FreeCell(state, k, my, opp) && n <= 5 && -5 < o < n - 4
    ensures LineScore(state, Column(k), Row(k), d, n, my, opp) >= WindowScore(state, Column(k), Row(k), d, o, my, opp)
  {
    if o < n - 5 {
      LineAtLeast(state, k, d, n - 1, o, my, opp);
    }
  }

  lemma StarAtLeast(state: Text64, k: nat, d: Direction, o: int, my: char, opp: char)
    requires FreeCell(state, k, my, opp) && -4 <= o <= 0
    ensures StarScore(state, Column(k), Row(k), 4, my, opp) >= WindowScore(state, Column(k), Row(k), d, o, my, opp)
  {
    LineAtLeast(state, k, d, 5, o, my, opp);
    StarUnfolds(state, k, my, opp);
  }

  lemma StarUnfolds(state: Text64, k: nat, my: char, opp: char)
    requires FreeCell(state, k, my, opp)
    ensures StarScore(state, Column(k), Row(k), 4, my, opp) ==
            LineScore(state, Column(k), Row(k), Horizontal, 5, my, opp) +
            LineScore(state, Column(k), Row(k), Vertical, 5, my, opp) +
            LineScore(state, Column(k), Row(k), DownRight, 5, my, opp) +
            LineScore(state, Column(k), Row(k), UpRight, 5, my, opp)
  {
    var x, y := Column(k), Row(k);
    assert StarScore(state, x, y, 4, my, opp) ==
           StarScore(state, x, y, 3, my, opp) + LineScore(state, x, y, DIRECTIONS[3], 5, my, opp);
    assert StarScore(state, x, y, 3, my, opp) ==
           StarScore(state, x, y, 2, my, opp) + LineScore(state, x, y, DIRECTIONS[2], 5, my, opp);
    assert StarScore(state, x, y, 2, my, opp) ==
           StarScore(state, x, y, 1, my, opp) + LineScore(state, x, y, DIRECTIONS[1], 5, my, opp);
  }

  lemma LineUnfolds(state: Text64, x: int, y: int, d: Direction, my: char, opp: char)
    requires Free(state, x, y, my, opp)
    ensures LineScore(state, x, y, d, 5, my, opp) ==
            WindowScore(state, x, y, d, -4, my, opp) + WindowScore(state, x, y, d, -3, my, opp) +
            WindowScore(state, x, y, d, -2, my, opp) + WindowScore(state, x, y, d, -1, my, opp) +
            WindowScore(state, x, y, d, 0, my, opp)
  {
    hide WindowScore;
    assert LineScore(state, x, y, d, 3, my, opp) ==
           LineScore(state, x, y, d, 2, my, opp) + WindowScore(state, x, y, d, -2, my, opp);
    assert LineScore(state, x, y, d, 1, my, opp) == WindowScore(state, x, y, d, -4, my, opp);
  }

  /** Without a four-window of either side in this direction, `n` windows add up to at most 1,000 each. */
  lemma {:induction false} QuietLine(state: Text64, k: nat, d: Direction, n: nat, my: char, opp: char)
    requires FreeCell(state, k, my, opp) && n <= 5
    requires forall o :: -4 <= o < n - 4 ==> !FourAround(state, k, d, o, my) && !FourAround(state, k, d, o, opp)
    ensures LineScore(state, Column(k), Row(k), d, n, my, opp) <= 1000 * n
  {
    if n > 0 {
      QuietLine(state, k, d, n - 1, my, opp);
      WindowWorth(state, k, d, n - 5, my, opp);
    }
  }

  lemma BonusRange(k: nat)
    requires k < CELL_COUNT
    ensures 0 <= CenterBonus(Column(k), Row(k)) <= 8
  {
  }

  /**
    A cell that completes an own line is worth at least 100,000; one that only blocks at least 90,000;
    any other at most 20,008.
   */
  lemma CellWorth(state: Text64, k: nat)
    requires EmptyCell(state, k)
    ensures var (my, opp) := Sides(state);
            if Completes(state, k, my) then Value(state, k) >= 100_000
            else if Completes(state, k, opp) then Value(state, k) >= 90_000
            else Value(state, k) <= 20_008
  {
    var (my, opp) := Sides(state);
    assert FreeCell(state, k, my, opp);
    BonusRange(k);
    if Completes(state, k, my) {
      var d: Direction, o :| FourAround(state, k, d, o, my);
      WindowWorth(state, k, d, o, my, opp);
      StarAtLeast(state, k, d, o, my, opp);
    } else if Completes(state, k, opp) {
      var d: Direction, o :| FourAround(state, k, d, o, opp);
      WindowWorth(state, k, d, o, my, opp);
      StarAtLeast(state, k, d, o, my, opp);
    } else {
      QuietLine(state, k, Horizontal, 5, my, opp);
      QuietLine(state, k, Vertical, 5, my, opp);
      QuietLine(state, k, DownRight, 5, my, opp);
      QuietLine(state, k, UpRight, 5, my, opp);
      StarUnfolds(state, k, my, opp);
    }
  }

  // ----- the chosen cell -----

  /** Whenever some empty cell completes a five of either side, the chosen cell completes a five of some side. */
  lemma ImmediateTactics(state: Text64, best: nat, k: nat)
    requires IsBest(state, best)
    requires Wins(state, k) || Blocks(state, k)
    ensures Wins(state, best) || Blocks(state, best)
  {
    CellWorth(state, k);
    CellWorth(state, best);
  }

  /** With an own win available and nothing else to block, the chosen cell wins. */
  lemma TakesUncontestedWin(state: Text64, best: nat, k: nat)
    requires IsBest(state, best) && Wins(state, k)
    requires forall j :: Blocks(state, j) ==> Wins(state, j)
    ensures Wins(state, best)
  {
    CellWorth(state, k);
    CellWorth(state, best);
  }

  /**
    The weights do not always make a win beat a block. The chosen cell wins exactly when some
    winning cell is preferred to every blocking cell that does not also win.
   */
  lemma TakesWinIff(state: Text64, best: nat)
    requires IsBest(state, best)
    ensures Wins(state, best) <==>
            exists w :: Wins(state, w) && forall j :: Blocks(state, j) && !Wins(state, j) ==> Preferred(state, w, j)
  {
    if w :| Wins(state, w) && forall j :: Blocks(state, j) && !Wins(state, j) ==> Preferred(state, w, j) {
      CellWorth(state, w);
      CellWorth(state, best);
    }
  }

  // ----- on the boards of real games -----

  lemma TextAt(s: GameState, x: int, y: int)
    requires WellFormed(s) && |s.grid| == BOARD_SIZE && OnBoard(s.grid, x, y)
    ensures |Flatten(s.grid)| == CELL_COUNT && Flatten(s.grid)[y * BOARD_SIZE + x] == s.grid[y][x]
  {
    FlattenLength(s.grid, BOARD_SIZE);
    FlattenAt(s.grid, BOARD_SIZE, x, y);
  }

  lemma TextLength(s: GameState)
    requires WellFormed(s) && |s.grid| == BOARD_SIZE
    ensures |Flatten(s.grid)| == CELL_COUNT
  {
    FlattenLength(s.grid, BOARD_SIZE);
  }

  function PositionOf(k: nat): Position {
    Position(Column(k) + 1, Row(k) + 1)
  }

  /** The mark inferred from the counts is the mark the engine will place. */
  lemma SidesAreTheEngines(s: GameState)
    requires Sound(s) && |s.grid| == BOARD_SIZE
    ensures Sides(Flatten(s.grid)) == (Mark(s.current), Mark(1 - s.current))
  {
  }

  /** In every game still going on there is a best cell, and the engine accepts it. */
  lemma BestMoveIsLegal(s: GameState, best: nat)
    requires Sound(s) && !s.over && |s.grid| == BOARD_SIZE
    ensures |Flatten(s.grid)| == CELL_COUNT && EMPTY in Flatten(s.grid)
    ensures IsBest(Flatten(s.grid), best) ==> Play(s, PositionOf(best)).Next?
  {
    TextLength(s);
    var x, y :| OnBoard(s.grid, x, y) && s.grid[y][x] == EMPTY;
    TextAt(s, x, y);
    if IsBest(Flatten(s.grid), best) {
      TextAt(s, Column(best), Row(best));
    }
  }

  lemma HoldsIsMarkAt(s: GameState, x: int, y: int, d: Direction, i: int, m: char)
    requires WellFormed(s) && |s.grid| == BOARD_SIZE && |Flatten(s.grid)| == CELL_COUNT
    ensures Holds(Flatten(s.grid), x, y, d, i, m) <==> MarkAt(s.grid, x, y, d, i, m)
  {
    if OnBoard(s.grid, StepX(x, d, i), StepY(y, d, i)) {
      TextAt(s, StepX(x, d, i), StepY(y, d, i));
    }
  }

  /** Completing a line in the text is completing a line on the engine's board. */
  lemma CompletesIsFive(s: GameState, k: nat, m: char)
    requires WellFormed(s) && |s.grid| == BOARD_SIZE && |Flatten(s.grid)| == CELL_COUNT && EmptyCell(Flatten(s.grid), k)
    ensures Completes(Flatten(s.grid), k, m) <==>
            FiveThrough(Put(s.grid, Column(k), Row(k), m), Column(k), Row(k), m)
  {
    var x, y := Column(k), Row(k);
    var g' := Put(s.grid, x, y, m);
    forall d: Direction, o | -4 <= o <= 0
      ensures FourAround(Flatten(s.grid), k, d, o, m) <==> Five(g', x, y, d, o, m)
    {
      forall i ensures i != 0 ==> (Holds(Flatten(s.grid), x, y, d, i, m) <==> MarkAt(g', x, y, d, i, m)) {
        HoldsIsMarkAt(s, x, y, d, i, m);
      }
      if Five(g', x, y, d, o, m) {
        forall i | o <= i <= o + 4 ensures Inside(StepX(x, d, i), StepY(y, d, i)) {
          assert MarkAt(g', x, y, d, i, m);
        }
      }
    }
  }

  /** Playing the chosen cell of an uncontested win ends the game with the opponent as its winner. */
  lemma UncontestedWinWins(s: GameState, best: nat, k: nat)
    requires Sound(s) && !s.over && |s.grid| == BOARD_SIZE && |Flatten(s.grid)| == CELL_COUNT
    requires IsBest(Flatten(s.grid), best)
    requires Wins(Flatten(s.grid), k)
    requires forall j :: Blocks(Flatten(s.grid), j) ==> Wins(Flatten(s.grid), j)
    ensures var r := Play(s, PositionOf(best));
            r.Next? && r.state.over && r.state.result == s.players[s.current]
  {
    SidesAreTheEngines(s);
    TakesUncontestedWin(Flatten(s.grid), best, k);
    BestMoveIsLegal(s, best);
    CompletesIsFive(s, best, Mark(s.current));
  }
}
