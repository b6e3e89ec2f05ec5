/**
  Square boards as values: lines of five, full boards, and the row-major text of a board.
  These are the meanings that the engine's scans are proved against.
 */
module Grids {

  type Grid = seq<seq<char>>

  const EMPTY: char := '.'

  /** Every row is `width` cells wide. */
  predicate Rows(g: Grid, width: nat) {
    forall y :: 0 <= y < |g| ==> |g[y]| == width
  }

  predicate Square(g: Grid) {
    Rows(g, |g|)
  }

  function EmptyGrid(size: nat): (g: Grid)
    ensures |g| == size && Square(g)
    ensures forall x, y :: OnBoard(g, x, y) ==> g[y][x] == EMPTY
  {
    seq(size, _ => seq(size, _ => EMPTY))
  }

  predicate OnBoard(g: Grid, x: int, y: int) {
    0 <= x < |g| && 0 <= y < |g|
  }

  function Put(g: Grid, x: int, y: int, m: char): (r: Grid)
    requires Square(g) && OnBoard(g, x, y)
    ensures |r| == |g| && Square(r) && r[y][x] == m
    ensures forall u, v :: OnBoard(g, u, v) && (u != x || v != y) ==> r[v][u] == g[v][u]
  {
    g[y := g[y][x := m]]
  }

  lemma SameGrid(g: Grid, h: Grid)
    requires Square(g) && Square(h) && |g| == |h|
    requires forall x, y :: OnBoard(g, x, y) ==> g[y][x] == h[y][x]
    ensures g == h
  {
    forall y | 0 <= y < |g| ensures g[y] == h[y] {
      assert forall x :: 0 <= x < |g| ==> OnBoard(g, x, y);
    }
  }

  // ----- lines -----

  datatype Direction = Vertical | Horizontal | DownRight | UpRight

  /** The column reached from column `x` after `i` steps in direction `d`. */
  function StepX(x: int, d: Direction, i: int): int {
    if d.Vertical? then x else x + i
  }

  function StepY(y: int, d: Direction, i: int): int {
    match d
    case Vertical => y + i
    case Horizontal => y
    case DownRight => y + i
    case UpRight => y - i
  }

  /** The cell `i` steps from (x, y) lies on the board and holds `m`. */
  predicate MarkAt(g: Grid, x: int, y: int, d: Direction, i: int, m: char)
    requires Square(g)
  {
    OnBoard(g, StepX(x, d, i), StepY(y, d, i)) && g[StepY(y, d, i)][StepX(x, d, i)] == m
  }

  /** The five cells `o`, ..., `o + 4` steps from (x, y) are all on the board and all hold `m`. */
  predicate Five(g: Grid, x: int, y: int, d: Direction, o: int, m: char)
    requires Square(g)
  {
    forall i :: o <= i <= o + 4 ==> MarkAt(g, x, y, d, i, m)
  }

  /** Some line of five `m` passes through (x, y). */
  ghost predicate FiveThrough(g: Grid, x: int, y: int, m: char)
    requires Square(g)
  {
    exists d: Direction, o :: -4 <= o <= 0 && Five(g, x, y, d, o, m)
  }

  /** Some line of five `m` exists anywhere on the board. */
  ghost predicate HasFive(g: Grid, m: char)
    requires Square(g)
  {
    exists x, y, d: Direction :: Five(g, x, y, d, 0, m)
  }

  ghost predicate Full(g: Grid)
    requires Square(g)
  {
    forall x, y :: OnBoard(g, x, y) ==> g[y][x] != EMPTY
  }

  /** Five cells in a row, in a column, or on a falling or rising diagonal, cell by cell. */
  predicate Line(g: Grid, x: int, y: int, d: Direction, m: char)
    requires Square(g)
  {
    match d
    case Horizontal =>
      && 0 <= x && x + 4 < |g| && 0 <= y < |g|
      && g[y][x] == g[y][x + 1] == g[y][x + 2] == g[y][x + 3] == g[y][x + 4] == m
    case Vertical =>
      && 0 <= x < |g| && 0 <= y && y + 4 < |g|
      && g[y][x] == g[y + 1][x] == g[y + 2][x] == g[y + 3][x] == g[y + 4][x] == m
    case DownRight =>
      && 0 <= x && x + 4 < |g| && 0 <= y && y + 4 < |g|
      && g[y][x] == g[y + 1][x + 1] == g[y + 2][x + 2] == g[y + 3][x + 3] == g[y + 4][x + 4] == m
    case UpRight =>
      && 0 <= x && x + 4 < |g| && 0 <= y - 4 && y < |g|
      && g[y][x] == g[y - 1][x + 1] == g[y - 2][x + 2] == g[y - 3][x + 3] == g[y - 4][x + 4] == m
  }

  lemma FiveIsLine(g: Grid, x: int, y: int, d: Direction, m: char)
    requires Square(g)
    ensures Five(g, x, y, d, 0, m) <==> Line(g, x, y, d, m)
  {
    if Five(g, x, y, d, 0, m) {
      assert MarkAt(g, x, y, d, 0, m) && MarkAt(g, x, y, d, 1, m) && MarkAt(g, x, y, d, 2, m);
      assert MarkAt(g, x, y, d, 3, m) && MarkAt(g, x, y, d, 4, m);
    }
  }

  /** A five exists exactly if five cells in a row, a column or a diagonal of either kind hold the mark. */
  lemma HasFiveMeaning(g: Grid, m: char)
    requires Square(g)
    ensures HasFive(g, m) <==> exists x, y, d: Direction :: Line(g, x, y, d, m)
  {
    forall x, y, d: Direction ensures Five(g, x, y, d, 0, m) <==> Line(g, x, y, d, m) {
      FiveIsLine(g, x, y, d, m);
    }
    hide Five, Line;
  }

  lemma FiveShift(g: Grid, x: int, y: int, d: Direction, o: int, k: int, m: char)
    requires Square(g)
    ensures Five(g, StepX(x, d, k), StepY(y, d, k), d, o, m) <==> Five(g, x, y, d, o + k, m)
  {
    var x', y' := StepX(x, d, k), StepY(y, d, k);
    assert forall i :: MarkAt(g, x', y', d, i, m) == MarkAt(g, x, y, d, i + k, m);
    if Five(g, x', y', d, o, m) {
      forall i | o + k <= i <= o + k + 4 ensures MarkAt(g, x, y, d, i, m) {
        assert MarkAt(g, x', y', d, i - k, m);
      }
    }
  }

  lemma FiveThroughIsFive(g: Grid, x: int, y: int, m: char)
    requires Square(g)
    ensures FiveThrough(g, x, y, m) ==> HasFive(g, m)
  {
    if FiveThrough(g, x, y, m) {
      var d: Direction, o :| -4 <= o <= 0 && Five(g, x, y, d, o, m);
      FiveShift(g, x, y, d, 0, o, m);
    }
  }

  /** A line that is all `m` after a cell was set, and was not before, passes through that cell. */
  lemma NewFive(g: Grid, x: int, y: int, m: char, sx: int, sy: int, d: Direction)
    requires Square(g) && OnBoard(g, x, y)
    requires Five(Put(g, x, y, m), sx, sy, d, 0, m)
    ensures Five(g, sx, sy, d, 0, m) || FiveThrough(Put(g, x, y, m), x, y, m)
  {
    var g' := Put(g, x, y, m);
    if k :| 0 <= k <= 4 && StepX(sx, d, k) == x && StepY(sy, d, k) == y {
      FiveShift(g', sx, sy, d, -k, k, m);
      assert Five(g', x, y, d, -k, m);
    } else {
      forall i | 0 <= i <= 4 ensures MarkAt(g, sx, sy, d, i, m) {
        assert MarkAt(g', sx, sy, d, i, m);
      }
    }
  }

  /**
    Incremental equals global: once there was no five of `m`, a five exists after setting
    a cell to `m` exactly when one passes through that cell.
   */
  lemma FiveAfterPut(g: Grid, x: int, y: int, m: char)
    requires Square(g) && OnBoard(g, x, y)
    requires !HasFive(g, m)
    ensures HasFive(Put(g, x, y, m), m) <==> FiveThrough(Put(g, x, y, m), x, y, m)
  {
    var g' := Put(g, x, y, m);
    FiveThroughIsFive(g', x, y, m);
    if HasFive(g', m) {
      var sx, sy, d: Direction :| Five(g', sx, sy, d, 0, m);
      NewFive(g, x, y, m, sx, sy, d);
    }
  }

  /** Setting an empty cell to one mark neither makes nor breaks a five of another mark. */
  lemma OtherFiveAfterPut(g: Grid, x: int, y: int, m: char, other: char)
    requires Square(g) && OnBoard(g, x, y) && g[y][x] == EMPTY
    requires other != m && other != EMPTY
    ensures HasFive(Put(g, x, y, m), other) <==> HasFive(g, other)
  {
    var g' := Put(g, x, y, m);
    forall sx, sy, d: Direction ensures Five(g', sx, sy, d, 0, other) <==> Five(g, sx, sy, d, 0, other) {
      assert forall i :: MarkAt(g', sx, sy, d, i, other) <==> MarkAt(g, sx, sy, d, i, other);
    }
  }

  lemma NoFiveWithoutMark(g: Grid, m: char)
    requires Square(g)
    requires forall x, y :: OnBoard(g, x, y) ==> g[y][x] != m
    ensures !HasFive(g, m)
  {
    forall x, y, d: Direction ensures !Five(g, x, y, d, 0, m) {
      assert !MarkAt(g, x, y, d, 0, m);
    }
  }

  // ----- the row-major text of a board -----

  function Flatten(g: Grid): string {
    if g == [] then "" else g[0] + Flatten(g[1..])
  }

  lemma {:induction false} FlattenAt(g: Grid, width: nat, x: int, y: int)
    requires Rows(g, width)
    requires 0 <= x < width && 0 <= y < |g|
    ensures 0 <= y * width + x < |Flatten(g)|
    ensures Flatten(g)[y * width + x] == g[y][x]
  {
    if y > 0 {
      FlattenAt(g[1..], width, x, y - 1);
      assert y * width + x == width + ((y - 1) * width + x);
    }
  }

  lemma {:induction false} FlattenLength(g: Grid, width: nat)
    requires Rows(g, width)
    ensures |Flatten(g)| == |g| * width
  {
    if g != [] {
      FlattenLength(g[1..], width);
      assert |g| * width == width + (|g| - 1) * width;
    }
  }

  lemma {:induction false} FlattenPut(g: Grid, width: nat, x: int, y: int, m: char)
    requires Rows(g, width)
    requires 0 <= x < width && 0 <= y < |g|
    ensures 0 <= y * width + x < |Flatten(g)|
    ensures Flatten(g[y := g[y][x := m]]) == Flatten(g)[y * width + x := m]
  {
    var g' := g[y := g[y][x := m]];
    FlattenAt(g, width, x, y);
    if y == 0 {
      assert g'[1..] == g[1..];
    } else {
      assert g'[1..] == g[1..][y - 1 := g[1..][y - 1][x := m]];
      FlattenPut(g[1..], width, x, y - 1, m);
      assert y * width + x == width + ((y - 1) * width + x);
    }
  }

  /** Two boards of one size with the same text are the same board. */
  lemma {:induction false} FlattenInjective(g: Grid, h: Grid, width: nat)
    requires Rows(g, width) && Rows(h, width) && |g| == |h|
    requires Flatten(g) == Flatten(h)
    ensures g == h
  {
    if g != [] {
      assert g[0] == Flatten(g)[..width] == Flatten(h)[..width] == h[0];
      assert Flatten(g[1..]) == Flatten(g)[width..] == Flatten(h)[width..] == Flatten(h[1..]);
      FlattenInjective(g[1..], h[1..], width);
      assert g == [g[0]] + g[1..] && h == [h[0]] + h[1..];
    }
  }

  // ----- counting marks -----

  function Count(s: string, c: char): (n: nat)
    ensures n <= |s|
  {
    if s == "" then 0 else Count(s[..|s| - 1], c) + (if s[|s| - 1] == c then 1 else 0)
  }

  lemma {:induction false} CountUpdate(s: string, k: nat, m: char, c: char)
    requires k < |s|
    ensures Count(s[k := m], c) == Count(s, c) - (if s[k] == c then 1 else 0) + (if m == c then 1 else 0)
  {
    var s' := s[k := m];
    if k == |s| - 1 {
      assert s'[..|s| - 1] == s[..|s| - 1];
    } else {
      assert s'[..|s| - 1] == s[..|s| - 1][k := m];
      CountUpdate(s[..|s| - 1], k, m, c);
    }
  }

  lemma {:induction false} CountIsZero(s: string, c: char)
    ensures Count(s, c) == 0 <==> c !in s
  {
    if s != "" {
      CountIsZero(s[..|s| - 1], c);
      assert s == s[..|s| - 1] + [s[|s| - 1]];
    }
  }
}
