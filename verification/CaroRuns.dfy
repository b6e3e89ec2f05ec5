/** What every run of a Caro game keeps, on any board size and for any sequence of attempted moves. */
module CaroRuns {
  import opened Grids
  import opened Caro

  /** The attempted moves in order: a rejected one changes nothing, and nobody moves once the game is over. */
  ghost function Run(start: GameState, moves: seq<Position>): (s: GameState)
    requires WellFormed(start)
    ensures WellFormed(s) && |s.grid| == |start.grid| && s.players == start.players
  {
    if moves == [] then start
    else
      var s := Run(start, moves[..|moves| - 1]);
      if s.over then s
      else match Play(s, moves[|moves| - 1])
        case Rejected(_) => s
        case Next(next) => next
  }

  lemma RunExtends(start: GameState, moves: seq<Position>, pos: Position)
    requires WellFormed(start)
    ensures Run(start, moves + [pos]) ==
            var s := Run(start, moves);
            if s.over then s
            else match Play(s, pos)
              case Rejected(_) => s
              case Next(next) => next
  {
    assert (moves + [pos])[..|moves|] == moves;
  }

  ghost predicate FiveOf(s: GameState, player: nat)
    requires WellFormed(s)
  {
    HasFive(s.grid, Mark(player))
  }

  /** Whose turn it is, and how many marks of each kind the board holds. */
  ghost predicate Tallied(s: GameState)
    requires WellFormed(s)
  {
    var text := Flatten(s.grid);
    && s.current == s.turns % 2
    && Count(text, 'X') == (s.turns + 1) / 2
    && Count(text, 'O') == s.turns / 2
    && Count(text, EMPTY) == |text| - s.turns
  }

  ghost predicate Undecided(s: GameState)
    requires WellFormed(s)
  {
    && s.result == "" && !FiveOf(s, 0) && !FiveOf(s, 1)
    && (Full(s.grid) ==> |s.grid| == 0)
  }

  ghost predicate WonBy(s: GameState, player: nat)
    requires WellFormed(s) && player < 2
  {
    s.result == s.players[player] && FiveOf(s, player) && !FiveOf(s, 1 - player)
  }

  ghost predicate Drawn(s: GameState)
    requires WellFormed(s)
  {
    s.result == "draw" && |s.grid| > 0 && Full(s.grid) && !FiveOf(s, 0) && !FiveOf(s, 1)
  }

  ghost predicate Sound(s: GameState) {
    && WellFormed(s) && Tallied(s)
    && if s.over then WonBy(s, 0) || WonBy(s, 1) || Drawn(s) else Undecided(s)
  }

  // ----- the invariant holds at the start and after every move -----

  lemma {:induction false} CountRepeated(s: string, c: char)
    requires forall i :: 0 <= i < |s| ==> s[i] == c
    ensures Count(s, c) == |s|
  {
    if s != "" {
      CountRepeated(s[..|s| - 1], c);
    }
  }

  lemma {:induction false} FlattenEmpty(g: Grid, width: nat)
    requires Rows(g, width)
    requires forall y, x :: 0 <= y < |g| && 0 <= x < width ==> g[y][x] == EMPTY
    ensures forall k :: 0 <= k < |Flatten(g)| ==> Flatten(g)[k] == EMPTY
  {
    if g != [] {
      forall y, x | 0 <= y < |g[1..]| && 0 <= x < width ensures g[1..][y][x] == EMPTY {
        assert g[1..][y] == g[y + 1];
      }
      FlattenEmpty(g[1..], width);
    }
  }

  lemma InitialIsSound(size: nat, players: seq<string>)
    requires |players| == 2
    ensures Sound(Initial(size, players))
  {
    var g := EmptyGrid(size);
    NoFiveWithoutMark(g, 'X');
    NoFiveWithoutMark(g, 'O');
    FlattenEmpty(g, size);
    var text := Flatten(g);
    CountRepeated(text, EMPTY);
    CountIsZero(text, 'X');
    CountIsZero(text, 'O');
    if size > 0 {
      assert OnBoard(g, 0, 0);
    }
  }

  lemma PutCounts(g: Grid, x: int, y: int, m: char, c: char)
    requires Square(g) && OnBoard(g, x, y) && g[y][x] == EMPTY && m != EMPTY
    ensures |Flatten(Put(g, x, y, m))| == |Flatten(g)|
    ensures Count(Flatten(Put(g, x, y, m)), c) ==
            Count(Flatten(g), c) + (if c == m then 1 else if c == EMPTY then -1 else 0)
  {
    FlattenAt(g, |g|, x, y);
    FlattenPut(g, |g|, x, y, m);
    CountUpdate(Flatten(g), y * |g| + x, m, c);
  }

  lemma NextMove(s: GameState, pos: Position)
    requires WellFormed(s)
    ensures Play(s, pos).Next? ==>
              var next := Play(s, pos).state;
              && OnBoard(s.grid, pos.X - 1, pos.Y - 1) && s.grid[pos.Y - 1][pos.X - 1] == EMPTY
              && next.grid == Put(s.grid, pos.X - 1, pos.Y - 1, Mark(s.current))
              && next.turns == s.turns + 1 && next.current == (s.current + 1) % 2
  {
  }

  lemma TallyStep(s: GameState, next: GameState, x: int, y: int)
    requires WellFormed(s) && Tallied(s)
    requires OnBoard(s.grid, x, y) && s.grid[y][x] == EMPTY
    requires WellFormed(next) && next.grid == Put(s.grid, x, y, Mark(s.current))
    requires next.turns == s.turns + 1 && next.current == (s.current + 1) % 2
    ensures Tallied(next)
  {
    hide Flatten, Count;
    var mark := Mark(s.current);
    PutCounts(s.grid, x, y, mark, 'X');
    PutCounts(s.grid, x, y, mark, 'O');
    PutCounts(s.grid, x, y, mark, EMPTY);
  }

  lemma PlayKeepsSound(s: GameState, pos: Position)
    requires Sound(s) && !s.over
    ensures Play(s, pos).Next? ==> Sound(Play(s, pos).state)
  {
    NextMove(s, pos);
    if Play(s, pos).Next? {
      TallyStep(s, Play(s, pos).state, pos.X - 1, pos.Y - 1);
      var x, y, mark := pos.X - 1, pos.Y - 1, Mark(s.current);
      FiveAfterPut(s.grid, x, y, mark);
      OtherFiveAfterPut(s.grid, x, y, mark, Mark(1 - s.current));
    }
  }

  lemma {:induction false} RunIsSound(start: GameState, moves: seq<Position>)
    requires Sound(start)
    ensures Sound(Run(start, moves))
  {
    if moves != [] {
      var s := Run(start, moves[..|moves| - 1]);
      RunIsSound(start, moves[..|moves| - 1]);
      if !s.over {
        PlayKeepsSound(s, moves[|moves| - 1]);
      }
    }
  }

  // ----- what the result of a game means -----

  /**
    After any attempted moves on any board: the game is over exactly when a line of five
    exists somewhere or the board is full, never both players have a line, and the result
    names the owner of the line, or "draw" when the full board has none.
   */
  lemma GameMeaning(size: nat, players: seq<string>, moves: seq<Position>)
    requires |players| == 2
    ensures var s := Run(Initial(size, players), moves);
            && (s.over <==> FiveOf(s, 0) || FiveOf(s, 1) || (size > 0 && Full(s.grid)))
            && !(FiveOf(s, 0) && FiveOf(s, 1))
            && (forall p :: 0 <= p < 2 && FiveOf(s, p) ==> s.result == players[p])
            && (s.over && !FiveOf(s, 0) && !FiveOf(s, 1) ==> s.result == "draw")
            && (!s.over ==> s.result == "")
  {
    InitialIsSound(size, players);
    RunIsSound(Initial(size, players), moves);
  }

  /** With two distinct names other than "draw" and "", the result text alone decides who has the line. */
  lemma ResultMeaning(size: nat, players: seq<string>, moves: seq<Position>)
    requires |players| == 2 && players[0] != players[1]
    requires "draw" !in players && "" !in players
    ensures var s := Run(Initial(size, players), moves);
            && (forall p :: 0 <= p < 2 ==> (s.result == players[p] <==> FiveOf(s, p)))
            && (s.result == "draw" <==> size > 0 && Full(s.grid) && !FiveOf(s, 0) && !FiveOf(s, 1))
            && (s.result == "" <==> !s.over)
  {
    GameMeaning(size, players, moves);
    var s := Run(Initial(size, players), moves);
    assert s.result in {players[0], players[1], "draw", ""};
  }

  /** A game on an n by n board accepts at most n * n moves, and the mover's mark follows from the counts. */
  lemma TurnMeaning(size: nat, players: seq<string>, moves: seq<Position>)
    requires |players| == 2
    ensures var s := Run(Initial(size, players), moves);
            && s.turns <= size * size
            && (s.current == 0 <==> Count(Flatten(s.grid), 'X') == Count(Flatten(s.grid), 'O'))
  {
    InitialIsSound(size, players);
    RunIsSound(Initial(size, players), moves);
    FlattenLength(Run(Initial(size, players), moves).grid, size);
  }
}
