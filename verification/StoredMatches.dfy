/** What the tables say about a match after all its attempts, and that its winner is the scoring rule read off them. */
module StoredMatches {
  import opened Text
  import opened Database
  import opened GameTraces
  import opened MatchTraces
  import opened MatchFacts
  import opened GameView
  import opened Scoring

  // ----- records of games, whatever they contain -----

  function ExtendAll(t: Tables, matchID: int, recs: seq<Record>): Tables {
    if recs == [] then t
    else Extend(ExtendAll(t, matchID, recs[..|recs| - 1]), matchID, recs[|recs| - 1])
  }

  /** Every move row of the record carries the game number `id`. */
  predicate Owned(rec: Record, id: int) {
    forall i :: 0 <= i < |rec.rows| ==> rec.rows[i].gameID == id
  }

  /** No move or event names a game after the last one. */
  ghost predicate Known(t: Tables) {
    (forall i :: 0 <= i < |t.moves| ==> t.moves[i].gameID <= t.lastGame) && GamesAreKnown(t.events, t.lastGame)
  }

  /** Game `id` is found in the tables with exactly the move rows and the events of `rec`. */
  ghost predicate Has(t: Tables, id: int, rec: Record) {
    && id in t.games && t.games[id] == rec.game
    && MovesOf(t.moves, id) == rec.rows && EventsOf(t.events, id) == rec.events
  }

  lemma ExtendHas(t: Tables, matchID: int, rec: Record)
    requires Known(t) && Owned(rec, t.lastGame + 1)
    ensures var t' := Extend(t, matchID, rec); Known(t') && Has(t', t.lastGame + 1, rec)
  {
    hide Appended, EventsOf, MovesOf;
    var id := t.lastGame + 1;
    NoMovesOf(t.moves, id);
    NoEventsOf(t.events, id);
    MovesOfConcat(t.moves, rec.rows, id);
    AppendedEventsOf(t.events, matchID, Some(id), rec.events, id);
    AppendedKnows(t.events, matchID, Some(id), rec.events, id);
  }

  lemma ExtendKeeps(t: Tables, matchID: int, rec: Record, id: int, earlier: Record)
    requires Owned(rec, t.lastGame + 1) && id <= t.lastGame && Has(t, id, earlier)
    ensures Has(Extend(t, matchID, rec), id, earlier)
  {
    hide Appended, EventsOf, MovesOf;
    MovesOfConcat(t.moves, rec.rows, t.lastGame + 1);
    AppendedEventsOf(t.events, matchID, Some(t.lastGame + 1), rec.events, id);
  }

  /**
    Games get consecutive numbers, and every one of them is found again in the end, row for row and
    event for event.
   */
  lemma {:induction false} ExtendAllHas(t: Tables, matchID: int, recs: seq<Record>)
    requires Known(t)
    requires forall i :: 0 <= i < |recs| ==> Owned(recs[i], t.lastGame + 1 + i)
    ensures var t' := ExtendAll(t, matchID, recs);
            && Known(t') && t'.lastGame == t.lastGame + |recs|
            && forall i :: 0 <= i < |recs| ==> Has(t', t.lastGame + 1 + i, recs[i])
  {
    hide Known, Has, Owned;
    if recs != [] {
      var init, last := recs[..|recs| - 1], recs[|recs| - 1];
      ExtendAllHas(t, matchID, init);
      var t1 := ExtendAll(t, matchID, init);
      assert Owned(last, t1.lastGame + 1);
      ExtendHas(t1, matchID, last);
      forall i | 0 <= i < |init| ensures Has(ExtendAll(t, matchID, recs), t.lastGame + 1 + i, recs[i]) {
        ExtendKeeps(t1, matchID, last, t.lastGame + 1 + i, init[i]);
      }
    }
  }

  // ----- the records of a match -----

  ghost function RecordsOf(matchID: int, attempts: seq<Attempt>, id: int): seq<Record> {
    seq(2 * |attempts|, k requires 0 <= k < 2 * |attempts| => RecordAt(matchID, attempts, id, k))
  }

  /** The record of the `k`-th game of the match, games being numbered from `id`. */
  ghost function RecordAt(matchID: int, attempts: seq<Attempt>, id: int, k: nat): Record
    requires k < 2 * |attempts|
  {
    if k % 2 == 0
    then RecordOf(matchID, attempts[k / 2].game1, id + k, k / 2, 1)
    else RecordOf(matchID, attempts[k / 2].game2, id + k, k / 2, 2)
  }

  lemma ExtendAllSnoc(t: Tables, matchID: int, recs: seq<Record>, rec: Record)
    ensures ExtendAll(t, matchID, recs + [rec]) == Extend(ExtendAll(t, matchID, recs), matchID, rec)
  {
    assert (recs + [rec])[..|recs|] == recs;
  }

  lemma {:induction false} ExtendAllLast(t: Tables, matchID: int, recs: seq<Record>)
    ensures ExtendAll(t, matchID, recs).lastGame == t.lastGame + |recs|
  {
    if recs != [] {
      ExtendAllLast(t, matchID, recs[..|recs| - 1]);
    }
  }

  lemma MatchRecordsSnoc(matchID: int, attempts: seq<Attempt>, at: Attempt, id: int)
    ensures var n := |attempts|;
            RecordsOf(matchID, attempts + [at], id) ==
            RecordsOf(matchID, attempts, id)
            + [RecordOf(matchID, at.game1, id + 2 * n, n, 1)] + [RecordOf(matchID, at.game2, id + 2 * n + 1, n, 2)]
  {
    hide RecordOf;
    var n := |attempts|;
    var all := attempts + [at];
    assert RecordAt(matchID, all, id, 2 * n) == RecordOf(matchID, at.game1, id + 2 * n, n, 1);
    assert RecordAt(matchID, all, id, 2 * n + 1) == RecordOf(matchID, at.game2, id + 2 * n + 1, n, 2);
    forall k: nat | k < 2 * n ensures RecordAt(matchID, all, id, k) == RecordAt(matchID, attempts, id, k) {
      assert all[k / 2] == attempts[k / 2];
    }
  }

  /** One more attempt is two more records. */
  lemma AttemptIsRecords(t: Tables, matchID: int, attempts: seq<Attempt>, at: Attempt)
    ensures AfterAttempt(
              ExtendAll(t, matchID, RecordsOf(matchID, attempts, t.lastGame + 1)), matchID, at, |attempts|) ==
            ExtendAll(t, matchID, RecordsOf(matchID, attempts + [at], t.lastGame + 1))
  {
    hide RecordOf, ExtendAll;
    var n, id := |attempts|, t.lastGame + 1;
    var recs := RecordsOf(matchID, attempts, id);
    var rec1, rec2 := RecordOf(matchID, at.game1, id + 2 * n, n, 1), RecordOf(matchID, at.game2, id + 2 * n + 1, n, 2);
    MatchRecordsSnoc(matchID, attempts, at, id);
    ExtendAllLast(t, matchID, recs);
    ExtendAllSnoc(t, matchID, recs, rec1);
    ExtendAllLast(t, matchID, recs + [rec1]);
    ExtendAllSnoc(t, matchID, recs + [rec1], rec2);
  }

  lemma {:induction false} AttemptsAreRecords(t: Tables, matchID: int, attempts: seq<Attempt>)
    ensures AfterAttempts(t, matchID, attempts) == ExtendAll(t, matchID, RecordsOf(matchID, attempts, t.lastGame + 1))
  {
    hide AfterAttempt, RecordAt;
    if attempts != [] {
      var n := |attempts| - 1;
      assert attempts == attempts[..n] + [attempts[n]];
      AttemptsAreRecords(t, matchID, attempts[..n]);
      AttemptIsRecords(t, matchID, attempts[..n], attempts[n]);
    }
  }

  // ----- the scoring rule applied to what is stored -----

  /** The winner that a stored game row names, reading the agent IDs back from their text. */
  function StoredWinner(games: map<int, GameRow>, id: int): Option<int> {
    if id !in games then None
    else if games[id].result == PLAYER_A_WIN then Some(ParseIntOrDefault(games[id].playerA))
    else if games[id].result == PLAYER_B_WIN then Some(ParseIntOrDefault(games[id].playerB))
    else None
  }

  /** The durations of an agent's accepted rows in two stored games. */
  function StoredDurations(t: Tables, id1: int, id2: int, agent: int): seq<int> {
    DurationsOf(MovesOf(t.moves, id1), agent) + DurationsOf(MovesOf(t.moves, id2), agent)
  }

  /** The scoring rule read off the tables: wins from the game rows, averages from the accepted move rows. */
  function StoredVerdict(t: Tables, id1: int, id2: int, a: int, b: int): Option<int> {
    var w1, w2 := StoredWinner(t.games, id1), StoredWinner(t.games, id2);
    SideAgent(
      Verdict(Points(w1, w2, a), Points(w1, w2, b),
        StoredDurations(t, id1, id2, a), StoredDurations(t, id1, id2, b)), a, b)
  }

  function Point(won: bool): nat {
    if won then 1 else 0
  }

  /**
    The verdict on two stored games, the first started by `a` and the second by `b`, by their result
    codes and the times of their accepted rows: more wins, or as many wins and a lower average.
   */
  ghost predicate ByTheRule(t: Tables, id1: int, id2: int, a: int, b: int, verdict: Option<int>) {
    && id1 in t.games && id2 in t.games
    && var code1, code2 := t.games[id1].result, t.games[id2].result;
       var winsA := Point(code1 == "player_a_win") + Point(code2 == "player_b_win");
       var winsB := Point(code1 == "player_b_win") + Point(code2 == "player_a_win");
       var timesA, timesB := StoredDurations(t, id1, id2, a), StoredDurations(t, id1, id2, b);
       && (verdict == Some(a) <==> Better(winsA, winsB, timesA, timesB))
       && (verdict == Some(b) <==> Better(winsB, winsA, timesB, timesA))
       && verdict in {None, Some(a), Some(b)}
  }

  lemma VerdictIsByTheRule(t: Tables, id1: int, id2: int, a: int, b: int)
    requires a != b && IsInt64(a) && IsInt64(b) && id1 in t.games && id2 in t.games
    requires t.games[id1].playerA == FormatInt(a) && t.games[id1].playerB == FormatInt(b)
    requires t.games[id2].playerA == FormatInt(b) && t.games[id2].playerB == FormatInt(a)
    ensures ByTheRule(t, id1, id2, a, b, StoredVerdict(t, id1, id2, a, b))
  {
    hide StoredDurations, Verdict, Better, FormatInt, ParseIntOrDefault;
    ParseIntFormatInt(a);
    ParseIntFormatInt(b);
    assert PLAYER_A_WIN[7] != PLAYER_B_WIN[7];
    var w1, w2 := StoredWinner(t.games, id1), StoredWinner(t.games, id2);
    var code1, code2 := t.games[id1].result, t.games[id2].result;
    assert Points(w1, w2, a) == Point(code1 == PLAYER_A_WIN) + Point(code2 == PLAYER_B_WIN);
    assert Points(w1, w2, b) == Point(code1 == PLAYER_B_WIN) + Point(code2 == PLAYER_A_WIN);
    VerdictMeaning(Points(w1, w2, a), Points(w1, w2, b),
      StoredDurations(t, id1, id2, a), StoredDurations(t, id1, id2, b));
  }

  lemma FinishedRowNamesWinner(games: map<int, GameRow>, id: int, matchID: int, tr: GameTrace)
    requires tr.first != tr.second && IsInt64(tr.first) && IsInt64(tr.second)
    requires id in games && games[id] == FinishedRow(matchID, tr)
    ensures StoredWinner(games, id) == Winner(tr)
  {
    assert PLAYER_A_WIN[7] != PLAYER_B_WIN[7] && |DRAW| != |PLAYER_A_WIN| && |DRAW| != |PLAYER_B_WIN|;
    ParseIntFormatInt(tr.first);
    ParseIntFormatInt(tr.second);
    WinnerIsPlayer(tr);
    hide Winner;
  }

  lemma {:induction false} PlaysAreTimed(
      first: int, second: int, kinds: map<int, AgentType>, plays: seq<Accepted>, agent: int)
    requires first in kinds && second in kinds && Legal(first, second, kinds, plays)
    ensures forall i :: 0 <= i < |SamplesOf(first, second, plays, agent)| ==>
              IsDuration(SamplesOf(first, second, plays, agent)[i])
  {
    if plays != [] {
      var init, last := plays[..|plays| - 1], plays[|plays| - 1];
      assert plays == init + [last];
      LegalSnoc(first, second, kinds, init, last);
      PlaysAreTimed(first, second, kinds, init, agent);
    }
  }

  /** Durations are so short, and samples so few, that 64-bit products are exact. */
  lemma SamplesAreBounded(at: Attempt, a: int, b: int, kinds: map<int, AgentType>)
    requires a != b && kinds.Keys == {a, b} && Played(at, a, b, kinds)
    ensures Bounded(Samples(at, a)) && Bounded(Samples(at, b))
  {
    SampleTotals(at, a, b, kinds);
    forall agent | agent in {a, b}
      ensures forall i :: 0 <= i < |Samples(at, agent)| ==> IsDuration(Samples(at, agent)[i])
    {
      PlaysAreTimed(a, b, kinds, at.game1.plays, agent);
      PlaysAreTimed(b, a, kinds, at.game2.plays, agent);
    }
  }

  /** Both games of attempt `n` are in the tables, as games `id` and `id + 1`. */
  ghost predicate Holds(t: Tables, matchID: int, at: Attempt, n: int, id: int) {
    && Has(t, id, RecordOf(matchID, at.game1, id, n, 1))
    && Has(t, id + 1, RecordOf(matchID, at.game2, id + 1, n, 2))
  }

  /** An agent's samples in memory are the durations of its accepted rows in the two stored games. */
  lemma SamplesAreStored(
      t: Tables, matchID: int, at: Attempt, n: int, id: int, a: int, b: int, kinds: map<int, AgentType>, agent: int)
    requires kinds.Keys == {a, b} && Played(at, a, b, kinds) && Holds(t, matchID, at, n, id)
    ensures Samples(at, agent) == StoredDurations(t, id, id + 1, agent)
  {
    GameRowSamples(at.game1, kinds, id, agent);
    GameRowSamples(at.game2, kinds, id + 1, agent);
    hide Finished, FinishedRow, GameRows, GameEvents;
  }

  lemma RowNamesPlayers(matchID: int, tr: GameTrace)
    ensures FinishedRow(matchID, tr).playerA == FormatInt(tr.first)
    ensures FinishedRow(matchID, tr).playerB == FormatInt(tr.second)
  {
  }

  /** The outcome of an attempt is the scoring rule applied to what the attempt stored. */
  lemma OutcomeFollowsTheRule(
      t: Tables, matchID: int, at: Attempt, n: int, id: int, a: int, b: int, kinds: map<int, AgentType>)
    requires a != b && IsInt64(a) && IsInt64(b)
    requires kinds.Keys == {a, b} && Played(at, a, b, kinds) && Holds(t, matchID, at, n, id)
    ensures ByTheRule(t, id, id + 1, a, b, Outcome(at, a, b))
  {
    hide Finished, FinishedRow, GameRows, GameEvents, Winner, StoredDurations, Bounded;
    SamplesAreBounded(at, a, b, kinds);
    DecisionIsVerdict(Wins(at, a), Wins(at, b), Samples(at, a), Samples(at, b));
    SamplesAreStored(t, matchID, at, n, id, a, b, kinds, a);
    SamplesAreStored(t, matchID, at, n, id, a, b, kinds, b);
    FinishedRowNamesWinner(t.games, id, matchID, at.game1);
    FinishedRowNamesWinner(t.games, id + 1, matchID, at.game2);
    assert Outcome(at, a, b) == StoredVerdict(t, id, id + 1, a, b);
    RowNamesPlayers(matchID, at.game1);
    RowNamesPlayers(matchID, at.game2);
    VerdictIsByTheRule(t, id, id + 1, a, b);
  }

  // ----- every stored game replays from its stored events -----

  /**
    Game `id` of the tables tells one story: the events stored for it open and close under its
    attempt and number, alternate between states and outcomes, and send at every turn what a fresh
    engine shows after the moves accepted before it; its move rows are their projection; its result
    and move count follow from them; and the page drawn from its rows replays them.
   */
  ghost predicate Replays(t: Tables, id: int, attempt: int, number: int, first: int, second: int) {
    var events, rows := EventsOf(t.events, id), MovesOf(t.moves, id);
    && Faithful(first, second, events) && Project(id, events) == rows
    && id in t.games && Framed(events, attempt, number, first, second, t.games[id].result)
    && ResultFits(t.games[id].result, t.games[id].moveCount, events, first, second)
    && PageShows(GameFrom(t.games[id]), rows, events, first, second)
  }

  lemma StoredGameReplays(
      t: Tables, matchID: int, tr: GameTrace, kinds: map<int, AgentType>, n: int, number: int, id: int)
    requires tr.first != tr.second && IsInt64(tr.first) && IsInt64(tr.second)
    requires tr.first in kinds && tr.second in kinds && Finished(tr, kinds)
    requires Has(t, id, RecordOf(matchID, tr, id, n, number))
    ensures Replays(t, id, n, number, tr.first, tr.second)
  {
    hide Finished, GameRows, GameEvents, Faithful, Project, EventsOf, MovesOf, ResultFits, PageShows, Framed,
      Winner, ResultCode;
    ReplayFidelity(tr, kinds, n, number);
    MovesAreProjection(tr, id, n, number);
    ResultFollowsEvents(tr, kinds, n, number);
    GameIsFramed(tr, n, number);
    PageShowsTheEvents(matchID, tr, kinds, id, n, number);
  }

  // ----- all attempts of a match -----

  lemma RecordsAreOwned(
      matchID: int, attempts: seq<Attempt>, id: int, a: int, b: int, kinds: map<int, AgentType>, k: nat)
    requires kinds.Keys == {a, b} && AllPlayed(attempts, a, b, kinds) && k < 2 * |attempts|
    ensures Owned(RecordAt(matchID, attempts, id, k), id + k)
  {
    hide GameEvents, FinishedRow, GameRows, Finished;
    assert PlayedAt(attempts, k / 2, a, b, kinds);
    RowsOfGame(attempts[k / 2].game1, kinds, id + k);
    RowsOfGame(attempts[k / 2].game2, kinds, id + k);
  }

  /** After any number of attempts every one of them is found again in the tables, under consecutive game numbers. */
  lemma AttemptsAreStored(
      t: Tables, matchID: int, attempts: seq<Attempt>, a: int, b: int, kinds: map<int, AgentType>, i: nat)
    requires Known(t) && kinds.Keys == {a, b} && AllPlayed(attempts, a, b, kinds) && i < |attempts|
    ensures var t' := AfterAttempts(t, matchID, attempts);
            t'.lastGame == t.lastGame + 2 * |attempts| && Holds(t', matchID, attempts[i], i, t.lastGame + 1 + 2 * i)
  {
    hide RecordOf, AfterAttempts, Owned, AllPlayed, ExtendAll, Has, Known;
    var id := t.lastGame + 1;
    var recs := RecordsOf(matchID, attempts, id);
    forall k | 0 <= k < |recs| ensures Owned(recs[k], id + k) {
      RecordsAreOwned(matchID, attempts, id, a, b, kinds, k);
    }
    AttemptsAreRecords(t, matchID, attempts);
    ExtendAllHas(t, matchID, recs);
    var t' := ExtendAll(t, matchID, recs);
    assert recs[2 * i] == RecordAt(matchID, attempts, id, 2 * i)
           && recs[2 * i + 1] == RecordAt(matchID, attempts, id, 2 * i + 1);
    assert Has(t', id + 2 * i, recs[2 * i]) && Has(t', id + (2 * i + 1), recs[2 * i + 1]);
  }

  /**
    Pair `i` of a match, whose games are numbered from `id`: both games replay, and the scoring rule
    gives `verdict`.
   */
  ghost predicate PairIs(t: Tables, id: int, i: nat, a: int, b: int, verdict: Option<int>) {
    && Replays(t, id + 2 * i, i, 1, a, b) && Replays(t, id + 2 * i + 1, i, 2, b, a)
    && ByTheRule(t, id + 2 * i, id + 2 * i + 1, a, b, verdict)
  }

  lemma PairFollowsTheRule(
      t: Tables, matchID: int, attempts: seq<Attempt>, a: int, b: int, kinds: map<int, AgentType>, i: nat)
    requires Known(t) && a != b && IsInt64(a) && IsInt64(b) && i < |attempts|
    requires kinds.Keys == {a, b} && AllPlayed(attempts, a, b, kinds)
    ensures AfterAttempts(t, matchID, attempts).lastGame == t.lastGame + 2 * |attempts|
    ensures PairIs(AfterAttempts(t, matchID, attempts), t.lastGame + 1, i, a, b, Outcome(attempts[i], a, b))
  {
    hide ByTheRule, Outcome, AfterAttempts, Has, Replays, RecordOf, Finished;
    assert PlayedAt(attempts, i, a, b, kinds);
    AttemptsAreStored(t, matchID, attempts, a, b, kinds, i);
    var t', at, id := AfterAttempts(t, matchID, attempts), attempts[i], t.lastGame + 1 + 2 * i;
    StoredGameReplays(t', matchID, at.game1, kinds, i, 1, id);
    StoredGameReplays(t', matchID, at.game2, kinds, i, 2, id + 1);
    OutcomeFollowsTheRule(t', matchID, at, i, id, a, b, kinds);
  }

  /**
    The tables hold a match of `n` pairs of games, numbered from `id`, whose winner is the scoring
    rule read off them: every pair but the last is tied by that rule, and the last pair names the
    winner, or is the sixth. Every game replays from its stored events.
   */
  ghost predicate MatchIs(t: Tables, id: int, n: nat, a: int, b: int, winner: Option<int>) {
    && 1 <= n <= 6 && t.lastGame == id - 1 + 2 * n
    && (forall i :: 0 <= i < n - 1 ==> PairIs(t, id, i, a, b, None))
    && PairIs(t, id, n - 1, a, b, winner)
    && (winner == None ==> n == 6)
  }

  lemma MatchFollowsTheRule(
      t: Tables, matchID: int, order: seq<int>, attempts: seq<Attempt>, a: int, b: int, kinds: map<int, AgentType>,
      winner: Option<int>)
    requires Known(t) && |order| == 2 && a != b && IsInt64(a) && IsInt64(b)
    requires kinds.Keys == {a, b} && AllPlayed(attempts, a, b, kinds) && Decisive(attempts, a, b, winner)
    ensures MatchIs(AfterMatch(t, matchID, order, attempts), t.lastGame + 1, |attempts|, a, b, winner)
  {
    hide PairIs, Outcome, AfterAttempts, Played, Appended, AllPlayed, GamesAreKnown;
    var t0 := t.(events := Appended(t.events, matchID, None, [BotStarted(order[0]), BotStarted(order[1])]));
    var t', id, n := AfterAttempts(t0, matchID, attempts), t.lastGame + 1, |attempts|;
    AppendedKnows(t.events, matchID, None, [BotStarted(order[0]), BotStarted(order[1])], t.lastGame);
    assert Known(t0);
    forall i: nat | i < n - 1 ensures PairIs(t', id, i, a, b, None) {
      assert TiedAt(attempts, i, a, b);
      PairFollowsTheRule(t0, matchID, attempts, a, b, kinds, i);
    }
    PairFollowsTheRule(t0, matchID, attempts, a, b, kinds, n - 1);
  }

  /** The tables agree on the games `id`, ..., `id + n - 1`, event for event. */
  ghost predicate SameGames(t: Tables, t': Tables, id: int, n: nat) {
    && t'.games == t.games && t'.moves == t.moves && t'.lastGame == t.lastGame
    && forall g :: id <= g < id + n ==> EventsOf(t'.events, g) == EventsOf(t.events, g)
  }

  lemma GameStays(t: Tables, t': Tables, g: int, attempt: int, number: int, first: int, second: int)
    requires t'.games == t.games && t'.moves == t.moves && EventsOf(t'.events, g) == EventsOf(t.events, g)
    requires Replays(t, g, attempt, number, first, second)
    ensures Replays(t', g, attempt, number, first, second)
  {
    hide Faithful, Project, EventsOf, MovesOf, ResultFits, PageShows, GameFrom, Framed;
  }

  lemma RuleStays(t: Tables, t': Tables, id1: int, id2: int, a: int, b: int, verdict: Option<int>)
    requires t'.games == t.games && t'.moves == t.moves
    requires ByTheRule(t, id1, id2, a, b, verdict)
    ensures ByTheRule(t', id1, id2, a, b, verdict)
  {
    hide MovesOf, DurationsOf, Better, Point;
  }

  lemma PairStays(t: Tables, t': Tables, id: int, n: nat, i: nat, a: int, b: int, verdict: Option<int>)
    requires SameGames(t, t', id, 2 * n) && i < n && PairIs(t, id, i, a, b, verdict)
    ensures PairIs(t', id, i, a, b, verdict)
  {
    hide EventsOf, ByTheRule, Faithful, Project, MovesOf, ResultFits, PageShows, GameFrom, Framed;
    GameStays(t, t', id + 2 * i, i, 1, a, b);
    GameStays(t, t', id + 2 * i + 1, i, 2, b, a);
    RuleStays(t, t', id + 2 * i, id + 2 * i + 1, a, b, verdict);
  }

  lemma SameLastGame(t: Tables, t': Tables, id: int, n: nat)
    requires SameGames(t, t', id, n)
    ensures t'.lastGame == t.lastGame
  {
  }

  /** What the tables say about a match depends only on its own games. */
  lemma MatchStays(t: Tables, t': Tables, id: int, n: nat, a: int, b: int, winner: Option<int>)
    requires SameGames(t, t', id, 2 * n) && MatchIs(t, id, n, a, b, winner)
    ensures MatchIs(t', id, n, a, b, winner)
  {
    hide PairIs, SameGames;
    SameLastGame(t, t', id, 2 * n);
    forall i: nat | i < n - 1 ensures PairIs(t', id, i, a, b, None) {
      PairStays(t, t', id, n, i, a, b, None);
    }
    PairStays(t, t', id, n, n - 1, a, b, winner);
  }

  /** An event that names no game changes nothing about the games. */
  lemma SameGamesAfter(t: Tables, matchID: int, events: seq<Event>, id: int, n: nat)
    ensures SameGames(t, t.(events := Appended(t.events, matchID, None, events)), id, n)
  {
    forall g | id <= g < id + n
      ensures EventsOf(Appended(t.events, matchID, None, events), g) == EventsOf(t.events, g)
    {
      AppendedEventsOf(t.events, matchID, None, events, g);
    }
  }
}
