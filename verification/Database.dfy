/**
  The tables behind a match: match rows with guarded status changes, the append-only event
  stream, games, and the projected moves. Rows live in insertion order.
 */
module Database {
  import opened Text

  // ----- match status: the WHERE guards of the UPDATE statements -----

  datatype Status = Queued | Running | Completed | Failed

  predicate Terminal(s: Status) {
    s.Completed? || s.Failed?
  }

  function Started(s: Status): Status {
    if s.Queued? then Running else s
  }

  function CompletedFrom(s: Status): Status {
    if s.Running? then Completed else s
  }

  function FailedFrom(s: Status): Status {
    if Terminal(s) then s else Failed
  }

  // ----- rows -----

  datatype AgentType = UserAgent | SystemAgent

  datatype MatchRow = MatchRow(agentA: int, agentB: int, status: Status, winner: Option<int>, errorMsg: string)

  datatype GameRow = GameRow(matchID: int, playerA: string, playerB: string, result: string, moveCount: int)

  datatype Event =
    | MatchStarted(agentA: int, agentB: int)
    | BotStarted(agent: int)
    | GameStarted(attempt: int, number: int, playerA: int, playerB: int)
    | StateSent(number: int, turn: int, agent: int, state: string)
    | MoveAccepted(number: int, turn: int, agent: int, x: int, y: int, durationMS: int)
    | MoveRejected(number: int, turn: int, agent: int, reason: string, raw: string)
    | TurnTimeout(number: int, turn: int, agent: int)
    | TurnCrash(number: int, turn: int, agent: int)
    | GameEnded(number: int, result: string, winner: Option<int>)
    | MatchCompleted(winner: Option<int>)
    | MatchFailed(error: string)

  datatype EventRow = EventRow(matchID: int, gameID: Option<int>, seqNo: int, event: Event)

  datatype Action = Place | Invalid | TimedOut | Crashed

  datatype Payload = At(x: int, y: int) | Raw(raw: string) | Empty

  datatype MoveRow = MoveRow(
    gameID: int, seqNo: int, agent: int, action: Action, payload: Payload, accepted: bool, durationMS: Option<int>)

  // ----- the event stream of one match -----

  function StreamOf(rows: seq<EventRow>, matchID: int): seq<EventRow> {
    if rows == [] then []
    else
      var init, last := rows[..|rows| - 1], rows[|rows| - 1];
      StreamOf(init, matchID) + (if last.matchID == matchID then [last] else [])
  }

  /** Every match numbers its events 1, 2, 3, ... in insertion order. */
  ghost predicate Numbered(rows: seq<EventRow>) {
    forall m, i :: 0 <= i < |StreamOf(rows, m)| ==> StreamOf(rows, m)[i].seqNo == i + 1
  }

  /** SELECT MAX(seq) ... WHERE match_id = ?, null when there is no row. */
  function MaxSeq(rows: seq<EventRow>, matchID: int): Option<int> {
    if rows == [] then None
    else
      var rest, last := MaxSeq(rows[..|rows| - 1], matchID), rows[|rows| - 1];
      if last.matchID != matchID then rest
      else match rest
        case None => Some(last.seqNo)
        case Some(n) => Some(if last.seqNo > n then last.seqNo else n)
  }

  function NextSeq(rows: seq<EventRow>, matchID: int): int {
    match MaxSeq(rows, matchID)
    case None => 1
    case Some(n) => n + 1
  }

  /** INSERT OR IGNORE under UNIQUE(match_id, seq). */
  function InsertEvent(rows: seq<EventRow>, row: EventRow): seq<EventRow> {
    if exists i :: 0 <= i < |rows| && rows[i].matchID == row.matchID && rows[i].seqNo == row.seqNo
    then rows else rows + [row]
  }

  /** A row whose match and number are taken is ignored; any other is added at the end. */
  lemma InsertEventMeaning(rows: seq<EventRow>, row: EventRow)
    ensures var taken := exists earlier: EventRow ::
              earlier in rows && earlier.matchID == row.matchID && earlier.seqNo == row.seqNo;
            InsertEvent(rows, row) == if taken then rows else rows + [row]
  {
    if earlier: EventRow :| earlier in rows && earlier.matchID == row.matchID && earlier.seqNo == row.seqNo {
      var i :| 0 <= i < |rows| && rows[i] == earlier;
    }
  }

  lemma StreamSnoc(rows: seq<EventRow>, row: EventRow, matchID: int)
    ensures StreamOf(rows + [row], matchID) == StreamOf(rows, matchID) + (if row.matchID == matchID then [row] else [])
  {
    assert (rows + [row])[..|rows|] == rows;
  }

  lemma {:induction false} InStream(rows: seq<EventRow>, i: nat)
    requires i < |rows|
    ensures rows[i] in StreamOf(rows, rows[i].matchID)
  {
    if i < |rows| - 1 {
      InStream(rows[..|rows| - 1], i);
    }
  }

  lemma {:induction false} MaxSeqOfStream(rows: seq<EventRow>, matchID: int)
    requires forall i :: 0 <= i < |StreamOf(rows, matchID)| ==> StreamOf(rows, matchID)[i].seqNo == i + 1
    ensures NextSeq(rows, matchID) == |StreamOf(rows, matchID)| + 1
  {
    if rows != [] {
      var init := rows[..|rows| - 1];
      assert forall i :: 0 <= i < |StreamOf(init, matchID)| ==>
          StreamOf(init, matchID)[i] == StreamOf(rows, matchID)[i];
      MaxSeqOfStream(init, matchID);
      if rows[|rows| - 1].matchID == matchID {
        assert StreamOf(rows, matchID)[|StreamOf(init, matchID)|] == rows[|rows| - 1];
      }
    }
  }

  /** The read of the maximum followed at once by the insert never loses the event and keeps the numbering. */
  lemma AppendIsNeverIgnored(rows: seq<EventRow>, matchID: int, gameID: Option<int>, event: Event)
    requires Numbered(rows)
    ensures var row := EventRow(matchID, gameID, NextSeq(rows, matchID), event);
            InsertEvent(rows, row) == rows + [row] && Numbered(rows + [row])
    ensures NextSeq(rows, matchID) == |StreamOf(rows, matchID)| + 1
  {
    var row := EventRow(matchID, gameID, NextSeq(rows, matchID), event);
    MaxSeqOfStream(rows, matchID);
    forall i | 0 <= i < |rows| && rows[i].matchID == matchID ensures rows[i].seqNo != row.seqNo {
      InStream(rows, i);
    }
    forall m, i | 0 <= i < |StreamOf(rows + [row], m)| ensures StreamOf(rows + [row], m)[i].seqNo == i + 1 {
      StreamSnoc(rows, row, m);
    }
  }

  /** The table after appending `events` to one match, one after the other. */
  function Appended(rows: seq<EventRow>, matchID: int, gameID: Option<int>, events: seq<Event>): seq<EventRow> {
    if events == [] then rows
    else
      var before := Appended(rows, matchID, gameID, events[..|events| - 1]);
      before + [EventRow(matchID, gameID, |StreamOf(before, matchID)| + 1, events[|events| - 1])]
  }

  lemma AppendedSnoc(rows: seq<EventRow>, matchID: int, gameID: Option<int>, events: seq<Event>, event: Event)
    ensures Appended(rows, matchID, gameID, events + [event]) ==
            var before := Appended(rows, matchID, gameID, events);
            before + [EventRow(matchID, gameID, |StreamOf(before, matchID)| + 1, event)]
  {
    assert (events + [event])[..|events|] == events;
  }

  lemma {:induction false} AppendedConcat(
      rows: seq<EventRow>, matchID: int, gameID: Option<int>, a: seq<Event>, b: seq<Event>)
    ensures Appended(Appended(rows, matchID, gameID, a), matchID, gameID, b) ==
            Appended(rows, matchID, gameID, a + b)
  {
    if b == [] {
      assert a + b == a;
    } else {
      var init, last := b[..|b| - 1], b[|b| - 1];
      AppendedConcat(rows, matchID, gameID, a, init);
      assert a + b == a + init + [last];
      AppendedSnoc(rows, matchID, gameID, a + init, last);
    }
  }

  /**
    Appending leaves the older events in place, adds the new ones with the next numbers, and touches
    no other match.
   */
  lemma {:induction false} AppendedStream(
      rows: seq<EventRow>, matchID: int, gameID: Option<int>, events: seq<Event>, m: int)
    ensures var prior := StreamOf(rows, m);
            StreamOf(Appended(rows, matchID, gameID, events), m) ==
            if m == matchID
            then prior + seq(|events|,
                   i requires 0 <= i < |events| => EventRow(matchID, gameID, |prior| + i + 1, events[i]))
            else prior
  {
    hide StreamOf;
    if events != [] {
      var init := events[..|events| - 1];
      var before := Appended(rows, matchID, gameID, init);
      AppendedStream(rows, matchID, gameID, init, m);
      AppendedStream(rows, matchID, gameID, init, matchID);
      StreamSnoc(before, EventRow(matchID, gameID, |StreamOf(before, matchID)| + 1, events[|events| - 1]), m);
    }
  }

  lemma AppendOne(rows: seq<EventRow>, matchID: int, gameID: Option<int>, event: Event)
    requires Numbered(rows)
    ensures InsertEvent(rows, EventRow(matchID, gameID, NextSeq(rows, matchID), event)) ==
            Appended(rows, matchID, gameID, [event])
    ensures Numbered(Appended(rows, matchID, gameID, [event]))
  {
    AppendIsNeverIgnored(rows, matchID, gameID, event);
    AppendedSnoc(rows, matchID, gameID, [], event);
    assert [] + [event] == [event];
  }

  // ----- the events of one game -----

  /** The events of one game, in insertion order. */
  function EventsOf(rows: seq<EventRow>, gameID: int): seq<Event> {
    if rows == [] then []
    else
      var init, last := rows[..|rows| - 1], rows[|rows| - 1];
      EventsOf(init, gameID) + (if last.gameID == Some(gameID) then [last.event] else [])
  }

  /** No event names a game after `lastGame`. */
  ghost predicate GamesAreKnown(rows: seq<EventRow>, lastGame: int) {
    forall i :: 0 <= i < |rows| && rows[i].gameID.Some? ==> rows[i].gameID.value <= lastGame
  }

  /** Appending to one game adds exactly the new events to it, and none to any other game. */
  lemma {:induction false} AppendedEventsOf(
      rows: seq<EventRow>, matchID: int, gameID: Option<int>, events: seq<Event>, g: int)
    ensures EventsOf(Appended(rows, matchID, gameID, events), g) ==
            if gameID == Some(g) then EventsOf(rows, g) + events else EventsOf(rows, g)
  {
    if events != [] {
      var before := Appended(rows, matchID, gameID, events[..|events| - 1]);
      AppendedEventsOf(rows, matchID, gameID, events[..|events| - 1], g);
      assert Appended(rows, matchID, gameID, events)[..|before|] == before;
    }
  }

  lemma {:induction false} AppendedKnows(
      rows: seq<EventRow>, matchID: int, gameID: Option<int>, events: seq<Event>, lastGame: int)
    requires GamesAreKnown(rows, lastGame) && (gameID.Some? ==> gameID.value <= lastGame)
    ensures GamesAreKnown(Appended(rows, matchID, gameID, events), lastGame)
  {
    if events != [] {
      AppendedKnows(rows, matchID, gameID, events[..|events| - 1], lastGame);
    }
  }

  lemma EventsOfSnoc(rows: seq<EventRow>, row: EventRow, g: int)
    ensures EventsOf(rows + [row], g) == EventsOf(rows, g) + (if row.gameID == Some(g) then [row.event] else [])
  {
    assert (rows + [row])[..|rows|] == rows;
  }

  /** The events of a game can be found in the stream of its match, if no other match names the game. */
  lemma {:induction false} EventsOfStream(rows: seq<EventRow>, matchID: int, g: int)
    requires forall i :: 0 <= i < |rows| && rows[i].gameID == Some(g) ==> rows[i].matchID == matchID
    ensures EventsOf(StreamOf(rows, matchID), g) == EventsOf(rows, g)
  {
    if rows != [] {
      var init, last := rows[..|rows| - 1], rows[|rows| - 1];
      EventsOfStream(init, matchID, g);
      if last.matchID == matchID {
        EventsOfSnoc(StreamOf(init, matchID), last, g);
      } else {
        assert StreamOf(rows, matchID) == StreamOf(init, matchID);
      }
    }
  }

  lemma {:induction false} NoEventsOf(rows: seq<EventRow>, gameID: int)
    requires forall i :: 0 <= i < |rows| ==> rows[i].gameID != Some(gameID)
    ensures EventsOf(rows, gameID) == []
  {
    if rows != [] {
      NoEventsOf(rows[..|rows| - 1], gameID);
    }
  }

  // ----- the moves of one game -----

  function MovesOf(rows: seq<MoveRow>, gameID: int): seq<MoveRow> {
    if rows == [] then []
    else
      var init, last := rows[..|rows| - 1], rows[|rows| - 1];
      MovesOf(init, gameID) + (if last.gameID == gameID then [last] else [])
  }

  /** INSERT OR IGNORE under UNIQUE(game_id, seq). */
  function InsertMoveRow(rows: seq<MoveRow>, row: MoveRow): seq<MoveRow> {
    if exists i :: 0 <= i < |rows| && rows[i].gameID == row.gameID && rows[i].seqNo == row.seqNo
    then rows else rows + [row]
  }

  /** A row whose game and number are taken is ignored; any other is added at the end. */
  lemma InsertMoveMeaning(rows: seq<MoveRow>, row: MoveRow)
    ensures var taken := exists earlier: MoveRow ::
              earlier in rows && earlier.gameID == row.gameID && earlier.seqNo == row.seqNo;
            InsertMoveRow(rows, row) == if taken then rows else rows + [row]
  {
    if earlier: MoveRow :| earlier in rows && earlier.gameID == row.gameID && earlier.seqNo == row.seqNo {
      var i :| 0 <= i < |rows| && rows[i] == earlier;
    }
  }

  /** So no game ever has two rows of one number, and writing a row twice is writing it once. */
  lemma MoveNumbersAreUnique(rows: seq<MoveRow>, row: MoveRow)
    requires forall i, j :: 0 <= i < j < |rows| ==> rows[i].gameID != rows[j].gameID || rows[i].seqNo != rows[j].seqNo
    ensures var after := InsertMoveRow(rows, row);
            && (forall i, j :: 0 <= i < j < |after| ==>
                  after[i].gameID != after[j].gameID || after[i].seqNo != after[j].seqNo)
            && InsertMoveRow(after, row) == after
  {
    if InsertMoveRow(rows, row) != rows {
      assert (rows + [row])[|rows|] == row;
    }
  }

  lemma {:induction false} MovesOfConcat(rows: seq<MoveRow>, more: seq<MoveRow>, gameID: int)
    requires forall i :: 0 <= i < |more| ==> more[i].gameID == gameID
    ensures MovesOf(rows + more, gameID) == MovesOf(rows, gameID) + more
    ensures forall g :: g != gameID ==> MovesOf(rows + more, g) == MovesOf(rows, g)
  {
    if more == [] {
      assert rows + more == rows;
    } else {
      assert (rows + more)[..|rows + more| - 1] == rows + more[..|more| - 1];
      MovesOfConcat(rows, more[..|more| - 1], gameID);
    }
  }

  lemma {:induction false} NoMovesOf(rows: seq<MoveRow>, gameID: int)
    requires forall i :: 0 <= i < |rows| ==> rows[i].gameID != gameID
    ensures MovesOf(rows, gameID) == []
  {
    if rows != [] {
      NoMovesOf(rows[..|rows| - 1], gameID);
    }
  }

  // ----- the store -----

  datatype Error = NoError | StoreError(message: string)

  /** When `reliable` no statement fails; otherwise any statement may fail, without effect. */
  class Store {
    const reliable: bool
    var agents: map<int, AgentType>
    var matches: map<int, MatchRow>
    var lastMatch: int
    var games: map<int, GameRow>
    var lastGame: int
    var events: seq<EventRow>
    var moves: seq<MoveRow>

    ghost predicate Valid()
      reads this
    {
      && Numbered(events)
      && (forall id :: id in agents ==> IsInt64(id))
      && (forall id :: id in matches ==> id <= lastMatch)
      && (forall id :: id in games ==> id <= lastGame)
      && (forall i :: 0 <= i < |moves| ==> moves[i].gameID <= lastGame)
      && GamesAreKnown(events, lastGame)
    }

    constructor (reliable: bool, agents: map<int, AgentType>)
      requires forall id :: id in agents ==> IsInt64(id)
      ensures Valid() && this.reliable == reliable && this.agents == agents
      ensures events == [] && moves == [] && games == map[] && matches == map[]
    {
      this.reliable, this.agents := reliable, agents;
      matches, games, events, moves := map[], map[], [], [];
      lastMatch, lastGame := 0, 0;
    }

    method Exec() returns (err: Error)
      ensures reliable ==> err == NoError
    {
      var fails: bool := *;
      err := if fails && !reliable then StoreError("database is locked") else NoError;
    }

    method AgentByID(id: int) returns (err: Error, agentType: AgentType)
      ensures err == NoError ==> id in agents && agentType == agents[id]
      ensures reliable && id in agents ==> err == NoError
    {
      agentType := UserAgent;
      err := Exec();
      if err == NoError {
        if id in agents {
          agentType := agents[id];
        } else {
          err := StoreError("no rows in result set");
        }
      }
    }

    method CreateMatch(agentA: int, agentB: int) returns (err: Error, id: int)
      requires Valid()
      modifies this`matches, this`lastMatch
      ensures Valid()
      ensures reliable ==> err == NoError
      ensures err != NoError ==> matches == old(matches) && lastMatch == old(lastMatch)
      ensures err == NoError ==>
                && id == old(lastMatch) + 1 == lastMatch && id !in old(matches)
                && matches == old(matches)[id := MatchRow(agentA, agentB, Queued, None, "")]
    {
      id := 0;
      err := Exec();
      if err == NoError {
        lastMatch := lastMatch + 1;
        id := lastMatch;
        matches := matches[id := MatchRow(agentA, agentB, Queued, None, "")];
      }
    }

    method StartMatch(id: int) returns (err: Error)
      requires Valid()
      modifies this`matches
      ensures Valid()
      ensures reliable ==> err == NoError
      ensures matches == if err == NoError && id in old(matches)
                         then old(matches)[id := old(matches)[id].(status := Started(old(matches)[id].status))]
                         else old(matches)
    {
      err := Exec();
      if err == NoError && id in matches && matches[id].status == Queued {
        matches := matches[id := matches[id].(status := Running)];
      }
    }

    method CompleteMatch(id: int, winner: Option<int>) returns (err: Error)
      requires Valid()
      modifies this`matches
      ensures Valid()
      ensures reliable ==> err == NoError
      ensures matches == if err == NoError && id in old(matches) && old(matches)[id].status == Running
                         then old(matches)[id := old(matches)[id].(status := CompletedFrom(Running), winner := winner)]
                         else old(matches)
    {
      err := Exec();
      if err == NoError && id in matches && matches[id].status == Running {
        matches := matches[id := matches[id].(status := Completed, winner := winner)];
      }
    }

    method FailMatch(id: int, msg: string) returns (err: Error)
      requires Valid()
      modifies this`matches
      ensures Valid()
      ensures reliable ==> err == NoError
      ensures matches == if err == NoError && id in old(matches) && !Terminal(old(matches)[id].status)
                         then old(matches)[id := old(matches)[id].(
                                status := FailedFrom(old(matches)[id].status), errorMsg := msg)]
                         else old(matches)
    {
      err := Exec();
      if err == NoError && id in matches && matches[id].status !in {Completed, Failed} {
        matches := matches[id := matches[id].(status := Failed, errorMsg := msg)];
      }
    }

    method CreateGame(matchID: int, playerA: string, playerB: string) returns (err: Error, id: int)
      requires Valid()
      modifies this`games, this`lastGame
      ensures Valid()
      ensures reliable ==> err == NoError
      ensures err != NoError ==> games == old(games) && lastGame == old(lastGame)
      ensures err == NoError ==>
                && id == old(lastGame) + 1 == lastGame && id !in old(games)
                && games == old(games)[id := GameRow(matchID, playerA, playerB, "", 0)]
    {
      id := 0;
      err := Exec();
      if err == NoError {
        lastGame := lastGame + 1;
        id := lastGame;
        games := games[id := GameRow(matchID, playerA, playerB, "", 0)];
      }
    }

    method FinishGame(id: int, result: string, moveCount: int) returns (err: Error)
      requires Valid()
      modifies this`games
      ensures Valid()
      ensures reliable ==> err == NoError
      ensures games == if err == NoError && id in old(games)
                       then old(games)[id := old(games)[id].(result := result, moveCount := moveCount)]
                       else old(games)
    {
      err := Exec();
      if err == NoError && id in games {
        games := games[id := games[id].(result := result, moveCount := moveCount)];
      }
    }

    method NextEventSeq(matchID: int) returns (err: Error, seqNo: int)
      ensures reliable ==> err == NoError
      ensures err == NoError ==> seqNo == NextSeq(events, matchID)
    {
      seqNo := 0;
      err := Exec();
      if err == NoError {
        seqNo := NextSeq(events, matchID);
      }
    }

    method AppendEvent(matchID: int, gameID: Option<int>, event: Event) returns (err: Error)
      requires Valid() && (gameID.Some? ==> gameID.value <= lastGame)
      modifies this`events
      ensures Valid()
      ensures reliable ==> err == NoError
      ensures events == if err == NoError then Appended(old(events), matchID, gameID, [event]) else old(events)
    {
      hide Numbered, GamesAreKnown, Appended, InsertEvent, NextSeq;
      var seqNo;
      err, seqNo := NextEventSeq(matchID);
      if err != NoError {
        return;
      }
      err := Exec();
      if err == NoError {
        AppendOne(events, matchID, gameID, event);
        AppendedKnows(events, matchID, gameID, [event], lastGame);
        events := InsertEvent(events, EventRow(matchID, gameID, seqNo, event));
      }
    }

    /** SELECT ... ORDER BY seq: the rows of the match are already in that order. */
    method ListEvents(matchID: int) returns (err: Error, rows: seq<EventRow>)
      requires Valid()
      ensures reliable ==> err == NoError
      ensures err == NoError ==> rows == StreamOf(events, matchID)
      ensures forall i, j :: 0 <= i < j < |rows| ==> rows[i].seqNo < rows[j].seqNo
    {
      rows := [];
      err := Exec();
      if err == NoError {
        for i := 0 to |events|
          invariant rows == StreamOf(events[..i], matchID)
        {
          StreamSnoc(events[..i], events[i], matchID);
          assert events[..i + 1] == events[..i] + [events[i]];
          if events[i].matchID == matchID {
            rows := rows + [events[i]];
          }
        }
        assert events[..|events|] == events;
      }
    }

    method InsertMove(row: MoveRow) returns (err: Error)
      requires Valid() && row.gameID <= lastGame
      modifies this`moves
      ensures Valid()
      ensures reliable ==> err == NoError
      ensures moves == if err == NoError then InsertMoveRow(old(moves), row) else old(moves)
    {
      err := Exec();
      if err == NoError {
        moves := InsertMoveRow(moves, row);
      }
    }
  }
}
