/**
  A match is executed while callers write the first events of other matches, each read of an event
  number and each insert being a step of its own. What the tables say about the match is not changed.
 */
module Interleaving {
  import opened Text
  import opened Database
  import opened GameTraces
  import opened MatchTraces
  import opened StoredMatches
  import opened Queue

  // ----- what the executor writes, as one list -----

  function Entries(gameID: Option<int>, events: seq<Event>): seq<Entry> {
    seq(|events|, i requires 0 <= i < |events| => Entry(gameID, events[i]))
  }

  ghost function AttemptEntries(at: Attempt, n: int, id: int): seq<Entry> {
    Entries(Some(id), GameEvents(at.game1, n, 1)) + Entries(Some(id + 1), GameEvents(at.game2, n, 2))
  }

  /** The entries of all attempts, whose games are numbered from `id`. */
  ghost function AllEntries(attempts: seq<Attempt>, id: int): seq<Entry> {
    if attempts == [] then []
    else
      var n := |attempts| - 1;
      AllEntries(attempts[..n], id) + AttemptEntries(attempts[n], n, id + 2 * n)
  }

  /** Everything that is ever written to the events of a match that is prepared and played to its end. */
  ghost function MatchEntries(
      a: int, b: int, order: seq<int>, attempts: seq<Attempt>, id: int, winner: Option<int>): seq<Entry>
    requires |order| == 2
  {
    Entries(None, [MatchStarted(a, b)]) + Entries(None, [BotStarted(order[0]), BotStarted(order[1])])
    + AllEntries(attempts, id) + Entries(None, [MatchCompleted(winner)])
  }

  // ----- the events of one game in such a list -----

  function Named(entries: seq<Entry>, g: int): seq<Event> {
    if entries == [] then []
    else
      var last := entries[|entries| - 1];
      Named(entries[..|entries| - 1], g) + (if last.gameID == Some(g) then [last.event] else [])
  }

  lemma NamedSnoc(entries: seq<Entry>, entry: Entry, g: int)
    ensures Named(entries + [entry], g) == Named(entries, g) + (if entry.gameID == Some(g) then [entry.event] else [])
  {
    assert (entries + [entry])[..|entries|] == entries;
  }

  lemma {:induction false} NamedConcat(a: seq<Entry>, b: seq<Entry>, g: int)
    ensures Named(a + b, g) == Named(a, g) + Named(b, g)
  {
    if b == [] {
      assert a + b == a;
    } else {
      var init, last := b[..|b| - 1], b[|b| - 1];
      NamedConcat(a, init, g);
      assert a + b == (a + init) + [last];
      NamedSnoc(a + init, last, g);
    }
  }

  lemma {:induction false} NamedEntries(gameID: Option<int>, events: seq<Event>, g: int)
    ensures Named(Entries(gameID, events), g) == if gameID == Some(g) then events else []
  {
    if events != [] {
      var init, last := events[..|events| - 1], events[|events| - 1];
      NamedEntries(gameID, init, g);
      assert Entries(gameID, events) == Entries(gameID, init) + [Entry(gameID, last)];
      NamedSnoc(Entries(gameID, init), Entry(gameID, last), g);
    }
  }

  lemma {:induction false} NotNamed(entries: seq<Entry>, g: int, i: nat)
    requires Named(entries, g) == [] && i < |entries|
    ensures entries[i].gameID != Some(g)
  {
    if i < |entries| - 1 {
      NotNamed(entries[..|entries| - 1], g, i);
    }
  }

  // ----- executed alone, a match leaves exactly these events for each of its games -----

  lemma AttemptLeaves(t: Tables, matchID: int, at: Attempt, n: int, g: int)
    ensures EventsOf(AfterAttempt(t, matchID, at, n).events, g) ==
            EventsOf(t.events, g) + Named(AttemptEntries(at, n, t.lastGame + 1), g)
    ensures AfterAttempt(t, matchID, at, n).lastGame == t.lastGame + 2
  {
    hide GameEvents, GameRows, FinishedRow, Appended, EventsOf, Named, Entries;
    var id := t.lastGame + 1;
    var events1, events2 := GameEvents(at.game1, n, 1), GameEvents(at.game2, n, 2);
    AppendedEventsOf(t.events, matchID, Some(id), events1, g);
    AppendedEventsOf(Appended(t.events, matchID, Some(id), events1), matchID, Some(id + 1), events2, g);
    NamedConcat(Entries(Some(id), events1), Entries(Some(id + 1), events2), g);
    NamedEntries(Some(id), events1, g);
    NamedEntries(Some(id + 1), events2, g);
  }

  lemma {:induction false} AttemptsLeave(t: Tables, matchID: int, attempts: seq<Attempt>, g: int)
    ensures EventsOf(AfterAttempts(t, matchID, attempts).events, g) ==
            EventsOf(t.events, g) + Named(AllEntries(attempts, t.lastGame + 1), g)
    ensures AfterAttempts(t, matchID, attempts).lastGame == t.lastGame + 2 * |attempts|
  {
    hide AfterAttempt, AttemptEntries, EventsOf, Named;
    if attempts == [] {
      NoneNamed(g);
    } else {
      var n := |attempts| - 1;
      AttemptsLeave(t, matchID, attempts[..n], g);
      AttemptLeaves(AfterAttempts(t, matchID, attempts[..n]), matchID, attempts[n], n, g);
      NamedConcat(AllEntries(attempts[..n], t.lastGame + 1), AttemptEntries(attempts[n], n, t.lastGame + 1 + 2 * n), g);
    }
  }

  lemma NoneNamed(g: int)
    ensures Named([], g) == []
  {
  }

  lemma MatchLeaves(
      t: Tables, matchID: int, a: int, b: int, order: seq<int>, attempts: seq<Attempt>, winner: Option<int>, g: int)
    requires |order| == 2
    ensures EventsOf(Completion(AfterMatch(t, matchID, order, attempts), matchID, winner).events, g) ==
            EventsOf(t.events, g) + Named(MatchEntries(a, b, order, attempts, t.lastGame + 1, winner), g)
  {
    hide Appended, EventsOf, Named, Entries, AllEntries, AfterAttempts;
    var bots, end := [BotStarted(order[0]), BotStarted(order[1])], [MatchCompleted(winner)];
    var start, all := [MatchStarted(a, b)], AllEntries(attempts, t.lastGame + 1);
    var t0 := t.(events := Appended(t.events, matchID, None, bots));
    AppendedEventsOf(t.events, matchID, None, bots, g);
    AttemptsLeave(t0, matchID, attempts, g);
    AppendedEventsOf(AfterAttempts(t0, matchID, attempts).events, matchID, None, end, g);
    NamedEntries(None, start, g);
    NamedEntries(None, bots, g);
    NamedEntries(None, end, g);
    NamedConcat(Entries(None, start), Entries(None, bots), g);
    NamedConcat(Entries(None, start) + Entries(None, bots), all, g);
    NamedConcat(Entries(None, start) + Entries(None, bots) + all, Entries(None, end), g);
  }

  // ----- executed among others, it leaves the same -----

  lemma {:induction false} NumberedEventsOf(rows: seq<EventRow>, m: int, entries: seq<Entry>, g: int)
    requires |rows| == |entries| && forall i :: 0 <= i < |rows| ==> rows[i] == RowAt(m, i, entries[i])
    ensures EventsOf(rows, g) == Named(entries, g)
  {
    if rows != [] {
      NumberedEventsOf(rows[..|rows| - 1], m, entries[..|rows| - 1], g);
    }
  }

  /** In every run, the events stored for a game that only match `matchID` writes to are those it wrote, in order. */
  lemma RunLeaves(cap: nat, actions: seq<Queue.Action>, matchID: int, g: int)
    requires Run(Init(cap), actions).Some?
    requires forall m :: m != matchID ==> Named(History(Init(cap), actions, m), g) == []
    ensures EventsOf(Run(Init(cap), actions).value.events, g) == Named(History(Init(cap), actions, matchID), g)
  {
    hide Run, History, Named, EventsOf;
    var rows := Run(Init(cap), actions).value.events;
    forall i | 0 <= i < |rows| && rows[i].gameID == Some(g) ensures rows[i].matchID == matchID {
      var m := rows[i].matchID;
      InStream(rows, i);
      var j :| 0 <= j < |StreamOf(rows, m)| && StreamOf(rows, m)[j] == rows[i];
      EventsAreNumbered(cap, actions, m);
      if m != matchID {
        NotNamed(History(Init(cap), actions, m), g, j);
        assert false;
      }
    }
    EventsOfStream(rows, matchID, g);
    EventsAreNumbered(cap, actions, matchID);
    NumberedEventsOf(StreamOf(rows, matchID), matchID, History(Init(cap), actions, matchID), g);
  }

  /**
    However the callers of other matches, their rejections and the steps of this match interleave:
    if a run writes to a match what its preparation and execution write, and nobody else names its
    games, then the tables with the events of that run say about the match what they say when it is
    executed alone. Its winner is the scoring rule read off them, and every game of it replays.
   */
  lemma MatchSurvivesInterleaving(
      cap: nat, actions: seq<Queue.Action>, t: Tables, matchID: int, order: seq<int>, attempts: seq<Attempt>,
      a: int, b: int, kinds: map<int, AgentType>, winner: Option<int>)
    requires Known(t) && |order| == 2 && a != b && IsInt64(a) && IsInt64(b)
    requires kinds.Keys == {a, b} && AllPlayed(attempts, a, b, kinds) && Decisive(attempts, a, b, winner)
    requires Run(Init(cap), actions).Some?
    requires History(Init(cap), actions, matchID) == MatchEntries(a, b, order, attempts, t.lastGame + 1, winner)
    requires forall m, g :: m != matchID && t.lastGame < g <= t.lastGame + 2 * |attempts| ==>
               Named(History(Init(cap), actions, m), g) == []
    ensures MatchIs(
              Completion(AfterMatch(t, matchID, order, attempts), matchID, winner).(
                events := Run(Init(cap), actions).value.events),
              t.lastGame + 1, |attempts|, a, b, winner)
  {
    hide Run, History, Named, EventsOf, MatchEntries, AllPlayed, Decisive, AfterMatch, MatchIs, Completion;
    var played := AfterMatch(t, matchID, order, attempts);
    var alone := Completion(played, matchID, winner);
    var among := alone.(events := Run(Init(cap), actions).value.events);
    var id, n := t.lastGame + 1, |attempts|;
    MatchFollowsTheRule(t, matchID, order, attempts, a, b, kinds, winner);
    CompletionStays(played, matchID, winner, id, n, a, b);
    forall g | id <= g < id + 2 * n ensures EventsOf(among.events, g) == EventsOf(alone.events, g) {
      RunLeaves(cap, actions, matchID, g);
      MatchLeaves(t, matchID, a, b, order, attempts, winner, g);
      NewGame(t, g);
    }
    MatchStays(alone, among, id, n, a, b, winner);
  }

  /** Some run writes to a match just what it is to write, and nothing to any other. */
  lemma SomeRunWritesTheMatch(
      cap: nat, a: int, b: int, order: seq<int>, attempts: seq<Attempt>, id: int, winner: Option<int>, m: int)
    requires cap >= 1 && |order| == 2
    ensures var all := MatchEntries(a, b, order, attempts, id, winner);
            var actions := Enqueuing(1, MatchStarted(a, b)) + [Take] + Working(all[1..]);
            Run(Init(cap), actions).Some? && History(Init(cap), actions, m) == if m == 1 then all else []
  {
    hide AllEntries, Run, History, Enqueuing, Working;
    var all := MatchEntries(a, b, order, attempts, id, winner);
    EveryHistoryHappens(cap, MatchStarted(a, b), all[1..], m);
    assert all == [Entry(None, MatchStarted(a, b))] + all[1..];
  }

  lemma CompletionStays(t: Tables, matchID: int, winner: Option<int>, id: int, n: nat, a: int, b: int)
    requires MatchIs(t, id, n, a, b, winner)
    ensures MatchIs(Completion(t, matchID, winner), id, n, a, b, winner)
  {
    hide MatchIs, SameGames;
    SameGamesAfter(t, matchID, [MatchCompleted(winner)], id, 2 * n);
    MatchStays(t, Completion(t, matchID, winner), id, n, a, b, winner);
  }

  lemma NewGame(t: Tables, g: int)
    requires Known(t) && t.lastGame < g
    ensures EventsOf(t.events, g) == []
  {
    NoEventsOf(t.events, g);
  }
}
