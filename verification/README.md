# Caro match platform: a verified model

The platform lets users submit programs ("agents") that play Caro (five in a row) on an 8x8
board. A match is up to six attempts of two games each; every turn is recorded as events and
move rows; a queue feeds matches to one worker; a submission turns source text into a binary.
This project models that behaviour in Dafny and proves what its rules promise.

| file | what it models |
|---|---|
| `Text.dfy`, `MoveText.dfy` | decimal printing and parsing with 64-bit limits, trimming and splitting; the `x,y` move line |
| `Grids.dfy` | boards as values: lines of five, full boards, the row-major text |
| `Caro.dfy`, `CaroRuns.dfy` | the engine (a mutable board and game, with its win scan), and what every run of it keeps |
| `Opponent.dfy`, `OpponentTactics.dfy`, `OpponentGap.dfy` | the built-in opponent, its tactical guarantees, and a game in which it misses a win |
| `Database.dfy` | the tables: guarded match status, event numbering, games, moves |
| `GameTraces.dfy`, `MatchTraces.dfy` | one game and one match as values, and everything they store |
| `Scoring.dfy` | the two-game score and the 64-bit tie-break against exact averages |
| `Executor.dfy` | the turn loop, the two games, the attempts, preparing and executing a match |
| `MatchFacts.dfy`, `StoredMatches.dfy` | what the stored events and rows say about the games, and the match winner read off the tables |
| `GameView.dfy` | the replay page: from stored rows to the rendered board |
| `Queue.dfy` | callers, worker and shutdown as interleaved steps |
| `Interleaving.dfy` | one match executed while callers prepare others: what the tables say about it stays the same |
| `ExecutionLog.dfy` | log rendering with truncation |
| `Submission.dfy` | the submission saga with compensating deletes |

The engine is proved for every board size; only `NewGame` fixes 8. A bot is an arbitrary source
of replies (any line with any duration that 64-bit nanoseconds can report, or any error), so the
executor's theorems cover every program a user could submit. A game is described by its trace: the
accepted moves and, if the game ended early, the reply that lost it. What the executor stores is an
equation over that trace, and from it the tables themselves are characterised: `Execute` promises
that every game stored for the match replays from the events stored for it, that its move rows are
their projection, that its result code and the page drawn from its rows follow them, and that the
winner is the scoring rule read off the stored rows. `Interleaving` carries this over to every run of
the queue in which other matches are prepared and rejected meanwhile.

Assumptions, stated once:

- A failed SQL statement has no effect. A `Store` is built `reliable` or not; in an unreliable one
  every statement may fail. What is stored is stated for the reliable case (so ignored write
  errors do not occur); engine state, winners, samples and row invariants are stated for both.
- What is found behind a user's agent when its runner starts (`programs`), and whether a source compiles
  (`compiles`), are inputs. Both executor and submission are proved to succeed whenever the inputs
  and reliable statements allow it, not merely to do no harm.
- Artifact IDs are fresh, and the removal of a half-written file succeeds.
- The queue's capacity is at least 1 (a channel without a buffer would need a rendezvous step).
- The system agent and the user agent differ: `Prepare` proves this from their types.
- The opponent is given 64 cells of text; on shorter text the program would index out of range.
- Text is a sequence of Unicode characters; where the program counts bytes, the model counts UTF-8
  bytes.

Where documentation and code disagree, the model follows the code:

- The comment at `internal/runner/runner.go:151-152` says a winning move beats blocking. It does
  not always: `OpponentGap.WinIsNotAlwaysTaken` gives a whole game against it, each of its replies
  being its best cell, and `OpponentTactics.TakesWinIff` the exact condition.
- The truncation marker is documented as the number of bytes omitted
  (`docs/engineering/decisions/ADR-003_event-stream.md:154`). The code prints how far the first
  dropped line overshoots the limit. `ExecutionLog.MarkerUndercounts` and
  `ExecutionLog.OneBlockMarkerMiscounts` give the logs of a practice match on which the two differ;
  `ExecutionLog.MarkerCountsDroppedBytesIff` and
  `ExecutionLog.BlockMarkerCountsDroppedBytesIff` say when they agree, for either marker.
- The event number is documented as an in-memory counter; the code reads the maximum and inserts.
- A worker that stops leaves buffered matches `running` for ever (`Queue.StoppedWorkerStrands`),
  this happens, and callers can still add to them (`Queue.StrandingHappens`).

## Model

| member | source | states |
|---|---|---|
| Text.AtoiMeaning | internal/matchexec/processor.go:374-381 | number parsing accepts exactly the signed decimal numerals that fit an int64, and yields their value |
| Text.AtoiFormatInt | internal/matchexec/processor.go:374-381 | a printed integer parses back to itself exactly when it fits an int64, and is an error otherwise |
| Text.ParseIntFormatInt | internal/service/model.go:111-114 | an agent ID stored as text reads back as the same ID |
| Text.ParseIntOrDefaultMeaning | internal/service/model.go:111-114 | with the error dropped, a numeral out of range reads as the nearest int64 |
| Text.ContainsMeaning | internal/matchexec/processor.go:247-250 | a text contains another exactly when it is that text with something before and behind it |
| Text.SpaceIsBlank | internal/matchexec/processor.go:374-378 | what is trimmed is exactly the 25 characters listed one by one |
| Text.TrimSpaceSplits | internal/matchexec/processor.go:374-378 | trimming takes off blanks on either side and nothing else |
| Text.RuneLenMeaning | internal/events/events.go:43-44 | a character takes 1, 2, 3 or 4 bytes by the bounds 128, 2048 and 65536 |
| MoveText.ParseMoveMeaning | internal/matchexec/processor.go:369-383 | a line is read as a move exactly when it is two int64 numerals, each between any blanks of a literal list, around one comma |
| MoveText.ParsePrinted | internal/matchexec/processor.go:369-383 | a printed move with any blanks of that list around its numbers parses to those numbers, or is refused when one is out of range |
| MoveText.ParseFormatPosition | internal/runner/runner.go:139-143 | the line the opponent prints parses back to the position it chose |
| Grids.HasFiveMeaning | pkg/engine/caro/caro.go:153-200 | a five exists exactly if five cells in a row, in a column, or on a falling or rising diagonal, named cell by cell, hold the mark |
| Grids.FiveAfterPut | pkg/engine/caro/caro.go:153-200 | if no five existed before, one exists anywhere after a move exactly when one passes through the moved cell |
| Grids.OtherFiveAfterPut | pkg/engine/caro/caro.go:95-115 | a move neither makes nor breaks a five of the other mark |
| Grids.FlattenAt | pkg/engine/caro/caro.go:56-64 | the board text is row-major: cell (x, y) is character y * size + x |
| Grids.FlattenInjective | pkg/engine/caro/caro.go:56-64 | boards of one size with the same text are equal, so the text sent to a bot loses nothing |
| Caro.Board.constructor | pkg/engine/caro/caro.go:26-39 | a new board is empty, for every size |
| Caro.Board.Apply | pkg/engine/caro/caro.go:41-54 | out-of-bounds and occupied placements report their error and change nothing; any other changes exactly that cell |
| Caro.Board.Snapshot | pkg/engine/caro/caro.go:56-64 | the loop yields the row-major text |
| Caro.ScanMeaning | pkg/engine/caro/caro.go:171-197 | the two bounded runs add up to a win exactly when some five-cell window through the cell is all one mark |
| Caro.Game.IsWinningMove | pkg/engine/caro/caro.go:153-200 | the scan in four directions returns true exactly when a line of five through the cell exists |
| Caro.Game.IsBoardFull | pkg/engine/caro/caro.go:202-211 | the scan returns true exactly when no cell is empty |
| Caro.Game.ApplyMove | pkg/engine/caro/caro.go:95-115 | refines the move rule whose wins are defined by lines; a refused move leaves the whole game unchanged |
| Caro.NewGame | pkg/engine/caro/caro.go:79-91 | no game unless there are exactly two players; otherwise a fresh empty 8x8 game with the first to move |
| CaroRuns.GameMeaning | pkg/engine/caro/caro.go:95-115 | after any attempted moves on any size: over exactly when someone has five or the board is full; never both have five; the result names the owner, or "draw" |
| CaroRuns.ResultMeaning | pkg/engine/caro/caro.go:95-115 | with distinct proper names the result text is a player's name exactly when that player has a line, and "draw" exactly on a full board without one |
| CaroRuns.TurnMeaning | pkg/engine/caro/caro.go:95-103 | at most size² moves are accepted, and the first player moves exactly when the mark counts are equal |
| CaroRuns.RunIsSound | pkg/engine/caro/caro.go:95-115 | marks, turns and result stay consistent over every run from a consistent game |
| Opponent.HitsMissTheCentre | internal/runner/runner.go:203-235 | a window around a cell without the mark holds at most four, so the five-entry tables are never overrun |
| Opponent.CellScore | internal/runner/runner.go:203-235 | the nested loops compute the sum of the window scores in all directions and offsets |
| OpponentTactics.ContestedIsWorthless | internal/runner/runner.go:211-227 | a window that leaves the board, or in which each side has a mark, adds nothing |
| OpponentTactics.UncontestedWeight | internal/runner/runner.go:203-235 | a window with marks of one side is worth 10, 100, 1000 or 100000 for 1 to 4 own marks, and 9, 90, 900 or 90000 for the other side's |
| OpponentTactics.ValueIsSum | internal/runner/runner.go:176-240 | a cell is worth its bonus and each of the twenty windows through it once |
| OpponentTactics.CenterBonusFalls | internal/runner/runner.go:237-240 | the bonus is 8 in the middle and falls by one with each step away in either coordinate |
| Opponent.SystemBestMove | internal/runner/runner.go:158-199 | returns the first most valuable empty cell, or (-1, -1) exactly when there is none; the fallback never finds a cell |
| OpponentTactics.CellWorth | internal/runner/runner.go:151-154 | completing an own five is worth at least 100,000, only blocking at least 90,000, any other cell at most 20,008 |
| OpponentTactics.ImmediateTactics | internal/runner/runner.go:153-199 | whenever some empty cell completes a five of either side, so does the chosen cell |
| OpponentTactics.TakesUncontestedWin | internal/runner/runner.go:153-199 | with a win available and nothing else to block, the chosen cell wins |
| OpponentTactics.TakesWinIff | internal/runner/runner.go:151-199 | the chosen cell wins exactly when some winning cell is preferred to every cell that only blocks |
| OpponentGap.WinIsNotAlwaysTaken | internal/runner/runner.go:151-152 | a legal game of a user against the opponent, all of whose replies are its best cells, reaches a board with a winning cell on which no best cell wins |
| OpponentGap.ReplyIsBest | internal/runner/runner.go:176-199 | each of the five replies in that game is the first most valuable cell of its board |
| OpponentGap.CellEstimate | internal/runner/runner.go:203-235 | on those boards a cell is worth at most a closed form that counts windows, and exactly that when the edge cuts none of them |
| OpponentTactics.SidesAreTheEngines | internal/runner/runner.go:159-174 | on every consistent game the mark inferred from the counts is the engine's current mark |
| OpponentTactics.BestMoveIsLegal | internal/runner/runner.go:179-199 | every running 8x8 game has an empty cell, and the engine accepts the best one |
| OpponentTactics.CompletesIsFive | internal/runner/runner.go:203-235 | a four-window around a cell of the text is a line of five on the engine's board after the move |
| OpponentTactics.UncontestedWinWins | internal/runner/runner.go:153-199 | playing the chosen cell of an uncontested win ends the game with the mover as winner |
| Database.AppendIsNeverIgnored | internal/store/event.go:29-37 | reading the maximum and inserting at once never hits the unique key and keeps 1, 2, 3, ... per match |
| Database.AppendedStream | internal/store/event.go:29-37 | appended events follow the older ones with the next numbers, and other matches keep theirs |
| Database.Store.NextEventSeq | internal/store/event.go:18-27 | one more than the largest number of the match, or 1 |
| Database.Store.AppendEvent | internal/store/event.go:29-37 | adds exactly the event under the next number, or changes nothing on error; the numbering is kept |
| Database.Store.ListEvents | internal/store/event.go:39-43 | the events of the match in strictly increasing number order |
| Database.Store.CreateMatch | internal/store/match.go:21-27 | a fresh row, queued |
| Database.Store.StartMatch | internal/store/match.go:29-33 | only a queued match becomes running |
| Database.Store.CompleteMatch | internal/store/match.go:35-39 | only a running match becomes completed, with its winner |
| Database.Store.FailMatch | internal/store/match.go:41-45 | only a match that is not terminal becomes failed |
| Database.Store.CreateGame | internal/store/game.go:40-46 | a fresh game row with its players |
| Database.Store.FinishGame | internal/store/game.go:48-51 | sets the result and move count of exactly that game |
| Database.Store.InsertMove | internal/store/game.go:65-69 | adds the row unless the game already has that number |
| Database.InsertEventMeaning | internal/store/event.go:29-37 | a row whose match and number are taken is ignored, any other is added |
| Database.InsertMoveMeaning | internal/store/game.go:65-69 | a row whose game and number are taken is ignored, any other is added |
| Database.MoveNumbersAreUnique | internal/store/schema.go:72-84 | no game gets two rows of one number, and writing a row twice is writing it once |
| Scoring.SumCount | internal/matchexec/processor.go:392-401 | the wrapped sum and the count of the samples, and whether there are any |
| Scoring.Decide | internal/matchexec/processor.go:187-209 | the branches compute the 64-bit decision |
| Scoring.DecidesWhenProductsFit | internal/matchexec/processor.go:187-209 | comparing wrapped cross products decides as comparing exact averages does whenever wins differ, an agent has no samples, or both products fit 64 bits |
| Scoring.DecisionIsVerdict | internal/matchexec/processor.go:187-209 | with at most 64 samples below 2^51 ms in magnitude, the wrapped cross-multiplication decides as comparing exact averages does |
| Scoring.DecisionIsSymmetric | internal/matchexec/processor.go:187-209 | swapping the two agents swaps what the code decides, even where sums or products wrap |
| GameTraces.LegalState | internal/matchexec/processor.go:229-297 | along a game the engine is consistent, has taken exactly the accepted moves, and at most 64 of them |
| GameTraces.TurnAdvances | internal/matchexec/processor.go:274-297 | a taken reply extends the legal run by one move and moves the engine on |
| GameTraces.OutcomeMeaning | internal/matchexec/processor.go:244-291 | timeout or crash by the message, and otherwise accepted or refused with its literal reason, by what the line denotes on the board |
| GameTraces.RowMeaning | internal/matchexec/processor.go:244-295 | the move row of each of these outcomes, by the same conditions |
| Executor.MoverIsCurrent | internal/matchexec/processor.go:234-235 | the agent read back from the engine's player name is the one whose turn it is |
| Executor.ResultNamesWinner | internal/matchexec/processor.go:298-302 | the result text is "draw" exactly when nobody has five, and otherwise reads back as the winner's ID |
| Executor.Processor.Ask | internal/runner/runner.go:139-143 | the built-in opponent answers with its best cell; a user's program with anything |
| Executor.Processor.Judge | internal/matchexec/processor.go:244-295 | the three ways to lose a turn and the one way to go on, with the event and row of each; a losing reply leaves the engine unchanged |
| Executor.Processor.TakeTurn | internal/matchexec/processor.go:232-297 | one turn sends the engine's text and records the outcome of the reply |
| Executor.Processor.PlayOut | internal/matchexec/processor.go:230-297 | the loop ends with the engine's verdict or the first reply it cannot take; records and samples are exactly those of the moves |
| Executor.Processor.FinishGame | internal/matchexec/processor.go:305-326 | stores result code and move count and appends the last event of the game |
| Executor.Processor.RunGame | internal/matchexec/processor.go:216-303 | a finished game with the winner that the lines of five or the lost turn determine; the tables grow by exactly its record |
| Executor.Processor.RunTwoGames | internal/matchexec/processor.go:174-210 | both orders are played, and the winner is the decision over wins and samples of both games |
| Executor.Processor.RunAttempts | internal/matchexec/processor.go:158-167 | one to six attempts, all but the last tied, the last one's winner returned, none only after six; two finished games stored per attempt |
| Executor.StartMeaning | internal/matchexec/processor.go:328-367 | exactly the system agent and a runnable program start |
| Executor.Processor.StartRunners | internal/matchexec/processor.go:328-367 | with a reliable store, the error is that of the first agent in order whose submission, binary, image or start fails, and there is none exactly if both start |
| Executor.Processor.RunMatchAttempts | internal/matchexec/processor.go:134-168 | with a reliable store, fails exactly with the first start error and then stores nothing; otherwise the announcements and all attempts are stored |
| Executor.Processor.Execute | internal/matchexec/processor.go:99-132 | with a reliable store a running match is completed exactly when both runners start, with the winner that the scoring rule read off the final tables names; otherwise it is failed with the first start error and only that event is stored; no other match row changes |
| Executor.Processor.Prepare | internal/matchexec/processor.go:70-97 | succeeds, with a reliable store, exactly for one user and one system agent; the match is then running with its first event, and a refused job stores nothing |
| Executor.Processor.Process | internal/matchexec/processor.go:61-68 | a new match is announced, executed and completed or failed as its runners start; a refused job stores nothing |
| MatchFacts.ReplayFidelity | internal/matchexec/processor.go:229-297 | in the events of every game, each state sent is what a fresh engine shows after the moves accepted before it, with the right turn and agent; all accepted moves lead to the final engine |
| MatchFacts.MovesAreProjection | internal/matchexec/processor.go:257-295 | the move rows written are exactly those re-derived from the events by the projection rule |
| MatchFacts.RowsOfGame | internal/matchexec/processor.go:243-297 | rows number 1, 2, ...; all are accepted but the last of a lost game; only accepted rows have a duration |
| MatchFacts.GameRowSamples | internal/matchexec/processor.go:286-295 | an agent's samples are the durations of its accepted rows |
| MatchFacts.DurationsMeaning | docs/product/SPECS.md:128-132 | each duration counts as often as an accepted row of the agent has it |
| MatchFacts.GameIsFramed | internal/matchexec/processor.go:222-326 | a game's events open with its start and close with its end under its attempt and number, and states and outcomes alternate in between, each of the agent whose turn it is |
| MatchFacts.SampleTotals | internal/matchexec/processor.go:174-194 | both agents' samples together are as many as the accepted moves of both games, and neither has more than 64 |
| MatchFacts.SystemAgentNeverFaults | internal/runner/runner.go:139-199 | no game is ever lost by a reply of the built-in opponent |
| MatchFacts.BeatingTheSystemAgentTakesFive | internal/matchexec/processor.go:298-302 | whoever beats the built-in opponent has a line of five on the final board |
| StoredMatches.ExtendAllHas | internal/store/game.go:40-75 | games get consecutive numbers and each is found again with exactly its rows and its events |
| StoredMatches.SamplesAreBounded | internal/runner/runner.go:91-96 | every duration the runners report keeps the 64-bit products of the tie-break exact |
| MatchFacts.ResultFollowsEvents | internal/matchexec/processor.go:298-326 | the result code names the owner of a line of five on the board replayed from the events, or the opponent of the agent that lost its last turn; a draw is a full board without either; the move count is the number of accepted moves |
| StoredMatches.StoredGameReplays | docs/engineering/decisions/ADR-003_event-stream.md:23-27 | the events stored for a game send, at every turn, the replay of the moves accepted before it; its move rows are their projection; its stored result and the page drawn from its rows follow them |
| StoredMatches.MatchStays | internal/store/event.go:29-37 | what the tables say about a match depends on nothing but the rows and events of its own games |
| MatchTraces.OutcomeMeaning | internal/matchexec/processor.go:187-209 | the outcome is an agent exactly when it has more wins, or as many and either the lower average or samples against none |
| StoredMatches.OutcomeFollowsTheRule | docs/product/SPECS.md:121-132 | the outcome of two games is the agent with more wins by the stored result codes, or with as many and the lower average over its accepted rows, and none exactly otherwise |
| StoredMatches.MatchFollowsTheRule | docs/product/SPECS.md:121-141 | the match winner is that rule read off the final tables: every pair but the last is tied, the last names the winner or is the sixth; every stored game replays from its stored events |
| GameView.ToGameView | internal/web/bff_match.go:135-192 | one view and one stone per stored row, in order |
| GameView.ReplayShowsTheEngine | internal/web/bff_match.go:153-179 | after any number of stored rows the rendered board is the engine's board after as many accepted moves; a refused row draws nothing |
| GameView.PageShowsTheEvents | internal/web/bff_match.go:135-192 | the page of a stored game, drawn from its rows, shows at every step the replay of the moves its events report as accepted |
| GameView.PlayersReadBack | internal/service/model.go:86-96 | the page's black and white agents and move count are those of the game |
| GameView.ViewReadsBack | internal/web/bff_match.go:153-173 | each entry of the move list names its mover, and its text parses back to the accepted move or is empty for a refused one |
| Queue.QueueConservation | internal/matchexec/queue.go:29-69 | over all interleavings: executed, executing and buffered jobs are the accepted ones in order, each once; the buffer never overflows; a rejected match is never executed |
| Queue.StatusOnlyAdvances | internal/store/match.go:29-45 | every step moves a status only from queued to running to completed or failed |
| Queue.TerminalIsFinal | internal/store/match.go:35-45 | a terminal status never changes in any run |
| Queue.StatusMeaning | internal/matchexec/processor.go:86-120 | a match without a failed statement is queued just after creation, running exactly while prepared, offered, buffered or executed, and terminal otherwise |
| Queue.OutcomeMeaning | internal/matchexec/processor.go:99-120 | in every run a match that is done and lost no statement is completed exactly if the worker decided so, and failed exactly if it decided otherwise or the match was rejected |
| Queue.CallerChoices | internal/matchexec/queue.go:56-68 | an offered match is accepted exactly while there is room and turned away as busy exactly while there is none |
| Queue.StopsOnShutdown | internal/matchexec/queue.go:29-42 | the worker stops only in runs with a shutdown |
| Queue.StoppedWorkerStrands | internal/matchexec/queue.go:29-42 | after the worker stops, buffered matches stay buffered and running in every continuation |
| Queue.EnqueuingIsPossible | internal/matchexec/queue.go:51-69 | in every reachable state with room in the buffer, stopped worker or not, a new match can be created and accepted |
| Queue.StrandingHappens | internal/matchexec/queue.go:29-69 | a run from the start leaves a match buffered and running behind a stopped worker, and a second one can join it |
| Queue.StepWrites | internal/store/event.go:18-37 | with the number read and the insert interleaved, a step adds exactly the event it writes under the next number, and no insert is ignored |
| Queue.EventsAreNumbered | internal/store/event.go:18-37 | after every run each match's events are exactly those written to it, numbered 1 to n in order |
| Queue.RunKeepsInv | internal/matchexec/queue.go:29-69 | ownership, order, numbering and status hold in every reachable state |
| Queue.EveryHistoryHappens | internal/matchexec/queue.go:29-69 | whatever events a match is to write, some run writes exactly those to it and none to another match |
| Interleaving.RunLeaves | internal/store/event.go:18-37 | in every run the events found for a game that only one match writes to are those it wrote, in order |
| Interleaving.MatchLeaves | internal/matchexec/processor.go:86-132 | executed alone, a match leaves for each of its games exactly the events in the list of its writes |
| Interleaving.MatchSurvivesInterleaving | internal/matchexec/queue.go:29-69 | in every run that writes to a match what its preparation and execution write, whatever other matches write in between, the tables name the same winner by the scoring rule and every game of it replays |
| ExecutionLog.RenderEvents | internal/events/events.go:41-52 | the longest run of whole lines that fits the limit, then a marker carrying the overshoot of the first dropped line; cut exactly when not all lines fit |
| ExecutionLog.RenderBlocks | internal/events/events.go:57-69 | behind the given text, the longest run of whole blocks of agents with output that fits, then a marker carrying the overshoot of the first dropped block |
| ExecutionLog.RenderExecutionLog | internal/events/events.go:36-71 | the two parts in order; flagged exactly when the whole log exceeds a positive limit; unflagged is the whole log |
| ExecutionLog.FlagMeaning | internal/events/events.go:40-69 | both loops run through uncut exactly when the whole log fits the limit, and then nothing is lost |
| ExecutionLog.RenderingIsBounded | internal/events/events.go:44-68 | a marker stands exactly where something was dropped; the kept lines and blocks together fit the limit, so the rendering exceeds it by its markers at most |
| ExecutionLog.LineMeaning | internal/events/events.go:43 | a line is its number in three digits or more, its type and its payload |
| ExecutionLog.EventsAreCut | internal/events/events.go:42-50 | the rendering of the events is the lines that fit and a marker with the bytes by which those lines and the next exceed the limit |
| ExecutionLog.MarkerCountsDroppedBytesIff | internal/events/events.go:45-48 | the number printed there is positive, never more than the dropped event bytes, and equals them exactly when all lines but the last fill the limit |
| ExecutionLog.BlocksAreCut | internal/events/events.go:57-69 | the same for the blocks, counting everything before them |
| ExecutionLog.MarkerUndercounts | internal/events/events.go:45-48 | on every log of two events or more whose first line is over the limit nothing is kept, and the printed number is less than the bytes dropped |
| ExecutionLog.BlockMarkerCountsDroppedBytesIff | internal/events/events.go:62-66 | the second number equals the dropped block bytes exactly when all blocks but the last fill the room left, or the text before exceeds the limit by just the bytes of all blocks but the first |
| ExecutionLog.OneBlockMarkerMiscounts | internal/events/events.go:62-66 | with one agent that has output, a dropped block is undercounted exactly if room was left, and overcounted exactly if the text before was over the limit already |
| ExecutionLog.SilentAgentsLeaveNoTrace | internal/events/events.go:58-60 | an agent without output changes neither the rendering nor a marker |
| Submission.Repository.Write | internal/artifact/local.go:30-54 | one new file under a fresh ID, or no change |
| Submission.Repository.Delete | internal/artifact/local.go:70-77 | removes at most that file; deleting a missing one succeeds |
| Submission.Service.Intake | internal/submission/submission.go:74-95 | a stored source has exactly its new file, its row and a pending submission, and with reliable statements it is stored; a failed row write is compensated; earlier files and rows stay |
| Submission.Service.Compile | internal/submission/submission.go:97-156 | with reliable statements a source that compiles ends built, with its binary and its agent, and any other ends invalid; a failure leaves no unnamed binary |
| Submission.ValidateMeaning | internal/submission/submission.go:58-69 | a source is refused exactly if it is blank, too long, or lacks one of the two required texts |
| Submission.Service.Submit | internal/submission/submission.go:43-56 | whatever fails, files and rows keep naming each other, agents keep pointing to compiled submissions, and no earlier file or row changes; with deletes that succeed the files are exactly the named ones; with reliable statements a valid source is built exactly when it compiles; a refused source leaves no trace |

## Left out

- Processes, containers, pipes and the Docker compiler: a bot is any source of replies, and a build either fails without a file or writes one fresh file.
- HTTP, templates, sessions, sign-in and access checks: user interface and plumbing.
- SQLite itself: tables are maps and sequences with the unique keys and guards of the statements.
- JSON encoding: events and payloads are datatypes; the log renderer takes the encoded text as given.
- Clocks: start, end and duration columns of games and matches are not modelled; move durations are arbitrary within the range of 64-bit nanoseconds.
- Collecting agent error output and removing images after a match: the log renderer takes the collected output as given, and reading and writing its rows is not modelled.
- Executor.Processor.StartRunners: what is found behind each agent (submission, binary, image, process) is an input, because those lie outside the model.
- Executor.Processor.RunGame: runs alone; `Interleaving` proves that other matches' event writes, placed between its own, change nothing about its games.
- Player names and result labels on the replay page: single-branch lookups with nothing to prove.
- Tournaments: described in the documents but not implemented.
