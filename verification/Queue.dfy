/**
  The match queue as an interleaving of small steps: callers preparing and offering matches, one
  worker taking and executing them, and shutdown. Every read of an event number and every insert
  is a step of its own, and any statement may fail, without effect.
 */
module Queue {
  import opened Text
  import opened Database

  /** Where one call of Enqueue is, once its match row exists. */
  datatype Call =
    | Created                 // next: StartMatch
    | Starting                // next: read the event number for match.started
    | Numbering(seqNo: int)   // next: insert match.started
    | Offering                // next: the select
    | Rejecting               // next: FailMatch, then return an error

  /** Where the worker is inside the execution of a match. */
  datatype Stage =
    | Playing                 // next: read an event number, or decide
    | Writing(seqNo: int)     // next: insert an event
    | Closing(won: bool)      // next: CompleteMatch or FailMatch
    | Rendering               // next: return to the select

  datatype Worker = Idle | Busy(job: int, stage: Stage) | Stopped

  datatype State = State(
    cap: nat, status: map<int, Status>, lastMatch: int, events: seq<EventRow>,
    calls: map<int, Call>, buffer: seq<int>, worker: Worker, shutdown: bool,
    accepted: seq<int>, executed: seq<int>, rejected: set<int>, decided: map<int, bool>, faulted: set<int>)

  /**
    The last five fields are history: what was accepted, executed and rejected, what the worker
    decided about a match (true: it was played to its end), and which matches lost a statement.
   */
  function Init(cap: nat): State {
    State(cap, map[], 0, [], map[], [], Idle, false, [], [], {}, map[], {})
  }

  /** What one insert stores beside its match and its number. */
  datatype Entry = Entry(gameID: Option<int>, event: Event)

  datatype CallAction =
    | Start(ok: bool)
    | Number(ok: bool)
    | Announce(event: Event, ok: bool)
    | Accept
    | GiveUp       // the caller's context is done
    | TurnAway     // the channel is full
    | Reject(ok: bool)

  datatype WorkAction =
    | ReadNumber(ok: bool)
    | Write(entry: Entry, ok: bool)
    | Decide(won: bool)
    | Finish(ok: bool)
    | Return

  /** Who moves: a new caller, the caller of match `m`, the shutdown signal, or the worker. */
  datatype Action = Create | ByCaller(m: int, step: CallAction) | Shutdown | Stop | Take | ByWorker(work: WorkAction)

  function EndCall(s: State, m: int): State {
    s.(calls := s.calls - {m})
  }

  function MoveCall(s: State, m: int, call: Call): State {
    s.(calls := s.calls[m := call])
  }

  function Fault(s: State, m: int): State {
    s.(faulted := s.faulted + {m})
  }

  function Insert(s: State, m: int, seqNo: int, entry: Entry): State {
    s.(events := InsertEvent(s.events, EventRow(m, entry.gameID, seqNo, entry.event)))
  }

  /** UPDATE matches SET status = ... WHERE id = m. */
  function Update(s: State, m: int, guarded: Status -> Status): State {
    if m in s.status then s.(status := s.status[m := guarded(s.status[m])]) else s
  }

  function CallStep(s: State, m: int, call: Call, step: CallAction): Option<State> {
    match step
    case Start(ok) =>
      if !call.Created? then None
      else if !ok then Some(EndCall(Fault(s, m), m))
      else Some(MoveCall(Update(s, m, Started), m, Starting))
    case Number(ok) =>
      if !call.Starting? then None
      else if !ok then Some(EndCall(Fault(s, m), m))
      else Some(MoveCall(s, m, Numbering(NextSeq(s.events, m))))
    case Announce(event, ok) =>
      if !call.Numbering? then None
      else if !ok then Some(EndCall(Fault(s, m), m))
      else Some(MoveCall(Insert(s, m, call.seqNo, Entry(None, event)), m, Offering))
    case Accept =>
      if !call.Offering? || |s.buffer| >= s.cap then None
      else Some(EndCall(s.(buffer := s.buffer + [m], accepted := s.accepted + [m]), m))
    case GiveUp =>
      if !call.Offering? then None else Some(MoveCall(s.(rejected := s.rejected + {m}), m, Rejecting))
    case TurnAway =>
      if !call.Offering? || |s.buffer| < s.cap then None
      else Some(MoveCall(s.(rejected := s.rejected + {m}), m, Rejecting))
    case Reject(ok) =>
      if !call.Rejecting? then None
      else Some(EndCall(if ok then Update(s, m, FailedFrom) else Fault(s, m), m))
  }

  function WorkStep(s: State, m: int, stage: Stage, work: WorkAction): Option<State> {
    match work
    case ReadNumber(ok) =>
      if !stage.Playing? then None
      else Some(if ok then s.(worker := Busy(m, Writing(NextSeq(s.events, m)))) else s)
    case Write(entry, ok) =>
      if !stage.Writing? then None
      else Some((if ok then Insert(s, m, stage.seqNo, entry) else s).(worker := Busy(m, Playing)))
    case Decide(won) =>
      if !stage.Playing? then None
      else Some(s.(worker := Busy(m, Closing(won)), decided := s.decided[m := won]))
    case Finish(ok) =>
      if !stage.Closing? then None
      else
        var s' := if !ok then Fault(s, m) else Update(s, m, if stage.won then CompletedFrom else FailedFrom);
        Some(s'.(worker := Busy(m, Rendering)))
    case Return =>
      if !stage.Rendering? then None else Some(s.(worker := Idle, executed := s.executed + [m]))
  }

  /** One step of the system, or None when the action is not possible now. */
  function Step(s: State, a: Action): Option<State> {
    match a
    case Create =>
      var m := s.lastMatch + 1;
      Some(s.(lastMatch := m, status := s.status[m := Queued], calls := s.calls[m := Created]))
    case ByCaller(m, step) => if m in s.calls then CallStep(s, m, s.calls[m], step) else None
    case Shutdown => Some(s.(shutdown := true))
    case Stop => if s.worker.Idle? && s.shutdown then Some(s.(worker := Stopped)) else None
    case Take =>
      if !s.worker.Idle? || s.buffer == [] then None
      else Some(s.(buffer := s.buffer[1..], worker := Busy(s.buffer[0], Playing)))
    case ByWorker(work) => if s.worker.Busy? then WorkStep(s, s.worker.job, s.worker.stage, work) else None
  }

  /** The state after a run, or None if some action was not possible. */
  function Run(s: State, actions: seq<Action>): Option<State> {
    if actions == [] then Some(s)
    else match Run(s, actions[..|actions| - 1])
      case None => None
      case Some(before) => Step(before, actions[|actions| - 1])
  }

  // ----- the invariant -----

  function Executing(s: State): seq<int> {
    if s.worker.Busy? then [s.worker.job] else []
  }

  predicate Distinct(ids: seq<int>) {
    forall i, j :: 0 <= i < j < |ids| ==> ids[i] != ids[j]
  }

  /** Accepted jobs are executed, executing or buffered, in the order of acceptance, and nothing else is. */
  predicate Conserved(s: State) {
    && s.accepted == s.executed + Executing(s) + s.buffer
    && |s.buffer| <= s.cap
  }

  /** A match is in the hands of one caller, or accepted once, or done with. */
  predicate Exclusive(s: State) {
    && Distinct(s.accepted)
    && (forall m :: m in s.calls ==> m !in s.accepted)
    && (forall m :: m in s.rejected ==> m !in s.accepted)
    && (forall m :: m in s.calls ==> (m in s.rejected <==> s.calls[m].Rejecting?))
  }

  /** Whatever is known about a match, it has a row, and no row is ahead of the numbering. */
  predicate Recorded(s: State) {
    && (forall m :: m in s.calls ==> m in s.status)
    && (forall m :: m in s.accepted ==> m in s.status)
    && (forall m :: m in s.rejected ==> m in s.status)
    && (forall m :: m in s.faulted ==> m in s.status)
    && (forall m :: m in s.status ==> m <= s.lastMatch)
  }

  predicate OneOwner(s: State) {
    Exclusive(s) && Recorded(s)
  }

  /** Every number that was read is still the next one. */
  ghost predicate NumbersAreCurrent(s: State) {
    && Numbered(s.events)
    && (forall m :: m in s.calls && s.calls[m].Numbering? ==> s.calls[m].seqNo == |StreamOf(s.events, m)| + 1)
    && (s.worker.Busy? && s.worker.stage.Writing? ==> s.worker.stage.seqNo == |StreamOf(s.events, s.worker.job)| + 1)
  }

  /** The match is prepared, offered, turned away, buffered or executed, and its result is not stored yet. */
  predicate InProgress(s: State, m: int) {
    || (m in s.calls && !s.calls[m].Created?)
    || m in s.buffer
    || (s.worker.Busy? && s.worker.job == m && !s.worker.stage.Rendering?)
  }

  /** A match whose statements all succeeded is queued, running or terminal exactly as the protocol says. */
  predicate StatusIsRight(s: State, m: int)
    requires m in s.status
  {
    && (m in s.calls && s.calls[m].Created? ==> s.status[m] == Queued)
    && (InProgress(s, m) ==> s.status[m] == Running)
    && (m !in s.faulted && !InProgress(s, m) && m !in s.calls ==> Terminal(s.status[m]))
  }

  ghost predicate Inv(s: State) {
    && Conserved(s) && OneOwner(s) && NumbersAreCurrent(s)
    && forall m :: m in s.status ==> StatusIsRight(s, m)
  }

  lemma InitInv(cap: nat)
    ensures Inv(Init(cap))
  {
  }

  // ----- every step keeps it -----

  lemma JobIsNowhereElse(s: State)
    requires Conserved(s) && OneOwner(s) && s.worker.Busy?
    ensures s.worker.job in s.accepted && s.worker.job !in s.buffer && s.worker.job !in s.calls
  {
    var n := |s.executed|;
    assert s.accepted[n] == s.worker.job;
    forall i | 0 <= i < |s.buffer| ensures s.buffer[i] != s.worker.job {
      assert s.accepted[n + 1 + i] == s.buffer[i];
    }
  }

  lemma CallerConserves(s: State, m: int, step: CallAction)
    requires Conserved(s) && m in s.calls && CallStep(s, m, s.calls[m], step).Some?
    ensures Conserved(CallStep(s, m, s.calls[m], step).value)
  {
    hide InsertEvent, NextSeq;
    if step.Accept? {
      assert s.accepted + [m] == s.executed + Executing(s) + (s.buffer + [m]);
    }
  }

  /** What one step of a caller does to calls, buffer and histories. */
  lemma CallerMoves(s: State, m: int, step: CallAction)
    requires m in s.calls && m in s.status && CallStep(s, m, s.calls[m], step).Some?
    ensures var s' := CallStep(s, m, s.calls[m], step).value;
            && (s'.calls == s.calls - {m} || (m in s'.calls && s'.calls == s.calls[m := s'.calls[m]]))
            && (m in s'.calls ==> (s'.calls[m].Rejecting? <==> step.GiveUp? || step.TurnAway?))
            && (step.Accept? ==> m !in s'.calls && s.calls[m].Offering?)
            && s'.accepted == (if step.Accept? then s.accepted + [m] else s.accepted)
            && s'.rejected == (if step.GiveUp? || step.TurnAway? then s.rejected + {m} else s.rejected)
            && s'.buffer == (if step.Accept? then s.buffer + [m] else s.buffer)
            && (s.calls[m].Rejecting? ==> m !in s'.calls)
  {
    hide InsertEvent, NextSeq;
  }

  /** What it leaves alone. */
  lemma CallerLeaves(s: State, m: int, step: CallAction)
    requires m in s.calls && m in s.status && CallStep(s, m, s.calls[m], step).Some?
    ensures var s' := CallStep(s, m, s.calls[m], step).value;
            && s'.faulted <= s.faulted + {m} && s'.lastMatch == s.lastMatch
            && s'.status.Keys == s.status.Keys && s'.status == s.status[m := s'.status[m]]
            && s'.worker == s.worker && s'.decided == s.decided
  {
    hide InsertEvent, NextSeq;
  }

  /** What one step of a caller can touch: its own call, its own status, and the ends of the histories. */
  lemma CallerTouches(s: State, m: int, step: CallAction)
    requires m in s.calls && m in s.status && CallStep(s, m, s.calls[m], step).Some?
    ensures var s' := CallStep(s, m, s.calls[m], step).value;
            && (s'.calls == s.calls - {m} || (m in s'.calls && s'.calls == s.calls[m := s'.calls[m]]))
            && (m in s'.calls ==> (s'.calls[m].Rejecting? <==> step.GiveUp? || step.TurnAway?))
            && (step.Accept? ==> m !in s'.calls && s.calls[m].Offering?)
            && s'.accepted == (if step.Accept? then s.accepted + [m] else s.accepted)
            && s'.rejected == (if step.GiveUp? || step.TurnAway? then s.rejected + {m} else s.rejected)
            && s'.faulted <= s.faulted + {m} && s'.status.Keys == s.status.Keys && s'.lastMatch == s.lastMatch
            && (s.calls[m].Rejecting? ==> m !in s'.calls)
            && s'.status == s.status[m := s'.status[m]] && s'.worker == s.worker && s'.decided == s.decided
            && s'.buffer == (if step.Accept? then s.buffer + [m] else s.buffer)
  {
    hide CallStep;
    CallerMoves(s, m, step);
    CallerLeaves(s, m, step);
  }

  lemma CallerKeepsExclusive(s: State, m: int, step: CallAction)
    requires OneOwner(s) && m in s.calls && CallStep(s, m, s.calls[m], step).Some?
    ensures Exclusive(CallStep(s, m, s.calls[m], step).value)
  {
    CallerTouches(s, m, step);
    hide CallStep, Recorded;
  }

  lemma CallerKeepsRecorded(s: State, m: int, step: CallAction)
    requires OneOwner(s) && m in s.calls && CallStep(s, m, s.calls[m], step).Some?
    ensures Recorded(CallStep(s, m, s.calls[m], step).value)
  {
    CallerTouches(s, m, step);
    hide CallStep, Exclusive;
  }

  lemma WorkerConserves(s: State, work: WorkAction)
    requires Conserved(s) && s.worker.Busy? && WorkStep(s, s.worker.job, s.worker.stage, work).Some?
    ensures Conserved(WorkStep(s, s.worker.job, s.worker.stage, work).value)
  {
    hide InsertEvent, NextSeq;
  }

  /** The worker touches nothing of who owns what but the executing job's status. */
  lemma WorkerTouches(s: State, work: WorkAction)
    requires s.worker.Busy? && s.worker.job in s.status && WorkStep(s, s.worker.job, s.worker.stage, work).Some?
    ensures var s' := WorkStep(s, s.worker.job, s.worker.stage, work).value;
            && s'.calls == s.calls && s'.accepted == s.accepted && s'.rejected == s.rejected
            && s'.faulted <= s.faulted + {s.worker.job} && s'.status.Keys == s.status.Keys
            && s'.lastMatch == s.lastMatch
  {
    hide InsertEvent, NextSeq;
  }

  lemma WorkerKeepsOwner(s: State, work: WorkAction)
    requires Conserved(s) && OneOwner(s) && s.worker.Busy?
    requires WorkStep(s, s.worker.job, s.worker.stage, work).Some?
    ensures OneOwner(WorkStep(s, s.worker.job, s.worker.stage, work).value)
  {
    JobIsNowhereElse(s);
    WorkerTouches(s, work);
    hide WorkStep, Conserved, Distinct;
  }

  lemma CreateKeepsOwner(s: State)
    requires Conserved(s) && OneOwner(s)
    ensures Conserved(Step(s, Create).value) && OneOwner(Step(s, Create).value)
  {
    hide Distinct;
  }

  lemma TakeKeepsOrder(s: State)
    requires Conserved(s) && OneOwner(s) && Step(s, Take).Some?
    ensures Conserved(Step(s, Take).value) && OneOwner(Step(s, Take).value)
  {
    hide Distinct;
    assert s.buffer == [s.buffer[0]] + s.buffer[1..];
  }

  lemma StepKeepsOrder(s: State, a: Action)
    requires Inv(s) && Step(s, a).Some?
    ensures Conserved(Step(s, a).value) && OneOwner(Step(s, a).value)
  {
    hide NumbersAreCurrent, StatusIsRight, CallStep, WorkStep, Distinct;
    match a {
      case ByCaller(m, step) =>
        hide Conserved, Exclusive, Recorded;
        CallerConserves(s, m, step);
        CallerKeepsExclusive(s, m, step);
        CallerKeepsRecorded(s, m, step);
      case ByWorker(work) =>
        hide Conserved, Exclusive, Recorded;
        WorkerConserves(s, work);
        WorkerKeepsOwner(s, work);
      case Take =>
        hide Conserved, OneOwner, Step;
        TakeKeepsOrder(s);
      case Create =>
        hide Conserved, OneOwner, Step;
        CreateKeepsOwner(s);
      case _ =>
    }
  }

  /** The insert that follows a current number adds one event to one match. */
  lemma InsertIsKept(s: State, m: int, seqNo: int, entry: Entry)
    requires Numbered(s.events) && seqNo == |StreamOf(s.events, m)| + 1
    ensures var s', row := Insert(s, m, seqNo, entry), EventRow(m, entry.gameID, seqNo, entry.event);
            && s'.events == s.events + [row] && Numbered(s'.events)
            && forall k :: StreamOf(s'.events, k) == StreamOf(s.events, k) + (if k == m then [row] else [])
  {
    AppendIsNeverIgnored(s.events, m, entry.gameID, entry.event);
    var row := EventRow(m, entry.gameID, seqNo, entry.event);
    forall k ensures StreamOf(s.events + [row], k) == StreamOf(s.events, k) + (if k == m then [row] else []) {
      StreamSnoc(s.events, row, k);
    }
  }

  lemma ReadsTheNext(rows: seq<EventRow>, m: int)
    requires Numbered(rows)
    ensures NextSeq(rows, m) == |StreamOf(rows, m)| + 1
  {
    MaxSeqOfStream(rows, m);
  }

  lemma CallerKeepsNumbers(s: State, m: int, step: CallAction)
    requires Inv(s) && m in s.calls && CallStep(s, m, s.calls[m], step).Some?
    ensures NumbersAreCurrent(CallStep(s, m, s.calls[m], step).value)
  {
    hide StatusIsRight, InsertEvent, NextSeq, StreamOf, Exclusive, Recorded, Conserved, Numbered;
    ReadsTheNext(s.events, m);
    if s.worker.Busy? {
      JobIsNowhereElse(s);
    }
    if step.Announce? && step.ok {
      InsertIsKept(s, m, s.calls[m].seqNo, Entry(None, step.event));
    }
  }

  lemma WorkerKeepsNumbers(s: State, work: WorkAction)
    requires Inv(s) && s.worker.Busy? && WorkStep(s, s.worker.job, s.worker.stage, work).Some?
    ensures NumbersAreCurrent(WorkStep(s, s.worker.job, s.worker.stage, work).value)
  {
    hide StatusIsRight, InsertEvent, NextSeq;
    MaxSeqOfStream(s.events, s.worker.job);
    if work.Write? && work.ok {
      InsertIsKept(s, s.worker.job, s.worker.stage.seqNo, work.entry);
    }
  }

  lemma StepKeepsNumbers(s: State, a: Action)
    requires Inv(s) && Step(s, a).Some?
    ensures NumbersAreCurrent(Step(s, a).value)
  {
    hide StatusIsRight, CallStep, WorkStep;
    match a {
      case ByCaller(m, step) => CallerKeepsNumbers(s, m, step);
      case ByWorker(work) => WorkerKeepsNumbers(s, work);
      case _ =>
    }
  }

  /** The caller's own match: its status moves with its call. */
  lemma CallerKeepsOwnStatus(s: State, m: int, step: CallAction)
    requires Inv(s) && m in s.calls && CallStep(s, m, s.calls[m], step).Some?
    ensures var s' := CallStep(s, m, s.calls[m], step).value; m in s'.status && StatusIsRight(s', m)
  {
    hide NumbersAreCurrent, InsertEvent, NextSeq, Distinct;
    assert StatusIsRight(s, m);
    assert m !in s.buffer && m !in Executing(s) by {
      assert m !in s.accepted;
      hide CallStep, StatusIsRight;
    }
  }

  lemma CallerKeepsOtherStatus(s: State, m: int, step: CallAction, k: int)
    requires Inv(s) && m in s.calls && CallStep(s, m, s.calls[m], step).Some? && k in s.status && k != m
    ensures var s' := CallStep(s, m, s.calls[m], step).value; k in s'.status && StatusIsRight(s', k)
  {
    hide NumbersAreCurrent, Distinct, Conserved, Exclusive;
    assert StatusIsRight(s, k);
    CallerTouches(s, m, step);
    CallerFaultsItself(s, m, step, k);
    hide CallStep;
  }

  lemma CallerStatusKeys(s: State, m: int, step: CallAction)
    requires Inv(s) && m in s.calls && CallStep(s, m, s.calls[m], step).Some?
    ensures CallStep(s, m, s.calls[m], step).value.status.Keys == s.status.Keys
  {
    hide NumbersAreCurrent, StatusIsRight, Conserved, Exclusive;
    CallerTouches(s, m, step);
    hide CallStep;
  }

  lemma CallerFaultsItself(s: State, m: int, step: CallAction, k: int)
    requires m in s.calls && CallStep(s, m, s.calls[m], step).Some? && k != m
    ensures k in CallStep(s, m, s.calls[m], step).value.faulted <==> k in s.faulted
  {
    hide InsertEvent, NextSeq;
  }

  lemma WorkerKeepsStatus(s: State, work: WorkAction, k: int)
    requires Inv(s) && s.worker.Busy? && WorkStep(s, s.worker.job, s.worker.stage, work).Some? && k in s.status
    ensures var s' := WorkStep(s, s.worker.job, s.worker.stage, work).value; k in s'.status && StatusIsRight(s', k)
  {
    hide NumbersAreCurrent, InsertEvent, NextSeq, Distinct;
    JobIsNowhereElse(s);
    assert StatusIsRight(s, k) && StatusIsRight(s, s.worker.job);
  }

  lemma StepKeepsStatus(s: State, a: Action, k: int)
    requires Inv(s) && Step(s, a).Some? && k in Step(s, a).value.status
    ensures StatusIsRight(Step(s, a).value, k)
  {
    hide NumbersAreCurrent;
    match a {
      case ByCaller(m, step) =>
        hide StatusIsRight, CallStep;
        if k == m {
          CallerKeepsOwnStatus(s, m, step);
        } else {
          CallerStatusKeys(s, m, step);
          CallerKeepsOtherStatus(s, m, step, k);
        }
      case ByWorker(work) => WorkerKeepsStatus(s, work, k);
      case _ =>
    }
  }

  lemma StepKeepsInv(s: State, a: Action)
    requires Inv(s) && Step(s, a).Some?
    ensures Inv(Step(s, a).value)
  {
    hide Conserved, OneOwner, NumbersAreCurrent, StatusIsRight, Step;
    StepKeepsOrder(s, a);
    StepKeepsNumbers(s, a);
    forall k | k in Step(s, a).value.status ensures StatusIsRight(Step(s, a).value, k) {
      StepKeepsStatus(s, a, k);
    }
  }

  lemma {:induction false} RunKeepsInv(s: State, actions: seq<Action>)
    requires Inv(s) && Run(s, actions).Some?
    ensures Inv(Run(s, actions).value)
  {
    hide Inv, Step;
    if actions != [] {
      RunKeepsInv(s, actions[..|actions| - 1]);
      StepKeepsInv(Run(s, actions[..|actions| - 1]).value, actions[|actions| - 1]);
    }
  }

  // ----- what holds in every run -----

  /**
    Over every interleaving: executed, executing and buffered jobs together are the accepted ones
    in order of acceptance, each once; the buffer never overflows; and a rejected match is never
    accepted, buffered, executing or executed.
   */
  lemma QueueConservation(cap: nat, actions: seq<Action>)
    requires Run(Init(cap), actions).Some?
    ensures var s := Run(Init(cap), actions).value;
            && s.accepted == s.executed + Executing(s) + s.buffer
            && Distinct(s.accepted) && |s.buffer| <= s.cap == cap
            && forall m :: m in s.rejected ==> m !in s.executed && m !in Executing(s) && m !in s.buffer
  {
    InitInv(cap);
    RunKeepsInv(Init(cap), actions);
    RunKeepsCap(Init(cap), actions);
    var s := Run(Init(cap), actions).value;
    forall m | m in s.rejected ensures m !in s.executed && m !in Executing(s) && m !in s.buffer {
      assert m !in s.executed + Executing(s) + s.buffer;
    }
    hide Run, NumbersAreCurrent;
  }

  lemma StepKeepsCap(s: State, a: Action)
    requires Step(s, a).Some?
    ensures Step(s, a).value.cap == s.cap
  {
  }

  lemma {:induction false} RunKeepsCap(s: State, actions: seq<Action>)
    requires Run(s, actions).Some?
    ensures Run(s, actions).value.cap == s.cap
  {
    hide Step;
    if actions != [] {
      RunKeepsCap(s, actions[..|actions| - 1]);
      StepKeepsCap(Run(s, actions[..|actions| - 1]).value, actions[|actions| - 1]);
    }
  }

  /** A match's own step on its stored status. */
  predicate MayBecome(before: Status, after: Status) {
    || after == before
    || (before == Queued && after == Running)
    || (before == Running && Terminal(after))
  }

  /** No step moves a status other than queued to running to completed or failed, and no row disappears. */
  lemma StatusOnlyAdvances(s: State, a: Action, m: int)
    requires Inv(s) && Step(s, a).Some? && m in s.status
    ensures m in Step(s, a).value.status && MayBecome(s.status[m], Step(s, a).value.status[m])
  {
    hide NumbersAreCurrent, InsertEvent, NextSeq, Conserved, Exclusive;
    assert StatusIsRight(s, m);
    if a.ByCaller? && a.m != m {
      CallerTouches(s, a.m, a.step);
      hide CallStep;
    }
  }

  lemma {:induction false} TerminalIsFinal(s: State, actions: seq<Action>, m: int)
    requires Inv(s) && Run(s, actions).Some? && m in s.status && Terminal(s.status[m])
    ensures m in Run(s, actions).value.status && Run(s, actions).value.status[m] == s.status[m]
  {
    hide Inv, Step;
    if actions != [] {
      var init := actions[..|actions| - 1];
      TerminalIsFinal(s, init, m);
      RunKeepsInv(s, init);
      StatusOnlyAdvances(Run(s, init).value, actions[|actions| - 1], m);
    }
  }

  /**
    In every reachable state, a match none of whose statements failed is queued while its caller
    has just created it, running exactly while it is in progress, and terminal otherwise.
   */
  lemma StatusMeaning(cap: nat, actions: seq<Action>, m: int)
    requires Run(Init(cap), actions).Some?
    requires var s := Run(Init(cap), actions).value; m in s.status && m !in s.faulted
    ensures var s := Run(Init(cap), actions).value;
            && (s.status[m] == Queued <==> m in s.calls && s.calls[m].Created?)
            && (s.status[m] == Running <==> InProgress(s, m))
  {
    InitInv(cap);
    RunKeepsInv(Init(cap), actions);
    assert StatusIsRight(Run(Init(cap), actions).value, m);
    hide Run, NumbersAreCurrent;
  }

  // ----- completed or failed -----

  /** What the worker decided about match `m` in a run, if it did. */
  function DecisionIn(s: State, actions: seq<Action>, m: int): Option<bool> {
    if actions == [] then None
    else
      var init, last := actions[..|actions| - 1], actions[|actions| - 1];
      match Run(s, init)
      case None => None
      case Some(before) =>
        if last.ByWorker? && last.work.Decide? && before.worker.Busy? && before.worker.job == m then Some(last.work.won)
        else DecisionIn(s, init, m)
  }

  /** A match is completed because the worker decided so, and failed because it did or because it was turned away. */
  predicate OutcomeIsRight(s: State, m: int)
    requires m in s.status
  {
    && (s.worker.Busy? && s.worker.job == m && s.worker.stage.Closing? ==>
        m in s.decided && s.decided[m] == s.worker.stage.won)
    && (m !in s.faulted && !InProgress(s, m) && m !in s.calls ==>
        && (s.status[m] == Completed <==> m in s.decided && s.decided[m])
        && (s.status[m] == Failed <==> (m in s.decided && !s.decided[m]) || m in s.rejected))
  }

  ghost predicate Outcomes(s: State) {
    && (forall m :: m in s.decided ==> m in s.accepted)
    && forall m :: m in s.status ==> OutcomeIsRight(s, m)
  }

  lemma CallerKeepsOutcome(s: State, m: int, step: CallAction, k: int)
    requires Inv(s) && Outcomes(s) && m in s.calls && CallStep(s, m, s.calls[m], step).Some?
    requires k in CallStep(s, m, s.calls[m], step).value.status
    ensures OutcomeIsRight(CallStep(s, m, s.calls[m], step).value, k)
  {
    hide NumbersAreCurrent, InsertEvent, NextSeq, Distinct, StreamOf;
    assert StatusIsRight(s, m);
    CallerTouches(s, m, step);
    assert OutcomeIsRight(s, k);
    if s.worker.Busy? {
      JobIsNowhereElse(s);
    }
    if k != m {
      CallerFaultsItself(s, m, step, k);
      hide CallStep, Conserved, Exclusive;
    } else {
      assert m !in s.accepted && m !in s.buffer;
    }
  }

  lemma WorkerKeepsOutcome(s: State, work: WorkAction, k: int)
    requires Inv(s) && Outcomes(s) && s.worker.Busy?
    requires WorkStep(s, s.worker.job, s.worker.stage, work).Some?
    requires k in WorkStep(s, s.worker.job, s.worker.stage, work).value.status
    ensures OutcomeIsRight(WorkStep(s, s.worker.job, s.worker.stage, work).value, k)
  {
    hide NumbersAreCurrent, InsertEvent, NextSeq, Distinct, StreamOf;
    JobIsNowhereElse(s);
    WorkerTouches(s, work);
    assert OutcomeIsRight(s, k) && OutcomeIsRight(s, s.worker.job) && StatusIsRight(s, s.worker.job);
    hide Conserved;
  }

  lemma OtherKeepsOutcome(s: State, a: Action, k: int)
    requires Inv(s) && Outcomes(s) && Step(s, a).Some? && !a.ByCaller? && !a.ByWorker?
    requires k in Step(s, a).value.status
    ensures OutcomeIsRight(Step(s, a).value, k)
  {
    hide NumbersAreCurrent, StatusIsRight, Distinct;
    if k in s.status {
      assert OutcomeIsRight(s, k);
    }
  }

  lemma StepKeepsDecided(s: State, a: Action)
    requires Inv(s) && Outcomes(s) && Step(s, a).Some?
    ensures forall m :: m in Step(s, a).value.decided ==> m in Step(s, a).value.accepted
  {
    hide NumbersAreCurrent, StatusIsRight, OutcomeIsRight, InsertEvent, NextSeq, Distinct;
    if s.worker.Busy? {
      JobIsNowhereElse(s);
    }
  }

  lemma StepKeepsOutcomes(s: State, a: Action)
    requires Inv(s) && Outcomes(s) && Step(s, a).Some?
    ensures Outcomes(Step(s, a).value)
  {
    StepKeepsDecided(s, a);
    forall k | k in Step(s, a).value.status ensures OutcomeIsRight(Step(s, a).value, k) {
      match a {
        case ByCaller(m, step) => CallerKeepsOutcome(s, m, step, k);
        case ByWorker(work) => WorkerKeepsOutcome(s, work, k);
        case _ => OtherKeepsOutcome(s, a, k);
      }
    }
    hide Inv, OutcomeIsRight, CallStep, WorkStep;
  }

  lemma {:induction false} RunKeepsOutcomes(s: State, actions: seq<Action>)
    requires Inv(s) && Outcomes(s) && Run(s, actions).Some?
    ensures Outcomes(Run(s, actions).value)
  {
    hide Inv, Outcomes, Step;
    if actions != [] {
      RunKeepsOutcomes(s, actions[..|actions| - 1]);
      RunKeepsInv(s, actions[..|actions| - 1]);
      StepKeepsOutcomes(Run(s, actions[..|actions| - 1]).value, actions[|actions| - 1]);
    }
  }

  lemma StepDecides(s: State, a: Action, m: int)
    requires Inv(s) && Step(s, a).Some?
    ensures var decided := Step(s, a).value.decided;
            if a.ByWorker? && a.work.Decide? && s.worker.Busy? && s.worker.job == m
            then m in decided && decided[m] == a.work.won
            else (m in decided <==> m in s.decided) && (m in decided ==> decided[m] == s.decided[m])
  {
    hide InsertEvent, NextSeq, Conserved, Exclusive, NumbersAreCurrent, StatusIsRight;
    if a.ByCaller? {
      CallerTouches(s, a.m, a.step);
      hide CallStep;
    }
  }

  /** The history of decisions is that of the run. */
  lemma {:induction false} DecidedIsDecision(s: State, actions: seq<Action>, m: int)
    requires Inv(s) && Run(s, actions).Some? && m !in s.decided
    ensures var decided := Run(s, actions).value.decided;
            DecisionIn(s, actions, m) == if m in decided then Some(decided[m]) else None
  {
    hide Step, Inv;
    if actions != [] {
      DecidedIsDecision(s, actions[..|actions| - 1], m);
      RunKeepsInv(s, actions[..|actions| - 1]);
      StepDecides(Run(s, actions[..|actions| - 1]).value, actions[|actions| - 1], m);
    }
  }

  /**
    In every run, a match that is done and lost no statement is completed exactly if the worker decided
    that it was played to its end, and failed exactly if the worker decided otherwise or it was rejected.
   */
  lemma OutcomeMeaning(cap: nat, actions: seq<Action>, m: int)
    requires Run(Init(cap), actions).Some?
    requires var s := Run(Init(cap), actions).value;
             m in s.status && m !in s.faulted && m !in s.calls && !InProgress(s, m)
    ensures var s := Run(Init(cap), actions).value;
            && (s.status[m] == Completed <==> DecisionIn(Init(cap), actions, m) == Some(true))
            && (s.status[m] == Failed <==> DecisionIn(Init(cap), actions, m) == Some(false) || m in s.rejected)
  {
    InitInv(cap);
    RunKeepsOutcomes(Init(cap), actions);
    DecidedIsDecision(Init(cap), actions, m);
    assert OutcomeIsRight(Run(Init(cap), actions).value, m);
    hide Run, DecisionIn;
  }

  /**
    What the callers can do: a match is offered to the channel, accepted exactly while there is room,
    and turned away as busy exactly while there is none; giving up is possible either way.
   */
  lemma CallerChoices(s: State, m: int)
    requires m in s.calls
    ensures Step(s, ByCaller(m, Accept)).Some? <==> s.calls[m].Offering? && |s.buffer| < s.cap
    ensures Step(s, ByCaller(m, TurnAway)).Some? <==> s.calls[m].Offering? && |s.buffer| >= s.cap
    ensures Step(s, ByCaller(m, GiveUp)).Some? <==> s.calls[m].Offering?
    ensures forall step: CallAction :: (step.TurnAway? || step.GiveUp?) && Step(s, ByCaller(m, step)).Some? ==>
              var s' := Step(s, ByCaller(m, step)).value; m in s'.rejected && m in s'.calls && s'.calls[m].Rejecting?
  {
  }

  /** The worker stops only after a shutdown. */
  lemma {:induction false} StopsOnShutdown(cap: nat, actions: seq<Action>)
    requires Run(Init(cap), actions).Some?
    ensures Run(Init(cap), actions).value.worker.Stopped? ==> Shutdown in actions
    ensures Run(Init(cap), actions).value.shutdown <==> Shutdown in actions
  {
    hide Step;
    if actions != [] {
      var init, last := actions[..|actions| - 1], actions[|actions| - 1];
      assert actions == init + [last];
      StopsOnShutdown(cap, init);
      StopStep(Run(Init(cap), init).value, last);
    }
  }

  lemma StopStep(s: State, a: Action)
    requires Step(s, a).Some?
    ensures Step(s, a).value.shutdown <==> s.shutdown || a == Shutdown
    ensures Step(s, a).value.worker.Stopped? ==> s.worker.Stopped? || s.shutdown
  {
    hide InsertEvent, NextSeq, CallStep, WorkStep;
    match a {
      case ByCaller(m, step) => CallerStops(s, m, step);
      case ByWorker(work) => WorkerStops(s, work);
      case _ =>
    }
  }

  lemma CallerStops(s: State, m: int, step: CallAction)
    requires m in s.calls && CallStep(s, m, s.calls[m], step).Some?
    ensures var s' := CallStep(s, m, s.calls[m], step).value; s'.shutdown == s.shutdown && s'.worker == s.worker
  {
    hide InsertEvent, NextSeq;
  }

  lemma WorkerStops(s: State, work: WorkAction)
    requires s.worker.Busy? && WorkStep(s, s.worker.job, s.worker.stage, work).Some?
    ensures var s' := WorkStep(s, s.worker.job, s.worker.stage, work).value;
            s'.shutdown == s.shutdown && !s'.worker.Stopped?
  {
    hide InsertEvent, NextSeq;
  }

  lemma StoppedStep(s: State, a: Action)
    requires Step(s, a).Some? && s.worker.Stopped?
    ensures var s' := Step(s, a).value; s'.worker.Stopped? && s'.executed == s.executed && s.buffer <= s'.buffer
  {
  }

  /** The worker's shutdown strands what is buffered: those matches stay buffered and running for ever. */
  lemma {:induction false} StoppedWorkerStrands(s: State, actions: seq<Action>)
    requires Inv(s) && Run(s, actions).Some? && s.worker.Stopped?
    ensures var s' := Run(s, actions).value;
            && s'.worker.Stopped? && s'.executed == s.executed && s.buffer <= s'.buffer
            && forall m :: m in s.buffer ==> m in s'.status && s'.status[m] == Running
  {
    if actions == [] {
      forall m | m in s.buffer ensures m in s.status && s.status[m] == Running {
        BufferedIsRunning(s, m);
      }
    } else {
      hide Inv, Step;
      var init := actions[..|actions| - 1];
      StoppedWorkerStrands(s, init);
      StoppedStep(Run(s, init).value, actions[|actions| - 1]);
      RunKeepsInv(s, init);
      RunKeepsInv(s, actions);
      var s' := Run(s, actions).value;
      forall m | m in s.buffer ensures m in s'.status && s'.status[m] == Running {
        BufferedIsRunning(s', m);
      }
    }
  }

  lemma BufferedIsRunning(s: State, m: int)
    requires Inv(s) && m in s.buffer
    ensures m in s.status && s.status[m] == Running
  {
    hide NumbersAreCurrent;
    assert m in s.accepted;
    assert StatusIsRight(s, m);
  }

  lemma RunSnoc(s: State, actions: seq<Action>, a: Action)
    requires Run(s, actions).Some?
    ensures Run(s, actions + [a]) == Step(Run(s, actions).value, a)
  {
    assert (actions + [a])[..|actions|] == actions;
  }

  /** One caller's whole way into the buffer. */
  function Enqueuing(m: int, event: Event): seq<Action> {
    [Create] + [ByCaller(m, Start(true))] + [ByCaller(m, Number(true))] + [ByCaller(m, Announce(event, true))] +
    [ByCaller(m, Accept)]
  }

  /** Nothing but a full buffer keeps a new match out of it, whether or not the worker still runs. */
  lemma EnqueuingIsPossible(s: State, event: Event)
    requires Inv(s) && |s.buffer| < s.cap
    ensures var m := s.lastMatch + 1;
            var r := Run(s, Enqueuing(m, event));
            && r.Some? && r.value.buffer == s.buffer + [m] && m in r.value.status && r.value.status[m] == Running
            && r.value.worker == s.worker && r.value.cap == s.cap && r.value.executed == s.executed
            && r.value.lastMatch == m && m !in s.status
  {
    hide InsertEvent, NextSeq, NumbersAreCurrent, Conserved, Exclusive, StatusIsRight;
    var m := s.lastMatch + 1;
    assert m !in s.status;
    RunSnoc(s, [], Create);
    assert [] + [Create] == [Create];
    RunSnoc(s, [Create], ByCaller(m, Start(true)));
    RunSnoc(s, [Create] + [ByCaller(m, Start(true))], ByCaller(m, Number(true)));
    RunSnoc(s, [Create] + [ByCaller(m, Start(true))] + [ByCaller(m, Number(true))], ByCaller(m, Announce(event, true)));
    RunSnoc(s,
      [Create] + [ByCaller(m, Start(true))] + [ByCaller(m, Number(true))] + [ByCaller(m, Announce(event, true))],
      ByCaller(m, Accept));
    hide Run;
  }

  /**
    Stranding happens: a match can be accepted before the worker stops, and another one after, and
    both then stay buffered and running for ever, by `StoppedWorkerStrands`.
   */
  lemma StrandingHappens(cap: nat, event: Event)
    requires cap >= 1
    ensures var before := Enqueuing(1, event) + [Shutdown] + [Stop];
            && Run(Init(cap), before).Some?
            && var s := Run(Init(cap), before).value;
               && s.worker.Stopped? && s.buffer == [1] && 1 in s.status && s.status[1] == Running
               && (cap >= 2 ==>
                   var r := Run(s, Enqueuing(2, event));
                   && r.Some? && r.value.worker.Stopped? && r.value.buffer == [1, 2]
                   && 2 in r.value.status && r.value.status[2] == Running)
  {
    hide Inv;
    InitInv(cap);
    EnqueuingIsPossible(Init(cap), event);
    var first := Enqueuing(1, event);
    RunSnoc(Init(cap), first, Shutdown);
    RunSnoc(Init(cap), first + [Shutdown], Stop);
    RunKeepsInv(Init(cap), first + [Shutdown] + [Stop]);
    if cap >= 2 {
      EnqueuingIsPossible(Run(Init(cap), first + [Shutdown] + [Stop]).value, event);
    }
    hide Run, Enqueuing, InsertEvent, NextSeq, CallStep;
  }

  // ----- event numbers under interleaving -----

  /** What one step appends to the events of match `m`: at most one event, by its only writer. */
  function WrittenBy(s: State, a: Action, m: int): seq<Entry> {
    match a
    case ByCaller(k, step) =>
      if k == m && step.Announce? && step.ok && k in s.calls && s.calls[k].Numbering?
      then [Entry(None, step.event)] else []
    case ByWorker(work) =>
      if work.Write? && work.ok && s.worker.Busy? && s.worker.job == m && s.worker.stage.Writing?
      then [work.entry] else []
    case _ => []
  }

  /** The row of entry number `i`, counted from 0. */
  function RowAt(m: int, i: nat, entry: Entry): EventRow {
    EventRow(m, entry.gameID, i + 1, entry.event)
  }

  /** A step adds exactly the event it writes, with the next number, to exactly one match; nothing is ever ignored. */
  lemma StepWrites(s: State, a: Action, m: int)
    requires Inv(s) && Step(s, a).Some?
    ensures StreamOf(Step(s, a).value.events, m) ==
            StreamOf(s.events, m) +
            (if WrittenBy(s, a, m) == [] then []
             else [RowAt(m, |StreamOf(s.events, m)|, WrittenBy(s, a, m)[0])])
  {
    hide InsertEvent, NextSeq, StatusIsRight, Conserved, OneOwner, StreamOf;
    match a {
      case ByCaller(k, step) =>
        if step.Announce? && step.ok {
          InsertIsKept(s, k, s.calls[k].seqNo, Entry(None, step.event));
        }
      case ByWorker(work) =>
        if work.Write? && work.ok {
          InsertIsKept(s, s.worker.job, s.worker.stage.seqNo, work.entry);
        }
      case _ =>
    }
  }

  /** Everything that a run writes to match `m`, in order. */
  function History(s: State, actions: seq<Action>, m: int): seq<Entry> {
    if actions == [] then []
    else
      var init := actions[..|actions| - 1];
      match Run(s, init)
      case None => []
      case Some(before) => History(s, init, m) + WrittenBy(before, actions[|actions| - 1], m)
  }

  /**
    After every run the stored events of each match are exactly those written to it, numbered 1, 2,
    ..., n in order.
   */
  lemma {:induction false} EventsAreNumbered(cap: nat, actions: seq<Action>, m: int)
    requires Run(Init(cap), actions).Some?
    ensures var rows, written := StreamOf(Run(Init(cap), actions).value.events, m), History(Init(cap), actions, m);
            && |rows| == |written|
            && forall i :: 0 <= i < |rows| ==> rows[i] == RowAt(m, i, written[i])
  {
    hide Inv, Step;
    if actions != [] {
      var init, last := actions[..|actions| - 1], actions[|actions| - 1];
      EventsAreNumbered(cap, init, m);
      InitInv(cap);
      RunKeepsInv(Init(cap), init);
      StepWrites(Run(Init(cap), init).value, last, m);
    }
  }

  // ----- every history happens -----

  lemma HistorySnoc(s: State, actions: seq<Action>, a: Action, m: int)
    requires Run(s, actions).Some?
    ensures History(s, actions + [a], m) == History(s, actions, m) + WrittenBy(Run(s, actions).value, a, m)
  {
    assert (actions + [a])[..|actions|] == actions;
  }

  /** The worker's steps that write `entries`, one after the other. */
  function Working(entries: seq<Entry>): seq<Action> {
    if entries == [] then []
    else
      Working(entries[..|entries| - 1]) + [ByWorker(ReadNumber(true))] +
      [ByWorker(Write(entries[|entries| - 1], true))]
  }

  lemma NoSteps(s: State, m: int)
    ensures Run(s, []) == Some(s) && History(s, [], m) == []
  {
  }

  lemma OneStep(s: State, actions: seq<Action>, a: Action, m: int)
    requires Run(s, actions).Some? && Step(Run(s, actions).value, a).Some?
    ensures Run(s, actions + [a]) == Step(Run(s, actions).value, a)
    ensures History(s, actions + [a], m) == History(s, actions, m) + WrittenBy(Run(s, actions).value, a, m)
  {
    hide Step, WrittenBy;
    RunSnoc(s, actions, a);
    HistorySnoc(s, actions, a, m);
  }

  /** A first call up to the insert of its event. */
  lemma StartingWrites(cap: nat, m: int)
    ensures var actions := [] + [Create] + [ByCaller(1, Start(true))] + [ByCaller(1, Number(true))];
            && Run(Init(cap), actions) ==
               Some(Init(cap).(lastMatch := 1, status := map[1 := Running], calls := map[1 := Numbering(1)]))
            && History(Init(cap), actions, m) == []
  {
    hide Run, History;
    var s := Init(cap);
    NoSteps(s, m);
    OneStep(s, [], Create, m);
    OneStep(s, [] + [Create], ByCaller(1, Start(true)), m);
    OneStep(s, [] + [Create] + [ByCaller(1, Start(true))], ByCaller(1, Number(true)), m);
    assert NextSeq([], 1) == 1;
    assert map[1 := Queued][1 := Running] == map[1 := Running];
    assert map[1 := Created][1 := Starting][1 := Numbering(1)] == map[1 := Numbering(1)];
  }

  lemma EnqueuingWrites(cap: nat, event: Event, m: int)
    requires cap >= 1
    ensures Run(Init(cap), Enqueuing(1, event) + [Take]).Some?
    ensures Run(Init(cap), Enqueuing(1, event) + [Take]).value.worker == Busy(1, Playing)
    ensures History(Init(cap), Enqueuing(1, event) + [Take], m) == if m == 1 then [Entry(None, event)] else []
  {
    hide Run, History, InsertEvent, NextSeq;
    var s := Init(cap);
    StartingWrites(cap, m);
    var a3 := [] + [Create] + [ByCaller(1, Start(true))] + [ByCaller(1, Number(true))];
    var a4 := a3 + [ByCaller(1, Announce(event, true))];
    OneStep(s, a3, ByCaller(1, Announce(event, true)), m);
    OneStep(s, a4, ByCaller(1, Accept), m);
    OneStep(s, a4 + [ByCaller(1, Accept)], Take, m);
    assert a4 + [ByCaller(1, Accept)] == Enqueuing(1, event);
  }

  lemma WritingOne(s: State, actions: seq<Action>, entry: Entry, m: int)
    requires Run(s, actions).Some? && Run(s, actions).value.worker == Busy(1, Playing)
    ensures var more := actions + [ByWorker(ReadNumber(true))] + [ByWorker(Write(entry, true))];
            && Run(s, more).Some? && Run(s, more).value.worker == Busy(1, Playing)
            && History(s, more, m) == History(s, actions, m) + (if m == 1 then [entry] else [])
  {
    hide Run, History, InsertEvent, NextSeq;
    OneStep(s, actions, ByWorker(ReadNumber(true)), m);
    OneStep(s, actions + [ByWorker(ReadNumber(true))], ByWorker(Write(entry, true)), m);
  }

  /** Whatever a match is to write, some run writes exactly that to it, and nothing to any other match. */
  lemma {:induction false} EveryHistoryHappens(cap: nat, event: Event, entries: seq<Entry>, m: int)
    requires cap >= 1
    ensures var actions := Enqueuing(1, event) + [Take] + Working(entries);
            && Run(Init(cap), actions).Some? && Run(Init(cap), actions).value.worker == Busy(1, Playing)
            && History(Init(cap), actions, m) == if m == 1 then [Entry(None, event)] + entries else []
  {
    hide Run, History, Enqueuing;
    var start := Enqueuing(1, event) + [Take];
    if entries == [] {
      EnqueuingWrites(cap, event, m);
      assert start + Working(entries) == start;
    } else {
      var init, last := entries[..|entries| - 1], entries[|entries| - 1];
      EveryHistoryHappens(cap, event, init, m);
      WritingOne(Init(cap), start + Working(init), last, m);
      assert start + Working(entries) ==
             start + Working(init) + [ByWorker(ReadNumber(true))] + [ByWorker(Write(last, true))];
    }
  }
}
