/** Background evaluation jobs under a semaphore.

    A job's coroutine runs from one suspension point to the next without interruption, and those
    stretches may be interleaved freely with the stretches of all other jobs. One event is one
    stretch; a run is any sequence of enabled events. */
module Jobs {
  import opened Basics

  datatype EvalResult = EvalResult(content: string)

  /** Where a job's coroutine is suspended. */
  datatype Stage =
    | Waiting           // for the semaphore
    | Running           // inside the evaluation
    | SavingStatus      // result held in memory, COMPLETED being persisted
    | SavingResult      // COMPLETED persisted, the result being persisted
    | SavingFailure     // error held in memory, FAILED being persisted
    | Finished(persisted: bool)  // whether the last write to the store succeeded
    | CancelledWaiting
    | CancelledHolding

  datatype Stored = StoredProcessing | StoredCompleted | StoredFailed

  datatype Manager = Manager(permits: int, active: set<string>, results: map<string, EvalResult>, errors: map<string, string>,
                             stages: map<string, Stage>, store: map<string, Stored>)

  datatype Event =
    | Start(id: string)
    | Acquire(id: string)
    | Return(id: string, result: EvalResult)
    | Raise(id: string, error: string)
    | StatusSaved(id: string)
    | StatusSaveRaises(id: string, error: string)
    | ResultSaved(id: string)
    | ResultSaveRaises(id: string, error: string)
    | FailureSaved(id: string)
    | FailureSaveRaises(id: string)
    | Cancel(id: string)

  function Initially(maxConcurrent: nat): Manager {
    Manager(maxConcurrent, {}, map[], map[], map[], map[])
  }

  predicate HoldsPermit(stage: Stage) {
    stage.Running? || stage.SavingStatus? || stage.SavingResult? || stage.SavingFailure?
  }

  predicate At(m: Manager, id: string, stage: Stage) {
    id in m.stages && m.stages[id] == stage
  }

  predicate Enabled(m: Manager, e: Event) {
    match e
    case Start(id) => id !in m.stages
    case Acquire(id) => At(m, id, Waiting) && m.permits > 0
    case Return(id, _) => At(m, id, Running)
    case Raise(id, _) => At(m, id, Running)
    case StatusSaved(id) => At(m, id, SavingStatus)
    case StatusSaveRaises(id, _) => At(m, id, SavingStatus)
    case ResultSaved(id) => At(m, id, SavingResult)
    case ResultSaveRaises(id, _) => At(m, id, SavingResult)
    case FailureSaved(id) => At(m, id, SavingFailure)
    case FailureSaveRaises(id) => At(m, id, SavingFailure)
    case Cancel(id) => id in m.stages && (m.stages[id].Waiting? || HoldsPermit(m.stages[id]))
  }

  /** The coroutine ends inside the semaphore: it leaves the active jobs and releases its permit. */
  function Ended(m: Manager, id: string, stage: Stage): Manager {
    m.(permits := m.permits + 1, active := m.active - {id}, stages := m.stages[id := stage])
  }

  function Next(m: Manager, e: Event): Manager
    requires Enabled(m, e)
  {
    match e
    case Start(id) => m.(active := m.active + {id}, stages := m.stages[id := Waiting], store := m.store[id := StoredProcessing])
    case Acquire(id) => m.(permits := m.permits - 1, stages := m.stages[id := Running])
    case Return(id, result) => m.(results := m.results[id := result], stages := m.stages[id := SavingStatus])
    case Raise(id, error) => m.(errors := m.errors[id := error], stages := m.stages[id := SavingFailure])
    case StatusSaved(id) => m.(store := m.store[id := StoredCompleted], stages := m.stages[id := SavingResult])
    case StatusSaveRaises(id, error) => m.(errors := m.errors[id := error], stages := m.stages[id := SavingFailure])
    case ResultSaved(id) => Ended(m, id, Finished(true))
    case ResultSaveRaises(id, error) => m.(errors := m.errors[id := error], stages := m.stages[id := SavingFailure])
    case FailureSaved(id) => Ended(m, id, Finished(true)).(store := m.store[id := StoredFailed])
    case FailureSaveRaises(id) => Ended(m, id, Finished(false))
    case Cancel(id) =>
      // A job cancelled in the queue never reaches the clean-up that would deactivate it.
      if m.stages[id].Waiting? then m.(stages := m.stages[id := CancelledWaiting]) else Ended(m, id, CancelledHolding)
  }

  datatype Report = Completed(result: EvalResult) | Failed(error: string) | Processing

  /** What a poll answers from memory; None means that the poll has to consult the persistent store. */
  function StatusOf(m: Manager, id: string): Option<Report> {
    if id in m.results then Some(Completed(m.results[id]))
    else if id in m.errors then Some(Failed(m.errors[id]))
    else if id in m.active then Some(Processing)
    else None
  }

  /** The manager itself. Each method is the stretch of code between two suspension points. */
  class JobManager {
    var permits: int
    var activeTasks: set<string>
    var results: map<string, EvalResult>
    var errors: map<string, string>
    ghost var stages: map<string, Stage>
    ghost var store: map<string, Stored>

    ghost function View(): Manager
      reads this
    {
      Manager(permits, activeTasks, results, errors, stages, store)
    }

    constructor (maxConcurrent: nat)
      ensures View() == Initially(maxConcurrent)
    {
      permits, activeTasks, results, errors, stages, store := maxConcurrent, {}, map[], map[], map[], map[];
    }

    /** After the initial status has been persisted: the task is created and becomes active. */
    method StartJob(id: string)
      requires Enabled(View(), Start(id))
      modifies this
      ensures View() == Next(old(View()), Start(id))
    {
      activeTasks := activeTasks + {id};
      stages, store := stages[id := Waiting], store[id := StoredProcessing];
    }

    method EnterSemaphore(id: string)
      requires Enabled(View(), Acquire(id))
      modifies this
      ensures View() == Next(old(View()), Acquire(id))
    {
      permits := permits - 1;
      stages := stages[id := Running];
    }

    method KeepResult(id: string, result: EvalResult)
      requires Enabled(View(), Return(id, result))
      modifies this
      ensures View() == Next(old(View()), Return(id, result))
    {
      results := results[id := result];
      stages := stages[id := SavingStatus];
    }

    /** The exception handler, entered from the evaluation or from either of the two writes. */
    method KeepError(id: string, error: string, ghost e: Event)
      requires e in {Raise(id, error), StatusSaveRaises(id, error), ResultSaveRaises(id, error)} && Enabled(View(), e)
      modifies this
      ensures View() == Next(old(View()), e)
    {
      errors := errors[id := error];
      stages := stages[id := SavingFailure];
    }

    /** The clean-up that ends a job inside the semaphore. */
    method LeaveSemaphore(id: string, ghost e: Event)
      requires e in {ResultSaved(id), FailureSaved(id), FailureSaveRaises(id), Cancel(id)} && Enabled(View(), e)
      requires e.Cancel? ==> HoldsPermit(stages[id])
      modifies this
      ensures View() == Next(old(View()), e)
    {
      activeTasks := activeTasks - {id};
      permits := permits + 1;
      stages := stages[id := if e.Cancel? then CancelledHolding else Finished(!e.FailureSaveRaises?)];
      if e.FailureSaved? { store := store[id := StoredFailed]; }
    }

    method GetStatus(id: string) returns (report: Option<Report>)
      ensures report == StatusOf(View(), id)
    {
      if id in results { return Some(Completed(results[id])); }
      if id in errors { return Some(Failed(errors[id])); }
      if id in activeTasks { return Some(Processing); }
      return None;
    }
  }

  // ----- Every reachable state -----

  ghost predicate IsRun(m: Manager, events: seq<Event>)
    decreases |events|
  {
    events == [] || (Enabled(m, events[0]) && IsRun(Next(m, events[0]), events[1..]))
  }

  ghost function After(m: Manager, events: seq<Event>): Manager
    requires IsRun(m, events)
    decreases |events|
  {
    if events == [] then m else After(Next(m, events[0]), events[1..])
  }

  function Holders(m: Manager): set<string> {
    set id | id in m.stages && HoldsPermit(m.stages[id])
  }

  /** How a job's stage shows in memory. */
  ghost predicate Consistent(m: Manager, id: string) {
    if id !in m.stages then id !in m.active && id !in m.results && id !in m.errors
    else match m.stages[id]
      case Waiting => id in m.active && id !in m.results && id !in m.errors
      case Running => id in m.active && id !in m.results && id !in m.errors
      case SavingStatus => id in m.active && id in m.results && id !in m.errors
      case SavingResult => id in m.active && id in m.results && id !in m.errors && id in m.store && m.store[id].StoredCompleted?
      case SavingFailure => id in m.active && id in m.errors
      case Finished(persisted) =>
        && id !in m.active && (id in m.results || id in m.errors)
        && (persisted ==> id in m.store && m.store[id] == if id in m.errors then StoredFailed else StoredCompleted)
      case CancelledWaiting => id in m.active && id !in m.results && id !in m.errors
      case CancelledHolding => id !in m.active
  }

  ghost predicate Inv(m: Manager, maxConcurrent: nat) {
    && m.permits >= 0 && m.permits + |Holders(m)| == maxConcurrent
    && forall id :: Consistent(m, id)
  }

  lemma EventKeepsConsistent(m: Manager, e: Event, id: string)
    requires Enabled(m, e) && Consistent(m, id)
    ensures Consistent(Next(m, e), id)
  {
    if id == e.id {
      match e
      case Start(_) =>
      case Acquire(_) =>
      case Return(_, _) =>
      case Raise(_, _) =>
      case StatusSaved(_) =>
      case StatusSaveRaises(_, _) =>
      case ResultSaved(_) =>
      case ResultSaveRaises(_, _) =>
      case FailureSaved(_) =>
      case FailureSaveRaises(_) =>
      case Cancel(_) =>
    }
  }

  /** A job is one of the holders or none of them. */
  lemma HoldersWithout(m: Manager, id: string)
    ensures |Holders(m)| == |Holders(m) - {id}| + if id in m.stages && HoldsPermit(m.stages[id]) then 1 else 0
  {
    var others := Holders(m) - {id};
    if id in Holders(m) {
      assert Holders(m) == others + {id};
    } else {
      assert Holders(m) == others;
    }
  }

  lemma HoldersAfterMove(m: Manager, m': Manager, id: string, stage: Stage)
    requires m'.stages == m.stages[id := stage]
    ensures |Holders(m')| == |Holders(m) - {id}| + if HoldsPermit(stage) then 1 else 0
    ensures |Holders(m)| == |Holders(m) - {id}| + if id in m.stages && HoldsPermit(m.stages[id]) then 1 else 0
  {
    HoldersWithout(m, id);
    HoldersWithout(m', id);
    assert Holders(m') - {id} == Holders(m) - {id};
  }

  /** What an event does to the permits is what it does to the moved job's claim on one. */
  lemma PermitsFollowStage(m: Manager, e: Event)
    requires Enabled(m, e)
    ensures var m' := Next(m, e);
            && e.id in m'.stages && m'.stages == m.stages[e.id := m'.stages[e.id]]
            && m'.permits + (if HoldsPermit(m'.stages[e.id]) then 1 else 0)
               == m.permits + (if e.id in m.stages && HoldsPermit(m.stages[e.id]) then 1 else 0)
            && (m.permits >= 0 ==> m'.permits >= 0)
  {}

  lemma EventKeepsPermits(m: Manager, e: Event)
    requires Enabled(m, e)
    ensures Next(m, e).permits + |Holders(Next(m, e))| == m.permits + |Holders(m)|
    ensures m.permits >= 0 ==> Next(m, e).permits >= 0
  {
    PermitsFollowStage(m, e);
    HoldersAfterMove(m, Next(m, e), e.id, Next(m, e).stages[e.id]);
  }

  lemma EventKeepsInv(m: Manager, e: Event, maxConcurrent: nat)
    requires Inv(m, maxConcurrent) && Enabled(m, e)
    ensures Inv(Next(m, e), maxConcurrent)
  {
    EventKeepsPermits(m, e);
    forall id ensures Consistent(Next(m, e), id) {
      EventKeepsConsistent(m, e, id);
    }
  }

  lemma {:induction false} RunsKeepInv(m: Manager, events: seq<Event>, maxConcurrent: nat)
    requires Inv(m, maxConcurrent) && IsRun(m, events)
    ensures Inv(After(m, events), maxConcurrent)
    decreases |events|
  {
    if events != [] {
      EventKeepsInv(m, events[0], maxConcurrent);
      RunsKeepInv(Next(m, events[0]), events[1..], maxConcurrent);
    }
  }

  lemma ReachableStatesSatisfyInv(events: seq<Event>, maxConcurrent: nat)
    requires IsRun(Initially(maxConcurrent), events)
    ensures Inv(After(Initially(maxConcurrent), events), maxConcurrent)
  {
    assert Holders(Initially(maxConcurrent)) == {};
    RunsKeepInv(Initially(maxConcurrent), events, maxConcurrent);
  }

  /** No interleaving has more than `maxConcurrent` jobs inside the semaphore. */
  lemma ConcurrencyIsBounded(events: seq<Event>, maxConcurrent: nat)
    requires IsRun(Initially(maxConcurrent), events)
    ensures |Holders(After(Initially(maxConcurrent), events))| <= maxConcurrent
  {
    ReachableStatesSatisfyInv(events, maxConcurrent);
  }

  /** A poll has to consult the store exactly for jobs that were never started here and for jobs
      cancelled inside the semaphore before they had a result or an error. */
  lemma StoreIsConsultedIff(events: seq<Event>, maxConcurrent: nat, id: string)
    requires IsRun(Initially(maxConcurrent), events)
    ensures var m := After(Initially(maxConcurrent), events);
            StatusOf(m, id).None? <==> id !in m.stages || (m.stages[id].CancelledHolding? && id !in m.results && id !in m.errors)
  {
    ReachableStatesSatisfyInv(events, maxConcurrent);
    assert Consistent(After(Initially(maxConcurrent), events), id);
  }

  lemma EventKeepsOutcome(m: Manager, e: Event, maxConcurrent: nat, id: string)
    requires Inv(m, maxConcurrent) && Enabled(m, e)
    requires StatusOf(m, id).Some? && !StatusOf(m, id).value.Processing?
    ensures StatusOf(Next(m, e), id) == StatusOf(m, id)
  {
    assert Consistent(m, id);
  }

  lemma {:induction false} OutcomesStay(m: Manager, later: seq<Event>, maxConcurrent: nat, id: string)
    requires Inv(m, maxConcurrent) && IsRun(m, later)
    requires StatusOf(m, id).Some? && !StatusOf(m, id).value.Processing?
    ensures StatusOf(After(m, later), id) == StatusOf(m, id)
    decreases |later|
  {
    if later != [] {
      EventKeepsOutcome(m, later[0], maxConcurrent, id);
      EventKeepsInv(m, later[0], maxConcurrent);
      OutcomesStay(Next(m, later[0]), later[1..], maxConcurrent, id);
    }
  }

  /** Once a poll has reported a result or an error, all later polls report the same. */
  lemma OutcomesAreFinal(events: seq<Event>, later: seq<Event>, maxConcurrent: nat, id: string)
    requires IsRun(Initially(maxConcurrent), events) && IsRun(After(Initially(maxConcurrent), events), later)
    ensures var m := After(Initially(maxConcurrent), events);
            StatusOf(m, id).Some? && !StatusOf(m, id).value.Processing? ==> StatusOf(After(m, later), id) == StatusOf(m, id)
  {
    var m := After(Initially(maxConcurrent), events);
    ReachableStatesSatisfyInv(events, maxConcurrent);
    if StatusOf(m, id).Some? && !StatusOf(m, id).value.Processing? {
      OutcomesStay(m, later, maxConcurrent, id);
    }
  }

  // ----- Jobs that were cancelled in the queue -----

  lemma {:induction false} CancelledInQueueStays(m: Manager, later: seq<Event>, maxConcurrent: nat, id: string)
    requires Inv(m, maxConcurrent) && IsRun(m, later) && At(m, id, CancelledWaiting)
    ensures At(After(m, later), id, CancelledWaiting) && StatusOf(After(m, later), id) == Some(Processing)
    decreases |later|
  {
    if later == [] {
      assert Consistent(m, id);
    } else {
      EventKeepsInv(m, later[0], maxConcurrent);
      CancelledInQueueStays(Next(m, later[0]), later[1..], maxConcurrent, id);
    }
  }

  /** A job cancelled in the queue is reported as processing for ever. */
  lemma CancelledInQueueIsProcessingForEver(events: seq<Event>, later: seq<Event>, maxConcurrent: nat, id: string)
    requires IsRun(Initially(maxConcurrent), events) && At(After(Initially(maxConcurrent), events), id, CancelledWaiting)
    requires IsRun(After(Initially(maxConcurrent), events), later)
    ensures StatusOf(After(After(Initially(maxConcurrent), events), later), id) == Some(Processing)
  {
    ReachableStatesSatisfyInv(events, maxConcurrent);
    CancelledInQueueStays(After(Initially(maxConcurrent), events), later, maxConcurrent, id);
  }

  /** The jobs reported as processing that have nothing left to run are exactly those. */
  lemma DeadButProcessingIff(events: seq<Event>, maxConcurrent: nat, id: string)
    requires IsRun(Initially(maxConcurrent), events)
    ensures var m := After(Initially(maxConcurrent), events);
            StatusOf(m, id) == Some(Processing) && Remaining(m, id) == 0 <==> At(m, id, CancelledWaiting)
  {
    ReachableStatesSatisfyInv(events, maxConcurrent);
    assert Consistent(After(Initially(maxConcurrent), events), id);
  }

  // ----- Memory and store -----

  /** Persisting the completed job's status or result failed. */
  predicate IsSaveFailure(e: Event, id: string) {
    e.id == id && (e.StatusSaveRaises? || e.ResultSaveRaises?)
  }

  ghost predicate SavingFailed(events: seq<Event>, id: string) {
    exists i :: 0 <= i < |events| && IsSaveFailure(events[i], id)
  }

  lemma EventAndBothOutcomes(m: Manager, e: Event, maxConcurrent: nat, id: string)
    requires Inv(m, maxConcurrent) && Enabled(m, e)
    ensures id in Next(m, e).results && id in Next(m, e).errors <==> (id in m.results && id in m.errors) || IsSaveFailure(e, id)
  {
    assert Consistent(m, id);
  }

  lemma {:induction false} BothOutcomesIff(m: Manager, events: seq<Event>, maxConcurrent: nat, id: string)
    requires Inv(m, maxConcurrent) && IsRun(m, events)
    ensures var m' := After(m, events);
            id in m'.results && id in m'.errors <==> (id in m.results && id in m.errors) || SavingFailed(events, id)
    decreases |events|
  {
    if events != [] {
      EventAndBothOutcomes(m, events[0], maxConcurrent, id);
      EventKeepsInv(m, events[0], maxConcurrent);
      BothOutcomesIff(Next(m, events[0]), events[1..], maxConcurrent, id);
      FailureInParts(events, id);
    }
  }

  lemma FailureInParts(events: seq<Event>, id: string)
    requires events != []
    ensures SavingFailed(events, id) <==> IsSaveFailure(events[0], id) || SavingFailed(events[1..], id)
  {
    if SavingFailed(events[1..], id) {
      var i :| 0 <= i < |events[1..]| && IsSaveFailure(events[1..][i], id);
      assert IsSaveFailure(events[i + 1], id);
    }
    if SavingFailed(events, id) {
      var i :| 0 <= i < |events| && IsSaveFailure(events[i], id);
      if i > 0 { assert IsSaveFailure(events[1..][i - 1], id); }
    }
  }

  /** For a finished job whose last write was accepted, memory and store tell the same outcome
      exactly when neither its completed status nor its result ever failed to be saved; otherwise
      memory says completed for ever, and the store says failed. */
  lemma StoreAgreesIff(events: seq<Event>, maxConcurrent: nat, id: string)
    requires IsRun(Initially(maxConcurrent), events)
    requires At(After(Initially(maxConcurrent), events), id, Finished(true))
    ensures var m := After(Initially(maxConcurrent), events);
            && id in m.store && StatusOf(m, id).Some?
            && ((StatusOf(m, id).value.Completed? <==> m.store[id].StoredCompleted?) <==> !SavingFailed(events, id))
            && (SavingFailed(events, id) ==> StatusOf(m, id).value.Completed? && m.store[id].StoredFailed?)
  {
    ReachableStatesSatisfyInv(events, maxConcurrent);
    ReachableStatesSatisfyInv([], maxConcurrent);
    BothOutcomesIff(Initially(maxConcurrent), events, maxConcurrent, id);
    assert Consistent(After(Initially(maxConcurrent), events), id);
  }

  // ----- Progress -----

  /** The stretches a job still has to run, at most. */
  function Remaining(m: Manager, id: string): nat {
    if id !in m.stages then 6
    else match m.stages[id]
      case Waiting => 5
      case Running => 4
      case SavingStatus => 3
      case SavingResult => 2
      case SavingFailure => 1
      case _ => 0
  }

  /** Every event brings the job it belongs to closer to its end and leaves the others where they are. */
  lemma EveryEventIsProgress(m: Manager, e: Event)
    requires Enabled(m, e)
    ensures Remaining(Next(m, e), e.id) < Remaining(m, e.id)
    ensures forall id :: id != e.id ==> Remaining(Next(m, e), id) == Remaining(m, id)
  {}

  /** Nobody is stuck: with at least one permit, as long as some started job has not ended, some
      job can go on without being cancelled and without a new job starting. */
  lemma SomeJobCanGoOn(m: Manager, maxConcurrent: nat, id: string) returns (e: Event)
    requires Inv(m, maxConcurrent) && maxConcurrent >= 1
    requires id in m.stages && Remaining(m, id) > 0
    ensures Enabled(m, e) && !e.Start? && !e.Cancel?
  {
    if At(m, id, Waiting) && m.permits > 0 {
      return Acquire(id);
    }
    var holder := id;
    if At(m, id, Waiting) {
      assert Holders(m) != {} by { assert |Holders(m)| >= 1; }
      holder :| holder in Holders(m);
    }
    match m.stages[holder] {
      case Running => e := Raise(holder, "");
      case SavingStatus => e := StatusSaved(holder);
      case SavingResult => e := ResultSaved(holder);
      case SavingFailure => e := FailureSaved(holder);
    }
  }

  // ----- The number of active jobs -----

  function Queued(m: Manager): set<string> {
    set id | id in m.stages && (m.stages[id].Waiting? || m.stages[id].CancelledWaiting?)
  }

  /** The reported number of running jobs also counts the jobs in the queue, cancelled ones
      included; it is the number of running jobs exactly when there are none of those. */
  lemma ActiveCountIsRunningCountIff(events: seq<Event>, maxConcurrent: nat)
    requires IsRun(Initially(maxConcurrent), events)
    ensures var m := After(Initially(maxConcurrent), events);
            && |m.active| == |Holders(m)| + |Queued(m)|
            && (|m.active| == |Holders(m)| <==> Queued(m) == {})
  {
    ReachableStatesSatisfyInv(events, maxConcurrent);
    var m := After(Initially(maxConcurrent), events);
    forall id ensures id in m.active <==> id in Holders(m) + Queued(m) {
      assert Consistent(m, id);
    }
    assert m.active == Holders(m) + Queued(m);
    assert Holders(m) !! Queued(m);
  }

  // ----- Memory, semaphore and store, by the events alone -----

  /** The job returned the reported result, or its evaluation raised the reported error. */
  function ReportingEvent(id: string, report: Report): Event
    requires !report.Processing?
  {
    if report.Completed? then Return(id, report.result) else Raise(id, report.error)
  }

  lemma OutcomeStep(m: Manager, e: Event, maxConcurrent: nat, id: string, report: Report)
    requires Inv(m, maxConcurrent) && Enabled(m, e) && !report.Processing?
    ensures StatusOf(Next(m, e), id) == Some(report) <==> StatusOf(m, id) == Some(report) || e == ReportingEvent(id, report)
  {
    assert Consistent(m, id);
  }

  lemma {:induction false} OutcomeFollows(m: Manager, events: seq<Event>, maxConcurrent: nat, id: string, report: Report)
    requires Inv(m, maxConcurrent) && IsRun(m, events) && !report.Processing?
    ensures StatusOf(After(m, events), id) == Some(report) <==> StatusOf(m, id) == Some(report) || ReportingEvent(id, report) in events
    decreases |events|
  {
    if events != [] {
      OutcomeStep(m, events[0], maxConcurrent, id, report);
      EventKeepsInv(m, events[0], maxConcurrent);
      OutcomeFollows(Next(m, events[0]), events[1..], maxConcurrent, id, report);
    }
  }

  /** A poll reports a result exactly if the job returned it, and an error exactly if its evaluation
      raised it. */
  lemma OutcomeIsWhatHappened(events: seq<Event>, maxConcurrent: nat, id: string, result: EvalResult, error: string)
    requires IsRun(Initially(maxConcurrent), events)
    ensures StatusOf(After(Initially(maxConcurrent), events), id) == Some(Completed(result)) <==> Return(id, result) in events
    ensures StatusOf(After(Initially(maxConcurrent), events), id) == Some(Failed(error)) <==> Raise(id, error) in events
  {
    ReachableStatesSatisfyInv([], maxConcurrent);
    OutcomeFollows(Initially(maxConcurrent), events, maxConcurrent, id, Completed(result));
    OutcomeFollows(Initially(maxConcurrent), events, maxConcurrent, id, Failed(error));
  }

  predicate IsOutcomeEvent(e: Event, id: string) {
    (e.Return? || e.Raise?) && e.id == id
  }

  ghost predicate HasOutcome(events: seq<Event>, id: string) {
    exists e :: e in events && IsOutcomeEvent(e, id)
  }

  /** A job that is being processed stays so until it has an outcome or is cancelled while it runs. */
  lemma {:induction false} ProcessingFollows(m: Manager, events: seq<Event>, maxConcurrent: nat, id: string)
    requires Inv(m, maxConcurrent) && IsRun(m, events) && StatusOf(m, id) == Some(Processing)
    ensures StatusOf(After(m, events), id) == Some(Processing) <==>
              && !HasOutcome(events, id)
              && !(Cancel(id) in events && (At(m, id, Running) || Acquire(id) in events))
    decreases |events|
  {
    assert Consistent(m, id);
    if events != [] {
      var e, m' := events[0], Next(m, events[0]);
      assert events == [e] + events[1..];
      EventKeepsInv(m, e, maxConcurrent);
      assert Consistent(m', id);
      if StatusOf(m', id) == Some(Processing) {
        ProcessingFollows(m', events[1..], maxConcurrent, id);
        if e == Cancel(id) { CancelledIsOver(m', events[1..], id); }
      } else {
        NoLongerProcessing(m', events[1..], maxConcurrent, id);
        assert e in events && (IsOutcomeEvent(e, id) || e == Cancel(id));
      }
    }
  }

  lemma {:induction false} CancelledIsOver(m: Manager, events: seq<Event>, id: string)
    requires IsRun(m, events) && id in m.stages && Remaining(m, id) == 0
    ensures id in After(m, events).stages && After(m, events).stages[id] == m.stages[id]
    ensures forall e :: e in events ==> e.id != id
    decreases |events|
  {
    if events != [] {
      assert events == [events[0]] + events[1..];
      CancelledIsOver(Next(m, events[0]), events[1..], id);
    }
  }

  lemma {:induction false} NoLongerProcessing(m: Manager, events: seq<Event>, maxConcurrent: nat, id: string)
    requires Inv(m, maxConcurrent) && IsRun(m, events) && id in m.stages && StatusOf(m, id) != Some(Processing)
    ensures StatusOf(After(m, events), id) != Some(Processing)
    decreases |events|
  {
    if events != [] {
      assert Consistent(m, id);
      EventKeepsInv(m, events[0], maxConcurrent);
      NoLongerProcessing(Next(m, events[0]), events[1..], maxConcurrent, id);
    }
  }

  lemma {:induction false} NotYetStarted(m: Manager, events: seq<Event>, maxConcurrent: nat, id: string)
    requires Inv(m, maxConcurrent) && IsRun(m, events) && id !in m.stages
    ensures StatusOf(After(m, events), id) == Some(Processing) <==>
              && Start(id) in events && !HasOutcome(events, id) && !(Cancel(id) in events && Acquire(id) in events)
    decreases |events|
  {
    assert Consistent(m, id);
    if events != [] {
      var e, m' := events[0], Next(m, events[0]);
      assert events == [e] + events[1..];
      EventKeepsInv(m, e, maxConcurrent);
      if e == Start(id) {
        ProcessingFollows(m', events[1..], maxConcurrent, id);
      } else {
        NotYetStarted(m', events[1..], maxConcurrent, id);
      }
    }
  }

  /** A poll reports a job as processing exactly if it was started, has neither returned nor raised,
      and was not cancelled inside the semaphore. */
  lemma ProcessingIsWhatIsLeft(events: seq<Event>, maxConcurrent: nat, id: string)
    requires IsRun(Initially(maxConcurrent), events)
    ensures StatusOf(After(Initially(maxConcurrent), events), id) == Some(Processing) <==>
              && Start(id) in events
              && (forall e :: e in events && e.id == id ==> !e.Return? && !e.Raise?)
              && !(Cancel(id) in events && Acquire(id) in events)
  {
    ReachableStatesSatisfyInv([], maxConcurrent);
    NotYetStarted(Initially(maxConcurrent), events, maxConcurrent, id);
  }

  /** The event ends the job's stay inside the semaphore. */
  predicate IsLeaving(e: Event, id: string) {
    e.id == id && (e.ResultSaved? || e.FailureSaved? || e.FailureSaveRaises? || e.Cancel?)
  }

  ghost predicate HasLeft(events: seq<Event>, id: string) {
    exists e :: e in events && IsLeaving(e, id)
  }

  lemma HoldingStep(m: Manager, e: Event, id: string)
    requires Enabled(m, e)
    ensures if IsLeaving(e, id) then id in Next(m, e).stages && Remaining(Next(m, e), id) == 0
            else id in Holders(Next(m, e)) <==> id in Holders(m) || e == Acquire(id)
  {}

  lemma {:induction false} HoldingFollows(m: Manager, events: seq<Event>, id: string)
    requires IsRun(m, events)
    ensures id in Holders(After(m, events)) <==> (id in Holders(m) || Acquire(id) in events) && !HasLeft(events, id)
    decreases |events|
  {
    if events != [] {
      var e, m' := events[0], Next(m, events[0]);
      assert events == [e] + events[1..];
      LeftInParts(events, id);
      HoldingStep(m, e, id);
      if IsLeaving(e, id) {
        CancelledIsOver(m', events[1..], id);
        assert id !in Holders(After(m', events[1..]));
      } else {
        HoldingFollows(m', events[1..], id);
      }
    }
  }

  lemma LeftInParts(events: seq<Event>, id: string)
    requires events != []
    ensures HasLeft(events, id) <==> IsLeaving(events[0], id) || HasLeft(events[1..], id)
  {
    assert events == [events[0]] + events[1..];
  }

  /** The jobs that have acquired a permit and not ended since. */
  ghost function RunningBy(events: seq<Event>): set<string> {
    set e | e in events && e.Acquire? && !HasLeft(events, e.id) :: e.id
  }

  /** At most `maxConcurrent` jobs have acquired a permit and not ended, and a started job that has not
      acquired one nor been cancelled can do so exactly while there are fewer. */
  lemma SemaphoreExactly(events: seq<Event>, maxConcurrent: nat, id: string)
    requires IsRun(Initially(maxConcurrent), events)
    ensures |RunningBy(events)| <= maxConcurrent
    ensures var m := After(Initially(maxConcurrent), events);
            Enabled(m, Acquire(id)) <==> At(m, id, Waiting) && |RunningBy(events)| < maxConcurrent
    ensures At(After(Initially(maxConcurrent), events), id, Waiting) <==>
              Start(id) in events && Acquire(id) !in events && Cancel(id) !in events
  {
    var m := After(Initially(maxConcurrent), events);
    ReachableStatesSatisfyInv(events, maxConcurrent);
    forall j ensures j in RunningBy(events) <==> j in Holders(m) {
      HoldingFollows(Initially(maxConcurrent), events, j);
      assert Holders(Initially(maxConcurrent)) == {};
      if j in Holders(m) { assert Acquire(j) in events; }
    }
    assert RunningBy(events) == Holders(m);
    WaitingFollows(Initially(maxConcurrent), events, id);
  }

  lemma WaitingStep(m: Manager, e: Event, id: string)
    requires Enabled(m, e)
    ensures At(Next(m, e), id, Waiting) <==> (At(m, id, Waiting) || e == Start(id)) && e != Acquire(id) && e != Cancel(id)
    ensures e.id == id ==> id in Next(m, e).stages
  {}

  lemma {:induction false} WaitingFollows(m: Manager, events: seq<Event>, id: string)
    requires IsRun(m, events)
    ensures At(After(m, events), id, Waiting) <==>
              (At(m, id, Waiting) || Start(id) in events) && Acquire(id) !in events && Cancel(id) !in events
    decreases |events|
  {
    if events != [] {
      var e, m' := events[0], Next(m, events[0]);
      assert events == [e] + events[1..];
      WaitingFollows(m', events[1..], id);
      WaitingStep(m, e, id);
      if e.id == id && !e.Start? { StartedOnce(m', events[1..], id); }
    }
  }

  lemma {:induction false} StartedOnce(m: Manager, events: seq<Event>, id: string)
    requires IsRun(m, events) && id in m.stages
    ensures Start(id) !in events
    decreases |events|
  {
    if events != [] {
      assert events == [events[0]] + events[1..];
      StartedOnce(Next(m, events[0]), events[1..], id);
    }
  }

  function StoredAt(m: Manager, id: string): Option<Stored> {
    if id in m.store then Some(m.store[id]) else None
  }

  /** What the store says of a job after some events, if it said `before` of it at first. */
  ghost function StoredBy(events: seq<Event>, id: string, before: Option<Stored>): Option<Stored> {
    if FailureSaved(id) in events then Some(StoredFailed)
    else if StatusSaved(id) in events then Some(StoredCompleted)
    else if Start(id) in events then Some(StoredProcessing)
    else before
  }

  lemma StoreStep(m: Manager, e: Event, id: string)
    requires Enabled(m, e)
    ensures StoredAt(Next(m, e), id) == StoredBy([e], id, StoredAt(m, id))
    ensures e == FailureSaved(id) ==> id in Next(m, e).stages && Remaining(Next(m, e), id) == 0
    ensures e == StatusSaved(id) ==> id in Next(m, e).stages
  {}

  lemma {:induction false} StoreFollows(m: Manager, events: seq<Event>, id: string)
    requires IsRun(m, events)
    ensures StoredAt(After(m, events), id) == StoredBy(events, id, StoredAt(m, id))
    decreases |events|
  {
    if events != [] {
      var e, m' := events[0], Next(m, events[0]);
      assert events == [e] + events[1..];
      StoreStep(m, e, id);
      StoreFollows(m', events[1..], id);
      if e == FailureSaved(id) {
        CancelledIsOver(m', events[1..], id);
      } else if e == StatusSaved(id) {
        StartedOnce(m', events[1..], id);
      }
    }
  }

  /** The store says failed once a failure was saved, otherwise completed once that status was saved,
      and otherwise processing once the job was started. */
  lemma StoreIsWhatWasSaved(events: seq<Event>, maxConcurrent: nat, id: string)
    requires IsRun(Initially(maxConcurrent), events)
    ensures StoredAt(After(Initially(maxConcurrent), events), id) == StoredBy(events, id, None)
  {
    StoreFollows(Initially(maxConcurrent), events, id);
  }
}
