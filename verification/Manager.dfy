/**
  The controller's in-memory workloads and active executions behind one mutex
  (crates/controller/src/manager.rs). Every operation is a sequence of sections under the lock;
  what happens between two sections of one operation is any number of sections of others.
*/
module Managers {
  import opened Base

  datatype CommandKind = StopCommand | SessionEndingCommand

  /** `view` stands for the fields that only describe the execution to clients. */
  datatype ActiveExecution = ActiveExecution(
    executionId: nat, state: string, locallyOwned: bool, restartAfter: bool, cancelled: bool,
    sent: seq<CommandKind>, view: nat)

  datatype WorkloadRecord = WorkloadRecord(kind: string, definition: Option<nat>, enabled: bool, lastOutcome: string)

  datatype ManagerError =
    | SessionEnding
    | NotFound(id: string)
    | WrongKind(id: string, expected: string, actual: string)
    | DefinitionMissing(id: string)
    | AlreadyActive(id: string)
    | NotPrepared
    | StorageFailed

  type Workloads = map<string, WorkloadRecord>
  type Active = map<string, ActiveExecution>

  datatype State = State(workloads: Workloads, active: Active, revision: u64, sessionEnding: bool)

  /** What the storage transaction of a start answered. */
  datatype Insertion = Inserted | NotClaimed | InsertFailed

  datatype StartRequest = StartRequest(
    id: string, kind: string, exclusive: bool, executionId: nat, prepared: bool, insertion: Insertion)

  /** Saturating increment. */
  function Bump(revision: u64): u64 {
    if revision == U64_MAX then revision else revision + 1
  }

  function Launching(executionId: nat): ActiveExecution {
    ActiveExecution(executionId, "starting", true, false, false, [], 0)
  }

  function StartResult(s: State, r: StartRequest): Result<bool, ManagerError> {
    if s.sessionEnding then Err(SessionEnding)
    else if r.id !in s.workloads then Err(NotFound(r.id))
    else if s.workloads[r.id].kind != r.kind then Err(WrongKind(r.id, r.kind, s.workloads[r.id].kind))
    else if s.workloads[r.id].definition.None? then Err(DefinitionMissing(r.id))
    else if r.id in s.active then (if r.exclusive then Err(AlreadyActive(r.id)) else Ok(false))
    else if !r.prepared then Err(NotPrepared)
    else match r.insertion {
      case Inserted => Ok(true)
      case NotClaimed => Ok(false)
      case InsertFailed => Err(StorageFailed)
    }
  }

  function AfterStart(s: State, r: StartRequest): State {
    if StartResult(s, r) == Ok(true)
    then s.(active := s.active[r.id := Launching(r.executionId)], revision := Bump(s.revision))
    else s
  }

  function CancelResult(s: State, id: string, kind: string): Result<bool, ManagerError> {
    if id !in s.workloads then Err(NotFound(id))
    else if s.workloads[id].kind != kind then Err(WrongKind(id, kind, s.workloads[id].kind))
    else Ok(id in s.active)
  }

  function Cancelled(a: ActiveExecution, restartAfter: bool): ActiveExecution {
    a.(restartAfter := a.restartAfter || restartAfter, state := "stopping", cancelled := true,
        sent := a.sent + [StopCommand])
  }

  function AfterCancel(s: State, id: string, kind: string, restartAfter: bool): State {
    if CancelResult(s, id, kind) == Ok(true)
    then s.(active := s.active[id := Cancelled(s.active[id], restartAfter)], revision := Bump(s.revision))
    else s
  }

  function Ending(a: ActiveExecution): ActiveExecution {
    a.(restartAfter := false, state := "stopping", cancelled := true, sent := a.sent + [SessionEndingCommand])
  }

  function AllEnding(active: Active): Active {
    map id | id in active :: Ending(active[id])
  }

  function AfterEndSession(s: State): State {
    if s.sessionEnding then s
    else s.(sessionEnding := true, active := AllEnding(s.active), revision := Bump(s.revision))
  }

  /** The execution is the one its workload's entry is about. */
  predicate IsActive(s: State, id: string, executionId: nat) {
    id in s.active && s.active[id].executionId == executionId
  }

  /** The end of the execution calls for a replacement. */
  predicate WantsReplacement(s: State, id: string, executionId: nat) {
    IsActive(s, id, executionId) && s.active[id].restartAfter && !s.sessionEnding
  }

  function WithLastOutcome(workloads: Workloads, id: string, outcome: string): Workloads {
    if id in workloads then workloads[id := workloads[id].(lastOutcome := outcome)] else workloads
  }

  /** The entry leaves, and its workload remembers the outcome. */
  function Removed(s: State, id: string, outcome: string): State {
    s.(active := s.active - {id}, workloads := WithLastOutcome(s.workloads, id, outcome), revision := Bump(s.revision))
  }

  /** The supervisor this controller launched is done: the outcome is recorded even if the entry is gone already. */
  function AfterCompletion(s: State, id: string, executionId: nat, outcome: string): State {
    if IsActive(s, id, executionId) then Removed(s, id, outcome)
    else s.(workloads := WithLastOutcome(s.workloads, id, outcome), revision := Bump(s.revision))
  }

  /** A committed terminal observation. */
  function AfterTerminalObservation(s: State, id: string, executionId: nat, outcome: string): State {
    if IsActive(s, id, executionId) then Removed(s, id, outcome) else s
  }

  const OUTCOMES: set<string> := {"completed", "failed", "stopped", "cancelled", "outcome-unknown"}

  datatype SupervisorResult = SupervisorResult(
    outcome: string, exitCode: Option<u32>, kind: string, successExitCodes: set<u32>)

  function OutcomeName(stopping: bool, r: SupervisorResult): string {
    if stopping then (if r.kind == "job" then "cancelled" else "stopped")
    else if r.outcome in OUTCOMES then r.outcome
    else if r.exitCode.Some? && r.exitCode.value in r.successExitCodes then "completed"
    else "failed"
  }

  /** A result file found by the monitor of an adopted execution. */
  function AfterSupervisorTerminal(s: State, id: string, executionId: nat, r: SupervisorResult): State {
    if IsActive(s, id, executionId) && !s.active[id].locallyOwned
    then Removed(s, id, OutcomeName(s.active[id].state == "stopping", r))
    else s
  }

  /** How `start_replacement` starts: a job exclusively, a service not. */
  function Replacement(s: State, id: string, executionId: nat, prepared: bool,
                       insertion: Insertion): Option<StartRequest> {
    if id in s.workloads && s.workloads[id].kind in {"service", "job"}
    then Some(StartRequest(id, s.workloads[id].kind, s.workloads[id].kind == "job", executionId, prepared, insertion))
    else None
  }

  class Manager {
    var workloads: Workloads
    var active: Active
    var revision: u64
    var sessionEnding: bool

    function Snapshot(): State
      reads this
    {
      State(workloads, active, revision, sessionEnding)
    }

    constructor (workloads: Workloads, active: Active)
      ensures Snapshot() == State(workloads, active, 0, false)
    {
      this.workloads, this.active, revision, sessionEnding := workloads, active, 0, false;
    }

    method Start(r: StartRequest) returns (started: Result<bool, ManagerError>)
      modifies this
      ensures started == StartResult(old(Snapshot()), r)
      ensures Snapshot() == AfterStart(old(Snapshot()), r)
    {
      if sessionEnding {
        return Err(SessionEnding);
      }
      if r.id !in workloads {
        return Err(NotFound(r.id));
      }
      var record := workloads[r.id];
      if record.kind != r.kind {
        return Err(WrongKind(r.id, r.kind, record.kind));
      }
      if record.definition.None? {
        return Err(DefinitionMissing(r.id));
      }
      if r.id in active {
        if r.exclusive {
          return Err(AlreadyActive(r.id));
        }
        return Ok(false);
      }
      if !r.prepared {
        return Err(NotPrepared);
      }
      active := active[r.id := Launching(r.executionId)];
      match r.insertion {
        case InsertFailed =>
          active := active - {r.id};
          return Err(StorageFailed);
        case NotClaimed =>
          active := active - {r.id};
          return Ok(false);
        case Inserted =>
          revision := Bump(revision);
          return Ok(true);
      }
    }

    method Cancel(id: string, kind: string, restartAfter: bool) returns (cancelled: Result<bool, ManagerError>)
      modifies this
      ensures cancelled == CancelResult(old(Snapshot()), id, kind)
      ensures Snapshot() == AfterCancel(old(Snapshot()), id, kind, restartAfter)
    {
      if id !in workloads {
        return Err(NotFound(id));
      }
      if workloads[id].kind != kind {
        return Err(WrongKind(id, kind, workloads[id].kind));
      }
      if id !in active {
        return Ok(false);
      }
      var a := active[id];
      a := a.(restartAfter := a.restartAfter || restartAfter);
      a := a.(state := "stopping");
      a := a.(cancelled := true);
      a := a.(sent := a.sent + [StopCommand]);
      active := active[id := a];
      revision := Bump(revision);
      return Ok(true);
    }

    method EndSession()
      modifies this
      ensures Snapshot() == AfterEndSession(old(Snapshot()))
    {
      if sessionEnding {
        return;
      }
      sessionEnding := true;
      var ids := active.Keys;
      while ids != {}
        invariant ids <= active.Keys == old(active).Keys
        invariant forall id :: id in active ==>
                    active[id] == if id in ids then old(active)[id] else Ending(old(active)[id])
        invariant workloads == old(workloads) && revision == old(revision) && sessionEnding
      {
        var id :| id in ids;
        var a := active[id].(restartAfter := false);
        a := a.(state := "stopping");
        a := a.(cancelled := true);
        a := a.(sent := a.sent + [SessionEndingCommand]);
        active := active[id := a];
        ids := ids - {id};
      }
      assert active == AllEnding(old(active));
      revision := Bump(revision);
    }

    /** The last section of `complete_execution`; the caller starts a replacement when told to. */
    method CompleteExecution(id: string, executionId: nat, outcome: string) returns (restart: bool)
      modifies this
      ensures restart == WantsReplacement(old(Snapshot()), id, executionId)
      ensures Snapshot() == AfterCompletion(old(Snapshot()), id, executionId, outcome)
    {
      restart := !sessionEnding && id in active && active[id].executionId == executionId && active[id].restartAfter;
      if id in active && active[id].executionId == executionId {
        active := active - {id};
      }
      if id in workloads {
        workloads := workloads[id := workloads[id].(lastOutcome := outcome)];
      }
      revision := Bump(revision);
    }

    /** The section of `record_supervisor_observation` that follows a committed terminal observation. */
    method RecordTerminal(id: string, executionId: nat, outcome: string) returns (restart: bool)
      modifies this
      ensures restart == WantsReplacement(old(Snapshot()), id, executionId)
      ensures Snapshot() == AfterTerminalObservation(old(Snapshot()), id, executionId, outcome)
    {
      restart := false;
      if id in active && active[id].executionId == executionId {
        restart := !sessionEnding && active[id].restartAfter;
        active := active - {id};
        if id in workloads {
          workloads := workloads[id := workloads[id].(lastOutcome := outcome)];
        }
        revision := Bump(revision);
      }
    }

    method SupervisorTerminal(id: string, executionId: nat, r: SupervisorResult) returns (restart: bool)
      modifies this
      ensures restart == (WantsReplacement(old(Snapshot()), id, executionId) && !old(active)[id].locallyOwned)
      ensures Snapshot() == AfterSupervisorTerminal(old(Snapshot()), id, executionId, r)
    {
      if id !in active {
        return false;
      }
      var a := active[id];
      if a.executionId != executionId || a.locallyOwned {
        return false;
      }
      restart := !sessionEnding && a.restartAfter;
      active := active - {id};
      if id in workloads {
        workloads := workloads[id := workloads[id].(lastOutcome := OutcomeName(a.state == "stopping", r))];
      }
      revision := Bump(revision);
    }

    method StartReplacement(id: string, executionId: nat, prepared: bool, insertion: Insertion)
      modifies this
      ensures var request := Replacement(old(Snapshot()), id, executionId, prepared, insertion);
              Snapshot() == if request.Some? then AfterStart(old(Snapshot()), request.value) else old(Snapshot())
    {
      if id !in workloads {
        return;
      }
      var kind := workloads[id].kind;
      if kind == "service" {
        var _ := Start(StartRequest(id, kind, false, executionId, prepared, insertion));
      } else if kind == "job" {
        var _ := Start(StartRequest(id, kind, true, executionId, prepared, insertion));
      }
    }
  }

  // ---- Any interleaving of sections ----

  datatype Step =
    | StartStep(request: StartRequest)
    | CancelStep(id: string, kind: string, restartAfter: bool)
    | EndSessionStep
    | CompletionStep(id: string, executionId: nat, outcome: string)
    | TerminalObservationStep(id: string, executionId: nat, outcome: string)
    | SupervisorTerminalStep(id: string, executionId: nat, result: SupervisorResult)
    | ViewStep(id: string, newState: string, newLocallyOwned: bool, newView: nat)
    | ReloadStep(workloads: Workloads)

  /**
    The manager's state with its history: the executions that entered `active`, those that left
    it and those whose end called for a replacement, in order, and those a restart was asked for
    while they were active.
  */
  datatype System = System(state: State, entered: set<nat>, left: seq<nat>, replaced: seq<nat>, asked: set<nat>)

  function After(s: State, step: Step): State {
    match step
    case StartStep(r) => AfterStart(s, r)
    case CancelStep(id, kind, restartAfter) => AfterCancel(s, id, kind, restartAfter)
    case EndSessionStep => AfterEndSession(s)
    case CompletionStep(id, e, outcome) => AfterCompletion(s, id, e, outcome)
    case TerminalObservationStep(id, e, outcome) => AfterTerminalObservation(s, id, e, outcome)
    case SupervisorTerminalStep(id, e, r) => AfterSupervisorTerminal(s, id, e, r)
    case ViewStep(id, state, owned, view) =>
      if id in s.active
      then s.(active := s.active[id := s.active[id].(state := state, locallyOwned := owned, view := view)],
              revision := Bump(s.revision))
      else s
    case ReloadStep(workloads) => s.(workloads := workloads, revision := Bump(s.revision))
  }

  /** The execution a step takes out of `active`. */
  function Leaves(s: State, step: Step): Option<nat> {
    if (step.CompletionStep? || step.TerminalObservationStep? || step.SupervisorTerminalStep?)
       && IsActive(s, step.id, step.executionId)
       && (step.SupervisorTerminalStep? ==> !s.active[step.id].locallyOwned)
    then Some(step.executionId) else None
  }

  /** Execution numbers are never reused. */
  predicate Possible(y: System, step: Step) {
    step.StartStep? ==> step.request.executionId !in y.entered
  }

  function Next(y: System, step: Step): System {
    if !Possible(y, step) then y
    else
      var leaving := Leaves(y.state, step);
      System(After(y.state, step),
             if step.StartStep? && StartResult(y.state, step.request) == Ok(true)
             then y.entered + {step.request.executionId} else y.entered,
             if leaving.Some? then y.left + [leaving.value] else y.left,
             if leaving.Some? && WantsReplacement(y.state, step.id, step.executionId)
             then y.replaced + [leaving.value] else y.replaced,
             if step.CancelStep? && step.restartAfter && CancelResult(y.state, step.id, step.kind) == Ok(true)
             then y.asked + {y.state.active[step.id].executionId} else y.asked)
  }

  function Run(y: System, steps: seq<Step>): System {
    if steps == [] then y else Next(Run(y, steps[..|steps| - 1]), steps[|steps| - 1])
  }

  function IdsOf(active: Active): set<nat> {
    set id | id in active :: active[id].executionId
  }

  predicate Distinct(active: Active) {
    forall a, b :: a in active && b in active && a != b ==> active[a].executionId != active[b].executionId
  }

  /** A manager opens with the executions it recovered, each of them without a pending replacement. */
  predicate Opens(active: Active) {
    Distinct(active) && forall id :: id in active ==> !active[id].restartAfter
  }

  function Init(workloads: Workloads, active: Active): System {
    System(State(workloads, active, 0, false), IdsOf(active), [], [], {})
  }

  // ---- Invariant ----

  predicate NoRepeats(s: seq<nat>) {
    forall i, j :: 0 <= i < j < |s| ==> s[i] != s[j]
  }

  /** Who is active, who has left and who was ever in. */
  predicate Census(active: Active, entered: set<nat>, left: seq<nat>) {
    && Distinct(active)
    && NoRepeats(left)
    && (forall e :: e in left ==> e in entered && e !in IdsOf(active))
    && (forall e :: e in entered ==> e in left || e in IdsOf(active))
    && IdsOf(active) <= entered
  }

  /** Who was asked to be replaced, and who was. */
  predicate Reckoning(active: Active, ending: bool, left: seq<nat>, replaced: seq<nat>, asked: set<nat>,
                      entered: set<nat>) {
    && NoRepeats(replaced)
    && asked <= entered
    && (forall e :: e in replaced ==> e in left && e in asked)
    && (!ending ==> forall e :: e in left && e in asked ==> e in replaced)
    && (!ending ==> forall id :: id in active ==> (active[id].restartAfter <==> active[id].executionId in asked))
  }

  predicate Inv(y: System) {
    match y
    case System(state, entered, left, replaced, asked) =>
      && Census(state.active, entered, left)
      && Reckoning(state.active, state.sessionEnding, left, replaced, asked, entered)
  }

  lemma InList(active: Active, id: string)
    requires id in active
    ensures active[id].executionId in IdsOf(active)
  {
  }

  lemma StartKeeps(y: System, step: Step)
    requires Inv(y) && step.StartStep?
    ensures Inv(Next(y, step))
  {
    var r := step.request;
    var after := Next(y, step);
    if after != y {
      assert after.state.active == y.state.active[r.id := Launching(r.executionId)];
      assert IdsOf(after.state.active) == IdsOf(y.state.active) + {r.executionId} by {
        assert r.id in after.state.active;
        forall id | id in y.state.active
          ensures id in after.state.active && after.state.active[id] == y.state.active[id]
        {
        }
      }
    }
  }

  /** An entry changes, but stays the entry of its execution. */
  lemma UpdateKeepsIds(active: Active, id: string, a: ActiveExecution)
    requires id in active && a.executionId == active[id].executionId
    ensures IdsOf(active[id := a]) == IdsOf(active)
    ensures Distinct(active) ==> Distinct(active[id := a])
  {
    var after := active[id := a];
    forall e | e in IdsOf(active) ensures e in IdsOf(after) {
      var k :| k in active && active[k].executionId == e;
      assert k in after && after[k].executionId == e;
    }
  }

  lemma RemovalKeepsIds(active: Active, id: string)
    requires id in active && Distinct(active)
    ensures IdsOf(active - {id}) == IdsOf(active) - {active[id].executionId}
    ensures Distinct(active - {id})
  {
    var after := active - {id};
    forall e | e in IdsOf(active) && e != active[id].executionId ensures e in IdsOf(after) {
      var k :| k in active && active[k].executionId == e;
      assert k in after && after[k].executionId == e;
    }
  }

  lemma CancelKeeps(y: System, step: Step)
    requires Inv(y) && step.CancelStep?
    ensures Inv(Next(y, step))
  {
    if CancelResult(y.state, step.id, step.kind) == Ok(true) {
      UpdateKeepsIds(y.state.active, step.id, Cancelled(y.state.active[step.id], step.restartAfter));
      InList(y.state.active, step.id);
    }
  }

  lemma ViewKeeps(y: System, step: Step)
    requires Inv(y) && (step.ViewStep? || step.ReloadStep?)
    ensures Inv(Next(y, step))
  {
    if step.ViewStep? && step.id in y.state.active {
      UpdateKeepsIds(y.state.active, step.id, Next(y, step).state.active[step.id]);
    }
  }

  lemma EndingKeepsIds(active: Active)
    ensures IdsOf(AllEnding(active)) == IdsOf(active)
  {
    forall e | e in IdsOf(active) ensures e in IdsOf(AllEnding(active)) {
      var k :| k in active && active[k].executionId == e;
      assert k in AllEnding(active) && AllEnding(active)[k].executionId == e;
    }
  }

  lemma EndSessionKeeps(y: System)
    requires Inv(y)
    ensures Inv(Next(y, EndSessionStep))
  {
    EndingKeepsIds(y.state.active);
  }

  lemma LeavingKeeps(y: System, step: Step)
    requires Inv(y)
    requires step.CompletionStep? || step.TerminalObservationStep? || step.SupervisorTerminalStep?
    ensures Inv(Next(y, step))
  {
    if Leaves(y.state, step).Some? {
      RemovalKeepsIds(y.state.active, step.id);
      InList(y.state.active, step.id);
    }
  }

  lemma {:induction false} NextKeeps(y: System, step: Step)
    requires Inv(y)
    ensures Inv(Next(y, step))
  {
    match step {
      case StartStep(_) => StartKeeps(y, step);
      case CancelStep(_, _, _) => CancelKeeps(y, step);
      case EndSessionStep => EndSessionKeeps(y);
      case ViewStep(_, _, _, _) => ViewKeeps(y, step);
      case ReloadStep(_) => ViewKeeps(y, step);
      case _ => LeavingKeeps(y, step);
    }
  }

  lemma {:induction false} RunKeeps(y: System, steps: seq<Step>)
    requires Inv(y)
    ensures Inv(Run(y, steps))
  {
    if steps != [] {
      RunKeeps(y, steps[..|steps| - 1]);
      NextKeeps(Run(y, steps[..|steps| - 1]), steps[|steps| - 1]);
    }
  }

  // ---- Theorems ----

  /**
    Over every interleaving of sections: an execution leaves `active` at most once, and only
    after entering it; whoever entered is either active or has left; and an execution causes at
    most one replacement, only after it left and only if a restart was asked for while it was active.
    Before the session ends, every execution that left and was asked to restart is replaced.
  */
  lemma {:induction false} LeavesOnceReplacedOnce(workloads: Workloads, recovered: Active, steps: seq<Step>)
    requires Opens(recovered)
    ensures var y := Run(Init(workloads, recovered), steps);
            && NoRepeats(y.left) && NoRepeats(y.replaced)
            && (forall e :: e in y.entered <==> e in y.left || e in IdsOf(y.state.active))
            && (forall e :: e in y.left ==> e !in IdsOf(y.state.active))
            && (forall e :: e in y.replaced ==> e in y.left && e in y.asked)
            && (!y.state.sessionEnding ==> forall e :: e in y.left && e in y.asked ==> e in y.replaced)
  {
    RunKeeps(Init(workloads, recovered), steps);
  }

  /** A section about execution `e` takes away `e` and nothing else, and every other section takes nothing away. */
  lemma {:induction false} OnlyItsOwn(y: System, step: Step)
    requires Inv(y)
    ensures IdsOf(y.state.active) - IdsOf(After(y.state, step).active) ==
            if Leaves(y.state, step).Some? then {step.executionId} else {}
    ensures Leaves(y.state, step).Some? ==> After(y.state, step).active == y.state.active - {step.id}
  {
    var active, after := y.state.active, After(y.state, step).active;
    match step {
      case StartStep(r) =>
        forall id | id in active ensures id in after && after[id].executionId == active[id].executionId {
        }
      case CancelStep(id, kind, restartAfter) =>
        if id in active {
          UpdateKeepsIds(active, id, Cancelled(active[id], restartAfter));
        }
      case EndSessionStep => EndingKeepsIds(active);
      case ViewStep(id, _, _, _) =>
        if id in active {
          UpdateKeepsIds(active, id, after[id]);
        }
      case ReloadStep(_) =>
      case _ =>
        if Leaves(y.state, step).Some? {
          RemovalKeepsIds(active, step.id);
          InList(active, step.id);
        }
    }
  }

  /** What an entry keeps while its execution stays active. */
  ghost predicate Continues(a: ActiveExecution, b: ActiveExecution) {
    b.executionId == a.executionId && (a.cancelled ==> b.cancelled) && a.sent <= b.sent
  }

  ghost predicate AllContinue(before: Active, after: Active) {
    forall id :: id in after ==> id in before && Continues(before[id], after[id])
  }

  lemma EndingStep(y: System, step: Step)
    requires y.state.sessionEnding
    ensures var after := Next(y, step);
            && after.state.sessionEnding && after.entered == y.entered && after.replaced == y.replaced
            && AllContinue(y.state.active, after.state.active)
  {
  }

  lemma {:induction false} EndingStays(y: System, steps: seq<Step>)
    requires y.state.sessionEnding
    ensures var after := Run(y, steps);
            && after.state.sessionEnding && after.entered == y.entered && after.replaced == y.replaced
            && AllContinue(y.state.active, after.state.active)
  {
    if steps != [] {
      EndingStays(y, steps[..|steps| - 1]);
      EndingStep(Run(y, steps[..|steps| - 1]), steps[|steps| - 1]);
    }
  }

  /** The end of a session cancels every active execution. */
  lemma EndCancelsAll(s: State)
    requires !s.sessionEnding
    ensures AfterEndSession(s).active.Keys == s.active.Keys
    ensures forall id :: id in s.active ==>
              && id in AfterEndSession(s).active
              && AfterEndSession(s).active[id].cancelled && !AfterEndSession(s).active[id].restartAfter
              && AfterEndSession(s).active[id].sent == s.active[id].sent + [SessionEndingCommand]
              && AfterEndSession(s).active[id].executionId == s.active[id].executionId
  {
  }

  /**
    Once the session is ending nothing enters `active` and nothing is replaced any more, so that
    quiescence is permanent; and whoever is still active at any later time was active when it
    ended, and has been cancelled and told so.
  */
  lemma {:induction false} QuiescenceIsPermanent(y: System, during: seq<Step>, later: seq<Step>)
    requires !y.state.sessionEnding
    ensures var ended := Next(y, EndSessionStep);
            var paused := Run(ended, during);
            var last := Run(paused, later);
            && last.entered == paused.entered == ended.entered == y.entered
            && last.replaced == paused.replaced == ended.replaced == y.replaced
            && (paused.state.active == map[] ==> last.state.active == map[])
            && forall id :: id in last.state.active ==>
                 && id in paused.state.active && id in y.state.active
                 && last.state.active[id].executionId == y.state.active[id].executionId
                 && last.state.active[id].cancelled
                 && y.state.active[id].sent + [SessionEndingCommand] <= last.state.active[id].sent
  {
    var ended := Next(y, EndSessionStep);
    EndCancelsAll(y.state);
    EndingStays(ended, during);
    EndingStays(Run(ended, during), later);
  }

  /** A step that neither starts the workload, nor ends the session, nor replaces the definitions. */
  predicate LeavesAlone(step: Step, id: string) {
    (step.StartStep? ==> step.request.id != id) && !step.EndSessionStep? && !step.ReloadStep?
  }

  /** The workload is known and defined, and nothing of it is active. */
  predicate Vacant(s: State, id: string, kind: string) {
    && !s.sessionEnding && id !in s.active
    && id in s.workloads && s.workloads[id].definition.Some? && s.workloads[id].kind == kind
  }

  lemma {:induction false} StaysVacant(y: System, steps: seq<Step>, id: string, kind: string)
    requires Vacant(y.state, id, kind) && forall step <- steps :: LeavesAlone(step, id)
    ensures Vacant(Run(y, steps).state, id, kind)
  {
    if steps != [] {
      assert LeavesAlone(steps[|steps| - 1], id);
      StaysVacant(y, steps[..|steps| - 1], id, kind);
    }
  }

  /**
    An execution that leaves with a restart wanted is replaced, however many sections of others
    come before its replacement starts: the replacement finds the workload free and enters as a
    new execution.
  */
  lemma {:induction false} ReplacementEnters(y: System, leaving: Step, meanwhile: seq<Step>, next: nat)
    requires Leaves(y.state, leaving).Some? && WantsReplacement(y.state, leaving.id, leaving.executionId)
    requires leaving.id in y.state.workloads && y.state.workloads[leaving.id].definition.Some?
    requires y.state.workloads[leaving.id].kind in {"service", "job"}
    requires forall step <- meanwhile :: LeavesAlone(step, leaving.id)
    ensures var z := Run(Next(y, leaving), meanwhile).state;
            var request := Replacement(z, leaving.id, next, true, Inserted);
            && request.Some?
            && StartResult(z, request.value) == Ok(true)
            && AfterStart(z, request.value).active == z.active[leaving.id := Launching(next)]
  {
    StaysVacant(Next(y, leaving), meanwhile, leaving.id, y.state.workloads[leaving.id].kind);
  }
}
