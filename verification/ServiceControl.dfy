/** What an operator asked of a service, and the execution that answers it (crates/domain/src/controller.rs). */
module ServiceControls {
  import opened Base
  import E = Executions

  datatype DefinitionState = Available(generation: nat, processDefinition: nat) | Missing

  datatype StoppedPhase = Idle | StoppedDraining(executionId: nat)

  datatype RunningPhase =
    | NeedsExecution
    | Active(executionId: nat)
    | Draining(executionId: nat)
    | Blocked(executionId: nat, outcome: E.Outcome)

  datatype ServiceControl = Stopped(stoppedPhase: StoppedPhase) | Running(revision: nat, phase: RunningPhase)

  datatype ServiceState = ServiceState(definition: DefinitionState, enabled: bool, control: ServiceControl)

  datatype ServiceCommand = Start(revision: nat) | Restart(revision: nat) | Stop

  datatype Event =
    | Command(command: ServiceCommand)
    | ExecutionAllocated(revision: nat, executionId: nat)
    | ExecutionTerminated(executionId: nat, outcome: E.Outcome)

  datatype Effect = AllocateExecution(revision: nat) | StopExecution(executionId: nat, cause: E.ServiceStopCause)

  datatype Error = DefinitionMissing | StaleExecution | StaleIntentRevision

  type Transition = E.Transition<ServiceState, Effect>

  function Becomes(s: ServiceState, control: ServiceControl, effects: seq<Effect>): Transition {
    E.Transition(s.(control := control), effects)
  }

  function Requesting(s: ServiceState, revision: nat): Transition {
    Becomes(s, Running(revision, NeedsExecution), [AllocateExecution(revision)])
  }

  function OnCommand(s: ServiceState, command: ServiceCommand): Result<Transition, Error> {
    match command
    case Start(revision) =>
      if s.definition.Missing? then Err(DefinitionMissing)
      else
        Ok(match s.control
           case Stopped(Idle) => Requesting(s, revision)
           case Running(_, Blocked(_, _)) => Requesting(s, revision)
           case Stopped(StoppedDraining(id)) => Becomes(s, Running(revision, Draining(id)), [])
           case Running(_, _) => E.Transition(s, []))
    case Restart(revision) =>
      if s.definition.Missing? then Err(DefinitionMissing)
      else
        Ok(match s.control
           case Stopped(Idle) => Requesting(s, revision)
           case Running(_, NeedsExecution) => Requesting(s, revision)
           case Running(_, Blocked(_, _)) => Requesting(s, revision)
           case Stopped(StoppedDraining(id)) => Becomes(s, Running(revision, Draining(id)), [])
           case Running(_, Draining(id)) => Becomes(s, Running(revision, Draining(id)), [])
           case Running(_, Active(id)) => Becomes(s, Running(revision, Draining(id)), [StopExecution(id, E.Restart)]))
    case Stop =>
      Ok(match s.control
         case Stopped(_) => E.Transition(s, [])
         case Running(_, Active(id)) => Becomes(s, Stopped(StoppedDraining(id)), [StopExecution(id, E.Stop)])
         case Running(_, Draining(id)) => Becomes(s, Stopped(StoppedDraining(id)), [StopExecution(id, E.Stop)])
         case Running(_, _) => Becomes(s, Stopped(Idle), []))
  }

  function OnAllocated(s: ServiceState, revision: nat, executionId: nat): Result<Transition, Error> {
    if s.control.Running? && s.control.phase.NeedsExecution? && s.control.revision == revision then
      Ok(Becomes(s, Running(revision, Active(executionId)), []))
    else if s.control.Running? && s.control.revision != revision then Err(StaleIntentRevision)
    else Err(StaleExecution)
  }

  function OnTerminated(s: ServiceState, executionId: nat, outcome: E.Outcome): Result<Transition, Error> {
    match s.control
    case Stopped(StoppedDraining(current)) =>
      if current == executionId then Ok(Becomes(s, Stopped(Idle), [])) else Err(StaleExecution)
    case Running(revision, Active(current)) =>
      if current == executionId then Ok(Becomes(s, Running(revision, Blocked(executionId, outcome)), []))
      else Err(StaleExecution)
    case Running(revision, Draining(current)) =>
      if current == executionId then
        Ok(Becomes(s, Running(revision, NeedsExecution), [AllocateExecution(revision)]))
      else Err(StaleExecution)
    case _ => Err(StaleExecution)
  }

  function Transit(s: ServiceState, event: Event): Result<Transition, Error> {
    match event
    case Command(command) => OnCommand(s, command)
    case ExecutionAllocated(revision, executionId) => OnAllocated(s, revision, executionId)
    case ExecutionTerminated(executionId, outcome) => OnTerminated(s, executionId, outcome)
  }

  // ---- A service among its commands, allocations and terminations ----

  datatype Allocation = Allocation(revision: nat, executionId: nat)

  /**
    `given` is the newest revision handed to a command; `requested` and `accepted` list every
    allocation asked for and every allocation taken up, in order; `live` holds the executions
    taken up and not yet ended.
  */
  datatype System = System(
    service: ServiceState, given: nat, requested: seq<nat>, accepted: seq<Allocation>, live: set<nat>)

  datatype Step =
    | Commanded(command: ServiceCommand)
    | AllocationArrives(revision: nat, executionId: nat)
    | TerminationArrives(executionId: nat, outcome: E.Outcome)
    | DefinitionChanges(definition: DefinitionState)

  function Requests(effects: seq<Effect>): seq<nat> {
    if effects == [] then []
    else Requests(effects[..|effects| - 1]) +
         match effects[|effects| - 1] { case AllocateExecution(r) => [r] case StopExecution(_, _) => [] }
  }

  function IdsOf(accepted: seq<Allocation>): set<nat> {
    set a | a in accepted :: a.executionId
  }

  /** A start or a restart carries a revision no command carried before. */
  predicate Fresh(y: System, command: ServiceCommand) {
    command.Stop? || y.given < command.revision
  }

  /** An allocation answers some request, however late, with an execution number not used before. */
  predicate Answers(y: System, step: Step)
    requires step.AllocationArrives?
  {
    step.revision in y.requested && step.executionId !in IdsOf(y.accepted)
  }

  /** The system after the service took an event, with its effects. */
  function Take(y: System, event: Event): (System, seq<Effect>) {
    match Transit(y.service, event)
    case Err(_) => (y, [])
    case Ok(t) =>
      (y.(service := t.state,
          requested := y.requested + Requests(t.effects),
          accepted := y.accepted + (match event { case ExecutionAllocated(r, id) => [Allocation(r, id)] case _ => [] }),
          live := (match event { case ExecutionAllocated(_, id) => y.live + {id}
                                 case ExecutionTerminated(id, _) => y.live - {id}
                                 case _ => y.live })),
       t.effects)
  }

  /** One step and the effects the service emits in it; a step that cannot happen changes nothing. */
  function NextWith(y: System, step: Step): (System, seq<Effect>) {
    match step
    case Commanded(command) =>
      if !Fresh(y, command) then (y, [])
      else Take(if command.Stop? then y else y.(given := command.revision), Command(command))
    case AllocationArrives(revision, id) =>
      if !Answers(y, step) then (y, []) else Take(y, ExecutionAllocated(revision, id))
    case TerminationArrives(id, outcome) => Take(y, ExecutionTerminated(id, outcome))
    case DefinitionChanges(definition) => (y.(service := y.service.(definition := definition)), [])
  }

  function Next(y: System, step: Step): System {
    NextWith(y, step).0
  }

  function Run(y: System, steps: seq<Step>): System {
    if steps == [] then y else Next(Run(y, steps[..|steps| - 1]), steps[|steps| - 1])
  }

  function Init(definition: DefinitionState, enabled: bool, given: nat): System {
    System(ServiceState(definition, enabled, Stopped(Idle)), given, [], [], {})
  }

  // ---- Invariants ----

  /** The execution the control state is holding on to. */
  function Held(control: ServiceControl): set<nat> {
    match control
    case Stopped(StoppedDraining(id)) => {id}
    case Running(_, Active(id)) => {id}
    case Running(_, Draining(id)) => {id}
    case _ => {}
  }

  predicate Increasing(s: seq<nat>) {
    forall i, j :: 0 <= i < j < |s| ==> s[i] < s[j]
  }

  function RevisionsOf(accepted: seq<Allocation>): (r: seq<nat>)
    ensures |r| == |accepted|
    ensures forall i :: 0 <= i < |r| ==> r[i] == accepted[i].revision
  {
    seq(|accepted|, i requires 0 <= i < |accepted| => accepted[i].revision)
  }

  /**
    Requests and acceptances are for increasing revisions; only requested ones are accepted, each
    by its own execution.
  */
  predicate Ledger(requested: seq<nat>, accepted: seq<Allocation>, given: nat) {
    && Increasing(requested) && (forall r :: r in requested ==> r <= given)
    && Increasing(RevisionsOf(accepted))
    && (forall a :: a in accepted ==> a.revision in requested)
    && (forall i, j :: 0 <= i < j < |accepted| ==> accepted[i].executionId != accepted[j].executionId)
  }

  function Newest(requested: seq<nat>): int {
    if requested == [] then -1 else requested[|requested| - 1]
  }

  function NewestAllocation(accepted: seq<Allocation>): Option<Allocation> {
    if accepted == [] then None else Some(accepted[|accepted| - 1])
  }

  /** How the control state relates to the newest request and to the newest allocation taken up. */
  predicate Fits(control: ServiceControl, request: int, taken: Option<Allocation>, given: nat) {
    match control
    case Stopped(Idle) => Below(taken, request + 1)
    case Stopped(StoppedDraining(id)) => taken == Some(Allocation(Max(0, request), id)) && 0 <= request
    case Running(revision, NeedsExecution) => request == revision && Below(taken, request)
    case Running(revision, Active(id)) => taken == Some(Allocation(revision, id)) && request == revision
    case Running(revision, Draining(id)) => taken == Some(Allocation(Max(0, request), id))
        && 0 <= request < revision <= given
    case Running(revision, Blocked(id, _)) => taken == Some(Allocation(revision, id)) && request == revision
  }

  predicate Below(taken: Option<Allocation>, request: int) {
    taken.Some? ==> taken.value.revision < request
  }

  predicate Inv(y: System) {
    match y
    case System(service, given, requested, accepted, live) =>
      && live == Held(service.control)
      && Ledger(requested, accepted, given)
      && Fits(service.control, Newest(requested), NewestAllocation(accepted), given)
  }

  lemma LedgerGrows(requested: seq<nat>, accepted: seq<Allocation>, given: nat, now: nat, effects: seq<Effect>)
    requires Ledger(requested, accepted, given) && given <= now
    requires effects != [] ==> |effects| == 1
    requires effects != [] && effects[0].AllocateExecution? ==> Newest(requested) < effects[0].revision <= now
    ensures Ledger(requested + Requests(effects), accepted, now)
    ensures Newest(requested + Requests(effects)) ==
            if effects != [] && effects[0].AllocateExecution? then effects[0].revision else Newest(requested)
  {
    if effects == [] {
      assert requested + Requests(effects) == requested;
    } else {
      RequestsOfOne(effects[0]);
    }
  }

  lemma LedgerAccepts(requested: seq<nat>, accepted: seq<Allocation>, given: nat, a: Allocation)
    requires Ledger(requested, accepted, given)
    requires a.revision in requested && a.executionId !in IdsOf(accepted)
    requires accepted != [] ==> accepted[|accepted| - 1].revision < a.revision
    ensures Ledger(requested, accepted + [a], given)
  {
    assert RevisionsOf(accepted + [a]) == RevisionsOf(accepted) + [a.revision];
    forall i | 0 <= i < |accepted| ensures accepted[i].executionId in IdsOf(accepted) {
      assert accepted[i] in accepted;
    }
  }

  lemma RequestsOfOne(e: Effect)
    ensures Requests([]) == []
    ensures Requests([e]) == if e.AllocateExecution? then [e.revision] else []
  {
    assert [e][..0] == [];
  }

  lemma CommandFits(s: ServiceState, command: ServiceCommand, request: int, taken: Option<Allocation>, given: nat)
    requires Fits(s.control, request, taken, given) && request <= given
    requires command.Stop? || given < command.revision
    requires OnCommand(s, command).Ok?
    ensures var after := OnCommand(s, command).value;
            && |after.effects| <= 1
            && Held(after.state.control) == Held(s.control)
            && (after.effects != [] && after.effects[0].AllocateExecution? ==>
                  !command.Stop? && after.effects[0].revision == command.revision)
            && Fits(after.state.control,
                    if after.effects != [] && after.effects[0].AllocateExecution?
                    then after.effects[0].revision else request,
                    taken, if command.Stop? then given else command.revision)
  {
  }

  lemma {:induction false} RequestingKeeps(
    y: System, now: nat, state: ServiceState, effects: seq<Effect>, live: set<nat>)
    requires Inv(y) && y.given <= now && |effects| <= 1
    requires effects != [] && effects[0].AllocateExecution? ==> Newest(y.requested) < effects[0].revision <= now
    requires live == Held(state.control)
    requires Fits(state.control,
                  if effects != [] && effects[0].AllocateExecution? then effects[0].revision else Newest(y.requested),
                  NewestAllocation(y.accepted), now)
    ensures Inv(System(state, now, y.requested + Requests(effects), y.accepted, live))
  {
    LedgerGrows(y.requested, y.accepted, y.given, now, effects);
  }

  lemma NewestWithin(y: System)
    requires Inv(y)
    ensures Newest(y.requested) <= y.given
    ensures y.live == Held(y.service.control)
    ensures Fits(y.service.control, Newest(y.requested), NewestAllocation(y.accepted), y.given)
  {
    if y.requested != [] {
      assert y.requested[|y.requested| - 1] in y.requested;
    }
  }

  lemma CommandTaken(y: System, command: ServiceCommand, t: Transition)
    requires Fresh(y, command) && OnCommand(y.service, command) == Ok(t)
    ensures Next(y, Commanded(command)) ==
            System(t.state, if command.Stop? then y.given else command.revision, y.requested + Requests(t.effects),
                   y.accepted, y.live)
  {
    assert y.accepted + [] == y.accepted;
  }

  lemma {:induction false} CommandKeeps(y: System, command: ServiceCommand)
    requires Inv(y)
    ensures Inv(Next(y, Commanded(command)))
  {
    if Fresh(y, command) {
      match OnCommand(y.service, command) {
        case Err(_) =>
        case Ok(t) =>
          CommandTaken(y, command, t);
          NewestWithin(y);
          CommandFits(y.service, command, Newest(y.requested), NewestAllocation(y.accepted), y.given);
          RequestingKeeps(y, if command.Stop? then y.given else command.revision, t.state, t.effects, y.live);
      }
    }
  }

  lemma {:induction false} AllocationKeeps(y: System, revision: nat, id: nat)
    requires Inv(y)
    ensures Inv(Next(y, AllocationArrives(revision, id)))
  {
    if Answers(y, AllocationArrives(revision, id)) && OnAllocated(y.service, revision, id).Ok? {
      LedgerGrows(y.requested, y.accepted, y.given, y.given, []);
      LedgerAccepts(y.requested, y.accepted, y.given, Allocation(revision, id));
    }
  }

  lemma {:induction false} TerminationKeeps(y: System, id: nat, outcome: E.Outcome)
    requires Inv(y)
    ensures Inv(Next(y, TerminationArrives(id, outcome)))
  {
    if OnTerminated(y.service, id, outcome).Ok? {
      var t := OnTerminated(y.service, id, outcome).value;
      RequestingKeeps(y, y.given, t.state, t.effects, y.live - {id});
    }
  }

  lemma {:induction false} NextKeeps(y: System, step: Step)
    requires Inv(y)
    ensures Inv(Next(y, step))
  {
    match step {
      case Commanded(command) => CommandKeeps(y, command);
      case AllocationArrives(revision, id) => AllocationKeeps(y, revision, id);
      case TerminationArrives(id, outcome) => TerminationKeeps(y, id, outcome);
      case DefinitionChanges(_) =>
    }
  }

  lemma {:induction false} RunKeeps(y: System, steps: seq<Step>)
    requires Inv(y)
    ensures Inv(Run(y, steps))
  {
    if steps != [] {
      RunKeeps(y, steps[..|steps| - 1]);
      NextKeeps(Run(y, steps[..|steps| - 1]), steps[|steps| - 1]);
    }
  }

  // ---- Theorems over every run ----

  /** At most one execution is live, and it is the one the control state holds on to. */
  lemma {:induction false} AtMostOneLive(definition: DefinitionState, enabled: bool, given: nat, steps: seq<Step>)
    ensures var y := Run(Init(definition, enabled, given), steps);
            |y.live| <= 1 && y.live == Held(y.service.control)
  {
    RunKeeps(Init(definition, enabled, given), steps);
  }

  /** Every revision asks for at most one allocation and takes up at most one, and no execution is taken up twice. */
  lemma {:induction false} EachRevisionOnce(definition: DefinitionState, enabled: bool, given: nat, steps: seq<Step>)
    ensures var y := Run(Init(definition, enabled, given), steps);
            && Increasing(y.requested)
            && Increasing(RevisionsOf(y.accepted))
            && (forall a :: a in y.accepted ==> a.revision in y.requested)
            && (forall i, j :: 0 <= i < j < |y.accepted| ==> y.accepted[i].executionId != y.accepted[j].executionId)
  {
    RunKeeps(Init(definition, enabled, given), steps);
  }

  lemma NewestTaken(accepted: seq<Allocation>, revision: nat)
    requires Increasing(RevisionsOf(accepted))
    ensures accepted == [] || accepted[|accepted| - 1].revision < revision ==>
              forall a :: a in accepted ==> a.revision != revision
    ensures accepted != [] && accepted[|accepted| - 1].revision == revision ==>
              exists a :: a in accepted && a.revision == revision
  {
    if accepted != [] {
      var k := |accepted| - 1;
      assert accepted[k] in accepted;
      forall i | 0 <= i < k ensures accepted[i].revision < accepted[k].revision {
        assert RevisionsOf(accepted)[i] < RevisionsOf(accepted)[k];
      }
    }
  }

  /**
    An allocation is taken up exactly when it answers the newest request, for the first time,
    while the service is wanted.
  */
  lemma {:induction false} TakenUpExactly(
    definition: DefinitionState, enabled: bool, given: nat, steps: seq<Step>, revision: nat, id: nat)
    ensures var y := Run(Init(definition, enabled, given), steps);
            OnAllocated(y.service, revision, id).Ok? <==>
              && y.service.control.Running?
              && Newest(y.requested) == revision
              && (forall a :: a in y.accepted ==> a.revision != revision)
  {
    var y := Run(Init(definition, enabled, given), steps);
    RunKeeps(Init(definition, enabled, given), steps);
    NewestWithin(y);
    NewestTaken(y.accepted, revision);
  }

  lemma EndTakenIfHeld(s: ServiceState, id: nat, outcome: E.Outcome)
    ensures OnTerminated(s, id, outcome).Ok? <==> id in Held(s.control)
  {
  }

  lemma StopsHeld(s: ServiceState, event: Event, e: Effect)
    requires Transit(s, event).Ok? && e in Transit(s, event).value.effects && e.StopExecution?
    ensures e.executionId in Held(s.control)
  {
  }

  /**
    The end of an execution is refused exactly when that execution is not live, and a stop is
    only ever sent to a live one.
  */
  lemma {:induction false} LiveExecutionsOnly(
    definition: DefinitionState, enabled: bool, given: nat, steps: seq<Step>, event: Event)
    ensures var y := Run(Init(definition, enabled, given), steps);
            && (event.ExecutionTerminated? ==> (Transit(y.service, event).Ok? <==> event.executionId in y.live))
            && (Transit(y.service, event).Ok? ==>
                  forall e :: e in Transit(y.service, event).value.effects && e.StopExecution? ==>
                      e.executionId in y.live)
  {
    var y := Run(Init(definition, enabled, given), steps);
    RunKeeps(Init(definition, enabled, given), steps);
    NewestWithin(y);
    if event.ExecutionTerminated? {
      EndTakenIfHeld(y.service, event.executionId, event.outcome);
    }
    if Transit(y.service, event).Ok? {
      forall e | e in Transit(y.service, event).value.effects && e.StopExecution? ensures e.executionId in y.live {
        StopsHeld(y.service, event, e);
      }
    }
  }

  /**
    What an accepted command means: it never forgets an execution that has yet to end; a start
    or a restart leaves the service wanted, a restart by its own revision and never by the old
    execution; a stop leaves it unwanted; and an execution is told to stop just when a restart
    or a stop finds it wanted.
  */
  lemma CommandsObeyed(s: ServiceState, command: ServiceCommand)
    ensures OnCommand(s, command) == Err(DefinitionMissing) <==> !command.Stop? && s.definition.Missing?
    ensures OnCommand(s, command).Ok? ==>
              var t := OnCommand(s, command).value;
              && Held(t.state.control) == Held(s.control)
              && (command.Stop? <==> t.state.control.Stopped?)
              && (!command.Stop? ==> t.state.control.Running? && !t.state.control.phase.Blocked?)
              && (command.Restart? ==> t.state.control.revision == command.revision && !t.state.control.phase.Active?)
              && (forall id, cause :: StopExecution(id, cause) in t.effects <==>
                    && id in Held(s.control) && s.control.Running?
                    && (if command.Stop? then cause == E.Stop
                        else command.Restart? && s.control.phase.Active? && cause == E.Restart))
              && (forall r :: AllocateExecution(r) in t.effects <==>
                    && !command.Stop? && r == command.revision && Held(s.control) == {}
                    && (command.Start? ==> s.control.Stopped? || s.control.phase.Blocked?))
  {
    if OnCommand(s, command).Ok? {
      var t := OnCommand(s, command).value;
      assert |t.effects| == 0 || t.effects == [t.effects[0]];
    }
  }

  // ---- Commands that arrive while an execution drains ----

  function Feed(s: ServiceState, events: seq<Event>): E.Transition<ServiceState, Effect> {
    if events == [] then E.Transition(s, [])
    else
      var earlier := Feed(s, events[..|events| - 1]);
      match Transit(earlier.state, events[|events| - 1])
      case Err(_) => earlier
      case Ok(t) => E.Transition(t.state, earlier.effects + t.effects)
  }

  /** What the operator wants after the events: the newest restart, or the first start since the last stop. */
  function Intent(wanted: Option<nat>, events: seq<Event>): Option<nat> {
    if events == [] then wanted else Wanted(Intent(wanted, events[..|events| - 1]), events[|events| - 1])
  }

  function Wanted(before: Option<nat>, event: Event): Option<nat> {
    match event
    case Command(Start(revision)) => if before.Some? then before else Some(revision)
    case Command(Restart(revision)) => Some(revision)
    case Command(Stop) => None
    case _ => before
  }

  /** The control state that waits for an execution to end, wanting a replacement or not. */
  function Awaiting(wanted: Option<nat>, executionId: nat): ServiceControl {
    match wanted
    case None => Stopped(StoppedDraining(executionId))
    case Some(revision) => Running(revision, Draining(executionId))
  }

  lemma RequestsAppend(a: seq<Effect>, b: seq<Effect>)
    requires |b| <= 1
    ensures Requests(a + b) == Requests(a) + Requests(b)
  {
    if b == [] {
      assert a + b == a;
    } else {
      assert (a + b)[..|a + b| - 1] == a;
      RequestsOfOne(b[0]);
    }
  }

  /** One event while an execution drains. */
  lemma DrainingStep(s: ServiceState, wanted: Option<nat>, id: nat, event: Event)
    requires s.definition.Available? && s.control == Awaiting(wanted, id)
    requires !(event.ExecutionTerminated? && event.executionId == id)
    ensures Transit(s, event).Ok? ==>
              var t := Transit(s, event).value;
              && t.state == s.(control := Awaiting(Wanted(wanted, event), id))
              && |t.effects| <= 1 && Requests(t.effects) == []
    ensures Transit(s, event).Err? ==> Wanted(wanted, event) == wanted
  {
    RequestsOfOne(StopExecution(id, E.Stop));
  }

  /** What becomes of the service when the execution it waits for ends. */
  function Replaced(s: ServiceState, wanted: Option<nat>): Transition {
    match wanted
    case None => Becomes(s, Stopped(Idle), [])
    case Some(revision) => Becomes(s, Running(revision, NeedsExecution), [AllocateExecution(revision)])
  }

  lemma DrainingEnds(s: ServiceState, wanted: Option<nat>, id: nat, outcome: E.Outcome)
    requires s.control == Awaiting(wanted, id)
    ensures OnTerminated(s, id, outcome) == Ok(Replaced(s, wanted))
  {
  }

  lemma {:induction false} DrainingFeeds(s: ServiceState, wanted: Option<nat>, id: nat, events: seq<Event>)
    requires s.definition.Available? && s.control == Awaiting(wanted, id)
    requires forall k :: 0 <= k < |events| ==> !(events[k].ExecutionTerminated? && events[k].executionId == id)
    ensures Feed(s, events).state == s.(control := Awaiting(Intent(wanted, events), id))
    ensures Requests(Feed(s, events).effects) == []
  {
    if events != [] {
      var earlier := Feed(s, events[..|events| - 1]);
      DrainingFeeds(s, wanted, id, events[..|events| - 1]);
      DrainingStep(earlier.state, Intent(wanted, events[..|events| - 1]), id, events[|events| - 1]);
      match Transit(earlier.state, events[|events| - 1]) {
        case Err(_) =>
        case Ok(t) => RequestsAppend(earlier.effects, t.effects);
      }
    }
  }

  /**
    Whatever is commanded while an execution drains, and however many late allocations arrive,
    nothing is asked for until that execution ends; then one replacement is, with the revision
    the operator wants by then, or none if the service is to stay stopped.
  */
  lemma {:induction false} DrainingCoalesces(
    s: ServiceState, wanted: Option<nat>, id: nat, events: seq<Event>, outcome: E.Outcome)
    requires s.definition.Available? && s.control == Awaiting(wanted, id)
    requires forall k :: 0 <= k < |events| ==> !(events[k].ExecutionTerminated? && events[k].executionId == id)
    ensures var after := Feed(s, events);
            && after.state == s.(control := Awaiting(Intent(wanted, events), id))
            && Requests(after.effects) == []
            && OnTerminated(after.state, id, outcome) == Ok(Replaced(s, Intent(wanted, events)))
  {
    DrainingFeeds(s, wanted, id, events);
    DrainingEnds(Feed(s, events).state, Intent(wanted, events), id, outcome);
  }

  function RestartsOf(revisions: seq<nat>): (events: seq<Event>)
    ensures |events| == |revisions|
    ensures forall k :: 0 <= k < |events| ==> events[k] == Command(Restart(revisions[k]))
  {
    seq(|revisions|, k requires 0 <= k < |revisions| => Command(Restart(revisions[k])))
  }

  /**
    Any number of restarts of an active service is answered by one stop and one replacement, for
    the newest of them.
  */
  lemma {:induction false} RestartsCollapse(s: ServiceState, id: nat, revisions: seq<nat>, outcome: E.Outcome)
    requires s.definition.Available? && s.control.Running? && s.control.phase == Active(id)
    requires revisions != []
    ensures Feed(s, RestartsOf(revisions) + [ExecutionTerminated(id, outcome)]) ==
            Becomes(s, Running(revisions[|revisions| - 1], NeedsExecution),
                    [StopExecution(id, E.Restart), AllocateExecution(revisions[|revisions| - 1])])
  {
    var newest := revisions[|revisions| - 1];
    ActiveRestarts(s, id, revisions);
    var events := RestartsOf(revisions) + [ExecutionTerminated(id, outcome)];
    assert events[..|events| - 1] == RestartsOf(revisions);
  }

  lemma {:induction false} ActiveRestarts(s: ServiceState, id: nat, revisions: seq<nat>)
    requires s.definition.Available? && s.control.Running? && s.control.phase == Active(id)
    requires revisions != []
    ensures Feed(s, RestartsOf(revisions)) ==
            Becomes(s, Running(revisions[|revisions| - 1], Draining(id)), [StopExecution(id, E.Restart)])
  {
    var events := RestartsOf(revisions);
    var before := revisions[..|revisions| - 1];
    assert events[..|events| - 1] == RestartsOf(before);
    if before != [] {
      ActiveRestarts(s, id, before);
    }
  }
}
