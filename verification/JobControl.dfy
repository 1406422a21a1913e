/** A job's one execution at a time and the rerun that may follow it (crates/domain/src/controller.rs). */
module JobControls {
  import opened Base
  import S = ServiceControls
  import E = Executions

  datatype JobActivity = Idle | Active(executionId: nat, rerun: bool)

  datatype JobState = JobState(definition: S.DefinitionState, enabled: bool, lastTrigger: Option<nat>,
                               activity: JobActivity)

  datatype RerunDisposition = NotRequested | StartNext(next: nat) | NextDefinitionMissing

  datatype JobEvent =
    | StartRequested(executionId: nat, origin: E.JobOrigin)
    | RerunRequested(executionIdIfIdle: nat)
    | CancelRequested
    | JobTerminated(executionId: nat, outcome: E.Outcome, disposition: RerunDisposition)

  datatype JobEffect =
    | StartExecution(executionId: nat, origin: E.JobOrigin)
    | CancelExecution(executionId: nat, cause: E.JobCancelCause)
    | RerunSkippedDefinitionMissing

  type JobTransition = E.Transition<JobState, JobEffect>

  function Moves(s: JobState, activity: JobActivity, effects: seq<JobEffect>): JobTransition {
    E.Transition(s.(activity := activity), effects)
  }

  function OnEnd(s: JobState, id: nat, disposition: RerunDisposition): Result<JobTransition, S.Error> {
    if !(s.activity.Active? && s.activity.executionId == id) then Err(S.StaleExecution)
    else
      match (s.activity.rerun, disposition)
      case (false, NotRequested) => Ok(Moves(s, Idle, []))
      case (true, NextDefinitionMissing) => Ok(Moves(s, Idle, [RerunSkippedDefinitionMissing]))
      case (true, StartNext(next)) => Ok(Moves(s, Active(next, false), [StartExecution(next, E.Rerun(id))]))
      case _ => Err(S.StaleExecution)
  }

  function Move(s: JobState, event: JobEvent): Result<JobTransition, S.Error> {
    match event
    case StartRequested(id, origin) =>
      if s.definition.Missing? then Err(S.DefinitionMissing)
      else if s.activity.Idle? then Ok(Moves(s, Active(id, false), [StartExecution(id, origin)]))
      else Ok(E.Transition(s, []))
    case RerunRequested(id) =>
      if s.definition.Missing? then Err(S.DefinitionMissing)
      else
        Ok(match s.activity
           case Idle => Moves(s, Active(id, false), [StartExecution(id, E.Manual)])
           case Active(current, rerun) =>
             if rerun then E.Transition(s, [])
             else Moves(s, Active(current, true), [CancelExecution(current, E.CancelForRerun)]))
    case CancelRequested =>
      Ok(match s.activity
         case Idle => E.Transition(s, [])
         case Active(current, _) => Moves(s, Active(current, false), [CancelExecution(current, E.Cancel)]))
    case JobTerminated(id, _, disposition) => OnEnd(s, id, disposition)
  }

  // ---- A job among requests and terminations ----

  /** `seen` holds every execution number offered so far, `started` the executions started, `ended` those that ended. */
  datatype JobSystem = JobSystem(job: JobState, seen: set<nat>, started: seq<nat>, ended: seq<nat>)

  /** The execution number an event brings along for an execution it may start. */
  function Offers(event: JobEvent): Option<nat> {
    match event
    case StartRequested(id, _) => Some(id)
    case RerunRequested(id) => Some(id)
    case CancelRequested => None
    case JobTerminated(_, _, disposition) => if disposition.StartNext? then Some(disposition.next) else None
  }

  function Starts(effects: seq<JobEffect>): seq<nat> {
    if effects == [] then []
    else Starts(effects[..|effects| - 1]) +
         match effects[|effects| - 1] { case StartExecution(id, _) => [id] case _ => [] }
  }

  /** One event; offered numbers are new, and an event that is refused changes nothing. */
  function JobNext(y: JobSystem, event: JobEvent): JobSystem {
    if Offers(event).Some? && Offers(event).value in y.seen then y
    else
      match Move(y.job, event)
      case Err(_) => y
      case Ok(t) =>
        JobSystem(t.state, y.seen + (if Offers(event).Some? then {Offers(event).value} else {}),
                  y.started + Starts(t.effects),
                  if event.JobTerminated? then y.ended + [event.executionId] else y.ended)
  }

  function JobRun(y: JobSystem, events: seq<JobEvent>): JobSystem {
    if events == [] then y else JobNext(JobRun(y, events[..|events| - 1]), events[|events| - 1])
  }

  function JobInit(definition: S.DefinitionState, enabled: bool, lastTrigger: Option<nat>): JobSystem {
    JobSystem(JobState(definition, enabled, lastTrigger, Idle), {}, [], [])
  }

  /** The executions in progress. */
  function InProgress(activity: JobActivity): seq<nat> {
    match activity
    case Idle => []
    case Active(id, _) => [id]
  }

  predicate JobInv(y: JobSystem) {
    match y
    case JobSystem(job, seen, started, ended) =>
      && started == ended + InProgress(job.activity)
      && (forall id :: id in started ==> id in seen)
      && (forall i, j :: 0 <= i < j < |started| ==> started[i] != started[j])
  }

  lemma StartsOfOne(e: JobEffect)
    ensures Starts([]) == []
    ensures Starts([e]) == if e.StartExecution? then [e.executionId] else []
  {
    assert [e][..0] == [];
  }

  lemma MoveStarts(s: JobState, event: JobEvent)
    requires Move(s, event).Ok?
    ensures var t := Move(s, event).value;
            InProgress(s.activity) + Starts(t.effects) ==
            (if event.JobTerminated? then [event.executionId] else []) + InProgress(t.state.activity)
    ensures Starts(Move(s, event).value.effects) == [] ||
            (Offers(event).Some? && Starts(Move(s, event).value.effects) == [Offers(event).value])
  {
    var effects := Move(s, event).value.effects;
    StartsOfOne(if effects == [] then RerunSkippedDefinitionMissing else effects[0]);
    assert effects == [] || effects == [effects[0]];
  }

  lemma {:induction false} JobNextKeeps(y: JobSystem, event: JobEvent)
    requires JobInv(y)
    ensures JobInv(JobNext(y, event))
  {
    var after := JobNext(y, event);
    if after != y {
      MoveStarts(y.job, event);
      var t := Move(y.job, event).value;
      var gone := if event.JobTerminated? then [event.executionId] else [];
      assert after.ended == y.ended + gone;
      assert after.started == y.ended + (InProgress(y.job.activity) + Starts(t.effects));
      assert after.started == after.ended + InProgress(t.state.activity);
    }
  }

  lemma {:induction false} JobRunKeeps(y: JobSystem, events: seq<JobEvent>)
    requires JobInv(y)
    ensures JobInv(JobRun(y, events))
  {
    if events != [] {
      JobRunKeeps(y, events[..|events| - 1]);
      JobNextKeeps(JobRun(y, events[..|events| - 1]), events[|events| - 1]);
    }
  }

  /**
    Over every run: no two executions overlap, each starts only once its predecessor has ended,
    none starts or ends twice, and the one in progress, if any, is the latest started.
  */
  lemma {:induction false} OneAfterAnother(
    definition: S.DefinitionState, enabled: bool, lastTrigger: Option<nat>, events: seq<JobEvent>)
    ensures var y := JobRun(JobInit(definition, enabled, lastTrigger), events);
            && y.started == y.ended + InProgress(y.job.activity)
            && |y.started| - |y.ended| <= 1
            && (forall i, j :: 0 <= i < j < |y.started| ==> y.started[i] != y.started[j])
  {
    JobRunKeeps(JobInit(definition, enabled, lastTrigger), events);
  }

  // ---- Requests that arrive while an execution is in progress ----

  function JobFeed(s: JobState, events: seq<JobEvent>): JobTransition {
    if events == [] then E.Transition(s, [])
    else
      var earlier := JobFeed(s, events[..|events| - 1]);
      match Move(earlier.state, events[|events| - 1])
      case Err(_) => earlier
      case Ok(t) => E.Transition(t.state, earlier.effects + t.effects)
  }

  /** Whether a rerun is wanted: one was asked for and none was cancelled since. */
  function RerunWanted(wanted: bool, events: seq<JobEvent>): bool {
    if events == [] then wanted else StillWanted(RerunWanted(wanted, events[..|events| - 1]), events[|events| - 1])
  }

  lemma StartsAppend(a: seq<JobEffect>, b: seq<JobEffect>)
    requires |b| <= 1
    ensures Starts(a + b) == Starts(a) + Starts(b)
  {
    if b == [] {
      assert a + b == a;
    } else {
      assert (a + b)[..|a + b| - 1] == a;
      StartsOfOne(b[0]);
    }
  }

  function StillWanted(before: bool, event: JobEvent): bool {
    match event
    case RerunRequested(_) => true
    case CancelRequested => false
    case _ => before
  }

  /** One request while an execution is in progress. */
  lemma ActiveStep(s: JobState, id: nat, wanted: bool, event: JobEvent)
    requires s.definition.Available? && s.activity == Active(id, wanted)
    requires !(event.JobTerminated? && event.executionId == id)
    ensures Move(s, event).Ok? ==>
              var t := Move(s, event).value;
              && t.state == s.(activity := Active(id, StillWanted(wanted, event)))
              && |t.effects| <= 1 && Starts(t.effects) == []
    ensures Move(s, event).Err? ==> StillWanted(wanted, event) == wanted
  {
    StartsOfOne(CancelExecution(id, E.Cancel));
    StartsOfOne(CancelExecution(id, E.CancelForRerun));
  }

  /** Nothing starts while an execution is in progress; what is asked for is remembered. */
  lemma {:induction false} ActiveFeeds(s: JobState, id: nat, wanted: bool, events: seq<JobEvent>)
    requires s.definition.Available? && s.activity == Active(id, wanted)
    requires forall k :: 0 <= k < |events| ==> !(events[k].JobTerminated? && events[k].executionId == id)
    ensures JobFeed(s, events).state == s.(activity := Active(id, RerunWanted(wanted, events)))
    ensures Starts(JobFeed(s, events).effects) == []
  {
    if events != [] {
      var earlier := JobFeed(s, events[..|events| - 1]);
      ActiveFeeds(s, id, wanted, events[..|events| - 1]);
      ActiveStep(earlier.state, id, RerunWanted(wanted, events[..|events| - 1]), events[|events| - 1]);
      match Move(earlier.state, events[|events| - 1]) {
        case Err(_) =>
        case Ok(t) => StartsAppend(earlier.effects, t.effects);
      }
    }
  }

  /** How the end of the execution in progress is taken: only if the disposition fits what is wanted. */
  function Ended(s: JobState, id: nat, wanted: bool, disposition: RerunDisposition): Result<JobTransition, S.Error> {
    match disposition
    case NotRequested => if wanted then Err(S.StaleExecution) else Ok(Moves(s, Idle, []))
    case StartNext(next) =>
      if wanted then Ok(Moves(s, Active(next, false), [StartExecution(next, E.Rerun(id))])) else Err(S.StaleExecution)
    case NextDefinitionMissing =>
      if wanted then Ok(Moves(s, Idle, [RerunSkippedDefinitionMissing])) else Err(S.StaleExecution)
  }

  lemma ActiveEnds(s: JobState, id: nat, wanted: bool, outcome: E.Outcome, disposition: RerunDisposition)
    requires s.activity == Active(id, wanted)
    ensures Move(s, JobTerminated(id, outcome, disposition)) == Ended(s, id, wanted, disposition)
  {
  }

  /**
    Whatever is requested while an execution is in progress, nothing starts until it ends. Its
    end is then taken exactly when the caller's disposition says what the job still wants: one
    replacement under the number given, or a skipped rerun, if a rerun was asked for and not
    cancelled since; nothing otherwise.
  */
  lemma {:induction false} RerunsCoalesce(s: JobState, id: nat, wanted: bool, events: seq<JobEvent>, outcome: E.Outcome,
                       disposition: RerunDisposition)
    requires s.definition.Available? && s.activity == Active(id, wanted)
    requires forall k :: 0 <= k < |events| ==> !(events[k].JobTerminated? && events[k].executionId == id)
    ensures var after := JobFeed(s, events);
            && after.state == s.(activity := Active(id, RerunWanted(wanted, events)))
            && Starts(after.effects) == []
            && Move(after.state, JobTerminated(id, outcome, disposition)) ==
               Ended(s, id, RerunWanted(wanted, events), disposition)
  {
    ActiveFeeds(s, id, wanted, events);
    ActiveEnds(JobFeed(s, events).state, id, RerunWanted(wanted, events), outcome, disposition);
  }

  /** Any number of rerun requests cancels the execution in progress once. */
  lemma {:induction false} RerunsCancelOnce(s: JobState, id: nat, requests: seq<JobEvent>)
    requires s.definition.Available? && s.activity == Active(id, false)
    requires requests != [] && forall k :: 0 <= k < |requests| ==> requests[k].RerunRequested?
    ensures JobFeed(s, requests) == Moves(s, Active(id, true), [CancelExecution(id, E.CancelForRerun)])
  {
    var before := requests[..|requests| - 1];
    if before != [] {
      RerunsCancelOnce(s, id, before);
    }
  }
}
