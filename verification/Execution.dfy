/** The typed execution lifecycle (crates/domain/src/execution.rs). */
module Executions {
  import opened Base
  import opened Restart

  datatype Transition<+S, +E> = Transition(state: S, effects: seq<E>)

  datatype JobOrigin = Manual | Enabled(managerSessionId: nat) | Rerun(previousExecutionId: nat)

  datatype Origin = ServiceIntent(revision: nat) | JobExecution(job: JobOrigin)

  datatype ServiceStopCause = Stop | Restart | ServiceSessionEnded
  datatype JobCancelCause = Cancel | CancelForRerun | JobSessionEnded
  datatype StopCause = ServiceCause(service: ServiceStopCause) | JobCause(job: JobCancelCause)

  datatype StopPlan = CtrlBreak(timeout: Duration) | Command(timeout: Duration) | Kill

  datatype StopPhase = AwaitingLaunch(deadline: BootInstant) | Graceful(deadline: BootInstant) | Killing

  datatype LaunchFailure = Preflight(reason: nat) | Win32(code: u32)

  datatype AttemptEnd =
    | LaunchFailed(failure: LaunchFailure)
    | Exited(exitCode: u32, ranFor: Duration)
    | Killed
    | SupervisorLost

  datatype ExecutionFailure = AttemptFailure(attempt: nonzero32, end: AttemptEnd) | SupervisorUnavailable

  datatype Outcome =
    | Completed(exitCode: u32)
    | Failed(failure: ExecutionFailure)
    | OutcomeUnknown(lostAttempt: nonzero32)
    | Stopped(stopCause: ServiceStopCause, forced: bool)
    | Cancelled(cancelCause: JobCancelCause, forced: bool)

  datatype Phase =
    | Launching(attempt: nonzero32)
    | Running(attempt: nonzero32)
    | RestartBackoff(previousAttempt: nonzero32, previousEnd: AttemptEnd, nextAttempt: nonzero32,
                     retry: nonzero32, retryAt: BootInstant)
    | Stopping(attempt: nonzero32, phase: StopPhase, cause: StopCause, plan: StopPlan)
    | Terminal(outcome: Outcome)

  datatype ExecutionState = ExecutionState(
    origin: Origin, successExitCodes: set<u32>, restartPolicy: ExecutionRestartPolicy,
    lastRetry: Option<nonzero32>, phase: Phase)

  datatype Event =
    | LaunchSucceededEvent(attempt: nonzero32)
    | LaunchFailedEvent(attempt: nonzero32, failure: LaunchFailure, at: BootInstant)
    | ProcessExitedEvent(attempt: nonzero32, exitCode: u32, ranFor: Duration, at: BootInstant)
    | StopRequestedEvent(cause: StopCause, plan: StopPlan, at: BootInstant)
    | RestartDeadlineReachedEvent(deadline: BootInstant)
    | StopDeadlineReachedEvent(deadline: BootInstant)
    | RestartPolicyChangedEvent(policy: ExecutionRestartPolicy)
    | SuccessExitCodesChangedEvent(codes: set<u32>)
    | SupervisorLostEvent(at: BootInstant)

  datatype Effect =
    | LaunchAttempt(attempt: nonzero32)
    | ScheduleRestart(retryAt: BootInstant)
    | SendCtrlBreak
    | RunStopCommand
    | ScheduleStopDeadline(deadline: BootInstant)
    | TerminateJobObject
    | PublishTerminal(outcome: Outcome)

  datatype Error =
    | UnexpectedEvent
    | StaleAttempt
    | StaleDeadline
    | AttemptOverflow
    | RetryOverflow
    | DeadlineOverflow
    | PolicyKindMismatch

  type Step = Result<Transition<ExecutionState, Effect>, Error>

  function Quietly(s: ExecutionState): Step {
    Ok(Transition(s, []))
  }

  function Finish(s: ExecutionState, outcome: Outcome): Step {
    Ok(Transition(s.(phase := Terminal(outcome)), [PublishTerminal(outcome)]))
  }

  function StopOutcome(cause: StopCause, forced: bool): Outcome {
    match cause
    case ServiceCause(c) => Stopped(c, forced)
    case JobCause(c) => Cancelled(c, forced)
  }

  function FinishStop(s: ExecutionState, cause: StopCause, forced: bool): Step {
    Finish(s, StopOutcome(cause, forced))
  }

  function FinishTerminal(s: ExecutionState, attempt: nonzero32, end: AttemptEnd): Step {
    if end.Exited? && end.exitCode in s.successExitCodes then Finish(s, Completed(end.exitCode))
    else Finish(s, Failed(AttemptFailure(attempt, end)))
  }

  predicate KindMatches(origin: Origin, policy: ExecutionRestartPolicy) {
    origin.ServiceIntent? <==> policy.Service?
  }

  predicate CauseMatches(origin: Origin, cause: StopCause) {
    origin.ServiceIntent? <==> cause.ServiceCause?
  }

  predicate FailedEnd(s: ExecutionState, end: AttemptEnd) {
    end.Exited? ==> end.exitCode !in s.successExitCodes
  }

  function PolicyPermits(s: ExecutionState, end: AttemptEnd, retry: nonzero32): Result<bool, Error> {
    match (s.origin, s.restartPolicy)
    case (ServiceIntent(_), Service(policy)) =>
      (match policy
       case Never => Ok(false)
       case OnFailure(p) => Ok(FailedEnd(s, end) && (p.limit.Finite? ==> retry <= p.limit.maximum))
       case Always(p) => Ok(p.limit.Finite? ==> retry <= p.limit.maximum))
    case (JobExecution(_), Job(policy)) =>
      (match policy
       case JobNever => Ok(false)
       case JobOnFailure(maxRestarts, _) => Ok(FailedEnd(s, end) && retry <= maxRestarts))
    case _ => Err(PolicyKindMismatch)
  }

  function Backoff(s: ExecutionState): Result<BackoffPolicy, Error> {
    match (s.origin, s.restartPolicy)
    case (ServiceIntent(_), Service(OnFailure(p))) => Ok(p.backoff)
    case (ServiceIntent(_), Service(Always(p))) => Ok(p.backoff)
    case (JobExecution(_), Job(JobOnFailure(_, backoff))) => Ok(backoff)
    case _ => Err(PolicyKindMismatch)
  }

  /** The retry count a service's stable run leaves behind. */
  function AfterStableRun(s: ExecutionState, end: AttemptEnd): ExecutionState {
    match (s.origin, s.restartPolicy)
    case (ServiceIntent(_), Service(policy)) =>
      if end.Exited? && !policy.Never? && end.ranFor >= policy.policy.resetAfter then s.(lastRetry := None) else s
    case _ => s
  }

  function FinishAttempt(before: ExecutionState, attempt: nonzero32, end: AttemptEnd, at: BootInstant): Step {
    var s := AfterStableRun(before, end);
    var retry := if s.lastRetry.Some? then NextOrdinal(s.lastRetry.value) else Some(1);
    if retry.None? then Err(RetryOverflow)
    else
      match PolicyPermits(s, end, retry.value)
      case Err(error) => Err(error)
      case Ok(permitted) =>
        if !permitted then FinishTerminal(s, attempt, end)
        else if NextOrdinal(attempt).None? then Err(AttemptOverflow)
        else
          match Backoff(s)
          case Err(error) => Err(error)
          case Ok(backoff) =>
            match CheckedAdd(at, Delay(backoff, retry.value))
            case None => Err(DeadlineOverflow)
            case Some(retryAt) =>
              Ok(Transition(s.(lastRetry := retry,
                               phase := RestartBackoff(attempt, end, NextOrdinal(attempt).value, retry.value, retryAt)),
                            [ScheduleRestart(retryAt)]))
  }

  function LaunchSucceeded(s: ExecutionState, attempt: nonzero32): Step {
    match s.phase
    case Launching(current) =>
      if current == attempt then Quietly(s.(phase := Running(attempt))) else Err(StaleAttempt)
    case Stopping(current, phase, cause, plan) =>
      if current == attempt && phase.AwaitingLaunch? then
        var stopping := s.(phase := Stopping(attempt, Graceful(phase.deadline), cause, plan));
        match plan
        case CtrlBreak(_) => Ok(Transition(stopping, [SendCtrlBreak]))
        case Command(_) => Ok(Transition(stopping, [RunStopCommand]))
        case Kill => Err(UnexpectedEvent)
      else if current != attempt then Err(StaleAttempt)
      else Err(UnexpectedEvent)
    case _ => Err(UnexpectedEvent)
  }

  function LaunchFails(s: ExecutionState, attempt: nonzero32, failure: LaunchFailure, at: BootInstant): Step {
    match s.phase
    case Launching(current) =>
      if current == attempt then FinishAttempt(s, attempt, LaunchFailed(failure), at) else Err(StaleAttempt)
    case Stopping(current, _, cause, _) =>
      if current == attempt then FinishStop(s, cause, false) else Err(StaleAttempt)
    case _ => Err(UnexpectedEvent)
  }

  function ProcessExits(s: ExecutionState, attempt: nonzero32, exitCode: u32, ranFor: Duration, at: BootInstant): Step {
    match s.phase
    case Running(current) =>
      if current == attempt then FinishAttempt(s, attempt, Exited(exitCode, ranFor), at) else Err(StaleAttempt)
    case Stopping(current, phase, cause, _) =>
      if current == attempt then FinishStop(s, cause, phase.Killing?) else Err(StaleAttempt)
    case _ => Err(UnexpectedEvent)
  }

  /** Stopping attempt: at once for a Kill plan, else gracefully with a deadline. */
  function BeginStop(s: ExecutionState, attempt: nonzero32, cause: StopCause, plan: StopPlan, at: BootInstant,
                     launched: bool): Step {
    if plan.Kill? then
      Ok(Transition(s.(phase := Stopping(attempt, Killing, cause, plan)), [TerminateJobObject]))
    else
      match CheckedAdd(at, plan.timeout)
      case None => Err(DeadlineOverflow)
      case Some(deadline) =>
        if launched then
          Ok(Transition(s.(phase := Stopping(attempt, Graceful(deadline), cause, plan)),
                        [if plan.CtrlBreak? then SendCtrlBreak else RunStopCommand, ScheduleStopDeadline(deadline)]))
        else
          Ok(Transition(s.(phase := Stopping(attempt, AwaitingLaunch(deadline), cause, plan)),
                        [ScheduleStopDeadline(deadline)]))
  }

  function StopRequested(s: ExecutionState, cause: StopCause, plan: StopPlan, at: BootInstant): Step {
    if !CauseMatches(s.origin, cause) then Err(UnexpectedEvent)
    else
      match s.phase
      case Launching(attempt) => BeginStop(s, attempt, cause, plan, at, false)
      case Running(attempt) => BeginStop(s, attempt, cause, plan, at, true)
      case RestartBackoff(_, _, _, _, _) => FinishStop(s, cause, false)
      case Stopping(_, _, _, _) => Quietly(s)
      case Terminal(_) => Quietly(s)
  }

  function RestartDeadlineReached(s: ExecutionState, deadline: BootInstant): Step {
    if !s.phase.RestartBackoff? then Err(UnexpectedEvent)
    else if s.phase.retryAt != deadline then Err(StaleDeadline)
    else Ok(Transition(s.(phase := Launching(s.phase.nextAttempt)), [LaunchAttempt(s.phase.nextAttempt)]))
  }

  function StopDeadlineReached(s: ExecutionState, deadline: BootInstant): Step {
    if !s.phase.Stopping? then Err(UnexpectedEvent)
    else if s.phase.phase.Killing? then Quietly(s)
    else if s.phase.phase.deadline != deadline then Err(StaleDeadline)
    else Ok(Transition(s.(phase := s.phase.(phase := Killing)), [TerminateJobObject]))
  }

  function ReconsiderBackoff(s: ExecutionState): Step {
    if !s.phase.RestartBackoff? then Quietly(s)
    else
      match PolicyPermits(s, s.phase.previousEnd, s.phase.retry)
      case Err(error) => Err(error)
      case Ok(permitted) =>
        if permitted then Quietly(s) else FinishTerminal(s, s.phase.previousAttempt, s.phase.previousEnd)
  }

  function RestartPolicyChanged(s: ExecutionState, policy: ExecutionRestartPolicy): Step {
    if !KindMatches(s.origin, policy) then Err(PolicyKindMismatch)
    else ReconsiderBackoff(s.(restartPolicy := policy))
  }

  function SupervisorIsLost(s: ExecutionState, at: BootInstant): Step {
    match s.phase
    case Launching(attempt) =>
      if s.origin.JobExecution? then Finish(s, OutcomeUnknown(attempt))
      else FinishAttempt(s, attempt, SupervisorLost, at)
    case Running(attempt) =>
      if s.origin.JobExecution? then Finish(s, OutcomeUnknown(attempt))
      else FinishAttempt(s, attempt, SupervisorLost, at)
    case Stopping(_, _, cause, _) => FinishStop(s, cause, true)
    case RestartBackoff(_, _, _, _, _) => Err(UnexpectedEvent)
    case Terminal(_) => Quietly(s)
  }

  function Transit(s: ExecutionState, event: Event): Step {
    match event
    case LaunchSucceededEvent(attempt) => LaunchSucceeded(s, attempt)
    case LaunchFailedEvent(attempt, failure, at) => LaunchFails(s, attempt, failure, at)
    case ProcessExitedEvent(attempt, exitCode, ranFor, at) => ProcessExits(s, attempt, exitCode, ranFor, at)
    case StopRequestedEvent(cause, plan, at) => StopRequested(s, cause, plan, at)
    case RestartDeadlineReachedEvent(deadline) => RestartDeadlineReached(s, deadline)
    case StopDeadlineReachedEvent(deadline) => StopDeadlineReached(s, deadline)
    case RestartPolicyChangedEvent(policy) => RestartPolicyChanged(s, policy)
    case SuccessExitCodesChangedEvent(codes) => ReconsiderBackoff(s.(successExitCodes := codes))
    case SupervisorLostEvent(at) => SupervisorIsLost(s, at)
  }

  // ---- Runs: an event that is refused changes nothing ----

  function Next(s: ExecutionState, event: Event): Transition<ExecutionState, Effect> {
    match Transit(s, event)
    case Ok(t) => t
    case Err(_) => Transition(s, [])
  }

  function Run(s: ExecutionState, events: seq<Event>): Transition<ExecutionState, Effect> {
    if events == [] then Transition(s, [])
    else
      var earlier := Run(s, events[..|events| - 1]);
      var last := Next(earlier.state, events[|events| - 1]);
      Transition(last.state, earlier.effects + last.effects)
  }

  function Fresh(origin: Origin, codes: set<u32>, policy: ExecutionRestartPolicy): ExecutionState {
    ExecutionState(origin, codes, policy, None, Launching(1))
  }
}
