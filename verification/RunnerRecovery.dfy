/**
  How a supervisor that replaces a lost one takes the attempt loop up again from the last
  checkpoint (crates/supervisor/src/runner.rs), and when that is what the machine does.
*/
module RunnerRecovery {
  import opened Base
  import opened Restart
  import opened Executions
  import opened ExecutionProofs
  import opened BackoffWaits
  import opened Runner

  // ---- The counter that is restored ----

  /** How far the retry count is behind the attempt number: restoring it from that number assumes not at all. */
  function Lag(s: ExecutionState): int {
    match s.phase
    case Launching(attempt) => attempt - 1 - Retries(s)
    case Running(attempt) => attempt - 1 - Retries(s)
    case RestartBackoff(previous, _, _, _, _) => previous - Retries(s)
    case Stopping(attempt, _, _, _) => attempt - 1 - Retries(s)
    case Terminal(_) => 0
  }

  /** An accepted exit after a stable run that had retries behind it. */
  predicate ResetsRetries(s: ExecutionState, event: Event) {
    && event.ProcessExitedEvent? && s.phase == Running(event.attempt)
    && Retries(s) > 0 && AfterStableRun(s, Exited(event.exitCode, event.ranFor)).lastRetry.None?
    && Next(s, event).state != s
  }

  lemma FinishLags(s: ExecutionState, attempt: nonzero32, end: AttemptEnd, at: BootInstant)
    requires FinishAttempt(s, attempt, end, at).Ok?
    ensures var t := FinishAttempt(s, attempt, end, at).value.state;
            var before := attempt - 1 - Retries(s);
            t.phase.RestartBackoff? ==>
              if Retries(s) > 0 && AfterStableRun(s, end).lastRetry.None? then Lag(t) > before else Lag(t) == before
  {
  }

  /** The lag never shrinks, and it grows exactly with a stable run that resets a retry count. */
  lemma {:induction false} NextLags(s: ExecutionState, event: Event)
    requires WellFormed(s) && !Next(s, event).state.phase.Terminal?
    ensures !s.phase.Terminal?
    ensures var t := Next(s, event).state;
            if ResetsRetries(s, event) then Lag(t) > Lag(s) else Lag(t) == Lag(s)
  {
    match event {
      case LaunchFailedEvent(attempt, failure, at) =>
        if Transit(s, event).Ok? && s.phase == Launching(attempt) {
          FinishLags(s, attempt, LaunchFailed(failure), at);
        }
      case ProcessExitedEvent(attempt, code, ranFor, at) =>
        if Transit(s, event).Ok? && s.phase == Running(attempt) {
          FinishLags(s, attempt, Exited(code, ranFor), at);
        }
      case SupervisorLostEvent(at) =>
        if Transit(s, event).Ok? && (s.phase.Launching? || s.phase.Running?) {
          FinishLags(s, s.phase.attempt, SupervisorLost, at);
        }
      case _ =>
    }
  }

  /** Some event of the list reset a retry count. */
  predicate AnyReset(s: ExecutionState, events: seq<Event>) {
    events != [] &&
    (AnyReset(s, events[..|events| - 1]) ||
     ResetsRetries(Run(s, events[..|events| - 1]).state, events[|events| - 1]))
  }

  /**
    Over every event list: while the execution lasts, the retry count is its attempt number less
    one, which is what a replacing supervisor restores, if and only if no stable run has reset it.
  */
  lemma {:induction false} RestoredExactly(origin: Origin, codes: set<u32>, policy: ExecutionRestartPolicy,
                                           events: seq<Event>)
    requires KindMatches(origin, policy)
    ensures var s := Run(Fresh(origin, codes, policy), events).state;
            !s.phase.Terminal? ==>
              Lag(s) >= 0 && (Lag(s) == 0 <==> !AnyReset(Fresh(origin, codes, policy), events))
  {
    var s := Fresh(origin, codes, policy);
    if events != [] && !Run(s, events).state.phase.Terminal? {
      var earlier, event := Run(s, events[..|events| - 1]).state, events[|events| - 1];
      RunKeeps(s, events[..|events| - 1]);
      NextLags(earlier, event);
      RestoredExactly(origin, codes, policy, events[..|events| - 1]);
    }
  }

  /** A service policy with millisecond durations that allows so many retries. */
  function Allowing(limit: nonzero32): ExecutionRestartPolicy {
    Service(OnFailure(ServiceRetryPolicy(Finite(limit), NANOS_PER_MS, BackoffTriple(NANOS_PER_MS, 1, NANOS_PER_MS))))
  }

  /**
    The verdict on a lost attempt of a service under the restored count is the machine's for every
    policy that could be in force if and only if the count is not behind.
  */
  lemma {:induction false} LagMatters(m: ExecutionState, attempt: nonzero32)
    requires m.origin.ServiceIntent? && Retries(m) < attempt
    requires m.phase == Launching(attempt) || m.phase == Running(attempt)
    ensures Lag(m) == 0 <==>
            forall policy: ExecutionRestartPolicy :: Admissible(m.origin, policy) ==>
              PolicyPermits(m.(restartPolicy := policy), SupervisorLost, Retries(m) + 1) ==
              Ok(ShouldRetry(Flat(PolicyUpdate(policy, m.successExitCodes)), false, attempt - 1))
  {
    if Lag(m) == 0 {
      forall policy: ExecutionRestartPolicy | Admissible(m.origin, policy)
        ensures PolicyPermits(m.(restartPolicy := policy), SupervisorLost, Retries(m) + 1) ==
                Ok(ShouldRetry(Flat(PolicyUpdate(policy, m.successExitCodes)), false, attempt - 1))
      {
        PermitsIsShouldRetry(m.(restartPolicy := policy), Flat(PolicyUpdate(policy, m.successExitCodes)),
                             SupervisorLost, attempt - 1);
      }
    } else {
      var policy := Allowing(Retries(m) + 1);
      DelaysAgreeExactly(policy.service.policy.backoff);
      assert Admissible(m.origin, policy);
      assert PolicyPermits(m.(restartPolicy := policy), SupervisorLost, Retries(m) + 1) == Ok(true);
      assert !ShouldRetry(Flat(PolicyUpdate(policy, m.successExitCodes)), false, attempt - 1);
    }
  }

  // ---- Taking the loop up again ----

  datatype CheckpointPhase = WasLaunching | WasRunning | WasWaiting(retryAtMs: UnixMs)

  /** The checkpoint that stands for a state of the machine: attempt and phase, and nothing of its retry count. */
  ghost predicate Recorded(m: ExecutionState, attempt: nonzero32, phase: CheckpointPhase) {
    match phase
    case WasLaunching => m.phase == Launching(attempt)
    case WasRunning => m.phase == Running(attempt)
    case WasWaiting(_) => m.phase.RestartBackoff? && m.phase.nextAttempt == attempt
  }

  /**
    What interrupts the wait of the replacing supervisor, and the clocks when it starts. A pending
    retry whose time is over is not waited for.
  */
  datatype RecoveryInput = RecoveryInput(at: BootInstant, nowMs: UnixMs, plan: StopPlan, waits: seq<WaitInput>)

  function Heard(phase: CheckpointPhase, input: RecoveryInput): seq<WaitInput> {
    if phase.WasWaiting? && phase.retryAtMs <= input.nowMs then [] else input.waits
  }

  /** The machine is told that the supervisor is lost, unless its retry is pending. */
  function Lost(m: ExecutionState, at: BootInstant): Result<ExecutionState, Error> {
    if m.phase.RestartBackoff? then Ok(m) else StateOf(Transit(m, SupervisorLostEvent(at)))
  }

  function NewWait(m: ExecutionState, t: ExecutionState, at: BootInstant): seq<Action> {
    if t.phase.RestartBackoff? && !m.phase.RestartBackoff?
    then [Wait(t.phase.nextAttempt, t.phase.retry, at, t.phase.retryAt)] else []
  }

  function MachineRecovery(m: ExecutionState, phase: CheckpointPhase, input: RecoveryInput, cause: StopCause)
    : Result<Progress, Error>
  {
    match Lost(m, input.at)
    case Err(error) => Err(error)
    case Ok(t) =>
      match FeedBackoff(t, Heard(phase, input), cause, input.plan, input.at)
      case Err(error) => Err(error)
      case Ok(next) => Ok(Progress(NewWait(m, t, input.at) + EndAction(next.phase), next))
  }

  // ---- The wait after a recovery ----

  /** As for any wait, except that a denied retry counts as failed whatever the lost attempt's exit was. */
  ghost predicate SameRecovery(w: WaitOutcome, s: ExecutionState, t: ExecutionState, cause: StopCause)
    requires s.phase.RestartBackoff?
  {
    match w
    case Elapsed(_) => SameWait(w, s, t, cause)
    case StoppedWaiting => SameWait(w, s, t, cause)
    case RetryDenied(_) => t.phase.Terminal? && t.phase.outcome.Failed?
  }

  ghost predicate RecoveriesAgree(s: ExecutionState, settings: Settings, retries: u32, inputs: seq<WaitInput>,
                                  cause: StopCause, plan: StopPlan, at: BootInstant)
    requires s.phase.RestartBackoff?
  {
    var r := MachineWait(s, inputs, cause, plan, at);
    r.Ok? && SameRecovery(LoopWait(settings, false, retries, inputs), s, r.value, cause)
  }

  /**
    The wait is steady for an exit that is taken for a failure, and an update that denies the
    retry does not call it a success.
  */
  predicate SteadyRecovery(before: Settings, end: AttemptEnd, retries: u32, inputs: seq<WaitInput>) {
    && Steady(before, end, false, retries, inputs)
    && match LoopWait(before, false, retries, inputs) {
         case RetryDenied(after) => !Succeeds(after.codes, end)
         case _ => true
       }
  }

  /** An attempt that was lost has no exit code, and every wait after it is such a one. */
  lemma {:induction false} LostIsSteady(before: Settings, retries: u32, inputs: seq<WaitInput>)
    ensures SteadyRecovery(before, SupervisorLost, retries, inputs)
    decreases |inputs|
  {
    if inputs != [] && inputs[0].UpdateInput? {
      LostIsSteady(Flat(inputs[0].update), retries, inputs[1..]);
    }
  }

  lemma {:induction false} DeniedStays(settings: Settings, retries: u32, inputs: seq<WaitInput>, n: nat)
    requires n <= |inputs| && LoopWait(settings, false, retries, inputs[..n]).RetryDenied?
    ensures LoopWait(settings, false, retries, inputs) == LoopWait(settings, false, retries, inputs[..n])
    decreases n
  {
    assert inputs[..n][0] == inputs[0] && inputs[..n][1..] == inputs[1..][..n - 1];
    var after := Flat(inputs[0].update);
    if ShouldRetry(after, false, retries) {
      DeniedStays(after, retries, inputs[1..], n - 1);
    }
  }

  lemma {:induction false} SteadyRecoveryAgrees(
    s: ExecutionState, settings: Settings, retries: u32, inputs: seq<WaitInput>, n: nat,
    cause: StopCause, plan: StopPlan, at: BootInstant)
    requires Pending(s, settings, false, retries) && CauseMatches(s.origin, cause) && n <= |inputs|
    requires AdmissibleWait(s.origin, inputs) && SteadyRecovery(settings, s.phase.previousEnd, retries, inputs)
    ensures RecoveriesAgree(s, settings, retries, inputs[..n], cause, plan, at)
  {
    SteadyPrefix(settings, s.phase.previousEnd, false, retries, inputs, n);
    SteadyAgrees(s, settings, false, retries, inputs[..n], cause, plan, at);
    if LoopWait(settings, false, retries, inputs[..n]).RetryDenied? {
      DeniedStays(settings, retries, inputs, n);
    }
  }

  lemma OneWaitsDiffers(s: ExecutionState, settings: Settings, retries: u32, inputs: seq<WaitInput>,
                        cause: StopCause, plan: StopPlan, at: BootInstant)
    requires s.phase.RestartBackoff? && OneWaits(s, settings, false, retries, inputs, cause, plan, at)
    ensures !RecoveriesAgree(s, settings, retries, inputs, cause, plan, at)
  {
  }

  /**
    A replacing supervisor that waits for a pending retry takes the exit before it for a failure.
    It has come to the same thing as the machine after every input, whatever that exit was, if
    and only if the wait is steady for a failure and no update denies the retry while it calls the
    exit a success.
  */
  lemma {:induction false} RecoveriesAgreeExactly(
    s: ExecutionState, settings: Settings, retries: u32, inputs: seq<WaitInput>,
    cause: StopCause, plan: StopPlan, at: BootInstant)
    requires Pending(s, settings, false, retries) && CauseMatches(s.origin, cause)
    requires AdmissibleWait(s.origin, inputs)
    ensures (forall n :: 0 <= n <= |inputs| ==>
               RecoveriesAgree(s, settings, retries, inputs[..n], cause, plan, at)) <==>
            SteadyRecovery(settings, s.phase.previousEnd, retries, inputs)
  {
    if SteadyRecovery(settings, s.phase.previousEnd, retries, inputs) {
      forall n | 0 <= n <= |inputs|
        ensures RecoveriesAgree(s, settings, retries, inputs[..n], cause, plan, at)
      {
        SteadyRecoveryAgrees(s, settings, retries, inputs, n, cause, plan, at);
      }
    } else if Steady(settings, s.phase.previousEnd, false, retries, inputs) {
      SteadyAgrees(s, settings, false, retries, inputs, cause, plan, at);
      assert inputs[..|inputs|] == inputs;
    } else {
      var n := UnsteadyDisagrees(s, settings, false, retries, inputs, cause, plan, at);
      OneWaitsDiffers(s, settings, retries, inputs[..n], cause, plan, at);
    }
  }

  /** The wait after a recovery: a denied retry counts as failed, whatever the lost attempt's exit was. */
  method RecoveredWait(kind: string, before: Settings, retries: u32, inputs: seq<WaitInput>,
                       ghost t: ExecutionState, ghost cause: StopCause, ghost plan: StopPlan, ghost at: BootInstant)
    returns (actions: seq<LoopAction>, done: bool, settings: Settings)
    requires kind == "job" <==> t.origin.JobExecution?
    requires Pending(t, before, false, retries) && SteadyRecovery(before, t.phase.previousEnd, retries, inputs)
    requires AdmissibleWait(t.origin, inputs) && CauseMatches(t.origin, cause)
    ensures var r := FeedBackoff(t, inputs, cause, plan, at);
            && r.Ok? && SameActions(actions, EndAction(r.value.phase))
            && if done then r.value.phase.Terminal?
               else r.value == With(t, Current(r.value)).(phase := Launching(t.phase.nextAttempt))
                    && Translates(r.value, settings)
  {
    var outcome := WaitBackoff(before, false, retries, inputs);
    WaitEnds(t, before, false, retries, inputs, cause, plan, at);
    match outcome {
      case Elapsed(latest) =>
        return [], false, latest;
      case StoppedWaiting =>
        return [Finishes(EndKind(kind, true, false), false)], true, before;
      case RetryDenied(latest) =>
        return [Finishes(EndKind(kind, false, false), false)], true, latest;
    }
  }

  /** What the machine makes of a lost supervisor while an attempt is launching or running. */
  lemma LostVerdict(m: ExecutionState, settings: Settings, attempt: nonzero32, at: BootInstant)
    requires m.phase == Launching(attempt) || m.phase == Running(attempt)
    requires Translates(m, settings) && Retries(m) == attempt - 1 && Lost(m, at).Ok?
    ensures var t := Lost(m, at).value;
            if m.origin.JobExecution? then t.phase == Terminal(OutcomeUnknown(attempt))
            else if ShouldRetry(settings, false, attempt - 1) then
              var retryAt := CheckedAdd(at, DelayMs(settings, attempt) * NANOS_PER_MS);
              && attempt < U32_MAX && retryAt.Some?
              && t == m.(lastRetry := Some(attempt),
                         phase := RestartBackoff(attempt, SupervisorLost, attempt + 1, attempt, retryAt.value))
            else EndsDenied(t, settings.codes, SupervisorLost)
  {
    if m.origin.ServiceIntent? {
      assert AfterStableRun(m, SupervisorLost) == m;
      VerdictAgrees(m, settings, attempt, SupervisorLost, at, attempt - 1);
    }
  }

  /** The loss ends the execution. */
  lemma LostEnds(m: ExecutionState, t: ExecutionState, input: RecoveryInput, cause: StopCause)
    requires t.phase.Terminal?
    ensures FeedBackoff(t, input.waits, cause, input.plan, input.at) == Ok(t)
    ensures NewWait(m, t, input.at) + EndAction(t.phase) == EndAction(t.phase)
  {
  }

  /** The loss is followed by a retry, which the loop waits for. */
  lemma LostPends(m: ExecutionState, settings: Settings, attempt: nonzero32, at: BootInstant)
    requires m.phase == Launching(attempt) || m.phase == Running(attempt)
    requires Translates(m, settings) && Retries(m) == attempt - 1 && Lost(m, at).Ok?
    requires m.origin.ServiceIntent? && ShouldRetry(settings, false, attempt - 1)
    ensures attempt < U32_MAX
    ensures var t := Lost(m, at).value;
            && Pending(t, settings, false, attempt - 1) && t.phase.previousEnd == SupervisorLost
            && t.origin == m.origin && t.lastRetry == Some(attempt) && t.phase.nextAttempt == attempt + 1
            && SameActions([Waits(attempt + 1, attempt, DelayMs(settings, attempt))], NewWait(m, t, at))
  {
    LostVerdict(m, settings, attempt, at);
  }

  /** The wait for the retry of a lost attempt, and what follows it. */
  method RetryLost(kind: string, before: Settings, attempt: nonzero32, retries: nonzero32, input: RecoveryInput,
                   ghost m: ExecutionState, ghost t: ExecutionState, ghost cause: StopCause)
    returns (actions: seq<LoopAction>, done: bool, settings: Settings)
    requires (kind == "job" <==> t.origin.JobExecution?) && CauseMatches(t.origin, cause)
    requires Pending(t, before, false, retries - 1) && t.phase.previousEnd == SupervisorLost
    requires SameActions([Waits(attempt, retries, DelayMs(before, retries))], NewWait(m, t, input.at))
    requires AdmissibleWait(t.origin, input.waits)
    ensures var r := FeedBackoff(t, input.waits, cause, input.plan, input.at);
            && r.Ok? && SameActions(actions, NewWait(m, t, input.at) + EndAction(r.value.phase))
            && if done then r.value.phase.Terminal?
               else r.value == With(t, Current(r.value)).(phase := Launching(t.phase.nextAttempt))
                    && Translates(r.value, settings)
  {
    var delay := RetryDelay(before.initialMs, before.multiplier, before.maximumMs, retries);
    var final;
    LostIsSteady(before, retries - 1, input.waits);
    final, done, settings := RecoveredWait(kind, before, retries - 1, input.waits, t, cause, input.plan, input.at);
    actions := [Waits(attempt, retries, delay)];
    SameActionsConcat(actions, final, NewWait(m, t, input.at),
                      EndAction(FeedBackoff(t, input.waits, cause, input.plan, input.at).value.phase));
    actions := actions + final;
  }

  /** An attempt that was launching or running when its supervisor was lost. */
  method RecoverLost(kind: string, before: Settings, lostAttempt: nonzero32, input: RecoveryInput,
                     ghost m: ExecutionState, ghost cause: StopCause)
    returns (actions: seq<LoopAction>, done: bool, settings: Settings, attempt: nonzero32, retries: u32)
    requires m.phase == Launching(lostAttempt) || m.phase == Running(lostAttempt)
    requires Retries(m) == lostAttempt - 1 && Lost(m, input.at).Ok?
    requires (kind == "job" <==> m.origin.JobExecution?) && Translates(m, before)
    requires AdmissibleWait(m.origin, input.waits) && CauseMatches(m.origin, cause)
    ensures var t := Lost(m, input.at).value;
            var r := FeedBackoff(t, input.waits, cause, input.plan, input.at);
            && r.Ok? && SameActions(actions, NewWait(m, t, input.at) + EndAction(r.value.phase))
            && if done then r.value.phase.Terminal?
               else Mirrors(r.value, kind, settings, attempt, retries) && r.value.origin == m.origin
  {
    attempt, settings := lostAttempt, before;
    retries := attempt - 1;
    ghost var t := Lost(m, input.at).value;
    if kind == "job" || !ShouldRetry(before, false, retries) {
      LostVerdict(m, before, attempt, input.at);
      LostEnds(m, t, input, cause);
      var ended := if kind == "job" then "outcome-unknown" else EndKind(kind, false, false);
      return [Finishes(ended, false)], true, settings, attempt, retries;
    }
    LostPends(m, before, attempt, input.at);
    retries, attempt := SaturatingIncrement(retries), SaturatingIncrement(attempt);
    actions, done, settings := RetryLost(kind, before, attempt, retries, input, m, t, cause);
    if !done {
      MirrorsAfterWait(kind, t, FeedBackoff(t, input.waits, cause, input.plan, input.at).value,
                       settings, attempt, retries);
    }
  }

  /**
    The replacing supervisor restores the retry count from the attempt number, reports a running
    attempt as lost, and waits for a pending retry, or for the one that follows the loss. From a
    state whose retry count is not behind, and if the wait for a pending retry is steady, it does
    what the machine does and goes on as its loop.
  */
  method Recover(kind: string, before: Settings, checkpointAttempt: nonzero32, phase: CheckpointPhase,
                 input: RecoveryInput, ghost m: ExecutionState, ghost cause: StopCause)
    returns (actions: seq<LoopAction>, done: bool, settings: Settings, attempt: nonzero32, retries: u32)
    requires Recorded(m, checkpointAttempt, phase) && WellFormed(m) && Lag(m) == 0
    requires (kind == "job" <==> m.origin.JobExecution?) && Translates(m, before)
    requires AdmissibleWait(m.origin, input.waits) && CauseMatches(m.origin, cause)
    requires phase.WasWaiting? && checkpointAttempt >= 2 ==>
               SteadyRecovery(before, m.phase.previousEnd, checkpointAttempt - 2, Heard(phase, input))
    requires Lost(m, input.at).Ok?
    ensures MachineRecovery(m, phase, input, cause).Ok?
    ensures SameActions(actions, MachineRecovery(m, phase, input, cause).value.actions)
    ensures var after := MachineRecovery(m, phase, input, cause).value.state;
            if done then after.phase.Terminal?
            else Mirrors(after, kind, settings, attempt, retries) && after.origin == m.origin
  {
    attempt, settings := checkpointAttempt, before;
    match phase {
      case WasWaiting(retryAtMs) =>
        retries := attempt - 1;
        var inputs := if retryAtMs <= input.nowMs then [] else input.waits;
        PendingRecorded(m, before, attempt);
        actions, done, settings :=
          RecoveredWait(kind, before, attempt - 2, inputs, m, cause, input.plan, input.at);
        if !done {
          ghost var after := FeedBackoff(m, inputs, cause, input.plan, input.at).value;
          MirrorsAfterWait(kind, m, after, settings, attempt, retries);
        }
      case _ =>
        actions, done, settings, attempt, retries := RecoverLost(kind, before, attempt, input, m, cause);
    }
  }

  /** A pending retry that is recorded with its attempt number is pending for the loop, too. */
  lemma PendingRecorded(m: ExecutionState, settings: Settings, attempt: nonzero32)
    requires m.phase.RestartBackoff? && m.phase.nextAttempt == attempt && WellFormed(m) && Lag(m) == 0
    requires Translates(m, settings)
    ensures attempt >= 2 && m.lastRetry == Some(attempt - 1) && Pending(m, settings, false, attempt - 2)
  {
    PermitsIsShouldRetry(m, settings, m.phase.previousEnd, attempt - 2);
  }
}
