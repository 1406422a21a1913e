/**
  The supervisor's attempt loop (crates/supervisor/src/runner.rs), which works on the flat
  settings that `apply_restart` (crates/controller/src/manager.rs) derives from a typed policy,
  and its refinement of the typed execution machine.
*/
module Runner {
  import opened Base
  import opened Restart
  import opened Executions
  import opened ExecutionProofs
  import opened BackoffWaits

  // ---- What the environment does to one execution ----

  /** Wall-clock milliseconds since the Unix epoch, as the supervisor reads them. */
  type UnixMs = n: nat | n <= I64_MAX

  datatype AttemptResult =
    | NotLaunched(stopRequested: bool)
    | ProcessEnded(exitCode: u32, startedMs: UnixMs, endedMs: UnixMs, updates: seq<PolicyUpdate>)
    | ProcessStopped(exitCode: u32, timedOut: bool, updates: seq<PolicyUpdate>)

  /**
    One attempt, ended at boot instant `at` and at `nowMs` by the wall clock, under the stop plan
    of the moment, and what interrupts the wait after it.
  */
  datatype AttemptInput = AttemptInput(update: Option<PolicyUpdate>, result: AttemptResult, plan: StopPlan,
                                       at: BootInstant, nowMs: UnixMs, backoff: seq<WaitInput>)

  // ---- The machine's account of the same environment ----

  /** A wait is known by the instant it starts from and the instant it lasts until. */
  datatype Action =
    | Launch(attempt: nat)
    | Wait(nextAttempt: nat, retry: nat, from: BootInstant, retryAt: BootInstant)
    | Finished(kind: string, forced: bool)

  function RanFor(started: UnixMs, ended: UnixMs): Duration {
    (if ended > started then ended - started else 0) * NANOS_PER_MS
  }

  function AllUpdateEvents(updates: seq<PolicyUpdate>): seq<Event> {
    if updates == [] then [] else UpdateEvents(updates[0]) + AllUpdateEvents(updates[1..])
  }

  function Listed(update: Option<PolicyUpdate>): seq<PolicyUpdate> {
    if update.Some? then [update.value] else []
  }

  function DueEvents(timedOut: bool, plan: StopPlan, at: BootInstant): seq<Event> {
    if timedOut && !plan.Kill? && CheckedAdd(at, plan.timeout).Some?
    then [StopDeadlineReachedEvent(CheckedAdd(at, plan.timeout).value)] else []
  }

  /** The events of one attempt after its update; a stop that is not a kill has its deadline when it times out. */
  function ResultEvents(attempt: nonzero32, input: AttemptInput, cause: StopCause): seq<Event> {
    match input.result
    case NotLaunched(stop) =>
      (if stop then [StopRequestedEvent(cause, input.plan, input.at)] else []) +
      [LaunchFailedEvent(attempt, Preflight(0), input.at)]
    case ProcessEnded(code, started, ended, updates) =>
      [LaunchSucceededEvent(attempt)] + AllUpdateEvents(updates) +
      [ProcessExitedEvent(attempt, code, RanFor(started, ended), input.at)]
    case ProcessStopped(code, timedOut, updates) =>
      [LaunchSucceededEvent(attempt)] + AllUpdateEvents(updates) +
      ([StopRequestedEvent(cause, input.plan, input.at)] +
       (DueEvents(timedOut, input.plan, input.at) + [ProcessExitedEvent(attempt, code, 0, input.at)]))
  }

  function AttemptEvents(attempt: nonzero32, input: AttemptInput, cause: StopCause): seq<Event> {
    AllUpdateEvents(Listed(input.update)) + ResultEvents(attempt, input, cause)
  }

  /** The wait of a pending retry: updates, a stop, or its own deadline. */
  function FeedBackoff(s: ExecutionState, inputs: seq<WaitInput>, cause: StopCause, plan: StopPlan, at: BootInstant)
    : Result<ExecutionState, Error>
  {
    match MachineWait(s, inputs, cause, plan, at)
    case Err(error) => Err(error)
    case Ok(t) => if t.phase.RestartBackoff? then Feed(t, [RestartDeadlineReachedEvent(t.phase.retryAt)]) else Ok(t)
  }

  function KindOf(outcome: Outcome): string {
    match outcome
    case Completed(_) => "completed"
    case Failed(_) => "failed"
    case OutcomeUnknown(_) => "outcome-unknown"
    case Stopped(_, _) => "stopped"
    case Cancelled(_, _) => "cancelled"
  }

  predicate ForcedOf(outcome: Outcome) {
    (outcome.Stopped? || outcome.Cancelled?) && outcome.forced
  }

  function Prepend(actions: seq<Action>, rest: Result<seq<Action>, Error>): Result<seq<Action>, Error> {
    match rest
    case Err(error) => Err(error)
    case Ok(more) => Ok(actions + more)
  }

  datatype Progress = Progress(actions: seq<Action>, state: ExecutionState)

  function EndAction(phase: Phase): seq<Action> {
    if phase.Terminal? then [Finished(KindOf(phase.outcome), ForcedOf(phase.outcome))] else []
  }

  /** What the machine does with one attempt and the wait after it. */
  function MachineAttempt(s: ExecutionState, input: AttemptInput, cause: StopCause): Result<Progress, Error>
    requires s.phase.Launching?
  {
    var launch := Launch(s.phase.attempt);
    match Feed(s, AttemptEvents(s.phase.attempt, input, cause))
    case Err(error) => Err(error)
    case Ok(ended) =>
      if !ended.phase.RestartBackoff? then Ok(Progress([launch] + EndAction(ended.phase), ended))
      else
        var wait := Wait(ended.phase.nextAttempt, ended.phase.retry, input.at, ended.phase.retryAt);
        match FeedBackoff(ended, input.backoff, cause, input.plan, input.at)
        case Err(error) => Err(error)
        case Ok(next) => Ok(Progress([launch, wait] + EndAction(next.phase), next))
  }

  /** What the machine does from a launching state, one attempt input after the other. */
  function MachineTrace(s: ExecutionState, inputs: seq<AttemptInput>, cause: StopCause): Result<seq<Action>, Error>
    decreases |inputs|
  {
    if inputs == [] || !s.phase.Launching? then Ok([])
    else
      match MachineAttempt(s, inputs[0], cause)
      case Err(error) => Err(error)
      case Ok(p) => Prepend(p.actions, MachineTrace(p.state, inputs[1..], cause))
  }

  function FeedFrom(s: Result<ExecutionState, Error>, events: seq<Event>): Result<ExecutionState, Error> {
    match s
    case Err(error) => Err(error)
    case Ok(state) => Feed(state, events)
  }

  lemma {:induction false} FeedConcat(s: ExecutionState, first: seq<Event>, second: seq<Event>)
    ensures Feed(s, first + second) == FeedFrom(Feed(s, first), second)
    decreases |first|
  {
    if first == [] {
      assert first + second == second;
    } else {
      assert (first + second)[1..] == first[1..] + second;
      if Transit(s, first[0]).Ok? {
        FeedConcat(Transit(s, first[0]).value.state, first[1..], second);
      }
    }
  }

  // ---- The scripts that are covered ----

  ghost predicate AllAdmissible(origin: Origin, updates: seq<PolicyUpdate>) {
    forall u <- updates :: Admissible(origin, u.policy)
  }

  function UpdatesOf(result: AttemptResult): seq<PolicyUpdate> {
    if result.NotLaunched? then [] else result.updates
  }

  ghost predicate AdmissibleInput(origin: Origin, input: AttemptInput) {
    && AllAdmissible(origin, Listed(input.update))
    && AllAdmissible(origin, UpdatesOf(input.result))
    && AdmissibleWait(origin, input.backoff)
  }

  /** The wait after an attempt that ended in `ended`, if there is one, is steady. */
  predicate SteadyAfter(ended: ExecutionState, inputs: seq<WaitInput>) {
    ended.phase.RestartBackoff? ==>
      Steady(Flat(Current(ended)), ended.phase.previousEnd, !FailedEnd(ended, ended.phase.previousEnd),
             ended.phase.retry - 1, inputs)
  }

  /** Every wait that the machine comes to on this script is steady. */
  predicate SteadyTrace(s: ExecutionState, inputs: seq<AttemptInput>, cause: StopCause)
    decreases |inputs|
  {
    inputs == [] || !s.phase.Launching? ||
    match Feed(s, AttemptEvents(s.phase.attempt, inputs[0], cause))
    case Err(_) => true
    case Ok(ended) =>
      && SteadyAfter(ended, inputs[0].backoff)
      && match MachineAttempt(s, inputs[0], cause) {
           case Err(_) => true
           case Ok(p) => SteadyTrace(p.state, inputs[1..], cause)
         }
  }

  // ---- The machine's side of one attempt ----

  /** The loop's stable-run test, on wall-clock milliseconds. */
  predicate Resets(settings: Settings, started: UnixMs, ended: UnixMs) {
    settings.resetAfterMs != 0 && ended - started >= Min(settings.resetAfterMs, I64_MAX)
  }

  lemma ResetAgrees(s: ExecutionState, settings: Settings, code: u32, started: UnixMs, ended: UnixMs)
    requires Translates(s, settings)
    ensures AfterStableRun(s, Exited(code, RanFor(started, ended))) ==
            if Resets(settings, started, ended) then s.(lastRetry := None) else s
  {
    if s.restartPolicy.Service? && !s.restartPolicy.service.Never? {
      WholeMsValue(s.restartPolicy.service.policy.resetAfter);
    }
  }

  function DelayMs(settings: Settings, retry: nonzero32): u64 {
    RetryDelayMs(settings.initialMs, settings.multiplier, settings.maximumMs, retry)
  }

  lemma BackoffAgrees(s: ExecutionState, settings: Settings, end: AttemptEnd, retry: nonzero32)
    requires Translates(s, settings) && PolicyPermits(s, end, retry) == Ok(true)
    ensures Backoff(s).Ok?
    ensures DelayMs(settings, retry) * NANOS_PER_MS == Delay(Backoff(s).value, retry)
  {
    assert DelaysAgree(Backoff(s).value);
    assert LoopDelay(Backoff(s).value, retry) == Delay(Backoff(s).value, retry);
  }

  function Latest(u: PolicyUpdate, updates: seq<PolicyUpdate>): PolicyUpdate {
    if updates == [] then u else updates[|updates| - 1]
  }

  /** Outside a wait an update only replaces what it brings. */
  lemma FeedUpdate(s: ExecutionState, u: PolicyUpdate)
    requires !s.phase.RestartBackoff? && KindMatches(s.origin, u.policy)
    ensures Feed(s, UpdateEvents(u)) == Ok(With(s, u))
  {
    FeedTwo(s, SuccessExitCodesChangedEvent(u.codes), RestartPolicyChangedEvent(u.policy));
  }

  lemma {:induction false} FeedUpdates(s: ExecutionState, updates: seq<PolicyUpdate>)
    requires !s.phase.RestartBackoff? && forall u <- updates :: KindMatches(s.origin, u.policy)
    ensures Feed(s, AllUpdateEvents(updates)) == Ok(With(s, Latest(Current(s), updates)))
    decreases |updates|
  {
    if updates != [] {
      assert updates[0] in updates;
      FeedUpdate(s, updates[0]);
      FeedConcat(s, UpdateEvents(updates[0]), AllUpdateEvents(updates[1..]));
      FeedUpdates(With(s, updates[0]), updates[1..]);
    }
  }

  /** The settings an attempt launches and ends under. */
  function LaunchUpdate(u: PolicyUpdate, input: AttemptInput): PolicyUpdate {
    Latest(u, Listed(input.update))
  }

  function EndUpdate(u: PolicyUpdate, input: AttemptInput): PolicyUpdate {
    Latest(LaunchUpdate(u, input), UpdatesOf(input.result))
  }

  function EndOf(input: AttemptInput): AttemptEnd
    requires !input.result.ProcessStopped?
  {
    match input.result
    case NotLaunched(_) => LaunchFailed(Preflight(0))
    case ProcessEnded(code, started, ended, _) => Exited(code, RanFor(started, ended))
  }

  predicate StopsAttempt(input: AttemptInput) {
    input.result.ProcessStopped? || (input.result.NotLaunched? && input.result.stopRequested)
  }

  /** FinishAttempt reads everything but the phase. */
  lemma FinishAttemptAnyPhase(s: ExecutionState, phase: Phase, attempt: nonzero32, end: AttemptEnd, at: BootInstant)
    ensures var (here, there) := (FinishAttempt(s, attempt, end, at),
                                  FinishAttempt(s.(phase := phase), attempt, end, at));
            && there.Ok? == here.Ok?
            && (here.Ok? ==> there.value.state == here.value.state)
            && (here.Err? ==> there == here)
  {
  }

  function StateOf(step: Executions.Step): Result<ExecutionState, Error> {
    match step
    case Err(error) => Err(error)
    case Ok(t) => Ok(t.state)
  }

  /** Launching and then any updates leave the machine running under the latest of them. */
  lemma FeedRunning(s: ExecutionState, updates: seq<PolicyUpdate>, rest: seq<Event>)
    requires s.phase.Launching? && forall u <- updates :: KindMatches(s.origin, u.policy)
    ensures Feed(s, [LaunchSucceededEvent(s.phase.attempt)] + AllUpdateEvents(updates) + rest) ==
            Feed(With(s, Latest(Current(s), updates)).(phase := Running(s.phase.attempt)), rest)
  {
    var launched := LaunchSucceededEvent(s.phase.attempt);
    FeedConcat(s, [launched] + AllUpdateEvents(updates), rest);
    FeedConcat(s, [launched], AllUpdateEvents(updates));
    FeedOne(s, launched);
    FeedUpdates(s.(phase := Running(s.phase.attempt)), updates);
  }

  /** An attempt that nobody stops ends, from its launch, in `FinishAttempt` under the latest update. */
  lemma FeedResult(s: ExecutionState, input: AttemptInput, cause: StopCause)
    requires s.phase.Launching? && AllAdmissible(s.origin, UpdatesOf(input.result)) && !StopsAttempt(input)
    ensures Feed(s, ResultEvents(s.phase.attempt, input, cause)) ==
            StateOf(FinishAttempt(With(s, Latest(Current(s), UpdatesOf(input.result))), s.phase.attempt,
                                  EndOf(input), input.at))
  {
    var attempt := s.phase.attempt;
    match input.result {
      case NotLaunched(_) =>
        var failed := LaunchFailedEvent(attempt, Preflight(0), input.at);
        assert [] + [failed] == [failed];
        FeedOne(s, failed);
      case ProcessEnded(code, started, ended, updates) =>
        var exited := ProcessExitedEvent(attempt, code, RanFor(started, ended), input.at);
        FeedRunning(s, updates, [exited]);
        var ending := With(s, Latest(Current(s), updates));
        FeedOne(ending.(phase := Running(attempt)), exited);
        FinishAttemptAnyPhase(ending, Running(attempt), attempt, EndOf(input), input.at);
    }
  }

  /** An attempt that nobody stops ends, for the machine, in `FinishAttempt` under the latest update. */
  lemma FeedAttempt(s: ExecutionState, input: AttemptInput, cause: StopCause)
    requires s.phase.Launching? && AdmissibleInput(s.origin, input) && !StopsAttempt(input)
    ensures Feed(s, AttemptEvents(s.phase.attempt, input, cause)) ==
            StateOf(FinishAttempt(With(s, EndUpdate(Current(s), input)), s.phase.attempt, EndOf(input), input.at))
  {
    FeedUpdates(s, Listed(input.update));
    FeedConcat(s, AllUpdateEvents(Listed(input.update)), ResultEvents(s.phase.attempt, input, cause));
    FeedResult(With(s, LaunchUpdate(Current(s), input)), input, cause);
  }

  /** Whether a stopped attempt was killed: by a kill plan, or because the graceful stop timed out. */
  predicate StopForced(input: AttemptInput) {
    input.result.ProcessStopped? && (input.plan.Kill? || input.result.timedOut)
  }

  lemma FeedStop(s: ExecutionState, cause: StopCause, plan: StopPlan, at: BootInstant, rest: seq<Event>)
    ensures var stop := StopRequestedEvent(cause, plan, at);
            Feed(s, [stop] + rest) == FeedFrom(StateOf(Transit(s, stop)), rest)
  {
    FeedConcat(s, [StopRequestedEvent(cause, plan, at)], rest);
    FeedOne(s, StopRequestedEvent(cause, plan, at));
  }

  /** The exit of a stopping process, after its deadline if it timed out. */
  lemma FeedExit(s: ExecutionState, due: seq<Event>, exited: Event)
    requires s.phase.Stopping? && !s.phase.phase.AwaitingLaunch?
    requires exited.ProcessExitedEvent? && exited.attempt == s.phase.attempt
    requires due == [] || (s.phase.phase.Graceful? && due == [StopDeadlineReachedEvent(s.phase.phase.deadline)])
    ensures Feed(s, due + [exited]) ==
            Ok(s.(phase := Terminal(StopOutcome(s.phase.cause, s.phase.phase.Killing? || due != []))))
  {
    FeedConcat(s, due, [exited]);
    if due != [] {
      FeedOne(s, due[0]);
      FeedOne(s.(phase := s.phase.(phase := Killing)), exited);
    } else {
      FeedOne(s, exited);
    }
  }

  /** The stop's outcome, unless the stop deadline cannot be represented. */
  ghost predicate StopsWith(r: Result<ExecutionState, Error>, plan: StopPlan, at: BootInstant, cause: StopCause,
                            forced: bool)
  {
    && (r.Ok? <==> plan.Kill? || CheckedAdd(at, plan.timeout).Some?)
    && (r.Ok? ==> r.value.phase == Terminal(StopOutcome(cause, forced)))
    && (r.Err? ==> r.error.DeadlineOverflow?)
  }

  /** Stopped before its process exists, the execution ends with the stop's outcome, not forced. */
  lemma FeedStoppedLaunch(s: ExecutionState, at: BootInstant, cause: StopCause, plan: StopPlan)
    requires s.phase.Launching? && CauseMatches(s.origin, cause)
    ensures StopsWith(Feed(s, [StopRequestedEvent(cause, plan, at)] +
                              [LaunchFailedEvent(s.phase.attempt, Preflight(0), at)]), plan, at, cause, false)
  {
    var stop, failed := StopRequestedEvent(cause, plan, at), LaunchFailedEvent(s.phase.attempt, Preflight(0), at);
    FeedStop(s, cause, plan, at, [failed]);
    if Transit(s, stop).Ok? {
      FeedOne(Transit(s, stop).value.state, failed);
    }
  }

  /** Stopped while its process runs, it ends forced exactly if killed at once or at the deadline. */
  lemma FeedStoppedProcess(s: ExecutionState, code: u32, timedOut: bool, at: BootInstant, cause: StopCause,
                           plan: StopPlan)
    requires s.phase.Running? && CauseMatches(s.origin, cause)
    ensures StopsWith(Feed(s, [StopRequestedEvent(cause, plan, at)] +
                              (DueEvents(timedOut, plan, at) + [ProcessExitedEvent(s.phase.attempt, code, 0, at)])),
                      plan, at, cause, plan.Kill? || timedOut)
  {
    var stop, due := StopRequestedEvent(cause, plan, at), DueEvents(timedOut, plan, at);
    var exited := ProcessExitedEvent(s.phase.attempt, code, 0, at);
    FeedStop(s, cause, plan, at, due + [exited]);
    if Transit(s, stop).Ok? {
      FeedExit(Transit(s, stop).value.state, due, exited);
    }
  }

  /** A stopped attempt ends the execution with the stop's outcome. */
  lemma FeedStoppedAttempt(s: ExecutionState, input: AttemptInput, cause: StopCause)
    requires s.phase.Launching? && AdmissibleInput(s.origin, input) && StopsAttempt(input)
    requires CauseMatches(s.origin, cause)
    ensures StopsWith(Feed(s, AttemptEvents(s.phase.attempt, input, cause)), input.plan, input.at, cause,
                      StopForced(input))
  {
    FeedUpdates(s, Listed(input.update));
    FeedConcat(s, AllUpdateEvents(Listed(input.update)), ResultEvents(s.phase.attempt, input, cause));
    var launching := With(s, LaunchUpdate(Current(s), input));
    match input.result {
      case NotLaunched(_) =>
        FeedStoppedLaunch(launching, input.at, cause, input.plan);
      case ProcessStopped(code, timedOut, updates) =>
        var exited := ProcessExitedEvent(s.phase.attempt, code, 0, input.at);
        FeedRunning(launching, updates, [StopRequestedEvent(cause, input.plan, input.at)] +
                                        (DueEvents(timedOut, input.plan, input.at) + [exited]));
        FeedStoppedProcess(With(launching, Latest(Current(launching), updates)).(phase := Running(s.phase.attempt)),
                           code, timedOut, input.at, cause, input.plan);
    }
  }

  // ---- The loop ----

  /** The loop's own account: it waits for a delay. */
  datatype LoopAction =
    | Launches(attempt: nat)
    | Waits(nextAttempt: nat, retry: nat, delayMs: u64)
    | Finishes(kind: string, forced: bool)

  /** The same action; a wait has the same attempt and ordinal, and from its start lasts as long. */
  predicate SameAction(l: LoopAction, m: Action) {
    match l
    case Launches(attempt) => m == Launch(attempt)
    case Waits(next, retry, delayMs) =>
      && m.Wait? && m.nextAttempt == next && m.retry == retry
      && CheckedAdd(m.from, delayMs * NANOS_PER_MS) == Some(m.retryAt)
    case Finishes(kind, forced) => m == Finished(kind, forced)
  }

  predicate SameActions(l: seq<LoopAction>, m: seq<Action>) {
    |l| == |m| && forall i :: 0 <= i < |l| ==> SameAction(l[i], m[i])
  }

  function SaturatingIncrement(n: u32): nonzero32 {
    if n == U32_MAX then n else n + 1
  }

  /** The observation kind that ends an execution. */
  function EndKind(kind: string, stopRequested: bool, successful: bool): string {
    if stopRequested then (if kind == "job" then "cancelled" else "stopped")
    else if successful then "completed" else "failed"
  }

  /** The loop's counters and settings stand for a launching machine state. */
  ghost predicate Mirrors(m: ExecutionState, kind: string, settings: Settings, attempt: nonzero32, retries: u32) {
    && m.phase == Launching(attempt)
    && (kind == "job" <==> m.origin.JobExecution?)
    && Translates(m, settings)
    && Retries(m) == retries
  }

  /** What the loop decides at the end of an attempt is what the machine decides. */
  lemma VerdictAgrees(m: ExecutionState, settings: Settings, attempt: nonzero32, end: AttemptEnd, at: BootInstant,
                      retries: u32)
    requires Translates(m, settings) && Retries(AfterStableRun(m, end)) == retries
    requires FinishAttempt(m, attempt, end, at).Ok?
    ensures retries < U32_MAX
    ensures var t := FinishAttempt(m, attempt, end, at).value.state;
            var successful := Succeeds(settings.codes, end);
            if ShouldRetry(settings, successful, retries) then
              var retryAt := CheckedAdd(at, DelayMs(settings, retries + 1) * NANOS_PER_MS);
              && attempt < U32_MAX && retryAt.Some?
              && t == m.(lastRetry := Some(retries + 1),
                         phase := RestartBackoff(attempt, end, attempt + 1, retries + 1, retryAt.value))
            else
              EndsDenied(t, settings.codes, end)
  {
    var s := AfterStableRun(m, end);
    PermitsIsShouldRetry(s, settings, end, retries);
    if ShouldRetry(settings, Succeeds(settings.codes, end), retries) {
      BackoffAgrees(s, settings, end, retries + 1);
    }
  }

  /** The retries an attempt leaves behind before its own verdict: none after a stable run. */
  function RetriesAfter(settings: Settings, input: AttemptInput, before: u32): u32 {
    if input.result.ProcessEnded? && Resets(settings, input.result.startedMs, input.result.endedMs) then 0 else before
  }

  lemma RetriesAgree(ending: ExecutionState, settings: Settings, input: AttemptInput)
    requires Translates(ending, settings) && !StopsAttempt(input)
    ensures Retries(AfterStableRun(ending, EndOf(input))) == RetriesAfter(settings, input, Retries(ending))
  {
    if input.result.ProcessEnded? {
      ResetAgrees(ending, settings, input.result.exitCode, input.result.startedMs, input.result.endedMs);
    } else {
      assert AfterStableRun(ending, EndOf(input)) == ending;
    }
  }

  datatype Verdict =
    | Ends(kind: string, forced: bool)
    | Retry(nextAttempt: nonzero32, retry: nonzero32, delayMs: u64, retryAtMs: UnixMs)

  /** The loop's verdict is the machine's: the same end, or a wait for the same attempt that lasts as long. */
  ghost predicate SameVerdict(v: Verdict, ended: ExecutionState, at: BootInstant) {
    match v
    case Ends(kind, forced) => EndAction(ended.phase) == [Finished(kind, forced)]
    case Retry(next, retry, delayMs, _) =>
      && ended.phase.RestartBackoff? && ended.phase.nextAttempt == next && ended.phase.retry == retry
      && CheckedAdd(at, delayMs * NANOS_PER_MS) == Some(ended.phase.retryAt)
  }

  lemma AdmissibleEnd(origin: Origin, u: PolicyUpdate, input: AttemptInput)
    requires Admissible(origin, u.policy) && AdmissibleInput(origin, input)
    ensures Admissible(origin, EndUpdate(u, input).policy)
  {
    var updates := UpdatesOf(input.result);
    if updates != [] {
      assert updates[|updates| - 1] in updates;
    }
    if input.update.Some? {
      assert Listed(input.update)[0] in Listed(input.update);
    }
  }

  /** How an attempt nobody stops ends for the machine, under the settings and counters of the loop. */
  lemma EndedAs(m: ExecutionState, kind: string, before: Settings, attempt: nonzero32, retriesBefore: u32,
                input: AttemptInput, cause: StopCause)
    requires Mirrors(m, kind, before, attempt, retriesBefore)
    requires AdmissibleInput(m.origin, input) && !StopsAttempt(input)
    ensures var ending, settings := With(m, EndUpdate(Current(m), input)), Flat(EndUpdate(Current(m), input));
            && Feed(m, AttemptEvents(attempt, input, cause)) ==
               StateOf(FinishAttempt(ending, attempt, EndOf(input), input.at))
            && Translates(ending, settings)
            && Retries(AfterStableRun(ending, EndOf(input))) == RetriesAfter(settings, input, retriesBefore)
  {
    AdmissibleEnd(m.origin, Current(m), input);
    FeedAttempt(m, input, cause);
    RetriesAgree(With(m, EndUpdate(Current(m), input)), Flat(EndUpdate(Current(m), input)), input);
  }

  /** An attempt nobody stops, under the settings it ends with: the loop's verdict is the machine's. */
  lemma EndAgrees(m: ExecutionState, kind: string, before: Settings, attempt: nonzero32, retriesBefore: u32,
                  input: AttemptInput, cause: StopCause)
    requires Mirrors(m, kind, before, attempt, retriesBefore)
    requires AdmissibleInput(m.origin, input) && !StopsAttempt(input)
    requires Feed(m, AttemptEvents(attempt, input, cause)).Ok?
    ensures var settings := Flat(EndUpdate(Current(m), input));
            var ended := Feed(m, AttemptEvents(attempt, input, cause)).value;
            var retries := RetriesAfter(settings, input, retriesBefore);
            && retries < U32_MAX
            && if ShouldRetry(settings, Succeeds(settings.codes, EndOf(input)), retries) then
                 var retryAt := CheckedAdd(input.at, DelayMs(settings, retries + 1) * NANOS_PER_MS);
                 && attempt < U32_MAX && retryAt.Some?
                 && ended.phase == RestartBackoff(attempt, EndOf(input), attempt + 1, retries + 1, retryAt.value)
                 && Translates(ended, settings) && ended.origin == m.origin && ended.lastRetry == Some(retries + 1)
               else
                 EndsDenied(ended, settings.codes, EndOf(input))
  {
    var ending, settings := With(m, EndUpdate(Current(m), input)), Flat(EndUpdate(Current(m), input));
    EndedAs(m, kind, before, attempt, retriesBefore, input, cause);
    VerdictAgrees(ending, settings, attempt, EndOf(input), input.at, RetriesAfter(settings, input, retriesBefore));
  }

  /** Runs one attempt: the settings it ends with, and how it ended. */
  method RunAttempt(before: Settings, input: AttemptInput, ghost u: PolicyUpdate)
    returns (settings: Settings, successful: bool, stopRequested: bool, forced: bool, stable: bool)
    requires before == Flat(u)
    ensures stopRequested == StopsAttempt(input)
    ensures forced == StopForced(input)
    ensures !stopRequested ==>
              && settings == Flat(EndUpdate(u, input))
              && successful == Succeeds(settings.codes, EndOf(input))
              && stable == (input.result.ProcessEnded? &&
                            Resets(settings, input.result.startedMs, input.result.endedMs))
  {
    settings, successful := before, false;
    if input.update.Some? {
      settings := Flat(input.update.value);
    }
    stopRequested, forced, stable := false, false, false;
    match input.result {
      case NotLaunched(stop) =>
        stopRequested := stop;
      case ProcessEnded(code, started, ended, updates) =>
        for i := 0 to |updates|
          invariant settings == Flat(Latest(LaunchUpdate(u, input), updates[..i]))
        {
          settings := Flat(updates[i]);
        }
        assert updates[..|updates|] == updates;
        successful, stable := code in settings.codes, Resets(settings, started, ended);
      case ProcessStopped(code, timedOut, updates) =>
        stopRequested, forced := true, input.plan.Kill? || timedOut;
    }
  }

  /** The first half of a turn: the attempt ends, and with it the execution unless it is retried. */
  method EndAttempt(kind: string, before: Settings, attempt: nonzero32, retriesBefore: u32, input: AttemptInput,
                    ghost m: ExecutionState, ghost cause: StopCause)
    returns (verdict: Verdict, settings: Settings, retries: u32, successful: bool)
    requires Mirrors(m, kind, before, attempt, retriesBefore)
    requires AdmissibleInput(m.origin, input) && CauseMatches(m.origin, cause)
    requires Feed(m, AttemptEvents(attempt, input, cause)).Ok?
    ensures SameVerdict(verdict, Feed(m, AttemptEvents(attempt, input, cause)).value, input.at)
    ensures verdict.Retry? ==>
              var ended := Feed(m, AttemptEvents(attempt, input, cause)).value;
              && verdict.retryAtMs == Min(input.nowMs + verdict.delayMs, I64_MAX)
              && verdict.nextAttempt == attempt + 1 && verdict.retry == retries >= 1
              && !StopsAttempt(input)
              && Pending(ended, settings, successful, retries - 1) && ended.phase.previousEnd == EndOf(input)
              && successful == Succeeds(settings.codes, EndOf(input))
              && ended.origin == m.origin && ended.lastRetry == Some(retries)
  {
    var stopRequested, forced, stable;
    settings, successful, stopRequested, forced, stable := RunAttempt(before, input, Current(m));
    retries := retriesBefore;
    if stopRequested {
      FeedStoppedAttempt(m, input, cause);
      return Ends(EndKind(kind, true, successful), forced), settings, retries, successful;
    }
    if stable {
      retries := 0;
    }
    EndAgrees(m, kind, before, attempt, retriesBefore, input, cause);
    if !ShouldRetry(settings, successful, retries) {
      return Ends(EndKind(kind, false, successful), false), settings, retries, successful;
    }
    retries := SaturatingIncrement(retries);
    var delay := RetryDelay(settings.initialMs, settings.multiplier, settings.maximumMs, retries);
    var retryAtMs := Min(input.nowMs + Min(delay, I64_MAX), I64_MAX);
    return Retry(SaturatingIncrement(attempt), retries, delay, retryAtMs), settings, retries, successful;
  }

  /** The whole wait, with the deadline at its end, as the loop and the machine see it. */
  lemma WaitEnds(s: ExecutionState, settings: Settings, successful: bool, retries: u32, inputs: seq<WaitInput>,
                 cause: StopCause, plan: StopPlan, at: BootInstant)
    requires Pending(s, settings, successful, retries) && CauseMatches(s.origin, cause)
    requires AdmissibleWait(s.origin, inputs) && Steady(settings, s.phase.previousEnd, successful, retries, inputs)
    ensures var r := FeedBackoff(s, inputs, cause, plan, at);
            && r.Ok?
            && match LoopWait(settings, successful, retries, inputs) {
                 case Elapsed(after) =>
                   && r.value == With(s, Current(r.value)).(phase := Launching(s.phase.nextAttempt))
                   && Translates(r.value, after)
                 case StoppedWaiting => r.value.phase == Terminal(StopOutcome(cause, false))
                 case RetryDenied(after) => EndsDenied(r.value, after.codes, s.phase.previousEnd)
               }
  {
    SteadyAgrees(s, settings, successful, retries, inputs, cause, plan, at);
    var t := MachineWait(s, inputs, cause, plan, at).value;
    if t.phase.RestartBackoff? {
      FeedOne(t, RestartDeadlineReachedEvent(t.phase.retryAt));
    }
  }

  /** The second half of a turn: the wait, and the end of the execution unless its time elapses. */
  method WaitTurn(kind: string, before: Settings, successful: bool, retries: u32, input: AttemptInput,
                  ghost ended: ExecutionState, ghost cause: StopCause)
    returns (actions: seq<LoopAction>, done: bool, settings: Settings)
    requires !StopsAttempt(input) && (kind == "job" <==> ended.origin.JobExecution?)
    requires Pending(ended, before, successful, retries) && ended.phase.previousEnd == EndOf(input)
    requires AdmissibleWait(ended.origin, input.backoff) && CauseMatches(ended.origin, cause)
    requires Steady(before, EndOf(input), successful, retries, input.backoff)
    ensures var r := FeedBackoff(ended, input.backoff, cause, input.plan, input.at);
            && r.Ok? && SameActions(actions, EndAction(r.value.phase))
            && if done then r.value.phase.Terminal?
               else r.value == With(ended, Current(r.value)).(phase := Launching(ended.phase.nextAttempt))
                    && Translates(r.value, settings)
  {
    var outcome := WaitBackoff(before, successful, retries, input.backoff);
    WaitEnds(ended, before, successful, retries, input.backoff, cause, input.plan, input.at);
    match outcome {
      case Elapsed(latest) =>
        return [], false, latest;
      case StoppedWaiting =>
        return [Finishes(EndKind(kind, true, false), false)], true, before;
      case RetryDenied(latest) =>
        var succeeds := input.result.ProcessEnded? && input.result.exitCode in latest.codes;
        return [Finishes(EndKind(kind, false, succeeds), false)], true, latest;
    }
  }

  lemma SameActionsConcat(a: seq<LoopAction>, b: seq<LoopAction>, m: seq<Action>, n: seq<Action>)
    requires SameActions(a, m) && SameActions(b, n)
    ensures SameActions(a + b, m + n)
  {
  }

  lemma MachineTurn(m: ExecutionState, input: AttemptInput, cause: StopCause, ended: ExecutionState)
    requires m.phase.Launching? && Feed(m, AttemptEvents(m.phase.attempt, input, cause)) == Ok(ended)
    ensures var launch := Launch(m.phase.attempt);
            if !ended.phase.RestartBackoff? then
              MachineAttempt(m, input, cause) == Ok(Progress([launch] + EndAction(ended.phase), ended))
            else
              var wait := Wait(ended.phase.nextAttempt, ended.phase.retry, input.at, ended.phase.retryAt);
              match FeedBackoff(ended, input.backoff, cause, input.plan, input.at)
              case Err(error) => MachineAttempt(m, input, cause) == Err(error)
              case Ok(after) =>
                MachineAttempt(m, input, cause) == Ok(Progress([launch, wait] + EndAction(after.phase), after))
  {
  }

  lemma MirrorsAfterWait(kind: string, ended: ExecutionState, after: ExecutionState, settings: Settings,
                         next: nonzero32, retries: nonzero32)
    requires kind == "job" <==> ended.origin.JobExecution?
    requires after == With(ended, Current(after)).(phase := Launching(next)) && Translates(after, settings)
    requires ended.lastRetry == Some(retries)
    ensures Mirrors(after, kind, settings, next, retries) && after.origin == ended.origin
  {
  }

  /** One turn of the loop: it takes the machine's actions and ends in the machine's state. */
  method OneAttempt(kind: string, before: Settings, attempt: nonzero32, retriesBefore: u32, input: AttemptInput,
                    ghost m: ExecutionState, ghost cause: StopCause)
    returns (actions: seq<LoopAction>, done: bool, settings: Settings, retries: u32, next: nonzero32)
    requires Mirrors(m, kind, before, attempt, retriesBefore)
    requires AdmissibleInput(m.origin, input) && CauseMatches(m.origin, cause)
    requires MachineAttempt(m, input, cause).Ok?
    requires SteadyAfter(Feed(m, AttemptEvents(attempt, input, cause)).value, input.backoff)
    ensures SameActions(actions, MachineAttempt(m, input, cause).value.actions)
    ensures var after := MachineAttempt(m, input, cause).value.state;
            if done then after.phase.Terminal?
            else Mirrors(after, kind, settings, next, retries) && after.origin == m.origin
  {
    var verdict, successful;
    verdict, settings, retries, successful := EndAttempt(kind, before, attempt, retriesBefore, input, m, cause);
    ghost var ended := Feed(m, AttemptEvents(attempt, input, cause)).value;
    MachineTurn(m, input, cause, ended);
    match verdict {
      case Ends(endKind, forced) =>
        return [Launches(attempt), Finishes(endKind, forced)], true, settings, retries, attempt;
      case Retry(nextAttempt, _, delayMs, _) =>
        var final;
        final, done, settings := WaitTurn(kind, settings, successful, retries - 1, input, ended, cause);
        actions, next := [Launches(attempt), Waits(nextAttempt, retries, delayMs)], nextAttempt;
        ghost var after := FeedBackoff(ended, input.backoff, cause, input.plan, input.at).value;
        SameActionsConcat(actions, final,
                          [Launch(attempt), Wait(nextAttempt, retries, input.at, ended.phase.retryAt)],
                          EndAction(after.phase));
        actions := actions + final;
        if !done {
          MirrorsAfterWait(kind, ended, after, settings, next, retries);
        }
    }
  }

  /**
    The attempt loop refines the machine from any state its counters and settings stand for: on
    the same attempts, updates and stops it launches the same attempt numbers, decides the same
    retries with the same ordinals, waits as long, and ends with the same kind of outcome.
  */
  method AttemptLoop(kind: string, initial: Settings, firstAttempt: nonzero32, firstRetries: u32,
                     inputs: seq<AttemptInput>, ghost from: ExecutionState, ghost cause: StopCause)
    returns (trace: seq<LoopAction>)
    requires Mirrors(from, kind, initial, firstAttempt, firstRetries) && CauseMatches(from.origin, cause)
    requires forall i <- inputs :: AdmissibleInput(from.origin, i)
    requires SteadyTrace(from, inputs, cause)
    requires MachineTrace(from, inputs, cause).Ok?
    ensures SameActions(trace, MachineTrace(from, inputs, cause).value)
  {
    trace := [];
    var settings, attempt: nonzero32, retries: u32, done := initial, firstAttempt, firstRetries, false;
    ghost var m, past := from, [];
    var rest := inputs;
    PrependNothing(MachineTrace(m, rest, cause));
    while rest != [] && !done
      invariant forall i <- rest :: AdmissibleInput(from.origin, i)
      invariant MachineTrace(m, rest, cause).Ok? && SteadyTrace(m, rest, cause)
      invariant MachineTrace(from, inputs, cause) == Prepend(past, MachineTrace(m, rest, cause))
      invariant SameActions(trace, past)
      invariant !done ==> m.origin == from.origin
      invariant if done then m.phase.Terminal? else Mirrors(m, kind, settings, attempt, retries)
    {
      assert rest[0] in rest;
      var actions;
      ghost var progress := MachineAttempt(m, rest[0], cause).value;
      actions, done, settings, retries, attempt := OneAttempt(kind, settings, attempt, retries, rest[0], m, cause);
      PrependTwice(past, progress.actions, MachineTrace(progress.state, rest[1..], cause));
      SameActionsConcat(trace, actions, past, progress.actions);
      trace, past, m := trace + actions, past + progress.actions, progress.state;
      rest := rest[1..];
    }
    assert MachineTrace(m, rest, cause) == Ok([]);
    assert past + [] == past;
  }

  /** A fresh execution is such a state, with no retry behind it. */
  lemma FreshMirrors(kind: string, origin: Origin, u: PolicyUpdate)
    requires Admissible(origin, u.policy) && (kind == "job" <==> origin.JobExecution?)
    ensures Mirrors(Fresh(origin, u.codes, u.policy), kind, Flat(u), 1, 0)
  {
  }

  lemma PrependNothing(rest: Result<seq<Action>, Error>)
    ensures Prepend([], rest) == rest
  {
    if rest.Ok? {
      assert [] + rest.value == rest.value;
    }
  }

  lemma PrependTwice(a: seq<Action>, b: seq<Action>, rest: Result<seq<Action>, Error>)
    ensures Prepend(a, Prepend(b, rest)) == Prepend(a + b, rest)
  {
    if rest.Ok? {
      assert a + (b + rest.value) == (a + b) + rest.value;
    }
  }
}
