/**
  The flat settings of the supervisor's attempt loop and its wait before a retry
  (crates/supervisor/src/runner.rs), against the typed execution machine.
*/
module BackoffWaits {
  import opened Base
  import opened Restart
  import opened Executions

  // ---- The flat settings ----

  datatype Settings = Settings(restartPolicy: string, maxRestarts: u32, unlimited: bool, resetAfterMs: u64,
                               initialMs: u64, multiplier: u32, maximumMs: u64, codes: set<u32>)

  const EMPTY: Settings := Settings("", 0, false, 0, 0, 0, 0, {})

  function ApplyBackoff(settings: Settings, backoff: BackoffPolicy): Settings {
    settings.(initialMs := DurationMs(backoff.initial), multiplier := backoff.multiplier,
              maximumMs := DurationMs(backoff.maximum))
  }

  function ApplyRetryPolicy(settings: Settings, policy: ServiceRetryPolicy): Settings {
    var limited := match policy.limit
                   case Finite(maximum) => settings.(maxRestarts := maximum)
                   case Unlimited => settings.(unlimited := true);
    ApplyBackoff(limited.(resetAfterMs := DurationMs(policy.resetAfter)), policy.backoff)
  }

  /** `apply_restart` on a default snapshot. */
  function ApplyRestart(policy: ExecutionRestartPolicy): Settings {
    match policy
    case Service(Never) => EMPTY.(restartPolicy := "never")
    case Job(JobNever) => EMPTY.(restartPolicy := "never")
    case Service(OnFailure(p)) => ApplyRetryPolicy(EMPTY.(restartPolicy := "on-failure"), p)
    case Service(Always(p)) => ApplyRetryPolicy(EMPTY.(restartPolicy := "always"), p)
    case Job(JobOnFailure(maxRestarts, backoff)) =>
      ApplyBackoff(EMPTY.(restartPolicy := "on-failure", maxRestarts := maxRestarts), backoff)
  }

  /** What a policy update brings. */
  datatype PolicyUpdate = PolicyUpdate(policy: ExecutionRestartPolicy, codes: set<u32>)

  /** The settings after an update: `apply_policy` overwrites every field. */
  function Flat(u: PolicyUpdate): Settings {
    ApplyRestart(u.policy).(codes := u.codes)
  }

  predicate Room(settings: Settings, retries: u32) {
    settings.unlimited || retries < settings.maxRestarts
  }

  predicate ShouldRetry(settings: Settings, successful: bool, retries: u32) {
    && (settings.restartPolicy == "always" || (settings.restartPolicy == "on-failure" && !successful))
    && Room(settings, retries)
  }

  /** The exit that the codes call a success. */
  predicate Succeeds(codes: set<u32>, end: AttemptEnd) {
    end.Exited? && end.exitCode in codes
  }

  // ---- The translation ----

  /** A policy whose durations the flat settings carry exactly. */
  ghost predicate Translatable(policy: ExecutionRestartPolicy) {
    match policy
    case Service(p) =>
      p.Never? ||
      (DelaysAgree(p.policy.backoff) && WholeMs(p.policy.resetAfter) && DurationMs(p.policy.resetAfter) <= I64_MAX)
    case Job(p) => p.JobNever? || DelaysAgree(p.backoff)
  }

  /** The policies an execution of this origin can be given: its own kind, in translatable durations. */
  ghost predicate Admissible(origin: Origin, policy: ExecutionRestartPolicy) {
    KindMatches(origin, policy) && Translatable(policy)
  }

  function Current(s: ExecutionState): PolicyUpdate {
    PolicyUpdate(s.restartPolicy, s.successExitCodes)
  }

  function With(s: ExecutionState, u: PolicyUpdate): ExecutionState {
    s.(restartPolicy := u.policy, successExitCodes := u.codes)
  }

  /** The flat settings are the translation of the machine's current ones. */
  ghost predicate Translates(s: ExecutionState, settings: Settings) {
    Admissible(s.origin, s.restartPolicy) && settings == Flat(Current(s))
  }

  /** The two verdicts on a retry agree; the machine counts the retry, the loop the retries before it. */
  lemma PermitsIsShouldRetry(s: ExecutionState, settings: Settings, end: AttemptEnd, retries: u32)
    requires Translates(s, settings) && retries < U32_MAX
    ensures PolicyPermits(s, end, retries + 1) == Ok(ShouldRetry(settings, Succeeds(settings.codes, end), retries))
  {
  }

  // ---- The loop's wait ----

  datatype WaitInput = UpdateInput(update: PolicyUpdate) | StopInput

  datatype WaitOutcome = Elapsed(settings: Settings) | StoppedWaiting | RetryDenied(settings: Settings)

  /** What the inputs of a wait come to; without any more of them, its time elapses. */
  function LoopWait(settings: Settings, successful: bool, retries: u32, inputs: seq<WaitInput>): WaitOutcome
    decreases |inputs|
  {
    if inputs == [] then Elapsed(settings)
    else
      match inputs[0]
      case StopInput => StoppedWaiting
      case UpdateInput(u) =>
        if ShouldRetry(Flat(u), successful, retries) then LoopWait(Flat(u), successful, retries, inputs[1..])
        else RetryDenied(Flat(u))
  }

  /** `wait_backoff`: an update is applied and the verdict on the pending retry reconsidered. */
  method WaitBackoff(before: Settings, successful: bool, decisionRetries: u32, inputs: seq<WaitInput>)
    returns (outcome: WaitOutcome)
    ensures outcome == LoopWait(before, successful, decisionRetries, inputs)
  {
    var settings, rest := before, inputs;
    while rest != []
      invariant LoopWait(before, successful, decisionRetries, inputs) ==
                LoopWait(settings, successful, decisionRetries, rest)
    {
      match rest[0] {
        case StopInput => return StoppedWaiting;
        case UpdateInput(update) =>
          settings := Flat(update);
          if !ShouldRetry(settings, successful, decisionRetries) {
            return RetryDenied(settings);
          }
      }
      rest := rest[1..];
    }
    return Elapsed(settings);
  }

  // ---- The machine's wait ----

  /** Feeds events to the machine; the first refused one is an error. */
  function Feed(s: ExecutionState, events: seq<Event>): Result<ExecutionState, Error>
    decreases |events|
  {
    if events == [] then Ok(s)
    else
      match Transit(s, events[0])
      case Err(error) => Err(error)
      case Ok(t) => Feed(t.state, events[1..])
  }

  /** An update is two events for the machine. */
  function UpdateEvents(u: PolicyUpdate): seq<Event> {
    [SuccessExitCodesChangedEvent(u.codes), RestartPolicyChangedEvent(u.policy)]
  }

  function WaitEvents(input: WaitInput, cause: StopCause, plan: StopPlan, at: BootInstant): seq<Event> {
    match input
    case UpdateInput(u) => UpdateEvents(u)
    case StopInput => [StopRequestedEvent(cause, plan, at)]
  }

  /** The same inputs while the machine's retry is pending. */
  function MachineWait(s: ExecutionState, inputs: seq<WaitInput>, cause: StopCause, plan: StopPlan, at: BootInstant)
    : Result<ExecutionState, Error>
    decreases |inputs|
  {
    if inputs == [] || !s.phase.RestartBackoff? then Ok(s)
    else
      match Feed(s, WaitEvents(inputs[0], cause, plan, at))
      case Err(error) => Err(error)
      case Ok(t) => MachineWait(t, inputs[1..], cause, plan, at)
  }

  lemma FeedTwo(s: ExecutionState, a: Event, b: Event)
    ensures Feed(s, [a, b]) ==
            match Transit(s, a)
            case Err(error) => Err(error)
            case Ok(t) => match Transit(t.state, b) { case Err(error) => Err(error) case Ok(u) => Ok(u.state) }
  {
    assert [a, b][1..] == [b];
    if Transit(s, a).Ok? {
      FeedOne(Transit(s, a).value.state, b);
    }
  }

  lemma FeedOne(s: ExecutionState, event: Event)
    ensures Feed(s, [event]) == match Transit(s, event) { case Err(error) => Err(error) case Ok(t) => Ok(t.state) }
  {
    assert [event][1..] == [];
  }

  /** The loop's and the machine's account of one pending retry, as long as both are waiting. */
  ghost predicate Pending(s: ExecutionState, settings: Settings, successful: bool, retries: u32) {
    && s.phase.RestartBackoff? && s.phase.retry == retries + 1
    && Translates(s, settings)
    && ShouldRetry(settings, successful, retries)
    && (Succeeds(settings.codes, s.phase.previousEnd) == successful || settings.restartPolicy == "always")
  }

  /** The end a denied retry comes to. */
  ghost predicate EndsDenied(t: ExecutionState, codes: set<u32>, end: AttemptEnd) {
    t.phase.Terminal? && if Succeeds(codes, end) then t.phase.outcome.Completed? else t.phase.outcome.Failed?
  }

  /** An update while the retry is pending: the machine reconsiders for the codes and for the policy. */
  lemma UpdateInWait(s: ExecutionState, settings: Settings, successful: bool, retries: u32, u: PolicyUpdate)
    requires Pending(s, settings, successful, retries) && Admissible(s.origin, u.policy)
    ensures var r := Feed(s, UpdateEvents(u));
            var success := Succeeds(u.codes, s.phase.previousEnd);
            && r.Ok?
            && if ShouldRetry(settings.(codes := u.codes), success, retries) && ShouldRetry(Flat(u), success, retries)
               then r.value == With(s, u)
               else EndsDenied(r.value, u.codes, s.phase.previousEnd)
  {
    var end := s.phase.previousEnd;
    var coded := s.(successExitCodes := u.codes);
    FeedTwo(s, SuccessExitCodesChangedEvent(u.codes), RestartPolicyChangedEvent(u.policy));
    PermitsIsShouldRetry(coded, settings.(codes := u.codes), end, retries);
    PermitsIsShouldRetry(With(s, u), Flat(u), end, retries);
  }

  // ---- When the two waits agree ----

  ghost predicate AdmissibleWait(origin: Origin, inputs: seq<WaitInput>) {
    forall i <- inputs :: i.UpdateInput? ==> Admissible(origin, i.update.policy)
  }

  /** The wait of the retry pending in `s` has come to the same thing for the loop and for the machine. */
  ghost predicate SameWait(w: WaitOutcome, s: ExecutionState, t: ExecutionState, cause: StopCause)
    requires s.phase.RestartBackoff?
  {
    match w
    case Elapsed(settings) => t == With(s, Current(t)) && Translates(t, settings)
    case StoppedWaiting => t.phase == Terminal(StopOutcome(cause, false))
    case RetryDenied(settings) => EndsDenied(t, settings.codes, s.phase.previousEnd)
  }

  ghost predicate WaitsAgree(s: ExecutionState, settings: Settings, successful: bool, retries: u32,
                             inputs: seq<WaitInput>, cause: StopCause, plan: StopPlan, at: BootInstant)
    requires s.phase.RestartBackoff?
  {
    var r := MachineWait(s, inputs, cause, plan, at);
    r.Ok? && SameWait(LoopWait(settings, successful, retries, inputs), s, r.value, cause)
  }

  /** The verdict does not depend on whether the exit was a success, before the update and after it. */
  predicate Indifferent(before: Settings, after: Settings, retries: u32) {
    !Room(after, retries) || (before.restartPolicy == "always" && after.restartPolicy == "always")
  }

  /**
    No update that the wait comes to reclassifies the exit the retry is for, unless the verdict
    does not depend on that.
  */
  predicate Steady(before: Settings, end: AttemptEnd, successful: bool, retries: u32, inputs: seq<WaitInput>)
    decreases |inputs|
  {
    inputs == [] || inputs[0].StopInput? ||
    var after := Flat(inputs[0].update);
    && (Succeeds(after.codes, end) == successful || Indifferent(before, after, retries))
    && (ShouldRetry(after, successful, retries) ==> Steady(after, end, successful, retries, inputs[1..]))
  }

  /** One update: both go on, or both end in the same way, exactly if it is a steady one. */
  lemma UpdateAgrees(s: ExecutionState, settings: Settings, successful: bool, retries: u32, u: PolicyUpdate)
    requires Pending(s, settings, successful, retries) && Admissible(s.origin, u.policy)
    ensures var end := s.phase.previousEnd;
            var r := Feed(s, UpdateEvents(u));
            var goesOn := ShouldRetry(Flat(u), successful, retries);
            && r.Ok?
            && (r.value == With(s, u) || EndsDenied(r.value, u.codes, end))
            && (Succeeds(u.codes, end) == successful || Indifferent(settings, Flat(u), retries) <==>
                (goesOn <==> r.value == With(s, u)))
            && (goesOn && r.value == With(s, u) ==> Pending(r.value, Flat(u), successful, retries))
  {
    UpdateInWait(s, settings, successful, retries, u);
  }

  /** Later inputs see the same pending retry. */
  lemma SameRetry(w: WaitOutcome, s: ExecutionState, u: PolicyUpdate, t: ExecutionState, cause: StopCause)
    requires s.phase.RestartBackoff?
    ensures SameWait(w, With(s, u), t, cause) == SameWait(w, s, t, cause)
  {
  }

  /** An update and what comes after it. */
  lemma WaitStep(s: ExecutionState, settings: Settings, successful: bool, retries: u32, inputs: seq<WaitInput>,
                 cause: StopCause, plan: StopPlan, at: BootInstant)
    requires Pending(s, settings, successful, retries) && inputs != [] && inputs[0].UpdateInput?
    requires Admissible(s.origin, inputs[0].update.policy)
    ensures var u := inputs[0].update;
            var t := Feed(s, UpdateEvents(u));
            var goesOn := ShouldRetry(Flat(u), successful, retries);
            && t.Ok?
            && (t.value == With(s, u) && goesOn ==>
                  WaitsAgree(s, settings, successful, retries, inputs, cause, plan, at) ==
                  WaitsAgree(With(s, u), Flat(u), successful, retries, inputs[1..], cause, plan, at))
            && (t.value != With(s, u) && !goesOn ==>
                  WaitsAgree(s, settings, successful, retries, inputs, cause, plan, at))
  {
    var u := inputs[0].update;
    UpdateAgrees(s, settings, successful, retries, u);
    var t := Feed(s, UpdateEvents(u)).value;
    if t == With(s, u) {
      SameRetry(LoopWait(Flat(u), successful, retries, inputs[1..]), s, u,
                if MachineWait(t, inputs[1..], cause, plan, at).Ok?
                then MachineWait(t, inputs[1..], cause, plan, at).value else t, cause);
    }
  }

  /** One of them still waits and the other does not. */
  ghost predicate OneWaits(s: ExecutionState, settings: Settings, successful: bool, retries: u32,
                           inputs: seq<WaitInput>, cause: StopCause, plan: StopPlan, at: BootInstant)
  {
    var r := MachineWait(s, inputs, cause, plan, at);
    r.Ok? && LoopWait(settings, successful, retries, inputs).Elapsed? != r.value.phase.RestartBackoff?
  }

  lemma OneWaitsDisagrees(s: ExecutionState, settings: Settings, successful: bool, retries: u32,
                          inputs: seq<WaitInput>, cause: StopCause, plan: StopPlan, at: BootInstant)
    requires s.phase.RestartBackoff? && OneWaits(s, settings, successful, retries, inputs, cause, plan, at)
    ensures !WaitsAgree(s, settings, successful, retries, inputs, cause, plan, at)
  {
  }

  /** An update that only one of them goes on from. */
  lemma LastUpdate(s: ExecutionState, settings: Settings, successful: bool, retries: u32, u: PolicyUpdate,
                   cause: StopCause, plan: StopPlan, at: BootInstant)
    requires Pending(s, settings, successful, retries) && Admissible(s.origin, u.policy)
    requires ShouldRetry(Flat(u), successful, retries) != (Feed(s, UpdateEvents(u)) == Ok(With(s, u)))
    ensures OneWaits(s, settings, successful, retries, [UpdateInput(u)], cause, plan, at)
  {
    UpdateAgrees(s, settings, successful, retries, u);
    var t := Feed(s, UpdateEvents(u)).value;
    var inputs, goesOn := [UpdateInput(u)], ShouldRetry(Flat(u), successful, retries);
    assert inputs[1..] == [];
    assert MachineWait(s, inputs, cause, plan, at) == MachineWait(t, [], cause, plan, at) == Ok(t);
    assert LoopWait(Flat(u), successful, retries, []) == Elapsed(Flat(u));
    assert LoopWait(settings, successful, retries, inputs) == if goesOn then Elapsed(Flat(u)) else RetryDenied(Flat(u));
  }

  lemma StopStep(s: ExecutionState, settings: Settings, successful: bool, retries: u32, inputs: seq<WaitInput>,
                 cause: StopCause, plan: StopPlan, at: BootInstant)
    requires s.phase.RestartBackoff? && inputs != [] && inputs[0].StopInput? && CauseMatches(s.origin, cause)
    ensures WaitsAgree(s, settings, successful, retries, inputs, cause, plan, at)
  {
    FeedOne(s, StopRequestedEvent(cause, plan, at));
  }

  /** In a steady wait the loop and the machine come to the same thing. */
  lemma {:induction false} SteadyAgrees(
    s: ExecutionState, settings: Settings, successful: bool, retries: u32, inputs: seq<WaitInput>,
    cause: StopCause, plan: StopPlan, at: BootInstant)
    requires Pending(s, settings, successful, retries) && CauseMatches(s.origin, cause)
    requires AdmissibleWait(s.origin, inputs) && Steady(settings, s.phase.previousEnd, successful, retries, inputs)
    ensures WaitsAgree(s, settings, successful, retries, inputs, cause, plan, at)
    decreases |inputs|
  {
    if inputs != [] {
      assert inputs[0] in inputs;
      if inputs[0].StopInput? {
        StopStep(s, settings, successful, retries, inputs, cause, plan, at);
      } else {
        var u := inputs[0].update;
        UpdateAgrees(s, settings, successful, retries, u);
        WaitStep(s, settings, successful, retries, inputs, cause, plan, at);
        if ShouldRetry(Flat(u), successful, retries) {
          SteadyAgrees(With(s, u), Flat(u), successful, retries, inputs[1..], cause, plan, at);
        }
      }
    }
  }

  lemma {:induction false} SteadyPrefix(
    before: Settings, end: AttemptEnd, successful: bool, retries: u32, inputs: seq<WaitInput>, n: nat)
    requires Steady(before, end, successful, retries, inputs) && n <= |inputs|
    ensures Steady(before, end, successful, retries, inputs[..n])
    decreases n
  {
    if n > 0 && inputs[0].UpdateInput? {
      var after := Flat(inputs[0].update);
      assert inputs[..n][1..] == inputs[1..][..n - 1];
      if ShouldRetry(after, successful, retries) {
        SteadyPrefix(after, end, successful, retries, inputs[1..], n - 1);
      }
    }
  }

  /** In a wait that is not steady, by some input only one of them still waits. */
  lemma {:induction false} UnsteadyDisagrees(
    s: ExecutionState, settings: Settings, successful: bool, retries: u32, inputs: seq<WaitInput>,
    cause: StopCause, plan: StopPlan, at: BootInstant)
    returns (n: nat)
    requires Pending(s, settings, successful, retries)
    requires AdmissibleWait(s.origin, inputs) && !Steady(settings, s.phase.previousEnd, successful, retries, inputs)
    ensures n <= |inputs| && OneWaits(s, settings, successful, retries, inputs[..n], cause, plan, at)
    decreases |inputs|
  {
    assert inputs[0] in inputs;
    var u := inputs[0].update;
    UpdateAgrees(s, settings, successful, retries, u);
    if Succeeds(u.codes, s.phase.previousEnd) == successful || Indifferent(settings, Flat(u), retries) {
      var k := UnsteadyDisagrees(With(s, u), Flat(u), successful, retries, inputs[1..], cause, plan, at);
      n := k + 1;
      assert inputs[..n][0] == inputs[0] && inputs[..n][1..] == inputs[1..][..k];
    } else {
      n := 1;
      assert inputs[..n] == [UpdateInput(u)];
      LastUpdate(s, settings, successful, retries, u, cause, plan, at);
    }
  }

  /**
    While a retry is pending, the loop, which keeps the verdict on the exit it made when the
    attempt ended, and the machine, which judges the exit anew by the codes of the moment, have
    come to the same thing after every input if and only if the wait is steady.
  */
  lemma {:induction false} WaitsAgreeExactly(
    s: ExecutionState, settings: Settings, successful: bool, retries: u32, inputs: seq<WaitInput>,
    cause: StopCause, plan: StopPlan, at: BootInstant)
    requires Pending(s, settings, successful, retries) && CauseMatches(s.origin, cause)
    requires AdmissibleWait(s.origin, inputs)
    ensures (forall n :: 0 <= n <= |inputs| ==>
               WaitsAgree(s, settings, successful, retries, inputs[..n], cause, plan, at)) <==>
            Steady(settings, s.phase.previousEnd, successful, retries, inputs)
  {
    if Steady(settings, s.phase.previousEnd, successful, retries, inputs) {
      forall n | 0 <= n <= |inputs|
        ensures WaitsAgree(s, settings, successful, retries, inputs[..n], cause, plan, at)
      {
        SteadyPrefix(settings, s.phase.previousEnd, successful, retries, inputs, n);
        SteadyAgrees(s, settings, successful, retries, inputs[..n], cause, plan, at);
      }
    } else {
      var n := UnsteadyDisagrees(s, settings, successful, retries, inputs, cause, plan, at);
      OneWaitsDisagrees(s, settings, successful, retries, inputs[..n], cause, plan, at);
    }
  }
}
