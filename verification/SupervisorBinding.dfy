/** The launch budget of one execution's supervisor (crates/domain/src/supervisor_binding.rs). */
module SupervisorBindings {
  import opened Base
  import opened Restart
  import E = Executions

  datatype ProcessIdentity = ProcessIdentity(supervisorId: nat, incarnation: nonzero32)

  datatype LaunchPolicy = LaunchPolicy(
    maxFailures: nonzero32, backoff: BackoffPolicy, handshakeTimeout: NonZeroDuration,
        discoveryTimeout: NonZeroDuration)

  datatype SupervisorBinding =
    | Discovering(process: ProcessIdentity, failures: u32, discoveryDeadline: BootInstant)
    | LaunchPending(process: ProcessIdentity, failures: u32)
    | AwaitingHandshake(process: ProcessIdentity, failures: u32, handshakeDeadline: BootInstant)
    | Attached(process: ProcessIdentity, failures: u32, lastSequence: u64)
    | RestartBackoff(nextProcess: ProcessIdentity, failures: u32, retryAt: BootInstant)

  datatype Failure = ProcessMissing | ProcessExited | HandshakeTimedOut | HandshakeRejected(reason: nat)

  datatype Event =
    | DiscoveryAttached(process: ProcessIdentity, lastSequence: u64)
    | DiscoveryFailed(process: ProcessIdentity, at: BootInstant, failure: Failure)
    | LaunchSucceeded(process: ProcessIdentity, at: BootInstant)
    | LaunchFailed(process: ProcessIdentity, at: BootInstant)
    | HandshakeAccepted(process: ProcessIdentity, lastSequence: u64)
    | HandshakeFailed(process: ProcessIdentity, at: BootInstant, failure: Failure)
    | SupervisorExited(process: ProcessIdentity, at: BootInstant)
    | RetryDeadlineReached(process: ProcessIdentity, deadline: BootInstant)
    | ExecutionTerminated

  datatype Effect =
    | LaunchSupervisor(process: ProcessIdentity)
    | ArmHandshakeDeadline(deadline: BootInstant)
    | ArmRetryDeadline(deadline: BootInstant)
    | AdoptSupervisor(process: ProcessIdentity, executionId: nat, fromSequence: u64)
    | RequestSupervisorShutdown(process: ProcessIdentity)
    | ReportSupervisorUnavailable

  datatype Error =
    | UnexpectedEvent
    | StaleProcess
    | StaleDeadline
    | FailureCountOverflow
    | IncarnationOverflow
    | DeadlineOverflow

  type Transition = E.Transition<Option<SupervisorBinding>, Effect>

  predicate IsFailure(event: Event) {
    event.DiscoveryFailed? || event.LaunchFailed? || event.HandshakeFailed? || event.SupervisorExited?
  }

  /** The process a binding is about: the one it has, or the one it will launch next. */
  function Current(b: SupervisorBinding): ProcessIdentity {
    if b.RestartBackoff? then b.nextProcess else b.process
  }

  function ProcessFailed(b: SupervisorBinding, process: ProcessIdentity, at: BootInstant, policy: LaunchPolicy)
    : Result<Transition, Error>
  {
    if b.RestartBackoff? then Err(UnexpectedEvent)
    else if b.process != process then Err(StaleProcess)
    else if b.failures == U32_MAX then Err(FailureCountOverflow)
    else
      var failures := b.failures + 1;
      if !(failures < policy.maxFailures) then Ok(E.Transition(None, [ReportSupervisorUnavailable]))
      else
        match NextOrdinal(process.incarnation)
        case None => Err(IncarnationOverflow)
        case Some(next) =>
          match CheckedAdd(at, Delay(policy.backoff, failures))
          case None => Err(DeadlineOverflow)
          case Some(retryAt) =>
            Ok(E.Transition(Some(RestartBackoff(process.(incarnation := next), failures, retryAt)),
                            [ArmRetryDeadline(retryAt)]))
  }

  function Transit(b: SupervisorBinding, event: Event, executionId: nat, policy: LaunchPolicy)
    : Result<Transition, Error>
  {
    match event
    case DiscoveryAttached(process, lastSequence) =>
      if !b.Discovering? then Err(UnexpectedEvent)
      else if b.process != process then Err(StaleProcess)
      else Ok(E.Transition(Some(Attached(process, b.failures, lastSequence)),
                           [AdoptSupervisor(process, executionId, lastSequence)]))
    case DiscoveryFailed(process, at, _) => ProcessFailed(b, process, at, policy)
    case HandshakeFailed(process, at, _) => ProcessFailed(b, process, at, policy)
    case SupervisorExited(process, at) => ProcessFailed(b, process, at, policy)
    case LaunchFailed(process, at) => ProcessFailed(b, process, at, policy)
    case LaunchSucceeded(process, at) =>
      if !b.LaunchPending? then Err(UnexpectedEvent)
      else if b.process != process then Err(StaleProcess)
      else
        (match CheckedAdd(at, policy.handshakeTimeout)
         case None => Err(DeadlineOverflow)
         case Some(deadline) =>
           Ok(E.Transition(Some(AwaitingHandshake(process, b.failures, deadline)), [ArmHandshakeDeadline(deadline)])))
    case HandshakeAccepted(process, lastSequence) =>
      if !b.AwaitingHandshake? then Err(UnexpectedEvent)
      else if b.process != process then Err(StaleProcess)
      else Ok(E.Transition(Some(Attached(process, b.failures, lastSequence)), []))
    case RetryDeadlineReached(process, deadline) =>
      if !b.RestartBackoff? then Err(UnexpectedEvent)
      else if b.nextProcess != process then Err(StaleProcess)
      else if b.retryAt != deadline then Err(StaleDeadline)
      else Ok(E.Transition(Some(LaunchPending(process, b.failures)), [LaunchSupervisor(process)]))
    case ExecutionTerminated =>
      Ok(E.Transition(None,
                      if b.LaunchPending? || b.RestartBackoff? then [] else [RequestSupervisorShutdown(b.process)]))
  }

  // ---- The life of one binding under a fixed policy ----

  /** `failed` counts the failures taken so far. */
  datatype Life = Life(binding: Option<SupervisorBinding>, effects: seq<Effect>, failed: nat)

  datatype Setting = Setting(executionId: nat, policy: LaunchPolicy)

  /** An event that is refused, or comes after the binding is gone, changes nothing. */
  function Next(l: Life, event: Event, c: Setting): Life {
    if l.binding.None? then l
    else
      match Transit(l.binding.value, event, c.executionId, c.policy)
      case Err(_) => l
      case Ok(t) => Life(t.state, l.effects + t.effects, l.failed + if IsFailure(event) then 1 else 0)
  }

  function Run(l: Life, events: seq<Event>, c: Setting): Life {
    if events == [] then l else Next(Run(l, events[..|events| - 1], c), events[|events| - 1], c)
  }

  /** A binding begins with its first incarnation and no failure behind it. */
  predicate Begins(b: SupervisorBinding) {
    !b.RestartBackoff? && b.failures == 0 && b.process.incarnation == 1
  }

  function Begin(b: SupervisorBinding): Life {
    Life(Some(b), [], 0)
  }

  function Launches(effects: seq<Effect>): seq<ProcessIdentity> {
    if effects == [] then []
    else Launches(effects[..|effects| - 1]) +
         match effects[|effects| - 1] { case LaunchSupervisor(process) => [process] case _ => [] }
  }

  function Reports(effects: seq<Effect>): nat {
    if effects == [] then 0
    else Reports(effects[..|effects| - 1]) + if effects[|effects| - 1].ReportSupervisorUnavailable? then 1 else 0
  }

  /** Incarnations 2, 3, ... of one supervisor. */
  predicate Consecutive(launches: seq<ProcessIdentity>, supervisorId: nat) {
    forall k :: 0 <= k < |launches| ==> launches[k].supervisorId == supervisorId && launches[k].incarnation == k + 2
  }

  /** Where a binding stands after `failed` failures and `relaunched` relaunches. */
  predicate Bound(b: Option<SupervisorBinding>, failed: nat, relaunched: nat, supervisorId: nat, policy: LaunchPolicy) {
    match b
    case None => failed <= policy.maxFailures
    case Some(RestartBackoff(next, failures, _)) =>
      && failed == failures == relaunched + 1 < policy.maxFailures
      && next == ProcessIdentity(supervisorId, failures + 1)
    case Some(bound) =>
      && failed == bound.failures == relaunched < policy.maxFailures
      && bound.process == ProcessIdentity(supervisorId, bound.failures + 1)
  }

  predicate Inv(l: Life, supervisorId: nat, policy: LaunchPolicy) {
    match l
    case Life(binding, effects, failed) =>
      && Consecutive(Launches(effects), supervisorId)
      && |Launches(effects)| <= policy.maxFailures - 1
      && Reports(effects) == (if failed == policy.maxFailures then 1 else 0)
      && Bound(binding, failed, |Launches(effects)|, supervisorId, policy)
  }

  lemma EffectsGrow(effects: seq<Effect>, more: seq<Effect>)
    requires |more| <= 1
    ensures Launches(effects + more) ==
            Launches(effects) + (if more != [] && more[0].LaunchSupervisor? then [more[0].process] else [])
    ensures Reports(effects + more) ==
            Reports(effects) + (if more != [] && more[0].ReportSupervisorUnavailable? then 1 else 0)
  {
    if more == [] {
      assert effects + more == effects;
    } else {
      assert (effects + more)[..|effects + more| - 1] == effects;
    }
  }

  function Launched(effects: seq<Effect>): nat {
    if effects != [] && effects[0].LaunchSupervisor? then 1 else 0
  }

  lemma TransitKeeps(b: SupervisorBinding, event: Event, c: Setting, failed: nat, relaunched: nat, supervisorId: nat)
    requires Bound(Some(b), failed, relaunched, supervisorId, c.policy)
    requires Transit(b, event, c.executionId, c.policy).Ok?
    ensures var t := Transit(b, event, c.executionId, c.policy).value;
            var failures := failed + if IsFailure(event) then 1 else 0;
            && |t.effects| <= 1
            && failures <= c.policy.maxFailures
            && Bound(t.state, failures, relaunched + Launched(t.effects), supervisorId, c.policy)
            && (Launched(t.effects) == 1 ==>
                  && t.effects[0].process == ProcessIdentity(supervisorId, relaunched + 2)
                  && relaunched + 1 < c.policy.maxFailures)
            && (t.effects == [ReportSupervisorUnavailable] <==> failures == c.policy.maxFailures)
  {
  }

  lemma {:induction false} NextKeeps(l: Life, event: Event, c: Setting, supervisorId: nat)
    requires Inv(l, supervisorId, c.policy)
    ensures Inv(Next(l, event, c), supervisorId, c.policy)
  {
    if l.binding.Some? {
      match Transit(l.binding.value, event, c.executionId, c.policy) {
        case Err(_) =>
        case Ok(t) =>
          TransitKeeps(l.binding.value, event, c, l.failed, |Launches(l.effects)|, supervisorId);
          EffectsGrow(l.effects, t.effects);
      }
    }
  }

  lemma {:induction false} RunKeeps(b: SupervisorBinding, events: seq<Event>, c: Setting)
    requires Begins(b)
    ensures Inv(Run(Begin(b), events, c), b.process.supervisorId, c.policy)
  {
    if events != [] {
      RunKeeps(b, events[..|events| - 1], c);
      NextKeeps(Run(Begin(b), events[..|events| - 1], c), events[|events| - 1], c, b.process.supervisorId);
    }
  }

  /**
    Over every run under a policy of N failures: a bound supervisor is in incarnation
    failures + 1 with failures < N; the relaunches are incarnations 2, 3, ... of the same
    supervisor and at most N - 1; and the supervisor is reported unavailable once, by the N-th
    failure, and not before.
  */
  lemma {:induction false} LaunchBudget(b: SupervisorBinding, events: seq<Event>, c: Setting)
    requires Begins(b)
    ensures var l := Run(Begin(b), events, c);
            && (l.binding.Some? ==>
                  && l.failed == l.binding.value.failures < c.policy.maxFailures
                  && Current(l.binding.value) == b.process.(incarnation := l.failed + 1))
            && Consecutive(Launches(l.effects), b.process.supervisorId)
            && |Launches(l.effects)| <= c.policy.maxFailures - 1
            && Reports(l.effects) == (if l.failed == c.policy.maxFailures then 1 else 0)
            && (l.failed == c.policy.maxFailures ==> l.binding.None?)
  {
    RunKeeps(b, events, c);
  }

  /**
    What the next failure of a supervisor does, after `failed` earlier ones: the last failure the
    policy allows ends the binding; any other schedules the next incarnation after the
    exponential delay of its ordinal, unless that instant cannot be represented.
  */
  function AfterFailure(supervisorId: nat, failed: nat, at: BootInstant, policy: LaunchPolicy)
    : Result<Transition, Error>
    requires failed < policy.maxFailures
  {
    if failed + 1 == policy.maxFailures then Ok(E.Transition(None, [ReportSupervisorUnavailable]))
    else
      match CheckedAdd(at, Delay(policy.backoff, failed + 1))
      case None => Err(DeadlineOverflow)
      case Some(retryAt) =>
        Ok(E.Transition(Some(RestartBackoff(ProcessIdentity(supervisorId, failed + 2), failed + 1, retryAt)),
                        [ArmRetryDeadline(retryAt)]))
  }

  lemma {:induction false} FailureHandled(b: SupervisorBinding, events: seq<Event>, c: Setting, event: Event)
    requires Begins(b) && IsFailure(event)
    ensures var l := Run(Begin(b), events, c);
            l.binding.Some? && !l.binding.value.RestartBackoff? && event.process == l.binding.value.process ==>
              && l.failed < c.policy.maxFailures
              && Transit(l.binding.value, event, c.executionId, c.policy) ==
                 AfterFailure(b.process.supervisorId, l.failed, event.at, c.policy)
  {
    RunKeeps(b, events, c);
  }

  /**
    No run meets the two counter overflows, and events about any other incarnation than the
    current one are refused.
  */
  lemma {:induction false} CountersNeverOverflow(b: SupervisorBinding, events: seq<Event>, c: Setting, event: Event)
    requires Begins(b)
    ensures var l := Run(Begin(b), events, c);
            l.binding.Some? ==>
              var r := Transit(l.binding.value, event, c.executionId, c.policy);
              && r != Err(FailureCountOverflow) && r != Err(IncarnationOverflow)
              && (!event.ExecutionTerminated? && event.process.incarnation != l.failed + 1 ==>
                    r == Err(StaleProcess) || r == Err(UnexpectedEvent))
  {
    RunKeeps(b, events, c);
  }

  lemma {:induction false} RunConcat(l: Life, first: seq<Event>, second: seq<Event>, c: Setting)
    ensures Run(l, first + second, c) == Run(Run(l, first, c), second, c)
  {
    if second == [] {
      assert first + second == first;
    } else {
      var events := first + second;
      assert events[..|events| - 1] == first + second[..|second| - 1];
      RunConcat(l, first, second[..|second| - 1], c);
    }
  }

  /** When the relaunch after a crash at boot time zero is due. */
  function DueAt(n: nonzero32, policy: LaunchPolicy): BootInstant {
    match CheckedAdd(0, Delay(policy.backoff, n)) case Some(at) => at case None => 0
  }

  /** The crash of incarnation `n` at boot time zero and the relaunch after its delay. */
  function Crash(supervisorId: nat, n: nonzero32, policy: LaunchPolicy): seq<Event>
    requires n < U32_MAX
  {
    [SupervisorExited(ProcessIdentity(supervisorId, n), 0),
     RetryDeadlineReached(ProcessIdentity(supervisorId, n + 1), DueAt(n, policy))]
  }

  function Crashes(supervisorId: nat, n: nat, policy: LaunchPolicy): seq<Event>
    requires n < U32_MAX
  {
    if n == 0 then [] else Crashes(supervisorId, n - 1, policy) + Crash(supervisorId, n, policy)
  }

  lemma CrashTaken(l: Life, b: SupervisorBinding, supervisorId: nat, n: nonzero32, c: Setting)
    requires l.binding == Some(b) && !b.RestartBackoff? && b.failures == l.failed == n - 1
    requires b.process == ProcessIdentity(supervisorId, n) && n < c.policy.maxFailures
    requires CheckedAdd(0, c.policy.backoff.maximum).Some?
    ensures var crash := Crash(supervisorId, n, c.policy);
            Next(Next(l, crash[0], c), crash[1], c) ==
            Life(Some(LaunchPending(ProcessIdentity(supervisorId, n + 1), n)),
                 l.effects + [ArmRetryDeadline(DueAt(n, c.policy))] +
                 [LaunchSupervisor(ProcessIdentity(supervisorId, n + 1))],
                 n)
  {
    assert CheckedAdd(0, Delay(c.policy.backoff, n)).Some?;
  }

  lemma RunTwo(l: Life, a: Event, b: Event, c: Setting)
    ensures Run(l, [a, b], c) == Next(Next(l, a, c), b, c)
  {
    var events, first := [a, b], [a];
    assert events[..|events| - 1] == first && first[..|first| - 1] == [];
    assert Run(l, first, c) == Next(Run(l, [], c), a, c);
  }

  /** One crash costs one launch, and the next incarnation is pending. */
  lemma CrashCosts(l: Life, b: SupervisorBinding, supervisorId: nat, n: nonzero32, c: Setting)
    requires l.binding == Some(b) && !b.RestartBackoff? && b.failures == l.failed == n - 1
    requires b.process == ProcessIdentity(supervisorId, n) && n < c.policy.maxFailures
    requires CheckedAdd(0, c.policy.backoff.maximum).Some?
    ensures var r := Run(l, Crash(supervisorId, n, c.policy), c);
            && r.failed == n && r.binding == Some(LaunchPending(ProcessIdentity(supervisorId, n + 1), n))
            && |Launches(r.effects)| == |Launches(l.effects)| + 1
  {
    var crash := Crash(supervisorId, n, c.policy);
    var armed, launched := ArmRetryDeadline(DueAt(n, c.policy)), LaunchSupervisor(ProcessIdentity(supervisorId, n + 1));
    CrashTaken(l, b, supervisorId, n, c);
    RunTwo(l, crash[0], crash[1], c);
    EffectsGrow(l.effects, [armed]);
    EffectsGrow(l.effects + [armed], [launched]);
  }

  /** The budget can be spent in full: as long as its delays can be represented, every relaunch it allows can happen. */
  lemma {:induction false} BudgetCanBeSpent(b: SupervisorBinding, n: nat, c: Setting)
    requires Begins(b) && n < c.policy.maxFailures
    requires CheckedAdd(0, c.policy.backoff.maximum).Some?
    ensures var l := Run(Begin(b), Crashes(b.process.supervisorId, n, c.policy), c);
            && l.failed == n == |Launches(l.effects)|
            && l.binding == Some(if n == 0 then b else LaunchPending(b.process.(incarnation := n + 1), n))
  {
    if n > 0 {
      var id := b.process.supervisorId;
      BudgetCanBeSpent(b, n - 1, c);
      var before := Run(Begin(b), Crashes(id, n - 1, c.policy), c);
      CrashCosts(before, before.binding.value, id, n, c);
      RunConcat(Begin(b), Crashes(id, n - 1, c.policy), Crash(id, n, c.policy), c);
    }
  }
}
