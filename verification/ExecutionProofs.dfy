/** What every run of the execution machine keeps. */
module ExecutionProofs {
  import opened Base
  import opened Restart
  import opened Executions

  ghost predicate WellFormed(s: ExecutionState) {
    && KindMatches(s.origin, s.restartPolicy)
    && match s.phase {
         case Launching(_) => true
         case Running(_) => true
         case RestartBackoff(previous, end, next, retry, _) =>
           && next == previous + 1
           && s.lastRetry == Some(retry)
           && PolicyPermits(s, end, retry) == Ok(true)
         case Stopping(_, phase, cause, plan) =>
           CauseMatches(s.origin, cause) && (plan.Kill? ==> phase.Killing?)
         case Terminal(outcome) =>
           && (outcome.Stopped? ==> s.origin.ServiceIntent?)
           && (outcome.Cancelled? || outcome.OutcomeUnknown? ==> s.origin.JobExecution?)
       }
  }

  lemma FinishAttemptKeeps(s: ExecutionState, attempt: nonzero32, end: AttemptEnd, at: BootInstant)
    requires WellFormed(s)
    ensures FinishAttempt(s, attempt, end, at).Ok? ==> WellFormed(FinishAttempt(s, attempt, end, at).value.state)
    ensures FinishAttempt(s, attempt, end, at) != Err(PolicyKindMismatch)
  {
  }

  lemma {:induction false} NextKeeps(s: ExecutionState, event: Event)
    requires WellFormed(s)
    ensures WellFormed(Next(s, event).state)
    ensures Next(s, event).state.origin == s.origin
  {
    match event {
      case LaunchFailedEvent(attempt, failure, at) => FinishAttemptKeeps(s, attempt, LaunchFailed(failure), at);
      case ProcessExitedEvent(attempt, code, ranFor, at) => FinishAttemptKeeps(s, attempt, Exited(code, ranFor), at);
      case SupervisorLostEvent(at) =>
        if s.phase.Launching? || s.phase.Running? {
          FinishAttemptKeeps(s, s.phase.attempt, SupervisorLost, at);
        }
      case _ =>
    }
  }

  lemma {:induction false} RunKeeps(s: ExecutionState, events: seq<Event>)
    requires WellFormed(s)
    ensures WellFormed(Run(s, events).state) && Run(s, events).state.origin == s.origin
  {
    if events != [] {
      RunKeeps(s, events[..|events| - 1]);
      NextKeeps(Run(s, events[..|events| - 1]).state, events[|events| - 1]);
    }
  }

  lemma FreshWellFormed(origin: Origin, codes: set<u32>, policy: ExecutionRestartPolicy)
    ensures WellFormed(Fresh(origin, codes, policy)) <==> KindMatches(origin, policy)
  {
  }

  /** A policy-kind error comes from an update of the wrong kind only. */
  lemma {:induction false} MismatchOnlyFromWrongKind(s: ExecutionState, event: Event)
    requires WellFormed(s)
    ensures Transit(s, event) == Err(PolicyKindMismatch) <==>
            event.RestartPolicyChangedEvent? && !KindMatches(s.origin, event.policy)
  {
    match event {
      case LaunchFailedEvent(attempt, failure, at) => FinishAttemptKeeps(s, attempt, LaunchFailed(failure), at);
      case ProcessExitedEvent(attempt, code, ranFor, at) => FinishAttemptKeeps(s, attempt, Exited(code, ranFor), at);
      case SupervisorLostEvent(at) =>
        if s.phase.Launching? || s.phase.Running? {
          FinishAttemptKeeps(s, s.phase.attempt, SupervisorLost, at);
        }
      case _ =>
    }
  }

  /**
    Along every run of a fresh execution: a kill plan never waits for a launch; a pending retry is
    the next attempt and is permitted by the policy and the exit codes of that moment; and the
    next event is refused for the kind of a policy if and only if it brings one of the wrong kind.
  */
  lemma {:induction false} StateInvariants(origin: Origin, codes: set<u32>, policy: ExecutionRestartPolicy,
                                           events: seq<Event>, event: Event)
    requires KindMatches(origin, policy)
    ensures var s := Run(Fresh(origin, codes, policy), events).state;
            && (s.phase.Stopping? && !s.phase.phase.Killing? ==> !s.phase.plan.Kill?)
            && (s.phase.RestartBackoff? ==>
                  && s.phase.nextAttempt == s.phase.previousAttempt + 1
                  && PolicyPermits(s, s.phase.previousEnd, s.phase.retry) == Ok(true))
            && (s.phase.Terminal? && s.phase.outcome.OutcomeUnknown? ==> origin.JobExecution?)
            && (Transit(s, event) == Err(PolicyKindMismatch) <==>
                event.RestartPolicyChangedEvent? && !KindMatches(origin, event.policy))
  {
    FreshWellFormed(origin, codes, policy);
    RunKeeps(Fresh(origin, codes, policy), events);
    MismatchOnlyFromWrongKind(Run(Fresh(origin, codes, policy), events).state, event);
  }

  lemma RunLast(s: ExecutionState, events: seq<Event>, event: Event)
    ensures var r := Run(s, events);
            var n := Next(r.state, event);
            Run(s, events + [event]) == Transition(n.state, r.effects + n.effects)
  {
    assert (events + [event])[..|events|] == events;
  }

  lemma {:induction false} RunConcat(s: ExecutionState, first: seq<Event>, second: seq<Event>)
    ensures var r := Run(s, first);
            var t := Run(r.state, second);
            Run(s, first + second) == Transition(t.state, r.effects + t.effects)
  {
    if second == [] {
      assert first + second == first;
    } else {
      var middle, last := second[..|second| - 1], second[|second| - 1];
      assert second == middle + [last] && first + second == first + middle + [last];
      RunConcat(s, first, middle);
      RunLast(s, first + middle, last);
      RunLast(Run(s, first).state, middle, last);
      EffectsAssociate(Run(s, first).effects, Run(Run(s, first).state, middle).effects,
                       Next(Run(s, first + middle).state, last).effects);
    }
  }

  lemma EffectsAssociate(a: seq<Effect>, b: seq<Effect>, c: seq<Effect>)
    ensures (a + b) + c == a + (b + c)
  {
  }

  // ---- Attempts ----

  /** The attempts a list of effects launches, in order. */
  function Launches(effects: seq<Effect>): seq<nat> {
    if effects == [] then []
    else
      var last := effects[|effects| - 1];
      Launches(effects[..|effects| - 1]) + (if last.LaunchAttempt? then [last.attempt] else [])
  }

  lemma {:induction false} LaunchesConcat(a: seq<Effect>, b: seq<Effect>)
    ensures Launches(a + b) == Launches(a) + Launches(b)
  {
    if b == [] {
      assert a + b == a;
    } else {
      assert (a + b)[..|a + b| - 1] == a + b[..|b| - 1];
      LaunchesConcat(a, b[..|b| - 1]);
    }
  }

  /** The attempt a phase is about; a pending retry is still about the attempt before it. */
  function CurrentAttempt(phase: Phase): nat {
    match phase
    case Launching(attempt) => attempt
    case Running(attempt) => attempt
    case RestartBackoff(previous, _, _, _, _) => previous
    case Stopping(attempt, _, _, _) => attempt
    case Terminal(_) => 0
  }

  /** A step has at most two effects, and the second only arms a stop deadline. */
  predicate Short(effects: seq<Effect>) {
    |effects| <= 2 && (|effects| == 2 ==> effects[1].ScheduleStopDeadline?)
  }

  lemma NextIsShort(s: ExecutionState, event: Event)
    ensures Short(Next(s, event).effects)
  {
  }

  lemma ShortLaunches(effects: seq<Effect>)
    requires Short(effects)
    ensures Launches(effects) == if effects != [] && effects[0].LaunchAttempt? then [effects[0].attempt] else []
  {
    if effects != [] {
      assert effects[..1][..0] == [];
      assert Launches(effects[..1]) == if effects[0].LaunchAttempt? then [effects[0].attempt] else [];
      assert effects[..|effects|] == effects;
    }
  }

  lemma LaunchesOnlyRetry(s: ExecutionState, event: Event)
    requires WellFormed(s)
    ensures var t := Next(s, event);
            t.effects != [] && t.effects[0].LaunchAttempt? ==>
              && s.phase.RestartBackoff?
              && t.effects[0].attempt == CurrentAttempt(s.phase) + 1
              && t.state.phase == Launching(t.effects[0].attempt)
  {
  }

  lemma AttemptKept(s: ExecutionState, event: Event)
    requires WellFormed(s)
    ensures var t := Next(s, event);
            !(t.effects != [] && t.effects[0].LaunchAttempt?) && !t.state.phase.Terminal? ==>
              !s.phase.Terminal? && CurrentAttempt(t.state.phase) == CurrentAttempt(s.phase)
  {
  }

  /** A step launches nothing, or exactly the attempt after the current one. */
  lemma {:induction false} NextLaunches(s: ExecutionState, event: Event)
    requires WellFormed(s)
    ensures var t := Next(s, event);
            && (Launches(t.effects) == [] || Launches(t.effects) == [CurrentAttempt(s.phase) + 1])
            && (!t.state.phase.Terminal? ==>
                  !s.phase.Terminal? && CurrentAttempt(t.state.phase) ==
                      CurrentAttempt(s.phase) + |Launches(t.effects)|)
            && (s.phase.Terminal? || t.state.phase.Terminal? ==> Launches(t.effects) == [])
  {
    NextIsShort(s, event);
    ShortLaunches(Next(s, event).effects);
    LaunchesOnlyRetry(s, event);
    AttemptKept(s, event);
  }

  /** Over every event list, the launched attempts are consecutive numbers. */
  lemma {:induction false} AttemptsConsecutive(s: ExecutionState, events: seq<Event>)
    requires WellFormed(s)
    ensures var r := Run(s, events);
            var launched := Launches(r.effects);
            && (forall i :: 0 <= i < |launched| ==> launched[i] == CurrentAttempt(s.phase) + 1 + i)
            && (!r.state.phase.Terminal? ==>
                  !s.phase.Terminal? && CurrentAttempt(r.state.phase) == CurrentAttempt(s.phase) + |launched|)
            && (s.phase.Terminal? ==> launched == [])
  {
    if events != [] {
      var earlier := Run(s, events[..|events| - 1]);
      AttemptsConsecutive(s, events[..|events| - 1]);
      RunKeeps(s, events[..|events| - 1]);
      NextLaunches(earlier.state, events[|events| - 1]);
      LaunchesConcat(earlier.effects, Next(earlier.state, events[|events| - 1]).effects);
    }
  }

  // ---- A pending retry ----

  /** A retry fires on its own deadline and on no other. */
  lemma RetryFires(s: ExecutionState, event: Event)
    requires WellFormed(s) && s.phase.RestartBackoff?
    ensures var t := Next(s, event);
            if event == RestartDeadlineReachedEvent(s.phase.retryAt) then
              t == Transition(s.(phase := Launching(s.phase.previousAttempt + 1)),
                              [LaunchAttempt(s.phase.previousAttempt + 1)])
            else
              && (t.effects == [] || !t.effects[0].LaunchAttempt?)
              && (t.state.phase == s.phase || t.state.phase.Terminal?)
  {
  }

  lemma NextPending(s: ExecutionState, event: Event)
    requires WellFormed(s) && s.phase.RestartBackoff?
    ensures var t := Next(s, event);
            if event == RestartDeadlineReachedEvent(s.phase.retryAt) then
              Launches(t.effects) == [s.phase.previousAttempt + 1] && !t.state.phase.RestartBackoff?
            else
              Launches(t.effects) == [] && (t.state.phase == s.phase || t.state.phase.Terminal?)
  {
    RetryFires(s, event);
    NextIsShort(s, event);
    ShortLaunches(Next(s, event).effects);
  }

  /**
    A pending retry, with its deadline, stays as it is until it fires or the execution ends, and it
    fires on its own deadline and on no other: while it is pending that deadline has not been
    reported, and nothing is launched before it is.
  */
  lemma {:induction false} PendingRetryKept(s: ExecutionState, events: seq<Event>)
    requires WellFormed(s) && s.phase.RestartBackoff?
    ensures var r := Run(s, events);
            var due := RestartDeadlineReachedEvent(s.phase.retryAt);
            && (Launches(r.effects) == [] ==> r.state.phase == s.phase || r.state.phase.Terminal?)
            && (Launches(r.effects) == [] && r.state.phase == s.phase ==> due !in events)
            && (Launches(r.effects) != [] ==> due in events && Launches(r.effects)[0] == s.phase.previousAttempt + 1)
  {
    if events != [] {
      var before, event := events[..|events| - 1], events[|events| - 1];
      var earlier := Run(s, before);
      assert events == before + [event];
      PendingRetryKept(s, before);
      RunKeeps(s, before);
      LaunchesConcat(earlier.effects, Next(earlier.state, event).effects);
      if earlier.state.phase.Terminal? {
        TerminalStays(earlier.state, event);
      } else if Launches(earlier.effects) == [] {
        NextPending(earlier.state, event);
      }
    }
  }

  // ---- Terminal outcomes ----

  lemma TerminalStays(s: ExecutionState, event: Event)
    requires s.phase.Terminal?
    ensures Next(s, event).state.phase == s.phase && Next(s, event).effects == []
  {
  }

  function Published(effects: seq<Effect>): seq<Outcome> {
    if effects == [] then []
    else
      var last := effects[|effects| - 1];
      Published(effects[..|effects| - 1]) + (if last.PublishTerminal? then [last.outcome] else [])
  }

  lemma {:induction false} PublishedConcat(a: seq<Effect>, b: seq<Effect>)
    ensures Published(a + b) == Published(a) + Published(b)
  {
    if b == [] {
      assert a + b == a;
    } else {
      assert (a + b)[..|a + b| - 1] == a + b[..|b| - 1];
      PublishedConcat(a, b[..|b| - 1]);
    }
  }

  lemma ShortPublishes(effects: seq<Effect>)
    requires Short(effects)
    ensures Published(effects) == if effects != [] && effects[0].PublishTerminal? then [effects[0].outcome] else []
  {
    if effects != [] {
      assert effects[..1][..0] == [];
      assert Published(effects[..1]) == if effects[0].PublishTerminal? then [effects[0].outcome] else [];
      assert effects[..|effects|] == effects;
    }
  }

  lemma PublishesOnEnd(s: ExecutionState, event: Event)
    ensures var t := Next(s, event);
            if !s.phase.Terminal? && t.state.phase.Terminal? then t.effects == [PublishTerminal(t.state.phase.outcome)]
            else t.effects == [] || !t.effects[0].PublishTerminal?
  {
  }

  lemma NextPublishes(s: ExecutionState, event: Event)
    ensures var t := Next(s, event);
            Published(t.effects) ==
            if !s.phase.Terminal? && t.state.phase.Terminal? then [t.state.phase.outcome] else []
  {
    NextIsShort(s, event);
    ShortPublishes(Next(s, event).effects);
    PublishesOnEnd(s, event);
  }

  /** An outcome is published exactly when the execution ends, once, and it never changes afterwards. */
  lemma {:induction false} OutcomePublishedOnce(s: ExecutionState, events: seq<Event>)
    ensures var r := Run(s, events);
            && (s.phase.Terminal? ==> r.state.phase == s.phase && Published(r.effects) == [])
            && (!s.phase.Terminal? ==>
                  Published(r.effects) == if r.state.phase.Terminal? then [r.state.phase.outcome] else [])
  {
    if events != [] {
      var earlier := Run(s, events[..|events| - 1]);
      var event := events[|events| - 1];
      OutcomePublishedOnce(s, events[..|events| - 1]);
      NextPublishes(earlier.state, event);
      PublishedConcat(earlier.effects, Next(earlier.state, event).effects);
      if earlier.state.phase.Terminal? {
        TerminalStays(earlier.state, event);
      }
    }
  }

  // ---- Stops ----

  predicate Restarts(effects: seq<Effect>) {
    exists e <- effects :: e.LaunchAttempt? || e.ScheduleRestart?
  }

  /** Stopping for `cause`, or ended by that stop. */
  predicate StoppedBy(s: ExecutionState, cause: StopCause) {
    match s.phase
    case Stopping(_, _, c, _) => c == cause
    case Terminal(outcome) => outcome == StopOutcome(cause, false) || outcome == StopOutcome(cause, true)
    case _ => false
  }

  lemma NextStopped(s: ExecutionState, event: Event, cause: StopCause)
    requires StoppedBy(s, cause)
    ensures StoppedBy(Next(s, event).state, cause) && !Restarts(Next(s, event).effects)
  {
  }

  lemma {:induction false} RunStopped(s: ExecutionState, events: seq<Event>, cause: StopCause)
    requires StoppedBy(s, cause)
    ensures StoppedBy(Run(s, events).state, cause) && !Restarts(Run(s, events).effects)
  {
    if events != [] {
      RunStopped(s, events[..|events| - 1], cause);
      NextStopped(Run(s, events[..|events| - 1]).state, events[|events| - 1], cause);
    }
  }

  /** A live execution accepts a stop of its own kind, unless the stop's deadline overflows the clock. */
  predicate StopAcceptable(s: ExecutionState, cause: StopCause, plan: StopPlan, at: BootInstant) {
    CauseMatches(s.origin, cause) && (s.phase.RestartBackoff? || plan.Kill? || CheckedAdd(at, plan.timeout).Some?)
  }

  lemma StopAccepted(s: ExecutionState, cause: StopCause, plan: StopPlan, at: BootInstant)
    requires s.phase.Launching? || s.phase.Running? || s.phase.RestartBackoff?
    ensures Transit(s, StopRequestedEvent(cause, plan, at)).Ok? <==> StopAcceptable(s, cause, plan, at)
    ensures StopAcceptable(s, cause, plan, at) ==> StoppedBy(Next(s, StopRequestedEvent(cause, plan, at)).state, cause)
  {
  }

  /**
    A stop of a live execution is accepted if and only if the cause is of its kind and the stop's
    deadline can be represented, and is without effect otherwise. The first accepted stop decides:
    whatever follows it, other stops included, nothing is launched or scheduled again and the only
    possible outcome is the one for its cause.
  */
  lemma {:induction false} FirstStopDecides(
    s: ExecutionState, before: seq<Event>, cause: StopCause, plan: StopPlan, at: BootInstant, after: seq<Event>)
    requires var live := Run(s, before).state;
             live.phase.Launching? || live.phase.Running? || live.phase.RestartBackoff?
    ensures var stop := [StopRequestedEvent(cause, plan, at)];
            var accepted := Run(s, before + stop);
            var r := Run(s, before + stop + after);
            if StopAcceptable(Run(s, before).state, cause, plan, at) then
              && StoppedBy(r.state, cause)
              && accepted.effects <= r.effects
              && !Restarts(r.effects[|accepted.effects|..])
            else accepted == Run(s, before)
  {
    var event := StopRequestedEvent(cause, plan, at);
    var live := Run(s, before).state;
    StopAccepted(live, cause, plan, at);
    RunLast(s, before, event);
    if StopAcceptable(live, cause, plan, at) {
      RunConcat(s, before + [event], after);
      RunStopped(Run(s, before + [event]).state, after, cause);
    }
  }

  // ---- Bounded retries ----

  function Retries(s: ExecutionState): nat {
    if s.lastRetry.Some? then s.lastRetry.value else 0
  }

  /** No policy allows more than `limit` retries, or resets before a run of `stable`. */
  ghost predicate Bounded(policy: ExecutionRestartPolicy, limit: nat, stable: Duration) {
    match policy
    case Service(p) =>
      p.Never? ||
      (p.policy.limit.Finite? && p.policy.limit.maximum <= limit && stable <= p.policy.resetAfter)
    case Job(p) => p.JobNever? || p.maxRestarts <= limit
  }

  /** The events carry only bounded policies, and a service never runs for the stable window. */
  ghost predicate BoundedEvents(origin: Origin, events: seq<Event>, limit: nat, stable: Duration) {
    forall e <- events ::
      && (e.RestartPolicyChangedEvent? ==> Bounded(e.policy, limit, stable))
      && (e.ProcessExitedEvent? && origin.ServiceIntent? ==> e.ranFor < stable)
  }

  ghost predicate Counted(s: ExecutionState, limit: nat, stable: Duration) {
    && WellFormed(s) && Bounded(s.restartPolicy, limit, stable) && Retries(s) <= limit
    && match s.phase {
         case Launching(attempt) => attempt == 1 + Retries(s)
         case Running(attempt) => attempt == 1 + Retries(s)
         case RestartBackoff(previous, _, _, _, _) => previous == Retries(s)
         case Stopping(attempt, _, _, _) => attempt == 1 + Retries(s)
         case Terminal(_) => true
       }
  }

  lemma FinishAttemptCounted(s: ExecutionState, attempt: nonzero32, end: AttemptEnd, at: BootInstant,
                             limit: nat, stable: Duration)
    requires Counted(s, limit, stable) && attempt == 1 + Retries(s)
    requires end.Exited? && s.origin.ServiceIntent? ==> end.ranFor < stable
    ensures FinishAttempt(s, attempt, end, at).Ok? ==>
              Counted(FinishAttempt(s, attempt, end, at).value.state, limit, stable)
  {
    FinishAttemptKeeps(s, attempt, end, at);
    assert AfterStableRun(s, end) == s;
  }

  lemma {:induction false} NextCounted(s: ExecutionState, event: Event, limit: nat, stable: Duration)
    requires Counted(s, limit, stable) && BoundedEvents(s.origin, [event], limit, stable)
    ensures Counted(Next(s, event).state, limit, stable)
  {
    assert event in [event];
    NextKeeps(s, event);
    match event {
      case LaunchFailedEvent(attempt, failure, at) =>
        if s.phase.Launching? && s.phase.attempt == attempt {
          FinishAttemptCounted(s, attempt, LaunchFailed(failure), at, limit, stable);
        }
      case ProcessExitedEvent(attempt, code, ranFor, at) =>
        if s.phase.Running? && s.phase.attempt == attempt {
          FinishAttemptCounted(s, attempt, Exited(code, ranFor), at, limit, stable);
        }
      case SupervisorLostEvent(at) =>
        if s.phase.Launching? || s.phase.Running? {
          FinishAttemptCounted(s, s.phase.attempt, SupervisorLost, at, limit, stable);
        }
      case _ =>
    }
  }

  lemma {:induction false} RunCounted(s: ExecutionState, events: seq<Event>, limit: nat, stable: Duration)
    requires Counted(s, limit, stable) && BoundedEvents(s.origin, events, limit, stable)
    ensures Counted(Run(s, events).state, limit, stable)
    ensures !s.phase.Terminal? ==> CurrentAttempt(s.phase) + |Launches(Run(s, events).effects)| <= limit + 1
  {
    if events != [] {
      var event := events[|events| - 1];
      var earlier := Run(s, events[..|events| - 1]);
      RunCounted(s, events[..|events| - 1], limit, stable);
      RunKeeps(s, events[..|events| - 1]);
      NextCounted(earlier.state, event, limit, stable);
      AttemptsConsecutive(s, events[..|events| - 1]);
      NextLaunches(earlier.state, event);
      LaunchesConcat(earlier.effects, Next(earlier.state, event).effects);
    }
  }

  /**
    A job whose policies never exceed M restarts launches at most M+1 attempts, its first one
    included; so does a service that never stays up for the stable window.
  */
  lemma BoundedAttempts(origin: Origin, codes: set<u32>, policy: ExecutionRestartPolicy, events: seq<Event>,
                        limit: nat, stable: Duration)
    requires KindMatches(origin, policy) && Bounded(policy, limit, stable)
    requires BoundedEvents(origin, events, limit, stable)
    ensures 1 + |Launches(Run(Fresh(origin, codes, policy), events).effects)| <= limit + 1
  {
    RunCounted(Fresh(origin, codes, policy), events, limit, stable);
  }
}
