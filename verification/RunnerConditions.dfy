/** Conditions on a script under which the attempt loop's refinement applies. */
module RunnerConditions {
  import opened Base
  import opened Restart
  import opened Executions
  import opened ExecutionProofs
  import opened BackoffWaits
  import opened Runner

  // ---- Nothing overflows ----

  /** No delay of this policy exceeds `limit`. */
  ghost predicate Within(policy: ExecutionRestartPolicy, limit: Duration) {
    match policy
    case Service(p) => p.Never? || p.policy.backoff.maximum <= limit
    case Job(p) => p.JobNever? || p.backoff.maximum <= limit
  }

  ghost predicate AllWithin(updates: seq<PolicyUpdate>, limit: Duration) {
    forall u <- updates :: Within(u.policy, limit)
  }

  ghost predicate RoomyWait(origin: Origin, inputs: seq<WaitInput>, limit: Duration) {
    forall i <- inputs :: i.UpdateInput? ==> KindMatches(origin, i.update.policy) && Within(i.update.policy, limit)
  }

  /** The clock still has room for `limit` at the attempt's end, and every policy and the stop plan stay within it. */
  ghost predicate RoomyInput(origin: Origin, input: AttemptInput, limit: Duration) {
    && CheckedAdd(input.at, limit).Some?
    && AdmissibleInput(origin, input)
    && AllWithin(Listed(input.update), limit) && AllWithin(UpdatesOf(input.result), limit)
    && RoomyWait(origin, input.backoff, limit)
    && (input.plan.Kill? || input.plan.timeout <= limit)
  }

  /** A launching state whose own policy stays within `limit`. */
  ghost predicate Roomy(s: ExecutionState, origin: Origin, limit: Duration) {
    s.origin == origin && KindMatches(origin, s.restartPolicy) && Within(s.restartPolicy, limit)
  }

  lemma ShorterFits(at: BootInstant, d: Duration, limit: Duration)
    requires CheckedAdd(at, limit).Some? && d <= limit
    ensures CheckedAdd(at, d).Some?
  {
    CheckedAddIsFirstTick(at, d);
    CheckedAddIsFirstTick(at, limit);
  }

  /** One update in a wait: it is accepted, and the wait goes on or the execution ends. */
  lemma UpdateFeeds(s: ExecutionState, u: PolicyUpdate, limit: Duration)
    requires s.phase.RestartBackoff? && Roomy(s, s.origin, limit)
    requires KindMatches(s.origin, u.policy) && Within(u.policy, limit)
    ensures var r := Feed(s, UpdateEvents(u));
            r.Ok? && (r.value == With(s, u) || r.value.phase.Terminal?)
  {
    FeedTwo(s, SuccessExitCodesChangedEvent(u.codes), RestartPolicyChangedEvent(u.policy));
  }

  lemma {:induction false} WaitFeeds(s: ExecutionState, inputs: seq<WaitInput>, limit: Duration, cause: StopCause,
                                     plan: StopPlan, at: BootInstant)
    requires s.phase.RestartBackoff? && CauseMatches(s.origin, cause) && RoomyWait(s.origin, inputs, limit)
    requires Roomy(s, s.origin, limit)
    ensures var r := MachineWait(s, inputs, cause, plan, at);
            && r.Ok?
            && (r.value.phase.Terminal? || (r.value == With(s, Current(r.value)) && Roomy(r.value, s.origin, limit)))
    decreases |inputs|
  {
    if inputs != [] {
      assert inputs[0] in inputs;
      if inputs[0].UpdateInput? {
        UpdateFeeds(s, inputs[0].update, limit);
        var t := Feed(s, UpdateEvents(inputs[0].update)).value;
        if t.phase.RestartBackoff? {
          WaitFeeds(t, inputs[1..], limit, cause, plan, at);
        }
      } else {
        FeedOne(s, StopRequestedEvent(cause, plan, at));
      }
    }
  }

  lemma BackoffFeeds(s: ExecutionState, inputs: seq<WaitInput>, limit: Duration, cause: StopCause,
                     plan: StopPlan, at: BootInstant)
    requires s.phase.RestartBackoff? && CauseMatches(s.origin, cause) && RoomyWait(s.origin, inputs, limit)
    requires Roomy(s, s.origin, limit)
    ensures var r := FeedBackoff(s, inputs, cause, plan, at);
            && r.Ok?
            && (r.value.phase.Terminal? ||
                (&& r.value == With(s, Current(r.value)).(phase := Launching(s.phase.nextAttempt))
                 && Roomy(r.value, s.origin, limit)))
  {
    WaitFeeds(s, inputs, limit, cause, plan, at);
    var t := MachineWait(s, inputs, cause, plan, at).value;
    if t.phase.RestartBackoff? {
      FeedOne(t, RestartDeadlineReachedEvent(t.phase.retryAt));
    }
  }

  lemma AttemptFinishes(s: ExecutionState, attempt: nonzero32, end: AttemptEnd, at: BootInstant, limit: Duration)
    requires Roomy(s, s.origin, limit) && CheckedAdd(at, limit).Some?
    requires attempt < U32_MAX && Retries(s) < U32_MAX
    ensures var r := FinishAttempt(s, attempt, end, at);
            && r.Ok?
            && (r.value.state.phase.Terminal? ||
                (&& r.value.state.phase.RestartBackoff? && r.value.state.phase.nextAttempt == attempt + 1
                 && Roomy(r.value.state, s.origin, limit) && Retries(r.value.state) <= Retries(s) + 1))
  {
    var t := AfterStableRun(s, end);
    var retry := if t.lastRetry.Some? then t.lastRetry.value + 1 else 1;
    if PolicyPermits(t, end, retry) == Ok(true) {
      DelayMonotone(Backoff(t).value, retry, retry);
      ShorterFits(at, Delay(Backoff(t).value, retry), limit);
    }
  }

  lemma EndsWithin(s: ExecutionState, input: AttemptInput, limit: Duration)
    requires Roomy(s, s.origin, limit) && RoomyInput(s.origin, input, limit)
    ensures Roomy(With(s, EndUpdate(Current(s), input)), s.origin, limit)
  {
    var updates := UpdatesOf(input.result);
    if updates != [] {
      assert updates[|updates| - 1] in updates;
    }
    if input.update.Some? {
      assert Listed(input.update)[0] in Listed(input.update);
    }
  }

  /** The end of one roomy attempt. */
  lemma EndFeeds(s: ExecutionState, input: AttemptInput, limit: Duration, cause: StopCause)
    requires s.phase.Launching? && s.phase.attempt < U32_MAX && Retries(s) < U32_MAX
    requires Roomy(s, s.origin, limit) && RoomyInput(s.origin, input, limit) && CauseMatches(s.origin, cause)
    ensures var r := Feed(s, AttemptEvents(s.phase.attempt, input, cause));
            && r.Ok?
            && (r.value.phase.Terminal? ||
                (&& r.value.phase.RestartBackoff? && r.value.phase.nextAttempt == s.phase.attempt + 1
                 && Roomy(r.value, s.origin, limit) && Retries(r.value) <= Retries(s) + 1))
  {
    if StopsAttempt(input) {
      if !input.plan.Kill? {
        ShorterFits(input.at, input.plan.timeout, limit);
      }
      FeedStoppedAttempt(s, input, cause);
    } else {
      EndsWithin(s, input, limit);
      FeedAttempt(s, input, cause);
      AttemptFinishes(With(s, EndUpdate(Current(s), input)), s.phase.attempt, EndOf(input), input.at, limit);
    }
  }

  /** One roomy attempt goes through, and uses at most one attempt number and one retry ordinal. */
  lemma AttemptFeeds(s: ExecutionState, input: AttemptInput, limit: Duration, cause: StopCause)
    requires s.phase.Launching? && s.phase.attempt < U32_MAX && Retries(s) < U32_MAX
    requires Roomy(s, s.origin, limit) && RoomyInput(s.origin, input, limit) && CauseMatches(s.origin, cause)
    ensures var r := MachineAttempt(s, input, cause);
            && r.Ok?
            && (r.value.state.phase.Launching? ==>
                  && r.value.state.phase.attempt == s.phase.attempt + 1 && Retries(r.value.state) <= Retries(s) + 1
                  && Roomy(r.value.state, s.origin, limit))
  {
    EndFeeds(s, input, limit, cause);
    var ended := Feed(s, AttemptEvents(s.phase.attempt, input, cause)).value;
    MachineTurn(s, input, cause, ended);
    if ended.phase.RestartBackoff? {
      BackoffFeeds(ended, input.backoff, limit, cause, input.plan, input.at);
    }
  }

  /**
    The refinement's hypothesis holds of every script that leaves room on the clock and is
    shorter than the attempt counter: `limit` bounds the delays and the stop timeouts.
  */
  lemma {:induction false} NothingOverflows(s: ExecutionState, inputs: seq<AttemptInput>, limit: Duration,
                                            cause: StopCause)
    requires s.phase.Launching? && s.phase.attempt + |inputs| <= U32_MAX && Retries(s) + |inputs| <= U32_MAX
    requires Roomy(s, s.origin, limit) && CauseMatches(s.origin, cause)
    requires forall i <- inputs :: RoomyInput(s.origin, i, limit)
    ensures MachineTrace(s, inputs, cause).Ok?
    decreases |inputs|
  {
    if inputs != [] {
      assert inputs[0] in inputs;
      AttemptFeeds(s, inputs[0], limit, cause);
      var next := MachineAttempt(s, inputs[0], cause).value.state;
      if next.phase.Launching? {
        NothingOverflows(next, inputs[1..], limit, cause);
      }
    }
  }

  // ---- The success codes stay ----

  ghost predicate AllKeep(codes: set<u32>, updates: seq<PolicyUpdate>) {
    forall u <- updates :: u.codes == codes
  }

  ghost predicate WaitKeeps(codes: set<u32>, inputs: seq<WaitInput>) {
    forall i <- inputs :: i.UpdateInput? ==> i.update.codes == codes
  }

  /** No update of the attempt or of the wait after it changes the success codes. */
  ghost predicate InputKeeps(codes: set<u32>, input: AttemptInput) {
    AllKeep(codes, Listed(input.update)) && AllKeep(codes, UpdatesOf(input.result)) && WaitKeeps(codes, input.backoff)
  }

  ghost predicate EventsKeep(codes: set<u32>, events: seq<Event>) {
    forall e <- events :: e.SuccessExitCodesChangedEvent? ==> e.codes == codes
  }

  lemma FinishKeepsCodes(s: ExecutionState, attempt: nonzero32, end: AttemptEnd, at: BootInstant)
    ensures var r := FinishAttempt(s, attempt, end, at);
            r.Ok? ==> r.value.state.successExitCodes == s.successExitCodes
  {
  }

  lemma TransitKeepsCodes(s: ExecutionState, event: Event)
    requires event.SuccessExitCodesChangedEvent? ==> event.codes == s.successExitCodes
    ensures Transit(s, event).Ok? ==> Transit(s, event).value.state.successExitCodes == s.successExitCodes
  {
    match event {
      case LaunchFailedEvent(attempt, failure, at) => FinishKeepsCodes(s, attempt, LaunchFailed(failure), at);
      case ProcessExitedEvent(attempt, code, ranFor, at) => FinishKeepsCodes(s, attempt, Exited(code, ranFor), at);
      case SupervisorLostEvent(at) =>
        if s.phase.Launching? || s.phase.Running? {
          FinishKeepsCodes(s, s.phase.attempt, SupervisorLost, at);
        }
      case _ =>
    }
  }

  lemma {:induction false} FeedKeepsCodes(s: ExecutionState, events: seq<Event>)
    requires EventsKeep(s.successExitCodes, events)
    ensures Feed(s, events).Ok? ==> Feed(s, events).value.successExitCodes == s.successExitCodes
    decreases |events|
  {
    if events != [] {
      assert events[0] in events;
      TransitKeepsCodes(s, events[0]);
      if Transit(s, events[0]).Ok? {
        FeedKeepsCodes(Transit(s, events[0]).value.state, events[1..]);
      }
    }
  }

  lemma {:induction false} UpdateEventsKeep(codes: set<u32>, updates: seq<PolicyUpdate>)
    requires AllKeep(codes, updates)
    ensures EventsKeep(codes, AllUpdateEvents(updates))
  {
    if updates != [] {
      assert updates[0] in updates;
      UpdateEventsKeep(codes, updates[1..]);
    }
  }

  lemma AttemptEventsKeep(codes: set<u32>, attempt: nonzero32, input: AttemptInput, cause: StopCause)
    requires InputKeeps(codes, input)
    ensures EventsKeep(codes, AttemptEvents(attempt, input, cause))
  {
    UpdateEventsKeep(codes, Listed(input.update));
    UpdateEventsKeep(codes, UpdatesOf(input.result));
  }

  lemma {:induction false} WaitKeepsCodes(s: ExecutionState, inputs: seq<WaitInput>, cause: StopCause,
                                          plan: StopPlan, at: BootInstant)
    requires WaitKeeps(s.successExitCodes, inputs)
    ensures var r := FeedBackoff(s, inputs, cause, plan, at);
            r.Ok? ==> r.value.successExitCodes == s.successExitCodes
    decreases |inputs|
  {
    if inputs == [] || !s.phase.RestartBackoff? {
      if s.phase.RestartBackoff? {
        FeedKeepsCodes(s, [RestartDeadlineReachedEvent(s.phase.retryAt)]);
      }
    } else {
      assert inputs[0] in inputs;
      var events := WaitEvents(inputs[0], cause, plan, at);
      FeedKeepsCodes(s, events);
      if Feed(s, events).Ok? {
        WaitKeepsCodes(Feed(s, events).value, inputs[1..], cause, plan, at);
      }
    }
  }

  lemma {:induction false} SteadyWhenCodesStay(before: Settings, end: AttemptEnd, retries: u32, inputs: seq<WaitInput>)
    requires WaitKeeps(before.codes, inputs)
    ensures Steady(before, end, Succeeds(before.codes, end), retries, inputs)
    decreases |inputs|
  {
    if inputs != [] && inputs[0].UpdateInput? {
      assert inputs[0] in inputs;
      SteadyWhenCodesStay(Flat(inputs[0].update), end, retries, inputs[1..]);
    }
  }

  /** Every wait of a script whose updates leave the success codes alone is steady. */
  lemma {:induction false} SteadyTraceWhenCodesStay(s: ExecutionState, inputs: seq<AttemptInput>, cause: StopCause)
    requires forall i <- inputs :: InputKeeps(s.successExitCodes, i)
    ensures SteadyTrace(s, inputs, cause)
    decreases |inputs|
  {
    if inputs != [] && s.phase.Launching? {
      assert inputs[0] in inputs;
      var events := AttemptEvents(s.phase.attempt, inputs[0], cause);
      AttemptEventsKeep(s.successExitCodes, s.phase.attempt, inputs[0], cause);
      FeedKeepsCodes(s, events);
      if Feed(s, events).Ok? {
        var ended := Feed(s, events).value;
        MachineTurn(s, inputs[0], cause, ended);
        WaitKeepsCodes(ended, inputs[0].backoff, cause, inputs[0].plan, inputs[0].at);
        if ended.phase.RestartBackoff? {
          SteadyWhenCodesStay(Flat(Current(ended)), ended.phase.previousEnd, ended.phase.retry - 1, inputs[0].backoff);
        }
        if MachineAttempt(s, inputs[0], cause).Ok? {
          SteadyTraceWhenCodesStay(MachineAttempt(s, inputs[0], cause).value.state, inputs[1..], cause);
        }
      }
    }
  }
}
