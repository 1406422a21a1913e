/** How a stop escalates: what is done to the process, in which order, and what the outcome says of it. */
module ExecutionStops {
  import opened Base
  import opened Restart
  import opened Executions
  import opened ExecutionProofs

  predicate IsSignal(e: Effect) {
    e.SendCtrlBreak? || e.RunStopCommand? || e.TerminateJobObject?
  }

  /** What a list of effects does to the process, in order. */
  function Signals(effects: seq<Effect>): seq<Effect> {
    if effects == [] then []
    else
      var last := effects[|effects| - 1];
      Signals(effects[..|effects| - 1]) + (if IsSignal(last) then [last] else [])
  }

  /** The graceful request a plan stands for. */
  function RequestOf(plan: StopPlan): Effect {
    if plan.CtrlBreak? then SendCtrlBreak else RunStopCommand
  }

  /** One graceful request, and perhaps termination after it. */
  predicate Requested(signals: seq<Effect>) {
    && 1 <= |signals| <= 2 && (signals[0].SendCtrlBreak? || signals[0].RunStopCommand?)
    && (|signals| == 2 ==> signals[1] == TerminateJobObject)
  }

  /** The signals a process can have had by the time it is in a phase. */
  predicate Escalated(phase: Phase, signals: seq<Effect>) {
    match phase
    case Stopping(_, AwaitingLaunch(_), _, plan) => !plan.Kill? && signals == []
    case Stopping(_, Graceful(_), _, plan) => !plan.Kill? && signals == [RequestOf(plan)]
    case Stopping(_, Killing, _, plan) =>
      signals == [TerminateJobObject] || (!plan.Kill? && signals == [RequestOf(plan), TerminateJobObject])
    case Terminal(outcome) =>
      if outcome.Stopped? || outcome.Cancelled? then
        signals == [] || signals == [TerminateJobObject] || Requested(signals)
      else signals == []
    case _ => signals == []
  }

  lemma {:induction false} SignalsConcat(a: seq<Effect>, b: seq<Effect>)
    ensures Signals(a + b) == Signals(a) + Signals(b)
  {
    if b == [] {
      assert a + b == a;
    } else {
      assert (a + b)[..|a + b| - 1] == a + b[..|b| - 1];
      SignalsConcat(a, b[..|b| - 1]);
    }
  }

  lemma ShortSignals(effects: seq<Effect>)
    requires Short(effects)
    ensures Signals(effects) == if effects != [] && IsSignal(effects[0]) then [effects[0]] else []
  {
    if effects != [] {
      assert effects[..1][..0] == [];
      assert Signals(effects[..1]) == if IsSignal(effects[0]) then [effects[0]] else [];
      assert effects[..|effects|] == effects;
    }
  }

  /** The signal of one step. */
  function SignalOf(effects: seq<Effect>): seq<Effect> {
    if effects != [] && IsSignal(effects[0]) then [effects[0]] else []
  }

  lemma StoppingEscalates(s: ExecutionState, event: Event, signals: seq<Effect>)
    requires s.phase.Stopping? && Escalated(s.phase, signals)
    ensures Escalated(Next(s, event).state.phase, signals + SignalOf(Next(s, event).effects))
  {
    assert signals + [] == signals;
    assert [RequestOf(s.phase.plan)] + [TerminateJobObject] == [RequestOf(s.phase.plan), TerminateJobObject];
  }

  lemma StopRequestEscalates(s: ExecutionState, event: Event)
    requires WellFormed(s) && !s.phase.Stopping? && event.StopRequestedEvent?
    ensures s.phase.Terminal? ==> Next(s, event) == Transition(s, [])
    ensures !s.phase.Terminal? ==> Escalated(Next(s, event).state.phase, SignalOf(Next(s, event).effects))
  {
  }

  lemma OthersEscalate(s: ExecutionState, event: Event)
    requires WellFormed(s) && !s.phase.Stopping? && !event.StopRequestedEvent?
    ensures SignalOf(Next(s, event).effects) == []
    ensures s.phase.Terminal? ==> Next(s, event).state.phase == s.phase
    ensures !s.phase.Terminal? ==> Escalated(Next(s, event).state.phase, [])
  {
  }

  lemma UnstoppedEscalates(s: ExecutionState, event: Event, signals: seq<Effect>)
    requires WellFormed(s) && !s.phase.Stopping? && Escalated(s.phase, signals)
    ensures Escalated(Next(s, event).state.phase, signals + SignalOf(Next(s, event).effects))
  {
    var signal := SignalOf(Next(s, event).effects);
    assert signals + [] == signals && [] + signal == signal;
    assert s.phase.Terminal? || signals == [];
    if event.StopRequestedEvent? {
      StopRequestEscalates(s, event);
    } else {
      OthersEscalate(s, event);
    }
  }

  lemma StepEscalates(s: ExecutionState, event: Event, signals: seq<Effect>)
    requires WellFormed(s) && Escalated(s.phase, signals)
    ensures Escalated(Next(s, event).state.phase, signals + SignalOf(Next(s, event).effects))
  {
    if s.phase.Stopping? {
      StoppingEscalates(s, event, signals);
    } else {
      UnstoppedEscalates(s, event, signals);
    }
  }

  /**
    Over every event list: a process is asked to stop at most once, in the way its plan says and
    only once it is running; it is terminated at most once, after that request or instead of it;
    and an execution nobody stopped is never signalled.
  */
  lemma {:induction false} StopEscalates(origin: Origin, codes: set<u32>, policy: ExecutionRestartPolicy,
                                         events: seq<Event>)
    requires KindMatches(origin, policy)
    ensures var r := Run(Fresh(origin, codes, policy), events);
            Escalated(r.state.phase, Signals(r.effects))
  {
    var s := Fresh(origin, codes, policy);
    if events != [] {
      var earlier, event := Run(s, events[..|events| - 1]), events[|events| - 1];
      StopEscalates(origin, codes, policy, events[..|events| - 1]);
      RunKeeps(s, events[..|events| - 1]);
      NextIsShort(earlier.state, event);
      ShortSignals(Next(earlier.state, event).effects);
      StepEscalates(earlier.state, event, Signals(earlier.effects));
      SignalsConcat(earlier.effects, Next(earlier.state, event).effects);
    }
  }

  lemma EndOfStop(s: ExecutionState, event: Event)
    requires !s.phase.Terminal? && Next(s, event).state.phase.Terminal?
    ensures var outcome := Next(s, event).state.phase.outcome;
            outcome.Stopped? || outcome.Cancelled? ==>
              (outcome.forced <==> s.phase.Stopping? && (event.SupervisorLostEvent? ||
                                   (event.ProcessExitedEvent? && s.phase.phase.Killing?)))
  {
  }

  lemma ExitNeedsRun(s: ExecutionState, event: Event)
    requires !s.phase.Terminal? && Next(s, event).state.phase.Terminal? && !s.phase.Stopping?
    ensures var outcome := Next(s, event).state.phase.outcome;
            outcome.Stopped? || outcome.Cancelled? ==> !event.SupervisorLostEvent? && !event.ProcessExitedEvent?
  {
  }

  /**
    Over every event list: a stopped execution counts as forced if and only if what ended it is
    the exit of a process that had been ordered to terminate, or the loss of its supervisor.
  */
  lemma {:induction false} ForcedExactly(origin: Origin, codes: set<u32>, policy: ExecutionRestartPolicy,
                                         events: seq<Event>, event: Event)
    requires KindMatches(origin, policy)
    requires !Run(Fresh(origin, codes, policy), events).state.phase.Terminal?
    ensures var before := Run(Fresh(origin, codes, policy), events);
            var last := Run(Fresh(origin, codes, policy), events + [event]).state;
            last.phase.Terminal? && (last.phase.outcome.Stopped? || last.phase.outcome.Cancelled?) ==>
              (last.phase.outcome.forced <==>
               event.SupervisorLostEvent? ||
               (event.ProcessExitedEvent? && TerminateJobObject in Signals(before.effects)))
  {
    var before := Run(Fresh(origin, codes, policy), events);
    RunLast(Fresh(origin, codes, policy), events, event);
    StopEscalates(origin, codes, policy, events);
    if Next(before.state, event).state.phase.Terminal? {
      EndOfStop(before.state, event);
      if before.state.phase.Stopping? {
        TerminatedIsKilling(before.state.phase, Signals(before.effects));
      } else {
        ExitNeedsRun(before.state, event);
      }
    }
  }

  lemma TerminatedIsKilling(phase: Phase, signals: seq<Effect>)
    requires phase.Stopping? && Escalated(phase, signals)
    ensures TerminateJobObject in signals <==> phase.phase.Killing?
  {
  }

  // ---- The deadline of a stop ----

  /** Stopping gracefully, or about to once launched, until `deadline`. */
  predicate Armed(phase: Phase, deadline: BootInstant) {
    phase.Stopping? && !phase.phase.Killing? && phase.phase.deadline == deadline
  }

  lemma ArmedNext(s: ExecutionState, event: Event, deadline: BootInstant)
    requires Armed(s.phase, deadline)
    ensures var t := Next(s, event);
            if event == StopDeadlineReachedEvent(deadline) then
              t.state.phase == s.phase.(phase := Killing) && SignalOf(t.effects) == [TerminateJobObject]
            else
              && (Armed(t.state.phase, deadline) || t.state.phase.Terminal?)
              && TerminateJobObject !in SignalOf(t.effects)
  {
  }

  lemma KillingNext(s: ExecutionState, event: Event)
    requires s.phase.Terminal? || (s.phase.Stopping? && s.phase.phase.Killing?)
    ensures var t := Next(s, event);
            (t.state.phase == s.phase || t.state.phase.Terminal?) && SignalOf(t.effects) == []
  {
  }

  /**
    Whatever follows: while the deadline is armed it has not been reported, and the process is
    terminated only once it has.
  */
  lemma {:induction false} ArmedUntilDeadline(s: ExecutionState, events: seq<Event>, deadline: BootInstant)
    requires Armed(s.phase, deadline)
    ensures var r := Run(s, events);
            var terminated := TerminateJobObject in Signals(r.effects);
            && (r.state.phase.Terminal? || Armed(r.state.phase, deadline) ||
                (r.state.phase.Stopping? && r.state.phase.phase.Killing? && terminated))
            && (Armed(r.state.phase, deadline) ==> StopDeadlineReachedEvent(deadline) !in events && !terminated)
            && (terminated ==> StopDeadlineReachedEvent(deadline) in events)
  {
    if events != [] {
      var before, event := events[..|events| - 1], events[|events| - 1];
      var earlier := Run(s, before);
      assert events == before + [event];
      ArmedUntilDeadline(s, before, deadline);
      NextIsShort(earlier.state, event);
      ShortSignals(Next(earlier.state, event).effects);
      SignalsConcat(earlier.effects, Next(earlier.state, event).effects);
      if Armed(earlier.state.phase, deadline) {
        ArmedNext(earlier.state, event, deadline);
      } else {
        KillingNext(earlier.state, event);
      }
    }
  }

  lemma StopArms(s: ExecutionState, cause: StopCause, plan: StopPlan, at: BootInstant)
    requires s.phase.Launching? || s.phase.Running?
    requires !plan.Kill? && StopAcceptable(s, cause, plan, at)
    ensures var first := Next(s, StopRequestedEvent(cause, plan, at));
            var deadline := CheckedAdd(at, plan.timeout).value;
            && Armed(first.state.phase, deadline)
            && first.effects != [] && first.effects[|first.effects| - 1] == ScheduleStopDeadline(deadline)
            && TerminateJobObject !in SignalOf(first.effects)
  {
  }

  /**
    A graceful stop is terminated at its own deadline and at no other: the one armed when the stop
    was accepted, the first tick at which the plan's timeout has passed. Whatever happens after the
    stop, the process is ordered to terminate only if that deadline was reported, and once it was
    reported the process has been ordered to terminate or the execution has ended.
  */
  lemma {:induction false} TerminatedAtDeadline(
    s: ExecutionState, cause: StopCause, plan: StopPlan, at: BootInstant, after: seq<Event>)
    requires s.phase.Launching? || s.phase.Running?
    requires !plan.Kill? && StopAcceptable(s, cause, plan, at)
    ensures var deadline := CheckedAdd(at, plan.timeout).value;
            var first := Next(s, StopRequestedEvent(cause, plan, at));
            var r := Run(first.state, after);
            var terminated := TerminateJobObject in Signals(r.effects);
            && ScheduleStopDeadline(deadline) in first.effects
            && TerminateJobObject !in SignalOf(first.effects)
            && (terminated ==> StopDeadlineReachedEvent(deadline) in after)
            && (StopDeadlineReachedEvent(deadline) in after ==> terminated || r.state.phase.Terminal?)
  {
    StopArms(s, cause, plan, at);
    ArmedUntilDeadline(Next(s, StopRequestedEvent(cause, plan, at)).state, after, CheckedAdd(at, plan.timeout).value);
  }
}
