/** Exactly which observations the controller can still come to apply, from every reachable state. */
module ReplicationCatchUp {
  import opened Base
  import opened RuntimeJournals
  import opened ControllerLinks
  import opened Replication
  import opened ReplicationProofs
  import opened ReplicationTheorems
  import Storages

  // ---- What else every run keeps ----

  /** A supervisor's queue closes after everything is published, and a welcome waits to be read. */
  ghost predicate SettledLink(running: bool, unpublished: Option<Observation>, live: seq<Observation>, link: Link,
                              connections: seq<Connection>)
  {
    && (!running ==> unpublished.None?)
    && match link {
         case Attached(_, vars) => !vars.observationsOpen ==> !running && live == []
         case Replaying(_, vars, _) => vars.observationsOpen
         case Hello(i, _) => i < |connections| ==> Greeted(connections[i])
         case _ => true
       }
  }

  /** An attachment that has been welcomed, and has seen nothing else yet. */
  ghost predicate Greeted(c: Connection) {
    c.server.Serving? ==> c.server.unacked.None? && |c.down| == 1 && c.down[0].Welcome?
  }

  ghost predicate Settled(s: State) {
    match s.supervisor
    case Absent => true
    case Present(_, running, unpublished, live, link) =>
      !s.finalized && SettledLink(running, unpublished, live, link, s.connections)
  }

  ghost predicate AppliedKnown(s: State) {
    forall k :: 0 <= k < |s.applied| ==> KnownKind(s.applied[k].facts.kind)
  }

  lemma AppliedKnownKept(s: State, step: Step)
    requires AppliedKnown(s)
    ensures AppliedKnown(Next(s, step))
  {
    match step {
      case ServerCommit(i) =>
      case _ => assert Next(s, step).applied == s.applied;
    }
  }

  lemma RunnerSettles(s: State, step: Step)
    requires Settled(s) && !OfLink(step) && !OfController(step)
    ensures Settled(Next(s, step))
  {
  }

  lemma LinkSettles(s: State, step: Step)
    requires Settled(s) && OfLink(step)
    ensures Settled(Next(s, step))
  {
  }

  lemma GreetedAttachment(s: State, i: nat)
    requires Inv(s) && s.supervisor.Present? && s.supervisor.link.Hello? && s.supervisor.link.connection == i
    ensures i < |s.connections| && s.connections[i].sent == [] && s.connections[i].received == 0
    ensures s.connections[i].server.Accepting? ==> s.connections[i].down == []
  {
  }

  lemma AttachSettles(s: State, i: nat)
    requires Inv(s) && Settled(s)
    ensures Settled(DoServerAttach(s, i))
  {
    if s.supervisor.Present? && s.supervisor.link.Hello? {
      GreetedAttachment(s, s.supervisor.link.connection);
    }
  }

  lemma CommitSettles(s: State, i: nat)
    requires Inv(s) && Settled(s)
    ensures Settled(DoServerCommit(s, i))
  {
    if s.supervisor.Present? && s.supervisor.link.Hello? {
      GreetedAttachment(s, s.supervisor.link.connection);
    }
  }

  lemma ControllerSettles(s: State, step: Step)
    requires Inv(s) && Settled(s) && OfController(step)
    ensures Settled(Next(s, step))
  {
    match step {
      case ServerAttach(i) => AttachSettles(s, i);
      case ServerCommit(i) => CommitSettles(s, i);
      case _ =>
    }
  }

  lemma StepSettles(s: State, step: Step)
    requires Inv(s) && Settled(s)
    ensures Settled(Next(s, step))
  {
    if OfLink(step) {
      LinkSettles(s, step);
    } else if OfController(step) {
      ControllerSettles(s, step);
    } else {
      RunnerSettles(s, step);
    }
  }

  lemma {:induction false} RunSettles(steps: seq<Step>)
    ensures var s := Run(Init(), steps);
            Inv(s) && Settled(s) && AppliedKnown(s)
  {
    ReachableInv(steps);
    if steps != [] {
      var earlier := Run(Init(), steps[..|steps| - 1]);
      RunSettles(steps[..|steps| - 1]);
      AppliedKnownKept(earlier, steps[|steps| - 1]);
      StepSettles(earlier, steps[|steps| - 1]);
    }
  }

  // ---- Reaching a cursor ----

  /** Some continuation moves the cursor to `m`. */
  ghost predicate CanReach(s: State, m: nat) {
    exists more: seq<Step> :: Run(s, more).committed >= m
  }

  lemma ReachedAlready(s: State, m: nat)
    requires s.committed >= m
    ensures CanReach(s, m)
  {
    assert Run(s, []) == s;
  }

  lemma ReachBack(s: State, step: Step, m: nat)
    requires CanReach(Next(s, step), m)
    ensures CanReach(s, m)
  {
    var more :| Run(Next(s, step), more).committed >= m;
    RunSnoc(s, [], step);
    assert [] + [step] == [step];
    RunConcat(s, [step], more);
    assert Run(s, [step] + more).committed >= m;
  }

  /** The first `m` observations of a journal, all of kinds the controller accepts. */
  ghost predicate Acceptable(all: seq<Observation>, m: nat) {
    m <= |all| && m <= I64_MAX && forall k :: 0 <= k < m ==> KnownKind(all[k].facts.kind)
  }

  ghost predicate Ready(s: State, m: nat) {
    Inv(s) && Settled(s) && Acceptable(Observations(s.journal), m)
  }

  lemma ReadyNext(s: State, step: Step, m: nat)
    requires Ready(s, m) && Observations(Next(s, step).journal) == Observations(s.journal)
    ensures Ready(Next(s, step), m)
  {
    NextKeeps(s, step);
    StepSettles(s, step);
  }

  /** The server of attachment `i` still reads, and what was sent to it reaches `m`. */
  ghost predicate Delivers(s: State, i: nat, m: nat) {
    && i < |s.connections| && s.connections[i].server.Serving? && s.connections[i].welcomed.Some?
    && s.connections[i].welcomed.value + |s.connections[i].sent| >= m
  }

  /** How many messages the server of an attachment has yet to commit and acknowledge. */
  function Backlog(c: Connection): int {
    2 * (|c.sent| - c.received) + if c.server.Serving? && c.server.unacked.Some? then 1 else 0
  }

  lemma AcknowledgeStep(s: State, i: nat, m: nat)
    requires Ready(s, m) && Delivers(s, i, m) && s.connections[i].server.unacked.Some?
    ensures var t := Next(s, ServerAcknowledge(i));
            && Observations(t.journal) == Observations(s.journal) && Delivers(t, i, m)
            && 0 <= Backlog(t.connections[i]) < Backlog(s.connections[i])
  {
    assert ConnectionOk(s.connections[i], Observations(s.journal), s.committed);
  }

  lemma CommitStep(s: State, i: nat, m: nat)
    requires Ready(s, m) && Delivers(s, i, m) && s.connections[i].server.unacked.None? && s.committed < m
    ensures var t := Next(s, ServerCommit(i));
            && Observations(t.journal) == Observations(s.journal) && Delivers(t, i, m)
            && 0 <= Backlog(t.connections[i]) < Backlog(s.connections[i])
  {
    var c, all := s.connections[i], Observations(s.journal);
    assert ConnectionOk(c, all, s.committed);
    NextMessageInOrder(s, i);
    var message := c.sent[c.received];
    assert KnownKind(all[c.welcomed.value + c.received].facts.kind);
    var apply := Storages.Decide(s.committed, message.sequence);
    assert apply.Ok?;
    assert DoServerCommit(s, i) == Handled(s, i, message, apply.value);
  }

  /** What was sent to a serving attachment can all be committed. */
  lemma {:induction false} SentReaches(s: State, i: nat, m: nat)
    requires Ready(s, m) && Delivers(s, i, m)
    ensures CanReach(s, m)
    decreases Backlog(s.connections[i])
  {
    if s.committed >= m {
      ReachedAlready(s, m);
    } else {
      var step := if s.connections[i].server.unacked.Some? then ServerAcknowledge(i) else ServerCommit(i);
      if step.ServerAcknowledge? {
        AcknowledgeStep(s, i, m);
      } else {
        CommitStep(s, i, m);
      }
      ReadyNext(s, step, m);
      SentReaches(Next(s, step), i, m);
      ReachBack(s, step, m);
    }
  }

  // ---- The link can send the rest ----

  ghost predicate LinkedTo(s: State, i: nat) {
    && s.supervisor.Present? && i < |s.connections| && s.connections[i].server.Serving?
    && match s.supervisor.link {
         case Hello(j, _) => j == i
         case Welcomed(j, _) => j == i
         case Replaying(j, _, _) => j == i
         case Attached(j, _) => j == i
         case _ => false
       }
  }

  lemma AttachedFacts(s: State, i: nat)
    requires Inv(s) && LinkedTo(s, i) && s.supervisor.link.Attached?
    ensures var c := s.connections[i];
            && c.welcomed.Some? && c.welcomed.value + |c.sent| == s.supervisor.link.vars.sentSequence
            && |Observations(s.journal)| - |s.supervisor.live| - (if s.supervisor.unpublished.Some? then 1 else 0)
               <= s.supervisor.link.vars.sentSequence
  {
  }

  lemma PublishStep(s: State, i: nat)
    requires LinkedTo(s, i) && s.supervisor.link.Attached? && s.supervisor.unpublished.Some?
    ensures var t := Next(s, Publish);
            && t.journal == s.journal && LinkedTo(t, i) && t.supervisor.link.Attached?
            && t.supervisor.unpublished.None?
  {
  }

  lemma TakeLiveStep(s: State, i: nat)
    requires Inv(s) && Settled(s) && LinkedTo(s, i) && s.supervisor.link.Attached?
    requires s.supervisor.live != []
    ensures var t := Next(s, TakeLive);
            && t.journal == s.journal && LinkedTo(t, i) && t.supervisor.link.Attached?
            && t.supervisor.unpublished == s.supervisor.unpublished && |t.supervisor.live| < |s.supervisor.live|
  {
  }

  lemma {:induction false} AttachedReaches(s: State, i: nat, m: nat)
    requires Ready(s, m) && LinkedTo(s, i) && s.supervisor.link.Attached?
    ensures CanReach(s, m)
    decreases if s.supervisor.unpublished.Some? then 1 else 0, |s.supervisor.live|
  {
    AttachedFacts(s, i);
    if s.supervisor.link.vars.sentSequence >= m {
      SentReaches(s, i, m);
    } else {
      var step := if s.supervisor.unpublished.Some? then Publish else TakeLive;
      if step.Publish? {
        PublishStep(s, i);
      } else {
        TakeLiveStep(s, i);
      }
      ReadyNext(s, step, m);
      AttachedReaches(Next(s, step), i, m);
      ReachBack(s, step, m);
    }
  }

  lemma ReplayStep(s: State, i: nat)
    requires LinkedTo(s, i) && s.supervisor.link.Replaying?
    ensures var step := if s.supervisor.link.pending == [] then GoLive else ReplayNext;
            var t := Next(s, step);
            && t.journal == s.journal && LinkedTo(t, i)
            && if step.GoLive? then t.supervisor.link.Attached?
               else t.supervisor.link.Replaying? && |t.supervisor.link.pending| < |s.supervisor.link.pending|
  {
  }

  lemma {:induction false} ReplayingReaches(s: State, i: nat, m: nat)
    requires Ready(s, m) && LinkedTo(s, i) && s.supervisor.link.Replaying?
    ensures CanReach(s, m)
    decreases |s.supervisor.link.pending|
  {
    var step := if s.supervisor.link.pending == [] then GoLive else ReplayNext;
    ReplayStep(s, i);
    ReadyNext(s, step, m);
    if step.GoLive? {
      AttachedReaches(Next(s, step), i, m);
    } else {
      ReplayingReaches(Next(s, step), i, m);
    }
    ReachBack(s, step, m);
  }

  lemma SnapshotStep(s: State, i: nat)
    requires LinkedTo(s, i) && s.supervisor.link.Welcomed?
    ensures var t := Next(s, TakeSnapshot);
            t.journal == s.journal && LinkedTo(t, i) && t.supervisor.link.Replaying?
  {
  }

  lemma WelcomeStep(s: State, i: nat)
    requires Settled(s) && LinkedTo(s, i) && s.supervisor.link.Hello?
    ensures var t := Next(s, ReadWelcome);
            Observations(t.journal) == Observations(s.journal) && LinkedTo(t, i) && t.supervisor.link.Welcomed?
  {
    ObservationsAppend(s.journal, AcknowledgementRecord(s.connections[i].down[0].committed));
  }

  /** A link on a serving attachment can bring the whole journal over, however far it has come. */
  lemma {:induction false} LinkReaches(s: State, i: nat, m: nat)
    requires Ready(s, m) && LinkedTo(s, i)
    ensures CanReach(s, m)
    decreases if s.supervisor.link.Hello? then 1 else 0
  {
    match s.supervisor.link {
      case Hello(_, _) =>
        WelcomeStep(s, i);
        ReadyNext(s, ReadWelcome, m);
        LinkReaches(Next(s, ReadWelcome), i, m);
        ReachBack(s, ReadWelcome, m);
      case Welcomed(_, _) =>
        SnapshotStep(s, i);
        ReadyNext(s, TakeSnapshot, m);
        ReplayingReaches(Next(s, TakeSnapshot), i, m);
        ReachBack(s, TakeSnapshot, m);
      case Replaying(_, _, _) => ReplayingReaches(s, i, m);
      case Attached(_, _) => AttachedReaches(s, i, m);
    }
  }

  // ---- A supervisor that is there can connect again ----

  /** The execution is active and its supervisor's link still tries. */
  ghost predicate Reconnectable(s: State) {
    s.execution.active && s.supervisor.Present? && !s.supervisor.link.Failed? && !s.supervisor.link.Completed?
  }

  lemma ConnectStep(s: State)
    requires s.execution.active && s.supervisor.Present? && s.supervisor.link.Idle?
    ensures var t := Next(s, Connect);
            && t.journal == s.journal && t.execution.active
            && |t.connections| == |s.connections| + 1 && t.connections[|s.connections|].server.Accepting?
            && t.supervisor.Present? && t.supervisor.link == Hello(|s.connections|, CommittedSequence(s.journal))
  {
  }

  lemma AttachStep(s: State, i: nat)
    requires s.execution.active && i < |s.connections| && s.connections[i].server.Accepting?
    requires s.supervisor.Present? && s.supervisor.link.Hello? && s.supervisor.link.connection == i
    ensures var t := Next(s, ServerAttach(i));
            t.journal == s.journal && LinkedTo(t, i)
  {
  }

  lemma {:induction false} AttachingReaches(s: State, i: nat, m: nat)
    requires Ready(s, m) && s.execution.active && i < |s.connections| && s.connections[i].server.Accepting?
    requires s.supervisor.Present? && s.supervisor.link.Hello? && s.supervisor.link.connection == i
    ensures CanReach(s, m)
  {
    AttachStep(s, i);
    ReadyNext(s, ServerAttach(i), m);
    LinkReaches(Next(s, ServerAttach(i)), i, m);
    ReachBack(s, ServerAttach(i), m);
  }

  lemma {:induction false} IdleReaches(s: State, m: nat)
    requires Ready(s, m) && s.execution.active && s.supervisor.Present? && s.supervisor.link.Idle?
    ensures CanReach(s, m)
  {
    ConnectStep(s);
    ReadyNext(s, Connect, m);
    AttachingReaches(Next(s, Connect), |s.connections|, m);
    ReachBack(s, Connect, m);
  }

  /** What takes a link on an attachment that may be lost back to where it can connect again. */
  function WayBack(link: Link): Step {
    match link
    case Welcomed(_, _) => TakeSnapshot
    case Replaying(_, _, pending) => if pending == [] then GoLive else ReplayNext
    case _ => LinkLost
  }

  function WayLength(link: Link): nat {
    match link
    case Idle => 0
    case Replaying(_, _, pending) => 2 + |pending|
    case _ => 1
  }

  lemma WayBackStep(s: State)
    requires Inv(s) && Reconnectable(s) && !s.supervisor.link.Idle?
    ensures var link, t := s.supervisor.link, Next(s, WayBack(s.supervisor.link));
            && t.journal == s.journal && Reconnectable(t) && !t.supervisor.link.Welcomed?
            && (link.Welcomed? || WayLength(t.supervisor.link) < WayLength(link))
  {
  }

  lemma {:induction false} ReconnectReaches(s: State, m: nat)
    requires Ready(s, m) && Reconnectable(s)
    ensures CanReach(s, m)
    decreases if s.supervisor.link.Welcomed? then 1 else 0, WayLength(s.supervisor.link)
  {
    if s.supervisor.link.Idle? {
      IdleReaches(s, m);
    } else {
      var step := WayBack(s.supervisor.link);
      WayBackStep(s);
      ReadyNext(s, step, m);
      ReconnectReaches(Next(s, step), m);
      ReachBack(s, step, m);
    }
  }

  // ---- A relaunched supervisor can ----

  /** A supervisor can be launched: that is decided, or still can be because there is no result file. */
  ghost predicate Relaunchable(s: State) {
    s.execution.active && !s.finalized && (s.execution.launching || !s.execution.resultWritten)
  }

  lemma CrashStep(s: State)
    requires Relaunchable(s)
    ensures var t := Next(s, SupervisorCrash);
            t.journal == s.journal && t.supervisor.Absent? && Relaunchable(t)
  {
  }

  lemma DecideStep(s: State)
    requires Relaunchable(s) && s.supervisor.Absent?
    ensures var t := Next(s, DecideLaunch);
            t.journal == s.journal && t.supervisor.Absent? && Relaunchable(t) && t.execution.launching
  {
  }

  lemma StartStep(s: State)
    requires Relaunchable(s) && s.supervisor.Absent? && s.execution.launching
    ensures var t := Next(s, SupervisorStart);
            t.journal == s.journal && t.execution.active && t.supervisor.Present? && t.supervisor.link.Idle?
  {
  }

  lemma {:induction false} LaunchReaches(s: State, m: nat)
    requires Ready(s, m) && Relaunchable(s) && s.supervisor.Absent?
    ensures CanReach(s, m)
  {
    DecideStep(s);
    var t := Next(s, DecideLaunch);
    ReadyNext(s, DecideLaunch, m);
    StartStep(t);
    ReadyNext(t, SupervisorStart, m);
    IdleReaches(Next(t, SupervisorStart), m);
    ReachBack(t, SupervisorStart, m);
    ReachBack(s, DecideLaunch, m);
  }

  lemma {:induction false} RelaunchReaches(s: State, m: nat)
    requires Ready(s, m) && Relaunchable(s)
    ensures CanReach(s, m)
  {
    CrashStep(s);
    ReadyNext(s, SupervisorCrash, m);
    LaunchReaches(Next(s, SupervisorCrash), m);
    ReachBack(s, SupervisorCrash, m);
  }

  // ---- Without any of these the cursor stays short ----

  /** Attachment `c` cannot bring the cursor to `m` with what was sent on it. */
  ghost predicate Short(c: Connection, m: nat) {
    c.server.Serving? ==> c.welcomed.Some? && c.welcomed.value + |c.sent| < m
  }

  /** The attachment the link still sends on. */
  function LinkConnection(supervisor: Supervisor): Option<nat> {
    match supervisor
    case Absent => None
    case Present(_, _, _, _, link) =>
      match link {
        case Hello(i, _) => Some(i)
        case Welcomed(i, _) => Some(i)
        case Replaying(i, _, _) => Some(i)
        case Attached(i, _) => Some(i)
        case _ => None
      }
  }

  ghost predicate Unheard(connections: seq<Connection>, link: Option<nat>) {
    link.Some? && link.value < |connections| ==> !connections[link.value].server.Serving?
  }

  ghost predicate AllShort(connections: seq<Connection>, m: nat) {
    forall i :: 0 <= i < |connections| ==> Short(connections[i], m)
  }

  /** Nobody can be relaunched or connect again, and nobody who is still heard can bring the cursor to `m`. */
  ghost predicate Sealed(s: State, m: nat) {
    && s.committed < m && !Relaunchable(s) && !Reconnectable(s)
    && AllShort(s.connections, m)
    && Unheard(s.connections, LinkConnection(s.supervisor))
  }

  lemma RunnerSealed(s: State, step: Step, m: nat)
    requires Sealed(s, m) && !OfLink(step) && !OfController(step)
    ensures Sealed(Next(s, step), m)
  {
  }

  lemma SendSealed(s: State, step: Step, m: nat)
    requires Sealed(s, m) && (step.ReplayNext? || step.TakeLive?)
    ensures Sealed(Next(s, step), m)
  {
  }

  lemma ReadSealed(s: State, step: Step, m: nat)
    requires Sealed(s, m) && (step.ReadWelcome? || step.ReadResponse?)
    ensures Sealed(Next(s, step), m)
  {
  }

  lemma LinkSealed(s: State, step: Step, m: nat)
    requires Sealed(s, m) && OfLink(step)
    ensures Sealed(Next(s, step), m)
  {
    if step.ReplayNext? || step.TakeLive? {
      SendSealed(s, step, m);
    } else if step.ReadWelcome? || step.ReadResponse? {
      ReadSealed(s, step, m);
    }
  }

  /** One attachment changes, but neither its welcome nor what was sent on it, and it is served no more than before. */
  lemma SealedSet(s: State, t: State, i: nat, m: nat)
    requires Sealed(s, m) && t.committed < m && i < |s.connections| == |t.connections|
    requires t.supervisor == s.supervisor && t.execution == s.execution && t.finalized == s.finalized
    requires t.connections == s.connections[i := t.connections[i]]
    requires t.connections[i].sent == s.connections[i].sent && t.connections[i].welcomed == s.connections[i].welcomed
    requires t.connections[i].server.Serving? ==> s.connections[i].server.Serving?
    ensures Sealed(t, m)
  {
    assert Short(s.connections[i], m);
  }

  lemma CommitFrame(s: State, i: nat)
    requires i < |s.connections|
    ensures var t := DoServerCommit(s, i);
            && t.supervisor == s.supervisor && t.execution == s.execution && t.finalized == s.finalized
            && |t.connections| == |s.connections| && t.connections == s.connections[i := t.connections[i]]
            && t.connections[i].sent == s.connections[i].sent
            && t.connections[i].welcomed == s.connections[i].welcomed
            && (t.connections[i].server.Serving? ==> s.connections[i].server.Serving?)
            && (t.committed == s.committed || (s.connections[i].server.Serving? &&
                  s.connections[i].received < |s.connections[i].sent| &&
                  t.committed == s.connections[i].sent[s.connections[i].received].sequence))
  {
  }

  lemma CommitStaysShort(s: State, i: nat, m: nat)
    requires Inv(s) && s.committed < m && i < |s.connections| && Short(s.connections[i], m)
    ensures DoServerCommit(s, i).committed < m
  {
    CommitFrame(s, i);
    var c := s.connections[i];
    if c.server.Serving? && c.received < |c.sent| {
      NextMessageInOrder(s, i);
    }
  }

  lemma CommitSealed(s: State, i: nat, m: nat)
    requires Inv(s) && Sealed(s, m)
    ensures Sealed(Next(s, ServerCommit(i)), m)
  {
    if i < |s.connections| {
      var t := DoServerCommit(s, i);
      CommitFrame(s, i);
      CommitStaysShort(s, i, m);
      SealedSet(s, t, i, m);
    }
  }

  lemma AcceptingIsEmpty(s: State, i: nat)
    requires Inv(s) && i < |s.connections| && s.connections[i].server.Accepting?
    ensures s.connections[i].sent == []
  {
    assert ConnectionOk(s.connections[i], Observations(s.journal), s.committed);
  }

  lemma AttachSealed(s: State, i: nat, m: nat)
    requires Inv(s) && Sealed(s, m)
    ensures Sealed(DoServerAttach(s, i), m)
  {
    if i < |s.connections| && s.connections[i].server.Accepting? {
      AcceptingIsEmpty(s, i);
    }
  }

  lemma ControllerSealed(s: State, step: Step, m: nat)
    requires Inv(s) && Settled(s) && Sealed(s, m) && OfController(step)
    ensures Sealed(Next(s, step), m)
  {
    match step {
      case ServerCommit(i) => CommitSealed(s, i, m);
      case ServerAttach(i) => AttachSealed(s, i, m);
      case _ =>
    }
  }

  lemma {:induction false} SealedForEver(s: State, more: seq<Step>, m: nat)
    requires Inv(s) && Settled(s) && Sealed(s, m)
    ensures Inv(Run(s, more)) && Settled(Run(s, more)) && Sealed(Run(s, more), m)
  {
    if more != [] {
      var t, step := Run(s, more[..|more| - 1]), more[|more| - 1];
      SealedForEver(s, more[..|more| - 1], m);
      NextKeeps(t, step);
      StepSettles(t, step);
      if OfLink(step) {
        LinkSealed(t, step, m);
      } else if OfController(step) {
        ControllerSealed(t, step, m);
      } else {
        RunnerSealed(t, step, m);
      }
    }
  }

  lemma {:induction false} AppliedKnownAlong(s: State, more: seq<Step>)
    requires AppliedKnown(s)
    ensures AppliedKnown(Run(s, more))
  {
    if more != [] {
      AppliedKnownAlong(s, more[..|more| - 1]);
      AppliedKnownKept(Run(s, more[..|more| - 1]), more[|more| - 1]);
    }
  }

  lemma AppliedIsKnown(t: State, k: nat)
    requires Inv(t) && AppliedKnown(t) && k < t.committed
    ensures k < |Observations(t.journal)| && KnownKind(Observations(t.journal)[k].facts.kind)
  {
    assert t.applied[k] == OnWire(Observations(t.journal)[k]);
  }

  /** The cursor never passes an observation of a kind the controller does not accept. */
  lemma {:induction false} KnownUpToCursor(s: State, more: seq<Step>, k: nat)
    requires Inv(s) && AppliedKnown(s) && k < |Observations(s.journal)| && Run(s, more).committed > k
    ensures KnownKind(Observations(s.journal)[k].facts.kind)
  {
    RunKeeps(s, more);
    AppliedKnownAlong(s, more);
    NothingTakenBack(s, more);
    AppliedIsKnown(Run(s, more), k);
  }

  // ---- The theorem ----

  /** Someone can still bring the cursor to `m`. */
  ghost predicate Deliverable(s: State, m: nat) {
    Relaunchable(s) || Reconnectable(s) || exists i :: LinkedTo(s, i) || Delivers(s, i, m)
  }

  lemma {:induction false} NotSealed(s: State, m: nat)
    requires Inv(s) && s.committed < m && !Deliverable(s, m)
    ensures Sealed(s, m)
  {
    forall i | 0 <= i < |s.connections| ensures Short(s.connections[i], m) {
      assert ConnectionOk(s.connections[i], Observations(s.journal), s.committed);
      assert !Delivers(s, i, m);
    }
    var link := LinkConnection(s.supervisor);
    if link.Some? {
      assert !LinkedTo(s, link.value);
    }
  }

  /**
    From a reachable state some continuation brings the controller to the first `m` observations
    of the journal if and only if it has them already, or they are of acceptable kinds and numbers
    and one of these holds: the execution is active, its journal open, and a launch decided or no
    result written, so that a supervisor can be relaunched; the execution is active and the link of
    its supervisor still tries, so that it can connect again; the link still has an attachment that
    is served; or they are in flight on an attachment that is served.
  */
  lemma {:induction false} CatchUpExactly(steps: seq<Step>, m: nat)
    requires m <= |Observations(Run(Init(), steps).journal)|
    ensures var s := Run(Init(), steps);
            CanReach(s, m) <==> m <= s.committed || (Acceptable(Observations(s.journal), m) && Deliverable(s, m))
  {
    var s := Run(Init(), steps);
    RunSettles(steps);
    if m <= s.committed {
      ReachedAlready(s, m);
    } else if Acceptable(Observations(s.journal), m) && Deliverable(s, m) {
      if Relaunchable(s) {
        RelaunchReaches(s, m);
      } else if Reconnectable(s) {
        ReconnectReaches(s, m);
      } else {
        var i :| LinkedTo(s, i) || Delivers(s, i, m);
        if LinkedTo(s, i) {
          LinkReaches(s, i, m);
        } else {
          SentReaches(s, i, m);
        }
      }
    } else if CanReach(s, m) {
      var more :| Run(s, more).committed >= m;
      forall k | 0 <= k < m ensures KnownKind(Observations(s.journal)[k].facts.kind) {
        KnownUpToCursor(s, more, k);
      }
      NotSealed(s, m);
      SealedForEver(s, more, m);
    }
  }

  /**
    What a controller misses once the journal is finalized, after the link has completed or its
    time is up: exactly what is neither applied nor in flight on an attachment that is served.
  */
  lemma {:induction false} MissedAtFinalization(steps: seq<Step>, m: nat)
    requires m <= |Observations(Run(Init(), steps).journal)| && Run(Init(), steps).finalized
    ensures var s := Run(Init(), steps);
            CanReach(s, m) <==>
            m <= s.committed || (Acceptable(Observations(s.journal), m) && exists i :: Delivers(s, i, m))
  {
    RunSettles(steps);
    CatchUpExactly(steps, m);
  }

  // ---- Observations that are lost ----

  /** A supervisor records one observation before it is lost, which may be after its runner has ended. */
  function Recording(facts: Facts, terminal: bool): seq<Step> {
    [DecideLaunch, SupervisorStart, Append(facts, terminal), Publish]
  }

  /** The journal with that observation, and no supervisor. */
  function Abandoned(facts: Facts, terminal: bool): State {
    Init().(journal := [ObservationRecord(Observation(1, facts, terminal))])
  }

  lemma RunTwo(s: State, steps: seq<Step>, a: Step, b: Step)
    ensures Run(s, steps + [a, b]) == Next(Next(Run(s, steps), a), b)
  {
    assert steps + [a, b] == steps + [a] + [b];
    RunSnoc(s, steps + [a], b);
    RunSnoc(s, steps, a);
  }

  lemma RecordSteps(facts: Facts, terminal: bool)
    ensures var o := Observation(1, facts, terminal);
            var started := Init().(supervisor := Present(Recorder(0, 0), true, None, [], Idle));
            && Next(Next(Init(), DecideLaunch), SupervisorStart) == started
            && Next(Next(started, Append(facts, terminal)), Publish) ==
               Abandoned(facts, terminal).(supervisor := Present(Recorder(1, 0), true, None, [o], Idle))
  {
    var o := Observation(1, facts, terminal);
    assert [] + [ObservationRecord(o)] == [ObservationRecord(o)] && [] + [o] == [o];
  }

  lemma RecordingState(facts: Facts, terminal: bool)
    ensures Run(Init(), Recording(facts, terminal)) ==
            Abandoned(facts, terminal).(
              supervisor := Present(Recorder(1, 0), true, None, [Observation(1, facts, terminal)], Idle))
  {
    var launch := [DecideLaunch, SupervisorStart];
    assert [] + launch == launch && launch + [Append(facts, terminal), Publish] == Recording(facts, terminal);
    RecordSteps(facts, terminal);
    RunTwo(Init(), [], DecideLaunch, SupervisorStart);
    RunTwo(Init(), launch, Append(facts, terminal), Publish);
  }

  /** Nobody is left to tell an abandoned observation. */
  lemma {:induction false} AbandonedForEver(steps: seq<Step>, facts: Facts, terminal: bool, more: seq<Step>)
    requires var s := Run(Init(), steps);
             && s == Abandoned(facts, terminal).(execution := s.execution)
             && !s.execution.launching && (!s.execution.active || s.execution.resultWritten)
    ensures |Observations(Run(Init(), steps).journal)| == 1
    ensures Run(Run(Init(), steps), more).committed == 0
  {
    var s := Run(Init(), steps);
    var o := ObservationRecord(Observation(1, facts, terminal));
    ObservationsAppend([], o);
    assert [] + [o] == [o];
    RunSettles(steps);
    SealedForEver(s, more, 1);
  }

  /**
    The supervisor is lost and the execution ends before another one is launched: the observation
    stays in an open journal, and nothing that happens later ever commits it.
  */
  lemma {:induction false} LostObservation(facts: Facts, terminal: bool, more: seq<Step>)
    ensures var s := Run(Init(), Recording(facts, terminal) + [SupervisorCrash, ExecutionEnds]);
            && |Observations(s.journal)| == 1 && !s.finalized
            && Run(s, more).committed == 0
  {
    RecordingState(facts, terminal);
    RunTwo(Init(), Recording(facts, terminal), SupervisorCrash, ExecutionEnds);
    AbandonedForEver(Recording(facts, terminal) + [SupervisorCrash, ExecutionEnds], facts, terminal, more);
  }

  /**
    The supervisor is lost after its runner has written the result, while it waits for its link:
    the execution is still active, but no other supervisor is ever launched for the observation.
  */
  lemma {:induction false} LostAfterResult(facts: Facts, terminal: bool, more: seq<Step>)
    ensures var s := Run(Init(), Recording(facts, terminal) + [RunnerExits, SupervisorCrash]);
            && |Observations(s.journal)| == 1 && !s.finalized && s.execution.active
            && Run(s, more).committed == 0
  {
    RecordingState(facts, terminal);
    RunTwo(Init(), Recording(facts, terminal), RunnerExits, SupervisorCrash);
    AbandonedForEver(Recording(facts, terminal) + [RunnerExits, SupervisorCrash], facts, terminal, more);
  }
}
