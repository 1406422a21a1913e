/** Exactly-once, in-order application over every run of the replication system. */
module ReplicationProofs {
  import opened Base
  import opened RuntimeJournals
  import opened ControllerLinks
  import opened Replication
  import Storages

  // ---- The invariant ----

  ghost predicate DurableOk(s: State) {
    var all := Observations(s.journal);
    && Contiguous(all)
    && s.committed <= |all|
    && s.applied == Wires(all[..s.committed])
    && CommittedSequence(s.journal) <= s.committed
    && !s.outOfOrder
  }

  ghost predicate ConnectionOk(c: Connection, all: seq<Observation>, committed: nat) {
    && c.received <= |c.sent|
    && (c.server.Accepting? ==> c.welcomed.None?)
    && (c.server.Serving? ==> c.welcomed.Some? && (c.server.unacked.Some? ==> c.server.unacked.value <= committed))
    && (forall d <- c.down :: d.committed <= committed && (d.Welcome? ==> c.welcomed == Some(d.committed)))
    && match c.welcomed {
         case None => c.sent == [] && c.down == []
         case Some(w) =>
           && w + c.received <= committed
           && w + |c.sent| <= |all|
           && c.sent == Wires(all[w..w + |c.sent|])
       }
  }

  ghost predicate ConnectionsOk(connections: seq<Connection>, all: seq<Observation>, committed: nat) {
    forall i :: 0 <= i < |connections| ==> ConnectionOk(connections[i], all, committed)
  }

  /** `liveStart` is the number of observations that are no longer in the live queue. */
  ghost predicate LinkOk(link: Link, connections: seq<Connection>, all: seq<Observation>, committed: nat,
                         liveStart: nat) {
    match link
    case Idle => true
    case Failed => true
    case Hello(i, recovered) => i < |connections| && connections[i].sent == [] && recovered <= committed
    case Welcomed(i, w) => i < |connections| && connections[i].welcomed == Some(w) && connections[i].sent == []
    case Replaying(i, vars, pending) =>
      && i < |connections| && connections[i].welcomed.Some?
      && Relayed(all, connections[i].welcomed.value, connections[i].sent, vars)
      && vars.observationsOpen
      && vars.sentSequence + |pending| <= |all|
      && pending == all[vars.sentSequence..vars.sentSequence + |pending|]
      && liveStart <= vars.sentSequence + |pending|
    case Attached(i, vars) =>
      && i < |connections| && connections[i].welcomed.Some?
      && Relayed(all, connections[i].welcomed.value, connections[i].sent, vars)
      && liveStart <= vars.sentSequence
    case Completed(terminal) => 1 <= terminal <= committed && terminal <= |all| && all[terminal - 1].terminal
  }

  function Published(supervisor: Supervisor, total: nat): int
    requires supervisor.Present?
  {
    total - (if supervisor.unpublished.Some? then 1 else 0)
  }

  /** The recorder, the unpublished observation and the live queue are the end of the journal. */
  ghost predicate PresentOk(p: Supervisor, connections: seq<Connection>, all: seq<Observation>, committed: nat)
    requires p.Present?
  {
    var published := Published(p, |all|);
    && p.recorder.sequence == |all|
    && p.recorder.committedSequence <= committed
    && (p.unpublished.Some? ==> all != [] && p.unpublished.value == all[|all| - 1])
    && |p.live| <= published
    && p.live == all[published - |p.live|..published]
    && LinkOk(p.link, connections, all, committed, published - |p.live|)
  }

  ghost predicate SupervisorOk(s: State)
    requires s.supervisor.Present?
  {
    PresentOk(s.supervisor, s.connections, Observations(s.journal), s.committed)
  }

  ghost predicate ControllerOk(s: State) {
    DurableOk(s) && ConnectionsOk(s.connections, Observations(s.journal), s.committed)
  }

  ghost predicate Inv(s: State) {
    match s.supervisor
    case Absent => ControllerOk(s)
    case Present(_, _, _, _, _) => ControllerOk(s) && SupervisorOk(s)
  }

  // ---- Growth: the journal and the cursor only grow ----

  lemma ConnectionGrows(c: Connection, all: seq<Observation>, all': seq<Observation>, committed: nat, committed': nat)
    requires ConnectionOk(c, all, committed) && all <= all' && committed <= committed'
    ensures ConnectionOk(c, all', committed')
  {
    if c.welcomed.Some? {
      var w := c.welcomed.value;
      assert all'[w..w + |c.sent|] == all[w..w + |c.sent|];
    }
  }

  lemma LinkGrows(link: Link, connections: seq<Connection>, all: seq<Observation>, all': seq<Observation>,
                  committed: nat, committed': nat, liveStart: nat)
    requires LinkOk(link, connections, all, committed, liveStart)
    requires all <= all' && Contiguous(all') && committed <= committed'
    ensures LinkOk(link, connections, all', committed', liveStart)
  {
    match link {
      case Replaying(i, vars, pending) =>
        var w := connections[i].welcomed.value;
        assert all'[w..vars.sentSequence] == all[w..vars.sentSequence];
      case Attached(i, vars) =>
        var w := connections[i].welcomed.value;
        assert all'[w..vars.sentSequence] == all[w..vars.sentSequence];
      case _ =>
    }
  }

  lemma ConnectionsGrow(connections: seq<Connection>, all: seq<Observation>, all': seq<Observation>,
                        committed: nat, committed': nat)
    requires ConnectionsOk(connections, all, committed) && all <= all' && committed <= committed'
    ensures ConnectionsOk(connections, all', committed')
  {
    forall i | 0 <= i < |connections| ensures ConnectionOk(connections[i], all', committed') {
      ConnectionGrows(connections[i], all, all', committed, committed');
    }
  }

  lemma ConnectionsSet(connections: seq<Connection>, i: nat, c: Connection, all: seq<Observation>, committed: nat)
    requires ConnectionsOk(connections, all, committed) && i < |connections| && ConnectionOk(c, all, committed)
    ensures ConnectionsOk(connections[i := c], all, committed)
  {
  }

  /** The link looks at its attachment's welcome and at what was sent on it, and at nothing else. */
  lemma LinkFrame(link: Link, connections: seq<Connection>, connections': seq<Connection>,
                  all: seq<Observation>, committed: nat, liveStart: nat)
    requires LinkOk(link, connections, all, committed, liveStart)
    requires |connections| <= |connections'|
    requires forall i :: 0 <= i < |connections| ==>
               && connections'[i].sent == connections[i].sent
               && (connections[i].welcomed.Some? ==> connections'[i].welcomed == connections[i].welcomed)
    ensures LinkOk(link, connections', all, committed, liveStart)
  {
  }

  /** Replacing one attachment by another good one, with the same messages sent, keeps the invariant. */
  lemma ReplaceKeeps(s: State, i: nat, c: Connection)
    requires Inv(s) && i < |s.connections|
    requires ConnectionOk(c, Observations(s.journal), s.committed) && c.sent == s.connections[i].sent
    requires s.connections[i].welcomed.Some? ==> c.welcomed == s.connections[i].welcomed
    ensures Inv(s.(connections := s.connections[i := c]))
  {
    if s.supervisor.Present? {
      var all := Observations(s.journal);
      LinkFrame(s.supervisor.link, s.connections, s.connections[i := c], all, s.committed,
                Published(s.supervisor, |all|) - |s.supervisor.live|);
    }
  }

  /** A link whose own condition holds may replace the current one. */
  lemma RelinkKeeps(s: State, link: Link)
    requires Inv(s) && s.supervisor.Present?
    requires LinkOk(link, s.connections, Observations(s.journal), s.committed,
                    Published(s.supervisor, |Observations(s.journal)|) - |s.supervisor.live|)
    ensures Inv(WithLink(s, link))
  {
  }

  lemma JournalFrame(s: State, journal: seq<Record>)
    requires Inv(s) && Observations(journal) == Observations(s.journal) && CommittedSequence(journal) <= s.committed
    ensures Inv(s.(journal := journal))
  {
  }

  /** A record that is not an observation, and vouches for nothing new, keeps the invariant. */
  lemma AppendRecordKeeps(s: State, record: Record)
    requires Inv(s) && Vouched(record).Some? && Vouched(record).value <= s.committed
    ensures Inv(s.(journal := s.journal + [record]))
  {
    ObservationsAppend(s.journal, record);
    CommittedAppend(s.journal, record);
    JournalFrame(s, s.journal + [record]);
  }

  // ---- Each step keeps the invariant ----

  lemma OneMoreObservation(all: seq<Observation>, o: Observation, committed: nat, live: nat)
    requires committed <= |all| && live <= |all|
    ensures (all + [o])[..committed] == all[..committed]
    ensures (all + [o])[live..|all|] == all[live..|all|]
  {
  }

  lemma AppendedPresent(p: Supervisor, connections: seq<Connection>, all: seq<Observation>, committed: nat,
                        o: Observation)
    requires p.Present? && p.unpublished.None? && PresentOk(p, connections, all, committed)
    requires o.sequence == |all| + 1 && Contiguous(all + [o])
    ensures PresentOk(p.(recorder := p.recorder.(sequence := |all| + 1), unpublished := Some(o)),
                      connections, all + [o], committed)
  {
    var all' := all + [o];
    LinkGrows(p.link, connections, all, all', committed, committed, |all| - |p.live|);
    assert all'[|all| - |p.live|..|all|] == all[|all| - |p.live|..|all|];
  }

  lemma AppendedDurable(s: State, t: State, o: Observation)
    requires ControllerOk(s) && o.sequence == |Observations(s.journal)| + 1
    requires t.journal == s.journal + [ObservationRecord(o)] && t.connections == s.connections
    requires t.committed == s.committed && t.applied == s.applied && t.outOfOrder == s.outOfOrder
    ensures ControllerOk(t)
    ensures Observations(t.journal) == Observations(s.journal) + [o] && Contiguous(Observations(s.journal) + [o])
  {
    var all := Observations(s.journal);
    ObservationsAppend(s.journal, ObservationRecord(o));
    CommittedAppend(s.journal, ObservationRecord(o));
    OneMoreObservation(all, o, s.committed, 0);
    ConnectionsGrow(s.connections, all, all + [o], s.committed, s.committed);
  }

  lemma AppendFields(s: State, facts: Facts, terminal: bool)
    requires RunnerReady(s) && s.supervisor.recorder.sequence < U64_MAX
    ensures var t := DoAppend(s, facts, terminal);
            var o := Observation(s.supervisor.recorder.sequence + 1, facts, terminal);
            && t.journal == s.journal + [ObservationRecord(o)] && t.connections == s.connections
            && t.committed == s.committed && t.applied == s.applied && t.outOfOrder == s.outOfOrder
            && t.supervisor == s.supervisor.(recorder := s.supervisor.recorder.(sequence := o.sequence),
                                             unpublished := Some(o))
  {
  }

  lemma RecorderAtEnd(s: State)
    requires Inv(s) && s.supervisor.Present?
    ensures s.supervisor.recorder.sequence == |Observations(s.journal)|
    ensures ControllerOk(s) && SupervisorOk(s)
  {
  }

  lemma PresentKeeps(t: State)
    requires t.supervisor.Present? && ControllerOk(t) && SupervisorOk(t)
    ensures Inv(t)
  {
  }

  lemma {:induction false} AppendKeeps(s: State, facts: Facts, terminal: bool)
    requires Inv(s)
    ensures Inv(DoAppend(s, facts, terminal))
  {
    if RunnerReady(s) && s.supervisor.recorder.sequence < U64_MAX {
      var t := DoAppend(s, facts, terminal);
      var o := Observation(s.supervisor.recorder.sequence + 1, facts, terminal);
      RecorderAtEnd(s);
      AppendFields(s, facts, terminal);
      AppendedDurable(s, t, o);
      AppendedPresent(s.supervisor, s.connections, Observations(s.journal), s.committed, o);
      PresentKeeps(t);
    }
  }

  lemma PublishKeeps(s: State)
    requires Inv(s)
    ensures Inv(DoPublish(s))
  {
    if DoPublish(s) != s {
      var all, live := Observations(s.journal), s.supervisor.live;
      assert all[|all| - 1 - |live|..|all| - 1] + [all[|all| - 1]] == all[|all| - 1 - |live|..|all|];
    }
  }

  lemma CheckpointKeeps(s: State, attempt: nat, phase: string, retryAt: int)
    requires Inv(s)
    ensures Inv(DoCheckpoint(s, attempt, phase, retryAt))
  {
    if DoCheckpoint(s, attempt, phase, retryAt) != s {
      var r := s.supervisor.recorder;
      AppendRecordKeeps(s, CheckpointRecord(Checkpoint(attempt, phase, r.sequence, r.committedSequence, retryAt)));
    }
  }

  /** A supervisor that ends leaves a good state, and so does the end of its execution. */
  lemma EndKeeps(s: State, finalized: bool, execution: Execution)
    requires Inv(s)
    ensures Inv(s.(supervisor := Absent, finalized := finalized))
    ensures Inv(s.(execution := execution))
  {
  }

  lemma RunnerExitKeeps(s: State)
    requires Inv(s)
    ensures Inv(DoRunnerExits(s))
  {
  }

  lemma LifecycleKeeps(s: State, step: Step)
    requires Inv(s)
    requires step.RunnerExits? || step.Finalize? || step.SupervisorCrash? || step.DecideLaunch? || step.ExecutionEnds?
    ensures Inv(Next(s, step))
  {
    EndKeeps(s, s.finalized, Next(s, step).execution);
    EndKeeps(s, true, s.execution);
    RunnerExitKeeps(s);
  }

  lemma StartKeeps(s: State)
    requires Inv(s)
    ensures Inv(DoStart(s))
  {
    ContiguousLast(s.journal);
  }

  lemma ConnectKeeps(s: State)
    requires Inv(s)
    ensures Inv(DoConnect(s))
  {
    if DoConnect(s) != s {
      var newest := Connection(Accepting, None, [], 0, []);
      var t := s.(connections := s.connections + [newest]);
      assert Inv(t);
      RelinkKeeps(t, Hello(|s.connections|, CommittedSequence(s.journal)));
    }
  }

  /** The observations after the welcome are what the attachment still has to replay. */
  lemma SnapshotOk(connections: seq<Connection>, i: nat, w: nat, all: seq<Observation>, committed: nat, liveStart: nat)
    requires i < |connections| && connections[i].welcomed == Some(w) && connections[i].sent == []
    requires Contiguous(all) && w <= |all| && liveStart <= |all|
    ensures LinkOk(Replaying(i, ControllerLinks.Attached(w), After(all, w)), connections, all, committed, liveStart)
  {
    ContiguousAfter(all, w);
    assert all[w..w] == [];
  }

  lemma {:induction false} TakeSnapshotKeeps(s: State)
    requires Inv(s)
    ensures Inv(DoTakeSnapshot(s))
  {
    if DoTakeSnapshot(s) != s {
      var all, link := Observations(s.journal), s.supervisor.link;
      assert ConnectionOk(s.connections[link.connection], all, s.committed);
      SnapshotOk(s.connections, link.connection, link.committed, all, s.committed,
                 Published(s.supervisor, |all|) - |s.supervisor.live|);
      RelinkKeeps(s, Replaying(link.connection, ControllerLinks.Attached(link.committed), After(all, link.committed)));
    }
  }

  lemma ClosedOk(link: Link, connections: seq<Connection>, all: seq<Observation>, committed: nat, liveStart: nat)
    requires link.Attached? && LinkOk(link, connections, all, committed, liveStart)
    ensures LinkOk(Attached(link.connection, NoteClosed(link.vars, all)), connections, all, committed, liveStart)
  {
    TracksClosed(link.vars, all);
  }

  lemma SeeClosedKeeps(s: State)
    requires Inv(s)
    ensures Inv(DoSeeClosed(s))
  {
    if DoSeeClosed(s) != s {
      var all, link := Observations(s.journal), s.supervisor.link;
      ClosedOk(link, s.connections, all, s.committed, Published(s.supervisor, |all|) - |s.supervisor.live|);
      RelinkKeeps(s, Attached(link.connection, NoteClosed(link.vars, all)));
    }
  }

  lemma LinkKeeps(s: State, step: Step)
    requires Inv(s) && (step.GoLive? || step.LinkLost? || step.LinkFails?)
    ensures Inv(Next(s, step))
  {
    if Next(s, step) != s {
      RelinkKeeps(s, Next(s, step).supervisor.link);
    }
  }

  lemma ConsumeKeeps(s: State, i: nat)
    requires Inv(s) && Readable(s, i)
    ensures Inv(Consumed(s, i))
    ensures s.connections[i].down[0].committed <= s.committed
    ensures s.connections[i].down[0].Welcome? ==> s.connections[i].welcomed == Some(s.connections[i].down[0].committed)
  {
    var c := s.connections[i];
    assert c.down[0] in c.down;
    ReplaceKeeps(s, i, c.(down := c.down[1..]));
  }

  lemma {:induction false} ReadWelcomeKeeps(s: State)
    requires Inv(s)
    ensures Inv(DoReadWelcome(s))
  {
    if DoReadWelcome(s) != s {
      var link := s.supervisor.link;
      var d := s.connections[link.connection].down[0];
      ConsumeKeeps(s, link.connection);
      var t := Consumed(s, link.connection);
      if d.Acknowledgement? {
        RelinkKeeps(t, Idle);
        assert DoReadWelcome(s) == WithLink(t, Idle);
      } else {
        RelinkKeeps(t, Welcomed(link.connection, d.committed));
        var u := WithLink(t, Welcomed(link.connection, d.committed));
        if d.committed > link.recovered {
          AppendRecordKeeps(u, AcknowledgementRecord(d.committed));
          assert DoReadWelcome(s) == u.(journal := u.journal + [AcknowledgementRecord(d.committed)]);
        } else {
          assert DoReadWelcome(s) == u;
        }
      }
    }
  }

  lemma AcknowledgeKeeps(s: State, committed: nat)
    requires Inv(s) && committed <= s.committed
    ensures Inv(s.(journal := s.journal + [AcknowledgementRecord(committed)]))
  {
    AppendRecordKeeps(s, AcknowledgementRecord(committed));
  }

  /** An acknowledged terminal observation of the journal completes the link. */
  lemma CompletedOk(link: Link, connections: seq<Connection>, all: seq<Observation>, committed: nat, liveStart: nat,
                    acknowledged: nat)
    requires link.Attached? && LinkOk(link, connections, all, committed, liveStart)
    requires Finished(link.vars, acknowledged) && acknowledged <= committed
    ensures LinkOk(Completed(link.vars.terminalSequence.value), connections, all, committed, liveStart)
  {
  }

  lemma CompleteKeeps(s: State, acknowledged: nat)
    requires Inv(s) && s.supervisor.Present? && s.supervisor.link.Attached?
    requires acknowledged <= s.committed && Finished(s.supervisor.link.vars, acknowledged)
    ensures Inv(WithLink(s, Completed(s.supervisor.link.vars.terminalSequence.value)))
  {
    var all := Observations(s.journal);
    CompletedOk(s.supervisor.link, s.connections, all, s.committed,
                Published(s.supervisor, |all|) - |s.supervisor.live|, acknowledged);
    RelinkKeeps(s, Completed(s.supervisor.link.vars.terminalSequence.value));
  }

  lemma {:induction false} ReadResponseKeeps(s: State)
    requires Inv(s)
    ensures Inv(DoReadResponse(s))
  {
    if DoReadResponse(s) != s {
      var link := s.supervisor.link;
      var d := s.connections[link.connection].down[0];
      ConsumeKeeps(s, link.connection);
      var t := Consumed(s, link.connection);
      if d.Welcome? {
        assert DoReadResponse(s) == t;
      } else {
        AcknowledgeKeeps(t, d.committed);
        var u := t.(journal := t.journal + [AcknowledgementRecord(d.committed)]);
        if Finished(link.vars, d.committed) {
          CompleteKeeps(u, d.committed);
        }
        assert DoReadResponse(s) == if Finished(link.vars, d.committed)
                                    then WithLink(u, Completed(link.vars.terminalSequence.value)) else u;
      }
    }
  }

  /** Sending the observation that follows what the attachment has sent keeps the attachment in order. */
  lemma TransmitKeeps(c: Connection, all: seq<Observation>, committed: nat, vars: LinkVars, o: Observation)
    requires ConnectionOk(c, all, committed) && c.welcomed.Some?
    requires Relayed(all, c.welcomed.value, c.sent, vars)
    requires vars.sentSequence < |all| && o == all[vars.sentSequence]
    ensures ConnectionOk(c.(sent := c.sent + [OnWire(o)]), all, committed)
    ensures Relayed(all, c.welcomed.value, c.sent + [OnWire(o)], NoteSent(vars, o))
  {
    RelayNext(all, c.welcomed.value, c.sent, vars, o);
  }

  /** An attachment and the link may change together if both conditions hold of the result. */
  lemma ReplaceBothKeeps(s: State, i: nat, c: Connection, link: Link)
    requires Inv(s) && s.supervisor.Present? && i < |s.connections|
    requires ConnectionOk(c, Observations(s.journal), s.committed)
    requires LinkOk(link, s.connections[i := c], Observations(s.journal), s.committed,
                    Published(s.supervisor, |Observations(s.journal)|) - |s.supervisor.live|)
    ensures Inv(WithLink(s.(connections := s.connections[i := c]), link))
  {
    ConnectionsSet(s.connections, i, c, Observations(s.journal), s.committed);
  }

  lemma {:induction false} ReplayNextKeeps(s: State)
    requires Inv(s)
    ensures Inv(DoReplayNext(s))
  {
    var t := DoReplayNext(s);
    if t != s {
      var link, all := s.supervisor.link, Observations(s.journal);
      TransmitKeeps(s.connections[link.connection], all, s.committed, link.vars, link.pending[0]);
      assert link.pending[1..] == all[link.vars.sentSequence + 1..link.vars.sentSequence + |link.pending|];
      var c := s.connections[link.connection];
      ReplaceBothKeeps(s, link.connection, c.(sent := c.sent + [OnWire(link.pending[0])]), t.supervisor.link);
    }
  }

  /** The head of the live queue may leave it once the attached link has sent that observation. */
  lemma QueueTail(p: Supervisor, connections: seq<Connection>, all: seq<Observation>, committed: nat)
    requires p.Present? && p.live != [] && p.link.Attached?
    requires Contiguous(all) && PresentOk(p, connections, all, committed)
    requires p.live[0].sequence <= p.link.vars.sentSequence
    ensures PresentOk(p.(live := p.live[1..]), connections, all, committed)
  {
    var published := Published(p, |all|);
    assert p.live[0] == all[published - |p.live|];
    assert p.live[1..] == all[published - |p.live| + 1..published];
  }

  function Dequeued(s: State): State
    requires s.supervisor.Present? && s.supervisor.live != []
  {
    s.(supervisor := s.supervisor.(live := s.supervisor.live[1..]))
  }

  lemma DequeueKeeps(s: State)
    requires Inv(s) && s.supervisor.Present? && s.supervisor.live != [] && s.supervisor.link.Attached?
    requires s.supervisor.live[0].sequence <= s.supervisor.link.vars.sentSequence
    ensures Inv(Dequeued(s))
  {
    QueueTail(s.supervisor, s.connections, Observations(s.journal), s.committed);
  }

  function SentLive(s: State): State
    requires s.supervisor.Present? && s.supervisor.live != [] && s.supervisor.link.Attached?
    requires s.supervisor.link.connection < |s.connections|
  {
    var link := s.supervisor.link;
    WithLink(Transmit(s, link.connection, s.supervisor.live[0]),
             Attached(link.connection, NoteSent(link.vars, s.supervisor.live[0])))
  }

  /** An unsent head of the live queue is the very next observation to send. */
  lemma {:induction false} SendLiveKeeps(s: State)
    requires Inv(s) && s.supervisor.Present? && s.supervisor.live != [] && s.supervisor.link.Attached?
    requires s.supervisor.live[0].sequence > s.supervisor.link.vars.sentSequence
    ensures s.supervisor.live[0].sequence == s.supervisor.link.vars.sentSequence + 1
    ensures s.supervisor.link.connection < |s.connections| && Inv(SentLive(s))
  {
    var link, all, live := s.supervisor.link, Observations(s.journal), s.supervisor.live;
    var start := Published(s.supervisor, |all|) - |live|;
    assert live[0] == all[start];
    var c := s.connections[link.connection];
    TransmitKeeps(c, all, s.committed, link.vars, live[0]);
    ReplaceBothKeeps(s, link.connection, c.(sent := c.sent + [OnWire(live[0])]),
                     Attached(link.connection, NoteSent(link.vars, live[0])));
  }

  lemma {:induction false} TakeLiveKeeps(s: State)
    requires Inv(s)
    ensures Inv(DoTakeLive(s))
  {
    if DoTakeLive(s) != s {
      if s.supervisor.live[0].sequence <= s.supervisor.link.vars.sentSequence {
        DequeueKeeps(s);
        assert DoTakeLive(s) == Dequeued(s);
      } else {
        SendLiveKeeps(s);
        DequeueKeeps(SentLive(s));
        assert DoTakeLive(s) == Dequeued(SentLive(s));
      }
    }
  }

  /** The message a server reads next is at most one ahead of the cursor. */
  lemma NextMessageInOrder(s: State, i: nat)
    requires Inv(s) && i < |s.connections|
    requires s.connections[i].server.Serving? && s.connections[i].received < |s.connections[i].sent|
    ensures var c := s.connections[i];
            && c.sent[c.received].sequence == c.welcomed.value + c.received + 1 <= s.committed + 1
            && c.sent[c.received] == OnWire(Observations(s.journal)[c.welcomed.value + c.received])
  {
  }

  /** The cursor may move over the next observation of the journal. */
  lemma AdvanceKeeps(s: State)
    requires Inv(s) && s.committed < |Observations(s.journal)| && s.committed < I64_MAX
    ensures Inv(s.(committed := s.committed + 1,
                   applied := s.applied + [OnWire(Observations(s.journal)[s.committed])]))
  {
    var all := Observations(s.journal);
    assert all[..s.committed + 1] == all[..s.committed] + [all[s.committed]];
    ConnectionsGrow(s.connections, all, all, s.committed, s.committed + 1);
    if s.supervisor.Present? {
      LinkGrows(s.supervisor.link, s.connections, all, all, s.committed, s.committed + 1,
                Published(s.supervisor, |all|) - |s.supervisor.live|);
    }
  }

  lemma HandledConnectionOk(c: Connection, all: seq<Observation>, committed: nat, sequence: nat)
    requires ConnectionOk(c, all, committed) && c.server.Serving? && c.received < |c.sent|
    requires sequence == c.welcomed.value + c.received + 1 <= committed
    ensures ConnectionOk(c.(server := Serving(Some(sequence)), received := c.received + 1), all, committed)
  {
  }

  lemma ConnectionOf(s: State, i: nat)
    requires Inv(s) && i < |s.connections|
    ensures ConnectionOk(s.connections[i], Observations(s.journal), s.committed)
  {
  }

  lemma DuplicateKeeps(s: State, i: nat, message: Wire)
    requires Inv(s) && i < |s.connections| && s.connections[i].server.Serving?
    requires s.connections[i].received < |s.connections[i].sent|
    requires message.sequence == s.connections[i].welcomed.value + s.connections[i].received + 1 <= s.committed
    ensures Inv(Handled(s, i, message, false))
  {
    var c := s.connections[i];
    var c' := c.(server := Serving(Some(message.sequence)), received := c.received + 1);
    ConnectionOf(s, i);
    HandledConnectionOk(c, Observations(s.journal), s.committed, message.sequence);
    ReplaceKeeps(s, i, c');
    assert Handled(s, i, message, false) == s.(connections := s.connections[i := c']);
  }

  /** Applying the next message is advancing the cursor and then handling a duplicate. */
  lemma ApplyKeeps(s: State, i: nat, message: Wire)
    requires Inv(s) && i < |s.connections| && s.connections[i].server.Serving?
    requires s.connections[i].received < |s.connections[i].sent|
    requires message.sequence == s.connections[i].welcomed.value + s.connections[i].received + 1 == s.committed + 1
    requires s.committed < |Observations(s.journal)| && s.committed < I64_MAX
    requires message == OnWire(Observations(s.journal)[s.committed])
    ensures Inv(Handled(s, i, message, true))
  {
    AdvanceKeeps(s);
    var t := s.(committed := s.committed + 1, applied := s.applied + [message]);
    DuplicateKeeps(t, i, message);
    assert Handled(s, i, message, true) == Handled(t, i, message, false);
  }

  lemma {:induction false} ServerCommitKeeps(s: State, i: nat)
    requires Inv(s)
    ensures Inv(DoServerCommit(s, i))
  {
    if DoServerCommit(s, i) != s {
      NextMessageInOrder(s, i);
      var message := s.connections[i].sent[s.connections[i].received];
      ServerFailsKeeps(s, i);
      if KnownKind(message.facts.kind) {
        match Storages.Decide(s.committed, message.sequence) {
          case Err(error) =>
            assert Refused(s, i, error) == DoServerFails(s, i);
          case Ok(apply) =>
            if apply {
              ApplyKeeps(s, i, message);
            } else {
              DuplicateKeeps(s, i, message);
            }
        }
      }
    }
  }

  lemma {:induction false} ServerAttachKeeps(s: State, i: nat)
    requires Inv(s)
    ensures Inv(DoServerAttach(s, i))
  {
    if DoServerAttach(s, i) != s {
      ReplaceKeeps(s, i, DoServerAttach(s, i).connections[i]);
    }
  }

  lemma {:induction false} ServerAcknowledgeKeeps(s: State, i: nat)
    requires Inv(s)
    ensures Inv(DoServerAcknowledge(s, i))
  {
    if DoServerAcknowledge(s, i) != s {
      ReplaceKeeps(s, i, DoServerAcknowledge(s, i).connections[i]);
    }
  }

  lemma {:induction false} ServerFailsKeeps(s: State, i: nat)
    requires Inv(s)
    ensures Inv(DoServerFails(s, i))
  {
    if DoServerFails(s, i) != s {
      ReplaceKeeps(s, i, s.connections[i].(server := Gone));
    }
  }

  lemma ControllerCrashKeeps(s: State)
    requires Inv(s)
    ensures Inv(DoControllerCrash(s))
  {
    var t := DoControllerCrash(s);
    if s.supervisor.Present? {
      var all := Observations(s.journal);
      LinkFrame(s.supervisor.link, s.connections, t.connections, all, s.committed,
                Published(s.supervisor, |all|) - |s.supervisor.live|);
    }
    assert forall i :: 0 <= i < |t.connections| ==> t.connections[i] == s.connections[i].(server := Gone);
  }

  predicate OfLink(step: Step) {
    || step.Connect? || step.ReadWelcome? || step.TakeSnapshot? || step.ReplayNext? || step.GoLive?
    || step.ReadResponse? || step.TakeLive? || step.SeeClosed? || step.LinkLost? || step.LinkFails?
  }

  predicate OfController(step: Step) {
    step.ServerAttach? || step.ServerCommit? || step.ServerAcknowledge? || step.ServerFails? || step.ControllerCrash?
  }

  lemma {:induction false} LinkStepKeeps(s: State, step: Step)
    requires Inv(s) && OfLink(step)
    ensures Inv(Next(s, step))
  {
    match step {
      case Connect => ConnectKeeps(s);
      case ReadWelcome => ReadWelcomeKeeps(s);
      case TakeSnapshot => TakeSnapshotKeeps(s);
      case ReplayNext => ReplayNextKeeps(s);
      case ReadResponse => ReadResponseKeeps(s);
      case TakeLive => TakeLiveKeeps(s);
      case SeeClosed => SeeClosedKeeps(s);
      case _ => LinkKeeps(s, step);
    }
  }

  lemma {:induction false} ControllerStepKeeps(s: State, step: Step)
    requires Inv(s) && OfController(step)
    ensures Inv(Next(s, step))
  {
    match step {
      case ServerAttach(i) => ServerAttachKeeps(s, i);
      case ServerCommit(i) => ServerCommitKeeps(s, i);
      case ServerAcknowledge(i) => ServerAcknowledgeKeeps(s, i);
      case ServerFails(i) => ServerFailsKeeps(s, i);
      case ControllerCrash => ControllerCrashKeeps(s);
    }
  }

  lemma {:induction false} RunnerStepKeeps(s: State, step: Step)
    requires Inv(s) && !OfLink(step) && !OfController(step)
    ensures Inv(Next(s, step))
  {
    match step {
      case Append(facts, terminal) => AppendKeeps(s, facts, terminal);
      case Publish => PublishKeeps(s);
      case WriteCheckpoint(attempt, phase, retryAt) => CheckpointKeeps(s, attempt, phase, retryAt);
      case SupervisorStart => StartKeeps(s);
      case _ => LifecycleKeeps(s, step);
    }
  }

  lemma {:induction false} NextKeeps(s: State, step: Step)
    requires Inv(s)
    ensures Inv(Next(s, step))
  {
    if OfLink(step) {
      LinkStepKeeps(s, step);
    } else if OfController(step) {
      ControllerStepKeeps(s, step);
    } else {
      RunnerStepKeeps(s, step);
    }
  }

  lemma {:induction false} RunKeeps(s: State, steps: seq<Step>)
    requires Inv(s)
    ensures Inv(Run(s, steps))
  {
    if steps != [] {
      RunKeeps(s, steps[..|steps| - 1]);
      NextKeeps(Run(s, steps[..|steps| - 1]), steps[|steps| - 1]);
    }
  }
}
