/**
  Observation replication as a transition system: one supervisor (with its runner, its durable
  journal, its live queue and its link), the controller's durable cursor, and any number of
  attachments with messages in flight. Either process may crash between any two steps, and old
  attachments stay in the state with whatever they still have to deliver.
*/
module Replication {
  import opened Base
  import opened RuntimeJournals
  import opened ControllerLinks
  import Storages

  datatype Down = Welcome(committed: nat) | Acknowledgement(committed: nat)

  /** The controller's task for one attachment; `unacked` is committed but not yet acknowledged. */
  datatype Server = Accepting | Serving(unacked: Option<nat>) | Gone

  /** `sent[..received]` has been read by the server; `sent[received..]` is in flight. */
  datatype Connection = Connection(server: Server, welcomed: Option<nat>, sent: seq<Wire>, received: nat,
                                   down: seq<Down>)

  datatype Link =
    | Idle
    | Hello(connection: nat, recovered: nat)
    | Welcomed(connection: nat, committed: nat)
    | Replaying(connection: nat, vars: LinkVars, pending: seq<Observation>)
    | Attached(connection: nat, vars: LinkVars)
    | Failed
    | Completed(terminal: nat)

  datatype Recorder = Recorder(sequence: nat, committedSequence: nat)

  datatype Supervisor =
    | Absent
    | Present(recorder: Recorder, running: bool, unpublished: Option<Observation>, live: seq<Observation>, link: Link)

  /**
    The execution itself. `resultWritten` is whether its result file is there, which the runner
    writes when it ends and nobody removes. `active` is whether the controller still has it: only
    then are attachments admitted, and launches of a supervisor decided, and the latter only if
    no result file is seen. `launching` is such a decision that has not been carried out yet.

    The execution ends once, when it is finished in the database and its entry is gone. Until
    then a spent launch budget or a cancel is no end of launching: after a restart the controller
    recovers the unfinished execution and replaces its supervisor.
  */
  datatype Execution = Execution(resultWritten: bool, active: bool, launching: bool)

  datatype State = State(
    journal: seq<Record>, finalized: bool, supervisor: Supervisor, connections: seq<Connection>,
    committed: Storages.cursor, applied: seq<Wire>, outOfOrder: bool, execution: Execution)

  datatype Step =
    | Append(facts: Facts, terminal: bool)
    | Publish
    | WriteCheckpoint(attempt: nat, phase: string, retryAtUnixMs: int)
    | RunnerExits
    | Finalize
    | SupervisorCrash
    | DecideLaunch
    | SupervisorStart
    | Connect
    | ReadWelcome
    | TakeSnapshot
    | ReplayNext
    | GoLive
    | ReadResponse
    | TakeLive
    | SeeClosed
    | LinkLost
    | LinkFails
    | ServerAttach(connection: nat)
    | ServerCommit(connection: nat)
    | ServerAcknowledge(connection: nat)
    | ServerFails(connection: nat)
    | ControllerCrash
    | ExecutionEnds

  function Init(): State {
    State([], false, Absent, [], 0, [], false, Execution(false, true, false))
  }

  /** The observation kinds the controller's attachment loop accepts. */
  predicate KnownKind(kind: string) {
    kind in {"attempt-exited", "attempt-started", "launch-failed", "supervisor-lost", "restart-backoff",
             "completed", "failed", "stopped", "cancelled", "outcome-unknown", "policy-applied"}
  }

  // ---- The runner ----

  predicate RunnerReady(s: State) {
    s.supervisor.Present? && s.supervisor.running && s.supervisor.unpublished.None?
  }

  function DoAppend(s: State, facts: Facts, terminal: bool): State {
    if !RunnerReady(s) || s.supervisor.recorder.sequence >= U64_MAX then s
    else
      var recorder := s.supervisor.recorder.(sequence := s.supervisor.recorder.sequence + 1);
      var o := Observation(recorder.sequence, facts, terminal);
      s.(journal := s.journal + [ObservationRecord(o)],
         supervisor := s.supervisor.(recorder := recorder, unpublished := Some(o)))
  }

  function DoPublish(s: State): State {
    if !s.supervisor.Present? || s.supervisor.unpublished.None? then s
    else s.(supervisor := s.supervisor.(unpublished := None,
                                        live := s.supervisor.live + [s.supervisor.unpublished.value]))
  }

  function DoCheckpoint(s: State, attempt: nat, phase: string, retryAt: int): State {
    if !RunnerReady(s) then s
    else
      var r := s.supervisor.recorder;
      s.(journal := s.journal +
                    [CheckpointRecord(Checkpoint(attempt, phase, r.sequence, r.committedSequence, retryAt))])
  }

  /** The runner writes the result before it returns, and with that the live queue closes. */
  function DoRunnerExits(s: State): State {
    if !RunnerReady(s) then s
    else s.(supervisor := s.supervisor.(running := false), execution := s.execution.(resultWritten := true))
  }

  function DoFinalize(s: State): State {
    if !s.supervisor.Present? || s.supervisor.running then s else s.(supervisor := Absent, finalized := true)
  }

  function DoDecideLaunch(s: State): State {
    if s.execution.active && !s.execution.resultWritten then s.(execution := s.execution.(launching := true)) else s
  }

  function DoStart(s: State): State {
    if s.supervisor.Present? || s.finalized || !s.execution.active || !s.execution.launching then s
    else s.(supervisor := Present(Recorder(LastSequence(s.journal), CommittedSequence(s.journal)),
                                  true, None, [], Idle),
            execution := s.execution.(launching := false))
  }

  // ---- The link ----

  function WithLink(s: State, link: Link): State
    requires s.supervisor.Present?
  {
    s.(supervisor := s.supervisor.(link := link))
  }

  function Transmit(s: State, connection: nat, o: Observation): State
    requires connection < |s.connections|
  {
    var c := s.connections[connection];
    s.(connections := s.connections[connection := c.(sent := c.sent + [OnWire(o)])])
  }

  function DoConnect(s: State): State {
    if !s.supervisor.Present? || !s.supervisor.link.Idle? then s
    else
      WithLink(s.(connections := s.connections + [Connection(Accepting, None, [], 0, [])]),
               Hello(|s.connections|, CommittedSequence(s.journal)))
  }

  /** The next message on the link's own attachment, if one has arrived. */
  predicate Readable(s: State, connection: nat) {
    connection < |s.connections| && s.connections[connection].down != []
  }

  function Consumed(s: State, connection: nat): State
    requires Readable(s, connection)
  {
    var c := s.connections[connection];
    s.(connections := s.connections[connection := c.(down := c.down[1..])])
  }

  function DoReadWelcome(s: State): State {
    if !s.supervisor.Present? || !s.supervisor.link.Hello? || !Readable(s, s.supervisor.link.connection) then s
    else
      var link := s.supervisor.link;
      match s.connections[link.connection].down[0]
      case Acknowledgement(_) => WithLink(Consumed(s, link.connection), Idle)
      case Welcome(committed) =>
        WithLink(Consumed(s, link.connection), Welcomed(link.connection, committed))
        .(journal := if committed > link.recovered then s.journal + [AcknowledgementRecord(committed)] else s.journal)
  }

  function DoTakeSnapshot(s: State): State {
    if !s.supervisor.Present? || !s.supervisor.link.Welcomed? then s
    else
      var link := s.supervisor.link;
      WithLink(s, Replaying(link.connection, ControllerLinks.Attached(link.committed),
                            ObservationsAfter(s.journal, link.committed)))
  }

  function DoReplayNext(s: State): State {
    if !s.supervisor.Present? || !s.supervisor.link.Replaying? || s.supervisor.link.pending == []
       || s.supervisor.link.connection >= |s.connections| then s
    else
      var link := s.supervisor.link;
      var o := link.pending[0];
      WithLink(Transmit(s, link.connection, o), Replaying(link.connection, NoteSent(link.vars, o), link.pending[1..]))
  }

  function DoGoLive(s: State): State {
    if !s.supervisor.Present? || !s.supervisor.link.Replaying? || s.supervisor.link.pending != [] then s
    else WithLink(s, Attached(s.supervisor.link.connection, s.supervisor.link.vars))
  }

  function DoReadResponse(s: State): State {
    if !s.supervisor.Present? || !s.supervisor.link.Attached? || !Readable(s, s.supervisor.link.connection) then s
    else
      var link := s.supervisor.link;
      var rest := Consumed(s, link.connection);
      match s.connections[link.connection].down[0]
      case Welcome(_) => rest
      case Acknowledgement(committed) =>
        var acknowledged := rest.(journal := s.journal + [AcknowledgementRecord(committed)]);
        if Finished(link.vars, committed) then WithLink(acknowledged, Completed(link.vars.terminalSequence.value))
        else acknowledged
  }

  function DoTakeLive(s: State): State {
    if !s.supervisor.Present? || !s.supervisor.link.Attached? || !s.supervisor.link.vars.observationsOpen
       || s.supervisor.live == [] || s.supervisor.link.connection >= |s.connections| then s
    else
      var link := s.supervisor.link;
      var o := s.supervisor.live[0];
      var taken := s.(supervisor := s.supervisor.(live := s.supervisor.live[1..]));
      if o.sequence <= link.vars.sentSequence then taken
      else WithLink(Transmit(taken, link.connection, o), Attached(link.connection, NoteSent(link.vars, o)))
  }

  function DoSeeClosed(s: State): State {
    if !s.supervisor.Present? || !s.supervisor.link.Attached? || !s.supervisor.link.vars.observationsOpen
       || s.supervisor.live != [] || s.supervisor.running then s
    else
      var link := s.supervisor.link;
      WithLink(s, Attached(link.connection, NoteClosed(link.vars, Observations(s.journal))))
  }

  function DoLinkLost(s: State): State {
    if !s.supervisor.Present? || !(s.supervisor.link.Hello? || s.supervisor.link.Attached?) then s
    else WithLink(s, Idle)
  }

  function DoLinkFails(s: State): State {
    if !s.supervisor.Present? || s.supervisor.link.Completed? then s else WithLink(s, Failed)
  }

  // ---- The controller ----

  /** An execution that has ended is not found, and the attachment is refused. */
  function DoServerAttach(s: State, i: nat): State {
    if i >= |s.connections| || !s.connections[i].server.Accepting? then s
    else if !s.execution.active then DoServerFails(s, i)
    else
      s.(connections := s.connections[i := s.connections[i].(server := Serving(None),
                                                             welcomed := Some(s.committed),
                                                             down := [Welcome(s.committed)])])
  }

  /** The committed message is on its way to being acknowledged; a duplicate changes nothing durable. */
  function Handled(s: State, i: nat, message: Wire, apply: bool): State
    requires i < |s.connections|
    requires apply ==> message.sequence <= I64_MAX
  {
    var c := s.connections[i];
    s.(connections := s.connections[i := c.(server := Serving(Some(message.sequence)), received := c.received + 1)],
       committed := if apply then message.sequence else s.committed,
       applied := if apply then s.applied + [message] else s.applied)
  }

  function Refused(s: State, i: nat, error: Storages.StorageError): State
    requires i < |s.connections|
  {
    s.(connections := s.connections[i := s.connections[i].(server := Gone)],
       outOfOrder := s.outOfOrder || error.ObservationOutOfOrder?)
  }

  function DoServerCommit(s: State, i: nat): State {
    if i >= |s.connections| || s.connections[i].server != Serving(None)
       || s.connections[i].received >= |s.connections[i].sent| then s
    else
      var message := s.connections[i].sent[s.connections[i].received];
      if !KnownKind(message.facts.kind) then DoServerFails(s, i)
      else
        match Storages.Decide(s.committed, message.sequence)
        case Err(error) => Refused(s, i, error)
        case Ok(apply) => Handled(s, i, message, apply)
  }

  function DoServerAcknowledge(s: State, i: nat): State {
    if i >= |s.connections| || !s.connections[i].server.Serving? || s.connections[i].server.unacked.None? then s
    else
      var c := s.connections[i];
      s.(connections := s.connections[i := c.(server := Serving(None),
                                              down := c.down + [Acknowledgement(c.server.unacked.value)])])
  }

  function DoServerFails(s: State, i: nat): State {
    if i >= |s.connections| then s
    else s.(connections := s.connections[i := s.connections[i].(server := Gone)])
  }

  function DoControllerCrash(s: State): State {
    s.(connections := seq(|s.connections|, i requires 0 <= i < |s.connections| => s.connections[i].(server := Gone)),
       execution := s.execution.(launching := false))
  }

  /** One step; a step that is not enabled leaves the state as it is. */
  function Next(s: State, step: Step): State {
    match step
    case Append(facts, terminal) => DoAppend(s, facts, terminal)
    case Publish => DoPublish(s)
    case WriteCheckpoint(attempt, phase, retryAt) => DoCheckpoint(s, attempt, phase, retryAt)
    case RunnerExits => DoRunnerExits(s)
    case Finalize => DoFinalize(s)
    case SupervisorCrash => s.(supervisor := Absent)
    case DecideLaunch => DoDecideLaunch(s)
    case SupervisorStart => DoStart(s)
    case Connect => DoConnect(s)
    case ReadWelcome => DoReadWelcome(s)
    case TakeSnapshot => DoTakeSnapshot(s)
    case ReplayNext => DoReplayNext(s)
    case GoLive => DoGoLive(s)
    case ReadResponse => DoReadResponse(s)
    case TakeLive => DoTakeLive(s)
    case SeeClosed => DoSeeClosed(s)
    case LinkLost => DoLinkLost(s)
    case LinkFails => DoLinkFails(s)
    case ServerAttach(i) => DoServerAttach(s, i)
    case ServerCommit(i) => DoServerCommit(s, i)
    case ServerAcknowledge(i) => DoServerAcknowledge(s, i)
    case ServerFails(i) => DoServerFails(s, i)
    case ControllerCrash => DoControllerCrash(s)
    case ExecutionEnds => s.(execution := s.execution.(active := false))
  }

  function Run(s: State, steps: seq<Step>): State {
    if steps == [] then s else Next(Run(s, steps[..|steps| - 1]), steps[|steps| - 1])
  }
}
