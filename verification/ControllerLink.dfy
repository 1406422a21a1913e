/**
  The supervisor's side of an attachment (crates/supervisor/src/controller_link.rs): replay
  what the controller has not committed, then hand over to the live queue, acknowledging as
  the controller commits.
*/
module ControllerLinks {
  import opened Base
  import opened RuntimeJournals

  /** An observation as it crosses the pipe. */
  datatype Wire = Wire(sequence: nat, facts: Facts)

  function OnWire(o: Observation): Wire {
    Wire(o.sequence, o.facts)
  }

  function Wires(observations: seq<Observation>): (wires: seq<Wire>)
    ensures |wires| == |observations|
    ensures forall i :: 0 <= i < |wires| ==> wires[i] == OnWire(observations[i])
  {
    seq(|observations|, i requires 0 <= i < |observations| => OnWire(observations[i]))
  }

  /** The loop variables of one attachment. */
  datatype LinkVars = LinkVars(sentSequence: nat, terminalSequence: Option<nat>, observationsOpen: bool)

  function Attached(committed: nat): LinkVars {
    LinkVars(committed, None, true)
  }

  function NoteSent(v: LinkVars, o: Observation): LinkVars {
    v.(sentSequence := o.sequence,
       terminalSequence := if o.terminal then Some(o.sequence) else v.terminalSequence)
  }

  function NoteClosed(v: LinkVars, observations: seq<Observation>): LinkVars {
    v.(observationsOpen := false,
       terminalSequence := if v.terminalSequence.None? then NewestTerminal(After(observations, 0))
                           else v.terminalSequence)
  }

  predicate Finished(v: LinkVars, acknowledged: nat) {
    v.terminalSequence.Some? && acknowledged >= v.terminalSequence.value
  }

  /** The terminal sequence the link tracks names a terminal observation of the journal. */
  ghost predicate Tracks(v: LinkVars, observations: seq<Observation>) {
    v.terminalSequence.Some? ==>
      1 <= v.terminalSequence.value <= |observations| && observations[v.terminalSequence.value - 1].terminal
  }

  lemma TracksClosed(v: LinkVars, observations: seq<Observation>)
    requires Contiguous(observations) && Tracks(v, observations)
    ensures Tracks(NoteClosed(v, observations), observations)
  {
    ContiguousAfter(observations, 0);
  }

  /** What one turn of the attached loop sees. `Appended` is the runner's concurrent journal append. */
  datatype Input =
    | Response(acknowledgement: Option<nat>)
    | Ended
    | Live(observation: Observation)
    | LiveClosed
    | Appended(appended: Observation)

  datatype Exit = StillAttached | Disconnected | JournalFailed | Returned(terminal: nat, acknowledged: nat)

  /**
    The order in which the runner can feed the link: it appends the next number, publishes
    what it has appended, oldest first, and closes the queue after publishing everything.
    `head` counts the observations already taken from the queue; the controller acknowledges
    nothing above `cursor`.
  */
  ghost predicate Feasible(observations: seq<Observation>, cursor: nat, head: nat, closed: bool, inputs: seq<Input>)
    decreases inputs
  {
    inputs == [] ||
    var rest := inputs[1..];
    match inputs[0]
    case Response(a) => (a.Some? ==> a.value <= cursor) && Feasible(observations, cursor, head, closed, rest)
    case Ended => Feasible(observations, cursor, head, closed, rest)
    case Live(o) => !closed && head < |observations| && o == observations[head] &&
                    Feasible(observations, cursor, head + 1, closed, rest)
    case LiveClosed => !closed && head == |observations| && Feasible(observations, cursor, head, true, rest)
    case Appended(o) => !closed && o.sequence == |observations| + 1 &&
                        Feasible(observations + [o], cursor, head, closed, rest)
  }

  /** How many observations have been taken from the live queue once the inputs are consumed. */
  function Taken(head: nat, inputs: seq<Input>): nat
    decreases inputs
  {
    if inputs == [] then head else Taken(head + (if inputs[0].Live? then 1 else 0), inputs[1..])
  }

  lemma FeasibleTail(observations: seq<Observation>, cursor: nat, head: nat, closed: bool, inputs: seq<Input>)
    requires inputs != [] && Feasible(observations, cursor, head, closed, inputs)
    ensures inputs[0].Live? ==> head < |observations| && inputs[0].observation == observations[head]
    ensures Taken(head + (if inputs[0].Live? then 1 else 0), inputs[1..]) == Taken(head, inputs)
    ensures inputs[0].Appended? ==> inputs[0].appended.sequence == |observations| + 1
    ensures inputs[0].Response? && inputs[0].acknowledgement.Some? ==> inputs[0].acknowledgement.value <= cursor
    ensures Feasible(observations + (if inputs[0].Appended? then [inputs[0].appended] else []), cursor,
                     head + (if inputs[0].Live? then 1 else 0), closed || inputs[0].LiveClosed?, inputs[1..])
  {
    assert observations + [] == observations;
  }

  /** What has been sent is the slice of the journal that starts after `committed`. */
  ghost predicate Relayed(observations: seq<Observation>, committed: nat, sent: seq<Wire>, v: LinkVars) {
    && Contiguous(observations)
    && v.sentSequence == committed + |sent| <= |observations|
    && sent == Wires(observations[committed..v.sentSequence])
    && Tracks(v, observations)
  }

  /** Sending the next observation of the journal extends the slice by one. */
  lemma RelayNext(observations: seq<Observation>, committed: nat, sent: seq<Wire>, v: LinkVars, o: Observation)
    requires Relayed(observations, committed, sent, v)
    requires v.sentSequence < |observations| && o == observations[v.sentSequence]
    ensures Relayed(observations, committed, sent + [OnWire(o)], NoteSent(v, o))
  {
    assert observations[committed..v.sentSequence + 1] == observations[committed..v.sentSequence] + [o];
  }

  /** An append by the runner does not disturb what has been sent. */
  lemma RelayedAppend(observations: seq<Observation>, committed: nat, sent: seq<Wire>, v: LinkVars, o: Observation)
    requires Relayed(observations, committed, sent, v) && o.sequence == |observations| + 1
    ensures Relayed(observations + [o], committed, sent, v)
  {
    assert (observations + [o])[committed..v.sentSequence] == observations[committed..v.sentSequence];
  }

  /** Replays the observations after the controller's cursor. */
  method Replay(observations: seq<Observation>, committed: nat) returns (sent: seq<Wire>, vars: LinkVars)
    requires Contiguous(observations) && committed <= |observations|
    ensures Relayed(observations, committed, sent, vars) && vars.observationsOpen
    ensures vars.sentSequence == |observations|
  {
    sent, vars := [], Attached(committed);
    ContiguousAfter(observations, committed);
    var replay := After(observations, committed);
    for i := 0 to |replay|
      invariant Relayed(observations, committed, sent, vars) && vars.observationsOpen
      invariant vars.sentSequence == committed + i
    {
      RelayNext(observations, committed, sent, vars, replay[i]);
      sent := sent + [OnWire(replay[i])];
      vars := NoteSent(vars, replay[i]);
    }
  }

  /** The attached loop's invariant, with what the runner and the controller still have to offer. */
  ghost predicate Relaying(observations: seq<Observation>, committed: nat, sent: seq<Wire>, v: LinkVars,
                           cursor: nat, head: nat, closed: bool, inputs: seq<Input>)
  {
    && Relayed(observations, committed, sent, v)
    && head <= v.sentSequence
    && Feasible(observations, cursor, head, closed, inputs)
  }

  /** One turn of the attached loop. */
  method Turn(journal: RuntimeJournal, before: LinkVars, inputs: seq<Input>,
              ghost committed: nat, ghost sent: seq<Wire>,
              ghost cursor: nat, ghost head: nat, ghost closed: bool)
    returns (message: seq<Wire>, vars: LinkVars, exit: Exit, ghost head': nat, ghost closed': bool)
    requires journal.open && inputs != []
    requires Relaying(Observations(journal.frames), committed, sent, before, cursor, head, closed, inputs)
    modifies journal
    ensures journal.open
    ensures Observations(journal.frames) ==
            old(Observations(journal.frames)) + (if inputs[0].Appended? then [inputs[0].appended] else [])
    ensures CommittedSequence(journal.frames) ==
            Max(old(CommittedSequence(journal.frames)),
                if inputs[0].Response? && inputs[0].acknowledgement.Some? then inputs[0].acknowledgement.value else 0)
    ensures Relaying(Observations(journal.frames), committed, sent + message, vars, cursor, head', closed', inputs[1..])
    ensures Taken(head', inputs[1..]) == Taken(head, inputs)
    ensures message == if inputs[0].Live? && inputs[0].observation.sequence > before.sentSequence
                       then [OnWire(inputs[0].observation)] else []
    ensures vars.observationsOpen == (before.observationsOpen && !inputs[0].LiveClosed?)
    ensures exit.Returned? ==> exit.acknowledged <= cursor
    ensures exit == if inputs[0].Ended? then Disconnected
                    else if inputs[0].Response? && inputs[0].acknowledgement.Some? &&
                            Finished(vars, inputs[0].acknowledgement.value)
                    then Returned(vars.terminalSequence.value, inputs[0].acknowledgement.value)
                    else StillAttached
  {
    FeasibleTail(Observations(journal.frames), cursor, head, closed, inputs);
    message, vars, exit := [], before, StillAttached;
    head', closed' := head + (if inputs[0].Live? then 1 else 0), closed || inputs[0].LiveClosed?;
    assert sent + [] == sent;
    match inputs[0] {
      case Ended =>
        exit := Disconnected;
      case Response(acknowledgement) =>
        if acknowledgement.Some? {
          var r := journal.Acknowledge(acknowledgement.value);
          if r.Err? {
            return message, vars, JournalFailed, head', closed';
          }
          if Finished(vars, acknowledgement.value) {
            exit := Returned(vars.terminalSequence.value, acknowledgement.value);
          }
        }
      case Live(observation) =>
        if observation.sequence > before.sentSequence {
          RelayNext(Observations(journal.frames), committed, sent, before, observation);
          message := [OnWire(observation)];
          vars := NoteSent(before, observation);
        }
      case LiveClosed =>
        TracksClosed(before, Observations(journal.frames));
        vars := NoteClosed(before, Observations(journal.frames));
      case Appended(observation) =>
        RelayedAppend(Observations(journal.frames), committed, sent, before, observation);
        var _ := journal.AppendObservation(observation);
    }
  }

  /** The attached loop: it takes whatever becomes ready until the stream ends or the terminal is committed. */
  method Select(journal: RuntimeJournal, replayed: seq<Wire>, first: LinkVars, inputs: seq<Input>,
                ghost committed: nat, ghost head: nat, ghost cursor: nat)
    returns (sent: seq<Wire>, vars: LinkVars, exit: Exit)
    requires journal.open && CommittedSequence(journal.frames) <= cursor
    requires Relaying(Observations(journal.frames), committed, replayed, first, cursor, head, false, inputs)
    modifies journal
    ensures CommittedSequence(journal.frames) <= cursor
    ensures Relayed(Observations(journal.frames), committed, sent, vars) && |replayed| <= |sent|
    ensures exit.StillAttached? ==> Taken(head, inputs) <= vars.sentSequence
    ensures exit.Returned? ==>
              && Finished(vars, exit.acknowledged) && vars.terminalSequence == Some(exit.terminal)
              && exit.acknowledged <= cursor
    ensures !exit.JournalFailed?
  {
    sent, vars, exit := replayed, first, StillAttached;
    ghost var taken: nat, closed := head, false;
    var rest := inputs;
    while rest != [] && exit.StillAttached?
      invariant journal.open && CommittedSequence(journal.frames) <= cursor
      invariant Relaying(Observations(journal.frames), committed, sent, vars, cursor, taken, closed, rest)
      invariant |replayed| <= |sent|
      invariant Taken(head, inputs) == Taken(taken, rest)
      invariant exit.Returned? ==>
                  && Finished(vars, exit.acknowledged) && vars.terminalSequence == Some(exit.terminal)
                  && exit.acknowledged <= cursor
      invariant !exit.JournalFailed?
    {
      var message;
      message, vars, exit, taken, closed := Turn(journal, vars, rest, committed, sent, cursor, taken, closed);
      sent := sent + message;
      rest := rest[1..];
    }
  }

  /**
    One attachment from its Welcome on. It sends exactly committed+1, committed+2, ... across
    the switch from replay to live, whatever was taken from the queue by earlier attachments
    (`head`), and it returns only when a terminal observation of the journal is acknowledged.
    `cursor` bounds what the controller has acknowledged.
  */
  method RunAttachment(journal: RuntimeJournal, recovered: nat, committed: nat, inputs: seq<Input>,
                       ghost head: nat, ghost cursor: nat)
    returns (sent: seq<Wire>, exit: Exit, vars: LinkVars)
    requires journal.open
    requires Contiguous(Observations(journal.frames))
    requires committed <= |Observations(journal.frames)| && head <= |Observations(journal.frames)|
    requires Feasible(Observations(journal.frames), cursor, head, false, inputs)
    requires CommittedSequence(journal.frames) <= cursor && committed <= cursor
    modifies journal
    ensures CommittedSequence(journal.frames) <= cursor
    ensures Relayed(Observations(journal.frames), committed, sent, vars)
    ensures |old(Observations(journal.frames))| <= vars.sentSequence
    ensures exit.StillAttached? ==> Taken(head, inputs) <= vars.sentSequence
    ensures exit.Returned? ==>
              && Finished(vars, exit.acknowledged) && vars.terminalSequence == Some(exit.terminal)
              && exit.acknowledged <= cursor
    ensures !exit.JournalFailed?
  {
    if committed > recovered {
      var r := journal.Acknowledge(committed);
      if r.Err? {
        return [], JournalFailed, Attached(committed);
      }
    }
    var replayed, first := Replay(Observations(journal.frames), committed);
    sent, vars, exit := Select(journal, replayed, first, inputs, committed, head, cursor);
  }
}
