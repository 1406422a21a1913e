/** What the replication system guarantees over all of its runs. */
module ReplicationTheorems {
  import opened Base
  import opened RuntimeJournals
  import opened ControllerLinks
  import opened Replication
  import opened ReplicationProofs
  import Storages

  lemma {:induction false} ReachableInv(steps: seq<Step>)
    ensures Inv(Run(Init(), steps))
  {
    RunKeeps(Init(), steps);
  }

  /**
    Whatever the crashes, disconnects and overlapping attachments, the controller has applied
    exactly the first `committed` observations of the journal, each once and in order.
  */
  lemma {:induction false} ExactlyOnceInOrder(steps: seq<Step>)
    ensures var s := Run(Init(), steps);
            && s.committed <= |Observations(s.journal)|
            && s.applied == Wires(Observations(s.journal))[..s.committed]
            && forall i :: 0 <= i < |s.applied| ==> s.applied[i].sequence == i + 1
  {
    ReachableInv(steps);
    var s := Run(Init(), steps);
    var all := Observations(s.journal);
    assert Wires(all[..s.committed]) == Wires(all)[..s.committed];
  }

  /** An attachment carries consecutive observations of the journal, starting after its welcome. */
  ghost predicate CarriesInOrder(c: Connection, all: seq<Observation>) {
    match c.welcomed
    case None => c.sent == []
    case Some(w) =>
      && w + |c.sent| <= |all|
      && forall k :: 0 <= k < |c.sent| ==> c.sent[k] == OnWire(all[w + k]) && c.sent[k].sequence == w + 1 + k
  }

  lemma ConnectionCarriesInOrder(c: Connection, all: seq<Observation>, committed: nat)
    requires ConnectionOk(c, all, committed) && Contiguous(all)
    ensures CarriesInOrder(c, all)
  {
  }

  /**
    Every attachment carries welcomed+1, welcomed+2, ... without gap or repeat, across the
    switch from replay to live, and so no attachment is ever refused as out of order.
  */
  lemma {:induction false} AttachmentsInOrder(steps: seq<Step>)
    ensures var s := Run(Init(), steps);
            !s.outOfOrder && forall c <- s.connections :: CarriesInOrder(c, Observations(s.journal))
  {
    ReachableInv(steps);
    var s := Run(Init(), steps);
    forall c <- s.connections
      ensures CarriesInOrder(c, Observations(s.journal))
    {
      ConnectionCarriesInOrder(c, Observations(s.journal), s.committed);
    }
  }

  /** Acknowledgements in flight, in the journal and in a recovery never exceed the durable cursor. */
  lemma {:induction false} AcknowledgementsBounded(steps: seq<Step>)
    ensures var s := Run(Init(), steps);
            && (forall c <- s.connections :: forall d <- c.down :: d.committed <= s.committed)
            && (forall r <- s.journal :: Vouched(r).Some? ==> Vouched(r).value <= s.committed)
            && Recover(s.journal).committedSequence <= s.committed <= Recover(s.journal).lastSequence
  {
    ReachableInv(steps);
    var s := Run(Init(), steps);
    forall c <- s.connections
      ensures forall d <- c.down :: d.committed <= s.committed
    {
      assert ConnectionOk(c, Observations(s.journal), s.committed);
    }
    ContiguousLast(s.journal);
  }

  lemma TerminalApplied(all: seq<Observation>, committed: nat, applied: seq<Wire>, t: nat)
    requires 1 <= t <= committed <= |all| && applied == Wires(all[..committed])
    ensures |applied| == committed && applied[t - 1] == OnWire(all[t - 1])
  {
  }

  lemma CompletedLink(s: State)
    requires Inv(s) && s.supervisor.Present? && s.supervisor.link.Completed?
    ensures DurableOk(s)
    ensures var t := s.supervisor.link.terminal;
            1 <= t <= s.committed <= |Observations(s.journal)| && Observations(s.journal)[t - 1].terminal
  {
  }

  /** The link finishes only after a terminal observation of the journal has been applied. */
  lemma {:induction false} CompletedMeansApplied(steps: seq<Step>)
    requires Run(Init(), steps).supervisor.Present? && Run(Init(), steps).supervisor.link.Completed?
    ensures var s := Run(Init(), steps);
            var t := s.supervisor.link.terminal;
            && 1 <= t <= s.committed <= |Observations(s.journal)|
            && Observations(s.journal)[t - 1].terminal
            && |s.applied| == s.committed && s.applied[t - 1] == OnWire(Observations(s.journal)[t - 1])
  {
    var s := Run(Init(), steps);
    ReachableInv(steps);
    CompletedLink(s);
    TerminalApplied(Observations(s.journal), s.committed, s.applied, s.supervisor.link.terminal);
  }

  /** When the attached link has drained the queue and the controller has read everything, nothing is missing. */
  lemma {:induction false} DrainedMeansCommitted(steps: seq<Step>)
    requires var s := Run(Init(), steps);
             && s.supervisor.Present? && s.supervisor.link.Attached?
             && s.supervisor.unpublished.None? && s.supervisor.live == []
             && s.supervisor.link.connection < |s.connections|
             && s.connections[s.supervisor.link.connection].received ==
                |s.connections[s.supervisor.link.connection].sent|
    ensures var s := Run(Init(), steps);
            s.committed == LastSequence(s.journal) && s.applied == Wires(Observations(s.journal))
  {
    ReachableInv(steps);
    var s := Run(Init(), steps);
    var all := Observations(s.journal);
    assert ConnectionOk(s.connections[s.supervisor.link.connection], all, s.committed);
    ContiguousLast(s.journal);
    assert all[..|all|] == all;
  }

  // ---- Nothing is taken back ----

  lemma RunSnoc(s: State, steps: seq<Step>, step: Step)
    ensures Run(s, steps + [step]) == Next(Run(s, steps), step)
  {
    assert (steps + [step])[..|steps|] == steps;
  }

  lemma {:induction false} RunConcat(s: State, first: seq<Step>, second: seq<Step>)
    ensures Run(s, first + second) == Run(Run(s, first), second)
  {
    if second == [] {
      assert first + second == first;
    } else {
      var steps := first + second;
      assert steps[..|steps| - 1] == first + second[..|second| - 1];
      RunConcat(s, first, second[..|second| - 1]);
    }
  }

  lemma JournalGrows(s: State, t: State)
    requires t.journal == s.journal ||
             (|t.journal| == |s.journal| + 1 && t.journal[..|s.journal|] == s.journal)
    ensures Observations(s.journal) <= Observations(t.journal)
  {
    if t.journal != s.journal {
      assert t.journal == s.journal + [t.journal[|s.journal|]];
      ObservationsAppend(s.journal, t.journal[|s.journal|]);
    }
  }

  lemma HandledGrows(s: State, i: nat, message: Wire, apply: bool)
    requires i < |s.connections| && (apply ==> message.sequence <= I64_MAX)
    ensures Handled(s, i, message, apply).journal == s.journal
    ensures Handled(s, i, message, apply).applied == if apply then s.applied + [message] else s.applied
  {
  }

  lemma CommitGrows(s: State, i: nat)
    ensures DoServerCommit(s, i).journal == s.journal && s.applied <= DoServerCommit(s, i).applied
  {
    if i < |s.connections| && s.connections[i].received < |s.connections[i].sent| {
      var message := s.connections[i].sent[s.connections[i].received];
      match Storages.Decide(s.committed, message.sequence) {
        case Ok(apply) => HandledGrows(s, i, message, apply);
        case Err(_) =>
      }
    }
  }

  lemma ControllerGrows(s: State, step: Step)
    requires OfController(step)
    ensures Next(s, step).journal == s.journal && s.applied <= Next(s, step).applied
  {
    match step {
      case ServerCommit(i) => CommitGrows(s, i);
      case _ =>
    }
  }

  lemma ReadGrowsJournal(s: State, step: Step)
    requires step.ReadWelcome? || step.ReadResponse?
    ensures var t := Next(s, step);
            && t.applied == s.applied
            && |s.journal| <= |t.journal| <= |s.journal| + 1 && t.journal[..|s.journal|] == s.journal
  {
  }

  lemma LinkGrowsJournal(s: State, step: Step)
    requires OfLink(step)
    ensures var t := Next(s, step);
            && t.applied == s.applied
            && |s.journal| <= |t.journal| <= |s.journal| + 1 && t.journal[..|s.journal|] == s.journal
  {
    if step.ReadWelcome? || step.ReadResponse? {
      ReadGrowsJournal(s, step);
    } else {
      assert Next(s, step).journal == s.journal;
    }
  }

  lemma RunnerGrowsJournal(s: State, step: Step)
    requires !OfLink(step) && !OfController(step)
    ensures var t := Next(s, step);
            && t.applied == s.applied
            && |s.journal| <= |t.journal| <= |s.journal| + 1 && t.journal[..|s.journal|] == s.journal
  {
  }

  lemma StepGrows(s: State, step: Step)
    ensures Observations(s.journal) <= Observations(Next(s, step).journal)
    ensures s.applied <= Next(s, step).applied
  {
    if OfController(step) {
      ControllerGrows(s, step);
    } else if OfLink(step) {
      LinkGrowsJournal(s, step);
    } else {
      RunnerGrowsJournal(s, step);
    }
    JournalGrows(s, Next(s, step));
  }

  /** Along every run, from every state, what was journaled stays journaled and what was applied stays applied. */
  lemma {:induction false} NothingTakenBack(s: State, steps: seq<Step>)
    ensures Observations(s.journal) <= Observations(Run(s, steps).journal)
    ensures s.applied <= Run(s, steps).applied
  {
    if steps != [] {
      NothingTakenBack(s, steps[..|steps| - 1]);
      StepGrows(Run(s, steps[..|steps| - 1]), steps[|steps| - 1]);
    }
  }
}
