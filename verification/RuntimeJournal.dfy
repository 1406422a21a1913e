/**
  The supervisor's append-only runtime journal (crates/supervisor/src/journal.rs): its
  records, what a reader derives from them, and the object that appends to it.
*/
module RuntimeJournals {
  import opened Base

  /** What the runner reports about one observation. */
  datatype Facts = Facts(kind: string, attempt: u32, exitCode: Option<u32>, detail: string, processId: u32)

  datatype Observation = Observation(sequence: nat, facts: Facts, terminal: bool)

  datatype Checkpoint = Checkpoint(attempt: nat, phase: string, lastSequence: nat,
                                   committedSequence: nat, retryAtUnixMs: int)

  datatype Record =
    | CheckpointRecord(checkpoint: Checkpoint)
    | ObservationRecord(observation: Observation)
    | AcknowledgementRecord(committed: nat)

  datatype Recovery = Recovery(checkpoint: Option<Checkpoint>, lastSequence: nat, committedSequence: nat)

  /** The observations of a journal, oldest first. */
  function Observations(frames: seq<Record>): seq<Observation> {
    if frames == [] then []
    else
      var earlier := Observations(frames[..|frames| - 1]);
      match frames[|frames| - 1]
      case ObservationRecord(o) => earlier + [o]
      case _ => earlier
  }

  /** The largest observation sequence, 0 without observations. */
  function LastSequence(frames: seq<Record>): (last: nat)
    ensures forall o <- Observations(frames) :: o.sequence <= last
    ensures last == 0 || exists o <- Observations(frames) :: o.sequence == last
  {
    if frames == [] then 0
    else
      var earlier := LastSequence(frames[..|frames| - 1]);
      match frames[|frames| - 1]
      case ObservationRecord(o) =>
        assert Observations(frames)[|Observations(frames)| - 1] == o;
        Max(earlier, o.sequence)
      case _ => earlier
  }

  /** The committed sequence a record vouches for, if it is of a kind that does. */
  function Vouched(record: Record): Option<nat> {
    match record
    case AcknowledgementRecord(committed) => Some(committed)
    case CheckpointRecord(checkpoint) => Some(checkpoint.committedSequence)
    case ObservationRecord(_) => None
  }

  /** The largest committed sequence any acknowledgement or checkpoint carries, 0 without one. */
  function CommittedSequence(frames: seq<Record>): (committed: nat)
    ensures forall r <- frames :: Vouched(r).Some? ==> Vouched(r).value <= committed
    ensures committed == 0 || exists r <- frames :: Vouched(r) == Some(committed)
  {
    if frames == [] then 0
    else
      var earlier := CommittedSequence(frames[..|frames| - 1]);
      match Vouched(frames[|frames| - 1])
      case Some(n) => Max(earlier, n)
      case None => earlier
  }

  function LatestCheckpoint(frames: seq<Record>): (latest: Option<Checkpoint>)
    ensures latest.None? <==> forall r <- frames :: !r.CheckpointRecord?
    ensures latest.Some? ==> exists i :: 0 <= i < |frames| && frames[i] == CheckpointRecord(latest.value) &&
                                         forall j :: i < j < |frames| ==> !frames[j].CheckpointRecord?
  {
    if frames == [] then None
    else if frames[|frames| - 1].CheckpointRecord? then
      Some(frames[|frames| - 1].checkpoint)
    else LatestCheckpoint(frames[..|frames| - 1])
  }

  function Recover(frames: seq<Record>): Recovery {
    Recovery(LatestCheckpoint(frames), LastSequence(frames), CommittedSequence(frames))
  }

  function After(observations: seq<Observation>, sequence: nat): seq<Observation> {
    if observations == [] then []
    else
      var last := observations[|observations| - 1];
      After(observations[..|observations| - 1], sequence) + (if last.sequence > sequence then [last] else [])
  }

  function ObservationsAfter(frames: seq<Record>, sequence: nat): seq<Observation> {
    After(Observations(frames), sequence)
  }

  /** The newest terminal observation's sequence. */
  function NewestTerminal(observations: seq<Observation>): (newest: Option<nat>)
    ensures newest.Some? ==> exists o <- observations :: o.terminal && o.sequence == newest.value
    ensures newest.None? <==> forall o <- observations :: !o.terminal
  {
    if observations == [] then None
    else if observations[|observations| - 1].terminal then Some(observations[|observations| - 1].sequence)
    else NewestTerminal(observations[..|observations| - 1])
  }

  /** Numbered 1, 2, 3, ... without gap or repeat. */
  ghost predicate Contiguous(observations: seq<Observation>) {
    forall i :: 0 <= i < |observations| ==> observations[i].sequence == i + 1
  }

  lemma ObservationsAppend(frames: seq<Record>, record: Record)
    ensures Observations(frames + [record]) ==
            Observations(frames) + (if record.ObservationRecord? then [record.observation] else [])
  {
    assert (frames + [record])[..|frames|] == frames;
  }

  lemma CommittedAppend(frames: seq<Record>, record: Record)
    ensures CommittedSequence(frames + [record]) ==
            Max(CommittedSequence(frames), match Vouched(record) case Some(n) => n case None => 0)
  {
    assert (frames + [record])[..|frames|] == frames;
  }

  /** A contiguous journal ends in the sequence number that equals its length. */
  lemma ContiguousLast(frames: seq<Record>)
    requires Contiguous(Observations(frames))
    ensures LastSequence(frames) == |Observations(frames)|
  {
    var all := Observations(frames);
    if all != [] {
      assert all[|all| - 1] in all;
    }
  }

  /** In a contiguous journal, the observations after n are the ones from position n on. */
  lemma {:induction false} ContiguousAfter(observations: seq<Observation>, sequence: nat)
    requires Contiguous(observations)
    ensures After(observations, sequence) ==
            if sequence <= |observations| then observations[sequence..] else []
  {
    if observations != [] {
      var earlier := observations[..|observations| - 1];
      ContiguousAfter(earlier, sequence);
      if sequence < |observations| {
        assert earlier[sequence..] + [observations[|observations| - 1]] == observations[sequence..];
      } else if sequence == |observations| {
        assert observations[sequence..] == [];
      }
    }
  }

  datatype JournalError = Finalized

  /**
    The journal object. `frames` is what has been durably written; `open` says whether the
    file is still held. An append is one atomic step: a failed append ends the process.
  */
  class RuntimeJournal {
    var frames: seq<Record>
    var open: bool

    constructor (recovered: seq<Record>)
      ensures frames == recovered && open
    {
      frames := recovered;
      open := true;
    }

    method Append(record: Record) returns (r: Result<(), JournalError>)
      modifies this
      ensures open == old(open)
      ensures r.Ok? <==> old(open)
      ensures frames == if old(open) then old(frames) + [record] else old(frames)
    {
      if !open {
        return Err(Finalized);
      }
      frames := frames + [record];
      return Ok(());
    }

    method AppendObservation(observation: Observation) returns (r: Result<(), JournalError>)
      modifies this
      ensures open == old(open) && (r.Ok? <==> old(open))
      ensures frames == if old(open) then old(frames) + [ObservationRecord(observation)] else old(frames)
      ensures Observations(frames) == Observations(old(frames)) + (if old(open) then [observation] else [])
      ensures CommittedSequence(frames) == CommittedSequence(old(frames))
    {
      ObservationsAppend(frames, ObservationRecord(observation));
      CommittedAppend(frames, ObservationRecord(observation));
      r := Append(ObservationRecord(observation));
    }

    method Acknowledge(committed: nat) returns (r: Result<(), JournalError>)
      modifies this
      ensures open == old(open) && (r.Ok? <==> old(open))
      ensures frames == if old(open) then old(frames) + [AcknowledgementRecord(committed)] else old(frames)
      ensures Observations(frames) == Observations(old(frames))
      ensures CommittedSequence(frames) ==
              if old(open) then Max(CommittedSequence(old(frames)), committed) else CommittedSequence(old(frames))
    {
      ObservationsAppend(frames, AcknowledgementRecord(committed));
      CommittedAppend(frames, AcknowledgementRecord(committed));
      r := Append(AcknowledgementRecord(committed));
    }

    method Finalize()
      modifies this
      ensures !open && frames == old(frames)
    {
      open := false;
    }
  }
}
