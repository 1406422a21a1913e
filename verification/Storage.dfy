/**
  The controller's durable rows and the transactions on them (crates/controller/src/storage.rs).
  A SQLite transaction is one atomic step: it commits whole or changes nothing.
*/
module Storages {
  import opened Base

  /** SQLite stores the cursor in a signed 64-bit column. */
  type cursor = n: nat | n <= I64_MAX

  datatype StorageError =
    | InvalidInteger
    | NoRow
    | Constraint
    | ObservationOutOfOrder(expected: nat, actual: nat)

  datatype ExecutionRow = ExecutionRow(
    workloadId: string, state: string, supervisorProcessId: u32, workloadProcessId: u32, attempt: u32,
    startedUnixMs: int, endedUnixMs: int, exitCode: Option<u32>, error: string, committedSequence: cursor)

  datatype WorkloadRow = WorkloadRow(kind: string, enabled: bool, lastTriggeredSession: string, lastOutcome: string)

  datatype ObservationUpdate =
    | Acknowledge
    | Progress(state: string, workloadProcessId: u32, attempt: u32, newError: Option<string>)
    | Terminal(state: string, endedUnixMs: int, exitCode: Option<u32>, error: string, attempt: u32)

  /**
    What a transaction does with observation `sequence` against a cursor: Ok(true) applies it,
    Ok(false) is a duplicate that is acknowledged without being applied.
  */
  function Decide(committed: cursor, sequence: nat): (r: Result<bool, StorageError>)
    ensures r == Ok(true) <==> sequence == committed + 1 && sequence <= I64_MAX
    ensures r == Ok(false) <==> sequence <= committed
    ensures r.Err? && r.error.ObservationOutOfOrder? <==> committed + 1 < sequence <= I64_MAX
  {
    if sequence > I64_MAX then Err(InvalidInteger)
    else if sequence <= committed then Ok(false)
    else if sequence != committed + 1 then Err(ObservationOutOfOrder(committed + 1, sequence))
    else Ok(true)
  }

  function Updated(row: ExecutionRow, update: ObservationUpdate, sequence: cursor): ExecutionRow {
    match update
    case Acknowledge => row.(committedSequence := sequence)
    case Progress(state, processId, attempt, error) =>
      row.(state := state, workloadProcessId := processId, attempt := attempt,
           error := if error.Some? then error.value else row.error, committedSequence := sequence)
    case Terminal(state, ended, exitCode, error, attempt) =>
      row.(state := state, workloadProcessId := 0, attempt := attempt, endedUnixMs := ended,
           exitCode := exitCode, error := error, committedSequence := sequence)
  }

  /** `UPDATE workloads SET last_outcome`: no row, no change. */
  function WithOutcome(workloads: map<string, WorkloadRow>, id: string, outcome: string): map<string, WorkloadRow> {
    if id in workloads then workloads[id := workloads[id].(lastOutcome := outcome)] else workloads
  }

  predicate Claims(workloads: map<string, WorkloadRow>, id: string, session: string) {
    && id in workloads
    && workloads[id].kind == "job"
    && workloads[id].enabled
    && workloads[id].lastTriggeredSession != session
  }

  class Storage {
    var executions: map<string, ExecutionRow>
    var workloads: map<string, WorkloadRow>

    constructor (workloads: map<string, WorkloadRow>)
      ensures this.workloads == workloads && executions == map[]
    {
      this.workloads := workloads;
      executions := map[];
    }

    method CommitObservation(id: string, sequence: nat, update: ObservationUpdate)
      returns (r: Result<bool, StorageError>)
      modifies this
      ensures id in old(executions) ==> r == Decide(old(executions)[id].committedSequence, sequence)
      ensures id !in old(executions) ==> r == Err(if sequence > I64_MAX then InvalidInteger else NoRow)
      ensures r != Ok(true) ==> executions == old(executions) && workloads == old(workloads)
      ensures r == Ok(true) ==>
                && executions == old(executions)[id := Updated(old(executions)[id], update, sequence)]
                && workloads == if update.Terminal?
                                then WithOutcome(old(workloads), old(executions)[id].workloadId, update.state)
                                else old(workloads)
    {
      if sequence > I64_MAX {
        return Err(InvalidInteger);
      }
      if id !in executions {
        return Err(NoRow);
      }
      var row := executions[id];
      if sequence <= row.committedSequence {
        return Ok(false);
      }
      var expected := row.committedSequence + 1;
      if sequence != expected {
        return Err(ObservationOutOfOrder(expected, sequence));
      }
      match update {
        case Acknowledge =>
          executions := executions[id := row.(committedSequence := sequence)];
        case Progress(state, processId, attempt, error) =>
          var message := if error.Some? then error.value else row.error;
          executions := executions[id := row.(state := state, workloadProcessId := processId, attempt := attempt,
                                              error := message, committedSequence := sequence)];
        case Terminal(state, ended, exitCode, error, attempt) =>
          executions := executions[id := row.(state := state, workloadProcessId := 0, attempt := attempt,
                                              endedUnixMs := ended, exitCode := exitCode, error := error,
                                              committedSequence := sequence)];
          workloads := WithOutcome(workloads, row.workloadId, state);
      }
      return Ok(true);
    }

    /** Creates a job's automatic execution and records its session in one transaction. */
    method InsertEnabledJobExecution(id: string, row: ExecutionRow, session: string)
      returns (r: Result<bool, StorageError>)
      modifies this
      ensures !Claims(old(workloads), row.workloadId, session) ==> r == Ok(false)
      ensures Claims(old(workloads), row.workloadId, session) ==>
                r == if id in old(executions) then Err(Constraint) else Ok(true)
      ensures r != Ok(true) ==> executions == old(executions) && workloads == old(workloads)
      ensures r == Ok(true) ==>
                && executions == old(executions)[id := Inserted(row)]
                && workloads == old(workloads)[row.workloadId :=
                                               old(workloads)[row.workloadId].(lastTriggeredSession := session)]
    {
      if !Claims(workloads, row.workloadId, session) {
        return Ok(false);
      }
      if id in executions {
        return Err(Constraint);
      }
      workloads := workloads[row.workloadId := workloads[row.workloadId].(lastTriggeredSession := session)];
      executions := executions[id := Inserted(row)];
      return Ok(true);
    }

    /** Terminalizes an execution whatever its cursor is; the cursor itself is kept. */
    method FinishExecution(id: string, finished: ExecutionRow)
      modifies this
      ensures workloads == WithOutcome(old(workloads), finished.workloadId, finished.state)
      ensures executions == if id in old(executions)
                            then old(executions)[id := Finished(old(executions)[id], finished)]
                            else old(executions)
      ensures forall e <- old(executions) ::
                e in executions && executions[e].committedSequence == old(executions)[e].committedSequence
    {
      if id in executions {
        executions := executions[id := Finished(executions[id], finished)];
      }
      workloads := WithOutcome(workloads, finished.workloadId, finished.state);
    }
  }

  /** The columns an INSERT names; the others take their defaults. */
  function Inserted(row: ExecutionRow): ExecutionRow {
    row.(endedUnixMs := 0, exitCode := None, error := "", committedSequence := 0)
  }

  function Finished(row: ExecutionRow, finished: ExecutionRow): ExecutionRow {
    row.(state := finished.state, supervisorProcessId := finished.supervisorProcessId,
         workloadProcessId := finished.workloadProcessId, attempt := finished.attempt,
         endedUnixMs := finished.endedUnixMs, exitCode := finished.exitCode, error := finished.error)
  }

  // ---- Any delivery order ----

  datatype Delivery = Delivery(committed: cursor, applied: seq<nat>)

  /** Offers observations to the cursor one transaction at a time, keeping the applied numbers. */
  function Deliver(committed: cursor, offered: seq<nat>): Delivery {
    if offered == [] then Delivery(committed, [])
    else
      var earlier := Deliver(committed, offered[..|offered| - 1]);
      var n := offered[|offered| - 1];
      if Decide(earlier.committed, n) == Ok(true) then Delivery(n, earlier.applied + [n]) else earlier
  }

  /**
    Whatever is offered, with duplicates, gaps and reordering, exactly the numbers
    committed+1, committed+2, ... up to the new cursor are applied, each once and in order.
  */
  lemma {:induction false} DeliverAppliesConsecutively(committed: cursor, offered: seq<nat>)
    ensures var d := Deliver(committed, offered);
            && d.committed == committed + |d.applied|
            && (forall i :: 0 <= i < |d.applied| ==> d.applied[i] == committed + 1 + i && d.applied[i] in offered)
  {
    if offered != [] {
      DeliverAppliesConsecutively(committed, offered[..|offered| - 1]);
    }
  }

  /** An offer that contains every number of a range, in any company, as a subsequence, gets through the range. */
  lemma {:induction false} DeliverReaches(committed: cursor, offered: seq<nat>, target: nat, at: seq<nat>)
    requires committed <= target <= I64_MAX && |at| == target - committed
    requires forall i :: 0 <= i < |at| ==> at[i] < |offered| && offered[at[i]] == committed + 1 + i
    requires forall i, j :: 0 <= i < j < |at| ==> at[i] < at[j]
    ensures Deliver(committed, offered).committed >= target
  {
    if at == [] {
      DeliverAppliesConsecutively(committed, offered);
    } else {
      assert at[|at| - 1] < |offered|;
      var earlier := offered[..|offered| - 1];
      if at[|at| - 1] == |offered| - 1 {
        DeliverReaches(committed, earlier, target - 1, at[..|at| - 1]);
      } else {
        DeliverReaches(committed, earlier, target, at);
      }
    }
  }

  // ---- One automatic execution per job and session ----

  datatype Trigger = Trigger(id: string, row: ExecutionRow)

  /** The executions that a list of automatic starts in one session inserts, and the workloads after it. */
  function Triggered(workloads: map<string, WorkloadRow>, executions: set<string>, session: string,
                     triggers: seq<Trigger>): (map<string, WorkloadRow>, seq<Trigger>)
  {
    if triggers == [] then (workloads, [])
    else
      var (before, inserted) := Triggered(workloads, executions, session, triggers[..|triggers| - 1]);
      var t := triggers[|triggers| - 1];
      if Claims(before, t.row.workloadId, session) && t.id !in executions &&
         forall i <- inserted :: i.id != t.id then
        (before[t.row.workloadId := before[t.row.workloadId].(lastTriggeredSession := session)], inserted + [t])
      else (before, inserted)
  }

  predicate Started(inserted: seq<Trigger>, workloadId: string) {
    exists i :: 0 <= i < |inserted| && inserted[i].row.workloadId == workloadId
  }

  /** Exactly the workloads of the inserted executions have the session recorded. */
  ghost predicate SessionRecorded(workloads: map<string, WorkloadRow>, after: map<string, WorkloadRow>,
                                  inserted: seq<Trigger>, session: string) {
    && after.Keys == workloads.Keys
    && forall w <- workloads ::
         after[w] == if Started(inserted, w) then workloads[w].(lastTriggeredSession := session) else workloads[w]
  }

  predicate OneEach(workloads: map<string, WorkloadRow>, inserted: seq<Trigger>, session: string) {
    && (forall i :: 0 <= i < |inserted| ==> Claims(workloads, inserted[i].row.workloadId, session))
    && (forall i, j :: 0 <= i < j < |inserted| ==> inserted[i].row.workloadId != inserted[j].row.workloadId)
  }

  lemma StartedMore(inserted: seq<Trigger>, t: Trigger, w: string)
    ensures Started(inserted + [t], w) <==> Started(inserted, w) || t.row.workloadId == w
  {
    var all := inserted + [t];
    assert all[|inserted|] == t;
    if Started(inserted, w) {
      var i :| 0 <= i < |inserted| && inserted[i].row.workloadId == w;
      assert all[i] == inserted[i];
    }
  }

  lemma OneMoreTrigger(workloads: map<string, WorkloadRow>, before: map<string, WorkloadRow>, inserted: seq<Trigger>,
                       t: Trigger, session: string)
    requires SessionRecorded(workloads, before, inserted, session) && OneEach(workloads, inserted, session)
    requires Claims(before, t.row.workloadId, session)
    ensures SessionRecorded(workloads, before[t.row.workloadId :=
                                              before[t.row.workloadId].(lastTriggeredSession := session)],
                            inserted + [t], session)
    ensures OneEach(workloads, inserted + [t], session)
  {
    var id := t.row.workloadId;
    assert !Started(inserted, id);
    forall w | w in workloads ensures Started(inserted + [t], w) <==> Started(inserted, w) || id == w {
      StartedMore(inserted, t, w);
    }
  }

  /** In one manager session each enabled job gets at most one automatic execution, and only an enabled job does. */
  lemma {:induction false} OneExecutionPerSession(workloads: map<string, WorkloadRow>, executions: set<string>,
                                                  session: string, triggers: seq<Trigger>)
    ensures var (after, inserted) := Triggered(workloads, executions, session, triggers);
            SessionRecorded(workloads, after, inserted, session) && OneEach(workloads, inserted, session)
  {
    if triggers != [] {
      var earlier, t := triggers[..|triggers| - 1], triggers[|triggers| - 1];
      OneExecutionPerSession(workloads, executions, session, earlier);
      var (before, already) := Triggered(workloads, executions, session, earlier);
      if Claims(before, t.row.workloadId, session) {
        OneMoreTrigger(workloads, before, already, t, session);
      }
    }
  }
}
