/**
  The controller's attachment loop (crates/controller/src/supervisor_rpc.rs) and the row
  update it derives from an observation (crates/controller/src/manager.rs).
*/
module SupervisorRpc {
  import opened Base
  import opened Storages
  import opened ControllerLinks
  import Replication

  predicate TerminalKind(kind: string) {
    kind in {"completed", "failed", "stopped", "cancelled", "outcome-unknown"}
  }

  /** What a progress observation writes to the row; None for the kinds that carry no progress. */
  function ProgressOf(w: Wire): (p: Option<ObservationUpdate>)
    ensures p.Some? ==> p.value.Progress? && !TerminalKind(w.facts.kind)
    ensures p.None? <==> TerminalKind(w.facts.kind) || w.facts.kind == "policy-applied" ||
                         !Replication.KnownKind(w.facts.kind)
  {
    var attempt, detail := w.facts.attempt, w.facts.detail;
    if w.facts.kind == "attempt-started" then Some(Progress("running", w.facts.processId, attempt, Some("")))
    else if w.facts.kind == "launch-failed" then Some(Progress("launch-failed", 0, attempt, Some(detail)))
    else if w.facts.kind == "attempt-exited" then
      Some(Progress("attempt-exited", 0, attempt, if detail == "" then None else Some(detail)))
    else if w.facts.kind == "supervisor-lost" then Some(Progress("supervisor-lost", 0, attempt, Some(detail)))
    else if w.facts.kind == "restart-backoff" then
      Some(Progress("restart-backoff", 0, attempt, if detail == "" then None else Some(detail)))
    else None
  }

  /** Only an adopted execution is terminalized here; a locally owned one is finished by its own task. */
  function UpdateOf(w: Wire, adopted: bool, now: int): (u: ObservationUpdate)
    ensures u.Terminal? <==> TerminalKind(w.facts.kind) && adopted
  {
    if TerminalKind(w.facts.kind) && adopted then
      Terminal(w.facts.kind, now, w.facts.exitCode, w.facts.detail, w.facts.attempt)
    else
      match ProgressOf(w)
      case Some(progress) => progress
      case None => Acknowledge
  }

  datatype Failure = UnknownKind(kind: string) | Refused(error: StorageError)

  /** The numbers that follow `welcomed` without gap or repeat, all of kinds the controller knows. */
  ghost predicate InOrder(inbound: seq<Wire>, welcomed: nat) {
    forall i :: 0 <= i < |inbound| ==>
                  && inbound[i].sequence == welcomed + 1 + i <= I64_MAX
                  && Replication.KnownKind(inbound[i].facts.kind)
  }

  /**
    Commits each observation and then acknowledges it, until one is refused. Whatever arrives,
    an acknowledged number is durable; and a stream that starts at or below the cursor and has
    no gap is committed and acknowledged to its end, however much of it was seen before.
  */
  method Serve(storage: Storage, id: string, inbound: seq<Wire>, adopted: bool, now: int, ghost welcomed: nat)
    returns (acknowledged: seq<nat>, failure: Option<Failure>)
    requires id in storage.executions
    modifies storage
    ensures storage.executions.Keys == old(storage.executions).Keys
    ensures forall e <- storage.executions :: e != id ==> storage.executions[e] == old(storage.executions)[e]
    ensures old(storage.executions)[id].committedSequence <= storage.executions[id].committedSequence
    ensures |acknowledged| <= |inbound|
    ensures forall i :: 0 <= i < |acknowledged| ==>
                          acknowledged[i] == inbound[i].sequence <= storage.executions[id].committedSequence
    ensures failure.None? ==> |acknowledged| == |inbound|
    ensures InOrder(inbound, welcomed) && welcomed <= old(storage.executions)[id].committedSequence ==>
              && failure.None?
              && storage.executions[id].committedSequence ==
                 Max(old(storage.executions)[id].committedSequence, welcomed + |inbound|)
  {
    acknowledged, failure := [], None;
    var n := 0;
    while n < |inbound|
      invariant 0 <= n <= |inbound| && |acknowledged| == n
      invariant storage.executions.Keys == old(storage.executions).Keys
      invariant forall e <- storage.executions :: e != id ==> storage.executions[e] == old(storage.executions)[e]
      invariant old(storage.executions)[id].committedSequence <= storage.executions[id].committedSequence
      invariant forall i :: 0 <= i < n ==>
                              acknowledged[i] == inbound[i].sequence <= storage.executions[id].committedSequence
      invariant InOrder(inbound, welcomed) && welcomed <= old(storage.executions)[id].committedSequence ==>
                  storage.executions[id].committedSequence ==
                  Max(old(storage.executions)[id].committedSequence, welcomed + n)
    {
      var message := inbound[n];
      if !Replication.KnownKind(message.facts.kind) {
        return acknowledged, Some(UnknownKind(message.facts.kind));
      }
      var r := storage.CommitObservation(id, message.sequence, UpdateOf(message, adopted, now));
      if r.Err? {
        return acknowledged, Some(Refused(r.error));
      }
      acknowledged := acknowledged + [message.sequence];
      n := n + 1;
    }
  }
}
