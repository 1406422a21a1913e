/**
  The lock-free, byte-bounded queue between the threads that log and the thread that writes
  (crates/diagnostics/src/lib.rs), as a transition system: every atomic load, compare-exchange,
  add, subtract and swap is a step of its own, and the steps of any number of producers and of
  the writer interleave freely.
*/
module DiagnosticQueues {
  import opened Base

  const QUEUE_BYTES: nat := 1024 * 1024
  const QUEUE_MESSAGES: nat := 4096

  /** Where a call of `submit` stands; `queued` is the value its loop last saw. */
  datatype Producer =
    | Idle
    | Entered(message: bytes)
    | Loaded(message: bytes, queued: nat)
    | Reserved(message: bytes)
    | Unsent(message: bytes)
    | Dropping

  /** Where the writer thread stands. */
  datatype Writer =
    | Waiting
    | Received(message: bytes)
    | Released
    | Swapped(drops: nat)
    | Writing
    | Checking
    | Draining
    | DrainReceived(message: bytes)
    | LastSwapped(drops: nat)
    | Gone

  /**
    What has happened: messages submitted, messages put into the channel, messages taken out of
    it, drops, drops reported in a record, and drops whose record could not be written.
  */
  datatype History = History(submitted: nat, sent: seq<bytes>, taken: seq<bytes>, drops: nat, reported: nat, lost: nat)

  /** The shared atomics, the channel and the threads, with the history. */
  datatype State = State(
    queuedBytes: nat, dropped: nat, shutdown: bool, channel: seq<bytes>, producers: seq<Producer>, writer: Writer,
    past: History)

  /** `spurious` is whether a weak compare-exchange fails without reason, `io` whether a write succeeds. */
  datatype Step =
    | Submit(producer: nat, message: bytes)
    | Produce(producer: nat, spurious: bool)
    | TimesOut(io: bool)
    | Write(io: bool)
    | ShutDown

  function Moved(s: State, p: nat, q: Producer): State
    requires p < |s.producers|
  {
    s.(producers := s.producers[p := q])
  }

  /** `submit` begins: empty messages and messages after shutdown are ignored. */
  function Submitted(s: State, p: nat, message: bytes): State
    requires p < |s.producers|
  {
    if !s.producers[p].Idle? || message == [] || s.shutdown then s
    else
      var q := if |message| > QUEUE_BYTES then Dropping else Entered(message);
      Moved(s, p, q).(past := s.past.(submitted := s.past.submitted + 1))
  }

  /** The next atomic operation of a call of `submit`. */
  function Produced(s: State, p: nat, spurious: bool): State
    requires p < |s.producers|
  {
    match s.producers[p]
    case Idle => s
    case Entered(message) => Moved(s, p, Loaded(message, s.queuedBytes))
    case Loaded(message, queued) =>
      if queued + |message| > QUEUE_BYTES then Moved(s, p, Dropping)
      else if s.queuedBytes == queued && !spurious then
        Moved(s, p, Reserved(message)).(queuedBytes := queued + |message|)
      else Moved(s, p, Loaded(message, s.queuedBytes))
    case Reserved(message) =>
      if |s.channel| < QUEUE_MESSAGES && !s.writer.Gone? then
        Moved(s, p, Idle).(channel := s.channel + [message], past := s.past.(sent := s.past.sent + [message]))
      else Moved(s, p, Unsent(message))
    case Unsent(message) => Moved(s, p, Dropping).(queuedBytes := Subtracted(s.queuedBytes, |message|))
    case Dropping => Moved(s, p, Idle).(dropped := s.dropped + 1, past := s.past.(drops := s.past.drops + 1))
  }

  /** An atomic subtraction, which would wrap around below zero. */
  function Subtracted(n: nat, amount: nat): nat {
    if amount <= n then n - amount else (n - amount) % (U64_MAX + 1)
  }

  function Took(s: State): History
    requires s.channel != []
  {
    s.past.(taken := s.past.taken + [s.channel[0]])
  }

  /** The next operation of the writer thread. The channel never disconnects: the writer's own queue holds a sender. */
  function Wrote(s: State, io: bool): State {
    match s.writer
    case Waiting =>
      if s.channel == [] then s
      else s.(writer := Received(s.channel[0]), channel := s.channel[1..], past := Took(s))
    case Received(message) => s.(writer := Released, queuedBytes := Subtracted(s.queuedBytes, |message|))
    case Released => s.(writer := Swapped(s.dropped), dropped := 0)
    case Swapped(drops) =>
      if drops == 0 then s.(writer := Writing)
      else if io then s.(writer := Writing, past := s.past.(reported := s.past.reported + drops))
      else s.(writer := Gone, past := s.past.(lost := s.past.lost + drops))
    case Writing => s.(writer := if io then Checking else Gone)
    case Checking => s.(writer := if s.shutdown then Draining else Waiting)
    case Draining =>
      if s.channel == [] then s.(writer := LastSwapped(s.dropped), dropped := 0)
      else s.(writer := DrainReceived(s.channel[0]), channel := s.channel[1..], past := Took(s))
    case DrainReceived(message) => s.(writer := Draining, queuedBytes := Subtracted(s.queuedBytes, |message|))
    case LastSwapped(drops) =>
      if io then s.(writer := Gone, past := s.past.(reported := s.past.reported + drops))
      else s.(writer := Gone, past := s.past.(lost := s.past.lost + drops))
    case Gone => s
  }

  function Next(s: State, step: Step): State {
    match step
    case Submit(p, message) => if p < |s.producers| then Submitted(s, p, message) else s
    case Produce(p, spurious) => if p < |s.producers| then Produced(s, p, spurious) else s
    case TimesOut(io) => if s.writer.Waiting? then s.(writer := if io then Checking else Gone) else s
    case Write(io) => Wrote(s, io)
    case ShutDown => s.(shutdown := true)
  }

  function Run(s: State, steps: seq<Step>): State {
    if steps == [] then s else Next(Run(s, steps[..|steps| - 1]), steps[|steps| - 1])
  }

  function Init(producers: nat): State {
    State(0, 0, false, [], seq(producers, _ => Idle), Waiting, History(0, [], [], 0, 0, 0))
  }

  // ---- Accounts ----

  function Bytes(messages: seq<bytes>): nat {
    if messages == [] then 0 else |messages[0]| + Bytes(messages[1..])
  }

  /** The bytes a producer has reserved and neither sent nor given back. */
  function Held(p: Producer): nat {
    match p
    case Reserved(message) => |message|
    case Unsent(message) => |message|
    case _ => 0
  }

  function AllHeld(producers: seq<Producer>): nat {
    if producers == [] then 0 else Held(producers[0]) + AllHeld(producers[1..])
  }

  /** One for a producer in the middle of `submit`. */
  function Busy(p: Producer): nat {
    match p case Idle => 0 case _ => 1
  }

  function InFlight(producers: seq<Producer>): nat {
    if producers == [] then 0 else Busy(producers[0]) + InFlight(producers[1..])
  }

  /** The bytes the writer has taken from the channel and not yet released. */
  function Unreleased(w: Writer): nat {
    match w
    case Received(message) => |message|
    case DrainReceived(message) => |message|
    case _ => 0
  }

  /** The drops the writer has taken from the counter and is about to report. */
  function Unreported(w: Writer): nat {
    match w
    case Swapped(drops) => drops
    case LastSwapped(drops) => drops
    case _ => 0
  }

  predicate BytesBalance(s: State) {
    match s
    case State(queuedBytes, _, _, channel, producers, writer, _) =>
      && queuedBytes == Bytes(channel) + AllHeld(producers) + Unreleased(writer)
      && queuedBytes <= QUEUE_BYTES
  }

  predicate DropsBalance(s: State) {
    match s
    case State(_, dropped, _, _, _, writer, past) =>
      && past.drops == dropped + past.reported + Unreported(writer) + past.lost
      && (past.lost > 0 ==> writer.Gone?)
  }

  predicate MessagesBalance(s: State) {
    match s
    case State(_, _, _, _, producers, _, past) =>
      past.submitted == |past.sent| + past.drops + InFlight(producers)
  }

  /** The channel holds what was sent and not yet taken. */
  predicate Ordered(s: State) {
    match s
    case State(_, _, _, channel, _, _, past) => past.sent == past.taken + channel && |channel| <= QUEUE_MESSAGES
  }

  predicate Inv(s: State) {
    BytesBalance(s) && DropsBalance(s) && MessagesBalance(s) && Ordered(s)
  }

  lemma {:induction false} HeldUpdate(producers: seq<Producer>, p: nat, q: Producer)
    requires p < |producers|
    ensures AllHeld(producers[p := q]) == AllHeld(producers) - Held(producers[p]) + Held(q)
    ensures InFlight(producers[p := q]) == InFlight(producers) - Busy(producers[p]) + Busy(q)
    ensures Held(producers[p]) <= AllHeld(producers)
  {
    if p == 0 {
      assert producers[p := q][1..] == producers[1..];
    } else {
      assert producers[p := q][1..] == producers[1..][p - 1 := q];
      HeldUpdate(producers[1..], p - 1, q);
    }
  }

  lemma {:induction false} BytesAppend(messages: seq<bytes>, message: bytes)
    ensures Bytes(messages + [message]) == Bytes(messages) + |message|
  {
    if messages == [] {
      assert (messages + [message])[1..] == [];
    } else {
      assert (messages + [message])[1..] == messages[1..] + [message];
      BytesAppend(messages[1..], message);
    }
  }

  /** A producer moves: what it holds, what it put into the channel and the counter change together. */
  lemma BytesMoved(s: State, t: State, p: nat)
    requires BytesBalance(s) && p < |s.producers| == |t.producers|
    requires t.producers == s.producers[p := t.producers[p]] && t.writer == s.writer
    requires t.queuedBytes + Bytes(s.channel) + Held(s.producers[p]) ==
            s.queuedBytes + Bytes(t.channel) + Held(t.producers[p])
    requires t.queuedBytes <= QUEUE_BYTES
    ensures BytesBalance(t)
  {
    HeldUpdate(s.producers, p, t.producers[p]);
  }

  lemma HeldWithin(s: State, p: nat)
    requires BytesBalance(s) && p < |s.producers|
    ensures Held(s.producers[p]) <= s.queuedBytes <= QUEUE_BYTES
  {
    HeldUpdate(s.producers, p, Idle);
  }

  lemma {:induction false} ProducedBytes(s: State, p: nat, spurious: bool)
    requires BytesBalance(s) && p < |s.producers|
    ensures BytesBalance(Produced(s, p, spurious))
  {
    HeldWithin(s, p);
    if s.producers[p].Reserved? {
      BytesAppend(s.channel, s.producers[p].message);
    }
    BytesMoved(s, Produced(s, p, spurious), p);
  }

  lemma ProducedDrops(s: State, p: nat, spurious: bool)
    requires DropsBalance(s) && p < |s.producers|
    ensures DropsBalance(Produced(s, p, spurious))
  {
  }

  lemma MessagesMoved(s: State, t: State, p: nat)
    requires MessagesBalance(s) && p < |s.producers| == |t.producers|
    requires t.producers == s.producers[p := t.producers[p]] && t.past.submitted == s.past.submitted
    requires |t.past.sent| + t.past.drops + Busy(t.producers[p]) == |s.past.sent| + s.past.drops + Busy(s.producers[p])
    ensures MessagesBalance(t)
  {
    HeldUpdate(s.producers, p, t.producers[p]);
  }

  lemma {:induction false} ProducedMessages(s: State, p: nat, spurious: bool)
    requires MessagesBalance(s) && p < |s.producers|
    ensures MessagesBalance(Produced(s, p, spurious))
  {
    MessagesMoved(s, Produced(s, p, spurious), p);
  }

  lemma ProducedOrders(s: State, p: nat, spurious: bool)
    requires Ordered(s) && p < |s.producers|
    ensures Ordered(Produced(s, p, spurious))
  {
    if s.producers[p].Reserved? {
      assert s.past.sent + [s.producers[p].message] == s.past.taken + (s.channel + [s.producers[p].message]);
    }
  }

  lemma BytesTaken(s: State, t: State)
    requires BytesBalance(s) && t.producers == s.producers && t.queuedBytes <= s.queuedBytes
    requires t.queuedBytes + Bytes(s.channel) + Unreleased(s.writer) ==
            s.queuedBytes + Bytes(t.channel) + Unreleased(t.writer)
    ensures BytesBalance(t)
  {
  }

  lemma UnreleasedWithin(s: State)
    requires BytesBalance(s)
    ensures Unreleased(s.writer) <= s.queuedBytes
  {
  }

  lemma ReleasedBytes(s: State, io: bool)
    requires BytesBalance(s) && (s.writer.Received? || s.writer.DrainReceived?)
    ensures BytesBalance(Wrote(s, io))
  {
    UnreleasedWithin(s);
  }

  lemma WroteBytes(s: State, io: bool)
    requires BytesBalance(s)
    ensures BytesBalance(Wrote(s, io))
  {
    if s.writer.Received? || s.writer.DrainReceived? {
      ReleasedBytes(s, io);
    } else {
      BytesTaken(s, Wrote(s, io));
    }
  }

  lemma WroteDrops(s: State, io: bool)
    requires DropsBalance(s)
    ensures DropsBalance(Wrote(s, io))
  {
  }

  lemma WroteMessages(s: State, io: bool)
    requires MessagesBalance(s)
    ensures MessagesBalance(Wrote(s, io))
  {
  }

  lemma WroteOrders(s: State, io: bool)
    requires Ordered(s)
    ensures Ordered(Wrote(s, io))
  {
    if s.channel != [] {
      assert s.past.sent == s.past.taken + [s.channel[0]] + s.channel[1..];
    }
  }

  lemma {:induction false} NextKeeps(s: State, step: Step)
    requires Inv(s)
    ensures Inv(Next(s, step))
  {
    match step {
      case Submit(p, message) =>
        if p < |s.producers| {
          HeldUpdate(s.producers, p, if |message| > QUEUE_BYTES then Dropping else Entered(message));
        }
      case Produce(p, spurious) =>
        if p < |s.producers| {
          ProducedBytes(s, p, spurious);
          ProducedDrops(s, p, spurious);
          ProducedMessages(s, p, spurious);
          ProducedOrders(s, p, spurious);
        }
      case Write(io) =>
        WroteBytes(s, io);
        WroteDrops(s, io);
        WroteMessages(s, io);
        WroteOrders(s, io);
      case _ =>
    }
  }

  lemma {:induction false} InitKeeps(producers: nat)
    ensures Inv(Init(producers))
  {
    AllIdle(Init(producers).producers);
  }

  lemma {:induction false} AllIdle(producers: seq<Producer>)
    requires forall i :: 0 <= i < |producers| ==> producers[i].Idle?
    ensures AllHeld(producers) == 0 && InFlight(producers) == 0
  {
    if producers != [] {
      AllIdle(producers[1..]);
    }
  }

  lemma {:induction false} RunKeeps(producers: nat, steps: seq<Step>)
    ensures Inv(Run(Init(producers), steps))
  {
    if steps == [] {
      InitKeeps(producers);
    } else {
      RunKeeps(producers, steps[..|steps| - 1]);
      NextKeeps(Run(Init(producers), steps[..|steps| - 1]), steps[|steps| - 1]);
    }
  }

  // ---- Theorems ----

  /**
    In every interleaving, the counter is exactly the bytes in the channel, reserved by producers
    or received and not yet released; it never exceeds 1 MiB, and no subtraction underflows.
  */
  lemma {:induction false} BytesConserved(producers: nat, steps: seq<Step>)
    ensures var s := Run(Init(producers), steps);
            && s.queuedBytes == Bytes(s.channel) + AllHeld(s.producers) + Unreleased(s.writer)
            && s.queuedBytes <= QUEUE_BYTES
            && |s.channel| <= QUEUE_MESSAGES
            && (forall p :: 0 <= p < |s.producers| ==> Held(s.producers[p]) <= s.queuedBytes)
            && Unreleased(s.writer) <= s.queuedBytes
  {
    RunKeeps(producers, steps);
    var s := Run(Init(producers), steps);
    forall p | 0 <= p < |s.producers| ensures Held(s.producers[p]) <= s.queuedBytes {
      HeldUpdate(s.producers, p, Idle);
    }
  }

  /**
    Every drop is in the counter, in the writer's hands, or reported; only a failed write, which
    ends the writer, can lose the report. Every message that was not ignored was sent, was
    dropped, or is still being submitted.
  */
  lemma {:induction false} DropsConserved(producers: nat, steps: seq<Step>)
    ensures var s := Run(Init(producers), steps);
            && s.past.drops == s.dropped + s.past.reported + Unreported(s.writer) + s.past.lost
            && (s.past.lost > 0 ==> s.writer.Gone?)
            && s.past.submitted == |s.past.sent| + s.past.drops + InFlight(s.producers)
  {
    RunKeeps(producers, steps);
  }

  /** The writer takes the messages that were sent, each once, in the order they were sent. */
  lemma {:induction false} TakenInOrder(producers: nat, steps: seq<Step>)
    ensures var s := Run(Init(producers), steps);
            s.past.taken <= s.past.sent && s.past.sent == s.past.taken + s.channel
  {
    RunKeeps(producers, steps);
  }

  /**
    When nobody is in the middle of anything, the counter is the channel's content, and every
    drop is counted or reported.
  */
  lemma {:induction false} AtRest(producers: nat, steps: seq<Step>)
    ensures var s := Run(Init(producers), steps);
            s.writer.Waiting? && (forall p :: 0 <= p < |s.producers| ==> s.producers[p].Idle?) ==>
              && s.queuedBytes == Bytes(s.channel)
              && s.past.drops == s.dropped + s.past.reported
              && s.past.submitted == |s.past.sent| + s.past.drops
  {
    RunKeeps(producers, steps);
    var s := Run(Init(producers), steps);
    if forall p :: 0 <= p < |s.producers| ==> s.producers[p].Idle? {
      AllIdle(s.producers);
    }
  }
}
