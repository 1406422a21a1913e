/**
  The runtime journal as bytes on disk (crates/supervisor/src/journal.rs). Protobuf and CRC-32C
  are uninterpreted functions: a message decodes to what was encoded, and nothing is assumed of
  the checksum.
*/
module RuntimeFrames {
  import opened Base
  import opened Endian
  import opened Restart
  import J = RuntimeJournals

  const MAX_RUNTIME_FRAME_BYTES: nat := 4 * 1024 * 1024

  datatype RuntimeFrame = RuntimeFrame(format: u32, record: Option<J.Record>)

  datatype Codec = Codec(encode: RuntimeFrame -> bytes, decode: bytes -> Option<RuntimeFrame>, crc32c: bytes -> u32)

  ghost predicate Lawful(c: Codec) {
    forall f: RuntimeFrame :: c.decode(c.encode(f)) == Some(f)
  }

  datatype FrameError = FrameTooLarge | ChecksumMismatch | Undecodable | Unsupported | Finalized

  /** One payload as it is appended. */
  function Framed(c: Codec, payload: bytes): bytes
    requires |payload| <= MAX_RUNTIME_FRAME_BYTES
  {
    U32(|payload|) + payload + U32(c.crc32c(payload))
  }

  predicate Supported(f: RuntimeFrame) {
    f.format == 1 && f.record.Some?
  }

  predicate Appendable(c: Codec, f: RuntimeFrame) {
    Supported(f) && |c.encode(f)| <= MAX_RUNTIME_FRAME_BYTES
  }

  predicate AllAppendable(c: Codec, frames: seq<RuntimeFrame>) {
    forall i :: 0 <= i < |frames| ==> Appendable(c, frames[i])
  }

  function Encoded(c: Codec, frames: seq<RuntimeFrame>): bytes
    requires AllAppendable(c, frames)
  {
    if frames == [] then [] else Framed(c, c.encode(frames[0])) + Encoded(c, frames[1..])
  }

  // ---- Reading ----

  /** What is at the beginning of some bytes. */
  datatype Head = Incomplete | Complete(payload: bytes, checksum: nat, rest: bytes) | Oversized

  function HeadOf(s: bytes): (h: Head)
    ensures h.Complete? ==> |h.rest| < |s|
  {
    if |s| < 4 then Incomplete
    else
      var length := FromLe(s[..4]);
      if length > MAX_RUNTIME_FRAME_BYTES then Oversized
      else if 4 + length + 4 > |s| then Incomplete
      else Complete(s[4..4 + length], FromLe(s[4 + length..4 + length + 4]), s[4 + length + 4..])
  }

  function FrameOf(c: Codec, payload: bytes, checksum: nat): Result<RuntimeFrame, FrameError> {
    if c.crc32c(payload) != checksum then Err(ChecksumMismatch)
    else
      match c.decode(payload)
      case None => Err(Undecodable)
      case Some(frame) => if Supported(frame) then Ok(frame) else Err(Unsupported)
  }

  type Frames = Result<seq<RuntimeFrame>, FrameError>

  function Preceded(frames: seq<RuntimeFrame>, r: Frames): Frames {
    match r case Ok(later) => Ok(frames + later) case Err(e) => Err(e)
  }

  /** What reading a file gives: an incomplete frame at the end is ignored, anything else that is wrong is an error. */
  function Read(c: Codec, s: bytes): Frames
    decreases |s|
  {
    match HeadOf(s)
    case Incomplete => Ok([])
    case Oversized => Err(FrameTooLarge)
    case Complete(payload, checksum, rest) =>
      match FrameOf(c, payload, checksum)
      case Err(e) => Err(e)
      case Ok(frame) => Preceded([frame], Read(c, rest))
  }

  /** `content` is None when the file does not exist. Offsets stay far below the width of usize. */
  method ReadRuntimeFrames(c: Codec, content: Option<bytes>) returns (r: Frames)
    ensures r == if content.None? then Ok([]) else Read(c, content.value)
  {
    if content.None? {
      return Ok([]);
    }
    var s := content.value;
    var frames := [];
    var offset := 0;
    PrecededByNone(Read(c, s));
    assert s[0..] == s;
    while |s| - offset >= 4
      invariant offset <= |s|
      invariant Read(c, s) == Preceded(frames, Read(c, s[offset..]))
    {
      var length := FromLe(s[offset..offset + 4]);
      ghost var here := s[offset..];
      SliceAfter(s, offset, 0, 4);
      assert here[..4] == here[0..4];
      if length > MAX_RUNTIME_FRAME_BYTES {
        return Err(FrameTooLarge);
      }
      var payloadStart := offset + 4;
      var checksumStart := payloadStart + length;
      var frameEnd := checksumStart + 4;
      if frameEnd > |s| {
        break;
      }
      var payload := s[payloadStart..checksumStart];
      var expected := FromLe(s[checksumStart..frameEnd]);
      assert HeadOf(here) == Complete(payload, expected, s[frameEnd..]) by {
        SliceAfter(s, offset, 4, 4 + length);
        SliceAfter(s, offset, 4 + length, 4 + length + 4);
        assert here[4 + length + 4..] == s[frameEnd..];
      }
      if c.crc32c(payload) != expected {
        return Err(ChecksumMismatch);
      }
      var decoded := c.decode(payload);
      if decoded.None? {
        return Err(Undecodable);
      }
      var frame := decoded.value;
      if frame.format != 1 || frame.record.None? {
        return Err(Unsupported);
      }
      PrecededTwice(frames, [frame], Read(c, s[frameEnd..]));
      frames := frames + [frame];
      offset := frameEnd;
    }
    assert frames + [] == frames;
    return Ok(frames);
  }

  lemma SliceAfter(s: bytes, offset: nat, lo: nat, hi: nat)
    requires lo <= hi && offset + hi <= |s|
    ensures s[offset..][lo..hi] == s[offset + lo..offset + hi]
  {
  }

  lemma PrecededByNone(r: Frames)
    ensures Preceded([], r) == r
  {
    if r.Ok? {
      assert [] + r.value == r.value;
    }
  }

  lemma PrecededTwice(a: seq<RuntimeFrame>, b: seq<RuntimeFrame>, r: Frames)
    ensures Preceded(a, Preceded(b, r)) == Preceded(a + b, r)
  {
    if r.Ok? {
      assert a + (b + r.value) == a + b + r.value;
    }
  }

  // ---- Writing ----

  /** The open journal: its bytes, the frames it holds in memory, and whether it was finalized. */
  class JournalFile {
    var content: bytes
    var frames: seq<RuntimeFrame>
    var finalized: bool

    constructor (content: bytes, frames: seq<RuntimeFrame>)
      ensures this.content == content && this.frames == frames && !finalized
    {
      this.content, this.frames, finalized := content, frames, false;
    }

    method Append(c: Codec, frame: RuntimeFrame) returns (r: Result<(), FrameError>)
      modifies this
      ensures r == if |c.encode(frame)| > MAX_RUNTIME_FRAME_BYTES then Err(FrameTooLarge)
                   else if old(finalized) then Err(Finalized) else Ok(())
      ensures r.Err? ==> content == old(content) && frames == old(frames) && finalized == old(finalized)
      ensures r.Ok? ==>
                && content == old(content) + Framed(c, c.encode(frame))
                && frames == old(frames) + [frame] && !finalized
    {
      var payload := c.encode(frame);
      if |payload| > MAX_RUNTIME_FRAME_BYTES {
        return Err(FrameTooLarge);
      }
      if finalized {
        return Err(Finalized);
      }
      content := content + U32(|payload|);
      content := content + payload;
      content := content + U32(c.crc32c(payload));
      Regroup(old(content), U32(|payload|), payload, U32(c.crc32c(payload)));
      frames := frames + [frame];
      return Ok(());
    }
  }

  lemma Regroup(a: bytes, b: bytes, c: bytes, d: bytes)
    ensures a + b + c + d == a + (b + c + d) && a + (b + c + d) == a + b + (c + d)
    ensures a + b + c == a + (b + c)
  {
  }

  // ---- What was appended is read back ----

  lemma HeadOfFramed(c: Codec, payload: bytes, rest: bytes)
    requires |payload| <= MAX_RUNTIME_FRAME_BYTES
    ensures HeadOf(Framed(c, payload) + rest) == Complete(payload, c.crc32c(payload), rest)
  {
    Widths();
    LeRoundTrip(|payload|, 4);
    LeRoundTrip(c.crc32c(payload), 4);
    var s := Framed(c, payload) + rest;
    var n := |payload|;
    assert s[..4] == U32(n);
    assert s[4..4 + n] == payload;
    assert s[4 + n..4 + n + 4] == U32(c.crc32c(payload));
    assert s[4 + n + 4..] == rest;
  }

  /** A strict prefix of a frame is incomplete. */
  lemma HeadOfTorn(c: Codec, payload: bytes, n: nat)
    requires |payload| <= MAX_RUNTIME_FRAME_BYTES && n < |Framed(c, payload)|
    ensures HeadOf(Framed(c, payload)[..n]) == Incomplete
  {
    Widths();
    LeRoundTrip(|payload|, 4);
    if n >= 4 {
      assert Framed(c, payload)[..n][..4] == U32(|payload|);
    }
  }

  /** How many of the frames lie wholly within the first `n` bytes. */
  function Whole(c: Codec, frames: seq<RuntimeFrame>, n: nat): nat
    requires AllAppendable(c, frames)
  {
    if frames == [] || n < |Framed(c, c.encode(frames[0]))| then 0
    else 1 + Whole(c, frames[1..], n - |Framed(c, c.encode(frames[0]))|)
  }

  lemma {:induction false} WholeIsWhole(c: Codec, frames: seq<RuntimeFrame>, n: nat)
    requires AllAppendable(c, frames)
    ensures var k := Whole(c, frames, n);
            && k <= |frames|
            && |Encoded(c, frames[..k])| <= n
            && (k < |frames| ==> n < |Encoded(c, frames[..k + 1])|)
  {
    if frames != [] && n >= |Framed(c, c.encode(frames[0]))| {
      WholeIsWhole(c, frames[1..], n - |Framed(c, c.encode(frames[0]))|);
      var k := Whole(c, frames, n);
      assert frames[..k][1..] == frames[1..][..k - 1];
      if k < |frames| {
        assert frames[..k + 1][1..] == frames[1..][..k];
      }
    } else if frames != [] {
      assert frames[..1][1..] == [];
    }
  }

  lemma ReadFrame(c: Codec, frame: RuntimeFrame, rest: bytes)
    requires Lawful(c) && Appendable(c, frame)
    ensures Read(c, Framed(c, c.encode(frame)) + rest) == Preceded([frame], Read(c, rest))
  {
    HeadOfFramed(c, c.encode(frame), rest);
  }

  /** Cutting the concatenation of two parts. */
  lemma CutJoined(a: bytes, b: bytes, n: nat)
    requires n <= |a + b|
    ensures (a + b)[..n] == if n < |a| then a[..n] else a + b[..n - |a|]
  {
  }

  lemma FramesJoin(frames: seq<RuntimeFrame>, k: nat)
    requires 0 < k <= |frames|
    ensures [frames[0]] + frames[1..][..k - 1] == frames[..k]
  {
  }

  /** Reading a cut behind the first frame, given what the cut of the later frames gives. */
  lemma FirstThenCut(c: Codec, frames: seq<RuntimeFrame>, cut: bytes, k: nat)
    requires Lawful(c) && AllAppendable(c, frames) && k < |frames| && Read(c, cut) == Ok(frames[1..][..k])
    ensures Read(c, Framed(c, c.encode(frames[0])) + cut) == Ok(frames[..k + 1])
  {
    ReadFrame(c, frames[0], cut);
    FramesJoin(frames, k + 1);
  }

  /** Reading any beginning of a journal's bytes gives exactly the frames that lie wholly within it. */
  lemma {:induction false} PrefixRecovered(c: Codec, frames: seq<RuntimeFrame>, n: nat)
    requires Lawful(c) && AllAppendable(c, frames) && n <= |Encoded(c, frames)|
    ensures Whole(c, frames, n) <= |frames|
    ensures Read(c, Encoded(c, frames)[..n]) == Ok(frames[..Whole(c, frames, n)])
  {
    WholeIsWhole(c, frames, n);
    if frames != [] {
      var first, later := Framed(c, c.encode(frames[0])), Encoded(c, frames[1..]);
      CutJoined(first, later, n);
      if n < |first| {
        HeadOfTorn(c, c.encode(frames[0]), n);
      } else {
        PrefixRecovered(c, frames[1..], n - |first|);
        FirstThenCut(c, frames, later[..n - |first|], Whole(c, frames[1..], n - |first|));
      }
    }
  }

  // ---- What is read was appended ----

  /** The payloads of the complete frames at the beginning of some bytes, and the bytes after them. */
  function Payloads(s: bytes): (seq<bytes>, bytes)
    decreases |s|
  {
    var h := HeadOf(s);
    if h.Complete? then ([h.payload] + Payloads(h.rest).0, Payloads(h.rest).1) else ([], s)
  }

  function AllFramed(c: Codec, payloads: seq<bytes>): bytes
    requires forall p :: p in payloads ==> |p| <= MAX_RUNTIME_FRAME_BYTES
  {
    if payloads == [] then [] else Framed(c, payloads[0]) + AllFramed(c, payloads[1..])
  }

  lemma CompleteIsFramed(c: Codec, s: bytes)
    requires HeadOf(s).Complete? && c.crc32c(HeadOf(s).payload) == HeadOf(s).checksum
    ensures |HeadOf(s).payload| <= MAX_RUNTIME_FRAME_BYTES
    ensures s == Framed(c, HeadOf(s).payload) + HeadOf(s).rest
  {
    var n := FromLe(s[..4]);
    FromLeRoundTrip(s[..4]);
    FromLeRoundTrip(s[4 + n..4 + n + 4]);
    assert s == s[..4] + s[4..4 + n] + s[4 + n..4 + n + 4] + s[4 + n + 4..];
  }

  lemma FramedThen(c: Codec, payloads: seq<bytes>, payload: bytes, tail: bytes)
    requires |payload| <= MAX_RUNTIME_FRAME_BYTES && forall p :: p in payloads ==> |p| <= MAX_RUNTIME_FRAME_BYTES
    ensures forall p :: p in [payload] + payloads ==> |p| <= MAX_RUNTIME_FRAME_BYTES
    ensures AllFramed(c, [payload] + payloads) + tail == Framed(c, payload) + (AllFramed(c, payloads) + tail)
  {
    assert ([payload] + payloads)[1..] == payloads;
    var first, later := Framed(c, payload), AllFramed(c, payloads);
    assert first + later + tail == first + (later + tail);
  }

  lemma {:induction false} AcceptedSplits(c: Codec, s: bytes)
    requires Read(c, s).Ok?
    ensures forall p :: p in Payloads(s).0 ==> |p| <= MAX_RUNTIME_FRAME_BYTES
    ensures s == AllFramed(c, Payloads(s).0) + Payloads(s).1
    ensures HeadOf(Payloads(s).1).Incomplete?
    decreases |s|
  {
    var h := HeadOf(s);
    if h.Complete? {
      CompleteIsFramed(c, s);
      AcceptedSplits(c, h.rest);
      FramedThen(c, Payloads(h.rest).0, h.payload, Payloads(h.rest).1);
    } else {
      assert [] + s == s;
    }
  }

  lemma {:induction false} AcceptedDecodes(c: Codec, s: bytes)
    requires Read(c, s).Ok?
    ensures |Read(c, s).value| == |Payloads(s).0|
    ensures forall i :: 0 <= i < |Read(c, s).value| ==>
              c.decode(Payloads(s).0[i]) == Some(Read(c, s).value[i]) && Supported(Read(c, s).value[i])
    decreases |s|
  {
    if HeadOf(s).Complete? {
      AcceptedDecodes(c, HeadOf(s).rest);
    }
  }

  /**
    Whatever bytes are accepted, framing the payloads again gives them back up to an incomplete
    frame at the end, and the frames read are those payloads decoded.
  */
  lemma AcceptedIsFramed(c: Codec, s: bytes)
    requires Read(c, s).Ok?
    ensures var (payloads, tail) := Payloads(s);
            var frames := Read(c, s).value;
            && (forall p :: p in payloads ==> |p| <= MAX_RUNTIME_FRAME_BYTES)
            && s == AllFramed(c, payloads) + tail
            && HeadOf(tail).Incomplete?
            && |frames| == |payloads|
            && (forall i :: 0 <= i < |frames| ==> c.decode(payloads[i]) == Some(frames[i]) && Supported(frames[i]))
  {
    AcceptedSplits(c, s);
    AcceptedDecodes(c, s);
  }

  /** The head of a cut is the head of the whole, cut, unless the cut goes through it. */
  lemma HeadOfCut(s: bytes, n: nat)
    requires n <= |s| && HeadOf(s[..n]).Complete?
    ensures HeadOf(s).Complete?
    ensures var (h, cut) := (HeadOf(s), HeadOf(s[..n]));
            && |s| - n == |h.rest| - |cut.rest|
            && cut == h.(rest := h.rest[..|cut.rest|])
  {
    var t := s[..n];
    var length := FromLe(s[..4]);
    assert t[..4] == s[..4];
    assert forall a, b :: 0 <= a <= b <= n ==> t[a..b] == s[a..b];
  }

  /** Bytes that are accepted stay accepted when cut anywhere, and no frame is read that was not there before. */
  lemma {:induction false} CutsAccepted(c: Codec, s: bytes, n: nat)
    requires Read(c, s).Ok? && n <= |s|
    ensures Read(c, s[..n]).Ok?
    ensures Read(c, s[..n]).value <= Read(c, s).value
    decreases |s|
  {
    if n >= 4 {
      assert s[..n][..4] == s[..4];
      if HeadOf(s[..n]).Complete? {
        HeadOfCut(s, n);
        CutsAccepted(c, HeadOf(s).rest, |HeadOf(s[..n]).rest|);
      }
    }
  }

  // ---- Appending to a file that was reopened ----

  /** A complete head stays what it is, whatever follows. */
  lemma HeadOfLonger(s: bytes, more: bytes)
    requires HeadOf(s).Complete?
    ensures HeadOf(s + more) == HeadOf(s).(rest := HeadOf(s).rest + more)
  {
    var longer, n := s + more, FromLe(s[..4]);
    assert longer[..4] == s[..4];
    assert longer[4..4 + n] == s[4..4 + n];
    assert longer[4 + n..4 + n + 4] == s[4 + n..4 + n + 4];
    assert longer[4 + n + 4..] == s[4 + n + 4..] + more;
  }

  /** An incomplete head that more bytes complete goes on beyond where it was cut. */
  lemma HeadOfCompleted(s: bytes, more: bytes)
    requires HeadOf(s).Incomplete? && HeadOf(s + more).Complete?
    ensures |HeadOf(s + more).rest| < |more|
  {
    if |s| >= 4 {
      assert (s + more)[..4] == s[..4];
    }
  }

  /** Bytes after accepted ones are read together with the incomplete end that is left in place. */
  lemma {:induction false} ReadThenMore(c: Codec, s: bytes, more: bytes)
    requires Read(c, s).Ok?
    ensures Read(c, s + more) == Preceded(Read(c, s).value, Read(c, Payloads(s).1 + more))
    decreases |s|
  {
    if HeadOf(s).Complete? {
      var h := HeadOf(s);
      HeadOfLonger(s, more);
      ReadThenMore(c, h.rest, more);
      PrecededTwice([FrameOf(c, h.payload, h.checksum).value], Read(c, h.rest).value,
                    Read(c, Payloads(h.rest).1 + more));
    } else {
      PrecededByNone(Read(c, s + more));
    }
  }

  lemma ReadAfterIntact(c: Codec, s: bytes, more: bytes)
    requires Read(c, s).Ok? && Payloads(s).1 == []
    ensures Read(c, s + more) == Preceded(Read(c, s).value, Read(c, more))
  {
    ReadThenMore(c, s, more);
    assert [] + more == more;
  }

  /** Reading comes to offset `k`, as a place where a frame may begin. */
  predicate Visits(c: Codec, s: bytes, k: nat)
    decreases |s|
  {
    k == 0 ||
    match HeadOf(s)
    case Complete(payload, checksum, rest) =>
      FrameOf(c, payload, checksum).Ok? && |s| - |rest| <= k && Visits(c, rest, k - (|s| - |rest|))
    case _ => false
  }

  /**
    Whatever is appended to accepted bytes, reading comes to the place where it begins if and only
    if the bytes do not end in an incomplete frame.
  */
  lemma {:induction false} AppendVisited(c: Codec, s: bytes, more: bytes)
    requires Read(c, s).Ok?
    ensures Visits(c, s + more, |s|) <==> Payloads(s).1 == []
    decreases |s|
  {
    if HeadOf(s).Complete? {
      HeadOfLonger(s, more);
      AppendVisited(c, HeadOf(s).rest, more);
    } else if HeadOf(s + more).Complete? {
      HeadOfCompleted(s, more);
    }
  }

  lemma HeadBeforeCut(s: bytes, k: nat)
    requires HeadOf(s).Complete? && |s| - |HeadOf(s).rest| <= k <= |s|
    ensures HeadOf(s[..k]) == HeadOf(s).(rest := HeadOf(s).rest[..k - (|s| - |HeadOf(s).rest|)])
  {
    var t, size := s[..k], 4 + FromLe(s[..4]) + 4;
    assert t[..4] == s[..4];
    assert forall a, b :: 0 <= a <= b <= k ==> t[a..b] == s[a..b];
    assert t[size..] == s[size..][..k - size];
  }

  /** A cut behind the first frame is intact if the rest is, where it is cut. */
  lemma IntactBehind(c: Codec, s: bytes, k: nat)
    requires HeadOf(s).Complete? && FrameOf(c, HeadOf(s).payload, HeadOf(s).checksum).Ok?
    requires |s| - |HeadOf(s).rest| <= k <= |s|
    requires var first := HeadOf(s).rest[..k - (|s| - |HeadOf(s).rest|)];
             Read(c, first).Ok? && Payloads(first).1 == []
    ensures Read(c, s[..k]).Ok? && Payloads(s[..k]).1 == []
  {
    HeadBeforeCut(s, k);
  }

  /** An offset that reading comes to divides the bytes into whole frames and a rest that is read on its own. */
  lemma {:induction false} VisitedDivides(c: Codec, s: bytes, k: nat)
    requires Visits(c, s, k)
    ensures k <= |s| && Read(c, s[..k]).Ok? && Payloads(s[..k]).1 == []
    ensures Read(c, s) == Preceded(Read(c, s[..k]).value, Read(c, s[k..]))
    decreases |s|
  {
    if k == 0 {
      PrecededByNone(Read(c, s));
      assert s[0..] == s;
    } else {
      var rest := HeadOf(s).rest;
      var size := |s| - |rest|;
      VisitedDivides(c, rest, k - size);
      IntactBehind(c, s, k);
      ReadAfterIntact(c, s[..k], s[k..]);
      assert s[..k] + s[k..] == s;
    }
  }

  lemma {:induction false} EncodedIsRead(c: Codec, frames: seq<RuntimeFrame>)
    requires Lawful(c) && AllAppendable(c, frames)
    ensures Read(c, Encoded(c, frames)) == Ok(frames) && Payloads(Encoded(c, frames)).1 == []
  {
    if frames != [] {
      EncodedIsRead(c, frames[1..]);
      ReadFrame(c, frames[0], Encoded(c, frames[1..]));
      HeadOfFramed(c, c.encode(frames[0]), Encoded(c, frames[1..]));
      FramesJoin(frames, |frames|);
      assert frames[1..][..|frames| - 1] == frames[1..] && frames[..|frames|] == frames;
    }
  }

  /** A crash in the middle of an append loses that frame and nothing else; a finished append is kept. */
  lemma CrashDuringAppend(c: Codec, frames: seq<RuntimeFrame>, frame: RuntimeFrame, written: nat)
    requires Lawful(c) && AllAppendable(c, frames) && Appendable(c, frame)
    requires written <= |Framed(c, c.encode(frame))|
    ensures Read(c, Encoded(c, frames) + Framed(c, c.encode(frame))[..written]) ==
            Ok(if written == |Framed(c, c.encode(frame))| then frames + [frame] else frames)
  {
    var last := Framed(c, c.encode(frame));
    EncodedIsRead(c, frames);
    ReadAfterIntact(c, Encoded(c, frames), last[..written]);
    if written < |last| {
      HeadOfTorn(c, c.encode(frame), written);
      assert frames + [] == frames;
    } else {
      ReadFrame(c, frame, []);
      assert last[..written] == last && last + [] == last && [frame] + [] == [frame];
      assert Read(c, []) == Ok([]);
    }
  }

  /** An intact end stays intact when intact bytes follow. */
  lemma {:induction false} EndAfter(c: Codec, s: bytes, more: bytes)
    requires Read(c, s).Ok? && Payloads(s).1 == []
    ensures Payloads(s + more).1 == Payloads(more).1
    decreases |s|
  {
    if HeadOf(s).Complete? {
      HeadOfLonger(s, more);
      EndAfter(c, HeadOf(s).rest, more);
    } else {
      assert s + more == more;
    }
  }

  /** Frames appended to a file with an intact end are read back after those that were there, and so are later ones. */
  lemma AppendedAreRead(c: Codec, s: bytes, frames: seq<RuntimeFrame>)
    requires Lawful(c) && AllAppendable(c, frames)
    requires Read(c, s).Ok? && Payloads(s).1 == []
    ensures Read(c, s + Encoded(c, frames)) == Ok(Read(c, s).value + frames)
    ensures Payloads(s + Encoded(c, frames)).1 == []
  {
    EncodedIsRead(c, frames);
    ReadAfterIntact(c, s, Encoded(c, frames));
    EndAfter(c, s, Encoded(c, frames));
  }

  /** After an incomplete end they need not be: a single zero byte hides any one frame. */
  lemma TornEndHidesFrame(c: Codec, frame: RuntimeFrame)
    requires Appendable(c, frame) && c.encode(frame) != []
    ensures Read(c, [0]) == Ok([])
    ensures Read(c, [0] + Framed(c, c.encode(frame))) in {Ok([]), Err(FrameTooLarge)}
  {
    var n := |c.encode(frame)|;
    var s := [0 as byte] + Framed(c, c.encode(frame));
    Widths();
    LeRoundTrip(n, 4);
    assert s[..4] == [0] + U32(n)[..3];
    TopByteZero(n);
    assert s[..4][1..] == U32(n)[..3];
    assert FromLe(s[..4]) == 256 * n;
  }

  /** A length of at most 4 MiB has a zero top byte. */
  lemma TopByteZero(n: nat)
    requires n < 0x100_0000
    ensures FromLe(U32(n)[..3]) == n
  {
    LeShorter(n, 3);
    assert Pow(256, 3) == 0x100_0000;
    LeRoundTrip(n, 3);
  }
}
