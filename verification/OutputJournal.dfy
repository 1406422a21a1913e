/**
  The journal of captured output: how the supervisor encodes a chunk
  (crates/supervisor/src/journal.rs) and how the controller reads a journal that may be cut off
  (crates/controller/src/rpc.rs). Text is its UTF-8 bytes; the lossy conversion to UTF-8 is a
  parameter of which only what it does to ASCII is known.
*/
module OutputJournals {
  import opened Base
  import opened Endian
  import opened Decimal

  const NEWLINE: byte := 10
  const EQUALS: byte := 61

  datatype OutputStream = Stdout | Stderr

  function StreamName(stream: OutputStream): bytes {
    match stream case Stdout => Ascii("stdout") case Stderr => Ascii("stderr")
  }

  datatype Configuration = Configuration(workloadId: bytes, executionId: bytes, attempt: u32)

  datatype OutputChunk = OutputChunk(stream: OutputStream, sequence: u64, timestampUnixMs: i64, content: bytes)

  // ---- Encoding ----

  function ScalarLine(name: bytes, value: bytes): bytes {
    name + [EQUALS] + value
  }

  function HeaderLines(c: Configuration, chunk: OutputChunk): seq<bytes> {
    [ScalarLine(Ascii("SUSM_FORMAT"), Ascii("1")),
     ScalarLine(Ascii("SUSM_RECORD"), Ascii("output")),
     ScalarLine(Ascii("SUSM_TIMESTAMP_UNIX_MS"), PrintedSigned(chunk.timestampUnixMs)),
     ScalarLine(Ascii("SUSM_WORKLOAD"), c.workloadId),
     ScalarLine(Ascii("SUSM_EXECUTION"), c.executionId),
     ScalarLine(Ascii("SUSM_ATTEMPT"), Printed(c.attempt)),
     ScalarLine(Ascii("SUSM_SEQUENCE"), Printed(chunk.sequence)),
     ScalarLine(Ascii("SUSM_STREAM"), StreamName(chunk.stream))]
  }

  function Lines(lines: seq<bytes>): bytes {
    if lines == [] then [] else lines[0] + [NEWLINE] + Lines(lines[1..])
  }

  predicate Storable(chunk: OutputChunk) {
    |chunk.content| <= U64_MAX
  }

  function Body(content: bytes): bytes
    requires |content| <= U64_MAX
  {
    Ascii("MESSAGE") + [NEWLINE] + U64(|content|) + content + [NEWLINE, NEWLINE]
  }

  function Entry(c: Configuration, chunk: OutputChunk): bytes
    requires Storable(chunk)
  {
    Lines(HeaderLines(c, chunk)) + Body(chunk.content)
  }

  method Scalar(output: bytes, name: bytes, value: bytes) returns (extended: bytes)
    ensures extended == output + ScalarLine(name, value) + [NEWLINE]
  {
    extended := output + name;
    extended := extended + [EQUALS];
    extended := extended + value;
    extended := extended + [NEWLINE];
  }

  lemma LinesAppend(lines: seq<bytes>, line: bytes)
    ensures Lines(lines + [line]) == Lines(lines) + line + [NEWLINE]
  {
    if lines == [] {
      assert (lines + [line])[1..] == [];
    } else {
      assert (lines + [line])[1..] == lines[1..] + [line];
      LinesAppend(lines[1..], line);
    }
  }

  method EncodeEntry(c: Configuration, chunk: OutputChunk) returns (output: bytes)
    requires Storable(chunk)
    ensures output == Entry(c, chunk)
  {
    var names := [Ascii("SUSM_FORMAT"), Ascii("SUSM_RECORD"), Ascii("SUSM_TIMESTAMP_UNIX_MS"), Ascii("SUSM_WORKLOAD"),
                  Ascii("SUSM_EXECUTION"), Ascii("SUSM_ATTEMPT"), Ascii("SUSM_SEQUENCE"), Ascii("SUSM_STREAM")];
    var values := [Ascii("1"), Ascii("output"), PrintedSigned(chunk.timestampUnixMs), c.workloadId,
                   c.executionId, Printed(c.attempt), Printed(chunk.sequence), StreamName(chunk.stream)];
    output := [];
    for i := 0 to 8
      invariant output == Lines(HeaderLines(c, chunk)[..i])
    {
      LinesAppend(HeaderLines(c, chunk)[..i], HeaderLines(c, chunk)[i]);
      assert HeaderLines(c, chunk)[..i + 1] == HeaderLines(c, chunk)[..i] + [HeaderLines(c, chunk)[i]];
      output := Scalar(output, names[i], values[i]);
    }
    assert HeaderLines(c, chunk)[..8] == HeaderLines(c, chunk);
    output := output + Ascii("MESSAGE");
    output := output + [NEWLINE];
    output := output + U64(|chunk.content|);
    output := output + chunk.content;
    output := output + [NEWLINE, NEWLINE];
    assert output == Entry(c, chunk);
  }

  // ---- Decoding ----

  type Lossy = bytes -> bytes

  /** ASCII is UTF-8 already. */
  ghost predicate KeepsAscii(lossy: Lossy) {
    forall s: bytes :: (forall i :: 0 <= i < |s| ==> s[i] < 128) ==> lossy(s) == s
  }

  datatype Fields = Fields(stream: bytes, sequence: u64, timestampUnixMs: i64, message: Option<bytes>)

  datatype LogRecord = LogRecord(
    executionId: bytes, attempt: u32, stream: bytes, sequence: u64, timestampUnixMs: i64, message: bytes)

  const NO_FIELDS: Fields := Fields([], 0, 0, None)

  /** The first position of a byte. */
  function Position(s: bytes, b: byte): (p: Option<nat>)
    ensures p.Some? ==> p.value < |s| && s[p.value] == b && forall i :: 0 <= i < p.value ==> s[i] != b
    ensures p.None? ==> forall i :: 0 <= i < |s| ==> s[i] != b
  {
    if s == [] then None
    else if s[0] == b then Some(0)
    else match Position(s[1..], b) { case Some(p) => Some(p + 1) case None => None }
  }

  function Or0(n: Option<int>): int {
    match n case Some(value) => value case None => 0
  }

  /** What a named value changes: two names mean numbers, one the stream, the others nothing. */
  function Assigned(f: Fields, name: bytes, value: bytes): (r: Fields)
    ensures r.message == f.message
  {
    if name == Ascii("SUSM_STREAM") then f.(stream := value)
    else if name == Ascii("SUSM_SEQUENCE") then f.(sequence := Or0(ParseU64(value)))
    else if name == Ascii("SUSM_TIMESTAMP_UNIX_MS") then f.(timestampUnixMs := Or0(ParseI64(value)))
    else f
  }

  /** What one header line changes. */
  function WithLine(f: Fields, line: bytes, lossy: Lossy): (r: Fields)
    ensures r.message == f.message
  {
    match Position(line, EQUALS)
    case None => f
    case Some(p) => Assigned(f, line[..p], lossy(line[p + 1..]))
  }

  /** What follows a MESSAGE line: either the record breaks off, or it goes on after the message. */
  datatype MessageRead = BreaksOff(fields: Fields) | GoesOn(fields: Fields, rest: bytes)

  function ReadMessage(s: bytes, f: Fields): (m: MessageRead)
    ensures m.GoesOn? ==> |m.rest| < |s|
  {
    if |s| < 8 then BreaksOff(f)
    else
      var length := FromLe(s[..8]);
      if 8 + length + 1 > |s| then BreaksOff(f)
      else
        var found := f.(message := Some(s[8..8 + length]));
        if s[8 + length] != NEWLINE then BreaksOff(found) else GoesOn(found, s[8 + length + 1..])
  }

  /** One line, and the message after it if it says so: the record ends there or goes on. */
  datatype LineRead = Ends(fields: Fields, rest: bytes) | More(fields: Fields, rest: bytes)

  function ReadLine(s: bytes, f: Fields, lossy: Lossy): (r: LineRead)
    ensures |r.rest| <= |s| && (s != [] ==> |r.rest| < |s|)
    ensures r.More? ==> s != []
  {
    match Position(s, NEWLINE)
    case None => Ends(f, [])
    case Some(end) =>
      var line, rest := s[..end], s[end + 1..];
      if line == [] then Ends(f, rest)
      else if line == Ascii("MESSAGE") then
        match ReadMessage(rest, f)
        case BreaksOff(found) => Ends(found, [])
        case GoesOn(found, later) => More(found, later)
      else More(WithLine(f, line, lossy), rest)
  }

  /** One record: the fields found, and the bytes after it; nothing is left when the record breaks off. */
  function ReadRecord(s: bytes, f: Fields, lossy: Lossy): (r: (Fields, bytes))
    ensures |r.1| <= |s| && (s != [] ==> |r.1| < |s|)
    decreases |s|
  {
    match ReadLine(s, f, lossy)
    case Ends(found, rest) => (found, rest)
    case More(found, rest) => ReadRecord(rest, found, lossy)
  }

  function Recorded(f: Fields, executionId: bytes, attempt: u32): seq<LogRecord> {
    match f.message
    case None => []
    case Some(message) => [LogRecord(executionId, attempt, f.stream, f.sequence, f.timestampUnixMs, message)]
  }

  function Decoded(s: bytes, executionId: bytes, attempt: u32, lossy: Lossy): seq<LogRecord>
    decreases |s|
  {
    if s == [] then []
    else
      var (f, rest) := ReadRecord(s, NO_FIELDS, lossy);
      Recorded(f, executionId, attempt) + Decoded(rest, executionId, attempt, lossy)
  }

  /** The message of a record, at `start`. The length always fits usize, which has 64 bits. */
  method DecodeMessage(s: bytes, start: nat, f: Fields) returns (found: Fields, next: Option<nat>)
    requires start <= |s|
    ensures next.Some? ==> start < next.value <= |s|
    ensures ReadMessage(s[start..], f) == if next.Some? then GoesOn(found, s[next.value..]) else BreaksOff(found)
  {
    ghost var rest := s[start..];
    found := f;
    var cursor := start;
    if cursor + 8 > |s| {
      return found, None;
    }
    var length := FromLe(s[cursor..cursor + 8]);
    assert rest[..8] == s[cursor..cursor + 8];
    cursor := cursor + 8;
    if cursor + length + 1 > |s| {
      return found, None;
    }
    found := found.(message := Some(s[cursor..cursor + length]));
    assert rest[8..8 + length] == s[cursor..cursor + length];
    cursor := cursor + length;
    if s[cursor] != NEWLINE {
      return found, None;
    }
    assert rest[8 + length + 1..] == s[cursor + 1..];
    return found, Some(cursor + 1);
  }

  /** One round of the inner loop. */
  method DecodeLine(s: bytes, start: nat, f: Fields, lossy: Lossy) returns (found: Fields, next: nat, ends: bool)
    requires start <= |s|
    ensures start <= next <= |s| && (start < |s| ==> start < next)
    ensures ReadLine(s[start..], f, lossy) == if ends then Ends(found, s[next..]) else More(found, s[next..])
  {
    assert s[|s|..] == [];
    var lineEnd := Position(s[start..], NEWLINE);
    if lineEnd.None? {
      return f, |s|, true;
    }
    LineOf(s, start, lineEnd.value);
    var line := s[start..start + lineEnd.value];
    next := start + lineEnd.value + 1;
    if line == [] {
      return f, next, true;
    }
    if line == Ascii("MESSAGE") {
      var after;
      found, after := DecodeMessage(s, next, f);
      if after.None? {
        return found, |s|, true;
      }
      return found, after.value, false;
    }
    return WithLine(f, line, lossy), next, false;
  }

  /** The inner loop: one record from `start`. Every index is in bounds, whatever the bytes are. */
  method DecodeRecord(s: bytes, start: nat, lossy: Lossy) returns (f: Fields, cursor: nat)
    requires start < |s|
    ensures start < cursor <= |s|
    ensures (f, s[cursor..]) == ReadRecord(s[start..], NO_FIELDS, lossy)
  {
    var ends;
    f, cursor, ends := DecodeLine(s, start, NO_FIELDS, lossy);
    while !ends
      invariant start < cursor <= |s|
      invariant ReadRecord(s[start..], NO_FIELDS, lossy) ==
                if ends then (f, s[cursor..]) else ReadRecord(s[cursor..], f, lossy)
      decreases !ends, |s| - cursor
    {
      f, cursor, ends := DecodeLine(s, cursor, f, lossy);
    }
  }

  lemma LineOf(s: bytes, cursor: nat, end: nat)
    requires cursor + end < |s|
    ensures s[cursor..][..end] == s[cursor..cursor + end] && s[cursor..][end + 1..] == s[cursor + end + 1..]
  {
  }

  method DecodeJournal(s: bytes, executionId: bytes, attempt: u32, lossy: Lossy) returns (records: seq<LogRecord>)
    ensures records == Decoded(s, executionId, attempt, lossy)
  {
    records := [];
    var cursor := 0;
    assert s[0..] == s;
    while cursor < |s|
      invariant cursor <= |s|
      invariant Decoded(s, executionId, attempt, lossy) == records + Decoded(s[cursor..], executionId, attempt, lossy)
    {
      var f, next := DecodeRecord(s, cursor, lossy);
      OneMore(records, s[cursor..], f, s[next..], executionId, attempt, lossy);
      cursor := next;
      if f.message.Some? {
        records := records +
          [LogRecord(executionId, attempt, f.stream, f.sequence, f.timestampUnixMs, f.message.value)];
      }
    }
  }

  lemma OneMore(records: seq<LogRecord>, s: bytes, f: Fields, rest: bytes, executionId: bytes, attempt: u32,
                lossy: Lossy)
    requires s != [] && ReadRecord(s, NO_FIELDS, lossy) == (f, rest)
    ensures records + Decoded(s, executionId, attempt, lossy) ==
            records + Recorded(f, executionId, attempt) + Decoded(rest, executionId, attempt, lossy)
    ensures f.message.None? ==> records + Recorded(f, executionId, attempt) == records
  {
    assert Decoded(s, executionId, attempt, lossy) ==
           Recorded(f, executionId, attempt) + Decoded(rest, executionId, attempt, lossy);
    Associates(records, Recorded(f, executionId, attempt), Decoded(rest, executionId, attempt, lossy));
  }

  lemma Associates<T>(a: seq<T>, b: seq<T>, c: seq<T>)
    ensures a + (b + c) == a + b + c && a + [] == a && [] + a == a
  {
  }

  // ---- Reading what was written ----

  predicate PlainLine(line: bytes) {
    line != [] && NEWLINE !in line && line != Ascii("MESSAGE")
  }

  predicate PlainLines(lines: seq<bytes>) {
    forall i :: 0 <= i < |lines| ==> PlainLine(lines[i])
  }

  lemma FirstPosition(a: bytes, b: byte, rest: bytes)
    requires b !in a
    ensures Position(a + [b] + rest, b) == Some(|a|)
    ensures (a + [b] + rest)[..|a|] == a && (a + [b] + rest)[|a| + 1..] == rest
  {
    var s := a + [b] + rest;
    assert s[|a|] == b;
    assert forall i :: 0 <= i < |a| ==> s[i] == a[i];
  }

  lemma LineIsRead(line: bytes, rest: bytes, f: Fields, lossy: Lossy)
    requires PlainLine(line)
    ensures ReadLine(line + [NEWLINE] + rest, f, lossy) == More(WithLine(f, line, lossy), rest)
  {
    FirstPosition(line, NEWLINE, rest);
  }

  /** A beginning of a line, without its newline, ends the record. */
  lemma TornLine(s: bytes, f: Fields, lossy: Lossy)
    requires NEWLINE !in s
    ensures ReadRecord(s, f, lossy) == (f, [])
  {
  }

  function WithLines(f: Fields, lines: seq<bytes>, lossy: Lossy): (r: Fields)
    ensures r.message == f.message
    decreases |lines|
  {
    if lines == [] then f else WithLines(WithLine(f, lines[0], lossy), lines[1..], lossy)
  }

  lemma {:induction false} HeaderIsRead(lines: seq<bytes>, rest: bytes, f: Fields, lossy: Lossy)
    requires PlainLines(lines)
    ensures ReadRecord(Lines(lines) + rest, f, lossy) == ReadRecord(rest, WithLines(f, lines, lossy), lossy)
  {
    if lines == [] {
      assert Lines(lines) + rest == rest;
    } else {
      LineIsRead(lines[0], Lines(lines[1..]) + rest, f, lossy);
      Associates(lines[0] + [NEWLINE], Lines(lines[1..]), rest);
      HeaderIsRead(lines[1..], rest, WithLine(f, lines[0], lossy), lossy);
    }
  }

  /** A header cut anywhere gives no message and leaves nothing. */
  lemma {:induction false} TornHeader(lines: seq<bytes>, n: nat, f: Fields, lossy: Lossy)
    requires PlainLines(lines) && n <= |Lines(lines)|
    ensures ReadRecord(Lines(lines)[..n], f, lossy).0.message == f.message
    ensures ReadRecord(Lines(lines)[..n], f, lossy).1 == []
  {
    if lines == [] {
      TornLine([], f, lossy);
    } else {
      var line, rest := lines[0], Lines(lines[1..]);
      if n <= |line| {
        assert Lines(lines)[..n] == line[..n];
        TornLine(line[..n], f, lossy);
      } else {
        var m := n - |line| - 1;
        assert Lines(lines)[..n] == line + [NEWLINE] + rest[..m];
        LineIsRead(line, rest[..m], f, lossy);
        TornHeader(lines[1..], m, WithLine(f, line, lossy), lossy);
      }
    }
  }

  lemma MessageWord()
    ensures NEWLINE !in Ascii("MESSAGE") && Ascii("MESSAGE") != []
  {
    assert "MESSAGE"[0] == 'M' && "MESSAGE"[1] == 'E' && "MESSAGE"[2] == 'S' && "MESSAGE"[3] == 'S';
    assert "MESSAGE"[4] == 'A' && "MESSAGE"[5] == 'G' && "MESSAGE"[6] == 'E';
  }

  lemma Slices(a: bytes, b: bytes, c: byte, d: bytes)
    ensures var s := a + b + [c] + d;
            && s[..|a|] == a && s[|a|..|a| + |b|] == b && s[|a| + |b|] == c && s[|a| + |b| + 1..] == d
  {
  }

  lemma MessageIsRead(content: bytes, after: bytes, f: Fields)
    requires |content| <= U64_MAX
    ensures ReadMessage(U64(|content|) + content + [NEWLINE] + after, f) == GoesOn(f.(message := Some(content)), after)
  {
    Widths();
    LeRoundTrip(|content|, 8);
    Slices(U64(|content|), content, NEWLINE, after);
  }

  lemma MessageLine(after: bytes, f: Fields, lossy: Lossy)
    ensures ReadLine(Ascii("MESSAGE") + [NEWLINE] + after, f, lossy) ==
            match ReadMessage(after, f) { case BreaksOff(g) => Ends(g, []) case GoesOn(g, rest) => More(g, rest) }
  {
    MessageWord();
    FirstPosition(Ascii("MESSAGE"), NEWLINE, after);
  }

  /** The blank line ends a record; so does the end of the bytes. */
  lemma BlankLine(rest: bytes, f: Fields, lossy: Lossy)
    ensures ReadRecord([NEWLINE] + rest, f, lossy) == (f, rest)
  {
    assert [] + [NEWLINE] + rest == [NEWLINE] + rest;
    FirstPosition([], NEWLINE, rest);
  }

  lemma {:induction false} BodyIsRead(content: bytes, rest: bytes, f: Fields, lossy: Lossy)
    requires |content| <= U64_MAX
    ensures ReadRecord(Body(content) + rest, f, lossy) == (f.(message := Some(content)), rest)
  {
    var after := U64(|content|) + content + [NEWLINE] + ([NEWLINE] + rest);
    assert Body(content) + rest == Ascii("MESSAGE") + [NEWLINE] + after;
    MessageLine(after, f, lossy);
    MessageIsRead(content, [NEWLINE] + rest, f);
    BlankLine(rest, f.(message := Some(content)), lossy);
  }

  lemma TornMessage(content: bytes, n: nat, f: Fields)
    requires |content| <= U64_MAX && n <= 8 + |content|
    ensures ReadMessage((U64(|content|) + content)[..n], f) == BreaksOff(f)
  {
    Widths();
    LeRoundTrip(|content|, 8);
    if n >= 8 {
      assert (U64(|content|) + content)[..n][..8] == U64(|content|);
    }
  }

  /** A body cut at `n`: within the MESSAGE line, or in what follows it. */
  lemma CutBody(content: bytes, n: nat)
    requires |content| <= U64_MAX && n < |Body(content)|
    ensures n < 8 ==> Body(content)[..n] == Ascii("MESSAGE")[..n]
    ensures n >= 8 ==> Body(content)[..n] == Ascii("MESSAGE") + [NEWLINE] + Body(content)[8..n]
    ensures n == |Body(content)| - 1 ==> Body(content)[8..n] == U64(|content|) + content + [NEWLINE] + []
    ensures 8 <= n < |Body(content)| - 1 ==> Body(content)[8..n] == (U64(|content|) + content)[..n - 8]
  {
    var head, middle, b := Ascii("MESSAGE") + [NEWLINE], U64(|content|) + content, Body(content);
    assert b == head + middle + [NEWLINE, NEWLINE];
    assert b[..8] == head && b[8..|b| - 2] == middle;
    if n < 8 {
      assert b[..n] == Ascii("MESSAGE")[..n];
    } else {
      assert b[..n] == b[..8] + b[8..n];
      if n == |b| - 1 {
        assert b[8..n] == middle + [NEWLINE];
      }
    }
  }

  /** A body cut anywhere gives no message, except that its last newline may be missing. */
  lemma {:induction false} TornBody(content: bytes, n: nat, f: Fields, lossy: Lossy)
    requires |content| <= U64_MAX && n < |Body(content)|
    ensures ReadRecord(Body(content)[..n], f, lossy) ==
            (if n == |Body(content)| - 1 then f.(message := Some(content)) else f, [])
  {
    CutBody(content, n);
    MessageWord();
    if n < 8 {
      TornLine(Ascii("MESSAGE")[..n], f, lossy);
    } else {
      MessageLine(Body(content)[8..n], f, lossy);
      if n == |Body(content)| - 1 {
        MessageIsRead(content, [], f);
        TornLine([], f.(message := Some(content)), lossy);
      } else {
        TornMessage(content, n - 8, f);
      }
    }
  }

  // ---- The header's values ----

  /** Text of printable ASCII characters, none of them '='. */
  predicate Word(s: bytes) {
    forall i :: 0 <= i < |s| ==> 32 < s[i] < 127 && s[i] != EQUALS
  }

  lemma WordOf(s: string)
    requires forall i :: 0 <= i < |s| ==> ' ' < s[i] < '\U{7F}' && s[i] != '='
    ensures Word(Ascii(s))
  {
  }

  lemma DistinctNames(s: string, t: string, i: nat)
    requires |s| != |t| || (i < |s| && ' ' < s[i] < '\U{7F}' && ' ' < t[i] < '\U{7F}' && s[i] != t[i])
    ensures Ascii(s) != Ascii(t)
  {
    if |s| == |t| {
      assert Ascii(s)[i] != Ascii(t)[i];
    }
  }

  /** A name that sets no field. */
  predicate Ignorable(name: bytes) {
    && Word(name)
    && name != Ascii("SUSM_STREAM") && name != Ascii("SUSM_SEQUENCE") && name != Ascii("SUSM_TIMESTAMP_UNIX_MS")
  }

  lemma FormatIgnorable()
    ensures Ignorable(Ascii("SUSM_FORMAT")) && Ignorable(Ascii("SUSM_RECORD"))
  {
    WordOf("SUSM_FORMAT");
    WordOf("SUSM_RECORD");
    DistinctNames("SUSM_FORMAT", "SUSM_STREAM", 5);
    DistinctNames("SUSM_RECORD", "SUSM_STREAM", 5);
  }

  lemma IdentityIgnorable()
    ensures Ignorable(Ascii("SUSM_WORKLOAD")) && Ignorable(Ascii("SUSM_EXECUTION")) && Ignorable(Ascii("SUSM_ATTEMPT"))
  {
    WordOf("SUSM_WORKLOAD");
    WordOf("SUSM_EXECUTION");
    WordOf("SUSM_ATTEMPT");
    DistinctNames("SUSM_WORKLOAD", "SUSM_SEQUENCE", 5);
  }

  lemma ScalarIsRead(f: Fields, name: bytes, value: bytes, lossy: Lossy)
    requires EQUALS !in name
    ensures WithLine(f, ScalarLine(name, value), lossy) == Assigned(f, name, lossy(value))
  {
    FirstPosition(name, EQUALS, value);
  }

  lemma NextLine(f: Fields, lines: seq<bytes>, i: nat, g: Fields, lossy: Lossy)
    requires i < |lines| && WithLine(f, lines[i], lossy) == g
    ensures WithLines(f, lines[i..], lossy) == WithLines(g, lines[i + 1..], lossy)
  {
    assert lines[i..][0] == lines[i] && lines[i..][1..] == lines[i + 1..];
  }

  lemma IgnoredLine(f: Fields, lines: seq<bytes>, i: nat, name: bytes, value: bytes, lossy: Lossy)
    requires i < |lines| && lines[i] == ScalarLine(name, value) && Ignorable(name)
    ensures WithLines(f, lines[i..], lossy) == WithLines(f, lines[i + 1..], lossy)
  {
    ScalarIsRead(f, name, value, lossy);
    NextLine(f, lines, i, f, lossy);
  }

  lemma NumbersKept(time: i64, sequence: u64, lossy: Lossy)
    requires KeepsAscii(lossy)
    ensures lossy(PrintedSigned(time)) == PrintedSigned(time) && lossy(Printed(sequence)) == Printed(sequence)
  {
    assert forall i :: 0 <= i < |PrintedSigned(time)| ==> PrintedSigned(time)[i] < 128;
  }

  lemma {:induction false} TimeLine(f: Fields, time: i64, lossy: Lossy)
    requires KeepsAscii(lossy)
    ensures WithLine(f, ScalarLine(Ascii("SUSM_TIMESTAMP_UNIX_MS"), PrintedSigned(time)), lossy) ==
            f.(timestampUnixMs := time)
  {
    WordOf("SUSM_TIMESTAMP_UNIX_MS");
    NumbersKept(time, 0, lossy);
    I64RoundTrip(time);
    DistinctNames("SUSM_TIMESTAMP_UNIX_MS", "SUSM_STREAM", 0);
    DistinctNames("SUSM_TIMESTAMP_UNIX_MS", "SUSM_SEQUENCE", 0);
    ScalarIsRead(f, Ascii("SUSM_TIMESTAMP_UNIX_MS"), PrintedSigned(time), lossy);
  }

  lemma {:induction false} SequenceLine(f: Fields, sequence: u64, lossy: Lossy)
    requires KeepsAscii(lossy)
    ensures WithLine(f, ScalarLine(Ascii("SUSM_SEQUENCE"), Printed(sequence)), lossy) == f.(sequence := sequence)
  {
    WordOf("SUSM_SEQUENCE");
    NumbersKept(0, sequence, lossy);
    U64RoundTrip(sequence);
    DistinctNames("SUSM_SEQUENCE", "SUSM_STREAM", 0);
    ScalarIsRead(f, Ascii("SUSM_SEQUENCE"), Printed(sequence), lossy);
  }

  lemma {:induction false} StreamLine(f: Fields, stream: OutputStream, lossy: Lossy)
    requires KeepsAscii(lossy)
    ensures WithLine(f, ScalarLine(Ascii("SUSM_STREAM"), StreamName(stream)), lossy) == f.(stream := StreamName(stream))
  {
    WordOf("SUSM_STREAM");
    WordOf("stdout");
    WordOf("stderr");
    ScalarIsRead(f, Ascii("SUSM_STREAM"), StreamName(stream), lossy);
  }

  lemma {:induction false} HeaderStart(f: Fields, c: Configuration, chunk: OutputChunk, lossy: Lossy)
    requires KeepsAscii(lossy)
    ensures WithLines(f, HeaderLines(c, chunk), lossy) ==
            WithLines(f.(timestampUnixMs := chunk.timestampUnixMs), HeaderLines(c, chunk)[3..], lossy)
  {
    var h := HeaderLines(c, chunk);
    FormatIgnorable();
    assert h[0..] == h;
    IgnoredLine(f, h, 0, Ascii("SUSM_FORMAT"), Ascii("1"), lossy);
    IgnoredLine(f, h, 1, Ascii("SUSM_RECORD"), Ascii("output"), lossy);
    TimeLine(f, chunk.timestampUnixMs, lossy);
    NextLine(f, h, 2, f.(timestampUnixMs := chunk.timestampUnixMs), lossy);
  }

  lemma {:induction false} HeaderMiddle(f: Fields, c: Configuration, chunk: OutputChunk, lossy: Lossy)
    ensures WithLines(f, HeaderLines(c, chunk)[3..], lossy) == WithLines(f, HeaderLines(c, chunk)[6..], lossy)
  {
    var h := HeaderLines(c, chunk);
    IdentityIgnorable();
    IgnoredLine(f, h, 3, Ascii("SUSM_WORKLOAD"), c.workloadId, lossy);
    IgnoredLine(f, h, 4, Ascii("SUSM_EXECUTION"), c.executionId, lossy);
    IgnoredLine(f, h, 5, Ascii("SUSM_ATTEMPT"), Printed(c.attempt), lossy);
  }

  lemma {:induction false} HeaderEnd(f: Fields, c: Configuration, chunk: OutputChunk, lossy: Lossy)
    requires KeepsAscii(lossy)
    ensures WithLines(f, HeaderLines(c, chunk)[6..], lossy) ==
            f.(sequence := chunk.sequence, stream := StreamName(chunk.stream))
  {
    var h := HeaderLines(c, chunk);
    var numbered := f.(sequence := chunk.sequence);
    assert h[8..] == [];
    SequenceLine(f, chunk.sequence, lossy);
    NextLine(f, h, 6, numbered, lossy);
    StreamLine(numbered, chunk.stream, lossy);
    NextLine(numbered, h, 7, numbered.(stream := StreamName(chunk.stream)), lossy);
  }

  /** The header of an entry is read back as the chunk's stream, sequence and time. */
  lemma {:induction false} HeaderFields(c: Configuration, chunk: OutputChunk, lossy: Lossy)
    requires KeepsAscii(lossy)
    ensures WithLines(NO_FIELDS, HeaderLines(c, chunk), lossy) ==
            Fields(StreamName(chunk.stream), chunk.sequence, chunk.timestampUnixMs, None)
  {
    var timed := NO_FIELDS.(timestampUnixMs := chunk.timestampUnixMs);
    HeaderStart(NO_FIELDS, c, chunk, lossy);
    HeaderMiddle(timed, c, chunk, lossy);
    HeaderEnd(timed, c, chunk, lossy);
  }

  /** Identifiers fit on a line; workload identifiers are validated to, execution identifiers are UUIDs. */
  predicate OneLine(c: Configuration) {
    NEWLINE !in c.workloadId && NEWLINE !in c.executionId
  }

  lemma PlainScalar(name: string, value: bytes)
    requires forall i :: 0 <= i < |name| ==> ' ' < name[i] < '\U{7F}' && name[i] != '='
    requires NEWLINE !in value
    ensures PlainLine(ScalarLine(Ascii(name), value))
  {
    WordOf(name);
    WordOf("MESSAGE");
    var line := ScalarLine(Ascii(name), value);
    assert line[|name|] == EQUALS;
    assert EQUALS !in Ascii("MESSAGE");
  }

  lemma ValuesOnOneLine(stream: OutputStream)
    ensures NEWLINE !in Ascii("1") && NEWLINE !in Ascii("output") && NEWLINE !in StreamName(stream)
  {
    WordOf("1");
    WordOf("output");
    WordOf("stdout");
    WordOf("stderr");
  }

  lemma {:induction false} HeaderIsPlain(c: Configuration, chunk: OutputChunk)
    requires OneLine(c)
    ensures PlainLines(HeaderLines(c, chunk))
  {
    ValuesOnOneLine(chunk.stream);
    PlainScalar("SUSM_FORMAT", Ascii("1"));
    PlainScalar("SUSM_RECORD", Ascii("output"));
    PlainScalar("SUSM_TIMESTAMP_UNIX_MS", PrintedSigned(chunk.timestampUnixMs));
    PlainScalar("SUSM_WORKLOAD", c.workloadId);
    PlainScalar("SUSM_EXECUTION", c.executionId);
    PlainScalar("SUSM_ATTEMPT", Printed(c.attempt));
    PlainScalar("SUSM_SEQUENCE", Printed(chunk.sequence));
    PlainScalar("SUSM_STREAM", StreamName(chunk.stream));
  }

  function FieldsOf(chunk: OutputChunk): Fields {
    Fields(StreamName(chunk.stream), chunk.sequence, chunk.timestampUnixMs, Some(chunk.content))
  }

  lemma ReadWhole(h: seq<bytes>, content: bytes, rest: bytes, lossy: Lossy)
    requires PlainLines(h) && |content| <= U64_MAX
    ensures ReadRecord(Lines(h) + Body(content) + rest, NO_FIELDS, lossy) ==
            (WithLines(NO_FIELDS, h, lossy).(message := Some(content)), rest)
  {
    Associates(Lines(h), Body(content), rest);
    HeaderIsRead(h, Body(content) + rest, NO_FIELDS, lossy);
    BodyIsRead(content, rest, WithLines(NO_FIELDS, h, lossy), lossy);
  }

  lemma {:induction false} EntryIsRead(c: Configuration, chunk: OutputChunk, rest: bytes, lossy: Lossy)
    requires Storable(chunk) && OneLine(c) && KeepsAscii(lossy)
    ensures ReadRecord(Entry(c, chunk) + rest, NO_FIELDS, lossy) == (FieldsOf(chunk), rest)
  {
    HeaderIsPlain(c, chunk);
    HeaderFields(c, chunk, lossy);
    ReadWhole(HeaderLines(c, chunk), chunk.content, rest, lossy);
  }

  lemma Cut(a: bytes, b: bytes, n: nat)
    requires n <= |a + b|
    ensures (a + b)[..n] == if n <= |a| then a[..n] else a + b[..n - |a|]
  {
  }

  lemma ReadTorn(h: seq<bytes>, content: bytes, n: nat, lossy: Lossy)
    requires PlainLines(h) && |content| <= U64_MAX && n < |Lines(h) + Body(content)|
    ensures var (f, rest) := ReadRecord((Lines(h) + Body(content))[..n], NO_FIELDS, lossy);
            && rest == []
            && if n == |Lines(h) + Body(content)| - 1
               then f == WithLines(NO_FIELDS, h, lossy).(message := Some(content)) else f.message == None
  {
    Cut(Lines(h), Body(content), n);
    if n <= |Lines(h)| {
      TornHeader(h, n, NO_FIELDS, lossy);
    } else {
      HeaderIsRead(h, Body(content)[..n - |Lines(h)|], NO_FIELDS, lossy);
      TornBody(content, n - |Lines(h)|, WithLines(NO_FIELDS, h, lossy), lossy);
    }
  }

  /** An entry cut short leaves nothing behind, and gives its record only if just its last byte is missing. */
  lemma {:induction false} TornEntry(c: Configuration, chunk: OutputChunk, n: nat, lossy: Lossy)
    requires Storable(chunk) && OneLine(c) && KeepsAscii(lossy) && n < |Entry(c, chunk)|
    ensures var (f, rest) := ReadRecord(Entry(c, chunk)[..n], NO_FIELDS, lossy);
            && rest == []
            && if n == |Entry(c, chunk)| - 1 then f == FieldsOf(chunk) else f.message == None
  {
    HeaderIsPlain(c, chunk);
    HeaderFields(c, chunk, lossy);
    ReadTorn(HeaderLines(c, chunk), chunk.content, n, lossy);
  }

  // ---- Journals ----

  function Joined(entries: seq<bytes>): bytes {
    if entries == [] then [] else entries[0] + Joined(entries[1..])
  }

  function AllRecorded(fields: seq<Fields>, executionId: bytes, attempt: u32): seq<LogRecord> {
    if fields == [] then []
    else Recorded(fields[0], executionId, attempt) + AllRecorded(fields[1..], executionId, attempt)
  }

  /** How many entries lie within the first `n` bytes, not counting the last byte of the last of them. */
  function Kept(entries: seq<bytes>, n: nat): (k: nat)
    ensures k <= |entries|
  {
    if entries == [] || n < |entries[0]| - 1 then 0
    else if n == |entries[0]| - 1 then 1
    else 1 + Kept(entries[1..], n - |entries[0]|)
  }

  /** The bytes are one entry: read whole before anything, and torn when cut. */
  ghost predicate IsEntry(e: bytes, f: Fields, lossy: Lossy) {
    && |e| > 1
    && (forall rest {:trigger ReadRecord(e + rest, NO_FIELDS, lossy)} ::
          ReadRecord(e + rest, NO_FIELDS, lossy) == (f, rest))
    && (forall n {:trigger ReadRecord(e[..n], NO_FIELDS, lossy)} :: 0 <= n < |e| ==>
          var (g, rest) := ReadRecord(e[..n], NO_FIELDS, lossy);
          rest == [] && if n == |e| - 1 then g == f else g.message == None)
  }

  lemma {:induction false} WrittenIsEntry(c: Configuration, chunk: OutputChunk, lossy: Lossy)
    requires Storable(chunk) && OneLine(c) && KeepsAscii(lossy)
    ensures IsEntry(Entry(c, chunk), FieldsOf(chunk), lossy)
  {
    forall rest ensures ReadRecord(Entry(c, chunk) + rest, NO_FIELDS, lossy) == (FieldsOf(chunk), rest) {
      EntryIsRead(c, chunk, rest, lossy);
    }
    forall n | 0 <= n < |Entry(c, chunk)|
      ensures var (g, rest) := ReadRecord(Entry(c, chunk)[..n], NO_FIELDS, lossy);
              rest == [] && if n == |Entry(c, chunk)| - 1 then g == FieldsOf(chunk) else g.message == None
    {
      TornEntry(c, chunk, n, lossy);
    }
  }

  /** Records already known to be read from the first bytes, then those of the rest. */
  lemma DecodedThen(s: bytes, f: Fields, rest: bytes, executionId: bytes, attempt: u32, lossy: Lossy)
    requires s != [] && ReadRecord(s, NO_FIELDS, lossy) == (f, rest)
    ensures Decoded(s, executionId, attempt, lossy) ==
            Recorded(f, executionId, attempt) + Decoded(rest, executionId, attempt, lossy)
    ensures Decoded([], executionId, attempt, lossy) == []
    ensures Recorded(f, executionId, attempt) + [] == Recorded(f, executionId, attempt)
  {
  }

  lemma TornDecoded(e: bytes, later: bytes, f: Fields, n: nat, executionId: bytes, attempt: u32, lossy: Lossy)
    requires IsEntry(e, f, lossy) && n < |e|
    ensures Decoded((e + later)[..n], executionId, attempt, lossy) ==
            if n == |e| - 1 then Recorded(f, executionId, attempt) else []
  {
    Cut(e, later, n);
    if n > 0 {
      DecodedThen(e[..n], ReadRecord(e[..n], NO_FIELDS, lossy).0, [], executionId, attempt, lossy);
    }
  }

  lemma WholeDecoded(e: bytes, later: bytes, f: Fields, n: nat, executionId: bytes, attempt: u32, lossy: Lossy)
    requires IsEntry(e, f, lossy) && |e| <= n <= |e + later|
    ensures Decoded((e + later)[..n], executionId, attempt, lossy) ==
            Recorded(f, executionId, attempt) + Decoded(later[..n - |e|], executionId, attempt, lossy)
  {
    var rest := later[..n - |e|];
    assert (e + later)[..n] == e + rest;
    assert ReadRecord(e + rest, NO_FIELDS, lossy) == (f, rest);
    DecodedThen(e + rest, f, rest, executionId, attempt, lossy);
  }

  lemma RecordedSplit(fields: seq<Fields>, k: nat, executionId: bytes, attempt: u32)
    requires 0 < k <= |fields|
    ensures AllRecorded(fields[..k], executionId, attempt) ==
            Recorded(fields[0], executionId, attempt) + AllRecorded(fields[1..][..k - 1], executionId, attempt)
    ensures k == 1 ==> AllRecorded(fields[..k], executionId, attempt) == Recorded(fields[0], executionId, attempt)
  {
    assert fields[..k][1..] == fields[1..][..k - 1];
  }

  lemma CutFirst(e: bytes, later: bytes, f: Fields, n: nat, executionId: bytes, attempt: u32, lossy: Lossy)
    requires IsEntry(e, f, lossy) && n <= |e + later|
    ensures Decoded((e + later)[..n], executionId, attempt, lossy) ==
            if n < |e| - 1 then []
            else if n == |e| - 1 then Recorded(f, executionId, attempt)
            else Recorded(f, executionId, attempt) + Decoded(later[..n - |e|], executionId, attempt, lossy)
    ensures |e| > 1
  {
    if n < |e| {
      TornDecoded(e, later, f, n, executionId, attempt, lossy);
    } else {
      WholeDecoded(e, later, f, n, executionId, attempt, lossy);
    }
  }

  /** What the entries and their cut come to, given what the cut through the later entries comes to. */
  lemma CutStep(entries: seq<bytes>, fields: seq<Fields>, n: nat, executionId: bytes, attempt: u32,
                first: seq<LogRecord>, later: seq<LogRecord>)
    requires entries != [] && |entries| == |fields| && |entries[0]| > 1
    requires first == Recorded(fields[0], executionId, attempt)
    requires n >= |entries[0]| ==>
               later == AllRecorded(fields[1..][..Kept(entries[1..], n - |entries[0]|)], executionId, attempt)
    ensures AllRecorded(fields[..Kept(entries, n)], executionId, attempt) ==
            if n < |entries[0]| - 1 then [] else if n == |entries[0]| - 1 then first else first + later
  {
    if Kept(entries, n) > 0 {
      RecordedSplit(fields, Kept(entries, n), executionId, attempt);
    }
  }

  ghost predicate AreEntries(entries: seq<bytes>, fields: seq<Fields>, lossy: Lossy)
    requires |entries| == |fields|
  {
    entries == [] || (IsEntry(entries[0], fields[0], lossy) && AreEntries(entries[1..], fields[1..], lossy))
  }

  lemma {:induction false} CutEntries(
    entries: seq<bytes>, fields: seq<Fields>, n: nat, executionId: bytes, attempt: u32, lossy: Lossy)
    requires |entries| == |fields| && n <= |Joined(entries)| && AreEntries(entries, fields, lossy)
    ensures Decoded(Joined(entries)[..n], executionId, attempt, lossy) ==
            AllRecorded(fields[..Kept(entries, n)], executionId, attempt)
  {
    if entries != [] {
      var e, later := entries[0], Joined(entries[1..]);
      CutFirst(e, later, fields[0], n, executionId, attempt, lossy);
      var tail := if n >= |e| then Decoded(later[..n - |e|], executionId, attempt, lossy) else [];
      if n >= |e| {
        CutEntries(entries[1..], fields[1..], n - |e|, executionId, attempt, lossy);
      }
      CutStep(entries, fields, n, executionId, attempt, Recorded(fields[0], executionId, attempt), tail);
    }
  }

  predicate AllStorable(chunks: seq<OutputChunk>) {
    forall i :: 0 <= i < |chunks| ==> Storable(chunks[i])
  }

  function Entries(c: Configuration, chunks: seq<OutputChunk>): seq<bytes>
    requires AllStorable(chunks)
  {
    seq(|chunks|, i requires 0 <= i < |chunks| => Entry(c, chunks[i]))
  }

  function Journal(c: Configuration, chunks: seq<OutputChunk>): bytes
    requires AllStorable(chunks)
  {
    Joined(Entries(c, chunks))
  }

  function AllFields(chunks: seq<OutputChunk>): seq<Fields> {
    seq(|chunks|, i requires 0 <= i < |chunks| => FieldsOf(chunks[i]))
  }

  /** The chunks as a reader of the execution's attempt should see them. */
  function Records(chunks: seq<OutputChunk>, executionId: bytes, attempt: u32): seq<LogRecord> {
    AllRecorded(AllFields(chunks), executionId, attempt)
  }

  // ---- Theorems ----

  /**
    A journal cut anywhere is read as its first records, in order and unchanged, whatever the
    output was: all the entries within the cut, and none that is not.
  */
  lemma {:induction false} CutJournalIsPrefix(
    c: Configuration, chunks: seq<OutputChunk>, n: nat, executionId: bytes, attempt: u32, lossy: Lossy)
    requires AllStorable(chunks) && OneLine(c) && KeepsAscii(lossy)
    ensures n <= |Journal(c, chunks)| ==>
              Decoded(Journal(c, chunks)[..n], executionId, attempt, lossy) ==
              Records(chunks[..Kept(Entries(c, chunks), n)], executionId, attempt)
  {
    var entries, fields := Entries(c, chunks), AllFields(chunks);
    ChunksAreEntries(c, chunks, lossy);
    if n <= |Joined(entries)| {
      CutEntries(entries, fields, n, executionId, attempt, lossy);
      FieldsPrefix(chunks, Kept(entries, n));
    }
  }

  lemma FieldsPrefix(chunks: seq<OutputChunk>, k: nat)
    requires k <= |chunks|
    ensures AllFields(chunks)[..k] == AllFields(chunks[..k])
  {
  }

  lemma {:induction false} EachIsEntry(entries: seq<bytes>, fields: seq<Fields>, lossy: Lossy)
    requires |entries| == |fields|
    requires forall i :: 0 <= i < |entries| ==> IsEntry(entries[i], fields[i], lossy)
    ensures AreEntries(entries, fields, lossy)
  {
    if entries != [] {
      EachIsEntry(entries[1..], fields[1..], lossy);
    }
  }

  lemma {:induction false} ChunksAreEntries(c: Configuration, chunks: seq<OutputChunk>, lossy: Lossy)
    requires AllStorable(chunks) && OneLine(c) && KeepsAscii(lossy)
    ensures AreEntries(Entries(c, chunks), AllFields(chunks), lossy)
  {
    var entries, fields := Entries(c, chunks), AllFields(chunks);
    forall i | 0 <= i < |entries| ensures IsEntry(entries[i], fields[i], lossy) {
      WrittenIsEntry(c, chunks[i], lossy);
    }
    EachIsEntry(entries, fields, lossy);
  }

  lemma {:induction false} AllKept(entries: seq<bytes>)
    requires forall i :: 0 <= i < |entries| ==> |entries[i]| > 1
    ensures Kept(entries, |Joined(entries)|) == |entries|
  {
    if entries != [] {
      AllKept(entries[1..]);
    }
  }

  /** Reading a whole journal gives back every chunk that was written. */
  lemma {:induction false} RoundTrip(c: Configuration, chunks: seq<OutputChunk>, executionId: bytes, attempt: u32,
                                     lossy: Lossy)
    requires AllStorable(chunks) && OneLine(c) && KeepsAscii(lossy)
    ensures Decoded(Journal(c, chunks), executionId, attempt, lossy) == Records(chunks, executionId, attempt)
  {
    var s := Journal(c, chunks);
    CutJournalIsPrefix(c, chunks, |s|, executionId, attempt, lossy);
    AllKept(Entries(c, chunks));
    assert s[..|s|] == s && chunks[..|chunks|] == chunks;
  }

  /** The records of any chunks are one for each, in order, with its content unchanged. */
  lemma {:induction false} RecordsAreChunks(fields: seq<Fields>, executionId: bytes, attempt: u32)
    requires forall i :: 0 <= i < |fields| ==> fields[i].message.Some?
    ensures var records := AllRecorded(fields, executionId, attempt);
            && |records| == |fields|
            && forall i :: 0 <= i < |fields| ==>
                 records[i] == LogRecord(executionId, attempt, fields[i].stream, fields[i].sequence,
                                         fields[i].timestampUnixMs, fields[i].message.value)
  {
    if fields != [] {
      RecordsAreChunks(fields[1..], executionId, attempt);
    }
  }
}
