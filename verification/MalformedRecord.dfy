/**
  Which records of captured output the reader returns although they are malformed, for any bytes
  (crates/controller/src/rpc.rs).
*/
module MalformedRecords {
  import opened Base
  import opened Endian
  import opened Decimal
  import opened OutputJournals

  // ---- The message of a record ----

  function MessagePart(after: bytes): bytes {
    Ascii("MESSAGE") + [NEWLINE] + after
  }

  /** The lines before the first MESSAGE line of a record, and the bytes after that line. */
  function MessageAt(s: bytes): (r: Option<(seq<bytes>, bytes)>)
    ensures r.Some? ==> PlainLines(r.value.0) && s == Lines(r.value.0) + MessagePart(r.value.1)
    decreases |s|
  {
    match Position(s, NEWLINE)
    case None => None
    case Some(end) =>
      var line, rest := s[..end], s[end + 1..];
      assert s == line + [NEWLINE] + rest;
      if line == [] then None
      else if line == Ascii("MESSAGE") then
        assert Lines([]) + MessagePart(rest) == s;
        Some(([], rest))
      else
        match MessageAt(rest)
        case None => None
        case Some((lines, after)) =>
          Associates(line + [NEWLINE], Lines(lines), MessagePart(after));
          Some(([line] + lines, after))
  }

  /** However the lines and the bytes are chosen, they are found again. */
  lemma {:induction false} MessageFound(lines: seq<bytes>, after: bytes)
    requires PlainLines(lines)
    ensures MessageAt(Lines(lines) + MessagePart(after)) == Some((lines, after))
  {
    var s := Lines(lines) + MessagePart(after);
    if lines == [] {
      MessageWord();
      FirstPosition(Ascii("MESSAGE"), NEWLINE, after);
      assert s == MessagePart(after);
    } else {
      MessageFound(lines[1..], after);
      Associates(lines[0] + [NEWLINE], Lines(lines[1..]), MessagePart(after));
      FirstPosition(lines[0], NEWLINE, Lines(lines[1..]) + MessagePart(after));
      assert [lines[0]] + lines[1..] == lines;
    }
  }

  /** The length, that much content and one more byte are there. */
  predicate Fits(after: bytes) {
    |after| >= 8 && 8 + FromLe(after[..8]) + 1 <= |after|
  }

  function Content(after: bytes): bytes
    requires Fits(after)
  {
    after[8..8 + FromLe(after[..8])]
  }

  /** The byte after the content, which should be a newline. */
  function Closing(after: bytes): byte
    requires Fits(after)
  {
    after[8 + FromLe(after[..8])]
  }

  function Behind(after: bytes): (rest: bytes)
    requires Fits(after)
    ensures |rest| < |after|
  {
    after[8 + FromLe(after[..8]) + 1..]
  }

  lemma {:induction false} MessageStays(s: bytes, f: Fields, lossy: Lossy)
    requires f.message.Some?
    ensures ReadRecord(s, f, lossy).0.message.Some?
    decreases |s|
  {
    var line := ReadLine(s, f, lossy);
    if line.More? {
      MessageStays(line.rest, line.fields, lossy);
    }
  }

  /** What the reader makes of any plain lines, a MESSAGE line and any bytes after it. */
  lemma {:induction false} MessageIsReadOrNot(lines: seq<bytes>, after: bytes, f: Fields, lossy: Lossy)
    requires PlainLines(lines)
    ensures var g := WithLines(f, lines, lossy);
            ReadRecord(Lines(lines) + MessagePart(after), f, lossy) ==
            if !Fits(after) then (g, [])
            else if Closing(after) != NEWLINE then (g.(message := Some(Content(after))), [])
            else ReadRecord(Behind(after), g.(message := Some(Content(after))), lossy)
  {
    HeaderIsRead(lines, MessagePart(after), f, lossy);
    MessageLine(after, WithLines(f, lines, lossy), lossy);
  }

  /** A record without a MESSAGE line before its end has no message. */
  lemma {:induction false} NoMessage(s: bytes, f: Fields, lossy: Lossy)
    requires MessageAt(s).None?
    ensures ReadRecord(s, f, lossy).0.message == f.message
    decreases |s|
  {
    var line := ReadLine(s, f, lossy);
    if line.More? {
      NoMessage(line.rest, line.fields, lossy);
    }
  }

  /**
    Whatever the bytes are, their first record carries a message if and only if it has a MESSAGE
    line, followed by a length, that much content and one more byte.
  */
  lemma {:induction false} CarriesMessageExactly(s: bytes, lossy: Lossy)
    ensures ReadRecord(s, NO_FIELDS, lossy).0.message.Some? <==>
            MessageAt(s).Some? && Fits(MessageAt(s).value.1)
  {
    match MessageAt(s) {
      case None => NoMessage(s, NO_FIELDS, lossy);
      case Some((lines, after)) =>
        MessageIsReadOrNot(lines, after, NO_FIELDS, lossy);
        if Fits(after) {
          MessageStays(Behind(after), WithLines(NO_FIELDS, lines, lossy).(message := Some(Content(after))), lossy);
        }
    }
  }

  // ---- The end of a record ----

  /** A record ends at a blank line, where the bytes break off, or at a message that no newline closes. */
  datatype Ending = Blank(rest: bytes) | CutOff | Unclosed

  function EndingOf(s: bytes): (e: Ending)
    ensures e.Blank? ==> |e.rest| < |s|
    decreases |s|
  {
    match Position(s, NEWLINE)
    case None => CutOff
    case Some(end) =>
      var line, rest := s[..end], s[end + 1..];
      if line == [] then Blank(rest)
      else if line != Ascii("MESSAGE") then EndingOf(rest)
      else if !Fits(rest) then CutOff
      else if Closing(rest) != NEWLINE then Unclosed
      else EndingOf(Behind(rest))
  }

  /** What the first record leaves to read. */
  function Left(s: bytes): bytes {
    if EndingOf(s).Blank? then EndingOf(s).rest else []
  }

  /** A record with an unclosed message is never without one, and only a blank line leaves anything to read. */
  lemma {:induction false} RecordEnds(s: bytes, f: Fields, lossy: Lossy)
    ensures var (g, rest) := ReadRecord(s, f, lossy);
            && rest == Left(s)
            && (EndingOf(s).Unclosed? ==> g.message.Some?)
    decreases |s|
  {
    var line := ReadLine(s, f, lossy);
    if line.More? {
      RecordEnds(line.rest, line.fields, lossy);
    }
  }

  // ---- What a record contains ----

  /** The header lines and the messages of a record, each in order. */
  datatype Parts = Parts(lines: seq<bytes>, messages: seq<bytes>)

  function PartsOf(s: bytes): Parts
    decreases |s|
  {
    match Position(s, NEWLINE)
    case None => Parts([], [])
    case Some(end) =>
      var line, rest := s[..end], s[end + 1..];
      if line == [] then Parts([], [])
      else if line != Ascii("MESSAGE") then
        var p := PartsOf(rest);
        p.(lines := [line] + p.lines)
      else if !Fits(rest) then Parts([], [])
      else if Closing(rest) != NEWLINE then Parts([], [Content(rest)])
      else
        var p := PartsOf(Behind(rest));
        p.(messages := [Content(rest)] + p.messages)
  }

  /** The values that lines give to a name, in order. */
  function Values(lines: seq<bytes>, name: bytes): seq<bytes> {
    if lines == [] then []
    else
      (match Position(lines[0], EQUALS)
       case None => []
       case Some(p) => if lines[0][..p] == name then [lines[0][p + 1..]] else []) +
      Values(lines[1..], name)
  }

  function Last<T>(s: seq<T>): T
    requires s != []
  {
    s[|s| - 1]
  }

  const STREAM: bytes := Ascii("SUSM_STREAM")
  const SEQUENCE: bytes := Ascii("SUSM_SEQUENCE")
  const TIME: bytes := Ascii("SUSM_TIMESTAMP_UNIX_MS")

  /** What the reader makes of the parts: the last value of each name, and zero for a number it cannot read. */
  function Taken(f: Fields, p: Parts, lossy: Lossy): Fields {
    var streams, sequences, times := Values(p.lines, STREAM), Values(p.lines, SEQUENCE), Values(p.lines, TIME);
    Fields(if streams == [] then f.stream else lossy(Last(streams)),
           if sequences == [] then f.sequence else Or0(ParseU64(lossy(Last(sequences)))),
           if times == [] then f.timestampUnixMs else Or0(ParseI64(lossy(Last(times)))),
           if p.messages == [] then f.message else Some(Last(p.messages)))
  }

  lemma NamesDiffer()
    ensures STREAM != SEQUENCE && STREAM != TIME && SEQUENCE != TIME
  {
    DistinctNames("SUSM_STREAM", "SUSM_SEQUENCE", 0);
    DistinctNames("SUSM_STREAM", "SUSM_TIMESTAMP_UNIX_MS", 0);
    DistinctNames("SUSM_SEQUENCE", "SUSM_TIMESTAMP_UNIX_MS", 0);
  }

  lemma LastOfMore<T>(x: T, s: seq<T>)
    ensures Last([x] + s) == if s == [] then x else Last(s)
  {
  }

  lemma ValuesOfMore(line: bytes, lines: seq<bytes>, name: bytes)
    ensures var p := Position(line, EQUALS);
            Values([line] + lines, name) ==
            (if p.Some? && line[..p.value] == name then [line[p.value + 1..]] else []) + Values(lines, name)
  {
    assert ([line] + lines)[1..] == lines;
  }

  lemma LineTaken(f: Fields, line: bytes, p: Parts, lossy: Lossy)
    ensures Taken(f, p.(lines := [line] + p.lines), lossy) == Taken(WithLine(f, line, lossy), p, lossy)
  {
    NamesDiffer();
    ValuesOfMore(line, p.lines, STREAM);
    ValuesOfMore(line, p.lines, SEQUENCE);
    ValuesOfMore(line, p.lines, TIME);
    var at := Position(line, EQUALS);
    if at.Some? {
      var value := line[at.value + 1..];
      LastOfMore(value, Values(p.lines, STREAM));
      LastOfMore(value, Values(p.lines, SEQUENCE));
      LastOfMore(value, Values(p.lines, TIME));
    }
  }

  /** For any bytes: the reader takes what their first record contains, and nothing else. */
  lemma {:induction false} PartsAreTaken(s: bytes, f: Fields, lossy: Lossy)
    ensures ReadRecord(s, f, lossy).0 == Taken(f, PartsOf(s), lossy)
    decreases |s|
  {
    var read := ReadLine(s, f, lossy);
    var end := Position(s, NEWLINE);
    if end.Some? && end.value > 0 {
      var line, rest := s[..end.value], s[end.value + 1..];
      if line != Ascii("MESSAGE") {
        PartsAreTaken(rest, WithLine(f, line, lossy), lossy);
        LineTaken(f, line, PartsOf(rest), lossy);
      } else if Fits(rest) && Closing(rest) == NEWLINE {
        PartsAreTaken(Behind(rest), f.(message := Some(Content(rest))), lossy);
        LastOfMore(Content(rest), PartsOf(Behind(rest)).messages);
      }
    }
  }

  // ---- Output records ----

  predicate IsNumber(values: seq<bytes>, limit: nat) {
    |values| == 1 && ParseU64(values[0]).Some? && ParseU64(values[0]).value <= limit
  }

  /**
    What docs/logging.md says of an output record, with the time field that the supervisor writes:
    each field is there once, with a value of its kind, and so is the message.
  */
  predicate IsOutput(p: Parts) {
    match p
    case Parts(lines, messages) =>
      && |messages| == 1
      && Values(lines, Ascii("SUSM_FORMAT")) == [Ascii("1")]
      && Values(lines, Ascii("SUSM_RECORD")) == [Ascii("output")]
      && |Values(lines, Ascii("SUSM_WORKLOAD"))| == 1
      && |Values(lines, Ascii("SUSM_EXECUTION"))| == 1
      && IsNumber(Values(lines, Ascii("SUSM_ATTEMPT")), U32_MAX)
      && IsNumber(Values(lines, SEQUENCE), U64_MAX)
      && (Values(lines, STREAM) == [Ascii("stdout")] || Values(lines, STREAM) == [Ascii("stderr")])
      && |Values(lines, TIME)| == 1 && ParseI64(Values(lines, TIME)[0]).Some?
  }

  /** The record that such parts stand for. */
  function Meant(p: Parts, executionId: bytes, attempt: u32): LogRecord
    requires IsOutput(p)
  {
    LogRecord(executionId, attempt, Values(p.lines, STREAM)[0], ParseU64(Values(p.lines, SEQUENCE)[0]).value,
              ParseI64(Values(p.lines, TIME)[0]).value, p.messages[0])
  }

  lemma {:induction false} DigitsAreAscii(s: bytes)
    requires DigitsValue(s).Some?
    ensures forall i :: 0 <= i < |s| ==> IsDigit(s[i])
  {
    if s != [] {
      DigitsAreAscii(s[..|s| - 1]);
    }
  }

  lemma NumbersAreAscii(s: bytes, lossy: Lossy)
    requires KeepsAscii(lossy) && (ParseU64(s).Some? || ParseI64(s).Some?)
    ensures lossy(s) == s
  {
    if s != [] {
      if DigitsValue(s).Some? {
        DigitsAreAscii(s);
      }
      if DigitsValue(s[1..]).Some? {
        DigitsAreAscii(s[1..]);
        assert forall i :: 1 <= i < |s| ==> s[i] == s[1..][i - 1];
      }
    }
  }

  lemma StreamsAreAscii(value: bytes, lossy: Lossy)
    requires KeepsAscii(lossy) && (value == Ascii("stdout") || value == Ascii("stderr"))
    ensures lossy(value) == value
  {
    WordOf("stdout");
    WordOf("stderr");
  }

  lemma ValuesAreRead(p: Parts, stream: bytes, sequence: bytes, time: bytes, lossy: Lossy)
    requires Values(p.lines, STREAM) == [stream] && Values(p.lines, SEQUENCE) == [sequence]
    requires Values(p.lines, TIME) == [time] && |p.messages| == 1
    requires lossy(stream) == stream && lossy(sequence) == sequence && lossy(time) == time
    requires ParseU64(sequence).Some? && ParseI64(time).Some?
    ensures Taken(NO_FIELDS, p, lossy) ==
            Fields(stream, ParseU64(sequence).value, ParseI64(time).value, Some(p.messages[0]))
  {
  }

  /** An output record is read as what it stands for. */
  lemma {:induction false} OutputIsRead(p: Parts, executionId: bytes, attempt: u32, lossy: Lossy)
    requires KeepsAscii(lossy) && IsOutput(p)
    ensures Recorded(Taken(NO_FIELDS, p, lossy), executionId, attempt) == [Meant(p, executionId, attempt)]
  {
    var stream, sequence := Values(p.lines, STREAM)[0], Values(p.lines, SEQUENCE)[0];
    var time := Values(p.lines, TIME)[0];
    StreamsAreAscii(stream, lossy);
    NumbersAreAscii(sequence, lossy);
    NumbersAreAscii(time, lossy);
    ValuesAreRead(p, stream, sequence, time, lossy);
  }

  // ---- Journals ----

  /** The reader comes to a complete record with a message that is not an output record. */
  predicate Malformed(s: bytes) {
    EndingOf(s).Unclosed? || (EndingOf(s).Blank? && PartsOf(s).messages != [] && !IsOutput(PartsOf(s)))
  }

  function MalformedCount(s: bytes): nat
    decreases |s|
  {
    (if Malformed(s) then 1 else 0) + (if EndingOf(s).Blank? then MalformedCount(EndingOf(s).rest) else 0)
  }

  /**
    What docs/logging.md promises of complete records: the output records among them. Where an
    unclosed message leaves no end to be found, there are no more.
  */
  function Promised(s: bytes, executionId: bytes, attempt: u32): seq<LogRecord>
    decreases |s|
  {
    match EndingOf(s)
    case Blank(rest) =>
      (if IsOutput(PartsOf(s)) then [Meant(PartsOf(s), executionId, attempt)] else []) +
      Promised(rest, executionId, attempt)
    case _ => []
  }

  /** What the reader makes of a record at the end that breaks off, of which it is only said that earlier ones stay. */
  function Unfinished(s: bytes, executionId: bytes, attempt: u32, lossy: Lossy): seq<LogRecord>
    decreases |s|
  {
    match EndingOf(s)
    case Blank(rest) => Unfinished(rest, executionId, attempt, lossy)
    case CutOff => Recorded(Taken(NO_FIELDS, PartsOf(s), lossy), executionId, attempt)
    case Unclosed => []
  }

  lemma {:induction false} UnclosedHasMessage(s: bytes)
    requires EndingOf(s).Unclosed?
    ensures PartsOf(s).messages != []
    decreases |s|
  {
    var end := Position(s, NEWLINE).value;
    var line, rest := s[..end], s[end + 1..];
    if line != Ascii("MESSAGE") {
      UnclosedHasMessage(rest);
    } else if Closing(rest) == NEWLINE {
      UnclosedHasMessage(Behind(rest));
    }
  }

  /** The first record of some bytes: what is returned for it, and what else is read. */
  lemma FirstRecord(s: bytes, executionId: bytes, attempt: u32, lossy: Lossy)
    requires KeepsAscii(lossy) && s != []
    ensures var first := Recorded(Taken(NO_FIELDS, PartsOf(s), lossy), executionId, attempt);
            && Decoded(s, executionId, attempt, lossy) == first + Decoded(Left(s), executionId, attempt, lossy)
            && |first| == (if PartsOf(s).messages == [] then 0 else 1)
            && (IsOutput(PartsOf(s)) ==> first == [Meant(PartsOf(s), executionId, attempt)])
  {
    RecordEnds(s, NO_FIELDS, lossy);
    PartsAreTaken(s, NO_FIELDS, lossy);
    assert Decoded([], executionId, attempt, lossy) == [];
    if IsOutput(PartsOf(s)) {
      OutputIsRead(PartsOf(s), executionId, attempt, lossy);
    }
  }

  /** What the first record adds to what is returned and to what is due. */
  lemma OneRecord(first: seq<LogRecord>, due: seq<LogRecord>, got: seq<LogRecord>, promised: seq<LogRecord>,
                  unfinished: seq<LogRecord>, count: nat)
    requires |got| == |promised + unfinished| + count && (count == 0 ==> got == promised + unfinished)
    requires due == first || due == [] != first
    requires |first| <= 1
    ensures var more := if due == first then 0 else 1;
            && |first + got| == |due + promised + unfinished| + count + more
            && (count + more == 0 ==> first + got == due + promised + unfinished)
  {
    assert due + promised + unfinished == due + (promised + unfinished);
  }

  /** A complete record: what is due for it is what is returned, unless it is malformed. */
  lemma DueForFirst(s: bytes, executionId: bytes, attempt: u32, lossy: Lossy)
    requires KeepsAscii(lossy) && EndingOf(s).Blank?
    ensures var first := Recorded(Taken(NO_FIELDS, PartsOf(s), lossy), executionId, attempt);
            var due := if IsOutput(PartsOf(s)) then [Meant(PartsOf(s), executionId, attempt)] else [];
            && |first| <= 1
            && (if Malformed(s) then due == [] != first else due == first)
  {
    if IsOutput(PartsOf(s)) {
      OutputIsRead(PartsOf(s), executionId, attempt, lossy);
    }
  }

  /** Every malformed record is one more than promised, and without one nothing else is returned. */
  lemma {:induction false} EachIsOneTooMany(s: bytes, executionId: bytes, attempt: u32, lossy: Lossy)
    requires KeepsAscii(lossy)
    ensures var got := Decoded(s, executionId, attempt, lossy);
            var due := Promised(s, executionId, attempt) + Unfinished(s, executionId, attempt, lossy);
            && |got| == |due| + MalformedCount(s)
            && (MalformedCount(s) == 0 ==> got == due)
    decreases |s|
  {
    if s != [] {
      FirstRecord(s, executionId, attempt, lossy);
      if EndingOf(s).Blank? {
        var rest := EndingOf(s).rest;
        var p := PartsOf(s);
        EachIsOneTooMany(rest, executionId, attempt, lossy);
        DueForFirst(s, executionId, attempt, lossy);
        OneRecord(Recorded(Taken(NO_FIELDS, p, lossy), executionId, attempt),
                  if IsOutput(p) then [Meant(p, executionId, attempt)] else [],
                  Decoded(rest, executionId, attempt, lossy), Promised(rest, executionId, attempt),
                  Unfinished(rest, executionId, attempt, lossy), MalformedCount(rest));
      } else {
        LastIsKnown(s, executionId, attempt, lossy);
      }
    }
  }

  lemma LastIsKnown(s: bytes, executionId: bytes, attempt: u32, lossy: Lossy)
    requires KeepsAscii(lossy) && s != [] && !EndingOf(s).Blank?
    ensures var got := Decoded(s, executionId, attempt, lossy);
            if EndingOf(s).Unclosed? then |got| == 1 else got == Unfinished(s, executionId, attempt, lossy)
  {
    FirstRecord(s, executionId, attempt, lossy);
    assert Decoded([], executionId, attempt, lossy) == [];
    if EndingOf(s).Unclosed? {
      UnclosedHasMessage(s);
    }
  }

  /**
    Reading a journal gives the output records among the complete ones, and what there is of an
    unfinished last one, if and only if the reader comes to no malformed record: one with a
    message that no newline closes, or whose fields are missing, repeated or not of their kind.
  */
  lemma {:induction false} PromiseKeptExactly(s: bytes, executionId: bytes, attempt: u32, lossy: Lossy)
    requires KeepsAscii(lossy)
    ensures Decoded(s, executionId, attempt, lossy) ==
            Promised(s, executionId, attempt) + Unfinished(s, executionId, attempt, lossy)
            <==> MalformedCount(s) == 0
  {
    EachIsOneTooMany(s, executionId, attempt, lossy);
  }

  // ---- What is written is an output record ----

  lemma LineParts(line: bytes, rest: bytes)
    requires PlainLine(line)
    ensures PartsOf(line + [NEWLINE] + rest) == Parts([line] + PartsOf(rest).lines, PartsOf(rest).messages)
    ensures EndingOf(line + [NEWLINE] + rest) == EndingOf(rest)
  {
    FirstPosition(line, NEWLINE, rest);
  }

  lemma LinesSplit(lines: seq<bytes>, rest: bytes)
    requires lines != []
    ensures Lines(lines) + rest == lines[0] + [NEWLINE] + (Lines(lines[1..]) + rest)
  {
    Associates(lines[0] + [NEWLINE], Lines(lines[1..]), rest);
  }

  lemma FirstThenMore<T>(s: seq<T>, more: seq<T>)
    requires s != []
    ensures [s[0]] + (s[1..] + more) == s + more
  {
  }

  lemma {:induction false} HeaderParts(lines: seq<bytes>, rest: bytes)
    requires PlainLines(lines)
    ensures PartsOf(Lines(lines) + rest) == Parts(lines + PartsOf(rest).lines, PartsOf(rest).messages)
    ensures EndingOf(Lines(lines) + rest) == EndingOf(rest)
  {
    if lines == [] {
      assert Lines(lines) + rest == rest;
      assert lines + PartsOf(rest).lines == PartsOf(rest).lines;
    } else {
      HeaderParts(lines[1..], rest);
      LinesSplit(lines, rest);
      FirstThenMore(lines, PartsOf(rest).lines);
      LineParts(lines[0], Lines(lines[1..]) + rest);
    }
  }

  lemma BlankParts(rest: bytes)
    ensures PartsOf([NEWLINE] + rest) == Parts([], []) && EndingOf([NEWLINE] + rest) == Blank(rest)
  {
    assert [] + [NEWLINE] + rest == [NEWLINE] + rest;
    FirstPosition([], NEWLINE, rest);
  }

  lemma BodyParts(content: bytes, rest: bytes)
    requires |content| <= U64_MAX
    ensures PartsOf(Body(content) + rest) == Parts([], [content]) && EndingOf(Body(content) + rest) == Blank(rest)
  {
    var after := U64(|content|) + content + [NEWLINE] + ([NEWLINE] + rest);
    assert Body(content) + rest == MessagePart(after);
    MessageWord();
    FirstPosition(Ascii("MESSAGE"), NEWLINE, after);
    Widths();
    LeRoundTrip(|content|, 8);
    Slices(U64(|content|), content, NEWLINE, [NEWLINE] + rest);
    assert Behind(after) == [NEWLINE] + rest;
    BlankParts(rest);
  }

  lemma EntryParts(c: Configuration, chunk: OutputChunk, rest: bytes)
    requires Storable(chunk) && OneLine(c)
    ensures PartsOf(Entry(c, chunk) + rest) == Parts(HeaderLines(c, chunk), [chunk.content])
    ensures EndingOf(Entry(c, chunk) + rest) == Blank(rest)
  {
    var lines := HeaderLines(c, chunk);
    HeaderIsPlain(c, chunk);
    Associates(Lines(lines), Body(chunk.content), rest);
    HeaderParts(lines, Body(chunk.content) + rest);
    BodyParts(chunk.content, rest);
  }

  /** A line for each name in turn, and no name twice. */
  ghost predicate Named(lines: seq<bytes>, names: seq<bytes>, values: seq<bytes>) {
    && |lines| == |names| == |values|
    && (forall i :: 0 <= i < |lines| ==> EQUALS !in names[i] && lines[i] == ScalarLine(names[i], values[i]))
    && (forall i, j :: 0 <= i < j < |names| ==> names[i] != names[j])
  }

  lemma {:induction false} NoValue(lines: seq<bytes>, names: seq<bytes>, values: seq<bytes>, name: bytes)
    requires Named(lines, names, values) && name !in names
    ensures Values(lines, name) == []
  {
    if lines != [] {
      FirstPosition(names[0], EQUALS, values[0]);
      NoValue(lines[1..], names[1..], values[1..], name);
    }
  }

  lemma {:induction false} OneValue(lines: seq<bytes>, names: seq<bytes>, values: seq<bytes>, i: nat)
    requires Named(lines, names, values) && i < |lines|
    ensures Values(lines, names[i]) == [values[i]]
  {
    FirstPosition(names[0], EQUALS, values[0]);
    if i == 0 {
      NoValue(lines[1..], names[1..], values[1..], names[0]);
    } else {
      OneValue(lines[1..], names[1..], values[1..], i - 1);
      assert names[0] != names[i];
    }
  }

  function HeaderNames(): seq<bytes> {
    [Ascii("SUSM_FORMAT"), Ascii("SUSM_RECORD"), TIME, Ascii("SUSM_WORKLOAD"),
     Ascii("SUSM_EXECUTION"), Ascii("SUSM_ATTEMPT"), SEQUENCE, STREAM]
  }

  function HeaderValues(c: Configuration, chunk: OutputChunk): seq<bytes> {
    [Ascii("1"), Ascii("output"), PrintedSigned(chunk.timestampUnixMs), c.workloadId,
     c.executionId, Printed(c.attempt), Printed(chunk.sequence), StreamName(chunk.stream)]
  }

  lemma HeaderNamesAreWords()
    ensures forall name <- HeaderNames() :: EQUALS !in name
  {
    WordOf("SUSM_FORMAT");
    WordOf("SUSM_RECORD");
    WordOf("SUSM_TIMESTAMP_UNIX_MS");
    WordOf("SUSM_WORKLOAD");
    WordOf("SUSM_EXECUTION");
    WordOf("SUSM_ATTEMPT");
    WordOf("SUSM_SEQUENCE");
    WordOf("SUSM_STREAM");
  }

  /** The names differ in their length or in their sixth letter. */
  lemma HeaderNamesDiffer()
    ensures forall i, j :: 0 <= i < j < 8 ==> HeaderNames()[i] != HeaderNames()[j]
  {
    var names := HeaderNames();
    assert names[0][5] == 70 && names[1][5] == 82 && names[7][5] == 83 && names[3][5] == 87 && names[6][5] == 83;
    assert |names[0]| == |names[1]| == |names[7]| == 11 && |names[2]| == 22 && |names[3]| == |names[6]| == 13;
    assert |names[4]| == 14 && |names[5]| == 12;
  }

  lemma HeaderIsNamed(c: Configuration, chunk: OutputChunk)
    ensures Named(HeaderLines(c, chunk), HeaderNames(), HeaderValues(c, chunk))
  {
    HeaderNamesAreWords();
    HeaderNamesDiffer();
  }

  lemma Eight<T>(a: T, b: T, c: T, d: T, e: T, f: T, g: T, h: T)
    ensures var s := [a, b, c, d, e, f, g, h];
            s[0] == a && s[1] == b && s[2] == c && s[3] == d && s[4] == e && s[5] == f && s[6] == g && s[7] == h
  {
  }

  lemma HeaderIndexed(c: Configuration, chunk: OutputChunk)
    ensures var names := HeaderNames();
            && names[0] == Ascii("SUSM_FORMAT") && names[1] == Ascii("SUSM_RECORD") && names[2] == TIME
            && names[3] == Ascii("SUSM_WORKLOAD") && names[4] == Ascii("SUSM_EXECUTION")
            && names[5] == Ascii("SUSM_ATTEMPT") && names[6] == SEQUENCE && names[7] == STREAM
    ensures var values := HeaderValues(c, chunk);
            && values[0] == Ascii("1") && values[1] == Ascii("output")
            && values[2] == PrintedSigned(chunk.timestampUnixMs)
            && values[3] == c.workloadId && values[4] == c.executionId && values[5] == Printed(c.attempt)
            && values[6] == Printed(chunk.sequence) && values[7] == StreamName(chunk.stream)
  {
    Eight(Ascii("SUSM_FORMAT"), Ascii("SUSM_RECORD"), TIME, Ascii("SUSM_WORKLOAD"), Ascii("SUSM_EXECUTION"),
          Ascii("SUSM_ATTEMPT"), SEQUENCE, STREAM);
    Eight(Ascii("1"), Ascii("output"), PrintedSigned(chunk.timestampUnixMs), c.workloadId, c.executionId,
          Printed(c.attempt), Printed(chunk.sequence), StreamName(chunk.stream));
  }

  lemma HeaderHas(c: Configuration, chunk: OutputChunk, i: nat)
    requires i < 8
    ensures Values(HeaderLines(c, chunk), HeaderNames()[i]) == [HeaderValues(c, chunk)[i]]
  {
    HeaderIsNamed(c, chunk);
    OneValue(HeaderLines(c, chunk), HeaderNames(), HeaderValues(c, chunk), i);
  }

  lemma HeaderTexts(c: Configuration, chunk: OutputChunk)
    ensures Values(HeaderLines(c, chunk), Ascii("SUSM_FORMAT")) == [Ascii("1")]
    ensures Values(HeaderLines(c, chunk), Ascii("SUSM_RECORD")) == [Ascii("output")]
    ensures Values(HeaderLines(c, chunk), Ascii("SUSM_WORKLOAD")) == [c.workloadId]
    ensures Values(HeaderLines(c, chunk), Ascii("SUSM_EXECUTION")) == [c.executionId]
    ensures Values(HeaderLines(c, chunk), STREAM) == [StreamName(chunk.stream)]
  {
    HeaderIndexed(c, chunk);
    HeaderHas(c, chunk, 0);
    HeaderHas(c, chunk, 1);
    HeaderHas(c, chunk, 3);
    HeaderHas(c, chunk, 4);
    HeaderHas(c, chunk, 7);
  }

  lemma HeaderNumbers(c: Configuration, chunk: OutputChunk)
    ensures Values(HeaderLines(c, chunk), TIME) == [PrintedSigned(chunk.timestampUnixMs)]
    ensures Values(HeaderLines(c, chunk), SEQUENCE) == [Printed(chunk.sequence)]
    ensures Values(HeaderLines(c, chunk), Ascii("SUSM_ATTEMPT")) == [Printed(c.attempt)]
  {
    HeaderIndexed(c, chunk);
    HeaderHas(c, chunk, 2);
    HeaderHas(c, chunk, 5);
    HeaderHas(c, chunk, 6);
  }

  lemma HeaderIsOutput(c: Configuration, chunk: OutputChunk, executionId: bytes, attempt: u32)
    ensures var p := Parts(HeaderLines(c, chunk), [chunk.content]);
            IsOutput(p) && Recorded(FieldsOf(chunk), executionId, attempt) == [Meant(p, executionId, attempt)]
  {
    HeaderTexts(c, chunk);
    HeaderNumbers(c, chunk);
    U64RoundTrip(c.attempt);
    U64RoundTrip(chunk.sequence);
    I64RoundTrip(chunk.timestampUnixMs);
  }

  /** Every entry that is written is an output record, and stands for its chunk. */
  lemma {:induction false} WrittenIsOutput(c: Configuration, chunk: OutputChunk, rest: bytes, executionId: bytes,
                                           attempt: u32)
    requires Storable(chunk) && OneLine(c)
    ensures var p := PartsOf(Entry(c, chunk) + rest);
            && EndingOf(Entry(c, chunk) + rest) == Blank(rest)
            && IsOutput(p)
            && Recorded(FieldsOf(chunk), executionId, attempt) == [Meant(p, executionId, attempt)]
  {
    EntryParts(c, chunk, rest);
    HeaderIsOutput(c, chunk, executionId, attempt);
  }

  lemma HeaderlessIsMalformed(content: bytes)
    requires |content| <= U64_MAX
    ensures MalformedCount(Body(content)) == 1
  {
    BodyParts(content, []);
    assert Body(content) + [] == Body(content);
    assert MalformedCount([]) == 0;
  }

  /** For example: a record of nothing but a message is returned, with values that it does not have. */
  lemma {:induction false} HeaderlessIsReturned(content: bytes, executionId: bytes, attempt: u32, lossy: Lossy)
    requires |content| <= U64_MAX
    ensures MalformedCount(Body(content)) == 1
    ensures Decoded(Body(content), executionId, attempt, lossy) ==
            [LogRecord(executionId, attempt, [], 0, 0, content)]
  {
    var s := Body(content);
    HeaderlessIsMalformed(content);
    BodyIsRead(content, [], NO_FIELDS, lossy);
    assert s + [] == s;
    DecodedThen(s, NO_FIELDS.(message := Some(content)), [], executionId, attempt, lossy);
  }

  /** For example: a message that no newline closes is returned, and everything after it is dropped. */
  lemma {:induction false} MalformedIsReturned(
    lines: seq<bytes>, after: bytes, executionId: bytes, attempt: u32, lossy: Lossy)
    requires PlainLines(lines) && Fits(after) && Closing(after) != NEWLINE
    ensures var f := WithLines(NO_FIELDS, lines, lossy);
            Decoded(Lines(lines) + MessagePart(after), executionId, attempt, lossy) ==
            [LogRecord(executionId, attempt, f.stream, f.sequence, f.timestampUnixMs, Content(after))]
  {
    MessageIsReadOrNot(lines, after, NO_FIELDS, lossy);
    var s, f := Lines(lines) + MessagePart(after), WithLines(NO_FIELDS, lines, lossy);
    DecodedThen(s, f.(message := Some(Content(after))), [], executionId, attempt, lossy);
  }
}
