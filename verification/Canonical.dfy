/**
  The canonical byte stream behind a configuration's hashes (crates/config/src/canonical.rs).
  The hash itself is left uninterpreted: what is modelled is every byte fed to it.
*/
module Canonical {
  import opened Base
  import opened Endian
  import opened Restart

  // ---- Definitions (crates/config/src/model.rs) ----

  /** A UTF-8 string, as its bytes, and a collection, of a length that fits u64. */
  type Str = s: bytes | |s| <= U64_MAX witness []
  type Vec<T> = s: seq<T> | |s| <= U64_MAX witness []

  /** The order of ordered collections of strings. */
  predicate Less(a: bytes, b: bytes) {
    b != [] && (a == [] || a[0] < b[0] || (a[0] == b[0] && Less(a[1..], b[1..])))
  }

  datatype Variable = Variable(name: Str, value: Str)

  predicate VariablesSorted(s: seq<Variable>) {
    forall i, j :: 0 <= i < j < |s| ==> Less(s[i].name, s[j].name)
  }

  predicate NamesSorted(s: seq<Str>) {
    forall i, j :: 0 <= i < j < |s| ==> Less(s[i], s[j])
  }

  predicate CodesSorted(s: seq<u32>) {
    forall i, j :: 0 <= i < j < |s| ==> s[i] < s[j]
  }

  /** Ordered maps and sets, as the entries they iterate over. */
  type Variables = s: Vec<Variable> | VariablesSorted(s) witness []
  type Names = s: Vec<Str> | NamesSorted(s) witness []
  type Codes = s: Vec<u32> | CodesSorted(s) witness []

  datatype ProcessDefinition = ProcessDefinition(
    executable: Str, arguments: Vec<Str>, workingDirectory: Str, variables: Variables, unset: Names)

  datatype StopDefinition =
    | CtrlBreak(timeout: Duration)
    | Command(timeout: Duration, executable: Str, arguments: Vec<Str>)
    | Kill

  datatype Limit<T> = Limited(limit: T) | Unbounded

  datatype LoggingPolicy =
    | Disabled
    | Capture(segmentSize: u64, segmentAge: Duration, retentionSize: Limit<u64>, retentionAge: Limit<Duration>)

  datatype WorkloadKind = ServiceKind | JobKind

  datatype WorkloadDefinition = WorkloadDefinition(
    kind: WorkloadKind, process: ProcessDefinition, successExitCodes: Codes, restart: ExecutionRestartPolicy,
    stop: StopDefinition, logging: LoggingPolicy)

  datatype Entry = Entry(id: Str, definition: WorkloadDefinition)

  predicate EntriesSorted(s: seq<Entry>) {
    forall i, j :: 0 <= i < j < |s| ==> Less(s[i].id, s[j].id)
  }

  type Definitions = s: Vec<Entry> | EntriesSorted(s) witness []

  // ---- The stream ----

  /** A duration's nanoseconds as u128. */
  function Nanos(d: Duration): bytes { Le(d, 16) }

  function Text(s: Str): bytes { U64(|s|) + s }

  function Each<T>(encode: T -> bytes, s: seq<T>): bytes {
    if s == [] then [] else encode(s[0]) + Each(encode, s[1..])
  }

  function List<T>(encode: T -> bytes, s: Vec<T>): bytes {
    U64(|s|) + Each(encode, s)
  }

  function OfVariable(v: Variable): bytes { Text(v.name) + Text(v.value) }

  function OfProcess(p: ProcessDefinition): bytes {
    Text(p.executable) + (List(Text, p.arguments) + (Text(p.workingDirectory) +
    (List(OfVariable, p.variables) + List(Text, p.unset))))
  }

  function OfBackoff(b: BackoffPolicy): bytes {
    Nanos(b.initial) + (U32(b.multiplier) + Nanos(b.maximum))
  }

  function OfRetryLimit(limit: ServiceRetryLimit): bytes {
    match limit
    case Finite(maximum) => [1] + U32(maximum)
    case Unlimited => [2]
  }

  function OfRetry(p: ServiceRetryPolicy): bytes {
    OfRetryLimit(p.limit) + (Nanos(p.resetAfter) + OfBackoff(p.backoff))
  }

  function OfRestart(restart: ExecutionRestartPolicy): bytes {
    match restart
    case Service(Never) => [1]
    case Service(OnFailure(policy)) => [2] + OfRetry(policy)
    case Service(Always(policy)) => [3] + OfRetry(policy)
    case Job(JobNever) => [4]
    case Job(JobOnFailure(maxRestarts, backoff)) => [5] + (U32(maxRestarts) + OfBackoff(backoff))
  }

  function OfStop(stop: StopDefinition): bytes {
    match stop
    case CtrlBreak(timeout) => [1] + Nanos(timeout)
    case Command(timeout, executable, arguments) => [2] + (Nanos(timeout) + (Text(executable) + List(Text, arguments)))
    case Kill => [3]
  }

  function OfSizeLimit(limit: Limit<u64>): bytes {
    match limit
    case Limited(size) => [1] + U64(size)
    case Unbounded => [2]
  }

  function OfAgeLimit(limit: Limit<Duration>): bytes {
    match limit
    case Limited(age) => [1] + Nanos(age)
    case Unbounded => [2]
  }

  function OfLogging(logging: LoggingPolicy): bytes {
    match logging
    case Disabled => [1]
    case Capture(size, age, keptSize, keptAge) =>
      [2] + (U64(size) + (Nanos(age) + (OfSizeLimit(keptSize) + OfAgeLimit(keptAge))))
  }

  function OfKind(kind: WorkloadKind): bytes {
    match kind case ServiceKind => [1] case JobKind => [2]
  }

  function OfDefinition(d: WorkloadDefinition): bytes {
    OfKind(d.kind) + (OfProcess(d.process) + (List(U32, d.successExitCodes) +
    (OfRestart(d.restart) + (OfStop(d.stop) + OfLogging(d.logging)))))
  }

  function OfEntry(e: Entry): bytes {
    Text(e.id) + OfDefinition(e.definition)
  }

  const PROCESS_FORMAT: string := "susm-process-definition-v1"
  const CONFIG_FORMAT: string := "susm-config-generation-v1"

  function ProcessStream(p: ProcessDefinition): bytes {
    U64(|PROCESS_FORMAT|) + Ascii(PROCESS_FORMAT) + OfProcess(p)
  }

  function ConfigStream(definitions: Definitions): bytes {
    U64(|CONFIG_FORMAT|) + Ascii(CONFIG_FORMAT) + List(OfEntry, definitions)
  }

  // ---- Unique decodability ----

  lemma Split(a: bytes, b: bytes, x: bytes, y: bytes)
    requires a + x == b + y && |a| == |b|
    ensures a == b && x == y
  {
    assert a == (a + x)[..|a|] && b == (b + y)[..|b|];
    assert x == (a + x)[|a|..] && y == (b + y)[|b|..];
  }

  lemma Regroup(a: bytes, b: bytes, c: bytes)
    ensures a + b + c == a + (b + c)
  {
  }

  lemma LeInjective(m: nat, n: nat, width: nat, x: bytes, y: bytes)
    requires m < Pow(256, width) && n < Pow(256, width)
    requires Le(m, width) + x == Le(n, width) + y
    ensures m == n && x == y
  {
    Split(Le(m, width), Le(n, width), x, y);
    LeRoundTrip(m, width);
    LeRoundTrip(n, width);
  }

  lemma U32Injective(a: u32, b: u32, x: bytes, y: bytes)
    requires U32(a) + x == U32(b) + y
    ensures a == b && x == y
  {
    Widths();
    LeInjective(a, b, 4, x, y);
  }

  lemma U64Injective(a: u64, b: u64, x: bytes, y: bytes)
    requires U64(a) + x == U64(b) + y
    ensures a == b && x == y
  {
    Widths();
    LeInjective(a, b, 8, x, y);
  }

  lemma NanosInjective(a: Duration, b: Duration, x: bytes, y: bytes)
    requires Nanos(a) + x == Nanos(b) + y
    ensures a == b && x == y
  {
    Widths();
    LeInjective(a, b, 16, x, y);
  }

  lemma TextInjective(a: Str, b: Str, x: bytes, y: bytes)
    requires Text(a) + x == Text(b) + y
    ensures a == b && x == y
  {
    Regroup(U64(|a|), a, x);
    Regroup(U64(|b|), b, y);
    U64Injective(|a|, |b|, a + x, b + y);
    Split(a, b, x, y);
  }

  /** No encoding is the beginning of another: whatever follows, one value can be read back. */
  ghost predicate PrefixFree<T(!new)>(encode: T -> bytes) {
    forall a, b, x, y :: encode(a) + x == encode(b) + y ==> a == b && x == y
  }

  lemma {:induction false} EachInjective<T(!new)>(encode: T -> bytes, a: seq<T>, b: seq<T>, x: bytes, y: bytes)
    requires PrefixFree(encode) && |a| == |b| && Each(encode, a) + x == Each(encode, b) + y
    ensures a == b && x == y
  {
    if a == [] {
      assert [] + x == x && [] + y == y;
    } else {
      Regroup(encode(a[0]), Each(encode, a[1..]), x);
      Regroup(encode(b[0]), Each(encode, b[1..]), y);
      assert encode(a[0]) + (Each(encode, a[1..]) + x) == encode(b[0]) + (Each(encode, b[1..]) + y);
      EachInjective(encode, a[1..], b[1..], x, y);
      assert a == [a[0]] + a[1..] && b == [b[0]] + b[1..];
    }
  }

  lemma ListInjective<T(!new)>(encode: T -> bytes, a: Vec<T>, b: Vec<T>, x: bytes, y: bytes)
    requires PrefixFree(encode) && List(encode, a) + x == List(encode, b) + y
    ensures a == b && x == y
  {
    Regroup(U64(|a|), Each(encode, a), x);
    Regroup(U64(|b|), Each(encode, b), y);
    U64Injective(|a|, |b|, Each(encode, a) + x, Each(encode, b) + y);
    EachInjective(encode, a, b, x, y);
  }

  lemma VariableInjective(a: Variable, b: Variable, x: bytes, y: bytes)
    requires OfVariable(a) + x == OfVariable(b) + y
    ensures a == b && x == y
  {
    Regroup(Text(a.name), Text(a.value), x);
    Regroup(Text(b.name), Text(b.value), y);
    TextInjective(a.name, b.name, Text(a.value) + x, Text(b.value) + y);
    TextInjective(a.value, b.value, x, y);
  }

  lemma ElementsPrefixFree()
    ensures PrefixFree(Text) && PrefixFree(U32) && PrefixFree(OfVariable)
  {
    forall a, b, x, y | Text(a) + x == Text(b) + y ensures a == b && x == y {
      TextInjective(a, b, x, y);
    }
    forall a, b, x, y | U32(a) + x == U32(b) + y ensures a == b && x == y {
      U32Injective(a, b, x, y);
    }
    forall a, b, x, y | OfVariable(a) + x == OfVariable(b) + y ensures a == b && x == y {
      VariableInjective(a, b, x, y);
    }
  }

  /** The first of two parts, and what is left after it. */
  lemma Peel(a: bytes, ra: bytes, b: bytes, rb: bytes, x: bytes, y: bytes)
    requires a + ra + x == b + rb + y
    ensures a + (ra + x) == b + (rb + y)
  {
    Regroup(a, ra, x);
    Regroup(b, rb, y);
  }

  lemma BackoffInjective(a: BackoffPolicy, b: BackoffPolicy, x: bytes, y: bytes)
    requires OfBackoff(a) + x == OfBackoff(b) + y
    ensures a == b && x == y
  {
    var ra, rb := U32(a.multiplier) + Nanos(a.maximum), U32(b.multiplier) + Nanos(b.maximum);
    Peel(Nanos(a.initial), ra, Nanos(b.initial), rb, x, y);
    NanosInjective(a.initial, b.initial, ra + x, rb + y);
    Peel(U32(a.multiplier), Nanos(a.maximum), U32(b.multiplier), Nanos(b.maximum), x, y);
    U32Injective(a.multiplier, b.multiplier, Nanos(a.maximum) + x, Nanos(b.maximum) + y);
    NanosInjective(a.maximum, b.maximum, x, y);
  }

  /** Values with a tag in front: equal streams have equal tags and equal remainders. */
  lemma TagInjective(s: byte, t: byte, ra: bytes, rb: bytes, x: bytes, y: bytes)
    requires [s] + ra + x == [t] + rb + y
    ensures s == t && ra + x == rb + y
    ensures |ra| == |rb| ==> x == y
  {
    Peel([s], ra, [t], rb, x, y);
    Split([s], [t], ra + x, rb + y);
    if |ra| == |rb| {
      Split(ra, rb, x, y);
    }
  }

  /** An encoding as its tag and the rest. */
  lemma Tagged(e: bytes)
    requires e != []
    ensures e == [e[0]] + e[1..]
  {
  }

  lemma RetryLimitInjective(a: ServiceRetryLimit, b: ServiceRetryLimit, x: bytes, y: bytes)
    requires OfRetryLimit(a) + x == OfRetryLimit(b) + y
    ensures a == b && x == y
  {
    var ra, rb := OfRetryLimit(a)[1..], OfRetryLimit(b)[1..];
    Tagged(OfRetryLimit(a));
    Tagged(OfRetryLimit(b));
    TagInjective(OfRetryLimit(a)[0], OfRetryLimit(b)[0], ra, rb, x, y);
    if a.Finite? {
      U32Injective(a.maximum, b.maximum, x, y);
    }
  }

  lemma RetryInjective(a: ServiceRetryPolicy, b: ServiceRetryPolicy, x: bytes, y: bytes)
    requires OfRetry(a) + x == OfRetry(b) + y
    ensures a == b && x == y
  {
    var ra, rb := Nanos(a.resetAfter) + OfBackoff(a.backoff), Nanos(b.resetAfter) + OfBackoff(b.backoff);
    Peel(OfRetryLimit(a.limit), ra, OfRetryLimit(b.limit), rb, x, y);
    RetryLimitInjective(a.limit, b.limit, ra + x, rb + y);
    Peel(Nanos(a.resetAfter), OfBackoff(a.backoff), Nanos(b.resetAfter), OfBackoff(b.backoff), x, y);
    NanosInjective(a.resetAfter, b.resetAfter, OfBackoff(a.backoff) + x, OfBackoff(b.backoff) + y);
    BackoffInjective(a.backoff, b.backoff, x, y);
  }

  lemma RestartInjective(a: ExecutionRestartPolicy, b: ExecutionRestartPolicy, x: bytes, y: bytes)
    requires OfRestart(a) + x == OfRestart(b) + y
    ensures a == b && x == y
  {
    var ra, rb := OfRestart(a)[1..], OfRestart(b)[1..];
    Tagged(OfRestart(a));
    Tagged(OfRestart(b));
    TagInjective(OfRestart(a)[0], OfRestart(b)[0], ra, rb, x, y);
    match a {
      case Service(OnFailure(policy)) => RetryInjective(policy, b.service.policy, x, y);
      case Service(Always(policy)) => RetryInjective(policy, b.service.policy, x, y);
      case Job(JobOnFailure(maxRestarts, backoff)) =>
        Peel(U32(maxRestarts), OfBackoff(backoff), U32(b.job.maxRestarts), OfBackoff(b.job.backoff), x, y);
        U32Injective(maxRestarts, b.job.maxRestarts, OfBackoff(backoff) + x, OfBackoff(b.job.backoff) + y);
        BackoffInjective(backoff, b.job.backoff, x, y);
      case _ =>
    }
  }

  lemma StopInjective(a: StopDefinition, b: StopDefinition, x: bytes, y: bytes)
    requires OfStop(a) + x == OfStop(b) + y
    ensures a == b && x == y
  {
    var ra, rb := OfStop(a)[1..], OfStop(b)[1..];
    Tagged(OfStop(a));
    Tagged(OfStop(b));
    TagInjective(OfStop(a)[0], OfStop(b)[0], ra, rb, x, y);
    match a {
      case CtrlBreak(timeout) => NanosInjective(timeout, b.timeout, x, y);
      case Command(timeout, executable, arguments) =>
        var ca, cb := Text(executable) + List(Text, arguments), Text(b.executable) + List(Text, b.arguments);
        Peel(Nanos(timeout), ca, Nanos(b.timeout), cb, x, y);
        NanosInjective(timeout, b.timeout, ca + x, cb + y);
        Peel(Text(executable), List(Text, arguments), Text(b.executable), List(Text, b.arguments), x, y);
        TextInjective(executable, b.executable, List(Text, arguments) + x, List(Text, b.arguments) + y);
        ElementsPrefixFree();
        ListInjective(Text, arguments, b.arguments, x, y);
      case Kill =>
    }
  }

  lemma SizeLimitInjective(a: Limit<u64>, b: Limit<u64>, x: bytes, y: bytes)
    requires OfSizeLimit(a) + x == OfSizeLimit(b) + y
    ensures a == b && x == y
  {
    Tagged(OfSizeLimit(a));
    Tagged(OfSizeLimit(b));
    TagInjective(OfSizeLimit(a)[0], OfSizeLimit(b)[0], OfSizeLimit(a)[1..], OfSizeLimit(b)[1..], x, y);
    if a.Limited? {
      U64Injective(a.limit, b.limit, x, y);
    }
  }

  lemma AgeLimitInjective(a: Limit<Duration>, b: Limit<Duration>, x: bytes, y: bytes)
    requires OfAgeLimit(a) + x == OfAgeLimit(b) + y
    ensures a == b && x == y
  {
    Tagged(OfAgeLimit(a));
    Tagged(OfAgeLimit(b));
    TagInjective(OfAgeLimit(a)[0], OfAgeLimit(b)[0], OfAgeLimit(a)[1..], OfAgeLimit(b)[1..], x, y);
    if a.Limited? {
      NanosInjective(a.limit, b.limit, x, y);
    }
  }

  lemma LoggingInjective(a: LoggingPolicy, b: LoggingPolicy, x: bytes, y: bytes)
    requires OfLogging(a) + x == OfLogging(b) + y
    ensures a == b && x == y
  {
    Tagged(OfLogging(a));
    Tagged(OfLogging(b));
    TagInjective(OfLogging(a)[0], OfLogging(b)[0], OfLogging(a)[1..], OfLogging(b)[1..], x, y);
    if a.Capture? {
      var ka, kb := OfSizeLimit(a.retentionSize) + OfAgeLimit(a.retentionAge),
                    OfSizeLimit(b.retentionSize) + OfAgeLimit(b.retentionAge);
      Peel(U64(a.segmentSize), Nanos(a.segmentAge) + ka, U64(b.segmentSize), Nanos(b.segmentAge) + kb, x, y);
      U64Injective(a.segmentSize, b.segmentSize, Nanos(a.segmentAge) + ka + x, Nanos(b.segmentAge) + kb + y);
      Peel(Nanos(a.segmentAge), ka, Nanos(b.segmentAge), kb, x, y);
      NanosInjective(a.segmentAge, b.segmentAge, ka + x, kb + y);
      Peel(OfSizeLimit(a.retentionSize), OfAgeLimit(a.retentionAge),
           OfSizeLimit(b.retentionSize), OfAgeLimit(b.retentionAge), x, y);
      SizeLimitInjective(a.retentionSize, b.retentionSize, OfAgeLimit(a.retentionAge) + x,
          OfAgeLimit(b.retentionAge) + y);
      AgeLimitInjective(a.retentionAge, b.retentionAge, x, y);
    }
  }

  lemma ProcessInjective(a: ProcessDefinition, b: ProcessDefinition, x: bytes, y: bytes)
    requires OfProcess(a) + x == OfProcess(b) + y
    ensures a == b && x == y
  {
    var ua, ub := List(Text, a.unset), List(Text, b.unset);
    var va, vb := List(OfVariable, a.variables), List(OfVariable, b.variables);
    var wa, wb := Text(a.workingDirectory), Text(b.workingDirectory);
    var ga, gb := List(Text, a.arguments), List(Text, b.arguments);
    ElementsPrefixFree();
    Peel(Text(a.executable), ga + (wa + (va + ua)), Text(b.executable), gb + (wb + (vb + ub)), x, y);
    TextInjective(a.executable, b.executable, ga + (wa + (va + ua)) + x, gb + (wb + (vb + ub)) + y);
    Peel(ga, wa + (va + ua), gb, wb + (vb + ub), x, y);
    ListInjective(Text, a.arguments, b.arguments, wa + (va + ua) + x, wb + (vb + ub) + y);
    Peel(wa, va + ua, wb, vb + ub, x, y);
    TextInjective(a.workingDirectory, b.workingDirectory, va + ua + x, vb + ub + y);
    Peel(va, ua, vb, ub, x, y);
    ListInjective(OfVariable, a.variables, b.variables, ua + x, ub + y);
    ListInjective(Text, a.unset, b.unset, x, y);
  }

  lemma KindInjective(a: WorkloadKind, b: WorkloadKind, x: bytes, y: bytes)
    requires OfKind(a) + x == OfKind(b) + y
    ensures a == b && x == y
  {
    Split(OfKind(a), OfKind(b), x, y);
    assert OfKind(a)[0] == OfKind(b)[0];
  }

  lemma DefinitionInjective(a: WorkloadDefinition, b: WorkloadDefinition, x: bytes, y: bytes)
    requires OfDefinition(a) + x == OfDefinition(b) + y
    ensures a == b && x == y
  {
    var la, lb := OfLogging(a.logging), OfLogging(b.logging);
    var sa, sb := OfStop(a.stop) + la, OfStop(b.stop) + lb;
    var ra, rb := OfRestart(a.restart) + sa, OfRestart(b.restart) + sb;
    var ca, cb := List(U32, a.successExitCodes) + ra, List(U32, b.successExitCodes) + rb;
    var pa, pb := OfProcess(a.process) + ca, OfProcess(b.process) + cb;
    ElementsPrefixFree();
    Peel(OfKind(a.kind), pa, OfKind(b.kind), pb, x, y);
    KindInjective(a.kind, b.kind, pa + x, pb + y);
    Peel(OfProcess(a.process), ca, OfProcess(b.process), cb, x, y);
    ProcessInjective(a.process, b.process, ca + x, cb + y);
    Peel(List(U32, a.successExitCodes), ra, List(U32, b.successExitCodes), rb, x, y);
    ListInjective(U32, a.successExitCodes, b.successExitCodes, ra + x, rb + y);
    Peel(OfRestart(a.restart), sa, OfRestart(b.restart), sb, x, y);
    RestartInjective(a.restart, b.restart, sa + x, sb + y);
    Peel(OfStop(a.stop), la, OfStop(b.stop), lb, x, y);
    StopInjective(a.stop, b.stop, la + x, lb + y);
    LoggingInjective(a.logging, b.logging, x, y);
  }

  lemma EntryInjective(a: Entry, b: Entry, x: bytes, y: bytes)
    requires OfEntry(a) + x == OfEntry(b) + y
    ensures a == b && x == y
  {
    Peel(Text(a.id), OfDefinition(a.definition), Text(b.id), OfDefinition(b.definition), x, y);
    TextInjective(a.id, b.id, OfDefinition(a.definition) + x, OfDefinition(b.definition) + y);
    DefinitionInjective(a.definition, b.definition, x, y);
  }

  // ---- Theorems ----

  /** The stream hashed for a process determines the whole process definition. */
  lemma ProcessDetermined(a: ProcessDefinition, b: ProcessDefinition)
    ensures ProcessStream(a) == ProcessStream(b) <==> a == b
  {
    if ProcessStream(a) == ProcessStream(b) {
      var prefix := U64(|PROCESS_FORMAT|) + Ascii(PROCESS_FORMAT);
      Split(prefix, prefix, OfProcess(a), OfProcess(b));
      assert OfProcess(a) + [] == OfProcess(a) && OfProcess(b) + [] == OfProcess(b);
      ProcessInjective(a, b, [], []);
    }
  }

  /** The stream hashed for a set of definitions determines every id and every definition. */
  lemma ConfigDetermined(a: Definitions, b: Definitions)
    ensures ConfigStream(a) == ConfigStream(b) <==> a == b
  {
    if ConfigStream(a) == ConfigStream(b) {
      var prefix := U64(|CONFIG_FORMAT|) + Ascii(CONFIG_FORMAT);
      Split(prefix, prefix, List(OfEntry, a), List(OfEntry, b));
      assert List(OfEntry, a) + [] == List(OfEntry, a) && List(OfEntry, b) + [] == List(OfEntry, b);
      forall e, f, x, y | OfEntry(e) + x == OfEntry(f) + y ensures e == f && x == y {
        EntryInjective(e, f, x, y);
      }
      ListInjective(OfEntry, a, b, [], []);
    }
  }

  /** No process and no set of definitions are hashed from the same stream. */
  lemma DomainsSeparated(p: ProcessDefinition, definitions: Definitions)
    ensures ProcessStream(p) != ConfigStream(definitions)
  {
    assert ProcessStream(p)[0] == U64(|PROCESS_FORMAT|)[0] == 26;
    assert ConfigStream(definitions)[0] == U64(|CONFIG_FORMAT|)[0] == 25;
  }

  // ---- Ordered collections, by content ----

  ghost predicate StrictOrder<T(!new)>(less: (T, T) -> bool) {
    && (forall x :: !less(x, x))
    && (forall x, y, z :: less(x, y) && less(y, z) ==> less(x, z))
  }

  ghost predicate SortedBy<T>(less: (T, T) -> bool, s: seq<T>) {
    forall i, j :: 0 <= i < j < |s| ==> less(s[i], s[j])
  }

  /** Iterating an ordered set in order is the only way to list it. */
  lemma {:induction false} SortedUnique<T(!new)>(less: (T, T) -> bool, a: seq<T>, b: seq<T>)
    requires StrictOrder(less) && SortedBy(less, a) && SortedBy(less, b)
    requires forall x :: x in a <==> x in b
    ensures a == b
  {
    assert (b != [] ==> b[0] in b) && (a != [] ==> a[0] in a);
    if a != [] {
      assert a[0] in b && b[0] in a;
      assert a[0] == b[0];
      forall x ensures x in a[1..] <==> x in b[1..] {
        assert x in a[1..] <==> x in a && x != a[0];
        assert x in b[1..] <==> x in b && x != b[0];
      }
      SortedUnique(less, a[1..], b[1..]);
    }
  }

  lemma {:induction false} LessOrders(a: bytes, b: bytes, c: bytes)
    ensures !Less(a, a)
    ensures Less(a, b) && Less(b, c) ==> Less(a, c)
  {
    if a != [] {
      LessOrders(a[1..], if b == [] then [] else b[1..], if c == [] then [] else c[1..]);
    }
  }

  lemma LessIsStrict()
    ensures StrictOrder((x: Str, y: Str) => Less(x, y))
    ensures StrictOrder((x: Variable, y: Variable) => Less(x.name, y.name))
    ensures StrictOrder((x: Entry, y: Entry) => Less(x.id, y.id))
  {
    forall a, b, c ensures !Less(a, a) && (Less(a, b) && Less(b, c) ==> Less(a, c)) {
      LessOrders(a, b, c);
    }
  }

  /** Exit codes and unset names are determined by their sets, variables by their entries. */
  lemma CollectionsByContent(codes: Codes, codes': Codes, names: Names, names': Names, vars: Variables,
                             vars': Variables)
    ensures (forall c :: c in codes <==> c in codes') ==> codes == codes'
    ensures (forall n :: n in names <==> n in names') ==> names == names'
    ensures (forall v :: v in vars <==> v in vars') ==> vars == vars'
  {
    LessIsStrict();
    if forall c :: c in codes <==> c in codes' {
      SortedUnique((x: u32, y: u32) => x < y, codes, codes');
    }
    if forall n :: n in names <==> n in names' {
      SortedUnique((x: Str, y: Str) => Less(x, y), names, names');
    }
    if forall v :: v in vars <==> v in vars' {
      SortedUnique((x: Variable, y: Variable) => Less(x.name, y.name), vars, vars');
    }
  }

  /** The ordered entries are those of the map. */
  ghost predicate Lists(definitions: Definitions, m: map<Str, WorkloadDefinition>) {
    forall e: Entry :: e in definitions <==> e.id in m && m[e.id] == e.definition
  }

  /** Two sets of definitions are hashed from the same stream exactly when they are the same map. */
  lemma GenerationDeterminesMap(a: Definitions, m: map<Str, WorkloadDefinition>,
                                b: Definitions, n: map<Str, WorkloadDefinition>)
    requires Lists(a, m) && Lists(b, n)
    ensures ConfigStream(a) == ConfigStream(b) <==> m == n
  {
    ConfigDetermined(a, b);
    if m == n {
      LessIsStrict();
      SortedUnique((x: Entry, y: Entry) => Less(x.id, y.id), a, b);
    }
    if a == b {
      forall id: Str ensures id in m <==> id in n
                     ensures id in m ==> m[id] == n[id]
      {
        if id in m {
          assert Entry(id, m[id]) in a;
        }
        if id in n {
          assert Entry(id, n[id]) in b;
        }
      }
    }
  }

  // ---- The writer ----

  /** `stream` is everything the digest was updated with. */
  class HashWriter {
    var stream: bytes

    constructor (format: Str)
      ensures stream == U64(|format|) + format
    {
      stream := U64(|format|);
      stream := stream + format;
    }

    method Tag(value: byte)
      modifies this
      ensures stream == old(stream) + [value]
    {
      stream := stream + [value];
    }

    method WriteU32(value: u32)
      modifies this
      ensures stream == old(stream) + U32(value)
    {
      stream := stream + Le(value, 4);
    }

    method WriteU64(value: u64)
      modifies this
      ensures stream == old(stream) + U64(value)
    {
      stream := stream + Le(value, 8);
    }

    method WriteDuration(value: Duration)
      modifies this
      ensures stream == old(stream) + Nanos(value)
    {
      stream := stream + Le(value, 16);
    }

    method WriteString(value: Str)
      modifies this
      ensures stream == old(stream) + Text(value)
    {
      WriteU64(|value|);
      stream := stream + value;
    }
  }

  /** One element of a list has been written. */
  lemma Written<T>(encode: T -> bytes, s: seq<T>, i: nat, before: bytes, whole: bytes)
    requires i < |s| && before + Each(encode, s[i..]) == whole
    ensures before + encode(s[i]) + Each(encode, s[i + 1..]) == whole
  {
    assert s[i..][1..] == s[i + 1..];
    Regroup(before, encode(s[i]), Each(encode, s[i + 1..]));
  }

  method WriteStrings(writer: HashWriter, strings: Vec<Str>)
    modifies writer
    ensures writer.stream == old(writer.stream) + List(Text, strings)
  {
    writer.WriteU64(|strings|);
    Regroup(old(writer.stream), U64(|strings|), Each(Text, strings));
    for i := 0 to |strings|
      invariant writer.stream + Each(Text, strings[i..]) == old(writer.stream) + List(Text, strings)
    {
      Written(Text, strings, i, writer.stream, old(writer.stream) + List(Text, strings));
      writer.WriteString(strings[i]);
    }
    assert writer.stream + [] == writer.stream;
  }

  method WriteProcess(writer: HashWriter, process: ProcessDefinition)
    modifies writer
    ensures writer.stream == old(writer.stream) + OfProcess(process)
  {
    writer.WriteString(process.executable);
    WriteStrings(writer, process.arguments);
    writer.WriteString(process.workingDirectory);
    ghost var beforeVariables := writer.stream;
    writer.WriteU64(|process.variables|);
    ghost var target := beforeVariables + List(OfVariable, process.variables);
    Regroup(beforeVariables, U64(|process.variables|), Each(OfVariable, process.variables));
    for i := 0 to |process.variables|
      invariant writer.stream + Each(OfVariable, process.variables[i..]) == target
    {
      Written(OfVariable, process.variables, i, writer.stream, target);
      var variable := process.variables[i];
      Regroup(writer.stream, Text(variable.name), Text(variable.value));
      writer.WriteString(variable.name);
      writer.WriteString(variable.value);
    }
    assert writer.stream + [] == writer.stream;
    WriteStrings(writer, process.unset);
    Regroup5(old(writer.stream), Text(process.executable), List(Text, process.arguments),
        Text(process.workingDirectory),
             List(OfVariable, process.variables), List(Text, process.unset));
  }

  lemma Regroup5(a: bytes, b: bytes, c: bytes, d: bytes, e: bytes, f: bytes)
    ensures a + b + c + d + e + f == a + (b + (c + (d + (e + f))))
    ensures a + b + c + d + e == a + (b + (c + (d + e)))
    ensures a + b + c + d == a + (b + (c + d))
  {
  }

  method WriteBackoff(writer: HashWriter, backoff: BackoffPolicy)
    modifies writer
    ensures writer.stream == old(writer.stream) + OfBackoff(backoff)
  {
    writer.WriteDuration(backoff.initial);
    writer.WriteU32(backoff.multiplier);
    writer.WriteDuration(backoff.maximum);
    Regroup5(old(writer.stream), Nanos(backoff.initial), U32(backoff.multiplier), Nanos(backoff.maximum), [], []);
  }

  method WriteServiceRetry(writer: HashWriter, policy: ServiceRetryPolicy)
    modifies writer
    ensures writer.stream == old(writer.stream) + OfRetry(policy)
  {
    match policy.limit {
      case Finite(maximum) =>
        writer.Tag(1);
        writer.WriteU32(maximum);
        Regroup(old(writer.stream), [1], U32(maximum));
      case Unlimited => writer.Tag(2);
    }
    writer.WriteDuration(policy.resetAfter);
    WriteBackoff(writer, policy.backoff);
    Regroup5(old(writer.stream), OfRetryLimit(policy.limit), Nanos(policy.resetAfter), OfBackoff(policy.backoff),
        [], []);
  }

  method WriteRestart(writer: HashWriter, restart: ExecutionRestartPolicy)
    modifies writer
    ensures writer.stream == old(writer.stream) + OfRestart(restart)
  {
    match restart {
      case Service(Never) => writer.Tag(1);
      case Service(OnFailure(policy)) =>
        writer.Tag(2);
        WriteServiceRetry(writer, policy);
        Regroup(old(writer.stream), [2], OfRetry(policy));
      case Service(Always(policy)) =>
        writer.Tag(3);
        WriteServiceRetry(writer, policy);
        Regroup(old(writer.stream), [3], OfRetry(policy));
      case Job(JobNever) => writer.Tag(4);
      case Job(JobOnFailure(maxRestarts, backoff)) =>
        writer.Tag(5);
        writer.WriteU32(maxRestarts);
        WriteBackoff(writer, backoff);
        Regroup5(old(writer.stream), [5], U32(maxRestarts), OfBackoff(backoff), [], []);
    }
  }

  method WriteStop(writer: HashWriter, stop: StopDefinition)
    modifies writer
    ensures writer.stream == old(writer.stream) + OfStop(stop)
  {
    match stop {
      case CtrlBreak(timeout) =>
        writer.Tag(1);
        writer.WriteDuration(timeout);
        Regroup(old(writer.stream), [1], Nanos(timeout));
      case Command(timeout, executable, arguments) =>
        writer.Tag(2);
        writer.WriteDuration(timeout);
        writer.WriteString(executable);
        WriteStrings(writer, arguments);
        Regroup5(old(writer.stream), [2], Nanos(timeout), Text(executable), List(Text, arguments), []);
      case Kill => writer.Tag(3);
    }
  }

  method WriteLogging(writer: HashWriter, logging: LoggingPolicy)
    modifies writer
    ensures writer.stream == old(writer.stream) + OfLogging(logging)
  {
    match logging {
      case Disabled => writer.Tag(1);
      case Capture(size, age, keptSize, keptAge) =>
        writer.Tag(2);
        writer.WriteU64(size);
        writer.WriteDuration(age);
        ghost var beforeSize := writer.stream;
        match keptSize {
          case Limited(limit) =>
            writer.Tag(1);
            writer.WriteU64(limit);
            Regroup(beforeSize, [1], U64(limit));
          case Unbounded => writer.Tag(2);
        }
        ghost var beforeAge := writer.stream;
        match keptAge {
          case Limited(limit) =>
            writer.Tag(1);
            writer.WriteDuration(limit);
            Regroup(beforeAge, [1], Nanos(limit));
          case Unbounded => writer.Tag(2);
        }
        Regroup5(old(writer.stream), [2], U64(size), Nanos(age), OfSizeLimit(keptSize), OfAgeLimit(keptAge));
    }
  }

  method WriteDefinition(writer: HashWriter, definition: WorkloadDefinition)
    modifies writer
    ensures writer.stream == old(writer.stream) + OfDefinition(definition)
  {
    writer.Tag(match definition.kind case ServiceKind => 1 case JobKind => 2);
    WriteProcess(writer, definition.process);
    ghost var beforeCodes := writer.stream;
    var codes := definition.successExitCodes;
    writer.WriteU64(|codes|);
    ghost var target := beforeCodes + List(U32, codes);
    Regroup(beforeCodes, U64(|codes|), Each(U32, codes));
    for i := 0 to |codes|
      invariant writer.stream + Each(U32, codes[i..]) == target
    {
      Written(U32, codes, i, writer.stream, target);
      writer.WriteU32(codes[i]);
    }
    assert writer.stream + [] == writer.stream;
    WriteRestart(writer, definition.restart);
    WriteStop(writer, definition.stop);
    WriteLogging(writer, definition.logging);
    Regroup(old(writer.stream) + OfKind(definition.kind), OfProcess(definition.process), List(U32, codes));
    Regroup6(old(writer.stream), OfKind(definition.kind), OfProcess(definition.process), List(U32, codes),
             OfRestart(definition.restart), OfStop(definition.stop), OfLogging(definition.logging));
  }

  lemma Regroup6(a: bytes, b: bytes, c: bytes, d: bytes, e: bytes, f: bytes, g: bytes)
    ensures a + b + c + d + e + f + g == a + (b + (c + (d + (e + (f + g)))))
  {
  }

  /** `config_generation` and `process_hash`, up to the hash of the stream. */
  method ConfigGeneration(definitions: Definitions) returns (writer: HashWriter)
    ensures fresh(writer) && writer.stream == ConfigStream(definitions)
  {
    writer := new HashWriter(Ascii(CONFIG_FORMAT));
    ghost var prefix := writer.stream;
    writer.WriteU64(|definitions|);
    Regroup(prefix, U64(|definitions|), Each(OfEntry, definitions));
    for i := 0 to |definitions|
      invariant writer.stream + Each(OfEntry, definitions[i..]) == ConfigStream(definitions)
      invariant fresh(writer)
    {
      Written(OfEntry, definitions, i, writer.stream, ConfigStream(definitions));
      Regroup(writer.stream, Text(definitions[i].id), OfDefinition(definitions[i].definition));
      writer.WriteString(definitions[i].id);
      WriteDefinition(writer, definitions[i].definition);
    }
    assert writer.stream + [] == writer.stream;
  }

  method ProcessHash(process: ProcessDefinition) returns (writer: HashWriter)
    ensures fresh(writer) && writer.stream == ProcessStream(process)
  {
    writer := new HashWriter(Ascii(PROCESS_FORMAT));
    WriteProcess(writer, process);
  }
}
