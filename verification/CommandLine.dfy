/**
  Encoding an executable and its arguments as one Windows command line
  (crates/supervisor/src/process.rs), against the rules by which the Microsoft C runtime takes
  a command line apart again.
*/
module CommandLines {
  import opened Base

  const MAX_COMMAND_LINE_CODE_UNITS: nat := 32_767

  const QUOTE: char := '"'
  const BACKSLASH: char := '\\'

  function Backslashes(n: nat): (s: string)
    ensures |s| == n && forall i :: 0 <= i < n ==> s[i] == BACKSLASH
  {
    seq(n, _ => BACKSLASH)
  }

  /** Rust's `char::is_whitespace`: the Unicode White_Space property. */
  predicate IsWhitespace(c: char) {
    || '\U{9}' <= c <= '\U{D}' || c == ' ' || c == '\U{85}' || c == '\U{A0}' || c == '\U{1680}'
    || '\U{2000}' <= c <= '\U{200A}' || c == '\U{2028}' || c == '\U{2029}' || c == '\U{202F}'
    || c == '\U{205F}' || c == '\U{3000}'
  }

  predicate Special(c: char) {
    IsWhitespace(c) || c == QUOTE
  }

  predicate Plain(argument: string) {
    argument != [] && forall i :: 0 <= i < |argument| ==> !Special(argument[i])
  }

  // ---- Quoting ----

  /** What is still to be written of a quoted argument, with `k` backslashes held back, up to the closing quote. */
  function QuotedFrom(argument: string, k: nat): string {
    if argument == [] then Backslashes(2 * k) + [QUOTE]
    else if argument[0] == BACKSLASH then QuotedFrom(argument[1..], k + 1)
    else if argument[0] == QUOTE then Backslashes(2 * k + 1) + [QUOTE] + QuotedFrom(argument[1..], 0)
    else Backslashes(k) + [argument[0]] + QuotedFrom(argument[1..], 0)
  }

  function Quoted(argument: string): string {
    if Plain(argument) then argument else [QUOTE] + QuotedFrom(argument, 0)
  }

  function Arguments(arguments: seq<string>): string {
    if arguments == [] then [] else [' '] + Quoted(arguments[0]) + Arguments(arguments[1..])
  }

  function CommandLine(executable: string, arguments: seq<string>): string {
    Quoted(executable) + Arguments(arguments)
  }

  /** Code units of a string in UTF-16. */
  function Utf16Length(s: string): nat {
    if s == [] then 0 else (if s[0] as int > 0xFFFF then 2 else 1) + Utf16Length(s[1..])
  }

  datatype ProcessError = NotUnicode | TooLong(codeUnits: nat)

  /** What is written for `k` held-back backslashes before a character that is no backslash. */
  function Before(k: nat, c: char): string {
    Backslashes(if c == QUOTE then 2 * k + 1 else k)
  }

  /** One more character of the argument is dealt with. */
  lemma QuoteNext(quoted: string, argument: string, i: nat, k: nat)
    requires i < |argument|
    ensures quoted + QuotedFrom(argument[i..], k) ==
            if argument[i] == BACKSLASH then quoted + QuotedFrom(argument[i + 1..], k + 1)
            else quoted + Before(k, argument[i]) + [argument[i]] + QuotedFrom(argument[i + 1..], 0)
  {
    assert argument[i..][1..] == argument[i + 1..];
    if argument[i] != BACKSLASH {
      var c, rest := argument[i], QuotedFrom(argument[i + 1..], 0);
      assert quoted + (Before(k, c) + [c] + rest) == quoted + Before(k, c) + [c] + rest;
    }
  }

  method NeedsNoQuotes(argument: string) returns (plain: bool)
    ensures plain <==> Plain(argument)
  {
    plain := argument != [];
    for i := 0 to |argument|
      invariant plain <==> argument != [] && forall j :: 0 <= j < i ==> !Special(argument[j])
    {
      if Special(argument[i]) {
        plain := false;
      }
    }
  }

  method QuoteWindowsArgument(argument: string) returns (quoted: string)
    ensures quoted == Quoted(argument)
  {
    var plain := NeedsNoQuotes(argument);
    if plain {
      return argument;
    }
    quoted := [QUOTE];
    var backslashes := 0;
    assert argument[0..] == argument;
    for i := 0 to |argument|
      invariant quoted + QuotedFrom(argument[i..], backslashes) == Quoted(argument)
    {
      var character := argument[i];
      QuoteNext(quoted, argument, i, backslashes);
      if character == BACKSLASH {
        backslashes := backslashes + 1;
      } else {
        if character == QUOTE {
          quoted := quoted + Backslashes(backslashes * 2 + 1);
          quoted := quoted + [QUOTE];
        } else {
          quoted := quoted + Backslashes(backslashes);
          quoted := quoted + [character];
        }
        backslashes := 0;
      }
    }
    QuoteEnd(quoted, argument[|argument|..], backslashes);
    quoted := quoted + Backslashes(backslashes * 2);
    quoted := quoted + [QUOTE];
  }

  lemma QuoteEnd(quoted: string, rest: string, k: nat)
    requires rest == []
    ensures quoted + QuotedFrom(rest, k) == quoted + Backslashes(k * 2) + [QUOTE]
  {
  }

  /** `executable` is None when the path is not valid Unicode. */
  method EncodeCommandLine(executable: Option<string>, arguments: seq<string>) returns (r: Result<string, ProcessError>)
    ensures executable.None? ==> r == Err(NotUnicode)
    ensures executable.Some? ==>
              var encoded := CommandLine(executable.value, arguments);
              r == if Utf16Length(encoded) + 1 > MAX_COMMAND_LINE_CODE_UNITS then Err(TooLong(Utf16Length(encoded) + 1))
                   else Ok(encoded)
  {
    if executable.None? {
      return Err(NotUnicode);
    }
    var commandLine := QuoteWindowsArgument(executable.value);
    for i := 0 to |arguments|
      invariant commandLine + Arguments(arguments[i..]) == CommandLine(executable.value, arguments)
    {
      var quoted := QuoteWindowsArgument(arguments[i]);
      NextArgument(commandLine, arguments, i);
      commandLine := commandLine + [' '];
      commandLine := commandLine + quoted;
    }
    assert commandLine + [] == commandLine;
    var length := Utf16Length(commandLine) + 1;
    if length > MAX_COMMAND_LINE_CODE_UNITS {
      return Err(TooLong(length));
    }
    return Ok(commandLine);
  }

  lemma NextArgument(before: string, arguments: seq<string>, i: nat)
    requires i < |arguments|
    ensures before + Arguments(arguments[i..]) == before + [' '] + Quoted(arguments[i]) + Arguments(arguments[i + 1..])
  {
    assert arguments[i..][1..] == arguments[i + 1..];
    var quoted, rest := Quoted(arguments[i]), Arguments(arguments[i + 1..]);
    assert before + ([' '] + quoted + rest) == before + [' '] + quoted + rest;
  }

  // ---- How the Microsoft C runtime parses a command line ----

  datatype Parsed = Parsed(argument: string, rest: string)

  function Prefixed(prefix: string, p: Parsed): Parsed {
    Parsed(prefix + p.argument, p.rest)
  }

  predicate IsBlank(c: char) {
    c == ' ' || c == '\t'
  }

  /**
    One argument. 2n backslashes and a quote are n backslashes and a delimiter; 2n+1 backslashes
    and a quote are n backslashes and a literal quote; other backslashes are literal; a pair of
    quotes inside a quoted part is a literal quote; a blank outside ends the argument. `k` counts
    the backslashes just read.
  */
  function ParseArgument(s: string, quoting: bool, k: nat): (p: Parsed)
    ensures |p.rest| <= |s|
    ensures s != [] && !IsBlank(s[0]) ==> |p.rest| < |s|
    decreases |s|
  {
    if s == [] then Parsed(Backslashes(k), [])
    else if s[0] == BACKSLASH then ParseArgument(s[1..], quoting, k + 1)
    else if s[0] == QUOTE then
      if k % 2 == 1 then Prefixed(Backslashes(k / 2) + [QUOTE], ParseArgument(s[1..], quoting, 0))
      else if quoting && |s| > 1 && s[1] == QUOTE then
        Prefixed(Backslashes(k / 2) + [QUOTE], ParseArgument(s[2..], quoting, 0))
      else Prefixed(Backslashes(k / 2), ParseArgument(s[1..], !quoting, 0))
    else if !quoting && IsBlank(s[0]) then Parsed(Backslashes(k), s)
    else Prefixed(Backslashes(k) + [s[0]], ParseArgument(s[1..], quoting, 0))
  }

  function ParseArguments(s: string): seq<string>
    decreases |s|
  {
    if s == [] then []
    else if IsBlank(s[0]) then ParseArguments(s[1..])
    else
      var p := ParseArgument(s, false, 0);
      [p.argument] + ParseArguments(p.rest)
  }

  /** The program name: quotes only delimit, and backslashes mean nothing. */
  function ParseProgram(s: string, quoting: bool): Parsed {
    if s == [] then Parsed([], [])
    else if s[0] == QUOTE then ParseProgram(s[1..], !quoting)
    else if !quoting && IsBlank(s[0]) then Parsed([], s)
    else Prefixed([s[0]], ParseProgram(s[1..], quoting))
  }

  function Parse(commandLine: string): seq<string> {
    var program := ParseProgram(commandLine, false);
    [program.argument] + ParseArguments(program.rest)
  }

  // ---- Arguments survive ----

  predicate Ends(rest: string) {
    rest == [] || IsBlank(rest[0])
  }

  lemma {:induction false} ReadBackslashes(n: nat, s: string, quoting: bool, k: nat)
    ensures ParseArgument(Backslashes(n) + s, quoting, k) == ParseArgument(s, quoting, k + n)
  {
    if n == 0 {
      assert Backslashes(n) + s == s;
    } else {
      assert (Backslashes(n) + s)[1..] == Backslashes(n - 1) + s;
      ReadBackslashes(n - 1, s, quoting, k + 1);
    }
  }

  lemma Regroup(a: string, b: string, c: string, d: string)
    ensures a + b + c + d == a + (b + (c + d)) && a + b + c == a + (b + c)
    ensures [] + a == a && a + [] == a
  {
  }

  /** One character that is no backslash, inside quotes. */
  lemma ReadCharacter(k: nat, c: char, after: string)
    requires c != BACKSLASH
    ensures ParseArgument(Before(k, c) + ([c] + after), true, 0) ==
            Prefixed(Backslashes(k) + [c], ParseArgument(after, true, 0))
  {
    ReadBackslashes(if c == QUOTE then 2 * k + 1 else k, [c] + after, true, 0);
    assert ([c] + after)[1..] == after;
  }

  lemma ReadClosing(k: nat, rest: string)
    requires Ends(rest)
    ensures ParseArgument(Backslashes(2 * k) + ([QUOTE] + rest), true, 0) == Parsed(Backslashes(k), rest)
  {
    ReadBackslashes(2 * k, [QUOTE] + rest, true, 0);
    assert ([QUOTE] + rest)[1..] == rest;
    assert Backslashes(k) + Backslashes(0) == Backslashes(k);
  }

  lemma QuotedStep(k: nat, c: char, quoted: string, tail: string, rest: string)
    requires c != BACKSLASH
    requires ParseArgument(quoted + rest, true, 0) == Parsed(tail, rest)
    ensures ParseArgument(Before(k, c) + [c] + quoted + rest, true, 0) == Parsed(Backslashes(k) + [c] + tail, rest)
  {
    ReadCharacter(k, c, quoted + rest);
    Regroup(Before(k, c), [c], quoted, rest);
  }

  lemma Rejoin(k: nat, argument: string)
    requires argument != []
    ensures Backslashes(k) + [argument[0]] + argument[1..] == Backslashes(k) + argument
    ensures argument[0] == BACKSLASH ==> Backslashes(k + 1) + argument[1..] == Backslashes(k) + argument
  {
  }

  lemma {:induction false} ReadQuoted(argument: string, k: nat, rest: string)
    requires Ends(rest)
    ensures ParseArgument(QuotedFrom(argument, k) + rest, true, 0) == Parsed(Backslashes(k) + argument, rest)
  {
    if argument == [] {
      ReadClosing(k, rest);
      Regroup(Backslashes(2 * k), [QUOTE], rest, []);
      Regroup(Backslashes(k), [], [], []);
    } else {
      var c, tail := argument[0], argument[1..];
      Rejoin(k, argument);
      if c == BACKSLASH {
        ReadQuoted(tail, k + 1, rest);
      } else {
        ReadQuoted(tail, 0, rest);
        Regroup(tail, [], [], []);
        assert Backslashes(0) == [];
        QuotedStep(k, c, QuotedFrom(tail, 0), tail, rest);
      }
    }
  }

  lemma {:induction false} ReadPlain(argument: string, k: nat, rest: string)
    requires forall i :: 0 <= i < |argument| ==> !Special(argument[i])
    requires Ends(rest)
    ensures ParseArgument(argument + rest, false, k) == Parsed(Backslashes(k) + argument, rest)
  {
    if argument == [] {
      assert argument + rest == rest && Backslashes(k) + argument == Backslashes(k);
    } else {
      var c, tail := argument[0], argument[1..];
      assert argument == [c] + tail && (argument + rest)[1..] == tail + rest;
      ReadPlain(tail, if c == BACKSLASH then k + 1 else 0, rest);
      if c == BACKSLASH {
        assert Backslashes(k + 1) + tail == Backslashes(k) + argument;
      } else {
        assert Backslashes(k) + [c] + (Backslashes(0) + tail) == Backslashes(k) + argument;
      }
    }
  }

  /** However it is quoted, an argument is read back whole, and reading stops at the blank that follows it. */
  lemma ArgumentSurvives(argument: string, rest: string)
    requires Ends(rest)
    ensures ParseArgument(Quoted(argument) + rest, false, 0) == Parsed(argument, rest)
    ensures Quoted(argument) != [] && !IsBlank(Quoted(argument)[0])
  {
    if Plain(argument) {
      ReadPlain(argument, 0, rest);
      assert Backslashes(0) + argument == argument;
    } else {
      var body := QuotedFrom(argument, 0) + rest;
      ReadQuoted(argument, 0, rest);
      assert Quoted(argument) + rest == [QUOTE] + body && ([QUOTE] + body)[1..] == body;
      assert Backslashes(0) + (Backslashes(0) + argument) == argument;
    }
  }

  lemma ParseBlank(s: string)
    ensures ParseArguments([' '] + s) == ParseArguments(s)
  {
    assert ([' '] + s)[1..] == s;
  }

  lemma ParseNext(argument: string, rest: string)
    requires Ends(rest)
    ensures ParseArguments([' '] + Quoted(argument) + rest) == [argument] + ParseArguments(rest)
  {
    var quoted := Quoted(argument);
    ArgumentSurvives(argument, rest);
    assert (quoted + rest)[0] == quoted[0];
    assert [' '] + quoted + rest == [' '] + (quoted + rest);
    ParseBlank(quoted + rest);
  }

  lemma {:induction false} ArgumentsSurvive(arguments: seq<string>)
    ensures ParseArguments(Arguments(arguments)) == arguments
    ensures Ends(Arguments(arguments))
  {
    if arguments != [] {
      ArgumentsSurvive(arguments[1..]);
      ParseNext(arguments[0], Arguments(arguments[1..]));
    }
  }

  // ---- The program name ----

  /** Whether the runtime reads the executable path back as it is. */
  predicate ProgramSurvives(executable: string) {
    && QUOTE !in executable
    && (Plain(executable) || executable == [] || executable[|executable| - 1] != BACKSLASH)
  }

  lemma {:induction false} ProgramHasNoQuotes(s: string, quoting: bool)
    ensures QUOTE !in ParseProgram(s, quoting).argument
  {
    if s != [] && s[0] == QUOTE {
      ProgramHasNoQuotes(s[1..], !quoting);
    } else if s != [] && (quoting || !IsBlank(s[0])) {
      ProgramHasNoQuotes(s[1..], quoting);
    }
  }

  /** Text without quotes, and without blanks unless quoting, is part of the program name as it is. */
  lemma {:induction false} ProgramReads(text: string, rest: string, quoting: bool)
    requires forall i :: 0 <= i < |text| ==> text[i] != QUOTE && (quoting || !IsBlank(text[i]))
    ensures ParseProgram(text + rest, quoting) == Prefixed(text, ParseProgram(rest, quoting))
  {
    if text == [] {
      assert text + rest == rest;
    } else {
      assert (text + rest)[1..] == text[1..] + rest;
      ProgramReads(text[1..], rest, quoting);
      assert [text[0]] + text[1..] == text;
    }
  }

  /** The backslashes still held back when the closing quote is written. */
  function HeldBack(argument: string, k: nat): nat {
    if argument == [] then k else HeldBack(argument[1..], if argument[0] == BACKSLASH then k + 1 else 0)
  }

  lemma {:induction false} HeldBackAtEnd(argument: string, k: nat)
    ensures HeldBack(argument, k) > 0 <==>
            if argument == [] then k > 0 else argument[|argument| - 1] == BACKSLASH
  {
    if argument != [] {
      HeldBackAtEnd(argument[1..], if argument[0] == BACKSLASH then k + 1 else 0);
    }
  }

  /** Quoting a text without quotes in it only doubles the backslashes at its end. */
  lemma {:induction false} QuotedWithoutQuotes(argument: string, k: nat)
    requires QUOTE !in argument
    ensures QuotedFrom(argument, k) == Backslashes(k) + argument + Backslashes(HeldBack(argument, k)) + [QUOTE]
  {
    if argument == [] {
      assert Backslashes(2 * k) == Backslashes(k) + argument + Backslashes(k);
    } else {
      var c, tail := argument[0], argument[1..];
      if c == BACKSLASH {
        QuotedWithoutQuotes(tail, k + 1);
        assert Backslashes(k + 1) + tail == Backslashes(k) + argument;
      } else {
        QuotedWithoutQuotes(tail, 0);
        assert Backslashes(k) + [c] + (Backslashes(0) + tail) == Backslashes(k) + argument;
        var end := Backslashes(HeldBack(tail, 0)) + [QUOTE];
        assert Backslashes(k) + [c] + (Backslashes(0) + tail + Backslashes(HeldBack(tail, 0)) + [QUOTE]) ==
               Backslashes(k) + [c] + (Backslashes(0) + tail) + Backslashes(HeldBack(tail, 0)) + [QUOTE];
      }
    }
  }

  lemma ProgramBetweenQuotes(text: string, rest: string)
    requires QUOTE !in text && Ends(rest)
    ensures ParseProgram([QUOTE] + (text + [QUOTE]) + rest, false) == Parsed(text, rest)
  {
    var s := [QUOTE] + (text + [QUOTE]) + rest;
    assert s[1..] == text + ([QUOTE] + rest) && ([QUOTE] + rest)[1..] == rest;
    ProgramReads(text, [QUOTE] + rest, true);
    assert text + [] == text;
  }

  lemma QuotedPath(executable: string)
    requires QUOTE !in executable && !Plain(executable)
    ensures Quoted(executable) == [QUOTE] + (executable + Backslashes(HeldBack(executable, 0)) + [QUOTE])
  {
    QuotedWithoutQuotes(executable, 0);
    assert Backslashes(0) + executable == executable;
  }

  /** What the runtime makes of a quoted path without quotes in it: its trailing backslashes come back doubled. */
  lemma ProgramDoubled(executable: string, rest: string)
    requires QUOTE !in executable && Ends(rest)
    ensures ParseProgram(Quoted(executable) + rest, false) ==
            Parsed(if Plain(executable) then executable else executable + Backslashes(HeldBack(executable, 0)), rest)
  {
    if Plain(executable) {
      ProgramReads(executable, rest, false);
      assert executable + [] == executable;
    } else {
      QuotedPath(executable);
      ProgramBetweenQuotes(executable + Backslashes(HeldBack(executable, 0)), rest);
    }
  }

  /**
    A program started from the encoded command line sees exactly the executable and the arguments
    it was encoded from, whatever the arguments are, if and only if the path has no quote and does
    not need quoting while ending in a backslash.
  */
  lemma RoundTrip(executable: string, arguments: seq<string>)
    ensures Parse(CommandLine(executable, arguments)) == [executable] + arguments <==> ProgramSurvives(executable)
  {
    var rest := Arguments(arguments);
    ArgumentsSurvive(arguments);
    var program := ParseProgram(CommandLine(executable, arguments), false);
    if QUOTE in executable {
      ProgramHasNoQuotes(CommandLine(executable, arguments), false);
      assert Parse(CommandLine(executable, arguments))[0] == program.argument;
    } else {
      ProgramDoubled(executable, rest);
      HeldBackAtEnd(executable, 0);
      if Plain(executable) || HeldBack(executable, 0) == 0 {
        assert executable + Backslashes(0) == executable;
      } else {
        assert Parse(CommandLine(executable, arguments))[0] == program.argument;
        assert |program.argument| > |executable|;
      }
    }
  }

  /** Whatever the executable's path is, its arguments come back unchanged when it has no quote in it. */
  lemma ArgumentsAlwaysSurvive(executable: string, arguments: seq<string>)
    requires QUOTE !in executable
    ensures Parse(CommandLine(executable, arguments))[1..] == arguments
  {
    ArgumentsSurvive(arguments);
    ProgramDoubled(executable, Arguments(arguments));
  }
}
