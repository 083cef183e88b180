/** What printing and parsing a Dockerfile lose: the converse of the round trip. */
module DockerfileLimits {
  import opened Options
  import opened Strings
  import opened Dockerfile
  import opened DockerfilePrinter
  import opened DockerfileLaws
  import Paths
  import Text
  import TB = TemplateBuilder

  /** The instructions that a parser can produce, as far as the printer reads them. */
  predicate Parsable(ins: TB.Instruction) {
    match ins.kind
    case Run => |ins.args| == 1 && OneLine(ins.args[0])
    case Workdir => |ins.args| == 1 && OneLine(ins.args[0])
    case User => |ins.args| == 1 && OneLine(ins.args[0])
    case Copy =>
      && |ins.args| == 4 && Token(ins.args[0]) && Token(ins.args[1]) && ins.args[2] == "" && ins.args[3] == ""
      && Paths.ValidateRelativePath(ins.args[0]) == None
    case Env => |ins.args| >= 2 && Token(ins.args[0]) && NoChar(ins.args[0], '=') && NoSpace(ins.args[1])
    case _ => false
  }

  ghost predicate AllParsable(all: seq<TB.Instruction>) {
    forall i :: 0 <= i < |all| ==> Parsable(all[i])
  }

  ghost predicate EnvMap(envs: map<string, string>) {
    forall k :: k in envs ==> Token(k) && NoChar(k, '=') && NoSpace(envs[k])
  }

  lemma {:induction false} TrimCharNoSpace(s: string, c: char)
    requires NoSpace(s)
    ensures NoSpace(TrimCharLeft(s, c)) && NoSpace(TrimCharRight(s, c))
    decreases |s|
  {
    if s != "" && s[0] == c {
      TrimCharNoSpace(s[1..], c);
    }
    if s != "" && s[|s| - 1] == c {
      TrimCharNoSpace(s[..|s| - 1], c);
    }
  }

  lemma {:induction false} EnvTokensMap(tokens: seq<string>)
    requires forall i :: 0 <= i < |tokens| ==> NoSpace(tokens[i])
    ensures EnvMap(EnvTokens(tokens))
  {
    if tokens != [] {
      var last := |tokens| - 1;
      EnvTokensMap(tokens[..last]);
      EnvTokenMap(EnvTokens(tokens[..last]), tokens[last]);
    }
  }

  lemma EnvTokenMap(envs: map<string, string>, token: string)
    requires EnvMap(envs) && NoSpace(token)
    ensures EnvMap(EnvToken(envs, token))
  {
    var eq := Index(token, '=');
    if 0 < eq < |token| {
      var value := token[eq + 1..];
      TrimCharNoSpace(value, '"');
      TrimCharNoSpace(TrimCharLeft(value, '"'), '"');
    }
  }

  /** One parsed instruction appends nothing but parsable instructions. */
  lemma InstructionParsable(s: TB.State, keyword: string, rest: string, actual: TB.Call)
    requires OneLine(rest) && AllParsable(s.instructions)
    requires |InstructionCalls(keyword, rest)| == 1 && ResolvesCall(InstructionCalls(keyword, rest)[0], actual)
    ensures AllParsable(TB.Next(s, actual).instructions)
  {
    FieldsHaveNoSpace(rest);
    if keyword == "ENV" {
      var envs := EnvLine(rest);
      EnvTokensMap(Fields(rest));
      hide EnvLine, Fields, NoSpace, NoChar;
      EnvCallParsable(s, envs, actual);
    } else {
      hide EnvLine, Fields, NoSpace, NoChar, Trimmed, Paths.ValidateRelativePath;
    }
  }

  lemma EnvCallParsable(s: TB.State, envs: map<string, string>, actual: TB.Call)
    requires EnvMap(envs) && AllParsable(s.instructions)
    requires actual.SetEnvs? && actual.vars == envs && TB.ValidCall(actual)
    ensures AllParsable(TB.Next(s, actual).instructions)
  {
    hide NoSpace, NoChar;
    if envs != map[] {
      var k :| k in envs;
      assert k in actual.order;
      assert actual.order[0] in envs.Keys;
    }
  }

  /** The shape of what one line can call. */
  lemma LineShape(line: string)
    ensures |LineCalls(line)| <= 1
    ensures |LineCalls(line)| == 1 ==> exists keyword, rest ::
      LineCalls(line) == InstructionCalls(keyword, rest) && (NoChar(line, '\n') ==> OneLine(rest))
  {
    var trimmed := TrimSpace(line);
    TrimIsTrimmed(line);
    if |LineCalls(line)| == 1 {
      var (head, rest) := SplitInstruction(trimmed);
      var i := SeparatorIndex(trimmed);
      if i < |trimmed| {
        TrimIsTrimmed(trimmed[i + 1..]);
      }
      hide TrimSpace;
      assert LineCalls(line) == InstructionCalls(Upper(head), rest);
    }
  }

  /** Everything parsed from newline-free lines is parsable, and so is the base image a single line. */
  lemma {:induction false} LinesParsable(s: TB.State, lines: seq<string>, calls: seq<TB.Call>)
    requires NoNewlines(lines) && AllParsable(s.instructions) && OneLine(s.baseImage)
    requires Resolves(LinesCalls(lines), calls)
    ensures AllParsable(TB.After(s, calls).instructions) && OneLine(TB.After(s, calls).baseImage)
  {
    hide *;
    if lines == [] {
      NoLines(s, calls);
    } else {
      var (before, last) := (lines[..|lines| - 1], lines[|lines| - 1]);
      var n := LastLine(lines, calls);
      LinesParsable(s, before, calls[..n]);
      LineParsable(TB.After(s, calls[..n]), last, calls[n..]);
      TB.AfterConcat(s, calls[..n], calls[n..]);
      assert calls[..n] + calls[n..] == calls;
    }
  }

  lemma NoLines(s: TB.State, calls: seq<TB.Call>)
    requires Resolves(LinesCalls([]), calls)
    ensures TB.After(s, calls) == s
  {
    hide ResolvesCall, TB.Next;
  }

  /** A run of some lines is a run of all but the last, and then one of the last. */
  lemma LastLine(lines: seq<string>, calls: seq<TB.Call>) returns (n: nat)
    requires lines != [] && NoNewlines(lines) && Resolves(LinesCalls(lines), calls)
    ensures var (before, last) := (lines[..|lines| - 1], lines[|lines| - 1]);
      && n <= |calls| && NoNewlines(before) && NoChar(last, '\n')
      && Resolves(LinesCalls(before), calls[..n]) && Resolves(LineCalls(last), calls[n..])
  {
    var (before, last) := (lines[..|lines| - 1], lines[|lines| - 1]);
    n := |LinesCalls(before)|;
    hide LineCalls, Resolves, NoChar;
    ResolvesSplit(LinesCalls(before), LineCalls(last), calls);
  }

  lemma LineParsable(s: TB.State, line: string, made: seq<TB.Call>)
    requires NoChar(line, '\n') && AllParsable(s.instructions) && OneLine(s.baseImage)
    requires Resolves(LineCalls(line), made)
    ensures AllParsable(TB.After(s, made).instructions) && OneLine(TB.After(s, made).baseImage)
  {
    hide LineCalls, InstructionCalls, OneLine, AllParsable, NoChar, TB.After, TB.Next, ResolvesCall;
    LineShape(line);
    AfterOne(s, made);
    if made != [] {
      var keyword, rest :| LineCalls(line) == InstructionCalls(keyword, rest) && (NoChar(line, '\n') ==> OneLine(rest));
      InstructionParsable(s, keyword, rest, made[0]);
      InstructionBase(s, keyword, rest, made[0]);
    }
  }

  lemma InstructionBase(s: TB.State, keyword: string, rest: string, actual: TB.Call)
    requires OneLine(rest) && OneLine(s.baseImage)
    requires |InstructionCalls(keyword, rest)| == 1 && ResolvesCall(InstructionCalls(keyword, rest)[0], actual)
    ensures OneLine(TB.Next(s, actual).baseImage)
    ensures keyword != "FROM" ==> TB.Next(s, actual).baseImage == s.baseImage
    ensures |TB.Next(s, actual).instructions| <= |s.instructions| + 1
    ensures keyword == "FROM" ==> TB.Next(s, actual).instructions == s.instructions
  {
    hide EnvLine, Fields, OneLine;
  }

  /** Whatever the text, parsing it into a fresh builder yields parsable instructions. */
  lemma ParsedIsParsable(text: string, calls: seq<TB.Call>)
    requires Resolves(DockerfileCalls(text), calls)
    ensures AllParsable(TB.After(TB.NewState(), calls).instructions)
    ensures OneLine(TB.After(TB.NewState(), calls).baseImage)
  {
    ScannedNoNewlines(text);
    hide LinesCalls, ScanLines, Parsable, NoNewlines, TB.After, Resolves;
    LinesParsable(TB.NewState(), ScanLines(text), calls);
  }

  lemma ScannedNoNewlines(text: string)
    ensures NoNewlines(ScanLines(text))
  {
    var raw := Text.Split(text, '\n');
    Text.JoinOfSplit(text, '\n');
    hide Text.Split, Scan;
    forall i | 0 <= i < |raw| ensures NoChar(raw[i], '\n') {
      assert raw[i] in raw;
    }
    ScanNoNewlines(raw);
  }

  lemma {:induction false} ScanNoNewlines(raw: seq<string>)
    requires NoNewlines(raw)
    ensures NoNewlines(Scan(raw))
  {
    hide TooLong;
    if raw != [] && raw != [""] && !TooLong(raw[0]) {
      ScanNoNewlines(raw[1..]);
    }
  }

  function Printed(all: seq<TB.Instruction>): seq<TB.Instruction> {
    if all == [] then []
    else
      var last := all[|all| - 1];
      Printed(all[..|all| - 1]) + if last.kind.User? then [] else [last]
  }

  lemma {:induction false} PrintedFacts(all: seq<TB.Instruction>)
    requires AllParsable(all)
    ensures AllParsable(Printed(all)) && |Printed(all)| <= |all|
    ensures |Printed(all)| == |all| ==> Printed(all) == all
    ensures forall i :: 0 <= i < |Printed(all)| ==> !Printed(all)[i].kind.User?
  {
    hide Parsable;
    if all != [] {
      PrintedFacts(all[..|all| - 1]);
    }
  }

  /** A parsable instruction other than USER prints one line, whose calls are those of its keyword. */
  lemma ParsableLine(isPrint: PrintTable, ins: TB.Instruction)
    requires IsPrintTable(isPrint) && Parsable(ins) && !ins.kind.User?
    ensures PrintInstruction(isPrint, ins) == Line(isPrint, ins) + "\n"
    ensures NoChar(Line(isPrint, ins), '\n')
    ensures LineCalls(Line(isPrint, ins)) == InstructionCalls(Keyword(ins.kind), Argument(isPrint, ins))
  {
    ParsableText(isPrint, ins);
    hide Parsable, Argument, LineCalls, InstructionCalls, NoChar, Trimmed;
    ParsableArgument(isPrint, ins);
    KeywordLine(Keyword(ins.kind), Argument(isPrint, ins));
  }

  lemma ParsableArgument(isPrint: PrintTable, ins: TB.Instruction)
    requires IsPrintTable(isPrint) && Parsable(ins) && !ins.kind.User?
    ensures Trimmed(Argument(isPrint, ins)) && Capitals(Keyword(ins.kind))
  {
    if ins.kind.Env? {
      hide Quote;
      assert Argument(isPrint, ins) == ins.args[0] + "=" + Quote(isPrint, ins.args[1]);
      QuoteEnds(isPrint, ins.args[1]);
    }
  }

  lemma QuoteEnds(isPrint: PrintTable, s: string)
    ensures var q := Quote(isPrint, s); q != "" && q[|q| - 1] == '"'
  {
  }

  lemma ParsableText(isPrint: PrintTable, ins: TB.Instruction)
    requires IsPrintTable(isPrint) && Parsable(ins) && !ins.kind.User?
    ensures PrintInstruction(isPrint, ins) == Line(isPrint, ins) + "\n"
    ensures NoChar(Line(isPrint, ins), '\n')
  {
    ParsablePrintsLine(isPrint, ins);
    ParsableArgumentText(isPrint, ins);
    hide Argument, Parsable, PrintInstruction;
  }

  lemma ParsablePrintsLine(isPrint: PrintTable, ins: TB.Instruction)
    requires Parsable(ins) && !ins.kind.User?
    ensures PrintInstruction(isPrint, ins) == Line(isPrint, ins) + "\n"
  {
    hide Quote, NoChar, NoSpace, OneLine, Paths.ValidateRelativePath;
  }

  lemma ParsableArgumentText(isPrint: PrintTable, ins: TB.Instruction)
    requires IsPrintTable(isPrint) && Parsable(ins) && !ins.kind.User?
    ensures NoChar(Argument(isPrint, ins), '\n')
  {
    hide Trimmed, Paths.ValidateRelativePath, PrintInstruction;
    if ins.kind.Env? {
      QuoteBodyText(isPrint, ins.args[1]);
      NoSpaceNoNewline(ins.args[0]);
      hide QuoteBody;
    } else if ins.kind.Copy? {
      NoSpaceNoNewline(ins.args[0]);
      NoSpaceNoNewline(ins.args[1]);
    }
  }

  lemma {:induction false} ParsablePrints(isPrint: PrintTable, all: seq<TB.Instruction>)
    requires IsPrintTable(isPrint) && AllParsable(all)
    ensures NoNewlines(LinesOf(isPrint, Printed(all)))
    ensures |LinesOf(isPrint, Printed(all))| == |Printed(all)|
    ensures PrintInstructions(isPrint, all) == TextOf(LinesOf(isPrint, Printed(all)))
  {
    hide Parsable, PrintInstruction, Line, TextOf, NoChar;
    if all == [] {
      TextOfNothing();
    } else {
      var (before, last) := (all[..|all| - 1], all[|all| - 1]);
      ParsablePrints(isPrint, before);
      if last.kind.User? {
        UserPrintsNothing(isPrint, last);
        assert Printed(all) == Printed(before);
      } else {
        ParsableText(isPrint, last);
        var lines := LinesOf(isPrint, Printed(before));
        assert Printed(all)[..|Printed(all)| - 1] == Printed(before);
        assert LinesOf(isPrint, Printed(all)) == lines + [Line(isPrint, last)];
        TextOfSnoc(lines, Line(isPrint, last));
      }
    }
  }

  lemma UserPrintsNothing(isPrint: PrintTable, ins: TB.Instruction)
    requires ins.kind.User?
    ensures PrintInstruction(isPrint, ins) == ""
  {
  }

  /** A call appends at most one instruction, and a parsed line makes at most one call. */
  lemma {:induction false} RawCallsCount(raw: seq<string>)
    ensures |RawCalls(raw + [""])| <= |raw|
    ensures |RawCalls(raw + [""])| == |raw| ==> AllShort(raw)
  {
    hide LineCalls, TooLong;
    if raw == [] {
      assert RawCalls([""]) == if TooLong("") then [] else LineCalls("") + RawCalls([""][1..]);
      assert LineCalls("") == [] by { BlankLine(); }
    } else {
      RawCallsCount(raw[1..]);
      assert (raw + [""])[1..] == raw[1..] + [""];
      LineShape(raw[0]);
      if !TooLong(raw[0]) && AllShort(raw[1..]) {
        forall i | 0 <= i < |raw| ensures !TooLong(raw[i]) {
          assert i > 0 ==> !TooLong(raw[1..][i - 1]);
        }
      }
    }
  }

  lemma BlankLine()
    ensures LineCalls("") == []
  {
  }

  lemma {:induction false} AppendedCount(s: TB.State, calls: seq<TB.Call>)
    ensures |TB.After(s, calls).instructions| <= |s.instructions| + |calls|
  {
    if calls != [] {
      var last := |calls| - 1;
      AppendedCount(s, calls[..last]);
      TB.AppendingCall(TB.After(s, calls[..last]), calls[last]);
      hide TB.Next, TB.Appends;
    }
  }

  /** Setting one variable appends an ENV with its key and value. */
  lemma OneVariableAppended(s: TB.State, key: string, value: string, order: seq<string>)
    requires TB.ValidCall(TB.SetEnvs(map[key := value], order))
    ensures var after := TB.Next(s, TB.SetEnvs(map[key := value], order)).instructions;
      |after| == |s.instructions| + 1 && after[|s.instructions|].args == [key, value]
  {
    var vars := map[key := value];
    assert key in vars && vars.Keys == {key};
    SingleKeyOrder(key, value, order);
    hide TB.Interleave, Sequences.Enumerates;
    assert vars != map[];
  }

  /** An ENV line that restores its instruction had one key and a value that needs no escaping. */
  lemma RestoredEnv(isPrint: PrintTable, s: TB.State, actual: TB.Call, ins: TB.Instruction)
    requires IsPrintTable(isPrint) && |ins.args| >= 2
    requires var parsed := map[ins.args[0] := TrimChar(Quote(isPrint, ins.args[1]), '"')];
      actual.SetEnvs? && actual == TB.SetEnvs(parsed, actual.order) && TB.ValidCall(actual)
    requires |TB.Next(s, actual).instructions| > |s.instructions|
    requires SameShape(TB.Next(s, actual).instructions[|s.instructions|], ins)
    ensures |ins.args| == 2 && NeedsNoEscape(isPrint, ins.args[1])
  {
    var trimmed := TrimChar(Quote(isPrint, ins.args[1]), '"');
    TrimOfQuote(isPrint, ins.args[1]);
    hide Quote, TrimChar, NeedsNoEscape, IsPrintTable, TB.ValidCall, TB.Next;
    OneVariableAppended(s, ins.args[0], trimmed, actual.order);
    assert ins.args == [ins.args[0], trimmed];
  }

  /** An instruction that parsing restores from its line is restorable. */
  lemma RestoredIsRestorable(isPrint: PrintTable, s: TB.State, actual: TB.Call, ins: TB.Instruction)
    requires IsPrintTable(isPrint) && Parsable(ins) && !ins.kind.User?
    requires |LineCalls(Line(isPrint, ins))| == 1
    requires ResolvesCall(LineCalls(Line(isPrint, ins))[0], actual)
    requires |TB.Next(s, actual).instructions| == |s.instructions| + 1
    requires SameShape(TB.Next(s, actual).instructions[|s.instructions|], ins)
    ensures Restorable(isPrint, ins)
  {
    if ins.kind.Env? {
      ParsableLine(isPrint, ins);
      EnvLineCall(isPrint, ins, actual);
      hide LineCalls, Line, TB.Next, TB.ValidCall, Quote, TrimChar, IsPrintTable, SameShape, NeedsNoEscape;
      RestoredEnv(isPrint, s, actual, ins);
      NoSpaceMeansNoBlank(ins.args[1]);
    }
  }

  lemma NoSpaceMeansNoBlank(s: string)
    requires NoSpace(s)
    ensures NoChar(s, ' ')
  {
  }

  /** The call that the line of a parsable ENV makes. */
  lemma EnvLineCall(isPrint: PrintTable, ins: TB.Instruction, actual: TB.Call)
    requires IsPrintTable(isPrint) && Parsable(ins) && ins.kind.Env?
    requires LineCalls(Line(isPrint, ins)) == InstructionCalls(Keyword(ins.kind), Argument(isPrint, ins))
    requires |LineCalls(Line(isPrint, ins))| == 1 && ResolvesCall(LineCalls(Line(isPrint, ins))[0], actual)
    ensures var parsed := map[ins.args[0] := TrimChar(Quote(isPrint, ins.args[1]), '"')];
      actual.SetEnvs? && actual == TB.SetEnvs(parsed, actual.order) && TB.ValidCall(actual)
  {
    hide LineCalls, Line, EnvLine, Quote, TrimChar, IsPrintTable, IsSpace;
    NoSpaceMeansNoBlank(ins.args[1]);
    EnvArgument(isPrint, ins.args[0], ins.args[1]);
    assert ins.args[0] in EnvLine(Argument(isPrint, ins));
  }

  /** When every call of a run appends an instruction, so does its last call, and the others before it. */
  lemma LastAppends(s: TB.State, calls: seq<TB.Call>)
    requires calls != [] && |TB.After(s, calls).instructions| == |s.instructions| + |calls|
    ensures var n := |calls| - 1;
      var mid, after := TB.After(s, calls[..n]), TB.After(s, calls);
      && after == TB.Next(mid, calls[n]) && mid.instructions <= after.instructions
      && |mid.instructions| == |s.instructions| + n
  {
    var n := |calls| - 1;
    AppendedCount(s, calls[..n]);
    TB.AppendingCall(TB.After(s, calls[..n]), calls[n]);
    hide TB.Next, TB.Appends;
  }

  lemma ShapesSnoc(k: nat, mid: seq<TB.Instruction>, after: seq<TB.Instruction>, all: seq<TB.Instruction>)
    requires all != [] && mid <= after && |after| == |mid| + 1 == k + |all|
    requires SameShapes(after[k..], all)
    ensures SameShapes(mid[k..], all[..|all| - 1]) && SameShape(after[|mid|], all[|all| - 1])
  {
    hide SameShape;
    forall i | 0 <= i < |all|
      ensures SameShape(after[k + i], all[i])
    {
      assert SameShape(after[k..][i], all[i]);
    }
  }

  /** If each line restores its instruction, each instruction is restorable. */
  lemma {:induction false} AllRestorable(isPrint: PrintTable, s: TB.State, all: seq<TB.Instruction>, calls: seq<TB.Call>)
    requires IsPrintTable(isPrint) && AllParsable(all)
    requires forall i :: 0 <= i < |all| ==> !all[i].kind.User?
    requires Resolves(LinesCalls(LinesOf(isPrint, all)), calls) && |calls| == |all|
    requires |TB.After(s, calls).instructions| == |s.instructions| + |all|
    requires SameShapes(TB.After(s, calls).instructions[|s.instructions|..], all)
    ensures forall i :: 0 <= i < |all| ==> Restorable(isPrint, all[i])
  {
    hide Parsable, Restorable, Line, LineCalls, TB.Next, ResolvesCall, SameShape, SameShapes, TB.After, IsPrintTable;
    if all != [] {
      var (before, last) := (all[..|all| - 1], all[|all| - 1]);
      var n := |calls| - 1;
      LastAppends(s, calls);
      ShapesSnoc(|s.instructions|, TB.After(s, calls[..n]).instructions, TB.After(s, calls).instructions, all);
      LastLineCall(isPrint, all, calls);
      AllRestorable(isPrint, s, before, calls[..n]);
      RestoredIsRestorable(isPrint, TB.After(s, calls[..n]), calls[n], last);
    }
  }

  /** When every printed line makes a call, the last one makes the last call. */
  lemma {:induction false} LastLineCall(isPrint: PrintTable, all: seq<TB.Instruction>, calls: seq<TB.Call>)
    requires all != [] && Resolves(LinesCalls(LinesOf(isPrint, all)), calls) && |calls| == |all|
    ensures var n := |calls| - 1;
      && Resolves(LinesCalls(LinesOf(isPrint, all[..n])), calls[..n])
      && |LineCalls(Line(isPrint, all[n]))| == 1 && ResolvesCall(LineCalls(Line(isPrint, all[n]))[0], calls[n])
  {
    hide Line, LineCalls, ResolvesCall;
    var n := |calls| - 1;
    var lines := LinesOf(isPrint, all);
    assert lines[..|lines| - 1] == LinesOf(isPrint, all[..n]);
    LinesOfCount(isPrint, all[..n]);
    LinesCallsCount(LinesOf(isPrint, all[..n]));
    LineShape(Line(isPrint, all[n]));
    var (parsed, one) := (LinesCalls(LinesOf(isPrint, all[..n])), LineCalls(Line(isPrint, all[n])));
    ResolvesSplit(parsed, one, calls);
    assert |parsed| == n && |one| == 1;
    assert ResolvesCall(one[0], calls[n..][0]);
  }

  lemma {:induction false} LinesOfCount(isPrint: PrintTable, all: seq<TB.Instruction>)
    ensures |LinesOf(isPrint, all)| == |all|
  {
    hide Line;
    if all != [] {
      LinesOfCount(isPrint, all[..|all| - 1]);
    }
  }

  lemma {:induction false} LinesCallsCount(lines: seq<string>)
    ensures |LinesCalls(lines)| <= |lines|
  {
    hide LineCalls;
    if lines != [] {
      LinesCallsCount(lines[..|lines| - 1]);
      LineShape(lines[|lines| - 1]);
    }
  }

  /** The calls of a printed builder whose instructions are parsable. */
  lemma {:induction false} PrintedCalls(isPrint: PrintTable, s: TB.State)
    requires IsPrintTable(isPrint) && s.baseTemplate == ""
    requires AllParsable(s.instructions) && OneLine(s.baseImage)
    ensures var header := if s.baseImage == "" then [] else [FromLine(s.baseImage)];
      DockerfileCalls(Print(isPrint, s).value)
        == RawCalls(header + LinesOf(isPrint, Printed(s.instructions)) + [""])
  {
    hide Parsable, PrintInstructions, LinesOf, Text.Split, RawCalls, LinesCalls, Scan, LineCalls, NoChar, OneLine;
    var header := if s.baseImage == "" then [] else [FromLine(s.baseImage)];
    var lines := LinesOf(isPrint, Printed(s.instructions));
    ParsablePrints(isPrint, s.instructions);
    if s.baseImage != "" {
      FromLineCalls(s.baseImage);
      TextOfCons(FromLine(s.baseImage), lines);
    } else {
      assert header + lines == lines;
    }
    assert Print(isPrint, s).value == TextOf(header + lines);
    hide TextOf, FromLine, Print;
    SplitTextOf(header + lines);
    ScanCalls(header + lines + [""]);
  }

  lemma {:induction false} TextOfCons(header: string, lines: seq<string>)
    ensures TextOf([header] + lines) == header + "\n" + TextOf(lines)
  {
    hide TextOf;
    if lines == [] {
      assert [header] + lines == [] + [header];
      TextOfSnoc([], header);
      TextOfNothing();
    } else {
      var (before, last) := (lines[..|lines| - 1], lines[|lines| - 1]);
      TextOfCons(header, before);
      assert [header] + lines == ([header] + before) + [last];
      TextOfSnoc([header] + before, last);
      assert lines == before + [last];
      TextOfSnoc(before, last);
    }
  }

  predicate KeepsBase(c: TB.Call) { !c.FromImage? && !c.FromTemplate? && !c.DockerfileFrom? }

  ghost predicate AllKeepBase(calls: seq<TB.Call>) {
    forall i :: 0 <= i < |calls| ==> KeepsBase(calls[i])
  }

  lemma {:induction false} BaseUntouched(s: TB.State, calls: seq<TB.Call>)
    requires AllKeepBase(calls)
    ensures TB.After(s, calls).baseImage == s.baseImage
  {
    if calls != [] {
      BaseUntouched(s, calls[..|calls| - 1]);
    }
  }

  lemma InstructionLineKeepsBase(isPrint: PrintTable, ins: TB.Instruction)
    requires IsPrintTable(isPrint) && Parsable(ins) && !ins.kind.User?
    ensures AllKeepBase(LineCalls(Line(isPrint, ins)))
  {
    ParsableLine(isPrint, ins);
    hide LineCalls, Line, Argument, EnvLine, Fields;
  }

  lemma {:induction false} RawInstructionsKeepBase(isPrint: PrintTable, all: seq<TB.Instruction>)
    requires IsPrintTable(isPrint) && AllParsable(all)
    requires forall i :: 0 <= i < |all| ==> !all[i].kind.User?
    ensures AllKeepBase(LinesCalls(LinesOf(isPrint, all)))
  {
    hide Parsable, LineCalls, Line;
    if all != [] {
      var (before, last) := (all[..|all| - 1], all[|all| - 1]);
      RawInstructionsKeepBase(isPrint, before);
      InstructionLineKeepsBase(isPrint, last);
      var lines := LinesOf(isPrint, all);
      assert lines[..|lines| - 1] == LinesOf(isPrint, before);
    }
  }

  /** Lines after one that is too long only drop calls. */
  lemma {:induction false} RawCallsPrefix(lines: seq<string>)
    ensures RawCalls(lines + [""]) <= LinesCalls(lines)
  {
    if lines == [] {
      RawCallsCount(lines);
      assert LinesCalls(lines) == [];
    } else {
      hide LineCalls, TooLong;
      RawCallsPrefix(lines[1..]);
      assert (lines + [""])[1..] == lines[1..] + [""];
      assert lines == [lines[0]] + lines[1..];
      LinesCallsConcat([lines[0]], lines[1..]);
      LinesCallsOne(lines[0]);
      hide LinesCalls;
      PrefixAfter(LineCalls(lines[0]), RawCalls(lines[1..] + [""]), LinesCalls(lines[1..]));
    }
  }

  lemma PrefixAfter(a: seq<TB.Call>, b: seq<TB.Call>, c: seq<TB.Call>)
    requires b <= c
    ensures a + b <= a + c
  {
  }

  lemma {:induction false} ResolvedKeepBase(parsed: seq<TB.Call>, calls: seq<TB.Call>)
    requires Resolves(parsed, calls) && AllKeepBase(parsed)
    ensures AllKeepBase(calls)
  {
    forall i | 0 <= i < |calls| ensures KeepsBase(calls[i]) {
      assert ResolvesCall(parsed[i], calls[i]) && KeepsBase(parsed[i]);
    }
  }

  lemma DefaultImageIsShort()
    ensures !TooLong(FromLine(TB.DEFAULT_IMAGE))
  {
    ByteLengthBound(FromLine(TB.DEFAULT_IMAGE));
  }

  lemma {:induction false} ByteLengthBound(s: string)
    ensures ByteLength(s) <= 4 * |s|
  {
    if s != "" {
      ByteLengthBound(s[1..]);
    }
  }

  /** A restored builder has a base image: without one no FROM line is printed. */
  lemma RestoredHasBase(isPrint: PrintTable, s: TB.State, calls: seq<TB.Call>)
    requires IsPrintTable(isPrint) && s.baseTemplate == "" && AllParsable(s.instructions) && s.baseImage == ""
    requires Resolves(DockerfileCalls(Print(isPrint, s).value), calls)
    ensures TB.After(TB.NewState(), calls).baseImage == TB.DEFAULT_IMAGE
  {
    hide Parsable, LinesOf, LinesCalls, RawCalls, DockerfileCalls, Print, Printed, KeepsBase;
    var shown := Printed(s.instructions);
    var lines := LinesOf(isPrint, shown);
    PrintedCalls(isPrint, s);
    PrintedFacts(s.instructions);
    assert [] + lines == lines;
    RawInstructionsKeepBase(isPrint, shown);
    RawCallsPrefix(lines);
    ResolvedKeepBase(RawCalls(lines + [""]), calls);
    BaseUntouched(TB.NewState(), calls);
  }

  /** If the FROM line were too long, nothing would be read and the base would be the default one, which is short. */
  lemma RestoredHeaderIsShort(s: TB.State, parsed: seq<TB.Call>, calls: seq<TB.Call>)
    requires Resolves(parsed, calls) && Restores(s, calls)
    requires TooLong(FromLine(s.baseImage)) ==> parsed == []
    ensures !TooLong(FromLine(s.baseImage))
  {
    DefaultImageIsShort();
    hide TooLong, FromLine, ResolvesCall, SameShapes;
    assert parsed == [] ==> TB.After(TB.NewState(), calls) == TB.NewState();
  }

  /** What parsing the lines of printed instructions makes of them, when the result has the same shape. */
  lemma {:induction false} RestoredLines(isPrint: PrintTable, start: TB.State, all: seq<TB.Instruction>, calls: seq<TB.Call>)
    requires IsPrintTable(isPrint) && AllParsable(all) && start.instructions == []
    requires Resolves(RawCalls(LinesOf(isPrint, Printed(all)) + [""]), calls)
    requires SameShapes(TB.After(start, calls).instructions, all)
    ensures AllShort(LinesOf(isPrint, all)) && forall i :: 0 <= i < |all| ==> Restorable(isPrint, all[i])
  {
    hide Parsable, LinesCalls, RawCalls, Restorable, SameShape, Line, LineCalls, TooLong, IsPrintTable, ResolvesCall;
    var lines := LinesOf(isPrint, Printed(all));
    AppendedCount(start, calls);
    RawCallsCount(lines);
    PrintedFacts(all);
    LinesOfCount(isPrint, Printed(all));
    hide LinesOf, Printed, TB.After;
    assert |all| == |RawCalls(lines + [""])| == |lines| == |Printed(all)|;
    ShortLinesCalls(lines);
    assert TB.After(start, calls).instructions[|start.instructions|..] == TB.After(start, calls).instructions;
    AllRestorable(isPrint, start, all, calls);
  }

  /** What parsing a printed builder with a base image makes of it, when the result has the same shape. */
  lemma RestoredWithBase(isPrint: PrintTable, s: TB.State, calls: seq<TB.Call>)
    requires IsPrintTable(isPrint) && s.baseTemplate == "" && s.baseImage != ""
    requires AllParsable(s.instructions) && OneLine(s.baseImage)
    requires Resolves(DockerfileCalls(Print(isPrint, s).value), calls) && Restores(s, calls)
    ensures Survives(isPrint, s)
  {
    PrintedCalls(isPrint, s);
    FromLineCalls(s.baseImage);
    hide Parsable, LinesOf, LinesCalls, RawCalls, DockerfileCalls, Print, Printed, Restorable, ResolvesCall;
    hide OneLine, LineCalls, TooLong, FromLine, SameShapes, IsPrintTable, AllParsable, AllShort, TB.After;
    var header, lines := FromLine(s.baseImage), LinesOf(isPrint, Printed(s.instructions));
    HeaderCalls(header, lines);
    RestoredHeaderIsShort(s, RawCalls([header] + lines + [""]), calls);
    FromThenRest(s.baseImage, RawCalls(lines + [""]), calls);
    RestoredLines(isPrint, TB.NewState().(baseImage := s.baseImage), s.instructions, calls[1..]);
    AllShortCons(header, LinesOf(isPrint, s.instructions));
  }

  lemma AllShortCons(header: string, lines: seq<string>)
    requires !TooLong(header) && AllShort(lines)
    ensures AllShort([header] + lines)
  {
    hide TooLong;
  }

  lemma HeaderCalls(header: string, lines: seq<string>)
    ensures RawCalls([header] + lines + [""])
         == if TooLong(header) then [] else LineCalls(header) + RawCalls(lines + [""])
  {
    hide TooLong, LineCalls;
    assert ([header] + lines + [""])[1..] == lines + [""];
    assert ([header] + lines + [""])[0] == header;
  }

  /**
   * Printing and parsing restores a builder's base image, instruction kinds and arguments exactly when the
   * base is a non-empty trimmed line, every instruction is restorable, and every printed line fits the scanner.
   */
  lemma RoundTripExactly(isPrint: PrintTable, s: TB.State, calls: seq<TB.Call>)
    requires IsPrintTable(isPrint) && s.baseTemplate == ""
    requires Resolves(DockerfileCalls(Print(isPrint, s).value), calls)
    ensures Restores(s, calls) <==> Survives(isPrint, s)
  {
    if Survives(isPrint, s) {
      RoundTrip(isPrint, s, calls);
    }
    if Restores(s, calls) {
      hide Survives, Print, DockerfileCalls, OneLine;
      var text := Print(isPrint, s).value;
      ParsedIsParsable(text, calls);
      var parsed := TB.After(TB.NewState(), calls).instructions;
      forall i | 0 <= i < |parsed| ensures Parsable(s.instructions[i]) {
        assert SameShape(parsed[i], s.instructions[i]) && Parsable(parsed[i]);
      }
      if s.baseImage == "" {
        RestoredHasBase(isPrint, s, calls);
      } else {
        RestoredWithBase(isPrint, s, calls);
      }
    }
  }
}
