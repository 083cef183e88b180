/** Printing a builder as a Dockerfile (template/template.go). */
module DockerfilePrinter {
  import opened Options
  import opened Strings
  import TB = TemplateBuilder

  function Arg(ins: TB.Instruction, i: nat): string {
    if i < |ins.args| then ins.args[i] else ""
  }

  /** Instructions that a builder makes carry the arguments the printer reads. */
  predicate WellFormed(ins: TB.Instruction) {
    |ins.args| >= if ins.kind.Copy? || ins.kind.Env? then 2 else 1
  }

  predicate AllWellFormed(all: seq<TB.Instruction>) {
    forall i :: 0 <= i < |all| ==> WellFormed(all[i])
  }

  /** The printed instruction; USER has no case in the printer and leaves no text. */
  function PrintInstruction(isPrint: PrintTable, ins: TB.Instruction): string {
    match ins.kind
    case Raw => if Arg(ins, 0) != "" && Arg(ins, 0)[|Arg(ins, 0)| - 1] == '\n' then Arg(ins, 0) else Arg(ins, 0) + "\n"
    case Run => "RUN " + Arg(ins, 0) + "\n"
    case Copy => "COPY " + (Arg(ins, 0) + " " + Arg(ins, 1)) + "\n"
    case Workdir => "WORKDIR " + Arg(ins, 0) + "\n"
    case Env => "ENV " + (Arg(ins, 0) + "=" + Quote(isPrint, Arg(ins, 1))) + "\n"
    case Expose => "EXPOSE " + Arg(ins, 0) + "\n"
    case Entrypoint => "ENTRYPOINT " + Arg(ins, 0) + "\n"
    case User => ""
  }

  function PrintInstructions(isPrint: PrintTable, all: seq<TB.Instruction>): string {
    if all == [] then ""
    else PrintInstructions(isPrint, all[..|all| - 1]) + PrintInstruction(isPrint, all[|all| - 1])
  }

  function PrintBase(image: string): string {
    if image == "" then "" else "FROM " + image + "\n"
  }

  /** The Dockerfile text, or nothing when the template is based on another template. */
  function Print(isPrint: PrintTable, s: TB.State): Option<string> {
    if s.baseTemplate != "" then None
    else Some(PrintBase(s.baseImage) + PrintInstructions(isPrint, s.instructions))
  }

  /** The printer's switch. */
  method PrintOne(isPrint: PrintTable, ins: TB.Instruction) returns (text: string)
    requires WellFormed(ins)
    ensures text == PrintInstruction(isPrint, ins)
  {
    hide Quote;
    text := "";
    match ins.kind {
    case Raw =>
      text := ins.args[0];
      if text == "" || text[|text| - 1] != '\n' {
        text := text + "\n";
      }
    case Run =>
      text := "RUN " + ins.args[0] + "\n";
    case Copy =>
      text := "COPY " + (ins.args[0] + " " + ins.args[1]) + "\n";
    case Workdir =>
      text := "WORKDIR " + ins.args[0] + "\n";
    case Env =>
      text := "ENV " + (ins.args[0] + "=" + Quote(isPrint, ins.args[1])) + "\n";
    case Expose =>
      text := "EXPOSE " + ins.args[0] + "\n";
    case Entrypoint =>
      text := "ENTRYPOINT " + ins.args[0] + "\n";
    case User =>
    }
  }

  method ToDockerfile(b: TB.Builder, isPrint: PrintTable) returns (r: Option<string>)
    requires AllWellFormed(b.instructions)
    ensures r == Print(isPrint, b.View())
  {
    hide PrintInstruction;
    if b.baseTemplate != "" {
      return None;
    }
    var sb := "";
    if b.baseImage != "" {
      sb := "FROM " + b.baseImage + "\n";
    }
    for i := 0 to |b.instructions|
      invariant sb == PrintBase(b.baseImage) + PrintInstructions(isPrint, b.instructions[..i])
    {
      var ins := b.instructions[i];
      assert b.instructions[..i + 1][..i] == b.instructions[..i];
      var text := PrintOne(isPrint, ins);
      sb := sb + text;
    }
    assert b.instructions[..|b.instructions|] == b.instructions;
    return Some(sb);
  }

  /** Whatever calls built it, a builder holds well-formed instructions only. */
  lemma {:induction false} BuiltInstructionsWellFormed(s: TB.State, calls: seq<TB.Call>)
    requires AllWellFormed(s.instructions)
    requires forall c :: c in calls ==> TB.ValidCall(c)
    ensures AllWellFormed(TB.After(s, calls).instructions)
  {
    if calls != [] {
      var last := |calls| - 1;
      BuiltInstructionsWellFormed(s, calls[..last]);
      assert calls[last] in calls;
      NextWellFormed(TB.After(s, calls[..last]), calls[last]);
    }
  }

  lemma NextWellFormed(s: TB.State, c: TB.Call)
    requires AllWellFormed(s.instructions)
    requires TB.ValidCall(c)
    ensures AllWellFormed(TB.Next(s, c).instructions)
  {
    if c.SetEnvs? && c.vars != map[] {
      var k :| k in c.vars;
      assert k in c.order;
      assert |TB.Interleave(c.vars, c.order)| >= 2;
    }
  }
}

/** How parsing and printing Dockerfiles relate, and how parsing composes. */
module DockerfileLaws {
  import opened Options
  import opened Strings
  import opened Dockerfile
  import opened DockerfilePrinter
  import Paths
  import Sequences
  import Text
  import TB = TemplateBuilder

  lemma DropCRIgnored(line: string)
    ensures LineCalls(DropCR(line)) == LineCalls(line)
  {
    if DropCR(line) != line {
      TrimAddedSpace(DropCR(line), "\r");
      assert line == DropCR(line) + "\r";
    }
  }

  lemma {:induction false} LinesCallsConcat(a: seq<string>, b: seq<string>)
    ensures LinesCalls(a + b) == LinesCalls(a) + LinesCalls(b)
  {
    hide LineCalls;
    if b == [] {
      assert a + b == a;
    } else {
      var last := |b| - 1;
      assert (a + b)[..|a + b| - 1] == a + b[..last];
      LinesCallsConcat(a, b[..last]);
    }
  }

  /** The calls of raw lines: those before the first line that is too long. */
  function RawCalls(raw: seq<string>): seq<TB.Call> {
    if raw == [] || TooLong(raw[0]) then [] else LineCalls(raw[0]) + RawCalls(raw[1..])
  }

  lemma {:induction false} ScanCalls(raw: seq<string>)
    ensures LinesCalls(Scan(raw)) == RawCalls(raw)
  {
    if raw == [""] {
      assert ByteLength("") == 0 && LineCalls("") == [] && RawCalls([]) == [];
      assert raw[1..] == [];
    } else if raw != [] && !TooLong(raw[0]) {
      ScanCalls(raw[1..]);
      LinesCallsConcat([DropCR(raw[0])], Scan(raw[1..]));
      DropCRIgnored(raw[0]);
      hide LineCalls, TooLong;
      LinesCallsOne(DropCR(raw[0]));
    }
  }

  lemma LinesCallsOne(line: string)
    ensures LinesCalls([line]) == LineCalls(line)
  {
    hide LineCalls;
    assert [line][..0] == [];
  }

  ghost predicate HasLongLine(raw: seq<string>) {
    exists i :: 0 <= i < |raw| && TooLong(raw[i])
  }

  lemma {:induction false} RawCallsConcat(a: seq<string>, b: seq<string>)
    ensures RawCalls(a + b) == if HasLongLine(a) then RawCalls(a) else RawCalls(a) + RawCalls(b)
  {
    hide LineCalls, TooLong;
    if a == [] {
      assert a + b == b;
    } else {
      RawCallsConcat(a[1..], b);
      assert (a + b)[1..] == a[1..] + b;
      if HasLongLine(a[1..]) {
        var i :| 0 <= i < |a| - 1 && TooLong(a[1..][i]);
        assert TooLong(a[i + 1]);
      } else if !TooLong(a[0]) {
        forall i | 0 <= i < |a| ensures !TooLong(a[i]) {
          assert i > 0 ==> !TooLong(a[1..][i - 1]);
        }
      }
    }
  }

  /**
   * Parsing two texts joined by a newline makes the calls of the first and then of the second, unless
   * the first has a line the scanner gives up on: then nothing after that line is read.
   */
  lemma {:induction false} ParsingComposes(a: string, b: string)
    ensures DockerfileCalls(a + "\n" + b)
         == if HasLongLine(Text.Split(a, '\n')) then DockerfileCalls(a)
            else DockerfileCalls(a) + DockerfileCalls(b)
    ensures DockerfileCalls(a + "\n" + b) == DockerfileCalls(a) + DockerfileCalls(b)
       <==> !HasLongLine(Text.Split(a, '\n')) || DockerfileCalls(b) == []
  {
    var (x, y) := (Text.Split(a, '\n'), Text.Split(b, '\n'));
    hide Text.Split, RawCalls, HasLongLine, LinesCalls, Scan;
    Text.SplitConcat(a, b, '\n');
    assert a + "\n" + b == a + ['\n'] + b;
    RawCallsConcat(x, y);
    ScanCalls(x);
    ScanCalls(y);
    ScanCalls(x + y);
    if DockerfileCalls(a) + DockerfileCalls(b) == DockerfileCalls(a) {
      assert |DockerfileCalls(b)| == 0;
    }
  }

  /** On builders: a run of the first text followed by a run of the second is a run of the joined text. */
  lemma ParsedBuildersCompose(s: TB.State, a: string, b: string, first: seq<TB.Call>, second: seq<TB.Call>)
    requires !HasLongLine(Text.Split(a, '\n'))
    requires Resolves(DockerfileCalls(a), first) && Resolves(DockerfileCalls(b), second)
    ensures Resolves(DockerfileCalls(a + "\n" + b), first + second)
    ensures TB.After(s, first + second) == TB.After(TB.After(s, first), second)
  {
    ParsingComposes(a, b);
    TB.AfterConcat(s, first, second);
    hide DockerfileCalls, TB.After;
    ResolvesConcat(DockerfileCalls(a), DockerfileCalls(b), first, second);
  }

  /** And every run of the joined text is one of the first text followed by one of the second. */
  lemma JoinedRunSplits(s: TB.State, a: string, b: string, calls: seq<TB.Call>)
    returns (first: seq<TB.Call>, second: seq<TB.Call>)
    requires !HasLongLine(Text.Split(a, '\n'))
    requires Resolves(DockerfileCalls(a + "\n" + b), calls)
    ensures calls == first + second
    ensures Resolves(DockerfileCalls(a), first) && Resolves(DockerfileCalls(b), second)
    ensures TB.After(s, calls) == TB.After(TB.After(s, first), second)
  {
    ParsingComposes(a, b);
    hide DockerfileCalls, TB.After;
    var n := |DockerfileCalls(a)|;
    ResolvesSplit(DockerfileCalls(a), DockerfileCalls(b), calls);
    first, second := calls[..n], calls[n..];
    assert calls == first + second;
    TB.AfterConcat(s, first, second);
  }

  lemma {:induction false} ManyBytes(s: string)
    ensures ByteLength(s) >= |s|
  {
    if s != "" {
      ManyBytes(s[1..]);
    }
  }

  lemma OneShortLine(line: string)
    requires NoChar(line, '\n') && !TooLong(line)
    ensures DockerfileCalls(line) == LineCalls(line)
  {
    hide LineCalls, TooLong;
    Text.SplitWithoutSeparator(line, '\n');
    ScanCalls([line]);
    assert RawCalls([line]) == LineCalls(line) + RawCalls([]) by { assert [line][1..] == []; }
  }

  lemma OneRunLine(cmd: string)
    requires OneLine(cmd) && !TooLong("RUN" + " " + cmd)
    ensures DockerfileCalls("RUN" + " " + cmd) == [TB.RunAs(cmd, "")]
  {
    hide TooLong;
    OneShortLine("RUN" + " " + cmd);
    KeywordLine("RUN", cmd);
    hide DockerfileCalls, LineCalls;
  }

  /** A text whose only line is too long swallows everything that follows it. */
  lemma LongLineSwallowsTheRest(cmd: string)
    requires OneLine(cmd) && !TooLong("RUN" + " " + cmd)
    ensures var (a, b) := (seq(SCANNER_LIMIT, _ => 'x'), "RUN" + " " + cmd);
      DockerfileCalls(a + "\n" + b) != DockerfileCalls(a) + DockerfileCalls(b)
  {
    var (a, b) := (seq(SCANNER_LIMIT, _ => 'x'), "RUN" + " " + cmd);
    ManyBytes(a);
    assert HasLongLine(Text.Split(a, '\n')) by {
      Text.SplitWithoutSeparator(a, '\n');
      assert TooLong([a][0]);
    }
    OneRunLine(cmd);
    hide DockerfileCalls, HasLongLine;
    ParsingComposes(a, b);
  }

  lemma {:induction false} SeparatorAfter(head: string, tail: string)
    requires forall i :: 0 <= i < |head| ==> !IsSeparator(head[i])
    requires tail == "" || IsSeparator(tail[0])
    ensures SeparatorIndex(head + tail) == |head|
  {
    if head == "" {
      assert head + tail == tail;
    } else {
      SeparatorAfter(head[1..], tail);
      assert (head + tail)[1..] == head[1..] + tail;
    }
  }

  predicate Capitals(s: string) { s != "" && forall i :: 0 <= i < |s| ==> 'A' <= s[i] <= 'Z' }

  lemma {:induction false} UpperOfCapitals(s: string)
    requires forall i :: 0 <= i < |s| ==> 'A' <= s[i] <= 'Z'
    ensures Upper(s) == s
  {
    if s != "" {
      UpperOfCapitals(s[1..]);
      assert s == [s[0]] + s[1..];
    }
  }

  /** Trimming and splitting a keyword line gives the keyword and the argument back. */
  lemma KeywordSplit(keyword: string, arg: string)
    requires Capitals(keyword) && arg != "" && Trimmed(arg)
    ensures var line := keyword + " " + arg;
      TrimSpace(line) == line && SplitInstruction(line) == (keyword, arg)
  {
    var line := keyword + " " + arg;
    TrimOfTrimmed(line);
    TrimOfTrimmed(arg);
    hide TrimSpace;
    assert line == keyword + (" " + arg);
    SeparatorAfter(keyword, " " + arg);
    hide SeparatorIndex;
    assert line[..|keyword|] == keyword && line[|keyword| + 1..] == arg;
  }

  lemma BareKeywordSplit(keyword: string)
    requires Capitals(keyword)
    ensures TrimSpace(keyword + " ") == keyword && SplitInstruction(keyword) == (keyword, "")
  {
    TrimAddedSpace(keyword, " ");
    TrimOfTrimmed(keyword);
    hide TrimSpace;
    SeparatorAfter(keyword, "");
    assert keyword + "" == keyword;
  }

  /** A keyword, a space and a trimmed argument parse as that instruction. */
  lemma KeywordLine(keyword: string, arg: string)
    requires Capitals(keyword) && Trimmed(arg)
    ensures LineCalls(keyword + " " + arg) == InstructionCalls(keyword, arg)
  {
    hide InstructionCalls, Upper, TrimSpace, SplitInstruction, Trimmed;
    UpperOfCapitals(keyword);
    if arg == "" {
      BareKeywordSplit(keyword);
      assert keyword + " " + "" == keyword + " ";
    } else {
      KeywordSplit(keyword, arg);
    }
  }

  // The round trip.

  predicate OneLine(s: string) { Trimmed(s) && NoChar(s, '\n') }

  predicate Token(s: string) { s != "" && NoSpace(s) }

  /** The instructions that survive printing and parsing, apart from flags that no Dockerfile carries. */
  predicate Restorable(isPrint: PrintTable, ins: TB.Instruction) {
    match ins.kind
    case Run => |ins.args| == 1 && OneLine(ins.args[0])
    case Workdir => |ins.args| == 1 && OneLine(ins.args[0])
    case Copy =>
      && |ins.args| == 4 && Token(ins.args[0]) && Token(ins.args[1]) && ins.args[2] == "" && ins.args[3] == ""
      && Paths.ValidateRelativePath(ins.args[0]) == None
    case Env =>
      && |ins.args| == 2 && Token(ins.args[0]) && NoChar(ins.args[0], '=')
      && NeedsNoEscape(isPrint, ins.args[1]) && NoChar(ins.args[1], ' ')
    case _ => false
  }

  function Keyword(kind: TB.Kind): string {
    match kind
    case Run => "RUN"
    case Copy => "COPY"
    case Workdir => "WORKDIR"
    case Env => "ENV"
    case User => "USER"
    case Expose => "EXPOSE"
    case Entrypoint => "ENTRYPOINT"
    case Raw => ""
  }

  function Argument(isPrint: PrintTable, ins: TB.Instruction): string {
    match ins.kind
    case Copy => Arg(ins, 0) + " " + Arg(ins, 1)
    case Env => Arg(ins, 0) + "=" + Quote(isPrint, Arg(ins, 1))
    case _ => Arg(ins, 0)
  }

  function Line(isPrint: PrintTable, ins: TB.Instruction): string {
    Keyword(ins.kind) + " " + Argument(isPrint, ins)
  }

  /** Kind and arguments, the part of an instruction that a Dockerfile can carry. */
  predicate SameShape(a: TB.Instruction, b: TB.Instruction) { a.kind == b.kind && a.args == b.args }

  ghost predicate SameShapes(a: seq<TB.Instruction>, b: seq<TB.Instruction>) {
    && |a| == |b|
    && forall i :: 0 <= i < |a| ==> SameShape(a[i], b[i])
  }

  /** `call` appends an instruction with the kind and arguments of `ins`. */
  ghost predicate Rebuilds(call: TB.Call, ins: TB.Instruction) {
    forall s: TB.State, actual: TB.Call :: ResolvesCall(call, actual) ==>
      RebuildsFrom(s, actual, ins)
  }

  ghost predicate RebuildsFrom(s: TB.State, actual: TB.Call, ins: TB.Instruction) {
    var after := TB.Next(s, actual);
    && |after.instructions| == |s.instructions| + 1
    && after.instructions[..|s.instructions|] == s.instructions
    && SameShape(after.instructions[|s.instructions|], ins)
    && after.baseImage == s.baseImage
  }

  /** One "KEY=quoted" token, when neither side holds whitespace. */
  lemma EnvArgument(isPrint: PrintTable, key: string, value: string)
    requires IsPrintTable(isPrint)
    requires Token(key) && NoChar(key, '=') && NoChar(value, ' ')
    ensures EnvLine(key + "=" + Quote(isPrint, value)) == map[key := TrimChar(Quote(isPrint, value), '"')]
  {
    QuoteBodyText(isPrint, value);
    var quoted := Quote(isPrint, value);
    assert NoSpace(quoted);
    hide Quote;
    EnvOneToken(key, quoted);
  }

  lemma EnvOneToken(key: string, quoted: string)
    requires Token(key) && NoChar(key, '=') && NoSpace(quoted)
    ensures EnvLine(key + "=" + quoted) == map[key := TrimChar(quoted, '"')]
  {
    hide TrimChar;
    var token := key + "=" + quoted;
    FieldsOfOne(token);
    hide Fields;
    assert token == key + ("=" + quoted);
    IndexAfter(key, "=" + quoted, '=');
    hide Index;
    assert token[..|key|] == key && token[|key| + 1..] == quoted;
    var none: seq<string> := [];
    assert [token][..0] == none;
    assert EnvTokens([token]) == EnvToken(map[], token);
  }

  lemma {:induction false} IndexAfter(head: string, tail: string, c: char)
    requires NoChar(head, c) && tail != "" && tail[0] == c
    ensures Index(head + tail, c) == |head|
  {
    if head == "" {
      assert head + tail == tail;
    } else {
      IndexAfter(head[1..], tail, c);
      assert (head + tail)[1..] == head[1..] + tail;
    }
  }

  lemma SingleKeyOrder(key: string, value: string, order: seq<string>)
    requires Sequences.Enumerates(order, {key})
    ensures TB.Interleave(map[key := value], order) == [key, value]
  {
    Sequences.EnumerationAsMultiset(order, {key});
    assert |order| == |multiset(order)| == 1;
    assert order[0] in {key};
    assert TB.Interleave(map[key := value], order[1..]) == [];
  }

  /** What a parsed ENV with one key appends. */
  lemma EnvRebuilds(key: string, value: string, ins: TB.Instruction)
    requires ins.kind.Env? && ins.args == [key, value]
    ensures Rebuilds(TB.SetEnvs(map[key := value], []), ins)
  {
    var call := TB.SetEnvs(map[key := value], []);
    forall s: TB.State, actual: TB.Call | ResolvesCall(call, actual) ensures RebuildsFrom(s, actual, ins) {
      assert map[key := value].Keys == {key};
      SingleKeyOrder(key, value, actual.order);
      hide TB.Interleave;
    }
  }

  lemma ArgumentTrimmed(isPrint: PrintTable, ins: TB.Instruction)
    requires IsPrintTable(isPrint) && Restorable(isPrint, ins)
    ensures Trimmed(Argument(isPrint, ins)) && NoChar(Argument(isPrint, ins), '\n')
    ensures Capitals(Keyword(ins.kind))
  {
    if ins.kind.Env? {
      QuoteBodyText(isPrint, ins.args[1]);
      hide QuoteBody, NeedsNoEscape;
      NoSpaceNoNewline(ins.args[0]);
    } else if ins.kind.Copy? {
      NoSpaceNoNewline(ins.args[0]);
      NoSpaceNoNewline(ins.args[1]);
    }
  }

  lemma NoSpaceNoNewline(s: string)
    requires NoSpace(s)
    ensures NoChar(s, '\n')
  {
  }

  /** What the other parsed instructions append. */
  lemma PlainRebuilds(text: string, ins: TB.Instruction)
    requires ins.args == [text]
    ensures ins.kind.Run? ==> Rebuilds(TB.RunAs(text, ""), ins)
    ensures ins.kind.Workdir? ==> Rebuilds(TB.SetWorkdir(text), ins)
    ensures ins.kind.User? ==> Rebuilds(TB.SetUser(text), ins)
  {
  }

  lemma CopyRebuilds(src: string, dest: string, ins: TB.Instruction)
    requires ins.kind.Copy? && ins.args == [src, dest, "", ""] && Paths.ValidateRelativePath(src) == None
    ensures Rebuilds(TB.CopyFiles(src, dest, NO_OPTIONS), ins)
  {
    hide Paths.ValidateRelativePath;
  }

  /** The calls a restorable instruction's line makes. */
  lemma ArgumentRebuilds(isPrint: PrintTable, ins: TB.Instruction)
    requires IsPrintTable(isPrint) && Restorable(isPrint, ins)
    ensures var calls := InstructionCalls(Keyword(ins.kind), Argument(isPrint, ins));
      |calls| == 1 && Rebuilds(calls[0], ins)
  {
    hide Rebuilds, Quote, EnvLine, Fields, NeedsNoEscape, TrimChar, NoChar, Trimmed, Paths.ValidateRelativePath;
    if ins.kind.Env? {
      EnvArgument(isPrint, ins.args[0], ins.args[1]);
      TrimOfQuote(isPrint, ins.args[1]);
      assert ins.args == [ins.args[0], ins.args[1]];
      EnvRebuilds(ins.args[0], ins.args[1], ins);
      assert ins.args[0] in EnvLine(Argument(isPrint, ins));
    } else if ins.kind.Copy? {
      FieldsOfTwo(ins.args[0], ins.args[1]);
      assert ins.args == [ins.args[0], ins.args[1], "", ""];
      CopyRebuilds(ins.args[0], ins.args[1], ins);
    } else {
      PlainRebuilds(ins.args[0], ins);
    }
  }

  lemma RestorablePrintsItsLine(isPrint: PrintTable, ins: TB.Instruction)
    requires Restorable(isPrint, ins)
    ensures PrintInstruction(isPrint, ins) == Line(isPrint, ins) + "\n"
  {
    hide Quote, NeedsNoEscape, NoChar, NoSpace, OneLine;
  }

  /** A restorable instruction prints one line, and that line parses back to it. */
  lemma LineRebuilds(isPrint: PrintTable, ins: TB.Instruction)
    requires IsPrintTable(isPrint) && Restorable(isPrint, ins)
    ensures PrintInstruction(isPrint, ins) == Line(isPrint, ins) + "\n"
    ensures NoChar(Line(isPrint, ins), '\n')
    ensures |LineCalls(Line(isPrint, ins))| == 1 && Rebuilds(LineCalls(Line(isPrint, ins))[0], ins)
  {
    RestorablePrintsItsLine(isPrint, ins);
    ArgumentTrimmed(isPrint, ins);
    ArgumentRebuilds(isPrint, ins);
    hide Argument, Rebuilds, InstructionCalls, LineCalls, Restorable, PrintInstruction;
    KeywordLine(Keyword(ins.kind), Argument(isPrint, ins));
  }

  function TextOf(lines: seq<string>): string {
    if lines == [] then "" else TextOf(lines[..|lines| - 1]) + lines[|lines| - 1] + "\n"
  }

  ghost predicate NoNewlines(lines: seq<string>) {
    forall i :: 0 <= i < |lines| ==> NoChar(lines[i], '\n')
  }

  lemma {:induction false} SplitTextOf(lines: seq<string>)
    requires NoNewlines(lines)
    ensures Text.Split(TextOf(lines), '\n') == lines + [""]
  {
    if lines != [] {
      var (before, last) := (lines[..|lines| - 1], lines[|lines| - 1]);
      hide Text.Split, NoChar;
      SplitTextOf(before);
      NoNewlineSplit(last);
      var head := TextOf(before) + last;
      assert TextOf(lines) == head + ['\n'] + "";
      Text.SplitConcat(head, "", '\n');
      Text.SplitWithoutSeparator("", '\n');
      assert Text.Split(head, '\n') == lines by {
        if before == [] {
          assert head == last;
        } else {
          var inner := TextOf(before[..|before| - 1]) + before[|before| - 1];
          assert TextOf(before) == inner + ['\n'] + "";
          Text.SplitConcat(inner, "", '\n');
          Text.SplitConcat(inner, last, '\n');
          assert head == inner + ['\n'] + last;
          assert Text.Split(inner, '\n') + [""] == before + [""];
          assert Text.Split(inner, '\n') == (before + [""])[..|before|] == before;
        }
      }
    }
  }

  lemma NoNewlineSplit(s: string)
    requires NoChar(s, '\n')
    ensures Text.Split(s, '\n') == [s]
  {
    Text.SplitWithoutSeparator(s, '\n');
  }

  function LinesOf(isPrint: PrintTable, all: seq<TB.Instruction>): seq<string> {
    if all == [] then [] else LinesOf(isPrint, all[..|all| - 1]) + [Line(isPrint, all[|all| - 1])]
  }

  ghost predicate AllShort(lines: seq<string>) {
    forall i :: 0 <= i < |lines| ==> !TooLong(lines[i])
  }

  lemma {:induction false} ShortLinesCalls(lines: seq<string>)
    requires AllShort(lines)
    ensures RawCalls(lines + [""]) == LinesCalls(lines)
  {
    if lines == [] {
      assert RawCalls([""]) == LineCalls("") + RawCalls([""][1..]);
    } else {
      hide LineCalls, TooLong;
      var rest := lines[1..];
      ShortLinesCalls(rest);
      assert (lines + [""])[1..] == rest + [""];
      LinesCallsConcat([lines[0]], rest);
      LinesCallsOne(lines[0]);
      assert lines == [lines[0]] + rest;
      assert (lines + [""])[0] == lines[0];
    }
  }

  function FromLine(image: string): string { "FROM" + " " + image }

  /** What it takes for a builder to survive printing and parsing. */
  ghost predicate Survives(isPrint: PrintTable, s: TB.State) {
    && s.baseImage != "" && OneLine(s.baseImage)
    && (forall i :: 0 <= i < |s.instructions| ==> Restorable(isPrint, s.instructions[i]))
    && AllShort([FromLine(s.baseImage)] + LinesOf(isPrint, s.instructions))
  }

  /** Parsing into a fresh builder gives back the base image and every instruction's kind and arguments. */
  ghost predicate Restores(s: TB.State, calls: seq<TB.Call>) {
    var parsed := TB.After(TB.NewState(), calls);
    parsed.baseImage == s.baseImage && SameShapes(parsed.instructions, s.instructions)
  }

  lemma {:induction false} PrintedText(isPrint: PrintTable, header: string, all: seq<TB.Instruction>)
    requires IsPrintTable(isPrint)
    requires NoChar(header, '\n')
    requires forall i :: 0 <= i < |all| ==> Restorable(isPrint, all[i])
    ensures NoNewlines([header] + LinesOf(isPrint, all))
    ensures header + "\n" + PrintInstructions(isPrint, all) == TextOf([header] + LinesOf(isPrint, all))
  {
    hide Restorable, Line, PrintInstruction, NoChar, TextOf, Quote;
    if all == [] {
      TextOfSnoc([], header);
      assert [header] + LinesOf(isPrint, all) == [header] == [] + [header];
      TextOfNothing();
    } else {
      var (before, last) := (all[..|all| - 1], all[|all| - 1]);
      PrintedText(isPrint, header, before);
      LinePrinted(isPrint, last);
      var lines := [header] + LinesOf(isPrint, before);
      assert [header] + LinesOf(isPrint, all) == lines + [Line(isPrint, last)];
      TextOfSnoc(lines, Line(isPrint, last));
    }
  }

  lemma LinePrinted(isPrint: PrintTable, ins: TB.Instruction)
    requires IsPrintTable(isPrint) && Restorable(isPrint, ins)
    ensures PrintInstruction(isPrint, ins) == Line(isPrint, ins) + "\n"
    ensures NoChar(Line(isPrint, ins), '\n')
  {
    hide Restorable, PrintInstruction, Line, NoChar;
    LineRebuilds(isPrint, ins);
  }

  lemma TextOfSnoc(lines: seq<string>, line: string)
    ensures TextOf(lines + [line]) == TextOf(lines) + (line + "\n")
  {
    assert (lines + [line])[..|lines|] == lines;
  }

  lemma TextOfNothing()
    ensures TextOf([]) == ""
  {
  }

  /** The calls of the printed lines rebuild the instructions one by one. */
  /** One more call that rebuilds its instruction. */
  lemma RebuildOne(s: TB.State, all: seq<TB.Instruction>, calls: seq<TB.Call>, last: TB.Instruction)
    requires calls != [] && RebuildsFrom(TB.After(s, calls[..|calls| - 1]), calls[|calls| - 1], last)
    requires var mid := TB.After(s, calls[..|calls| - 1]);
      && mid.baseImage == s.baseImage && |mid.instructions| == |s.instructions| + |all|
      && SameShapes(mid.instructions[|s.instructions|..], all)
    ensures var after := TB.After(s, calls);
      && after.baseImage == s.baseImage && |after.instructions| == |s.instructions| + |all| + 1
      && SameShapes(after.instructions[|s.instructions|..], all + [last])
  {
    hide TB.Next, SameShape;
    var mid, after := TB.After(s, calls[..|calls| - 1]), TB.After(s, calls);
    var k := |s.instructions|;
    assert after == TB.Next(mid, calls[|calls| - 1]);
    assert after.instructions == mid.instructions + [after.instructions[|mid.instructions|]];
    forall i | 0 <= i < |all| + 1
      ensures SameShape(after.instructions[k..][i], (all + [last])[i])
    {
      assert i < |all| ==> after.instructions[k..][i] == mid.instructions[k..][i];
    }
  }

  lemma {:induction false} RebuildAll(isPrint: PrintTable, s: TB.State, all: seq<TB.Instruction>, calls: seq<TB.Call>)
    requires IsPrintTable(isPrint)
    requires forall i :: 0 <= i < |all| ==> Restorable(isPrint, all[i])
    requires Resolves(LinesCalls(LinesOf(isPrint, all)), calls)
    ensures |calls| == |all|
    ensures TB.After(s, calls).baseImage == s.baseImage
    ensures |TB.After(s, calls).instructions| == |s.instructions| + |all|
    ensures SameShapes(TB.After(s, calls).instructions[|s.instructions|..], all)
  {
    hide Restorable, Line, LineCalls, TB.Next, ResolvesCall, SameShape, RebuildsFrom, IsPrintTable;
    if all != [] {
      var (before, last) := (all[..|all| - 1], all[|all| - 1]);
      var lines := LinesOf(isPrint, all);
      assert lines[..|lines| - 1] == LinesOf(isPrint, before);
      LineRebuilds(isPrint, last);
      var (parsed, one) := (LinesCalls(LinesOf(isPrint, before)), LineCalls(Line(isPrint, last)));
      ResolvesSplit(parsed, one, calls);
      var n := |parsed|;
      RebuildAll(isPrint, s, before, calls[..n]);
      assert ResolvesCall(one[0], calls[n..][0]);
      assert calls[..|calls| - 1] == calls[..n];
      hide LinesOf, LinesCalls, TB.After, SameShapes;
      RebuildOne(s, before, calls, last);
      assert all == before + [last];
    }
  }

  /** Printing and then parsing restores a builder that meets the conditions above. */
  lemma RoundTrip(isPrint: PrintTable, s: TB.State, calls: seq<TB.Call>)
    requires IsPrintTable(isPrint)
    requires s.baseTemplate == "" && Survives(isPrint, s)
    requires Resolves(DockerfileCalls(Print(isPrint, s).value), calls)
    ensures Restores(s, calls)
  {
    hide Restorable, LineCalls, PrintInstructions, TextOf, LinesOf, TooLong, LinesCalls, DockerfileCalls, Resolves;
    hide OneLine, Restores, RawCalls, NoChar;
    var header := FromLine(s.baseImage);
    FromLineCalls(s.baseImage);
    PrintedText(isPrint, header, s.instructions);
    ShortTextCalls(header, LinesOf(isPrint, s.instructions));
    RestoredCalls(isPrint, s, calls);
  }

  lemma FromLineCalls(image: string)
    requires OneLine(image)
    ensures LineCalls(FromLine(image)) == [TB.DockerfileFrom(image)]
    ensures NoChar(FromLine(image), '\n')
    ensures image != "" ==> PrintBase(image) == FromLine(image) + "\n"
  {
    hide LineCalls, Trimmed;
    KeywordLine("FROM", image);
  }

  /** The calls of a text made of short lines are those of its lines. */
  lemma ShortTextCalls(header: string, lines: seq<string>)
    requires NoNewlines([header] + lines) && AllShort([header] + lines)
    ensures DockerfileCalls(TextOf([header] + lines)) == LineCalls(header) + LinesCalls(lines)
  {
    hide LineCalls, TextOf, TooLong, LinesCalls, Text.Split, RawCalls, Scan, NoChar;
    SplitTextOf([header] + lines);
    ScanCalls([header] + lines + [""]);
    ShortLinesCalls([header] + lines);
    LinesCallsConcat([header], lines);
    LinesCallsOne(header);
  }

  /** A run that starts with a FROM line starts the rest from a fresh builder on that image. */
  lemma FromThenRest(image: string, parsed: seq<TB.Call>, calls: seq<TB.Call>)
    requires Resolves([TB.DockerfileFrom(image)] + parsed, calls)
    ensures calls != [] && Resolves(parsed, calls[1..])
    ensures TB.After(TB.NewState(), calls) == TB.After(TB.NewState().(baseImage := image), calls[1..])
  {
    ResolvesSplit([TB.DockerfileFrom(image)], parsed, calls);
    assert ResolvesCall([TB.DockerfileFrom(image)][0], calls[..1][0]);
    AfterOne(TB.NewState(), calls[..1]);
    TB.AfterConcat(TB.NewState(), calls[..1], calls[1..]);
    assert calls == calls[..1] + calls[1..];
  }

  lemma RestoredCalls(isPrint: PrintTable, s: TB.State, calls: seq<TB.Call>)
    requires IsPrintTable(isPrint) && Survives(isPrint, s)
    requires Resolves([TB.DockerfileFrom(s.baseImage)] + LinesCalls(LinesOf(isPrint, s.instructions)), calls)
    ensures Restores(s, calls)
  {
    hide Restorable, LinesCalls, LinesOf, TooLong;
    FromThenRest(s.baseImage, LinesCalls(LinesOf(isPrint, s.instructions)), calls);
    var start := TB.NewState().(baseImage := s.baseImage);
    RebuildAll(isPrint, start, s.instructions, calls[1..]);
    assert start.instructions == [];
  }
}
