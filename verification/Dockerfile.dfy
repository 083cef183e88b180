/** The Dockerfile parser and printer (template/dockerfile_parser.go, template/template.go). */
module Dockerfile {
  import opened Options
  import opened Strings
  import Text
  import TB = TemplateBuilder

  /** bufio.Scanner stops, silently here, at a line that fills its 64 KiB buffer. */
  const SCANNER_LIMIT: nat := 65536

  predicate TooLong(line: string) { ByteLength(line) >= SCANNER_LIMIT }

  function DropCR(line: string): string {
    if line != "" && line[|line| - 1] == '\r' then line[..|line| - 1] else line
  }

  /** bufio.ScanLines: the lines of `raw`, up to the first that is too long; no last empty line. */
  function Scan(raw: seq<string>): seq<string> {
    if raw == [] || TooLong(raw[0]) || raw == [""] then []
    else [DropCR(raw[0])] + Scan(raw[1..])
  }

  function ScanLines(src: string): seq<string> { Scan(Text.Split(src, '\n')) }

  predicate IsSeparator(c: char) { c == ' ' || c == '\t' }

  function SeparatorIndex(line: string): (i: nat)
    ensures i <= |line|
  {
    if line == "" || IsSeparator(line[0]) then 0 else 1 + SeparatorIndex(line[1..])
  }

  function SplitInstruction(line: string): (string, string) {
    var i := SeparatorIndex(line);
    if i == |line| then (line, "") else (line[..i], TrimSpace(line[i + 1..]))
  }

  /** One token of an ENV line: a key, '=', and a value whose outer quotes are dropped. */
  function EnvToken(envs: map<string, string>, token: string): map<string, string> {
    var eq := Index(token, '=');
    if eq == 0 || eq == |token| then envs
    else envs[token[..eq] := TrimChar(token[eq + 1..], '"')]
  }

  function EnvTokens(tokens: seq<string>): map<string, string> {
    if tokens == [] then map[]
    else EnvToken(EnvTokens(tokens[..|tokens| - 1]), tokens[|tokens| - 1])
  }

  function EnvLine(rest: string): map<string, string> { EnvTokens(Fields(rest)) }

  method ParseEnvLine(rest: string) returns (envs: map<string, string>)
    ensures envs == EnvLine(rest)
  {
    var tokens := Fields(rest);
    envs := map[];
    for i := 0 to |tokens|
      invariant envs == EnvTokens(tokens[..i])
    {
      assert tokens[..i + 1][..i] == tokens[..i];
      var tok := tokens[i];
      var eq := Index(tok, '=');
      if eq == 0 || eq == |tok| {
        continue;
      }
      envs := envs[tok[..eq] := TrimChar(tok[eq + 1..], '"')];
    }
    assert tokens[..|tokens|] == tokens;
  }

  const NO_OPTIONS := TB.CopyOptions("", "", None, None)

  /** The builder calls an instruction makes; the iteration order of an ENV map is still open. */
  function InstructionCalls(keyword: string, rest: string): seq<TB.Call> {
    if keyword == "FROM" then [TB.DockerfileFrom(rest)]
    else if keyword == "RUN" then [TB.RunAs(rest, "")]
    else if keyword == "COPY" then
      var parts := Fields(rest);
      if |parts| >= 2 then [TB.CopyFiles(parts[0], parts[1], NO_OPTIONS)] else []
    else if keyword == "WORKDIR" then [TB.SetWorkdir(rest)]
    else if keyword == "USER" then [TB.SetUser(rest)]
    else if keyword == "ENV" then
      var envs := EnvLine(rest);
      if envs != map[] then [TB.SetEnvs(envs, [])] else []
    else []
  }

  function LineCalls(line: string): seq<TB.Call> {
    var trimmed := TrimSpace(line);
    if trimmed == "" || trimmed[0] == '#' then []
    else
      var (head, rest) := SplitInstruction(trimmed);
      InstructionCalls(Upper(head), rest)
  }

  function LinesCalls(lines: seq<string>): seq<TB.Call> {
    if lines == [] then [] else LinesCalls(lines[..|lines| - 1]) + LineCalls(lines[|lines| - 1])
  }

  /** The calls of a whole Dockerfile. */
  function DockerfileCalls(src: string): seq<TB.Call> { LinesCalls(ScanLines(src)) }

  /** `actual` is `parsed` with some iteration order chosen for every ENV map. */
  ghost predicate Resolves(parsed: seq<TB.Call>, actual: seq<TB.Call>) {
    && |parsed| == |actual|
    && forall i :: 0 <= i < |parsed| ==> ResolvesCall(parsed[i], actual[i])
  }

  ghost predicate ResolvesCall(parsed: TB.Call, actual: TB.Call) {
    if parsed.SetEnvs? then actual.SetEnvs? && actual.vars == parsed.vars && TB.ValidCall(actual)
    else actual == parsed
  }

  /** Applies the instructions of a Dockerfile to a builder. */
  method ParseDockerfile(b: TB.Builder, src: string) returns (ghost calls: seq<TB.Call>)
    modifies b
    ensures Resolves(DockerfileCalls(src), calls)
    ensures b.View() == TB.After(old(b.View()), calls)
  {
    hide TB.Next, LineCalls;
    calls := [];
    var lines := ScanLines(src);
    for i := 0 to |lines|
      invariant Resolves(LinesCalls(lines[..i]), calls)
      invariant b.View() == TB.After(old(b.View()), calls)
    {
      assert lines[..i + 1][..i] == lines[..i];
      ghost var made := ParseLine(b, lines[i]);
      TB.AfterConcat(old(b.View()), calls, made);
      calls := calls + made;
    }
    assert lines[..|lines|] == lines;
  }

  /** The body of the parser's loop. */
  method ParseLine(b: TB.Builder, text: string) returns (ghost calls: seq<TB.Call>)
    modifies b
    ensures Resolves(LineCalls(text), calls)
    ensures b.View() == TB.After(old(b.View()), calls)
  {
    calls := [];
    var line := TrimSpace(text);
    if line == "" || line[0] == '#' {
      return;
    }
    var (head, rest) := SplitInstruction(line);
    calls := ApplyInstruction(b, Upper(head), rest);
  }

  method ApplyInstruction(b: TB.Builder, keyword: string, rest: string) returns (ghost calls: seq<TB.Call>)
    modifies b
    ensures Resolves(InstructionCalls(keyword, rest), calls)
    ensures b.View() == TB.After(old(b.View()), calls)
  {
    calls := InstructionCalls(keyword, rest);
    ghost var s := b.View();
    if keyword == "FROM" {
      b.baseImage := rest;
    } else if keyword == "RUN" {
      b.RunAs(rest, "");
    } else if keyword == "COPY" {
      var parts := Fields(rest);
      if |parts| >= 2 {
        b.Copy(parts[0], parts[1], NO_OPTIONS);
      }
    } else if keyword == "WORKDIR" {
      b.SetWorkdir(rest);
    } else if keyword == "USER" {
      b.SetUser(rest);
    } else if keyword == "ENV" {
      var envs := ParseEnvLine(rest);
      if |envs| > 0 {
        var order := b.SetEnvs(envs);
        calls := [TB.SetEnvs(envs, order)];
      }
    }
    AfterOne(s, calls);
  }

  lemma AfterOne(s: TB.State, calls: seq<TB.Call>)
    requires |calls| <= 1
    ensures TB.After(s, calls) == if calls == [] then s else TB.Next(s, calls[0])
  {
    assert calls != [] ==> calls[..0] == [];
  }

  /** A run of two lists of parsed calls is a run of the first followed by a run of the second. */
  lemma ResolvesSplit(a: seq<TB.Call>, b: seq<TB.Call>, calls: seq<TB.Call>)
    requires Resolves(a + b, calls)
    ensures |calls| == |a| + |b| && Resolves(a, calls[..|a|]) && Resolves(b, calls[|a|..])
  {
    hide ResolvesCall;
    forall i | 0 <= i < |a| ensures ResolvesCall(a[i], calls[..|a|][i]) {
      assert ResolvesCall((a + b)[i], calls[i]);
    }
    forall i | 0 <= i < |b| ensures ResolvesCall(b[i], calls[|a|..][i]) {
      assert ResolvesCall((a + b)[|a| + i], calls[|a| + i]);
    }
  }

  lemma ResolvesConcat(a: seq<TB.Call>, b: seq<TB.Call>, x: seq<TB.Call>, y: seq<TB.Call>)
    requires Resolves(a, x) && Resolves(b, y)
    ensures Resolves(a + b, x + y)
  {
    hide ResolvesCall;
  }
}
