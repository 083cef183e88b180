/**
 * Starting a build (template/build.go, template/template.go): hash every COPY step, probe and upload what the
 * server lacks, and only then trigger. What the server, the uploads and the file tree do is a parameter.
 */
module StartBuild {
  import opened Options
  import opened TemplateBuilder
  import ByteStrings
  import Files
  import FilesHash
  import Strings
  import TarPipe
  import Text

  const RESOLVE_SYMLINKS_DEFAULT := false

  /** The context as one pass sees it, and what reading its .dockerignore gives. */
  datatype Snapshot = Snapshot(c: Files.Context, dockerignore: Option<string>)

  datatype Link = Link(present: bool, url: Option<string>)

  /** One upload: the context it reads and the state in which its run ends. */
  datatype Upload = Upload(snapshot: Snapshot, end: TarPipe.Run)

  /** All that the build meets; links and uploads are by position of the instruction. */
  datatype World = World(
    formats: FilesHash.Formats,
    first: Snapshot,
    second: Snapshot,
    link: nat -> Option<Link>,
    upload: nat -> Upload,
    accepts: bool)

  datatype Failure =
    | NeedsContext
    | HashFailed(src: string)
    | ProbeFailed
    | UploadFailed(src: string, hash: string, cause: Option<TarPipe.Error>)
    | BuilderFailed(err: BuilderError)
    | TriggerFailed

  datatype Hashed = Hashed(ins: Instruction, filesHash: string)

  datatype HashPass = HashedAll(steps: seq<Hashed>) | HashFailure(failure: Failure)

  // ---- hashing ----

  predicate IsComment(line: string) { line == "" || line[0] == '#' }

  function IgnoreLines(lines: seq<string>): seq<string> {
    if lines == [] then []
    else
      var last := |lines| - 1;
      var trimmed := Strings.TrimSpace(lines[last]);
      IgnoreLines(lines[..last]) + if IsComment(trimmed) then [] else [trimmed]
  }

  function DockerignoreLines(content: Option<string>): seq<string> {
    if content == None then [] else IgnoreLines(Text.Split(content.value, '\n'))
  }

  /** The caller's patterns and then those of the context's .dockerignore. */
  function Ignores(b: State, snapshot: Snapshot): seq<string> {
    b.ignorePatterns + if b.contextDir != "" then DockerignoreLines(snapshot.dockerignore) else []
  }

  function Resolve(ins: Instruction): bool {
    if ins.resolveSymlinks.Some? then ins.resolveSymlinks.value else RESOLVE_SYMLINKS_DEFAULT
  }

  function Source(ins: Instruction): string { if ins.args == [] then "" else ins.args[0] }

  function Dest(ins: Instruction): string { if |ins.args| > 1 then ins.args[1] else "" }

  ghost function StepHash(w: World, b: State, snapshot: Snapshot, ins: Instruction): Option<string> {
    if ins.kind != Kind.Copy then Some("")
    else FilesHash.HashOf(snapshot.c, w.formats, Source(ins), Dest(ins), Ignores(b, snapshot), Resolve(ins))
  }

  predicate HasCopy(instructions: seq<Instruction>) {
    exists i :: 0 <= i < |instructions| && instructions[i].kind == Kind.Copy
  }

  ghost function HashEach(w: World, b: State, snapshot: Snapshot, instructions: seq<Instruction>): HashPass {
    if instructions == [] then HashedAll([])
    else
      var last := |instructions| - 1;
      var before := HashEach(w, b, snapshot, instructions[..last]);
      var ins := instructions[last];
      if before.HashFailure? then before
      else if StepHash(w, b, snapshot, ins) == None then HashFailure(HashFailed(Source(ins)))
      else HashedAll(before.steps + [Hashed(ins, StepHash(w, b, snapshot, ins).value)])
  }

  ghost function InstructionsWithHashes(w: World, b: State, snapshot: Snapshot): HashPass {
    if HasCopy(b.instructions) && b.contextDir == "" then HashFailure(NeedsContext)
    else HashEach(w, b, snapshot, b.instructions)
  }

  // ---- probing and uploading ----

  predicate ForcesUpload(ins: Instruction) { ins.forceUpload == Some(true) }

  predicate NeedsUpload(h: Hashed, link: Link) { !link.present || ForcesUpload(h.ins) }

  ghost function UploadListing(w: World, b: State, snapshot: Snapshot, ins: Instruction): TarPipe.Listing {
    FilesHash.TarListing(snapshot.c, w.formats, Source(ins), Ignores(b, snapshot), Resolve(ins))
  }

  ghost predicate EndOfRun(listing: TarPipe.Listing, end: TarPipe.Run) {
    exists steps :: TarPipe.CanRun(TarPipe.Init(listing), steps) && TarPipe.After(TarPipe.Init(listing), steps) == end
  }

  /** Every upload that may be needed is a run of the pipe in which the main goroutine has got its result. */
  ghost predicate ValidWorld(w: World, b: State) {
    forall i :: 0 <= i < |b.instructions| && b.instructions[i].kind == Kind.Copy ==>
      var u := w.upload(i);
      u.end.main.Received? && EndOfRun(UploadListing(w, b, u.snapshot, b.instructions[i]), u.end)
  }

  datatype ApiStep = ApiStep(kind: Kind, args: Option<seq<string>>, force: Option<bool>, filesHash: Option<string>)

  datatype Body = Body(
    force: Option<bool>,
    fromImage: Option<string>,
    fromTemplate: Option<string>,
    registry: Option<Registry>,
    startCmd: Option<string>,
    readyCmd: Option<string>,
    steps: seq<ApiStep>)

  /** What the client sends. */
  datatype Effect = Probe(hash: string) | Put(url: string, content: ByteStrings.Bytes) | Trigger(body: Body)

  function Uploaded(w: World, i: nat, url: string): Effect { Put(url, w.upload(i).end.consumed) }

  /** All that one step sends, whether it succeeds or not. */
  function Sends(w: World, h: Hashed, i: nat): seq<Effect> {
    if h.ins.kind != Kind.Copy then []
    else if w.link(i) == None || !NeedsUpload(h, w.link(i).value) || w.link(i).value.url == None then [Probe(h.filesHash)]
    else [Probe(h.filesHash), Uploaded(w, i, w.link(i).value.url.value)]
  }

  /** The error a step ends with, if any. */
  function StepError(w: World, h: Hashed, i: nat): Option<Failure> {
    if h.ins.kind != Kind.Copy then None
    else if w.link(i) == None then Some(ProbeFailed)
    else if !NeedsUpload(h, w.link(i).value) then None
    else if w.link(i).value.url == None then Some(UploadFailed(Source(h.ins), h.filesHash, None))
    else UploadError(h, w.upload(i).end.main)
  }

  function UploadError(h: Hashed, main: TarPipe.Main): Option<Failure> {
    match main
    case Received(uploadErr, tarErr) =>
      if uploadErr.Some? then Some(UploadFailed(Source(h.ins), h.filesHash, uploadErr))
      else if tarErr.Some? then Some(UploadFailed(Source(h.ins), h.filesHash, tarErr))
      else None
    case _ => None
  }

  function SendsUpTo(w: World, steps: seq<Hashed>, n: nat): seq<Effect>
    requires n <= |steps|
  {
    if n == 0 then [] else SendsUpTo(w, steps, n - 1) + Sends(w, steps[n - 1], n - 1)
  }

  predicate AllOk(w: World, steps: seq<Hashed>, n: nat)
    requires n <= |steps|
  {
    forall i :: 0 <= i < n ==> StepError(w, steps[i], i) == None
  }

  // ---- the request body ----

  function NonEmpty(s: string): Option<string> { if s == "" then None else Some(s) }

  function FlagSet(flag: bool): Option<bool> { if flag then Some(true) else None }

  function ToApi(h: Hashed): ApiStep {
    ApiStep(h.ins.kind, if h.ins.args != [] then Some(h.ins.args) else None, FlagSet(h.ins.force), NonEmpty(h.filesHash))
  }

  /** Raw Dockerfile entries have no structured form and are skipped. */
  function ApiSteps(steps: seq<Hashed>): seq<ApiStep> {
    if steps == [] then []
    else
      var last := |steps| - 1;
      ApiSteps(steps[..last]) + if steps[last].ins.kind == Kind.Raw then [] else [ToApi(steps[last])]
  }

  function BodyOf(b: State, skipCache: bool, steps: seq<Hashed>): Body {
    Body(FlagSet(skipCache), NonEmpty(b.baseImage), NonEmpty(b.baseTemplate), b.registry,
         NonEmpty(b.startCmd), NonEmpty(b.readyCmd), ApiSteps(steps))
  }

  datatype Serialized = SerializedBody(body: Body) | NotSerialized(failure: Failure)

  ghost function Serialize(w: World, b: State, skipCache: bool): Serialized {
    if b.err.Some? then NotSerialized(BuilderFailed(b.err.value))
    else
      match InstructionsWithHashes(w, b, w.second)
      case HashFailure(failure) => NotSerialized(failure)
      case HashedAll(steps) => SerializedBody(BodyOf(b, skipCache, steps))
  }

  // ---- the whole call ----

  datatype Result = Started(body: Body) | Failed(failure: Failure)

  datatype Sent = Sent(trace: seq<Effect>, err: Option<Failure>)

  /** Probes and uploads of the first `n` steps, ended by the first error. */
  function ProbeAll(w: World, steps: seq<Hashed>, n: nat): Sent
    requires n <= |steps|
  {
    if n == 0 then Sent([], None)
    else
      var before := ProbeAll(w, steps, n - 1);
      if before.err.Some? then before
      else Sent(before.trace + Sends(w, steps[n - 1], n - 1), StepError(w, steps[n - 1], n - 1))
  }

  datatype Outcome = Outcome(trace: seq<Effect>, result: Result)

  ghost function FinishOutcome(w: World, b: State, skipCache: bool): Outcome {
    match InstructionsWithHashes(w, b, w.first)
    case HashFailure(failure) => Outcome([], Failed(failure))
    case HashedAll(steps) =>
      var sent := ProbeAll(w, steps, |steps|);
      if sent.err.Some? then Outcome(sent.trace, Failed(sent.err.value))
      else
        match Serialize(w, b, skipCache)
        case NotSerialized(failure) => Outcome(sent.trace, Failed(failure))
        case SerializedBody(body) =>
          Outcome(sent.trace + [Trigger(body)], if w.accepts then Started(body) else Failed(TriggerFailed))
  }

  method ReadDockerignore(content: Option<string>) returns (out: seq<string>)
    ensures out == DockerignoreLines(content)
  {
    hide Strings.TrimSpace;
    if content == None {
      return [];
    }
    var lines := Text.Split(content.value, '\n');
    out := [];
    for i := 0 to |lines|
      invariant out == IgnoreLines(lines[..i])
    {
      assert lines[..i + 1][..i] == lines[..i];
      var trimmed := Strings.TrimSpace(lines[i]);
      if !IsComment(trimmed) {
        out := out + [trimmed];
      }
    }
    assert lines[..|lines|] == lines;
  }

  method FindCopy(instructions: seq<Instruction>) returns (hasCopy: bool)
    ensures hasCopy <==> HasCopy(instructions)
  {
    hasCopy := false;
    for i := 0 to |instructions|
      invariant forall k :: 0 <= k < i ==> instructions[k].kind != Kind.Copy
    {
      if instructions[i].kind == Kind.Copy {
        return true;
      }
    }
  }

  lemma {:induction false} HashEachFailsEarly(w: World, b: State, snapshot: Snapshot, all: seq<Instruction>, k: nat)
    requires k <= |all| && HashEach(w, b, snapshot, all[..k]).HashFailure?
    ensures HashEach(w, b, snapshot, all) == HashEach(w, b, snapshot, all[..k])
  {
    hide StepHash;
    if k == |all| {
      assert all[..k] == all;
    } else {
      var before := all[..|all| - 1];
      assert before[..k] == all[..k];
      HashEachFailsEarly(w, b, snapshot, before, k);
    }
  }

  method HashInstructions(w: World, b: State, snapshot: Snapshot) returns (pass: HashPass)
    ensures pass == InstructionsWithHashes(w, b, snapshot)
  {
    hide FilesHash.HashOf, DockerignoreLines;
    var hasCopy := FindCopy(b.instructions);
    if hasCopy && b.contextDir == "" {
      return HashFailure(NeedsContext);
    }
    var ignore := b.ignorePatterns;
    if b.contextDir != "" {
      var lines := ReadDockerignore(snapshot.dockerignore);
      ignore := ignore + lines;
    } else {
      assert ignore + [] == ignore;
    }
    var out: seq<Hashed> := [];
    for i := 0 to |b.instructions|
      invariant HashEach(w, b, snapshot, b.instructions[..i]) == HashedAll(out)
    {
      var ins := b.instructions[i];
      assert b.instructions[..i + 1][..i] == b.instructions[..i];
      var hash := Some("");
      ghost var blocks;
      if ins.kind == Kind.Copy {
        hash, blocks := FilesHash.CalculateFilesHash(snapshot.c, w.formats, Source(ins), Dest(ins), ignore, Resolve(ins));
      }
      if hash == None {
        HashEachFailsEarly(w, b, snapshot, b.instructions, i + 1);
        return HashFailure(HashFailed(Source(ins)));
      }
      out := out + [Hashed(ins, hash.value)];
    }
    assert b.instructions[..|b.instructions|] == b.instructions;
    return HashedAll(out);
  }

  method SerializeBuilder(w: World, b: State, skipCache: bool) returns (r: Serialized)
    ensures r == Serialize(w, b, skipCache)
  {
    hide InstructionsWithHashes;
    if b.err.Some? {
      return NotSerialized(BuilderFailed(b.err.value));
    }
    var pass := HashInstructions(w, b, w.second);
    if pass.HashFailure? {
      return NotSerialized(pass.failure);
    }
    var steps := pass.steps;
    var apiSteps: seq<ApiStep> := [];
    for i := 0 to |steps|
      invariant apiSteps == ApiSteps(steps[..i])
    {
      assert steps[..i + 1][..i] == steps[..i];
      if steps[i].ins.kind != Kind.Raw {
        apiSteps := apiSteps + [ToApi(steps[i])];
      }
    }
    assert steps[..|steps|] == steps;
    var body := Body(None, None, None, None, None, None, apiSteps);
    if skipCache {
      body := body.(force := Some(true));
    }
    if b.baseImage != "" {
      body := body.(fromImage := Some(b.baseImage));
    }
    if b.baseTemplate != "" {
      body := body.(fromTemplate := Some(b.baseTemplate));
    }
    body := body.(registry := b.registry);
    if b.startCmd != "" {
      body := body.(startCmd := Some(b.startCmd));
    }
    if b.readyCmd != "" {
      body := body.(readyCmd := Some(b.readyCmd));
    }
    return SerializedBody(body);
  }

  /** One turn of the loop over the steps, for a COPY step. */
  method ProbeAndUpload(w: World, h: Hashed, i: nat) returns (sent: seq<Effect>, err: Option<Failure>)
    requires h.ins.kind == Kind.Copy && w.upload(i).end.main.Received?
    ensures sent == Sends(w, h, i) && err == StepError(w, h, i)
  {
    sent := [Probe(h.filesHash)];
    var link := w.link(i);
    if link == None {
      return sent, Some(ProbeFailed);
    }
    var needsUpload := !link.value.present || (h.ins.forceUpload.Some? && h.ins.forceUpload.value);
    if needsUpload && link.value.url == None {
      return sent, Some(UploadFailed(Source(h.ins), h.filesHash, None));
    }
    if !needsUpload {
      return sent, None;
    }
    var end := w.upload(i).end;
    sent := sent + [Put(link.value.url.value, end.consumed)];
    if end.main.uploadErr.Some? {
      return sent, Some(UploadFailed(Source(h.ins), h.filesHash, end.main.uploadErr));
    }
    if end.main.tarErr.Some? {
      return sent, Some(UploadFailed(Source(h.ins), h.filesHash, end.main.tarErr));
    }
    return sent, None;
  }

  lemma {:induction false} ProbeAllStops(w: World, steps: seq<Hashed>, k: nat)
    requires k <= |steps| && ProbeAll(w, steps, k).err.Some?
    ensures ProbeAll(w, steps, |steps|) == ProbeAll(w, steps, k)
    decreases |steps| - k
  {
    hide Sends, StepError;
    if k < |steps| {
      ProbeAllStops(w, steps, k + 1);
    }
  }

  lemma {:induction false} HashedInstructions(w: World, b: State, snapshot: Snapshot, all: seq<Instruction>)
    ensures var pass := HashEach(w, b, snapshot, all);
      pass.HashedAll? ==>
        && |pass.steps| == |all|
        && forall i :: 0 <= i < |all| ==>
             pass.steps[i].ins == all[i] && StepHash(w, b, snapshot, all[i]) == Some(pass.steps[i].filesHash)
  {
    hide StepHash;
    if all != [] {
      HashedInstructions(w, b, snapshot, all[..|all| - 1]);
    }
  }

  lemma NothingForOthers(w: World, h: Hashed, i: nat)
    requires h.ins.kind != Kind.Copy
    ensures Sends(w, h, i) == [] && StepError(w, h, i) == None
  {
  }

  ghost predicate UploadsEnd(w: World, steps: seq<Hashed>) {
    forall i :: 0 <= i < |steps| && steps[i].ins.kind == Kind.Copy ==> w.upload(i).end.main.Received?
  }

  method ProbeSteps(w: World, steps: seq<Hashed>) returns (trace: seq<Effect>, err: Option<Failure>)
    requires UploadsEnd(w, steps)
    ensures Sent(trace, err) == ProbeAll(w, steps, |steps|)
  {
    trace := [];
    for i := 0 to |steps|
      invariant ProbeAll(w, steps, i) == Sent(trace, None)
    {
      if steps[i].ins.kind == Kind.Copy {
        var sent, e := ProbeAndUpload(w, steps[i], i);
        hide Sends, StepError, UploadsEnd;
        trace := trace + sent;
        if e.Some? {
          ProbeAllStops(w, steps, i + 1);
          return trace, e;
        }
      } else {
        NothingForOthers(w, steps[i], i);
        assert trace + [] == trace;
      }
    }
    return trace, None;
  }

  lemma HashedSteps(w: World, b: State)
    requires ValidWorld(w, b)
    ensures var pass := InstructionsWithHashes(w, b, w.first);
      pass.HashedAll? ==> UploadsEnd(w, pass.steps)
  {
    hide StepHash, EndOfRun, UploadListing;
    HashedInstructions(w, b, w.first, b.instructions);
  }

  method FinishStartBuild(w: World, b: State, skipCache: bool) returns (trace: seq<Effect>, result: Result)
    requires ValidWorld(w, b)
    ensures Outcome(trace, result) == FinishOutcome(w, b, skipCache)
  {
    var pass := HashInstructions(w, b, w.first);
    if pass.HashFailure? {
      return [], Failed(pass.failure);
    }
    HashedSteps(w, b);
    hide InstructionsWithHashes, ValidWorld, UploadsEnd, ProbeAll, Serialize;
    var err;
    trace, err := ProbeSteps(w, pass.steps);
    if err.Some? {
      return trace, Failed(err.value);
    }
    var body := SerializeBuilder(w, b, skipCache);
    if body.NotSerialized? {
      return trace, Failed(body.failure);
    }
    trace := trace + [Trigger(body.body)];
    return trace, if w.accepts then Started(body.body) else Failed(TriggerFailed);
  }

  // ---- what a step reads ----

  lemma {:induction false} IgnoreLinesConcat(a: seq<string>, b: seq<string>)
    ensures IgnoreLines(a + b) == IgnoreLines(a) + IgnoreLines(b)
  {
    hide Strings.TrimSpace, IsComment;
    if b == [] {
      assert a + b == a;
    } else {
      var last := |b| - 1;
      assert (a + b)[..|a + b| - 1] == a + b[..last];
      IgnoreLinesConcat(a, b[..last]);
    }
  }

  /** One line of a .dockerignore gives its trimmed text, unless that is empty or starts with "#". */
  lemma DockerignoreLine(line: string)
    requires '\n' !in line
    ensures var trimmed := Strings.TrimSpace(line);
      DockerignoreLines(Some(line)) == if trimmed == "" || trimmed[0] == '#' then [] else [trimmed]
  {
    hide Strings.TrimSpace;
    Text.SplitWithoutSeparator(line, '\n');
    assert [line][..0] == [];
  }

  /** The patterns of two texts in a row are those of the first and then those of the second. */
  lemma DockerignoreConcat(a: string, b: string)
    ensures DockerignoreLines(Some(a + "\n" + b)) == DockerignoreLines(Some(a)) + DockerignoreLines(Some(b))
  {
    hide IgnoreLines, Text.Split;
    Text.SplitConcat(a, b, '\n');
    assert a + "\n" + b == a + ['\n'] + b;
    IgnoreLinesConcat(Text.Split(a, '\n'), Text.Split(b, '\n'));
  }

  /** The caller's patterns always count; those of the file come after them, if there is a context and a file. */
  lemma IgnoresExactly(b: State, snapshot: Snapshot)
    ensures b.contextDir == "" || snapshot.dockerignore == None ==> Ignores(b, snapshot) == b.ignorePatterns
    ensures b.contextDir != "" && snapshot.dockerignore.Some? ==>
      Ignores(b, snapshot) == b.ignorePatterns + DockerignoreLines(snapshot.dockerignore)
  {
    hide IgnoreLines;
    assert b.ignorePatterns + [] == b.ignorePatterns;
  }

  /** The hash and the upload of a step read its source under the same patterns, with links followed if asked to. */
  lemma StepReads(w: World, b: State, snapshot: Snapshot, src: string, dest: string, rest: seq<string>,
                  force: bool, forceUpload: Option<bool>, resolve: Option<bool>)
    ensures var ins := Instruction(Kind.Copy, [src, dest] + rest, force, forceUpload, resolve);
      && StepHash(w, b, snapshot, ins)
         == FilesHash.HashOf(snapshot.c, w.formats, src, dest, Ignores(b, snapshot), resolve == Some(true))
      && UploadListing(w, b, snapshot, ins)
         == FilesHash.TarListing(snapshot.c, w.formats, src, Ignores(b, snapshot), resolve == Some(true))
  {
    hide FilesHash.HashOf, FilesHash.TarListing, Ignores;
  }

  // ---- what the call guarantees ----

  /** The server may be told to build: everything is confirmed, and the builder can be serialized. */
  ghost predicate Ready(w: World, b: State) {
    && b.err == None
    && InstructionsWithHashes(w, b, w.first).HashedAll?
    && AllOk(w, InstructionsWithHashes(w, b, w.first).steps, |InstructionsWithHashes(w, b, w.first).steps|)
    && InstructionsWithHashes(w, b, w.second).HashedAll?
  }

  predicate Triggers(trace: seq<Effect>) { exists i :: 0 <= i < |trace| && trace[i].Trigger? }

  lemma {:induction false} ProbeAllExactly(w: World, steps: seq<Hashed>, n: nat)
    requires n <= |steps|
    ensures ProbeAll(w, steps, n).err == None <==> AllOk(w, steps, n)
    ensures AllOk(w, steps, n) ==> ProbeAll(w, steps, n).trace == SendsUpTo(w, steps, n)
    ensures !Triggers(ProbeAll(w, steps, n).trace)
  {
    if n > 0 {
      ProbeAllExactly(w, steps, n - 1);
      NoTriggerInStep(w, steps[n - 1], n - 1);
      hide Sends, StepError;
      NoTriggerConcat(ProbeAll(w, steps, n - 1).trace, Sends(w, steps[n - 1], n - 1));
    }
  }

  lemma NoTriggerInStep(w: World, h: Hashed, i: nat)
    ensures !Triggers(Sends(w, h, i))
  {
  }

  lemma NoTriggerConcat(a: seq<Effect>, b: seq<Effect>)
    ensures Triggers(a + b) <==> Triggers(a) || Triggers(b)
  {
    if i :| 0 <= i < |a| && a[i].Trigger? {
      assert (a + b)[i].Trigger?;
    }
    if j :| 0 <= j < |b| && b[j].Trigger? {
      assert (a + b)[|a| + j].Trigger?;
    }
  }

  /**
   * Trigger safety: the trigger is sent exactly when everything is confirmed, as the last message, after the probes
   * and uploads of all steps in order. Any error, a sticky builder error included, means no trigger.
   */
  lemma TriggerExactlyWhenReady(w: World, b: State, skipCache: bool)
    ensures var o := FinishOutcome(w, b, skipCache);
      && (Triggers(o.trace) <==> Ready(w, b))
      && (o.result.Started? <==> Ready(w, b) && w.accepts)
      && (Ready(w, b) ==>
            var first := InstructionsWithHashes(w, b, w.first).steps;
            var second := InstructionsWithHashes(w, b, w.second).steps;
            o.trace == SendsUpTo(w, first, |first|) + [Trigger(BodyOf(b, skipCache, second))])
  {
    hide InstructionsWithHashes, BodyOf, SendsUpTo, AllOk;
    var pass := InstructionsWithHashes(w, b, w.first);
    if pass.HashedAll? {
      var steps := pass.steps;
      ProbeAllExactly(w, steps, |steps|);
      var sent := ProbeAll(w, steps, |steps|);
      hide ProbeAll;
      var s := Serialize(w, b, skipCache);
      if sent.err == None && s.SerializedBody? {
        NoTriggerConcat(sent.trace, [Trigger(s.body)]);
        assert [Trigger(s.body)][0].Trigger?;
      }
    }
  }

  /**
   * Every COPY step is probed. Right after its probe its archive is sent, if it forces an upload or is not present and
   * there is a URL; a step that is present and does not force one sends nothing more.
   */
  lemma {:induction false} ProbedAndSent(w: World, steps: seq<Hashed>, n: nat, i: nat) returns (j: nat)
    requires i < n <= |steps| && steps[i].ins.kind == Kind.Copy
    ensures var sent := SendsUpTo(w, steps, n);
      && j < |sent| && sent[j] == Probe(steps[i].filesHash)
      && (w.link(i).Some? ==>
            var link := w.link(i).value;
            && ((steps[i].ins.forceUpload == Some(true) || !link.present) && link.url.Some? ==>
                  j + 1 < |sent| && sent[j + 1] == Put(link.url.value, w.upload(i).end.consumed))
            && (steps[i].ins.forceUpload != Some(true) && link.present ==> j + 1 == |sent| || sent[j + 1].Probe?))
  {
    if i < n - 1 {
      j := ProbedAndSent(w, steps, n - 1, i);
      var (before, more) := (SendsUpTo(w, steps, n - 1), Sends(w, steps[n - 1], n - 1));
      assert more != [] ==> more[0].Probe?;
    } else {
      j := |SendsUpTo(w, steps, n - 1)|;
      assert Sends(w, steps[i], i)[0] == Probe(steps[i].filesHash);
    }
  }

  /** Nothing is uploaded but right after the probe of a step that is not present or forces it. */
  lemma {:induction false} PutFollowsItsProbe(w: World, steps: seq<Hashed>, n: nat, j: nat) returns (i: nat)
    requires n <= |steps| && j < |SendsUpTo(w, steps, n)| && SendsUpTo(w, steps, n)[j].Put?
    ensures i < n && steps[i].ins.kind == Kind.Copy && 0 < j
    ensures SendsUpTo(w, steps, n)[j - 1] == Probe(steps[i].filesHash)
    ensures w.link(i).Some? && w.link(i).value.url.Some?
    ensures !w.link(i).value.present || steps[i].ins.forceUpload == Some(true)
    ensures SendsUpTo(w, steps, n)[j] == Put(w.link(i).value.url.value, w.upload(i).end.consumed)
  {
    var before := SendsUpTo(w, steps, n - 1);
    if j < |before| {
      i := PutFollowsItsProbe(w, steps, n - 1, j);
    } else {
      i := n - 1;
      assert Sends(w, steps[i], i)[j - |before|].Put?;
    }
  }

  /**
   * In a triggered build: a COPY step that forces an upload or is not present has its archive sent right after its
   * probe, and one that is present and does not force it has not.
   */
  lemma UploadedExactlyWhenNeeded(w: World, b: State, skipCache: bool, i: nat) returns (j: nat)
    requires Triggers(FinishOutcome(w, b, skipCache).trace)
    requires i < |b.instructions| && b.instructions[i].kind == Kind.Copy
    ensures var (ins, trace) := (b.instructions[i], FinishOutcome(w, b, skipCache).trace);
      && w.link(i).Some? && j + 1 < |trace| && trace[j].Probe?
      && StepHash(w, b, w.first, ins) == Some(trace[j].hash)
      && (ins.forceUpload == Some(true) || !w.link(i).value.present ==>
            w.link(i).value.url.Some? && trace[j + 1] == Put(w.link(i).value.url.value, w.upload(i).end.consumed))
      && (ins.forceUpload != Some(true) && w.link(i).value.present ==> !trace[j + 1].Put?)
  {
    TriggerExactlyWhenReady(w, b, skipCache);
    HashedInstructions(w, b, w.first, b.instructions);
    var steps := InstructionsWithHashes(w, b, w.first).steps;
    j := ProbedAndSent(w, steps, |steps|, i);
    assert StepError(w, steps[i], i) == None;
    hide InstructionsWithHashes, SendsUpTo, BodyOf, FinishOutcome, HashEach, StepHash;
  }

  /** Which error ends a step: the first of the probe, the missing URL, the upload's and the producer's. */
  lemma StepErrorExactly(w: World, h: Hashed, i: nat)
    requires h.ins.kind == Kind.Copy && w.upload(i).end.main.Received?
    ensures w.link(i) == None ==> StepError(w, h, i) == Some(ProbeFailed)
    ensures w.link(i).Some? && w.link(i).value.present && h.ins.forceUpload != Some(true) ==> StepError(w, h, i) == None
    ensures w.link(i).Some? && (!w.link(i).value.present || h.ins.forceUpload == Some(true)) ==>
      var (main, source) := (w.upload(i).end.main, if h.ins.args == [] then "" else h.ins.args[0]);
      StepError(w, h, i)
        == if w.link(i).value.url == None then Some(UploadFailed(source, h.filesHash, None))
           else if main.uploadErr.Some? then Some(UploadFailed(source, h.filesHash, main.uploadErr))
           else if main.tarErr.Some? then Some(UploadFailed(source, h.filesHash, main.tarErr))
           else None
  {
  }

  /** A COPY step without a context ends the call before anything is sent. */
  lemma CopyNeedsContext(w: World, b: State, skipCache: bool, i: nat)
    requires i < |b.instructions| && b.instructions[i].kind == Kind.Copy && b.contextDir == ""
    ensures FinishOutcome(w, b, skipCache) == Outcome([], Failed(NeedsContext))
  {
  }

  /** The result beside the messages: a builder's error comes after all uploads, and a started build has its body. */
  lemma ResultExactly(w: World, b: State, skipCache: bool)
    requires InstructionsWithHashes(w, b, w.first).HashedAll?
    requires var steps := InstructionsWithHashes(w, b, w.first).steps;
      AllOk(w, steps, |steps|)
    ensures var (o, steps) := (FinishOutcome(w, b, skipCache), InstructionsWithHashes(w, b, w.first).steps);
      && (b.err.Some? ==> o == Outcome(SendsUpTo(w, steps, |steps|), Failed(BuilderFailed(b.err.value))))
      && (Ready(w, b) && !w.accepts ==> o.result == Failed(TriggerFailed))
      && (o.result.Started? ==> o.trace != [] && o.trace[|o.trace| - 1] == Trigger(o.result.body))
  {
    var steps := InstructionsWithHashes(w, b, w.first).steps;
    ProbeAllExactly(w, steps, |steps|);
    hide SendsUpTo, ProbeAll, AllOk, BodyOf;
  }

  /** A failing step is the last one to send anything. */
  lemma {:induction false} StopsAtTheFirstError(w: World, steps: seq<Hashed>, k: nat)
    requires k < |steps| && AllOk(w, steps, k) && StepError(w, steps[k], k).Some?
    ensures ProbeAll(w, steps, |steps|) == Sent(SendsUpTo(w, steps, k + 1), StepError(w, steps[k], k))
  {
    hide Sends, StepError;
    ProbeAllExactly(w, steps, k);
    ProbeAllStops(w, steps, k + 1);
  }

  /** A COPY step the server holds: reported present and not forced, or uploaded whole and acknowledged. */
  ghost predicate Confirmed(w: World, b: State, ins: Instruction, i: nat) {
    w.link(i).Some? &&
    var l, end := w.link(i).value, w.upload(i).end;
    var listing := UploadListing(w, b, w.upload(i).snapshot, ins);
    || (l.present && ins.forceUpload != Some(true))
    || (l.url.Some? && end.main == TarPipe.Received(None, None) && listing.Listed?
        && TarPipe.AllComplete(listing.files) && end.consumed == TarPipe.Archive(listing.files))
  }

  lemma EndedWithoutError(listing: TarPipe.Listing, end: TarPipe.Run)
    requires EndOfRun(listing, end)
    ensures end.main.Received? && end.main.tarErr == None ==>
      listing.Listed? && TarPipe.AllComplete(listing.files) && end.consumed == TarPipe.Archive(listing.files)
  {
    hide TarPipe.AllComplete, TarPipe.Archive;
    var steps :| TarPipe.CanRun(TarPipe.Init(listing), steps) && TarPipe.After(TarPipe.Init(listing), steps) == end;
    hide TarPipe.CanRun, TarPipe.After;
    TarPipe.NilMeansComplete(listing, steps);
  }

  /** A COPY step that ended without error is confirmed. */
  lemma StepConfirmed(w: World, b: State, h: Hashed, i: nat)
    requires h.ins.kind == Kind.Copy && StepError(w, h, i) == None && w.upload(i).end.main.Received?
    ensures EndOfRun(UploadListing(w, b, w.upload(i).snapshot, h.ins), w.upload(i).end) ==> Confirmed(w, b, h.ins, i)
  {
    hide UploadListing, EndOfRun, TarPipe.AllComplete, TarPipe.Archive;
    var listing := UploadListing(w, b, w.upload(i).snapshot, h.ins);
    if EndOfRun(listing, w.upload(i).end) {
      EndedWithoutError(listing, w.upload(i).end);
    }
  }

  lemma ReadyStepConfirmed(w: World, b: State, i: nat)
    ensures ValidWorld(w, b) && Ready(w, b) && i < |b.instructions| && b.instructions[i].kind == Kind.Copy ==>
      Confirmed(w, b, b.instructions[i], i)
  {
    if ValidWorld(w, b) && Ready(w, b) && i < |b.instructions| && b.instructions[i].kind == Kind.Copy {
      HashedInstructions(w, b, w.first, b.instructions);
      hide StepHash, UploadListing, EndOfRun, Confirmed, StepError, HashEach;
      StepConfirmed(w, b, InstructionsWithHashes(w, b, w.first).steps[i], i);
    }
  }

  ghost predicate AllConfirmed(w: World, b: State) {
    forall i :: 0 <= i < |b.instructions| && b.instructions[i].kind == Kind.Copy ==> Confirmed(w, b, b.instructions[i], i)
  }

  /** When the trigger is sent, every COPY step is confirmed. */
  lemma TriggerMeansConfirmed(w: World, b: State, skipCache: bool)
    ensures ValidWorld(w, b) && Triggers(FinishOutcome(w, b, skipCache).trace) ==> AllConfirmed(w, b)
  {
    TriggerExactlyWhenReady(w, b, skipCache);
    hide FinishOutcome, ValidWorld, Ready, Confirmed;
    forall i: nat
      ensures ValidWorld(w, b) && Ready(w, b) && i < |b.instructions| && b.instructions[i].kind == Kind.Copy ==>
        Confirmed(w, b, b.instructions[i], i)
    {
      ReadyStepConfirmed(w, b, i);
    }
  }

  // ---- the body keeps the builder ----

  function OrEmpty(o: Option<string>): string { if o.Some? then o.value else "" }

  /** What the server reads from one step of a body. */
  function FromApi(step: ApiStep): Instruction {
    Instruction(step.kind, if step.args.Some? then step.args.value else [], step.force == Some(true), None, None)
  }

  /** The structured instructions of a builder, without what only the client uses. */
  function Structured(instructions: seq<Instruction>): seq<Instruction> {
    if instructions == [] then []
    else
      var last := |instructions| - 1;
      Structured(instructions[..last])
      + if instructions[last].kind == Kind.Raw then []
        else [instructions[last].(forceUpload := None, resolveSymlinks := None)]
  }

  function FromApiSteps(steps: seq<ApiStep>): seq<Instruction> {
    if steps == [] then [] else FromApiSteps(steps[..|steps| - 1]) + [FromApi(steps[|steps| - 1])]
  }

  lemma {:induction false} StepsRestored(steps: seq<Hashed>, instructions: seq<Instruction>)
    requires |steps| == |instructions| && forall i :: 0 <= i < |steps| ==> steps[i].ins == instructions[i]
    ensures FromApiSteps(ApiSteps(steps)) == Structured(instructions)
  {
    if steps != [] {
      var last := |steps| - 1;
      StepsRestored(steps[..last], instructions[..last]);
      var before := ApiSteps(steps[..last]);
      if steps[last].ins.kind == Kind.Raw {
        assert before + [] == before;
        assert Structured(instructions[..last]) + [] == Structured(instructions[..last]);
      } else {
        assert (before + [ToApi(steps[last])])[..|before|] == before;
      }
    }
  }

  /** Everything the server needs of a builder can be read back from the body: nothing is lost or reordered. */
  lemma BodyRestoresBuilder(w: World, b: State, skipCache: bool)
    requires Serialize(w, b, skipCache).SerializedBody?
    ensures var body := Serialize(w, b, skipCache).body;
      && (body.force == Some(true) <==> skipCache)
      && OrEmpty(body.fromImage) == b.baseImage && OrEmpty(body.fromTemplate) == b.baseTemplate
      && body.registry == b.registry
      && OrEmpty(body.startCmd) == b.startCmd && OrEmpty(body.readyCmd) == b.readyCmd
      && FromApiSteps(body.steps) == Structured(b.instructions)
  {
    var steps := InstructionsWithHashes(w, b, w.second).steps;
    HashedInstructions(w, b, w.second, b.instructions);
    hide HashEach, StepHash;
    StepsRestored(steps, b.instructions);
  }

  lemma {:induction false} StepsOmitEmpty(steps: seq<Hashed>)
    ensures forall step :: step in ApiSteps(steps) ==>
      step.args != Some([]) && step.force != Some(false) && step.filesHash != Some("") && step.kind != Kind.Raw
  {
    if steps != [] {
      StepsOmitEmpty(steps[..|steps| - 1]);
    }
  }

  /** What is empty or unset is left out of the body, and raw entries have no step. */
  lemma BodyOmitsEmpty(w: World, b: State, skipCache: bool)
    requires Serialize(w, b, skipCache).SerializedBody?
    ensures var body := Serialize(w, b, skipCache).body;
      && body.force != Some(false)
      && Some("") !in {body.fromImage, body.fromTemplate, body.startCmd, body.readyCmd}
      && forall step :: step in body.steps ==>
        step.args != Some([]) && step.force != Some(false) && step.filesHash != Some("") && step.kind != Kind.Raw
  {
    StepsOmitEmpty(InstructionsWithHashes(w, b, w.second).steps);
    hide InstructionsWithHashes, ApiSteps;
  }
}
