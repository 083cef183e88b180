/**
 * What the hashes of a build promise (template/build.go, template/template.go, template/hash.go): which hashes are
 * probed, which the trigger names, and what is stored under them. The tree is read once for the probes, once for
 * each upload and once more for the trigger.
 */
module BuildHashes {
  import opened ByteStrings
  import opened Options
  import opened SmallContexts
  import opened StartBuild
  import opened TemplateBuilder
  import Decimal
  import Files
  import FilesHash
  import TarPipe

  function ProbedIn(trace: seq<Effect>): seq<string> {
    if trace == [] then []
    else
      var last := trace[|trace| - 1];
      ProbedIn(trace[..|trace| - 1]) + if last.Probe? then [last.hash] else []
  }

  lemma {:induction false} ProbedConcat(a: seq<Effect>, b: seq<Effect>)
    ensures ProbedIn(a + b) == ProbedIn(a) + ProbedIn(b)
  {
    if b == [] {
      assert a + b == a;
    } else {
      var last := |b| - 1;
      assert (a + b)[..|a + b| - 1] == a + b[..last];
      ProbedConcat(a, b[..last]);
    }
  }

  /** The hashes of the COPY steps, in order. */
  function CopyHashes(steps: seq<Hashed>): seq<string> {
    if steps == [] then []
    else
      var last := steps[|steps| - 1];
      CopyHashes(steps[..|steps| - 1]) + if last.ins.kind == Kind.Copy then [last.filesHash] else []
  }

  /** The hashes that a request body carries, in order. */
  function HashesIn(steps: seq<ApiStep>): seq<string> {
    if steps == [] then []
    else
      var last := steps[|steps| - 1];
      HashesIn(steps[..|steps| - 1]) + if last.filesHash.Some? then [last.filesHash.value] else []
  }

  /** A SHA-256 digest in hexadecimal is not empty. */
  ghost predicate DigestsAreNotEmpty(f: FilesHash.Formats) { forall bs :: f.digest(bs) != "" }

  /** Only COPY steps have a hash, and each of them has one. */
  ghost predicate HashedAsCopied(steps: seq<Hashed>) {
    forall i :: 0 <= i < |steps| ==> (steps[i].filesHash != "" <==> steps[i].ins.kind == Kind.Copy)
  }

  lemma PassHashesCopies(w: World, b: State, snapshot: Snapshot)
    requires DigestsAreNotEmpty(w.formats) && InstructionsWithHashes(w, b, snapshot).HashedAll?
    ensures HashedAsCopied(InstructionsWithHashes(w, b, snapshot).steps)
  {
    HashedInstructions(w, b, snapshot, b.instructions);
    hide HashEach, FilesHash.Covered, FilesHash.Preimage;
  }

  lemma {:induction false} HashesInApiSteps(steps: seq<Hashed>)
    requires HashedAsCopied(steps)
    ensures HashesIn(ApiSteps(steps)) == CopyHashes(steps)
  {
    if steps != [] {
      var last := |steps| - 1;
      HashesInApiSteps(steps[..last]);
      var before := ApiSteps(steps[..last]);
      if steps[last].ins.kind == Kind.Raw {
        assert before + [] == before;
      } else {
        assert (before + [ToApi(steps[last])])[..|before|] == before;
      }
    }
  }

  /** In a body, exactly the COPY steps carry a hash. */
  lemma {:induction false} HashOnEachCopy(steps: seq<Hashed>)
    requires HashedAsCopied(steps)
    ensures forall i :: 0 <= i < |ApiSteps(steps)| ==>
      (ApiSteps(steps)[i].filesHash.Some? <==> ApiSteps(steps)[i].kind == Kind.Copy)
  {
    if steps != [] {
      HashOnEachCopy(steps[..|steps| - 1]);
    }
  }

  /** Each COPY step's hash is probed once, in the order of the steps. */
  lemma {:induction false} ProbesFollowTheSteps(w: World, steps: seq<Hashed>, n: nat)
    requires n <= |steps|
    ensures ProbedIn(SendsUpTo(w, steps, n)) == CopyHashes(steps[..n])
  {
    if n > 0 {
      ProbesFollowTheSteps(w, steps, n - 1);
      assert steps[..n][..n - 1] == steps[..n - 1];
      ProbedConcat(SendsUpTo(w, steps, n - 1), Sends(w, steps[n - 1], n - 1));
      ProbedInStep(w, steps[n - 1], n - 1);
      hide Sends;
    }
  }

  lemma ProbedInStep(w: World, h: Hashed, i: nat)
    ensures ProbedIn(Sends(w, h, i)) == if h.ins.kind == Kind.Copy then [h.filesHash] else []
  {
    if h.ins.kind == Kind.Copy {
      var sent, probe := Sends(w, h, i), [Probe(h.filesHash)];
      assert probe[..0] == [];
      assert ProbedIn(probe) == [h.filesHash];
      if |sent| == 2 {
        assert sent[..1] == probe;
      }
    }
  }

  /** The trace ends with a trigger whose hashes are the probed ones, in order. */
  ghost predicate NamesTheProbed(trace: seq<Effect>) {
    trace != [] && trace[|trace| - 1].Trigger? && HashesIn(trace[|trace| - 1].body.steps) == ProbedIn(trace)
  }

  /** A sent trigger carries the hashes of the second pass, after probes of those of the first. */
  lemma TriggeredAndProbed(w: World, b: State, skipCache: bool)
    requires Ready(w, b) && DigestsAreNotEmpty(w.formats)
    ensures var trace := FinishOutcome(w, b, skipCache).trace;
      && trace != [] && trace[|trace| - 1].Trigger?
      && HashesIn(trace[|trace| - 1].body.steps) == CopyHashes(InstructionsWithHashes(w, b, w.second).steps)
      && ProbedIn(trace) == CopyHashes(InstructionsWithHashes(w, b, w.first).steps)
  {
    TriggerExactlyWhenReady(w, b, skipCache);
    PassHashesCopies(w, b, w.second);
    var first := InstructionsWithHashes(w, b, w.first).steps;
    var second := InstructionsWithHashes(w, b, w.second).steps;
    hide InstructionsWithHashes, FinishOutcome, Ready, HashedAsCopied, DigestsAreNotEmpty;
    HashesInApiSteps(second);
    ProbesFollowTheSteps(w, first, |first|);
    assert first[..|first|] == first;
    var trigger := Trigger(BodyOf(b, skipCache, second));
    ProbedConcat(SendsUpTo(w, first, |first|), [trigger]);
    assert ProbedIn([trigger]) == [] by {
      assert [trigger][..0] == [];
    }
    assert CopyHashes(first) + [] == CopyHashes(first);
  }

  /** Two passes over the same instructions: the lists of hashes agree exactly when they agree at each COPY step. */
  lemma {:induction false} CopyHashesPointwise(x: seq<Hashed>, y: seq<Hashed>)
    requires |x| == |y| && forall i :: 0 <= i < |x| ==> x[i].ins == y[i].ins
    ensures |CopyHashes(x)| == |CopyHashes(y)|
    ensures CopyHashes(x) == CopyHashes(y)
       <==> forall i :: 0 <= i < |x| && x[i].ins.kind == Kind.Copy ==> x[i].filesHash == y[i].filesHash
  {
    if x != [] {
      var last := |x| - 1;
      CopyHashesPointwise(x[..last], y[..last]);
      var (before, before') := (CopyHashes(x[..last]), CopyHashes(y[..last]));
      if x[last].ins.kind == Kind.Copy {
        SnocAgree(before, before', x[last].filesHash, y[last].filesHash);
      } else {
        assert before + [] == before && before' + [] == before';
      }
    }
  }

  lemma SnocAgree(a: seq<string>, b: seq<string>, x: string, y: string)
    requires |a| == |b|
    ensures a + [x] == b + [y] <==> a == b && x == y
  {
    if a + [x] == b + [y] {
      assert a == (a + [x])[..|a|] && b == (b + [y])[..|b|];
      assert x == (a + [x])[|a|] && y == (b + [y])[|b|];
    }
  }

  /** What hashing one COPY step writes to the running hash. */
  ghost function Reading(b: State, snapshot: Snapshot, ins: Instruction): Option<Bytes> {
    var covered := CoveredBy(b, snapshot, ins);
    if covered == None then None else Some(FilesHash.Preimage(Source(ins), Dest(ins), covered.value))
  }

  /** The records that one COPY step covers. */
  ghost function CoveredBy(b: State, snapshot: Snapshot, ins: Instruction): Option<seq<FilesHash.Record>> {
    FilesHash.Covered(snapshot.c, Source(ins), Ignores(b, snapshot), Resolve(ins))
  }

  /** Both passes hash the same bytes for every COPY step. */
  ghost predicate SameBytes(w: World, b: State) {
    forall i :: 0 <= i < |b.instructions| && b.instructions[i].kind == Kind.Copy ==>
      Reading(b, w.first, b.instructions[i]) == Reading(b, w.second, b.instructions[i])
  }

  /** Both passes read the same names, attributes, link targets and contents for every COPY step. */
  ghost predicate SameFields(w: World, b: State) {
    forall i :: 0 <= i < |b.instructions| && b.instructions[i].kind == Kind.Copy ==>
      CoveredBy(b, w.first, b.instructions[i]) == CoveredBy(b, w.second, b.instructions[i])
  }

  /** The same world with another digest. */
  function WithDigest(w: World, digest: Bytes -> string): World {
    w.(formats := w.formats.(digest := digest))
  }

  lemma HashOfReading(w: World, b: State, snapshot: Snapshot, ins: Instruction)
    requires ins.kind == Kind.Copy
    ensures var reading := Reading(b, snapshot, ins);
      StepHash(w, b, snapshot, ins) == if reading == None then None else Some(w.formats.digest(reading.value))
  {
    hide FilesHash.Covered, FilesHash.Preimage, Ignores;
  }

  /** Whether a pass succeeds does not depend on the digest. */
  lemma {:induction false} DigestDoesNotFail(w: World, v: World, b: State, snapshot: Snapshot, all: seq<Instruction>)
    requires v == WithDigest(w, v.formats.digest)
    ensures HashEach(w, b, snapshot, all).HashedAll? <==> HashEach(v, b, snapshot, all).HashedAll?
  {
    hide StepHash, Reading;
    if all != [] {
      var last := |all| - 1;
      DigestDoesNotFail(w, v, b, snapshot, all[..last]);
      if all[last].kind == Kind.Copy {
        HashOfReading(w, b, snapshot, all[last]);
        HashOfReading(v, b, snapshot, all[last]);
      } else {
        NoHashForOthers(w, b, snapshot, all[last]);
        NoHashForOthers(v, b, snapshot, all[last]);
      }
    }
  }

  lemma NoHashForOthers(w: World, b: State, snapshot: Snapshot, ins: Instruction)
    requires ins.kind != Kind.Copy
    ensures StepHash(w, b, snapshot, ins) == Some("")
  {
  }

  lemma ErrorsIgnoreTheDigest(w: World, v: World, x: Hashed, y: Hashed, i: nat)
    requires v == WithDigest(w, v.formats.digest) && x.ins == y.ins && StepError(w, x, i) == None
    ensures StepError(v, y, i) == None
  {
  }

  lemma ReadyWhateverTheDigest(w: World, v: World, b: State)
    requires v == WithDigest(w, v.formats.digest) && Ready(w, b)
    ensures Ready(v, b)
  {
    DigestDoesNotFail(w, v, b, w.first, b.instructions);
    DigestDoesNotFail(w, v, b, w.second, b.instructions);
    HashedInstructions(w, b, w.first, b.instructions);
    HashedInstructions(v, b, w.first, b.instructions);
    var (x, y) := (InstructionsWithHashes(w, b, w.first).steps, InstructionsWithHashes(v, b, w.first).steps);
    hide HashEach, StepHash, StepError;
    forall i | 0 <= i < |y|
      ensures StepError(v, y[i], i) == None
    {
      ErrorsIgnoreTheDigest(w, v, x[i], y[i], i);
    }
  }

  ghost predicate SameHash(w: World, b: State, i: nat)
    requires i < |b.instructions|
  {
    StepHash(w, b, w.first, b.instructions[i]) == StepHash(w, b, w.second, b.instructions[i])
  }

  /** Two successful passes, step by step. */
  lemma PassesStepByStep(w: World, b: State, x: seq<Hashed>, y: seq<Hashed>)
    requires HashEach(w, b, w.first, b.instructions) == HashedAll(x)
    requires HashEach(w, b, w.second, b.instructions) == HashedAll(y)
    ensures |x| == |y| == |b.instructions|
    ensures forall i :: 0 <= i < |x| ==> x[i].ins == y[i].ins == b.instructions[i]
    ensures forall i :: 0 <= i < |x| ==> (SameHash(w, b, i) <==> x[i].filesHash == y[i].filesHash)
  {
    HashedInstructions(w, b, w.first, b.instructions);
    HashedInstructions(w, b, w.second, b.instructions);
    hide HashEach, StepHash;
  }

  /** With one digest, the trigger names the probed hashes exactly when each COPY step hashes the same in both passes. */
  lemma {:induction false} NamesTheProbedExactly(w: World, b: State, skipCache: bool)
    requires Ready(w, b) && DigestsAreNotEmpty(w.formats)
    ensures NamesTheProbed(FinishOutcome(w, b, skipCache).trace)
       <==> forall i :: 0 <= i < |b.instructions| && b.instructions[i].kind == Kind.Copy ==> SameHash(w, b, i)
  {
    TriggeredAndProbed(w, b, skipCache);
    var (x, y) := (InstructionsWithHashes(w, b, w.first).steps, InstructionsWithHashes(w, b, w.second).steps);
    PassesStepByStep(w, b, x, y);
    hide *;
    CopyHashesPointwise(x, y);
    assert NamesTheProbed(FinishOutcome(w, b, skipCache).trace) <==> CopyHashes(y) == CopyHashes(x) by {
      NamesByHashes(FinishOutcome(w, b, skipCache).trace);
    }
  }

  lemma NamesByHashes(trace: seq<Effect>)
    requires trace != [] && trace[|trace| - 1].Trigger?
    ensures NamesTheProbed(trace) <==> HashesIn(trace[|trace| - 1].body.steps) == ProbedIn(trace)
  {
  }

  /** The digest that knows one text only. */
  function Recognizing(text: Bytes): Bytes -> string {
    bs => if bs == text then "this" else "other"
  }

  lemma RecognizedApart(w: World, b: State, i: nat, text: Bytes, other: Bytes)
    requires i < |b.instructions| && b.instructions[i].kind == Kind.Copy && text != other
    requires Reading(b, w.first, b.instructions[i]) == Some(text)
    requires Reading(b, w.second, b.instructions[i]) == Some(other)
    ensures !SameHash(WithDigest(w, Recognizing(text)), b, i)
  {
    hide Reading, StepHash;
    var v := WithDigest(w, Recognizing(text));
    HashOfReading(v, b, w.first, b.instructions[i]);
    HashOfReading(v, b, w.second, b.instructions[i]);
  }

  /** Readings that differ are told apart by some digest. */
  lemma SomeDigestDiffers(w: World, b: State, skipCache: bool, i: nat)
    returns (digest: Bytes -> string)
    requires Ready(w, b) && i < |b.instructions| && b.instructions[i].kind == Kind.Copy
    requires Reading(b, w.first, b.instructions[i]) != Reading(b, w.second, b.instructions[i])
    ensures forall bs :: digest(bs) != ""
    ensures !NamesTheProbed(FinishOutcome(WithDigest(w, digest), b, skipCache).trace)
  {
    hide Ready, Reading, NamesTheProbed, FinishOutcome, SameHash;
    var ins := b.instructions[i];
    ReadingsOfReady(w, b, i);
    var read := Reading(b, w.first, ins).value;
    digest := Recognizing(read);
    ReadyWhateverTheDigest(w, WithDigest(w, digest), b);
    RecognizedApart(w, b, i, read, Reading(b, w.second, ins).value);
    NamesTheProbedExactly(WithDigest(w, digest), b, skipCache);
  }

  lemma ReadingsOfReady(w: World, b: State, i: nat)
    requires Ready(w, b) && i < |b.instructions| && b.instructions[i].kind == Kind.Copy
    ensures Reading(b, w.first, b.instructions[i]).Some? && Reading(b, w.second, b.instructions[i]).Some?
  {
    HashedInstructions(w, b, w.first, b.instructions);
    HashedInstructions(w, b, w.second, b.instructions);
    HashOfReading(w, b, w.first, b.instructions[i]);
    HashOfReading(w, b, w.second, b.instructions[i]);
    hide HashEach, StepHash, Reading;
  }

  /**
   * Whatever the digest, the trigger names exactly the probed hashes, if and only if the two passes hash the same
   * bytes for every COPY step.
   */
  lemma TriggeredHashesAreTheProbed(w: World, b: State, skipCache: bool)
    requires Ready(w, b)
    ensures SameBytes(w, b) <==>
      forall digest: Bytes -> string :: (forall bs :: digest(bs) != "") ==>
        NamesTheProbed(FinishOutcome(WithDigest(w, digest), b, skipCache).trace)
  {
    hide Ready, Reading, NamesTheProbed, FinishOutcome, StepHash;
    if SameBytes(w, b) {
      forall digest: Bytes -> string | forall bs :: digest(bs) != ""
        ensures NamesTheProbed(FinishOutcome(WithDigest(w, digest), b, skipCache).trace)
      {
        SameBytesNameTheProbed(w, b, skipCache, digest);
      }
    } else {
      var i :| 0 <= i < |b.instructions| && b.instructions[i].kind == Kind.Copy
        && Reading(b, w.first, b.instructions[i]) != Reading(b, w.second, b.instructions[i]);
      var digest := SomeDigestDiffers(w, b, skipCache, i);
    }
  }

  lemma SameBytesNameTheProbed(w: World, b: State, skipCache: bool, digest: Bytes -> string)
    requires Ready(w, b) && SameBytes(w, b) && forall bs :: digest(bs) != ""
    ensures NamesTheProbed(FinishOutcome(WithDigest(w, digest), b, skipCache).trace)
  {
    var v := WithDigest(w, digest);
    ReadyWhateverTheDigest(w, v, b);
    hide Ready, Reading, NamesTheProbed, FinishOutcome, StepHash;
    NamesTheProbedExactly(v, b, skipCache);
    forall i | 0 <= i < |b.instructions| && b.instructions[i].kind == Kind.Copy
      ensures SameHash(v, b, i)
    {
      HashOfReading(v, b, w.first, b.instructions[i]);
      HashOfReading(v, b, w.second, b.instructions[i]);
    }
  }

  /** So a tree in which nothing changed gives the probed hashes. */
  lemma SameFieldsSameBytes(w: World, b: State)
    requires SameFields(w, b)
    ensures SameBytes(w, b)
  {
    hide CoveredBy, FilesHash.Preimage;
  }

  // ---- what is stored under a probed hash ----

  /** The step was uploaded, from a tree in which no file was being written to. */
  ghost predicate UploadedStably(w: World, b: State, i: nat) {
    && i < |b.instructions| && b.instructions[i].kind == Kind.Copy
    && w.link(i).Some? && (!w.link(i).value.present || b.instructions[i].forceUpload == Some(true))
    && FilesHash.Stable(w.upload(i).snapshot.c)
  }

  /** An upload delivers the records of the tree that it reads itself, byte for byte. */
  lemma UploadedWhatItRead(w: World, b: State, i: nat)
    ensures ValidWorld(w, b) && Ready(w, b) && UploadedStably(w, b, i) ==>
      var covered := CoveredBy(b, w.upload(i).snapshot, b.instructions[i]);
      covered.Some? ==>
        w.upload(i).end.consumed == FilesHash.AllBytes(w.formats, covered.value) + TarPipe.Trailer()
  {
    if ValidWorld(w, b) && Ready(w, b) && UploadedStably(w, b, i) {
      ReadyStepConfirmed(w, b, i);
      var ins, snapshot := b.instructions[i], w.upload(i).snapshot;
      hide FilesHash.Covered, FilesHash.AllTarable, FilesHash.TarListing, FilesHash.Stable;
      hide TarPipe.Archive, TarPipe.Trailer, ValidWorld, Ready;
      if CoveredBy(b, snapshot, ins).Some? {
        FilesHash.ArchiveOfHashed(snapshot.c, w.formats, Source(ins), Ignores(b, snapshot), Resolve(ins));
      }
    }
  }

  /** The step was uploaded over the very tree its hash was taken of. */
  ghost predicate UploadedFromHashedTree(w: World, b: State, i: nat) {
    UploadedStably(w, b, i) && w.upload(i).snapshot == w.first
  }

  /** So an upload that reads the tree the hash was taken of delivers the hashed records. */
  lemma UploadedWhatWasHashed(w: World, b: State, i: nat)
    ensures ValidWorld(w, b) && Ready(w, b) && UploadedFromHashedTree(w, b, i) ==>
      var covered := CoveredBy(b, w.first, b.instructions[i]);
      && covered.Some?
      && w.upload(i).end.consumed == FilesHash.AllBytes(w.formats, covered.value) + TarPipe.Trailer()
  {
    if ValidWorld(w, b) && Ready(w, b) && UploadedFromHashedTree(w, b, i) {
      UploadedWhatItRead(w, b, i);
      ReadingsOfReady(w, b, i);
      hide CoveredBy, ValidWorld, Ready, FilesHash.AllBytes, TarPipe.Trailer;
    }
  }

  // ---- one COPY step over small contexts ----

  /** A builder with one COPY step that does not ask for an upload. */
  predicate CopiesOne(b: State, src: string, dest: string) {
    && b.err == None && b.contextDir != ""
    && b.instructions == [Instruction(Kind.Copy, [src, dest, "", ""], false, None, None)]
  }

  /** The step is reported present, so no upload is needed; only the two passes differ. */
  function PresentWorld(formats: FilesHash.Formats, first: Files.Context, second: Files.Context,
                        upload: nat -> Upload, accepts: bool): World {
    World(formats, Snapshot(first, None), Snapshot(second, None), _ => Some(Link(true, None)), upload, accepts)
  }

  lemma OneHashList(h: Hashed)
    requires h.ins.kind == Kind.Copy
    ensures CopyHashes([h]) == [h.filesHash]
  {
    assert [h][..0] == [];
    assert CopyHashes([h]) == [] + [h.filesHash];
  }

  lemma OneCopyHashed(w: World, b: State, snapshot: Snapshot, ins: Instruction)
    requires b.instructions == [ins] && ins.kind == Kind.Copy && b.contextDir != ""
    requires Reading(b, snapshot, ins).Some?
    ensures var h := w.formats.digest(Reading(b, snapshot, ins).value);
      && InstructionsWithHashes(w, b, snapshot) == HashedAll([Hashed(ins, h)])
      && CopyHashes([Hashed(ins, h)]) == [h]
  {
    HashOfReading(w, b, snapshot, ins);
    var h := w.formats.digest(Reading(b, snapshot, ins).value);
    OneHashList(Hashed(ins, h));
    hide StepHash, Reading, CopyHashes;
    assert b.instructions[..|b.instructions| - 1] == [];
    assert HashEach(w, b, snapshot, b.instructions) == HashedAll([] + [Hashed(ins, h)]);
  }

  lemma PresentIsReady(formats: FilesHash.Formats, first: Files.Context, second: Files.Context,
                       upload: nat -> Upload, accepts: bool, b: State, src: string, dest: string)
    requires CopiesOne(b, src, dest)
    requires Reading(b, Snapshot(first, None), b.instructions[0]).Some?
    requires Reading(b, Snapshot(second, None), b.instructions[0]).Some?
    ensures Ready(PresentWorld(formats, first, second, upload, accepts), b)
  {
    var w, ins := PresentWorld(formats, first, second, upload, accepts), b.instructions[0];
    OneCopyHashed(w, b, w.first, ins);
    OneCopyHashed(w, b, w.second, ins);
    hide InstructionsWithHashes, CopyHashes, Reading;
    assert StepError(w, InstructionsWithHashes(w, b, w.first).steps[0], 0) == None;
  }

  lemma CopyArguments(b: State, src: string, dest: string)
    requires CopiesOne(b, src, dest)
    ensures var ins := b.instructions[0];
      ins.kind == Kind.Copy && Source(ins) == src && Dest(ins) == dest && !Resolve(ins)
  {
  }

  /** What hashing the step reads of a context without a .dockerignore. */
  lemma ReadingIs(b: State, c: Files.Context, src: string, dest: string)
    requires CopiesOne(b, src, dest)
    ensures var ins, snapshot := b.instructions[0], Snapshot(c, None);
      var covered := FilesHash.Covered(c, src, b.ignorePatterns, false);
      && CoveredBy(b, snapshot, ins) == covered
      && Reading(b, snapshot, ins) == if covered == None then None else Some(FilesHash.Preimage(src, dest, covered.value))
  {
    CopyArguments(b, src, dest);
    assert b.ignorePatterns + [] == b.ignorePatterns;
    hide CopiesOne, Source, Dest, Resolve, FilesHash.Covered, FilesHash.Preimage;
  }

  lemma {:induction false} OneFileReading(b: State, text: string, src: string, dest: string)
    requires CopiesOne(b, src, dest)
    ensures Reading(b, Snapshot(OneFile(Plain(text)), None), b.instructions[0])
         == Some(FilesHash.Preimage(src, dest, [PlainRecord("a", text)]))
  {
    assert |b.instructions| == 1;
    hide *;
    OneFileCovered(text, src, b.ignorePatterns);
    ReadingIs(b, OneFile(Plain(text)), src, dest);
  }

  /**
   * A file whose contents end like a second file: when the tree changes from the one file to the two, every field
   * list differs and every digest is the same, so the trigger still names the probed hash.
   */
  lemma SplitFileGoesUnnoticed(formats: FilesHash.Formats, upload: nat -> Upload, accepts: bool, b: State,
                               skipCache: bool, src: string, dest: string)
    requires CopiesOne(b, src, dest) && DigestsAreNotEmpty(formats)
    ensures var w := PresentWorld(formats, OneFile(Plain(JOINED)), TwoFiles(Plain(HEAD), Plain(TAIL)), upload, accepts);
      && Ready(w, b) && !SameFields(w, b) && SameBytes(w, b)
      && NamesTheProbed(FinishOutcome(w, b, skipCache).trace)
  {
    var (c, d) := (OneFile(Plain(JOINED)), TwoFiles(Plain(HEAD), Plain(TAIL)));
    var w, ins := PresentWorld(formats, c, d, upload, accepts), b.instructions[0];
    SplitFileReadings(b, src, dest);
    hide Reading, CoveredBy, OneFile, TwoFiles, Plain, Ready, NamesTheProbed, FinishOutcome;
    PresentIsReady(formats, c, d, upload, accepts, b, src, dest);
    SameReadingSameBytes(w, b, ins);
    assert WithDigest(w, formats.digest) == w;
    hide SameBytes, SameFields;
    SameBytesNameTheProbed(w, b, skipCache, formats.digest);
  }

  lemma SameReadingSameBytes(w: World, b: State, ins: Instruction)
    requires b.instructions == [ins]
    ensures Reading(b, w.first, ins) == Reading(b, w.second, ins) ==> SameBytes(w, b)
    ensures ins.kind == Kind.Copy && CoveredBy(b, w.first, ins) != CoveredBy(b, w.second, ins) ==> !SameFields(w, b)
  {
    hide Reading, CoveredBy;
    assert b.instructions[0] == ins;
  }

  lemma SplitFileReadings(b: State, src: string, dest: string)
    requires CopiesOne(b, src, dest)
    ensures var (one, two) := (Snapshot(OneFile(Plain(JOINED)), None), Snapshot(TwoFiles(Plain(HEAD), Plain(TAIL)), None));
      var ins := b.instructions[0];
      && CoveredBy(b, one, ins) != CoveredBy(b, two, ins)
      && Reading(b, one, ins) == Reading(b, two, ins) && Reading(b, one, ins).Some?
  {
    assert |b.instructions| == 1;
    hide *;
    ReadingIs(b, OneFile(Plain(JOINED)), src, dest);
    ReadingIs(b, TwoFiles(Plain(HEAD), Plain(TAIL)), src, dest);
    DifferentFieldsSameBytes(src, dest, b.ignorePatterns);
  }

  /**
   * The one byte of a file changes after the probe: with any digest that tells the two preimages apart, the trigger
   * names a hash never probed.
   */
  lemma ChangedTreeTriggersUnconfirmed(formats: FilesHash.Formats, upload: nat -> Upload, accepts: bool, b: State,
                                       skipCache: bool, src: string, dest: string)
    requires CopiesOne(b, src, dest) && DigestsAreNotEmpty(formats)
    ensures var (x, y) := (FilesHash.Preimage(src, dest, [PlainRecord("a", "x")]),
                           FilesHash.Preimage(src, dest, [PlainRecord("a", "y")]));
      var trace :=
        FinishOutcome(PresentWorld(formats, OneFile(Plain("x")), OneFile(Plain("y")), upload, accepts), b, skipCache).trace;
      && x != y && |x| == |y|
      && trace != [] && trace[|trace| - 1].Trigger?
      && HashesIn(trace[|trace| - 1].body.steps) == [formats.digest(y)]
      && ProbedIn(trace) == [formats.digest(x)]
      && (formats.digest(x) != formats.digest(y) ==> formats.digest(y) !in ProbedIn(trace))
  {
    var (c, d) := (OneFile(Plain("x")), OneFile(Plain("y")));
    var w, ins := PresentWorld(formats, c, d, upload, accepts), b.instructions[0];
    OneByteDiffers(src, dest);
    OneFileReading(b, "x", src, dest);
    OneFileReading(b, "y", src, dest);
    PresentIsReady(formats, c, d, upload, accepts, b, src, dest);
    hide FilesHash.Preimage, OneFile, Plain, PlainRecord, Ready, Reading, FinishOutcome, HashesIn, ProbedIn;
    OneCopyHashed(w, b, w.first, ins);
    OneCopyHashed(w, b, w.second, ins);
    hide InstructionsWithHashes, CopyHashes;
    TriggeredAndProbed(w, b, skipCache);
  }

  lemma OneByteDiffers(src: string, dest: string)
    ensures var (x, y) := (FilesHash.Preimage(src, dest, [PlainRecord("a", "x")]),
                           FilesHash.Preimage(src, dest, [PlainRecord("a", "y")]));
      x != y && |x| == |y|
  {
    var (r, s) := (PlainRecord("a", "x"), PlainRecord("a", "y"));
    PreimageOfOne(src, dest, r);
    PreimageOfOne(src, dest, s);
    assert Utf8("x") == [120] && Utf8("y") == [121];
    hide FilesHash.Preimage, FilesHash.Preamble, Decimal.Digits;
    assert r.info == s.info;
    hide FilesHash.Stats;
    var head := FilesHash.Preamble(src, dest) + (Utf8("a") + FilesHash.Stats(r.info) + []);
    assert FilesHash.Preimage(src, dest, [r]) == head + [120];
    assert FilesHash.Preimage(src, dest, [s]) == head + [121];
    assert (head + [120])[|head|] != (head + [121])[|head|];
  }

  // ---- a tree that changes before the upload ----

  /** An upload of one plain file that ends well. */
  lemma PlainUpload(formats: FilesHash.Formats, text: string, src: string, ignores: seq<string>)
    returns (end: TarPipe.Run)
    ensures EndOfRun(FilesHash.TarListing(OneFile(Plain(text)), formats, src, ignores, false), end)
    ensures end.main == TarPipe.Received(None, None)
    ensures end.consumed == FilesHash.AllBytes(formats, [PlainRecord("a", text)]) + TarPipe.Trailer()
  {
    var c := OneFile(Plain(text));
    var listing := FilesHash.TarListing(c, formats, src, ignores, false);
    OneFileListed(Plain(text), src, ignores);
    OneFileCovered(text, src, ignores);
    PlainIsStable(text, text);
    assert FilesHash.Tarable(c, false, PathOf("a"));
    hide Files.FileList, FilesHash.Covered, FilesHash.Tarable, FilesHash.TarListing, FilesHash.Stable, Plain, OneFile;
    hide FilesHash.AllBytes, TarPipe.Trailer, TarPipe.Archive, TarPipe.Init, TarPipe.CanRun, TarPipe.After, PlainRecord;
    assert FilesHash.AllTarable(c, src, ignores, false);
    FilesHash.ArchiveOfHashed(c, formats, src, ignores, false);
    var steps := TarPipe.PatientUpload(listing);
    end := TarPipe.After(TarPipe.Init(listing), steps);
    EndedWithoutError(listing, end);
  }

  /** The step is not present, so it is uploaded; both passes agree and the upload reads another tree. */
  function UploadWorld(formats: FilesHash.Formats, hashed: Files.Context, uploaded: Files.Context, end: TarPipe.Run,
                       accepts: bool): World {
    World(formats, Snapshot(hashed, None), Snapshot(hashed, None), _ => Some(Link(false, Some("url"))),
          _ => Upload(Snapshot(uploaded, None), end), accepts)
  }

  lemma UploadWorldIsValid(w: World, b: State, src: string, dest: string, formats: FilesHash.Formats,
                           hashed: Files.Context, uploaded: Files.Context, end: TarPipe.Run, accepts: bool)
    requires CopiesOne(b, src, dest) && w == UploadWorld(formats, hashed, uploaded, end, accepts)
    requires end.main.Received?
    requires EndOfRun(
      FilesHash.TarListing(uploaded, formats, src, Ignores(b, Snapshot(uploaded, None)), false), end)
    ensures ValidWorld(w, b)
  {
    hide EndOfRun, FilesHash.TarListing, Ignores;
  }

  /** What a build sends whose one step is uploaded without error. */
  lemma UploadWorldTrace(w: World, b: State, skipCache: bool, src: string, dest: string, formats: FilesHash.Formats,
                         hashed: Files.Context, uploaded: Files.Context, end: TarPipe.Run, accepts: bool)
    requires CopiesOne(b, src, dest) && w == UploadWorld(formats, hashed, uploaded, end, accepts)
    requires DigestsAreNotEmpty(formats) && end.main == TarPipe.Received(None, None)
    requires Reading(b, Snapshot(hashed, None), b.instructions[0]).Some?
    ensures var h := formats.digest(Reading(b, Snapshot(hashed, None), b.instructions[0]).value);
      var trace := FinishOutcome(w, b, skipCache).trace;
      |trace| == 3 && trace[..2] == [Probe(h), Put("url", end.consumed)] && NamesTheProbed(trace)
  {
    var ins := b.instructions[0];
    var h := Hashed(ins, formats.digest(Reading(b, w.first, ins).value));
    hide Reading, FinishOutcome, NamesTheProbed, DigestsAreNotEmpty;
    OneCopyHashed(w, b, w.first, ins);
    assert StepError(w, h, 0) == None;
    assert Sends(w, h, 0) == [Probe(h.filesHash), Put("url", end.consumed)];
    hide InstructionsWithHashes, CopyHashes, StepError, Sends;
    OneStepTrace(w, b, skipCache, h);
    assert SameBytes(w, b) && WithDigest(w, formats.digest) == w;
    hide Ready, SameBytes;
    assert forall bs :: formats.digest(bs) != "" by {
      assert DigestsAreNotEmpty(w.formats);
      NotEmpty(formats);
    }
    SameBytesNameTheProbed(w, b, skipCache, formats.digest);
  }

  lemma NotEmpty(formats: FilesHash.Formats)
    requires DigestsAreNotEmpty(formats)
    ensures forall bs :: formats.digest(bs) != ""
  {
  }

  /**
   * The one byte of a file is changed for the time of the upload: the build is triggered with the probed hash, and
   * what was stored under it is not what was hashed.
   */
  lemma OtherTreeStoredUnderTheHash(formats: FilesHash.Formats, accepts: bool, b: State, skipCache: bool,
                                    src: string, dest: string)
    returns (w: World)
    requires CopiesOne(b, src, dest) && DigestsAreNotEmpty(formats)
    ensures ValidWorld(w, b) && w.formats == formats && w.first == w.second == Snapshot(OneFile(Plain("x")), None)
    ensures var h := formats.digest(FilesHash.Preimage(src, dest, [PlainRecord("a", "x")]));
      var stored := FilesHash.AllBytes(formats, [PlainRecord("a", "y")]) + TarPipe.Trailer();
      var trace := FinishOutcome(w, b, skipCache).trace;
      && |trace| == 3 && trace[..2] == [Probe(h), Put("url", stored)] && NamesTheProbed(trace)
      && stored != FilesHash.AllBytes(formats, [PlainRecord("a", "x")]) + TarPipe.Trailer()
  {
    OneFileReading(b, "x", src, dest);
    ArchivesDiffer(formats);
    hide FilesHash.Preimage, OneFile, Plain, PlainRecord, Reading, FinishOutcome, EndOfRun, FilesHash.TarListing;
    hide FilesHash.AllBytes, TarPipe.Trailer, Ignores, DigestsAreNotEmpty, NamesTheProbed, ValidWorld;
    var hashed, uploaded := OneFile(Plain("x")), OneFile(Plain("y"));
    var end := PlainUpload(formats, "y", src, Ignores(b, Snapshot(uploaded, None)));
    w := UploadWorld(formats, hashed, uploaded, end, accepts);
    UploadWorldIsValid(w, b, src, dest, formats, hashed, uploaded, end, accepts);
    UploadWorldTrace(w, b, skipCache, src, dest, formats, hashed, uploaded, end, accepts);
  }

  /** The whole trace of a build with one step. */
  lemma OneStepTrace(w: World, b: State, skipCache: bool, h: Hashed)
    requires b.err == None && h.ins.kind == Kind.Copy && StepError(w, h, 0) == None
    requires InstructionsWithHashes(w, b, w.first) == HashedAll([h])
    requires InstructionsWithHashes(w, b, w.second).HashedAll?
    ensures Ready(w, b)
    ensures var (sent, trace) := (Sends(w, h, 0), FinishOutcome(w, b, skipCache).trace);
      |trace| == |sent| + 1 && trace[..|sent|] == sent && trace[|sent|].Trigger?
  {
    TriggerExactlyWhenReady(w, b, skipCache);
    hide InstructionsWithHashes, FinishOutcome, Sends, BodyOf;
    assert SendsUpTo(w, [h], 1) == [] + Sends(w, h, 0);
  }

  lemma ArchivesDiffer(formats: FilesHash.Formats)
    ensures FilesHash.AllBytes(formats, [PlainRecord("a", "y")]) + TarPipe.Trailer()
         != FilesHash.AllBytes(formats, [PlainRecord("a", "x")]) + TarPipe.Trailer()
  {
    var (r, s) := (PlainRecord("a", "x"), PlainRecord("a", "y"));
    assert Utf8("x") == [120] && Utf8("y") == [121];
    hide TarPipe.Trailer;
    var head := formats.header(r.name, r.info, r.target);
    assert [r][..0] == [] && [s][..0] == [];
    assert FilesHash.AllBytes(formats, [r]) == head + [120];
    assert FilesHash.AllBytes(formats, [s]) == head + [121];
    assert ((head + [120]) + TarPipe.Trailer())[|head|] != ((head + [121]) + TarPipe.Trailer())[|head|];
  }
}
