/** The lexical path check on COPY sources (template/template.go), for slash-separated paths. */
module Paths {
  import opened Options
  import Text

  datatype PathError = NotRelative(src: string) | EscapesContext(src: string)

  predicate IsAbs(path: string) { path != [] && path[0] == '/' }

  predicate IsName(segment: string) { segment != "" && segment != "." && segment != ".." }

  /** filepath.Clean on one more segment: the stack holds the segments kept so far. */
  function Push(rooted: bool, stack: seq<string>, segment: string): seq<string> {
    if segment == "" || segment == "." then stack
    else if segment != ".." then stack + [segment]
    else if stack != [] && stack[|stack| - 1] != ".." then stack[..|stack| - 1]
    else if rooted then stack
    else stack + [".."]
  }

  function Walk(rooted: bool, stack: seq<string>, segments: seq<string>): seq<string> {
    if segments == [] then stack
    else
      var last := |segments| - 1;
      Push(rooted, Walk(rooted, stack, segments[..last]), segments[last])
  }

  function CleanSegments(path: string): seq<string> {
    Walk(IsAbs(path), [], Text.Split(path, '/'))
  }

  function Clean(path: string): string {
    var kept := CleanSegments(path);
    if IsAbs(path) then "/" + Text.Join(kept, '/')
    else if kept == [] then "."
    else Text.Join(kept, '/')
  }

  predicate HasPrefix(s: string, prefix: string) { prefix <= s }

  function ValidateRelativePath(src: string): Option<PathError> {
    if IsAbs(src) then Some(NotRelative(src))
    else
      var normalized := Clean(src);
      if normalized == ".." || HasPrefix(normalized, "../") then Some(EscapesContext(src))
      else None
  }

  /** Levels below the starting directory after following `segments`. */
  function Depth(segments: seq<string>): int {
    if segments == [] then 0
    else
      var segment := segments[|segments| - 1];
      Depth(segments[..|segments| - 1])
      + if segment == ".." then -1 else if IsName(segment) then 1 else 0
  }

  /** No prefix of the path stands above the starting directory. */
  ghost predicate NeverAbove(segments: seq<string>) {
    forall k :: 0 <= k <= |segments| ==> DepthAt(segments, k) >= 0
  }

  /** The level reached after the first `k` segments. */
  function DepthAt(segments: seq<string>, k: nat): int
    requires k <= |segments|
  {
    Depth(segments[..k])
  }

  /** `ups` leading ".." segments, and only names after them. */
  ghost predicate Shape(stack: seq<string>, ups: nat) {
    && ups <= |stack|
    && (forall i :: 0 <= i < ups ==> stack[i] == "..")
    && (forall i :: ups <= i < |stack| ==> IsName(stack[i]))
  }

  lemma NeverAboveSnoc(segments: seq<string>)
    requires segments != []
    ensures NeverAbove(segments) <==> NeverAbove(segments[..|segments| - 1]) && Depth(segments) >= 0
  {
    var before := segments[..|segments| - 1];
    forall k | 0 <= k <= |before| ensures DepthAt(before, k) == DepthAt(segments, k) {
      assert before[..k] == segments[..k];
    }
    assert DepthAt(segments, |segments|) == Depth(segments) by {
      assert segments[..|segments|] == segments;
    }
    hide DepthAt, Depth;
  }

  /** Cleaning a relative path keeps one ".." for each level the path ever climbs above its start. */
  lemma {:induction false} WalkShape(segments: seq<string>) returns (ups: nat)
    ensures Shape(Walk(false, [], segments), ups)
    ensures |Walk(false, [], segments)| - 2 * ups == Depth(segments)
    ensures ups == 0 <==> NeverAbove(segments)
  {
    if segments == [] {
      ups := 0;
    } else {
      var last := |segments| - 1;
      ups := WalkShape(segments[..last]);
      NeverAboveSnoc(segments);
      var stack := Walk(false, [], segments[..last]);
      if segments[last] == ".." && |stack| == ups {
        ups := ups + 1;
      }
    }
  }

  lemma {:induction false} WalkKeepsSegments(rooted: bool, segments: seq<string>, part: string)
    requires part in Walk(rooted, [], segments)
    ensures part in segments
  {
    if segments != [] {
      var last := |segments| - 1;
      if part in Walk(rooted, [], segments[..last]) {
        WalkKeepsSegments(rooted, segments[..last], part);
      }
    }
  }

  /** The string test "is '..' or starts with '../'" looks at the first segment only. */
  lemma FirstSegmentTest(head: string, tail: string)
    requires forall i :: 0 <= i < |head| ==> head[i] != '/'
    requires tail == "" || tail[0] == '/'
    ensures head + tail == ".." || HasPrefix(head + tail, "../") <==> head == ".."
  {
    var text := head + tail + "/";
    assert text[|head|] == '/' && text[..|head|] == head;
    assert head == ".." ==> text[..3] == "../";
    assert HasPrefix(text, "../") ==> text[0] == '.' && text[1] == '.' && text[2] == '/';
    assert HasPrefix(text, "../") <==> head == "..";
    assert HasPrefix(head + tail, "../") ==> HasPrefix(text, "../");
    assert HasPrefix(text, "../") && |head + tail| >= 3 ==> text[..3] == (head + tail)[..3];
  }

  lemma PrefixTest(kept: seq<string>)
    requires kept != [] && forall s :: s in kept ==> '/' !in s
    ensures var text := Text.Join(kept, '/');
      text == ".." || HasPrefix(text, "../") <==> kept[0] == ".."
  {
    assert kept[0] in kept;
    var tail := if |kept| == 1 then "" else ['/'] + Text.Join(kept[1..], '/');
    assert Text.Join(kept, '/') == kept[0] + tail;
    FirstSegmentTest(kept[0], tail);
  }

  /** A relative path is accepted exactly when no prefix of it climbs above the start. */
  lemma AcceptedIffNeverAbove(src: string)
    requires !IsAbs(src)
    ensures ValidateRelativePath(src) == None <==> NeverAbove(Text.Split(src, '/'))
  {
    var segments := Text.Split(src, '/');
    var kept := CleanSegments(src);
    var ups := WalkShape(segments);
    Text.JoinOfSplit(src, '/');
    forall s | s in kept ensures '/' !in s {
      WalkKeepsSegments(false, segments, s);
    }
    if kept != [] {
      PrefixTest(kept);
    }
  }

  ghost predicate AllNames(stack: seq<string>) {
    forall i :: 0 <= i < |stack| ==> IsName(stack[i])
  }

  /** Followed from a real directory, a path that never climbs above it stays below it throughout. */
  lemma {:induction false} WalkFromBase(base: seq<string>, segments: seq<string>)
    requires AllNames(base) && NeverAbove(segments)
    ensures Walk(true, base, segments) == base + Walk(false, [], segments)
  {
    if segments != [] {
      var last := |segments| - 1;
      NeverAboveSnoc(segments);
      WalkFromBase(base, segments[..last]);
      var ups := WalkShape(segments[..last]);
      var stack := Walk(false, [], segments[..last]);
      if stack == [] {
        assert base + stack == base;
      } else {
        assert (base + stack)[..|base + stack| - 1] == base + stack[..|stack| - 1];
      }
    }
  }

  /** The first prefix that climbs above the start leaves the directory it started from. */
  lemma {:induction false} WalkLeavesBase(base: seq<string>, segments: seq<string>) returns (k: nat)
    requires AllNames(base) && base != [] && !NeverAbove(segments)
    ensures k <= |segments| && Walk(true, base, segments[..k]) == base[..|base| - 1]
  {
    var last := |segments| - 1;
    if NeverAbove(segments[..last]) {
      k := |segments|;
      assert segments[..k] == segments;
      StepOutside(base, segments);
    } else {
      hide *;
      k := WalkLeavesBase(base, segments[..last]);
      assert segments[..last][..k] == segments[..k];
    }
  }

  lemma {:induction false} StepOutside(base: seq<string>, segments: seq<string>)
    requires AllNames(base) && base != [] && segments != []
    requires NeverAbove(segments[..|segments| - 1]) && !NeverAbove(segments)
    ensures Walk(true, base, segments) == base[..|base| - 1]
  {
    var last := |segments| - 1;
    NeverAboveSnoc(segments);
    hide NeverAbove;
    WalkFromBase(base, segments[..last]);
    var ups := WalkShape(segments[..last]);
    assert Walk(false, [], segments[..last]) == [];
    assert Walk(true, base, segments[..last]) == base;
  }

  /** Which sources are accepted, and with which error the others are rejected. */
  lemma ValidatedExactly(src: string)
    ensures src != "" && src[0] == '/' ==> ValidateRelativePath(src) == Some(NotRelative(src))
    ensures src == "" || src[0] != '/' ==>
      ValidateRelativePath(src) == if NeverAbove(Text.Split(src, '/')) then None else Some(EscapesContext(src))
  {
    if src == "" || src[0] != '/' {
      AcceptedIffNeverAbove(src);
    }
    hide NeverAbove, Text.Split;
  }

  /** Acceptance is the same as never leaving the context directory, whichever directory that is. */
  lemma AcceptedIffInsideContext(base: seq<string>, src: string)
    requires AllNames(base) && base != [] && !IsAbs(src)
    ensures ValidateRelativePath(src) == None <==>
      forall k :: 0 <= k <= |Text.Split(src, '/')| ==> base <= Walk(true, base, Text.Split(src, '/')[..k])
  {
    var segments := Text.Split(src, '/');
    AcceptedIffNeverAbove(src);
    if NeverAbove(segments) {
      forall k | 0 <= k <= |segments| ensures base <= Walk(true, base, segments[..k]) {
        assert NeverAbove(segments[..k]) by {
          forall j | 0 <= j <= k ensures DepthAt(segments[..k], j) == DepthAt(segments, j) {
            assert segments[..k][..j] == segments[..j];
          }
        }
        WalkFromBase(base, segments[..k]);
      }
    } else {
      var k := WalkLeavesBase(base, segments);
      assert !(base <= base[..|base| - 1]);
      assert !(base <= Walk(true, base, segments[..k]));
    }
  }

  lemma {:induction false} WalkConcat(rooted: bool, stack: seq<string>, a: seq<string>, b: seq<string>)
    ensures Walk(rooted, stack, a + b) == Walk(rooted, Walk(rooted, stack, a), b)
  {
    if b == [] {
      assert a + b == a;
    } else {
      var last := |b| - 1;
      assert (a + b)[..|a + b| - 1] == a + b[..last];
      WalkConcat(rooted, stack, a, b[..last]);
    }
  }

  lemma {:induction false} RootedWalkIsNames(segments: seq<string>)
    ensures AllNames(Walk(true, [], segments))
  {
    if segments != [] {
      RootedWalkIsNames(segments[..|segments| - 1]);
    }
  }

  lemma {:induction false} RootedWalkKeeps(stack: seq<string>)
    requires AllNames(stack)
    ensures Walk(true, [], stack) == stack
  {
    if stack != [] {
      var last := |stack| - 1;
      RootedWalkKeeps(stack[..last]);
      assert IsName(stack[last]);
    }
  }

  lemma {:induction false} WalkKeeps(stack: seq<string>, ups: nat)
    requires Shape(stack, ups)
    ensures Walk(false, [], stack) == stack
  {
    if stack != [] {
      LastKept(stack, ups);
      hide Shape, Push;
      var last := |stack| - 1;
      WalkKeeps(stack[..last], if ups <= last then ups else last);
    }
  }

  lemma LastKept(stack: seq<string>, ups: nat)
    requires Shape(stack, ups) && stack != []
    ensures var last := |stack| - 1;
      Push(false, stack[..last], stack[last]) == stack && Shape(stack[..last], if ups <= last then ups else last)
  {
    var last := |stack| - 1;
    assert stack == stack[..last] + [stack[last]];
    if last < ups {
      assert stack[last] == "..";
    } else {
      assert IsName(stack[last]);
    }
  }

  /** A clean path has the kept segments and nothing else, with "/" or "." when none is left. */
  lemma CleanSplits(path: string)
    ensures var kept := CleanSegments(path);
      && (kept == [] ==> Clean(path) == if IsAbs(path) then "/" else ".")
      && (kept != [] ==> Text.Split(Clean(path), '/') == if IsAbs(path) then [""] + kept else kept)
      && IsAbs(Clean(path)) == IsAbs(path)
  {
    var kept := CleanSegments(path);
    Text.JoinOfSplit(path, '/');
    forall s | s in kept ensures '/' !in s {
      WalkKeepsSegments(IsAbs(path), Text.Split(path, '/'), s);
    }
    if kept != [] {
      Text.SplitOfJoin(kept, '/');
      if IsAbs(path) {
        assert Clean(path) == "" + ['/'] + Text.Join(kept, '/');
        Text.SplitConcat("", Text.Join(kept, '/'), '/');
      } else {
        KeptStart(kept, path);
      }
    }
  }

  /** A relative path cleans to text that starts with a segment, not with a slash. */
  lemma KeptStart(kept: seq<string>, path: string)
    requires kept == Walk(false, [], Text.Split(path, '/')) != [] && forall s :: s in kept ==> '/' !in s
    ensures !IsAbs(Text.Join(kept, '/'))
  {
    var ups := WalkShape(Text.Split(path, '/'));
    assert kept[0] in kept && kept[0] != "";
    assert kept[0][0] in kept[0];
    hide Walk, Text.Split;
    assert Text.Join(kept, '/')[0] == kept[0][0];
  }

  /** Cleaning a clean path changes nothing. */
  lemma CleanIsIdempotent(path: string)
    ensures CleanSegments(Clean(path)) == CleanSegments(path) && Clean(Clean(path)) == Clean(path)
  {
    CleanSplits(path);
    var kept := CleanSegments(path);
    if kept == [] {
      CleanOfNothing();
    } else if IsAbs(path) {
      RootedWalkIsNames(Text.Split(path, '/'));
      RootedWalkKeeps(kept);
      WalkConcat(true, [], [""], kept);
      assert Walk(true, [], [""]) == Push(true, Walk(true, [], [""][..0]), "") == [];
    } else {
      var ups := WalkShape(Text.Split(path, '/'));
      WalkKeeps(kept, ups);
    }
  }

  lemma CleanOfNothing()
    ensures CleanSegments("/") == [] == CleanSegments(".")
  {
    assert Text.Split("/", '/') == ["", ""] by {
      Text.SplitConcat("", "", '/');
      assert "" + ['/'] + "" == "/";
    }
    Text.SplitWithoutSeparator(".", '/');
    assert Walk(true, [], ["", ""]) == Push(true, Walk(true, [], ["", ""][..1]), "");
    assert Walk(true, [], ["", ""][..1]) == Push(true, Walk(true, [], ["", ""][..1][..0]), "");
    assert Walk(false, [], ["."]) == Push(false, Walk(false, [], ["."][..0]), ".");
  }

  /** filepath.Join of an absolute context and an accepted source lies below the context. */
  lemma JoinedPathIsBelowContext(context: string, src: string)
    requires IsAbs(context) && !IsAbs(src) && ValidateRelativePath(src) == None
    ensures CleanSegments(context + "/" + src) == CleanSegments(context) + CleanSegments(src)
  {
    AcceptedIffNeverAbove(src);
    var (a, b) := (Text.Split(context, '/'), Text.Split(src, '/'));
    Text.SplitConcat(context, src, '/');
    WalkConcat(true, [], a, b);
    RootedWalkIsNames(a);
    WalkFromBase(Walk(true, [], a), b);
  }
}
