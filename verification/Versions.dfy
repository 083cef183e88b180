/** envd version parsing, ordering and gates (versions.go). */
module Versions {
  import opened Options
  import opened Decimal
  import Sequences
  import Text

  const ENVD_RECURSIVE_WATCH := "0.1.4"
  const ENVD_DEFAULT_USER := "0.4.0"
  const ENVD_CLOSE := "0.5.2"
  const ENVD_OCTET_STREAM_UPLOAD := "0.5.7"
  const ENVD_DEBUG_FALLBACK := "99.99.99"
  const DEFAULT_USER := "user"

  predicate IsV(c: char) { c == 'v' || c == 'V' }

  predicate StartsSuffix(c: char) { c == '-' || c == '+' }

  function StripPrefix(v: string): string {
    if v != [] && IsV(v[0]) then v[1..] else v
  }

  /** The text before the first '-' or '+'. */
  function CutSuffix(v: string): string {
    if v == [] || StartsSuffix(v[0]) then "" else [v[0]] + CutSuffix(v[1..])
  }

  function Core(v: string): string { CutSuffix(StripPrefix(v)) }

  function ParseSegment(segment: string): int {
    match Atoi(segment)
    case Some(n) => n
    case None => 0
  }

  /** The integer segments of a version, which the loop below computes. */
  function Segments(v: string): seq<int> {
    CoreSegments(Core(v))
  }

  function CoreSegments(core: string): seq<int> {
    if core == "" then [] else ParseAll(Text.Split(core, '.'))
  }

  lemma {:induction false} CutSuffixAt(v: string, i: nat)
    requires i <= |v|
    requires forall j :: 0 <= j < i ==> !StartsSuffix(v[j])
    requires i == |v| || StartsSuffix(v[i])
    ensures CutSuffix(v) == v[..i]
  {
    if i > 0 {
      CutSuffixAt(v[1..], i - 1);
      assert v[..i] == [v[0]] + v[1..][..i - 1];
    }
  }

  function ParseAll(parts: seq<string>): seq<int> {
    Sequences.Map(ParseSegment, parts)
  }

  /** One more dot-separated part contributes one more parsed segment. */
  lemma {:induction false} ParseOneMore(done: string, segment: string)
    requires '.' !in segment
    ensures ParseAll(Text.Split(segment, '.')) == [ParseSegment(segment)]
    ensures ParseAll(Text.Split(done + ['.'] + segment, '.'))
         == ParseAll(Text.Split(done, '.')) + [ParseSegment(segment)]
  {
    Text.SplitWithoutSeparator(segment, '.');
    Text.SplitConcat(done, segment, '.');
    Sequences.MapConcat(ParseSegment, Text.Split(done, '.'), [segment]);
  }

  method SplitVersion(version: string) returns (out: seq<int>)
    ensures out == Segments(version)
  {
    var v := version;
    if |v| > 0 && IsV(v[0]) {
      v := v[1..];
    }
    var cut := 0;
    while cut < |v| && !StartsSuffix(v[cut])
      invariant 0 <= cut <= |v|
      invariant forall j :: 0 <= j < cut ==> !StartsSuffix(v[j])
    {
      cut := cut + 1;
    }
    CutSuffixAt(v, cut);
    v := v[..cut];
    if v == "" {
      return [];
    }
    out := SplitDots(v);
  }

  /** What the dot scan has collected when the next segment starts at `start`. */
  function Scanned(v: string, start: nat): seq<int>
    requires start <= |v| + 1
  {
    if start == 0 then [] else ParseAll(Text.Split(v[..start - 1], '.'))
  }

  predicate NoDot(v: string, start: nat, end: nat)
    requires end <= |v|
  {
    forall j :: start <= j < end ==> v[j] != '.'
  }

  lemma ScanStep(v: string, start: nat, i: nat)
    requires start <= i <= |v| && NoDot(v, start, i)
    requires start > 0 ==> v[start - 1] == '.'
    ensures Scanned(v, i + 1) == Scanned(v, start) + [ParseSegment(v[start..i])]
  {
    hide ParseAll, ParseSegment;
    if start == 0 {
      ParseOneMore("", v[..i]);
    } else {
      ParseOneMore(v[..start - 1], v[start..i]);
      assert v[..i] == v[..start - 1] + ['.'] + v[start..i];
    }
  }

  lemma {:induction false} ScanEnds(v: string)
    ensures Scanned(v, 0) == [] && Scanned(v, |v| + 1) == ParseAll(Text.Split(v, '.'))
  {
    assert v[..|v|] == v;
  }

  /** The dot-scanning loop of splitVersion. */
  method SplitDots(v: string) returns (out: seq<int>)
    requires v != ""
    ensures out == ParseAll(Text.Split(v, '.'))
  {
    hide Scanned, ParseAll, ParseSegment;
    ScanEnds(v);
    out := [];
    var start := 0;
    for i := 0 to |v| + 1
      invariant 0 <= start <= i
      invariant 0 < start <= |v| ==> v[start - 1] == '.'
      invariant if i <= |v| then NoDot(v, start, i) else start == i
      invariant out == Scanned(v, start)
    {
      if i == |v| || v[i] == '.' {
        ScanStep(v, start, i);
        out := out + [ParseSegment(v[start..i])];
        start := i + 1;
      }
    }
  }

  /** Segment `i`, with missing segments read as 0. */
  function Segment(s: seq<int>, i: nat): int {
    if i < |s| then s[i] else 0
  }

  /** Zero-padded lexicographic order, stated without any loop. */
  ghost predicate Less(a: seq<int>, b: seq<int>) {
    exists k: nat :: LessAt(a, b, k)
  }

  ghost predicate LessAt(a: seq<int>, b: seq<int>, k: nat) {
    EqualUpTo(a, b, k) && Segment(a, k) < Segment(b, k)
  }

  ghost predicate EqualUpTo(a: seq<int>, b: seq<int>, k: nat) {
    forall j: nat :: j < k ==> Segment(a, j) == Segment(b, j)
  }

  ghost predicate Same(a: seq<int>, b: seq<int>) {
    forall j: nat :: Segment(a, j) == Segment(b, j)
  }

  /** What compareEnvdVersions promises: the sign of the padded order. */
  ghost predicate IsComparison(a: seq<int>, b: seq<int>, r: int) {
    && -1 <= r <= 1
    && (r < 0 <==> Less(a, b))
    && (r > 0 <==> Less(b, a))
    && (r == 0 <==> Same(a, b))
  }

  lemma ComparisonAt(a: seq<int>, b: seq<int>, k: nat)
    requires EqualUpTo(a, b, k) && Segment(a, k) < Segment(b, k)
    ensures IsComparison(a, b, -1) && IsComparison(b, a, 1)
  {
    assert LessAt(a, b, k);
    forall j: nat ensures !LessAt(b, a, j) {
      assert j < k ==> Segment(a, j) == Segment(b, j);
      assert k < j && EqualUpTo(b, a, j) ==> Segment(a, k) == Segment(b, k);
    }
  }

  lemma ComparisonEqual(a: seq<int>, b: seq<int>, n: nat)
    requires EqualUpTo(a, b, n) && |a| <= n && |b| <= n
    ensures IsComparison(a, b, 0)
  {
    forall j: nat ensures Segment(a, j) == Segment(b, j) {
      assert j < n ==> Segment(a, j) == Segment(b, j);
    }
  }

  method CompareEnvdVersions(a: string, b: string) returns (r: int)
    ensures r == Compare(a, b)
  {
    var aSegs := SplitVersion(a);
    var bSegs := SplitVersion(b);
    r := CompareSegments(aSegs, bSegs);
  }

  /** The segment loop of compareEnvdVersions. */
  method CompareSegments(a: seq<int>, b: seq<int>) returns (r: int)
    ensures r == CompareFrom(a, b, 0)
  {
    var n := if |a| < |b| then |b| else |a|;
    for i := 0 to n
      invariant CompareFrom(a, b, i) == CompareFrom(a, b, 0)
    {
      var av, bv := 0, 0;
      if i < |a| {
        av := a[i];
      }
      if i < |b| {
        bv := b[i];
      }
      if av < bv {
        return -1;
      }
      if av > bv {
        return 1;
      }
    }
    return 0;
  }

  /** The comparison as a function, for use in statements about it. */
  function Compare(a: string, b: string): int {
    CompareFrom(Segments(a), Segments(b), 0)
  }

  function CompareFrom(a: seq<int>, b: seq<int>, i: nat): (r: int)
    ensures -1 <= r <= 1
    decreases |a| + |b| - i
  {
    if i >= |a| && i >= |b| then 0
    else if Segment(a, i) == Segment(b, i) then CompareFrom(a, b, i + 1)
    else if Segment(a, i) < Segment(b, i) then -1
    else 1
  }

  lemma {:induction false} CompareFromMeaning(a: seq<int>, b: seq<int>, i: nat)
    requires EqualUpTo(a, b, i)
    ensures IsComparison(a, b, CompareFrom(a, b, i))
    decreases |a| + |b| - i
  {
    if i >= |a| && i >= |b| {
      ComparisonEqual(a, b, i);
    } else if Segment(a, i) == Segment(b, i) {
      CompareFromMeaning(a, b, i + 1);
    } else if Segment(a, i) < Segment(b, i) {
      ComparisonAt(a, b, i);
    } else {
      ComparisonAt(b, a, i);
    }
  }

  /** The comparison is the sign of the padded lexicographic order. */
  lemma CompareMeaning(a: string, b: string)
    ensures IsComparison(Segments(a), Segments(b), Compare(a, b))
  {
    CompareFromMeaning(Segments(a), Segments(b), 0);
  }

  lemma LessTransitive(a: seq<int>, b: seq<int>, c: seq<int>)
    requires Less(a, b) || Same(a, b)
    requires Less(b, c) || Same(b, c)
    ensures Less(a, c) || Same(a, c)
    ensures Less(a, b) || Less(b, c) ==> Less(a, c)
  {
    if Less(a, b) {
      var k: nat :| LessAt(a, b, k);
      if Less(b, c) {
        var m: nat :| LessAt(b, c, m);
        assert LessAt(a, c, if k < m then k else m);
      } else {
        assert LessAt(a, c, k);
      }
    } else if Less(b, c) {
      var m: nat :| LessAt(b, c, m);
      assert LessAt(a, c, m);
    }
  }

  /** A total preorder on all strings, whatever their segment counts. */
  lemma PreorderLaws(a: string, b: string, c: string)
    ensures Compare(a, a) == 0
    ensures Compare(a, b) == -Compare(b, a)
    ensures Compare(a, b) <= 0 && Compare(b, c) <= 0 ==> Compare(a, c) <= 0
    ensures Compare(a, b) <= 0 && Compare(b, c) <= 0 && Compare(a, c) == 0
            ==> Compare(a, b) == 0 && Compare(b, c) == 0
  {
    CompareMeaning(a, a);
    CompareMeaning(a, b);
    CompareMeaning(b, a);
    CompareMeaning(b, c);
    CompareMeaning(a, c);
    if Compare(a, b) <= 0 && Compare(b, c) <= 0 {
      LessTransitive(Segments(a), Segments(b), Segments(c));
    }
  }

  /** No character starts an ignored suffix. */
  predicate Plain(v: string) { forall i :: 0 <= i < |v| ==> !StartsSuffix(v[i]) }

  lemma {:induction false} CutPlain(v: string, tail: string)
    requires Plain(v)
    ensures CutSuffix(v + tail) == v + CutSuffix(tail)
  {
    if v == [] {
      assert v + tail == tail;
    } else {
      CutPlain(v[1..], tail);
      assert (v + tail)[1..] == v[1..] + tail;
    }
  }

  lemma {:induction false} CutNotPlain(v: string, tail: string)
    requires !Plain(v)
    ensures CutSuffix(v + tail) == CutSuffix(v)
  {
    if !StartsSuffix(v[0]) {
      var i :| 0 <= i < |v| && StartsSuffix(v[i]);
      assert StartsSuffix(v[1..][i - 1]);
      CutNotPlain(v[1..], tail);
      assert (v + tail)[1..] == v[1..] + tail;
    }
  }

  lemma {:induction false} CutIsPlain(v: string)
    ensures Plain(CutSuffix(v))
    ensures Plain(v) ==> CutSuffix(v) == v
  {
    if v != [] && !StartsSuffix(v[0]) {
      CutIsPlain(v[1..]);
      assert v == [v[0]] + v[1..];
    }
  }

  lemma CutBefore(v: string, tail: string)
    requires tail == [] || StartsSuffix(tail[0])
    ensures CutSuffix(v + tail) == CutSuffix(v)
  {
    if Plain(v) {
      CutPlain(v, tail);
      CutIsPlain(v);
    } else {
      CutNotPlain(v, tail);
    }
  }

  lemma ParsedSegmentNonNegative(segment: string)
    requires Plain(segment)
    ensures ParseSegment(segment) >= 0
  {
  }

  /** No sign survives the suffix cut, so no parsed segment is negative. */
  lemma SegmentsNonNegative(v: string)
    ensures forall n :: n in Segments(v) ==> n >= 0
  {
    CutIsPlain(StripPrefix(v));
    var parts := Text.Split(Core(v), '.');
    forall p | p in parts ensures ParseSegment(p) >= 0 {
      PlainParts(Core(v), p);
      ParsedSegmentNonNegative(p);
    }
  }

  lemma {:induction false} PlainParts(s: string, part: string)
    requires Plain(s) && part in Text.Split(s, '.')
    ensures Plain(part)
  {
    if s != [] {
      var rest := Text.Split(s[1..], '.');
      if part != "" && s[0] != '.' && part == [s[0]] + rest[0] {
        PlainParts(s[1..], rest[0]);
      } else if part != "" {
        assert part in rest;
        PlainParts(s[1..], part);
      }
    }
  }

  lemma ZeroIsLowest(a: seq<int>, b: seq<int>)
    requires forall j: nat :: Segment(a, j) == 0 <= Segment(b, j)
    ensures !Less(b, a)
  {
    forall k: nat ensures !LessAt(b, a, k) {
      assert Segment(a, k) == 0 <= Segment(b, k);
    }
  }

  /** A version whose segments are all 0: empty, malformed throughout, or written with zeros. */
  ghost predicate IsZero(v: string) { forall n :: n in Segments(v) ==> n == 0 }

  lemma ZeroBelow(v: string, w: string)
    requires IsZero(v)
    ensures Compare(v, w) <= 0
    ensures Compare(v, w) < 0 <==> !IsZero(w)
  {
    var a, b := Segments(v), Segments(w);
    SegmentsNonNegative(w);
    AllZero(a);
    AllZero(b);
    forall j: nat ensures Segment(a, j) == 0 <= Segment(b, j) {
      assert j < |b| ==> b[j] in b;
    }
    ZeroIsLowest(a, b);
    CompareMeaning(v, w);
    assert Same(a, b) <==> forall j: nat :: Segment(b, j) == 0;
  }

  /** A version is at or below every version if and only if all its segments are 0. */
  lemma LowestExactly(v: string)
    ensures (forall w :: Compare(v, w) <= 0) <==> IsZero(v)
  {
    if IsZero(v) {
      forall w ensures Compare(v, w) <= 0 {
        ZeroBelow(v, w);
      }
    } else {
      EmptyIsZero();
      ZeroBelow("", v);
      PreorderLaws("", v, v);
      assert Compare(v, "") > 0;
    }
  }

  lemma EmptyIsZero()
    ensures IsZero("")
  {
    assert Segments("") == [];
  }

  /** An empty version, or one with no segment that parses, is below exactly those that are not zero themselves. */
  lemma UnparsedIsLowest(v: string, w: string)
    requires forall p :: p in Text.Split(Core(v), '.') ==> Atoi(p) == None
    ensures Compare(v, w) <= 0
    ensures Compare(v, w) == 0 <==> IsZero(w)
  {
    forall n | n in Segments(v) ensures n == 0 {
      assert exists p :: p in Text.Split(Core(v), '.') && n == ParseSegment(p);
    }
    ZeroBelow(v, w);
  }

  lemma TwoSegments(a: string, b: string)
    requires '.' !in a && '.' !in b && Plain(a) && Plain(b) && a != "" && !IsV(a[0])
    ensures Segments(a + "." + b) == [ParseSegment(a), ParseSegment(b)]
  {
    var v := a + "." + b;
    CutPlain(v, "");
    assert v + "" == v && v == a + ['.'] + b;
    assert CutSuffix(v) == v;
    ParseOneMore("", a);
    ParseOneMore(a, b);
  }

  /** A malformed version above a real one: only its first segment fails to parse. */
  lemma MalformedAboveReal()
    ensures Compare("x.5", "0.1") > 0
  {
    TwoSegments("x", "5");
    TwoSegments("0", "1");
    SmallSegments();
    hide *;
    assert "x.5" == "x" + "." + "5" && "0.1" == "0" + "." + "1";
    FiveAboveOne("x.5", "0.1");
  }

  lemma FiveAboveOne(a: string, b: string)
    requires Segments(a) == [0, 5] && Segments(b) == [0, 1]
    ensures Compare(a, b) > 0
  {
    hide Segments;
    assert CompareFrom([0, 5], [0, 1], 1) == 1;
  }

  lemma SmallSegments()
    ensures ParseSegment("x") == 0 && ParseSegment("0") == 0 && ParseSegment("5") == 5 && ParseSegment("1") == 1
  {
  }

  /** An empty version is not below a version of zeros. */
  lemma EmptyNotBelowZero()
    ensures Compare("", "0.0") == 0
  {
    EmptyIsZero();
    TwoSegments("0", "0");
    assert "0.0" == "0" + "." + "0" && ParseSegment("0") == 0;
    ZeroBelow("", "0.0");
  }

  lemma AllZero(b: seq<int>)
    ensures (forall j: nat :: Segment(b, j) == 0) <==> forall n :: n in b ==> n == 0
  {
    if forall j: nat :: Segment(b, j) == 0 {
      forall n | n in b ensures n == 0 {
        var j :| 0 <= j < |b| && b[j] == n;
        assert Segment(b, j) == 0;
      }
    }
    forall j: nat | forall n :: n in b ==> n == 0 ensures Segment(b, j) == 0 {
      assert j < |b| ==> b[j] in b;
    }
  }

  /** A segment beyond the 64-bit range does not parse, so it counts as 0. */
  lemma HugeSegmentIsZero(n: nat)
    requires n > 9223372036854775807
    ensures ParseSegment(Digits(n)) == 0
  {
    DigitsDenote(n);
    assert !(Digits(n)[0] == '-' || Digits(n)[0] == '+');
  }

  /** The ignored suffix never matters. */
  lemma SuffixIgnored(v: string, suffix: string, w: string)
    requires suffix != [] && (suffix[0] == '-' || suffix[0] == '+')
    ensures Segments(v + suffix) == Segments(v)
    ensures Compare(v + suffix, w) == Compare(v, w) && Compare(v + suffix, v) == 0
  {
    if v == [] {
      assert v + suffix == suffix;
    } else {
      assert StripPrefix(v + suffix) == StripPrefix(v) + suffix;
    }
    CutBefore(StripPrefix(v), suffix);
    PreorderLaws(v, v, v);
  }

  lemma TrailingZeroCore(core: string)
    ensures Same(CoreSegments(core + ".0"), CoreSegments(core))
  {
    assert core + ".0" == core + ['.'] + "0";
    ParseOneMore(core, "0");
    assert ParseSegment("0") == 0 by { RenderedSegment(0); }
    if core == "" {
      assert ParseSegment("") == 0;
      ParseOneMore("", "");
    }
  }

  lemma TrailingZeroSegments(v: string)
    ensures Same(Segments(v + ".0"), Segments(v))
  {
    var body := StripPrefix(v);
    assert StripPrefix(v + ".0") == body + ".0" by {
      if v == [] {
        assert v + ".0" == ".0";
      }
    }
    if Plain(body) {
      CutPlain(body, ".0");
      CutIsPlain(body);
      CutIsPlain(".0");
      TrailingZeroCore(body);
    } else {
      CutNotPlain(body, ".0");
    }
  }

  lemma SameComparesEqual(a: string, b: string, w: string)
    requires Same(Segments(a), Segments(b))
    ensures Compare(a, b) == 0 && Compare(a, w) == Compare(b, w)
  {
    CompareMeaning(a, b);
    PreorderLaws(a, b, w);
    PreorderLaws(b, a, w);
    PreorderLaws(w, a, b);
    PreorderLaws(w, b, a);
  }

  /** A trailing zero segment never matters. */
  lemma TrailingZeroIgnored(v: string, w: string)
    ensures Compare(v + ".0", v) == 0
    ensures Compare(v + ".0", w) == Compare(v, w)
  {
    TrailingZeroSegments(v);
    SameComparesEqual(v + ".0", v, w);
  }

  /** Dotted rendering of segments. */
  function RenderVersion(segments: seq<int>): string {
    Text.Join(Sequences.Map(Render, segments), '.')
  }

  lemma RenderedSegment(n: int)
    requires 0 <= n <= MAX_INT64
    ensures ParseSegment(Render(n)) == n
    ensures Render(n) != [] && AllDigits(Render(n))
  {
    RenderParses(n);
    DigitsDenote(n);
  }

  lemma {:induction false} RenderedCharacters(segments: seq<int>)
    requires segments != [] && forall n :: n in segments ==> 0 <= n <= MAX_INT64
    ensures RenderVersion(segments) != [] && IsDigit(RenderVersion(segments)[0])
    ensures forall c :: c in RenderVersion(segments) ==> IsDigit(c) || c == '.'
  {
    var parts := Sequences.Map(Render, segments);
    assert parts[0] == Render(segments[0]) && segments[0] in segments;
    RenderedSegment(segments[0]);
    if |segments| > 1 {
      forall n | n in segments[1..] ensures 0 <= n <= MAX_INT64 {
        assert n in segments;
      }
      RenderedCharacters(segments[1..]);
      assert parts == [Render(segments[0])] + Sequences.Map(Render, segments[1..]);
      assert parts[1..] == Sequences.Map(Render, segments[1..]);
    }
  }

  /** Parsing undoes dotted rendering, with an optional "v" and any ignored suffix. */
  lemma ParseOfRender(prefix: string, segments: seq<int>, suffix: string)
    requires prefix in {"", "v", "V"}
    requires forall n :: n in segments ==> 0 <= n <= MAX_INT64
    requires suffix == "" || suffix[0] == '-' || suffix[0] == '+'
    ensures Segments(prefix + RenderVersion(segments) + suffix) == segments
  {
    var text := RenderVersion(segments);
    var v := prefix + text + suffix;
    if segments != [] {
      RenderedCharacters(segments);
    }
    assert StripPrefix(v) == text + suffix;
    assert Plain(text) by {
      forall i | 0 <= i < |text| ensures !StartsSuffix(text[i]) { assert text[i] in text; }
    }
    CutBefore(text, suffix);
    CutIsPlain(text);
    assert Core(v) == text;
    if segments != [] {
      var parts := Sequences.Map(Render, segments);
      forall i | 0 <= i < |parts| ensures '.' !in parts[i] && ParseSegment(parts[i]) == segments[i] {
        assert segments[i] in segments;
        RenderedSegment(segments[i]);
      }
      Text.SplitOfJoin(parts, '.');
    }
  }

  /** A newer build passes every gate that an older one passes. */
  lemma GateMonotone(older: string, newer: string, gate: string)
    requires Compare(older, gate) >= 0 && Compare(newer, older) >= 0
    ensures Compare(newer, gate) >= 0
  {
    PreorderLaws(gate, older, newer);
    PreorderLaws(older, gate, newer);
    PreorderLaws(newer, older, gate);
    PreorderLaws(newer, gate, older);
  }

  function VersionForGating(debug: bool, version: string): string {
    if debug then ENVD_DEBUG_FALLBACK else version
  }

  /** A named user wins; without one, envd infers the user exactly from the gate's version on. */
  method ResolveEnvdUser(version: string, requested: string) returns (user: string)
    ensures requested != "" ==> user == requested
    ensures requested == "" ==> user in {"", "user"} && (user == "" <==> Compare(version, "0.4.0") >= 0)
    ensures user == ResolvedUser(version, requested)
  {
    if requested != "" {
      return requested;
    }
    var order := CompareEnvdVersions(version, ENVD_DEFAULT_USER);
    return if order < 0 then DEFAULT_USER else "";
  }

  function ResolvedUser(version: string, requested: string): string {
    if requested != "" then requested
    else if Compare(version, ENVD_DEFAULT_USER) < 0 then DEFAULT_USER
    else ""
  }

  /** Once a build lets envd infer the user, every newer build does too; a named user always wins. */
  lemma ResolvedUserMonotone(older: string, newer: string, requested: string)
    requires Compare(newer, older) >= 0
    ensures ResolvedUser(older, requested) == "" ==> ResolvedUser(newer, requested) == ""
    ensures requested != "" ==> ResolvedUser(older, requested) == ResolvedUser(newer, requested) == requested
  {
    if ResolvedUser(older, requested) == "" {
      GateMonotone(older, newer, ENVD_DEFAULT_USER);
    }
  }

  lemma ThreeDigitsVersion(v: string, a: int, b: int, c: int)
    requires 0 <= a <= MAX_INT64 && 0 <= b <= MAX_INT64 && 0 <= c <= MAX_INT64
    requires v == Render(a) + "." + Render(b) + "." + Render(c)
    ensures Segments(v) == [a, b, c]
  {
    var segments := [a, b, c];
    assert Sequences.Map(Render, segments) == [Render(a), Render(b), Render(c)];
    Text.JoinThree(Render(a), Render(b), Render(c), '.');
    ParseOfRender("", segments, "");
    assert "" + RenderVersion(segments) + "" == v;
  }

  lemma FallbackSegments()
    ensures Segments(ENVD_DEBUG_FALLBACK) == [99, 99, 99]
  {
    assert Render(99) == "99" by { assert Digits(9) == "9"; }
    ThreeDigitsVersion(ENVD_DEBUG_FALLBACK, 99, 99, 99);
  }

  lemma GateSegments(gate: string, minor: int, patch: int)
    requires 0 <= minor < 10 && 0 <= patch < 10
    requires gate == "0." + [Digit(minor)] + "." + [Digit(patch)]
    ensures Segments(gate) == [0, minor, patch]
  {
    assert Render(0) == "0" && Render(minor) == [Digit(minor)] && Render(patch) == [Digit(patch)];
    assert gate == "0" + "." + [Digit(minor)] + "." + [Digit(patch)];
    ThreeDigitsVersion(gate, 0, minor, patch);
  }

  /** Outside debug mode the gates see the sandbox's own version. */
  lemma GatesSeeTheVersion(version: string)
    ensures VersionForGating(false, version) == version
    ensures VersionForGating(true, version) == "99.99.99"
  {
  }

  /** In debug mode every gate is open. */
  lemma DebugPassesEveryGate(gate: string, version: string)
    requires gate in {ENVD_RECURSIVE_WATCH, ENVD_DEFAULT_USER, ENVD_CLOSE, ENVD_OCTET_STREAM_UPLOAD}
    ensures Compare(VersionForGating(true, version), gate) > 0
  {
    hide Segments;
    FallbackSegments();
    if gate == ENVD_RECURSIVE_WATCH {
      GateSegments(gate, 1, 4);
    } else if gate == ENVD_DEFAULT_USER {
      GateSegments(gate, 4, 0);
    } else if gate == ENVD_CLOSE {
      GateSegments(gate, 5, 2);
    } else {
      GateSegments(gate, 5, 7);
    }
    assert Segment(Segments(gate), 0) == 0 < Segment(Segments(ENVD_DEBUG_FALLBACK), 0);
  }
}
