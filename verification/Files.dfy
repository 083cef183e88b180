/**
 * The file set of a COPY step: which paths it lists (template/files.go), what its hash covers (template/hash.go)
 * and what its archive carries (template/tar.go). The file system is a value, globbing is left open.
 */
module Files {
  import opened ByteStrings
  import opened Options
  import Paths
  import Sequences
  import opened StringOrder

  datatype FileKind = Directory | Regular | Symlink | Socket | Device

  datatype Info = Info(kind: FileKind, mode: nat, size: nat)

  /** What the file system says of a path: lstat, readlink, stat of a link, and the contents reached by reading. */
  datatype File = File(info: Info, link: Option<string>, followed: Option<Info>, data: Option<Bytes>)

  /** A build context; None stands for an error of the call. */
  datatype Context = Context(
    root: Option<string>,
    glob: string -> Option<seq<string>>,
    matches: (string, string) -> Option<bool>,
    relative: string -> Option<string>,
    tree: map<string, File>)

  function Lstat(c: Context, path: string): Option<Info> {
    if path in c.tree then Some(c.tree[path].info) else None
  }

  function Stat(c: Context, path: string): Option<Info> {
    if path !in c.tree then None
    else if c.tree[path].info.kind.Symlink? then c.tree[path].followed
    else Some(c.tree[path].info)
  }

  function Readlink(c: Context, path: string): Option<string> {
    if path in c.tree then c.tree[path].link else None
  }

  function ReadFile(c: Context, path: string): Option<Bytes> {
    if path in c.tree then c.tree[path].data else None
  }

  // ---- the file list ----

  /** A pattern that cannot be matched ignores nothing. */
  predicate Ignored(c: Context, rel: string, patterns: seq<string>) {
    exists i :: 0 <= i < |patterns| && c.matches(patterns[i], rel) == Some(true)
  }

  method IsIgnored(c: Context, rel: string, patterns: seq<string>) returns (ignored: bool)
    ensures ignored <==> Ignored(c, rel, patterns)
    ensures ignored <==> exists i :: 0 <= i < |patterns| && c.matches(patterns[i], rel) == Some(true)
  {
    for i := 0 to |patterns|
      invariant forall k :: 0 <= k < i ==> c.matches(patterns[k], rel) != Some(true)
    {
      if c.matches(patterns[i], rel) == Some(true) {
        return true;
      }
    }
    return false;
  }

  function At(root: string, rel: string): string { Paths.Clean(root + "/" + rel) }

  function Descendants(m: string): string { m + "/**/*" }

  /** What the loop reads: the context, its root, the ignore patterns and whether directories are listed. */
  datatype Query = Query(c: Context, root: string, ignores: seq<string>, includeDirs: bool)

  predicate IsDirectory(q: Query, m: string) {
    Lstat(q.c, At(q.root, m)).Some? && Lstat(q.c, At(q.root, m)).value.kind.Directory?
  }

  /** A matched directory whose descendants cannot be listed fails the whole call. */
  predicate Fails(q: Query, m: string) {
    !Ignored(q.c, m, q.ignores) && IsDirectory(q, m) && q.c.glob(Descendants(m)) == None
  }

  function Kept(q: Query, rels: seq<string>): set<string> {
    set s | s in rels && !Ignored(q.c, s, q.ignores) :: At(q.root, s)
  }

  /** The paths one match adds. */
  function Contribution(q: Query, m: string): set<string> {
    if Ignored(q.c, m, q.ignores) || Lstat(q.c, At(q.root, m)) == None then {}
    else if !IsDirectory(q, m) then {At(q.root, m)}
    else
      var below := q.c.glob(Descendants(m));
      (if q.includeDirs then {At(q.root, m)} else {}) + if below.Some? then Kept(q, below.value) else {}
  }

  function Collected(q: Query, ms: seq<string>): set<string> {
    if ms == [] then {} else Collected(q, ms[..|ms| - 1]) + Contribution(q, ms[|ms| - 1])
  }

  lemma {:induction false} CollectedFrom(q: Query, ms: seq<string>, p: string)
    ensures p in Collected(q, ms) <==> exists m :: m in ms && p in Contribution(q, m)
  {
    hide Contribution;
    if ms != [] {
      var last := |ms| - 1;
      CollectedFrom(q, ms[..last], p);
      assert ms == ms[..last] + [ms[last]];
    }
  }

  /** A listed path: a match that is not ignored, or an entry below a matched directory that is not ignored. */
  ghost predicate Selected(q: Query, src: string, p: string) {
    q.c.glob(src).Some? && exists m :: m in q.c.glob(src).value && !Ignored(q.c, m, q.ignores) && Reaches(q, m, p)
  }

  predicate Reaches(q: Query, m: string, p: string) {
    || (p == At(q.root, m) && Lstat(q.c, p).Some? && (IsDirectory(q, m) ==> q.includeDirs))
    || (IsDirectory(q, m) && q.c.glob(Descendants(m)).Some? &&
        exists s :: s in q.c.glob(Descendants(m)).value && !Ignored(q.c, s, q.ignores) && p == At(q.root, s))
  }

  lemma ContributionIsReach(q: Query, m: string, p: string)
    ensures p in Contribution(q, m) <==> !Ignored(q.c, m, q.ignores) && Reaches(q, m, p)
  {
    hide Ignored, At;
  }

  ghost predicate AnyFails(q: Query, ms: seq<string>) { exists i :: 0 <= i < |ms| && Fails(q, ms[i]) }

  ghost function FileList(c: Context, src: string, ignores: seq<string>, includeDirs: bool): Option<seq<string>> {
    if c.root == None || c.glob(src) == None then None
    else
      var q := Query(c, c.root.value, ignores, includeDirs);
      if AnyFails(q, c.glob(src).value) then None
      else Some(Sort(Sequences.Enumeration(Collected(q, c.glob(src).value))))
  }

  lemma SortedEnumerationAscends(listed: seq<string>, all: set<string>)
    requires Sequences.Enumerates(listed, all)
    ensures StrictlyAscending(Sort(listed))
    ensures forall p :: p in Sort(listed) <==> p in all
  {
    hide Le, Sort;
    Sequences.EnumerationAsMultiset(listed, all);
    var s := Sort(listed);
    forall p
      ensures p in s <==> p in all
    {
      assert p in s <==> p in multiset(s);
    }
    forall i, j | 0 <= i < j < |s|
      ensures s[i] != s[j]
    {
      assert multiset(s)[s[i]] <= 1;
      TwiceInMultiset(s, i, j);
    }
  }

  lemma TwiceInMultiset(s: seq<string>, i: nat, j: nat)
    requires i < j < |s|
    ensures s[i] == s[j] ==> multiset(s)[s[i]] >= 2
  {
    assert s == s[..j] + [s[j]] + s[j + 1..];
    assert s[..j][i] == s[i];
    assert s[i] in multiset(s[..j]);
  }

  /** The list is the strictly ascending, duplicate-free enumeration of the selected paths. */
  lemma FileListExactly(c: Context, src: string, ignores: seq<string>, includeDirs: bool)
    ensures var list := FileList(c, src, ignores, includeDirs);
      list.Some? ==>
        && StrictlyAscending(list.value)
        && forall p :: p in list.value <==> Selected(Query(c, c.root.value, ignores, includeDirs), src, p)
  {
    if FileList(c, src, ignores, includeDirs).Some? {
      var q, ms := Query(c, c.root.value, ignores, includeDirs), c.glob(src).value;
      var all := Collected(q, ms);
      SortedEnumerationAscends(Sequences.Enumeration(all), all);
      forall p
        ensures p in all <==> Selected(q, src, p)
      {
        CollectedFrom(q, ms, p);
        forall m
          ensures p in Contribution(q, m) <==> !Ignored(c, m, ignores) && Reaches(q, m, p)
        {
          ContributionIsReach(q, m, p);
        }
      }
    }
  }

  // The list once more, spelled out from the context alone.

  predicate Unmatched(c: Context, ignores: seq<string>, rel: string) {
    forall i :: 0 <= i < |ignores| ==> c.matches(ignores[i], rel) != Some(true)
  }

  predicate DirectoryAt(c: Context, path: string) { path in c.tree && c.tree[path].info.kind.Directory? }

  /** Entry `m` of the first glob puts `p` on the list: itself, or something below it. */
  predicate Lists(c: Context, ignores: seq<string>, includeDirs: bool, m: string, p: string)
    requires c.root.Some?
  {
    var path := Paths.Clean(c.root.value + "/" + m);
    && Unmatched(c, ignores, m)
    && path in c.tree
    && (|| (p == path && (DirectoryAt(c, path) ==> includeDirs))
        || (DirectoryAt(c, path) && c.glob(m + "/**/*").Some? &&
            (exists s :: s in c.glob(m + "/**/*").value
               && Unmatched(c, ignores, s) && p == Paths.Clean(c.root.value + "/" + s))))
  }

  /** Entry `m` is a directory below which the second glob fails. */
  predicate Breaks(c: Context, ignores: seq<string>, m: string)
    requires c.root.Some?
  {
    Unmatched(c, ignores, m) && DirectoryAt(c, Paths.Clean(c.root.value + "/" + m)) && c.glob(m + "/**/*") == None
  }

  lemma ListsIsReach(c: Context, root: string, ignores: seq<string>, includeDirs: bool, m: string, p: string)
    requires c.root == Some(root)
    ensures var q := Query(c, root, ignores, includeDirs);
      && (Lists(c, ignores, includeDirs, m, p) <==> !Ignored(c, m, ignores) && Reaches(q, m, p))
      && (Breaks(c, ignores, m) <==> Fails(q, m))
  {
    hide Paths.Clean;
  }

  /** The call fails exactly on a failing root or glob, and lists exactly what some entry lists. */
  lemma ListsExactly(c: Context, src: string, ignores: seq<string>, includeDirs: bool)
    ensures var list := FileList(c, src, ignores, includeDirs);
      && (list == None <==>
            c.root == None || c.glob(src) == None || exists m :: m in c.glob(src).value && Breaks(c, ignores, m))
      && (list.Some? ==> forall p ::
            p in list.value <==> exists m :: m in c.glob(src).value && Lists(c, ignores, includeDirs, m, p))
  {
    FileListExactly(c, src, ignores, includeDirs);
    if c.root.Some? && c.glob(src).Some? {
      var q := Query(c, c.root.value, ignores, includeDirs);
      forall m, p
        ensures Lists(c, ignores, includeDirs, m, p) <==> !Ignored(c, m, ignores) && Reaches(q, m, p)
        ensures Breaks(c, ignores, m) <==> Fails(q, m)
      {
        ListsIsReach(c, q.root, ignores, includeDirs, m, p);
      }
      hide Lists, Breaks, Reaches, Fails, Ignored;
      AnyFailsFrom(q, c.glob(src).value);
    }
  }

  /** No other list is strictly ascending and enumerates the selected paths. */
  lemma FileListIsTheOnly(c: Context, src: string, ignores: seq<string>, includeDirs: bool, other: seq<string>)
    requires FileList(c, src, ignores, includeDirs).Some? && StrictlyAscending(other)
    requires forall p :: p in other <==> Selected(Query(c, c.root.value, ignores, includeDirs), src, p)
    ensures other == FileList(c, src, ignores, includeDirs).value
  {
    FileListExactly(c, src, ignores, includeDirs);
    var list := FileList(c, src, ignores, includeDirs).value;
    hide FileList, Selected, StrictlyAscending;
    forall p
      ensures p in list <==> p in other
    {
    }
    AscendingUnique(list, other, set p | p in list);
  }

  /** The globs return the same paths, in any order and with any repetition. */
  ghost predicate SameGlobs(a: Context, b: Context) {
    forall pattern :: SameMatches(a.glob(pattern), b.glob(pattern))
  }

  ghost predicate SameMatches(a: Option<seq<string>>, b: Option<seq<string>>) {
    (a.Some? <==> b.Some?) && (a.Some? ==> forall m :: m in a.value <==> m in b.value)
  }

  lemma SameContribution(p: Query, q: Query, m: string)
    requires SameGlobs(p.c, q.c) && q == p.(c := p.c.(glob := q.c.glob))
    ensures Contribution(p, m) == Contribution(q, m) && (Fails(p, m) <==> Fails(q, m))
  {
    hide At;
    assert SameMatches(p.c.glob(Descendants(m)), q.c.glob(Descendants(m)));
    assert Ignored(p.c, m, p.ignores) <==> Ignored(q.c, m, q.ignores);
    if p.c.glob(Descendants(m)).Some? {
      SameKept(p, q, p.c.glob(Descendants(m)).value, q.c.glob(Descendants(m)).value);
    }
  }

  lemma SameKept(p: Query, q: Query, a: seq<string>, b: seq<string>)
    requires q == p.(c := p.c.(glob := q.c.glob)) && SameMatches(Some(a), Some(b))
    ensures Kept(p, a) == Kept(q, b)
  {
    hide At;
    forall s
      ensures Ignored(p.c, s, p.ignores) <==> Ignored(q.c, s, q.ignores)
    {
    }
  }

  /** The order and the overlap of the matches do not show in the list. */
  lemma MatchOrderIrrelevant(a: Context, b: Context, src: string, ignores: seq<string>, includeDirs: bool)
    requires SameGlobs(a, b) && b == a.(glob := b.glob)
    ensures FileList(a, src, ignores, includeDirs) == FileList(b, src, ignores, includeDirs)
  {
    assert SameMatches(a.glob(src), b.glob(src));
    if a.root.Some? && a.glob(src).Some? {
      var p, q := Query(a, a.root.value, ignores, includeDirs), Query(b, b.root.value, ignores, includeDirs);
      var (ms, ns) := (a.glob(src).value, b.glob(src).value);
      forall m
        ensures Contribution(p, m) == Contribution(q, m) && (Fails(p, m) <==> Fails(q, m))
      {
        SameContribution(p, q, m);
      }
      hide Contribution, Fails;
      forall x
        ensures x in Collected(p, ms) <==> x in Collected(q, ns)
      {
        CollectedFrom(p, ms, x);
        CollectedFrom(q, ns, x);
      }
      assert Collected(p, ms) == Collected(q, ns);
      AnyFailsFrom(p, ms);
      AnyFailsFrom(q, ns);
    }
  }

  lemma AnyFailsFrom(q: Query, ms: seq<string>)
    ensures AnyFails(q, ms) <==> exists m :: m in ms && Fails(q, m)
  {
    hide Fails;
  }

  method GetAllFilesInPath(c: Context, src: string, ignores: seq<string>, includeDirs: bool)
    returns (list: Option<seq<string>>)
    ensures list == FileList(c, src, ignores, includeDirs)
  {
    hide Contribution, Fails, Sort, Le, At, Ignored, Sequences.Enumeration;
    if c.root == None || c.glob(src) == None {
      return None;
    }
    var root, ms := c.root.value, c.glob(src).value;
    ghost var q := Query(c, root, ignores, includeDirs);
    var out: set<string> := {};
    for i := 0 to |ms|
      invariant out == Collected(q, ms[..i])
      invariant forall k :: 0 <= k < i ==> !Fails(q, ms[k])
    {
      assert ms[..i + 1][..i] == ms[..i];
      var m := ms[i];
      var failed, added := ExpandMatch(c, root, ignores, includeDirs, m);
      if failed {
        return None;
      }
      out := out + added;
    }
    assert ms[..|ms|] == ms;
    var result := SortedPaths(out);
    return Some(result);
  }

  /** The body of the loop over the matches: the paths it inserts. */
  method ExpandMatch(c: Context, root: string, ignores: seq<string>, includeDirs: bool, m: string)
    returns (failed: bool, added: set<string>)
    ensures failed <==> Fails(Query(c, root, ignores, includeDirs), m)
    ensures !failed ==> added == Contribution(Query(c, root, ignores, includeDirs), m)
  {
    hide At;
    ghost var q := Query(c, root, ignores, includeDirs);
    var ignored := IsIgnored(c, m, ignores);
    hide Ignored;
    if ignored {
      return false, {};
    }
    var abs := At(root, m);
    var info := Lstat(c, abs);
    if info == None {
      return false, {};
    }
    if !info.value.kind.Directory? {
      return false, {abs};
    }
    added := if includeDirs then {abs} else {};
    var sub := c.glob(Descendants(m));
    if sub == None {
      return true, {};
    }
    var kept := KeepEach(q, c, root, ignores, sub.value);
    return false, added + kept;
  }

  method KeepEach(ghost q: Query, c: Context, root: string, ignores: seq<string>, rels: seq<string>)
    returns (kept: set<string>)
    requires q.c == c && q.root == root && q.ignores == ignores
    ensures kept == Kept(q, rels)
  {
    hide At, Ignored;
    kept := {};
    for i := 0 to |rels|
      invariant kept == Kept(q, rels[..i])
    {
      assert rels[..i + 1] == rels[..i] + [rels[i]];
      var ignored := IsIgnored(c, rels[i], ignores);
      if !ignored {
        kept := kept + {At(root, rels[i])};
      }
    }
    assert rels[..|rels|] == rels;
  }

  /** Fills a slice from the map, in whatever order the map is iterated, and sorts it. */
  method SortedPaths(out: set<string>) returns (result: seq<string>)
    ensures result == Sort(Sequences.Enumeration(out))
  {
    hide Sort, Le;
    var rest, listed := out, [];
    while rest != {}
      invariant rest <= out && Sequences.Enumerates(listed, out - rest)
      decreases rest
    {
      var p :| p in rest;
      rest, listed := rest - {p}, listed + [p];
    }
    assert out - rest == out;
    Sequences.EnumerationAsMultiset(listed, out);
    Sequences.EnumerationAsMultiset(Sequences.Enumeration(out), out);
    result := Sort(listed);
    SortedUnique(result, Sort(Sequences.Enumeration(out)));
  }
}
