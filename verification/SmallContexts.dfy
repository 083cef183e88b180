/** Contexts with one or two files, for the inputs on which a promise fails. */
module SmallContexts {
  import opened ByteStrings
  import opened Files
  import opened FilesHash
  import opened Options
  import opened StringOrder
  import opened TarPipe
  import Decimal
  import Paths
  import Text

  const ROOT := "/ctx"

  function PathOf(name: string): string { At(ROOT, name) }

  /** A context in which every glob finds the one path "a". */
  function OneFile(file: File): Context {
    Context(Some(ROOT), _ => Some(["a"]), (pattern, rel) => Some(false), _ => Some("a"), map[PathOf("a") := file])
  }

  /** A context in which every glob finds "a" and "b". */
  function TwoFiles(a: File, b: File): Context {
    Context(Some(ROOT), _ => Some(["a", "b"]), (pattern, rel) => Some(false),
            path => if path == PathOf("b") then Some("b") else Some("a"),
            map[PathOf("a") := a, PathOf("b") := b])
  }

  /** A regular file that anyone may read, its size as its contents say. */
  function Plain(text: string): File {
    File(Info(Regular, 33188, |Utf8(text)|), None, None, Some(Utf8(text)))
  }

  function PlainRecord(name: string, text: string): Record {
    Record(name, Plain(text).info, None, Plain(text).data)
  }

  lemma PlainIsStable(text: string, other: string)
    ensures Stable(OneFile(Plain(text))) && Stable(TwoFiles(Plain(text), Plain(other)))
  {
    hide At;
  }

  lemma OneFileListed(file: File, src: string, ignores: seq<string>)
    ensures FileList(OneFile(file), src, ignores, true) == Some([PathOf("a")])
  {
    hide At;
    var c, p := OneFile(file), PathOf("a");
    var q := Query(c, ROOT, ignores, true);
    assert c.glob(src).value == ["a"] && !Fails(q, "a");
    assert Reaches(q, "a", p);
    forall x
      ensures x in [p] <==> Selected(q, src, x)
    {
      assert "a" in c.glob(src).value;
    }
    FileListIsTheOnly(c, src, ignores, true, [p]);
  }

  lemma FileReachesItself(q: Query, m: string, x: string)
    requires Lstat(q.c, At(q.root, m)).Some? && !IsDirectory(q, m)
    ensures Reaches(q, m, x) <==> x == At(q.root, m)
  {
  }

  lemma TwoFilesSelected(a: File, b: File, src: string, ignores: seq<string>, x: string)
    requires !a.info.kind.Directory? && !b.info.kind.Directory? && PathOf("a") != PathOf("b")
    ensures Selected(Query(TwoFiles(a, b), ROOT, ignores, true), src, x) <==> x == PathOf("a") || x == PathOf("b")
  {
    hide At;
    var q := Query(TwoFiles(a, b), ROOT, ignores, true);
    var ms := ["a", "b"];
    FileReachesItself(q, "a", x);
    FileReachesItself(q, "b", x);
    hide Reaches;
    assert q.c.glob(src) == Some(ms) && ms[0] in ms && ms[1] in ms;
    assert forall m :: m in ms ==> m == "a" || m == "b";
    assert !Ignored(q.c, "a", ignores) && !Ignored(q.c, "b", ignores);
  }

  lemma TwoFilesListed(a: File, b: File, src: string, ignores: seq<string>)
    requires !a.info.kind.Directory? && !b.info.kind.Directory?
    ensures FileList(TwoFiles(a, b), src, ignores, true) == Some([PathOf("a"), PathOf("b")])
  {
    PathsAscend();
    hide At, Le;
    var c, list := TwoFiles(a, b), [PathOf("a"), PathOf("b")];
    var q := Query(c, ROOT, ignores, true);
    assert !AnyFails(q, c.glob(src).value) by {
      hide Ignored;
    }
    assert StrictlyAscending(list);
    assert FileList(c, src, ignores, true).Some?;
    hide FileList, Selected, TwoFiles, StrictlyAscending;
    forall x
      ensures x in list <==> Selected(q, src, x)
    {
      TwoFilesSelected(a, b, src, ignores, x);
    }
    FileListIsTheOnly(c, src, ignores, true, list);
  }

  lemma PathsAscend()
    ensures Le(PathOf("a"), PathOf("b")) && PathOf("a") != PathOf("b")
  {
    PathOfName("a");
    PathOfName("b");
    LePrefix(ROOT + "/", "a", "b");
  }

  lemma {:induction false} LePrefix(p: string, a: string, b: string)
    ensures Le(p + a, p + b) <==> Le(a, b)
  {
    if p == "" {
      assert p + a == a && p + b == b;
    } else {
      assert (p + a)[1..] == p[1..] + a && (p + b)[1..] == p[1..] + b;
      LePrefix(p[1..], a, b);
    }
  }

  lemma PathParts(name: string)
    requires '/' !in name
    ensures Text.Split(ROOT + "/" + name, '/') == ["", "ctx", name]
  {
    hide Text.Split;
    Text.SplitConcat(ROOT, name, '/');
    Text.SplitWithoutSeparator(name, '/');
    assert ROOT == "" + ['/'] + "ctx";
    Text.SplitConcat("", "ctx", '/');
    Text.SplitWithoutSeparator("", '/');
    Text.SplitWithoutSeparator("ctx", '/');
  }

  lemma PartsWalked(rooted: bool, parts: seq<string>, name: string)
    requires rooted && parts == ["", "ctx", name] && Paths.IsName(name)
    ensures Paths.Walk(rooted, [], parts) == ["ctx", name]
  {
    var two := parts[..2];
    var one := two[..1];
    assert two[0] == "" && two[1] == "ctx" && one[0] == "" && one[..0] == [];
    assert Paths.Walk(rooted, [], one) == [];
    assert Paths.Walk(rooted, [], two) == [] + ["ctx"];
    assert Paths.Walk(rooted, [], parts) == ["ctx"] + [name];
  }

  lemma PathOfName(name: string)
    requires '/' !in name && Paths.IsName(name)
    ensures PathOf(name) == ROOT + "/" + name
  {
    var path, kept := ROOT + "/" + name, ["ctx", name];
    PathParts(name);
    assert Paths.IsAbs(path);
    PartsWalked(Paths.IsAbs(path), Text.Split(path, '/'), name);
    hide Text.Split, Paths.Walk;
    assert Paths.CleanSegments(path) == kept;
    assert kept[1..] == [name] && Text.Join([name], '/') == name;
    assert Text.Join(kept, '/') == kept[0] + ['/'] + Text.Join(kept[1..], '/');
    assert "/" + ("ctx" + ['/'] + name) == path;
  }

  lemma RecordsOfOne(c: Context, path: string, r: Record)
    requires HashRecord(c, false, path) == Some(r)
    ensures Records(c, false, [path]) == Some([r])
  {
    hide HashRecord;
    assert [path][..0] == [] && [] + [r] == [r];
  }

  lemma RecordsOfTwo(c: Context, path: string, other: string, r: Record, s: Record)
    requires HashRecord(c, false, path) == Some(r) && HashRecord(c, false, other) == Some(s)
    ensures Records(c, false, [path, other]) == Some([r, s])
  {
    RecordsOfOne(c, path, r);
    hide HashRecord;
    assert [path, other][..1] == [path] && [r] + [s] == [r, s];
  }

  lemma CoveredIs(c: Context, src: string, ignores: seq<string>, list: seq<string>, rs: seq<Record>)
    requires FileList(c, src, ignores, true) == Some(list) && list != [] && Records(c, false, list) == Some(rs)
    ensures Covered(c, src, ignores, false) == Some(rs)
  {
    hide FileList, Records;
  }

  lemma OneFileCovered(text: string, src: string, ignores: seq<string>)
    ensures Covered(OneFile(Plain(text)), src, ignores, false) == Some([PlainRecord("a", text)])
  {
    OneFileListed(Plain(text), src, ignores);
    hide FileList, At, Utf8;
    var c := OneFile(Plain(text));
    RecordsOfOne(c, PathOf("a"), PlainRecord("a", text));
    hide *;
    CoveredIs(c, src, ignores, [PathOf("a")], [PlainRecord("a", text)]);
  }

  lemma TwoFilesRecords(a: string, b: string)
    ensures var c := TwoFiles(Plain(a), Plain(b));
      && HashRecord(c, false, PathOf("a")) == Some(PlainRecord("a", a))
      && HashRecord(c, false, PathOf("b")) == Some(PlainRecord("b", b))
  {
    PathsAscend();
    hide At, Utf8, Le;
  }

  lemma TwoFilesCovered(a: string, b: string, src: string, ignores: seq<string>)
    ensures Covered(TwoFiles(Plain(a), Plain(b)), src, ignores, false)
         == Some([PlainRecord("a", a), PlainRecord("b", b)])
  {
    var c := TwoFiles(Plain(a), Plain(b));
    assert !Plain(a).info.kind.Directory? && !Plain(b).info.kind.Directory?;
    hide *;
    TwoFilesListed(Plain(a), Plain(b), src, ignores);
    TwoFilesRecords(a, b);
    RecordsOfTwo(c, PathOf("a"), PathOf("b"), PlainRecord("a", a), PlainRecord("b", b));
    CoveredIs(c, src, ignores, [PathOf("a"), PathOf("b")], [PlainRecord("a", a), PlainRecord("b", b)]);
  }

  const DANGLING := File(Info(Symlink, 41471, 4), Some("gone"), None, None)

  /** A dangling link that is to be followed: the step gets a hash, but its archive cannot be made. */
  lemma DanglingLinkHashesButDoesNotTar(f: Formats, src: string, dest: string, ignores: seq<string>)
    ensures var c := OneFile(DANGLING);
      && HashOf(c, f, src, dest, ignores, true).Some?
      && Broken(TarListing(c, f, src, ignores, true))
      && !Broken(TarListing(c, f, src, ignores, false))
  {
    var c, path := OneFile(DANGLING), PathOf("a");
    OneFileListed(DANGLING, src, ignores);
    hide FileList, At, Preimage;
    var paths := [path];
    assert paths[..|paths| - 1] == [];
    assert HashRecord(c, true, path).Some?;
    assert Records(c, true, paths).Some?;
    assert TarSource(c, f, true, path).Unreadable? && Complete(TarSource(c, f, false, path));
    assert !Complete(TarSources(c, f, true, paths)[0]);
  }

  // ---- two trees with the same bytes ----

  lemma Mode()
    ensures Decimal.Digits(33188) == "33188" && Decimal.Digits(12) == "12"
    ensures Decimal.Digits(1) == "1" && Decimal.Digits(5) == "5"
  {
    assert Decimal.Digits(33) == "33" by { assert Decimal.Digits(3) == "3"; }
    assert Decimal.Digits(331) == "331" && Decimal.Digits(3318) == "331" + "8";
  }

  const JOINED := "b331885hello"
  const HEAD := "2"
  const TAIL := "hello"

  lemma Ascii(s: string)
    requires forall i :: 0 <= i < |s| ==> s[i] as int < 0x80
    ensures |Utf8(s)| == |s|
  {
    if s != "" {
      Ascii(s[..|s| - 1]);
    }
  }

  lemma Utf8Four(a: string, b: string, c: string, d: string)
    ensures Utf8(a + b + c + d) == Utf8(a) + Utf8(b) + Utf8(c) + Utf8(d)
  {
    Utf8Concat(a + b + c, d);
    Utf8Concat(a + b, c);
    Utf8Concat(a, b);
  }

  lemma Regroup(n: Bytes, m: Bytes, s: Bytes, t: Bytes)
    ensures n + (m + s) + [] + t == n + m + s + t
  {
  }

  lemma PlainHashedBytes(name: string, text: string)
    ensures HashedBytes(PlainRecord(name, text))
         == Utf8(name + Decimal.Digits(33188) + Decimal.Digits(|Utf8(text)|) + text)
  {
    hide Utf8, Decimal.Digits;
    var (mode, size) := (Decimal.Digits(33188), Decimal.Digits(|Utf8(text)|));
    assert HashedBytes(PlainRecord(name, text)) == Utf8(name) + (Utf8(mode) + Utf8(size)) + [] + Utf8(text);
    Utf8Four(name, mode, size, text);
    hide HashedBytes;
    Regroup(Utf8(name), Utf8(mode), Utf8(size), Utf8(text));
  }

  lemma SizesAndMode()
    ensures |Utf8(JOINED)| == 12 && |Utf8(HEAD)| == 1 && |Utf8(TAIL)| == 5
    ensures Decimal.Digits(33188) == "33188" && Decimal.Digits(12) == "12"
    ensures Decimal.Digits(1) == "1" && Decimal.Digits(5) == "5"
  {
    Ascii(JOINED);
    Ascii(HEAD);
    Ascii(TAIL);
    Mode();
    hide Utf8, Decimal.Digits;
  }

  /** What the three files write to the running hash. */
  lemma TextsHashed()
    ensures HashedBytes(PlainRecord("a", JOINED)) == Utf8("a" + "33188" + "12" + "b331885hello")
    ensures HashedBytes(PlainRecord("a", HEAD)) == Utf8("a" + "33188" + "1" + "2")
    ensures HashedBytes(PlainRecord("b", TAIL)) == Utf8("b" + "33188" + "5" + "hello")
  {
    SizesAndMode();
    PlainHashedBytes("a", JOINED);
    PlainHashedBytes("a", HEAD);
    PlainHashedBytes("b", TAIL);
    hide Utf8, HashedBytes, Decimal.Digits, PlainRecord;
  }

  lemma TextsJoin()
    ensures "a" + "33188" + "12" + "b331885hello" == ("a" + "33188" + "1" + "2") + ("b" + "33188" + "5" + "hello")
  {
    hide *;
  }

  /** A file whose contents look like the end of it and a second file. */
  lemma SameHashedBytes()
    ensures HashedBytes(PlainRecord("a", JOINED)) == HashedBytes(PlainRecord("a", HEAD)) + HashedBytes(PlainRecord("b", TAIL))
  {
    hide *;
    TextsHashed();
    TextsJoin();
    Utf8Concat("a" + "33188" + "1" + "2", "b" + "33188" + "5" + "hello");
  }

  lemma PreimageOfOne(src: string, dest: string, r: Record)
    ensures Preimage(src, dest, [r]) == Preamble(src, dest) + HashedBytes(r)
  {
    hide HashedBytes, Preamble;
    assert [r][..0] == [];
    assert AllHashedBytes([r]) == [] + HashedBytes(r);
  }

  lemma PreimageOfTwo(src: string, dest: string, r: Record, s: Record)
    ensures Preimage(src, dest, [r, s]) == Preamble(src, dest) + (HashedBytes(r) + HashedBytes(s))
  {
    hide HashedBytes, Preamble;
    assert [r, s][..1] == [r] && [r][..0] == [];
    assert AllHashedBytes([r]) == [] + HashedBytes(r);
  }

  /**
   * One file "a" with twelve bytes, and two files "a" and "b" with one and five: the records differ, and what is
   * written to the running hash is the same.
   */
  lemma DifferentFieldsSameBytes(src: string, dest: string, ignores: seq<string>)
    ensures var one := Covered(OneFile(Plain(JOINED)), src, ignores, false);
      var two := Covered(TwoFiles(Plain(HEAD), Plain(TAIL)), src, ignores, false);
      && one.Some? && two.Some? && one != two
      && Preimage(src, dest, one.value) == Preimage(src, dest, two.value)
  {
    OneFileCovered(JOINED, src, ignores);
    TwoFilesCovered(HEAD, TAIL, src, ignores);
    hide Covered, PlainRecord, Preimage, HashedBytes, Preamble;
    SameHashedBytes();
    PreimageOfOne(src, dest, PlainRecord("a", JOINED));
    PreimageOfTwo(src, dest, PlainRecord("a", HEAD), PlainRecord("b", TAIL));
    assert |[PlainRecord("a", JOINED)]| == 1;
  }
}
