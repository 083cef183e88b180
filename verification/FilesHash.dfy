/**
 * The cache key of a COPY step (template/hash.go) and the archive uploaded for it (template/tar.go) over one
 * file list. SHA-256 and the tar header format stay open.
 */
module FilesHash {
  import opened ByteStrings
  import opened Options
  import opened TarPipe
  import opened Files
  import Decimal
  import Sequences

  /** What one file contributes: its name in the context, its attributes, and a link target or contents. */
  datatype Record = Record(name: string, info: Info, target: Option<string>, data: Option<Bytes>)

  /** The hash of what was written, and the header bytes of an entry without its contents. */
  datatype Formats = Formats(digest: Bytes -> string, header: (string, Info, Option<string>) -> Bytes)

  /** hash.go on one file: a link is followed if asked to and possible, and recorded as a link otherwise. */
  function HashRecord(c: Context, resolve: bool, path: string): Option<Record> {
    if c.relative(path) == None || Lstat(c, path) == None then None
    else
      var (name, lst) := (c.relative(path).value, Lstat(c, path).value);
      if lst.kind.Symlink? && !(resolve && Stat(c, path).Some?) then
        if Readlink(c, path) == None then None else Some(Record(name, lst, Readlink(c, path), None))
      else if Stat(c, path) == None then None
      else if !Stat(c, path).value.kind.Regular? then Some(Record(name, Stat(c, path).value, None, None))
      else if ReadFile(c, path) == None then None
      else Some(Record(name, Stat(c, path).value, None, ReadFile(c, path)))
  }

  function Stats(info: Info): Bytes { Utf8(Decimal.Digits(info.mode)) + Utf8(Decimal.Digits(info.size)) }

  /** What one file adds to the running hash: its fields one after the other, with nothing in between. */
  function HashedBytes(r: Record): Bytes {
    Utf8(r.name) + Stats(r.info)
    + (if r.target.Some? then Utf8(r.target.value) else [])
    + (if r.data.Some? then r.data.value else [])
  }

  /** The records of the files, in order; None as soon as one file cannot be read. */
  function Records(c: Context, resolve: bool, paths: seq<string>): Option<seq<Record>> {
    if paths == [] then Some([])
    else
      var last := |paths| - 1;
      var before, one := Records(c, resolve, paths[..last]), HashRecord(c, resolve, paths[last]);
      if before == None || one == None then None else Some(before.value + [one.value])
  }

  function AllHashedBytes(rs: seq<Record>): Bytes {
    if rs == [] then [] else AllHashedBytes(rs[..|rs| - 1]) + HashedBytes(rs[|rs| - 1])
  }

  function Preamble(src: string, dest: string): Bytes { Utf8("COPY " + src + " " + dest) }

  /** All that is written to the running hash. */
  function Preimage(src: string, dest: string, rs: seq<Record>): Bytes { Preamble(src, dest) + AllHashedBytes(rs) }

  /** The records a COPY step covers; an empty file set is an error. */
  ghost function Covered(c: Context, src: string, ignores: seq<string>, resolve: bool): Option<seq<Record>> {
    var list := FileList(c, src, ignores, true);
    if list == None || list.value == [] then None else Records(c, resolve, list.value)
  }

  /** The hash as the digest of the preamble and of every covered record. */
  ghost function HashOf(c: Context, f: Formats, src: string, dest: string, ignores: seq<string>, resolve: bool)
    : Option<string>
  {
    var covered := Covered(c, src, ignores, resolve);
    if covered == None then None else Some(f.digest(Preimage(src, dest, covered.value)))
  }

  lemma {:induction false} RecordsFailEarly(c: Context, resolve: bool, paths: seq<string>, k: nat)
    requires k < |paths| && HashRecord(c, resolve, paths[k]) == None
    ensures Records(c, resolve, paths) == None
  {
    hide HashRecord;
    var last := |paths| - 1;
    if k < last {
      RecordsFailEarly(c, resolve, paths[..last], k);
    }
  }

  /** One turn of the loop: what is written for one file, or an error. */
  method HashFile(c: Context, resolve: bool, path: string) returns (written: Option<Bytes>)
    ensures written == (match HashRecord(c, resolve, path) case None => None case Some(r) => Some(HashedBytes(r)))
  {
    hide Decimal.Digits, Utf8, Stats;
    var rel := c.relative(path);
    if rel == None {
      return None;
    }
    var h := Utf8(rel.value);
    var lst := Lstat(c, path);
    if lst == None {
      return None;
    }
    if lst.value.kind.Symlink? {
      var shouldFollow := resolve;
      if shouldFollow && Stat(c, path) == None {
        shouldFollow := false;
      }
      if !shouldFollow {
        h := h + Stats(lst.value);
        var target := Readlink(c, path);
        if target == None {
          return None;
        }
        h := h + Utf8(target.value);
        assert h + [] == h;
        return Some(h);
      }
    }
    var st := Stat(c, path);
    if st == None {
      return None;
    }
    h := h + Stats(st.value);
    assert h + [] == h;
    if st.value.kind.Regular? {
      var data := ReadFile(c, path);
      if data == None {
        return None;
      }
      h := h + data.value;
    }
    return Some(h);
  }

  /**
   * The bytes of one listed file, field by field: its name, its mode and size in decimal, and then the target of a link
   * that is kept as a link, the contents of a regular file, or nothing.
   */
  ghost predicate IsBlockOf(c: Context, resolve: bool, path: string, block: Bytes) {
    && path in c.tree && c.relative(path).Some?
    && var (file, name) := (c.tree[path], c.relative(path).value);
    if file.info.kind.Symlink? && !(resolve && file.followed.Some?) then
      && file.link.Some?
      && block == Utf8(name) + Utf8(Decimal.Digits(file.info.mode)) + Utf8(Decimal.Digits(file.info.size))
                  + Utf8(file.link.value)
    else
      var st := if file.info.kind.Symlink? then file.followed.value else file.info;
      && (st.kind.Regular? ==> file.data.Some?)
      && block == Utf8(name) + Utf8(Decimal.Digits(st.mode)) + Utf8(Decimal.Digits(st.size))
                  + (if st.kind.Regular? then file.data.value else [])
  }

  /** What cannot be hashed: a name or attributes that fail, a kept link or a regular file that cannot be read. */
  ghost predicate Unhashable(c: Context, resolve: bool, path: string) {
    || c.relative(path) == None || path !in c.tree
    || var file := c.tree[path];
       if file.info.kind.Symlink? && !(resolve && file.followed.Some?) then file.link == None
       else (if file.info.kind.Symlink? then file.followed.value else file.info).kind.Regular? && file.data == None
  }

  lemma BlockOfRecord(c: Context, resolve: bool, path: string)
    ensures HashRecord(c, resolve, path) == None <==> Unhashable(c, resolve, path)
    ensures HashRecord(c, resolve, path).Some? ==>
      IsBlockOf(c, resolve, path, HashedBytes(HashRecord(c, resolve, path).value))
  {
    hide Utf8, Decimal.Digits;
    if HashRecord(c, resolve, path).Some? {
      var r := HashRecord(c, resolve, path).value;
      Fields(Utf8(r.name), Utf8(Decimal.Digits(r.info.mode)), Utf8(Decimal.Digits(r.info.size)),
             if r.target.Some? then Utf8(r.target.value) else [], if r.data.Some? then r.data.value else []);
    }
  }

  lemma Fields(name: Bytes, mode: Bytes, size: Bytes, target: Bytes, data: Bytes)
    ensures name + (mode + size) + target + data == name + mode + size + target + data
    ensures data == [] ==> name + mode + size + target + data == name + mode + size + target
    ensures target == [] ==> name + mode + size + target + data == name + mode + size + data
  {
  }

  /** One block for each path, in order. */
  ghost predicate AreBlocksOf(c: Context, resolve: bool, paths: seq<string>, blocks: seq<Bytes>) {
    |blocks| == |paths| && forall k :: 0 <= k < |paths| ==> IsBlockOf(c, resolve, paths[k], blocks[k])
  }

  ghost predicate AnyUnhashable(c: Context, resolve: bool, paths: seq<string>) {
    exists k :: 0 <= k < |paths| && Unhashable(c, resolve, paths[k])
  }

  /** The loop over the files: each adds its block to the running hash. */
  method HashFiles(c: Context, resolve: bool, paths: seq<string>, h0: Bytes)
    returns (h: Option<Bytes>, ghost blocks: seq<Bytes>)
    ensures h == None <==> AnyUnhashable(c, resolve, paths)
    ensures h == None <==> Records(c, resolve, paths) == None
    ensures h.Some? ==>
      && AreBlocksOf(c, resolve, paths, blocks) && h == Some(h0 + Sequences.Flatten(blocks))
      && Sequences.Flatten(blocks) == AllHashedBytes(Records(c, resolve, paths).value)
  {
    hide HashRecord, HashedBytes, IsBlockOf, Unhashable, Sequences.Flatten, AllHashedBytes, Utf8;
    NoRecords(c, resolve, paths);
    NoBlocks();
    blocks := [];
    var sum := h0;
    assert sum == h0 + [];
    for i := 0 to |paths|
      invariant Records(c, resolve, paths[..i]).Some?
      invariant Sequences.Flatten(blocks) == AllHashedBytes(Records(c, resolve, paths[..i]).value)
      invariant sum == h0 + Sequences.Flatten(blocks)
      invariant AreBlocksOf(c, resolve, paths[..i], blocks)
      invariant forall k :: 0 <= k < i ==> !Unhashable(c, resolve, paths[k])
    {
      BlockOfRecord(c, resolve, paths[i]);
      var written := HashFile(c, resolve, paths[i]);
      if written == None {
        RecordsFailEarly(c, resolve, paths, i);
        return None, [];
      }
      RecordsSnoc(c, resolve, paths, i);
      hide Records;
      Sequences.FlattenSnoc(blocks, written.value);
      Appended(h0, Sequences.Flatten(blocks), written.value);
      sum, blocks := sum + written.value, blocks + [written.value];
    }
    assert paths[..|paths|] == paths;
    return Some(sum), blocks;
  }

  /** The digest is taken of "COPY", the source and the destination, and then of one block for each listed file. */
  method CalculateFilesHash(c: Context, f: Formats, src: string, dest: string, ignores: seq<string>, resolve: bool)
    returns (hash: Option<string>, ghost blocks: seq<Bytes>)
    ensures hash == HashOf(c, f, src, dest, ignores, resolve)
    ensures hash.Some? ==>
      var list := FileList(c, src, ignores, true);
      && list.Some? && list.value != [] && AreBlocksOf(c, resolve, list.value, blocks)
      && hash == Some(f.digest(Utf8("COPY ") + Utf8(src) + Utf8(" ") + Utf8(dest) + Sequences.Flatten(blocks)))
    ensures hash == None <==>
      var list := FileList(c, src, ignores, true);
      list == None || list.value == [] || AnyUnhashable(c, resolve, list.value)
  {
    PreambleInFull(src, dest);
    hide Utf8, FileList, Records, AllHashedBytes, AreBlocksOf, AnyUnhashable, Sequences.Flatten;
    var list := GetAllFilesInPath(c, src, ignores, true);
    if list == None || list.value == [] {
      return None, [];
    }
    var h;
    h, blocks := HashFiles(c, resolve, list.value, Preamble(src, dest));
    hash := if h.Some? then Some(f.digest(h.value)) else None;
  }

  lemma PreambleInFull(src: string, dest: string)
    ensures Preamble(src, dest) == Utf8("COPY ") + Utf8(src) + Utf8(" ") + Utf8(dest)
  {
    Utf8Concat("COPY " + src + " ", dest);
    Utf8Concat("COPY " + src, " ");
    Utf8Concat("COPY ", src);
  }

  lemma NoBlocks()
    ensures Sequences.Flatten<Byte>([]) == [] && AllHashedBytes([]) == []
  {
  }

  lemma NoRecords(c: Context, resolve: bool, paths: seq<string>)
    ensures Records(c, resolve, paths[..0]) == Some([])
  {
  }

  lemma Appended(a: Bytes, b: Bytes, c: Bytes)
    ensures a + b + c == a + (b + c)
  {
  }

  lemma RecordsSnoc(c: Context, resolve: bool, paths: seq<string>, i: nat)
    requires i < |paths| && Records(c, resolve, paths[..i]).Some? && HashRecord(c, resolve, paths[i]).Some?
    ensures var before, one := Records(c, resolve, paths[..i]).value, HashRecord(c, resolve, paths[i]).value;
      && Records(c, resolve, paths[..i + 1]) == Some(before + [one])
      && AllHashedBytes(before + [one]) == AllHashedBytes(before) + HashedBytes(one)
  {
    hide HashRecord, HashedBytes;
    assert paths[..i + 1][..i] == paths[..i];
    var before, one := Records(c, resolve, paths[..i]).value, HashRecord(c, resolve, paths[i]).value;
    assert (before + [one])[..|before|] == before;
  }

  // ---- the archive ----

  /** addTarEntry on one file: a link is followed if asked to, and that must then succeed. */
  function TarSource(c: Context, f: Formats, resolve: bool, path: string): Source {
    if c.relative(path) == None || Lstat(c, path) == None then Unreadable(Fs("path"))
    else
      var (name, lst) := (c.relative(path).value, Lstat(c, path).value);
      if lst.kind.Symlink? && !resolve then
        if Readlink(c, path) == None then Unreadable(Fs("readlink"))
        else Item(f.header(name, lst, Readlink(c, path)), 0, [], None)
      else if Stat(c, path) == None then Unreadable(Fs("stat"))
      else TarFollowed(c, f, name, Stat(c, path).value, path)
  }

  function TarFollowed(c: Context, f: Formats, name: string, st: Info, path: string): Source {
    if st.kind.Socket? then Unreadable(Fs("sockets not supported"))
    else if !st.kind.Regular? then Item(f.header(name, st, None), 0, [], None)
    else if ReadFile(c, path) == None then Item(f.header(name, st, None), st.size, [], Some(Fs("open")))
    else Item(f.header(name, st, None), st.size, ReadFile(c, path).value, None)
  }

  function TarSources(c: Context, f: Formats, resolve: bool, paths: seq<string>): (s: seq<Source>)
    ensures |s| == |paths|
    ensures forall i :: 0 <= i < |s| ==> s[i] == TarSource(c, f, resolve, paths[i])
  {
    seq(|paths|, i requires 0 <= i < |paths| => TarSource(c, f, resolve, paths[i]))
  }

  ghost function TarListing(c: Context, f: Formats, src: string, ignores: seq<string>, resolve: bool): Listing {
    var list := FileList(c, src, ignores, true);
    if list == None then NotListed(Fs("list")) else Listed(TarSources(c, f, resolve, list.value))
  }

  /** Regular files have the size their attributes say: nobody is writing to them. */
  ghost predicate Stable(c: Context) {
    forall path :: path in c.tree && Stat(c, path).Some? && Stat(c, path).value.kind.Regular? && ReadFile(c, path).Some?
      ==> |ReadFile(c, path).value| == Stat(c, path).value.size
  }

  /** What a tar can hold: anything but a socket, and a dangling link only as a link. */
  predicate Tarable(c: Context, resolve: bool, path: string) {
    Lstat(c, path).Some? &&
    if Lstat(c, path).value.kind.Symlink? && !resolve then true
    else Stat(c, path).Some? && !Stat(c, path).value.kind.Socket?
  }

  function RecordBytes(f: Formats, r: Record): Bytes {
    f.header(r.name, r.info, r.target) + if r.data.Some? then r.data.value else []
  }

  /** A hashed file goes into the archive as what the hash saw, or not at all. */
  lemma TarOfHashed(c: Context, f: Formats, resolve: bool, path: string)
    requires Stable(c) && HashRecord(c, resolve, path).Some?
    ensures Complete(TarSource(c, f, resolve, path)) <==> Tarable(c, resolve, path)
    ensures Tarable(c, resolve, path) ==>
      Block(TarSource(c, f, resolve, path)) == RecordBytes(f, HashRecord(c, resolve, path).value)
  {
  }

  /**
   * The entry of a file that can be hashed, spelled out: it is complete unless the file is a socket or a followed
   * dangling link, and then a link kept as a link is a header with its target, and anything else a header of what
   * the path leads to with the contents of a regular file.
   */
  lemma EntryExactly(c: Context, f: Formats, resolve: bool, path: string)
    requires Stable(c) && !Unhashable(c, resolve, path)
    ensures var (file, name, entry) := (c.tree[path], c.relative(path).value, TarSource(c, f, resolve, path));
      if file.info.kind.Symlink? && !resolve then
        Complete(entry) && Block(entry) == f.header(name, file.info, file.link)
      else if file.info.kind.Symlink? && file.followed == None then !Complete(entry)
      else
        var st := if file.info.kind.Symlink? then file.followed.value else file.info;
        && (Complete(entry) <==> !st.kind.Socket?)
        && (!st.kind.Socket? ==>
              Block(entry) == f.header(name, st, None) + if st.kind.Regular? then file.data.value else [])
  {
    BlockOfRecord(c, resolve, path);
    hide IsBlockOf, Utf8;
  }

  /** The bytes of the records, one after the other. */
  function AllBytes(f: Formats, rs: seq<Record>): Bytes {
    if rs == [] then [] else AllBytes(f, rs[..|rs| - 1]) + RecordBytes(f, rs[|rs| - 1])
  }

  lemma {:induction false} BlocksOfHashed(c: Context, f: Formats, resolve: bool, paths: seq<string>, k: nat)
    requires Stable(c) && k <= |paths| && Records(c, resolve, paths[..k]).Some?
    requires forall i :: 0 <= i < k ==> Tarable(c, resolve, paths[i])
    ensures Blocks(TarSources(c, f, resolve, paths), k) == AllBytes(f, Records(c, resolve, paths[..k]).value)
  {
    hide Tarable, HashRecord, TarSource, Block, RecordBytes, Stable;
    if k > 0 {
      assert paths[..k][..k - 1] == paths[..k - 1];
      BlocksOfHashed(c, f, resolve, paths, k - 1);
      TarOfHashed(c, f, resolve, paths[k - 1]);
      var rs := Records(c, resolve, paths[..k]).value;
      assert rs[..|rs| - 1] == Records(c, resolve, paths[..k - 1]).value;
    }
  }

  lemma {:induction false} HashedEach(c: Context, resolve: bool, paths: seq<string>, k: nat)
    requires k < |paths| && Records(c, resolve, paths).Some?
    ensures HashRecord(c, resolve, paths[k]).Some?
  {
    hide HashRecord;
    if HashRecord(c, resolve, paths[k]) == None {
      RecordsFailEarly(c, resolve, paths, k);
    }
  }

  ghost predicate AllTarable(c: Context, src: string, ignores: seq<string>, resolve: bool)
    requires FileList(c, src, ignores, true).Some?
  {
    forall path :: path in FileList(c, src, ignores, true).value ==> Tarable(c, resolve, path)
  }

  lemma CompleteExactly(c: Context, f: Formats, resolve: bool, paths: seq<string>)
    requires Stable(c) && Records(c, resolve, paths).Some?
    ensures AllComplete(TarSources(c, f, resolve, paths)) <==> forall path :: path in paths ==> Tarable(c, resolve, path)
  {
    hide HashRecord, TarSource, Tarable, Stable, Complete, Records;
    var sources := TarSources(c, f, resolve, paths);
    forall i | 0 <= i < |paths|
      ensures Complete(sources[i]) <==> Tarable(c, resolve, paths[i])
    {
      HashedEach(c, resolve, paths, i);
      TarOfHashed(c, f, resolve, paths[i]);
    }
  }

  /**
   * Over one unchanged tree, a step that could be hashed can be archived exactly when no listed file is a socket
   * or, with links followed, a dangling link; the archive then holds the hashed records, in the hashed order.
   */
  lemma ArchiveOfHashed(c: Context, f: Formats, src: string, ignores: seq<string>, resolve: bool)
    requires Stable(c) && Covered(c, src, ignores, resolve).Some?
    ensures !Broken(TarListing(c, f, src, ignores, resolve)) <==> AllTarable(c, src, ignores, resolve)
    ensures AllTarable(c, src, ignores, resolve) ==>
      Archive(TarListing(c, f, src, ignores, resolve).files)
      == AllBytes(f, Covered(c, src, ignores, resolve).value) + Trailer()
  {
    var paths := FileList(c, src, ignores, true).value;
    hide FileList, HashRecord, Records, TarSource, Tarable, Trailer, Stable, Complete;
    CompleteExactly(c, f, resolve, paths);
    assert paths[..|paths|] == paths;
    if AllTarable(c, src, ignores, resolve) {
      BlocksOfHashed(c, f, resolve, paths, |paths|);
    }
  }

  /**
   * The upload of a hashed step over an unchanged tree: acknowledged by the producer means that the server took
   * exactly the hashed records.
   */
  lemma UploadCarriesTheHashed(c: Context, f: Formats, src: string, ignores: seq<string>, resolve: bool,
                               steps: seq<Step>)
    requires CanRun(Init(TarListing(c, f, src, ignores, resolve)), steps)
    ensures var r := After(Init(TarListing(c, f, src, ignores, resolve)), steps);
      Stable(c) && Covered(c, src, ignores, resolve).Some? && r.main.Received? && r.main.tarErr == None ==>
        && AllTarable(c, src, ignores, resolve)
        && r.consumed == AllBytes(f, Covered(c, src, ignores, resolve).value) + Trailer()
  {
    if Stable(c) && Covered(c, src, ignores, resolve).Some? {
      hide Covered, AllTarable, TarListing, Trailer, Archive, Stable, CanRun, After;
      NilMeansComplete(TarListing(c, f, src, ignores, resolve), steps);
      ArchiveOfHashed(c, f, src, ignores, resolve);
    }
  }
}
