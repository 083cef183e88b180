/** Which error a tar upload reports: the first file at fault, unless the reader refused a write before. */
module TarErrors {
  import opened Options
  import opened TarPipe

  /** What stands in the way of file `i`: itself, or the bytes that the file before it did not give. */
  function FaultAt(files: seq<Source>, i: nat): Option<Error>
    requires i < |files|
  {
    var f := files[i];
    if f.Unreadable? then Some(f.err)
    else if i > 0 && CutShort(files[i - 1]) then Some(MissedWriting)
    else if |f.body| > f.size then Some(WriteTooLong)
    else f.readErr
  }

  predicate CutShort(s: Source) { s.Item? && |s.body| < s.size }

  /** The first fault among the first `k` files. */
  function FirstFault(files: seq<Source>, k: nat): Option<Error>
    requires k <= |files|
  {
    if k == 0 then None
    else if FirstFault(files, k - 1).Some? then FirstFault(files, k - 1)
    else FaultAt(files, k - 1)
  }

  /** What the loop over the files ends with, on a reader that takes everything. */
  function EntryFault(listing: Listing): Option<Error> {
    if listing.NotListed? then Some(listing.err) else FirstFault(listing.files, |listing.files|)
  }

  /** A last file without all its bytes is only noticed when the archive is closed. */
  function LastFault(listing: Listing): Option<Error> {
    if listing.Listed? && listing.files != [] && CutShort(listing.files[|listing.files| - 1]) then Some(MissedWriting)
    else None
  }

  function Diagnosis(listing: Listing): Option<Error> {
    if EntryFault(listing).Some? then EntryFault(listing) else LastFault(listing)
  }

  lemma {:induction false} FirstFaultStays(files: seq<Source>, i: nat, k: nat)
    requires i < k <= |files| && FirstFault(files, i) == None && FaultAt(files, i).Some?
    ensures FirstFault(files, k) == FaultAt(files, i)
  {
    hide FaultAt;
    if i + 1 < k {
      FirstFaultStays(files, i, k - 1);
    }
  }

  /** The reader refused a write in the middle of an entry. */
  ghost predicate RefusedInEntry(listing: Listing, steps: seq<Step>)
    requires CanRun(Init(listing), steps)
  {
    steps != [] &&
    var (before, last) := (steps[..|steps| - 1], steps[|steps| - 1]);
    RefusedInEntry(listing, before) || (last.WriteFails? && After(Init(listing), before).phase.InEntry?)
  }

  /** The error that ends the loop over the files. */
  function LoopError(listing: Listing, early: bool): Option<Error> {
    if early then Some(ClosedPipe) else EntryFault(listing)
  }

  function ResultOf(listing: Listing, early: bool, gz: Option<Error>): Option<Error> {
    if early then Some(ClosedPipe) else if Diagnosis(listing).Some? then Diagnosis(listing) else gz
  }

  predicate CloseNamed(r: Run, err: Option<Error>, twErr: Option<Error>) {
    err == None ==> twErr == LastFault(r.listing) || (LastFault(r.listing) == None && twErr == r.gz)
  }

  ghost predicate Named(r: Run, early: bool) {
    && r.gz in [None, Some(ClosedPipe)] && (early ==> r.gz.Some?)
    && (r.writerClosed.Some? ==> r.writerClosed == Some(LoopError(r.listing, early)))
    && match r.phase
       case Between =>
         !early && (r.listing.Listed? ==> r.added <= |r.listing.files| && FirstFault(r.listing.files, r.added) == None)
       case InEntry(err) =>
         && !early && r.listing.Listed? && r.added < |r.listing.files|
         && FirstFault(r.listing.files, r.added) == None && err == FaultAt(r.listing.files, r.added)
       case Finalizing(err) => err == LoopError(r.listing, early) && (early <==> r.gz.Some?)
       case InTrailer(err, twErr) =>
         err == LoopError(r.listing, early) && CloseNamed(r, err, twErr) && (r.writing != [] ==> twErr == None)
       case Flushing(err, twErr) => err == LoopError(r.listing, early) && CloseNamed(r, err, twErr) && r.gz == None
       case Flushed(err, twErr, gzErr) =>
         err == LoopError(r.listing, early) && CloseNamed(r, err, twErr) && gzErr == r.gz
       case Reporting(result) => result == ResultOf(r.listing, early, r.gz)
       case Reported(result) => result == ResultOf(r.listing, early, r.gz)
       case Finished(result) => result == ResultOf(r.listing, early, r.gz)
  }

  lemma BeginNamed(r: Run)
    requires Inv(r) && Named(r, false) && Enabled(r, Begin)
    ensures Named(Next(r, Begin), false)
  {
    var files := r.listing.files;
    hide CloseNamed, ResultOf, ChannelInv, ByteInv, Blocks, FirstFault;
    if r.added > 0 {
      assert Addable(files[r.added - 1]);
    }
  }

  lemma EndEntryNamed(r: Run)
    requires Inv(r) && Named(r, false) && Enabled(r, EndEntry)
    ensures Named(Next(r, EndEntry), false)
  {
    var files := r.listing.files;
    if r.phase.err.Some? {
      FirstFaultStays(files, r.added, |files|);
    }
    hide ChannelInv, ByteInv, Blocks, FaultAt, LastFault, Trailer, Good;
  }

  lemma CloseTarNamed(r: Run, early: bool)
    requires Inv(r) && Named(r, early) && Enabled(r, CloseTar)
    ensures Named(Next(r, CloseTar), early)
  {
    hide ChannelInv, ByteInv, Blocks, FirstFault, Trailer;
    if r.phase.err == None && r.listing.files != [] {
      var last := |r.listing.files| - 1;
      assert Addable(r.listing.files[last]);
    }
  }

  lemma StepNamed(r: Run, early: bool, s: Step)
    requires Inv(r) && Named(r, early) && Enabled(r, s)
    ensures Named(Next(r, s), early || (s.WriteFails? && r.phase.InEntry?))
  {
    if s.Begin? {
      BeginNamed(r);
    } else if s.EndEntry? {
      EndEntryNamed(r);
    } else if s.CloseTar? {
      CloseTarNamed(r, early);
    } else {
      hide ChannelInv, ByteInv, Blocks, FirstFault, FaultAt, LastFault, Trailer, Explains, Broken, AddedOk, Good;
    }
  }

  lemma {:induction false} NamedHolds(listing: Listing, steps: seq<Step>)
    requires CanRun(Init(listing), steps)
    ensures Named(After(Init(listing), steps), RefusedInEntry(listing, steps))
  {
    if steps != [] {
      hide Inv, Named;
      var last := |steps| - 1;
      NamedHolds(listing, steps[..last]);
      InvHolds(listing, steps[..last]);
      StepNamed(After(Init(listing), steps[..last]), RefusedInEntry(listing, steps[..last]), steps[last]);
    }
  }

  /**
   * What the producer reports, exactly: the closed pipe if the reader refused a write of an entry; otherwise the
   * listing's error, the first file at fault, or a last file cut short; otherwise a refusal of the closing writes.
   * The reader is told the same, but never of a last file cut short or of its own refusal of the closing writes.
   */
  lemma ErrorNamesTheFault(listing: Listing, steps: seq<Step>)
    requires CanRun(Init(listing), steps)
    ensures var (r, early) := (After(Init(listing), steps), RefusedInEntry(listing, steps));
      HasReported(r.phase) ==>
        && r.phase.result
           == (if early then Some(ClosedPipe) else if Diagnosis(listing).Some? then Diagnosis(listing) else r.gz)
        && r.gz in [None, Some(ClosedPipe)]
        && r.writerClosed == Some(if early then Some(ClosedPipe) else EntryFault(listing))
  {
    NamedHolds(listing, steps);
    InvHolds(listing, steps);
    hide PhaseInv, Diagnosis, EntryFault;
  }

  lemma {:induction false} ZerosAreZero(n: nat)
    ensures |Zeros(n)| == n && forall i :: 0 <= i < n ==> Zeros(n)[i] == 0
  {
    if n > 0 {
      ZerosAreZero(n - 1);
    }
  }

  /** The bytes of an entry: its header and the file, cut at the promised size; none for an unreadable file. */
  lemma EntryBytes(s: Source, missing: nat)
    ensures Block(s) == if s.Unreadable? then [] else s.header + if |s.body| <= s.size then s.body else s.body[..s.size]
    ensures missing > 0 ==> Attempt(missing, s).bytes == [] && Attempt(missing, s).missing == missing
  {
  }

  /** The trailer is two blocks of 512 zero bytes. */
  lemma TrailerIsTwoZeroBlocks()
    ensures |Trailer()| == 2 * 512 && forall i :: 0 <= i < |Trailer()| ==> Trailer()[i] == 0
  {
    ZerosAreZero(1024);
    hide Zeros;
  }
}
