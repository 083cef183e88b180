/**
 * The tar upload (template/tar.go, template/build.go): a producer goroutine writes the archive into an
 * unbuffered pipe, the main goroutine hands the other end to an upload, closes it and collects the producer's
 * error. The tar and gzip formats are opaque: an entry is some bytes, and gzip is a buffer that may hold bytes
 * back until it is closed. Every interleaving is a run of steps.
 */
module TarPipe {
  import opened ByteStrings
  import opened Options

  datatype Error = Fs(message: string) | MissedWriting | WriteTooLong | ClosedPipe

  /** What addTarEntry meets: an error before the header is written, or a header and what reading the file gives. */
  datatype Source =
    | Unreadable(err: Error)
    | Item(header: Bytes, size: nat, body: Bytes, readErr: Option<Error>)

  datatype Listing = NotListed(err: Error) | Listed(files: seq<Source>)

  datatype Attempted = Attempted(bytes: Bytes, err: Option<Error>, missing: nat)

  /**
   * The bytes one addTarEntry writes, the error it returns when no write fails, and how many bytes its header
   * promised that never came. A new header is refused while the previous entry misses some.
   */
  function Attempt(missing: nat, s: Source): Attempted {
    if s.Unreadable? then Attempted([], Some(s.err), missing)
    else if missing > 0 then Attempted([], Some(MissedWriting), missing)
    else if |s.body| > s.size then Attempted(s.header + s.body[..s.size], Some(WriteTooLong), 0)
    else Attempted(s.header + s.body, s.readErr, s.size - |s.body|)
  }

  /** The file gave exactly the bytes its header promised. */
  predicate Complete(s: Source) { s.Item? && s.readErr == None && |s.body| == s.size }

  predicate Addable(s: Source) { s.Item? && s.readErr == None && |s.body| <= s.size }

  function Block(s: Source): Bytes { Attempt(0, s).bytes }

  function Blocks(files: seq<Source>, k: nat): Bytes
    requires k <= |files|
  {
    if k == 0 then [] else Blocks(files, k - 1) + Block(files[k - 1])
  }

  function Zeros(n: nat): Bytes { if n == 0 then [] else Zeros(n - 1) + [0] }

  /** The two zero blocks that end an archive. */
  function Trailer(): Bytes { Zeros(1024) }

  /** The whole archive: every entry in order, then the trailer. */
  function Archive(files: seq<Source>): Bytes { Blocks(files, |files|) + Trailer() }

  predicate AllComplete(files: seq<Source>) { forall i :: 0 <= i < |files| ==> Complete(files[i]) }

  predicate Broken(listing: Listing) { listing.NotListed? || !AllComplete(listing.files) }

  /** The first `k` entries were added without error. */
  predicate AddedOk(files: seq<Source>, k: nat)
    requires k <= |files|
  {
    forall i :: 0 <= i < k ==> Addable(files[i]) && (i + 1 < k ==> Complete(files[i]))
  }

  /** Some entry cannot be added at all; a file short of its size at the very end still can. */
  predicate Unaddable(listing: Listing) { listing.NotListed? || !AddedOk(listing.files, |listing.files|) }

  lemma UnaddableIsBroken(listing: Listing)
    ensures Unaddable(listing) ==> Broken(listing)
  {
    if listing.Listed? && AllComplete(listing.files) {
      assert forall i :: 0 <= i < |listing.files| ==> Complete(listing.files[i]);
    }
  }

  /** The producer's program counter, with the local errors of finalize. */
  datatype Phase =
    | Between
    | InEntry(err: Option<Error>)
    | Finalizing(err: Option<Error>)
    | InTrailer(err: Option<Error>, twErr: Option<Error>)
    | Flushing(err: Option<Error>, twErr: Option<Error>)
    | Flushed(err: Option<Error>, twErr: Option<Error>, gzErr: Option<Error>)
    | Reporting(result: Option<Error>)
    | Reported(result: Option<Error>)
    | Finished(result: Option<Error>)

  datatype Main =
    | Uploading
    | Returned(uploadErr: Option<Error>)
    | Draining(uploadErr: Option<Error>)
    | Received(uploadErr: Option<Error>, tarErr: Option<Error>)

  datatype Run = Run(
    listing: Listing,
    phase: Phase,
    added: nat,
    missing: nat,
    accepted: Bytes,       // all bytes given to gzip
    held: Bytes,           // of these, the ones gzip has not passed on
    gz: Option<Error>,         // gzip's sticky error
    writing: Bytes,        // the rest of the pipe write in progress
    consumed: Bytes,       // what the reader took
    readerClosed: bool,
    writerClosed: Option<Option<Error>>,
    errc: seq<Option<Error>>,
    errcClosed: bool,
    main: Main)

  function Init(listing: Listing): Run {
    Run(listing, Between, 0, 0, [], [], None, [], [], false, None, [], false, Uploading)
  }

  datatype Step =
    // the producer
    | Begin | Emit(n: nat) | WriteFails | EndEntry | Finalize | CloseTar | CloseGzip | FlushDone | ClosePipe
    | Send | CloseErrc
    // the upload and the main goroutine
    | Read(n: nat) | TransportCloses | UploadReturns(err: Option<Error>) | CloseReader | Receive

  predicate IsProducer(s: Step) {
    !(s.Read? || s.TransportCloses? || s.UploadReturns? || s.CloseReader? || s.Receive?)
  }

  predicate Writes(p: Phase) { p.InEntry? || p.InTrailer? || p.Flushing? }

  /** An archive that is closed short of bytes writes no trailer. */
  predicate WantsToWrite(p: Phase) { Writes(p) && (p.InTrailer? ==> p.twErr == None) }

  predicate Enabled(r: Run, s: Step) {
    match s
    case Begin => r.phase.Between? && r.listing.Listed? && r.added < |r.listing.files|
    case Emit(n) => WantsToWrite(r.phase) && r.gz == None && r.writing == [] && 0 < n <= |r.held|
    case WriteFails => Writes(r.phase) && r.writing != [] && r.readerClosed
    case EndEntry => r.phase.InEntry? && r.writing == []
    case Finalize => r.phase.Between? && (r.listing.Listed? ==> r.added == |r.listing.files|)
    case CloseTar => r.phase.Finalizing?
    case CloseGzip => r.phase.InTrailer? && r.writing == []
    case FlushDone => r.phase.Flushing? && r.writing == [] && r.held == []
    case ClosePipe => r.phase.Flushed?
    case Send => r.phase.Reporting? && r.errc == []
    case CloseErrc => r.phase.Reported?
    case Read(n) => !r.readerClosed && 0 < n <= |r.writing|
    case TransportCloses => !r.readerClosed
    case UploadReturns(_) => r.main.Uploading?
    case CloseReader => r.main.Returned?
    case Receive => r.main.Draining? && (r.errc != [] || r.errcClosed)
  }

  function FirstError(err: Option<Error>, twErr: Option<Error>, gzErr: Option<Error>): Option<Error> {
    if err.Some? then err else if twErr.Some? then twErr else gzErr
  }

  /** A failed pipe write returns from whatever was writing. */
  function AfterFailedWrite(p: Phase): Phase
    requires Writes(p)
  {
    match p
    case InEntry(_) => Finalizing(Some(ClosedPipe))
    case InTrailer(err, _) => InTrailer(err, Some(ClosedPipe))
    case Flushing(err, twErr) => Flushed(err, twErr, Some(ClosedPipe))
  }

  function Next(r: Run, s: Step): Run
    requires Enabled(r, s)
  {
    match s
    case Begin =>
      var a := Attempt(r.missing, r.listing.files[r.added]);
      r.(phase := InEntry(a.err), missing := a.missing, accepted := r.accepted + a.bytes, held := r.held + a.bytes)
    case Emit(n) => r.(writing := r.held[..n], held := r.held[n..])
    case WriteFails => r.(gz := Some(ClosedPipe), writing := [], held := [], phase := AfterFailedWrite(r.phase))
    case EndEntry =>
      if r.phase.err == None then r.(phase := Between, added := r.added + 1) else r.(phase := Finalizing(r.phase.err))
    case Finalize => r.(phase := Finalizing(if r.listing.NotListed? then Some(r.listing.err) else None))
    case CloseTar =>
      if r.gz.Some? then r.(phase := InTrailer(r.phase.err, r.gz))
      else if r.missing > 0 then r.(phase := InTrailer(r.phase.err, Some(MissedWriting)))
      else r.(phase := InTrailer(r.phase.err, None), accepted := r.accepted + Trailer(), held := r.held + Trailer())
    case CloseGzip =>
      r.(phase := if r.gz.Some? then Flushed(r.phase.err, r.phase.twErr, r.gz) else Flushing(r.phase.err, r.phase.twErr))
    case FlushDone => r.(phase := Flushed(r.phase.err, r.phase.twErr, None))
    case ClosePipe =>
      r.(writerClosed := Some(r.phase.err), phase := Reporting(FirstError(r.phase.err, r.phase.twErr, r.phase.gzErr)))
    case Send => r.(errc := [r.phase.result], phase := Reported(r.phase.result))
    case CloseErrc => r.(errcClosed := true, phase := Finished(r.phase.result))
    case Read(n) => r.(consumed := r.consumed + r.writing[..n], writing := r.writing[n..])
    case TransportCloses => r.(readerClosed := true)
    case UploadReturns(err) => r.(main := Returned(err))
    case CloseReader => r.(readerClosed := true, main := Draining(r.main.uploadErr))
    case Receive => r.(main := Received(r.main.uploadErr, if r.errc != [] then r.errc[0] else None), errc := [])
  }

  /** `k` entries were added, gzip took exactly their bytes, and nothing failed. */
  ghost predicate Good(r: Run, k: nat) {
    && r.gz == None && r.listing.Listed? && k <= |r.listing.files| && AddedOk(r.listing.files, k)
    && r.accepted == Blocks(r.listing.files, k)
    && r.missing == (if k == 0 then 0 else Attempt(0, r.listing.files[k - 1]).missing)
  }

  /** Every entry was added, although the last one may be short of its size. */
  ghost predicate AllAdded(r: Run) { r.listing.Listed? && AddedOk(r.listing.files, |r.listing.files|) }

  ghost predicate Whole(r: Run) {
    r.gz == None && !Broken(r.listing) && r.accepted == Archive(r.listing.files)
  }

  /** What the errors gathered by finalize(err) say; `first` is the one it will return. */
  ghost predicate Explains(r: Run, err: Option<Error>, first: Option<Error>) {
    && (err == None ==> AllAdded(r))
    && (err == None && r.gz == None && first.Some? ==> r.accepted == Blocks(r.listing.files, |r.listing.files|))
    && (first == None ==> Whole(r))
    && (first.Some? ==> r.gz.Some? || Broken(r.listing))
    && (err.Some? ==> first == err && (r.gz.Some? || Unaddable(r.listing)))
  }

  ghost predicate PhaseInv(r: Run) {
    match r.phase
    case Between => r.gz == None && r.writing == [] && (r.listing.Listed? ==> Good(r, r.added))
    case InEntry(err) =>
      && r.gz == None && (if err == None then Good(r, r.added + 1) else Unaddable(r.listing))
      && r.listing.Listed? && r.added < |r.listing.files|
    case Finalizing(err) =>
      if err == None then r.listing.Listed? && Good(r, |r.listing.files|) && r.writing == []
      else (r.gz.Some? || Unaddable(r.listing)) && r.writing == []
    case InTrailer(err, twErr) => Explains(r, err, FirstError(err, twErr, r.gz))
    case Flushing(err, twErr) => r.gz == None && Explains(r, err, FirstError(err, twErr, None))
    case Flushed(err, twErr, gzErr) =>
      gzErr == r.gz && r.writing == r.held == [] && Explains(r, err, FirstError(err, twErr, gzErr))
    case Reporting(result) => Closed(r, result)
    case Reported(result) => Closed(r, result)
    case Finished(result) => Closed(r, result)
  }

  ghost predicate Closed(r: Run, result: Option<Error>) {
    r.writing == r.held == [] && r.writerClosed.Some? && Explains(r, r.writerClosed.value, result)
  }

  predicate HasReported(p: Phase) { p.Reported? || p.Finished? }

  ghost predicate ChannelInv(r: Run) {
    && (r.errcClosed <==> r.phase.Finished?)
    && (HasReported(r.phase) ==>
          if r.main.Received? then r.errc == [] && r.main.tarErr == r.phase.result else r.errc == [r.phase.result])
    && (!HasReported(r.phase) ==> r.errc == [] && !r.main.Received?)
    && (r.main.Draining? || r.main.Received? ==> r.readerClosed)
  }

  ghost predicate ByteInv(r: Run) {
    && (r.gz == None ==> r.accepted == r.consumed + r.writing + r.held)
    && (r.gz.Some? ==> r.readerClosed && r.writing == [] && r.held == [])
    && (r.writerClosed.Some? <==> r.phase.Reporting? || HasReported(r.phase))
  }

  ghost predicate Inv(r: Run) { PhaseInv(r) && ChannelInv(r) && ByteInv(r) }

  ghost predicate CanRun(r: Run, steps: seq<Step>)
    decreases |steps|, 0
  {
    steps == [] ||
    (CanRun(r, steps[..|steps| - 1]) && Enabled(After(r, steps[..|steps| - 1]), steps[|steps| - 1]))
  }

  ghost function After(r: Run, steps: seq<Step>): (last: Run)
    requires CanRun(r, steps)
    decreases |steps|, 1
  {
    if steps == [] then r else Next(After(r, steps[..|steps| - 1]), steps[|steps| - 1])
  }

  lemma {:induction false} RunSnoc(r: Run, steps: seq<Step>, s: Step)
    requires CanRun(r, steps) && Enabled(After(r, steps), s)
    ensures CanRun(r, steps + [s]) && After(r, steps + [s]) == Next(After(r, steps), s)
  {
    var all := steps + [s];
    assert all[..|all| - 1] == steps && all[|all| - 1] == s;
  }

  // ---- the invariant ----

  /** A fully added prefix is complete except perhaps in its last entry. */
  lemma ShortMeansBroken(r: Run, k: nat)
    requires Good(r, k) && r.missing > 0
    ensures Broken(r.listing)
  {
    assert !Complete(r.listing.files[k - 1]);
  }

  lemma BeginKept(r: Run)
    requires PhaseInv(r) && Enabled(r, Begin)
    ensures PhaseInv(Next(r, Begin))
  {
    var files, after := r.listing.files, Next(r, Begin);
    if r.missing > 0 {
      assert !Complete(files[r.added - 1]);
    } else if after.phase.err == None {
      forall i | 0 <= i < r.added + 1
        ensures Addable(files[i]) && (i < r.added ==> Complete(files[i]))
      {
        assert r.added > 0 ==> Addable(files[r.added - 1]);
      }
      assert after.accepted == Blocks(files, r.added + 1);
    } else {
      assert !Addable(files[r.added]);
    }
  }

  lemma CloseTarKept(r: Run)
    requires PhaseInv(r) && Enabled(r, CloseTar)
    ensures PhaseInv(Next(r, CloseTar))
  {
    UnaddableIsBroken(r.listing);
    hide Unaddable;
    var err := r.phase.err;
    if err == None {
      var files := r.listing.files;
      if r.missing > 0 {
        ShortMeansBroken(r, |files|);
      } else {
        AllAddedIsComplete(r);
      }
    }
    hide Attempt, Blocks, Complete, Addable;
  }

  lemma AllAddedIsComplete(r: Run)
    requires r.listing.Listed? && Good(r, |r.listing.files|) && r.missing == 0
    ensures !Broken(r.listing)
  {
    var files := r.listing.files;
    assert files != [] ==> Addable(files[|files| - 1]);
  }

  lemma WritingKept(r: Run, s: Step)
    requires PhaseInv(r) && Enabled(r, s) && (s.Emit? || s.WriteFails? || s.EndEntry? || s.Finalize?)
    ensures PhaseInv(Next(r, s))
  {
    hide Attempt, Blocks, AllComplete, AddedOk, Trailer;
  }

  lemma ClosingKept(r: Run, s: Step)
    requires PhaseInv(r) && ByteInv(r) && Enabled(r, s) && (s.CloseGzip? || s.FlushDone? || s.ClosePipe?)
    ensures PhaseInv(Next(r, s))
  {
    hide Attempt, Blocks, Broken, AddedOk, Trailer;
  }

  lemma ReportingKept(r: Run, s: Step)
    requires PhaseInv(r) && Enabled(r, s) && (s.Send? || s.CloseErrc? || !IsProducer(s))
    ensures PhaseInv(Next(r, s))
  {
    hide Attempt, Blocks, Broken, AddedOk, Trailer, FirstError, AfterFailedWrite;
  }

  lemma PhaseKept(r: Run, s: Step)
    requires PhaseInv(r) && ByteInv(r) && Enabled(r, s)
    ensures PhaseInv(Next(r, s))
  {
    hide PhaseInv, ByteInv, Next, Enabled;
    if s.Begin? {
      BeginKept(r);
    } else if s.CloseTar? {
      CloseTarKept(r);
    } else if s.Emit? || s.WriteFails? || s.EndEntry? || s.Finalize? {
      WritingKept(r, s);
    } else if s.CloseGzip? || s.FlushDone? || s.ClosePipe? {
      ClosingKept(r, s);
    } else {
      ReportingKept(r, s);
    }
  }

  lemma ChannelKept(r: Run, s: Step)
    requires ChannelInv(r) && Enabled(r, s)
    ensures ChannelInv(Next(r, s))
  {
    hide Attempt, Blocks;
  }

  lemma AcceptingBytesKept(r: Run, s: Step)
    requires ByteInv(r) && PhaseInv(r) && Enabled(r, s) && (s.Begin? || s.CloseTar? || s.Emit?)
    ensures ByteInv(Next(r, s))
  {
    hide Attempt, Blocks, Broken, AddedOk, Good, Explains, Trailer;
    if s.Emit? {
      assert r.consumed + r.held[..s.n] + r.held[s.n..] == r.consumed + [] + r.held;
    }
  }

  lemma ProducerBytesKept(r: Run, s: Step)
    requires ByteInv(r) && PhaseInv(r) && Enabled(r, s) && IsProducer(s) && !(s.Begin? || s.CloseTar? || s.Emit?)
    ensures ByteInv(Next(r, s))
  {
    hide Attempt, Blocks, Broken, AddedOk, Good, Explains, Trailer;
  }

  lemma ReaderBytesKept(r: Run, s: Step)
    requires ByteInv(r) && Enabled(r, s) && !IsProducer(s)
    ensures ByteInv(Next(r, s))
  {
    if s.Read? {
      assert r.consumed + r.writing[..s.n] + r.writing[s.n..] + r.held == r.consumed + r.writing + r.held;
    }
  }

  /** Every step keeps the invariant. */
  lemma InvKept(r: Run, s: Step)
    requires Inv(r) && Enabled(r, s)
    ensures Inv(Next(r, s))
  {
    PhaseKept(r, s);
    ChannelKept(r, s);
    if s.Begin? || s.CloseTar? || s.Emit? {
      AcceptingBytesKept(r, s);
    } else if IsProducer(s) {
      ProducerBytesKept(r, s);
    } else {
      ReaderBytesKept(r, s);
    }
  }

  lemma {:induction false} InvHolds(listing: Listing, steps: seq<Step>)
    requires CanRun(Init(listing), steps)
    ensures Inv(After(Init(listing), steps)) && After(Init(listing), steps).listing == listing
  {
    hide Inv;
    if steps == [] {
      InitInv(listing);
    } else {
      var before := steps[..|steps| - 1];
      InvHolds(listing, before);
      InvKept(After(Init(listing), before), steps[|steps| - 1]);
    }
  }

  lemma InitInv(listing: Listing)
    ensures Inv(Init(listing))
  {
  }

  // ---- what every run does ----

  /** A nil error from the producer: every entry in full, in order, all of it taken by the reader. */
  lemma NilMeansComplete(listing: Listing, steps: seq<Step>)
    requires CanRun(Init(listing), steps)
    ensures var r := After(Init(listing), steps);
      r.main.Received? && r.main.tarErr == None ==>
        listing.Listed? && AllComplete(listing.files) && r.consumed == Archive(listing.files)
  {
    InvHolds(listing, steps);
    var r := After(Init(listing), steps);
    hide Archive, AllComplete, Blocks, AddedOk;
    assert r.main.Received? && r.main.tarErr == None ==> r.consumed + [] + [] == r.accepted;
  }

  /**
   * The producer's result, exactly: nil when the listing worked, every file gave what its header promised and
   * the reader was not closed under a write.
   */
  lemma ResultExactly(listing: Listing, steps: seq<Step>)
    requires CanRun(Init(listing), steps)
    ensures var r := After(Init(listing), steps);
      HasReported(r.phase) ==>
        && (r.phase.result == None <==> r.gz == None && !Broken(listing))
        && (r.phase.result == None ==> r.consumed == Archive(listing.files))
  {
    InvHolds(listing, steps);
    var r := After(Init(listing), steps);
    hide Archive, AllComplete, Blocks, AddedOk;
    assert r.consumed + [] + [] == r.consumed;
  }

  /** What the upload sees at the end of the pipe once the producer has closed it and the reader has not. */
  predicate SeesCleanEof(r: Run) { !r.readerClosed && r.writerClosed == Some(None) }

  /**
   * Once the producer has closed the pipe on an open reader, the upload sees a clean end of file if and only if
   * every entry could be added. The trailer is there exactly when the last file was not cut short; if it was, the
   * upload may be acknowledged and only the error channel tells.
   */
  lemma CleanEof(listing: Listing, steps: seq<Step>)
    requires CanRun(Init(listing), steps)
    requires !After(Init(listing), steps).readerClosed && After(Init(listing), steps).writerClosed.Some?
    ensures var r := After(Init(listing), steps);
      && (SeesCleanEof(r) <==> listing.Listed? && AddedOk(listing.files, |listing.files|))
      && (SeesCleanEof(r) ==>
            r.consumed == Blocks(listing.files, |listing.files|) + (if AllComplete(listing.files) then Trailer() else []))
  {
    InvHolds(listing, steps);
    var r := After(Init(listing), steps);
    assert r.consumed + [] + [] == r.consumed;
    hide AllComplete, Blocks, AddedOk, Trailer, CanRun, After;
  }

  /** The error channel delivers the producer's result, once, to the one receive. */
  lemma ReceivesTheResult(listing: Listing, steps: seq<Step>)
    requires CanRun(Init(listing), steps)
    ensures var r := After(Init(listing), steps);
      && |r.errc| <= 1
      && (r.main.Received? ==> HasReported(r.phase) && r.main.tarErr == r.phase.result && r.errc == [] && r.readerClosed)
  {
    InvHolds(listing, steps);
    hide PhaseInv, ByteInv;
  }

  /** The step the producer takes next when the reader is closed. */
  function ProducerStep(r: Run): Step {
    match r.phase
    case Between => if r.listing.Listed? && r.added < |r.listing.files| then Begin else Finalize
    case InEntry(_) => if r.writing != [] then WriteFails else EndEntry
    case Finalizing(_) => CloseTar
    case InTrailer(_, _) => if r.writing != [] then WriteFails else CloseGzip
    case Flushing(_, _) => if r.writing != [] then WriteFails else if r.held != [] then Emit(|r.held|) else FlushDone
    case Flushed(_, _, _) => ClosePipe
    case Reporting(_) => Send
    case _ => CloseErrc
  }

  /** Once the reader is closed the producer is never blocked. */
  lemma NeverBlockedAfterClose(r: Run)
    requires Inv(r) && r.readerClosed && !r.phase.Finished?
    ensures Enabled(r, ProducerStep(r))
  {
    hide Attempt, Blocks, Broken, AddedOk, Explains, ByteInv;
  }

  /** Steps the producer has left at most once the reader is closed. */
  function StepsLeft(r: Run): nat {
    var entries := if r.listing.Listed? && r.added < |r.listing.files| then |r.listing.files| - r.added else 0;
    var blocked := if r.writing != [] then 1 else 0;
    match r.phase
    case Between => 12 + 3 * entries
    case InEntry(_) => 11 + 3 * entries - blocked
    case Finalizing(_) => 10
    case InTrailer(_, _) => if r.gz.Some? then 7 else 9 - blocked
    case Flushing(_, _) => 6 - blocked
    case Flushed(_, _, _) => 4
    case Reporting(_) => 3
    case Reported(_) => 2
    case Finished(_) => 0
  }

  /** After a close, each producer step brings it nearer its end and no other step takes it away from it. */
  lemma StepsLeftShrinks(r: Run, s: Step)
    requires Inv(r) && r.readerClosed && Enabled(r, s)
    ensures if IsProducer(s) then StepsLeft(Next(r, s)) < StepsLeft(r) else StepsLeft(Next(r, s)) == StepsLeft(r)
    ensures Next(r, s).readerClosed
  {
    hide Attempt, Blocks, Broken, AddedOk, Explains, Trailer, ChannelInv, Good;
  }

  function ProducerSteps(steps: seq<Step>): nat {
    if steps == [] then 0
    else ProducerSteps(steps[..|steps| - 1]) + if IsProducer(steps[|steps| - 1]) then 1 else 0
  }

  /** After the close no run, however scheduled, has more producer steps than that. */
  lemma {:induction false} BoundedAfterClose(r: Run, steps: seq<Step>)
    requires Inv(r) && r.readerClosed && CanRun(r, steps)
    ensures Inv(After(r, steps)) && After(r, steps).readerClosed
    ensures ProducerSteps(steps) + StepsLeft(After(r, steps)) <= StepsLeft(r)
  {
    hide Inv, StepsLeft, Next, Enabled, IsProducer;
    if steps != [] {
      var last := |steps| - 1;
      BoundedAfterClose(r, steps[..last]);
      InvKept(After(r, steps[..last]), steps[last]);
      StepsLeftShrinks(After(r, steps[..last]), steps[last]);
    }
  }

  lemma {:induction false} RunCons(r: Run, s: Step, rest: seq<Step>)
    requires Enabled(r, s) && CanRun(Next(r, s), rest)
    ensures CanRun(r, [s] + rest) && After(r, [s] + rest) == After(Next(r, s), rest)
  {
    hide Next, Enabled;
    if rest == [] {
      RunSnoc(r, [], s);
      assert [s] + rest == [] + [s];
    } else {
      var last := |rest| - 1;
      RunCons(r, s, rest[..last]);
      RunSnoc(r, [s] + rest[..last], rest[last]);
      assert [s] + rest == ([s] + rest[..last]) + [rest[last]];
    }
  }

  /** Draining ends: from a closed reader the producer alone brings the receive its result. */
  lemma {:induction false} DrainEnds(r: Run) returns (steps: seq<Step>)
    requires Inv(r) && r.main.Draining?
    ensures CanRun(r, steps) && After(r, steps).main.Received? && |steps| <= StepsLeft(r) + 1
    ensures After(r, steps).main.uploadErr == r.main.uploadErr
    decreases StepsLeft(r)
  {
    hide PhaseInv, ByteInv;
    if r.errc != [] || r.errcClosed {
      RunCons(r, Receive, []);
      steps := [Receive] + [];
    } else {
      NeverBlockedAfterClose(r);
      var s := ProducerStep(r);
      InvKept(r, s);
      StepsLeftShrinks(r, s);
      MainUntouched(r, s);
      hide Inv, StepsLeft, Next, Enabled, ProducerStep;
      var rest := DrainEnds(Next(r, s));
      RunCons(r, s, rest);
      steps := [s] + rest;
    }
  }

  lemma MainUntouched(r: Run, s: Step)
    requires Enabled(r, s) && IsProducer(s)
    ensures Next(r, s).main == r.main
  {
  }

  /** Where the producer stands, with the entries it still has to begin or to end. */
  function Rank(r: Run): nat {
    var entries := if r.listing.Listed? && r.added < |r.listing.files| then |r.listing.files| - r.added else 0;
    match r.phase
    case Between => 9 + 2 * entries
    case InEntry(_) => 8 + 2 * entries
    case Finalizing(_) => 7
    case InTrailer(_, _) => 6
    case Flushing(_, _) => 5
    case Flushed(_, _, _) => 4
    case Reporting(_) => 3
    case Reported(_) => 2
    case Finished(_) => 0
  }

  /** What happens next when the reader takes every write in full. */
  function PatientStep(r: Run): Step {
    if r.writing != [] then Read(|r.writing|) else ProducerStep(r)
  }

  lemma PatientStepAdvances(r: Run)
    requires Inv(r) && !r.readerClosed && !r.phase.Finished?
    ensures Enabled(r, PatientStep(r))
    ensures var after := Next(r, PatientStep(r));
      && !after.readerClosed && after.main == r.main
      && (Rank(after) < Rank(r)
          || (Rank(after) == Rank(r) && |after.held| < |r.held|)
          || (Rank(after) == Rank(r) && |after.held| == |r.held| && |after.writing| < |r.writing|))
  {
    hide Attempt, Blocks, Broken, AddedOk, Explains, Trailer;
  }

  /** A reader that takes every write in full brings the producer to its end. */
  lemma {:induction false} PatientReader(r: Run) returns (steps: seq<Step>)
    requires Inv(r) && !r.readerClosed
    ensures CanRun(r, steps)
    ensures After(r, steps).phase.Finished? && !After(r, steps).readerClosed && After(r, steps).main == r.main
    decreases Rank(r), |r.held|, |r.writing|
  {
    hide Inv;
    if r.phase.Finished? {
      steps := [];
    } else {
      PatientStepAdvances(r);
      var s := PatientStep(r);
      InvKept(r, s);
      hide PatientStep, Next, Enabled, Rank, CanRun, After;
      var rest := PatientReader(Next(r, s));
      RunCons(r, s, rest);
      steps := [s] + rest;
    }
  }

  /**
   * For every listing there is an upload that reads to the end and returns what it saw there: it is acknowledged
   * after a clean end of file and fails after an error. Its step succeeds if and only if every file was complete.
   */
  lemma PatientUpload(listing: Listing) returns (steps: seq<Step>)
    ensures CanRun(Init(listing), steps)
    ensures var r := After(Init(listing), steps);
      && r.main.Received? && r.writerClosed == Some(r.main.uploadErr)
      && (r.main.uploadErr == None <==> listing.Listed? && AddedOk(listing.files, |listing.files|))
      && (r.main.uploadErr == None && r.main.tarErr == None <==> !Broken(listing))
  {
    var start := Init(listing);
    InitInv(listing);
    var read := PatientReader(start);
    InvHolds(listing, read);
    ResultExactly(listing, read);
    var r := After(start, read);
    assert r.writerClosed.Some?;
    CleanEof(listing, read);
    UnaddableIsBroken(listing);
    hide CanRun, After, PhaseInv, Broken, Archive, AddedOk;
    var seen := r.writerClosed.value;
    assert r.gz == None && r.errc == [r.phase.result];
    RunSnoc(start, read, UploadReturns(seen));
    var returned := read + [UploadReturns(seen)];
    RunSnoc(start, returned, CloseReader);
    var closed := returned + [CloseReader];
    RunSnoc(start, closed, Receive);
    steps := closed + [Receive];
  }

  /** Until the main goroutine has its result, somebody can always step; while it uploads, that is the upload. */
  lemma NoDeadlock(r: Run)
    requires Inv(r) && !r.main.Received?
    ensures exists s :: Enabled(r, s)
  {
    hide Attempt, Blocks, Broken, AddedOk, Explains, ByteInv;
    match r.main
    case Uploading => assert Enabled(r, UploadReturns(None));
    case Returned(_) => assert Enabled(r, CloseReader);
    case Draining(_) =>
      if r.phase.Finished? {
        assert Enabled(r, Receive);
      } else {
        NeverBlockedAfterClose(r);
      }
  }

  /** The only wait of the producer: a pipe write that the reader has neither taken nor refused. */
  lemma OnlyAWriteBlocks(r: Run)
    requires Inv(r) && !r.phase.Finished? && !r.readerClosed
    ensures (forall s :: IsProducer(s) ==> !Enabled(r, s)) <==> r.writing != []
  {
    hide Attempt, Blocks, Broken, AddedOk, Explains, Trailer;
    if r.writing == [] {
      assert Enabled(r, ProducerStep(r)) && IsProducer(ProducerStep(r));
    }
  }

  /** What the reader's side leaves alone: everything of the producer's except the pipe write in progress. */
  predicate Steady(a: Run, b: Run) {
    && b.listing == a.listing && b.phase == a.phase && b.added == a.added && b.missing == a.missing
    && b.accepted == a.accepted && b.held == a.held && b.gz == a.gz
    && b.writerClosed == a.writerClosed && b.errcClosed == a.errcClosed
    && (a.writing == [] ==> b.writing == []) && (a.readerClosed ==> b.readerClosed)
    && (a.errc == [] ==> b.errc == [])
  }

  /** The pipe, the archive writers and the error channel, as the producer's code changes them. */
  class TarUpload {
    const listing: Listing
    var missing: nat
    var held: Bytes
    var gz: Option<Error>
    var writing: Bytes
    var consumed: Bytes
    var readerClosed: bool
    var writerClosed: Option<Option<Error>>
    var errc: seq<Option<Error>>
    var errcClosed: bool
    var main: Main
    ghost var trace: seq<Step>

    ghost predicate Shows(r: Run)
      reads this
    {
      && r.listing == listing && r.missing == missing && r.held == held && r.gz == gz && r.writing == writing
      && r.consumed == consumed && r.readerClosed == readerClosed && r.writerClosed == writerClosed
      && r.errc == errc && r.errcClosed == errcClosed && r.main == main
    }

    ghost predicate Valid()
      reads this
    {
      CanRun(Init(listing), trace) && Shows(After(Init(listing), trace))
    }

    ghost function Now(): Run
      requires Valid()
      reads this
    {
      After(Init(listing), trace)
    }

    constructor (listing: Listing)
      ensures Valid() && this.listing == listing && Now() == Init(listing)
    {
      this.listing := listing;
      missing, held, gz, writing, consumed, readerClosed := 0, [], None, [], [], false;
      writerClosed, errc, errcClosed, main, trace := None, [], false, Uploading, [];
    }

    method ReadSome(n: nat)
      requires Valid() && !readerClosed && 0 < n <= |writing|
      modifies this
      ensures Valid() && Now() == Next(old(Now()), Read(n))
    {
      RunSnoc(Init(listing), trace, Read(n));
      consumed, writing := consumed + writing[..n], writing[n..];
      trace := trace + [Read(n)];
    }

    /** The main goroutine, after the upload call returned. */
    method CloseTheReader()
      requires Valid()
      modifies this
      ensures Valid() && Steady(old(Now()), Now())
    {
      if main.Returned? {
        RunSnoc(Init(listing), trace, CloseReader);
        hide CanRun, After;
        readerClosed, main := true, Draining(main.uploadErr);
        trace := trace + [CloseReader];
      }
    }

    /** The main goroutine, after that: the producer's error. */
    method ReceiveResult()
      requires Valid()
      modifies this
      ensures Valid() && Steady(old(Now()), Now())
    {
      if main.Draining? && (errc != [] || errcClosed) {
        RunSnoc(Init(listing), trace, Receive);
        hide CanRun, After;
        main := Received(main.uploadErr, if errc != [] then errc[0] else None);
        errc := [];
        trace := trace + [Receive];
      }
    }

    method EndUpload(err: Option<Error>)
      requires Valid()
      modifies this
      ensures Valid() && Steady(old(Now()), Now())
    {
      if main.Uploading? {
        RunSnoc(Init(listing), trace, UploadReturns(err));
        hide CanRun, After;
        main := Returned(err);
        trace := trace + [UploadReturns(err)];
      }
    }

    method CloseTransport()
      requires Valid()
      modifies this
      ensures Valid() && Steady(old(Now()), Now())
    {
      if !readerClosed {
        RunSnoc(Init(listing), trace, TransportCloses);
        hide CanRun, After;
        readerClosed := true;
        trace := trace + [TransportCloses];
      }
    }

    /** The upload and the main goroutine take any number of their steps. */
    method Others()
      requires Valid()
      modifies this
      ensures Valid() && Steady(old(Now()), Now())
    {
      hide CanRun, After;
      var steps: nat := *;
      while steps > 0
        invariant Valid() && Steady(old(Now()), Now())
      {
        if * {
          if !readerClosed && writing != [] {
            ReadSome(1);
          }
        } else if * {
          CloseTransport();
        } else if * {
          var err: Option<Error> := *;
          EndUpload(err);
        } else if * {
          CloseTheReader();
        } else {
          ReceiveResult();
        }
        steps := steps - 1;
      }
    }

    method StartWrite(n: nat)
      requires Valid() && Enabled(Now(), Emit(n))
      modifies this
      ensures Valid() && Now() == Next(old(Now()), Emit(n))
    {
      RunSnoc(Init(listing), trace, Emit(n));
      writing, held := held[..n], held[n..];
      trace := trace + [Emit(n)];
    }

    method FailWrite()
      requires Valid() && Enabled(Now(), WriteFails)
      modifies this
      ensures Valid() && Now() == Next(old(Now()), WriteFails)
    {
      RunSnoc(Init(listing), trace, WriteFails);
      gz, writing, held := Some(ClosedPipe), [], [];
      trace := trace + [WriteFails];
    }

    /** The wait inside a write. Whether it ends with a read or a close is the other side's choice. */
    method AwaitReader()
      requires Valid()
      modifies this
      ensures Valid() && Steady(old(Now()), Now()) && (writing == [] || readerClosed)
    {
      Others();
      if writing != [] && !readerClosed {
        ReadSome(|writing|);
      }
    }

    /** One blocking pipe write. */
    method WritePipe(n: nat) returns (failed: bool)
      requires Valid() && Enabled(Now(), Emit(n))
      modifies this
      ensures Valid()
      ensures if failed then Now().phase == AfterFailedWrite(old(Now().phase)) && gz == Some(ClosedPipe)
              else Now().phase == old(Now().phase) && gz == None && |held| < |old(held)|
      ensures writing == [] && Now().added == old(Now().added)
    {
      StartWrite(n);
      AwaitReader();
      hide CanRun, After, AfterFailedWrite;
      failed := writing != [];
      if failed {
        FailWrite();
      }
    }

    /** gzip passes on some of what it holds, or on Close all of it. */
    method Compress(all: bool) returns (failed: bool)
      requires Valid() && WantsToWrite(Now().phase) && gz == None && writing == []
      modifies this
      ensures Valid()
      ensures if failed then Now().phase == AfterFailedWrite(old(Now().phase)) && gz == Some(ClosedPipe)
              else Now().phase == old(Now().phase) && gz == None && (all ==> held == [])
      ensures writing == [] && Now().added == old(Now().added)
    {
      var more: bool := *;
      failed := false;
      while held != [] && (all || more)
        invariant Valid() && Now().phase == old(Now().phase) && gz == None && writing == []
        invariant Now().added == old(Now().added)
        decreases |held|
      {
        var n: nat := *;
        failed := WritePipe(if 0 < n <= |held| then n else |held|);
        if failed {
          return;
        }
        more := *;
      }
    }

    method AddTarEntry(f: Source) returns (err: Option<Error>)
      requires Valid() && Enabled(Now(), Begin) && f == listing.files[Now().added] && gz == None && writing == []
      modifies this
      ensures Valid() && writing == []
      ensures if err == None then Now().phase.Between? && Now().added == old(Now().added) + 1 && gz == None
              else Now().phase == Finalizing(err)
    {
      var a := Attempt(missing, f);
      RunSnoc(Init(listing), trace, Begin);
      missing, held := a.missing, held + a.bytes;
      trace := trace + [Begin];
      var failed := Compress(false);
      if failed {
        return Some(ClosedPipe);
      }
      Others();
      RunSnoc(Init(listing), trace, EndEntry);
      trace := trace + [EndEntry];
      return a.err;
    }

    method CloseTarWriter(ghost err: Option<Error>) returns (twErr: Option<Error>)
      requires Valid() && Now().phase == Finalizing(err) && writing == []
      modifies this
      ensures Valid() && Now().phase == InTrailer(err, twErr) && writing == []
    {
      RunSnoc(Init(listing), trace, CloseTar);
      twErr := if gz.Some? then gz else if missing > 0 then Some(MissedWriting) else None;
      held := if twErr == None then held + Trailer() else held;
      trace := trace + [CloseTar];
      if twErr == None {
        var failed := Compress(false);
        twErr := if failed then Some(ClosedPipe) else None;
      }
    }

    method CloseGzipWriter(ghost err: Option<Error>, ghost twErr: Option<Error>) returns (gzErr: Option<Error>)
      requires Valid() && Now().phase == InTrailer(err, twErr) && writing == []
      modifies this
      ensures Valid() && Now().phase == Flushed(err, twErr, gzErr)
    {
      RunSnoc(Init(listing), trace, CloseGzip);
      trace := trace + [CloseGzip];
      if gz.Some? {
        return gz;
      }
      var failed := Compress(true);
      if failed {
        return gz;
      }
      RunSnoc(Init(listing), trace, FlushDone);
      trace := trace + [FlushDone];
      return None;
    }

    method FinalizeWith(err: Option<Error>) returns (result: Option<Error>)
      requires Valid() && Now().phase == Finalizing(err) && writing == []
      modifies this
      ensures Valid() && Now().phase == Reporting(result)
    {
      var twErr := CloseTarWriter(err);
      var gzErr := CloseGzipWriter(err, twErr);
      RunSnoc(Init(listing), trace, ClosePipe);
      writerClosed := Some(err);
      trace := trace + [ClosePipe];
      return FirstError(err, twErr, gzErr);
    }

    method WriteTar() returns (result: Option<Error>)
      requires Valid() && trace == []
      modifies this
      ensures Valid() && Now().phase == Reporting(result)
      ensures writerClosed == Some(None) ==> listing.Listed? && AddedOk(listing.files, |listing.files|)
      ensures result == None <==> gz == None && !Broken(listing)
    {
      if listing.Listed? {
        for i := 0 to |listing.files|
          invariant Valid() && Now().phase.Between? && Now().added == i && gz == None && writing == []
        {
          var err := AddTarEntry(listing.files[i]);
          if err.Some? {
            result := FinalizeWith(err);
            InvHolds(listing, trace);
            return;
          }
        }
      }
      RunSnoc(Init(listing), trace, Finalize);
      trace := trace + [Finalize];
      result := FinalizeWith(if listing.NotListed? then Some(listing.err) else None);
      InvHolds(listing, trace);
    }

    method SendResult(result: Option<Error>)
      requires Valid() && Now().phase == Reporting(result)
      modifies this
      ensures Valid() && Now().phase == Reported(result)
    {
      InvHolds(listing, trace);
      hide PhaseInv, ByteInv;
      RunSnoc(Init(listing), trace, Send);
      hide CanRun, After;
      errc := [result];
      trace := trace + [Send];
    }

    method CloseErrorChannel(ghost result: Option<Error>)
      requires Valid() && Now().phase == Reported(result)
      modifies this
      ensures Valid() && Now().phase == Finished(result) && errcClosed
    {
      RunSnoc(Init(listing), trace, CloseErrc);
      hide CanRun, After;
      errcClosed := true;
      trace := trace + [CloseErrc];
    }

    /** The goroutine: report the result of writeTar and close the channel; the receive may come before or after. */
    method Produce() returns (result: Option<Error>)
      requires Valid() && trace == []
      modifies this
      ensures Valid() && Now().phase == Finished(result) && errcClosed
      ensures result == None <==> gz == None && !Broken(listing)
      ensures result == None ==> consumed == Archive(listing.files)
      ensures main.Received? ==> main.tarErr == result
    {
      hide CanRun, After, Archive, Broken, Next, Enabled;
      result := WriteTar();
      Others();
      SendResult(result);
      Others();
      CloseErrorChannel(result);
      ResultExactly(listing, trace);
      ReceivesTheResult(listing, trace);
    }
  }
}
