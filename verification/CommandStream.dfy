/**
 * The command stream (command_handle.go): one goroutine consumes process events and fans them out, readers
 * take from three bounded channels, and any number of callers wait. Every interleaving is a run of steps.
 */
module CommandStream {
  import opened Options
  import Sequences

  type Chunk = string

  datatype Source = Stdout | Stderr | Pty

  datatype Event =
    | Empty
    | Start(pid: nat)
    | Data(source: Source, chunk: Chunk)
    | UnknownData
    | End(exitCode: int, error: string)
    | Keepalive

  const CAPACITY: nat := 32

  datatype Channel = Channel(queue: seq<Chunk>, closed: bool)

  datatype PerSource<T> = PerSource(stdout: T, stderr: T, pty: T) {
    function Get(s: Source): T {
      match s
      case Stdout => stdout
      case Stderr => stderr
      case Pty => pty
    }

    function Set(s: Source, x: T): (r: PerSource<T>)
      ensures r.Get(s) == x && forall o :: o != s ==> r.Get(o) == Get(o)
    {
      match s
      case Stdout => this.(stdout := x)
      case Stderr => this.(stderr := x)
      case Pty => this.(pty := x)
    }
  }

  datatype ExitStatus = ExitStatus(exitCode: int, error: string)

  /** What Wait returns once `done` is closed; `failed` is a CommandExitError beside the result. */
  datatype Outcome =
    | StreamFailed(err: string)
    | NoResult
    | Exited(status: ExitStatus, stdout: string, stderr: string, failed: bool)

  /** Where the goroutine is: between two of its atomic actions. */
  datatype Pc =
    | Receiving
    | Handling(event: Event)
    | Sending(source: Source, chunk: Chunk)
    | Failing(err: string)
    | Closing(closed: nat)

  /** The fields of a handle. */
  datatype Handle = Handle(
    pid: nat,
    stdout: string,
    stderr: string,
    result: Option<ExitStatus>,
    doneErr: Option<string>,
    done: bool,
    channels: PerSource<Channel>)

  /** A channel's history: what readers took, which chunks were queued, and how often the queue was full. */
  datatype Tap = Tap(read: seq<Chunk>, kept: seq<nat>, dropped: nat)

  /** A handle, its goroutine, and what has happened so far. */
  datatype Run = Run(
    h: Handle,
    pc: Pc,
    panicked: bool,
    received: seq<Event>,
    ended: Option<Option<string>>,
    taps: PerSource<Tap>,
    outcomes: seq<Outcome>)

  const OPEN := Channel([], false)
  const UNREAD := Tap([], [], 0)

  const NEW_HANDLE := Handle(0, "", "", None, None, false, PerSource(OPEN, OPEN, OPEN))

  const INIT := Run(NEW_HANDLE, Receiving, false, [], None, PerSource(UNREAD, UNREAD, UNREAD), [])

  datatype Step =
    | Receive(event: Event)
    | Update
    | TrySend
    | EndStream(err: Option<string>)
    | StoreError
    | Close
    | Read(source: Source)
    | Wait

  /** The four deferred closes, in the order they run: done first, stdout last. */
  const CLOSES: nat := 4

  predicate Enabled(r: Run, s: Step) {
    match s
    case Receive(_) => r.pc.Receiving?
    case EndStream(_) => r.pc.Receiving?
    case Update => r.pc.Handling?
    case TrySend => r.pc.Sending?
    case StoreError => r.pc.Failing?
    case Close => r.pc.Closing? && r.pc.closed < CLOSES
    case Read(source) => r.h.channels.Get(source).queue != []
    case Wait => r.h.done
  }

  /** The state change an event makes under the handle's lock. */
  function Apply(h: Handle, e: Event): Handle {
    match e
    case Start(pid) => h.(pid := pid)
    case Data(Stdout, chunk) => h.(stdout := h.stdout + chunk)
    case Data(Stderr, chunk) => h.(stderr := h.stderr + chunk)
    case End(code, error) => h.(result := Some(ExitStatus(code, error)))
    case _ => h
  }

  /** A channel send that gives up when the queue is full. */
  function Offer(c: Channel, chunk: Chunk): Channel {
    if |c.queue| < CAPACITY then c.(queue := c.queue + [chunk]) else c
  }

  /** Sending to a channel the goroutine has closed is a run-time panic. */
  function Send(r: Run, source: Source, chunk: Chunk): Run {
    var c, tap := r.h.channels.Get(source), r.taps.Get(source);
    var offered := |tap.kept| + tap.dropped;
    r.(h := r.h.(channels := r.h.channels.Set(source, Offer(c, chunk))),
       taps := r.taps.Set(source,
         if |c.queue| < CAPACITY then tap.(kept := tap.kept + [offered]) else tap.(dropped := tap.dropped + 1)),
       panicked := r.panicked || c.closed,
       pc := Receiving)
  }

  function CloseChannel(r: Run, source: Source): Run {
    var c := r.h.channels.Get(source);
    r.(h := r.h.(channels := r.h.channels.Set(source, c.(closed := true))), panicked := r.panicked || c.closed)
  }

  /** The next deferred close; closing twice would panic. */
  function CloseNext(r: Run): Run
    requires r.pc.Closing?
  {
    var next := r.(pc := Closing(r.pc.closed + 1));
    if r.pc.closed == 0 then next.(h := r.h.(done := true), panicked := r.panicked || r.h.done)
    else if r.pc.closed == 1 then CloseChannel(next, Pty)
    else if r.pc.closed == 2 then CloseChannel(next, Stderr)
    else CloseChannel(next, Stdout)
  }

  /** What Wait reads under the lock. */
  function WaitOutcome(h: Handle): Outcome {
    if h.doneErr.Some? then StreamFailed(h.doneErr.value)
    else if h.result == None then NoResult
    else Exited(h.result.value, h.stdout, h.stderr, h.result.value.exitCode != 0)
  }

  function Next(r: Run, s: Step): Run
    requires Enabled(r, s)
  {
    match s
    case Receive(e) => r.(pc := Handling(e), received := r.received + [e])
    case Update =>
      var e := r.pc.event;
      r.(h := Apply(r.h, e), pc := if e.Data? then Sending(e.source, e.chunk) else Receiving)
    case TrySend => Send(r, r.pc.source, r.pc.chunk)
    case EndStream(err) =>
      r.(ended := Some(err), pc := if err.Some? then Failing(err.value) else Closing(0))
    case StoreError => r.(h := r.h.(doneErr := Some(r.pc.err)), pc := Closing(0))
    case Close => CloseNext(r)
    case Read(source) =>
      var c, tap := r.h.channels.Get(source), r.taps.Get(source);
      r.(h := r.h.(channels := r.h.channels.Set(source, c.(queue := c.queue[1..]))),
         taps := r.taps.Set(source, tap.(read := tap.read + [c.queue[0]])))
    case Wait => r.(outcomes := r.outcomes + [WaitOutcome(r.h)])
  }

  // The handle as a function of the events received: an independent account of what it must hold.

  function Chunks(events: seq<Event>, source: Source): seq<Chunk> {
    if events == [] then []
    else
      var last := events[|events| - 1];
      Chunks(events[..|events| - 1], source)
      + if last.Data? && last.source == source then [last.chunk] else []
  }

  /** Each data event adds its chunk to its own source, in its place; no other event shows. */
  lemma {:induction false} ChunksExactly(before: seq<Event>, e: Event, after: seq<Event>, source: Source)
    ensures Chunks([], source) == []
    ensures Chunks(before + [e] + after, source) == Chunks(before, source)
      + (if e.Data? && e.source == source then [e.chunk] else []) + Chunks(after, source)
    decreases |after|
  {
    var all := before + [e] + after;
    if after == [] {
      assert all == before + [e] && all[..|all| - 1] == before;
    } else {
      var last := |after| - 1;
      assert all[..|all| - 1] == before + [e] + after[..last] && all[|all| - 1] == after[last];
      ChunksExactly(before, e, after[..last], source);
    }
  }

  function LastExit(events: seq<Event>): Option<ExitStatus> {
    if events == [] then None
    else
      var last := events[|events| - 1];
      if last.End? then Some(ExitStatus(last.exitCode, last.error)) else LastExit(events[..|events| - 1])
  }

  /** The process id of the last Start, and 0 before any. */
  function LastStart(events: seq<Event>): nat {
    if events == [] then 0
    else
      var last := events[|events| - 1];
      if last.Start? then last.pid else LastStart(events[..|events| - 1])
  }

  /** The outcome that a finished stream determines. */
  function Expected(events: seq<Event>, err: Option<string>): Outcome {
    if err.Some? then StreamFailed(err.value)
    else match LastExit(events)
      case None => NoResult
      case Some(status) =>
        Exited(status, Sequences.Flatten(Chunks(events, Stdout)), Sequences.Flatten(Chunks(events, Stderr)),
               status.exitCode != 0)
  }

  /** The events the handle's fields already reflect. */
  function Applied(r: Run): seq<Event> {
    if r.pc.Handling? && r.received != [] then r.received[..|r.received| - 1] else r.received
  }

  /** The chunks of a source whose send has been attempted. */
  function Offered(r: Run, source: Source): seq<Chunk> {
    var all := Chunks(Applied(r), source);
    if r.pc.Sending? && r.pc.source == source && all != [] then all[..|all| - 1] else all
  }

  /** `picked` is made of the elements of `all` at the ascending positions `kept`. */
  ghost predicate PickedFrom(picked: seq<Chunk>, all: seq<Chunk>, kept: seq<nat>) {
    && |picked| == |kept|
    && (forall i :: 0 <= i < |kept| ==> kept[i] < |all| && picked[i] == all[kept[i]])
    && (forall i, j :: 0 <= i < j < |kept| ==> kept[i] < kept[j])
  }

  ghost predicate TapInv(r: Run, source: Source) {
    var c, tap := r.h.channels.Get(source), r.taps.Get(source);
    && |c.queue| <= CAPACITY
    && |tap.kept| + tap.dropped == |Offered(r, source)|
    && PickedFrom(tap.read + c.queue, Offered(r, source), tap.kept)
  }

  function ClosesBefore(source: Source): nat {
    match source
    case Pty => 1
    case Stderr => 2
    case Stdout => 3
  }

  ghost predicate FieldsInv(r: Run) {
    && r.h.stdout == Sequences.Flatten(Chunks(Applied(r), Stdout))
    && r.h.stderr == Sequences.Flatten(Chunks(Applied(r), Stderr))
    && r.h.result == LastExit(Applied(r))
    && r.h.pid == LastStart(Applied(r))
  }

  ghost predicate ControlInv(r: Run) {
    && !r.panicked
    && (r.pc.Handling? ==> r.received != [] && r.received[|r.received| - 1] == r.pc.event)
    && (r.pc.Sending? ==> r.received != [] && r.received[|r.received| - 1] == Data(r.pc.source, r.pc.chunk))
    && (r.pc.Closing? ==> r.pc.closed <= CLOSES)
    && (r.ended.Some? <==> r.pc.Failing? || r.pc.Closing?)
    && (r.pc.Failing? ==> r.ended == Some(Some(r.pc.err)))
    && r.h.doneErr == (if r.pc.Closing? then r.ended.value else None)
    && (r.h.done <==> r.pc.Closing? && r.pc.closed > 0)
    && (forall s :: r.h.channels.Get(s).closed <==> r.pc.Closing? && r.pc.closed > ClosesBefore(s))
  }

  ghost predicate OutcomesInv(r: Run) {
    forall i :: 0 <= i < |r.outcomes| ==>
      r.ended.Some? && r.outcomes[i] == Expected(r.received, r.ended.value)
  }

  ghost predicate Inv(r: Run) {
    && ControlInv(r)
    && FieldsInv(r)
    && (forall s :: TapInv(r, s))
    && (r.outcomes != [] ==> r.h.done)
    && OutcomesInv(r)
  }

  // Runs.

  ghost predicate CanRun(r: Run, steps: seq<Step>)
    decreases |steps|, 0
  {
    steps == [] || (CanRun(r, steps[..|steps| - 1])
                    && Enabled(After(r, steps[..|steps| - 1]), steps[|steps| - 1]))
  }

  ghost function After(r: Run, steps: seq<Step>): Run
    requires CanRun(r, steps)
    decreases |steps|, 1
  {
    if steps == [] then r else Next(After(r, steps[..|steps| - 1]), steps[|steps| - 1])
  }

  lemma ControlKept(r: Run, s: Step)
    requires ControlInv(r) && Enabled(r, s)
    ensures ControlInv(Next(r, s))
  {
  }

  lemma AppliedNext(r: Run, s: Step)
    requires ControlInv(r) && Enabled(r, s)
    ensures Applied(Next(r, s)) == if s.Update? then Applied(r) + [r.pc.event] else Applied(r)
  {
    if s.Receive? {
      assert (r.received + [s.event])[..|r.received|] == r.received;
    }
    if s.Update? {
      assert r.received == r.received[..|r.received| - 1] + [r.pc.event];
    }
  }

  lemma ChunksSnoc(events: seq<Event>, e: Event, source: Source)
    ensures Chunks(events + [e], source)
         == Chunks(events, source) + if e.Data? && e.source == source then [e.chunk] else []
    ensures LastExit(events + [e])
         == if e.End? then Some(ExitStatus(e.exitCode, e.error)) else LastExit(events)
  {
    assert (events + [e])[..|events|] == events;
  }

  lemma FlattenChunksSnoc(events: seq<Event>, e: Event, source: Source)
    ensures Sequences.Flatten(Chunks(events + [e], source))
         == Sequences.Flatten(Chunks(events, source)) + if e.Data? && e.source == source then e.chunk else ""
  {
    ChunksSnoc(events, e, source);
    if e.Data? && e.source == source {
      Sequences.FlattenSnoc(Chunks(events, source), e.chunk);
    } else {
      assert Chunks(events, source) + [] == Chunks(events, source);
    }
  }

  lemma LastSnoc(events: seq<Event>, e: Event)
    ensures LastExit(events + [e]) == if e.End? then Some(ExitStatus(e.exitCode, e.error)) else LastExit(events)
    ensures LastStart(events + [e]) == if e.Start? then e.pid else LastStart(events)
  {
    assert (events + [e])[..|events|] == events;
  }

  /** Applying one more event under the lock. */
  lemma FieldsAfterEvent(h: Handle, events: seq<Event>, e: Event)
    requires h.stdout == Sequences.Flatten(Chunks(events, Stdout))
    requires h.stderr == Sequences.Flatten(Chunks(events, Stderr))
    requires h.result == LastExit(events) && h.pid == LastStart(events)
    ensures Apply(h, e).stdout == Sequences.Flatten(Chunks(events + [e], Stdout))
    ensures Apply(h, e).stderr == Sequences.Flatten(Chunks(events + [e], Stderr))
    ensures Apply(h, e).result == LastExit(events + [e]) && Apply(h, e).pid == LastStart(events + [e])
  {
    LastSnoc(events, e);
    hide Chunks, LastExit, LastStart, Sequences.Flatten;
    ChunksSnoc(events, e, Stdout);
    FlattenChunksSnoc(events, e, Stdout);
    FlattenChunksSnoc(events, e, Stderr);
  }

  lemma FieldsKept(r: Run, s: Step)
    requires ControlInv(r) && FieldsInv(r) && Enabled(r, s)
    ensures FieldsInv(Next(r, s))
  {
    AppliedNext(r, s);
    hide Chunks, LastExit, LastStart, Applied, Sequences.Flatten, ControlInv;
    if s.Update? {
      FieldsAfterEvent(r.h, Applied(r), r.pc.event);
      hide Apply;
    }
  }

  lemma OfferedNext(r: Run, s: Step, source: Source)
    requires ControlInv(r) && Enabled(r, s)
    ensures Offered(Next(r, s), source)
         == if s.TrySend? && r.pc.source == source then Offered(r, source) + [r.pc.chunk] else Offered(r, source)
  {
    AppliedNext(r, s);
    if s.Update? {
      ChunksSnoc(Applied(r), r.pc.event, source);
    }
    if s.TrySend? && r.pc.source == source {
      var before := r.received[..|r.received| - 1];
      assert r.received == before + [Data(source, r.pc.chunk)];
      ChunksSnoc(before, Data(source, r.pc.chunk), source);
    }
  }

  lemma TapAfterRead(r: Run, source: Source)
    requires ControlInv(r) && TapInv(r, source) && Enabled(r, Read(source))
    ensures TapInv(Next(r, Read(source)), source)
  {
    OfferedNext(r, Read(source), source);
    hide Offered, ControlInv;
    var c, tap := r.h.channels.Get(source), r.taps.Get(source);
    assert tap.read + [c.queue[0]] + c.queue[1..] == tap.read + c.queue;
  }

  lemma TapAfterSend(r: Run)
    requires ControlInv(r) && r.pc.Sending? && TapInv(r, r.pc.source)
    ensures TapInv(Next(r, TrySend), r.pc.source)
  {
    var source := r.pc.source;
    OfferedNext(r, TrySend, source);
    hide Offered, ControlInv;
    var c, tap, all := r.h.channels.Get(source), r.taps.Get(source), Offered(r, source);
    if |c.queue| < CAPACITY {
      assert tap.read + (c.queue + [r.pc.chunk]) == (tap.read + c.queue) + [r.pc.chunk];
      PickedSnoc(tap.read + c.queue, all, tap.kept, r.pc.chunk);
    }
  }

  lemma PickedSnoc(picked: seq<Chunk>, all: seq<Chunk>, kept: seq<nat>, chunk: Chunk)
    requires PickedFrom(picked, all, kept)
    ensures PickedFrom(picked + [chunk], all + [chunk], kept + [|all|])
  {
  }

  lemma TapUntouched(r: Run, s: Step, source: Source)
    requires Enabled(r, s) && s != Read(source) && !(s.TrySend? && r.pc.source == source)
    ensures Next(r, s).h.channels.Get(source).queue == r.h.channels.Get(source).queue
    ensures Next(r, s).taps.Get(source) == r.taps.Get(source)
  {
  }

  lemma TapKept(r: Run, s: Step, source: Source)
    requires ControlInv(r) && TapInv(r, source) && Enabled(r, s)
    ensures TapInv(Next(r, s), source)
  {
    if s == Read(source) {
      TapAfterRead(r, source);
    } else if s.TrySend? && r.pc.source == source {
      TapAfterSend(r);
    } else {
      OfferedNext(r, s, source);
      TapUntouched(r, s, source);
      hide Offered, ControlInv, PickedFrom, Next, Enabled;
    }
  }

  /** Once `done` is closed, what Wait reads is what the received events determine. */
  lemma OutcomeIsExpected(r: Run)
    requires ControlInv(r) && FieldsInv(r) && r.h.done
    ensures WaitOutcome(r.h) == Expected(r.received, r.ended.value)
  {
  }

  lemma OutcomesKept(r: Run, s: Step)
    requires Inv(r) && Enabled(r, s)
    ensures OutcomesInv(Next(r, s)) && (Next(r, s).outcomes != [] ==> Next(r, s).h.done)
  {
    if r.h.done {
      OutcomeIsExpected(r);
    }
    hide Expected, WaitOutcome;
  }

  /** Every step keeps the invariant. */
  lemma {:induction false} InvKept(r: Run, s: Step)
    requires Inv(r) && Enabled(r, s)
    ensures Inv(Next(r, s))
  {
    ControlKept(r, s);
    FieldsKept(r, s);
    OutcomesKept(r, s);
    forall source ensures TapInv(Next(r, s), source) {
      TapKept(r, s, source);
    }
    hide ControlInv, FieldsInv, TapInv, OutcomesInv;
  }

  lemma {:induction false} InvHolds(steps: seq<Step>)
    requires CanRun(INIT, steps)
    ensures Inv(After(INIT, steps))
  {
    if steps != [] {
      var before := steps[..|steps| - 1];
      InvHolds(before);
      hide Inv;
      InvKept(After(INIT, before), steps[|steps| - 1]);
    }
  }

  /** No run sends on a closed channel or closes one twice. */
  lemma NeverPanics(steps: seq<Step>)
    requires CanRun(INIT, steps)
    ensures !After(INIT, steps).panicked
  {
    InvHolds(steps);
  }

  /**
   * All Wait calls that observe `done`, in any run, return the same outcome: the stream's error, or else the
   * status of the last End event with all stdout and stderr chunks in the order received.
   */
  lemma WaitersAgree(steps: seq<Step>, i: nat, j: nat)
    requires CanRun(INIT, steps)
    requires i < |After(INIT, steps).outcomes| && j < |After(INIT, steps).outcomes|
    ensures var r := After(INIT, steps);
      r.ended.Some? && r.outcomes[i] == r.outcomes[j] == Expected(r.received, r.ended.value)
  {
    InvHolds(steps);
  }

  /** After `done` closes, no step of anyone changes what Wait would return. */
  lemma FinalBeforeDone(r: Run, s: Step)
    requires Inv(r) && r.h.done && Enabled(r, s)
    ensures var after := Next(r, s);
      && after.h.done && WaitOutcome(after.h) == WaitOutcome(r.h)
      && after.received == r.received && after.ended == r.ended
  {
    hide FieldsInv, TapInv, OutcomesInv;
  }

  /** Hence every Wait after `done`, however much later, returns the same. */
  lemma {:induction false} FinalForever(r: Run, steps: seq<Step>)
    requires Inv(r) && r.h.done && CanRun(r, steps)
    ensures var after := After(r, steps);
      && Inv(after) && after.h.done && WaitOutcome(after.h) == WaitOutcome(r.h)
      && after.received == r.received && after.ended == r.ended
  {
    hide Inv, WaitOutcome, Enabled, Next;
    if steps != [] {
      var last := |steps| - 1;
      FinalForever(r, steps[..last]);
      InvKept(After(r, steps[..last]), steps[last]);
      FinalBeforeDone(After(r, steps[..last]), steps[last]);
    }
  }

  /**
   * What a channel's readers got and can still get is an in-order part of the chunks offered, with at most 32
   * queued; nothing is missing as long as no send found the queue full.
   */
  lemma LossyInOrder(steps: seq<Step>, source: Source)
    requires CanRun(INIT, steps)
    ensures var r := After(INIT, steps);
      var c, tap := r.h.channels.Get(source), r.taps.Get(source);
      && |c.queue| <= 32
      && PickedFrom(tap.read + c.queue, Offered(r, source), tap.kept)
      && |tap.read + c.queue| + tap.dropped == |Offered(r, source)|
      && (tap.dropped == 0 <==> tap.read + c.queue == Offered(r, source))
  {
    InvHolds(steps);
    var r := After(INIT, steps);
    var c, tap := r.h.channels.Get(source), r.taps.Get(source);
    assert TapInv(r, source);
    if tap.dropped == 0 {
      PickedAll(tap.read + c.queue, Offered(r, source), tap.kept);
    }
  }

  /** A chunk is dropped exactly when 32 are queued; otherwise it joins the end of its own channel's queue. */
  lemma DroppedExactlyWhenFull(r: Run, source: Source)
    requires Enabled(r, TrySend)
    ensures var (before, after) := (r.h.channels.Get(source).queue, Next(r, TrySend).h.channels.Get(source).queue);
      var (tap, tap') := (r.taps.Get(source), Next(r, TrySend).taps.Get(source));
      if source != r.pc.source then after == before && tap' == tap
      else if |before| < 32 then after == before + [r.pc.chunk] && tap'.dropped == tap.dropped
      else after == before && tap'.dropped == tap.dropped + 1
  {
  }

  /** The handle's process id is that of the last Start whose update has been made, in every run. */
  lemma PidIsTheLastStart(steps: seq<Step>)
    requires CanRun(INIT, steps)
    ensures var r := After(INIT, steps);
      && (r.pc.Handling? ==> r.received != [])
      && r.h.pid == LastStart(if r.pc.Handling? then r.received[..|r.received| - 1] else r.received)
  {
    InvHolds(steps);
    hide LastStart, OutcomesInv, TapInv;
  }

  /** Only End events set the exit status, and the last one counts. */
  lemma {:induction false} ExitExactly(events: seq<Event>, i: nat)
    requires i < |events| && events[i].End? && forall j :: i < j < |events| ==> !events[j].End?
    ensures LastExit(events) == Some(ExitStatus(events[i].exitCode, events[i].error))
  {
    var last := |events| - 1;
    if i < last {
      ExitExactly(events[..last], i);
    }
  }

  lemma {:induction false} NoExit(events: seq<Event>)
    requires forall e :: e in events ==> !e.End?
    ensures LastExit(events) == None
  {
    if events != [] {
      var last := |events| - 1;
      assert events[last] in events;
      NoExit(events[..last]);
    }
  }

  /**
   * What every Wait returns: the stream's error if it ended with one; otherwise that there was no result, if no End
   * came; otherwise the status of the last End with all of stdout and stderr, failed unless the code is 0.
   */
  lemma {:induction false} OutcomeExactly(steps: seq<Step>, k: nat)
    requires CanRun(INIT, steps) && k < |After(INIT, steps).outcomes|
    ensures var (r, events) := (After(INIT, steps), After(INIT, steps).received);
      && r.ended.Some?
      && (r.ended.value.Some? ==> r.outcomes[k] == StreamFailed(r.ended.value.value))
      && (r.ended.value == None && (forall e :: e in events ==> !e.End?) ==> r.outcomes[k] == NoResult)
      && (r.ended.value == None ==>
            forall i :: 0 <= i < |events| && events[i].End? && (forall j :: i < j < |events| ==> !events[j].End?) ==>
              r.outcomes[k] == Exited(ExitStatus(events[i].exitCode, events[i].error),
                                      Sequences.Flatten(Chunks(events, Stdout)),
                                      Sequences.Flatten(Chunks(events, Stderr)), events[i].exitCode != 0))
  {
    InvHolds(steps);
    var r := After(INIT, steps);
    hide CanRun, After, TapInv, FieldsInv, Chunks, LastExit;
    if forall e :: e in r.received ==> !e.End? {
      NoExit(r.received);
    }
    forall i | 0 <= i < |r.received| && r.received[i].End? && (forall j :: i < j < |r.received| ==> !r.received[j].End?)
      ensures LastExit(r.received) == Some(ExitStatus(r.received[i].exitCode, r.received[i].error))
    {
      ExitExactly(r.received, i);
    }
  }

  /** The channels close after `done`: the terminal's first, then stderr's, then stdout's. */
  lemma CloseOrder(steps: seq<Step>)
    requires CanRun(INIT, steps)
    ensures var h := After(INIT, steps).h;
      && (h.channels.stdout.closed ==> h.channels.stderr.closed)
      && (h.channels.stderr.closed ==> h.channels.pty.closed)
      && (h.channels.pty.closed ==> h.done)
  {
    InvHolds(steps);
    var channels := After(INIT, steps).h.channels;
    assert channels.Get(Stdout) == channels.stdout && channels.Get(Stderr) == channels.stderr;
    assert channels.Get(Pty) == channels.pty;
    hide FieldsInv, OutcomesInv, TapInv;
  }

  /** Picking as many elements as there are picks them all. */
  lemma PickedAll(picked: seq<Chunk>, all: seq<Chunk>, kept: seq<nat>)
    requires PickedFrom(picked, all, kept) && |kept| == |all|
    ensures picked == all
  {
    AscendingIsIdentity(kept, |all|);
  }

  lemma {:induction false} AscendingIsIdentity(kept: seq<nat>, n: nat)
    requires |kept| == n
    requires forall i :: 0 <= i < n ==> kept[i] < n
    requires forall i, j :: 0 <= i < j < n ==> kept[i] < kept[j]
    ensures forall i :: 0 <= i < n ==> kept[i] == i
  {
    if n > 0 {
      assert forall i :: 0 <= i < n - 1 ==> kept[i] < kept[n - 1];
      AscendingIsIdentity(kept[..n - 1], n - 1);
      assert forall i :: 0 <= i < n - 1 ==> kept[i] == kept[..n - 1][i];
      assert n >= 2 ==> kept[n - 2] < kept[n - 1];
    }
  }

  // Progress: the goroutine never waits for a reader.

  predicate IsGoroutine(s: Step) { !s.Read? && !s.Wait? }

  /** Steps the goroutine still has to take before it asks the stream again, or before it ends. */
  function Remaining(pc: Pc): nat {
    match pc
    case Receiving => 0
    case Handling(_) => 2
    case Sending(_, _) => 1
    case Failing(_) => CLOSES + 1
    case Closing(k) => if k < CLOSES then CLOSES - k else 0
  }

  /** The goroutine's next step when it is not at the stream: always enabled, whatever readers did. */
  function OwnStep(pc: Pc): Step {
    match pc
    case Handling(_) => Update
    case Sending(_, _) => TrySend
    case Failing(_) => StoreError
    case _ => Close
  }

  predicate Finished(r: Run) { r.pc == Closing(CLOSES) }

  /** In every reachable state the goroutine is finished, waits on the stream only, or can move by itself. */
  lemma NeverWaitsForReaders(r: Run)
    requires Inv(r)
    ensures Finished(r) || r.pc.Receiving? || Enabled(r, OwnStep(r.pc))
  {
  }

  /** A goroutine step other than asking the stream comes nearer to its end; others do not touch it. */
  lemma StepsCountDown(r: Run, s: Step)
    requires Inv(r) && Enabled(r, s)
    ensures !IsGoroutine(s) ==> Next(r, s).pc == r.pc && Next(r, s).received == r.received && Next(r, s).ended == r.ended
    ensures IsGoroutine(s) && !s.Receive? && !s.EndStream? ==>
      Remaining(Next(r, s).pc) < Remaining(r.pc) && Next(r, s).received == r.received && Next(r, s).ended == r.ended
    ensures s.Receive? ==> Remaining(Next(r, s).pc) == 2 && |Next(r, s).received| == |r.received| + 1
    ensures s.EndStream? ==> Remaining(Next(r, s).pc) <= CLOSES + 1 && Next(r, s).ended.Some?
  {
  }

  function GoroutineSteps(steps: seq<Step>): nat {
    if steps == [] then 0
    else GoroutineSteps(steps[..|steps| - 1]) + if IsGoroutine(steps[|steps| - 1]) then 1 else 0
  }

  /**
   * After n events the goroutine has taken at most 3n steps, and at most six more once the stream has ended:
   * it finishes after finitely many stream events, whatever the readers do.
   */
  lemma {:induction false} GoroutineFinishes(steps: seq<Step>)
    requires CanRun(INIT, steps)
    ensures var r := After(INIT, steps);
      GoroutineSteps(steps) + Remaining(r.pc) <= 3 * |r.received| + if r.ended.Some? then CLOSES + 2 else 0
    ensures var r := After(INIT, steps);
      r.ended.Some? && Remaining(r.pc) == 0 ==> Finished(r)
  {
    InvHolds(steps);
    if steps != [] {
      var before := steps[..|steps| - 1];
      GoroutineFinishes(before);
      InvHolds(before);
      StepsCountDown(After(INIT, before), steps[|steps| - 1]);
      assert steps[|steps| - 1].EndStream? ==> After(INIT, before).ended == None;
    }
  }

  /** Left to itself the goroutine is back at the stream, or finished, after the steps it has left. */
  lemma {:induction false} ReachesTheStream(r: Run) returns (steps: seq<Step>)
    requires Inv(r)
    ensures CanRun(r, steps) && (After(r, steps).pc.Receiving? || Finished(After(r, steps)))
    ensures |steps| <= Remaining(r.pc) && forall s :: s in steps ==> IsGoroutine(s)
    decreases Remaining(r.pc)
  {
    hide Inv;
    if r.pc.Receiving? || Finished(r) {
      steps := [];
    } else {
      NeverWaitsForReaders(r);
      var s := OwnStep(r.pc);
      InvKept(r, s);
      StepsCountDown(r, s);
      hide Next, Enabled, OwnStep, CanRun, After;
      var rest := ReachesTheStream(Next(r, s));
      RunCons(r, s, rest);
      steps := [s] + rest;
    }
  }

  lemma {:induction false} RunCons(r: Run, s: Step, rest: seq<Step>)
    requires Enabled(r, s) && CanRun(Next(r, s), rest)
    ensures CanRun(r, [s] + rest) && After(r, [s] + rest) == After(Next(r, s), rest)
  {
    hide Next, Enabled;
    var all := [s] + rest;
    if rest == [] {
      assert all[..0] == [] && all == [s];
    } else {
      var last := |rest| - 1;
      RunCons(r, s, rest[..last]);
      assert all[..|all| - 1] == [s] + rest[..last] && all[|all| - 1] == rest[last];
    }
  }
}
