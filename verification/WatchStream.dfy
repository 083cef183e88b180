/**
 * The filesystem watch (watch_handle.go): one goroutine forwards events with a blocking send, callers read
 * them and may stop the watch. Every interleaving is a run of steps.
 */
module WatchStream {
  import opened Options

  datatype PbType = PbUnspecified | PbCreate | PbWrite | PbRemove | PbRename | PbChmod | PbOther(code: int)

  datatype EventType = FsUnspecified | FsCreate | FsWrite | FsRemove | FsRename | FsChmod

  datatype FsEvent = FsEvent(name: string, kind: EventType)

  datatype Message = Empty | Start | Keepalive | Filesystem(name: string, kind: PbType)

  function FsEventFromPb(t: PbType): EventType {
    match t
    case PbCreate => FsCreate
    case PbWrite => FsWrite
    case PbRemove => FsRemove
    case PbRename => FsRename
    case PbChmod => FsChmod
    case _ => FsUnspecified
  }

  /** Each known kind has its own counterpart; every other kind is unspecified. */
  lemma FsEventTypes(a: PbType, b: PbType)
    ensures FsEventFromPb(PbCreate) == FsCreate && FsEventFromPb(PbWrite) == FsWrite
    ensures FsEventFromPb(PbRemove) == FsRemove && FsEventFromPb(PbRename) == FsRename
    ensures FsEventFromPb(PbChmod) == FsChmod
    ensures FsEventFromPb(a) == FsUnspecified <==> a.PbUnspecified? || a.PbOther?
    ensures FsEventFromPb(a) == FsEventFromPb(b) != FsUnspecified ==> a == b
  {
  }

  const CAPACITY: nat := 32

  /** The deferred closes, in the order they run: done, then events. */
  const CLOSES: nat := 2

  datatype Pc =
    | Receiving
    | Handling(message: Message)
    | Sending(event: FsEvent)
    | Failing(err: string)
    | Closing(closed: nat)

  /** The fields of a handle; a buffered channel is its queue and whether it is closed. */
  datatype Handle = Handle(queue: seq<FsEvent>, closed: bool, done: bool, cancelled: bool, err: Option<string>)

  datatype Run = Run(
    h: Handle,
    pc: Pc,
    panicked: bool,
    received: seq<Message>,
    ended: Option<Option<string>>,
    read: seq<FsEvent>,
    seen: seq<Option<string>>) // what Err returned to callers whose Stop had returned nil

  const NEW_HANDLE := Handle([], false, false, false, None)

  const INIT := Run(NEW_HANDLE, Receiving, false, [], None, [], [])

  datatype Step =
    | Receive(message: Message)
    | Dispatch
    | Send
    | EndStream(err: Option<string>)
    | StoreError
    | Close
    | Read
    | Cancel
    | StopReturns

  predicate Enabled(r: Run, s: Step) {
    match s
    case Receive(_) => r.pc.Receiving?
    case EndStream(_) => r.pc.Receiving?
    case Dispatch => r.pc.Handling?
    case Send => r.pc.Sending? && |r.h.queue| < CAPACITY
    case StoreError => r.pc.Failing?
    case Close => r.pc.Closing? && r.pc.closed < CLOSES
    case Read => r.h.queue != []
    case Cancel => true
    case StopReturns => r.h.done
  }

  function Next(r: Run, s: Step): Run
    requires Enabled(r, s)
  {
    match s
    case Receive(m) => r.(pc := Handling(m), received := r.received + [m])
    case Dispatch =>
      var m := r.pc.message;
      r.(pc := if m.Filesystem? then Sending(FsEvent(m.name, FsEventFromPb(m.kind))) else Receiving)
    case Send =>
      r.(h := r.h.(queue := r.h.queue + [r.pc.event]), panicked := r.panicked || r.h.closed, pc := Receiving)
    case EndStream(err) =>
      r.(ended := Some(err), pc := if err.Some? then Failing(err.value) else Closing(0))
    case StoreError => r.(h := r.h.(err := Some(r.pc.err)), pc := Closing(0))
    case Close =>
      if r.pc.closed == 0 then
        r.(h := r.h.(done := true), panicked := r.panicked || r.h.done, pc := Closing(1))
      else
        r.(h := r.h.(closed := true), panicked := r.panicked || r.h.closed, pc := Closing(2))
    case Read => r.(h := r.h.(queue := r.h.queue[1..]), read := r.read + [r.h.queue[0]])
    case Cancel => r.(h := r.h.(cancelled := true))
    case StopReturns => r.(seen := r.seen + [r.h.err])
  }

  /** The events that a stream prefix carries, in order. */
  function Mapped(messages: seq<Message>): seq<FsEvent> {
    if messages == [] then []
    else
      var last := messages[|messages| - 1];
      Mapped(messages[..|messages| - 1])
      + if last.Filesystem? then [FsEvent(last.name, FsEventFromPb(last.kind))] else []
  }

  /** Each filesystem message is one event with its name and kind, in its place; no other message shows. */
  lemma {:induction false} MappedExactly(before: seq<Message>, m: Message, after: seq<Message>)
    ensures Mapped([]) == []
    ensures Mapped(before + [m] + after) == Mapped(before)
      + (if m.Filesystem? then [FsEvent(m.name, FsEventFromPb(m.kind))] else []) + Mapped(after)
    decreases |after|
  {
    hide FsEventFromPb;
    var all := before + [m] + after;
    if after == [] {
      assert all == before + [m] && all[..|all| - 1] == before;
    } else {
      var last := |after| - 1;
      assert all[..|all| - 1] == before + [m] + after[..last] && all[|all| - 1] == after[last];
      MappedExactly(before, m, after[..last]);
    }
  }

  /** The events taken from the stream and not yet in the queue. */
  function Pending(r: Run): seq<FsEvent> {
    match r.pc
    case Sending(e) => [e]
    case Handling(Filesystem(name, kind)) => [FsEvent(name, FsEventFromPb(kind))]
    case _ => []
  }

  ghost predicate Inv(r: Run) {
    && !r.panicked
    && |r.h.queue| <= CAPACITY
    && r.read + r.h.queue + Pending(r) == Mapped(r.received)
    && (r.pc.Closing? ==> r.pc.closed <= CLOSES)
    && (r.ended.Some? <==> r.pc.Failing? || r.pc.Closing?)
    && (r.pc.Failing? ==> r.ended == Some(Some(r.pc.err)))
    && r.h.err == (if r.pc.Closing? then r.ended.value else None)
    && (r.h.done <==> r.pc.Closing? && r.pc.closed >= 1)
    && (r.h.closed <==> r.pc.Closing? && r.pc.closed >= 2)
    && (r.seen != [] ==> r.h.done)
    && (forall i :: 0 <= i < |r.seen| ==> r.ended == Some(r.seen[i]))
  }

  ghost predicate CanRun(r: Run, steps: seq<Step>)
    decreases |steps|, 0
  {
    steps == [] || (CanRun(r, steps[..|steps| - 1])
                    && Enabled(After(r, steps[..|steps| - 1]), steps[|steps| - 1]))
  }

  ghost function After(r: Run, steps: seq<Step>): Run
    requires CanRun(r, steps)
    decreases |steps|, 1
  {
    if steps == [] then r else Next(After(r, steps[..|steps| - 1]), steps[|steps| - 1])
  }

  lemma RunSnoc(r: Run, trace: seq<Step>, s: Step)
    requires CanRun(r, trace) && Enabled(After(r, trace), s)
    ensures CanRun(r, trace + [s])
    ensures After(r, trace + [s]) == Next(After(r, trace), s)
  {
    assert (trace + [s])[..|trace|] == trace;
  }

  lemma MappedSnoc(messages: seq<Message>, m: Message)
    ensures Mapped(messages + [m])
         == Mapped(messages) + if m.Filesystem? then [FsEvent(m.name, FsEventFromPb(m.kind))] else []
  {
    assert (messages + [m])[..|messages|] == messages;
  }

  lemma StreamStepKept(r: Run, s: Step)
    requires Inv(r) && Enabled(r, s) && (s.Receive? || s.Dispatch? || s.Send? || s.Read?)
    ensures Inv(Next(r, s))
  {
    match s
    case Receive(m) =>
      MappedSnoc(r.received, m);
    case Send =>
      assert r.read + (r.h.queue + [r.pc.event]) == r.read + r.h.queue + [r.pc.event];
    case Read =>
      assert r.read + [r.h.queue[0]] + r.h.queue[1..] == r.read + r.h.queue;
    case _ =>
  }

  lemma ClosingStepKept(r: Run, s: Step)
    requires Inv(r) && Enabled(r, s) && !(s.Receive? || s.Dispatch? || s.Send? || s.Read?)
    ensures Inv(Next(r, s))
  {
    hide Mapped;
  }

  /** Every step keeps the invariant. */
  lemma InvKept(r: Run, s: Step)
    requires Inv(r) && Enabled(r, s)
    ensures Inv(Next(r, s))
  {
    hide Inv, Next, Enabled;
    if s.Receive? || s.Dispatch? || s.Send? || s.Read? {
      StreamStepKept(r, s);
    } else {
      ClosingStepKept(r, s);
    }
  }

  lemma {:induction false} InvHolds(steps: seq<Step>)
    requires CanRun(INIT, steps)
    ensures Inv(After(INIT, steps))
  {
    if steps != [] {
      var before := steps[..|steps| - 1];
      InvHolds(before);
      InvKept(After(INIT, before), steps[|steps| - 1]);
      hide Inv;
    }
  }

  /** Lossless and in order: what was read, what is queued and what is pending are the mapped stream prefix. */
  lemma {:induction false} LosslessInOrder(steps: seq<Step>)
    requires CanRun(INIT, steps)
    ensures var r := After(INIT, steps);
      && r.read + r.h.queue + Pending(r) == Mapped(r.received)
      && |r.h.queue| <= 32 && |Pending(r)| <= 1
      && !r.panicked
  {
    InvHolds(steps);
  }

  /** A nil from Stop means the error is final: all callers see the stream's own error, and no step changes it. */
  lemma StopMeansFinal(steps: seq<Step>, s: Step)
    requires CanRun(INIT, steps)
    ensures var r := After(INIT, steps);
      && (forall i :: 0 <= i < |r.seen| ==> r.ended == Some(r.seen[i]))
      && (r.h.done && Enabled(r, s) ==> Next(r, s).h.err == r.h.err && Next(r, s).ended == r.ended == Some(r.h.err))
  {
    InvHolds(steps);
  }

  predicate Finished(r: Run) { r.pc == Closing(CLOSES) }

  /** The consumer waits for a reader: a full queue and one event in hand. */
  predicate Stuck(r: Run) { r.pc.Sending? && |r.h.queue| == CAPACITY }

  /** The consumer's next step when it is neither at the stream nor stuck. */
  function OwnStep(pc: Pc): Step {
    match pc
    case Handling(_) => Dispatch
    case Sending(_) => Send
    case Failing(_) => StoreError
    case _ => Close
  }

  /**
   * In every reachable state the consumer is finished, waits on the stream, can move by itself, or holds one
   * event with 32 queued; in that last state only a reader helps.
   */
  lemma OnlyAFullQueueBlocks(r: Run)
    requires Inv(r)
    ensures Finished(r) || r.pc.Receiving? || Stuck(r) || Enabled(r, OwnStep(r.pc))
    ensures Stuck(r) ==> !Enabled(r, Send) && Enabled(r, Read) && Enabled(Next(r, Read), Send)
    ensures Stuck(r) ==> |Pending(r)| == 1
  {
  }

  predicate NoReads(steps: seq<Step>) { forall i :: 0 <= i < |steps| ==> !steps[i].Read? }

  /** Without a reader a stuck consumer stays stuck, so a pending Stop cannot return nil. */
  lemma {:induction false} StuckWithoutReader(r: Run, steps: seq<Step>)
    requires Stuck(r) && !r.h.done && CanRun(r, steps) && NoReads(steps)
    ensures Stuck(After(r, steps)) && !After(r, steps).h.done && !Enabled(After(r, steps), StopReturns)
  {
    if steps != [] {
      StuckWithoutReader(r, steps[..|steps| - 1]);
    }
  }

  /** Steps the consumer has left before `done` closes, once the stream ends. */
  function Remaining(pc: Pc): nat {
    match pc
    case Handling(_) => 5
    case Sending(_) => 4
    case Receiving => 3
    case Failing(_) => 2
    case Closing(k) => if k == 0 then 1 else 0
  }

  /** Neither a read nor more of the stream: what is left to a consumer whose stream was cancelled. */
  predicate IsWindingDown(s: Step) { !s.Read? && !s.Receive? }

  /** The queue has room for all that the consumer holds. */
  predicate HasRoom(r: Run) { |r.h.queue| + |Pending(r)| <= CAPACITY }

  /** With room for what it holds, the consumer closes `done` without a reader as soon as the stream ends. */
  lemma {:induction false} RoomLetsStopReturn(r: Run) returns (steps: seq<Step>)
    requires Inv(r) && HasRoom(r)
    ensures CanRun(r, steps) && Enabled(After(r, steps), StopReturns)
    ensures |steps| <= Remaining(r.pc) && forall s :: s in steps ==> IsWindingDown(s)
    decreases Remaining(r.pc)
  {
    if r.h.done {
      steps := [];
    } else {
      var s := if r.pc.Receiving? then EndStream(None) else OwnStep(r.pc);
      WindingDownAdvances(r, s);
      hide Inv, Next, Enabled, CanRun, After, HasRoom;
      var rest := RoomLetsStopReturn(Next(r, s));
      RunCons(r, s, rest);
      steps := [s] + rest;
    }
  }

  lemma WindingDownAdvances(r: Run, s: Step)
    requires Inv(r) && HasRoom(r) && !r.h.done
    requires s == if r.pc.Receiving? then EndStream(None) else OwnStep(r.pc)
    ensures Enabled(r, s) && IsWindingDown(s)
    ensures var after := Next(r, s);
      Inv(after) && HasRoom(after) && Remaining(after.pc) < Remaining(r.pc)
  {
    InvKept(r, s);
    hide Mapped;
  }

  lemma {:induction false} RunCons(r: Run, s: Step, rest: seq<Step>)
    requires Enabled(r, s) && CanRun(Next(r, s), rest)
    ensures CanRun(r, [s] + rest) && After(r, [s] + rest) == After(Next(r, s), rest)
  {
    hide Next, Enabled;
    var all := [s] + rest;
    if rest == [] {
      assert all[..0] == [] && all == [s];
    } else {
      var last := |rest| - 1;
      RunCons(r, s, rest[..last]);
      assert all[..|all| - 1] == [s] + rest[..last] && all[|all| - 1] == rest[last];
    }
  }

  /** Without room and without a reader, `done` stays open whatever anyone else does. */
  lemma {:induction false} NoRoomBlocksStop(r: Run, steps: seq<Step>)
    requires Inv(r) && !HasRoom(r) && CanRun(r, steps) && NoReads(steps)
    ensures var after := After(r, steps);
      Inv(after) && !HasRoom(after) && !Enabled(after, StopReturns)
  {
    if steps == [] {
      NoRoomMeansOpen(r);
    } else {
      var before, s := steps[..|steps| - 1], steps[|steps| - 1];
      NoRoomBlocksStop(r, before);
      var mid := After(r, before);
      InvKept(mid, s);
      NoRoomKept(mid, s);
      NoRoomMeansOpen(Next(mid, s));
      hide Inv, HasRoom, Next, Enabled;
    }
  }

  lemma NoRoomMeansOpen(r: Run)
    requires Inv(r) && !HasRoom(r)
    ensures !Enabled(r, StopReturns)
  {
    hide Mapped;
  }

  lemma NoRoomKept(r: Run, s: Step)
    requires Inv(r) && !HasRoom(r) && Enabled(r, s) && !s.Read?
    ensures !HasRoom(Next(r, s))
  {
    hide Mapped;
  }

  ghost predicate StopCanReturnUnread(r: Run) {
    exists steps :: CanRun(r, steps) && NoReads(steps) && Enabled(After(r, steps), StopReturns)
  }

  /**
   * In every state a run can reach: Stop can still return nil without a further read if and only if the queue has
   * room for the event the consumer holds, if it holds one.
   */
  lemma StopReturnsExactly(r: Run)
    requires Inv(r)
    ensures StopCanReturnUnread(r) <==> |r.h.queue| + |Pending(r)| <= 32
  {
    hide Inv, CanRun, After, Enabled, Pending;
    if HasRoom(r) {
      var steps := RoomLetsStopReturn(r);
      forall i | 0 <= i < |steps|
        ensures !steps[i].Read?
      {
        assert IsWindingDown(steps[i]);
      }
      assert NoReads(steps);
    } else {
      forall steps | CanRun(r, steps) && NoReads(steps)
        ensures !Enabled(After(r, steps), StopReturns)
      {
        NoRoomBlocksStop(r, steps);
      }
    }
  }

  function Fill(m: Message, n: nat): seq<Step> {
    if n == 0 then [] else Fill(m, n - 1) + [Receive(m), Dispatch, Send]
  }

  /** One more event goes through to a queue that has room. */
  lemma OneMoreQueued(steps: seq<Step>, m: Message)
    requires m.Filesystem? && CanRun(INIT, steps)
    requires After(INIT, steps).pc.Receiving? && |After(INIT, steps).h.queue| < CAPACITY
    ensures var all := steps + [Receive(m)] + [Dispatch] + [Send];
      && CanRun(INIT, all) && After(INIT, all).pc.Receiving?
      && |After(INIT, all).h.queue| == |After(INIT, steps).h.queue| + 1
      && After(INIT, all).h.done == After(INIT, steps).h.done
  {
    hide CanRun, After, Mapped;
    RunSnoc(INIT, steps, Receive(m));
    RunSnoc(INIT, steps + [Receive(m)], Dispatch);
    RunSnoc(INIT, steps + [Receive(m)] + [Dispatch], Send);
  }

  lemma {:induction false} FillQueue(m: Message, n: nat)
    requires m.Filesystem? && n <= CAPACITY
    ensures CanRun(INIT, Fill(m, n))
    ensures var r := After(INIT, Fill(m, n));
      r.pc.Receiving? && |r.h.queue| == n && !r.h.done
  {
    if n > 0 {
      FillQueue(m, n - 1);
      var before := Fill(m, n - 1);
      hide CanRun, After;
      OneMoreQueued(before, m);
      assert Fill(m, n) == before + [Receive(m)] + [Dispatch] + [Send];
    }
  }

  /** The handle's comment says Stop waits for the goroutine; with 33 unread events that wait never ends. */
  lemma StopMayWaitForever(m: Message) returns (steps: seq<Step>)
    requires m.Filesystem?
    ensures CanRun(INIT, steps)
    ensures After(INIT, steps).h.cancelled && Stuck(After(INIT, steps))
    ensures forall rest :: CanRun(After(INIT, steps), rest) && NoReads(rest) ==>
      !Enabled(After(After(INIT, steps), rest), StopReturns)
  {
    var full := Fill(m, CAPACITY);
    FillQueue(m, CAPACITY);
    RunSnoc(INIT, full, Receive(m));
    RunSnoc(INIT, full + [Receive(m)], Dispatch);
    RunSnoc(INIT, full + [Receive(m)] + [Dispatch], Cancel);
    steps := full + [Receive(m)] + [Dispatch] + [Cancel];
    var r := After(INIT, steps);
    forall rest | CanRun(r, rest) && NoReads(rest) ensures !Enabled(After(r, rest), StopReturns) {
      StuckWithoutReader(r, rest);
    }
  }

  /** The code of the handle; between its atomic actions other goroutines take any steps they can. */
  class WatchHandle {
    var queue: seq<FsEvent>
    var closed: bool
    var done: bool
    var cancelled: bool
    var err: Option<string>
    ghost var trace: seq<Step>

    ghost function View(): Handle
      reads this
    {
      Handle(queue, closed, done, cancelled, err)
    }

    ghost predicate Valid()
      reads this
    {
      CanRun(INIT, trace) && After(INIT, trace).h == View()
    }

    ghost function Now(): Run
      requires Valid()
      reads this
    {
      After(INIT, trace)
    }

    constructor ()
      ensures Valid() && trace == []
    {
      queue, closed, done, cancelled, err := [], false, false, false, None;
      trace := [];
    }

    method ReadEvent() returns (e: FsEvent)
      requires Valid() && queue != []
      modifies this`queue, this`trace
      ensures Valid() && Enabled(old(Now()), Read) && Now() == Next(old(Now()), Read)
      ensures e == old(queue[0])
    {
      RunSnoc(INIT, trace, Read);
      e := queue[0];
      queue := queue[1..];
      trace := trace + [Read];
    }

    /** Cancels the stream; returns nil only when the goroutine has closed `done`. */
    method Stop() returns (finished: bool)
      requires Valid()
      modifies this`cancelled, this`trace
      ensures Valid() && cancelled && finished == old(done)
      ensures finished ==> Now().ended == Some(err)
      ensures Now().pc == old(Now()).pc && Now().received == old(Now()).received && Now().ended == old(Now()).ended
    {
      RunSnoc(INIT, trace, Cancel);
      cancelled := true;
      trace := trace + [Cancel];
      finished := done;
      if finished {
        InvHolds(trace);
        RunSnoc(INIT, trace, StopReturns);
        trace := trace + [StopReturns];
      }
    }

    /** Other goroutines read events and call Stop, any number of times. */
    method Others()
      requires Valid()
      modifies this`queue, this`cancelled, this`trace
      ensures Valid()
      ensures Now().pc == old(Now()).pc && Now().received == old(Now()).received && Now().ended == old(Now()).ended
    {
      var n: nat := *;
      while n > 0
        invariant Valid()
        invariant Now().pc == old(Now()).pc && Now().received == old(Now()).received
        invariant Now().ended == old(Now()).ended
      {
        if * {
          if queue != [] {
            var _ := ReadEvent();
          }
        } else {
          var _ := Stop();
        }
        n := n - 1;
      }
    }

    /** Waiting until the queue has room is the reader's doing; the model lets one read happen if it is full. */
    method SendBlocking(e: FsEvent)
      requires Valid() && Now().pc == Sending(e)
      modifies this
      ensures Valid() && Now().pc.Receiving?
      ensures Now().received == old(Now()).received && Now().ended == old(Now()).ended
    {
      InvHolds(trace);
      if |queue| == CAPACITY {
        var _ := ReadEvent();
      }
      RunSnoc(INIT, trace, Send);
      queue := queue + [e];
      trace := trace + [Send];
    }

    /** One turn of the receive loop. */
    method Forward(m: Message)
      requires Valid() && Now().pc.Receiving?
      modifies this
      ensures Valid() && Now().pc.Receiving?
      ensures Now().received == old(Now()).received + [m] && Now().ended == old(Now()).ended
    {
      RunSnoc(INIT, trace, Receive(m));
      trace := trace + [Receive(m)];
      RunSnoc(INIT, trace, Dispatch);
      trace := trace + [Dispatch];
      Others();
      hide CanRun, After;
      if m.Filesystem? {
        SendBlocking(FsEvent(m.name, FsEventFromPb(m.kind)));
      }
    }

    method EndOfStream(streamErr: Option<string>)
      requires Valid() && Now().pc.Receiving?
      modifies this
      ensures Valid() && Now().pc == (if streamErr.Some? then Failing(streamErr.value) else Closing(0))
      ensures Now().received == old(Now()).received && Now().ended == Some(streamErr)
    {
      RunSnoc(INIT, trace, EndStream(streamErr));
      trace := trace + [EndStream(streamErr)];
    }

    /** The goroutine: forwards the stream, stores its error, closes `done` and then the events. */
    method Consume(messages: seq<Message>, streamErr: Option<string>)
      requires Valid() && Now().pc.Receiving? && Now().received == []
      modifies this
      ensures Valid() && Finished(Now())
      ensures Now().received == messages && Now().ended == Some(streamErr)
      ensures done && closed && err == streamErr
      ensures Now().read + queue == Mapped(messages)
    {
      hide CanRun, After, Mapped;
      for i := 0 to |messages|
        invariant Valid() && Now().pc.Receiving? && Now().received == messages[..i]
      {
        Others();
        Forward(messages[i]);
        assert messages[..i + 1] == messages[..i] + [messages[i]];
      }
      assert messages[..|messages|] == messages;
      EndOfStream(streamErr);
      Others();
      Finish(streamErr);
      InvHolds(trace);
    }

    method Finish(streamErr: Option<string>)
      requires Valid() && Now().pc == (if streamErr.Some? then Failing(streamErr.value) else Closing(0))
      modifies this
      ensures Valid() && Finished(Now())
      ensures Now().received == old(Now()).received && Now().ended == old(Now()).ended
    {
      if streamErr.Some? {
        RunSnoc(INIT, trace, StoreError);
        err := streamErr;
        trace := trace + [StoreError];
        Others();
      }
      RunSnoc(INIT, trace, Close);
      done := true;
      trace := trace + [Close];
      Others();
      RunSnoc(INIT, trace, Close);
      closed := true;
      trace := trace + [Close];
    }
  }
}
