/**
 * The code of the command stream (command_handle.go), with its assignments, branches and deferred closes.
 * Each atomic action is one step of a run; between actions other goroutines take any steps they can.
 */
module CommandHandles {
  import opened Options
  import opened CommandStream
  import Sequences

  class CommandHandle {
    var pid: nat
    var stdout: string
    var stderr: string
    var result: Option<ExitStatus>
    var doneErr: Option<string>
    var done: bool
    var channels: PerSource<Channel>

    /** The steps taken so far, by anyone. */
    ghost var trace: seq<Step>

    ghost function View(): Handle
      reads this
    {
      Handle(pid, stdout, stderr, result, doneErr, done, channels)
    }

    ghost predicate Valid()
      reads this
    {
      CanRun(INIT, trace) && After(INIT, trace).h == View()
    }

    ghost function Now(): Run
      requires Valid()
      reads this
    {
      After(INIT, trace)
    }

    constructor ()
      ensures Valid() && trace == []
    {
      pid, stdout, stderr := 0, "", "";
      result, doneErr, done := None, None, false;
      channels := PerSource(OPEN, OPEN, OPEN);
      trace := [];
    }

    /** Blocks until `done`, then reads the outcome under the lock. */
    method Wait() returns (o: Outcome)
      requires Valid() && done
      modifies this`trace
      ensures Valid() && Enabled(old(Now()), Step.Wait) && Now() == Next(old(Now()), Step.Wait)
      ensures Now().ended.Some? && o == Expected(Now().received, Now().ended.value)
      ensures o.Exited? ==> (o.failed <==> o.status.exitCode != 0)
    {
      if doneErr.Some? {
        o := StreamFailed(doneErr.value);
      } else if result == None {
        o := NoResult;
      } else {
        o := Exited(result.value, stdout, stderr, result.value.exitCode != 0);
      }
      assert o == WaitOutcome(View());
      InvHolds(trace);
      OutcomeIsExpected(Now());
      RunSnoc(trace, Step.Wait);
      trace := trace + [Step.Wait];
    }

    /** A reader takes one chunk from a channel that holds one. */
    method ReadChunk(source: Source) returns (chunk: Chunk)
      requires Valid() && channels.Get(source).queue != []
      modifies this`channels, this`trace
      ensures Valid() && Enabled(old(Now()), Read(source)) && Now() == Next(old(Now()), Read(source))
      ensures chunk == old(channels.Get(source).queue[0])
    {
      RunSnoc(trace, Read(source));
      var c := channels.Get(source);
      chunk := c.queue[0];
      channels := channels.Set(source, c.(queue := c.queue[1..]));
      trace := trace + [Read(source)];
    }

    /** Readers and waiters run for a while: any steps that are not the goroutine's. */
    method Others()
      requires Valid()
      modifies this`channels, this`trace
      ensures Valid()
      ensures Now().pc == old(Now()).pc && Now().received == old(Now()).received && Now().ended == old(Now()).ended
    {
      var n: nat := *;
      while n > 0
        invariant Valid()
        invariant Now().pc == old(Now()).pc && Now().received == old(Now()).received
        invariant Now().ended == old(Now()).ended
      {
        var source: Source := *;
        if * {
          if channels.Get(source).queue != [] {
            var _ := ReadChunk(source);
          }
        } else if done {
          var _ := Wait();
        }
        n := n - 1;
      }
    }

    /** The locked section of the switch on an event. */
    method Update(e: Event)
      requires Valid() && Now().pc == Handling(e)
      modifies this
      ensures Valid() && Enabled(old(Now()), Step.Update) && Now() == Next(old(Now()), Step.Update)
      ensures unchanged(this`channels) && unchanged(this`done) && unchanged(this`doneErr)
    {
      RunSnoc(trace, Step.Update);
      match e {
        case Start(p) =>
          pid := p;
        case Data(Stdout, chunk) =>
          stdout := stdout + chunk;
        case Data(Stderr, chunk) =>
          stderr := stderr + chunk;
        case End(code, error) =>
          result := Some(ExitStatus(code, error));
        case _ =>
      }
      trace := trace + [Step.Update];
    }

    /** A select with a default branch: the chunk is dropped when the queue is full. */
    method TrySend(source: Source, chunk: Chunk)
      requires Valid() && Now().pc == Sending(source, chunk)
      modifies this`channels, this`trace
      ensures Valid() && Enabled(old(Now()), Step.TrySend) && Now() == Next(old(Now()), Step.TrySend)
    {
      RunSnoc(trace, Step.TrySend);
      var c := channels.Get(source);
      if |c.queue| < CAPACITY {
        channels := channels.Set(source, c.(queue := c.queue + [chunk]));
      }
      trace := trace + [Step.TrySend];
    }

    /** One iteration of the receive loop, with other goroutines running between its atomic actions. */
    method HandleEvent(e: Event)
      requires Valid() && Now().pc.Receiving?
      modifies this
      ensures Valid() && Now().pc.Receiving?
      ensures Now().received == old(Now()).received + [e] && Now().ended == old(Now()).ended
    {
      RunSnoc(trace, Receive(e));
      trace := trace + [Receive(e)];
      Others();
      Update(e);
      Others();
      if e.Data? {
        TrySend(e.source, e.chunk);
      }
    }

    method StoreError(err: string)
      requires Valid() && Now().pc == Failing(err)
      modifies this`doneErr, this`trace
      ensures Valid() && Enabled(old(Now()), Step.StoreError) && Now() == Next(old(Now()), Step.StoreError)
    {
      RunSnoc(trace, Step.StoreError);
      doneErr := Some(err);
      trace := trace + [Step.StoreError];
    }

    method CloseDone()
      requires Valid() && Now().pc == Closing(0)
      modifies this`done, this`trace
      ensures Valid() && Enabled(old(Now()), Close) && Now() == Next(old(Now()), Close)
    {
      RunSnoc(trace, Close);
      done := true;
      trace := trace + [Close];
    }

    method CloseChannel(source: Source)
      requires Valid() && Now().pc == Closing(ClosesBefore(source))
      modifies this`channels, this`trace
      ensures Valid() && Enabled(old(Now()), Close) && Now() == Next(old(Now()), Close)
    {
      RunSnoc(trace, Close);
      channels := channels.Set(source, channels.Get(source).(closed := true));
      trace := trace + [Close];
    }

    /** The goroutine: consumes the stream, stores its error, and runs the deferred closes. */
    method StartStream(events: seq<Event>, err: Option<string>)
      requires Valid() && Now().pc.Receiving? && Now().received == []
      modifies this
      ensures Valid() && Finished(Now())
      ensures Now().received == events && Now().ended == Some(err)
    {
      for i := 0 to |events|
        invariant Valid() && Now().pc.Receiving? && Now().received == events[..i]
      {
        Others();
        HandleEvent(events[i]);
      }
      assert events[..|events|] == events;
      RunSnoc(trace, EndStream(err));
      trace := trace + [EndStream(err)];
      Others();
      if err.Some? {
        StoreError(err.value);
        Others();
      }
      CloseAll();
    }

    method CloseAll()
      requires Valid() && Now().pc == Closing(0)
      modifies this
      ensures Valid() && Finished(Now())
      ensures Now().received == old(Now()).received && Now().ended == old(Now()).ended
    {
      hide CanRun, After;
      CloseDone();
      Others();
      CloseChannel(Pty);
      Others();
      CloseLast();
    }

    method CloseLast()
      requires Valid() && Now().pc == Closing(2)
      modifies this
      ensures Valid() && Finished(Now())
      ensures Now().received == old(Now()).received && Now().ended == old(Now()).ended
    {
      hide CanRun, After;
      CloseChannel(Stderr);
      Others();
      CloseChannel(Stdout);
    }

    /** Once the goroutine has finished, the fields hold the whole stream and every channel is closed. */
    lemma FinishedState()
      requires Valid() && Finished(Now())
      ensures stdout == Sequences.Flatten(Chunks(Now().received, Stdout))
      ensures stderr == Sequences.Flatten(Chunks(Now().received, Stderr))
      ensures pid == LastStart(Now().received) && result == LastExit(Now().received)
      ensures done && forall s :: channels.Get(s).closed
      ensures Now().ended == Some(doneErr)
    {
      InvHolds(trace);
    }
  }

  lemma RunSnoc(trace: seq<Step>, s: Step)
    requires CanRun(INIT, trace) && Enabled(After(INIT, trace), s)
    ensures CanRun(INIT, trace + [s])
    ensures After(INIT, trace + [s]) == Next(After(INIT, trace), s)
  {
    assert (trace + [s])[..|trace|] == trace;
  }
}
