/**
 * The event channel between the poll goroutine and Build (template/build.go), as interleaved steps. Status
 * replies are assumed to carry a JSON body.
 */
module BuildChannel {
  import opened Options
  import opened BuildPoll

  const BUFFER: nat := 16

  datatype Consumer =
    | Running(done: Option<BuildInfo>)
    | ReturnedInfo(info: BuildInfo)
    | ReturnedError(err: PollError)
    | ReturnedNoTerminal

  datatype Run = Run(
    info: BuildInfo,
    rounds: seq<Round>,
    stopped: bool,
    pending: seq<Event>,
    buffer: seq<Event>,
    closed: bool,
    popped: seq<Event>,
    consumer: Consumer)

  function Init(info: BuildInfo): Run { Run(info, [], false, [], [], false, [], Running(None)) }

  datatype Step = Poll(round: Round) | Push | Close | Pop | SeeClosed

  predicate Enabled(r: Run, s: Step) {
    match s
    case Poll(round) => r.pending == [] && !r.stopped && (round.cancelledBefore || !round.reply.NoBody?)
    case Push => r.pending != [] && |r.buffer| < BUFFER
    case Close => r.pending == [] && r.stopped && !r.closed
    case Pop => r.buffer != [] && r.consumer.Running?
    case SeeClosed => r.buffer == [] && r.closed && r.consumer.Running?
  }

  function Next(r: Run, s: Step): Run
    requires Enabled(r, s)
  {
    match s
    case Poll(round) =>
      var rounds := r.rounds + [round];
      r.(rounds := rounds, stopped := Stops(round),
         pending := LogEvents(RoundLogs(round)) + if Stops(round) then Terminal(r.info, round, Logs(rounds)) else [])
    case Push => r.(buffer := r.buffer + [r.pending[0]], pending := r.pending[1..])
    case Close => r.(closed := true)
    case Pop =>
      var ev := r.buffer[0];
      r.(buffer := r.buffer[1..], popped := r.popped + [ev],
         consumer := match ev
           case Err(e) => ReturnedError(e)
           case Done(info) => Running(Some(info))
           case Log(_) => r.consumer)
    case SeeClosed =>
      r.(consumer := if r.consumer.done == None then ReturnedNoTerminal else ReturnedInfo(r.consumer.done.value))
  }

  /** All events of the channel's life so far: taken, buffered, and still to be sent. */
  function Events(r: Run): seq<Event> { r.popped + r.buffer + r.pending }

  /** Logs, followed by one terminal event if the loop has stopped. */
  function Expected(r: Run): seq<Event> {
    LogEvents(Logs(r.rounds)) + TerminalEvents(r)
  }

  function TerminalEvents(r: Run): seq<Event> {
    if r.stopped && r.rounds != [] then Terminal(r.info, r.rounds[|r.rounds| - 1], Logs(r.rounds)) else []
  }

  predicate AllLogs(events: seq<Event>) { forall i :: 0 <= i < |events| ==> events[i].Log? }

  ghost predicate Inv(r: Run) {
    && Events(r) == Expected(r)
    && |TerminalEvents(r)| == (if r.stopped then 1 else 0)
    && (r.stopped ==> !TerminalEvents(r)[0].Log?)
    && (r.closed ==> r.stopped && r.pending == [])
    && (r.consumer == Running(None) ==> AllLogs(r.popped))
    && (forall info :: r.consumer == Running(Some(info)) || r.consumer == ReturnedInfo(info) ==>
          r.popped == Expected(r) && TerminalEvents(r) == [Done(info)])
    && (forall e :: r.consumer == ReturnedError(e) ==> r.popped == Expected(r) && TerminalEvents(r) == [Err(e)])
    && !r.consumer.ReturnedNoTerminal?
  }

  lemma LogEventsAreLogs(logs: seq<LogEntry>)
    ensures AllLogs(LogEvents(logs))
  {
  }

  lemma PollKept(r: Run, round: Round)
    requires Inv(r) && Enabled(r, Poll(round))
    ensures Inv(Next(r, Poll(round)))
  {
    var after := Next(r, Poll(round));
    EventsAfterPoll(r, round);
    if Stops(round) {
      TerminalIsNotALog(r.info, round, Logs(after.rounds));
    }
    hide LogEvents, Logs, LastEntries, Terminal, RoundLogs, Stops;
    assert after.rounds[|after.rounds| - 1] == round;
  }

  lemma LogsAfterPoll(r: Run, round: Round)
    ensures Logs(r.rounds + [round]) == Logs(r.rounds) + RoundLogs(round)
  {
    hide RoundLogs;
    var rounds := r.rounds + [round];
    assert rounds[..|rounds| - 1] == r.rounds && rounds[|rounds| - 1] == round;
  }

  /** Nothing pending and not stopped: the events so far are the logs so far. */
  lemma EventsBeforePoll(r: Run, round: Round)
    requires Events(r) == Expected(r) && Enabled(r, Poll(round))
    ensures r.popped + r.buffer == LogEvents(Logs(r.rounds))
  {
    hide LogEvents, Logs, Terminal;
    assert r.popped + r.buffer + [] == r.popped + r.buffer;
    assert LogEvents(Logs(r.rounds)) + [] == LogEvents(Logs(r.rounds));
  }

  lemma Appended(before: seq<Event>, logs: seq<Event>, terminal: seq<Event>)
    ensures before + (logs + terminal) == (before + logs) + terminal
  {
  }

  lemma EventsAfterPoll(r: Run, round: Round)
    requires Events(r) == Expected(r) && Enabled(r, Poll(round))
    ensures Events(Next(r, Poll(round))) == Expected(Next(r, Poll(round)))
  {
    var after := Next(r, Poll(round));
    LogsAfterPoll(r, round);
    EventsBeforePoll(r, round);
    hide LogEvents, Logs, LastEntries, Terminal, RoundLogs, Stops, Expected;
    LogEventsConcat(Logs(r.rounds), RoundLogs(round));
    var terminal := TerminalEvents(after);
    assert after.pending == LogEvents(RoundLogs(round)) + terminal;
    hide TerminalEvents;
    Appended(r.popped + r.buffer, LogEvents(RoundLogs(round)), terminal);
    assert Expected(after) == LogEvents(Logs(after.rounds)) + terminal by {
      ExpectedIs(after);
    }
  }

  lemma ExpectedIs(r: Run)
    ensures Expected(r) == LogEvents(Logs(r.rounds)) + TerminalEvents(r)
  {
  }

  lemma TerminalIsNotALog(info: BuildInfo, round: Round, logs: seq<LogEntry>)
    requires Stops(round) && (round.cancelledBefore || !round.reply.NoBody?)
    ensures |Terminal(info, round, logs)| == 1 && !Terminal(info, round, logs)[0].Log?
  {
  }

  lemma PushKept(r: Run)
    requires Inv(r) && Enabled(r, Push)
    ensures Inv(Next(r, Push))
  {
    hide LogEvents, Logs, Terminal;
    assert Events(Next(r, Push)) == Events(r);
  }

  /** Once Build has seen Done, nothing is buffered any more. */
  lemma NothingAfterDone(r: Run, info: BuildInfo)
    requires Inv(r)
    ensures r.consumer == Running(Some(info)) ==> r.buffer == []
  {
    hide LogEvents, Logs, Terminal, TerminalEvents, AllLogs, Expected;
    assert |Events(r)| == |r.popped| + |r.buffer| + |r.pending|;
  }

  lemma NotDoneYet(r: Run)
    requires Inv(r) && Enabled(r, Pop)
    ensures r.consumer == Running(None)
  {
    hide Inv;
    match r.consumer.done
    case None =>
    case Some(info) => NothingAfterDone(r, info);
  }

  /** Taking an event moves it from the buffer to the events taken. */
  lemma PopSplits(r: Run)
    requires Enabled(r, Pop)
    ensures Events(r) == r.popped + [r.buffer[0]] + (r.buffer[1..] + r.pending)
    ensures Events(Next(r, Pop)) == Events(r)
  {
  }

  lemma PopEvents(r: Run)
    requires Inv(r) && Enabled(r, Pop)
    ensures Events(Next(r, Pop)) == Events(r)
    ensures !r.buffer[0].Log? ==> TerminalEvents(r) == [r.buffer[0]] && Next(r, Pop).popped == Expected(r)
  {
    PopSplits(r);
    LogEventsAreLogs(Logs(r.rounds));
    hide LogEvents, Logs, Terminal, TerminalEvents, AllLogs, Events;
    LastIsTerminal(LogEvents(Logs(r.rounds)), TerminalEvents(r), r.popped, r.buffer[0], r.buffer[1..] + r.pending);
  }

  /** The event taken is the terminal one exactly when it is not a log, and then nothing follows it. */
  lemma PopKept(r: Run)
    requires Inv(r) && Enabled(r, Pop)
    ensures Inv(Next(r, Pop))
  {
    NotDoneYet(r);
    PopEvents(r);
    if r.buffer[0].Log? {
      AllLogsSnoc(r.popped, r.buffer[0]);
    }
    hide LogEvents, Logs, Terminal, TerminalEvents, AllLogs, Events;
  }

  lemma AllLogsSnoc(events: seq<Event>, ev: Event)
    requires AllLogs(events) && ev.Log?
    ensures AllLogs(events + [ev])
  {
  }

  /** In logs followed by at most one other event, only the last event can be that other one. */
  lemma LastIsTerminal(logs: seq<Event>, terminal: seq<Event>, before: seq<Event>, ev: Event, rest: seq<Event>)
    requires AllLogs(logs) && |terminal| <= 1 && (terminal != [] ==> !terminal[0].Log?)
    requires logs + terminal == before + [ev] + rest
    ensures !ev.Log? ==> terminal == [ev] && rest == [] && before + [ev] == logs + terminal
  {
    var all := logs + terminal;
    assert all[|before|] == ev;
    assert |before| < |logs| ==> all[|before|] == logs[|before|];
    if !ev.Log? {
      assert |before| == |logs|;
      assert rest == [];
      assert before + [ev] + [] == before + [ev];
    }
  }

  /** A closed and drained channel has delivered its terminal event. */
  lemma DrainedHasDone(r: Run)
    requires Inv(r) && Enabled(r, SeeClosed)
    ensures r.consumer.done.Some?
  {
    hide LogEvents, Logs, Terminal;
    assert r.popped + [] + [] == r.popped;
    assert r.popped == Expected(r);
    assert Expected(r)[|Expected(r)| - 1] == TerminalEvents(r)[0];
  }

  lemma CloseKept(r: Run, s: Step)
    requires Inv(r) && Enabled(r, s) && (s.Close? || s.SeeClosed?)
    ensures Inv(Next(r, s))
  {
    if s.SeeClosed? {
      DrainedHasDone(r);
    }
    hide LogEvents, Logs, Terminal;
  }

  /** Every step keeps the invariant. */
  lemma InvKept(r: Run, s: Step)
    requires Inv(r) && Enabled(r, s)
    ensures Inv(Next(r, s))
  {
    match s
    case Poll(round) => PollKept(r, round);
    case Push => PushKept(r);
    case Pop => PopKept(r);
    case _ => CloseKept(r, s);
  }

  ghost predicate CanRun(r: Run, steps: seq<Step>)
    decreases |steps|, 0
  {
    steps == [] || (CanRun(r, steps[..|steps| - 1])
                    && Enabled(After(r, steps[..|steps| - 1]), steps[|steps| - 1]))
  }

  ghost function After(r: Run, steps: seq<Step>): Run
    requires CanRun(r, steps)
    decreases |steps|, 1
  {
    if steps == [] then r else Next(After(r, steps[..|steps| - 1]), steps[|steps| - 1])
  }

  lemma {:induction false} InvHolds(info: BuildInfo, steps: seq<Step>)
    requires CanRun(Init(info), steps)
    ensures Inv(After(Init(info), steps)) && After(Init(info), steps).info == info
  {
    if steps == [] {
      assert LogEvents(Logs([])) == [];
    } else {
      var before := steps[..|steps| - 1];
      InvHolds(info, before);
      InvKept(After(Init(info), before), steps[|steps| - 1]);
      hide Inv;
    }
  }

  /** Every channel carries logs, then at most one terminal event and nothing after it; closing comes last. */
  lemma EventGrammar(info: BuildInfo, steps: seq<Step>)
    requires CanRun(Init(info), steps)
    ensures var r := After(Init(info), steps);
      && Events(r) == LogEvents(Logs(r.rounds)) + TerminalEvents(r)
      && |TerminalEvents(r)| <= 1 && (forall i :: 0 <= i < |TerminalEvents(r)| ==> !TerminalEvents(r)[i].Log?)
      && (r.closed ==> |TerminalEvents(r)| == 1 && r.pending == [])
  {
    InvHolds(info, steps);
    hide LogEvents, Logs, Terminal;
  }

  /** Only the last round can have stopped the loop. */
  lemma {:induction false} OnlyTheLastStops(info: BuildInfo, steps: seq<Step>)
    requires CanRun(Init(info), steps)
    ensures var r := After(Init(info), steps);
      && (forall i :: 0 <= i < |r.rounds| - 1 ==> !Stops(r.rounds[i]))
      && (r.stopped <==> r.rounds != [] && Stops(r.rounds[|r.rounds| - 1]))
  {
    hide Stops, LogEvents, Logs, Terminal, RoundLogs;
    if steps != [] {
      OnlyTheLastStops(info, steps[..|steps| - 1]);
    }
  }

  /** The round in which the loop stands: the one that stopped it, or the next. */
  function Standing(r: Run): nat { if r.stopped && r.rounds != [] then |r.rounds| - 1 else |r.rounds| }

  /** Taken, buffered and pending, the events of the channel are those that the loop emits over the same rounds. */
  lemma ChannelCarriesTheLoop(info: BuildInfo, steps: seq<Step>)
    requires CanRun(Init(info), steps)
    ensures var r := After(Init(info), steps);
      StopIndex(r.rounds, Standing(r)) && Events(r) == Emitted(info, r.rounds, Standing(r))
  {
    OnlyTheLastStops(info, steps);
    EventGrammar(info, steps);
    InvHolds(info, steps);
    var r := After(Init(info), steps);
    ReceivedAll(r.rounds);
    hide Stops, LogEvents, Logs, Terminal, Inv, CanRun, After;
    assert Polled(r.rounds, Standing(r)) == |r.rounds|;
  }

  /**
   * Build returns the info exactly when the terminal event is Done, an error exactly when it is Err, and never
   * "channel closed without terminal event"; when it returns, the producer has no event left to send.
   */
  lemma BuildOutcome(info: BuildInfo, steps: seq<Step>)
    requires CanRun(Init(info), steps)
    ensures var r := After(Init(info), steps);
      && !r.consumer.ReturnedNoTerminal?
      && (!r.consumer.Running? ==> |TerminalEvents(r)| == 1 && r.pending == [] && r.buffer == [])
      && (!r.consumer.Running? ==> (r.consumer == ReturnedInfo(info) <==> TerminalEvents(r) == [Done(info)]))
      && (forall e :: !r.consumer.Running? ==> (r.consumer == ReturnedError(e) <==> TerminalEvents(r) == [Err(e)]))
  {
    InvHolds(info, steps);
    var r := After(Init(info), steps);
    hide LogEvents, Logs, Terminal;
    if !r.consumer.Running? {
      assert r.popped == Expected(r) == Events(r);
      assert |Events(r)| == |r.popped| + |r.buffer| + |r.pending|;
      assert r.consumer.ReturnedInfo? ==> TerminalEvents(r) == [Done(r.consumer.info)];
      assert r.consumer.ReturnedError? ==> TerminalEvents(r) == [Err(r.consumer.err)];
    }
    DoneCarriesInfo(r);
  }

  /**
   * Build returned the info if and only if the last status reply, of a context not cancelled before, says ready. If it
   * says error, Build returned that error with its reason and the last 20 entries.
   */
  lemma BuildSucceedsExactly(info: BuildInfo, steps: seq<Step>)
    requires CanRun(Init(info), steps) && !After(Init(info), steps).consumer.Running?
    ensures var r := After(Init(info), steps);
      && r.rounds != []
      && var last := r.rounds[|r.rounds| - 1];
      && (r.consumer == ReturnedInfo(info)
          <==> !last.cancelledBefore && last.reply.StatusReply? && last.reply.status == Ready)
      && (!last.cancelledBefore && last.reply.StatusReply? && last.reply.status == Error ==>
            var received := EntriesOf(r.rounds);
            r.consumer == ReturnedError(BuildFailed(
              info,
              if last.reply.reason.Some? then last.reply.reason.value else Reason("", ""),
              if |received| <= 20 then received else received[|received| - 20..])))
  {
    BuildOutcome(info, steps);
    InvHolds(info, steps);
    var r := After(Init(info), steps);
    assert r.rounds[..|r.rounds|] == r.rounds;
    ReceivedIsEveryEntry(r.rounds, |r.rounds|);
    hide LogEvents, Logs, EntriesOf, CanRun, After, Inv;
    assert r.rounds != [];
    assert TerminalEvents(r) == Terminal(info, r.rounds[|r.rounds| - 1], EntriesOf(r.rounds));
  }

  /** The channel holds at most 16 events, and only then does a send wait. */
  lemma {:induction false} SixteenBuffered(info: BuildInfo, steps: seq<Step>)
    requires CanRun(Init(info), steps)
    ensures var r := After(Init(info), steps);
      |r.buffer| <= 16 && (Enabled(r, Push) <==> r.pending != [] && |r.buffer| < 16)
  {
    hide LogEvents, Logs, Terminal, Stops, RoundLogs;
    if steps != [] {
      SixteenBuffered(info, steps[..|steps| - 1]);
    }
  }

  lemma DoneCarriesInfo(r: Run)
    ensures forall i :: 0 <= i < |TerminalEvents(r)| && TerminalEvents(r)[i].Done? ==> TerminalEvents(r)[i].info == r.info
  {
  }

  /** While Build runs, one of the two sides can move, up to waiting for the next status reply. */
  lemma NoDeadlock(r: Run)
    requires Inv(r) && r.consumer.Running?
    ensures || Enabled(r, Push) || Enabled(r, Pop) || Enabled(r, Close) || Enabled(r, SeeClosed)
            || (r.pending == [] && !r.stopped)
  {
  }

  function StepsLeft(r: Run): nat {
    2 * |r.pending| + |r.buffer| + (if r.closed then 0 else 1) + 1
  }

  /** Once the loop has stopped, no run, however scheduled, has more steps than that and the return itself. */
  lemma {:induction false} StepsBounded(r: Run, steps: seq<Step>)
    requires Inv(r) && r.stopped && CanRun(r, steps)
    ensures var after := After(r, steps);
      && Inv(after) && after.stopped
      && |steps| + StepsLeft(after) <= StepsLeft(r) + (if after.consumer.Running? then 0 else 1)
  {
    hide Inv, Next, Enabled, StepsLeft;
    if steps != [] {
      var before, s := steps[..|steps| - 1], steps[|steps| - 1];
      StepsBounded(r, before);
      InvKept(After(r, before), s);
      StepTaken(After(r, before), s);
    }
  }

  lemma StepTaken(r: Run, s: Step)
    requires r.stopped && Enabled(r, s)
    ensures var after := Next(r, s);
      && after.stopped && (after.consumer.Running? ==> r.consumer.Running?)
      && StepsLeft(after) + 1
         <= StepsLeft(r) + (if r.consumer.Running? && !after.consumer.Running? then 1 else 0)
  {
    hide LogEvents, Logs, Terminal;
  }

  /** Once the loop has stopped, Build returns after the events that are left, in a bounded number of steps. */
  lemma {:induction false} BuildReturns(r: Run) returns (steps: seq<Step>)
    requires Inv(r) && r.stopped
    ensures CanRun(r, steps) && !After(r, steps).consumer.Running? && |steps| <= StepsLeft(r)
    decreases StepsLeft(r)
  {
    hide LogEvents, Logs, Terminal, TerminalEvents, Expected;
    if !r.consumer.Running? {
      steps := [];
    } else {
      NoDeadlock(r);
      var s := if r.buffer != [] then Pop else if r.pending != [] then Push else if !r.closed then Close else SeeClosed;
      InvKept(r, s);
      assert StepsLeft(Next(r, s)) < StepsLeft(r) || !Next(r, s).consumer.Running?;
      assert Next(r, s).stopped;
      if !Next(r, s).consumer.Running? {
        RunCons(r, s, []);
        steps := [s] + [];
      } else {
        hide Inv, Next, Enabled, StepsLeft, CanRun, After;
        var rest := BuildReturns(Next(r, s));
        RunCons(r, s, rest);
        steps := [s] + rest;
      }
    }
  }

  lemma {:induction false} RunCons(r: Run, s: Step, rest: seq<Step>)
    requires Enabled(r, s) && CanRun(Next(r, s), rest)
    ensures CanRun(r, [s] + rest) && After(r, [s] + rest) == After(Next(r, s), rest)
  {
    hide Next, Enabled;
    var all := [s] + rest;
    if rest == [] {
      assert all[..0] == [] && all == [s];
    } else {
      var last := |rest| - 1;
      RunCons(r, s, rest[..last]);
      assert all[..|all| - 1] == [s] + rest[..last] && all[|all| - 1] == rest[last];
    }
  }
}
