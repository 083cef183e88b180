/** Polling a build for logs and its outcome (template/build.go, template/buildapi.go). */
module BuildPoll {
  import opened Options
  import Sequences

  datatype LogEntry = LogEntry(level: string, message: string, timestamp: int)

  datatype BuildInfo = BuildInfo(templateID: string, buildID: string, name: string, tags: seq<string>)

  datatype Status = Building | Waiting | Ready | Error | Other(text: string)

  datatype Reason = Reason(step: string, message: string)

  /** A status reply; one without a JSON body makes the client dereference nil. */
  datatype Reply =
    | Failed(err: string)
    | NoBody
    | StatusReply(logs: seq<LogEntry>, status: Status, reason: Option<Reason>)

  datatype PollError =
    | Cancelled
    | RequestFailed(err: string)
    | BuildFailed(info: BuildInfo, reason: Reason, logTail: seq<LogEntry>)

  datatype Event = Log(entry: LogEntry) | Done(info: BuildInfo) | Err(err: PollError)

  /** What one iteration of the poll loop meets: the context before and after it, and the reply. */
  datatype Round = Round(cancelledBefore: bool, reply: Reply, cancelledAfter: bool)

  datatype Outcome = StillPolling | Closed | Crashed

  const LOG_TAIL_LIMIT: nat := 20

  /** Go's int32 conversion. */
  function Int32(n: int): int {
    (n + 0x8000_0000) % 0x1_0000_0000 - 0x8000_0000
  }

  /** The logsOffset parameter; zero is left out. */
  function OffsetParam(offset: nat): Option<int> {
    if offset > 0 then Some(Int32(offset)) else None
  }

  /** The server position a request asks to start from. */
  function Requested(param: Option<int>): int {
    match param
    case None => 0
    case Some(n) => n
  }

  function LastEntries(logs: seq<LogEntry>, n: nat): seq<LogEntry> {
    if |logs| <= n then logs else logs[|logs| - n..]
  }

  function RoundLogs(r: Round): seq<LogEntry> {
    if !r.cancelledBefore && r.reply.StatusReply? then r.reply.logs else []
  }

  /** All log entries received in these rounds, in order. */
  function Logs(rounds: seq<Round>): seq<LogEntry> {
    if rounds == [] then [] else Logs(rounds[..|rounds| - 1]) + RoundLogs(rounds[|rounds| - 1])
  }

  /** The entries received in the first `k` rounds. */
  function Received(rounds: seq<Round>, k: nat): seq<LogEntry>
    requires k <= |rounds|
  {
    Logs(rounds[..k])
  }

  /** Request i asks for the entries after those of the rounds before it. */
  ghost predicate AskedInOrder(rounds: seq<Round>, requests: seq<Option<int>>) {
    |requests| <= |rounds|
    && forall i :: 0 <= i < |requests| ==> requests[i] == OffsetParam(|Received(rounds, i)|)
  }

  /**
   * The offset that request i carries: none before the first entry, then the number of entries received, which from
   * 2^31 on is a negative number.
   */
  lemma AskedExactly(rounds: seq<Round>, requests: seq<Option<int>>, i: nat)
    requires AskedInOrder(rounds, requests) && i < |requests|
    ensures var n := |Received(rounds, i)|;
      && (n == 0 ==> requests[i] == None)
      && (0 < n < 0x8000_0000 ==> requests[i] == Some(n))
      && (0x8000_0000 <= n < 0x1_0000_0000 ==> requests[i] == Some(n - 0x1_0000_0000))
  {
    hide Received;
  }

  /** The loop ends in this round. */
  predicate Stops(r: Round) {
    || r.cancelledBefore || r.cancelledAfter || !r.reply.StatusReply?
    || r.reply.status == Ready || r.reply.status == Error
  }

  /** The event that ends the channel, given all logs received so far; none when the client crashes. */
  function Terminal(info: BuildInfo, r: Round, logs: seq<LogEntry>): seq<Event> {
    if r.cancelledBefore then [Err(Cancelled)]
    else match r.reply
      case Failed(e) => [Err(RequestFailed(e))]
      case NoBody => []
      case StatusReply(_, status, reason) =>
        if status == Ready then [Done(info)]
        else if status == Error then
          [Err(BuildFailed(info, if reason.Some? then reason.value else Reason("", ""),
                           LastEntries(logs, LOG_TAIL_LIMIT)))]
        else [Err(Cancelled)]
  }

  function LogEvents(logs: seq<LogEntry>): seq<Event> { Sequences.Map(e => Log(e), logs) }

  /** `k` rounds were run without stopping, and then either all are used up or round k stops the loop. */
  ghost predicate StopIndex(rounds: seq<Round>, k: nat) {
    && k <= |rounds|
    && (forall i :: 0 <= i < k ==> !Stops(rounds[i]))
    && (k < |rounds| ==> Stops(rounds[k]))
  }

  /** The rounds whose replies were read when the loop stands at round `k`. */
  function Polled(rounds: seq<Round>, k: nat): nat { if k < |rounds| then k + 1 else k }

  /** Every entry received, in order and once; then, if round `k` stops the loop, its terminal event. */
  function Emitted(info: BuildInfo, rounds: seq<Round>, k: nat): seq<Event>
    requires k <= |rounds|
  {
    var received := Received(rounds, Polled(rounds, k));
    LogEvents(received) + if k < |rounds| then Terminal(info, rounds[k], received) else []
  }

  /**
   * The poll loop. It emits every entry received, in order and once; then, if a round stops it, that round's
   * terminal event; and it asks each time for the entries after those it has.
   */
  method PollUntilDone(info: BuildInfo, rounds: seq<Round>)
      returns (out: seq<Event>, requests: seq<Option<int>>, outcome: Outcome, k: nat)
    ensures StopIndex(rounds, k)
    ensures out == Emitted(info, rounds, k)
    ensures k == |rounds| ==> outcome == StillPolling
    ensures k < |rounds| ==>
      outcome == if !rounds[k].cancelledBefore && rounds[k].reply.NoBody? then Crashed else Closed
    ensures AskedInOrder(rounds, requests)
    ensures |requests| == k + (if k < |rounds| && !rounds[k].cancelledBefore then 1 else 0)
  {
    out, requests, k := [], [], 0;
    var logsOffset: nat := 0;
    var tail: seq<LogEntry> := [];
    NothingYet(rounds);
    hide Received, LogEvents, LastEntries, Logs, Int32, Terminal, RoundLogs, OffsetParam, Stops;
    while k < |rounds|
      invariant k <= |rounds| && |requests| == k
      invariant forall i :: 0 <= i < k ==> !Stops(rounds[i])
      invariant out == LogEvents(Received(rounds, k))
      invariant logsOffset == |Received(rounds, k)|
      invariant tail == LastEntries(Received(rounds, k), LOG_TAIL_LIMIT)
      invariant AskedInOrder(rounds, requests)
    {
      LogsSnoc(rounds, k);
      var request, stops, crashed;
      out, logsOffset, tail, request, stops, crashed :=
        PollOnce(info, rounds[k], Received(rounds, k), out, logsOffset, tail);
      requests := requests + request;
      if stops {
        return out, requests, if crashed then Crashed else Closed, k;
      }
      NotStoppedAsks(rounds[k]);
      k := k + 1;
    }
    return out, requests, StillPolling, k;
  }

  lemma NotStoppedAsks(round: Round)
    requires !Stops(round)
    ensures !round.cancelledBefore
  {
  }

  /** One iteration: the context check, the request, its logs, and the switch on the status. */
  method PollOnce(info: BuildInfo, round: Round, ghost before: seq<LogEntry>,
                  out0: seq<Event>, offset0: nat, tail0: seq<LogEntry>)
      returns (out: seq<Event>, logsOffset: nat, tail: seq<LogEntry>,
               request: seq<Option<int>>, stops: bool, crashed: bool)
    requires out0 == LogEvents(before) && offset0 == |before| && tail0 == LastEntries(before, LOG_TAIL_LIMIT)
    ensures stops <==> Stops(round)
    ensures crashed <==> !round.cancelledBefore && round.reply.NoBody?
    ensures request == if round.cancelledBefore then [] else [OffsetParam(|before|)]
    ensures var all := before + RoundLogs(round);
      && out == LogEvents(all) + (if stops then Terminal(info, round, all) else [])
      && logsOffset == |all| && tail == LastEntries(all, LOG_TAIL_LIMIT)
  {
    hide LogEvents, LastEntries, OffsetParam;
    out, logsOffset, tail, request, stops, crashed := out0, offset0, tail0, [], true, false;
    assert before + [] == before;
    if round.cancelledBefore {
      out := out + [Err(Cancelled)];
      return;
    }
    request := [OffsetParam(logsOffset)];
    match round.reply {
      case Failed(e) =>
        out := out + [Err(RequestFailed(e))];
      case NoBody =>
        crashed := true;
      case StatusReply(logs, status, reason) =>
        logsOffset := logsOffset + |logs|;
        out, tail := EmitLogs(before, logs, out, tail);
        if status == Ready {
          out := out + [Done(info)];
        } else if status == Error {
          var why := if reason.Some? then reason.value else Reason("", "");
          out := out + [Err(BuildFailed(info, why, tail))];
        } else if round.cancelledAfter {
          out := out + [Err(Cancelled)];
        } else {
          stops := false;
        }
    }
  }

  lemma NothingYet(rounds: seq<Round>)
    ensures LogEvents(Received(rounds, 0)) == [] && Received(rounds, 0) == []
    ensures LastEntries([], LOG_TAIL_LIMIT) == []
  {
  }

  lemma LogsSnoc(rounds: seq<Round>, k: nat)
    requires k < |rounds|
    ensures Received(rounds, k + 1) == Received(rounds, k) + RoundLogs(rounds[k])
  {
    assert rounds[..k + 1][..k] == rounds[..k];
  }

  /** emitLog for each entry of a reply: the tail keeps the last 20 entries. */
  method EmitLogs(ghost before: seq<LogEntry>, logs: seq<LogEntry>, out0: seq<Event>, tail0: seq<LogEntry>)
      returns (out: seq<Event>, tail: seq<LogEntry>)
    requires out0 == LogEvents(before) && tail0 == LastEntries(before, LOG_TAIL_LIMIT)
    ensures out == LogEvents(before + logs)
    ensures tail == LastEntries(before + logs, LOG_TAIL_LIMIT)
  {
    out, tail := out0, tail0;
    assert before + logs[..0] == before;
    for i := 0 to |logs|
      invariant out == LogEvents(before + logs[..i])
      invariant tail == LastEntries(before + logs[..i], LOG_TAIL_LIMIT)
    {
      var le := logs[i];
      if |tail| == LOG_TAIL_LIMIT {
        tail := tail[1..];
      }
      tail := tail + [le];
      assert before + logs[..i + 1] == (before + logs[..i]) + [le];
      LogEventsConcat(before + logs[..i], [le]);
      out := out + [Log(le)];
    }
    assert logs[..|logs|] == logs;
  }

  lemma LogEventsConcat(a: seq<LogEntry>, b: seq<LogEntry>)
    ensures LogEvents(a + b) == LogEvents(a) + LogEvents(b)
  {
  }

  // Against an honest server.

  /** `logs[i]` is the server's log when it answers request i; it only ever grows. */
  ghost predicate AppendOnly(logs: seq<seq<LogEntry>>) {
    forall i, j :: 0 <= i <= j < |logs| ==> logs[i] <= logs[j]
  }

  /** A contiguous chunk of the log, starting where the request asks, when that is a position of the log. */
  ghost predicate AnswersFrom(reply: seq<LogEntry>, log: seq<LogEntry>, from: int) {
    0 <= from <= |log| ==> from + |reply| <= |log| && reply == log[from..from + |reply|]
  }

  ghost predicate HonestRounds(rounds: seq<Round>, logs: seq<seq<LogEntry>>) {
    && |logs| == |rounds| && AppendOnly(logs)
    && forall i :: 0 <= i < |rounds| ==>
      AnswersFrom(RoundLogs(rounds[i]), logs[i], Requested(OffsetParam(|Received(rounds, i)|)))
  }

  /** The int32 parameter is the offset exactly below 2^31. */
  lemma OffsetFitsExactly(offset: nat)
    ensures Requested(OffsetParam(offset)) == offset <==> offset < 0x8000_0000
  {
  }

  /** A chunk that starts where a prefix of the log ends extends the prefix. */
  lemma ChunkExtends(had: seq<LogEntry>, chunk: seq<LogEntry>, log: seq<LogEntry>)
    requires had <= log && AnswersFrom(chunk, log, |had|)
    ensures had + chunk <= log
  {
  }

  /** The next answer of an honest server continues what was received. */
  ghost predicate Continues(had: seq<LogEntry>, chunk: seq<LogEntry>, log: seq<LogEntry>) {
    had <= log && AnswersFrom(chunk, log, Requested(OffsetParam(|had|))) ==> had + chunk <= log
  }

  /** After n entries every honest answer continues the log if and only if n is below 2^31. */
  lemma ContinuesExactly(n: nat)
    ensures (forall had, chunk, log :: |had| == n ==> Continues(had, chunk, log)) <==> n < 0x8000_0000
  {
    OffsetFitsExactly(n);
    if n < 0x8000_0000 {
      forall had, chunk, log | |had| == n
        ensures Continues(had, chunk, log)
      {
        if had <= log && AnswersFrom(chunk, log, n) {
          ChunkExtends(had, chunk, log);
        }
      }
    } else {
      var e := LogEntry("", "", 0);
      var had, chunk := seq(n, _ => e), [e];
      assert Requested(OffsetParam(n)) < n;
      assert AnswersFrom(chunk, had, Requested(OffsetParam(n)));
      assert !Continues(had, chunk, had);
    }
  }

  /** Over any number of polls the received entries are a prefix of the server's log: no gap, no repeat. */
  lemma {:induction false} LogsExactlyOnce(rounds: seq<Round>, logs: seq<seq<LogEntry>>, n: nat)
    requires HonestRounds(rounds, logs) && 0 < n <= |rounds|
    requires forall i :: 0 <= i < n ==> |Received(rounds, i)| < 0x8000_0000
    ensures Received(rounds, n) <= logs[n - 1]
  {
    hide Received, RoundLogs, OffsetParam, AnswersFrom, LogEvents, LastEntries;
    var had := Received(rounds, n - 1);
    if n == 1 {
      NothingYet(rounds);
    } else {
      LogsExactlyOnce(rounds, logs, n - 1);
      assert logs[n - 2] <= logs[n - 1];
    }
    OffsetFitsExactly(|had|);
    ChunkExtends(had, RoundLogs(rounds[n - 1]), logs[n - 1]);
    LogsSnoc(rounds, n - 1);
  }

  /** The entries of the Log events, in order. */
  function LogsOf(events: seq<Event>): seq<LogEntry> {
    if events == [] then []
    else
      var last := events[|events| - 1];
      LogsOf(events[..|events| - 1]) + if last.Log? then [last.entry] else []
  }

  lemma {:induction false} LogsOfLogEvents(logs: seq<LogEntry>)
    ensures LogsOf(LogEvents(logs)) == logs
  {
    if logs != [] {
      var last := |logs| - 1;
      LogsOfLogEvents(logs[..last]);
      LogEventsConcat(logs[..last], [logs[last]]);
      assert logs == logs[..last] + [logs[last]];
      assert LogEvents(logs)[..last] == LogEvents(logs[..last]);
    }
  }

  lemma LogsOfEmitted(info: BuildInfo, rounds: seq<Round>, k: nat)
    requires k <= |rounds|
    ensures LogsOf(Emitted(info, rounds, k)) == Received(rounds, Polled(rounds, k))
  {
    var received := Received(rounds, Polled(rounds, k));
    LogsOfLogEvents(received);
    if k < |rounds| {
      TerminalHasNoLogs(info, rounds[k], received);
      hide Received, LogEvents, Terminal;
      var terminal := Terminal(info, rounds[k], received);
      if terminal == [] {
        assert LogEvents(received) + terminal == LogEvents(received);
      } else {
        assert (LogEvents(received) + terminal)[..|LogEvents(received)|] == LogEvents(received);
      }
    } else {
      assert LogEvents(received) + [] == LogEvents(received);
    }
  }

  lemma TerminalHasNoLogs(info: BuildInfo, r: Round, logs: seq<LogEntry>)
    ensures |Terminal(info, r, logs)| <= 1
    ensures Terminal(info, r, logs) != [] ==> !Terminal(info, r, logs)[0].Log?
  {
  }

  /** The entries of all status replies, reply by reply. */
  function EntriesOf(rounds: seq<Round>): seq<LogEntry> {
    if rounds == [] then []
    else
      (match rounds[0]
       case Round(false, StatusReply(logs, _, _), _) => logs
       case _ => [])
      + EntriesOf(rounds[1..])
  }

  lemma {:induction false} EntriesSnoc(rounds: seq<Round>, round: Round)
    ensures EntriesOf(rounds + [round]) == EntriesOf(rounds) + EntriesOf([round])
  {
    if rounds == [] {
      assert rounds + [round] == [round];
    } else {
      assert (rounds + [round])[1..] == rounds[1..] + [round];
      EntriesSnoc(rounds[1..], round);
    }
  }

  /** What the rounds so far have brought is every entry of every reply. */
  lemma {:induction false} ReceivedIsEveryEntry(rounds: seq<Round>, n: nat)
    requires n <= |rounds|
    ensures Received(rounds, n) == EntriesOf(rounds[..n])
  {
    if n == 0 {
      NothingYet(rounds);
    } else {
      ReceivedIsEveryEntry(rounds, n - 1);
      LogsSnoc(rounds, n - 1);
      assert rounds[..n] == rounds[..n - 1] + [rounds[n - 1]];
      EntriesSnoc(rounds[..n - 1], rounds[n - 1]);
      assert [rounds[n - 1]][1..] == [];
      hide Received;
    }
  }

  /** The loop goes on after a status reply that says neither ready nor error, and after nothing else. */
  lemma GoesOnExactly(rounds: seq<Round>, k: nat)
    requires StopIndex(rounds, k)
    ensures forall i :: 0 <= i < k ==>
      && !rounds[i].cancelledBefore && !rounds[i].cancelledAfter && rounds[i].reply.StatusReply?
      && rounds[i].reply.status != Ready && rounds[i].reply.status != Error
    ensures k < |rounds| && !rounds[k].cancelledBefore && !rounds[k].cancelledAfter && rounds[k].reply.StatusReply? ==>
      rounds[k].reply.status == Ready || rounds[k].reply.status == Error
  {
  }

  /**
   * How the events end when the loop stops: Done for a ready build and for nothing else; for a failed build its
   * reason, or an empty one, with the last 20 entries; for a failed request its error; and otherwise Cancelled.
   */
  lemma LoopEnds(info: BuildInfo, rounds: seq<Round>, k: nat)
    requires StopIndex(rounds, k) && k < |rounds|
    ensures var (round, out) := (rounds[k], Emitted(info, rounds, k));
      var received := EntriesOf(rounds[..k + 1]);
      && LogsOf(out) == received
      && (round.cancelledBefore ==> out != [] && out[|out| - 1] == Err(Cancelled))
      && (!round.cancelledBefore && round.reply.Failed? ==>
            out != [] && out[|out| - 1] == Err(RequestFailed(round.reply.err)))
      && (!round.cancelledBefore && round.reply.NoBody? ==> |out| == |received|)
      && (!round.cancelledBefore && round.reply.StatusReply? ==>
            && out != [] && |out| == |received| + 1
            && (out[|out| - 1] == Done(info) <==> round.reply.status == Ready)
            && (round.reply.status == Error ==>
                  out[|out| - 1] == Err(BuildFailed(
                    info,
                    if round.reply.reason.Some? then round.reply.reason.value else Reason("", ""),
                    if |received| <= 20 then received else received[|received| - 20..])))
            && (round.reply.status != Ready && round.reply.status != Error ==> out[|out| - 1] == Err(Cancelled)))
  {
    LogsOfEmitted(info, rounds, k);
    ReceivedIsEveryEntry(rounds, k + 1);
    hide Received, EntriesOf, LogsOf;
    assert |LogEvents(Received(rounds, k + 1))| == |Received(rounds, k + 1)|;
  }

  /** So the Log events that the loop emits are a prefix of the server's log, as it was at the last poll. */
  lemma EmittedLogsArePrefix(info: BuildInfo, rounds: seq<Round>, logs: seq<seq<LogEntry>>, k: nat)
    requires HonestRounds(rounds, logs) && k <= |rounds|
    requires forall i :: 0 <= i < Polled(rounds, k) ==> |Received(rounds, i)| < 0x8000_0000
    ensures var n := Polled(rounds, k);
      LogsOf(Emitted(info, rounds, k)) <= if n == 0 then [] else logs[n - 1]
  {
    LogsOfEmitted(info, rounds, k);
    var n := Polled(rounds, k);
    if n == 0 {
      NothingYet(rounds);
    } else {
      LogsExactlyOnce(rounds, logs, n);
    }
  }

  lemma ReceivedAll(rounds: seq<Round>)
    ensures Received(rounds, |rounds|) == Logs(rounds)
  {
    assert rounds[..|rounds|] == rounds;
  }

  /** With 2^32 entries received the next request wraps to 0, and an honest server repeats its log. */
  lemma WrappedOffsetRepeats(e: LogEntry)
    ensures var all := seq(0x1_0000_0000, _ => e);
      var rounds := [Round(false, StatusReply(all, Building, None), false),
                     Round(false, StatusReply([e], Building, None), false)];
      HonestRounds(rounds, [all, all]) && !(Logs(rounds) <= all)
  {
    var all := seq(0x1_0000_0000, _ => e);
    var rounds := [Round(false, StatusReply(all, Building, None), false),
                   Round(false, StatusReply([e], Building, None), false)];
    assert rounds[..0] == [] && rounds[..1] == [rounds[0]] && [rounds[0]][..0] == [];
    assert Received(rounds, 0) == [] && Received(rounds, 1) == all;
    assert AnswersFrom(all, all, Requested(OffsetParam(0)));
    assert AnswersFrom([e], all, Requested(OffsetParam(|all|)));
    assert Logs(rounds) == all + [e];
  }
}
