/**
 One worker and one interval reporter in the imperative form of the source (cmd/chaosmania/client.go:126-228,
 272-313), and why the reporter's differences never underflow in a concurrent phase.
 */
module Workers {
  import opened Options
  import opened MachineInts
  import opened Attempts
  import opened PhaseRun
  import opened PhaseLedger
  import opened PhaseStatistics

  // ----- runWorker

  class Statistics {
    var errors: uint64
    var requests: uint64
    var micros: uint64
    var allStatusCodes: map<int, nat>

    constructor ()
      ensures errors == 0 && requests == 0 && micros == 0 && allStatusCodes == map[]
    {
      errors, requests, micros, allStatusCodes := 0, 0, 0, map[];
    }
  }

  /** The attempts a worker makes: all of them, or up to the one that the context cancels. */
  function UntilCancelled(script: seq<Attempt>): seq<Attempt> {
    if script == [] then []
    else if script[0] == TransportError(true) then [script[0]]
    else [script[0]] + UntilCancelled(script[1..])
  }

  /** A beginning of the script, with no cancelled attempt but a last one, and all of it unless it has that. */
  lemma {:induction false} CancelledIsLast(script: seq<Attempt>)
    ensures var made := UntilCancelled(script);
            && made <= script
            && (forall i :: 0 <= i < |made| - 1 ==> made[i] != TransportError(true))
            && (|made| < |script| ==> made != [] && made[|made| - 1] == TransportError(true))
  {
    if script == [] {
    } else if script[0] == TransportError(true) {
    } else {
      CancelledIsLast(script[1..]);
      var rest := UntilCancelled(script[1..]);
      assert forall i :: 0 < i < |rest| + 1 ==> ([script[0]] + rest)[i] == rest[i - 1];
    }
  }

  /** The counters after the attempts in `log`, from what they were. */
  ghost predicate Counts(log: seq<Attempt>, requests0: int, errors0: int, micros0: int,
                         requests: int, errors: int, micros: int) {
    && requests == WrapU64(requests0 + Replies(log))
    && errors == WrapU64(errors0 + Failures(log))
    && micros == WrapU64(micros0 + Micros(log))
  }

  ghost predicate IsHistogram(m: map<int, nat>, log: seq<Attempt>) {
    && (forall k: int :: Get(m, k) == WithCode(log, k))
    && (forall k: int :: k in m <==> WithCode(log, k) > 0)
  }

  /** What recording `a` changes, in counters and local map. */
  ghost predicate Recorded(a: Attempt, codes: map<int, nat>, codes': map<int, nat>,
                           r: int, e: int, m: int, r': int, e': int, m': int) {
    && codes' == (if Counted(a) then codes[a.code := Get(codes, a.code) + 1] else codes)
    && r' == WrapU64(r + if Counted(a) then 1 else 0)
    && e' == WrapU64(e + if Failed(a) then 1 else 0)
    && m' == WrapU64(m + if Counted(a) then a.micros else 0)
  }

  lemma {:induction false} ReplyRecorded(log: seq<Attempt>, a: Attempt, r0: int, r: int, r': int)
    requires r == WrapU64(r0 + Replies(log)) && r' == WrapU64(r + if Counted(a) then 1 else 0)
    ensures r' == WrapU64(r0 + Replies(log + [a]))
  {
    hide WrapU64;
    RepliesAppend(log, a);
    WrapUSum(r0 + Replies(log), if Counted(a) then 1 else 0);
  }

  lemma {:induction false} FailureRecorded(log: seq<Attempt>, a: Attempt, e0: int, e: int, e': int)
    requires e == WrapU64(e0 + Failures(log)) && e' == WrapU64(e + if Failed(a) then 1 else 0)
    ensures e' == WrapU64(e0 + Failures(log + [a]))
  {
    hide WrapU64;
    RepliesAppend(log, a);
    WrapUSum(e0 + Failures(log), if Failed(a) then 1 else 0);
  }

  lemma {:induction false} TimeRecorded(log: seq<Attempt>, a: Attempt, m0: int, m: int, m': int)
    requires m == WrapU64(m0 + Micros(log)) && m' == WrapU64(m + if Counted(a) then a.micros else 0)
    ensures m' == WrapU64(m0 + Micros(log + [a]))
  {
    hide WrapU64;
    MicrosAppend(log, a);
    WrapUSum(m0 + Micros(log), if Counted(a) then a.micros else 0);
  }

  lemma {:induction false} RecordedCounts(log: seq<Attempt>, a: Attempt, codes: map<int, nat>, codes': map<int, nat>,
                                          r0: int, e0: int, m0: int, r: int, e: int, m: int, r': int, e': int, m': int)
    requires Counts(log, r0, e0, m0, r, e, m) && Recorded(a, codes, codes', r, e, m, r', e', m')
    ensures Counts(log + [a], r0, e0, m0, r', e', m')
  {
    hide WrapU64, Replies, Failures, Micros;
    ReplyRecorded(log, a, r0, r, r');
    FailureRecorded(log, a, e0, e, e');
    TimeRecorded(log, a, m0, m, m');
  }

  lemma {:induction false} RecordedHistogram(codes: map<int, nat>, log: seq<Attempt>, a: Attempt, codes': map<int, nat>)
    requires IsHistogram(codes, log)
    requires codes' == if Counted(a) then codes[a.code := Get(codes, a.code) + 1] else codes
    ensures IsHistogram(codes', log + [a])
  {
    forall k: int ensures WithCode(log + [a], k) == WithCode(log, k) + if Counted(a) && a.code == k then 1 else 0 {
      TallyAppend(log, a, HasCode(k));
    }
  }

  /** n attempts of the script are done, and `log` is what they were. */
  ghost predicate Progress(script: seq<Attempt>, n: nat, cancelled: bool, log: seq<Attempt>) {
    n <= |script| && UntilCancelled(script) == log + if cancelled then [] else UntilCancelled(script[n..])
  }

  lemma {:induction false} OneMoreAttempt(script: seq<Attempt>, n: nat, log: seq<Attempt>)
    requires n < |script| && Progress(script, n, false, log)
    ensures Progress(script, n + 1, script[n] == TransportError(true), log + [script[n]])
  {
    assert script[n..][1..] == script[n + 1..];
  }

  lemma {:induction false} AllAttempts(script: seq<Attempt>, n: nat, cancelled: bool, log: seq<Attempt>)
    requires Progress(script, n, cancelled, log) && (cancelled || n == |script|)
    ensures UntilCancelled(script) == log
  {
    assert n == |script| ==> script[n..] == [];
  }

  /** The bookkeeping of one finished request. */
  method Record(stats: Statistics, a: Attempt, statusCodes: map<int, nat>) returns (statusCodes': map<int, nat>)
    modifies stats`requests, stats`errors, stats`micros
    ensures Recorded(a, statusCodes, statusCodes', old(stats.requests), old(stats.errors), old(stats.micros),
                     stats.requests, stats.errors, stats.micros)
  {
    statusCodes' := statusCodes;
    match a {
      case TransportError(cancelled) =>
        if !cancelled {
          stats.errors := WrapU64(stats.errors + 1);
        }
      case Reply(code, micros, bodyRead) =>
        if code == 400 {
          if !bodyRead {
            return;
          }
        } else if code > 400 {
          stats.errors := WrapU64(stats.errors + 1);
        }
        stats.micros := WrapU64(stats.micros + micros);
        stats.requests := WrapU64(stats.requests + 1);
        statusCodes' := statusCodes'[code := Get(statusCodes', code) + 1];
    }
  }

  /** The request loop of a worker. */
  method MakeRequests(stats: Statistics, script: seq<Attempt>) returns (statusCodes: map<int, nat>)
    modifies stats`requests, stats`errors, stats`micros
    ensures Counts(UntilCancelled(script), old(stats.requests), old(stats.errors), old(stats.micros),
                   stats.requests, stats.errors, stats.micros)
    ensures IsHistogram(statusCodes, UntilCancelled(script))
  {
    hide WrapU64;
    statusCodes := map[];
    var n: nat, cancelled := 0, false;
    ghost var r0, e0, m0 := stats.requests, stats.errors, stats.micros;
    ghost var log: seq<Attempt> := [];
    assert script[0..] == script;
    while n < |script| && !cancelled
      invariant Progress(script, n, cancelled, log)
      invariant Counts(log, r0, e0, m0, stats.requests, stats.errors, stats.micros)
      invariant IsHistogram(statusCodes, log)
      decreases |script| - n
    {
      var a := script[n];
      ghost var r, e, m, codes := stats.requests, stats.errors, stats.micros, statusCodes;
      OneMoreAttempt(script, n, log);
      statusCodes := Record(stats, a, statusCodes);
      RecordedCounts(log, a, codes, statusCodes, r0, e0, m0, r, e, m, stats.requests, stats.errors, stats.micros);
      RecordedHistogram(codes, log, a, statusCodes);
      log := log + [a];
      n := n + 1;
      cancelled := a == TransportError(true);
    }
    AllAttempts(script, n, cancelled, log);
  }

  /**
   A worker that runs alone; `script` is how its requests end until the context is done. Its requests are counted
   once each, and its local status codes are added to the shared ones once. Without a usable URL it returns on
   its first request, having nothing to add.
   */
  method RunWorker(stats: Statistics, urlOk: bool, script: seq<Attempt>)
    modifies stats
    ensures var log := if urlOk then UntilCancelled(script) else [];
            && Counts(log, old(stats.requests), old(stats.errors), old(stats.micros),
                      stats.requests, stats.errors, stats.micros)
            && forall k: int :: Get(stats.allStatusCodes, k) == Get(old(stats.allStatusCodes), k) + WithCode(log, k)
  {
    hide WrapU64;
    if !urlOk {
      return;
    }
    var statusCodes := MakeRequests(stats, script);
    Merge(stats, statusCodes);
    forall k: int
      ensures Get(stats.allStatusCodes, k) == Get(old(stats.allStatusCodes), k) + WithCode(UntilCancelled(script), k)
    {
      assert Get(statusCodes, k) == WithCode(UntilCancelled(script), k);
    }
  }

  /** The loop that adds a local map to the shared one, in any order of its keys. */
  method Merge(stats: Statistics, statusCodes: map<int, nat>)
    modifies stats`allStatusCodes
    ensures forall k: int :: Get(stats.allStatusCodes, k) == Get(old(stats.allStatusCodes), k) + Get(statusCodes, k)
  {
    var todo := statusCodes.Keys;
    while true
      invariant todo <= statusCodes.Keys
      invariant forall k: int :: Get(stats.allStatusCodes, k) == Get(old(stats.allStatusCodes), k)
                                   + if k in todo then 0 else Get(statusCodes, k)
      decreases todo
    {
      if k :| k in todo {
        stats.allStatusCodes := stats.allStatusCodes[k := Get(stats.allStatusCodes, k) + statusCodes[k]];
        todo := todo - {k};
      } else {
        break;
      }
    }
  }

  // ----- The interval reporter

  /** A copy of the counters; its fields may be read at different times. */
  datatype Snapshot = Snapshot(errors: uint64, requests: uint64, micros: uint64)

  /** `perSecond` is the rate over the interval of ten seconds, `latency` a time.Duration in nanoseconds. */
  datatype Line = Line(requests: uint64, errors: uint64, ok: uint64, latency: int, perSecond: real)

  ghost predicate Monotone(ticks: seq<Snapshot>) {
    forall i, j :: 0 <= i <= j < |ticks| ==>
      ticks[i].errors <= ticks[j].errors && ticks[i].requests <= ticks[j].requests && ticks[i].micros <= ticks[j].micros
  }

  /** The number of ticks before the first one that has seen a request. */
  function QuietTicks(ticks: seq<Snapshot>): (q: nat)
    ensures q <= |ticks|
    ensures forall i :: 0 <= i < q ==> ticks[i].requests == 0
    ensures q < |ticks| ==> ticks[q].requests > 0
  {
    if ticks == [] || ticks[0].requests > 0 then 0 else 1 + QuietTicks(ticks[1..])
  }

  function Reported(lines: seq<Line>): int {
    if lines == [] then 0 else Reported(lines[..|lines| - 1]) + lines[|lines| - 1].requests
  }

  /** What a line says about two consecutive snapshots when nothing wrapped. */
  ghost predicate Describes(line: Line, last: Snapshot, current: Snapshot) {
    && line.requests as int == current.requests - last.requests
    && line.errors as int == current.errors - last.errors
    && line.ok as int == (if line.errors > line.requests then 0 else line.requests - line.errors)
    && line.perSecond * 10.0 == (current.requests - last.requests) as real
    && (line.requests > 0 ==>
          var average := (current.micros - last.micros) / (current.requests - last.requests);
          line.latency == 1000 * average <==> 1000 * average <= MAX_INT64)
    && (line.requests == 0 ==> line.ok == 0 && line.latency == 0)
  }

  /** One report; the differences are uint64 subtractions. */
  method Report(last: Snapshot, current: Snapshot) returns (line: Line)
    ensures last.errors <= current.errors && last.requests <= current.requests && last.micros <= current.micros ==>
              Describes(line, last, current)
  {
    var duration := WrapU64(current.micros - last.micros);
    var requests := WrapU64(current.requests - last.requests);
    var errors := WrapU64(current.errors - last.errors);
    var latency, ok := 0, 0;
    if requests > 0 {
      latency := AverageLatency(duration, requests);
      if errors <= requests {
        ok := requests - errors;
      }
    }
    line := Line(requests, errors, ok, latency, requests as real / 10.0);
  }

  /** Converting the average to a time.Duration is exact exactly when it fits in an int64 of nanoseconds. */
  method AverageLatency(duration: nat, requests: nat) returns (latency: int)
    requires requests > 0
    ensures latency == 1000 * (duration / requests) <==> 1000 * (duration / requests) <= MAX_INT64
  {
    var average := duration / requests;
    latency := Wrap64(Wrap64(average) * 1000);
  }

  /**
   The reporter's loop over its ticks. If the snapshots never decrease, each line after the first snapshot with
   requests is the exact difference to the one before, and the reported requests telescope.
   */
  method IntervalReporter(ticks: seq<Snapshot>) returns (lines: seq<Line>)
    ensures Monotone(ticks) ==> Explains(ticks, |ticks|, lines)
  {
    var last := Snapshot(0, 0, 0);
    lines := [];
    for t := 0 to |ticks|
      invariant Monotone(ticks) ==> Explains(ticks, t, lines)
      invariant Monotone(ticks) ==> if t <= QuietTicks(ticks) then last.requests == 0 else last == ticks[t - 1]
    {
      var current := ticks[t];
      if last.requests == 0 {
        last := current;
        continue;
      }
      var line := Report(last, current);
      if Monotone(ticks) {
        ExplainsOneMore(ticks, t, lines, line);
      }
      lines := lines + [line];
      last := current;
    }
  }

  /** The lines are the exact differences of the first t ticks, from the first one with requests on. */
  ghost predicate Explains(ticks: seq<Snapshot>, t: nat, lines: seq<Line>)
    requires t <= |ticks|
  {
    var q := QuietTicks(ticks);
    if t <= q then lines == [] else
      && |lines| == t - q - 1
      && (forall i: nat :: i < |lines| ==> Describes(lines[i], ticks[q + i], ticks[q + i + 1]))
      && Reported(lines) == ticks[t - 1].requests - ticks[q].requests
  }

  lemma {:induction false} ExplainsOneMore(ticks: seq<Snapshot>, t: nat, lines: seq<Line>, line: Line)
    requires QuietTicks(ticks) < t < |ticks| && Explains(ticks, t, lines) && Describes(line, ticks[t - 1], ticks[t])
    ensures Explains(ticks, t + 1, lines + [line])
  {
    assert (lines + [line])[..|lines|] == lines;
  }

  // ----- Its snapshots never decrease

  ghost predicate Small(log: seq<Attempt>) {
    Replies(log) < TWO_64 && Failures(log) < TWO_64 && Micros(log) < TWO_64
  }

  ghost predicate Exact(s: State) {
    && s.requests == Replies(s.log) - SumW(s.workers, OwedRequest())
    && s.errors == Failures(s.log) - SumW(s.workers, OwedError())
    && s.micros == Micros(s.log) - SumW(s.workers, OwedMicros())
  }

  /** Below 2^64 events the wrapped counters are the exact ones. */
  lemma {:induction false} SmallIsExact(cfg: Config, s: State)
    requires Ledger(cfg, s) && Small(s.log)
    ensures Exact(s)
  {
    SumWZero(s.workers, OwedRequest());
    SumWZero(s.workers, OwedError());
    SumWZero(s.workers, OwedMicros());
  }

  lemma {:induction false} StepNeverDecreases(cfg: Config, s: State, l: Label)
    requires Enabled(cfg, s, l) && Ledger(cfg, s) && Joins(cfg, s) && Small(Step(cfg, s, l).log)
    ensures var s' := Step(cfg, s, l);
            Small(s.log) && s.requests <= s'.requests && s.errors <= s'.errors && s.micros <= s'.micros
  {
    if l.WorkerStep? {
      WorkerStepNeverDecreases(cfg, s, l.i, l.c);
    } else {
      ControlSteps(cfg, s, l);
    }
  }

  lemma {:induction false} WorkerStepNeverDecreases(cfg: Config, s: State, i: nat, c: Choice)
    requires WorkerEnabled(cfg, s, i, c) && Ledger(cfg, s)
    requires Small(s.log + WorkerEffect(cfg, s, i, c).attempts)
    ensures var s' := Apply(s, i, WorkerEffect(cfg, s, i, c));
            Small(s.log) && s.requests <= s'.requests && s.errors <= s'.errors && s.micros <= s'.micros
  {
    var e := WorkerEffect(cfg, s, i, c);
    assert WorkerOk(cfg, s, i);
    StepBalances(cfg, s, i, c);
    RepliesGrow(s.log, e.attempts);
    MicrosGrow(s.log, e.attempts);
    SmallIsExact(cfg, s);
    WorkerStepKeepsLedger(cfg, s, i, c);
    SmallIsExact(cfg, Apply(s, i, e));
    SumWUpdate(s.workers, i, e.next, OwedRequest());
    SumWUpdate(s.workers, i, e.next, OwedError());
    SumWUpdate(s.workers, i, e.next, OwedMicros());
  }

  /** In every run with fewer than 2^64 events, a counter read later is never smaller. */
  lemma {:induction false} CountersNeverDecrease(cfg: Config, labels: seq<Label>, n: nat)
    requires n <= |labels| && Run(cfg, labels).Some? && Small(Run(cfg, labels).value.log)
    ensures Run(cfg, labels[..n]).Some?
    ensures var s, s' := Run(cfg, labels[..n]).value, Run(cfg, labels).value;
            Small(s.log) && s.requests <= s'.requests && s.errors <= s'.errors && s.micros <= s'.micros
  {
    if n == |labels| {
      assert labels[..n] == labels;
    } else {
      var shorter := labels[..|labels| - 1];
      Reachable(cfg, shorter);
      StepNeverDecreases(cfg, Run(cfg, shorter).value, labels[|labels| - 1]);
      CountersNeverDecrease(cfg, shorter, n);
      assert shorter[..n] == labels[..n];
    }
  }

  /** When a snapshot's fields were read: after how many steps of the run. */
  datatype Reads = Reads(errors: nat, requests: nat, micros: nat)

  predicate Sampled(cfg: Config, labels: seq<Label>, at: Reads, tick: Snapshot) {
    && at.errors <= |labels| && at.requests <= |labels| && at.micros <= |labels|
    && Run(cfg, labels[..at.errors]).Some? && tick.errors as int == Run(cfg, labels[..at.errors]).value.errors
    && Run(cfg, labels[..at.requests]).Some? && tick.requests as int == Run(cfg, labels[..at.requests]).value.requests
    && Run(cfg, labels[..at.micros]).Some? && tick.micros as int == Run(cfg, labels[..at.micros]).value.micros
  }

  /**
   The reporter's snapshots satisfy what IntervalReporter needs, even though the three fields of a snapshot may be
   read at different times, as long as each field of a later snapshot is read later.
   */
  lemma {:induction false} SnapshotsNeverDecrease(cfg: Config, labels: seq<Label>, times: seq<Reads>, ticks: seq<Snapshot>)
    requires Run(cfg, labels).Some? && Small(Run(cfg, labels).value.log) && |times| == |ticks|
    requires forall i :: 0 <= i < |ticks| ==> Sampled(cfg, labels, times[i], ticks[i])
    requires forall i, j :: 0 <= i <= j < |times| ==>
               && times[i].errors <= times[j].errors && times[i].requests <= times[j].requests
               && times[i].micros <= times[j].micros
    ensures Monotone(ticks)
  {
    forall i, j | 0 <= i <= j < |ticks|
      ensures ticks[i].errors <= ticks[j].errors && ticks[i].requests <= ticks[j].requests
              && ticks[i].micros <= ticks[j].micros
    {
      LaterReadsAreLarger(cfg, labels, times[i].errors, times[j].errors);
      LaterReadsAreLarger(cfg, labels, times[i].requests, times[j].requests);
      LaterReadsAreLarger(cfg, labels, times[i].micros, times[j].micros);
    }
  }

  lemma {:induction false} LaterReadsAreLarger(cfg: Config, labels: seq<Label>, m: nat, n: nat)
    requires m <= n <= |labels| && Run(cfg, labels).Some? && Small(Run(cfg, labels).value.log)
    ensures Run(cfg, labels[..m]).Some? && Run(cfg, labels[..n]).Some?
    ensures var s, s' := Run(cfg, labels[..m]).value, Run(cfg, labels[..n]).value;
            s.requests <= s'.requests && s.errors <= s'.errors && s.micros <= s'.micros
  {
    CountersNeverDecrease(cfg, labels, n);
    CountersNeverDecrease(cfg, labels[..n], m);
    assert labels[..n][..m] == labels[..m];
  }
}
