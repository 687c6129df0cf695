/**
 The statistics of a phase balance in every reachable state of every interleaving: what the counters and the
 shared map lack is exactly what the workers still owe them.
 */
module PhaseLedger {
  import opened Options
  import opened MachineInts
  import opened Attempts
  import opened PhaseRun

  // ----- Sums over workers

  ghost function SumW(ws: seq<Worker>, f: Worker -> int): int {
    if ws == [] then 0 else SumW(ws[..|ws| - 1], f) + f(ws[|ws| - 1])
  }

  lemma {:induction false} SumWUpdate(ws: seq<Worker>, i: nat, w: Worker, f: Worker -> int)
    requires i < |ws|
    ensures SumW(ws[i := w], f) == SumW(ws, f) - f(ws[i]) + f(w)
  {
    var n := |ws| - 1;
    if i < n {
      SumWUpdate(ws[..n], i, w, f);
      assert ws[i := w][..n] == ws[..n][i := w];
    } else {
      assert ws[i := w][..n] == ws[..n];
    }
  }

  lemma {:induction false} SumWAppend(ws: seq<Worker>, w: Worker, f: Worker -> int)
    ensures SumW(ws + [w], f) == SumW(ws, f) + f(w)
  {
    assert (ws + [w])[..|ws|] == ws;
  }

  lemma {:induction false} SumWZero(ws: seq<Worker>, f: Worker -> int)
    requires forall i :: 0 <= i < |ws| ==> f(ws[i]) >= 0
    ensures SumW(ws, f) >= 0
    ensures SumW(ws, f) == 0 <==> forall i :: 0 <= i < |ws| ==> f(ws[i]) == 0
  {
    if ws == [] {
    } else {
      var n := |ws| - 1;
      SumWZero(ws[..n], f);
      assert forall i :: 0 <= i < n ==> ws[..n][i] == ws[i];
    }
  }

  // ----- What a worker owes

  /** The reply a worker has received but not yet fully accounted for. */
  function OwedRequest(): Worker -> int {
    (w: Worker) => if w.pc.CountError? || w.pc.CountTime? || w.pc.CountRequest? then 1 else 0
  }

  function OwedError(): Worker -> int {
    (w: Worker) => if w.pc.CountFailure? || w.pc.CountError? then 1 else 0
  }

  function OwedMicros(): Worker -> int {
    (w: Worker) => if w.pc.CountError? || w.pc.CountTime? then w.pc.micros else 0
  }

  predicate Pending(w: Worker, k: int) {
    (w.pc.CountError? || w.pc.CountTime? || w.pc.CountRequest? || w.pc.TallyCode?) && w.pc.code == k
  }

  predicate Unmerged(w: Worker, k: int) {
    match w.pc
    case Merging(todo) => k in todo
    case Adding(todo, key, _) => k in todo || k == key
    case Leaving => false
    case Signalling => false
    case Exited => false
    case _ => true
  }

  function OwedCode(k: int): Worker -> int {
    (w: Worker) => (if Pending(w, k) then 1 else 0) + (if Unmerged(w, k) then Get(w.statusCodes, k) else 0)
  }

  // ----- The invariant

  predicate InSection(w: Worker) {
    w.pc.Merging? || w.pc.Adding?
  }

  /** Steps a worker can be at when its first request cannot even be built. */
  predicate Quiet(w: Worker) {
    && w.statusCodes == map[]
    && match w.pc
       case Select => true
       case Requesting => true
       case Locking => true
       case Merging(todo) => todo == {}
       case Leaving => true
       case Signalling => true
       case Exited => true
       case _ => false
  }

  ghost predicate WorkerOk(cfg: Config, s: State, i: nat)
    requires i < |s.workers|
  {
    var w := s.workers[i];
    && (InSection(w) <==> s.mu == Some(i))
    && (forall k :: k in w.statusCodes ==> w.statusCodes[k] > 0)
    && (!cfg.urlOk ==> Quiet(w))
    && match w.pc
       case Merging(todo) => todo <= w.statusCodes.Keys
       case Adding(todo, key, seen) =>
         todo <= w.statusCodes.Keys && key in w.statusCodes && key !in todo && seen == Get(s.allStatusCodes, key)
       case _ => true
  }

  ghost predicate RequestsBalance(s: State) {
    && s.requests == WrapU64(Replies(s.log) - SumW(s.workers, OwedRequest()))
    && Replies(s.log) >= SumW(s.workers, OwedRequest())
  }

  ghost predicate ErrorsBalance(s: State) {
    && s.errors == WrapU64(Failures(s.log) - SumW(s.workers, OwedError()))
    && Failures(s.log) >= SumW(s.workers, OwedError())
  }

  ghost predicate MicrosBalance(s: State) {
    && s.micros == WrapU64(Micros(s.log) - SumW(s.workers, OwedMicros()))
    && Micros(s.log) >= SumW(s.workers, OwedMicros())
  }

  ghost predicate CodeBalances(s: State, k: int) {
    Get(s.allStatusCodes, k) + SumW(s.workers, OwedCode(k)) == WithCode(s.log, k)
  }

  ghost predicate Ledger(cfg: Config, s: State) {
    && (forall i: nat :: i < |s.workers| ==> WorkerOk(cfg, s, i))
    && RequestsBalance(s) && ErrorsBalance(s) && MicrosBalance(s)
    && (forall k: int :: CodeBalances(s, k))
    && (forall k :: k in s.allStatusCodes ==> s.allStatusCodes[k] > 0)
  }

  // ----- One worker step

  /** A step moves exactly what it adds: debts, additions and new history stay in balance. */
  ghost predicate Balanced(w: Worker, e: Effect) {
    && |e.attempts| <= 1
    && OwedRequest()(e.next) + e.requests == OwedRequest()(w) + Replies(e.attempts)
    && OwedError()(e.next) + e.errors == OwedError()(w) + Failures(e.attempts)
    && OwedMicros()(e.next) + e.micros == OwedMicros()(w) + Micros(e.attempts)
  }

  lemma {:induction false} StepBalances(cfg: Config, s: State, i: nat, c: Choice)
    requires WorkerEnabled(cfg, s, i, c) && WorkerOk(cfg, s, i)
    ensures Balanced(s.workers[i], WorkerEffect(cfg, s, i, c))
  {
    hide Replies, Failures, Micros;
    var e := WorkerEffect(cfg, s, i, c);
    if e.attempts == [] {
      NoAttempts();
    } else {
      var a := e.attempts[0];
      assert e.attempts == [a];
      RepliesOne(a);
      MicrosOne(a);
    }
  }

  lemma {:induction false} StepBalancesCode(cfg: Config, s: State, i: nat, c: Choice, k: int)
    requires WorkerEnabled(cfg, s, i, c) && WorkerOk(cfg, s, i)
    ensures var w, e := s.workers[i], WorkerEffect(cfg, s, i, c);
            Get(e.allStatusCodes, k) + OwedCode(k)(e.next)
              == Get(s.allStatusCodes, k) + OwedCode(k)(w) + WithCode(e.attempts, k)
  {
    var e := WorkerEffect(cfg, s, i, c);
    if e.attempts != [] {
      assert e.attempts == [e.attempts[0]];
      TallyOne(e.attempts[0], HasCode(k));
    }
  }

  lemma {:induction false} TallyGrows(log: seq<Attempt>, more: seq<Attempt>, counts: Attempt -> bool)
    requires |more| <= 1
    ensures Tally(log + more, counts) == Tally(log, counts) + Tally(more, counts)
  {
    if more == [] {
      assert log + more == log;
    } else {
      assert more == [more[0]];
      TallyOne(more[0], counts);
      TallyAppend(log, more[0], counts);
    }
  }

  lemma {:induction false} MicrosGrow(log: seq<Attempt>, more: seq<Attempt>)
    requires |more| <= 1
    ensures Micros(log + more) == Micros(log) + Micros(more)
  {
    if more == [] {
      assert log + more == log;
    } else {
      assert more == [more[0]];
      MicrosOne(more[0]);
      MicrosAppend(log, more[0]);
    }
  }

  /** A counter that lacks what the workers owe still does after one worker has added to it. */
  lemma {:induction false} CounterKept(ws: seq<Worker>, i: nat, next: Worker, ws': seq<Worker>, f: Worker -> int,
                                       counter: nat, add: nat, counter': nat, total: nat, more: nat, total': nat)
    requires i < |ws| && counter == WrapU64(total - SumW(ws, f)) && total >= SumW(ws, f)
    requires ws' == ws[i := next] && f(next) + add == f(ws[i]) + more
    requires counter' == WrapU64(counter + add) && total' == total + more
    ensures counter' == WrapU64(total' - SumW(ws', f))
    ensures total' >= SumW(ws', f)
  {
    hide WrapU64;
    SumWUpdate(ws, i, next, f);
    WrapUSum(total - SumW(ws, f), add);
    assert total - SumW(ws, f) + add == total' - SumW(ws', f);
  }

  lemma {:induction false} RepliesGrow(log: seq<Attempt>, more: seq<Attempt>)
    requires |more| <= 1
    ensures Replies(log + more) == Replies(log) + Replies(more)
    ensures Failures(log + more) == Failures(log) + Failures(more)
  {
    if more == [] {
      assert log + more == log;
    } else {
      assert more == [more[0]];
      RepliesOne(more[0]);
      RepliesAppend(log, more[0]);
    }
  }

  lemma {:induction false} StepKeepsRequests(s: State, s': State, i: nat, e: Effect)
    requires i < |s.workers| && Balanced(s.workers[i], e) && RequestsBalance(s)
    requires s'.workers == s.workers[i := e.next] && s'.log == s.log + e.attempts
    requires s'.requests == WrapU64(s.requests + e.requests)
    ensures RequestsBalance(s')
  {
    hide WrapU64;
    RepliesGrow(s.log, e.attempts);
    CounterKept(s.workers, i, e.next, s'.workers, OwedRequest(), s.requests, e.requests, s'.requests,
                Replies(s.log), Replies(e.attempts), Replies(s'.log));
  }

  lemma {:induction false} StepKeepsErrors(s: State, s': State, i: nat, e: Effect)
    requires i < |s.workers| && Balanced(s.workers[i], e) && ErrorsBalance(s)
    requires s'.workers == s.workers[i := e.next] && s'.log == s.log + e.attempts
    requires s'.errors == WrapU64(s.errors + e.errors)
    ensures ErrorsBalance(s')
  {
    hide WrapU64;
    RepliesGrow(s.log, e.attempts);
    CounterKept(s.workers, i, e.next, s'.workers, OwedError(), s.errors, e.errors, s'.errors,
                Failures(s.log), Failures(e.attempts), Failures(s'.log));
  }

  lemma {:induction false} StepKeepsMicros(s: State, s': State, i: nat, e: Effect)
    requires i < |s.workers| && Balanced(s.workers[i], e) && MicrosBalance(s)
    requires s'.workers == s.workers[i := e.next] && s'.log == s.log + e.attempts
    requires s'.micros == WrapU64(s.micros + e.micros)
    ensures MicrosBalance(s')
  {
    hide WrapU64;
    MicrosGrow(s.log, e.attempts);
    CounterKept(s.workers, i, e.next, s'.workers, OwedMicros(), s.micros, e.micros, s'.micros,
                Micros(s.log), Micros(e.attempts), Micros(s'.log));
  }

  lemma {:induction false} WorkerStepKeepsCode(cfg: Config, s: State, i: nat, c: Choice, k: int)
    requires WorkerEnabled(cfg, s, i, c) && WorkerOk(cfg, s, i) && CodeBalances(s, k)
    ensures CodeBalances(Apply(s, i, WorkerEffect(cfg, s, i, c)), k)
  {
    var e := WorkerEffect(cfg, s, i, c);
    StepBalances(cfg, s, i, c);
    StepBalancesCode(cfg, s, i, c, k);
    TallyGrows(s.log, e.attempts, HasCode(k));
    SumWUpdate(s.workers, i, e.next, OwedCode(k));
  }

  /** Only the worker in the merge section touches the shared map, so what it has read stays current. */
  lemma {:induction false} WorkerStepKeepsOk(cfg: Config, s: State, i: nat, c: Choice, j: nat)
    requires WorkerEnabled(cfg, s, i, c) && WorkerOk(cfg, s, i) && j < |s.workers| && WorkerOk(cfg, s, j)
    ensures WorkerOk(cfg, Apply(s, i, WorkerEffect(cfg, s, i, c)), j)
  {
  }

  lemma {:induction false} CodesStayPositive(cfg: Config, s: State, i: nat, c: Choice)
    requires WorkerEnabled(cfg, s, i, c) && WorkerOk(cfg, s, i)
    requires forall k :: k in s.allStatusCodes ==> s.allStatusCodes[k] > 0
    ensures var codes := WorkerEffect(cfg, s, i, c).allStatusCodes; forall k :: k in codes ==> codes[k] > 0
  {
  }

  lemma {:induction false} WorkerStepKeepsLedger(cfg: Config, s: State, i: nat, c: Choice)
    requires WorkerEnabled(cfg, s, i, c) && Ledger(cfg, s)
    ensures Ledger(cfg, Step(cfg, s, WorkerStep(i, c)))
  {
    hide WrapU64, WorkerEffect, WorkerOk, RequestsBalance, ErrorsBalance, MicrosBalance, CodeBalances;
    var e := WorkerEffect(cfg, s, i, c);
    var s' := Apply(s, i, e);
    assert WorkerOk(cfg, s, i);
    StepBalances(cfg, s, i, c);
    CodesStayPositive(cfg, s, i, c);
    StepKeepsRequests(s, s', i, e);
    StepKeepsErrors(s, s', i, e);
    StepKeepsMicros(s, s', i, e);
    forall k: int ensures CodeBalances(s', k) {
      assert CodeBalances(s, k);
      WorkerStepKeepsCode(cfg, s, i, c, k);
    }
    forall j: nat | j < |s'.workers| ensures WorkerOk(cfg, s', j) {
      assert WorkerOk(cfg, s, j);
      WorkerStepKeepsOk(cfg, s, i, c, j);
    }
  }

  // ----- The other steps

  /** A new worker owes nothing. */
  lemma {:induction false} SpawnKeepsCounters(s: State, s': State, g: nat)
    requires s'.workers == s.workers + [Worker(g, Select, map[])] && SameStatistics(s, s')
    requires RequestsBalance(s) && ErrorsBalance(s) && MicrosBalance(s)
    ensures RequestsBalance(s') && ErrorsBalance(s') && MicrosBalance(s')
  {
    hide WrapU64, SumW, Replies, Failures, Micros;
    var w := Worker(g, Select, map[]);
    SumWAppend(s.workers, w, OwedRequest());
    SumWAppend(s.workers, w, OwedError());
    SumWAppend(s.workers, w, OwedMicros());
  }

  lemma {:induction false} SpawnKeepsLedger(cfg: Config, s: State, s': State, g: nat)
    requires Ledger(cfg, s) && s'.workers == s.workers + [Worker(g, Select, map[])]
    requires SameStatistics(s, s')
    requires s.mu.Some? ==> s.mu.value < |s.workers|
    ensures Ledger(cfg, s')
  {
    hide RequestsBalance, ErrorsBalance, MicrosBalance;
    SpawnKeepsCounters(s, s', g);
    forall k: int ensures CodeBalances(s', k) {
      assert CodeBalances(s, k);
      SumWAppend(s.workers, Worker(g, Select, map[]), OwedCode(k));
    }
    forall j: nat | j < |s'.workers| ensures WorkerOk(cfg, s', j) {
      assert j < |s.workers| ==> WorkerOk(cfg, s, j);
    }
  }

  /** Nothing of interest to the statistics changes. */
  predicate SameStatistics(s: State, s': State) {
    && s'.mu == s.mu && s'.log == s.log && s'.allStatusCodes == s.allStatusCodes
    && s'.requests == s.requests && s'.errors == s.errors && s'.micros == s.micros
  }

  lemma {:induction false} ControlKeepsLedger(cfg: Config, s: State, s': State)
    requires Ledger(cfg, s) && s'.workers == s.workers && SameStatistics(s, s')
    ensures Ledger(cfg, s')
  {
    hide WrapU64;
    forall j: nat | j < |s'.workers| ensures WorkerOk(cfg, s', j) {
      assert WorkerOk(cfg, s, j);
    }
    forall k: int ensures CodeBalances(s', k) {
      assert CodeBalances(s, k);
    }
  }

  /** Steps that are not a worker's leave the statistics alone and start at most one worker. */
  lemma {:induction false} ControlSteps(cfg: Config, s: State, l: Label)
    requires Enabled(cfg, s, l) && !l.WorkerStep?
    ensures var s' := Step(cfg, s, l);
            && SameStatistics(s, s')
            && (s'.workers == s.workers
                || (s.main.Spawning? && s'.workers == s.workers + [Worker(s.main.g, Select, map[])]))
  {
  }

  lemma {:induction false} StepKeepsLedger(cfg: Config, s: State, l: Label)
    requires Enabled(cfg, s, l) && Ledger(cfg, s) && (s.mu.Some? ==> s.mu.value < |s.workers|)
    ensures Ledger(cfg, Step(cfg, s, l))
  {
    if l.WorkerStep? {
      WorkerStepKeepsLedger(cfg, s, l.i, l.c);
    } else {
      var s' := Step(cfg, s, l);
      ControlSteps(cfg, s, l);
      if s'.workers == s.workers {
        ControlKeepsLedger(cfg, s, s');
      } else {
        SpawnKeepsLedger(cfg, s, s', s.main.g);
      }
    }
  }
}
