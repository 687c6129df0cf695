/**
 The wait groups of a phase, and what its statistics say once the main goroutine has passed the final wait,
 for every configuration and every interleaving.
 */
module PhaseStatistics {
  import opened Options
  import opened MachineInts
  import opened Attempts
  import opened PhaseRun
  import opened PhaseLedger

  /** 1 for a worker that has not yet decremented the phase's wait group. */
  function Alive(): Worker -> int {
    (w: Worker) => if w.pc.Signalling? || w.pc.Exited? then 0 else 1
  }

  /** 1 for a worker of group g that has not yet decremented its group's wait group. */
  function UnexitedIn(g: nat): Worker -> int {
    (w: Worker) => if w.group == g && !w.pc.Exited? then 1 else 0
  }

  function Running(reporters: seq<bool>): nat {
    if reporters == [] then 0
    else Running(reporters[..|reporters| - 1]) + if reporters[|reporters| - 1] then 1 else 0
  }

  function Unspawned(cfg: Config, main: MainPc, g: nat): int {
    if main.Spawning? && main.g == g && g < |cfg.groups| then cfg.groups[g] - main.j else 0
  }

  ghost predicate MainShape(cfg: Config, s: State) {
    match s.main
    case Launch(g) => |s.wgs| == g <= |cfg.groups|
    case Spawning(g, j) => |s.wgs| == g + 1 <= |cfg.groups| && j <= cfg.groups[g]
    case Waiting(g) => |s.wgs| == g + 1 <= |cfg.groups|
    case _ => true
  }

  /** The groups whose workers main has already waited for. */
  function Joined(s: State): int {
    if s.main.Spawning? || s.main.Waiting? then |s.wgs| - 1 else |s.wgs|
  }

  ghost predicate GroupCounts(cfg: Config, s: State, g: nat)
    requires g < |s.wgs|
  {
    s.wgs[g] == SumW(s.workers, UnexitedIn(g)) + Unspawned(cfg, s.main, g)
  }

  ghost predicate Joins(cfg: Config, s: State) {
    && MainShape(cfg, s)
    && (s.mu.Some? ==> s.mu.value < |s.workers|)
    && |s.reporters| == |s.groupDone| == |s.wgs|
    && (forall i :: 0 <= i < |s.workers| ==> s.workers[i].group < |s.wgs|)
    && s.allWg == SumW(s.workers, Alive()) + Running(s.reporters)
    && (forall g: nat :: g < |s.wgs| ==> GroupCounts(cfg, s, g))
    && (forall g: nat :: g < Joined(s) ==> s.wgs[g] == 0)
    && (s.main.Finished? ==> s.allWg == 0)
  }

  // ----- Steps keep the wait groups right

  lemma {:induction false} RunningUpdate(rs: seq<bool>, r: nat)
    requires r < |rs| && rs[r]
    ensures Running(rs[r := false]) == Running(rs) - 1
  {
    var n := |rs| - 1;
    if r < n {
      RunningUpdate(rs[..n], r);
      assert rs[r := false][..n] == rs[..n][r := false];
    } else {
      assert rs[r := false][..n] == rs[..n];
    }
  }

  lemma {:induction false} RunningAppend(rs: seq<bool>)
    ensures Running(rs + [true]) == Running(rs) + 1
  {
    assert (rs + [true])[..|rs|] == rs;
  }

  /** A worker stays in its group; it stops counting where it decrements. */
  lemma {:induction false} EffectOnJoins(cfg: Config, s: State, i: nat, c: Choice, g: nat)
    requires WorkerEnabled(cfg, s, i, c) && i < |s.workers|
    ensures var w, e := s.workers[i], WorkerEffect(cfg, s, i, c);
            && e.next.group == w.group
            && Alive()(e.next) == Alive()(w) - (if w.pc.Leaving? then 1 else 0)
            && UnexitedIn(g)(e.next) == UnexitedIn(g)(w) - (if w.pc.Signalling? && w.group == g then 1 else 0)
            && (e.mu.Some? ==> e.mu == s.mu || e.mu == Some(i))
  {
  }

  lemma {:induction false} WorkerKeepsJoins(cfg: Config, s: State, i: nat, c: Choice)
    requires WorkerEnabled(cfg, s, i, c) && Joins(cfg, s)
    ensures Joins(cfg, Step(cfg, s, WorkerStep(i, c)))
  {
    hide WrapU64, WorkerEffect;
    var e := WorkerEffect(cfg, s, i, c);
    var s' := Apply(s, i, e);
    SumWUpdate(s.workers, i, e.next, Alive());
    EffectOnJoins(cfg, s, i, c, 0);
    forall g: nat | g < |s'.wgs| ensures GroupCounts(cfg, s', g) {
      assert GroupCounts(cfg, s, g);
      EffectOnJoins(cfg, s, i, c, g);
      SumWUpdate(s.workers, i, e.next, UnexitedIn(g));
    }
    var g := s.workers[i].group;
    assert GroupCounts(cfg, s, g);
    CountsAreNatural(s.workers, g);
  }

  lemma {:induction false} CountsAreNatural(ws: seq<Worker>, g: nat)
    ensures SumW(ws, UnexitedIn(g)) >= 0 && SumW(ws, Alive()) >= 0
    ensures SumW(ws, UnexitedIn(g)) == 0 <==> forall i :: 0 <= i < |ws| ==> ws[i].group == g ==> ws[i].pc.Exited?
    ensures SumW(ws, Alive()) == 0 <==> forall i :: 0 <= i < |ws| ==> ws[i].pc.Signalling? || ws[i].pc.Exited?
  {
    SumWZero(ws, UnexitedIn(g));
    SumWZero(ws, Alive());
  }

  lemma {:induction false} LaunchKeepsCounts(cfg: Config, s: State, h: nat)
    requires s.main.Launch? && Joins(cfg, s) && h < |MainEffect(cfg, s).wgs|
    ensures GroupCounts(cfg, MainEffect(cfg, s), h)
  {
    CountsAreNatural(s.workers, s.main.g);
    assert h < s.main.g ==> GroupCounts(cfg, s, h);
  }

  lemma {:induction false} LaunchKeepsJoins(cfg: Config, s: State)
    requires s.main.Launch? && Joins(cfg, s)
    ensures Joins(cfg, MainEffect(cfg, s))
  {
    hide GroupCounts, SumW;
    var s' := MainEffect(cfg, s);
    RunningAppend(s.reporters);
    forall h: nat | h < |s'.wgs| ensures GroupCounts(cfg, s', h) {
      LaunchKeepsCounts(cfg, s, h);
    }
  }

  lemma {:induction false} SpawnKeepsCounts(cfg: Config, s: State, h: nat)
    requires s.main.Spawning? && MainShape(cfg, s) && h < |s.wgs| && GroupCounts(cfg, s, h)
    ensures h < |MainEffect(cfg, s).wgs| && GroupCounts(cfg, MainEffect(cfg, s), h)
  {
    SumWAppend(s.workers, Worker(s.main.g, Select, map[]), UnexitedIn(h));
  }

  lemma {:induction false} SpawnKeepsJoins(cfg: Config, s: State)
    requires s.main.Spawning? && Joins(cfg, s)
    ensures Joins(cfg, MainEffect(cfg, s))
  {
    var s' := MainEffect(cfg, s);
    if s'.main.Spawning? {
      var w := Worker(s.main.g, Select, map[]);
      SumWAppend(s.workers, w, Alive());
      assert s'.workers == s.workers + [w];
    } else {
      assert s' == s.(main := Waiting(s.main.g));
    }
    forall h: nat | h < |s'.wgs| ensures GroupCounts(cfg, s', h) {
      SpawnKeepsCounts(cfg, s, h);
    }
  }

  lemma {:induction false} OtherStepsKeepJoins(cfg: Config, s: State, l: Label)
    requires Enabled(cfg, s, l) && Joins(cfg, s)
    requires !l.WorkerStep? && (l.MainStep? ==> !s.main.Launch? && !s.main.Spawning?)
    ensures Joins(cfg, Step(cfg, s, l))
  {
    var s' := Step(cfg, s, l);
    if l.ReporterExits? {
      RunningUpdate(s.reporters, l.r);
      CountsAreNatural(s.workers, 0);
    }
    forall h: nat | h < |s'.wgs| ensures GroupCounts(cfg, s', h) {
      assert GroupCounts(cfg, s, h);
    }
  }

  // ----- Reachable states

  lemma {:induction false} Reachable(cfg: Config, labels: seq<Label>)
    requires Run(cfg, labels).Some?
    ensures Ledger(cfg, Run(cfg, labels).value) && Joins(cfg, Run(cfg, labels).value)
  {
    if labels == [] {
      InitiallyBalanced(cfg, Init());
    } else {
      var l := labels[|labels| - 1];
      Reachable(cfg, labels[..|labels| - 1]);
      var s := Run(cfg, labels[..|labels| - 1]).value;
      StepKeepsLedger(cfg, s, l);
      if l.WorkerStep? {
        WorkerKeepsJoins(cfg, s, l.i, l.c);
      } else if l.MainStep? && s.main.Launch? {
        LaunchKeepsJoins(cfg, s);
      } else if l.MainStep? && s.main.Spawning? {
        SpawnKeepsJoins(cfg, s);
      } else {
        OtherStepsKeepJoins(cfg, s, l);
      }
    }
  }

  lemma {:induction false} InitiallyBalanced(cfg: Config, s: State)
    requires s.workers == [] && s.log == [] && s.requests == 0 && s.errors == 0 && s.micros == 0
    requires s.allStatusCodes == map[] && s.mu.None? && s.main == Launch(0)
    requires s.wgs == [] && s.groupDone == [] && s.reporters == [] && s.allWg == 0
    ensures Ledger(cfg, s) && Joins(cfg, s)
  {
    EmptyCounters(s);
    forall k: int ensures CodeBalances(s, k) {
      EmptyCode(s, k);
    }
  }

  lemma {:induction false} EmptyCounters(s: State)
    requires s.workers == [] && s.log == [] && s.requests == 0 && s.errors == 0 && s.micros == 0
    ensures RequestsBalance(s) && ErrorsBalance(s) && MicrosBalance(s)
  {
    assert Replies([]) == Failures([]) == Micros([]) == 0;
    assert SumW([], OwedRequest()) == SumW([], OwedError()) == SumW([], OwedMicros()) == 0;
    assert WrapU64(0) == 0;
  }

  lemma {:induction false} EmptyCode(s: State, k: int)
    requires s.workers == [] && s.log == [] && s.allStatusCodes == map[]
    ensures CodeBalances(s, k)
  {
  }

  /** No wait group ever goes negative. */
  lemma {:induction false} WaitGroupsNeverNegative(cfg: Config, labels: seq<Label>)
    requires Run(cfg, labels).Some?
    ensures Run(cfg, labels).value.allWg >= 0
    ensures forall g: nat :: g < |Run(cfg, labels).value.wgs| ==> Run(cfg, labels).value.wgs[g] >= 0
  {
    var s := Run(cfg, labels).value;
    Reachable(cfg, labels);
    CountsAreNatural(s.workers, 0);
    forall g: nat | g < |s.wgs| ensures s.wgs[g] >= 0 {
      assert GroupCounts(cfg, s, g);
      CountsAreNatural(s.workers, g);
    }
  }

  /** While a group is started, running or being waited for, every worker of the groups before it has returned. */
  lemma {:induction false} WorkerGroupsNeverOverlap(cfg: Config, labels: seq<Label>, i: nat)
    requires Run(cfg, labels).Some?
    requires var s := Run(cfg, labels).value;
             && (s.main.Spawning? || s.main.Waiting?)
             && i < |s.workers| && s.workers[i].group != s.main.g
    ensures Run(cfg, labels).value.workers[i].pc.Exited?
  {
    var s := Run(cfg, labels).value;
    Reachable(cfg, labels);
    var g := s.workers[i].group;
    assert GroupCounts(cfg, s, g) && s.wgs[g] == 0;
    CountsAreNatural(s.workers, g);
  }

  /** At most one worker is merging, and whatever it has read of the shared map is still there. */
  lemma {:induction false} MergesAreExclusive(cfg: Config, labels: seq<Label>, i: nat, j: nat)
    requires Run(cfg, labels).Some?
    requires var ws := Run(cfg, labels).value.workers; i < |ws| && j < |ws| && InSection(ws[i]) && InSection(ws[j])
    ensures i == j
    ensures var s := Run(cfg, labels).value;
            s.workers[i].pc.Adding? ==> s.workers[i].pc.seen == Get(s.allStatusCodes, s.workers[i].pc.key)
  {
    var s := Run(cfg, labels).value;
    Reachable(cfg, labels);
    assert WorkerOk(cfg, s, i) && WorkerOk(cfg, s, j);
  }

  /**
   Conservation: after the final wait every request the workers made is accounted for, whatever the interleaving.
   The counters are the numbers of replies, errors and microseconds in the history, and the shared map is its
   histogram of status codes.
   */
  lemma {:induction false} StatisticsAreConserved(cfg: Config, labels: seq<Label>)
    requires Run(cfg, labels).Some? && Run(cfg, labels).value.main.Finished?
    ensures Conserved(Run(cfg, labels).value)
  {
    var s := Run(cfg, labels).value;
    Reachable(cfg, labels);
    CountsAreNatural(s.workers, 0);
    NothingOwed(cfg, s);
  }

  ghost predicate Conserved(s: State) {
    && s.requests == WrapU64(Replies(s.log))
    && s.errors == WrapU64(Failures(s.log))
    && s.micros == WrapU64(Micros(s.log))
    && (forall k: int :: Get(s.allStatusCodes, k) == WithCode(s.log, k))
    && (forall k: int :: k in s.allStatusCodes <==> WithCode(s.log, k) > 0)
  }

  lemma {:induction false} NothingOwed(cfg: Config, s: State)
    requires Ledger(cfg, s)
    requires forall i :: 0 <= i < |s.workers| ==> s.workers[i].pc.Signalling? || s.workers[i].pc.Exited?
    ensures Conserved(s)
  {
    hide WrapU64;
    SumWZero(s.workers, OwedRequest());
    SumWZero(s.workers, OwedError());
    SumWZero(s.workers, OwedMicros());
    forall k: int ensures Get(s.allStatusCodes, k) == WithCode(s.log, k) {
      assert CodeBalances(s, k);
      SumWZero(s.workers, OwedCode(k));
    }
    forall k: int ensures k in s.allStatusCodes <==> WithCode(s.log, k) > 0 {
      assert Get(s.allStatusCodes, k) == WithCode(s.log, k);
    }
  }

  /** The reported status codes in all, those above 400, and those of at most 400. */
  ghost function AllCodes(s: State): nat {
    Total(s.allStatusCodes, s.allStatusCodes.Keys)
  }

  ghost function BadCodes(s: State): nat {
    Total(s.allStatusCodes, Above400(s.allStatusCodes))
  }

  ghost function FineCodes(s: State): nat {
    Total(s.allStatusCodes, s.allStatusCodes.Keys - Above400(s.allStatusCodes))
  }

  ghost function AllErrors(s: State): nat {
    TransportErrors(s.log) + BadCodes(s)
  }

  lemma {:induction false} ConservedSums(s: State)
    requires Conserved(s)
    ensures s.requests == WrapU64(AllCodes(s)) && s.errors == WrapU64(AllErrors(s))
    ensures AllCodes(s) == BadCodes(s) + FineCodes(s)
  {
    hide WrapU64;
    HistogramSums(s.allStatusCodes, s.log);
  }

  /** The same, between the reported numbers only: errors are transport errors and codes above 400. */
  lemma {:induction false} CountersAgreeWithStatusCodes(cfg: Config, labels: seq<Label>)
    requires Run(cfg, labels).Some? && Run(cfg, labels).value.main.Finished?
    ensures var s := Run(cfg, labels).value;
            && s.requests == WrapU64(AllCodes(s)) && s.errors == WrapU64(AllErrors(s))
            && AllCodes(s) == BadCodes(s) + FineCodes(s)
  {
    hide Run, WrapU64;
    StatisticsAreConserved(cfg, labels);
    ConservedSums(Run(cfg, labels).value);
  }

  /** What the phase takes for its successful requests, from the counters. */
  function Difference(requests: int, errors: int): nat {
    WrapU64(requests - errors)
  }

  lemma {:induction false} WrappedDifference(a: int, b: int)
    ensures Difference(WrapU64(a), WrapU64(b)) == WrapU64(a - b)
  {
    hide WrapU64;
    WrapUSum(WrapU64(a), b);
    WrapUSum(a, -b);
  }

  lemma {:induction false} NothingSubtracted(fine: nat, transport: nat)
    ensures WrapU64(fine - transport) == fine <==> fine < TWO_64 && transport % TWO_64 == 0
  {
    var q := (fine - transport) / TWO_64;
    assert fine - transport == q * TWO_64 + WrapU64(fine - transport);
    if WrapU64(fine - transport) == fine {
      ModShift(0, -q);
    }
    if transport % TWO_64 == 0 {
      ModShift(fine, -(transport / TWO_64));
    }
  }

  lemma {:induction false} DifferenceIsFine(fine: nat, bad: nat, transport: nat)
    ensures var d := Difference(WrapU64(bad + fine), WrapU64(transport + bad));
            && (d == fine <==> fine < TWO_64 && transport % TWO_64 == 0)
            && (fine < TWO_64 && transport < TWO_64 ==> (d == fine <==> transport == 0))
            && (d == fine - transport <==> 0 <= fine - transport < TWO_64)
  {
    WrappedDifference(bad + fine, transport + bad);
    assert bad + fine - (transport + bad) == fine - transport;
    NothingSubtracted(fine, transport);
  }

  /**
   The difference of requests and errors, which the phase divides by as its successful requests, is the number of
   replies with a status of at most 400 exactly when no request failed in transport: such a request is an error but
   was never counted as a request. (Beyond 2^64 of either, exactly when the replies fit and the failures are a
   multiple of 2^64.)
   */
  lemma {:induction false} SuccessfulRequestsAreCounted(cfg: Config, labels: seq<Label>)
    requires Run(cfg, labels).Some? && Run(cfg, labels).value.main.Finished?
    ensures var s := Run(cfg, labels).value;
            Difference(s.requests, s.errors) == FineCodes(s) <==>
            FineCodes(s) < TWO_64 && TransportErrors(s.log) % TWO_64 == 0
    ensures var s := Run(cfg, labels).value;
            FineCodes(s) < TWO_64 && TransportErrors(s.log) < TWO_64 ==>
              (Difference(s.requests, s.errors) == FineCodes(s) <==> TransportErrors(s.log) == 0)
  {
    hide Run, WrapU64;
    var s := Run(cfg, labels).value;
    CountersAgreeWithStatusCodes(cfg, labels);
    DifferenceIsFine(FineCodes(s), BadCodes(s), TransportErrors(s.log));
  }

  /** That difference does not wrap exactly when transport errors do not outnumber those replies, and both fit. */
  lemma {:induction false} SuccessfulRequestsWrap(cfg: Config, labels: seq<Label>)
    requires Run(cfg, labels).Some? && Run(cfg, labels).value.main.Finished?
    ensures var s := Run(cfg, labels).value;
            Difference(s.requests, s.errors) == FineCodes(s) - TransportErrors(s.log) <==>
            0 <= FineCodes(s) - TransportErrors(s.log) < TWO_64
  {
    hide Run, WrapU64;
    var s := Run(cfg, labels).value;
    CountersAgreeWithStatusCodes(cfg, labels);
    DifferenceIsFine(FineCodes(s), BadCodes(s), TransportErrors(s.log));
  }

  // ----- Progress

  /** A step of the program itself, as opposed to an expiring context. */
  predicate ByProgram(l: Label) {
    l.MainStep? || l.ReporterExits? || l.WorkerStep?
  }

  /** The holder of the statistics mutex is never blocked. */
  lemma {:induction false} HolderCanStep(cfg: Config, s: State, i: nat) returns (l: Label)
    requires i < |s.workers| && InSection(s.workers[i])
    ensures ByProgram(l) && Enabled(cfg, s, l)
  {
    l := WorkerStep(i, Forced);
    if s.workers[i].pc.Merging? {
      var todo := s.workers[i].pc.todo;
      if k :| k in todo {
        l := WorkerStep(i, Key(k));
      }
    }
  }

  lemma {:induction false} WorkerCanStep(cfg: Config, s: State, i: nat) returns (l: Label)
    requires Ledger(cfg, s) && Joins(cfg, s) && i < |s.workers| && !s.workers[i].pc.Exited?
    ensures ByProgram(l) && Enabled(cfg, s, l)
  {
    var w := s.workers[i];
    match w.pc
    case Select => l := WorkerStep(i, Go);
    case Requesting => l := WorkerStep(i, if cfg.urlOk then Fail else Forced);
    case Answered(code, _) => l := WorkerStep(i, if code == 400 then BodyRead(true) else Forced);
    case Locking =>
      if s.mu.None? {
        l := WorkerStep(i, Forced);
      } else {
        assert WorkerOk(cfg, s, s.mu.value);
        l := HolderCanStep(cfg, s, s.mu.value);
      }
    case Merging(_) => l := HolderCanStep(cfg, s, i);
    case _ => l := WorkerStep(i, Forced);
  }

  lemma {:induction false} SomeReporterRuns(rs: seq<bool>) returns (r: nat)
    requires Running(rs) > 0
    ensures r < |rs| && rs[r]
  {
    var n := |rs| - 1;
    if rs[n] {
      r := n;
    } else {
      r := SomeReporterRuns(rs[..n]);
    }
  }

  /** Once the contexts have expired, an unfinished phase always has a goroutine that can go on. */
  lemma {:induction false} PhaseNeverDeadlocks(cfg: Config, labels: seq<Label>)
    requires Run(cfg, labels).Some? && !Run(cfg, labels).value.main.Finished?
    requires forall g :: 0 <= g < |Run(cfg, labels).value.groupDone| ==> Run(cfg, labels).value.groupDone[g]
    ensures exists l :: ByProgram(l) && Enabled(cfg, Run(cfg, labels).value, l)
  {
    var s := Run(cfg, labels).value;
    Reachable(cfg, labels);
    var l := MainStep;
    if !Enabled(cfg, s, MainStep) {
      if s.main.Waiting? {
        var g := s.main.g;
        assert GroupCounts(cfg, s, g);
        CountsAreNatural(s.workers, g);
        var i: nat :| i < |s.workers| && s.workers[i].group == g && !s.workers[i].pc.Exited?;
        l := WorkerCanStep(cfg, s, i);
      } else if Running(s.reporters) > 0 {
        var r := SomeReporterRuns(s.reporters);
        l := ReporterExits(r);
      } else {
        CountsAreNatural(s.workers, 0);
        var i: nat :| i < |s.workers| && !s.workers[i].pc.Signalling? && !s.workers[i].pc.Exited?;
        l := WorkerCanStep(cfg, s, i);
      }
    }
    assert ByProgram(l) && Enabled(cfg, s, l);
  }
}
