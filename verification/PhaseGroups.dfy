/**
 Which worker groups a phase starts, with how many workers, and when they stop
 (cmd/chaosmania/client.go:147-160, 253-336).
 */
module PhaseGroups {
  import opened MachineInts
  import opened Options
  import opened Attempts
  import opened PhaseRun
  import opened PhaseLedger
  import opened PhaseStatistics
  import opened PhaseTermination

  /** 1 for a worker of group g. */
  function InGroup(g: nat): Worker -> int {
    (w: Worker) => if w.group == g then 1 else 0
  }

  /** How many workers of group g have been started. */
  ghost function StartedIn(s: State, g: nat): int {
    SumW(s.workers, InGroup(g))
  }

  // ----- Every group in turn, each with all its workers

  ghost predicate GroupIsStaffed(cfg: Config, s: State, g: nat)
    requires g < |cfg.groups|
  {
    StartedIn(s, g) == if s.main.Spawning? && s.main.g == g then s.main.j else cfg.groups[g]
  }

  ghost predicate InTurn(cfg: Config, s: State) {
    && MainShape(cfg, s) && |s.wgs| <= |cfg.groups|
    && (s.main.FinalWait? || s.main.Finished? ==> s.phaseDone || |s.wgs| == |cfg.groups|)
    && (forall g: nat :: g < |s.wgs| ==> GroupIsStaffed(cfg, s, g))
    && (forall g: nat :: g >= |s.wgs| ==> StartedIn(s, g) == 0)
  }

  lemma {:induction false} GroupsStay(cfg: Config, s: State, i: nat, c: Choice, g: nat)
    requires WorkerEnabled(cfg, s, i, c)
    ensures StartedIn(Apply(s, i, WorkerEffect(cfg, s, i, c)), g) == StartedIn(s, g)
  {
    hide SumW;
    SumWUpdate(s.workers, i, WorkerEffect(cfg, s, i, c).next, InGroup(g));
    EffectOnJoins(cfg, s, i, c, g);
  }

  lemma {:induction false} WorkerKeepsTurn(cfg: Config, s: State, i: nat, c: Choice)
    requires WorkerEnabled(cfg, s, i, c) && InTurn(cfg, s)
    ensures InTurn(cfg, Step(cfg, s, WorkerStep(i, c)))
  {
    hide WorkerEffect, WrapU64, StartedIn;
    var s' := Step(cfg, s, WorkerStep(i, c));
    forall g: nat ensures StartedIn(s', g) == StartedIn(s, g) {
      GroupsStay(cfg, s, i, c, g);
    }
    forall g: nat | g < |s'.wgs| ensures GroupIsStaffed(cfg, s', g) {
      assert GroupIsStaffed(cfg, s, g);
    }
  }

  lemma {:induction false} ControlKeepsTurn(cfg: Config, s: State, l: Label)
    requires Enabled(cfg, s, l) && !l.WorkerStep? && InTurn(cfg, s)
    ensures InTurn(cfg, Step(cfg, s, l))
  {
    hide SumW;
    var s' := Step(cfg, s, l);
    ControlSteps(cfg, s, l);
    forall g: nat ensures StartedIn(s', g)
                       == StartedIn(s, g) + if s'.workers != s.workers && s.main.g == g then 1 else 0 {
      if s'.workers != s.workers {
        SumWAppend(s.workers, Worker(s.main.g, Select, map[]), InGroup(g));
      }
    }
    forall g: nat | g < |s'.wgs| ensures GroupIsStaffed(cfg, s', g) {
      assert g < |s.wgs| ==> GroupIsStaffed(cfg, s, g);
    }
  }

  lemma {:induction false} AlwaysInTurn(cfg: Config, labels: seq<Label>)
    requires Run(cfg, labels).Some?
    ensures InTurn(cfg, Run(cfg, labels).value)
  {
    hide InTurn, Step;
    if labels == [] {
      NobodyStarted(cfg);
    } else {
      var front, l := labels[..|labels| - 1], labels[|labels| - 1];
      AlwaysInTurn(cfg, front);
      if l.WorkerStep? {
        WorkerKeepsTurn(cfg, Run(cfg, front).value, l.i, l.c);
      } else {
        ControlKeepsTurn(cfg, Run(cfg, front).value, l);
      }
    }
  }

  lemma {:induction false} NobodyStarted(cfg: Config)
    ensures InTurn(cfg, Init())
  {
  }

  lemma {:induction false} PhaseDoneExactly(cfg: Config, labels: seq<Label>)
    requires Run(cfg, labels).Some?
    ensures Run(cfg, labels).value.phaseDone <==> PhaseExpires in labels
  {
    if labels == [] {
    } else {
      var front, l := labels[..|labels| - 1], labels[|labels| - 1];
      PhaseDoneExactly(cfg, front);
      assert labels == front + [l];
      StepOnPhase(cfg, Run(cfg, front).value, l);
    }
  }

  lemma {:induction false} StepOnPhase(cfg: Config, s: State, l: Label)
    requires Enabled(cfg, s, l)
    ensures Step(cfg, s, l).phaseDone <==> s.phaseDone || l.PhaseExpires?
  {
  }

  /** A group that has been launched and is not being spawned has exactly its workers; groups to come have none. */
  lemma {:induction false} GroupsHaveTheirWorkers(cfg: Config, labels: seq<Label>, g: nat)
    requires Run(cfg, labels).Some? && g < |cfg.groups|
    ensures var s := Run(cfg, labels).value;
            && |s.wgs| <= |cfg.groups|
            && StartedIn(s, g) == (if g >= |s.wgs| then 0
                                   else if s.main.Spawning? && s.main.g == g then s.main.j else cfg.groups[g])
  {
    AlwaysInTurn(cfg, labels);
    var s := Run(cfg, labels).value;
    assert g < |s.wgs| ==> GroupIsStaffed(cfg, s, g);
  }

  /** A phase that ends before its context expires has started every group, with all its workers. */
  lemma {:induction false} AllGroupsAreStarted(cfg: Config, labels: seq<Label>)
    requires Run(cfg, labels).Some? && Run(cfg, labels).value.main.Finished? && PhaseExpires !in labels
    ensures var s := Run(cfg, labels).value;
            && |s.wgs| == |cfg.groups|
            && forall g: nat :: g < |cfg.groups| ==> StartedIn(s, g) == cfg.groups[g]
  {
    AlwaysInTurn(cfg, labels);
    PhaseDoneExactly(cfg, labels);
    forall g: nat | g < |cfg.groups| ensures StartedIn(Run(cfg, labels).value, g) == cfg.groups[g] {
      GroupsHaveTheirWorkers(cfg, labels, g);
    }
  }

  /** The main goroutine waits, or is past waiting, in a phase whose context has expired. */
  ghost predicate NoMoreGroups(s: State) {
    s.phaseDone && (s.main.Waiting? || s.main.FinalWait? || s.main.Finished?)
  }

  lemma {:induction false} StepAddsNoGroup(cfg: Config, s: State, l: Label)
    requires Enabled(cfg, s, l) && NoMoreGroups(s)
    ensures NoMoreGroups(Step(cfg, s, l)) && |Step(cfg, s, l).wgs| == |s.wgs|
    ensures |Step(cfg, s, l).workers| == |s.workers|
  {
  }

  /** No group is started once the main goroutine comes to its wait in an expired phase. */
  lemma {:induction false} NoGroupAfterExpiry(cfg: Config, labels: seq<Label>, more: seq<Label>)
    requires Run(cfg, labels).Some? && Run(cfg, labels + more).Some?
    requires Run(cfg, labels).value.phaseDone && Run(cfg, labels).value.main.Waiting?
    ensures var s, s' := Run(cfg, labels).value, Run(cfg, labels + more).value;
            && |s'.wgs| == |s.wgs| && |s'.workers| == |s.workers|
            && NoMoreGroups(s')
  {
    hide Step;
    if more == [] {
      assert labels + more == labels;
    } else {
      var front, l := more[..|more| - 1], more[|more| - 1];
      assert labels + more == (labels + front) + [l];
      LastStep(cfg, labels + front, l);
      NoGroupAfterExpiry(cfg, labels, front);
      StepAddsNoGroup(cfg, Run(cfg, labels + front).value, l);
    }
  }

  // ----- Workers and reporters stop only when their context has expired

  /** Past the request loop. */
  predicate Stopped(w: Worker) {
    w.pc.Locking? || w.pc.Merging? || w.pc.Adding? || w.pc.Leaving? || w.pc.Signalling? || w.pc.Exited?
  }

  ghost predicate StoppedInTime(cfg: Config, s: State) {
    && (forall i :: 0 <= i < |s.workers| ==> s.workers[i].group < |s.groupDone|)
    && (cfg.urlOk ==>
          forall i :: 0 <= i < |s.workers| && Stopped(s.workers[i]) ==> s.groupDone[s.workers[i].group])
    && |s.reporters| == |s.groupDone|
    && (forall r :: 0 <= r < |s.reporters| && !s.reporters[r] ==> s.groupDone[r])
  }

  lemma {:induction false} StopsInTime(cfg: Config, s: State, i: nat, c: Choice)
    requires WorkerEnabled(cfg, s, i, c) && cfg.urlOk && Stopped(WorkerEffect(cfg, s, i, c).next)
    ensures Stopped(s.workers[i]) || CtxDone(s, s.workers[i])
  {
  }

  lemma {:induction false} WorkerKeepsStopped(cfg: Config, s: State, i: nat, c: Choice)
    requires WorkerEnabled(cfg, s, i, c) && StoppedInTime(cfg, s)
    ensures StoppedInTime(cfg, Step(cfg, s, WorkerStep(i, c)))
  {
    hide WrapU64, WorkerEffect;
    var s' := Step(cfg, s, WorkerStep(i, c));
    EffectOnJoins(cfg, s, i, c, 0);
    forall j | 0 <= j < |s'.workers|
      ensures s'.workers[j].group == s.workers[j].group
      ensures cfg.urlOk && Stopped(s'.workers[j]) ==> s.groupDone[s.workers[j].group]
    {
      if j == i && cfg.urlOk && Stopped(s'.workers[j]) {
        StopsInTime(cfg, s, i, c);
      }
    }
  }

  lemma {:induction false} StepKeepsStopped(cfg: Config, s: State, l: Label)
    requires Enabled(cfg, s, l) && Joins(cfg, s) && StoppedInTime(cfg, s)
    ensures StoppedInTime(cfg, Step(cfg, s, l))
  {
    if l.WorkerStep? {
      WorkerKeepsStopped(cfg, s, l.i, l.c);
    } else {
      hide WorkerEffect, SumW, WrapU64;
      ControlSteps(cfg, s, l);
    }
  }

  /** With a usable URL no worker leaves its loop, and no reporter ends, before its context has expired. */
  lemma {:induction false} OnlyExpiryStops(cfg: Config, labels: seq<Label>)
    requires Run(cfg, labels).Some?
    ensures var s := Run(cfg, labels).value;
            && (forall i :: 0 <= i < |s.workers| ==> s.workers[i].group < |s.groupDone|)
            && (cfg.urlOk ==>
                  forall i :: 0 <= i < |s.workers| && !s.groupDone[s.workers[i].group] ==> !Stopped(s.workers[i]))
            && |s.reporters| == |s.groupDone|
            && (forall r :: 0 <= r < |s.reporters| && !s.groupDone[r] ==> s.reporters[r])
  {
    hide Step;
    if labels == [] {
    } else {
      var front, l := labels[..|labels| - 1], labels[|labels| - 1];
      OnlyExpiryStops(cfg, front);
      Reachable(cfg, front);
      StepKeepsStopped(cfg, Run(cfg, front).value, l);
    }
  }

  /** A context expires when its label says so; only in an expired phase may it have been expired from the start. */
  lemma {:induction false} ContextsExpireAsLabelled(cfg: Config, labels: seq<Label>, g: nat)
    requires Run(cfg, labels).Some?
    ensures var s := Run(cfg, labels).value;
            && (GroupExpires(g) in labels ==> g < |s.groupDone| && s.groupDone[g])
            && (g < |s.groupDone| && s.groupDone[g] ==> GroupExpires(g) in labels || PhaseExpires in labels)
  {
    hide Step;
    if labels == [] {
    } else {
      var front, l := labels[..|labels| - 1], labels[|labels| - 1];
      ContextsExpireAsLabelled(cfg, front, g);
      PhaseDoneExactly(cfg, front);
      StepOnContexts(cfg, Run(cfg, front).value, l, g);
      assert labels == front + [l];
    }
  }

  lemma {:induction false} StepOnContexts(cfg: Config, s: State, l: Label, g: nat)
    requires Enabled(cfg, s, l)
    ensures var s' := Step(cfg, s, l);
            && |s.groupDone| <= |s'.groupDone|
            && (g < |s.groupDone| ==> (s'.groupDone[g] <==> s.groupDone[g] || l == GroupExpires(g)))
            && (|s.groupDone| <= g < |s'.groupDone| ==> (s'.groupDone[g] <==> s.phaseDone))
            && (l == GroupExpires(g) ==> g < |s.groupDone|)
  {
  }

  // ----- Until then it makes one request after the other, and any answer may come

  /** From s to s', worker i has become w' and has added to the counters; nothing else has changed but the history. */
  ghost predicate Did(s: State, s': State, i: nat, w': Worker, requests: nat, errors: nat, micros: nat) {
    && i < |s.workers|
    && s' == s.(workers := s.workers[i := w'], requests := WrapU64(s.requests + requests),
                errors := WrapU64(s.errors + errors), micros := WrapU64(s.micros + micros), log := s'.log)
  }

  /** The step with choice c takes a worker from w to w' and adds to the counters. */
  ghost predicate Leads(cfg: Config, s: State, i: nat, c: Choice, w': Worker, requests: nat, errors: nat, micros: nat) {
    && WorkerEnabled(cfg, s, i, c)
    && var e := WorkerEffect(cfg, s, i, c);
       && !s.workers[i].pc.Leaving? && !s.workers[i].pc.Signalling?
       && e.next == w' && e.requests == requests && e.errors == errors && e.micros == micros
       && e.allStatusCodes == s.allStatusCodes && e.mu == s.mu
  }

  lemma {:induction false} GoOnFrom(cfg: Config, labels: seq<Label>, s0: State, i: nat, c: Choice, w: Worker, w': Worker,
                                    r: nat, e: nat, m: nat, dr: nat, de: nat, dm: nat)
    requires Run(cfg, labels).Some? && Did(s0, Run(cfg, labels).value, i, w, r, e, m)
    requires Leads(cfg, Run(cfg, labels).value, i, c, w', dr, de, dm)
    ensures Run(cfg, labels + [WorkerStep(i, c)]).Some?
    ensures Did(s0, Run(cfg, labels + [WorkerStep(i, c)]).value, i, w', r + dr, e + de, m + dm)
  {
    hide WorkerEffect, WorkerEnabled, WrapU64, Run;
    var s := Run(cfg, labels).value;
    Extend(cfg, labels, WorkerStep(i, c));
    WrapUSum(s0.requests + r, dr);
    WrapUSum(s0.errors + e, de);
    WrapUSum(s0.micros + m, dm);
    assert s0.workers[i := w][i := w'] == s0.workers[i := w'];
  }

  lemma {:induction false} SelectToAnswer(cfg: Config, labels: seq<Label>, i: nat, k: int, m: nat) returns (longer: seq<Label>)
    requires cfg.urlOk && Run(cfg, labels).Some? && i < |Run(cfg, labels).value.workers|
    requires var s := Run(cfg, labels).value; s.workers[i].pc.Select? && !CtxDone(s, s.workers[i])
    ensures longer == labels + [WorkerStep(i, Go)] + [WorkerStep(i, Respond(k, m))]
    ensures Run(cfg, longer).Some?
    ensures var s := Run(cfg, labels).value;
            Did(s, Run(cfg, longer).value, i, s.workers[i].(pc := Answered(k, m)), 0, 0, 0)
  {
    hide Run, WrapU64;
    var s := Run(cfg, labels).value;
    var w := s.workers[i];
    Unchanged(cfg, labels, i);
    GoOnFrom(cfg, labels, s, i, Go, w, w.(pc := Requesting), 0, 0, 0, 0, 0, 0);
    longer := labels + [WorkerStep(i, Go)];
    GoOnFrom(cfg, longer, s, i, Respond(k, m), w.(pc := Requesting), w.(pc := Answered(k, m)), 0, 0, 0, 0, 0, 0);
    longer := longer + [WorkerStep(i, Respond(k, m))];
  }

  lemma {:induction false} Unchanged(cfg: Config, labels: seq<Label>, i: nat)
    requires Run(cfg, labels).Some? && i < |Run(cfg, labels).value.workers|
    ensures var s := Run(cfg, labels).value; Did(s, s, i, s.workers[i], 0, 0, 0)
  {
    hide WrapU64;
    var s := Run(cfg, labels).value;
    CountersFit(cfg, labels);
    assert s.workers[i := s.workers[i]] == s.workers;
  }

  lemma {:induction false} CountersFit(cfg: Config, labels: seq<Label>)
    requires Run(cfg, labels).Some?
    ensures var s := Run(cfg, labels).value; s.requests < TWO_64 && s.errors < TWO_64 && s.micros < TWO_64
  {
    hide WrapU64;
    Reachable(cfg, labels);
  }

  /** From the answer to its being counted, for a status below or above 400. */
  lemma {:induction false} CountAnswer(cfg: Config, before: seq<Label>, s: State, i: nat, w: Worker, k: int, m: nat)
    returns (longer: seq<Label>)
    requires Run(cfg, before).Some? && k != 400
    requires Did(s, Run(cfg, before).value, i, w.(pc := Answered(k, m)), 0, 0, 0)
    ensures before <= longer && Run(cfg, longer).Some?
    ensures Did(s, Run(cfg, longer).value, i, w.(pc := CountTime(k, m)), 0, if k > 400 then 1 else 0, 0)
  {
    hide Run, WrapU64;
    longer := before + [WorkerStep(i, Forced)];
    if k > 400 {
      GoOnFrom(cfg, before, s, i, Forced, w.(pc := Answered(k, m)), w.(pc := CountError(k, m)), 0, 0, 0, 0, 0, 0);
      GoOnFrom(cfg, longer, s, i, Forced, w.(pc := CountError(k, m)), w.(pc := CountTime(k, m)), 0, 0, 0, 0, 1, 0);
      longer := longer + [WorkerStep(i, Forced)];
    } else {
      GoOnFrom(cfg, before, s, i, Forced, w.(pc := Answered(k, m)), w.(pc := CountTime(k, m)), 0, 0, 0, 0, 0, 0);
    }
  }

  lemma {:induction false} FinishAnswer(cfg: Config, before: seq<Label>, s: State, i: nat, w: Worker, k: int, m: nat, e: nat)
    returns (longer: seq<Label>)
    requires Run(cfg, before).Some? && Did(s, Run(cfg, before).value, i, w.(pc := CountTime(k, m)), 0, e, 0)
    ensures before <= longer && Run(cfg, longer).Some?
    ensures Did(s, Run(cfg, longer).value, i,
                w.(pc := Select, statusCodes := w.statusCodes[k := Get(w.statusCodes, k) + 1]), 1, e, m)
  {
    hide Run, WrapU64;
    var w' := w.(pc := Select, statusCodes := w.statusCodes[k := Get(w.statusCodes, k) + 1]);
    GoOnFrom(cfg, before, s, i, Forced, w.(pc := CountTime(k, m)), w.(pc := CountRequest(k)), 0, e, 0, 0, 0, m);
    longer := before + [WorkerStep(i, Forced)];
    GoOnFrom(cfg, longer, s, i, Forced, w.(pc := CountRequest(k)), w.(pc := TallyCode(k)), 0, e, m, 1, 0, 0);
    longer := longer + [WorkerStep(i, Forced)];
    GoOnFrom(cfg, longer, s, i, Forced, w.(pc := TallyCode(k)), w', 1, e, m, 0, 0, 0);
    longer := longer + [WorkerStep(i, Forced)];
  }

  /**
   A worker whose context is alive may receive any answer to its next request; alone, it then counts it, with its
   time, its status and, above 400, as an error, and is ready for the next one.
   */
  lemma {:induction false} AnyAnswerMayCome(cfg: Config, labels: seq<Label>, i: nat, k: int, m: nat) returns (longer: seq<Label>)
    requires cfg.urlOk && Run(cfg, labels).Some? && i < |Run(cfg, labels).value.workers|
    requires var s := Run(cfg, labels).value; s.workers[i].pc.Select? && !CtxDone(s, s.workers[i])
    ensures labels <= longer && Run(cfg, longer).Some?
    ensures var s, s' := Run(cfg, labels).value, Run(cfg, longer).value;
            && |s'.workers| == |s.workers| && s'.workers[i].pc.Select?
            && s'.workers[i].statusCodes == s.workers[i].statusCodes[k := Get(s.workers[i].statusCodes, k) + 1]
            && s'.requests == WrapU64(s.requests + 1) && s'.micros == WrapU64(s.micros + m)
            && s'.errors == WrapU64(s.errors + if k > 400 then 1 else 0)
  {
    hide Run, WrapU64;
    var s := Run(cfg, labels).value;
    var w := s.workers[i];
    var answered := SelectToAnswer(cfg, labels, i, k, m);
    if k == 400 {
      GoOnFrom(cfg, answered, s, i, BodyRead(true), w.(pc := Answered(k, m)), w.(pc := CountTime(k, m)), 0, 0, 0, 0, 0, 0);
      answered := answered + [WorkerStep(i, BodyRead(true))];
      longer := FinishAnswer(cfg, answered, s, i, w, k, m, 0);
    } else {
      var timed := CountAnswer(cfg, answered, s, i, w, k, m);
      longer := FinishAnswer(cfg, timed, s, i, w, k, m, if k > 400 then 1 else 0);
    }
  }

  /** The same for a request that fails: it is an error, and changes nothing else. */
  lemma {:induction false} FailureMayCome(cfg: Config, labels: seq<Label>, i: nat) returns (longer: seq<Label>)
    requires cfg.urlOk && Run(cfg, labels).Some? && i < |Run(cfg, labels).value.workers|
    requires var s := Run(cfg, labels).value; s.workers[i].pc.Select? && !CtxDone(s, s.workers[i])
    ensures labels <= longer && Run(cfg, longer).Some?
    ensures var s, s' := Run(cfg, labels).value, Run(cfg, longer).value;
            s' == s.(errors := WrapU64(s.errors + 1), log := s'.log)
  {
    hide Run, WrapU64;
    var s := Run(cfg, labels).value;
    var w := s.workers[i];
    Unchanged(cfg, labels, i);
    GoOnFrom(cfg, labels, s, i, Go, w, w.(pc := Requesting), 0, 0, 0, 0, 0, 0);
    longer := labels + [WorkerStep(i, Go)];
    GoOnFrom(cfg, longer, s, i, Fail, w.(pc := Requesting), w.(pc := TransportFailed), 0, 0, 0, 0, 0, 0);
    longer := longer + [WorkerStep(i, Fail)];
    GoOnFrom(cfg, longer, s, i, Forced, w.(pc := TransportFailed), w.(pc := CountFailure), 0, 0, 0, 0, 0, 0);
    longer := longer + [WorkerStep(i, Forced)];
    GoOnFrom(cfg, longer, s, i, Forced, w.(pc := CountFailure), w, 0, 0, 0, 0, 1, 0);
    longer := longer + [WorkerStep(i, Forced)];
    CountersFit(cfg, labels);
    assert s.workers[i := w] == s.workers;
  }

  /** And a 400 whose body cannot be read changes nothing at all. */
  lemma {:induction false} BodyMayBeLost(cfg: Config, labels: seq<Label>, i: nat, m: nat) returns (longer: seq<Label>)
    requires cfg.urlOk && Run(cfg, labels).Some? && i < |Run(cfg, labels).value.workers|
    requires var s := Run(cfg, labels).value; s.workers[i].pc.Select? && !CtxDone(s, s.workers[i])
    ensures labels <= longer && Run(cfg, longer).Some?
    ensures var s, s' := Run(cfg, labels).value, Run(cfg, longer).value; s' == s.(log := s'.log)
  {
    hide Run, WrapU64;
    var s := Run(cfg, labels).value;
    var w := s.workers[i];
    var answered := SelectToAnswer(cfg, labels, i, 400, m);
    GoOnFrom(cfg, answered, s, i, BodyRead(false), w.(pc := Answered(400, m)), w, 0, 0, 0, 0, 0, 0);
    longer := answered + [WorkerStep(i, BodyRead(false))];
    CountersFit(cfg, labels);
    assert s.workers[i := w] == s.workers;
  }

  /** What may happen is up to the environment; only an expired context changes that. */
  lemma {:induction false} EnvironmentIsFree(cfg: Config, labels: seq<Label>, i: nat, k: int, m: nat)
    requires Run(cfg, labels).Some? && i < |Run(cfg, labels).value.workers|
    ensures var s := Run(cfg, labels).value;
            var w := s.workers[i];
            && w.group < |s.groupDone|
            && (w.pc.Select? ==> Enabled(cfg, s, WorkerStep(i, Go)))
            && (w.pc.Select? ==> (Enabled(cfg, s, WorkerStep(i, Stop)) <==> s.groupDone[w.group]))
            && (w.pc.Requesting? && cfg.urlOk ==> Enabled(cfg, s, WorkerStep(i, Fail)))
            && (w.pc.Requesting? && cfg.urlOk ==>
                  (Enabled(cfg, s, WorkerStep(i, Respond(k, m))) <==> !s.groupDone[w.group]))
            && (w.pc == Answered(400, m) ==>
                  Enabled(cfg, s, WorkerStep(i, BodyRead(true))) && Enabled(cfg, s, WorkerStep(i, BodyRead(false))))
            && Enabled(cfg, s, PhaseExpires)
            && forall g: nat :: Enabled(cfg, s, GroupExpires(g)) <==> g < |s.groupDone|
  {
    hide Run;
    OnlyExpiryStops(cfg, labels);
  }
}
