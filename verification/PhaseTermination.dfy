/**
 A phase ends: once its contexts have expired every step of the program uses up some of a bounded amount of work,
 and as long as the phase is not finished there is such a step.
 */
module PhaseTermination {
  import opened Options
  import opened Attempts
  import opened PhaseRun
  import opened PhaseLedger
  import opened PhaseStatistics

  /** The phase's context has expired, and with it those of all groups started so far. */
  ghost predicate Expired(s: State) {
    s.phaseDone && forall g :: 0 <= g < |s.groupDone| ==> s.groupDone[g]
  }

  // ----- The work that is left

  /** An upper bound on the steps of a worker whose context has expired. */
  function WorkOf(w: Worker): nat {
    var merge := 2 * |w.statusCodes|;
    match w.pc
    case Exited => 0
    case Signalling => 1
    case Leaving => 2
    case Merging(todo) => 3 + 2 * |todo|
    case Adding(todo, _, _) => 4 + 2 * |todo|
    case Locking => 4 + merge
    case TransportFailed => 5 + merge
    case Requesting => 6 + merge
    case Select => 7 + merge
    case CountFailure => 8 + merge
    case TallyCode(_) => 10 + merge
    case CountRequest(_) => 11 + merge
    case CountTime(_, _) => 12 + merge
    case CountError(_, _) => 13 + merge
    case Answered(_, _) => 14 + merge
  }

  function WorkerWork(): Worker -> int {
    (w: Worker) => WorkOf(w)
  }

  /** The main goroutine's steps and those of the workers and the reporter it will still start. */
  function MainWork(cfg: Config, main: MainPc): int {
    match main
    case Launch(g) => if g < |cfg.groups| then 5 + 8 * cfg.groups[g] else 2
    case Spawning(g, j) => 3 + (if g < |cfg.groups| then 8 * (cfg.groups[g] - j) else 0)
    case Waiting(_) => 2
    case FinalWait => 1
    case Finished => 0
  }

  ghost function WorkLeft(cfg: Config, s: State): int {
    MainWork(cfg, s.main) + SumW(s.workers, WorkerWork()) + Running(s.reporters)
  }

  lemma {:induction false} WorkIsNatural(cfg: Config, s: State)
    requires Joins(cfg, s)
    ensures WorkLeft(cfg, s) >= 0
  {
    SumWZero(s.workers, WorkerWork());
  }

  lemma {:induction false} OneKeyMore(m: map<int, nat>, k: int, v: nat)
    ensures |m[k := v]| <= |m| + 1
  {
    assert m[k := v].Keys == m.Keys + {k};
    assert |m.Keys| == |m| && |m[k := v].Keys| == |m[k := v]|;
  }

  lemma {:induction false} OneKeyLess(todo: set<int>, k: int)
    requires k in todo
    ensures |todo - {k}| == |todo| - 1
  {
  }

  lemma {:induction false} MergeWorks(cfg: Config, s: State, i: nat, c: Choice)
    requires WorkerEnabled(cfg, s, i, c) && s.workers[i].pc.Merging?
    ensures WorkOf(WorkerEffect(cfg, s, i, c).next) < WorkOf(s.workers[i])
  {
    var todo := s.workers[i].pc.todo;
    if exists k :: k in todo {
      OneKeyLess(todo, c.k);
    }
  }

  lemma {:induction false} LockingWorks(cfg: Config, s: State, i: nat, c: Choice)
    requires WorkerEnabled(cfg, s, i, c) && s.workers[i].pc.Locking?
    ensures WorkOf(WorkerEffect(cfg, s, i, c).next) < WorkOf(s.workers[i])
  {
    var w := s.workers[i];
    assert |w.statusCodes.Keys| == |w.statusCodes|;
    assert WorkerEffect(cfg, s, i, c).next == w.(pc := Merging(w.statusCodes.Keys));
  }

  /** Under an expired context each step of a worker brings it closer to its end. */
  lemma {:induction false} WorkerWorks(cfg: Config, s: State, i: nat, c: Choice)
    requires WorkerEnabled(cfg, s, i, c) && CtxDone(s, s.workers[i])
    ensures WorkOf(WorkerEffect(cfg, s, i, c).next) < WorkOf(s.workers[i])
  {
    var w := s.workers[i];
    if w.pc.Merging? {
      MergeWorks(cfg, s, i, c);
    } else if w.pc.Locking? {
      LockingWorks(cfg, s, i, c);
    } else if w.pc.TallyCode? {
      OneKeyMore(w.statusCodes, w.pc.code, Get(w.statusCodes, w.pc.code) + 1);
    }
  }

  lemma {:induction false} MainWorks(cfg: Config, s: State)
    requires Enabled(cfg, s, MainStep) && Joins(cfg, s) && Expired(s)
    ensures WorkLeft(cfg, MainEffect(cfg, s)) < WorkLeft(cfg, s)
  {
    var s' := MainEffect(cfg, s);
    if s'.main.Spawning? && s.main.Launch? {
      RunningAppend(s.reporters);
    } else if s'.main.Spawning? {
      SumWAppend(s.workers, Worker(s.main.g, Select, map[]), WorkerWork());
    }
  }

  /** Expired contexts stay expired, and the program's steps use up work. */
  lemma {:induction false} StepUsesWork(cfg: Config, s: State, l: Label)
    requires Enabled(cfg, s, l) && Joins(cfg, s) && Expired(s)
    ensures Expired(Step(cfg, s, l))
    ensures WorkLeft(cfg, Step(cfg, s, l)) <= WorkLeft(cfg, s) - if ByProgram(l) then 1 else 0
  {
    match l
    case WorkerStep(i, c) =>
      WorkerWorks(cfg, s, i, c);
      SumWUpdate(s.workers, i, WorkerEffect(cfg, s, i, c).next, WorkerWork());
    case MainStep => MainWorks(cfg, s);
    case ReporterExits(r) => RunningUpdate(s.reporters, r);
    case _ =>
  }

  // ----- Runs after the expiry

  function ProgramSteps(labels: seq<Label>): nat {
    if labels == [] then 0
    else ProgramSteps(labels[..|labels| - 1]) + if ByProgram(labels[|labels| - 1]) then 1 else 0
  }

  lemma {:induction false} LastStep(cfg: Config, labels: seq<Label>, l: Label)
    requires Run(cfg, labels + [l]).Some?
    ensures Run(cfg, labels).Some? && Enabled(cfg, Run(cfg, labels).value, l)
    ensures Run(cfg, labels + [l]).value == Step(cfg, Run(cfg, labels).value, l)
  {
    assert (labels + [l])[..|labels|] == labels;
  }

  /** The run has expired, with no more than `work` left. */
  ghost predicate WindingDown(cfg: Config, labels: seq<Label>, work: int) {
    Run(cfg, labels).Some? && Expired(Run(cfg, labels).value) && WorkLeft(cfg, Run(cfg, labels).value) <= work
  }

  lemma {:induction false} LastStepUsesWork(cfg: Config, labels: seq<Label>, l: Label, work: int)
    requires WindingDown(cfg, labels, work) && Run(cfg, labels + [l]).Some?
    ensures WindingDown(cfg, labels + [l], work - if ByProgram(l) then 1 else 0)
  {
    Reachable(cfg, labels);
    LastStep(cfg, labels, l);
    StepUsesWork(cfg, Run(cfg, labels).value, l);
  }

  lemma {:induction false} OneMoreStep(more: seq<Label>, l: Label)
    ensures ProgramSteps(more + [l]) == ProgramSteps(more) + if ByProgram(l) then 1 else 0
  {
    assert (more + [l])[..|more|] == more;
  }

  lemma {:induction false} WorkIsUsedUp(cfg: Config, labels: seq<Label>, more: seq<Label>, work: int)
    requires WindingDown(cfg, labels, work) && Run(cfg, labels + more).Some?
    ensures WindingDown(cfg, labels + more, work - ProgramSteps(more))
  {
    if more == [] {
      assert labels + more == labels;
    } else {
      var front, l := more[..|more| - 1], more[|more| - 1];
      assert more == front + [l];
      assert labels + more == (labels + front) + [l];
      LastStep(cfg, labels + front, l);
      WorkIsUsedUp(cfg, labels, front, work);
      LastStepUsesWork(cfg, labels + front, l, work - ProgramSteps(front));
      OneMoreStep(front, l);
    }
  }

  /** However a run goes on after its contexts have expired, the program takes no more steps than work was left. */
  lemma {:induction false} ExpiredPhaseIsBounded(cfg: Config, labels: seq<Label>, more: seq<Label>)
    requires Run(cfg, labels).Some? && Expired(Run(cfg, labels).value)
    requires Run(cfg, labels + more).Some?
    ensures Expired(Run(cfg, labels + more).value)
    ensures ProgramSteps(more) + WorkLeft(cfg, Run(cfg, labels + more).value) <= WorkLeft(cfg, Run(cfg, labels).value)
    ensures ProgramSteps(more) <= WorkLeft(cfg, Run(cfg, labels).value)
  {
    WorkIsUsedUp(cfg, labels, more, WorkLeft(cfg, Run(cfg, labels).value));
    Reachable(cfg, labels + more);
    WorkIsNatural(cfg, Run(cfg, labels + more).value);
  }

  /** A run that the program cannot continue after the expiry has finished the phase. */
  lemma {:induction false} MaximalPhasesFinish(cfg: Config, labels: seq<Label>)
    requires Run(cfg, labels).Some? && Expired(Run(cfg, labels).value)
    requires forall l :: ByProgram(l) ==> !Enabled(cfg, Run(cfg, labels).value, l)
    ensures Run(cfg, labels).value.main.Finished? && Conserved(Run(cfg, labels).value)
  {
    if !Run(cfg, labels).value.main.Finished? {
      PhaseNeverDeadlocks(cfg, labels);
    }
    StatisticsAreConserved(cfg, labels);
  }

  // ----- Every run can be completed

  lemma {:induction false} Extend(cfg: Config, labels: seq<Label>, l: Label)
    requires Run(cfg, labels).Some? && Enabled(cfg, Run(cfg, labels).value, l)
    ensures Run(cfg, labels + [l]) == Some(Step(cfg, Run(cfg, labels).value, l))
  {
    assert (labels + [l])[..|labels|] == labels;
  }

  lemma {:induction false} Expire(cfg: Config, labels: seq<Label>, n: nat) returns (longer: seq<Label>)
    requires Run(cfg, labels).Some? && n <= |Run(cfg, labels).value.groupDone|
    ensures labels <= longer && Run(cfg, longer).Some?
    ensures var s, s' := Run(cfg, labels).value, Run(cfg, longer).value;
            s'.phaseDone && |s'.groupDone| == |s.groupDone| && forall g :: 0 <= g < n ==> s'.groupDone[g]
  {
    if n == 0 {
      longer := labels + [PhaseExpires];
      Extend(cfg, labels, PhaseExpires);
    } else {
      var fewer := Expire(cfg, labels, n - 1);
      longer := fewer + [GroupExpires(n - 1)];
      Extend(cfg, fewer, GroupExpires(n - 1));
    }
  }

  lemma {:induction false} ExpireAll(cfg: Config, labels: seq<Label>) returns (longer: seq<Label>)
    requires Run(cfg, labels).Some?
    ensures labels <= longer && Run(cfg, longer).Some? && Expired(Run(cfg, longer).value)
  {
    longer := Expire(cfg, labels, |Run(cfg, labels).value.groupDone|);
  }

  lemma {:induction false} GoOn(cfg: Config, labels: seq<Label>) returns (longer: seq<Label>)
    requires Run(cfg, labels).Some? && Expired(Run(cfg, labels).value) && !Run(cfg, labels).value.main.Finished?
    ensures labels <= longer && Run(cfg, longer).Some? && Expired(Run(cfg, longer).value)
    ensures 0 <= WorkLeft(cfg, Run(cfg, longer).value) < WorkLeft(cfg, Run(cfg, labels).value)
  {
    Reachable(cfg, labels);
    PhaseNeverDeadlocks(cfg, labels);
    var l :| ByProgram(l) && Enabled(cfg, Run(cfg, labels).value, l);
    longer := labels + [l];
    Extend(cfg, labels, l);
    StepUsesWork(cfg, Run(cfg, labels).value, l);
    Reachable(cfg, longer);
    WorkIsNatural(cfg, Run(cfg, longer).value);
  }

  lemma {:induction false} Finish(cfg: Config, labels: seq<Label>, work: nat) returns (longer: seq<Label>)
    requires Run(cfg, labels).Some? && Expired(Run(cfg, labels).value)
    requires WorkLeft(cfg, Run(cfg, labels).value) <= work
    ensures labels <= longer && Run(cfg, longer).Some? && Run(cfg, longer).value.main.Finished?
    decreases work
  {
    if Run(cfg, labels).value.main.Finished? {
      longer := labels;
    } else {
      longer := GoOn(cfg, labels);
      longer := Finish(cfg, longer, work - 1);
    }
  }

  /** Every run can go on to the end of the phase, and then its statistics are conserved. */
  lemma {:induction false} EveryPhaseCanFinish(cfg: Config, labels: seq<Label>) returns (longer: seq<Label>)
    requires Run(cfg, labels).Some?
    ensures labels <= longer && Run(cfg, longer).Some?
    ensures Run(cfg, longer).value.main.Finished? && Conserved(Run(cfg, longer).value)
  {
    var expired := ExpireAll(cfg, labels);
    Reachable(cfg, expired);
    WorkIsNatural(cfg, Run(cfg, expired).value);
    longer := Finish(cfg, expired, WorkLeft(cfg, Run(cfg, expired).value));
    StatisticsAreConserved(cfg, longer);
  }
}
