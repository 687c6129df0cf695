/** A phase whose only request fails: a run to its end in which the number of successful requests wraps. */
module PhaseLimits {
  import opened MachineInts
  import opened Options
  import opened Attempts
  import opened PhaseRun
  import opened PhaseStatistics
  import opened PhaseTermination

  const ONE_WORKER := Config([1], true)

  /** One group with one worker that has no status codes, and its reporter; the counters show `errors` errors. */
  datatype Scene = Scene(main: MainPc, pc: Pc, reporting: bool, wg: int, allWg: int, expired: bool, phaseDone: bool,
                         mu: Option<nat>, errors: nat, log: seq<Attempt>)

  function StateOf(x: Scene): State {
    State(x.main, [Worker(0, x.pc, map[])], [x.reporting], [x.wg], x.allWg, [x.expired], x.phaseDone,
          x.mu, 0, x.errors, 0, map[], x.log)
  }

  ghost predicate Leads(x: Scene, l: Label, y: Scene) {
    Enabled(ONE_WORKER, StateOf(x), l) && Step(ONE_WORKER, StateOf(x), l) == StateOf(y)
  }

  ghost predicate Reaches(labels: seq<Label>, x: Scene) {
    Run(ONE_WORKER, labels) == Some(StateOf(x))
  }

  lemma {:induction false} Continue(labels: seq<Label>, x: Scene, l: Label, y: Scene)
    requires Reaches(labels, x) && Leads(x, l, y)
    ensures Reaches(labels + [l], y)
  {
    Extend(ONE_WORKER, labels, l);
  }

  /** What a step of the worker makes of the scene. */
  ghost predicate Moves(x: Scene, c: Choice, y: Scene) {
    && WorkerEnabled(ONE_WORKER, StateOf(x), 0, c)
    && var e := WorkerEffect(ONE_WORKER, StateOf(x), 0, c);
       && e.next == Worker(0, y.pc, map[]) && e.allStatusCodes == map[] && e.requests == e.micros == 0
       && y == x.(pc := y.pc, mu := e.mu, errors := WrapU64(x.errors + e.errors), log := x.log + e.attempts,
                  allWg := x.allWg - (if x.pc.Leaving? then 1 else 0),
                  wg := x.wg - (if x.pc.Signalling? then 1 else 0))
  }

  lemma {:induction false} WorkerMoves(x: Scene, c: Choice, y: Scene)
    requires Moves(x, c, y)
    ensures Leads(x, WorkerStep(0, c), y)
  {
    assert Step(ONE_WORKER, StateOf(x), WorkerStep(0, c)).workers == StateOf(y).workers;
    assert Step(ONE_WORKER, StateOf(x), WorkerStep(0, c)).wgs == StateOf(y).wgs;
  }

  lemma {:induction false} Move(labels: seq<Label>, x: Scene, c: Choice, y: Scene) returns (longer: seq<Label>)
    requires Reaches(labels, x) && Moves(x, c, y)
    ensures Reaches(longer, y)
  {
    WorkerMoves(x, c, y);
    Continue(labels, x, WorkerStep(0, c), y);
    longer := labels + [WorkerStep(0, c)];
  }

  lemma {:induction false} WorkerStarts() returns (labels: seq<Label>)
    ensures Reaches(labels, Scene(Waiting(0), Select, true, 1, 2, false, false, None, 0, []))
  {
    assert Run(ONE_WORKER, []) == Some(Init());
    Extend(ONE_WORKER, [], MainStep);
    var s1 := State(Spawning(0, 0), [], [true], [1], 1, [false], false, None, 0, 0, 0, map[], []);
    assert Step(ONE_WORKER, Init(), MainStep) == s1;
    Extend(ONE_WORKER, [] + [MainStep], MainStep);
    var s2 := Scene(Spawning(0, 1), Select, true, 1, 2, false, false, None, 0, []);
    assert Step(ONE_WORKER, s1, MainStep) == StateOf(s2);
    labels := [] + [MainStep] + [MainStep];
    Continue(labels, s2, MainStep, s2.(main := Waiting(0)));
    labels := labels + [MainStep];
  }

  /** The request fails while the context is alive and is counted as an error. */
  lemma {:induction false} RequestFails() returns (labels: seq<Label>)
    ensures Reaches(labels, Scene(Waiting(0), Select, true, 1, 2, false, false, None, 1, [TransportError(false)]))
  {
    labels := WorkerStarts();
    var x0 := Scene(Waiting(0), Select, true, 1, 2, false, false, None, 0, []);
    var x1, x2 := x0.(pc := Requesting), x0.(pc := TransportFailed);
    var x3 := x0.(pc := CountFailure, log := [TransportError(false)]);
    labels := Move(labels, x0, Go, x1);
    labels := Move(labels, x1, Fail, x2);
    labels := Move(labels, x2, Forced, x3);
    labels := Move(labels, x3, Forced, x3.(pc := Select, errors := 1));
  }

  /** Its context expires, and the worker merges its empty map. */
  lemma {:induction false} WorkerMerges(before: seq<Label>, x: Scene) returns (labels: seq<Label>)
    requires Reaches(before, x) && x.pc.Select? && x.expired && x.mu.None? && x.errors < TWO_64
    ensures Reaches(labels, x.(pc := Leaving))
  {
    var x1, x2 := x.(pc := Locking), x.(pc := Merging({}), mu := Some(0));
    NothingToMerge(x1, x2);
    labels := Move(before, x, Stop, x1);
    labels := Move(labels, x1, Forced, x2);
    labels := Move(labels, x2, Forced, x.(pc := Leaving));
  }

  lemma {:induction false} NothingToMerge(x1: Scene, x2: Scene)
    requires x1.pc.Locking? && x1.mu.None? && x1.errors < TWO_64 && x2 == x1.(pc := Merging({}), mu := Some(0))
    ensures Moves(x1, Forced, x2)
  {
    assert StateOf(x1).workers[0].statusCodes.Keys == {};
  }

  /** The worker leaves both wait groups. */
  lemma {:induction false} WorkerReturns(before: seq<Label>, x: Scene) returns (labels: seq<Label>)
    requires Reaches(before, x) && x.pc.Leaving? && x.errors < TWO_64
    ensures Reaches(labels, x.(pc := Exited, wg := x.wg - 1, allWg := x.allWg - 1))
  {
    var x1 := x.(pc := Signalling, allWg := x.allWg - 1);
    labels := Move(before, x, Forced, x1);
    labels := Move(labels, x1, Forced, x1.(pc := Exited, wg := x.wg - 1));
  }

  /** The phase expires, and the main goroutine and the reporter finish. */
  lemma {:induction false} PhaseReturns(before: seq<Label>, x: Scene) returns (labels: seq<Label>)
    requires Reaches(before, x) && x == Scene(Waiting(0), Exited, true, 0, 1, true, false, None, 1, x.log)
    ensures Reaches(labels, x.(main := Finished, reporting := false, allWg := 0, phaseDone := true))
  {
    var x1 := x.(phaseDone := true);
    Continue(before, x, PhaseExpires, x1);
    labels := before + [PhaseExpires];
    var x2 := x1.(main := FinalWait);
    Continue(labels, x1, MainStep, x2);
    labels := labels + [MainStep];
    var x3 := x2.(reporting := false, allWg := 0);
    Continue(labels, x2, ReporterExits(0), x3);
    labels := labels + [ReporterExits(0)];
    Continue(labels, x3, MainStep, x3.(main := Finished));
    labels := labels + [MainStep];
  }

  /** The whole run, to an end that has seen one transport error and no reply. */
  lemma {:induction false} OneFailure() returns (labels: seq<Label>)
    ensures Reaches(labels, Scene(Finished, Exited, false, 0, 0, true, true, None, 1, [TransportError(false)]))
  {
    labels := RequestFails();
    var x := Scene(Waiting(0), Select, true, 1, 2, false, false, None, 1, [TransportError(false)]);
    Continue(labels, x, GroupExpires(0), x.(expired := true));
    labels := WorkerMerges(labels + [GroupExpires(0)], x.(expired := true));
    labels := WorkerReturns(labels, x.(expired := true, pc := Leaving));
    labels := PhaseReturns(labels, x.(expired := true, pc := Exited, wg := 0, allWg := 1));
  }

  /** There the difference of requests and errors is 2^64 - 1. */
  lemma {:induction false} SuccessfulRequestsCanWrap() returns (labels: seq<Label>)
    ensures Run(ONE_WORKER, labels).Some?
    ensures var s := Run(ONE_WORKER, labels).value;
            && s.main.Finished? && s.log == [TransportError(false)]
            && Difference(s.requests, s.errors) == TWO_64 - 1
  {
    labels := OneFailure();
    assert WrapU64(-1) == TWO_64 - 1;
  }
}
