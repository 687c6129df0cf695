/**
 The phase scheduler as a state machine on values: one step is one iteration of the client's `for` loop
 (cmd/chaosmania/client.go:490-534), driven by the three pattern executors (pkg/actions/pattern.go:86-189).
 `reps[i]` is the repeat count of phase i. What a phase execution returns, and which unfinished phase the
 random pattern draws, are free: they are the two functions of `Env`.
 */
module Schedule {
  import opened Sequences

  datatype Pattern = Sequence | Cycle | Random

  /** What executing a phase returns: nil, context.DeadlineExceeded, or any other error. */
  datatype Verdict = NoError | DeadlineExceeded | PhaseError(code: int)

  datatype Status = Running | Completed | Failed(code: int)

  /** `verdict(k)` is the result of the k-th phase execution, `pick(d)` the d-th raw random number. */
  datatype Env = Env(verdict: nat -> Verdict, pick: nat -> nat)

  /** `draws` counts the random numbers consumed; `trace` lists the phases executed so far. */
  datatype State = State(cur: nat, execs: seq<int>, trace: seq<nat>, draws: nat, status: Status)

  predicate Fits(s: State, reps: seq<int>) {
    |s.execs| == |reps| && s.cur < |reps|
  }

  predicate IsComplete(execs: seq<int>, reps: seq<int>)
    requires |execs| == |reps|
  {
    forall i :: 0 <= i < |execs| ==> execs[i] >= reps[i]
  }

  /** The phases that still have executions left, in ascending order. */
  function Unfinished(execs: seq<int>, reps: seq<int>): (r: seq<nat>)
    requires |execs| == |reps|
    ensures Within(r, |execs|)
  {
    if execs == [] then [] else
      var n := |execs| - 1;
      Unfinished(execs[..n], reps[..n]) + (if execs[n] < reps[n] then [n] else [])
  }

  lemma {:induction false} UnfinishedMembers(execs: seq<int>, reps: seq<int>)
    requires |execs| == |reps|
    ensures forall k :: 0 <= k < |Unfinished(execs, reps)| ==>
              var i := Unfinished(execs, reps)[k]; execs[i] < reps[i]
    ensures forall i: nat :: i < |execs| && execs[i] < reps[i] ==> i in Unfinished(execs, reps)
    ensures Unfinished(execs, reps) == [] <==> IsComplete(execs, reps)
  {
    var unfinished := Unfinished(execs, reps);
    forall k | 0 <= k < |unfinished| ensures execs[unfinished[k]] < reps[unfinished[k]] {
      InUnfinished(execs, reps, unfinished[k]);
    }
    forall i: nat | i < |execs| && execs[i] < reps[i] ensures i in unfinished {
      InUnfinished(execs, reps, i);
    }
    if unfinished != [] {
      assert execs[unfinished[0]] < reps[unfinished[0]];
    }
  }

  lemma {:induction false} InUnfinished(execs: seq<int>, reps: seq<int>, i: nat)
    requires |execs| == |reps|
    ensures i in Unfinished(execs, reps) <==> i < |execs| && execs[i] < reps[i]
  {
    if execs == [] {
    } else {
      var n := |execs| - 1;
      var earlier := Unfinished(execs[..n], reps[..n]);
      InUnfinished(execs[..n], reps[..n], i);
      if execs[n] < reps[n] {
        assert Unfinished(execs, reps) == earlier + [n];
      } else {
        assert Unfinished(execs, reps) == earlier;
      }
    }
  }

  /** The candidates in ascending order, so none is named twice. */
  lemma {:induction false} UnfinishedAscends(execs: seq<int>, reps: seq<int>)
    requires |execs| == |reps|
    ensures forall j, k :: 0 <= j < k < |Unfinished(execs, reps)| ==>
              Unfinished(execs, reps)[j] < Unfinished(execs, reps)[k]
  {
    if execs == [] {
    } else {
      var n := |execs| - 1;
      UnfinishedAscends(execs[..n], reps[..n]);
      var earlier := Unfinished(execs[..n], reps[..n]);
      assert Within(earlier, n);
    }
  }

  ghost function UnfinishedSet(execs: seq<int>, reps: seq<int>): set<int>
    requires |execs| == |reps|
  {
    set i | 0 <= i < |execs| && execs[i] < reps[i]
  }

  /** There are as many as there are phases with executions left. */
  lemma {:induction false} UnfinishedCount(execs: seq<int>, reps: seq<int>)
    requires |execs| == |reps|
    ensures |Unfinished(execs, reps)| == |UnfinishedSet(execs, reps)|
  {
    if execs == [] {
      assert UnfinishedSet(execs, reps) == {};
    } else {
      var n := |execs| - 1;
      UnfinishedCount(execs[..n], reps[..n]);
      var earlier := UnfinishedSet(execs[..n], reps[..n]);
      if execs[n] < reps[n] {
        assert UnfinishedSet(execs, reps) == earlier + {n};
      } else {
        assert UnfinishedSet(execs, reps) == earlier;
      }
    }
  }

  /** The next phase index, or -1; `draw` is the random number an Intn call would use. */
  function NextPhase(p: Pattern, cur: nat, execs: seq<int>, reps: seq<int>, draw: nat): (r: int)
    requires cur < |execs| == |reps|
    ensures -1 <= r < |execs|
  {
    match p
    case Sequence =>
      if execs[cur] < reps[cur] then cur else if cur + 1 >= |execs| then -1 else cur + 1
    case Cycle =>
      if execs[cur] >= reps[cur] && IsComplete(execs, reps) then -1 else (cur + 1) % |execs|
    case Random =>
      var available := Unfinished(execs, reps);
      if available == [] then -1 else available[draw % |available|]
  }

  /**
   Random is fair to its candidates: with n phases unfinished, each is chosen for exactly one remainder of the draw
   modulo n, the number of unfinished phases below it.
   */
  lemma {:induction false} RandomIsFair(cur: nat, execs: seq<int>, reps: seq<int>, i: nat, draw: nat)
    requires cur < |execs| == |reps| && i < |execs| && execs[i] < reps[i]
    ensures var n := |UnfinishedSet(execs, reps)|;
            var below := |UnfinishedSet(execs[..i], reps[..i])|;
            && 0 <= below < n
            && (NextPhase(Random, cur, execs, reps, draw) == i <==> draw % n == below)
  {
    var all := Unfinished(execs, reps);
    UnfinishedMembers(execs, reps);
    UnfinishedAscends(execs, reps);
    UnfinishedCount(execs, reps);
    UnfinishedCount(execs[..i], reps[..i]);
    PlaceOf(execs, reps, i);
  }

  lemma {:induction false} PlaceOf(execs: seq<int>, reps: seq<int>, i: nat)
    requires |execs| == |reps| && i < |execs| && execs[i] < reps[i]
    ensures var place := |Unfinished(execs[..i], reps[..i])|;
            place < |Unfinished(execs, reps)| && Unfinished(execs, reps)[place] == i
  {
    var n := |execs| - 1;
    if i == n {
    } else {
      PlaceOf(execs[..n], reps[..n], i);
      assert execs[..n][..i] == execs[..i] && reps[..n][..i] == reps[..i];
    }
  }

  predicate ShouldAdvance(p: Pattern, cur: nat, execs: seq<int>, reps: seq<int>)
    requires cur < |execs| == |reps|
  {
    p.Sequence? ==> execs[cur] >= reps[cur]
  }

  function Start(n: nat): State {
    State(0, seq(n, _ => 0), [], 0, Running)
  }

  /** Ask the executor for the next phase: stop on -1, move there otherwise. */
  function Advance(p: Pattern, reps: seq<int>, pick: nat -> nat, s: State): (r: State)
    requires Fits(s, reps)
    ensures Fits(r, reps) && r.execs == s.execs && r.trace == s.trace
  {
    var next := NextPhase(p, s.cur, s.execs, reps, pick(s.draws));
    if next == -1 then s.(status := Completed)
    else s.(cur := next, draws := s.draws + if p.Random? then 1 else 0)
  }

  /** The bookkeeping of one phase execution. */
  function Execute(s: State, reps: seq<int>): (r: State)
    requires Fits(s, reps)
    ensures Fits(r, reps)
  {
    s.(execs := s.execs[s.cur := s.execs[s.cur] + 1], trace := s.trace + [s.cur])
  }

  /** One iteration of the client loop. */
  function Iterate(p: Pattern, reps: seq<int>, env: Env, s: State): (r: State)
    requires Fits(s, reps)
    ensures Fits(r, reps)
  {
    if s.execs[s.cur] >= reps[s.cur] then Advance(p, reps, env.pick, s)
    else
      var done := Execute(s, reps);
      var verdict := env.verdict(|s.trace|);
      if verdict.PhaseError? then done.(status := Failed(verdict.code))
      else if ShouldAdvance(p, done.cur, done.execs, reps) then Advance(p, reps, env.pick, done)
      else done
  }

  /** The state after `t` iterations; a loop that has returned stays where it is. */
  function After(p: Pattern, reps: seq<int>, env: Env, t: nat): (r: State)
    requires |reps| > 0
    ensures Fits(r, reps)
  {
    if t == 0 then Start(|reps|) else
      var s := After(p, reps, env, t - 1);
      if s.status.Running? then Iterate(p, reps, env, s) else s
  }

  lemma {:induction false} OneIteration(p: Pattern, reps: seq<int>, env: Env, t: nat, s: State)
    requires |reps| > 0 && After(p, reps, env, t) == s && s.status.Running?
    ensures After(p, reps, env, t + 1) == Iterate(p, reps, env, s)
  {
  }

  /** The environment in which every phase runs into its deadline, as it normally does. */
  function Ideal(pick: nat -> nat): Env {
    Env(_ => DeadlineExceeded, pick)
  }

  ghost predicate Positive(reps: seq<int>) {
    |reps| > 0 && forall i :: 0 <= i < |reps| ==> reps[i] >= 1
  }

  // ----- What holds of every pattern in every reachable state, failed runs included

  /** The counters record the trace, and none exceeds its repeat. */
  ghost predicate Tallied(s: State, reps: seq<int>) {
    && Fits(s, reps)
    && Within(s.trace, |reps|)
    && (forall i: nat :: i < |reps| ==> s.execs[i] == Count(s.trace, i))
    && (forall i: nat :: i < |reps| ==> s.execs[i] <= reps[i])
    && Sum(s.execs) == |s.trace|
    && (if s.trace == [] then s.cur == 0 else s.trace[0] == 0)
  }

  lemma {:induction false} ExecuteKeepsTally(s: State, reps: seq<int>)
    requires Tallied(s, reps) && s.execs[s.cur] < reps[s.cur]
    ensures Tallied(Execute(s, reps), reps)
  {
    SumUpdate(s.execs, s.cur, s.execs[s.cur] + 1);
    forall i: nat | i < |reps| ensures Execute(s, reps).execs[i] == Count(s.trace + [s.cur], i) {
      CountAppend(s.trace, s.cur, i);
    }
  }

  lemma {:induction false} CountersAreTraceCounts(p: Pattern, reps: seq<int>, env: Env, t: nat)
    requires Positive(reps)
    ensures Tallied(After(p, reps, env, t), reps)
  {
    if t == 0 {
      SumConstant(Start(|reps|).execs, 0);
    } else {
      var s := After(p, reps, env, t - 1);
      CountersAreTraceCounts(p, reps, env, t - 1);
      if s.status.Running? {
        StepKeepsTally(p, reps, env, s);
      }
    }
  }

  /** Moving to another phase is no bookkeeping. */
  lemma {:induction false} MoveKeepsTally(s: State, s': State, reps: seq<int>)
    requires Tallied(s, reps) && s.trace != []
    requires Fits(s', reps) && s'.execs == s.execs && s'.trace == s.trace
    ensures Tallied(s', reps)
  {
  }

  /** An iteration does the bookkeeping of at most one execution, and then at most moves. */
  lemma {:induction false} IterationMoves(p: Pattern, reps: seq<int>, env: Env, s: State)
    requires Fits(s, reps)
    ensures var r := Iterate(p, reps, env, s);
            r.execs == CallSite(s, reps).execs && r.trace == CallSite(s, reps).trace
  {
  }

  lemma {:induction false} StepKeepsTally(p: Pattern, reps: seq<int>, env: Env, s: State)
    requires Positive(reps) && Tallied(s, reps)
    ensures Tallied(Iterate(p, reps, env, s), reps)
  {
    hide Iterate, Tallied;
    TurnIsTallied(s, reps);
    IterationMoves(p, reps, env, s);
    MoveKeepsTally(CallSite(s, reps), Iterate(p, reps, env, s), reps);
  }

  lemma {:induction false} TurnIsTallied(s: State, reps: seq<int>)
    requires Positive(reps) && Tallied(s, reps)
    ensures Fits(s, reps) && Tallied(CallSite(s, reps), reps) && CallSite(s, reps).trace != []
  {
    if s.execs[s.cur] < reps[s.cur] {
      ExecuteKeepsTally(s, reps);
    } else {
      assert s.trace != [] by { assert s.execs[s.cur] == Count(s.trace, s.cur); }
    }
  }

  /** A tallied state is complete exactly when its counters equal the repeats, i.e. its trace is long enough. */
  lemma {:induction false} CompleteWhenLongEnough(s: State, reps: seq<int>)
    requires Tallied(s, reps)
    ensures |s.trace| <= Sum(reps)
    ensures IsComplete(s.execs, reps) <==> s.execs == reps
    ensures IsComplete(s.execs, reps) <==> |s.trace| == Sum(reps)
  {
    SumMonotone(s.execs, reps);
  }

  /** The state a pattern executor sees when the loop body of `s` calls its NextPhase. */
  function CallSite(s: State, reps: seq<int>): State
    requires Fits(s, reps)
  {
    if s.execs[s.cur] >= reps[s.cur] then s else Execute(s, reps)
  }
}
