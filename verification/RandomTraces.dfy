/**
 With its random numbers as a free choice, the random pattern produces exactly the balanced traces; the
 sequence and cycle traces are two of them.
 */
module RandomTraces {
  import opened Sequences
  import opened Schedule
  import opened Traces
  import opened Runs

  lemma {:induction false} TraceIsBalanced(p: Pattern, reps: seq<int>, pick: nat -> nat)
    requires Positive(reps)
    ensures Balanced(reps, PatternTrace(p, reps, pick))
  {
    var t := Max(0, Steps(p, reps));
    IdealRun(p, reps, pick, t);
    CountersAreTraceCounts(p, reps, Ideal(pick), t);
    CompleteWhenLongEnough(After(p, reps, Ideal(pick), t), reps);
    SumBounds(reps, 1, reps[Busiest(reps)]);
  }

  function Counts(trace: seq<nat>, n: nat): seq<int> {
    seq(n, i requires 0 <= i < n => Count(trace, i))
  }

  function IndexIn(s: seq<nat>, x: nat): (k: nat)
    requires x in s
    ensures k < |s| && s[k] == x
  {
    if s[0] == x then 0 else 1 + IndexIn(s[1..], x)
  }

  /** Random numbers that steer the pattern along `trace`. */
  ghost function Steer(reps: seq<int>, trace: seq<nat>): nat -> nat {
    (d: nat) =>
      if d + 1 < |trace| && trace[d + 1] in Unfinished(Counts(trace[..d + 1], |reps|), reps)
      then IndexIn(Unfinished(Counts(trace[..d + 1], |reps|), reps), trace[d + 1])
      else 0
  }

  lemma {:induction false} NotYetFinished(reps: seq<int>, trace: seq<nat>, t: nat)
    requires Balanced(reps, trace) && t < |trace|
    ensures Count(trace[..t], trace[t]) < reps[trace[t]]
  {
    assert trace == trace[..t + 1] + trace[t + 1..] && trace[..t + 1] == trace[..t] + [trace[t]];
    CountSplit(trace[..t + 1], trace[t + 1..], trace[t]);
    CountAppend(trace[..t], trace[t], trace[t]);
  }

  lemma {:induction false} CountsAppend(trace: seq<nat>, x: nat, n: nat)
    requires x < n
    ensures Counts(trace + [x], n) == Counts(trace, n)[x := Counts(trace, n)[x] + 1]
  {
    forall i: nat | i < n
      ensures Counts(trace + [x], n)[i] == Counts(trace, n)[x := Counts(trace, n)[x] + 1][i]
    {
      CountAppend(trace, x, i);
    }
  }

  /** Where the pattern is after t executions along `trace`. */
  function Along(reps: seq<int>, trace: seq<nat>, t: nat): State
    requires t < |trace|
  {
    State(trace[t], Counts(trace[..t], |reps|), trace[..t], t, Running)
  }

  lemma {:induction false} SteeredStart(reps: seq<int>, trace: seq<nat>)
    requires Positive(reps) && Balanced(reps, trace) && trace != []
    ensures After(Random, reps, Ideal(Steer(reps, trace)), 0) == Along(reps, trace, 0)
  {
    assert Counts([], |reps|) == Start(|reps|).execs;
  }

  lemma {:induction false} SteeredRun(reps: seq<int>, trace: seq<nat>, t: nat)
    requires Positive(reps) && Balanced(reps, trace) && t < |trace|
    ensures After(Random, reps, Ideal(Steer(reps, trace)), t) == Along(reps, trace, t)
  {
    hide After, Along;
    if t == 0 {
      SteeredStart(reps, trace);
    } else {
      SteeredRun(reps, trace, t - 1);
      SteeredAdvance(reps, trace, t - 1);
    }
  }

  lemma {:induction false} SteeredAdvance(reps: seq<int>, trace: seq<nat>, t: nat)
    requires Positive(reps) && Balanced(reps, trace) && t + 1 < |trace|
    requires After(Random, reps, Ideal(Steer(reps, trace)), t) == Along(reps, trace, t)
    ensures After(Random, reps, Ideal(Steer(reps, trace)), t + 1) == Along(reps, trace, t + 1)
  {
    SteeredStep(reps, trace, t);
    OneIteration(Random, reps, Ideal(Steer(reps, trace)), t, Along(reps, trace, t));
  }

  /** A random iteration that leaves work to do executes the current phase and draws one of the unfinished. */
  lemma {:induction false} RandomIteration(reps: seq<int>, pick: nat -> nat, s: State, k: nat)
    requires Fits(s, reps) && s.status.Running? && s.execs[s.cur] < reps[s.cur]
    requires var available := Unfinished(Execute(s, reps).execs, reps);
             k < |available| && k == pick(s.draws)
    ensures Iterate(Random, reps, Ideal(pick), s)
         == Execute(s, reps).(cur := Unfinished(Execute(s, reps).execs, reps)[k], draws := s.draws + 1)
  {
    var done := Execute(s, reps);
    SmallMod(k, |Unfinished(done.execs, reps)|);
    assert NextPhase(Random, s.cur, done.execs, reps, k) == Unfinished(done.execs, reps)[k];
    assert Iterate(Random, reps, Ideal(pick), s) == Advance(Random, reps, pick, done);
  }

  lemma {:induction false} SmallMod(k: nat, n: nat)
    requires k < n
    ensures k % n == k
  {
  }

  lemma {:induction false} SteeredStep(reps: seq<int>, trace: seq<nat>, t: nat)
    requires Positive(reps) && Balanced(reps, trace) && t + 1 < |trace|
    ensures Along(reps, trace, t).cur < |reps|
    ensures Iterate(Random, reps, Ideal(Steer(reps, trace)), Along(reps, trace, t)) == Along(reps, trace, t + 1)
  {
    var s := Along(reps, trace, t);
    NotYetFinished(reps, trace, t);
    NotYetFinished(reps, trace, t + 1);
    CountsAppend(trace[..t], trace[t], |reps|);
    assert trace[..t + 1] == trace[..t] + [trace[t]];
    assert Execute(s, reps).execs == Counts(trace[..t + 1], |reps|);
    var available := Unfinished(Execute(s, reps).execs, reps);
    UnfinishedMembers(Execute(s, reps).execs, reps);
    assert trace[t + 1] in available;
    RandomIteration(reps, Steer(reps, trace), s, IndexIn(available, trace[t + 1]));
  }

  /** Whatever it decides, an iteration without error that executes a phase only does the bookkeeping of one. */
  lemma {:induction false} IterationExecutes(p: Pattern, reps: seq<int>, pick: nat -> nat, s: State)
    requires Fits(s, reps) && s.execs[s.cur] < reps[s.cur]
    ensures Iterate(p, reps, Ideal(pick), s).trace == s.trace + [s.cur]
    ensures Iterate(p, reps, Ideal(pick), s).execs == s.execs[s.cur := s.execs[s.cur] + 1]
  {
  }

  /** The last steered iteration executes the last phase and leaves the counters at the repeats. */
  lemma {:induction false} SteeredEnd(reps: seq<int>, trace: seq<nat>, t: nat)
    requires Positive(reps) && Balanced(reps, trace) && t + 1 == |trace|
    ensures Along(reps, trace, t).cur < |reps|
    ensures var last := Iterate(Random, reps, Ideal(Steer(reps, trace)), Along(reps, trace, t));
            last.trace == trace && last.execs == reps
  {
    NotYetFinished(reps, trace, t);
    CountsAppend(trace[..t], trace[t], |reps|);
    assert trace[..t] + [trace[t]] == trace;
    assert Counts(trace, |reps|) == reps;
    IterationExecutes(Random, reps, Steer(reps, trace), Along(reps, trace, t));
  }

  lemma {:induction false} SteeringReaches(reps: seq<int>, trace: seq<nat>)
    requires Positive(reps) && Balanced(reps, trace)
    ensures PatternTrace(Random, reps, Steer(reps, trace)) == trace
  {
    hide Iterate;
    var t: nat := |trace| - 1;
    SteeredRun(reps, trace, t);
    SteeredEnd(reps, trace, t);
    OneIteration(Random, reps, Ideal(Steer(reps, trace)), t, Along(reps, trace, t));
    var s := After(Random, reps, Ideal(Steer(reps, trace)), |trace|);
    assert s.trace == trace && s.execs == reps;
    CountersAreTraceCounts(Random, reps, Ideal(Steer(reps, trace)), |trace|);
  }

  /** Soundness and reachability together. */
  lemma {:induction false} RandomTracesAreTheBalancedOnes(reps: seq<int>, trace: seq<nat>)
    requires Positive(reps)
    ensures Balanced(reps, trace) <==> exists pick: nat -> nat :: PatternTrace(Random, reps, pick) == trace
  {
    if Balanced(reps, trace) {
      SteeringReaches(reps, trace);
    }
    if pick: nat -> nat :| PatternTrace(Random, reps, pick) == trace {
      TraceIsBalanced(Random, reps, pick);
    }
  }

  /** Random may behave like either of the other two patterns. */
  lemma {:induction false} OtherPatternsAreRandomTraces(reps: seq<int>)
    requires Positive(reps)
    ensures exists pick: nat -> nat :: PatternTrace(Random, reps, pick) == SequenceTrace(reps)
    ensures exists pick: nat -> nat :: PatternTrace(Random, reps, pick) == CycleTrace(reps)
  {
    TraceIsBalanced(Sequence, reps, _ => 0);
    TraceIsBalanced(Cycle, reps, _ => 0);
    SteeringReaches(reps, SequenceTrace(reps));
    SteeringReaches(reps, CycleTrace(reps));
  }
}
