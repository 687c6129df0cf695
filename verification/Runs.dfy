/**
 What whole runs of the scheduler do, for every pattern, every repeat table, every result of the phase
 executions and every sequence of random numbers.
 */
module Runs {
  import opened Sequences
  import opened Schedule
  import opened Traces

  /** The phases a run without errors executes, in order. */
  ghost function PatternTrace(p: Pattern, reps: seq<int>, pick: nat -> nat): seq<nat>
    requires Positive(reps)
  {
    match p
    case Sequence => SequenceTrace(reps)
    case Cycle => CycleTrace(reps)
    case Random => After(Random, reps, Ideal(pick), Max(0, Sum(reps))).trace
  }

  /** The exact number of loop iterations of a run without errors. */
  ghost function Steps(p: Pattern, reps: seq<int>): int
    requires Positive(reps)
  {
    if p.Cycle? then CycleSteps(reps) else Sum(reps)
  }

  /** Starts with phase 0 and contains each phase exactly as often as it repeats. */
  ghost predicate Balanced(reps: seq<int>, trace: seq<nat>) {
    && Within(trace, |reps|)
    && trace != [] && trace[0] == 0
    && forall i: nat :: i < |reps| ==> Count(trace, i) == reps[i]
  }

  // ----- Random

  ghost predicate RandomShape(reps: seq<int>, s: State, t: nat)
    requires Fits(s, reps)
  {
    match s.status
    case Running => |s.trace| == t == s.draws && s.execs[s.cur] < reps[s.cur]
    case Completed => s.execs == reps && |s.trace| <= t
    case Failed(_) => false
  }

  lemma {:induction false} RandomInvariant(reps: seq<int>, pick: nat -> nat, t: nat)
    requires Positive(reps)
    ensures RandomShape(reps, After(Random, reps, Ideal(pick), t), t)
  {
    hide Iterate;
    if t == 0 {
    } else {
      RandomInvariant(reps, pick, t - 1);
      CountersAreTraceCounts(Random, reps, Ideal(pick), t - 1);
      RandomAdvance(reps, pick, t - 1, After(Random, reps, Ideal(pick), t - 1));
    }
  }

  lemma {:induction false} RandomAdvance(reps: seq<int>, pick: nat -> nat, t: nat, s: State)
    requires Positive(reps) && After(Random, reps, Ideal(pick), t) == s
    requires Tallied(s, reps) && RandomShape(reps, s, t)
    ensures RandomShape(reps, After(Random, reps, Ideal(pick), t + 1), t + 1)
  {
    if s.status.Running? {
      RandomStep(reps, pick, s, t);
      OneIteration(Random, reps, Ideal(pick), t, s);
    } else {
      StoppedStays(Random, reps, Ideal(pick), t, t + 1);
    }
  }

  lemma {:induction false} RandomStep(reps: seq<int>, pick: nat -> nat, s: State, t: nat)
    requires Positive(reps) && Tallied(s, reps) && s.status.Running? && RandomShape(reps, s, t)
    ensures RandomShape(reps, Iterate(Random, reps, Ideal(pick), s), t + 1)
  {
    var done := Execute(s, reps);
    ExecuteKeepsTally(s, reps);
    CompleteWhenLongEnough(done, reps);
    UnfinishedMembers(done.execs, reps);
  }

  // ----- Iteration counts and final states of runs without errors

  lemma {:induction false} StoppedStays(p: Pattern, reps: seq<int>, env: Env, t: nat, u: nat)
    requires |reps| > 0 && t <= u && !After(p, reps, env, t).status.Running?
    ensures After(p, reps, env, u) == After(p, reps, env, t)
  {
    if t == u {
    } else {
      StoppedStays(p, reps, env, t, u - 1);
    }
  }

  /** A cycle state that is not complete lies before the busiest phase's last turn. */
  lemma {:induction false} CyclePosition(reps: seq<int>, execs: seq<int>, k: nat, c: nat)
    requires Positive(reps) && c < |reps| && AtRound(reps, execs, k, c) && !IsComplete(execs, reps)
    ensures RoundStart(|reps|, k) + c < CycleSteps(reps)
  {
    var m, n := Busiest(reps), |reps|;
    var j :| 0 <= j < n && execs[j] < reps[j];
    assert k < reps[m] - 1 || (k == reps[m] - 1 && c <= m) by {
      assert execs[j] == Min(reps[j], if j < c then k + 1 else k);
    }
    RoundStartIsProduct(n, k);
    if k < reps[m] - 1 {
      EarlierRound(n, k, reps[m] - 1);
    }
  }

  lemma {:induction false} EarlierRound(n: nat, k: nat, l: nat)
    requires k < l
    ensures k * n + n <= l * n
  {
    assert (l - k - 1) * n >= 0;
    assert l * n == k * n + n + (l - k - 1) * n;
  }

  /** Status and result of the ideal run after t iterations. */
  ghost predicate IdealShape(p: Pattern, reps: seq<int>, pick: nat -> nat, s: State, t: nat)
    requires Positive(reps)
  {
    && (s.status.Running? <==> t < Steps(p, reps))
    && (s.status.Completed? <==> t >= Steps(p, reps))
    && (s.status.Completed? ==> s.execs == reps && s.trace == PatternTrace(p, reps, pick))
  }

  lemma {:induction false} SequenceRun(reps: seq<int>, pick: nat -> nat, t: nat)
    requires Positive(reps)
    ensures IdealShape(Sequence, reps, pick, After(Sequence, reps, Ideal(pick), t), t)
  {
    var s := After(Sequence, reps, Ideal(pick), t);
    SequenceInvariant(reps, pick, t);
    CountersAreTraceCounts(Sequence, reps, Ideal(pick), t);
    CompleteWhenLongEnough(s, reps);
  }

  lemma {:induction false} CycleRun(reps: seq<int>, pick: nat -> nat, t: nat)
    requires Positive(reps)
    ensures IdealShape(Cycle, reps, pick, After(Cycle, reps, Ideal(pick), t), t)
  {
    var s := After(Cycle, reps, Ideal(pick), t);
    var k := CycleInvariant(reps, pick, t);
    if s.status.Running? {
      CyclePosition(reps, s.execs, k, s.cur);
    }
  }

  lemma {:induction false} RandomStatus(reps: seq<int>, pick: nat -> nat, t: nat)
    requires Positive(reps)
    ensures var s := After(Random, reps, Ideal(pick), t);
            && (s.status.Running? <==> t < Sum(reps))
            && (s.status.Completed? <==> t >= Sum(reps))
            && (s.status.Completed? ==> s.execs == reps)
  {
    var s := After(Random, reps, Ideal(pick), t);
    RandomInvariant(reps, pick, t);
    CountersAreTraceCounts(Random, reps, Ideal(pick), t);
    CompleteWhenLongEnough(s, reps);
  }

  lemma {:induction false} IdealRun(p: Pattern, reps: seq<int>, pick: nat -> nat, t: nat)
    requires Positive(reps)
    ensures IdealShape(p, reps, pick, After(p, reps, Ideal(pick), t), t)
  {
    match p
    case Sequence => SequenceRun(reps, pick, t);
    case Cycle => CycleRun(reps, pick, t);
    case Random =>
      var total := Max(0, Sum(reps));
      RandomStatus(reps, pick, t);
      RandomStatus(reps, pick, total);
      if t >= total {
        StoppedStays(p, reps, Ideal(pick), total, t);
      }
  }

  // ----- Runs in which a phase may fail

  /** `s` has done what `ideal` has done and either saw no error or stopped at its first one. */
  ghost predicate Truncated(env: Env, s: State, ideal: State) {
    && s.trace == ideal.trace && s.execs == ideal.execs
    && match s.status
       case Failed(code) =>
         && s.trace != [] && env.verdict(|s.trace| - 1) == PhaseError(code)
         && forall k :: 0 <= k < |s.trace| - 1 ==> !env.verdict(k).PhaseError?
       case _ => s == ideal && forall k :: 0 <= k < |s.trace| ==> !env.verdict(k).PhaseError?
  }

  /** A verdict matters only by being an error, and an error only by stopping the loop. */
  lemma {:induction false} IterateWithoutError(p: Pattern, reps: seq<int>, env: Env, s: State)
    requires Fits(s, reps) && s.status.Running?
    ensures var r, ideal := Iterate(p, reps, env, s), Iterate(p, reps, Ideal(env.pick), s);
            && r.trace == ideal.trace && r.execs == ideal.execs
            && !ideal.status.Failed?
            && (r.trace == s.trace || r.trace == s.trace + [s.cur])
            && (r.trace == s.trace ==> r == ideal)
            && (r.trace != s.trace ==>
                  match env.verdict(|s.trace|)
                  case PhaseError(code) => r.status == Failed(code)
                  case _ => r == ideal)
  {
  }

  lemma {:induction false} TruncatedStep(p: Pattern, reps: seq<int>, env: Env, s: State)
    requires Fits(s, reps) && s.status.Running? && Truncated(env, s, s)
    ensures Truncated(env, Iterate(p, reps, env, s), Iterate(p, reps, Ideal(env.pick), s))
  {
    IterateWithoutError(p, reps, env, s);
  }

  /** Up to the first error a run is the ideal one; the error stops it right after that execution. */
  lemma {:induction false} ErrorsOnlyTruncate(p: Pattern, reps: seq<int>, env: Env, t: nat) returns (u: nat)
    requires Positive(reps)
    ensures u <= t
    ensures Truncated(env, After(p, reps, env, t), After(p, reps, Ideal(env.pick), u))
    ensures !After(p, reps, env, t).status.Failed? ==> u == t
  {
    u := t;
    if t == 0 {
    } else {
      var v := ErrorsOnlyTruncate(p, reps, env, t - 1);
      var b := After(p, reps, env, t - 1);
      if b.status.Failed? {
        u := v;
      } else if b.status.Running? {
        TruncatedStep(p, reps, env, b);
      }
    }
  }

  lemma {:induction false} TraceGrows(p: Pattern, reps: seq<int>, env: Env, t: nat, u: nat)
    requires |reps| > 0 && t <= u
    ensures After(p, reps, env, t).trace <= After(p, reps, env, u).trace
  {
    if t == u {
    } else {
      TraceGrows(p, reps, env, t, u - 1);
    }
  }

  /**
   How a run may look after t iterations: it has executed a prefix of the pattern's trace, and that prefix ends
   with the first execution that returns an error other than the deadline, or is everything if none does.
   */
  ghost predicate Outcome(p: Pattern, reps: seq<int>, env: Env, s: State, t: nat)
    requires Positive(reps)
  {
    var full := PatternTrace(p, reps, env.pick);
    && s.trace <= full
    && (s.status.Running? ==> t < Steps(p, reps))
    && (s.status.Completed? ==> t >= Steps(p, reps) && s.trace == full && s.execs == reps)
    && (forall k :: 0 <= k < |s.trace| - (if s.status.Failed? then 1 else 0) ==> !env.verdict(k).PhaseError?)
    && (s.status.Failed? ==> s.trace != [] && env.verdict(|s.trace| - 1) == PhaseError(s.status.code))
  }

  lemma {:induction false} TruncationOutcome(p: Pattern, reps: seq<int>, env: Env, s: State, ideal: State, t: nat)
    requires Positive(reps) && Truncated(env, s, ideal)
    requires !s.status.Failed? ==> IdealShape(p, reps, env.pick, ideal, t)
    requires ideal.trace <= PatternTrace(p, reps, env.pick)
    ensures Outcome(p, reps, env, s, t)
  {
  }

  lemma {:induction false} IdealPrefix(p: Pattern, reps: seq<int>, pick: nat -> nat, t: nat)
    requires Positive(reps)
    ensures After(p, reps, Ideal(pick), t).trace <= PatternTrace(p, reps, pick)
  {
    var last := Max(t, Steps(p, reps));
    TraceGrows(p, reps, Ideal(pick), t, last);
    IdealRun(p, reps, pick, last);
  }

  lemma {:induction false} RunOutcome(p: Pattern, reps: seq<int>, env: Env, t: nat)
    requires Positive(reps)
    ensures Outcome(p, reps, env, After(p, reps, env, t), t)
  {
    var u := ErrorsOnlyTruncate(p, reps, env, t);
    var ideal := After(p, reps, Ideal(env.pick), u);
    IdealRun(p, reps, env.pick, u);
    IdealPrefix(p, reps, env.pick, u);
    TruncationOutcome(p, reps, env, After(p, reps, env, t), ideal, t);
  }

  /** A loop that still runs has iterations left. */
  lemma {:induction false} RunningMeansEarlier(p: Pattern, reps: seq<int>, env: Env, t: nat)
    requires Positive(reps)
    ensures After(p, reps, env, t).status.Running? ==> t < Steps(p, reps)
  {
    RunOutcome(p, reps, env, t);
  }

  /** Without errors the loop runs exactly Steps iterations and leaves every counter at its repeat. */
  lemma {:induction false} CompletesExactly(p: Pattern, reps: seq<int>, env: Env, t: nat)
    requires Positive(reps)
    requires forall k: nat :: !env.verdict(k).PhaseError?
    ensures var s := After(p, reps, env, t);
            && (t < Steps(p, reps) ==> s.status.Running?)
            && (t >= Steps(p, reps) ==> s.status.Completed? && s.execs == reps)
  {
    RunOutcome(p, reps, env, t);
    var u := ErrorsOnlyTruncate(p, reps, env, t);
    IdealRun(p, reps, env.pick, t);
  }

  /** Sequence and random never take the branch that only skips a finished phase. */
  lemma {:induction false} OnlyCycleSkips(p: Pattern, reps: seq<int>, env: Env, t: nat)
    requires Positive(reps) && !p.Cycle?
    ensures var s := After(p, reps, env, t); s.status.Running? ==> s.execs[s.cur] < reps[s.cur] && |s.trace| == t
  {
    var u := ErrorsOnlyTruncate(p, reps, env, t);
    SequenceInvariant(reps, env.pick, u);
    RandomInvariant(reps, env.pick, u);
  }

  /** Cycle keeps the phases level: no unfinished phase is more than one execution ahead of another. */
  lemma {:induction false} CycleStaysLevel(reps: seq<int>, env: Env, t: nat, i: nat, j: nat)
    requires Positive(reps) && i < |reps| && j < |reps|
    ensures var s := After(Cycle, reps, env, t);
            s.execs[i] < reps[i] && s.execs[j] < reps[j] ==> s.execs[i] - s.execs[j] <= 1
  {
    var u := ErrorsOnlyTruncate(Cycle, reps, env, t);
    var k := CycleInvariant(reps, env.pick, u);
  }

  /** Wherever the loop asks for the next phase, the answer is -1 exactly when everything is done. */
  lemma {:induction false} NextIsMinusOneExactlyWhenComplete(p: Pattern, reps: seq<int>, env: Env, t: nat, draw: nat)
    requires Positive(reps)
    requires var s := After(p, reps, env, t);
             s.status.Running? && ShouldAdvance(p, s.cur, CallSite(s, reps).execs, reps)
    ensures var s := After(p, reps, env, t);
            var execs := CallSite(s, reps).execs;
            NextPhase(p, s.cur, execs, reps, draw) == -1 <==> IsComplete(execs, reps)
  {
    var s := After(p, reps, env, t);
    var execs := CallSite(s, reps).execs;
    UnfinishedMembers(execs, reps);
    if p.Sequence? {
      var u := ErrorsOnlyTruncate(p, reps, env, t);
      SequenceInvariant(reps, env.pick, t);
      SequenceCallSite(reps, s, t);
    }
  }

  lemma {:induction false} SequenceCallSite(reps: seq<int>, s: State, t: nat)
    requires Positive(reps) && Fits(s, reps) && s.status.Running? && SequenceShape(reps, s, t)
    requires CallSite(s, reps).execs[s.cur] >= reps[s.cur]
    ensures IsComplete(CallSite(s, reps).execs, reps) <==> s.cur + 1 == |reps|
  {
    var execs := CallSite(s, reps).execs;
    if s.cur + 1 < |reps| {
      assert execs[s.cur + 1] < reps[s.cur + 1];
    }
  }
}
