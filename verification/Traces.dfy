/**
 Closed forms for what each pattern executes when no phase returns an error, with exact loop iteration counts:
 phase-major for sequence, round-major for cycle, and exactly the balanced sequences starting at phase 0 for random.
 */
module Traces {
  import opened Sequences
  import opened Schedule

  // ----- Sequence: phase-major

  function SequenceUpTo(reps: seq<int>, i: nat): seq<nat>
    requires i <= |reps|
  {
    if i == 0 then [] else SequenceUpTo(reps, i - 1) + Copies(i - 1, reps[i - 1])
  }

  /** reps[0] times phase 0, then reps[1] times phase 1, and so on. */
  function SequenceTrace(reps: seq<int>): seq<nat> {
    SequenceUpTo(reps, |reps|)
  }

  ghost predicate SequenceShape(reps: seq<int>, s: State, t: nat)
    requires Fits(s, reps)
  {
    match s.status
    case Running =>
      && |s.trace| == t
      && 0 <= s.execs[s.cur] < reps[s.cur]
      && (forall j :: 0 <= j < s.cur ==> s.execs[j] == reps[j])
      && (forall j :: s.cur < j < |reps| ==> s.execs[j] == 0)
      && s.trace == SequenceUpTo(reps, s.cur) + Copies(s.cur, s.execs[s.cur])
    case Completed => s.execs == reps && s.trace == SequenceTrace(reps) && |s.trace| <= t
    case Failed(_) => false
  }

  lemma {:induction false} SequenceInvariant(reps: seq<int>, pick: nat -> nat, t: nat)
    requires Positive(reps)
    ensures SequenceShape(reps, After(Sequence, reps, Ideal(pick), t), t)
  {
    if t == 0 {
      assert Copies(0, 0) == [];
    } else {
      SequenceInvariant(reps, pick, t - 1);
      var s := After(Sequence, reps, Ideal(pick), t - 1);
      if s.status.Running? {
        SequenceIteration(reps, pick, s);
        SequenceStep(reps, s, t - 1);
      }
    }
  }

  /** The state after executing the current phase of a sequence. */
  function SequenceNext(reps: seq<int>, s: State): State
    requires Fits(s, reps)
  {
    var done := Execute(s, reps);
    if done.execs[s.cur] < reps[s.cur] then done
    else if s.cur + 1 == |reps| then done.(status := Completed)
    else done.(cur := s.cur + 1)
  }

  lemma {:induction false} SequenceIteration(reps: seq<int>, pick: nat -> nat, s: State)
    requires Fits(s, reps) && s.status.Running? && s.execs[s.cur] < reps[s.cur]
    ensures Iterate(Sequence, reps, Ideal(pick), s) == SequenceNext(reps, s)
  {
  }

  lemma {:induction false} SequenceStep(reps: seq<int>, s: State, t: nat)
    requires Positive(reps) && Fits(s, reps) && s.status.Running? && SequenceShape(reps, s, t)
    ensures SequenceShape(reps, SequenceNext(reps, s), t + 1)
  {
    var c, e := s.cur, s.execs[s.cur];
    var done := Execute(s, reps);
    assert Copies(c, e) + [c] == Copies(c, e + 1);
    assert (SequenceUpTo(reps, c) + Copies(c, e)) + [c] == SequenceUpTo(reps, c) + (Copies(c, e) + [c]);
    assert done.trace == SequenceUpTo(reps, c) + Copies(c, e + 1);
    if e + 1 == reps[c] {
      assert done.trace == SequenceUpTo(reps, c + 1);
      assert SequenceUpTo(reps, c + 1) + Copies(c + 1, 0) == SequenceUpTo(reps, c + 1);
      if c + 1 == |reps| {
        assert done.execs == reps;
      }
    }
  }

  // ----- Cycle: round-major

  /** The phases below p that are executed in round k: those with more than k repeats, in ascending order. */
  function RoundPart(reps: seq<int>, k: nat, p: nat): seq<nat>
    requires p <= |reps|
  {
    if p == 0 then [] else RoundPart(reps, k, p - 1) + (if reps[p - 1] > k then [p - 1] else [])
  }

  /** The first k rounds. */
  function Rounds(reps: seq<int>, k: nat): seq<nat> {
    if k == 0 then [] else Rounds(reps, k - 1) + RoundPart(reps, k - 1, |reps|)
  }

  /** The last phase with the largest repeat count. */
  function Busiest(reps: seq<int>): (m: nat)
    requires |reps| > 0
    ensures m < |reps|
    ensures forall j :: 0 <= j < |reps| ==> reps[j] <= reps[m]
    ensures forall j :: m < j < |reps| ==> reps[j] < reps[m]
  {
    var n := |reps| - 1;
    if n == 0 then 0 else
      var b := Busiest(reps[..n]);
      if reps[n] >= reps[b] then n else b
  }

  /** One round for each repeat of the busiest phase. */
  function CycleTrace(reps: seq<int>): seq<nat>
    requires Positive(reps)
  {
    Rounds(reps, reps[Busiest(reps)])
  }

  /** Iterations of the loop, those that only skip a finished phase included. */
  function CycleSteps(reps: seq<int>): int
    requires |reps| > 0
  {
    (reps[Busiest(reps)] - 1) * |reps| + Busiest(reps) + 1
  }

  /** The number of iterations before round k. */
  function RoundStart(n: nat, k: nat): nat {
    if k == 0 then 0 else RoundStart(n, k - 1) + n
  }

  lemma {:induction false} RoundStartIsProduct(n: nat, k: nat)
    ensures RoundStart(n, k) == k * n
  {
    if k == 0 {
    } else {
      RoundStartIsProduct(n, k - 1);
      assert k * n == (k - 1) * n + n;
    }
  }

  /** Position p of round k: phases below p have had their turn in this round, the others have not. */
  ghost predicate AtRound(reps: seq<int>, execs: seq<int>, k: nat, p: nat) {
    && |execs| == |reps|
    && forall j :: 0 <= j < |reps| ==> execs[j] == Min(reps[j], if j < p then k + 1 else k)
  }

  ghost predicate CycleShape(reps: seq<int>, s: State, t: nat, k: nat)
    requires Positive(reps) && Fits(s, reps)
  {
    match s.status
    case Running =>
      && t == RoundStart(|reps|, k) + s.cur
      && AtRound(reps, s.execs, k, s.cur)
      && s.trace == Rounds(reps, k) + RoundPart(reps, k, s.cur)
      && !IsComplete(s.execs, reps)
    case Completed => s.execs == reps && s.trace == CycleTrace(reps) && CycleSteps(reps) <= t
    case Failed(_) => false
  }

  lemma {:induction false} CycleInvariant(reps: seq<int>, pick: nat -> nat, t: nat) returns (k: nat)
    requires Positive(reps)
    ensures CycleShape(reps, After(Cycle, reps, Ideal(pick), t), t, k)
  {
    if t == 0 {
      k := 0;
      assert !IsComplete(Start(|reps|).execs, reps) by { assert Start(|reps|).execs[0] < reps[0]; }
    } else {
      k := CycleInvariant(reps, pick, t - 1);
      var s := After(Cycle, reps, Ideal(pick), t - 1);
      if s.status.Running? {
        CycleIteration(reps, pick, s);
        TurnTaken(reps, s, k);
        k := CycleStep(reps, CallSite(s, reps), t - 1, k);
      }
    }
  }

  /** Where a cycle goes after a phase had its turn: on, unless all phases are finished. */
  function CycleNext(reps: seq<int>, done: State): State
    requires Fits(done, reps)
  {
    if IsComplete(done.execs, reps) then done.(status := Completed)
    else done.(cur := if done.cur + 1 == |reps| then 0 else done.cur + 1)
  }

  lemma {:induction false} CycleIteration(reps: seq<int>, pick: nat -> nat, s: State)
    requires Fits(s, reps) && s.status.Running?
    ensures Iterate(Cycle, reps, Ideal(pick), s) == CycleNext(reps, CallSite(s, reps))
  {
    var done := CallSite(s, reps);
    CycleSuccessor(s.cur, |reps|);
    assert done.cur == s.cur;
  }

  lemma {:induction false} CycleSuccessor(c: nat, n: nat)
    requires c < n
    ensures (c + 1) % n == if c + 1 == n then 0 else c + 1
  {
    if c + 1 < n {
      assert (c + 1) / n == 0;
    }
  }

  /** Whether it executed or skipped, phase `cur` has had its turn in round k. */
  ghost predicate HadTurn(reps: seq<int>, done: State, k: nat) {
    && Fits(done, reps) && done.status.Running?
    && AtRound(reps, done.execs, k, done.cur + 1)
    && done.trace == Rounds(reps, k) + RoundPart(reps, k, done.cur + 1)
  }

  lemma {:induction false} TurnTaken(reps: seq<int>, s: State, k: nat)
    requires Positive(reps) && Fits(s, reps) && s.status.Running? && AtRound(reps, s.execs, k, s.cur)
    requires s.trace == Rounds(reps, k) + RoundPart(reps, k, s.cur) && !IsComplete(s.execs, reps)
    ensures HadTurn(reps, CallSite(s, reps), k) && CallSite(s, reps).cur == s.cur
    ensures IsComplete(CallSite(s, reps).execs, reps) ==> reps[s.cur] > k
  {
  }

  lemma {:induction false} CycleStep(reps: seq<int>, done: State, t: nat, k: nat) returns (k': nat)
    requires Positive(reps) && HadTurn(reps, done, k) && t == RoundStart(|reps|, k) + done.cur
    requires IsComplete(done.execs, reps) ==> reps[done.cur] > k
    ensures CycleShape(reps, CycleNext(reps, done), t + 1, k')
  {
    if IsComplete(done.execs, reps) {
      k' := k;
      CycleFinishes(reps, done, t, k);
    } else {
      k' := if done.cur + 1 == |reps| then k + 1 else k;
      CycleGoesOn(reps, done, t, k);
    }
  }

  /** After phase c's turn the cycle is at position c + 1, or at the start of the next round. */
  lemma {:induction false} CycleGoesOn(reps: seq<int>, done: State, t: nat, k: nat)
    requires Positive(reps) && HadTurn(reps, done, k) && t == RoundStart(|reps|, k) + done.cur
    requires !IsComplete(done.execs, reps)
    ensures if done.cur + 1 == |reps| then CycleShape(reps, done.(cur := 0), t + 1, k + 1)
            else CycleShape(reps, done.(cur := done.cur + 1), t + 1, k)
  {
    if done.cur + 1 == |reps| {
      assert Rounds(reps, k + 1) + RoundPart(reps, k + 1, 0) == Rounds(reps, k + 1);
    }
  }

  lemma {:induction false} CycleFinishes(reps: seq<int>, done: State, t: nat, k: nat)
    requires Positive(reps) && HadTurn(reps, done, k) && t == RoundStart(|reps|, k) + done.cur
    requires IsComplete(done.execs, reps) && reps[done.cur] > k
    ensures done.execs == reps && done.trace == CycleTrace(reps) && CycleSteps(reps) == t + 1
  {
    CycleEnds(reps, done.execs, k, done.cur);
    RoundStartIsProduct(|reps|, k);
    RoundPartStops(reps, k, done.cur + 1, |reps|);
  }

  /** All phases are done after position c of round k only if c is the busiest phase in its last round. */
  lemma {:induction false} CycleEnds(reps: seq<int>, execs: seq<int>, k: nat, c: nat)
    requires Positive(reps) && c < |reps| && AtRound(reps, execs, k, c + 1)
    requires IsComplete(execs, reps) && reps[c] > k
    ensures execs == reps && c == Busiest(reps) && reps[c] == k + 1
  {
    var m := Busiest(reps);
    assert execs[m] >= reps[m] && execs[c] >= reps[c];
  }

  lemma {:induction false} RoundPartStops(reps: seq<int>, k: nat, p: nat, q: nat)
    requires p <= q <= |reps| && forall j :: p <= j < q ==> reps[j] <= k
    ensures RoundPart(reps, k, q) == RoundPart(reps, k, p)
  {
    if p == q {
    } else {
      RoundPartStops(reps, k, p, q - 1);
    }
  }

  // ----- The traces by their order

  /** Sequence never returns to an earlier phase: its trace is ascending. */
  lemma {:induction false} SequenceAscends(reps: seq<int>, i: nat)
    requires i <= |reps|
    ensures Within(SequenceUpTo(reps, i), i)
    ensures forall a, b :: 0 <= a < b < |SequenceUpTo(reps, i)| ==> SequenceUpTo(reps, i)[a] <= SequenceUpTo(reps, i)[b]
  {
    if i == 0 {
    } else {
      SequenceAscends(reps, i - 1);
    }
  }

  /** How often the phase at position a has been executed before. */
  function Turn(trace: seq<nat>, a: nat): nat
    requires a < |trace|
  {
    Count(trace[..a], trace[a])
  }

  /** First executions come before second ones, and so on; executions of one turn are in the order of the phases. */
  ghost predicate TurnByTurn(trace: seq<nat>) {
    forall a: nat, b: nat :: a < b < |trace| ==>
      Turn(trace, a) < Turn(trace, b) || (Turn(trace, a) == Turn(trace, b) && trace[a] < trace[b])
  }

  /** Nothing in the trace is at or after phase p's turn k. */
  ghost predicate AllBefore(trace: seq<nat>, k: nat, p: nat) {
    forall a: nat :: a < |trace| ==> Turn(trace, a) < k || (Turn(trace, a) == k && trace[a] < p)
  }

  lemma {:induction false} TurnsStay(trace: seq<nat>, p: nat, a: nat)
    requires a <= |trace|
    ensures Turn(trace + [p], a) == if a < |trace| then Turn(trace, a) else Count(trace, p)
  {
    assert (trace + [p])[..a] == trace[..a];
    assert trace[..|trace|] == trace;
  }

  lemma {:induction false} TurnByTurnAppend(trace: seq<nat>, k: nat, p: nat)
    requires TurnByTurn(trace) && AllBefore(trace, k, p) && Count(trace, p) == k
    ensures TurnByTurn(trace + [p]) && AllBefore(trace + [p], k, p + 1)
  {
    hide Turn;
    forall a: nat | a <= |trace|
      ensures Turn(trace + [p], a) == if a < |trace| then Turn(trace, a) else k
    {
      TurnsStay(trace, p, a);
    }
  }

  /** A trace that has taken its turns up to phase p's turn k. */
  ghost predicate TurnsTaken(reps: seq<int>, t: seq<nat>, k: nat, p: nat) {
    && Within(t, |reps|) && TurnByTurn(t) && AllBefore(t, k, p)
    && forall i: nat :: i < |reps| ==> Count(t, i) == Min(reps[i], if i < p then k + 1 else k)
  }

  lemma {:induction false} OneTurnMore(reps: seq<int>, t: seq<nat>, k: nat, p: nat)
    requires p < |reps| && TurnsTaken(reps, t, k, p)
    ensures TurnsTaken(reps, if reps[p] > k then t + [p] else t, k, p + 1)
  {
    hide TurnByTurn, Count;
    if reps[p] > k {
      TurnByTurnAppend(t, k, p);
      forall i: nat | i < |reps| ensures Count(t + [p], i) == Min(reps[i], if i < p + 1 then k + 1 else k) {
        CountAppend(t, p, i);
      }
    }
  }

  lemma {:induction false} NoTurnYet(reps: seq<int>)
    requires Positive(reps)
    ensures TurnsTaken(reps, [], 0, 0)
  {
  }

  lemma {:induction false} NextRound(reps: seq<int>, t: seq<nat>, k: nat)
    requires TurnsTaken(reps, t, k, |reps|)
    ensures TurnsTaken(reps, t, k + 1, 0)
  {
    hide TurnByTurn, Count;
    AllBeforeNextRound(t, k + 1, |reps|);
  }

  lemma {:induction false} PartTakesTurns(reps: seq<int>, k: nat, p: nat)
    requires Positive(reps) && p <= |reps|
    ensures TurnsTaken(reps, Rounds(reps, k) + RoundPart(reps, k, p), k, p)
    decreases k, p
  {
    hide TurnsTaken;
    if p == 0 {
      assert Rounds(reps, k) + RoundPart(reps, k, 0) == Rounds(reps, k);
      if k == 0 {
        NoTurnYet(reps);
      } else {
        PartTakesTurns(reps, k - 1, |reps|);
        NextRound(reps, Rounds(reps, k - 1) + RoundPart(reps, k - 1, |reps|), k - 1);
      }
    } else {
      PartTakesTurns(reps, k, p - 1);
      var t := Rounds(reps, k) + RoundPart(reps, k, p - 1);
      OneTurnMore(reps, t, k, p - 1);
      assert Rounds(reps, k) + RoundPart(reps, k, p) == if reps[p - 1] > k then t + [p - 1] else t;
    }
  }

  lemma {:induction false} AllBeforeNextRound(trace: seq<nat>, k: nat, n: nat)
    requires k > 0 && AllBefore(trace, k - 1, n)
    ensures AllBefore(trace, k, 0)
  {
  }

  /** Cycle takes turns: this order, with the counts, determines its trace. */
  lemma {:induction false} CycleTakesTurns(reps: seq<int>)
    requires Positive(reps)
    ensures TurnByTurn(CycleTrace(reps))
    ensures forall i: nat :: i < |reps| ==> Count(CycleTrace(reps), i) == reps[i]
  {
    PartTakesTurns(reps, reps[Busiest(reps)], 0);
    assert CycleTrace(reps) == Rounds(reps, reps[Busiest(reps)]) + RoundPart(reps, reps[Busiest(reps)], 0);
  }
}
