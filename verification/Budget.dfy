/** The arithmetic of the duration budget (pkg/actions/durations.go), on values. */
module Budget {
  import opened Arithmetic
  import opened Sequences
  import opened MachineInts
  import opened Plans

  /** The running maximum over worker durations; a missing (zero) duration resets it to the minimum. */
  function LongestWorker(ws: seq<Workers>): int {
    if ws == [] then 0 else
      var w := ws[|ws| - 1];
      var longest := LongestWorker(ws[..|ws| - 1]);
      if w.duration == 0 then MIN_PHASE_DURATION else Max(longest, w.duration)
  }

  function Clamp(d: int): int {
    Min(Max(d, MIN_PHASE_DURATION), MAX_PHASE_DURATION)
  }

  /** AdjustedRuntimeDuration; zero without an override. The minimum is an int64 product. */
  function Adjusted(runtime: int, total: int): int {
    if runtime <= 0 then 0 else
      var least := Wrap64(MIN_PHASE_DURATION * total);
      if runtime < least then least else if runtime > MAX_PHASE_DURATION then MAX_PHASE_DURATION else runtime
  }

  /** Go's integer division, which truncates towards zero. */
  function TruncDiv(a: int, b: int): int
    requires b != 0
  {
    if a >= 0 then a / b else -(-a / b)
  }

  /** What a phase duration is when no cache is consulted. */
  function PhaseDuration(runtime: int, total: int, ws: seq<Workers>): int
    requires runtime > 0 ==> total != 0
  {
    Clamp(if runtime > 0 then TruncDiv(Adjusted(runtime, total), total) else LongestWorker(ws))
  }

  // ----- The pieces, for any input

  /** Out of bounds, the nearest bound. */
  lemma {:induction false} ClampIsNearest(d: int, x: int)
    requires 60_000_000_000 <= x <= 2_419_200_000_000_000
    ensures 60_000_000_000 <= Clamp(d) <= 2_419_200_000_000_000
    ensures (if d >= Clamp(d) then d - Clamp(d) else Clamp(d) - d) <= if d >= x then d - x else x - d
  {
  }

  /** An accepted runtime is raised to the int64 product of one minute per execution. */
  lemma {:induction false} AdjustedIsRaised(runtime: int, total: int)
    ensures runtime <= 0 ==> Adjusted(runtime, total) == 0
    ensures 60_000_000_000 <= runtime <= 2_419_200_000_000_000 ==>
              Adjusted(runtime, total) == Max(runtime, Wrap64(60_000_000_000 * total))
  {
  }

  /** The quotient is cut off towards zero. */
  lemma {:induction false} TruncDivTruncates(a: int, b: int)
    requires b > 0
    ensures a >= 0 ==> TruncDiv(a, b) * b <= a < TruncDiv(a, b) * b + b
    ensures a < 0 ==> TruncDiv(a, b) * b - b < a <= TruncDiv(a, b) * b
  {
    if a < 0 {
      assert -a == (-a / b) * b + -a % b;
      assert -(-a / b) * b == -((-a / b) * b);
    } else {
      assert a == (a / b) * b + a % b;
    }
  }

  /**
   With z the last group whose duration is missing, if there is one, the running maximum is that of the durations
   after it, and at least the minimum.
   */
  lemma {:induction false} LongestSinceReset(ws: seq<Workers>, z: int)
    requires -1 <= z < |ws| && (z >= 0 ==> ws[z].duration == 0)
    requires forall j :: z < j < |ws| ==> ws[j].duration != 0
    ensures var least := if z < 0 then 0 else 60_000_000_000;
            && LongestWorker(ws) >= least
            && (forall j :: z < j < |ws| ==> ws[j].duration <= LongestWorker(ws))
            && (LongestWorker(ws) == least || exists j :: z < j < |ws| && ws[j].duration == LongestWorker(ws))
    decreases |ws|
  {
    if |ws| == z + 1 {
    } else {
      var n := |ws| - 1;
      LongestSinceReset(ws[..n], z);
      var before := LongestWorker(ws[..n]);
      assert ws[n].duration == LongestWorker(ws) || before == LongestWorker(ws);
      if before == LongestWorker(ws) && before != if z < 0 then 0 else 60_000_000_000 {
        var j :| z < j < n && ws[..n][j].duration == before;
        assert ws[j].duration == LongestWorker(ws);
      }
    }
  }

  predicate Repeatable(reps: seq<int>) {
    forall i :: 0 <= i < |reps| ==> 1 <= reps[i] <= MAX_REPEATS_PER_PHASE
  }

  // ----- No override: worker durations

  predicate WorkersInBounds(ws: seq<Workers>) {
    forall j :: 0 <= j < |ws| ==> DurationInBounds(ws[j])
  }

  /** On verified workers the running maximum is the maximum, so worker order is irrelevant. */
  lemma {:induction false} LongestIsMaximum(ws: seq<Workers>)
    requires WorkersInBounds(ws)
    ensures forall j :: 0 <= j < |ws| ==> ws[j].duration <= LongestWorker(ws)
    ensures ws != [] ==> exists j :: 0 <= j < |ws| && ws[j].duration == LongestWorker(ws)
    ensures ws == [] ==> LongestWorker(ws) == 0
  {
    if ws == [] {
    } else {
      var n := |ws| - 1;
      LongestIsMaximum(ws[..n]);
      if n > 0 && ws[n].duration < LongestWorker(ws[..n]) {
        var j :| 0 <= j < n && ws[..n][j].duration == LongestWorker(ws[..n]);
        assert ws[j].duration == LongestWorker(ws);
      } else {
        assert ws[n].duration == LongestWorker(ws);
      }
    }
  }

  /** A verified phase lasts as long as its longest worker group, or the minimum if it has none. */
  lemma {:induction false} VerifiedPhaseDuration(ws: seq<Workers>, total: int)
    requires WorkersInBounds(ws)
    ensures var d := PhaseDuration(0, total, ws);
            && MIN_PHASE_DURATION <= d <= MAX_PHASE_DURATION
            && (forall j :: 0 <= j < |ws| ==> ws[j].duration <= d)
            && if ws == [] then d == MIN_PHASE_DURATION else exists j :: 0 <= j < |ws| && ws[j].duration == d
  {
    LongestIsMaximum(ws);
  }

  // ----- Override: one runtime divided over all executions

  /** The documented lower bound, 60 s per execution, is met exactly when that product fits in an int64. */
  lemma {:induction false} AdjustedIsMaximum(runtime: int, total: int)
    requires MIN_PHASE_DURATION <= runtime <= MAX_PHASE_DURATION && total >= 1
    ensures Adjusted(runtime, total) == Max(runtime, MIN_PHASE_DURATION * total)
       <==> MIN_PHASE_DURATION * total <= MAX_INT64
  {
  }

  /** While it fits, every phase gets between 60 s and 28 days and neither clamp changes anything. */
  lemma {:induction false} OverrideSplit(runtime: int, total: int, ws: seq<Workers>)
    requires MIN_PHASE_DURATION <= runtime <= MAX_PHASE_DURATION && total >= 1
    requires MIN_PHASE_DURATION * total <= MAX_INT64
    ensures var adjusted, d := Adjusted(runtime, total), PhaseDuration(runtime, total, ws);
            && d == adjusted / total
            && MIN_PHASE_DURATION <= d <= MAX_PHASE_DURATION
            && adjusted - d * total == adjusted % total < total
  {
    var adjusted := Adjusted(runtime, total);
    DivisionBounds(adjusted, total, MIN_PHASE_DURATION, MAX_PHASE_DURATION);
  }

  /** The longest of the durations, or the minimum if there is none. */
  ghost predicate IsLongest(ws: seq<Workers>, d: int) {
    && (forall j :: 0 <= j < |ws| ==> ws[j].duration <= d)
    && if ws == [] then d == MIN_PHASE_DURATION else exists j :: 0 <= j < |ws| && ws[j].duration == d
  }

  /** Both ways to a phase duration at once. */
  lemma {:induction false} PhaseDurationMeans(runtime: int, total: int, ws: seq<Workers>)
    requires runtime > 0 ==> total != 0
    ensures runtime <= 0 && WorkersInBounds(ws) ==> IsLongest(ws, PhaseDuration(runtime, total, ws))
    ensures MIN_PHASE_DURATION <= runtime <= MAX_PHASE_DURATION && total >= 1 && MIN_PHASE_DURATION * total <= MAX_INT64 ==>
              PhaseDuration(runtime, total, ws) == Max(runtime, MIN_PHASE_DURATION * total) / total
  {
    hide Adjusted;
    if runtime <= 0 && WorkersInBounds(ws) {
      VerifiedPhaseDuration(ws, total);
    }
    if MIN_PHASE_DURATION <= runtime <= MAX_PHASE_DURATION && total >= 1 && MIN_PHASE_DURATION * total <= MAX_INT64 {
      AdjustedIsMaximum(runtime, total);
      OverrideSplit(runtime, total, ws);
    }
  }

  lemma {:induction false} DivisionBounds(a: int, b: int, lo: int, hi: int)
    requires b >= 1 && 0 <= lo <= hi && lo * b <= a && (a <= hi || a == lo * b)
    ensures lo <= a / b <= hi && a - (a / b) * b == a % b
  {
    var q := a / b;
    assert a == q * b + a % b;
    NextMultiple(lo, q, b);
    if a == lo * b {
      NextMultiple(q, lo, b);
    } else {
      ProductBounds(q, 1, q, b);
    }
  }

  /** Normalised repeats keep the product within int64 for up to 307445 phases. */
  lemma {:induction false} MinimumRuntimeFits(reps: seq<int>)
    requires Repeatable(reps) && |reps| <= 307445
    ensures |reps| <= Sum(reps) <= MAX_REPEATS_PER_PHASE * |reps|
    ensures MIN_PHASE_DURATION * Sum(reps) <= MAX_INT64
  {
    SumBounds(reps, 1, MAX_REPEATS_PER_PHASE);
  }

  /** One phase more and a request for one minute is answered with a wrapped product. */
  lemma {:induction false} MinimumRuntimeLimitIsTight(reps: seq<int>)
    requires |reps| == 307446 && forall i :: 0 <= i < |reps| ==> reps[i] == MAX_REPEATS_PER_PHASE
    ensures MIN_PHASE_DURATION * Sum(reps) > MAX_INT64
    ensures Adjusted(MIN_PHASE_DURATION, Sum(reps)) != MIN_PHASE_DURATION * Sum(reps)
  {
    SumConstant(reps, MAX_REPEATS_PER_PHASE);
  }

  // ----- Totals over the plan

  /** durations[i] * reps[i], phase by phase. */
  function Costs(durations: seq<int>, reps: seq<int>): (r: seq<int>)
    requires |durations| == |reps|
    ensures |r| == |reps| && forall i :: 0 <= i < |reps| ==> r[i] == durations[i] * reps[i]
  {
    seq(|reps|, i requires 0 <= i < |reps| => durations[i] * reps[i])
  }

  /** The int64 total of the first i phases. */
  ghost function WrappedCost(durations: seq<int>, reps: seq<int>, i: nat): int
    requires i <= |durations| == |reps|
  {
    Wrap64(Sum(Costs(durations, reps)[..i]))
  }

  /** One round of the wrapping accumulation. */
  lemma {:induction false} AccumulateWrapped(durations: seq<int>, reps: seq<int>, i: nat, total: int, d: int, r: int)
    requires i < |durations| == |reps| && d == durations[i] && r == reps[i]
    requires total == WrappedCost(durations, reps, i)
    ensures Wrap64(total + Wrap64(d * r)) == WrappedCost(durations, reps, i + 1)
  {
    var costs := Costs(durations, reps);
    WrapSum(Wrap64(Sum(costs[..i])), costs[i]);
    WrapSum(Sum(costs[..i]), costs[i]);
    assert costs[..i + 1][..i] == costs[..i];
  }

  lemma {:induction false} AllAccumulated(durations: seq<int>, reps: seq<int>)
    requires |durations| == |reps|
    ensures WrappedCost(durations, reps, 0) == 0
    ensures WrappedCost(durations, reps, |reps|) == Wrap64(Sum(Costs(durations, reps)))
  {
    var costs := Costs(durations, reps);
    assert costs[..|reps|] == costs && costs[..0] == [];
  }

  predicate DurationsInBounds(durations: seq<int>) {
    forall i :: 0 <= i < |durations| ==> MIN_PHASE_DURATION <= durations[i] <= MAX_PHASE_DURATION
  }

  lemma {:induction false} CostsInBounds(durations: seq<int>, reps: seq<int>)
    requires |durations| == |reps| && DurationsInBounds(durations) && Repeatable(reps)
    ensures forall i :: 0 <= i < |reps| ==>
              0 <= durations[i] * reps[i] <= MAX_PHASE_DURATION * MAX_REPEATS_PER_PHASE
    ensures 0 <= Sum(Costs(durations, reps)) <= MAX_PHASE_DURATION * MAX_REPEATS_PER_PHASE * |reps|
  {
    forall i | 0 <= i < |reps|
      ensures 0 <= durations[i] * reps[i] <= MAX_PHASE_DURATION * MAX_REPEATS_PER_PHASE
    {
      ProductBounds(durations[i], reps[i], MAX_PHASE_DURATION, MAX_REPEATS_PER_PHASE);
    }
    SumBounds(Costs(durations, reps), 0, MAX_PHASE_DURATION * MAX_REPEATS_PER_PHASE);
  }

  /** A phase's total never overflows; seven phases never do together. */
  lemma {:induction false} TotalsFit(durations: seq<int>, reps: seq<int>)
    requires |durations| == |reps| && DurationsInBounds(durations) && Repeatable(reps)
    ensures forall i :: 0 <= i < |reps| ==> Wrap64(durations[i] * reps[i]) == durations[i] * reps[i]
    ensures |reps| <= 7 ==> Wrap64(Sum(Costs(durations, reps))) == Sum(Costs(durations, reps))
  {
    CostsInBounds(durations, reps);
  }

  /** Eight phases of 28 days with 500 repeats overflow to a negative total. */
  lemma {:induction false} SevenIsTight()
    ensures var durations, reps := seq(8, _ => MAX_PHASE_DURATION), seq(8, _ => MAX_REPEATS_PER_PHASE);
            DurationsInBounds(durations) && Repeatable(reps) && Wrap64(Sum(Costs(durations, reps))) < 0
  {
    var durations, reps := seq(8, _ => MAX_PHASE_DURATION), seq(8, _ => MAX_REPEATS_PER_PHASE);
    SumConstant(Costs(durations, reps), MAX_PHASE_DURATION * MAX_REPEATS_PER_PHASE);
  }

  // ----- What a complete run spends

  /** Any order of executions with the right counts spends the sum of the phase totals. */
  lemma {:induction false} SpentByCounts(trace: seq<nat>, durations: seq<int>, reps: seq<int>)
    requires |durations| == |reps| && Within(trace, |reps|)
    requires forall i: nat :: i < |reps| ==> Count(trace, i) == reps[i]
    ensures SumOver(trace, durations) == Sum(Costs(durations, reps))
  {
    SumOverByCounts(trace, durations);
    assert CostByIndex(trace, durations) == Costs(durations, reps);
  }

  lemma {:induction false} EqualShares(durations: seq<int>, reps: seq<int>, d: int)
    requires |durations| == |reps| && forall i :: 0 <= i < |durations| ==> durations[i] == d
    ensures Sum(Costs(durations, reps)) == d * Sum(reps)
  {
    if reps == [] {
    } else {
      var n := |reps| - 1;
      EqualShares(durations[..n], reps[..n], d);
      assert Costs(durations, reps)[..n] == Costs(durations[..n], reps[..n]);
      assert d * (Sum(reps[..n]) + reps[n]) == d * Sum(reps[..n]) + d * reps[n];
    }
  }
}
