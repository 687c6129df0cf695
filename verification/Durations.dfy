/** PhaseDurations, the cached duration table of a run (pkg/actions/durations.go). */
module Durations {
  import opened Sequences
  import opened MachineInts
  import opened Plans
  import opened Executors
  import opened Budget

  class PhaseDurations {
    const runtimeDuration: int
    const plan: Plan
    const repeats: PhaseRepeats
    var cachedDurations: map<int, int>
    var adjustedRuntimeDuration: int

    ghost function Reps(): seq<int>
      reads repeats
    {
      repeats.Table(|plan.phases|)
    }

    /** What GetPhaseDuration would compute without its cache. */
    ghost function Uncached(i: nat): int
      requires i < |plan.phases|
      reads repeats
    {
      if runtimeDuration > 0 && Sum(Reps()) == 0 then 0
      else PhaseDuration(runtimeDuration, Sum(Reps()), plan.phases[i].workers)
    }

    ghost function Table(): (r: seq<int>)
      reads repeats
      ensures |r| == |plan.phases| && forall i: nat :: i < |r| ==> r[i] == Uncached(i)
    {
      seq(|plan.phases|, i requires 0 <= i < |plan.phases| reads repeats => Uncached(i))
    }

    /** The cache is transparent for the repeats in force; they must not change after construction. */
    ghost predicate Valid()
      reads this, repeats
    {
      && adjustedRuntimeDuration == Adjusted(runtimeDuration, Sum(Reps()))
      && forall i :: i in cachedDurations ==> 0 <= i < |plan.phases| && cachedDurations[i] == Uncached(i)
    }

    /** An override is divided by the number of executions, which must not be zero if there is any phase. */
    ghost predicate Divisible()
      reads repeats
    {
      runtimeDuration > 0 && |plan.phases| > 0 ==> Sum(Reps()) != 0
    }

    constructor (runtimeDuration: int, plan: Plan, repeats: PhaseRepeats)
      ensures Valid()
      ensures this.runtimeDuration == runtimeDuration && this.plan == plan && this.repeats == repeats
    {
      this.runtimeDuration := runtimeDuration;
      this.plan := plan;
      this.repeats := repeats;
      cachedDurations := map[];
      adjustedRuntimeDuration := 0;
      var totalExecutions := repeats.GetTotalRepeats(|plan.phases|);
      if runtimeDuration > 0 {
        var minTotalRuntime := Wrap64(MIN_PHASE_DURATION * totalExecutions);
        var maxTotalRuntime := MAX_PHASE_DURATION;
        if runtimeDuration < minTotalRuntime {
          adjustedRuntimeDuration := minTotalRuntime;
        } else if runtimeDuration > maxTotalRuntime {
          adjustedRuntimeDuration := maxTotalRuntime;
        } else {
          adjustedRuntimeDuration := runtimeDuration;
        }
      }
    }

    method GetPhaseDuration(phaseIndex: nat) returns (duration: int)
      requires Valid() && Divisible() && phaseIndex < |plan.phases|
      modifies this`cachedDurations
      ensures Valid() && duration == Uncached(phaseIndex)
      ensures cachedDurations == old(cachedDurations)[phaseIndex := duration]
      ensures var workers, total := plan.phases[phaseIndex].workers, Sum(Reps());
              && (runtimeDuration <= 0 && WorkersInBounds(workers) ==> IsLongest(workers, duration))
              && (MIN_PHASE_DURATION <= runtimeDuration <= MAX_PHASE_DURATION && total >= 1
                  && MIN_PHASE_DURATION * total <= MAX_INT64 ==>
                    duration == Max(runtimeDuration, MIN_PHASE_DURATION * total) / total)
    {
      PhaseDurationMeans(runtimeDuration, Sum(Reps()), plan.phases[phaseIndex].workers);
      if phaseIndex in cachedDurations {
        assert cachedDurations == cachedDurations[phaseIndex := cachedDurations[phaseIndex]];
        return cachedDurations[phaseIndex];
      }
      if runtimeDuration > 0 {
        var totalExecutions := repeats.GetTotalRepeats(|plan.phases|);
        duration := TruncDiv(adjustedRuntimeDuration, totalExecutions);
      } else {
        var maxDuration := 0;
        var workers := plan.phases[phaseIndex].workers;
        for j := 0 to |workers|
          invariant maxDuration == LongestWorker(workers[..j])
        {
          assert workers[..j + 1][..j] == workers[..j];
          if workers[j].duration == 0 {
            maxDuration := MIN_PHASE_DURATION;
          } else if workers[j].duration > maxDuration {
            maxDuration := workers[j].duration;
          }
        }
        assert workers[..|workers|] == workers;
        duration := maxDuration;
      }
      if duration < MIN_PHASE_DURATION {
        duration := MIN_PHASE_DURATION;
      }
      if duration > MAX_PHASE_DURATION {
        duration := MAX_PHASE_DURATION;
      }
      assert duration == Uncached(phaseIndex) by {
        assert Uncached(phaseIndex) == PhaseDuration(runtimeDuration, Sum(Reps()), plan.phases[phaseIndex].workers);
      }
      cachedDurations := cachedDurations[phaseIndex := duration];
    }

    /** With an override the adjusted runtime; otherwise the int64 sum of the phase totals. */
    method GetTotalDuration() returns (total: int)
      requires Valid() && Divisible()
      modifies this`cachedDurations
      ensures Valid()
      ensures total == if runtimeDuration > 0 then Adjusted(runtimeDuration, Sum(Reps()))
                       else Wrap64(Sum(Costs(Table(), Reps())))
    {
      if runtimeDuration > 0 {
        return adjustedRuntimeDuration;
      }
      total := 0;
      AllAccumulated(Table(), Reps());
      for i := 0 to |plan.phases|
        invariant Valid() && Divisible()
        invariant total == WrappedCost(Table(), Reps(), i)
      {
        total := AddPhase(total, i);
      }
      AllAccumulated(Table(), Reps());
    }

    /** The body of GetTotalDuration's loop. */
    method AddPhase(total: int, i: nat) returns (sum: int)
      requires Valid() && Divisible() && i < |plan.phases|
      requires total == WrappedCost(Table(), Reps(), i)
      modifies this`cachedDurations
      ensures Valid()
      ensures sum == WrappedCost(Table(), Reps(), i + 1)
    {
      var d := GetPhaseDuration(i);
      var r := repeats.GetRepeat(i);
      AccumulateWrapped(Table(), Reps(), i, total, d, r);
      sum := Wrap64(total + Wrap64(d * r));
    }

    method GetPhaseTotalDuration(phaseIndex: nat) returns (total: int)
      requires Valid() && Divisible() && phaseIndex < |plan.phases|
      modifies this`cachedDurations
      ensures Valid() && total == Wrap64(Uncached(phaseIndex) * Reps()[phaseIndex])
    {
      var d := GetPhaseDuration(phaseIndex);
      total := Wrap64(d * repeats.GetRepeat(phaseIndex));
    }
  }
}
