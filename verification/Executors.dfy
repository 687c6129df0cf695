/** The mutable repeat table and the pattern executors (pkg/actions/pattern.go). */
module Executors {
  import opened Sequences
  import S = Schedule

  class PhaseRepeats {
    var defaultRepeat: int
    var phaseRepeats: map<int, int>

    constructor (defaultRepeat: int)
      ensures this.defaultRepeat == defaultRepeat && phaseRepeats == map[]
    {
      this.defaultRepeat := defaultRepeat;
      phaseRepeats := map[];
    }

    function GetRepeat(phaseIndex: int): int
      reads this
    {
      if phaseIndex in phaseRepeats then phaseRepeats[phaseIndex] else defaultRepeat
    }

    /** The repeat counts of the first n phases. */
    ghost function Table(n: nat): (r: seq<int>)
      reads this
      ensures |r| == n && forall i :: 0 <= i < n ==> r[i] == GetRepeat(i)
    {
      seq(n, i requires 0 <= i < n reads this => GetRepeat(i))
    }

    /** The sum of the table, whether or not the shortcut for an empty map is taken. */
    method GetTotalRepeats(numPhases: nat) returns (total: int)
      ensures total == Sum(Table(numPhases))
    {
      if |phaseRepeats| == 0 {
        SumConstant(Table(numPhases), defaultRepeat);
        return defaultRepeat * numPhases;
      }
      total := 0;
      for i := 0 to numPhases
        invariant total == Sum(Table(i))
      {
        total := total + GetRepeat(i);
        assert Table(i + 1)[..i] == Table(i);
      }
    }

    method SetRepeat(phaseIndex: int, repeat: int)
      modifies this
      ensures phaseRepeats == old(phaseRepeats)[phaseIndex := repeat] && defaultRepeat == old(defaultRepeat)
    {
      phaseRepeats := phaseRepeats[phaseIndex := repeat];
    }
  }

  /** A random number generator whose numbers are a free choice. */
  class Rng {
    const numbers: nat -> nat
    var drawn: nat

    constructor (numbers: nat -> nat)
      ensures this.numbers == numbers && drawn == 0
    {
      this.numbers := numbers;
      drawn := 0;
    }

    /** Any value below n may come out, depending on `numbers`. */
    method Intn(n: nat) returns (r: nat)
      requires n > 0
      modifies this
      ensures r == numbers(old(drawn)) % n < n && drawn == old(drawn) + 1
    {
      r := numbers(drawn) % n;
      drawn := drawn + 1;
    }
  }

  datatype Executor =
    | SequencePattern(numPhases: nat)
    | CyclePattern(numPhases: nat)
    | RandomPattern(numPhases: nat, rng: Rng)
  {
    function Kind(): S.Pattern {
      match this
      case SequencePattern(_) => S.Sequence
      case CyclePattern(_) => S.Cycle
      case RandomPattern(_, _) => S.Random
    }

    ghost function Frame(): set<object> {
      if RandomPattern? then {rng} else {}
    }

    /** The random number a draw made now would use. */
    ghost function Upcoming(): nat
      reads Frame()
    {
      if RandomPattern? then rng.numbers(rng.drawn) else 0
    }

    static method IsComplete(phaseExecutions: array<int>, repeats: PhaseRepeats) returns (complete: bool)
      ensures complete <==> S.IsComplete(phaseExecutions[..], repeats.Table(phaseExecutions.Length))
    {
      for i := 0 to phaseExecutions.Length
        invariant forall j :: 0 <= j < i ==> phaseExecutions[j] >= repeats.GetRepeat(j)
      {
        if phaseExecutions[i] < repeats.GetRepeat(i) {
          return false;
        }
      }
      return true;
    }

    function ShouldAdvancePhase(currentPhase: nat, phaseExecutions: array<int>, repeats: PhaseRepeats): (r: bool)
      requires currentPhase < phaseExecutions.Length
      reads phaseExecutions, repeats
      ensures r == S.ShouldAdvance(Kind(), currentPhase, phaseExecutions[..], repeats.Table(phaseExecutions.Length))
    {
      match this
      case SequencePattern(_) => phaseExecutions[currentPhase] >= repeats.GetRepeat(currentPhase)
      case CyclePattern(_) => true
      case RandomPattern(_, _) => true
    }

    method NextPhase(currentPhase: nat, phaseExecutions: array<int>, repeats: PhaseRepeats) returns (next: int)
      requires currentPhase < phaseExecutions.Length == numPhases
      modifies Frame()
      ensures next == S.NextPhase(Kind(), currentPhase, phaseExecutions[..],
                                  repeats.Table(numPhases), old(Upcoming()))
      ensures RandomPattern? ==> rng.drawn == old(rng.drawn) + if next == -1 then 0 else 1
    {
      match this {
        case SequencePattern(_) =>
          if phaseExecutions[currentPhase] < repeats.GetRepeat(currentPhase) {
            return currentPhase;
          }
          next := currentPhase + 1;
          if next >= numPhases {
            return -1;
          }
        case CyclePattern(_) =>
          if phaseExecutions[currentPhase] >= repeats.GetRepeat(currentPhase) {
            next := (currentPhase + 1) % numPhases;
            var complete := IsComplete(phaseExecutions, repeats);
            if complete {
              return -1;
            }
            return;
          }
          return (currentPhase + 1) % numPhases;
        case RandomPattern(_, rng) =>
          var available: seq<nat> := Available(phaseExecutions, repeats);
          if |available| == 0 {
            return -1;
          }
          var k := rng.Intn(|available|);
          return available[k];
      }
    }

    /** The loop that collects the phases a random executor may choose. */
    static method Available(phaseExecutions: array<int>, repeats: PhaseRepeats) returns (available: seq<nat>)
      ensures available == S.Unfinished(phaseExecutions[..], repeats.Table(phaseExecutions.Length))
    {
      available := [];
      for i := 0 to phaseExecutions.Length
        invariant available == S.Unfinished(phaseExecutions[..i], repeats.Table(i))
      {
        if phaseExecutions[i] < repeats.GetRepeat(i) {
          available := available + [i];
        }
        assert phaseExecutions[..i + 1][..i] == phaseExecutions[..i] && repeats.Table(i + 1)[..i] == repeats.Table(i);
      }
      assert phaseExecutions[..] == phaseExecutions[..phaseExecutions.Length];
    }
  }

  /** NewPatternExecutor: an unknown pattern name is treated as "sequence". */
  method NewPatternExecutor(pattern: string, numPhases: nat, numbers: nat -> nat) returns (e: Executor)
    ensures e.numPhases == numPhases && fresh(e.Frame())
    ensures e.Kind() == (match pattern case "cycle" => S.Cycle case "random" => S.Random case _ => S.Sequence)
    ensures e.RandomPattern? ==> e.rng.numbers == numbers && e.rng.drawn == 0
  {
    match pattern {
      case "sequence" => e := SequencePattern(numPhases);
      case "cycle" => e := CyclePattern(numPhases);
      case "random" =>
        var rng := new Rng(numbers);
        e := RandomPattern(numPhases, rng);
      case _ => e := SequencePattern(numPhases);
    }
  }
}
