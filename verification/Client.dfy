/** The client command: flag and repeat normalisation, plan summary, and the phase loop (cmd/chaosmania/client.go). */
module Client {
  import opened Options
  import opened Arithmetic
  import opened Sequences
  import opened MachineInts
  import opened Plans
  import opened Executors
  import opened Budget
  import opened Durations
  import opened S = Schedule
  import opened Runs
  import Traces
  import opened RandomTraces
  import opened Headers
  import C = Convert

  /** `runtime` is the parsed --runtime-duration in nanoseconds, if the flag is given. */
  datatype Flags = Flags(repeatsPerPhase: int, runtime: Option<int>, phasePattern: string, header: seq<string>)

  /** What becomes of an action when a plan is verified: an unknown name or a bad configuration fails. */
  datatype Parsing = Parses | Fails | Panics

  /** Panics carry the place they come from; `ConfigPanic` is one while an action's configuration is parsed. */
  datatype Exit =
    | RepeatsRejected
    | RuntimeRejected
    | PlanRejected(error: VerifyError)
    | ConfigPanic(error: VerifyError)
    | KeyPanic
    | PatternRejected
    | HeaderPanic
    | NoPhasesPanic
    | PhasesCompleted
    | PhaseFailed(code: int)

  // ----- Repeats

  /** loadPlan: a phase without a repeat runs once. */
  function LoadedRepeat(repeat: nat): nat {
    if repeat == 0 then 1 else repeat
  }

  /** The repeat count the client uses; the plan's uint is converted to a signed int first. */
  function NormalizedRepeat(repeatsPerPhase: int, repeat: nat): int {
    if repeatsPerPhase == 0 then MAX_REPEATS_PER_PHASE
    else if repeatsPerPhase > 0 then repeatsPerPhase
    else
      var r := Wrap64(LoadedRepeat(repeat));
      if r <= 0 then 1 else Min(r, MAX_REPEATS_PER_PHASE)
  }

  /** Flag by flag and value by value: what a phase with `repeat` in the plan runs. */
  lemma {:induction false} NormalizedRepeatCases(repeatsPerPhase: int, repeat: nat)
    requires -1 <= repeatsPerPhase && repeat < TWO_64
    ensures var r := NormalizedRepeat(repeatsPerPhase, repeat);
            && (repeatsPerPhase > 0 ==> r == repeatsPerPhase)
            && (repeatsPerPhase == 0 ==> r == 500)
            && (repeatsPerPhase == -1 && 1 <= repeat <= 500 ==> r == repeat)
            && (repeatsPerPhase == -1 && 500 < repeat <= MAX_INT64 ==> r == 500)
            && (repeatsPerPhase == -1 && (repeat == 0 || repeat > MAX_INT64) ==> r == 1)
  {
    if repeat > MAX_INT64 {
      assert Wrap64(repeat) == repeat - TWO_64;
    }
  }

  function NormalizedRepeats(repeatsPerPhase: int, plan: Plan): (r: seq<int>)
    ensures |r| == |plan.phases|
    ensures forall i :: 0 <= i < |r| ==> r[i] == NormalizedRepeat(repeatsPerPhase, plan.phases[i].repeat)
  {
    seq(|plan.phases|, i requires 0 <= i < |plan.phases| => NormalizedRepeat(repeatsPerPhase, plan.phases[i].repeat))
  }

  /** Accepted flags give every phase between 1 and 500 executions, whatever the plan says. */
  lemma {:induction false} NormalizedRepeatsAreBounded(repeatsPerPhase: int, plan: Plan)
    requires -1 <= repeatsPerPhase <= MAX_REPEATS_PER_PHASE
    ensures Repeatable(NormalizedRepeats(repeatsPerPhase, plan))
  {
    forall i | 0 <= i < |plan.phases|
      ensures 1 <= NormalizedRepeat(repeatsPerPhase, plan.phases[i].repeat) <= MAX_REPEATS_PER_PHASE
    {
    }
  }

  /** A plan repeat is clamped into [1, 500] exactly when it fits a signed int: larger ones turn negative and
      are "corrected" to 1 instead of being capped. */
  lemma {:induction false} PlanRepeatIsCappedExactlyBelowSignBit(repeat: nat)
    requires repeat < TWO_64
    ensures NormalizedRepeat(-1, repeat) == Min(Max(repeat, 1), MAX_REPEATS_PER_PHASE) <==> repeat <= MAX_INT64
  {
    if repeat > MAX_INT64 {
      assert Wrap64(repeat) == repeat - TWO_64;
    }
  }

  /**
   loadPlan on the parsed file, `parsed` as a plan and `raw` as decoded YAML, which stands for `t`. An accepted plan
   still panics if the raw form has a key that is not a string.
   */
  method LoadPlan(known: ActionConfig -> bool, parsed: Plan,
                  raw: map<string, C.Value>, ghost h: C.Contents, ghost t: C.Tree)
    returns (error: Option<VerifyError>, panicked: bool, plan: Plan, settings: C.Value)
    requires C.Holds(h) && C.Stands(h, C.StringMap(raw), t)
    modifies C.Foot(t)
    ensures error.None? <==> Accepted(known, parsed)
    ensures panicked <==> error.None? && !C.StringKeys(t)
    ensures error.None? && !panicked ==>
              var h' := C.After(h, C.Foot(t));
              C.Holds(h') && C.Stands(h', settings, C.Converted(t)) && settings.StringMap?
    ensures error.Some? ==> FirstFaultOfPlan(known, parsed, error.value)
    ensures plan.pattern == parsed.pattern && |plan.phases| == |parsed.phases|
    ensures error.None? ==>
              forall i :: 0 <= i < |plan.phases| ==>
                plan.phases[i] == parsed.phases[i].(repeat := LoadedRepeat(parsed.phases[i].repeat))
    ensures error.None? ==>
              forall i :: 0 <= i < |plan.phases| ==>
                plan.phases[i].repeat == if parsed.phases[i].repeat == 0 then 1 else parsed.phases[i].repeat
  {
    plan, panicked, settings := parsed, false, C.StringMap(raw);
    error := Verify(known, plan);
    if error.Some? {
      return;
    }
    for i := 0 to |plan.phases|
      invariant plan.pattern == parsed.pattern && |plan.phases| == |parsed.phases|
      invariant forall j :: i <= j < |plan.phases| ==> plan.phases[j] == parsed.phases[j]
      invariant forall j :: 0 <= j < i ==>
                  plan.phases[j] == parsed.phases[j].(repeat := LoadedRepeat(parsed.phases[j].repeat))
    {
      if plan.phases[i].repeat == 0 {
        plan := plan.(phases := plan.phases[i := plan.phases[i].(repeat := 1)]);
      }
    }
    panicked, settings := C.Convert(C.StringMap(raw), h, t);
    assert t.StringNode?;
  }

  method BuildRepeats(repeatsPerPhase: int, plan: Plan) returns (phaseRepeats: PhaseRepeats)
    requires -1 <= repeatsPerPhase
    ensures fresh(phaseRepeats)
    ensures phaseRepeats.Table(|plan.phases|) == NormalizedRepeats(repeatsPerPhase, plan)
    ensures forall i: nat :: i < |plan.phases| && repeatsPerPhase > 0 ==> phaseRepeats.GetRepeat(i) == repeatsPerPhase
    ensures forall i: nat :: i < |plan.phases| && repeatsPerPhase == 0 ==> phaseRepeats.GetRepeat(i) == 500
    ensures forall i: nat :: i < |plan.phases| && repeatsPerPhase == -1 && plan.phases[i].repeat <= MAX_INT64 ==>
              phaseRepeats.GetRepeat(i) == Min(Max(plan.phases[i].repeat, 1), 500)
  {
    phaseRepeats := new PhaseRepeats(1);
    if repeatsPerPhase == 0 {
      phaseRepeats.defaultRepeat := MAX_REPEATS_PER_PHASE;
    } else if repeatsPerPhase > 0 {
      phaseRepeats.defaultRepeat := repeatsPerPhase;
    } else {
      for i := 0 to |plan.phases|
        invariant forall j :: 0 <= j < i ==>
                    && j in phaseRepeats.phaseRepeats
                    && phaseRepeats.phaseRepeats[j] == NormalizedRepeat(repeatsPerPhase, plan.phases[j].repeat)
      {
        var repeat := Wrap64(plan.phases[i].repeat);
        if repeat <= 0 {
          repeat := 1;
        } else if repeat > MAX_REPEATS_PER_PHASE {
          repeat := MAX_REPEATS_PER_PHASE;
        }
        phaseRepeats.SetRepeat(i, repeat);
      }
    }
  }

  // ----- The plan summary, which fills the duration cache before the loop starts

  datatype SummaryLine = SummaryLine(repeats: int, perPhase: int, total: int)

  ghost function Summary(table: seq<int>, reps: seq<int>, n: nat): (r: seq<SummaryLine>)
    requires n <= |table| == |reps|
  {
    seq(n, i requires 0 <= i < n => SummaryLine(reps[i], table[i], Wrap64(table[i] * reps[i])))
  }

  lemma {:induction false} SummaryOneMore(table: seq<int>, reps: seq<int>, i: nat, r: int, d: int, total: int)
    requires i < |table| == |reps| && r == reps[i] && d == table[i] && total == Wrap64(d * r)
    ensures Summary(table, reps, i) + [SummaryLine(r, d, total)] == Summary(table, reps, i + 1)
  {
  }

  method LogPlanSummary(durations: PhaseDurations) returns (total: int, lines: seq<SummaryLine>)
    requires durations.Valid() && durations.Divisible()
    modifies durations`cachedDurations
    ensures durations.Valid()
    ensures total == if durations.runtimeDuration > 0 then Adjusted(durations.runtimeDuration, Sum(durations.Reps()))
                     else Wrap64(Sum(Costs(durations.Table(), durations.Reps())))
    ensures lines == Summary(durations.Table(), durations.Reps(), |durations.plan.phases|)
    ensures |lines| == |durations.plan.phases|
    ensures forall i: nat :: i < |lines| ==>
              && lines[i].repeats == durations.repeats.GetRepeat(i) && lines[i].perPhase == durations.Uncached(i)
              && lines[i].total == Wrap64(lines[i].perPhase * lines[i].repeats)
  {
    total := durations.GetTotalDuration();
    lines := [];
    ghost var table, reps := durations.Table(), durations.Reps();
    for i := 0 to |durations.plan.phases|
      invariant durations.Valid() && durations.Table() == table && durations.Reps() == reps
      invariant lines == Summary(table, reps, i)
    {
      var repeats := durations.repeats.GetRepeat(i);
      var phaseDuration := durations.GetPhaseDuration(i);
      var phaseTotalDuration := durations.GetPhaseTotalDuration(i);
      SummaryOneMore(table, reps, i, repeats, phaseDuration, phaseTotalDuration);
      lines := lines + [SummaryLine(repeats, phaseDuration, phaseTotalDuration)];
    }
  }

  // ----- The phase loop

  /** The state the loop variables stand for; only a random executor draws numbers. */
  ghost function View(e: Executor, cur: nat, execs: array<int>, trace: seq<nat>, status: Status): State
    reads execs, e.Frame()
  {
    State(cur, execs[..], trace, if e.RandomPattern? then e.rng.drawn else 0, status)
  }

  ghost predicate LoopReady(e: Executor, cur: nat, execs: array<int>, durations: PhaseDurations, pick: nat -> nat)
    reads durations, durations.repeats, execs
  {
    && durations.Valid() && durations.Divisible()
    && cur < e.numPhases == execs.Length == |durations.plan.phases|
    && (e.RandomPattern? ==> e.rng.numbers == pick)
  }

  lemma {:induction false} DrawOnlyForRandom(p: Pattern, s: State, reps: seq<int>, draw: nat, pick: nat -> nat)
    requires Fits(s, reps) && (p.Random? ==> draw == pick(s.draws))
    ensures NextPhase(p, s.cur, s.execs, reps, draw) == NextPhase(p, s.cur, s.execs, reps, pick(s.draws))
  {
  }

  /** Ask the executor where to go; it appears twice in the loop. */
  method MoveOn(executor: Executor, repeats: PhaseRepeats, ghost pick: nat -> nat,
                currentPhase: nat, phaseExecutions: array<int>, ghost trace: seq<nat>)
    returns (status: Status, phase: nat)
    requires currentPhase < executor.numPhases == phaseExecutions.Length
    requires executor.RandomPattern? ==> executor.rng.numbers == pick
    modifies executor.Frame()
    ensures phase < executor.numPhases
    ensures View(executor, phase, phaseExecutions, trace, status)
         == Advance(executor.Kind(), repeats.Table(executor.numPhases), pick,
                    old(View(executor, currentPhase, phaseExecutions, trace, Running)))
  {
    ghost var s := View(executor, currentPhase, phaseExecutions, trace, Running);
    ghost var reps, draw := repeats.Table(executor.numPhases), executor.Upcoming();
    DrawOnlyForRandom(executor.Kind(), s, reps, draw, pick);
    var nextPhase := executor.NextPhase(currentPhase, phaseExecutions, repeats);
    assert phaseExecutions[..] == s.execs;
    if nextPhase == -1 {
      return Completed, currentPhase;
    }
    return Running, nextPhase;
  }

  /** The body of the client loop: one pass, with `continue` and `return` expressed by the status. */
  method LoopBody(executor: Executor, durations: PhaseDurations, verdict: nat -> Verdict, ghost pick: nat -> nat,
                  currentPhase: nat, phaseExecutions: array<int>, trace: seq<nat>, issued: seq<int>)
    returns (status: Status, phase: nat, trace': seq<nat>, issued': seq<int>)
    requires LoopReady(executor, currentPhase, phaseExecutions, durations, pick)
    modifies phaseExecutions, durations`cachedDurations, executor.Frame()
    ensures LoopReady(executor, phase, phaseExecutions, durations, pick)
    ensures View(executor, phase, phaseExecutions, trace', status)
         == Iterate(executor.Kind(), durations.Reps(), Env(verdict, pick),
                    old(View(executor, currentPhase, phaseExecutions, trace, Running)))
    ensures (trace', issued') == (trace, issued)
         || (trace', issued') == (trace + [currentPhase], issued + [durations.Uncached(currentPhase)])
  {
    var phaseRepeats := durations.repeats;
    ghost var s := View(executor, currentPhase, phaseExecutions, trace, Running);
    status, phase, trace', issued' := Running, currentPhase, trace, issued;
    if phaseExecutions[currentPhase] >= phaseRepeats.GetRepeat(currentPhase) {
      status, phase := MoveOn(executor, phaseRepeats, pick, currentPhase, phaseExecutions, trace);
      return;
    }
    var phaseDuration := durations.GetPhaseDuration(currentPhase);
    var err := verdict(|trace|);
    trace', issued' := trace + [currentPhase], issued + [phaseDuration];
    phaseExecutions[currentPhase] := phaseExecutions[currentPhase] + 1;
    assert View(executor, currentPhase, phaseExecutions, trace', Running) == Execute(s, durations.Reps());
    if err.PhaseError? {
      status := Failed(err.code);
      return;
    }
    if executor.ShouldAdvancePhase(currentPhase, phaseExecutions, phaseRepeats) {
      status, phase := MoveOn(executor, phaseRepeats, pick, currentPhase, phaseExecutions, trace');
    }
  }

  /** What the loop variables mean when the abstract scheduler is in state `at`. */
  ghost predicate LoopInvariant(e: Executor, durations: PhaseDurations, pick: nat -> nat, at: State, cur: nat,
                                execs: array<int>, trace: seq<nat>, issued: seq<int>, status: Status)
    reads durations, durations.repeats, execs, e.Frame()
  {
    && LoopReady(e, cur, execs, durations, pick)
    && View(e, cur, execs, trace, status) == at
    && Timed(trace, issued, durations.Table())
  }

  /** Each execution was given its phase's duration. */
  ghost predicate Timed(trace: seq<nat>, issued: seq<int>, table: seq<int>) {
    && Within(trace, |table|) && |issued| == |trace|
    && forall k :: 0 <= k < |trace| ==> issued[k] == table[trace[k]]
  }

  lemma {:induction false} NormalizedSum(reps: seq<int>)
    requires Positive(reps)
    ensures Sum(reps) >= |reps| > 0
  {
    SumBounds(reps, 1, reps[Traces.Busiest(reps)]);
  }

  lemma {:induction false} TimedExtends(trace: seq<nat>, issued: seq<int>, table: seq<int>, x: nat)
    requires Timed(trace, issued, table) && x < |table|
    ensures Timed(trace + [x], issued + [table[x]], table)
  {
  }

  /** How a run over repeats `reps` ends: with the whole trace, or cut off right after the first error. */
  ghost predicate EndsAs(p: Pattern, reps: seq<int>, env: Env, result: Status, trace: seq<nat>)
    requires Positive(reps)
  {
    var full := PatternTrace(p, reps, env.pick);
    && !result.Running?
    && trace <= full
    && (result.Completed? ==> trace == full)
    && (result.Failed? ==> trace != [] && env.verdict(|trace| - 1) == PhaseError(result.code))
    && forall k :: 0 <= k < |trace| - (if result.Failed? then 1 else 0) ==> !env.verdict(k).PhaseError?
  }

  /** Pass t + 1 follows from pass t, and the loop has a bounded number of passes left. */
  ghost predicate Onward(p: Pattern, reps: seq<int>, env: Env, run: nat -> State, t: nat)
    requires Positive(reps)
  {
    && Fits(run(t), reps)
    && (run(t).status.Running? ==> t < Steps(p, reps) && run(t + 1) == Iterate(p, reps, env, run(t)))
    && (!run(t).status.Running? ==> EndsAs(p, reps, env, run(t).status, run(t).trace))
  }

  /** The run of the abstract scheduler, pass by pass. */
  lemma {:induction false} TheRun(p: Pattern, reps: seq<int>, env: Env) returns (run: nat -> State)
    requires Positive(reps)
    ensures run(0) == Start(|reps|)
    ensures forall t: nat :: Onward(p, reps, env, run, t)
  {
    run := (t: nat) => After(p, reps, env, t);
    forall t: nat ensures Onward(p, reps, env, run, t) {
      RunOutcome(p, reps, env, t);
      assert run(t).status.Running? ==> After(p, reps, env, t + 1) == Iterate(p, reps, env, run(t));
    }
  }

  /**
   `verdict(k)` is what the k-th call of executePhase returns. `issued` lists the timeouts handed to phase
   contexts, `trace` the phases executed.
   */
  method RunPhases(executor: Executor, durations: PhaseDurations, verdict: nat -> Verdict, ghost pick: nat -> nat)
    returns (result: Status, trace: seq<nat>, issued: seq<int>)
    requires durations.Valid() && Positive(durations.Reps())
    requires executor.numPhases == |durations.plan.phases|
    requires executor.RandomPattern? ==> executor.rng.drawn == 0 && executor.rng.numbers == pick
    modifies durations`cachedDurations, executor.Frame()
    ensures EndsAs(executor.Kind(), durations.Reps(), Env(verdict, pick), result, trace)
    ensures Timed(trace, issued, durations.Table())
  {
    ghost var p, reps, env := executor.Kind(), durations.Reps(), Env(verdict, pick);
    ghost var run := TheRun(p, reps, env);
    var currentPhase: nat := 0;
    var phaseExecutions := new int[executor.numPhases](_ => 0);
    assert phaseExecutions[..] == Start(|reps|).execs;
    ghost var t: nat := 0;
    result, trace, issued := Running, [], [];
    NormalizedSum(reps);
    while result.Running?
      invariant fresh(phaseExecutions) && durations.Reps() == reps
      invariant LoopInvariant(executor, durations, pick, run(t), currentPhase, phaseExecutions, trace, issued, result)
      decreases Steps(p, reps) - t
    {
      assert Onward(p, reps, env, run, t);
      TimedExtends(trace, issued, durations.Table(), currentPhase);
      result, currentPhase, trace, issued :=
        LoopBody(executor, durations, verdict, pick, currentPhase, phaseExecutions, trace, issued);
      t := t + 1;
    }
    assert Onward(p, reps, env, run, t);
  }

  // ----- What a run spends

  lemma {:induction false} SpentAlongTrace(trace: seq<nat>, issued: seq<int>, table: seq<int>)
    requires Timed(trace, issued, table)
    ensures Sum(issued) == SumOver(trace, table)
  {
    if trace == [] {
    } else {
      var n := |trace| - 1;
      SpentAlongTrace(trace[..n], issued[..n], table);
    }
  }

  /** A complete run of any pattern spends each phase's duration as often as the phase repeats. */
  lemma {:induction false} CompleteRunSpends(p: Pattern, reps: seq<int>, pick: nat -> nat, issued: seq<int>, table: seq<int>)
    requires Positive(reps) && |table| == |reps|
    requires Timed(PatternTrace(p, reps, pick), issued, table)
    ensures Sum(issued) == Sum(Costs(table, reps))
  {
    TraceIsBalanced(p, reps, pick);
    SpentAlongTrace(PatternTrace(p, reps, pick), issued, table);
    SpentByCounts(PatternTrace(p, reps, pick), table, reps);
  }

  /**
   Under an override the run falls short of the adjusted runtime by the remainder of its division over all
   executions, less than a nanosecond each, exactly when the minimum runtime fits in an int64.
   */
  lemma {:induction false} OverrideGap(runtime: int, reps: seq<int>, table: seq<int>)
    requires MIN_PHASE_DURATION <= runtime <= MAX_PHASE_DURATION && Sum(reps) >= 1 && |table| == |reps|
    requires forall i :: 0 <= i < |table| ==> table[i] == PhaseDuration(runtime, Sum(reps), [])
    ensures FallsShortByRemainder(Adjusted(runtime, Sum(reps)), Sum(Costs(table, reps)), Sum(reps))
       <==> MIN_PHASE_DURATION * Sum(reps) <= MAX_INT64
  {
    var d, total := PhaseDuration(runtime, Sum(reps), []), Sum(reps);
    EqualShares(table, reps, d);
    if MIN_PHASE_DURATION * total <= MAX_INT64 {
      OverrideSplit(runtime, total, []);
    } else {
      ProductBounds(MIN_PHASE_DURATION, total, d, total);
    }
  }

  predicate FallsShortByRemainder(planned: int, spent: int, total: int)
    requires total >= 1
  {
    planned - spent == planned % total
  }

  // ----- The whole command

  function PatternNamed(name: string): Pattern {
    match name case "cycle" => Cycle case "random" => Random case _ => Sequence
  }

  predicate RepeatsAccepted(flags: Flags) {
    -1 <= flags.repeatsPerPhase <= MAX_REPEATS_PER_PHASE
  }

  predicate RuntimeAccepted(flags: Flags) {
    flags.runtime.Some? ==> MIN_PHASE_DURATION <= flags.runtime.value <= MAX_PHASE_DURATION
  }

  predicate PatternAccepted(flags: Flags) {
    flags.phasePattern in ["", "sequence", "cycle", "random"]
  }

  /** The flag wins over the plan; no name and unknown names in the plan mean "sequence". */
  function EffectivePattern(flags: Flags, plan: Plan): Pattern {
    PatternNamed(if flags.phasePattern != "" then flags.phasePattern else plan.pattern)
  }

  function Runtime(flags: Flags): int {
    if flags.runtime.Some? then flags.runtime.value else 0
  }

  function Known(parse: ActionConfig -> Parsing): ActionConfig -> bool {
    (a: ActionConfig) => parse(a).Parses?
  }

  /** The complaint is about an action whose configuration makes the parser panic. */
  predicate ByPanic(parse: ActionConfig -> Parsing, plan: Plan, e: VerifyError) {
    && e.BadAction? && e.phase < |plan.phases|
    && var actions := SectionOf(plan.phases[e.phase], e.section).actions;
       e.action < |actions| && parse(actions[e.action]).Panics?
  }

  /** The checks before the loop, in order; `stringKeys` says whether the raw plan has string keys only. */
  ghost predicate ExitFits(flags: Flags, parse: ActionConfig -> Parsing, plan: Plan, stringKeys: bool, exit: Exit) {
    var flagsAccepted := RepeatsAccepted(flags) && RuntimeAccepted(flags);
    var planAccepted := flagsAccepted && Accepted(Known(parse), plan);
    match exit
    case RepeatsRejected => !RepeatsAccepted(flags)
    case RuntimeRejected => RepeatsAccepted(flags) && !RuntimeAccepted(flags)
    case PlanRejected(e) =>
      flagsAccepted && !planAccepted && FirstFaultOfPlan(Known(parse), plan, e) && !ByPanic(parse, plan, e)
    case ConfigPanic(e) =>
      flagsAccepted && !planAccepted && FirstFaultOfPlan(Known(parse), plan, e) && ByPanic(parse, plan, e)
    case KeyPanic => planAccepted && !stringKeys
    case PatternRejected => planAccepted && stringKeys && !PatternAccepted(flags)
    case HeaderPanic => planAccepted && stringKeys && PatternAccepted(flags) && !Splittable(flags.header)
    case NoPhasesPanic =>
      planAccepted && stringKeys && PatternAccepted(flags) && Splittable(flags.header) && plan.phases == []
    case _ =>
      planAccepted && stringKeys && PatternAccepted(flags) && Splittable(flags.header) && plan.phases != []
  }

  /**
   The announced total against the timeouts of a complete run. Without an override it is the time spent, unless that
   does not fit in an int64, which takes more than seven phases. With one the run falls short of it by the remainder
   of the division, unless the minimum runtime does not fit, which takes more than 307445.
   */
  ghost predicate BudgetAgrees(flags: Flags, reps: seq<int>, planned: int, spent: int) {
    match flags.runtime
    case None =>
      && planned == Wrap64(spent)
      && (planned == spent <==> spent <= MAX_INT64)
      && (|reps| <= 7 ==> planned == spent)
    case Some(runtime) =>
      && Sum(reps) >= 1
      && planned == Adjusted(runtime, Sum(reps))
      && (FallsShortByRemainder(planned, spent, Sum(reps)) <==> MIN_PHASE_DURATION * Sum(reps) <= MAX_INT64)
      && (|reps| <= 307445 ==> FallsShortByRemainder(planned, spent, Sum(reps)))
  }

  /** The timeout each phase gets. */
  ghost function PhaseTable(flags: Flags, plan: Plan): (r: seq<int>)
    requires RepeatsAccepted(flags)
    ensures |r| == |plan.phases|
  {
    var reps := NormalizedRepeats(flags.repeatsPerPhase, plan);
    seq(|reps|, i requires 0 <= i < |reps| =>
      if Sum(reps) == 0 then 0 else PhaseDuration(Runtime(flags), Sum(reps), plan.phases[i].workers))
  }

  /** The total that is announced before the loop, whatever then becomes of the run. */
  ghost function Announced(flags: Flags, plan: Plan): int
    requires RepeatsAccepted(flags)
  {
    var reps := NormalizedRepeats(flags.repeatsPerPhase, plan);
    if flags.runtime.Some? then Adjusted(Runtime(flags), Sum(reps))
    else Wrap64(Sum(Costs(PhaseTable(flags, plan), reps)))
  }

  lemma {:induction false} BudgetOfCompleteRun(flags: Flags, plan: Plan, pick: nat -> nat, planned: int, issued: seq<int>)
    requires RepeatsAccepted(flags) && RuntimeAccepted(flags) && plan.phases != []
    requires var reps := NormalizedRepeats(flags.repeatsPerPhase, plan);
             && Positive(reps)
             && Timed(PatternTrace(EffectivePattern(flags, plan), reps, pick), issued, PhaseTable(flags, plan))
             && planned == Announced(flags, plan)
    ensures BudgetAgrees(flags, NormalizedRepeats(flags.repeatsPerPhase, plan), planned, Sum(issued))
  {
    var reps, table := NormalizedRepeats(flags.repeatsPerPhase, plan), PhaseTable(flags, plan);
    CompleteRunSpends(EffectivePattern(flags, plan), reps, pick, issued, table);
    NormalizedSum(reps);
    NormalizedRepeatsAreBounded(flags.repeatsPerPhase, plan);
    if flags.runtime.Some? {
      OverrideGap(Runtime(flags), reps, table);
      OverrideFits(reps);
    } else {
      TableInBounds(flags, plan);
      TotalsFit(table, reps);
      CostsInBounds(table, reps);
    }
  }

  lemma {:induction false} OverrideFits(reps: seq<int>)
    requires Repeatable(reps)
    ensures |reps| <= 307445 ==> MIN_PHASE_DURATION * Sum(reps) <= MAX_INT64
  {
    if |reps| <= 307445 {
      MinimumRuntimeFits(reps);
    }
  }

  /** Whatever the plan says, the clamps keep every timeout in bounds. */
  lemma {:induction false} TableInBounds(flags: Flags, plan: Plan)
    requires RepeatsAccepted(flags) && Sum(NormalizedRepeats(flags.repeatsPerPhase, plan)) != 0
    ensures DurationsInBounds(PhaseTable(flags, plan))
  {
  }

  // ----- What a run means to whoever started it

  /** The pattern in force, by its name: the flag wins, and whatever is no other pattern is a sequence. */
  ghost predicate FollowsPattern(flags: Flags, plan: Plan, reps: seq<int>, pick: nat -> nat, trace: seq<nat>)
    requires Positive(reps)
  {
    var name := if flags.phasePattern != "" then flags.phasePattern else plan.pattern;
    && (name == "cycle" ==> trace <= Traces.CycleTrace(reps))
    && (name == "random" ==> trace <= PatternTrace(Random, reps, pick))
    && (name != "cycle" && name != "random" ==> trace <= Traces.SequenceTrace(reps))
  }

  /** How often each phase was executed, from flag and plan. */
  ghost predicate RunsAsOften(flags: Flags, plan: Plan, trace: seq<nat>) {
    forall i: nat :: i < |plan.phases| ==>
      && (flags.repeatsPerPhase > 0 ==> Count(trace, i) == flags.repeatsPerPhase)
      && (flags.repeatsPerPhase == 0 ==> Count(trace, i) == 500)
      && (flags.repeatsPerPhase == -1 && plan.phases[i].repeat <= MAX_INT64 ==>
            Count(trace, i) == Min(Max(plan.phases[i].repeat, 1), 500))
  }

  /** The timeout of every execution, from flag and plan. */
  ghost predicate LastsAsLong(flags: Flags, plan: Plan, reps: seq<int>, trace: seq<nat>, issued: seq<int>) {
    && |issued| == |trace| && Within(trace, |plan.phases|)
    && forall k: nat :: k < |trace| ==>
         match flags.runtime
         case None => IsLongest(plan.phases[trace[k]].workers, issued[k])
         case Some(runtime) =>
           Sum(reps) > 0 &&
           (MIN_PHASE_DURATION * Sum(reps) <= MAX_INT64 ==>
              issued[k] == Max(runtime, MIN_PHASE_DURATION * Sum(reps)) / Sum(reps))
  }

  /** All that is promised of a run that has started. */
  ghost predicate RunFits(flags: Flags, plan: Plan, env: Env, exit: Exit, planned: int, trace: seq<nat>, issued: seq<int>)
    requires exit.PhasesCompleted? || exit.PhaseFailed?
  {
    RepeatsAccepted(flags) &&
    var reps := NormalizedRepeats(flags.repeatsPerPhase, plan);
    var result := if exit.PhasesCompleted? then Completed else Failed(exit.code);
    && Positive(reps)
    && EndsAs(EffectivePattern(flags, plan), reps, env, result, trace)
    && Timed(trace, issued, PhaseTable(flags, plan))
    && planned == Announced(flags, plan)
    && (exit.PhasesCompleted? ==> BudgetAgrees(flags, reps, planned, Sum(issued)))
    && FollowsPattern(flags, plan, reps, env.pick, trace)
    && (exit.PhasesCompleted? ==> RunsAsOften(flags, plan, trace))
    && LastsAsLong(flags, plan, reps, trace, issued)
  }

  lemma {:induction false} RunFollowsPattern(flags: Flags, plan: Plan, reps: seq<int>, env: Env, result: Status, trace: seq<nat>)
    requires PatternAccepted(flags) && Positive(reps)
    requires EndsAs(EffectivePattern(flags, plan), reps, env, result, trace)
    ensures FollowsPattern(flags, plan, reps, env.pick, trace)
  {
  }

  lemma {:induction false} RunIsAsOften(flags: Flags, plan: Plan, env: Env, trace: seq<nat>)
    requires RepeatsAccepted(flags)
    requires var reps := NormalizedRepeats(flags.repeatsPerPhase, plan);
             Positive(reps) && EndsAs(EffectivePattern(flags, plan), reps, env, Completed, trace)
    ensures RunsAsOften(flags, plan, trace)
  {
    var reps := NormalizedRepeats(flags.repeatsPerPhase, plan);
    TraceIsBalanced(EffectivePattern(flags, plan), reps, env.pick);
    forall i: nat | i < |plan.phases|
      ensures Count(trace, i) == reps[i] == NormalizedRepeat(flags.repeatsPerPhase, plan.phases[i].repeat)
    {
    }
    forall i: nat | i < |plan.phases| && plan.phases[i].repeat <= MAX_INT64 {
      NormalizedRepeatCases(flags.repeatsPerPhase, plan.phases[i].repeat);
    }
  }

  lemma {:induction false} RunIsAsLong(flags: Flags, plan: Plan, trace: seq<nat>, issued: seq<int>)
    requires RepeatsAccepted(flags) && RuntimeAccepted(flags) && Positive(NormalizedRepeats(flags.repeatsPerPhase, plan))
    requires forall i :: 0 <= i < |plan.phases| ==> WorkersInBounds(plan.phases[i].workers)
    requires Timed(trace, issued, PhaseTable(flags, plan))
    ensures LastsAsLong(flags, plan, NormalizedRepeats(flags.repeatsPerPhase, plan), trace, issued)
  {
    var reps, table := NormalizedRepeats(flags.repeatsPerPhase, plan), PhaseTable(flags, plan);
    NormalizedSum(reps);
    forall k: nat | k < |trace|
      ensures flags.runtime.None? ==> IsLongest(plan.phases[trace[k]].workers, issued[k])
      ensures flags.runtime.Some? && MIN_PHASE_DURATION * Sum(reps) <= MAX_INT64 ==>
                issued[k] == Max(flags.runtime.value, MIN_PHASE_DURATION * Sum(reps)) / Sum(reps)
    {
      OneTimeout(flags, plan, trace[k]);
    }
  }

  lemma {:induction false} OneTimeout(flags: Flags, plan: Plan, i: nat)
    requires RepeatsAccepted(flags) && RuntimeAccepted(flags) && i < |plan.phases|
    requires WorkersInBounds(plan.phases[i].workers) && Sum(NormalizedRepeats(flags.repeatsPerPhase, plan)) >= 1
    ensures var total := Sum(NormalizedRepeats(flags.repeatsPerPhase, plan));
            && (flags.runtime.None? ==> IsLongest(plan.phases[i].workers, PhaseTable(flags, plan)[i]))
            && (flags.runtime.Some? && MIN_PHASE_DURATION * total <= MAX_INT64 ==>
                  PhaseTable(flags, plan)[i] == Max(flags.runtime.value, MIN_PHASE_DURATION * total) / total)
  {
    PhaseDurationMeans(Runtime(flags), Sum(NormalizedRepeats(flags.repeatsPerPhase, plan)), plan.phases[i].workers);
  }

  /** The verification of a plan does not depend on repeats, nor does anything but the repeats on loading it. */
  lemma {:induction false} LoadingKeepsPlan(flags: Flags, parsed: Plan, plan: Plan)
    requires RepeatsAccepted(flags) && plan.pattern == parsed.pattern && |plan.phases| == |parsed.phases|
    requires forall i :: 0 <= i < |plan.phases| ==>
               plan.phases[i] == parsed.phases[i].(repeat := LoadedRepeat(parsed.phases[i].repeat))
    ensures NormalizedRepeats(flags.repeatsPerPhase, plan) == NormalizedRepeats(flags.repeatsPerPhase, parsed)
    ensures PhaseTable(flags, plan) == PhaseTable(flags, parsed)
    ensures EffectivePattern(flags, plan) == EffectivePattern(flags, parsed)
  {
  }

  /** The pattern override and the default pattern. */
  method SettlePattern(flags: Flags, plan: Plan) returns (accepted: bool, settled: Plan)
    ensures accepted <==> PatternAccepted(flags)
    ensures settled.phases == plan.phases
    ensures accepted ==>
              settled.pattern == if flags.phasePattern != "" then flags.phasePattern
                                 else if plan.pattern != "" then plan.pattern else "sequence"
    ensures accepted ==> PatternNamed(settled.pattern) == EffectivePattern(flags, plan) == EffectivePattern(flags, settled)
  {
    settled := plan;
    if flags.phasePattern != "" {
      match flags.phasePattern {
        case "sequence" | "cycle" | "random" => settled := plan.(pattern := flags.phasePattern);
        case _ => return false, settled;
      }
    }
    if settled.pattern == "" {
      settled := settled.(pattern := "sequence");
    }
    accepted := true;
  }

  /** The validation of the numeric flags. */
  method CheckFlags(flags: Flags) returns (rejection: Option<Exit>, runtimeDuration: int)
    ensures rejection == if !RepeatsAccepted(flags) then Some(RepeatsRejected)
                         else if !RuntimeAccepted(flags) then Some(RuntimeRejected) else None
    ensures rejection.None? ==> runtimeDuration == Runtime(flags)
    ensures rejection.None? <==>
            && -1 <= flags.repeatsPerPhase <= 500
            && (flags.runtime.Some? ==> 60_000_000_000 <= flags.runtime.value <= 2_419_200_000_000_000)
    ensures rejection.None? ==> runtimeDuration == if flags.runtime.Some? then flags.runtime.value else 0
    ensures rejection == Some(RepeatsRejected) <==> flags.repeatsPerPhase < -1 || flags.repeatsPerPhase > 500
  {
    runtimeDuration := 0;
    if flags.repeatsPerPhase < -1 {
      return Some(RepeatsRejected), runtimeDuration;
    }
    if flags.repeatsPerPhase > MAX_REPEATS_PER_PHASE {
      return Some(RepeatsRejected), runtimeDuration;
    }
    if flags.runtime.Some? {
      var duration := flags.runtime.value;
      if duration < MIN_PHASE_DURATION || duration > MAX_PHASE_DURATION {
        return Some(RuntimeRejected), runtimeDuration;
      }
      runtimeDuration := duration;
    }
    rejection := None;
  }

  /**
   command_client, for any parsed flags and plan, any contents of the raw plan, any results of the phases and any
   random numbers.
   */
  method CommandClient(flags: Flags, parse: ActionConfig -> Parsing, parsed: Plan,
                       raw: map<string, C.Value>, ghost h: C.Contents, ghost t: C.Tree,
                       verdict: nat -> Verdict, pick: nat -> nat)
    returns (exit: Exit, planned: int, trace: seq<nat>, issued: seq<int>)
    requires C.Holds(h) && C.Stands(h, C.StringMap(raw), t)
    modifies C.Foot(t)
    ensures ExitFits(flags, parse, parsed, C.StringKeys(t), exit)
    ensures !(exit.PhasesCompleted? || exit.PhaseFailed?) ==> trace == [] && issued == []
    ensures exit.PhasesCompleted? || exit.PhaseFailed? ==>
              RunFits(flags, parsed, Env(verdict, pick), exit, planned, trace, issued)
  {
    hide RepeatsAccepted, RuntimeAccepted, PatternAccepted, Runtime, RunFits, Accepted, FirstFaultOfPlan, ByPanic, Splittable, NormalizedRepeats, C.Stands, C.After, C.Converted;
    trace, issued, planned := [], [], 0;
    var rejection, runtimeDuration := CheckFlags(flags);
    if rejection.Some? {
      return rejection.value, planned, trace, issued;
    }
    var error, panicked, plan, settings := LoadPlan(Known(parse), parsed, raw, h, t);
    if error.Some? {
      exit := if ByPanic(parse, parsed, error.value) then ConfigPanic(error.value) else PlanRejected(error.value);
      return;
    }
    if panicked {
      return KeyPanic, planned, trace, issued;
    }
    var phaseRepeats := BuildRepeats(flags.repeatsPerPhase, plan);
    var accepted;
    accepted, plan := SettlePattern(flags, plan);
    if !accepted {
      return PatternRejected, planned, trace, issued;
    }
    exit, planned, trace, issued :=
      RunLoaded(flags, Known(parse), parsed, plan, phaseRepeats, runtimeDuration, verdict, pick);
  }

  /** The part of command_client from the headers on, in terms of the plan as it was parsed. */
  method RunLoaded(flags: Flags, ghost known: ActionConfig -> bool, ghost parsed: Plan, plan: Plan,
                   phaseRepeats: PhaseRepeats, runtimeDuration: int, verdict: nat -> Verdict, pick: nat -> nat)
    returns (exit: Exit, planned: int, trace: seq<nat>, issued: seq<int>)
    requires RepeatsAccepted(flags) && RuntimeAccepted(flags) && PatternAccepted(flags) && Accepted(known, parsed)
    requires runtimeDuration == Runtime(flags) && |plan.phases| == |parsed.phases|
    requires forall i :: 0 <= i < |plan.phases| ==>
               plan.phases[i] == parsed.phases[i].(repeat := LoadedRepeat(parsed.phases[i].repeat))
    requires phaseRepeats.Table(|plan.phases|) == NormalizedRepeats(flags.repeatsPerPhase, plan)
    requires EffectivePattern(flags, plan) == PatternNamed(plan.pattern) == EffectivePattern(flags, parsed)
    ensures if !Splittable(flags.header) then exit.HeaderPanic? && trace == [] && issued == []
            else if plan.phases == [] then exit.NoPhasesPanic? && trace == [] && issued == []
            else
              && (exit.PhasesCompleted? || exit.PhaseFailed?)
              && RunFits(flags, parsed, Env(verdict, pick), exit, planned, trace, issued)
  {
    hide FollowsPattern, RunsAsOften, LastsAsLong, BudgetAgrees, EndsAs, Timed;
    var headerPanic, headers := SplitHeaders(flags.header);
    if headerPanic {
      return HeaderPanic, 0, [], [];
    }
    LoadingKeepsPlan(flags, parsed, plan.(pattern := parsed.pattern));
    exit, planned, trace, issued := RunPlan(flags, plan, phaseRepeats, runtimeDuration, verdict, pick);
    if plan.phases != [] {
      RunHasItsMeaning(flags, known, parsed, Env(verdict, pick), exit, trace, issued);
    }
  }

  lemma {:induction false} RunHasItsMeaning(flags: Flags, known: ActionConfig -> bool, plan: Plan, env: Env, exit: Exit,
                                            trace: seq<nat>, issued: seq<int>)
    requires RepeatsAccepted(flags) && RuntimeAccepted(flags) && PatternAccepted(flags) && Accepted(known, plan)
    requires exit.PhasesCompleted? || exit.PhaseFailed? ==>
               var reps := NormalizedRepeats(flags.repeatsPerPhase, plan);
               var result := if exit.PhasesCompleted? then Completed else Failed(exit.code);
               && Positive(reps) && EndsAs(EffectivePattern(flags, plan), reps, env, result, trace)
               && Timed(trace, issued, PhaseTable(flags, plan))
    ensures exit.PhasesCompleted? || exit.PhaseFailed? ==>
              var reps := NormalizedRepeats(flags.repeatsPerPhase, plan);
              && FollowsPattern(flags, plan, reps, env.pick, trace)
              && (exit.PhasesCompleted? ==> RunsAsOften(flags, plan, trace))
              && LastsAsLong(flags, plan, reps, trace, issued)
  {
    var reps := NormalizedRepeats(flags.repeatsPerPhase, plan);
    if exit.PhasesCompleted? || exit.PhaseFailed? {
      RunFollowsPattern(flags, plan, reps, env, if exit.PhasesCompleted? then Completed else Failed(exit.code), trace);
      RunIsAsLong(flags, plan, trace, issued);
      if exit.PhasesCompleted? {
        RunIsAsOften(flags, plan, env, trace);
      }
    }
  }

  /** The part of command_client after the pattern is settled: summary, executor and loop. */
  method RunPlan(flags: Flags, plan: Plan, phaseRepeats: PhaseRepeats, runtimeDuration: int,
                 verdict: nat -> Verdict, pick: nat -> nat)
    returns (exit: Exit, planned: int, trace: seq<nat>, issued: seq<int>)
    requires RepeatsAccepted(flags) && RuntimeAccepted(flags) && runtimeDuration == Runtime(flags)
    requires phaseRepeats.Table(|plan.phases|) == NormalizedRepeats(flags.repeatsPerPhase, plan)
    requires EffectivePattern(flags, plan) == PatternNamed(plan.pattern)
    ensures if plan.phases == [] then exit.NoPhasesPanic? && trace == [] && issued == []
            else
              var reps := NormalizedRepeats(flags.repeatsPerPhase, plan);
              && (exit.PhasesCompleted? || exit.PhaseFailed?)
              && Positive(reps)
              && EndsAs(PatternNamed(plan.pattern), reps, Env(verdict, pick),
                        if exit.PhasesCompleted? then Completed else Failed(exit.code), trace)
              && Timed(trace, issued, PhaseTable(flags, plan))
              && planned == Announced(flags, plan)
              && (exit.PhasesCompleted? ==> BudgetAgrees(flags, reps, planned, Sum(issued)))
  {
    NormalizedRepeatsAreBounded(flags.repeatsPerPhase, plan);
    ghost var reps := NormalizedRepeats(flags.repeatsPerPhase, plan);
    if plan.phases != [] {
      NormalizedSum(reps);
    }
    var durations := new PhaseDurations(runtimeDuration, plan, phaseRepeats);
    var lines;
    planned, lines := LogPlanSummary(durations);
    var executor := NewPatternExecutor(plan.pattern, |plan.phases|, pick);
    if plan.phases == [] {
      // phaseExecutions[0] is out of range.
      return NoPhasesPanic, planned, [], [];
    }
    assert durations.Table() == PhaseTable(flags, plan);
    var result;
    result, trace, issued := RunPhases(executor, durations, verdict, pick);
    if result.Failed? {
      return PhaseFailed(result.code), planned, trace, issued;
    }
    exit := PhasesCompleted;
    BudgetOfCompleteRun(flags, plan, pick, planned, issued);
  }
}
