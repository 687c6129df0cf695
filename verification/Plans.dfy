/** Plans and their verification (pkg/actions/plan.go). Durations are int64 nanoseconds. */
module Plans {
  import opened Options

  /** pkg.MinPhaseDuration (60 s) and pkg.MaxPhaseDuration (28 days). */
  const MIN_PHASE_DURATION: int := 60 * 1_000_000_000
  const MAX_PHASE_DURATION: int := 28 * 24 * 60 * 60 * 1_000_000_000
  const MAX_REPEATS_PER_PHASE: int := 500

  datatype ActionConfig = ActionConfig(name: string, config: string)

  datatype Workload = Workload(actions: seq<ActionConfig>)

  datatype Workers = Workers(instances: nat, duration: int)

  datatype Phase = Phase(name: string, workers: seq<Workers>, setup: Workload, workload: Workload,
                         teardown: Workload, repeat: nat)

  datatype Plan = Plan(pattern: string, phases: seq<Phase>)

  datatype Section = Setup | Main | Teardown

  datatype VerifyError =
    | DurationRequired(phase: nat, worker: nat)
    | DurationTooShort(phase: nat, worker: nat)
    | DurationTooLong(phase: nat, worker: nat)
    | BadAction(phase: nat, section: Section, action: nat)

  predicate DurationInBounds(w: Workers) {
    MIN_PHASE_DURATION <= w.duration <= MAX_PHASE_DURATION
  }

  /** `known(a)`: the action is registered and its configuration parses. */
  predicate WorkloadAccepted(known: ActionConfig -> bool, w: Workload) {
    forall a :: 0 <= a < |w.actions| ==> known(w.actions[a])
  }

  predicate PhaseAccepted(known: ActionConfig -> bool, p: Phase) {
    && (forall j :: 0 <= j < |p.workers| ==> DurationInBounds(p.workers[j]))
    && WorkloadAccepted(known, p.setup)
    && WorkloadAccepted(known, p.workload)
    && WorkloadAccepted(known, p.teardown)
  }

  predicate Accepted(known: ActionConfig -> bool, plan: Plan) {
    forall i :: 0 <= i < |plan.phases| ==> PhaseAccepted(known, plan.phases[i])
  }

  function SectionOf(p: Phase, s: Section): Workload {
    match s case Setup => p.setup case Main => p.workload case Teardown => p.teardown
  }

  /** `e` is the complaint about the first fault of phase i: workers before actions, setup before workload before
      teardown, and within each the first in order. */
  predicate FirstFault(known: ActionConfig -> bool, p: Phase, i: nat, e: VerifyError) {
    && e.phase == i
    && match e
       case BadAction(_, s, a) =>
         && (forall j :: 0 <= j < |p.workers| ==> DurationInBounds(p.workers[j]))
         && (!s.Setup? ==> WorkloadAccepted(known, p.setup))
         && (s.Teardown? ==> WorkloadAccepted(known, p.workload))
         && FirstBadAction(known, SectionOf(p, s), a)
       case _ =>
         && e.worker < |p.workers|
         && (forall j :: 0 <= j < e.worker ==> DurationInBounds(p.workers[j]))
         && var d := p.workers[e.worker].duration;
            match e
            case DurationRequired(_, _) => d == 0
            case DurationTooShort(_, _) => d != 0 && d < MIN_PHASE_DURATION
            case _ => d > MAX_PHASE_DURATION
  }

  predicate FirstBadAction(known: ActionConfig -> bool, w: Workload, a: nat) {
    && a < |w.actions| && !known(w.actions[a])
    && forall b :: 0 <= b < a ==> known(w.actions[b])
  }

  method VerifyWorkload(known: ActionConfig -> bool, w: Workload) returns (bad: Option<nat>)
    ensures bad.None? <==> WorkloadAccepted(known, w)
    ensures bad.Some? ==> FirstBadAction(known, w, bad.value)
  {
    for a := 0 to |w.actions|
      invariant forall b :: 0 <= b < a ==> known(w.actions[b])
    {
      if !known(w.actions[a]) {
        return Some(a);
      }
    }
    return None;
  }

  method VerifyPhase(known: ActionConfig -> bool, p: Phase)
    returns (bad: Option<(Section, nat)>)
    ensures bad.None? <==> forall s: Section :: WorkloadAccepted(known, SectionOf(p, s))
    ensures bad.Some? ==>
              && FirstBadAction(known, SectionOf(p, bad.value.0), bad.value.1)
              && (!bad.value.0.Setup? ==> WorkloadAccepted(known, p.setup))
              && (bad.value.0.Teardown? ==> WorkloadAccepted(known, p.workload))
  {
    var setup := VerifyWorkload(known, p.setup);
    if setup.Some? {
      assert !WorkloadAccepted(known, SectionOf(p, Setup));
      return Some((Setup, setup.value));
    }
    var main := VerifyWorkload(known, p.workload);
    if main.Some? {
      assert !WorkloadAccepted(known, SectionOf(p, Main));
      return Some((Main, main.value));
    }
    var teardown := VerifyWorkload(known, p.teardown);
    if teardown.Some? {
      assert !WorkloadAccepted(known, SectionOf(p, Teardown));
      return Some((Teardown, teardown.value));
    }
    return None;
  }

  /** Every duration is between one minute and 28 days, and every action of every section is known. */
  ghost predicate AllInOrder(known: ActionConfig -> bool, plan: Plan) {
    forall i :: 0 <= i < |plan.phases| ==>
      var p := plan.phases[i];
      && (forall j :: 0 <= j < |p.workers| ==> 60_000_000_000 <= p.workers[j].duration <= 2_419_200_000_000_000)
      && (forall a :: 0 <= a < |p.setup.actions| ==> known(p.setup.actions[a]))
      && (forall a :: 0 <= a < |p.workload.actions| ==> known(p.workload.actions[a]))
      && (forall a :: 0 <= a < |p.teardown.actions| ==> known(p.teardown.actions[a]))
  }

  lemma {:induction false} AcceptedIsInOrder(known: ActionConfig -> bool, plan: Plan)
    ensures Accepted(known, plan) <==> AllInOrder(known, plan)
  {
    if AllInOrder(known, plan) {
      forall i | 0 <= i < |plan.phases| ensures PhaseAccepted(known, plan.phases[i]) {
        assert forall j :: 0 <= j < |plan.phases[i].workers| ==> DurationInBounds(plan.phases[i].workers[j]);
      }
    }
    if Accepted(known, plan) {
      forall i | 0 <= i < |plan.phases|
        ensures var p := plan.phases[i];
                && PhaseAccepted(known, p)
                && forall j :: 0 <= j < |p.workers| ==> 60_000_000_000 <= p.workers[j].duration <= 2_419_200_000_000_000
      {
        forall j | 0 <= j < |plan.phases[i].workers|
          ensures 60_000_000_000 <= plan.phases[i].workers[j].duration <= 2_419_200_000_000_000
        {
          assert DurationInBounds(plan.phases[i].workers[j]);
        }
      }
    }
  }

  /** `e` is about the first phase that is not accepted, and about the first fault there. */
  ghost predicate FirstFaultOfPlan(known: ActionConfig -> bool, plan: Plan, e: VerifyError) {
    && e.phase < |plan.phases|
    && (forall h :: 0 <= h < e.phase ==> PhaseAccepted(known, plan.phases[h]))
    && FirstFault(known, plan.phases[e.phase], e.phase, e)
  }

  /** Accepts exactly the plans whose workers are in bounds and whose actions are known, else names the first fault. */
  method Verify(known: ActionConfig -> bool, plan: Plan) returns (error: Option<VerifyError>)
    ensures error.None? <==> Accepted(known, plan)
    ensures error.None? <==> AllInOrder(known, plan)
    ensures error.Some? ==> FirstFaultOfPlan(known, plan, error.value)
  {
    AcceptedIsInOrder(known, plan);
    for i := 0 to |plan.phases|
      invariant forall h :: 0 <= h < i ==> PhaseAccepted(known, plan.phases[h])
    {
      var phase := plan.phases[i];
      for j := 0 to |phase.workers|
        invariant forall h :: 0 <= h < j ==> DurationInBounds(phase.workers[h])
      {
        var d := phase.workers[j].duration;
        if d == 0 {
          return Some(DurationRequired(i, j));
        }
        if d < MIN_PHASE_DURATION {
          return Some(DurationTooShort(i, j));
        }
        if d > MAX_PHASE_DURATION {
          return Some(DurationTooLong(i, j));
        }
      }
      var bad := VerifyPhase(known, phase);
      if bad.Some? {
        assert !WorkloadAccepted(known, SectionOf(phase, bad.value.0));
        return Some(BadAction(i, bad.value.0, bad.value.1));
      }
      assert WorkloadAccepted(known, SectionOf(phase, Setup));
      assert WorkloadAccepted(known, SectionOf(phase, Main));
      assert WorkloadAccepted(known, SectionOf(phase, Teardown));
    }
    return None;
  }
}
