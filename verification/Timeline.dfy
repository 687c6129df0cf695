/**
 The worker groups of one phase on an ideal clock that starts at the phase's start: contexts expire exactly at
 their deadlines and workers and reporters return at that instant (cmd/chaosmania/client.go:250-339, 372).
 */
module Timeline {
  import opened Sequences
  import opened Plans
  import opened Budget

  /** From the creation of a group's context to its expiry. */
  datatype Span = Span(start: int, end: int)

  /** Total duration of the first j groups that have workers; a group without workers is not waited for. */
  function Busy(groups: seq<Workers>, j: nat): int
    requires j <= |groups|
  {
    if j == 0 then 0 else
      Busy(groups, j - 1) + if groups[j - 1].instances > 0 then groups[j - 1].duration else 0
  }

  /** Group j's context: opened when the groups before it are done, closed by its own or the phase's deadline. */
  function SpanOf(phase: int, groups: seq<Workers>, j: nat): Span
    requires j < |groups|
  {
    Span(Busy(groups, j), Min(phase, Busy(groups, j) + groups[j].duration))
  }

  /** Group j starts exactly if the groups before it leave time. */
  ghost predicate RunsAs(phase: int, groups: seq<Workers>, spans: seq<Span>, end: int, deadlineExceeded: bool) {
    && |spans| <= |groups|
    && (forall j: nat :: j < |spans| ==> spans[j] == SpanOf(phase, groups, j) && spans[j].start < phase)
    && (forall j: nat :: |spans| <= j < |groups| ==> Busy(groups, j) >= phase)
    && (forall j: nat :: j < |spans| ==> spans[j].end <= end)
    && (if groups == [] then end == 0 else exists j: nat :: j < |spans| && spans[j].end == end)
    && (deadlineExceeded <==> end >= phase)
  }

  /** The loop over worker groups of a phase with timeout `phase`, and the final wait for all goroutines. */
  method ExecuteGroups(phase: int, groups: seq<Workers>)
    returns (spans: seq<Span>, end: int, deadlineExceeded: bool)
    requires phase > 0 && Lasting(groups)
    ensures RunsAs(phase, groups, spans, end, deadlineExceeded)
  {
    var now := 0;
    spans, end := [], 0;
    for i := 0 to |groups|
      invariant now == Busy(groups, i) < phase && |spans| == i
      invariant forall j: nat :: j < i ==> spans[j] == SpanOf(phase, groups, j) && spans[j].start < phase
      invariant forall j: nat :: j < i ==> spans[j].end <= end
      invariant if i == 0 then end == 0 else exists j: nat :: j < i && spans[j].end == end
      invariant now <= end
    {
      var deadline := Min(phase, now + groups[i].duration);
      ghost var latest: nat := if i > 0 && deadline < end then var j: nat :| j < i && spans[j].end == end; j else i;
      spans := spans + [Span(now, deadline)];
      end := Max(end, deadline);
      assert spans[latest].end == end;
      if groups[i].instances > 0 {
        now := deadline;
      }
      if now >= phase {
        LaterGroupsAreLater(groups, i + 1);
        return spans, end, true;
      }
    }
    deadlineExceeded := end >= phase;
  }

  lemma {:induction false} BusyMonotone(groups: seq<Workers>, i: nat, j: nat)
    requires i <= j <= |groups| && Lasting(groups)
    ensures Busy(groups, i) <= Busy(groups, j)
  {
    if i == j {
    } else {
      BusyMonotone(groups, i, j - 1);
    }
  }

  lemma {:induction false} LaterGroupsAreLater(groups: seq<Workers>, i: nat)
    requires i <= |groups| && Lasting(groups)
    ensures forall j: nat :: i <= j <= |groups| ==> Busy(groups, i) <= Busy(groups, j)
  {
    forall j: nat | i <= j <= |groups| ensures Busy(groups, i) <= Busy(groups, j) {
      BusyMonotone(groups, i, j);
    }
  }

  ghost predicate Lasting(groups: seq<Workers>) {
    forall j :: 0 <= j < |groups| ==> groups[j].duration > 0
  }

  /** Every group has workers. A group without instances passes verification and is started, but not waited for. */
  ghost predicate Staffed(groups: seq<Workers>) {
    Lasting(groups) && forall j :: 0 <= j < |groups| ==> groups[j].instances > 0
  }

  /** Groups with workers never overlap. */
  lemma {:induction false} GroupsNeverOverlap(phase: int, groups: seq<Workers>, spans: seq<Span>, end: int, late: bool,
                                              i: nat, j: nat)
    requires RunsAs(phase, groups, spans, end, late)
    requires Lasting(groups)
    requires i < j < |spans| && groups[i].instances > 0
    ensures spans[i].end <= spans[j].start
  {
    assert spans[i] == SpanOf(phase, groups, i) && spans[j] == SpanOf(phase, groups, j);
    BusyMonotone(groups, i + 1, j);
  }

  /**
   The same group by group, which determines all spans: the first starts with the phase, each next one where the one
   before ends or, if that has no instances, starts, and there is no next one only after a group with instances that
   lasted to the timeout.
   */
  lemma {:induction false} GroupsFollowEachOther(phase: int, groups: seq<Workers>, spans: seq<Span>, end: int, late: bool)
    requires phase > 0 && Lasting(groups) && RunsAs(phase, groups, spans, end, late)
    ensures groups != [] ==> spans != [] && spans[0].start == 0
    ensures forall j: nat :: j < |spans| ==> spans[j].end == Min(phase, spans[j].start + groups[j].duration)
    ensures forall j: nat :: j + 1 < |spans| ==>
              spans[j + 1].start == if groups[j].instances > 0 then spans[j].end else spans[j].start
    ensures 0 < |spans| < |groups| ==> groups[|spans| - 1].instances > 0 && spans[|spans| - 1].end == phase
  {
    assert Busy(groups, 0) == 0;
    forall j: nat | j + 1 < |spans|
      ensures spans[j + 1].start == if groups[j].instances > 0 then spans[j].end else spans[j].start
    {
      assert spans[j + 1] == SpanOf(phase, groups, j + 1) && spans[j] == SpanOf(phase, groups, j);
    }
    if 0 < |spans| < |groups| {
      assert spans[|spans| - 1] == SpanOf(phase, groups, |spans| - 1);
      assert Busy(groups, |spans|) >= phase;
    }
  }

  /** A group without instances makes no difference to the others. */
  lemma {:induction false} IdleGroupsDoNotMatter(phase: int, groups: seq<Workers>, k: nat, j: nat)
    requires k < |groups| && j < |groups| && j != k && groups[k].instances == 0
    ensures var fewer := groups[..k] + groups[k + 1..];
            SpanOf(phase, groups, j) == SpanOf(phase, fewer, if j < k then j else j - 1)
  {
    BusyWithout(groups, k, j);
  }

  lemma {:induction false} BusyWithout(groups: seq<Workers>, k: nat, j: nat)
    requires k < |groups| && j <= |groups| && groups[k].instances == 0
    ensures Busy(groups[..k] + groups[k + 1..], if j <= k then j else j - 1) == Busy(groups, j)
  {
    if j == 0 {
    } else {
      BusyWithout(groups, k, j - 1);
    }
  }

  /** When the last of the first n groups would end without a timeout. */
  function Horizon(groups: seq<Workers>, n: nat): int
    requires n <= |groups|
  {
    if n == 0 then 0 else Max(Horizon(groups, n - 1), Busy(groups, n - 1) + groups[n - 1].duration)
  }

  lemma {:induction false} HorizonCovers(groups: seq<Workers>, n: nat, j: nat)
    requires j < n <= |groups|
    ensures Busy(groups, j) + groups[j].duration <= Horizon(groups, n)
  {
    if j == n - 1 {
    } else {
      HorizonCovers(groups, n - 1, j);
    }
  }

  lemma {:induction false} HorizonIsReached(groups: seq<Workers>, n: nat) returns (j: nat)
    requires 0 < n <= |groups| && Lasting(groups)
    ensures j < n && Busy(groups, j) + groups[j].duration == Horizon(groups, n)
  {
    if n == 1 {
      j := 0;
    } else if Horizon(groups, n) == Horizon(groups, n - 1) {
      j := HorizonIsReached(groups, n - 1);
    } else {
      j := n - 1;
    }
  }

  lemma {:induction false} HorizonIsLatest(groups: seq<Workers>, n: nat)
    requires n <= |groups| && Lasting(groups)
    ensures forall j: nat :: j < n ==> Busy(groups, j) + groups[j].duration <= Horizon(groups, n)
    ensures n > 0 ==> exists j: nat :: j < n && Busy(groups, j) + groups[j].duration == Horizon(groups, n)
  {
    forall j: nat | j < n ensures Busy(groups, j) + groups[j].duration <= Horizon(groups, n) {
      HorizonCovers(groups, n, j);
    }
    if n > 0 {
      var j := HorizonIsReached(groups, n);
    }
  }

  /** If the first n groups take the whole phase, one of them is cut off by its end. */
  lemma {:induction false} SomeGroupLastsTo(groups: seq<Workers>, n: nat, phase: int) returns (j: nat)
    requires n <= |groups| && 0 < phase <= Busy(groups, n)
    ensures j < n && Busy(groups, j) < phase <= Busy(groups, j) + groups[j].duration
  {
    if Busy(groups, n - 1) < phase {
      j := n - 1;
    } else {
      j := SomeGroupLastsTo(groups, n - 1, phase);
    }
  }

  /** A phase takes its timeout, or as long as its latest group if that is less. */
  lemma {:induction false} PhaseTakes(phase: int, groups: seq<Workers>, spans: seq<Span>, end: int, late: bool)
    requires phase > 0 && Lasting(groups) && RunsAs(phase, groups, spans, end, late)
    ensures end == Min(phase, Horizon(groups, |groups|))
  {
    var n := |groups|;
    HorizonIsLatest(groups, n);
    if |spans| < n {
      NotAllStart(phase, groups, spans, end, late);
    } else if n > 0 {
      var i: nat :| i < n && Busy(groups, i) + groups[i].duration == Horizon(groups, n);
      assert spans[i] == SpanOf(phase, groups, i);
      var j: nat :| j < |spans| && spans[j].end == end;
      assert spans[j] == SpanOf(phase, groups, j);
    }
  }

  lemma {:induction false} NotAllStart(phase: int, groups: seq<Workers>, spans: seq<Span>, end: int, late: bool)
    requires phase > 0 && Lasting(groups) && RunsAs(phase, groups, spans, end, late) && |spans| < |groups|
    ensures end == phase <= Horizon(groups, |groups|)
  {
    assert Busy(groups, |spans|) >= phase;
    HorizonIsLatest(groups, |groups|);
    var i := SomeGroupLastsTo(groups, |spans|, phase);
    assert spans[i] == SpanOf(phase, groups, i);
    var j: nat :| j < |spans| && spans[j].end == end;
    assert spans[j] == SpanOf(phase, groups, j);
  }

  /** Every group starts and runs for its whole duration. */
  ghost predicate AllInFull(groups: seq<Workers>, spans: seq<Span>) {
    |spans| == |groups| && forall j :: 0 <= j < |groups| ==> spans[j].end - spans[j].start == groups[j].duration
  }

  /** All groups get their time exactly if the latest of them ends within the timeout. */
  lemma {:induction false} AllInFullExactlyIfTheyFit(phase: int, groups: seq<Workers>, spans: seq<Span>, end: int,
                                                     late: bool)
    requires phase > 0 && Lasting(groups) && RunsAs(phase, groups, spans, end, late)
    ensures AllInFull(groups, spans) <==> Horizon(groups, |groups|) <= phase
    ensures AllInFull(groups, spans) <==> forall j: nat :: j < |groups| ==> Busy(groups, j) + groups[j].duration <= phase
  {
    var n := |groups|;
    HorizonIsLatest(groups, n);
    if AllInFull(groups, spans) {
      forall j: nat | j < n ensures Busy(groups, j) + groups[j].duration <= phase {
        assert spans[j] == SpanOf(phase, groups, j);
      }
    }
    if forall j: nat :: j < n ==> Busy(groups, j) + groups[j].duration <= phase {
      forall j: nat | j < n ensures spans[j].end - spans[j].start == groups[j].duration {
        assert spans[j] == SpanOf(phase, groups, j);
      }
    }
  }

  // ----- With workers in every group

  lemma {:induction false} StaffedHorizon(groups: seq<Workers>, n: nat)
    requires Staffed(groups) && n <= |groups|
    ensures Horizon(groups, n) == Busy(groups, n)
  {
    if n == 0 {
    } else {
      StaffedHorizon(groups, n - 1);
    }
  }

  /** A staffed phase takes its timeout or the sum of its groups' durations, and all get their time if that fits. */
  lemma {:induction false} StaffedPhase(phase: int, groups: seq<Workers>, spans: seq<Span>, end: int, late: bool)
    requires phase > 0 && Staffed(groups) && RunsAs(phase, groups, spans, end, late)
    ensures end == Min(phase, Busy(groups, |groups|))
    ensures AllInFull(groups, spans) <==> Busy(groups, |groups|) <= phase
  {
    StaffedHorizon(groups, |groups|);
    PhaseTakes(phase, groups, spans, end, late);
    AllInFullExactlyIfTheyFit(phase, groups, spans, end, late);
  }

  lemma {:induction false} BusyAtLeast(groups: seq<Workers>, j: nat, n: nat)
    requires Staffed(groups) && WorkersInBounds(groups) && j < n <= |groups|
    ensures Busy(groups, n) >= groups[j].duration + MIN_PHASE_DURATION * (n - 1)
  {
    if n - 1 > j {
      BusyAtLeast(groups, j, n - 1);
    } else {
      BusyFloor(groups, n - 1);
    }
  }

  lemma {:induction false} BusyFloor(groups: seq<Workers>, n: nat)
    requires Staffed(groups) && WorkersInBounds(groups) && n <= |groups|
    ensures Busy(groups, n) >= MIN_PHASE_DURATION * n
  {
    if n == 0 {
    } else {
      BusyFloor(groups, n - 1);
    }
  }

  lemma {:induction false} FitsOnlyAlone(phase: int, groups: seq<Workers>)
    requires Staffed(groups) && WorkersInBounds(groups) && phase > 0
    requires groups != [] ==> exists j :: 0 <= j < |groups| && groups[j].duration == phase
    ensures Busy(groups, |groups|) <= phase <==> |groups| <= 1
  {
    if |groups| >= 2 {
      var j :| 0 <= j < |groups| && groups[j].duration == phase;
      BusyAtLeast(groups, j, |groups|);
    } else if |groups| == 1 {
      assert Busy(groups, 1) == groups[0].duration;
    }
  }

  /**
   Without a runtime override the timeout of a verified phase is its longest group, but groups run one after the
   other: all run in full exactly if each fits into that time after the groups with workers before it. If all groups
   have workers, that is the case exactly if there is at most one.
   */
  lemma {:induction false} WithoutOverrideOnlyOneGroupFits(groups: seq<Workers>, spans: seq<Span>, end: int, late: bool)
    requires WorkersInBounds(groups)
    requires RunsAs(PhaseDuration(0, 0, groups), groups, spans, end, late)
    ensures AllInFull(groups, spans) <==>
            forall j: nat :: j < |groups| ==> Busy(groups, j) + groups[j].duration <= PhaseDuration(0, 0, groups)
    ensures Staffed(groups) ==> (AllInFull(groups, spans) <==> |groups| <= 1)
  {
    var phase := PhaseDuration(0, 0, groups);
    VerifiedPhaseDuration(groups, 0);
    AllInFullExactlyIfTheyFit(phase, groups, spans, end, late);
    if Staffed(groups) {
      StaffedPhase(phase, groups, spans, end, late);
      FitsOnlyAlone(phase, groups);
    }
  }

  /** Groups without instances make a difference: here a longest group that nobody waits for leaves time for two. */
  lemma {:induction false} IdleGroupLeavesTime(spans: seq<Span>, end: int, late: bool)
    requires RunsAs(PhaseDuration(0, 0, IdleFirst()), IdleFirst(), spans, end, late)
    ensures WorkersInBounds(IdleFirst()) && |IdleFirst()| == 3 && AllInFull(IdleFirst(), spans)
  {
    var groups, m := IdleFirst(), MIN_PHASE_DURATION;
    VerifiedPhaseDuration(groups, 0);
    var phase := PhaseDuration(0, 0, groups);
    assert groups[0].duration == 2 * m && phase == 2 * m;
    assert Busy(groups, 0) == 0 && Busy(groups, 1) == 0 && Busy(groups, 2) == m;
    AllInFullExactlyIfTheyFit(phase, groups, spans, end, late);
  }

  function IdleFirst(): seq<Workers> {
    [Workers(0, 2 * MIN_PHASE_DURATION), Workers(1, MIN_PHASE_DURATION), Workers(1, MIN_PHASE_DURATION)]
  }

  /** If the longest group comes first and has workers, no later group ever starts. */
  lemma {:induction false} LongestFirstStarvesTheRest(groups: seq<Workers>, spans: seq<Span>, end: int, late: bool)
    requires WorkersInBounds(groups) && groups != [] && groups[0].instances > 0
    requires forall j :: 0 <= j < |groups| ==> groups[j].duration <= groups[0].duration
    requires RunsAs(PhaseDuration(0, 0, groups), groups, spans, end, late)
    ensures |spans| == 1 && end == groups[0].duration && late
  {
    var phase := PhaseDuration(0, 0, groups);
    VerifiedPhaseDuration(groups, 0);
    assert Busy(groups, 1) == groups[0].duration == phase;
    LaterGroupsAreLater(groups, 1);
    assert |spans| > 1 ==> spans[1] == SpanOf(phase, groups, 1);
    assert |spans| > 0 ==> spans[0] == SpanOf(phase, groups, 0);
  }
}
