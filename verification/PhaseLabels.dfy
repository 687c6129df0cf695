/**
 What a phase reports, in terms of the steps of the run alone: the answers its environment gave, the bodies it could
 read, and the failures that found their context alive (cmd/chaosmania/client.go:182-227, 339-355).
 */
module PhaseLabels {
  import opened MachineInts
  import opened Options
  import opened Attempts
  import opened PhaseRun
  import opened PhaseLedger
  import opened PhaseStatistics

  // ----- What the labels of a run say

  /** An answer with status k that counts: for 400, one whose body was read. */
  predicate IsAnswer(l: Label, k: int) {
    l.WorkerStep? && if k == 400 then l.c == BodyRead(true) else l.c.Respond? && l.c.code == k
  }

  function Answers(labels: seq<Label>, k: int): nat {
    if labels == [] then 0
    else Answers(labels[..|labels| - 1], k) + if IsAnswer(labels[|labels| - 1], k) then 1 else 0
  }

  predicate IsAnyAnswer(l: Label) {
    l.WorkerStep? && (l.c == BodyRead(true) || (l.c.Respond? && l.c.code != 400))
  }

  function AllAnswers(labels: seq<Label>): nat {
    if labels == [] then 0
    else AllAnswers(labels[..|labels| - 1]) + if IsAnyAnswer(labels[|labels| - 1]) then 1 else 0
  }

  /** The time that worker i's latest answer took. */
  function LatestMicros(labels: seq<Label>, i: nat): nat {
    if labels == [] then 0 else
      var l := labels[|labels| - 1];
      if l.WorkerStep? && l.i == i && l.c.Respond? then l.c.micros else LatestMicros(labels[..|labels| - 1], i)
  }

  function AnswerMicros(labels: seq<Label>): nat {
    if labels == [] then 0 else
      var front, l := labels[..|labels| - 1], labels[|labels| - 1];
      AnswerMicros(front) +
      if !IsAnyAnswer(l) then 0 else if l.c.Respond? then l.c.micros else LatestMicros(front, l.i)
  }

  function BadAnswers(labels: seq<Label>): nat {
    if labels == [] then 0 else
      var l := labels[|labels| - 1];
      BadAnswers(labels[..|labels| - 1]) + if l.WorkerStep? && l.c.Respond? && l.c.code > 400 then 1 else 0
  }

  /** What worker i did last. */
  function LatestChoice(labels: seq<Label>, i: nat): Option<Choice> {
    if labels == [] then None else
      var l := labels[|labels| - 1];
      if l.WorkerStep? && l.i == i then Some(l.c) else LatestChoice(labels[..|labels| - 1], i)
  }

  /** Worker i's next step looks at the context of a failed request and finds it alive. */
  predicate LiveFailure(cfg: Config, labels: seq<Label>, i: nat) {
    && LatestChoice(labels, i) == Some(Fail)
    && match Run(cfg, labels)
       case None => false
       case Some(s) => i < |s.workers| && s.workers[i].group < |s.groupDone| && !s.groupDone[s.workers[i].group]
  }

  function LiveFailures(cfg: Config, labels: seq<Label>): nat {
    if labels == [] then 0 else
      var front, l := labels[..|labels| - 1], labels[|labels| - 1];
      LiveFailures(cfg, front) + if l.WorkerStep? && LiveFailure(cfg, front, l.i) then 1 else 0
  }

  // ----- What workers have received and not yet reported

  function StillRequest(): Worker -> int {
    (w: Worker) =>
      match w.pc
      case Answered(code, _) => if code == 400 then 0 else 1
      case CountError(_, _) => 1
      case CountTime(_, _) => 1
      case CountRequest(_) => 1
      case _ => 0
  }

  function StillError(): Worker -> int {
    (w: Worker) =>
      match w.pc
      case Answered(code, _) => if code > 400 then 1 else 0
      case CountFailure => 1
      case CountError(_, _) => 1
      case _ => 0
  }

  function StillMicros(): Worker -> int {
    (w: Worker) =>
      match w.pc
      case Answered(code, micros) => if code == 400 then 0 else micros
      case CountError(_, micros) => micros
      case CountTime(_, micros) => micros
      case _ => 0
  }

  /** Answers with status k on their way to the local map, and what is in there and not yet in the shared one. */
  function StillCode(k: int): Worker -> int {
    (w: Worker) =>
      match w.pc
      case Answered(code, _) => (if code == k && k != 400 then 1 else 0) + Get(w.statusCodes, k)
      case CountError(code, _) => (if code == k then 1 else 0) + Get(w.statusCodes, k)
      case CountTime(code, _) => (if code == k then 1 else 0) + Get(w.statusCodes, k)
      case CountRequest(code) => (if code == k then 1 else 0) + Get(w.statusCodes, k)
      case TallyCode(code) => (if code == k then 1 else 0) + Get(w.statusCodes, k)
      case Merging(todo) => if k in todo then Get(w.statusCodes, k) else 0
      case Adding(todo, key, _) => if k in todo || k == key then Get(w.statusCodes, k) else 0
      case Leaving => 0
      case Signalling => 0
      case Exited => 0
      case _ => Get(w.statusCodes, k)
  }

  // ----- The part of it that is not in the history yet

  function FreshRequest(): Worker -> int {
    (w: Worker) => if w.pc.Answered? && w.pc.code != 400 then 1 else 0
  }

  function FreshError(): Worker -> int {
    (w: Worker) => if w.pc.Answered? && w.pc.code > 400 then 1 else 0
  }

  function FreshMicros(): Worker -> int {
    (w: Worker) => if w.pc.Answered? && w.pc.code != 400 then w.pc.micros else 0
  }

  function FreshCode(k: int): Worker -> int {
    (w: Worker) => if w.pc.Answered? && w.pc.code == k && k != 400 then 1 else 0
  }

  lemma {:induction false} SumWPlus(ws: seq<Worker>, f: Worker -> int, g: Worker -> int, h: Worker -> int)
    requires forall w :: h(w) == f(w) + g(w)
    ensures SumW(ws, h) == SumW(ws, f) + SumW(ws, g)
  {
    if ws == [] {
    } else {
      SumWPlus(ws[..|ws| - 1], f, g, h);
    }
  }

  lemma {:induction false} StillIsOwedAndFresh(ws: seq<Worker>, k: int)
    ensures SumW(ws, StillRequest()) == SumW(ws, OwedRequest()) + SumW(ws, FreshRequest())
    ensures SumW(ws, StillError()) == SumW(ws, OwedError()) + SumW(ws, FreshError())
    ensures SumW(ws, StillMicros()) == SumW(ws, OwedMicros()) + SumW(ws, FreshMicros())
    ensures SumW(ws, StillCode(k)) == SumW(ws, OwedCode(k)) + SumW(ws, FreshCode(k))
  {
    hide SumW;
    SumWPlus(ws, OwedRequest(), FreshRequest(), StillRequest());
    SumWPlus(ws, OwedError(), FreshError(), StillError());
    SumWPlus(ws, OwedMicros(), FreshMicros(), StillMicros());
    SumWPlus(ws, OwedCode(k), FreshCode(k), StillCode(k));
  }

  // ----- The history agrees with the labels

  /** A worker that failed or was answered has that as its latest choice. */
  ghost predicate Remembers(labels: seq<Label>, w: Worker, i: nat) {
    && (w.pc.TransportFailed? <==> LatestChoice(labels, i) == Some(Fail))
    && (w.pc.Answered? ==> LatestMicros(labels, i) == w.pc.micros)
  }

  ghost predicate Remembered(labels: seq<Label>, s: State) {
    && (forall i: nat :: i < |s.workers| ==> Remembers(labels, s.workers[i], i))
    && (forall i: nat :: i >= |s.workers| ==> LatestChoice(labels, i) == None)
  }

  ghost predicate Recounted(cfg: Config, labels: seq<Label>, s: State) {
    && Replies(s.log) + SumW(s.workers, FreshRequest()) == AllAnswers(labels)
    && Failures(s.log) + SumW(s.workers, FreshError()) == BadAnswers(labels) + LiveFailures(cfg, labels)
    && Micros(s.log) + SumW(s.workers, FreshMicros()) == AnswerMicros(labels)
  }

  ghost predicate RecountedCode(labels: seq<Label>, s: State, k: int) {
    WithCode(s.log, k) + SumW(s.workers, FreshCode(k)) == Answers(labels, k)
  }

  /** What one worker step adds to the history and to the fresh answers is what its label says. */
  lemma {:induction false} StepIsAnswered(cfg: Config, s: State, i: nat, c: Choice)
    requires WorkerEnabled(cfg, s, i, c)
    ensures var w, e := s.workers[i], WorkerEffect(cfg, s, i, c);
            && |e.attempts| <= 1
            && Replies(e.attempts) + FreshRequest()(e.next)
               == FreshRequest()(w) + (if IsAnyAnswer(WorkerStep(i, c)) then 1 else 0)
            && Failures(e.attempts) + FreshError()(e.next)
               == FreshError()(w) + (if c.Respond? && c.code > 400 then 1 else 0)
                                  + (if w.pc.TransportFailed? && !CtxDone(s, w) then 1 else 0)
            && Micros(e.attempts) + FreshMicros()(e.next)
               == FreshMicros()(w) + (if !IsAnyAnswer(WorkerStep(i, c)) then 0
                                      else if c.Respond? then c.micros
                                      else if w.pc.Answered? then w.pc.micros else 0)
  {
    hide Replies, Failures, Micros;
    var e := WorkerEffect(cfg, s, i, c);
    if e.attempts == [] {
      NoAttempts();
    } else {
      assert e.attempts == [e.attempts[0]];
      RepliesOne(e.attempts[0]);
      MicrosOne(e.attempts[0]);
    }
  }

  lemma {:induction false} StepIsAnsweredCode(cfg: Config, s: State, i: nat, c: Choice, k: int)
    requires WorkerEnabled(cfg, s, i, c)
    ensures var w, e := s.workers[i], WorkerEffect(cfg, s, i, c);
            && |e.attempts| <= 1
            && WithCode(e.attempts, k) + FreshCode(k)(e.next)
               == FreshCode(k)(w) + (if IsAnswer(WorkerStep(i, c), k) then 1 else 0)
  {
    var e := WorkerEffect(cfg, s, i, c);
    if e.attempts == [] {
    } else {
      assert e.attempts == [e.attempts[0]];
      TallyOne(e.attempts[0], HasCode(k));
    }
  }

  /** What one more label adds. */
  lemma {:induction false} OneLabelMore(cfg: Config, labels: seq<Label>, l: Label, k: int)
    ensures AllAnswers(labels + [l]) == AllAnswers(labels) + if IsAnyAnswer(l) then 1 else 0
    ensures BadAnswers(labels + [l]) == BadAnswers(labels) + if l.WorkerStep? && l.c.Respond? && l.c.code > 400 then 1 else 0
    ensures LiveFailures(cfg, labels + [l])
         == LiveFailures(cfg, labels) + if l.WorkerStep? && LiveFailure(cfg, labels, l.i) then 1 else 0
    ensures Answers(labels + [l], k) == Answers(labels, k) + if IsAnswer(l, k) then 1 else 0
    ensures AnswerMicros(labels + [l])
         == AnswerMicros(labels) +
            if !IsAnyAnswer(l) then 0 else if l.c.Respond? then l.c.micros else LatestMicros(labels, l.i)
  {
    assert (labels + [l])[..|labels|] == labels;
  }

  lemma {:induction false} LatestOfMore(labels: seq<Label>, l: Label, i: nat)
    ensures LatestChoice(labels + [l], i) == if l.WorkerStep? && l.i == i then Some(l.c) else LatestChoice(labels, i)
    ensures LatestMicros(labels + [l], i)
         == if l.WorkerStep? && l.i == i && l.c.Respond? then l.c.micros else LatestMicros(labels, i)
  {
    assert (labels + [l])[..|labels|] == labels;
  }

  lemma {:induction false} WorkerRemembers(cfg: Config, labels: seq<Label>, s: State, i: nat, c: Choice, j: nat)
    requires WorkerEnabled(cfg, s, i, c) && j < |s.workers| && Remembers(labels, s.workers[j], j)
    ensures Remembers(labels + [WorkerStep(i, c)], Apply(s, i, WorkerEffect(cfg, s, i, c)).workers[j], j)
  {
    LatestOfMore(labels, WorkerStep(i, c), j);
  }

  lemma {:induction false} StepRemembers(cfg: Config, labels: seq<Label>, s: State, l: Label)
    requires Enabled(cfg, s, l) && Remembered(labels, s)
    ensures Remembered(labels + [l], Step(cfg, s, l))
  {
    hide LatestChoice, LatestMicros, WorkerEffect;
    var s' := Step(cfg, s, l);
    if l.WorkerStep? {
      forall j: nat | j < |s'.workers| ensures Remembers(labels + [l], s'.workers[j], j) {
        WorkerRemembers(cfg, labels, s, l.i, l.c, j);
      }
    } else {
      ControlSteps(cfg, s, l);
      forall j: nat | j < |s'.workers| ensures Remembers(labels + [l], s'.workers[j], j) {
        LatestOfMore(labels, l, j);
        assert j < |s.workers| ==> Remembers(labels, s.workers[j], j);
      }
    }
    forall j: nat | j >= |s'.workers| ensures LatestChoice(labels + [l], j) == None {
      LatestOfMore(labels, l, j);
    }
  }

  lemma {:induction false} WorkerRecounts(cfg: Config, labels: seq<Label>, s: State, i: nat, c: Choice)
    requires Run(cfg, labels) == Some(s) && WorkerEnabled(cfg, s, i, c)
    requires Remembered(labels, s) && Recounted(cfg, labels, s) && s.workers[i].group < |s.groupDone|
    ensures Recounted(cfg, labels + [WorkerStep(i, c)], Apply(s, i, WorkerEffect(cfg, s, i, c)))
  {
    hide WorkerEffect, Replies, Failures, Micros, SumW, AllAnswers, BadAnswers, LiveFailures, AnswerMicros, Run, WrapU64;
    var w, e := s.workers[i], WorkerEffect(cfg, s, i, c);
    assert Remembers(labels, w, i);
    StepIsAnswered(cfg, s, i, c);
    OneLabelMore(cfg, labels, WorkerStep(i, c), 0);
    RepliesGrow(s.log, e.attempts);
    MicrosGrow(s.log, e.attempts);
    SumWUpdate(s.workers, i, e.next, FreshRequest());
    SumWUpdate(s.workers, i, e.next, FreshError());
    SumWUpdate(s.workers, i, e.next, FreshMicros());
    assert LiveFailure(cfg, labels, i) <==> w.pc.TransportFailed? && !CtxDone(s, w);
    assert c == BodyRead(true) ==> w.pc.Answered?;
  }

  lemma {:induction false} WorkerRecountsCode(cfg: Config, labels: seq<Label>, s: State, i: nat, c: Choice, k: int)
    requires WorkerEnabled(cfg, s, i, c) && RecountedCode(labels, s, k)
    ensures RecountedCode(labels + [WorkerStep(i, c)], Apply(s, i, WorkerEffect(cfg, s, i, c)), k)
  {
    hide WorkerEffect, Tally, SumW, Answers, WrapU64;
    var e := WorkerEffect(cfg, s, i, c);
    StepIsAnsweredCode(cfg, s, i, c, k);
    OneLabelMore(cfg, labels, WorkerStep(i, c), k);
    TallyGrows(s.log, e.attempts, HasCode(k));
    SumWUpdate(s.workers, i, e.next, FreshCode(k));
  }

  /** The other steps give no answers and start workers without any. */
  lemma {:induction false} ControlRecounts(cfg: Config, labels: seq<Label>, s: State, l: Label, k: int)
    requires Enabled(cfg, s, l) && !l.WorkerStep?
    ensures Recounted(cfg, labels, s) ==> Recounted(cfg, labels + [l], Step(cfg, s, l))
    ensures RecountedCode(labels, s, k) ==> RecountedCode(labels + [l], Step(cfg, s, l), k)
  {
    hide Replies, Failures, Micros, Tally, SumW, AllAnswers, BadAnswers, LiveFailures, AnswerMicros, Answers;
    ControlSteps(cfg, s, l);
    OneLabelMore(cfg, labels, l, k);
    if Step(cfg, s, l).workers != s.workers {
      var w := Worker(s.main.g, Select, map[]);
      SumWAppend(s.workers, w, FreshRequest());
      SumWAppend(s.workers, w, FreshError());
      SumWAppend(s.workers, w, FreshMicros());
      SumWAppend(s.workers, w, FreshCode(k));
    }
  }

  lemma {:induction false} NothingCounted(cfg: Config, k: int)
    ensures Remembered([], Init()) && Recounted(cfg, [], Init()) && RecountedCode([], Init(), k)
  {
  }

  /** In every reachable state the history is what the labels say, up to the answers just received. */
  lemma {:induction false} HistoryIsRecounted(cfg: Config, labels: seq<Label>, k: int)
    requires Run(cfg, labels).Some?
    ensures var s := Run(cfg, labels).value;
            Remembered(labels, s) && Recounted(cfg, labels, s) && RecountedCode(labels, s, k)
  {
    hide Remembered, Recounted, RecountedCode, Step;
    if labels == [] {
      NothingCounted(cfg, k);
    } else {
      var front, l := labels[..|labels| - 1], labels[|labels| - 1];
      HistoryIsRecounted(cfg, front, k);
      StepRecounts(cfg, front, Run(cfg, front).value, l, k);
      assert labels == front + [l];
    }
  }

  lemma {:induction false} StepRecounts(cfg: Config, labels: seq<Label>, s: State, l: Label, k: int)
    requires Run(cfg, labels) == Some(s) && Enabled(cfg, s, l)
    requires Remembered(labels, s) && Recounted(cfg, labels, s) && RecountedCode(labels, s, k)
    ensures Remembered(labels + [l], Step(cfg, s, l)) && Recounted(cfg, labels + [l], Step(cfg, s, l))
    ensures RecountedCode(labels + [l], Step(cfg, s, l), k)
  {
    hide Remembered, Recounted, RecountedCode, Run, WorkerEffect, Apply;
    StepRemembers(cfg, labels, s, l);
    if l.WorkerStep? {
      WorkerHasGroup(cfg, labels, l.i);
      WorkerRecounts(cfg, labels, s, l.i, l.c);
      WorkerRecountsCode(cfg, labels, s, l.i, l.c, k);
    } else {
      ControlRecounts(cfg, labels, s, l, k);
    }
  }

  lemma {:induction false} WorkerHasGroup(cfg: Config, labels: seq<Label>, i: nat)
    requires Run(cfg, labels).Some? && i < |Run(cfg, labels).value.workers|
    ensures var s := Run(cfg, labels).value; s.workers[i].group < |s.groupDone|
  {
    Reachable(cfg, labels);
  }

  // ----- What is reported

  /**
   Conservation over the labels, in every reachable state: the counters are the answers and failures of the run so
   far, less what the workers have received and not yet counted, and so are the status codes.
   */
  lemma {:induction false} RunIsAccountedFor(cfg: Config, labels: seq<Label>, k: int)
    requires Run(cfg, labels).Some?
    ensures var s := Run(cfg, labels).value;
            && s.requests == WrapU64(AllAnswers(labels) - SumW(s.workers, StillRequest()))
            && s.errors == WrapU64(BadAnswers(labels) + LiveFailures(cfg, labels) - SumW(s.workers, StillError()))
            && s.micros == WrapU64(AnswerMicros(labels) - SumW(s.workers, StillMicros()))
            && Get(s.allStatusCodes, k) == Answers(labels, k) - SumW(s.workers, StillCode(k))
  {
    hide Run, WrapU64, SumW, Replies, Failures, Micros, Tally, AllAnswers, BadAnswers, LiveFailures, AnswerMicros, Answers;
    var s := Run(cfg, labels).value;
    Reachable(cfg, labels);
    HistoryIsRecounted(cfg, labels, k);
    StillIsOwedAndFresh(s.workers, k);
    assert CodeBalances(s, k);
  }

  /** And in a finished phase they are exactly the answers and failures of the whole run. */
  lemma {:induction false} FinishedRunIsAccountedFor(cfg: Config, labels: seq<Label>, k: int)
    requires Run(cfg, labels).Some? && Run(cfg, labels).value.main.Finished?
    ensures var s := Run(cfg, labels).value;
            && s.requests == WrapU64(AllAnswers(labels))
            && s.errors == WrapU64(BadAnswers(labels) + LiveFailures(cfg, labels))
            && s.micros == WrapU64(AnswerMicros(labels))
            && Get(s.allStatusCodes, k) == Answers(labels, k)
  {
    hide Run, WrapU64, AllAnswers, BadAnswers, LiveFailures, AnswerMicros, Answers, SumW;
    var s := Run(cfg, labels).value;
    RunIsAccountedFor(cfg, labels, k);
    AllReturned(cfg, labels);
    NothingStill(s.workers, k);
  }

  lemma {:induction false} AllReturned(cfg: Config, labels: seq<Label>)
    requires Run(cfg, labels).Some? && Run(cfg, labels).value.main.Finished?
    ensures var ws := Run(cfg, labels).value.workers;
            forall i :: 0 <= i < |ws| ==> ws[i].pc.Signalling? || ws[i].pc.Exited?
  {
    hide Run, WrapU64, SumW;
    Reachable(cfg, labels);
    CountsAreNatural(Run(cfg, labels).value.workers, 0);
  }

  lemma {:induction false} NothingStill(ws: seq<Worker>, k: int)
    requires forall i :: 0 <= i < |ws| ==> ws[i].pc.Signalling? || ws[i].pc.Exited?
    ensures SumW(ws, StillRequest()) == SumW(ws, StillError()) == SumW(ws, StillMicros()) == SumW(ws, StillCode(k)) == 0
  {
    hide SumW;
    SumWZero(ws, StillRequest());
    SumWZero(ws, StillError());
    SumWZero(ws, StillMicros());
    SumWZero(ws, StillCode(k));
  }
}
