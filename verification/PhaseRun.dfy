/**
 One execution of a phase as a concurrent program in small steps: the main goroutine that starts worker groups
 and waits for them, the workers, and the reporters as members of the wait group
 (cmd/chaosmania/client.go:126-228, 250-345). A run is any interleaving of atomic steps.
 */
module PhaseRun {
  import opened Options
  import opened MachineInts
  import opened Attempts

  /** Instances per worker group, and whether requests can be built from the given host and port at all. */
  datatype Config = Config(groups: seq<nat>, urlOk: bool)

  /** Where a worker is; each value is the next atomic step. */
  datatype Pc =
    | Select                                              // ctx.Done or the delay
    | Requesting                                          // build and send the request
    | TransportFailed                                     // look at ctx.Err
    | CountFailure                                        // atomic add to Errors
    | Answered(code: int, micros: nat)                    // branch on the status
    | CountError(code: int, micros: nat)                  // atomic add to Errors
    | CountTime(code: int, micros: nat)                   // atomic add to DurationMicroseconds
    | CountRequest(code: int)                             // atomic add to Requests
    | TallyCode(code: int)                                // local map
    | Locking                                             // stats.mu.Lock
    | Merging(todo: set<int>)                             // range over the local map
    | Adding(todo: set<int>, key: int, seen: nat)         // shared entry read, sum not yet written
    | Leaving                                             // allWorkersWg.Done
    | Signalling                                          // wg.Done
    | Exited

  datatype Worker = Worker(group: nat, pc: Pc, statusCodes: map<int, nat>)

  datatype MainPc = Launch(g: nat) | Spawning(g: nat, j: nat) | Waiting(g: nat) | FinalWait | Finished

  /** The counters are uint64; `log` is the history of finished requests. */
  datatype State = State(
    main: MainPc, workers: seq<Worker>, reporters: seq<bool>, wgs: seq<int>, allWg: int,
    groupDone: seq<bool>, phaseDone: bool,
    mu: Option<nat>, requests: nat, errors: nat, micros: nat, allStatusCodes: map<int, nat>,
    log: seq<Attempt>)

  /**
   What the environment decides in a step. A reply is received in one step, before the context expires; a request
   under an expired context fails.
   */
  datatype Choice = Stop | Go | Fail | Respond(code: int, micros: nat) | BodyRead(ok: bool) | Key(k: int) | Forced

  datatype Label = PhaseExpires | GroupExpires(g: nat) | MainStep | ReporterExits(r: nat) | WorkerStep(i: nat, c: Choice)

  function Init(): State {
    State(Launch(0), [], [], [], 0, [], false, None, 0, 0, 0, map[], [])
  }

  // ----- Worker steps

  /** The result of a worker's step: its next state, additions to the counters, and the shared map and mutex. */
  datatype Effect = Effect(next: Worker, requests: nat, errors: nat, micros: nat, attempts: seq<Attempt>,
                           allStatusCodes: map<int, nat>, mu: Option<nat>)

  predicate CtxDone(s: State, w: Worker) {
    w.group < |s.groupDone| && s.groupDone[w.group]
  }

  predicate WorkerEnabled(cfg: Config, s: State, i: nat, c: Choice) {
    && i < |s.workers|
    && var w := s.workers[i];
       match w.pc
       case Select => c.Go? || (c.Stop? && CtxDone(s, w))
       case Requesting => if cfg.urlOk then c.Fail? || (c.Respond? && !CtxDone(s, w)) else c.Forced?
       case Answered(code, _) => if code == 400 then c.BodyRead? else c.Forced?
       case Locking => c.Forced? && s.mu.None?
       case Merging(todo) => if exists k :: k in todo then c.Key? && c.k in todo else c.Forced?
       case Exited => false
       case _ => c.Forced?
  }

  function WorkerEffect(cfg: Config, s: State, i: nat, c: Choice): Effect
    requires WorkerEnabled(cfg, s, i, c)
  {
    var w := s.workers[i];
    var idle := Effect(w, 0, 0, 0, [], s.allStatusCodes, s.mu);
    match w.pc
    case Select => idle.(next := w.(pc := if c.Stop? then Locking else Requesting))
    case Requesting =>
      if !cfg.urlOk then idle.(next := w.(pc := Leaving))
      else if c.Fail? then idle.(next := w.(pc := TransportFailed))
      else idle.(next := w.(pc := Answered(c.code, c.micros)))
    case TransportFailed =>
      var cancelled := CtxDone(s, w);
      idle.(next := w.(pc := if cancelled then Locking else CountFailure), attempts := [TransportError(cancelled)])
    case CountFailure => idle.(next := w.(pc := Select), errors := 1)
    case Answered(code, micros) =>
      var ok := code == 400 ==> c.ok;
      idle.(next := w.(pc := if !ok then Select
                             else if code > 400 then CountError(code, micros)
                             else CountTime(code, micros)),
            attempts := [Reply(code, micros, ok)])
    case CountError(code, micros) => idle.(next := w.(pc := CountTime(code, micros)), errors := 1)
    case CountTime(code, micros) => idle.(next := w.(pc := CountRequest(code)), micros := micros)
    case CountRequest(code) => idle.(next := w.(pc := TallyCode(code)), requests := 1)
    case TallyCode(code) =>
      idle.(next := w.(pc := Select, statusCodes := w.statusCodes[code := Get(w.statusCodes, code) + 1]))
    case Locking => idle.(next := w.(pc := Merging(w.statusCodes.Keys)), mu := Some(i))
    case Merging(todo) =>
      if c.Forced? then idle.(next := w.(pc := Leaving), mu := None)
      else idle.(next := w.(pc := Adding(todo - {c.k}, c.k, Get(s.allStatusCodes, c.k))))
    case Adding(todo, key, seen) =>
      idle.(next := w.(pc := Merging(todo)),
            allStatusCodes := s.allStatusCodes[key := seen + Get(w.statusCodes, key)])
    case Leaving => idle.(next := w.(pc := Signalling))
    case Signalling => idle.(next := w.(pc := Exited))
    case Exited => idle
  }

  // ----- All steps

  predicate Enabled(cfg: Config, s: State, l: Label) {
    match l
    case PhaseExpires => true
    case GroupExpires(g) => g < |s.groupDone|
    case MainStep =>
      (match s.main
       case Waiting(g) => g < |s.wgs| && s.wgs[g] == 0
       case FinalWait => s.allWg == 0
       case Finished => false
       case _ => true)
    case ReporterExits(r) => r < |s.reporters| && r < |s.groupDone| && s.reporters[r] && s.groupDone[r]
    case WorkerStep(i, c) => WorkerEnabled(cfg, s, i, c)
  }

  function MainEffect(cfg: Config, s: State): State
    requires Enabled(cfg, s, MainStep)
  {
    match s.main
    case Launch(g) =>
      if g >= |cfg.groups| then s.(main := FinalWait)
      else s.(main := Spawning(g, 0), wgs := s.wgs + [cfg.groups[g]], allWg := s.allWg + 1,
              reporters := s.reporters + [true], groupDone := s.groupDone + [s.phaseDone])
    case Spawning(g, j) =>
      if g < |cfg.groups| && j < cfg.groups[g]
      then s.(main := Spawning(g, j + 1), allWg := s.allWg + 1, workers := s.workers + [Worker(g, Select, map[])])
      else s.(main := Waiting(g))
    case Waiting(g) => s.(main := if s.phaseDone then FinalWait else Launch(g + 1))
    case FinalWait => s.(main := Finished)
    case Finished => s
  }

  function Step(cfg: Config, s: State, l: Label): State
    requires Enabled(cfg, s, l)
  {
    match l
    case PhaseExpires => s.(phaseDone := true)
    case GroupExpires(g) => s.(groupDone := s.groupDone[g := true])
    case MainStep => MainEffect(cfg, s)
    case ReporterExits(r) => s.(reporters := s.reporters[r := false], allWg := s.allWg - 1)
    case WorkerStep(i, c) => Apply(s, i, WorkerEffect(cfg, s, i, c))
  }

  /** A worker's effect on the shared state; leaving and signalling also decrement a wait group. */
  function Apply(s: State, i: nat, e: Effect): State
    requires i < |s.workers|
  {
    var w := s.workers[i];
    s.(workers := s.workers[i := e.next],
       requests := WrapU64(s.requests + e.requests),
       errors := WrapU64(s.errors + e.errors),
       micros := WrapU64(s.micros + e.micros),
       allStatusCodes := e.allStatusCodes, mu := e.mu, log := s.log + e.attempts,
       allWg := s.allWg - (if w.pc.Leaving? then 1 else 0),
       wgs := if w.pc.Signalling? && w.group < |s.wgs| then s.wgs[w.group := s.wgs[w.group] - 1] else s.wgs)
  }

  /** The state after a sequence of steps, if each was enabled when it was taken. */
  function Run(cfg: Config, labels: seq<Label>): Option<State> {
    if labels == [] then Some(Init()) else
      match Run(cfg, labels[..|labels| - 1])
      case None => None
      case Some(s) =>
        var l := labels[|labels| - 1];
        if Enabled(cfg, s, l) then Some(Step(cfg, s, l)) else None
  }
}
