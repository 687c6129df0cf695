/**
 Mutual exclusion, freedom from deadlock and termination of the named locks, over every interleaving of clients
 that bracket their sections.
 */
module LockSafety {
  import opened Options
  import opened Locks

  /** From `held`, the script locks only ids it does not hold, unlocks only ids it holds, and ends holding none. */
  predicate Bracketed(todo: seq<Op>, held: set<string>) {
    if todo == [] then held == {} else
      match todo[0]
      case Work => Bracketed(todo[1..], held)
      case Lock(id) => id !in held && Bracketed(todo[1..], held + {id})
      case Unlock(id) => id in held && Bracketed(todo[1..], held - {id})
  }

  /** Every lock is taken in ascending rank. A script that holds at most one id at a time is ordered by any rank. */
  predicate Ordered(todo: seq<Op>, held: set<string>, rank: string -> nat) {
    if todo == [] then true else
      match todo[0]
      case Work => Ordered(todo[1..], held, rank)
      case Lock(id) => (forall h :: h in held ==> rank(h) < rank(id)) && Ordered(todo[1..], held + {id}, rank)
      case Unlock(id) => Ordered(todo[1..], held - {id}, rank)
  }

  /** What remains of the script once the unlock in progress has taken effect. */
  function Rest(client: Client): seq<Op> {
    if client.pc.Released? && client.todo != [] then client.todo[1..] else client.todo
  }

  ghost predicate Holds(s: System, c: nat, id: string) {
    c < |s.clients| && id in s.clients[c].held
  }

  ghost predicate LockedIffHeld(s: System, id: string) {
    id in s.locks && s.locks[id] < |s.mutexes| && (s.mutexes[s.locks[id]] <==> exists c: nat :: Holds(s, c, id))
  }

  /** Ids are held by one client each, and exactly the mutexes of the ids held are locked. */
  ghost predicate Guarded(s: System) {
    && Registry(s) && !s.crashed
    && (forall c: nat, id: string :: Holds(s, c, id) ==> id in s.locks)
    && (forall c: nat, d: nat, id: string :: Holds(s, c, id) && Holds(s, d, id) ==> c == d)
    && (forall id: string :: id in s.locks ==> LockedIffHeld(s, id))
  }

  /** Client c is about to unlock a registered id that it does not hold. */
  predicate ForeignUnlock(s: System, c: nat) {
    && c < |s.clients| && s.clients[c].pc.Releasing?
    && IdOf(s.clients[c]) in s.locks && IdOf(s.clients[c]) !in s.clients[c].held
  }

  // ----- Exclusion lasts exactly as long as nobody unlocks what another client holds

  lemma {:induction false} AcquireKeepsGuarded(s: System, c: nat)
    requires Guarded(s) && Enabled(s, c) && s.clients[c].pc.Waiting?
    ensures Guarded(Step(s, c))
  {
    var s', id := Step(s, c), IdOf(s.clients[c]);
    StepKeepsRegistry(s, c);
    assert ClientShape(s, s.clients[c]) && LockedIffHeld(s, id);
    assert Holds(s', c, id);
    forall d: nat, h: string | Holds(s', d, h)
      ensures h in s'.locks && (if h == id then d == c else Holds(s, d, h))
    {
      assert h != id || d != c ==> Holds(s, d, h);
    }
    forall h: string | h in s'.locks ensures LockedIffHeld(s', h) {
      assert LockedIffHeld(s, h);
      if h != id {
        assert forall d: nat :: Holds(s', d, h) <==> Holds(s, d, h);
      }
    }
    forall d: nat, e: nat, h: string | Holds(s', d, h) && Holds(s', e, h) ensures d == e {
      assert h == id || (Holds(s, d, h) && Holds(s, e, h));
    }
  }

  lemma {:induction false} ReleaseKeepsGuarded(s: System, c: nat)
    requires Guarded(s) && Enabled(s, c) && s.clients[c].pc.Releasing? && Holds(s, c, IdOf(s.clients[c]))
    ensures Guarded(Step(s, c))
  {
    var id := IdOf(s.clients[c]);
    assert ClientShape(s, s.clients[c]) && LockedIffHeld(s, id);
    var s' := Step(s, c);
    StepKeepsRegistry(s, c);
    forall d: nat, h: string | Holds(s', d, h) ensures h in s'.locks && Holds(s, d, h) {
      assert Holds(s, d, h);
    }
    forall h: string | h in s'.locks ensures LockedIffHeld(s', h) {
      assert LockedIffHeld(s, h);
      if h == id {
        forall d: nat ensures !Holds(s', d, h) {
          assert Holds(s', d, h) ==> Holds(s, d, h) && d != c;
        }
      } else {
        assert forall d: nat :: Holds(s', d, h) <==> Holds(s, d, h);
      }
    }
    forall d: nat, e: nat, h: string | Holds(s', d, h) && Holds(s', e, h) ensures d == e {
      assert Holds(s, d, h) && Holds(s, e, h);
    }
  }

  /** So do all steps that take or release no mutex, among them the unlocking of an id that was never locked. */
  lemma {:induction false} OtherStepsKeepGuarded(s: System, c: nat)
    requires Guarded(s) && Enabled(s, c) && !s.clients[c].pc.Waiting?
    requires s.clients[c].pc.Releasing? ==> IdOf(s.clients[c]) !in s.locks
    ensures Guarded(Step(s, c))
  {
    var s' := Step(s, c);
    StepKeepsRegistry(s, c);
    assert ClientShape(s, s.clients[c]);
    assert s.clients[c].pc.Releasing? ==> !Holds(s, c, IdOf(s.clients[c]));
    assert forall d: nat, h: string :: Holds(s', d, h) <==> Holds(s, d, h);
    forall h: string | h in s'.locks ensures LockedIffHeld(s', h) {
      if h in s.locks {
        assert LockedIffHeld(s, h);
      }
    }
  }

  /** Unlocking what it does not hold, a client takes the lock from its holder or crashes the process. */
  lemma {:induction false} ForeignUnlockUnguards(s: System, c: nat)
    requires Guarded(s) && Enabled(s, c) && ForeignUnlock(s, c)
    ensures !Guarded(Step(s, c))
  {
    var s', id := Step(s, c), IdOf(s.clients[c]);
    assert LockedIffHeld(s, id);
    if s.mutexes[s.locks[id]] {
      var d: nat :| Holds(s, d, id);
      assert Holds(s', d, id) && !s'.mutexes[s'.locks[id]];
      assert !LockedIffHeld(s', id);
    }
  }

  /** The exact condition, step by step. */
  lemma {:induction false} StepKeepsGuardedExactly(s: System, c: nat)
    requires Guarded(s) && Enabled(s, c)
    ensures Guarded(Step(s, c)) <==> !ForeignUnlock(s, c)
  {
    if ForeignUnlock(s, c) {
      ForeignUnlockUnguards(s, c);
    } else if s.clients[c].pc.Waiting? {
      AcquireKeepsGuarded(s, c);
    } else if s.clients[c].pc.Releasing? && IdOf(s.clients[c]) in s.locks {
      ReleaseKeepsGuarded(s, c);
    } else {
      OtherStepsKeepGuarded(s, c);
    }
  }

  /** No step of the run unlocks what its client does not hold. */
  ghost predicate OwnUnlocks(scripts: seq<seq<Op>>, schedule: seq<nat>) {
    schedule == []
    || (OwnUnlocks(scripts, schedule[..|schedule| - 1])
        && match Run(scripts, schedule[..|schedule| - 1])
           case None => true
           case Some(s) => !ForeignUnlock(s, schedule[|schedule| - 1]))
  }

  /** Exclusion holds throughout the run: in its last state and in every one before. */
  ghost predicate GuardedThroughout(scripts: seq<seq<Op>>, schedule: seq<nat>) {
    && (schedule != [] ==> GuardedThroughout(scripts, schedule[..|schedule| - 1]))
    && Run(scripts, schedule).Some? && Guarded(Run(scripts, schedule).value)
  }

  /** The exact condition for whole runs of arbitrary scripts. */
  lemma {:induction false} GuardedExactlyWithOwnUnlocks(scripts: seq<seq<Op>>, schedule: seq<nat>)
    requires Run(scripts, schedule).Some?
    ensures GuardedThroughout(scripts, schedule) <==> OwnUnlocks(scripts, schedule)
  {
    if schedule == [] {
      assert Guarded(Init(scripts));
    } else {
      var shorter := schedule[..|schedule| - 1];
      GuardedExactlyWithOwnUnlocks(scripts, shorter);
      if GuardedThroughout(scripts, shorter) {
        StepKeepsGuardedExactly(Run(scripts, shorter).value, schedule[|schedule| - 1]);
      }
    }
  }

  /** In such a run at most one client per id is inside its section, its mutex is locked, and no unlock ever fails. */
  lemma {:induction false} MutualExclusion(scripts: seq<seq<Op>>, schedule: seq<nat>, c: nat, d: nat, id: string)
    requires Run(scripts, schedule).Some? && OwnUnlocks(scripts, schedule)
    ensures var s := Run(scripts, schedule).value;
            && !s.crashed
            && (Holds(s, c, id) && Holds(s, d, id) ==> c == d)
            && (Holds(s, c, id) ==> id in s.locks && s.locks[id] < |s.mutexes| && s.mutexes[s.locks[id]])
  {
    GuardedExactlyWithOwnUnlocks(scripts, schedule);
    var s := Run(scripts, schedule).value;
    assert id in s.locks ==> LockedIffHeld(s, id);
  }

  // ----- Scripts whose every run is of this kind

  /** Every unlock of the script is of an id it has locked and not unlocked; it may stop in the middle of a section. */
  predicate Owning(todo: seq<Op>, held: set<string>) {
    if todo == [] then true else
      match todo[0]
      case Work => Owning(todo[1..], held)
      case Lock(id) => Owning(todo[1..], held + {id})
      case Unlock(id) => id in held && Owning(todo[1..], held - {id})
  }

  ghost predicate AllOwning(s: System) {
    forall c: nat :: c < |s.clients| ==> Owning(Rest(s.clients[c]), s.clients[c].held)
  }

  lemma {:induction false} StepKeepsOwning(s: System, c: nat)
    requires Registry(s) && Enabled(s, c) && AllOwning(s)
    ensures AllOwning(Step(s, c)) && !ForeignUnlock(s, c)
  {
    assert ClientShape(s, s.clients[c]) && Owning(Rest(s.clients[c]), s.clients[c].held);
    forall d: nat | d < |s.clients| ensures Owning(Rest(Step(s, c).clients[d]), Step(s, c).clients[d].held) {
      assert Owning(Rest(s.clients[d]), s.clients[d].held);
    }
  }

  /** Whoever unlocks only its own ids never breaks exclusion, not even by stopping without an unlock. */
  lemma {:induction false} OwningScriptsOwnTheirUnlocks(scripts: seq<seq<Op>>, schedule: seq<nat>)
    requires Run(scripts, schedule).Some? && forall c :: 0 <= c < |scripts| ==> Owning(scripts[c], {})
    ensures OwnUnlocks(scripts, schedule) && AllOwning(Run(scripts, schedule).value)
  {
    if schedule == [] {
    } else {
      var shorter := schedule[..|schedule| - 1];
      OwningScriptsOwnTheirUnlocks(scripts, shorter);
      RegistryAlways(scripts, shorter);
      StepKeepsOwning(Run(scripts, shorter).value, schedule[|schedule| - 1]);
    }
  }

  lemma {:induction false} BracketedIsOwning(todo: seq<Op>, held: set<string>)
    requires Bracketed(todo, held)
    ensures Owning(todo, held)
  {
    if todo == [] {
    } else {
      match todo[0]
      case Work => BracketedIsOwning(todo[1..], held);
      case Lock(id) => BracketedIsOwning(todo[1..], held + {id});
      case Unlock(id) => BracketedIsOwning(todo[1..], held - {id});
    }
  }

  ghost predicate AllBracketed(scripts: seq<seq<Op>>) {
    forall c :: 0 <= c < |scripts| ==> Bracketed(scripts[c], {})
  }

  ghost predicate InBrackets(s: System) {
    forall c: nat :: c < |s.clients| ==> Bracketed(Rest(s.clients[c]), s.clients[c].held)
  }

  lemma {:induction false} StepKeepsBrackets(s: System, c: nat)
    requires Registry(s) && Enabled(s, c) && InBrackets(s)
    ensures InBrackets(Step(s, c))
  {
    assert ClientShape(s, s.clients[c]) && Bracketed(Rest(s.clients[c]), s.clients[c].held);
    forall d: nat | d < |s.clients| ensures Bracketed(Rest(Step(s, c).clients[d]), Step(s, c).clients[d].held) {
      assert Bracketed(Rest(s.clients[d]), s.clients[d].held);
    }
  }

  lemma {:induction false} BracketsAlways(scripts: seq<seq<Op>>, schedule: seq<nat>)
    requires AllBracketed(scripts) && Run(scripts, schedule).Some?
    ensures InBrackets(Run(scripts, schedule).value)
  {
    if schedule == [] {
    } else {
      var shorter := schedule[..|schedule| - 1];
      BracketsAlways(scripts, shorter);
      RegistryAlways(scripts, shorter);
      StepKeepsBrackets(Run(scripts, shorter).value, schedule[|schedule| - 1]);
    }
  }

  ghost predicate Exclusion(s: System) {
    Guarded(s) && InBrackets(s)
  }

  /** In particular scripts that bracket their sections. */
  lemma {:induction false} ExclusionAlways(scripts: seq<seq<Op>>, schedule: seq<nat>)
    requires AllBracketed(scripts) && Run(scripts, schedule).Some?
    ensures Exclusion(Run(scripts, schedule).value)
  {
    forall c | 0 <= c < |scripts| ensures Owning(scripts[c], {}) {
      BracketedIsOwning(scripts[c], {});
    }
    OwningScriptsOwnTheirUnlocks(scripts, schedule);
    GuardedExactlyWithOwnUnlocks(scripts, schedule);
    BracketsAlways(scripts, schedule);
  }

  // ----- Deadlock freedom

  ghost predicate InOrder(s: System, rank: string -> nat) {
    forall c: nat :: c < |s.clients| ==> Ordered(Rest(s.clients[c]), s.clients[c].held, rank)
  }

  lemma {:induction false} StepKeepsOrder(s: System, c: nat, rank: string -> nat)
    requires Registry(s) && Enabled(s, c) && InOrder(s, rank)
    ensures InOrder(Step(s, c), rank)
  {
    assert ClientShape(s, s.clients[c]) && Ordered(Rest(s.clients[c]), s.clients[c].held, rank);
    forall d: nat | d < |s.clients| ensures Ordered(Rest(Step(s, c).clients[d]), Step(s, c).clients[d].held, rank) {
      assert Ordered(Rest(s.clients[d]), s.clients[d].held, rank);
    }
  }

  lemma {:induction false} OrderAlways(scripts: seq<seq<Op>>, schedule: seq<nat>, rank: string -> nat)
    requires Run(scripts, schedule).Some?
    requires forall c :: 0 <= c < |scripts| ==> Ordered(scripts[c], {}, rank)
    ensures InOrder(Run(scripts, schedule).value, rank)
  {
    if schedule == [] {
    } else {
      var shorter := schedule[..|schedule| - 1];
      OrderAlways(scripts, shorter, rank);
      RegistryAlways(scripts, shorter);
      StepKeepsOrder(Run(scripts, shorter).value, schedule[|schedule| - 1], rank);
    }
  }

  /** A bound on the ranks the clients are waiting for. */
  lemma {:induction false} RankBound(clients: seq<Client>, rank: string -> nat) returns (bound: nat)
    ensures forall c :: 0 <= c < |clients| ==> rank(IdOf(clients[c])) <= bound
  {
    if clients == [] {
      bound := 0;
    } else {
      var n := |clients| - 1;
      var b := RankBound(clients[..n], rank);
      bound := if rank(IdOf(clients[n])) > b then rank(IdOf(clients[n])) else b;
      assert forall c :: 0 <= c < n ==> clients[..n][c] == clients[c];
    }
  }

  /** From a waiting client, follow the holders: each waits for a higher id than the one before. */
  lemma {:induction false} FollowHolders(s: System, rank: string -> nat, bound: nat, c: nat) returns (d: nat)
    requires Exclusion(s) && InOrder(s, rank) && s.global.None?
    requires forall b: nat :: b < |s.clients| ==> rank(IdOf(s.clients[b])) <= bound
    requires c < |s.clients| && s.clients[c].todo != []
    ensures Enabled(s, d)
    decreases bound - rank(IdOf(s.clients[c]))
  {
    d := c;
    assert ClientShape(s, s.clients[c]) && (InRegistry(s.clients[c]) <==> s.global == Some(c));
    if Enabled(s, c) {
    } else {
      var id := IdOf(s.clients[c]);
      assert LockedIffHeld(s, id);
      var h: nat :| Holds(s, h, id);
      assert Bracketed(Rest(s.clients[h]), s.clients[h].held);
      assert ClientShape(s, s.clients[h]) && (InRegistry(s.clients[h]) <==> s.global == Some(h));
      if Enabled(s, h) {
        d := h;
      } else {
        assert Ordered(Rest(s.clients[h]), s.clients[h].held, rank);
        assert rank(IdOf(s.clients[h])) <= bound;
        d := FollowHolders(s, rank, bound, h);
      }
    }
  }

  /**
   Deadlock freedom: if all scripts are bracketed and take their ids in one order, then in every reachable state
   with an unfinished client some client can take a step.
   */
  lemma {:induction false} NeverDeadlocks(scripts: seq<seq<Op>>, schedule: seq<nat>, rank: string -> nat, c: nat)
    requires AllBracketed(scripts) && Run(scripts, schedule).Some?
    requires forall c :: 0 <= c < |scripts| ==> Ordered(scripts[c], {}, rank)
    requires var s := Run(scripts, schedule).value; c < |s.clients| && s.clients[c].todo != []
    ensures exists d: nat :: Enabled(Run(scripts, schedule).value, d)
  {
    var s := Run(scripts, schedule).value;
    ExclusionAlways(scripts, schedule);
    if s.global.Some? {
      RegistryHolderCanStep(scripts, schedule);
    } else {
      OrderAlways(scripts, schedule, rank);
      var bound := RankBound(s.clients, rank);
      var d := FollowHolders(s, rank, bound, c);
    }
  }

  /** Scripts that never hold two ids at once. */
  predicate OneAtATime(todo: seq<Op>, held: set<string>) {
    if todo == [] then true else
      match todo[0]
      case Work => OneAtATime(todo[1..], held)
      case Lock(id) => held == {} && OneAtATime(todo[1..], held + {id})
      case Unlock(id) => OneAtATime(todo[1..], held - {id})
  }

  lemma {:induction false} OneAtATimeIsOrdered(todo: seq<Op>, held: set<string>, rank: string -> nat)
    requires OneAtATime(todo, held)
    ensures Ordered(todo, held, rank)
  {
    if todo == [] {
    } else {
      match todo[0]
      case Work => OneAtATimeIsOrdered(todo[1..], held, rank);
      case Lock(id) => OneAtATimeIsOrdered(todo[1..], held + {id}, rank);
      case Unlock(id) => OneAtATimeIsOrdered(todo[1..], held - {id}, rank);
    }
  }

  // ----- Termination

  function Stage(pc: Pc): nat {
    match pc
    case Idle => 0
    case Registering => 1
    case LookingUp => 2
    case Found(_) => 3
    case Waiting(_) => 4
    case Releasing => 1
    case Released => 2
  }

  /** No action takes more than five steps. */
  function Work(client: Client): int {
    5 * |client.todo| - Stage(client.pc)
  }

  function WorkLeft(clients: seq<Client>): int {
    if clients == [] then 0 else WorkLeft(clients[..|clients| - 1]) + Work(clients[|clients| - 1])
  }

  lemma {:induction false} WorkUpdate(clients: seq<Client>, c: nat, client: Client)
    requires c < |clients|
    ensures WorkLeft(clients[c := client]) == WorkLeft(clients) - Work(clients[c]) + Work(client)
  {
    var n := |clients| - 1;
    if c < n {
      WorkUpdate(clients[..n], c, client);
      assert clients[c := client][..n] == clients[..n][c := client];
    } else {
      assert clients[c := client][..n] == clients[..n];
    }
  }

  lemma {:induction false} StepDoesWork(s: System, c: nat)
    requires Enabled(s, c) && !Step(s, c).crashed
    ensures WorkLeft(Step(s, c).clients) < WorkLeft(s.clients)
  {
    hide WorkLeft;
    WorkUpdate(s.clients, c, Step(s, c).clients[c]);
    assert Step(s, c).clients == s.clients[c := Step(s, c).clients[c]];
  }

  lemma {:induction false} WorkIsNatural(clients: seq<Client>)
    requires forall c :: 0 <= c < |clients| ==> clients[c].todo != [] || clients[c].pc.Idle?
    ensures WorkLeft(clients) >= 0
    ensures forall c :: 0 <= c < |clients| && clients[c].todo != [] ==> WorkLeft(clients) > 0
  {
    if clients == [] {
    } else {
      var n := |clients| - 1;
      WorkIsNatural(clients[..n]);
      forall c | 0 <= c < |clients| && clients[c].todo != [] ensures WorkLeft(clients) > 0 {
        assert c < n ==> clients[..n][c].todo != [];
      }
    }
  }

  lemma {:induction false} WorkRemains(s: System)
    requires Registry(s)
    ensures WorkLeft(s.clients) >= 0
    ensures forall c: nat :: Enabled(s, c) ==> WorkLeft(s.clients) > 0
  {
    forall c | 0 <= c < |s.clients| ensures s.clients[c].todo != [] || s.clients[c].pc.Idle? {
      assert ClientShape(s, s.clients[c]);
    }
    WorkIsNatural(s.clients);
  }

  function TotalLength(scripts: seq<seq<Op>>): nat {
    if scripts == [] then 0 else TotalLength(scripts[..|scripts| - 1]) + |scripts[|scripts| - 1]|
  }

  lemma {:induction false} InitialWork(scripts: seq<seq<Op>>)
    ensures WorkLeft(Init(scripts).clients) == 5 * TotalLength(scripts)
  {
    if scripts == [] {
    } else {
      var n := |scripts| - 1;
      InitialWork(scripts[..n]);
      assert Init(scripts).clients[..n] == Init(scripts[..n]).clients;
    }
  }

  /** Every run of any scripts takes at most five steps per action. */
  lemma {:induction false} RunsAreBounded(scripts: seq<seq<Op>>, schedule: seq<nat>)
    requires Run(scripts, schedule).Some?
    ensures var s := Run(scripts, schedule).value;
            !s.crashed ==> |schedule| + WorkLeft(s.clients) <= 5 * TotalLength(scripts)
    ensures |schedule| <= 5 * TotalLength(scripts)
  {
    RegistryAlways(scripts, schedule);
    WorkRemains(Run(scripts, schedule).value);
    if schedule == [] {
      InitialWork(scripts);
    } else {
      var shorter := schedule[..|schedule| - 1];
      RunsAreBounded(scripts, shorter);
      RegistryAlways(scripts, shorter);
      LastStepFits(scripts, Run(scripts, shorter).value, schedule[|schedule| - 1], |shorter|);
    }
  }

  lemma {:induction false} LastStepFits(scripts: seq<seq<Op>>, s: System, c: nat, n: nat)
    requires Registry(s) && Enabled(s, c) && n + WorkLeft(s.clients) <= 5 * TotalLength(scripts)
    ensures n + 1 <= 5 * TotalLength(scripts)
    ensures !Step(s, c).crashed ==> n + 1 + WorkLeft(Step(s, c).clients) <= 5 * TotalLength(scripts)
  {
    WorkRemains(s);
    if !Step(s, c).crashed {
      StepDoesWork(s, c);
    }
  }

  /** A run that cannot be continued has finished every script and left every mutex unlocked. */
  lemma {:induction false} MaximalRunsFinish(scripts: seq<seq<Op>>, schedule: seq<nat>, rank: string -> nat)
    requires AllBracketed(scripts) && Run(scripts, schedule).Some?
    requires forall c :: 0 <= c < |scripts| ==> Ordered(scripts[c], {}, rank)
    requires forall c: nat :: !Enabled(Run(scripts, schedule).value, c)
    ensures var s := Run(scripts, schedule).value;
            && (forall c :: 0 <= c < |s.clients| ==> s.clients[c].todo == [])
            && (forall id :: id in s.locks ==> s.locks[id] < |s.mutexes| && !s.mutexes[s.locks[id]])
  {
    var s := Run(scripts, schedule).value;
    ExclusionAlways(scripts, schedule);
    forall c: nat | c < |s.clients| ensures s.clients[c].todo == [] && s.clients[c].held == {} {
      if s.clients[c].todo != [] {
        NeverDeadlocks(scripts, schedule, rank, c);
      }
      assert Bracketed(Rest(s.clients[c]), s.clients[c].held);
    }
    forall id | id in s.locks ensures s.locks[id] < |s.mutexes| && !s.mutexes[s.locks[id]] {
      assert LockedIffHeld(s, id);
    }
  }

  // ----- Exact step counts

  /** Five steps for a lock, three for an unlock, one for anything else. */
  function Cost(todo: seq<Op>): nat {
    if todo == [] then 0
    else Cost(todo[1..]) + match todo[0] case Lock(_) => 5 case Unlock(_) => 3 case Work => 1
  }

  /** What client c has yet to do. */
  function CostLeft(client: Client): int {
    Cost(client.todo) - Stage(client.pc)
  }

  function AllCost(scripts: seq<seq<Op>>, n: nat): nat
    requires n <= |scripts|
  {
    if n == 0 then 0 else AllCost(scripts, n - 1) + Cost(scripts[n - 1])
  }

  function AllCostLeft(clients: seq<Client>): int {
    if clients == [] then 0 else AllCostLeft(clients[..|clients| - 1]) + CostLeft(clients[|clients| - 1])
  }

  lemma {:induction false} CostUpdate(clients: seq<Client>, c: nat, client: Client)
    requires c < |clients|
    ensures AllCostLeft(clients[c := client]) == AllCostLeft(clients) - CostLeft(clients[c]) + CostLeft(client)
  {
    var n := |clients| - 1;
    if c == n {
      assert clients[c := client][..n] == clients[..n];
    } else {
      CostUpdate(clients[..n], c, client);
      assert clients[c := client][..n] == clients[..n][c := client];
    }
  }

  lemma {:induction false} StepCostsOne(s: System, c: nat)
    requires Registry(s) && Enabled(s, c) && !Step(s, c).crashed
    ensures AllCostLeft(Step(s, c).clients) == AllCostLeft(s.clients) - 1
  {
    hide AllCostLeft;
    assert ClientShape(s, s.clients[c]);
    CostUpdate(s.clients, c, Step(s, c).clients[c]);
    assert Step(s, c).clients == s.clients[c := Step(s, c).clients[c]];
  }

  lemma {:induction false} InitialCost(scripts: seq<seq<Op>>, n: nat)
    requires n <= |scripts|
    ensures AllCostLeft(Init(scripts).clients[..n]) == AllCost(scripts, n)
  {
    if n == 0 {
    } else {
      InitialCost(scripts, n - 1);
      assert Init(scripts).clients[..n][..n - 1] == Init(scripts).clients[..n - 1];
    }
  }

  /** No action is skipped or repeated: a run's length and what is left of its scripts always add up to the whole. */
  lemma {:induction false} StepsAddUp(scripts: seq<seq<Op>>, schedule: seq<nat>)
    requires Run(scripts, schedule).Some? && !Run(scripts, schedule).value.crashed
    ensures |schedule| + AllCostLeft(Run(scripts, schedule).value.clients) == AllCost(scripts, |scripts|)
  {
    if schedule == [] {
      InitialCost(scripts, |scripts|);
      assert Init(scripts).clients[..|scripts|] == Init(scripts).clients;
    } else {
      var shorter := schedule[..|schedule| - 1];
      StepsAddUp(scripts, shorter);
      RegistryAlways(scripts, shorter);
      StepCostsOne(Run(scripts, shorter).value, schedule[|schedule| - 1]);
    }
  }

  /** A client with work to do waits only for GLOBAL_MUTEX, to lock or unlock, or for the mutex of its id. */
  lemma {:induction false} BlockedOnlyByMutexes(scripts: seq<seq<Op>>, schedule: seq<nat>, c: nat)
    requires Run(scripts, schedule).Some?
    requires var s := Run(scripts, schedule).value; c < |s.clients| && s.clients[c].todo != [] && !s.crashed
    ensures var s := Run(scripts, schedule).value;
            var client := s.clients[c];
            && (client.pc.Waiting? ==> IdOf(client) in s.locks && s.locks[IdOf(client)] < |s.mutexes|)
            && (Enabled(s, c) <==>
                  && (client.pc.Idle? && !client.todo[0].Work? ==> s.global.None?)
                  && (client.pc.Waiting? ==> !s.mutexes[s.locks[IdOf(client)]]))
  {
    RegistryAlways(scripts, schedule);
    var s := Run(scripts, schedule).value;
    assert ClientShape(s, s.clients[c]);
  }
}
