/**
 What the named locks do not protect against: runs that deadlock, break exclusion or crash once clients do not keep
 the discipline that LockSafety asks for. The last part is the registry in the source's imperative form.
 */
module LockLimits {
  import opened Options
  import opened Locks
  import opened LockSafety

  lemma {:induction false} Extend(scripts: seq<seq<Op>>, schedule: seq<nat>, c: nat)
    requires Run(scripts, schedule).Some? && Enabled(Run(scripts, schedule).value, c)
    ensures Run(scripts, schedule + [c]) == Some(Step(Run(scripts, schedule).value, c))
  {
    assert (schedule + [c])[..|schedule|] == schedule;
  }

  /** The registry after looking up `id`, with a new unlocked mutex if there was none. */
  function Registered(s: System, id: string): System {
    if id in s.locks then s else s.(locks := s.locks[id := |s.mutexes|], mutexes := s.mutexes + [false])
  }

  /** Client c stands before lock.Lock() of the id at the head of its script. */
  function AtLock(s: System, c: nat): System
    requires c < |s.clients|
  {
    var id := IdOf(s.clients[c]);
    var r := Registered(s, id);
    With(r, c, s.clients[c].(pc := Waiting(r.locks[id])))
  }

  ghost predicate AboutToLock(s: System, c: nat) {
    && Registry(s) && !s.crashed && s.global.None?
    && c < |s.clients| && s.clients[c].pc.Idle? && s.clients[c].todo != [] && s.clients[c].todo[0].Lock?
  }

  /** Client c is at `pc` and holds GLOBAL_MUTEX. */
  function Inside(s: System, c: nat, pc: Pc): System
    requires c < |s.clients|
  {
    With(s, c, s.clients[c].(pc := pc)).(global := Some(c))
  }

  lemma {:induction false} EnterAndRegister(scripts: seq<seq<Op>>, schedule: seq<nat>, c: nat, s: System)
    requires Run(scripts, schedule) == Some(s) && AboutToLock(s, c)
    ensures Run(scripts, schedule + [c, c]) == Some(Inside(Registered(s, IdOf(s.clients[c])), c, LookingUp))
  {
    Extend(scripts, schedule, c);
    var s1, s2 := Inside(s, c, Registering), Inside(Registered(s, IdOf(s.clients[c])), c, LookingUp);
    assert Step(s, c) == s1;
    Extend(scripts, schedule + [c], c);
    assert Step(s1, c).clients == s2.clients;
    assert schedule + [c] + [c] == schedule + [c, c];
  }

  lemma {:induction false} LookUpAndLeave(scripts: seq<seq<Op>>, schedule: seq<nat>, c: nat, s: System)
    requires AboutToLock(s, c)
    requires Run(scripts, schedule) == Some(Inside(Registered(s, IdOf(s.clients[c])), c, LookingUp))
    ensures Run(scripts, schedule + [c, c]) == Some(AtLock(s, c))
  {
    var r := Registered(s, IdOf(s.clients[c]));
    var s2, s3 := Inside(r, c, LookingUp), Inside(r, c, Found(r.locks[IdOf(s.clients[c])]));
    Extend(scripts, schedule, c);
    assert Step(s2, c).clients == s3.clients;
    Extend(scripts, schedule + [c], c);
    assert Step(s3, c).clients == AtLock(s, c).clients;
    assert schedule + [c] + [c] == schedule + [c, c];
  }

  /** Four steps without interruption bring a client before its lock. */
  lemma {:induction false} ReachLock(scripts: seq<seq<Op>>, schedule: seq<nat>, c: nat)
    requires Run(scripts, schedule).Some? && AboutToLock(Run(scripts, schedule).value, c)
    ensures Run(scripts, schedule + [c, c, c, c]) == Some(AtLock(Run(scripts, schedule).value, c))
  {
    var s := Run(scripts, schedule).value;
    EnterAndRegister(scripts, schedule, c, s);
    LookUpAndLeave(scripts, schedule + [c, c], c, s);
    assert schedule + [c, c] + [c, c] == schedule + [c, c, c, c];
  }

  /** Client c has locked the id at the head of its script. */
  function Locked(s: System, c: nat): System
    requires c < |s.clients|
  {
    var id, client := IdOf(s.clients[c]), s.clients[c];
    var r := Registered(s, id);
    With(r, c, Next(client).(held := client.held + {id})).(
      mutexes := if r.locks[id] < |r.mutexes| then r.mutexes[r.locks[id] := true] else r.mutexes)
  }

  /** A fifth step takes the lock if it is free. */
  lemma {:induction false} TakeLock(scripts: seq<seq<Op>>, schedule: seq<nat>, c: nat)
    requires Run(scripts, schedule).Some? && AboutToLock(Run(scripts, schedule).value, c)
    requires var s := Run(scripts, schedule).value;
             var id := IdOf(s.clients[c]);
             id in s.locks ==> !s.mutexes[s.locks[id]]
    ensures Run(scripts, schedule + [c, c, c, c, c]) == Some(Locked(Run(scripts, schedule).value, c))
  {
    var s := Run(scripts, schedule).value;
    ReachLock(scripts, schedule, c);
    Extend(scripts, schedule + [c, c, c, c], c);
    assert Step(AtLock(s, c), c).clients == Locked(s, c).clients;
    assert schedule + [c, c, c, c] + [c] == schedule + [c, c, c, c, c];
  }

  function Crossing(a: string, b: string): seq<Op> {
    [Lock(a), Lock(b), Unlock(b), Unlock(a)]
  }

  /** Each of the two clients has taken its first lock and is about to take the other's. */
  ghost predicate Crossed(s: System, a: string, b: string) {
    && AboutToLock(s, 0) && AboutToLock(s, 1) && |s.clients| == 2
    && IdOf(s.clients[0]) == b && IdOf(s.clients[1]) == a
    && a in s.locks && b in s.locks && s.mutexes[s.locks[a]] && s.mutexes[s.locks[b]]
  }

  lemma {:induction false} FirstTakesLock(a: string, b: string)
    ensures var scripts := [Crossing(a, b), Crossing(b, a)];
            var s := Locked(Init(scripts), 0);
            && Run(scripts, [0, 0, 0, 0, 0]) == Some(s)
            && s.locks == map[a := 0] && s.mutexes == [true] && s.global.None? && !s.crashed
            && s.clients == [Client(scripts[0][1..], Idle, {a}), Client(scripts[1], Idle, {})]
  {
    var scripts := [Crossing(a, b), Crossing(b, a)];
    assert Run(scripts, []) == Some(Init(scripts));
    RegistryAlways(scripts, []);
    TakeLock(scripts, [], 0);
    assert [] + [0, 0, 0, 0, 0] == [0, 0, 0, 0, 0];
    assert {} + {a} == {a};
  }

  lemma {:induction false} ClientsCanCross(a: string, b: string) returns (schedule: seq<nat>)
    requires a != b
    ensures var r := Run([Crossing(a, b), Crossing(b, a)], schedule); r.Some? && Crossed(r.value, a, b)
  {
    var scripts := [Crossing(a, b), Crossing(b, a)];
    FirstTakesLock(a, b);
    var s1 := Locked(Init(scripts), 0);
    schedule := [0, 0, 0, 0, 0];
    RegistryAlways(scripts, schedule);
    TakeLock(scripts, schedule, 1);
    schedule := schedule + [1, 1, 1, 1, 1];
    RegistryAlways(scripts, schedule);
    assert Locked(s1, 1).locks == map[a := 0, b := 1] && Locked(s1, 1).mutexes == [true, true];
  }

  /** Two clients that take the same two ids in opposite orders can block each other for ever. */
  lemma {:induction false} OppositeOrdersDeadlock(a: string, b: string) returns (schedule: seq<nat>)
    requires a != b
    ensures AllBracketed([Crossing(a, b), Crossing(b, a)])
    ensures var r := Run([Crossing(a, b), Crossing(b, a)], schedule);
            && r.Some?
            && (forall c :: 0 <= c < |r.value.clients| ==> r.value.clients[c].todo != [])
            && forall c: nat :: !Enabled(r.value, c)
  {
    hide Run;
    BracketedPair(a, b);
    BracketedPair(b, a);
    var scripts := [Crossing(a, b), Crossing(b, a)];
    var crossed := ClientsCanCross(a, b);
    var s := Run(scripts, crossed).value;
    ReachLock(scripts, crossed, 0);
    RegistryAlways(scripts, crossed + [0, 0, 0, 0]);
    ReachLock(scripts, crossed + [0, 0, 0, 0], 1);
    schedule := crossed + [0, 0, 0, 0] + [1, 1, 1, 1];
    var s' := AtLock(AtLock(s, 0), 1);
    assert s'.clients[0].pc == Waiting(s.locks[b]) && s'.clients[1].pc == Waiting(s.locks[a]);
  }

  lemma {:induction false} BracketedPair(a: string, b: string)
    requires a != b
    ensures Bracketed(Crossing(a, b), {})
  {
    var script := Crossing(a, b);
    assert {} + {a} + {b} - {b} - {a} == {};
    assert script[1..][1..][1..][1..] == [];
    assert Bracketed(script[1..][1..][1..], {} + {a} + {b} - {b});
    assert Bracketed(script[1..][1..], {} + {a} + {b});
    assert Bracketed(script[1..], {} + {a});
  }

  /** A workload that fails between its lock and its unlock leaves every later client of the id waiting for ever. */
  lemma {:induction false} AbandonedLockBlocks(a: string) returns (scripts: seq<seq<Op>>, schedule: seq<nat>)
    ensures scripts == [[Lock(a)], [Lock(a), Unlock(a)]] && Run(scripts, schedule).Some?
    ensures var s := Run(scripts, schedule).value;
            && |s.clients| == 2 && s.clients[0].todo == [] && s.clients[1].todo != []
            && forall c: nat :: !Enabled(s, c)
  {
    scripts := [[Lock(a)], [Lock(a), Unlock(a)]];
    var s0 := Init(scripts);
    assert Run(scripts, []) == Some(s0);
    RegistryAlways(scripts, []);
    TakeLock(scripts, [], 0);
    assert [] + [0, 0, 0, 0, 0] == [0, 0, 0, 0, 0];
    var s1 := Locked(s0, 0);
    assert s1.locks == map[a := 0] && s1.mutexes == [true];
    RegistryAlways(scripts, [0, 0, 0, 0, 0]);
    ReachLock(scripts, [0, 0, 0, 0, 0], 1);
    schedule := [0, 0, 0, 0, 0] + [1, 1, 1, 1];
    assert AtLock(s1, 1).clients[1].pc == Waiting(0);
  }

  // ----- Unlocking what another client holds, or what nobody holds

  ghost predicate AboutToUnlock(s: System, c: nat) {
    && Registry(s) && !s.crashed && s.global.None?
    && c < |s.clients| && s.clients[c].pc.Idle? && s.clients[c].todo != [] && s.clients[c].todo[0].Unlock?
  }

  /** Client c is inside GlobalMutexUnlock, about to unlock by id. */
  function AtUnlock(s: System, c: nat): System
    requires c < |s.clients|
  {
    With(s, c, s.clients[c].(pc := Releasing)).(global := Some(c))
  }

  lemma {:induction false} ReachUnlock(scripts: seq<seq<Op>>, schedule: seq<nat>, c: nat)
    requires Run(scripts, schedule).Some? && AboutToUnlock(Run(scripts, schedule).value, c)
    ensures Run(scripts, schedule + [c]) == Some(AtUnlock(Run(scripts, schedule).value, c))
  {
    Extend(scripts, schedule, c);
  }

  /** Client c has unlocked the id at the head of its script, whoever held it. */
  function Unlocked(s: System, c: nat): System
    requires c < |s.clients|
  {
    var id, client := IdOf(s.clients[c]), s.clients[c];
    With(s, c, Next(client).(held := client.held - {id})).(
      mutexes := if id in s.locks && s.locks[id] < |s.mutexes| then s.mutexes[s.locks[id] := false] else s.mutexes)
  }

  lemma {:induction false} ReleaseLock(scripts: seq<seq<Op>>, schedule: seq<nat>, c: nat)
    requires Run(scripts, schedule).Some? && AboutToUnlock(Run(scripts, schedule).value, c)
    requires var s := Run(scripts, schedule).value;
             IdOf(s.clients[c]) in s.locks ==> s.mutexes[s.locks[IdOf(s.clients[c])]]
    ensures Run(scripts, schedule + [c, c, c]) == Some(Unlocked(Run(scripts, schedule).value, c))
  {
    var s := Run(scripts, schedule).value;
    ReachUnlock(scripts, schedule, c);
    Extend(scripts, schedule + [c], c);
    Extend(scripts, schedule + [c] + [c], c);
    assert schedule + [c] + [c] + [c] == schedule + [c, c, c];
    assert Step(Step(AtUnlock(s, c), c), c).clients == Unlocked(s, c).clients;
  }

  /** A client that unlocks an id it does not hold lets itself into a section another client is still in. */
  lemma {:induction false} ForeignUnlockBreaksExclusion(a: string)
    returns (scripts: seq<seq<Op>>, schedule: seq<nat>)
    ensures scripts == [[Lock(a), Work, Unlock(a)], [Unlock(a), Lock(a), Work, Unlock(a)]]
    ensures Bracketed(scripts[0], {}) && Run(scripts, schedule).Some?
    ensures Holds(Run(scripts, schedule).value, 0, a) && Holds(Run(scripts, schedule).value, 1, a)
  {
    scripts := [[Lock(a), Work, Unlock(a)], [Unlock(a), Lock(a), Work, Unlock(a)]];
    OneSection(a);
    var s0 := Init(scripts);
    assert Run(scripts, []) == Some(s0);
    RegistryAlways(scripts, []);
    TakeLock(scripts, [], 0);
    schedule := [] + [0, 0, 0, 0, 0];
    var s1 := Locked(s0, 0);
    assert s1.locks == map[a := 0] && s1.mutexes == [true];
    RegistryAlways(scripts, schedule);
    ReleaseLock(scripts, schedule, 1);
    schedule := schedule + [1, 1, 1];
    var s2 := Unlocked(s1, 1);
    assert s2.locks == map[a := 0] && s2.mutexes == [false] && s2.clients[0] == s1.clients[0];
    RegistryAlways(scripts, schedule);
    TakeLock(scripts, schedule, 1);
    schedule := schedule + [1, 1, 1, 1, 1];
    assert Locked(s2, 1).clients[0] == s1.clients[0];
  }

  lemma {:induction false} OneSection(a: string)
    ensures Bracketed([Lock(a), Work, Unlock(a)], {})
  {
    var script := [Lock(a), Work, Unlock(a)];
    assert {} + {a} - {a} == {} && script[1..][1..][1..] == [];
    assert Bracketed(script[1..][1..], {} + {a});
    assert Bracketed(script[1..], {} + {a});
  }

  /** A step of any run crashes the process exactly if it unlocks a registered id whose mutex nobody has locked. */
  lemma {:induction false} CrashesExactlyOnFreeMutex(scripts: seq<seq<Op>>, schedule: seq<nat>, c: nat)
    requires Run(scripts, schedule).Some? && Enabled(Run(scripts, schedule).value, c)
    ensures Run(scripts, schedule + [c]).Some?
    ensures var s := Run(scripts, schedule).value;
            var id := IdOf(s.clients[c]);
            Run(scripts, schedule + [c]).value.crashed <==>
            s.clients[c].pc.Releasing? && id in s.locks && s.locks[id] < |s.mutexes| && !s.mutexes[s.locks[id]]
  {
    RegistryAlways(scripts, schedule);
    assert ClientShape(Run(scripts, schedule).value, Run(scripts, schedule).value.clients[c]);
    Extend(scripts, schedule, c);
  }

  /** Unlocking twice is such a run. */
  lemma {:induction false} SecondUnlockCrashes(a: string) returns (schedule: seq<nat>)
    ensures var r := Run([[Lock(a), Unlock(a), Unlock(a)]], schedule); r.Some? && r.value.crashed
  {
    hide Step;
    var scripts := [[Lock(a), Unlock(a), Unlock(a)]];
    var s0 := Init(scripts);
    assert Run(scripts, []) == Some(s0);
    RegistryAlways(scripts, []);
    TakeLock(scripts, [], 0);
    schedule := [] + [0, 0, 0, 0, 0];
    var s1 := Locked(s0, 0);
    assert s1.locks == map[a := 0] && s1.mutexes == [true];
    RegistryAlways(scripts, schedule);
    ReleaseLock(scripts, schedule, 0);
    schedule := schedule + [0, 0, 0];
    var s2 := Unlocked(s1, 0);
    assert s2.locks == map[a := 0] && s2.mutexes == [false];
    RegistryAlways(scripts, schedule);
    ReachUnlock(scripts, schedule, 0);
    schedule := schedule + [0];
    CrashesExactlyOnFreeMutex(scripts, schedule, 0);
    schedule := schedule + [0];
  }

  // ----- The imperative form

  /**
   While a client is between taking and releasing GLOBAL_MUTEX in GlobalMutexLock, its steps commute with those of
   the others: however they interleave, its look-up might as well happen in one go.
   */
  lemma {:induction false} LookUpCommutes(s: System, c: nat, d: nat)
    requires Registry(s) && Enabled(s, c) && Enabled(s, d) && c != d
    requires s.clients[c].pc.Registering? || s.clients[c].pc.LookingUp? || s.clients[c].pc.Found?
    ensures Enabled(Step(s, c), d) && Enabled(Step(s, d), c)
    ensures Step(Step(s, c), d) == Step(Step(s, d), c)
  {
    assert ClientShape(s, s.clients[c]) && ClientShape(s, s.clients[d]);
    assert InRegistry(s.clients[c]) && s.global == Some(c) && !InRegistry(s.clients[d]);
    var a, b := Step(s, c), Step(s, d);
    assert a.clients[d] == s.clients[d] && b.clients[c] == s.clients[c];
    assert Step(a, d).clients == Step(b, c).clients;
    assert Step(a, d).mutexes == Step(b, c).mutexes;
  }

  /** The process: the package-level mutex, map and mutexes, with the goroutines that use them. */
  class Process {
    var global: Option<nat>
    var locks: map<string, nat>
    var mutexes: seq<bool>
    var clients: seq<Client>
    var crashed: bool

    ghost function View(): System
      reads this
    {
      System(global, locks, mutexes, clients, crashed)
    }

    constructor (scripts: seq<seq<Op>>)
      ensures View() == Init(scripts)
    {
      global, locks, mutexes, crashed := None, map[], [], false;
      clients := seq(|scripts|, i requires 0 <= i < |scripts| => Client(scripts[i], Idle, {}));
    }

    /** The body of GlobalMutexLock.Execute up to the wait: find or create the mutex under GLOBAL_MUTEX. */
    method LookUp(c: nat) returns (lock: nat)
      requires AboutToLock(View(), c)
      modifies this
      ensures View() == AtLock(old(View()), c)
      ensures lock < |mutexes| && clients[c].pc == Waiting(lock)
    {
      var client := clients[c];
      var id := client.todo[0].id;
      global := Some(c);
      if id !in locks {
        locks := locks[id := |mutexes|];
        mutexes := mutexes + [false];
      }
      lock := locks[id];
      global := None;
      clients := clients[c := client.(pc := Waiting(lock))];
    }

    /** The whole body, when the mutex is free. */
    method ExecuteLock(c: nat)
      requires AboutToLock(View(), c)
      requires var id := IdOf(clients[c]); id in locks ==> !mutexes[locks[id]]
      modifies this
      ensures View() == Locked(old(View()), c)
    {
      ghost var s := View();
      var client := clients[c];
      var lock := LookUp(c);
      mutexes := mutexes[lock := true];
      clients := clients[c := Client(client.todo[1..], Idle, client.held + {client.todo[0].id})];
      assert View().clients == Locked(s, c).clients;
    }

    /** The body of GlobalMutexUnlock.Execute, all of it under GLOBAL_MUTEX. */
    method ExecuteUnlock(c: nat)
      requires AboutToUnlock(View(), c)
      modifies this
      ensures var s, id := old(View()), IdOf(old(clients)[c]);
              View() == if id in s.locks && !s.mutexes[s.locks[id]] then AtUnlock(s, c).(crashed := true)
                        else Unlocked(s, c)
    {
      var client := clients[c];
      var id := client.todo[0].id;
      global := Some(c);
      clients := clients[c := client.(pc := Releasing)];
      if id in locks {
        if !mutexes[locks[id]] {
          crashed := true;
          return;
        }
        mutexes := mutexes[locks[id] := false];
      }
      global := None;
      clients := clients[c := Client(client.todo[1..], Idle, client.held - {id})];
    }

    /** The next atomic step of GlobalMutexLock.Execute. */
    method LockStep(c: nat)
      requires Enabled(View(), c) && clients[c].todo[0].Lock?
      requires Registry(View())
      modifies this
      ensures View() == Step(old(View()), c)
    {
      var client := clients[c];
      var id := client.todo[0].id;
      assert ClientShape(View(), client);
      match client.pc {
        case Idle =>
          global := Some(c);
          clients := clients[c := client.(pc := Registering)];
        case Registering =>
          if id !in locks {
            locks := locks[id := |mutexes|];
            mutexes := mutexes + [false];
          }
          clients := clients[c := client.(pc := LookingUp)];
        case LookingUp =>
          clients := clients[c := client.(pc := Found(locks[id]))];
        case Found(m) =>
          global := None;
          clients := clients[c := client.(pc := Waiting(m))];
        case Waiting(m) =>
          mutexes := mutexes[m := true];
          clients := clients[c := Client(client.todo[1..], Idle, client.held + {id})];
      }
    }

    /** The next atomic step of GlobalMutexUnlock.Execute. */
    method UnlockStep(c: nat)
      requires Enabled(View(), c) && clients[c].todo[0].Unlock?
      requires Registry(View())
      modifies this
      ensures View() == Step(old(View()), c)
    {
      var client := clients[c];
      var id := client.todo[0].id;
      assert ClientShape(View(), client);
      match client.pc {
        case Idle =>
          global := Some(c);
          clients := clients[c := client.(pc := Releasing)];
        case Releasing =>
          if id in locks {
            if !mutexes[locks[id]] {
              crashed := true;
              return;
            }
            mutexes := mutexes[locks[id] := false];
          }
          clients := clients[c := client.(pc := Released, held := client.held - {id})];
        case Released =>
          global := None;
          clients := clients[c := Client(client.todo[1..], Idle, client.held)];
      }
    }
  }
}
