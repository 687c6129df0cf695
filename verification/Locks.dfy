/**
 The named-lock registry as a concurrent program (pkg/actions/global_mutex_lock_action.go:14-42,
 pkg/actions/global_mutex_unlock_action.go:18-34). Clients run scripts of actions; every atomic step of the two
 Execute bodies is one step here, and a schedule says whose step comes next. Go's mutexes have no owner: `held`
 is the history of what a client has locked and not unlocked, which no step looks at.
 */
module Locks {
  import opened Options

  datatype Op = Lock(id: string) | Unlock(id: string) | Work

  datatype Pc =
    | Idle
    | Registering       // GlobalMutexLock: holds GLOBAL_MUTEX, about to insert a missing mutex
    | LookingUp         // holds GLOBAL_MUTEX, about to read the map
    | Found(m: nat)     // holds GLOBAL_MUTEX, about to release it
    | Waiting(m: nat)   // about to lock the mutex found
    | Releasing         // GlobalMutexUnlock: holds GLOBAL_MUTEX, about to unlock by id
    | Released          // about to release GLOBAL_MUTEX

  /** `todo` starts with the action being executed. */
  datatype Client = Client(todo: seq<Op>, pc: Pc, held: set<string>)

  /** `crashed` is Go's fatal error for unlocking an unlocked mutex, or a nil dereference. */
  datatype System = System(global: Option<nat>, locks: map<string, nat>, mutexes: seq<bool>,
                           clients: seq<Client>, crashed: bool)

  function Init(scripts: seq<seq<Op>>): System {
    System(None, map[], [], seq(|scripts|, i requires 0 <= i < |scripts| => Client(scripts[i], Idle, {})), false)
  }

  function IdOf(client: Client): string {
    if client.todo != [] && !client.todo[0].Work? then client.todo[0].id else ""
  }

  function Next(client: Client): Client {
    client.(todo := if client.todo == [] then [] else client.todo[1..], pc := Idle)
  }

  predicate Enabled(s: System, c: nat) {
    && c < |s.clients| && !s.crashed && s.clients[c].todo != []
    && match s.clients[c].pc
       case Idle => s.clients[c].todo[0].Work? || s.global.None?
       case Waiting(m) => m < |s.mutexes| && !s.mutexes[m]
       case _ => true
  }

  function With(s: System, c: nat, client: Client): System
    requires c < |s.clients|
  {
    s.(clients := s.clients[c := client])
  }

  function Step(s: System, c: nat): System
    requires Enabled(s, c)
  {
    var client := s.clients[c];
    var id := IdOf(client);
    match client.pc
    case Idle =>
      if client.todo[0].Work? then With(s, c, Next(client))
      else With(s, c, client.(pc := if client.todo[0].Lock? then Registering else Releasing)).(global := Some(c))
    case Registering =>
      var s' := With(s, c, client.(pc := LookingUp));
      if id in s.locks then s' else s'.(locks := s.locks[id := |s.mutexes|], mutexes := s.mutexes + [false])
    case LookingUp =>
      if id in s.locks then With(s, c, client.(pc := Found(s.locks[id]))) else s.(crashed := true)
    case Found(m) => With(s, c, client.(pc := Waiting(m))).(global := None)
    case Waiting(m) =>
      With(s, c, Next(client).(held := client.held + {id})).(mutexes := s.mutexes[m := true])
    case Releasing =>
      var s' := With(s, c, client.(pc := Released, held := client.held - {id}));
      if id !in s.locks then s'
      else if s.locks[id] < |s.mutexes| && s.mutexes[s.locks[id]] then s'.(mutexes := s.mutexes[s.locks[id] := false])
      else s.(crashed := true)
    case Released => With(s, c, Next(client)).(global := None)
  }

  function Run(scripts: seq<seq<Op>>, schedule: seq<nat>): Option<System> {
    if schedule == [] then Some(Init(scripts)) else
      match Run(scripts, schedule[..|schedule| - 1])
      case None => None
      case Some(s) =>
        var c := schedule[|schedule| - 1];
        if Enabled(s, c) then Some(Step(s, c)) else None
  }

  // ----- The registry, whatever the clients do

  predicate InRegistry(client: Client) {
    !client.pc.Idle? && !client.pc.Waiting?
  }

  predicate ClientShape(s: System, client: Client) {
    match client.pc
    case Idle => true
    case Registering => client.todo != [] && client.todo[0].Lock?
    case LookingUp => client.todo != [] && client.todo[0].Lock? && IdOf(client) in s.locks
    case Found(m) => client.todo != [] && client.todo[0].Lock? && IdOf(client) in s.locks && s.locks[IdOf(client)] == m
    case Waiting(m) => client.todo != [] && client.todo[0].Lock? && IdOf(client) in s.locks && s.locks[IdOf(client)] == m
    case Releasing => client.todo != [] && client.todo[0].Unlock?
    case Released => client.todo != [] && client.todo[0].Unlock?
  }

  ghost predicate Registry(s: System) {
    && (forall id :: id in s.locks ==> s.locks[id] < |s.mutexes|)
    && (forall id, jd :: id in s.locks && jd in s.locks && s.locks[id] == s.locks[jd] ==> id == jd)
    && (s.global.Some? ==> s.global.value < |s.clients|)
    && (forall c: nat :: c < |s.clients| ==> (InRegistry(s.clients[c]) <==> s.global == Some(c)))
    && (forall c: nat :: c < |s.clients| ==> ClientShape(s, s.clients[c]))
  }

  lemma {:induction false} StepKeepsRegistry(s: System, c: nat)
    requires Registry(s) && Enabled(s, c)
    ensures Registry(Step(s, c))
    ensures forall id :: id in s.locks ==> id in Step(s, c).locks && Step(s, c).locks[id] == s.locks[id]
  {
    var s' := Step(s, c);
    assert ClientShape(s, s.clients[c]) && (InRegistry(s.clients[c]) <==> s.global == Some(c));
    forall d: nat | d < |s'.clients|
      ensures (InRegistry(s'.clients[d]) <==> s'.global == Some(d)) && ClientShape(s', s'.clients[d])
    {
      assert (InRegistry(s.clients[d]) <==> s.global == Some(d)) && ClientShape(s, s.clients[d]);
    }
  }

  lemma {:induction false} RegistryAlways(scripts: seq<seq<Op>>, schedule: seq<nat>)
    requires Run(scripts, schedule).Some?
    ensures Registry(Run(scripts, schedule).value)
  {
    if schedule == [] {
    } else {
      var shorter := schedule[..|schedule| - 1];
      RegistryAlways(scripts, shorter);
      StepKeepsRegistry(Run(scripts, shorter).value, schedule[|schedule| - 1]);
    }
  }

  /** Once registered, an id keeps its mutex for the rest of the run. */
  lemma {:induction false} IdsKeepTheirMutex(scripts: seq<seq<Op>>, schedule: seq<nat>, n: nat, id: string)
    requires n <= |schedule| && Run(scripts, schedule).Some?
    ensures Run(scripts, schedule[..n]).Some?
    ensures var early, late := Run(scripts, schedule[..n]).value, Run(scripts, schedule).value;
            id in early.locks ==> id in late.locks && late.locks[id] == early.locks[id]
  {
    if n == |schedule| {
      assert schedule[..n] == schedule;
    } else {
      var shorter := schedule[..|schedule| - 1];
      RegistryAlways(scripts, shorter);
      StepKeepsRegistry(Run(scripts, shorter).value, schedule[|schedule| - 1]);
      IdsKeepTheirMutex(scripts, shorter, n, id);
      assert shorter[..n] == schedule[..n];
    }
  }

  /** The holder of GLOBAL_MUTEX always has an enabled step: it never blocks on a named lock. */
  lemma {:induction false} RegistryHolderCanStep(scripts: seq<seq<Op>>, schedule: seq<nat>)
    requires Run(scripts, schedule).Some?
    requires var s := Run(scripts, schedule).value; s.global.Some? && !s.crashed
    ensures Enabled(Run(scripts, schedule).value, Run(scripts, schedule).value.global.value)
  {
    var s := Run(scripts, schedule).value;
    RegistryAlways(scripts, schedule);
    var c := s.global.value;
    assert InRegistry(s.clients[c]) && ClientShape(s, s.clients[c]);
  }
}
