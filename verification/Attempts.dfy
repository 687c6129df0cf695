/** The history of requests a phase makes, and what its statistics ought to be. */
module Attempts {

  /**
   How one request ended: a transport error (because the context was cancelled, or for another reason), or a
   reply with its status, its duration and, for status 400, whether its body could be read.
   */
  datatype Attempt =
    | TransportError(cancelled: bool)
    | Reply(code: int, micros: nat, bodyRead: bool)

  /** A reply counts unless it is a 400 whose body could not be read. */
  predicate Counted(a: Attempt) {
    a.Reply? && (a.code == 400 ==> a.bodyRead)
  }

  predicate Transport(a: Attempt) {
    a.TransportError? && !a.cancelled
  }

  function Tally(log: seq<Attempt>, counts: Attempt -> bool): nat {
    if log == [] then 0 else Tally(log[..|log| - 1], counts) + if counts(log[|log| - 1]) then 1 else 0
  }

  function HasCode(k: int): Attempt -> bool { a => Counted(a) && a.code == k }

  function CodeIn(keys: set<int>): Attempt -> bool { a => Counted(a) && a.code in keys }

  predicate Failed(a: Attempt) {
    Transport(a) || (Counted(a) && a.code > 400)
  }

  /** Counted replies. */
  function Replies(log: seq<Attempt>): nat {
    if log == [] then 0 else Replies(log[..|log| - 1]) + if Counted(log[|log| - 1]) then 1 else 0
  }

  /** Counted replies with status k. */
  function WithCode(log: seq<Attempt>, k: int): nat { Tally(log, HasCode(k)) }

  function TransportErrors(log: seq<Attempt>): nat {
    if log == [] then 0 else TransportErrors(log[..|log| - 1]) + if Transport(log[|log| - 1]) then 1 else 0
  }

  /** Transport errors and counted replies with a status above 400. */
  function Failures(log: seq<Attempt>): nat {
    if log == [] then 0 else Failures(log[..|log| - 1]) + if Failed(log[|log| - 1]) then 1 else 0
  }

  function Micros(log: seq<Attempt>): nat {
    if log == [] then 0 else
      var a := log[|log| - 1];
      Micros(log[..|log| - 1]) + if Counted(a) then a.micros else 0
  }

  function Get(m: map<int, nat>, k: int): nat {
    if k in m then m[k] else 0
  }

  lemma {:induction false} TallyAppend(log: seq<Attempt>, a: Attempt, counts: Attempt -> bool)
    ensures Tally(log + [a], counts) == Tally(log, counts) + if counts(a) then 1 else 0
  {
    assert (log + [a])[..|log|] == log;
  }

  lemma {:induction false} TallyOne(a: Attempt, counts: Attempt -> bool)
    ensures Tally([a], counts) == if counts(a) then 1 else 0
  {
    assert [a][..0] == [];
  }

  lemma {:induction false} RepliesAppend(log: seq<Attempt>, a: Attempt)
    ensures Replies(log + [a]) == Replies(log) + if Counted(a) then 1 else 0
    ensures Failures(log + [a]) == Failures(log) + if Failed(a) then 1 else 0
  {
    assert (log + [a])[..|log|] == log;
  }

  lemma {:induction false} RepliesOne(a: Attempt)
    ensures Replies([a]) == if Counted(a) then 1 else 0
    ensures Failures([a]) == if Failed(a) then 1 else 0
  {
    assert [a][..0] == [];
  }

  lemma {:induction false} NoAttempts()
    ensures Replies([]) == Failures([]) == Micros([]) == 0
  {
  }

  lemma {:induction false} MicrosOne(a: Attempt)
    ensures Micros([a]) == if Counted(a) then a.micros else 0
  {
    assert [a][..0] == [];
  }

  lemma {:induction false} MicrosAppend(log: seq<Attempt>, a: Attempt)
    ensures Micros(log + [a]) == Micros(log) + if Counted(a) then a.micros else 0
  {
    assert (log + [a])[..|log|] == log;
  }

  // ----- The counts, as numbers of places in the history

  lemma {:induction false} RepliesArePlaces(log: seq<Attempt>)
    ensures Replies(log)
         == |set i | 0 <= i < |log| && log[i].Reply? && (log[i].code == 400 ==> log[i].bodyRead)|
  {
    var places := set i | 0 <= i < |log| && log[i].Reply? && (log[i].code == 400 ==> log[i].bodyRead);
    if log == [] {
      assert places == {};
    } else {
      var n := |log| - 1;
      var front := log[..n];
      RepliesArePlaces(front);
      var earlier := set i | 0 <= i < |front| && front[i].Reply? && (front[i].code == 400 ==> front[i].bodyRead);
      assert places == if Counted(log[n]) then earlier + {n} else earlier;
    }
  }

  lemma {:induction false} FailuresArePlaces(log: seq<Attempt>)
    ensures Failures(log)
         == |set i | 0 <= i < |log| && log[i] != TransportError(true) && (log[i].Reply? ==> log[i].code > 400)|
  {
    var places := set i | 0 <= i < |log| && log[i] != TransportError(true) && (log[i].Reply? ==> log[i].code > 400);
    if log == [] {
      assert places == {};
    } else {
      var n := |log| - 1;
      var front := log[..n];
      FailuresArePlaces(front);
      var earlier :=
        set i | 0 <= i < |front| && front[i] != TransportError(true) && (front[i].Reply? ==> front[i].code > 400);
      assert places == if Failed(log[n]) then earlier + {n} else earlier;
    }
  }

  lemma {:induction false} TransportErrorsArePlaces(log: seq<Attempt>)
    ensures TransportErrors(log) == |set i | 0 <= i < |log| && log[i] == TransportError(false)|
  {
    var places := set i | 0 <= i < |log| && log[i] == TransportError(false);
    if log == [] {
      assert places == {};
    } else {
      var n := |log| - 1;
      TransportErrorsArePlaces(log[..n]);
      var earlier := set i | 0 <= i < n && log[..n][i] == TransportError(false);
      assert places == if Transport(log[n]) then earlier + {n} else earlier;
    }
  }

  /** The places of the counted replies with status k. */
  ghost function PlacesOf(log: seq<Attempt>, k: int): set<int> {
    set i | 0 <= i < |log| && log[i].Reply? && log[i].code == k && (k == 400 ==> log[i].bodyRead)
  }

  lemma {:induction false} OnePlaceMore(log: seq<Attempt>, a: Attempt, k: int)
    ensures PlacesOf(log + [a], k) == PlacesOf(log, k) + if HasCode(k)(a) then {|log|} else {}
    ensures |log| !in PlacesOf(log, k)
  {
  }

  lemma {:induction false} CodesArePlaces(log: seq<Attempt>, k: int)
    ensures WithCode(log, k)
         == |set i | 0 <= i < |log| && log[i].Reply? && log[i].code == k && (k == 400 ==> log[i].bodyRead)|
    ensures WithCode(log, k) == |PlacesOf(log, k)|
  {
    if log == [] {
      assert PlacesOf(log, k) == {};
    } else {
      var front, a := log[..|log| - 1], log[|log| - 1];
      CodesArePlaces(front, k);
      assert log == front + [a];
      TallyAppend(front, a, HasCode(k));
      OnePlaceMore(front, a, k);
    }
    assert PlacesOf(log, k) ==
      set i | 0 <= i < |log| && log[i].Reply? && log[i].code == k && (k == 400 ==> log[i].bodyRead);
  }

  // ----- Sums over status code maps

  /** The sum of the map's values over a set of keys. */
  ghost function Total(m: map<int, nat>, keys: set<int>): nat
    decreases keys
  {
    if k :| k in keys then Get(m, k) + Total(m, keys - {k}) else 0
  }

  lemma {:induction false} SplitKey(log: seq<Attempt>, keys: set<int>, k: int)
    requires k in keys
    ensures Tally(log, CodeIn(keys)) == Tally(log, HasCode(k)) + Tally(log, CodeIn(keys - {k}))
  {
    if log == [] {
    } else {
      SplitKey(log[..|log| - 1], keys, k);
    }
  }

  lemma {:induction false} NoKeysLeft(log: seq<Attempt>, keys: set<int>)
    requires forall k :: k !in keys
    ensures Tally(log, CodeIn(keys)) == 0
  {
    if log == [] {
    } else {
      NoKeysLeft(log[..|log| - 1], keys);
    }
  }

  /** A map that counts the log's replies by status sums, over any keys, to the replies with those statuses. */
  lemma {:induction false} TotalCountsReplies(m: map<int, nat>, log: seq<Attempt>, keys: set<int>)
    requires forall k :: Get(m, k) == WithCode(log, k)
    ensures Total(m, keys) == Tally(log, CodeIn(keys))
    decreases keys
  {
    if k :| k in keys && Total(m, keys) == Get(m, k) + Total(m, keys - {k}) {
      TotalCountsReplies(m, log, keys - {k});
      SplitKey(log, keys, k);
    } else {
      assert forall k :: k !in keys;
      NoKeysLeft(log, keys);
    }
  }

  /** Keys that cover all replies count them all. */
  lemma {:induction false} RepliesTally(log: seq<Attempt>, keys: set<int>)
    requires forall i :: 0 <= i < |log| ==> Counted(log[i]) ==> log[i].code in keys
    ensures Tally(log, CodeIn(keys)) == Replies(log)
  {
    if log == [] {
    } else {
      RepliesTally(log[..|log| - 1], keys);
    }
  }

  lemma {:induction false} TallyPositive(log: seq<Attempt>, p: Attempt -> bool, i: nat)
    requires i < |log| && p(log[i])
    ensures Tally(log, p) > 0
  {
    if i == |log| - 1 {
    } else {
      TallyPositive(log[..|log| - 1], p, i);
    }
  }

  lemma {:induction false} FailuresSplit(log: seq<Attempt>, keys: set<int>)
    requires forall i :: 0 <= i < |log| ==> Counted(log[i]) ==> (log[i].code in keys <==> log[i].code > 400)
    ensures Failures(log) == TransportErrors(log) + Tally(log, CodeIn(keys))
  {
    if log == [] {
    } else {
      FailuresSplit(log[..|log| - 1], keys);
    }
  }

  ghost function Above400(m: map<int, nat>): set<int> {
    set k | k in m && k > 400
  }

  /** What follows for a map that is the log's histogram. */
  lemma {:induction false} HistogramSums(m: map<int, nat>, log: seq<Attempt>)
    requires forall k :: Get(m, k) == WithCode(log, k)
    ensures Total(m, m.Keys) == Replies(log)
    ensures TransportErrors(log) + Total(m, Above400(m)) == Failures(log)
    ensures Total(m, m.Keys) == Total(m, Above400(m)) + Total(m, m.Keys - Above400(m))
  {
    forall i | 0 <= i < |log| && Counted(log[i]) ensures log[i].code in m {
      var k := log[i].code;
      TallyPositive(log, HasCode(k), i);
      assert Get(m, k) == WithCode(log, k) > 0;
    }
    TotalCountsReplies(m, log, m.Keys);
    RepliesTally(log, m.Keys);
    TotalCountsReplies(m, log, Above400(m));
    FailuresSplit(log, Above400(m));
    TotalCountsReplies(m, log, m.Keys - Above400(m));
    SplitKeys(log, m.Keys, Above400(m));
  }

  lemma {:induction false} SplitKeys(log: seq<Attempt>, keys: set<int>, some: set<int>)
    requires some <= keys
    ensures Tally(log, CodeIn(keys)) == Tally(log, CodeIn(some)) + Tally(log, CodeIn(keys - some))
  {
    if log == [] {
    } else {
      SplitKeys(log[..|log| - 1], keys, some);
    }
  }
}
