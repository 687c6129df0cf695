/** Convert, the rewriting of decoded YAML before it is encoded as JSON (pkg/utils.go:70-90). */
module Convert {
  import opened Options

  datatype Key = StringKey(text: string) | OtherKey(n: int)

  /** A decoded value. Maps are read only here; a slice is a reference to cells that Convert overwrites. */
  datatype Value =
    | Scalar(text: string)
    | StringMap(entries: map<string, Value>)
    | AnyMap(anyEntries: map<Key, Value>)
    | Slice(cells: array<Value>)

  /** The finite tree a value stands for in some state of its slices; a slice may occur in it any number of times. */
  datatype Tree =
    | Leaf(text: string)
    | StringNode(fields: map<string, Tree>)
    | AnyNode(anyFields: map<Key, Tree>)
    | SliceNode(cells: array<Value>, items: seq<Tree>)

  /** The slices a tree consists of. */
  ghost function Foot(t: Tree): set<array<Value>> {
    match t
    case Leaf(_) => {}
    case StringNode(fields) => set k, c | k in fields && c in Foot(fields[k]) :: c
    case AnyNode(fields) => set k, c | k in fields && c in Foot(fields[k]) :: c
    case SliceNode(cells, items) => {cells} + set i, c | 0 <= i < |items| && c in Foot(items[i]) :: c
  }

  /** What is in the cells of some slices. */
  type Contents = map<array<Value>, seq<Value>>

  ghost predicate Holds(h: Contents)
    reads h.Keys
  {
    forall c :: c in h ==> c[..] == h[c]
  }

  /** With these contents the value stands for the tree. */
  ghost predicate Stands(h: Contents, v: Value, t: Tree)
    decreases t
  {
    match t
    case Leaf(text) => v == Scalar(text)
    case StringNode(fields) =>
      v.StringMap? && v.entries.Keys == fields.Keys && forall k :: k in fields ==> Stands(h, v.entries[k], fields[k])
    case AnyNode(fields) =>
      v.AnyMap? && v.anyEntries.Keys == fields.Keys && forall k :: k in fields ==> Stands(h, v.anyEntries[k], fields[k])
    case SliceNode(cells, items) =>
      && v == Slice(cells) && cells in h && |h[cells]| == |items|
      && forall i :: 0 <= i < |items| ==> Stands(h, h[cells][i], items[i])
  }

  /** Every interface-keyed map has string keys only. */
  ghost predicate StringKeys(t: Tree) {
    match t
    case Leaf(_) => true
    case StringNode(fields) => forall k :: k in fields ==> StringKeys(fields[k])
    case AnyNode(fields) => forall k :: k in fields ==> k.StringKey? && StringKeys(fields[k])
    case SliceNode(_, items) => forall i :: 0 <= i < |items| ==> StringKeys(items[i])
  }

  /** The string keys, as strings. */
  function Texts(keys: set<Key>): (r: set<string>)
    ensures forall k :: k in r <==> StringKey(k) in keys
  {
    set key | key in keys && key.StringKey? :: key.text
  }

  /** The tree of the result. */
  ghost function Converted(t: Tree): Tree {
    match t
    case Leaf(_) => t
    case StringNode(fields) => StringNode(map k | k in fields :: Converted(fields[k]))
    case AnyNode(fields) => StringNode(map k | k in Texts(fields.Keys) :: Converted(fields[StringKey(k)]))
    case SliceNode(cells, items) =>
      SliceNode(cells, seq(|items|, i requires 0 <= i < |items| => Converted(items[i])))
  }

  /** What is left of the argument: its maps are untouched, but the slices below them hold converted elements. */
  ghost function Leftover(t: Tree): Tree {
    match t
    case Leaf(_) => t
    case StringNode(fields) => StringNode(map k | k in fields :: Leftover(fields[k]))
    case AnyNode(fields) => AnyNode(map k | k in fields :: Leftover(fields[k]))
    case SliceNode(_, _) => Converted(t)
  }

  // ----- What conversion does to trees

  /** No interface-keyed map anywhere. */
  ghost predicate Plain(t: Tree) {
    match t
    case Leaf(_) => true
    case StringNode(fields) => forall k :: k in fields ==> Plain(fields[k])
    case AnyNode(_) => false
    case SliceNode(_, items) => forall i :: 0 <= i < |items| ==> Plain(items[i])
  }

  lemma {:induction false} ConvertedIsPlain(t: Tree)
    ensures Plain(Converted(t))
  {
    match t
    case Leaf(_) =>
    case StringNode(fields) =>
      forall k | k in fields { ConvertedIsPlain(fields[k]); }
    case AnyNode(fields) =>
      forall k | k in fields { ConvertedIsPlain(fields[k]); }
    case SliceNode(_, items) =>
      forall i | 0 <= i < |items| { ConvertedIsPlain(items[i]); }
  }

  lemma {:induction false} PlainIsFixed(t: Tree)
    requires Plain(t)
    ensures Converted(t) == t
  {
    match t
    case Leaf(_) =>
    case StringNode(fields) =>
      forall k | k in fields { PlainIsFixed(fields[k]); }
      assert (map k | k in fields :: Converted(fields[k])) == fields;
    case SliceNode(cells, items) =>
      forall i | 0 <= i < |items| { PlainIsFixed(items[i]); }
      assert seq(|items|, i requires 0 <= i < |items| => Converted(items[i])) == items;
  }

  lemma {:induction false} ConversionIsIdempotent(t: Tree)
    ensures Converted(Converted(t)) == Converted(t)
  {
    ConvertedIsPlain(t);
    PlainIsFixed(Converted(t));
  }

  /** The edits that a first conversion leaves behind make no difference to a second one. */
  lemma {:induction false} LeftoverConvertsAlike(t: Tree)
    ensures Converted(Leftover(t)) == Converted(t)
  {
    match t
    case Leaf(_) =>
    case StringNode(fields) =>
      forall k | k in fields { LeftoverConvertsAlike(fields[k]); }
      assert Converted(Leftover(t)).fields == Converted(t).fields;
    case AnyNode(fields) =>
      forall k | k in fields { LeftoverConvertsAlike(fields[k]); }
      assert Texts(Leftover(t).anyFields.Keys) == Texts(fields.Keys);
      assert Converted(Leftover(t)).fields == Converted(t).fields;
    case SliceNode(_, _) =>
      ConversionIsIdempotent(t);
  }

  datatype Step = Field(name: string) | Index(i: nat)

  /** The subtree at a path; a field of an interface-keyed map is addressed by its string key. */
  ghost function At(t: Tree, path: seq<Step>): Option<Tree>
    decreases path
  {
    if path == [] then Some(t) else
      match path[0]
      case Field(k) =>
        if t.StringNode? && k in t.fields then At(t.fields[k], path[1..])
        else if t.AnyNode? && StringKey(k) in t.anyFields then At(t.anyFields[StringKey(k)], path[1..])
        else None
      case Index(i) =>
        if t.SliceNode? && i < |t.items| then At(t.items[i], path[1..]) else None
  }

  /** The same paths exist, and what is at a path is converted; in particular every scalar stays where it was. */
  lemma {:induction false} PathsArePreserved(t: Tree, path: seq<Step>)
    ensures match At(t, path)
            case None => At(Converted(t), path) == None
            case Some(u) => At(Converted(t), path) == Some(Converted(u))
    decreases path
  {
    if path == [] {
    } else {
      match path[0]
      case Field(k) =>
        if t.StringNode? && k in t.fields {
          PathsArePreserved(t.fields[k], path[1..]);
        } else if t.AnyNode? && StringKey(k) in t.anyFields {
          PathsArePreserved(t.anyFields[StringKey(k)], path[1..]);
        }
      case Index(i) =>
        if t.SliceNode? && i < |t.items| {
          PathsArePreserved(t.items[i], path[1..]);
        }
    }
  }

  /** All keys are strings exactly if no interface-keyed map at any path has another. */
  lemma {:induction false} StringKeysAlongPaths(t: Tree, path: seq<Step>)
    requires StringKeys(t) && At(t, path).Some? && At(t, path).value.AnyNode?
    ensures forall k :: k in At(t, path).value.anyFields ==> k.StringKey?
    decreases path
  {
    if path == [] {
    } else {
      match path[0]
      case Field(k) =>
        if t.StringNode? && k in t.fields {
          StringKeysAlongPaths(t.fields[k], path[1..]);
        } else {
          StringKeysAlongPaths(t.anyFields[StringKey(k)], path[1..]);
        }
      case Index(i) => StringKeysAlongPaths(t.items[i], path[1..]);
    }
  }

  lemma {:induction false} OtherKeyHasPath(t: Tree) returns (path: seq<Step>, key: Key)
    requires !StringKeys(t)
    ensures At(t, path).Some? && At(t, path).value.AnyNode?
    ensures key in At(t, path).value.anyFields && !key.StringKey?
  {
    match t
    case StringNode(fields) =>
      var k :| k in fields && !StringKeys(fields[k]);
      var rest;
      rest, key := OtherKeyHasPath(fields[k]);
      path := [Field(k)] + rest;
    case AnyNode(fields) =>
      if k :| k in fields && !k.StringKey? {
        path, key := [], k;
      } else {
        var k :| k in fields && !StringKeys(fields[k]);
        var rest;
        rest, key := OtherKeyHasPath(fields[k]);
        path := [Field(k.text)] + rest;
      }
    case SliceNode(_, items) =>
      var i: nat :| i < |items| && !StringKeys(items[i]);
      var rest;
      rest, key := OtherKeyHasPath(items[i]);
      path := [Index(i)] + rest;
  }

  // ----- What conversion does to values, which refer to slices without containing them

  ghost function ConvertedValue(v: Value): Value {
    match v
    case StringMap(entries) => StringMap(map k | k in entries :: ConvertedValue(entries[k]))
    case AnyMap(entries) => StringMap(map k | k in Texts(entries.Keys) :: ConvertedValue(entries[StringKey(k)]))
    case _ => v
  }

  /** The slices a value refers to directly. */
  ghost function Slices(v: Value): set<array<Value>> {
    match v
    case Scalar(_) => {}
    case StringMap(entries) => set k, c | k in entries && c in Slices(entries[k]) :: c
    case AnyMap(entries) => set k, c | k in entries && c in Slices(entries[k]) :: c
    case Slice(cells) => {cells}
  }

  /** No key that is not a string, slices aside. */
  ghost predicate Clean(v: Value) {
    match v
    case StringMap(entries) => forall k :: k in entries ==> Clean(entries[k])
    case AnyMap(entries) => forall k :: k in entries ==> k.StringKey? && Clean(entries[k])
    case _ => true
  }

  lemma {:induction false} ConvertedValueFacts(v: Value)
    ensures Clean(ConvertedValue(v))
    ensures ConvertedValue(ConvertedValue(v)) == ConvertedValue(v)
    ensures Slices(ConvertedValue(v)) <= Slices(v)
  {
    match v
    case StringMap(entries) =>
      forall k | k in entries { ConvertedValueFacts(entries[k]); }
      assert ConvertedValue(ConvertedValue(v)).entries == ConvertedValue(v).entries;
    case AnyMap(entries) =>
      forall k | k in entries { ConvertedValueFacts(entries[k]); }
      assert ConvertedValue(ConvertedValue(v)).entries == ConvertedValue(v).entries;
    case _ =>
  }

  ghost function ConvertedCells(s: seq<Value>): (r: seq<Value>)
    ensures |r| == |s| && forall i :: 0 <= i < |s| ==> r[i] == ConvertedValue(s[i])
  {
    seq(|s|, i requires 0 <= i < |s| => ConvertedValue(s[i]))
  }

  /** The contents after the slices in `some` have been converted. */
  ghost function After(h: Contents, some: set<array<Value>>): Contents {
    map c | c in h :: if c in some then ConvertedCells(h[c]) else h[c]
  }

  /** Converting a slice again changes nothing. */
  lemma {:induction false} AfterBoth(h: Contents, some: set<array<Value>>, more: set<array<Value>>)
    ensures After(After(h, some), more) == After(h, some + more)
  {
    forall c | c in h ensures After(After(h, some), more)[c] == After(h, some + more)[c] {
      forall i | 0 <= i < |h[c]| { ConvertedValueFacts(h[c][i]); }
      assert ConvertedCells(ConvertedCells(h[c])) == ConvertedCells(h[c]);
    }
  }

  /** After the conversion of all slices of a tree, its value stands for what is left of it, the result for the converted tree. */
  lemma {:induction false} StandsAfter(h: Contents, v: Value, t: Tree, some: set<array<Value>>)
    requires Stands(h, v, t) && Foot(t) <= some
    ensures Stands(After(h, some), ConvertedValue(v), Converted(t))
    ensures Stands(After(h, some), v, Leftover(t))
    decreases t
  {
    match t
    case Leaf(_) =>
    case StringNode(fields) =>
      forall k | k in fields { StandsAfter(h, v.entries[k], fields[k], some); }
    case AnyNode(fields) =>
      forall k | k in fields { StandsAfter(h, v.anyEntries[k], fields[k], some); }
    case SliceNode(cells, items) =>
      forall i | 0 <= i < |items| { StandsAfter(h, h[cells][i], items[i], some); }
  }

  // ----- The slices a value reaches

  /** Whatever the slices in `some` refer to is in `some`. */
  ghost predicate Closed(h: Contents, some: set<array<Value>>) {
    some <= h.Keys && forall c, i :: c in some && 0 <= i < |h[c]| ==> Slices(h[c][i]) <= some
  }

  ghost predicate CleanCells(h: Contents, some: set<array<Value>>)
    requires some <= h.Keys
  {
    forall c, i :: c in some && 0 <= i < |h[c]| ==> Clean(h[c][i])
  }

  lemma {:induction false} FootHolds(h: Contents, v: Value, t: Tree)
    requires Stands(h, v, t)
    ensures Foot(t) <= h.Keys && Slices(v) <= Foot(t)
    decreases t
  {
    match t
    case Leaf(_) =>
    case StringNode(fields) =>
      forall k | k in fields { FootHolds(h, v.entries[k], fields[k]); }
    case AnyNode(fields) =>
      forall k | k in fields { FootHolds(h, v.anyEntries[k], fields[k]); }
    case SliceNode(cells, items) =>
      forall i | 0 <= i < |items| { FootHolds(h, h[cells][i], items[i]); }
  }

  /** A closed set of slices that has those of the value has all those of its tree. */
  lemma {:induction false} FootIsReached(h: Contents, v: Value, t: Tree, some: set<array<Value>>)
    requires Stands(h, v, t) && Closed(h, some) && Slices(v) <= some
    ensures Foot(t) <= some
    decreases t
  {
    match t
    case Leaf(_) =>
    case StringNode(fields) =>
      forall k | k in fields { FootIsReached(h, v.entries[k], fields[k], some); }
    case AnyNode(fields) =>
      forall k | k in fields { FootIsReached(h, v.anyEntries[k], fields[k], some); }
    case SliceNode(cells, items) =>
      forall i | 0 <= i < |items| { FootIsReached(h, h[cells][i], items[i], some); }
  }

  /** The tree is free of other keys if and only if the value and all its slices are. */
  lemma {:induction false} KeysAreSeen(h: Contents, v: Value, t: Tree)
    requires Stands(h, v, t) && Foot(t) <= h.Keys
    ensures StringKeys(t) <==> Clean(v) && CleanCells(h, Foot(t))
    decreases t
  {
    match t
    case Leaf(_) =>
    case StringNode(fields) =>
      forall k | k in fields { KeysAreSeen(h, v.entries[k], fields[k]); }
    case AnyNode(fields) =>
      forall k | k in fields { KeysAreSeen(h, v.anyEntries[k], fields[k]); }
    case SliceNode(cells, items) =>
      forall i | 0 <= i < |items| { KeysAreSeen(h, h[cells][i], items[i]); }
  }

  /** A value stands for one tree at most. */
  lemma {:induction false} TreeIsUnique(h: Contents, v: Value, t: Tree, u: Tree)
    requires Stands(h, v, t) && Stands(h, v, u)
    ensures t == u
    decreases t
  {
    match t
    case Leaf(_) =>
    case StringNode(fields) =>
      forall k | k in fields { TreeIsUnique(h, v.entries[k], fields[k], u.fields[k]); }
      assert fields == u.fields;
    case AnyNode(fields) =>
      forall k | k in fields { TreeIsUnique(h, v.anyEntries[k], fields[k], u.anyFields[k]); }
      assert fields == u.anyFields;
    case SliceNode(cells, items) =>
      forall i | 0 <= i < |items| { TreeIsUnique(h, h[cells][i], items[i], u.items[i]); }
      assert items == u.items;
  }

  /** The node of a slice in the tree, wherever it is found. */
  ghost function NodeOf(t: Tree, c: array<Value>): (u: Tree)
    requires c in Foot(t)
    ensures u.SliceNode? && u.cells == c && (t == u || (t decreases to u))
  {
    match t
    case StringNode(fields) => var k :| k in fields && c in Foot(fields[k]); NodeOf(fields[k], c)
    case AnyNode(fields) => var k :| k in fields && c in Foot(fields[k]); NodeOf(fields[k], c)
    case SliceNode(cells, items) =>
      if c == cells then t else var i :| 0 <= i < |items| && c in Foot(items[i]); NodeOf(items[i], c)
  }

  lemma {:induction false} NodeStands(h: Contents, v: Value, t: Tree, c: array<Value>)
    requires Stands(h, v, t) && c in Foot(t)
    ensures Stands(h, Slice(c), NodeOf(t, c))
    decreases t
  {
    match t
    case StringNode(fields) =>
      forall k | k in fields && c in Foot(fields[k]) { NodeStands(h, v.entries[k], fields[k], c); }
    case AnyNode(fields) =>
      forall k | k in fields && c in Foot(fields[k]) { NodeStands(h, v.anyEntries[k], fields[k], c); }
    case SliceNode(cells, items) =>
      forall i | 0 <= i < |items| && c in Foot(items[i]) { NodeStands(h, h[cells][i], items[i], c); }
  }

  /** An order on slices in which every slice comes after those in its cells. */
  type Rank = map<array<Value>, Tree>

  ghost predicate Lower(rank: Rank, some: set<array<Value>>, bound: Tree) {
    forall d :: d in some ==> d in rank && (bound decreases to rank[d])
  }

  ghost predicate BelowSlice(rank: Rank, c: array<Value>, v: Value, all: set<array<Value>>) {
    c in rank && Lower(rank, Slices(v), rank[c]) && Slices(v) <= all
  }

  ghost predicate Ranked(h: Contents, rank: Rank) {
    forall c, i :: c in h && 0 <= i < |h[c]| ==> BelowSlice(rank, c, h[c][i], h.Keys)
  }

  ghost function NodesOf(t: Tree): Rank {
    map c | c in Foot(t) :: NodeOf(t, c)
  }

  lemma {:induction false} NodesAreRanked(h: Contents, v: Value, t: Tree)
    requires Stands(h, v, t) && h.Keys == Foot(t)
    ensures Ranked(h, NodesOf(t))
  {
    forall c, i | c in h && 0 <= i < |h[c]|
      ensures BelowSlice(NodesOf(t), c, h[c][i], h.Keys)
    {
      NodeStands(h, v, t, c);
      var item := NodeOf(t, c).items[i];
      FootHolds(h, h[c][i], item);
      forall d | d in Slices(h[c][i]) ensures d in Foot(t) && (NodeOf(t, c) decreases to NodeOf(t, d)) {
        NodeStands(h, h[c][i], item, d);
        NodeStands(h, v, t, d);
        TreeIsUnique(h, Slice(d), NodeOf(item, d), NodeOf(t, d));
      }
    }
  }

  // ----- The rewriting itself

  /** A set of converted slices that accounts for the value and for itself, and lies below the bound. */
  ghost predicate Settled(h: Contents, rank: Rank, bound: Tree, v: Value, some: set<array<Value>>) {
    Closed(h, some) && CleanCells(h, some) && Lower(rank, some, bound) && Slices(v) <= some && Clean(v)
  }

  /** Conversion keeps the order on slices, and adds no keys. */
  lemma {:induction false} AfterKeeps(h: Contents, rank: Rank, some: set<array<Value>>)
    requires Ranked(h, rank)
    ensures Ranked(After(h, some), rank)
    ensures CleanCells(h, h.Keys) ==> CleanCells(After(h, some), h.Keys)
  {
    var h' := After(h, some);
    forall c, i | c in h' && 0 <= i < |h'[c]|
      ensures BelowSlice(rank, c, h'[c][i], h'.Keys) && (Clean(h[c][i]) ==> Clean(h'[c][i]))
    {
      assert BelowSlice(rank, c, h[c][i], h.Keys);
      ConvertedValueFacts(h[c][i]);
    }
  }

  /** What a conversion settles afterwards, it settles together with what was converted before. */
  lemma {:induction false} SettledBoth(h: Contents, rank: Rank, bound: Tree, v: Value,
                                       some: set<array<Value>>, more: set<array<Value>>)
    requires Closed(h, some) && CleanCells(h, some) && Lower(rank, some, bound)
    requires Settled(After(h, some), rank, bound, v, more)
    ensures Settled(h, rank, bound, v, some + more)
    ensures After(After(h, some), more) == After(h, some + more)
  {
    AfterBoth(h, some, more);
    forall c, i | c in some + more && 0 <= i < |h[c]| ensures Slices(h[c][i]) <= some + more && Clean(h[c][i]) {
      if c !in some {
        assert After(h, some)[c] == h[c];
      }
    }
  }

  /** The entries that are not in `todo` have been converted, and some slices with them. */
  ghost predicate Partly<K(!new)>(h: Contents, rank: Rank, bound: Tree, entries: map<K, Value>,
                                  results: map<K, Value>, todo: set<K>, some: set<array<Value>>) {
    && todo <= entries.Keys && results.Keys == entries.Keys - todo
    && Closed(h, some) && CleanCells(h, some) && Lower(rank, some, bound)
    && forall k :: k in results ==>
         results[k] == ConvertedValue(entries[k]) && Clean(entries[k]) && Slices(entries[k]) <= some
  }

  lemma {:induction false} OneEntryMore<K(!new)>(h: Contents, rank: Rank, bound: Tree, entries: map<K, Value>,
                                                 results: map<K, Value>, todo: set<K>, some: set<array<Value>>,
                                                 k: K, more: set<array<Value>>)
    requires Partly(h, rank, bound, entries, results, todo, some) && k in todo
    requires Settled(After(h, some), rank, bound, entries[k], more)
    ensures Partly(h, rank, bound, entries, results[k := ConvertedValue(entries[k])], todo - {k}, some + more)
    ensures After(After(h, some), more) == After(h, some + more)
  {
    SettledBoth(h, rank, bound, entries[k], some, more);
    var results' := results[k := ConvertedValue(entries[k])];
    forall l | l in results'
      ensures results'[l] == ConvertedValue(entries[l]) && Clean(entries[l]) && Slices(entries[l]) <= some + more
    {
      assert l != k ==> l in results;
    }
  }

  method ConvertValue(v: Value, ghost h: Contents, ghost rank: Rank, ghost bound: Tree)
    returns (panicked: bool, r: Value, ghost some: set<array<Value>>)
    requires Holds(h) && Ranked(h, rank) && Slices(v) <= h.Keys && Lower(rank, Slices(v), bound)
    modifies h.Keys
    ensures panicked ==> !(Clean(v) && CleanCells(h, h.Keys))
    ensures !panicked ==> r == ConvertedValue(v) && Settled(h, rank, bound, v, some) && Holds(After(h, some))
    decreases bound, v, 1
  {
    panicked, r, some := false, v, {};
    match v {
      case Scalar(_) =>
        assert After(h, {}) == h;
      case StringMap(entries) =>
        panicked, r, some := ConvertStringMap(entries, h, rank, bound);
      case AnyMap(entries) =>
        panicked, r, some := ConvertAnyMap(entries, h, rank, bound);
      case Slice(cells) =>
        panicked, some := ConvertSlice(cells, h, rank, bound);
    }
  }

  method ConvertStringMap(entries: map<string, Value>, ghost h: Contents, ghost rank: Rank, ghost bound: Tree)
    returns (panicked: bool, r: Value, ghost some: set<array<Value>>)
    requires Holds(h) && Ranked(h, rank)
    requires Slices(StringMap(entries)) <= h.Keys && Lower(rank, Slices(StringMap(entries)), bound)
    modifies h.Keys
    ensures panicked ==> !(Clean(StringMap(entries)) && CleanCells(h, h.Keys))
    ensures !panicked ==> r == ConvertedValue(StringMap(entries))
    ensures !panicked ==> Settled(h, rank, bound, StringMap(entries), some) && Holds(After(h, some))
    decreases bound, StringMap(entries), 0
  {
    var m2: map<string, Value> := map[];
    var todo := entries.Keys;
    some := {};
    assert After(h, {}) == h;
    while true
      invariant Partly(h, rank, bound, entries, m2, todo, some) && Holds(After(h, some))
      decreases todo
    {
      if k :| k in todo {
        AfterKeeps(h, rank, some);
        ghost var more;
        var value;
        panicked, value, more := ConvertValue(entries[k], After(h, some), rank, bound);
        if panicked {
          return true, StringMap(m2), some;
        }
        OneEntryMore(h, rank, bound, entries, m2, todo, some, k, more);
        m2, todo, some := m2[k := value], todo - {k}, some + more;
      } else {
        break;
      }
    }
    assert todo == {};
    return false, StringMap(m2), some;
  }

  /** `m2` is `results` with its keys, all strings, taken out of their interfaces. */
  ghost predicate Renamed(results: map<Key, Value>, m2: map<string, Value>) {
    && m2.Keys == Texts(results.Keys)
    && forall key :: key in results ==> key.StringKey? && m2[key.text] == results[key]
  }

  lemma {:induction false} OneMoreRenamed(results: map<Key, Value>, m2: map<string, Value>, key: Key, value: Value)
    requires Renamed(results, m2) && key.StringKey?
    ensures Renamed(results[key := value], m2[key.text := value])
  {
  }

  lemma {:induction false} AllRenamed(entries: map<Key, Value>, results: map<Key, Value>, m2: map<string, Value>)
    requires results.Keys == entries.Keys && forall k :: k in results ==> results[k] == ConvertedValue(entries[k])
    requires Renamed(results, m2)
    ensures StringMap(m2) == ConvertedValue(AnyMap(entries))
  {
    forall k | k in m2 ensures StringKey(k) in entries && m2[k] == ConvertedValue(entries[StringKey(k)]) {
      assert StringKey(k) in results;
    }
    assert m2 == ConvertedValue(AnyMap(entries)).entries;
  }

  lemma {:induction false} AllEntriesSettled(h: Contents, rank: Rank, bound: Tree, entries: map<Key, Value>,
                                             results: map<Key, Value>, m2: map<string, Value>,
                                             some: set<array<Value>>)
    requires Partly(h, rank, bound, entries, results, {}, some) && Renamed(results, m2)
    ensures Settled(h, rank, bound, AnyMap(entries), some)
  {
    forall k | k in entries ensures k.StringKey? && Clean(entries[k]) && Slices(entries[k]) <= some {
      assert k in results;
    }
  }

  method ConvertAnyMap(entries: map<Key, Value>, ghost h: Contents, ghost rank: Rank, ghost bound: Tree)
    returns (panicked: bool, r: Value, ghost some: set<array<Value>>)
    requires Holds(h) && Ranked(h, rank)
    requires Slices(AnyMap(entries)) <= h.Keys && Lower(rank, Slices(AnyMap(entries)), bound)
    modifies h.Keys
    ensures panicked ==> !(Clean(AnyMap(entries)) && CleanCells(h, h.Keys))
    ensures !panicked ==> r == ConvertedValue(AnyMap(entries))
    ensures !panicked ==> Settled(h, rank, bound, AnyMap(entries), some) && Holds(After(h, some))
    decreases bound, AnyMap(entries), 0
  {
    var m2: map<string, Value> := map[];
    ghost var results: map<Key, Value> := map[];
    var todo := entries.Keys;
    some := {};
    assert After(h, {}) == h;
    while true
      invariant Partly(h, rank, bound, entries, results, todo, some) && Holds(After(h, some))
      invariant Renamed(results, m2)
      decreases todo
    {
      if key :| key in todo {
        if !key.StringKey? {
          return true, StringMap(m2), some;
        }
        AfterKeeps(h, rank, some);
        ghost var more;
        var value;
        panicked, value, more := ConvertValue(entries[key], After(h, some), rank, bound);
        if panicked {
          return true, StringMap(m2), some;
        }
        OneEntryMore(h, rank, bound, entries, results, todo, some, key, more);
        OneMoreRenamed(results, m2, key, value);
        m2, results := m2[key.text := value], results[key := value];
        todo, some := todo - {key}, some + more;
      } else {
        break;
      }
    }
    assert todo == {};
    AllRenamed(entries, results, m2);
    AllEntriesSettled(h, rank, bound, entries, results, m2, some);
    return false, StringMap(m2), some;
  }

  method ConvertSlice(cells: array<Value>, ghost h: Contents, ghost rank: Rank, ghost bound: Tree)
    returns (panicked: bool, ghost some: set<array<Value>>)
    requires Holds(h) && Ranked(h, rank) && cells in h && Lower(rank, {cells}, bound)
    modifies h.Keys
    ensures panicked ==> !CleanCells(h, h.Keys)
    ensures !panicked ==> Settled(h, rank, bound, Slice(cells), some) && Holds(After(h, some))
    decreases bound, Slice(cells), 0
  {
    var i := 0;
    some := {};
    NothingConverted(h, cells);
    while i < cells.Length
      invariant 0 <= i <= cells.Length == |h[cells]|
      invariant PartlySlice(h, rank, cells, i, some) && Holds(Edited(h, some, cells, i))
    {
      panicked, some := ConvertItem(cells, i, h, rank, some);
      if panicked {
        return;
      }
      i := i + 1;
    }
    AllItems(h, rank, bound, cells, some);
    return false, some + {cells};
  }

  /** The contents while the first i cells of a slice are done, and all of the slices in `some`. */
  ghost function Edited(h: Contents, some: set<array<Value>>, cells: array<Value>, i: nat): Contents
    requires cells in h && i <= |h[cells]|
  {
    After(h, some)[cells := ConvertedCells(h[cells][..i]) + h[cells][i..]]
  }

  ghost predicate PartlySlice(h: Contents, rank: Rank, cells: array<Value>, i: nat, some: set<array<Value>>)
    requires cells in h && cells in rank && i <= |h[cells]|
  {
    && Closed(h, some) && CleanCells(h, some) && Lower(rank, some, rank[cells]) && cells !in some
    && forall j :: 0 <= j < i ==> Clean(h[cells][j]) && Slices(h[cells][j]) <= some
  }

  lemma {:induction false} NothingConverted(h: Contents, cells: array<Value>)
    requires cells in h
    ensures Edited(h, {}, cells, 0) == h
  {
    assert ConvertedCells(h[cells][..0]) + h[cells][0..] == h[cells];
  }

  method ConvertItem(cells: array<Value>, i: nat, ghost h: Contents, ghost rank: Rank, ghost some: set<array<Value>>)
    returns (panicked: bool, ghost all: set<array<Value>>)
    requires Ranked(h, rank) && cells in h && cells in rank && i < |h[cells]| == cells.Length
    requires PartlySlice(h, rank, cells, i, some) && Holds(Edited(h, some, cells, i))
    modifies h.Keys
    ensures panicked ==> !CleanCells(h, h.Keys)
    ensures !panicked ==> PartlySlice(h, rank, cells, i + 1, all) && Holds(Edited(h, all, cells, i + 1))
    decreases rank[cells], h[cells][i], 2
  {
    ghost var v, h1 := h[cells][i], Edited(h, some, cells, i);
    assert BelowSlice(rank, cells, v, h.Keys) && h1[cells][i] == v;
    EditedKeeps(h, rank, cells, i, some);
    var value;
    ghost var more;
    panicked, value, more := ConvertValue(cells[i], h1, rank, rank[cells]);
    all := some + more;
    if !panicked {
      ItemSettled(h, rank, cells, i, some, more);
      cells[i] := value;
      EditedNext(h, some, more, cells, i);
    }
  }

  lemma {:induction false} EditedKeeps(h: Contents, rank: Rank, cells: array<Value>, i: nat, some: set<array<Value>>)
    requires Ranked(h, rank) && cells in h && i <= |h[cells]|
    ensures Ranked(Edited(h, some, cells, i), rank) && Edited(h, some, cells, i).Keys == h.Keys
    ensures CleanCells(h, h.Keys) ==> CleanCells(Edited(h, some, cells, i), h.Keys)
  {
    AfterKeeps(h, rank, some);
    var h1 := Edited(h, some, cells, i);
    forall j | 0 <= j < |h1[cells]|
      ensures BelowSlice(rank, cells, h1[cells][j], h1.Keys) && (Clean(h[cells][j]) ==> Clean(h1[cells][j]))
    {
      assert BelowSlice(rank, cells, h[cells][j], h.Keys);
      ConvertedValueFacts(h[cells][j]);
    }
  }

  lemma {:induction false} ItemSettled(h: Contents, rank: Rank, cells: array<Value>, i: nat,
                                       some: set<array<Value>>, more: set<array<Value>>)
    requires cells in h && cells in rank && i < |h[cells]| && PartlySlice(h, rank, cells, i, some)
    requires Settled(Edited(h, some, cells, i), rank, rank[cells], h[cells][i], more)
    ensures PartlySlice(h, rank, cells, i + 1, some + more)
  {
    forall c, j | c in some + more && 0 <= j < |h[c]| ensures Slices(h[c][j]) <= some + more && Clean(h[c][j]) {
      if c !in some {
        assert Edited(h, some, cells, i)[c] == h[c];
      }
    }
  }

  lemma {:induction false} EditedNext(h: Contents, some: set<array<Value>>, more: set<array<Value>>,
                                      cells: array<Value>, i: nat)
    requires cells in h && i < |h[cells]| && cells !in more
    ensures var h2 := After(Edited(h, some, cells, i), more);
            h2[cells := h2[cells][i := ConvertedValue(h[cells][i])]] == Edited(h, some + more, cells, i + 1)
  {
    var h2, h3 := After(Edited(h, some, cells, i), more), Edited(h, some + more, cells, i + 1);
    OneCellMore(h[cells], i);
    forall c | c in h && c != cells ensures h2[c] == h3[c] {
      AfterBoth(h, some, more);
      assert After(After(h, some), more)[c] == h2[c];
    }
  }

  lemma {:induction false} OneCellMore(s: seq<Value>, i: nat)
    requires i < |s|
    ensures (ConvertedCells(s[..i]) + s[i..])[i := ConvertedValue(s[i])] == ConvertedCells(s[..i + 1]) + s[i + 1..]
  {
  }

  lemma {:induction false} AllItems(h: Contents, rank: Rank, bound: Tree, cells: array<Value>, some: set<array<Value>>)
    requires Ranked(h, rank) && cells in h && cells in rank && Lower(rank, {cells}, bound)
    requires PartlySlice(h, rank, cells, |h[cells]|, some)
    ensures Settled(h, rank, bound, Slice(cells), some + {cells})
    ensures Edited(h, some, cells, |h[cells]|) == After(h, some + {cells})
  {
    assert Edited(h, some, cells, |h[cells]|)[cells] == ConvertedCells(h[cells]);
  }

  // ----- On the trees that values stand for

  function Only(h: Contents, some: set<array<Value>>): Contents {
    map c | c in h && c in some :: h[c]
  }

  lemma {:induction false} StandsOnFoot(h: Contents, v: Value, t: Tree, some: set<array<Value>>)
    requires Stands(h, v, t) && Foot(t) <= some
    ensures Stands(Only(h, some), v, t)
    decreases t
  {
    match t
    case Leaf(_) =>
    case StringNode(fields) =>
      forall k | k in fields { StandsOnFoot(h, v.entries[k], fields[k], some); }
    case AnyNode(fields) =>
      forall k | k in fields { StandsOnFoot(h, v.anyEntries[k], fields[k], some); }
    case SliceNode(cells, items) =>
      forall i | 0 <= i < |items| { StandsOnFoot(h, h[cells][i], items[i], some); }
  }

  /**
   Convert, in place on slices. It panics exactly if some interface-keyed map has a key that is not a string.
   Otherwise the slices of the tree have been converted and no others, the result stands for the converted tree and
   the argument for what is left of it. A slice may be shared between any parts of the argument.
   */
  method Convert(v: Value, ghost h: Contents, ghost t: Tree) returns (panicked: bool, r: Value)
    requires Holds(h) && Stands(h, v, t)
    modifies Foot(t)
    ensures panicked <==> !StringKeys(t)
    ensures !panicked ==> Holds(After(h, Foot(t)))
    ensures !panicked ==> Stands(After(h, Foot(t)), r, Converted(t)) && Stands(After(h, Foot(t)), v, Leftover(t))
  {
    ghost var local, rank, bound := Only(h, Foot(t)), NodesOf(t), StringNode(map["" := t]);
    ReadyToConvert(h, v, t);
    ghost var some;
    panicked, r, some := ConvertValue(v, local, rank, bound);
    if !panicked {
      FootConverted(h, v, t, some);
      StandsAfter(h, v, t, Foot(t));
      forall c | c in h ensures c[..] == After(h, Foot(t))[c] {
        assert c in Foot(t) ==> c in After(local, some);
      }
    }
  }

  /** The slices of the tree, ordered by their nodes, are all that a conversion needs to know. */
  lemma {:induction false} ReadyToConvert(h: Contents, v: Value, t: Tree)
    requires Stands(h, v, t)
    ensures var local := Only(h, Foot(t));
            && Foot(t) <= h.Keys && local.Keys == Foot(t) && Ranked(local, NodesOf(t)) && Slices(v) <= Foot(t)
            && Lower(NodesOf(t), Slices(v), StringNode(map["" := t]))
            && (StringKeys(t) <==> Clean(v) && CleanCells(local, Foot(t)))
  {
    var local := Only(h, Foot(t));
    FootHolds(h, v, t);
    StandsOnFoot(h, v, t, Foot(t));
    assert local.Keys == Foot(t);
    NodesAreRanked(local, v, t);
    KeysAreSeen(local, v, t);
    assert StringNode(map["" := t]).fields[""] == t;
  }

  /** What was converted is exactly the slices of the tree. */
  lemma {:induction false} FootConverted(h: Contents, v: Value, t: Tree, some: set<array<Value>>)
    requires Stands(h, v, t)
    requires Settled(Only(h, Foot(t)), NodesOf(t), StringNode(map["" := t]), v, some)
    ensures some == Foot(t) && StringKeys(t)
  {
    ReadyToConvert(h, v, t);
    StandsOnFoot(h, v, t, Foot(t));
    FootIsReached(Only(h, Foot(t)), v, t, some);
  }

  /** Parsing the same settings twice: the edits of the first conversion make no difference to the second. */
  method ConvertTwice(data: map<string, Value>, ghost h: Contents, ghost t: Tree)
    returns (panicked: bool, first: Value, second: Value)
    requires Holds(h) && Stands(h, StringMap(data), t)
    modifies Foot(t)
    ensures panicked <==> !StringKeys(t)
    ensures !panicked ==> Holds(After(h, Foot(t))) && Plain(Converted(t))
    ensures !panicked ==> Stands(After(h, Foot(t)), first, Converted(t)) && Stands(After(h, Foot(t)), second, Converted(t))
  {
    panicked, first := Convert(StringMap(data), h, t);
    second := first;
    if panicked {
      return;
    }
    LeftoverKeeps(t);
    LeftoverConvertsAlike(t);
    ConvertedIsPlain(t);
    panicked, second := Convert(StringMap(data), After(h, Foot(t)), Leftover(t));
    AfterBoth(h, Foot(t), Foot(Leftover(t)));
    assert Foot(t) + Foot(Leftover(t)) == Foot(t);
  }

  lemma {:induction false} ConvertedKeeps(t: Tree)
    ensures Foot(Converted(t)) <= Foot(t) && StringKeys(Converted(t))
  {
    match t
    case Leaf(_) =>
    case StringNode(fields) =>
      forall k | k in fields { ConvertedKeeps(fields[k]); }
    case AnyNode(fields) =>
      forall k | k in fields { ConvertedKeeps(fields[k]); }
    case SliceNode(_, items) =>
      forall i | 0 <= i < |items| { ConvertedKeeps(items[i]); }
  }

  lemma {:induction false} LeftoverKeeps(t: Tree)
    ensures Foot(Leftover(t)) <= Foot(t) && (StringKeys(t) ==> StringKeys(Leftover(t)))
  {
    match t
    case Leaf(_) =>
    case StringNode(fields) =>
      forall k | k in fields { LeftoverKeeps(fields[k]); }
    case AnyNode(fields) =>
      forall k | k in fields { LeftoverKeeps(fields[k]); }
    case SliceNode(_, _) => ConvertedKeeps(t);
  }
}
