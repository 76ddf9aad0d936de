/**
 Detaching the caller's bindings: the object graph behind them may share containers, may be cyclic and
 may hold values that are not JSON.  What is kept is a tree of the compiler's own.
 */
module Detach {
  import opened Json

  const MAX_NESTING_DEPTH: nat := 64

  type Ref = nat

  datatype Key = TextKey(s: string) | OtherKey(tag: nat)

  datatype Value = Plain(leaf: Json) | Foreign(tag: nat) | Container(ref: Ref)

  datatype Cell = ListCell(items: seq<Value>) | DictCell(entries: seq<(Key, Value)>)

  type Heap = map<Ref, Cell>

  predicate IsLeaf(j: Json) {
    !j.JArray? && !j.JObject?
  }

  predicate WellFormedValue(h: Heap, v: Value) {
    match v
    case Plain(leaf) => IsLeaf(leaf)
    case Foreign(_) => true
    case Container(ref) => ref in h
  }

  function Size(c: Cell): nat {
    if c.ListCell? then |c.items| else |c.entries|
  }

  function Item(c: Cell, i: nat): Value
    requires i < Size(c)
  {
    if c.ListCell? then c.items[i] else c.entries[i].1
  }

  predicate WellFormed(h: Heap) {
    forall r <- h :: forall i | 0 <= i < Size(h[r]) :: WellFormedValue(h, Item(h[r], i))
  }

  // ---------------------------------------------------------------- what the graph looks like from the root

  /** How many children a value shows. */
  function Degree(h: Heap, v: Value): nat {
    if v.Container? && v.ref in h then Size(h[v.ref]) else 0
  }

  function Child(h: Heap, v: Value, i: nat): Value
    requires i < Degree(h, v)
  {
    Item(h[v.ref], i)
  }

  /** The path exists in the graph. */
  predicate Exists(h: Heap, v: Value, path: Path)
    decreases |path|
  {
    path == [] || (path[0] < Degree(h, v) && Exists(h, Child(h, v, path[0]), path[1..]))
  }

  function At(h: Heap, v: Value, path: Path): Value
    requires Exists(h, v, path)
    decreases |path|
  {
    if path == [] then v else At(h, Child(h, v, path[0]), path[1..])
  }

  /** The containers visited on the way, the end included. */
  function Trail(h: Heap, v: Value, path: Path): seq<Ref>
    requires Exists(h, v, path)
    decreases |path|
  {
    (if v.Container? then [v.ref] else []) + (if path == [] then [] else Trail(h, Child(h, v, path[0]), path[1..]))
  }

  predicate TextKeyed(h: Heap, v: Value) {
    v.Container? && v.ref in h && h[v.ref].DictCell? ==> forall i | 0 <= i < |h[v.ref].entries| :: h[v.ref].entries[i].0.TextKey?
  }

  predicate Distinct(s: seq<Ref>) {
    forall i, j :: 0 <= i < j < |s| ==> s[i] != s[j]
  }

  /** What the compiler asks of one path. */
  ghost predicate Acceptable(h: Heap, v: Value, path: Path)
    requires Exists(h, v, path)
  {
    var end := At(h, v, path);
    |path| <= MAX_NESTING_DEPTH && !end.Foreign? && TextKeyed(h, end) && Distinct(Trail(h, v, path))
  }

  ghost predicate AllAcceptable(h: Heap, v: Value) {
    forall path :: Exists(h, v, path) ==> Acceptable(h, v, path)
  }

  /** The tree shows exactly what the graph shows. */
  predicate Unfolds(h: Heap, v: Value, j: Json)
    decreases j
  {
    match v
    case Plain(leaf) => j == leaf
    case Foreign(_) => false
    case Container(ref) =>
      && ref in h
      && match h[ref]
         case ListCell(items) => j.JArray? && |j.items| == |items| && forall i | 0 <= i < |items| :: Unfolds(h, items[i], j.items[i])
         case DictCell(entries) =>
           && j.JObject? && |j.members| == |entries|
           && forall i | 0 <= i < |entries| :: entries[i].0 == TextKey(j.members[i].0) && Unfolds(h, entries[i].1, j.members[i].1)
  }

  /** A graph has at most one unfolding. */
  lemma {:induction false} UnfoldingIsUnique(h: Heap, v: Value, j: Json, k: Json)
    requires Unfolds(h, v, j) && Unfolds(h, v, k)
    ensures j == k
    decreases j
  {
    if v.Container? {
      if j.JArray? {
        forall i | 0 <= i < |j.items| ensures j.items[i] == k.items[i] {
          UnfoldingIsUnique(h, h[v.ref].items[i], j.items[i], k.items[i]);
        }
      } else {
        forall i | 0 <= i < |j.members| ensures j.members[i] == k.members[i] {
          UnfoldingIsUnique(h, h[v.ref].entries[i].1, j.members[i].1, k.members[i].1);
        }
      }
    }
  }

  // ---------------------------------------------------------------- the copying itself

  datatype Problem = NotObject | TooDeep | NotJson | Recursive | BadKey
  datatype Copy = Copied(tree: Json) | Rejected(problem: Problem, path: Path)

  predicate IsDict(h: Heap, v: Value) {
    v.Container? && v.ref in h && h[v.ref].DictCell?
  }

  /** What is wrong at a path. */
  ghost predicate Occurs(h: Heap, v: Value, path: Path, problem: Problem) {
    && Exists(h, v, path)
    && var end := At(h, v, path);
       match problem
       case NotObject => path == [] && !IsDict(h, v)
       case TooDeep => |path| > MAX_NESTING_DEPTH
       case NotJson => end.Foreign?
       case Recursive => !Distinct(Trail(h, v, path))
       case BadKey => !TextKeyed(h, end)
  }

  /** The containers strictly above the end of a path. */
  function Above(h: Heap, v: Value, path: Path): seq<Ref>
    requires Exists(h, v, path)
    decreases |path|
  {
    if path == [] then [] else (if v.Container? then [v.ref] else []) + Above(h, Child(h, v, path[0]), path[1..])
  }

  /** The demand on a path, read downwards from a value found at `depth` under the containers in `active`. */
  ghost predicate Clean(h: Heap, v: Value, path: Path, depth: nat, active: set<Ref>)
    requires Exists(h, v, path)
    decreases |path|
  {
    && depth <= MAX_NESTING_DEPTH && !v.Foreign? && (v.Container? ==> v.ref !in active)
    && (if path == [] then TextKeyed(h, v) else Clean(h, Child(h, v, path[0]), path[1..], depth + 1, active + {v.ref}))
  }

  ghost predicate AllClean(h: Heap, v: Value, depth: nat, active: set<Ref>) {
    forall path :: Exists(h, v, path) ==> Clean(h, v, path, depth, active)
  }

  ghost predicate OccursBelow(h: Heap, v: Value, path: Path, problem: Problem, depth: nat, active: set<Ref>) {
    && Exists(h, v, path)
    && var end := At(h, v, path);
       match problem
       case NotObject => false
       case TooDeep => depth + |path| > MAX_NESTING_DEPTH
       case NotJson => end.Foreign?
       case Recursive => end.Container? && (end.ref in active || end.ref in Above(h, v, path))
       case BadKey => !TextKeyed(h, end)
  }

  lemma {:induction false} CleanIsAcceptable(h: Heap, v: Value, path: Path, depth: nat, active: set<Ref>)
    requires Exists(h, v, path) && Clean(h, v, path, depth, active)
    ensures depth + |path| <= MAX_NESTING_DEPTH
    ensures !At(h, v, path).Foreign? && TextKeyed(h, At(h, v, path))
    ensures Distinct(Trail(h, v, path)) && forall r :: r in Trail(h, v, path) ==> r !in active
    decreases |path|
  {
    if path != [] {
      CleanIsAcceptable(h, Child(h, v, path[0]), path[1..], depth + 1, active + {v.ref});
    }
  }

  lemma {:induction false} TrailSplits(h: Heap, v: Value, path: Path)
    requires Exists(h, v, path)
    ensures Trail(h, v, path) == Above(h, v, path) + if At(h, v, path).Container? then [At(h, v, path).ref] else []
    decreases |path|
  {
    if path != [] {
      TrailSplits(h, Child(h, v, path[0]), path[1..]);
    }
  }

  lemma RepeatIsNotDistinct(s: seq<Ref>, x: Ref)
    requires x in s
    ensures !Distinct(s + [x])
  {
    var i :| 0 <= i < |s| && s[i] == x;
    assert (s + [x])[i] == (s + [x])[|s|];
  }

  /** A container is clean when it is fine itself and all its children are. */
  lemma AllCleanFromChildren(h: Heap, v: Value, depth: nat, active: set<Ref>)
    requires depth <= MAX_NESTING_DEPTH && v.Container? && v.ref !in active && TextKeyed(h, v)
    requires forall i | 0 <= i < Degree(h, v) :: AllClean(h, Child(h, v, i), depth + 1, active + {v.ref})
    ensures AllClean(h, v, depth, active)
  {
    forall path | Exists(h, v, path) ensures Clean(h, v, path, depth, active) {
      if path != [] {
        assert AllClean(h, Child(h, v, path[0]), depth + 1, active + {v.ref});
      }
    }
  }

  lemma OccursUnderChild(h: Heap, v: Value, i: nat, path: Path, problem: Problem, depth: nat, active: set<Ref>)
    requires v.Container? && i < Degree(h, v)
    requires OccursBelow(h, Child(h, v, i), path, problem, depth + 1, active + {v.ref})
    ensures OccursBelow(h, v, [i] + path, problem, depth, active)
  {
    assert ([i] + path)[1..] == path;
  }

  /** `_detach_binding_json` with the set of active containers it changes and restores. */
  class Copier {
    const heap: Heap
    var active: set<Ref>

    constructor (heap: Heap)
      requires WellFormed(heap)
      ensures this.heap == heap && active == {}
    {
      this.heap := heap;
      this.active := {};
    }

    method Detach(v: Value, depth: nat) returns (r: Copy)
      requires WellFormed(heap) && WellFormedValue(heap, v) && depth <= MAX_NESTING_DEPTH + 1
      modifies this
      ensures active == old(active)
      ensures r.Copied? ==> Unfolds(heap, v, r.tree) && AllClean(heap, v, depth, active)
      ensures r.Rejected? ==> OccursBelow(heap, v, r.path, r.problem, depth, active)
      decreases MAX_NESTING_DEPTH + 1 - depth, 1
    {
      if depth > MAX_NESTING_DEPTH {
        return Rejected(TooDeep, []);
      }
      match v
      case Plain(leaf) =>
        r := Copied(leaf);
      case Foreign(_) =>
        r := Rejected(NotJson, []);
      case Container(ref) =>
        if ref in active {
          return Rejected(Recursive, []);
        }
        active := active + {ref};
        if heap[ref].ListCell? {
          r := DetachList(v, depth);
        } else {
          r := DetachDict(v, depth);
        }
        active := active - {ref};
        if r.Copied? {
          AllCleanFromChildren(heap, v, depth, active);
        }
    }

    method DetachList(v: Value, depth: nat) returns (r: Copy)
      requires WellFormed(heap) && depth <= MAX_NESTING_DEPTH
      requires v.Container? && v.ref in active && v.ref in heap && heap[v.ref].ListCell?
      modifies this
      ensures active == old(active)
      ensures r.Copied? ==> Unfolds(heap, v, r.tree)
      ensures r.Copied? ==> forall i | 0 <= i < Degree(heap, v) :: AllClean(heap, Child(heap, v, i), depth + 1, active)
      ensures r.Rejected? ==> OccursBelow(heap, v, r.path, r.problem, depth, active - {v.ref})
      decreases MAX_NESTING_DEPTH + 1 - depth, 0
    {
      var items := heap[v.ref].items;
      var copied: seq<Json> := [];
      for i := 0 to |items|
        invariant active == old(active) && |copied| == i
        invariant forall k | 0 <= k < i :: Unfolds(heap, items[k], copied[k])
        invariant forall k | 0 <= k < i :: AllClean(heap, Child(heap, v, k), depth + 1, active)
      {
        assert WellFormedValue(heap, Item(heap[v.ref], i));
        var one := Detach(items[i], depth + 1);
        if one.Rejected? {
          assert active - {v.ref} + {v.ref} == active;
          OccursUnderChild(heap, v, i, one.path, one.problem, depth, active - {v.ref});
          return Rejected(one.problem, [i] + one.path);
        }
        copied := copied + [one.tree];
      }
      r := Copied(JArray(copied));
    }

    method DetachDict(v: Value, depth: nat) returns (r: Copy)
      requires WellFormed(heap) && depth <= MAX_NESTING_DEPTH
      requires v.Container? && v.ref in active && v.ref in heap && heap[v.ref].DictCell?
      modifies this
      ensures active == old(active)
      ensures r.Copied? ==> Unfolds(heap, v, r.tree) && TextKeyed(heap, v)
      ensures r.Copied? ==> forall i | 0 <= i < Degree(heap, v) :: AllClean(heap, Child(heap, v, i), depth + 1, active)
      ensures r.Rejected? ==> OccursBelow(heap, v, r.path, r.problem, depth, active - {v.ref})
      decreases MAX_NESTING_DEPTH + 1 - depth, 0
    {
      var entries := heap[v.ref].entries;
      var copied: seq<(string, Json)> := [];
      for i := 0 to |entries|
        invariant active == old(active) && |copied| == i
        invariant forall k | 0 <= k < i :: entries[k].0 == TextKey(copied[k].0) && Unfolds(heap, entries[k].1, copied[k].1)
        invariant forall k | 0 <= k < i :: AllClean(heap, Child(heap, v, k), depth + 1, active)
      {
        if !entries[i].0.TextKey? {
          return Rejected(BadKey, []);
        }
        assert WellFormedValue(heap, Item(heap[v.ref], i));
        var one := Detach(entries[i].1, depth + 1);
        if one.Rejected? {
          assert active - {v.ref} + {v.ref} == active;
          OccursUnderChild(heap, v, i, one.path, one.problem, depth, active - {v.ref});
          return Rejected(one.problem, [i] + one.path);
        }
        copied := copied + [(entries[i].0.s, one.tree)];
      }
      r := Copied(JObject(copied));
    }
  }

  /** `_copy_bindings`, up to the canonical encoding: the copy succeeds exactly when every path from the root
      is acceptable, it is the unfolding of the graph, and a rejection points at a real fault. */
  method CopyBindings(heap: Heap, root: Value) returns (r: Copy)
    requires WellFormed(heap) && WellFormedValue(heap, root)
    ensures r.Copied? <==> IsDict(heap, root) && AllAcceptable(heap, root)
    ensures r.Copied? ==> Unfolds(heap, root, r.tree)
    ensures r.Rejected? ==> Occurs(heap, root, r.path, r.problem)
  {
    if !IsDict(heap, root) {
      return Rejected(NotObject, []);
    }
    var copier := new Copier(heap);
    r := copier.Detach(root, 0);
    if r.Copied? {
      forall path | Exists(heap, root, path) ensures Acceptable(heap, root, path) {
        CleanIsAcceptable(heap, root, path, 0, {});
      }
    } else {
      TrailSplits(heap, root, r.path);
      if r.problem.Recursive? {
        RepeatIsNotDistinct(Above(heap, root, r.path), At(heap, root, r.path).ref);
      }
      assert Occurs(heap, root, r.path, r.problem);
      assert !Acceptable(heap, root, r.path);
    }
  }

  // ---------------------------------------------------------------- the cycle check only chooses the message

  lemma {:induction false} ExistsConcat(h: Heap, v: Value, p: Path, q: Path)
    requires Exists(h, v, p) && Exists(h, At(h, v, p), q)
    ensures Exists(h, v, p + q) && At(h, v, p + q) == At(h, At(h, v, p), q)
    decreases |p|
  {
    if p == [] {
      assert p + q == q;
    } else {
      ExistsConcat(h, Child(h, v, p[0]), p[1..], q);
      assert (p + q)[1..] == p[1..] + q;
    }
  }

  /** Going round a cycle as often as one likes. */
  lemma {:induction false} Pump(h: Heap, v: Value, loop: Path, n: nat) returns (long: Path)
    requires loop != [] && Exists(h, v, loop) && At(h, v, loop) == v
    ensures Exists(h, v, long) && At(h, v, long) == v && |long| >= n
  {
    if n == 0 {
      long := [];
    } else {
      var shorter := Pump(h, v, loop, n - 1);
      ExistsConcat(h, v, loop, shorter);
      long := loop + shorter;
    }
  }

  lemma {:induction false} ExistsSplit(h: Heap, v: Value, p: Path, q: Path)
    requires Exists(h, v, p + q)
    ensures Exists(h, v, p) && Exists(h, At(h, v, p), q) && At(h, v, p + q) == At(h, At(h, v, p), q)
    decreases |p|
  {
    if p == [] {
      assert p + q == q;
    } else {
      assert (p + q)[1..] == p[1..] + q;
      ExistsSplit(h, Child(h, v, p[0]), p[1..], q);
    }
  }

  /** The container at index `i` of a trail sits at the end of the path's first `i` steps. */
  lemma {:induction false} TrailPosition(h: Heap, v: Value, path: Path, i: nat)
    requires Exists(h, v, path) && i < |Trail(h, v, path)|
    ensures i <= |path| && Exists(h, v, path[..i]) && At(h, v, path[..i]) == Container(Trail(h, v, path)[i])
    decreases |path|
  {
    if i > 0 {
      TrailPosition(h, Child(h, v, path[0]), path[1..], i - 1);
      assert path[..i][1..] == path[1..][..i - 1];
    }
  }

  /** A container met twice on one path can be gone round for ever. */
  lemma RepeatMakesLongPath(h: Heap, v: Value, path: Path, i: nat, j: nat) returns (long: Path)
    requires Exists(h, v, path) && i < j < |Trail(h, v, path)| && Trail(h, v, path)[i] == Trail(h, v, path)[j]
    ensures Exists(h, v, long) && |long| > MAX_NESTING_DEPTH
  {
    TrailPosition(h, v, path, i);
    TrailPosition(h, v, path, j);
    assert path[..j] == path[..i] + path[i..j];
    ExistsSplit(h, v, path[..i], path[i..j]);
    var knot := At(h, v, path[..i]);
    var rounds := Pump(h, knot, path[i..j], MAX_NESTING_DEPTH + 1);
    ExistsConcat(h, v, path[..i], rounds);
    long := path[..i] + rounds;
  }

  /** In a graph with no path deeper than the bound no container contains itself: leaving the check for
      recursive containers out would reject exactly the same bindings. */
  lemma DepthBoundExcludesCycles(h: Heap, v: Value)
    requires forall path :: Exists(h, v, path) ==> |path| <= MAX_NESTING_DEPTH
    ensures forall path :: Exists(h, v, path) ==> Distinct(Trail(h, v, path))
  {
    forall path | Exists(h, v, path) ensures Distinct(Trail(h, v, path)) {
      forall i, j | 0 <= i < j < |Trail(h, v, path)| ensures Trail(h, v, path)[i] != Trail(h, v, path)[j] {
        if Trail(h, v, path)[i] == Trail(h, v, path)[j] {
          var long := RepeatMakesLongPath(h, v, path, i, j);
          assert false;
        }
      }
    }
  }
}
