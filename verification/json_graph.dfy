/** `canonicalJson` over JavaScript objects, which may be shared or circular: a heap of numbered
    nodes, walked with the set of the nodes that are open. */
module JsonGraph {
  import opened CanonicalJson
  import JsonReader
  import opened Keyed
  import opened Prelude
  import opened Values

  type NodeId = nat

  /** Functions and symbols count as undefined. */
  datatype Ref = Leaf(value: Value) | Ptr(id: NodeId)

  datatype Node = List(items: seq<Ref>) | Record(members: seq<(string, Ref)>)

  type Heap = map<NodeId, Node>

  predicate ValidRef(h: Heap, r: Ref) {
    match r
    case Leaf(v) => !v.Arr? && !v.Obj? && WellFormed(v)
    case Ptr(id) => id in h
  }

  predicate ValidItems(h: Heap, items: seq<Ref>) {
    forall i :: 0 <= i < |items| ==> ValidRef(h, items[i])
  }

  predicate ValidMembers(h: Heap, ms: seq<(string, Ref)>) {
    Distinct(ms) && forall i :: 0 <= i < |ms| ==> ms[i].0 != "__proto__" && ValidRef(h, ms[i].1)
  }

  predicate ValidNode(h: Heap, n: Node) {
    match n
    case List(items) => ValidItems(h, items)
    case Record(ms) => ValidMembers(h, ms)
  }

  predicate ValidHeap(h: Heap) {
    forall id :: id in h ==> ValidNode(h, h[id])
  }

  // ----- trees -----

  /** `v` is what `r` looks like as a tree. */
  predicate Denotes(h: Heap, r: Ref, v: Value)
    decreases v, 1
  {
    match r
    case Leaf(w) => v == w
    case Ptr(id) =>
      && id in h
      && match h[id]
         case List(items) => v.Arr? && DenoteItems(h, items, v.items)
         case Record(ms) => v.Obj? && DenoteMembers(h, ms, v.members)
  }

  predicate DenoteItems(h: Heap, items: seq<Ref>, vs: seq<Value>)
    decreases vs, 0
  {
    |items| == |vs| && forall i :: 0 <= i < |vs| ==> Denotes(h, items[i], vs[i])
  }

  predicate DenoteMembers(h: Heap, ms: seq<(string, Ref)>, vs: seq<(string, Value)>)
    decreases vs, 0
  {
    |ms| == |vs| && forall i :: 0 <= i < |vs| ==> DenotesMember(h, ms[i], vs[i])
  }

  predicate DenotesMember(h: Heap, m: (string, Ref), v: (string, Value))
    decreases v, 0
  {
    m.0 == v.0 && Denotes(h, m.1, v.1)
  }

  lemma {:induction false} TreeIsUnique(h: Heap, r: Ref, v: Value, w: Value)
    requires Denotes(h, r, v) && Denotes(h, r, w)
    ensures v == w
    decreases v
  {
    if r.Ptr? {
      match h[r.id]
      case List(items) =>
        forall i | 0 <= i < |items| ensures v.items[i] == w.items[i] {
          TreeIsUnique(h, items[i], v.items[i], w.items[i]);
        }
      case Record(ms) =>
        forall i | 0 <= i < |ms| ensures v.members[i] == w.members[i] {
          assert DenotesMember(h, ms[i], v.members[i]) && DenotesMember(h, ms[i], w.members[i]);
          TreeIsUnique(h, ms[i].1, v.members[i].1, w.members[i].1);
        }
    }
  }

  lemma {:induction false} TreeIsWellFormed(h: Heap, r: Ref, v: Value)
    requires ValidHeap(h) && ValidRef(h, r) && Denotes(h, r, v)
    ensures WellFormed(v)
    decreases v
  {
    if r.Ptr? {
      assert ValidNode(h, h[r.id]);
      match h[r.id]
      case List(items) =>
        forall i | 0 <= i < |items| ensures WellFormed(v.items[i]) {
          TreeIsWellFormed(h, items[i], v.items[i]);
        }
      case Record(ms) =>
        forall i | 0 <= i < |ms| ensures v.members[i].0 == ms[i].0 && WellFormed(v.members[i].1) {
          assert DenotesMember(h, ms[i], v.members[i]);
          TreeIsWellFormed(h, ms[i].1, v.members[i].1);
        }
    }
  }

  // ----- circles -----

  predicate Edge(h: Heap, a: NodeId, b: NodeId) {
    && a in h
    && match h[a]
       case List(items) => exists i :: 0 <= i < |items| && items[i] == Ptr(b)
       case Record(ms) => exists i :: 0 <= i < |ms| && ms[i].1 == Ptr(b)
  }

  predicate Path(h: Heap, p: seq<NodeId>) {
    p != [] && forall i :: 0 <= i < |p| - 1 ==> Edge(h, p[i], p[i + 1])
  }

  /** The path comes back to one of its nodes. */
  predicate Returns(p: seq<NodeId>) {
    p != [] && exists i :: 0 <= i < |p| - 1 && p[i] == p[|p| - 1]
  }

  /** An object of `r` contains itself. */
  ghost predicate Circular(h: Heap, r: Ref) {
    r.Ptr? && exists p :: Path(h, p) && p[0] == r.id && Returns(p)
  }

  /** A path from `r` reaches an open node or comes back to one of its own. */
  ghost predicate Blocked(h: Heap, r: Ref, seen: set<NodeId>) {
    r.Ptr? && exists p :: Path(h, p) && p[0] == r.id && (p[|p| - 1] in seen || Returns(p))
  }

  lemma BlockedHere(h: Heap, id: NodeId, seen: set<NodeId>)
    requires id in seen
    ensures Blocked(h, Ptr(id), seen)
  {
    assert Path(h, [id]);
  }

  lemma BlockedIsCircular(h: Heap, r: Ref)
    requires Blocked(h, r, {})
    ensures Circular(h, r)
  {
    var p :| Path(h, p) && p[0] == r.id && (p[|p| - 1] in {} || Returns(p));
    assert Returns(p);
  }

  lemma BlockedAbove(h: Heap, id: NodeId, child: Ref, seen: set<NodeId>)
    requires Blocked(h, child, seen + {id}) && Edge(h, id, child.id)
    ensures Blocked(h, Ptr(id), seen)
  {
    var p :| Path(h, p) && p[0] == child.id && (p[|p| - 1] in seen + {id} || Returns(p));
    var q := [id] + p;
    forall i | 0 <= i < |q| - 1 ensures Edge(h, q[i], q[i + 1]) {
      assert i > 0 ==> q[i] == p[i - 1] && q[i + 1] == p[i];
    }
    if Returns(p) {
      var i :| 0 <= i < |p| - 1 && p[i] == p[|p| - 1];
      assert q[i + 1] == q[|q| - 1];
    } else if p[|p| - 1] == id {
      assert q[0] == q[|q| - 1];
    }
  }

  lemma ChildTree(h: Heap, a: NodeId, b: NodeId, v: Value) returns (w: Value)
    requires Edge(h, a, b) && Denotes(h, Ptr(a), v)
    ensures Denotes(h, Ptr(b), w) && w < v
  {
    match h[a]
    case List(items) =>
      var i :| 0 <= i < |items| && items[i] == Ptr(b);
      w := v.items[i];
    case Record(ms) =>
      var i :| 0 <= i < |ms| && ms[i].1 == Ptr(b);
      assert DenotesMember(h, ms[i], v.members[i]);
      w := v.members[i].1;
  }

  lemma {:induction false} PathDescends(h: Heap, p: seq<NodeId>, v: Value) returns (w: Value)
    requires Path(h, p) && Denotes(h, Ptr(p[0]), v)
    ensures Denotes(h, Ptr(p[|p| - 1]), w) && if |p| == 1 then w == v else w < v
    decreases |p|
  {
    w := v;
    if |p| > 1 {
      assert Edge(h, p[0], p[0 + 1]);
      var u := ChildTree(h, p[0], p[1], v);
      assert forall i :: 0 <= i < |p[1..]| ==> p[1..][i] == p[i + 1];
      w := PathDescends(h, p[1..], u);
    }
  }

  ghost predicate HasTree(h: Heap, r: Ref) {
    exists v :: Denotes(h, r, v)
  }

  /** What contains itself is no tree. */
  lemma CircleHasNoTree(h: Heap, r: Ref)
    requires Circular(h, r)
    ensures !HasTree(h, r)
  {
    if HasTree(h, r) {
      var v :| Denotes(h, r, v);
      var p :| Path(h, p) && p[0] == r.id && Returns(p);
      var i :| 0 <= i < |p| - 1 && p[i] == p[|p| - 1];
      var w := PathDescends(h, p[..i + 1], v);
      var u := PathDescends(h, p[i..], w);
      TreeIsUnique(h, Ptr(p[i]), u, w);
      assert false;
    }
  }

  // ----- sorted members -----

  /** Taking the inserted member's tree out again. */
  lemma {:induction false} InsertedTree(h: Heap, m: (string, Ref), ms: seq<(string, Ref)>, trees: seq<(string, Value)>)
    returns (t: (string, Value), rest: seq<(string, Value)>)
    requires DenoteMembers(h, Insert(m, ms), trees)
    ensures DenotesMember(h, m, t) && DenoteMembers(h, ms, rest) && Insert(t, rest) == trees
    decreases |ms|
  {
    var all := Insert(m, ms);
    assert DenotesMember(h, all[0], trees[0]);
    assert trees == [trees[0]] + trees[1..];
    assert DenoteMembers(h, all[1..], trees[1..]);
    if ms == [] || StringBefore(m.0, ms[0].0) {
      t, rest := trees[0], trees[1..];
      assert all[1..] == ms;
    } else {
      assert all[1..] == Insert(m, ms[1..]);
      var more;
      t, more := InsertedTree(h, m, ms[1..], trees[1..]);
      rest := [trees[0]] + more;
      assert rest[1..] == more;
    }
  }

  /** Trees of the sorted members are the sorted trees of the members. */
  lemma {:induction false} Unsorted(h: Heap, ms: seq<(string, Ref)>, trees: seq<(string, Value)>)
    returns (vs: seq<(string, Value)>)
    requires DenoteMembers(h, SortPairs(ms), trees)
    ensures DenoteMembers(h, ms, vs) && SortPairs(vs) == trees
    decreases |ms|
  {
    if ms == [] {
      vs := [];
    } else {
      var t, rest := InsertedTree(h, ms[0], SortPairs(ms[1..]), trees);
      var more := Unsorted(h, ms[1..], rest);
      vs := [t] + more;
      assert vs[1..] == more;
    }
  }

  lemma SortedValid(h: Heap, ms: seq<(string, Ref)>, i: nat)
    requires ValidMembers(h, ms) && i < |SortPairs(ms)|
    ensures ValidRef(h, SortPairs(ms)[i].1) && exists j :: 0 <= j < |ms| && ms[j] == SortPairs(ms)[i]
  {
    SamePairsWithin(SortPairs(ms), ms);
    assert SortPairs(ms)[i] in ms;
  }

  /** What the loop over the sorted members has collected is the canonical object. */
  lemma CollectedMembers(h: Heap, ms: seq<(string, Ref)>, trees: seq<(string, Value)>)
    returns (vs: seq<(string, Value)>)
    requires Distinct(ms) && DenoteMembers(h, SortPairs(ms), trees)
    ensures DenoteMembers(h, ms, vs) && Canonical(Obj(vs)) == Obj(OwnOrder(Kept(trees)))
  {
    vs := Unsorted(h, ms, trees);
    forall i, j | 0 <= i < j < |vs| ensures vs[i].0 != vs[j].0 {
      assert DenotesMember(h, ms[i], vs[i]) && DenotesMember(h, ms[j], vs[j]);
    }
    KeptSorted(vs);
  }

  lemma MembersPush(h: Heap, ms: seq<(string, Ref)>, i: nat, trees: seq<(string, Value)>, t: (string, Value))
    requires i < |ms| && DenoteMembers(h, ms[..i], trees) && DenotesMember(h, ms[i], t)
    ensures DenoteMembers(h, ms[..i + 1], trees + [t]) && Kept(trees + [t]) == Kept(trees) + Keep(t)
  {
    KeptPush(trees, t);
    assert forall k :: 0 <= k < i ==> ms[..i + 1][k] == ms[..i][k];
  }

  lemma TreesPush(h: Heap, items: seq<Ref>, i: nat, trees: seq<Value>, t: Value)
    requires i < |items| && DenoteItems(h, items[..i], trees) && Denotes(h, items[i], t)
    ensures DenoteItems(h, items[..i + 1], trees + [t])
    ensures OrderedItems(ViewItems(trees + [t])) == OrderedItems(ViewItems(trees)) + [Canonical(t)]
  {
    ItemsPush(trees, t);
    assert forall k :: 0 <= k < i ==> items[..i + 1][k] == items[..i][k];
  }

  function CanonicalLeaf(v: Value): (r: Value)
    requires !v.Arr? && !v.Obj?
    ensures r == Canonical(v)
  {
    if v.Undefined? then Null else if v.Date? then Str(v.iso) else v
  }

  // ----- the walk -----

  function Open(h: Heap, seen: set<NodeId>): nat {
    |h.Keys - seen|
  }

  lemma OpenShrinks(h: Heap, seen: set<NodeId>, id: NodeId)
    requires id in h && id !in seen
    ensures Open(h, seen + {id}) < Open(h, seen)
  {
    assert h.Keys - seen == (h.Keys - (seen + {id})) + {id};
  }

  /** `canonicalize` with its shared, mutable set of open objects; `tree` is what it made the
      canonical form of. */
  class Canonicalizer {
    const heap: Heap
    var seen: set<NodeId>

    constructor (heap: Heap)
      ensures this.heap == heap && seen == {}
    {
      this.heap := heap;
      seen := {};
    }

    method Visit(r: Ref) returns (result: Result<Value, ()>, ghost tree: Value)
      requires ValidHeap(heap) && ValidRef(heap, r)
      modifies this
      ensures result.Ok? ==> seen == old(seen) && Denotes(heap, r, tree) && result.value == Canonical(tree)
      ensures result.Failed? ==> Blocked(heap, r, old(seen))
      decreases Open(heap, seen), 0
    {
      match r {
        case Leaf(v) =>
          tree := v;
          result := Ok(CanonicalLeaf(v));
        case Ptr(id) =>
          if id in seen {
            BlockedHere(heap, id, seen);
            tree := Null;
            return Failed(()), tree;
          }
          OpenShrinks(heap, seen, id);
          seen := seen + {id};
          result, tree := VisitNode(id, old(seen));
          seen := seen - {id};
      }
    }

    method VisitNode(id: NodeId, ghost outer: set<NodeId>) returns (result: Result<Value, ()>, ghost tree: Value)
      requires ValidHeap(heap) && id in heap && seen == outer + {id}
      modifies this
      ensures result.Ok? ==> seen == old(seen) && Denotes(heap, Ptr(id), tree) && result.value == Canonical(tree)
      ensures result.Failed? ==> Blocked(heap, Ptr(id), outer)
      decreases Open(heap, seen), 2
    {
      assert ValidNode(heap, heap[id]);
      match heap[id] {
        case List(items) =>
          var ok, values;
          ghost var trees, child;
          ok, values, trees, child := VisitItems(items);
          result, tree := if ok then Ok(Arr(values)) else Failed(()), Arr(trees);
          if !ok { BlockedAbove(heap, id, child, outer); }
        case Record(ms) =>
          var ok, members;
          ghost var trees, child;
          ok, members, trees, child := VisitMembers(ms);
          result, tree := if ok then Ok(Obj(OwnOrder(members))) else Failed(()), Obj(trees);
          if !ok { BlockedAbove(heap, id, child, outer); }
      }
    }

    method VisitItems(items: seq<Ref>) returns (ok: bool, values: seq<Value>, ghost trees: seq<Value>, ghost child: Ref)
      requires ValidHeap(heap) && ValidItems(heap, items)
      modifies this
      ensures ok ==> seen == old(seen) && DenoteItems(heap, items, trees) && values == OrderedItems(ViewItems(trees))
      ensures !ok ==> Blocked(heap, child, old(seen)) && exists i :: 0 <= i < |items| && items[i] == child
      decreases Open(heap, seen), 1
    {
      ok, values, trees, child := true, [], [], Leaf(Null);
      var i := 0;
      while i < |items|
        invariant 0 <= i <= |items| && seen == old(seen)
        invariant DenoteItems(heap, items[..i], trees) && values == OrderedItems(ViewItems(trees))
      {
        var item;
        ghost var t;
        item, t := Visit(items[i]);
        if item.Failed? {
          ok, child := false, items[i];
          return;
        }
        TreesPush(heap, items, i, trees, t);
        values, trees := values + [item.value], trees + [t];
        i := i + 1;
      }
      assert items[..i] == items;
    }

    /** The loop over the sorted keys; undefined members are dropped. */
    method VisitMembers(ms: seq<(string, Ref)>)
      returns (ok: bool, members: seq<(string, Value)>, ghost vs: seq<(string, Value)>, ghost child: Ref)
      requires ValidHeap(heap) && ValidMembers(heap, ms)
      modifies this
      ensures ok ==> seen == old(seen) && DenoteMembers(heap, ms, vs) && Obj(OwnOrder(members)) == Canonical(Obj(vs))
      ensures !ok ==> Blocked(heap, child, old(seen)) && exists i :: 0 <= i < |ms| && ms[i].1 == child
      decreases Open(heap, seen), 1
    {
      ok, members, vs, child := true, [], [], Leaf(Null);
      var sorted := SortPairs(ms);
      ghost var trees: seq<(string, Value)> := [];
      var i := 0;
      while i < |sorted|
        invariant 0 <= i <= |sorted| && seen == old(seen)
        invariant DenoteMembers(heap, sorted[..i], trees) && members == Kept(trees)
      {
        var (key, item) := sorted[i];
        SortedValid(heap, ms, i);
        ghost var t: Value := Undefined;
        if item != Leaf(Undefined) {
          var kept;
          kept, t := Visit(item);
          if kept.Failed? {
            ok, child := false, item;
            return;
          }
          members := members + [(key, kept.value)];
        }
        MembersPush(heap, sorted, i, trees, (key, t));
        trees := trees + [(key, t)];
        i := i + 1;
      }
      assert sorted[..i] == sorted;
      vs := CollectedMembers(heap, ms, trees);
    }
  }

  lemma OnlyTree(h: Heap, r: Ref, tree: Value)
    requires ValidHeap(h) && ValidRef(h, r) && Denotes(h, r, tree)
    ensures !Circular(h, r) && HasTree(h, r) && forall v :: Denotes(h, r, v) ==> v == tree && WellFormed(v)
  {
    if Circular(h, r) { CircleHasNoTree(h, r); }
    forall v | Denotes(h, r, v) ensures v == tree && WellFormed(v) {
      TreeIsWellFormed(h, r, v);
      TreeIsUnique(h, r, v, tree);
    }
  }

  /** The text is JSON for the value. */
  ghost predicate Says(text: string, v: Value) {
    var read := JsonReader.ReadJson(text);
    read.Some? && JsonReader.Means(v, read.value)
  }

  /** `canonicalJson`: refused exactly when some object contains itself; otherwise, however
      often objects are shared, the text is that of the value as a tree. */
  method Serialize(heap: Heap, r: Ref) returns (text: Option<string>)
    requires ValidHeap(heap) && ValidRef(heap, r)
    ensures text.None? <==> Circular(heap, r)
    ensures text.Some? <==> HasTree(heap, r)
    ensures forall v :: Denotes(heap, r, v) ==> WellFormed(v) && text == Some(JsonText(v))
    ensures forall v :: Denotes(heap, r, v) ==> text.Some? && Says(text.value, v)
  {
    var walker := new Canonicalizer(heap);
    var result;
    ghost var tree;
    result, tree := walker.Visit(r);
    if result.Failed? {
      text := None;
      BlockedIsCircular(heap, r);
      CircleHasNoTree(heap, r);
    } else {
      text := Some(Text(result.value));
      OnlyTree(heap, r, tree);
      assert text == Some(JsonText(tree));
      JsonReader.JsonTextReads(tree);
    }
  }
}
