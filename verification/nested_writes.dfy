/** Which writes to tracked related models hide inside a mutation's arguments.

    The arguments are JavaScript objects that may be shared or cyclic, so they are a heap of
    numbered nodes; the walk keeps the set of its open ancestors to stop on a cycle. */
module NestedWrites {
  import opened Prelude

  type NodeId = nat

  /** Anything that is not an object of the heap is a leaf to the walk. */
  datatype Ref = Leaf | Ptr(id: NodeId)

  datatype Node =
    | Record(fields: seq<(string, Ref)>)
    | List(items: seq<Ref>)

  type Heap = map<NodeId, Node>

  /** Relation fields per model, with the model each leads to. */
  type Schema = map<string, map<string, string>>

  datatype Setup = Setup(heap: Heap, schema: Schema, tracked: Option<seq<string>>, ignored: Option<seq<string>>)

  /** `${model}.${field}` */
  datatype Relation = Relation(model: string, field: string)

  const OPERATORS: set<string> := {
    "create", "createMany", "connect", "connectOrCreate", "disconnect",
    "update", "updateMany", "upsert", "delete", "deleteMany", "set"}

  predicate ShouldTrack(c: Setup, model: string) {
    if c.tracked.Some? then model in c.tracked.value
    else c.ignored.Some? ==> model !in c.ignored.value
  }

  predicate IsObject(c: Setup, r: Ref) {
    r.Ptr? && r.id in c.heap
  }

  predicate IsRecord(c: Setup, r: Ref) {
    IsObject(c, r) && c.heap[r.id].Record?
  }

  predicate IsList(c: Setup, r: Ref) {
    IsObject(c, r) && c.heap[r.id].List?
  }

  function Find(fields: seq<(string, Ref)>, key: string): (r: Ref)
    ensures forall i :: 0 <= i < |fields| && fields[i].0 == key && (forall j :: 0 <= j < i ==> fields[j].0 != key) ==>
      r == fields[i].1
    ensures (forall i :: 0 <= i < |fields| ==> fields[i].0 != key) ==> r == Leaf
  {
    if fields == [] then Leaf
    else if fields[0].0 == key then fields[0].1
    else Find(fields[1..], key)
  }

  /** `envelope.key`; an array has no such property. */
  function Property(c: Setup, r: Ref, key: string): Ref {
    if IsRecord(c, r) then Find(c.heap[r.id].fields, key) else Leaf
  }

  predicate HasOperator(c: Setup, value: Ref) {
    IsRecord(c, value) && exists i :: 0 <= i < |c.heap[value.id].fields| && c.heap[value.id].fields[i].0 in OPERATORS
  }

  // ----- the mutation data an operation's payload carries -----

  function EntryData(c: Setup, operation: string, entry: Ref): seq<Ref> {
    if !IsObject(c, entry) then []
    else if operation == "create" then [entry]
    else if operation == "upsert" then [Property(c, entry, "create"), Property(c, entry, "update")]
    else if operation == "connectOrCreate" then [Property(c, entry, "create")]
    else if operation == "update" then [entry, Property(c, entry, "data")]
    else if operation == "createMany" || operation == "updateMany" then [Property(c, entry, "data")]
    else []
  }

  function EntriesData(c: Setup, operation: string, entries: seq<Ref>): seq<Ref> {
    if entries == [] then []
    else EntryData(c, operation, entries[0]) + EntriesData(c, operation, entries[1..])
  }

  function Entries(c: Setup, payload: Ref): seq<Ref> {
    if IsList(c, payload) then c.heap[payload.id].items else [payload]
  }

  function MutationData(c: Setup, operation: string, payload: Ref): seq<Ref> {
    EntriesData(c, operation, Entries(c, payload))
  }

  /** All data below the operations of a relation's value, in the order it is visited. */
  function Children(c: Setup, operations: seq<(string, Ref)>): seq<Ref> {
    if operations == [] then []
    else MutationData(c, operations[0].0, operations[0].1) + Children(c, operations[1..])
  }

  // ----- the walk -----

  datatype Kind = NoMetadata | NoRelation | To(model: string)

  function FieldKind(c: Setup, model: string, field: string): Kind {
    if model !in c.schema then NoMetadata
    else if field !in c.schema[model] then NoRelation
    else To(c.schema[model][field])
  }

  /** A relation to an excluded model: its payloads are followed instead of reported. */
  predicate Excluded(c: Setup, model: string, field: string) {
    var kind := FieldKind(c, model, field);
    kind.To? && !ShouldTrack(c, kind.model)
  }

  predicate Reported(c: Setup, model: string, member: (string, Ref)) {
    && FieldKind(c, model, member.0) != NoRelation
    && HasOperator(c, member.1)
    && !Excluded(c, model, member.0)
  }

  function Open(c: Setup, ancestors: set<NodeId>): nat {
    |c.heap.Keys - ancestors|
  }

  lemma OpenShrinks(c: Setup, ancestors: set<NodeId>, id: NodeId)
    requires id in c.heap && id !in ancestors
    ensures Open(c, ancestors + {id}) < Open(c, ancestors)
  {
    assert c.heap.Keys - ancestors == (c.heap.Keys - (ancestors + {id})) + {id};
  }

  /** What the walk of `data` as mutation data of `model` reports. */
  function Walk(c: Setup, model: string, data: Ref, ancestors: set<NodeId>): seq<Relation>
    decreases Open(c, ancestors), 0, 0
  {
    if !IsObject(c, data) || data.id in ancestors then []
    else
      OpenShrinks(c, ancestors, data.id);
      match c.heap[data.id]
      case List(items) => WalkAll(c, model, items, ancestors + {data.id})
      case Record(fields) => WalkFields(c, model, fields, ancestors + {data.id})
  }

  function WalkAll(c: Setup, model: string, items: seq<Ref>, ancestors: set<NodeId>): seq<Relation>
    decreases Open(c, ancestors), 0, |items|
  {
    if items == [] then []
    else Walk(c, model, items[0], ancestors) + WalkAll(c, model, items[1..], ancestors)
  }

  function WalkFields(c: Setup, model: string, fields: seq<(string, Ref)>, ancestors: set<NodeId>): seq<Relation>
    decreases Open(c, ancestors), 1, |fields|
  {
    if fields == [] then []
    else WalkField(c, model, fields[0], ancestors) + WalkFields(c, model, fields[1..], ancestors)
  }

  function WalkField(c: Setup, model: string, member: (string, Ref), ancestors: set<NodeId>): seq<Relation>
    decreases Open(c, ancestors), 1, 0
  {
    if FieldKind(c, model, member.0) == NoRelation || !HasOperator(c, member.1) then []
    else if Excluded(c, model, member.0) then
      WalkAll(c, FieldKind(c, model, member.0).model, Children(c, c.heap[member.1.id].fields), ancestors)
    else [Relation(model, member.0)]
  }

  /** `nestedWriteRelationsInData` with its shared, mutable ancestor set. */
  class Walker {
    const setup: Setup
    var ancestors: set<NodeId>

    constructor (setup: Setup)
      ensures this.setup == setup && ancestors == {}
    {
      this.setup := setup;
      ancestors := {};
    }

    method Visit(model: string, data: Ref) returns (relations: seq<Relation>)
      modifies this
      ensures ancestors == old(ancestors)
      ensures relations == Walk(setup, model, data, old(ancestors))
      decreases Open(setup, ancestors), 0, 0
    {
      if !IsObject(setup, data) || data.id in ancestors {
        return [];
      }
      OpenShrinks(setup, ancestors, data.id);
      ancestors := ancestors + {data.id};
      match setup.heap[data.id] {
        case List(items) =>
          relations := VisitAll(model, items);
        case Record(fields) =>
          relations := VisitFields(model, fields);
      }
      ancestors := ancestors - {data.id};
      assert ancestors == old(ancestors);
    }

    method VisitAll(model: string, items: seq<Ref>) returns (relations: seq<Relation>)
      modifies this
      ensures ancestors == old(ancestors)
      ensures relations == WalkAll(setup, model, items, old(ancestors))
      decreases Open(setup, ancestors), 0, |items| + 1
    {
      relations := [];
      var i := 0;
      while i < |items|
        invariant 0 <= i <= |items|
        invariant ancestors == old(ancestors)
        invariant relations + WalkAll(setup, model, items[i..], ancestors) == WalkAll(setup, model, items, ancestors)
      {
        var found := Visit(model, items[i]);
        assert items[i..][1..] == items[i + 1..];
        relations := relations + found;
        i := i + 1;
      }
      assert items[i..] == [];
    }

    method VisitFields(model: string, fields: seq<(string, Ref)>) returns (relations: seq<Relation>)
      modifies this
      ensures ancestors == old(ancestors)
      ensures relations == WalkFields(setup, model, fields, old(ancestors))
      decreases Open(setup, ancestors), 1, 1
    {
      relations := [];
      var i := 0;
      while i < |fields|
        invariant 0 <= i <= |fields|
        invariant ancestors == old(ancestors)
        invariant relations + WalkFields(setup, model, fields[i..], ancestors)
               == WalkFields(setup, model, fields, ancestors)
      {
        var found := VisitField(model, fields[i]);
        assert fields[i..][1..] == fields[i + 1..];
        relations := relations + found;
        i := i + 1;
      }
      assert fields[i..] == [];
    }

    method VisitField(model: string, member: (string, Ref)) returns (relations: seq<Relation>)
      modifies this
      ensures ancestors == old(ancestors)
      ensures relations == WalkField(setup, model, member, old(ancestors))
      decreases Open(setup, ancestors), 1, 0
    {
      var (field, value) := member;
      var kind := FieldKind(setup, model, field);
      if kind == NoRelation { return []; }
      if !HasOperator(setup, value) { return []; }
      if kind.To? && !ShouldTrack(setup, kind.model) {
        relations := VisitOperations(kind.model, setup.heap[value.id].fields);
        return;
      }
      return [Relation(model, field)];
    }

    method VisitOperations(model: string, operations: seq<(string, Ref)>) returns (relations: seq<Relation>)
      modifies this
      ensures ancestors == old(ancestors)
      ensures relations == WalkAll(setup, model, Children(setup, operations), old(ancestors))
      decreases Open(setup, ancestors), 0, |Children(setup, operations)| + 2
    {
      relations := [];
      ghost var visited: seq<Ref> := [];
      var i := 0;
      while i < |operations|
        invariant 0 <= i <= |operations|
        invariant ancestors == old(ancestors)
        invariant visited + Children(setup, operations[i..]) == Children(setup, operations)
        invariant relations == WalkAll(setup, model, visited, ancestors)
      {
        var (operation, payload) := operations[i];
        var data := MutationData(setup, operation, payload);
        ChildrenFrom(setup, operations, i);
        Visiting(visited, data, Children(setup, operations[i + 1..]), Children(setup, operations));
        var found := VisitAll(model, data);
        WalkAllConcat(setup, model, visited, data, ancestors);
        relations, visited := relations + found, visited + data;
        i := i + 1;
      }
      assert operations[i..] == [] && visited + [] == visited;
    }
  }

  lemma Visiting(visited: seq<Ref>, data: seq<Ref>, rest: seq<Ref>, all: seq<Ref>)
    requires visited + (data + rest) == all
    ensures (visited + data) + rest == all && |data| <= |all|
  {
  }

  lemma ChildrenFrom(c: Setup, operations: seq<(string, Ref)>, i: nat)
    requires i < |operations|
    ensures Children(c, operations[i..]) ==
      MutationData(c, operations[i].0, operations[i].1) + Children(c, operations[i + 1..])
  {
    assert operations[i..][1..] == operations[i + 1..];
  }

  lemma {:induction false} WalkAllConcat(c: Setup, model: string, a: seq<Ref>, b: seq<Ref>, ancestors: set<NodeId>)
    ensures WalkAll(c, model, a + b, ancestors) == WalkAll(c, model, a, ancestors) + WalkAll(c, model, b, ancestors)
    decreases |a|
  {
    if a == [] {
      assert a + b == b;
    } else {
      assert (a + b)[1..] == a[1..] + b;
      WalkAllConcat(c, model, a[1..], b, ancestors);
    }
  }

  // ----- what it should find -----

  /** Mutation data at some depth of the arguments, and the model it belongs to. */
  datatype Position = Position(model: string, data: Ref)

  /** A key that makes a relation's value a write. */
  predicate WriteKey(key: string) {
    || key == "create" || key == "createMany" || key == "connect" || key == "connectOrCreate" || key == "disconnect"
    || key == "update" || key == "updateMany" || key == "upsert" || key == "delete" || key == "deleteMany"
    || key == "set"
  }

  predicate HidesWrites(c: Setup, value: Ref) {
    && value.Ptr? && value.id in c.heap && c.heap[value.id].Record?
    && exists i :: 0 <= i < |c.heap[value.id].fields| && WriteKey(c.heap[value.id].fields[i].0)
  }

  /** A list of tracked models is exact; otherwise all models count but the ignored ones. */
  predicate Audited(c: Setup, model: string) {
    match c.tracked
    case Some(models) => model in models
    case None => c.ignored.None? || model !in c.ignored.value
  }

  function MemberOf(c: Setup, id: NodeId, key: string): Ref
    requires id in c.heap
  {
    match c.heap[id]
    case Record(fields) => Find(fields, key)
    case List(_) => Leaf
  }

  /** `child` is mutation data that `operation` carries in the envelope `entry`. */
  predicate Envelope(c: Setup, operation: string, entry: Ref, child: Ref) {
    && entry.Ptr? && entry.id in c.heap
    && match operation
       case "create" => child == entry
       case "upsert" => child == MemberOf(c, entry.id, "create") || child == MemberOf(c, entry.id, "update")
       case "connectOrCreate" => child == MemberOf(c, entry.id, "create")
       case "update" => child == entry || child == MemberOf(c, entry.id, "data")
       case "createMany" => child == MemberOf(c, entry.id, "data")
       case "updateMany" => child == MemberOf(c, entry.id, "data")
       case _ => false
  }

  /** One of the payload's entries, or the payload itself when it is no list, is an envelope of
      `child`. */
  predicate Carries(c: Setup, member: (string, Ref), child: Ref) {
    if member.1.Ptr? && member.1.id in c.heap && c.heap[member.1.id].List?
    then exists entry :: entry in c.heap[member.1.id].items && Envelope(c, member.0, entry, child)
    else Envelope(c, member.0, member.1, child)
  }

  predicate CarriedBy(c: Setup, operations: seq<(string, Ref)>, child: Ref) {
    exists i :: 0 <= i < |operations| && Carries(c, operations[i], child)
  }

  /** `member` of a record of `model` is a write through a relation to a model that is not
      audited, and `q` is mutation data in its payload. */
  predicate Through(c: Setup, model: string, member: (string, Ref), q: Position) {
    && HidesWrites(c, member.1)
    && model in c.schema && member.0 in c.schema[model]
    && q.model == c.schema[model][member.0] && !Audited(c, q.model)
    && CarriedBy(c, c.heap[member.1.id].fields, q.data)
  }

  /** `member` of a record of `model` is a write on a relation to an audited model, or on anything
      when nothing is known of the model's relations. */
  predicate Offends(c: Setup, model: string, member: (string, Ref)) {
    && HidesWrites(c, member.1)
    && (model in c.schema ==> member.0 in c.schema[model] && Audited(c, c.schema[model][member.0]))
  }

  /** The walk's own tests say the same. */
  lemma TestsAgree(c: Setup, model: string, member: (string, Ref))
    ensures HasOperator(c, member.1) <==> HidesWrites(c, member.1)
    ensures Reported(c, model, member) <==> Offends(c, model, member)
    ensures Excluded(c, model, member.0) <==>
      model in c.schema && member.0 in c.schema[model] && !Audited(c, c.schema[model][member.0])
  {
  }

  predicate Step(c: Setup, p: Position, q: Position) {
    || (IsList(c, p.data) && q.model == p.model && q.data in c.heap[p.data.id].items)
    || (IsRecord(c, p.data) && exists i ::
          0 <= i < |c.heap[p.data.id].fields| && Through(c, p.model, c.heap[p.data.id].fields[i], q))
  }

  predicate Ends(c: Setup, p: Position, relation: Relation) {
    && IsRecord(c, p.data) && relation.model == p.model
    && exists i :: 0 <= i < |c.heap[p.data.id].fields| &&
         c.heap[p.data.id].fields[i].0 == relation.field && Offends(c, p.model, c.heap[p.data.id].fields[i])
  }

  /** A way from mutation data through excluded models to a write on a relation that is
      tracked, or of a model without metadata. */
  predicate Trail(c: Setup, path: seq<Position>, relation: Relation) {
    && path != []
    && (forall i :: 0 <= i < |path| ==> IsObject(c, path[i].data))
    && (forall i :: 0 <= i < |path| - 1 ==> Step(c, path[i], path[i + 1]))
    && Ends(c, path[|path| - 1], relation)
  }

  /** No node twice, none of `ancestors`. */
  predicate Simple(path: seq<Position>, ancestors: set<NodeId>) {
    && (forall i :: 0 <= i < |path| ==> path[i].data.Ptr? && path[i].data.id !in ancestors)
    && (forall i, j :: 0 <= i < j < |path| ==> path[i].data != path[j].data)
  }

  ghost predicate SimpleTrailFrom(c: Setup, p: Position, relation: Relation) {
    exists path :: Trail(c, path, relation) && path[0] == p && Simple(path, {})
  }

  ghost predicate TrailFrom(c: Setup, p: Position, relation: Relation) {
    exists path :: Trail(c, path, relation) && path[0] == p
  }

  // ----- what payloads carry -----

  lemma EntryDataMeaning(c: Setup, operation: string, entry: Ref, child: Ref)
    ensures child in EntryData(c, operation, entry) <==> Envelope(c, operation, entry, child)
  {
  }

  lemma {:induction false} EntriesDataMeaning(c: Setup, operation: string, entries: seq<Ref>, child: Ref)
    ensures child in EntriesData(c, operation, entries) <==>
      exists entry :: entry in entries && Envelope(c, operation, entry, child)
  {
    if entries != [] {
      EntryDataMeaning(c, operation, entries[0], child);
      EntriesDataMeaning(c, operation, entries[1..], child);
      assert entries == [entries[0]] + entries[1..];
    }
  }

  lemma {:induction false} ChildrenMeaning(c: Setup, operations: seq<(string, Ref)>, child: Ref)
    ensures child in Children(c, operations) <==> CarriedBy(c, operations, child)
  {
    if operations != [] {
      var rest := operations[1..];
      EntriesDataMeaning(c, operations[0].0, Entries(c, operations[0].1), child);
      ChildrenMeaning(c, rest, child);
      assert child in MutationData(c, operations[0].0, operations[0].1) <==> Carries(c, operations[0], child);
      if CarriedBy(c, rest, child) {
        var i :| 0 <= i < |rest| && Carries(c, rest[i], child);
        assert operations[i + 1] == rest[i];
      }
      if CarriedBy(c, operations, child) && !Carries(c, operations[0], child) {
        var i :| 0 <= i < |operations| && Carries(c, operations[i], child);
        assert rest[i - 1] == operations[i];
      }
    }
  }

  // ----- the walk finds only trails -----

  lemma {:induction false} FoundInAll(
    c: Setup, model: string, items: seq<Ref>, ancestors: set<NodeId>, relation: Relation)
    returns (i: nat)
    requires relation in WalkAll(c, model, items, ancestors)
    ensures i < |items| && relation in Walk(c, model, items[i], ancestors)
    decreases |items|
  {
    if relation in Walk(c, model, items[0], ancestors) {
      i := 0;
    } else {
      i := FoundInAll(c, model, items[1..], ancestors, relation);
      i := i + 1;
    }
  }

  lemma {:induction false} FoundInFields(
    c: Setup, model: string, fields: seq<(string, Ref)>, ancestors: set<NodeId>, relation: Relation)
    returns (i: nat)
    requires relation in WalkFields(c, model, fields, ancestors)
    ensures i < |fields| && relation in WalkField(c, model, fields[i], ancestors)
    decreases |fields|
  {
    if relation in WalkField(c, model, fields[0], ancestors) {
      i := 0;
    } else {
      i := FoundInFields(c, model, fields[1..], ancestors, relation);
      i := i + 1;
    }
  }

  lemma Prepend(c: Setup, p: Position, path: seq<Position>, ancestors: set<NodeId>, relation: Relation)
    requires IsObject(c, p.data) && p.data.id !in ancestors
    requires Trail(c, path, relation) && Simple(path, ancestors + {p.data.id}) && Step(c, p, path[0])
    ensures Trail(c, [p] + path, relation) && Simple([p] + path, ancestors)
  {
    var q := [p] + path;
    forall i | 0 <= i < |q| - 1 ensures Step(c, q[i], q[i + 1]) {
      if i > 0 { assert q[i] == path[i - 1] && q[i + 1] == path[i]; }
    }
  }

  lemma {:induction false} WalkFindsTrails(
    c: Setup, model: string, data: Ref, ancestors: set<NodeId>, relation: Relation)
    returns (path: seq<Position>)
    requires relation in Walk(c, model, data, ancestors)
    ensures Trail(c, path, relation) && path[0] == Position(model, data) && Simple(path, ancestors)
    decreases Open(c, ancestors)
  {
    OpenShrinks(c, ancestors, data.id);
    var deeper := ancestors + {data.id};
    var p := Position(model, data);
    match c.heap[data.id] {
      case List(items) =>
        var i := FoundInAll(c, model, items, deeper, relation);
        path := WalkFindsTrails(c, model, items[i], deeper, relation);
        assert Step(c, p, path[0]);
        Prepend(c, p, path, ancestors, relation);
        path := [p] + path;
      case Record(fields) =>
        var i := FoundInFields(c, model, fields, deeper, relation);
        if Reported(c, model, fields[i]) {
          path := [p];
          assert Ends(c, p, relation);
        } else {
          var m := FieldKind(c, model, fields[i].0).model;
          var children := Children(c, c.heap[fields[i].1.id].fields);
          var k := FoundInAll(c, m, children, deeper, relation);
          path := WalkFindsTrails(c, m, children[k], deeper, relation);
          ChildrenMeaning(c, c.heap[fields[i].1.id].fields, children[k]);
          assert Through(c, model, fields[i], path[0]);
          Prepend(c, p, path, ancestors, relation);
          path := [p] + path;
        }
    }
  }

  // ----- and every simple one -----

  lemma {:induction false} AllFinds(
    c: Setup, model: string, items: seq<Ref>, ancestors: set<NodeId>, relation: Relation, i: nat)
    requires i < |items| && relation in Walk(c, model, items[i], ancestors)
    ensures relation in WalkAll(c, model, items, ancestors)
    decreases i
  {
    if i > 0 {
      AllFinds(c, model, items[1..], ancestors, relation, i - 1);
    }
  }

  lemma {:induction false} FieldsFind(
    c: Setup, model: string, fields: seq<(string, Ref)>, ancestors: set<NodeId>, relation: Relation, i: nat)
    requires i < |fields| && relation in WalkField(c, model, fields[i], ancestors)
    ensures relation in WalkFields(c, model, fields, ancestors)
    decreases i
  {
    if i > 0 {
      FieldsFind(c, model, fields[1..], ancestors, relation, i - 1);
    }
  }

  lemma EndIsFound(c: Setup, p: Position, ancestors: set<NodeId>, relation: Relation)
    requires Ends(c, p, relation) && p.data.id !in ancestors
    ensures relation in Walk(c, p.model, p.data, ancestors)
  {
    var fields := c.heap[p.data.id].fields;
    var i :| 0 <= i < |fields| && fields[i].0 == relation.field && Offends(c, p.model, fields[i]);
    TestsAgree(c, p.model, fields[i]);
    FieldsFind(c, p.model, fields, ancestors + {p.data.id}, relation, i);
  }

  lemma ThroughIsFound(
    c: Setup, model: string, member: (string, Ref), q: Position, ancestors: set<NodeId>, relation: Relation)
    requires Through(c, model, member, q) && relation in Walk(c, q.model, q.data, ancestors)
    ensures relation in WalkField(c, model, member, ancestors)
  {
    var operations := c.heap[member.1.id].fields;
    var children := Children(c, operations);
    ChildrenMeaning(c, operations, q.data);
    var k :| 0 <= k < |children| && children[k] == q.data;
    AllFinds(c, q.model, children, ancestors, relation, k);
  }

  lemma StepIsFound(c: Setup, p: Position, q: Position, ancestors: set<NodeId>, relation: Relation)
    requires Step(c, p, q) && p.data.id !in ancestors
    requires relation in Walk(c, q.model, q.data, ancestors + {p.data.id})
    ensures relation in Walk(c, p.model, p.data, ancestors)
  {
    var deeper := ancestors + {p.data.id};
    if IsList(c, p.data) {
      var items := c.heap[p.data.id].items;
      var i :| 0 <= i < |items| && items[i] == q.data;
      AllFinds(c, p.model, items, deeper, relation, i);
    } else {
      var fields := c.heap[p.data.id].fields;
      var i :| 0 <= i < |fields| && Through(c, p.model, fields[i], q);
      ThroughIsFound(c, p.model, fields[i], q, deeper, relation);
      FieldsFind(c, p.model, fields, deeper, relation, i);
    }
  }

  lemma {:induction false} TrailsAreFound(c: Setup, path: seq<Position>, ancestors: set<NodeId>, relation: Relation)
    requires Trail(c, path, relation) && Simple(path, ancestors)
    ensures relation in Walk(c, path[0].model, path[0].data, ancestors)
    decreases |path|
  {
    if |path| == 1 {
      EndIsFound(c, path[0], ancestors, relation);
    } else {
      var rest := path[1..];
      assert Step(c, path[0], path[1]);
      forall i | 0 <= i < |rest| - 1 ensures Step(c, rest[i], rest[i + 1]) {
        var k := i + 1;
        assert Step(c, path[k], path[k + 1]);
      }
      TrailsAreFound(c, rest, ancestors + {path[0].data.id}, relation);
      StepIsFound(c, path[0], path[1], ancestors, relation);
    }
  }

  /** On any data, cyclic or not: a relation is reported exactly when a trail leads to it that
      visits no node twice. */
  lemma WalkMeaning(c: Setup, model: string, data: Ref, relation: Relation)
    ensures relation in Walk(c, model, data, {}) <==> SimpleTrailFrom(c, Position(model, data), relation)
  {
    if relation in Walk(c, model, data, {}) {
      var path := WalkFindsTrails(c, model, data, {}, relation);
    }
    if SimpleTrailFrom(c, Position(model, data), relation) {
      var path: seq<Position> :| Trail(c, path, relation) && path[0] == Position(model, data) && Simple(path, {});
      TrailsAreFound(c, path, {}, relation);
    }
  }

  // ----- acyclic data -----

  predicate Below(r: Ref, rank: NodeId -> nat, bound: nat) {
    r.Ptr? ==> rank(r.id) < bound
  }

  /** Pointers lead to nodes of smaller rank, so there is no cycle. */
  ghost predicate Acyclic(c: Setup, rank: NodeId -> nat) {
    forall id :: id in c.heap ==>
      match c.heap[id]
      case List(items) => forall i :: 0 <= i < |items| ==> Below(items[i], rank, rank(id))
      case Record(fields) => forall i :: 0 <= i < |fields| ==> Below(fields[i].1, rank, rank(id))
  }

  lemma {:induction false} FindIsField(fields: seq<(string, Ref)>, key: string)
    ensures Find(fields, key) == Leaf || exists i :: 0 <= i < |fields| && fields[i].1 == Find(fields, key)
  {
    if fields != [] && fields[0].0 != key {
      FindIsField(fields[1..], key);
      if Find(fields, key) != Leaf {
        var i :| 0 <= i < |fields[1..]| && fields[1..][i].1 == Find(fields, key);
        assert fields[i + 1] == fields[1..][i];
      }
    }
  }

  lemma MemberBelow(c: Setup, rank: NodeId -> nat, id: NodeId, key: string)
    requires Acyclic(c, rank) && id in c.heap
    ensures Below(MemberOf(c, id, key), rank, rank(id))
  {
    if c.heap[id].Record? {
      FindIsField(c.heap[id].fields, key);
    }
  }

  lemma EnvelopeBelow(c: Setup, rank: NodeId -> nat, operation: string, entry: Ref, child: Ref)
    requires Acyclic(c, rank) && Envelope(c, operation, entry, child)
    ensures Below(child, rank, rank(entry.id) + 1)
  {
    MemberBelow(c, rank, entry.id, "create");
    MemberBelow(c, rank, entry.id, "update");
    MemberBelow(c, rank, entry.id, "data");
  }

  lemma CarriedBelow(c: Setup, rank: NodeId -> nat, member: (string, Ref), child: Ref, bound: nat)
    requires Acyclic(c, rank) && Carries(c, member, child) && Below(member.1, rank, bound)
    ensures Below(child, rank, bound)
  {
    var payload := member.1;
    if payload.Ptr? && payload.id in c.heap && c.heap[payload.id].List? {
      var entry :| entry in c.heap[payload.id].items && Envelope(c, member.0, entry, child);
      EnvelopeBelow(c, rank, member.0, entry, child);
      assert Below(entry, rank, rank(payload.id));
    } else {
      EnvelopeBelow(c, rank, member.0, payload, child);
    }
  }

  lemma ThroughBelow(c: Setup, rank: NodeId -> nat, model: string, member: (string, Ref), q: Position)
    requires Acyclic(c, rank) && Through(c, model, member, q)
    ensures Below(q.data, rank, rank(member.1.id))
  {
    var operations := c.heap[member.1.id].fields;
    var i :| 0 <= i < |operations| && Carries(c, operations[i], q.data);
    CarriedBelow(c, rank, operations[i], q.data, rank(member.1.id));
  }

  lemma StepBelow(c: Setup, rank: NodeId -> nat, p: Position, q: Position)
    requires Acyclic(c, rank) && Step(c, p, q)
    ensures Below(q.data, rank, rank(p.data.id))
  {
    if IsRecord(c, p.data) {
      var fields := c.heap[p.data.id].fields;
      var i :| 0 <= i < |fields| && Through(c, p.model, fields[i], q);
      ThroughBelow(c, rank, p.model, fields[i], q);
      assert Below(fields[i].1, rank, rank(p.data.id));
    } else {
      var items := c.heap[p.data.id].items;
      var i :| 0 <= i < |items| && items[i] == q.data;
    }
  }

  lemma TrailStep(c: Setup, path: seq<Position>, relation: Relation, i: nat)
    requires Trail(c, path, relation) && i + 1 < |path|
    ensures Step(c, path[i], path[i + 1]) && path[i].data.Ptr? && path[i + 1].data.Ptr?
  {
  }

  lemma {:induction false} TrailDescends(
    c: Setup, rank: NodeId -> nat, path: seq<Position>, relation: Relation, i: nat, j: nat)
    requires Acyclic(c, rank) && Trail(c, path, relation) && i < j < |path|
    ensures rank(path[j].data.id) < rank(path[i].data.id)
    decreases j
  {
    var k: nat := j - 1;
    TrailStep(c, path, relation, k);
    StepBelow(c, rank, path[k], path[j]);
    if i < k { TrailDescends(c, rank, path, relation, i, k); }
  }

  /** Detection is complete on acyclic data: a relation is reported exactly when some trail of
      relation fields and mutation envelopes through excluded models ends at it. */
  lemma AcyclicDetection(c: Setup, rank: NodeId -> nat, model: string, data: Ref, relation: Relation)
    requires Acyclic(c, rank)
    ensures relation in Walk(c, model, data, {}) <==> TrailFrom(c, Position(model, data), relation)
  {
    WalkMeaning(c, model, data, relation);
    if TrailFrom(c, Position(model, data), relation) {
      var path: seq<Position> :| Trail(c, path, relation) && path[0] == Position(model, data);
      forall i, j | 0 <= i < j < |path| ensures path[i].data != path[j].data {
        TrailDescends(c, rank, path, relation, i, j);
      }
      assert Simple(path, {});
    }
  }

  /** Cyclic data can hide a write: node 0 is data of "Post" whose excluded relation "user"
      carries node 0 again, now as data of "User" where "secret" is tracked. */
  const LOOP := Setup(
    map[0 := Record([("user", Ptr(1)), ("secret", Ptr(2))]),
        1 := Record([("create", Ptr(0))]),
        2 := Record([("create", Leaf)])],
    map["Post" := map["user" := "User"], "User" := map["secret" := "Secret"]],
    Some(["Post", "Secret"]), None)

  lemma LoopLeadsOn()
    ensures Step(LOOP, Position("Post", Ptr(0)), Position("User", Ptr(0)))
  {
    var fields := LOOP.heap[0].fields;
    assert WriteKey(LOOP.heap[1].fields[0].0);
    assert Envelope(LOOP, "create", Ptr(0), Ptr(0));
    assert Carries(LOOP, LOOP.heap[1].fields[0], Ptr(0));
    assert Through(LOOP, "Post", fields[0], Position("User", Ptr(0)));
  }

  lemma LoopEnds()
    ensures Ends(LOOP, Position("User", Ptr(0)), Relation("User", "secret"))
  {
    var fields := LOOP.heap[0].fields;
    assert WriteKey(LOOP.heap[2].fields[0].0);
    assert fields[1].0 == "secret" && Offends(LOOP, "User", fields[1]);
  }

  lemma TwoSteps(c: Setup, p: Position, q: Position, relation: Relation)
    requires IsObject(c, p.data) && Step(c, p, q) && Ends(c, q, relation)
    ensures TrailFrom(c, p, relation)
  {
    assert Trail(c, [p, q], relation);
  }

  lemma CyclicDataHidesWrite()
    ensures Walk(LOOP, "Post", Ptr(0), {}) == []
    ensures TrailFrom(LOOP, Position("Post", Ptr(0)), Relation("User", "secret"))
  {
    LoopLeadsOn();
    LoopEnds();
    TwoSteps(LOOP, Position("Post", Ptr(0)), Position("User", Ptr(0)), Relation("User", "secret"));
    LoopReportsNothing();
  }

  lemma LoopReportsNothing()
    ensures Walk(LOOP, "Post", Ptr(0), {}) == []
  {
    var fields := LOOP.heap[0].fields;
    var operations := LOOP.heap[1].fields;
    assert {} + {0} == {0};
    assert operations[1..] == [] && fields[1..] == [fields[1]] && fields[1..][1..] == [];
    assert EntriesData(LOOP, "create", [Ptr(0)]) == [Ptr(0)] by {
      assert [Ptr(0)][1..] == [];
    }
    assert Children(LOOP, operations) == [Ptr(0)];
    assert WalkAll(LOOP, "User", [Ptr(0)], {0}) == [] by {
      assert [Ptr(0)][1..] == [];
    }
    assert WalkField(LOOP, "Post", fields[0], {0}) == [];
    assert WalkField(LOOP, "Post", fields[1], {0}) == [];
  }

  // ----- the contract -----

  datatype Call = Call(model: string, isUpsert: bool, data: Ref, create: Ref, update: Ref)

  /** The mutation data of a top-level call. */
  ghost predicate Root(call: Call, p: Position) {
    && p.model == call.model
    && (if call.isUpsert then p.data == call.create || p.data == call.update else p.data == call.data)
  }

  /** `enforceNestedWriteContract` in atomic-required mode: the call is refused exactly when
      it hides a write to a tracked relation that a trail without repetition reaches. */
  method EnforceNestedWrites(c: Setup, noAudit: bool, call: Call) returns (refused: bool)
    ensures refused <==>
      && !noAudit && c.tracked != Some([])
      && exists p, relation :: Root(call, p) && SimpleTrailFrom(c, p, relation)
  {
    if noAudit || c.tracked == Some([]) {
      return false;
    }
    var walker := new Walker(c);
    var relations;
    if call.isUpsert {
      relations := walker.Visit(call.model, call.create);
      var more := walker.Visit(call.model, call.update);
      relations := relations + more;
    } else {
      relations := walker.Visit(call.model, call.data);
    }
    refused := relations != [];
    forall p, relation | Root(call, p) && SimpleTrailFrom(c, p, relation) ensures refused {
      WalkMeaning(c, p.model, p.data, relation);
    }
    if refused {
      var found := relations[0];
      var data :=
        if !call.isUpsert then call.data
        else if found in Walk(c, call.model, call.create, {}) then call.create
        else call.update;
      WalkMeaning(c, call.model, data, found);
      assert Root(call, Position(call.model, data));
    }
  }
}
