/** Adding the primary key to a call's projection, and taking it out of the result again. */
module Projection {
  import opened Prelude

  type Record = map<string, int>

  /** A call's `select` and `omit`. */
  datatype Shape = Shape(selected: Option<map<string, bool>>, omitted: Option<map<string, bool>>)

  predicate Shown(s: Shape, field: string) {
    if s.selected.Some? then field in s.selected.value && s.selected.value[field]
    else !(s.omitted.Some? && field in s.omitted.value && s.omitted.value[field])
  }

  /** The fields of a row that the query returns. */
  function Returned(row: Record, s: Shape): Record {
    row - set field | field in row && !Shown(s, field)
  }

  class Arguments {
    var shape: Shape

    constructor (shape: Shape)
      ensures this.shape == shape
    {
      this.shape := shape;
    }

    /** `tryInjectPk` */
    method InjectPk(pk: string) returns (injected: bool)
      modifies this
      ensures Shown(shape, pk)
      ensures forall field :: field != pk ==> (Shown(shape, field) <==> Shown(old(shape), field))
      ensures injected <==> !Shown(old(shape), pk)
      ensures !injected ==> shape == old(shape)
    {
      var selected, omitted := shape.selected, shape.omitted;
      if selected.Some? && !(pk in selected.value && selected.value[pk]) {
        shape := shape.(selected := Some(selected.value[pk := true]));
        return true;
      }
      if selected.None? && omitted.Some? && pk in omitted.value && omitted.value[pk] {
        shape := shape.(omitted := Some(omitted.value[pk := false]));
        return true;
      }
      return false;
    }
  }

  class QueryResult {
    var record: Record

    constructor (record: Record)
      ensures this.record == record
    {
      this.record := record;
    }

    /** `stripInjectedPk` */
    method StripPk(pk: string)
      modifies this
      ensures record == old(record) - {pk}
    {
      record := record - {pk};
    }
  }

  /** The audited query sees the key, and the caller gets exactly what it asked for. */
  method AuditedQuery(args: Arguments, pk: string, row: Record) returns (seen: Record, result: QueryResult)
    requires pk in row
    modifies args
    ensures pk in seen && seen[pk] == row[pk]
    ensures result.record == Returned(row, old(args.shape))
  {
    ghost var asked := args.shape;
    var injected := args.InjectPk(pk);
    seen := Returned(row, args.shape);
    result := new QueryResult(seen);
    if injected { result.StripPk(pk); }
    StripUndoesInject(row, asked, args.shape, pk);
  }

  lemma StripUndoesInject(row: Record, asked: Shape, used: Shape, pk: string)
    requires Shown(used, pk) && forall field :: field != pk ==> (Shown(used, field) <==> Shown(asked, field))
    ensures Returned(row, used) - (if Shown(asked, pk) then {} else {pk}) == Returned(row, asked)
  {
  }
}
