/** Audit rows and the filter conditions that history queries and scans put on them. */
module Rows {
  import opened Keys
  import opened Prelude
  import opened Values
  import opened Wildcard

  datatype Entry = Entry(
    tenantId: Option<string>,
    actorId: Option<string>,
    actorType: string,
    actorIp: Option<string>,
    action: string,
    targetType: Option<string>,
    targetId: Option<string>,
    source: string,
    changes: Option<Value>,
    metadata: Option<Value>,
    result: string)

  /** An append-only table: keys are unique, rows never change in place. */
  type Table = map<Key, Entry>

  /** `from` and `to` are JavaScript dates: milliseconds on the key's timeline. */
  datatype Filter = Filter(
    tenantId: Option<string>,
    actorId: Option<string>,
    actorType: Option<string>,
    action: Option<string>,
    targetType: Option<string>,
    targetId: Option<string>,
    source: Option<string>,
    result: Option<string>,
    from: Option<int>,
    to: Option<int>)

  datatype Column = TenantId | ActorId | ActorType | TargetType | TargetId | Source | Result

  datatype Dialect = Postgres | SqlServer

  datatype Condition =
    | Equals(column: Column, value: string)
    | Action(dialect: Dialect, filter: string)
    | CreatedFrom(ms: int)
    | CreatedTo(ms: int)
    | After(key: Key)
    | Until(key: Key)

  function Cell(e: Entry, c: Column): Option<string> {
    match c
    case TenantId => e.tenantId
    case ActorId => e.actorId
    case ActorType => Some(e.actorType)
    case TargetType => e.targetType
    case TargetId => e.targetId
    case Source => Some(e.source)
    case Result => Some(e.result)
  }

  /** SQL's answer for one row; a comparison with NULL selects nothing. */
  predicate Holds(c: Condition, k: Key, e: Entry) {
    match c
    case Equals(column, value) => Cell(e, column) == Some(value)
    case Action(dialect, filter) =>
      (if dialect.Postgres? then PgAction(filter, e.action) else MsAction(filter, e.action)) == Answer(true)
    case CreatedFrom(ms) => ms * 1000 <= k.ts
    case CreatedTo(ms) => k.ts <= ms * 1000
    case After(key) => Before(key, k)
    case Until(key) => UpTo(k, key)
  }

  /** `WHERE c1 AND c2 AND ...` */
  predicate Where(conditions: seq<Condition>, k: Key, e: Entry) {
    conditions == [] || (Holds(conditions[0], k, e) && Where(conditions[1..], k, e))
  }

  /** An optional text filter counts only when it is a non-empty string. */
  predicate Given(f: Option<string>) {
    f.Some? && f.value != ""
  }

  predicate MatchesColumn(f: Option<string>, cell: Option<string>) {
    Given(f) ==> cell == f
  }

  predicate MatchesDates(f: Filter, k: Key) {
    (f.from.Some? ==> f.from.value * 1000 <= k.ts) && (f.to.Some? ==> k.ts <= f.to.value * 1000)
  }

  /** The filters that scans and queries share. */
  predicate MatchesScan(f: Filter, k: Key, e: Entry) {
    && (f.tenantId.Some? ==> e.tenantId == f.tenantId)
    && MatchesColumn(f.actorId, e.actorId)
    && (Given(f.action) ==> Glob(f.action.value, e.action))
    && MatchesColumn(f.targetType, e.targetType)
    && MatchesColumn(f.targetId, e.targetId)
    && MatchesDates(f, k)
  }

  /** What a history query's filter means. */
  predicate Matches(f: Filter, k: Key, e: Entry) {
    && MatchesScan(f, k, e)
    && MatchesColumn(f.actorType, Some(e.actorType))
    && MatchesColumn(f.source, Some(e.source))
    && MatchesColumn(f.result, Some(e.result))
  }

  /** A text filter counts when it is given and not empty, and then asks for exactly that text;
      a tenant counts whenever it is given; dates include their ends. */
  lemma MatchesMeaning(f: Filter, k: Key, e: Entry)
    ensures Matches(f, k, e) <==>
      && (f.tenantId.Some? ==> e.tenantId == Some(f.tenantId.value))
      && (f.actorId.Some? && f.actorId.value != "" ==> e.actorId == Some(f.actorId.value))
      && (f.actorType.Some? && f.actorType.value != "" ==> e.actorType == f.actorType.value)
      && (f.action.Some? && f.action.value != "" ==> Glob(f.action.value, e.action))
      && (f.targetType.Some? && f.targetType.value != "" ==> e.targetType == Some(f.targetType.value))
      && (f.targetId.Some? && f.targetId.value != "" ==> e.targetId == Some(f.targetId.value))
      && (f.source.Some? && f.source.value != "" ==> e.source == f.source.value)
      && (f.result.Some? && f.result.value != "" ==> e.result == f.result.value)
      && (f.from.Some? ==> f.from.value * 1000 <= k.ts) && (f.to.Some? ==> k.ts <= f.to.value * 1000)
    ensures MatchesScan(f, k, e) <==> Matches(f.(actorType := None, source := None, result := None), k, e)
  {
  }

  predicate Bounded(after: Option<Key>, until: Option<Key>, k: Key) {
    (after.Some? ==> Before(after.value, k)) && (until.Some? ==> UpTo(k, until.value))
  }

  lemma ActionHolds(dialect: Dialect, filter: string, k: Key, e: Entry)
    ensures Holds(Action(dialect, filter), k, e) <==> Glob(filter, e.action)
  {
    ActionFilterMeaning(filter, e.action);
  }

  lemma {:induction false} WherePush(conditions: seq<Condition>, c: Condition, k: Key, e: Entry)
    ensures Where(conditions + [c], k, e) <==> Where(conditions, k, e) && Holds(c, k, e)
  {
    if conditions != [] {
      WherePush(conditions[1..], c, k, e);
      assert (conditions + [c])[1..] == conditions[1..] + [c];
    }
  }

  /** The list `conditions` says exactly `meaning`. */
  ghost predicate Says(conditions: seq<Condition>, meaning: (Key, Entry) -> bool) {
    forall k, e :: Where(conditions, k, e) <==> meaning(k, e)
  }

  type Meaning = (Key, Entry) -> bool

  /** `if (wanted) conditions.push(c)` */
  method PushIf(conditions: seq<Condition>, wanted: bool, c: Condition, ghost meaning: Meaning)
    returns (pushed: seq<Condition>, ghost stronger: Meaning)
    requires Says(conditions, meaning)
    ensures Says(pushed, stronger)
    ensures forall k, e :: stronger(k, e) <==> meaning(k, e) && (wanted ==> Holds(c, k, e))
  {
    pushed := if wanted then conditions + [c] else conditions;
    stronger := (k, e) => meaning(k, e) && (wanted ==> Holds(c, k, e));
    forall k, e ensures Where(pushed, k, e) <==> stronger(k, e) {
      WherePush(conditions, c, k, e);
    }
  }

  method PushColumn(conditions: seq<Condition>, column: Column, f: Option<string>, ghost meaning: Meaning)
    returns (pushed: seq<Condition>, ghost stronger: Meaning)
    requires Says(conditions, meaning)
    ensures Says(pushed, stronger)
    ensures forall k, e :: stronger(k, e) <==> meaning(k, e) && MatchesColumn(f, Cell(e, column))
  {
    pushed, stronger := PushIf(conditions, Given(f), Equals(column, if Given(f) then f.value else ""), meaning);
  }

  method PushAction(conditions: seq<Condition>, dialect: Dialect, f: Option<string>, ghost meaning: Meaning)
    returns (pushed: seq<Condition>, ghost stronger: Meaning)
    requires Says(conditions, meaning)
    ensures Says(pushed, stronger)
    ensures forall k, e :: stronger(k, e) <==> meaning(k, e) && (Given(f) ==> Glob(f.value, e.action))
  {
    var filter := if Given(f) then f.value else "";
    pushed, stronger := PushIf(conditions, Given(f), Action(dialect, filter), meaning);
    forall k, e ensures Holds(Action(dialect, filter), k, e) <==> Glob(filter, e.action) {
      ActionHolds(dialect, filter, k, e);
    }
  }

  method PushDates(conditions: seq<Condition>, f: Filter, ghost meaning: Meaning)
    returns (pushed: seq<Condition>, ghost stronger: Meaning)
    requires Says(conditions, meaning)
    ensures Says(pushed, stronger)
    ensures forall k, e :: stronger(k, e) <==> meaning(k, e) && MatchesDates(f, k)
  {
    var from := CreatedFrom(if f.from.Some? then f.from.value else 0);
    pushed, stronger := PushIf(conditions, f.from.Some?, from, meaning);
    pushed, stronger := PushIf(pushed, f.to.Some?, CreatedTo(if f.to.Some? then f.to.value else 0), stronger);
  }

  /** The conditions on the tenant and the actor. */
  method PushWho(f: Filter) returns (pushed: seq<Condition>, ghost m: Meaning)
    ensures Says(pushed, m)
    ensures forall k, e :: m(k, e) <==>
      (f.tenantId.Some? ==> e.tenantId == f.tenantId) && MatchesColumn(f.actorId, e.actorId)
  {
    var tenant := Equals(TenantId, if f.tenantId.Some? then f.tenantId.value else "");
    pushed, m := PushIf([], f.tenantId.Some?, tenant, (k, e) => true);
    pushed, m := PushColumn(pushed, ActorId, f.actorId, m);
  }

  method PushTarget(conditions: seq<Condition>, f: Filter, ghost meaning: Meaning)
    returns (pushed: seq<Condition>, ghost stronger: Meaning)
    requires Says(conditions, meaning)
    ensures Says(pushed, stronger)
    ensures forall k, e :: stronger(k, e) <==>
      meaning(k, e) && MatchesColumn(f.targetType, e.targetType) && MatchesColumn(f.targetId, e.targetId)
  {
    pushed, stronger := PushColumn(conditions, TargetType, f.targetType, meaning);
    pushed, stronger := PushColumn(pushed, TargetId, f.targetId, stronger);
  }

  const EPOCH: Key := Key(0, 0)

  method PushRange(conditions: seq<Condition>, after: Option<Key>, until: Option<Key>, ghost meaning: Meaning)
    returns (pushed: seq<Condition>, ghost stronger: Meaning)
    requires Says(conditions, meaning)
    ensures Says(pushed, stronger)
    ensures forall k, e :: stronger(k, e) <==> meaning(k, e) && Bounded(after, until, k)
  {
    pushed, stronger := PushIf(conditions, after.Some?, After(if after.Some? then after.value else EPOCH), meaning);
    pushed, stronger := PushIf(pushed, until.Some?, Until(if until.Some? then until.value else EPOCH), stronger);
  }

  /** `buildScanConditions` */
  method BuildScanConditions(f: Filter, after: Option<Key>, until: Option<Key>) returns (conditions: seq<Condition>)
    ensures forall k, e :: Where(conditions, k, e) <==> MatchesScan(f, k, e) && Bounded(after, until, k)
  {
    ghost var m: Meaning;
    conditions, m := PushWho(f);
    conditions, m := PushAction(conditions, Postgres, f.action, m);
    conditions, m := PushTarget(conditions, f, m);
    conditions, m := PushDates(conditions, f, m);
    conditions, m := PushRange(conditions, after, until, m);
  }

  /** The conditions of a history query, without its cursor. */
  method BuildQueryConditions(dialect: Dialect, f: Filter) returns (conditions: seq<Condition>)
    ensures forall k, e :: Where(conditions, k, e) <==> Matches(f, k, e)
  {
    ghost var m: Meaning;
    conditions, m := PushWho(f);
    conditions, m := PushColumn(conditions, ActorType, f.actorType, m);
    conditions, m := PushAction(conditions, dialect, f.action, m);
    conditions, m := PushTarget(conditions, f, m);
    conditions, m := PushColumn(conditions, Source, f.source, m);
    conditions, m := PushColumn(conditions, Result, f.result, m);
    conditions, m := PushDates(conditions, f, m);
  }
}
