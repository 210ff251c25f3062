/** Redaction of sensitive fields and the change sets stored with each audit row. */
module Diff {
  import opened Keyed
  import opened Prelude
  import opened Values

  const REDACTED: Value := Str("[REDACTED]")

  type Record = seq<(string, Value)>

  /** `redactNestedValue`; dates and scalars stay as they are. */
  function Redact(v: Value, fields: set<string>): Value
    decreases v, 1
  {
    match v
    case Arr(items) => Arr(RedactItems(items, fields))
    case Obj(ms) => Obj(RedactMembers(ms, fields))
    case _ => v
  }

  function RedactItems(vs: seq<Value>, fields: set<string>): (r: seq<Value>)
    ensures |r| == |vs|
    ensures forall i :: 0 <= i < |vs| ==> r[i] == Redact(vs[i], fields)
    decreases vs, 0
  {
    if vs == [] then [] else [Redact(vs[0], fields)] + RedactItems(vs[1..], fields)
  }

  function RedactMember(m: (string, Value), fields: set<string>): (string, Value)
    decreases m, 0
  {
    (m.0, if m.0 in fields then REDACTED else Redact(m.1, fields))
  }

  function RedactMembers(ms: Record, fields: set<string>): (r: Record)
    ensures |r| == |ms|
    ensures forall i :: 0 <= i < |ms| ==> r[i] == RedactMember(ms[i], fields)
    decreases ms, 0
  {
    if ms == [] then [] else [RedactMember(ms[0], fields)] + RedactMembers(ms[1..], fields)
  }

  function RedactObject(record: Record, fields: set<string>): Record {
    RedactMembers(record, fields)
  }

  /** Equal except, possibly, under a sensitive key. */
  predicate SameOutside(a: Value, b: Value, fields: set<string>)
    decreases a, 1
  {
    match (a, b)
    case (Arr(xs), Arr(ys)) =>
      |xs| == |ys| && forall i :: 0 <= i < |xs| ==> SameOutside(xs[i], ys[i], fields)
    case (Obj(ms), Obj(ns)) =>
      |ms| == |ns| && forall i :: 0 <= i < |ms| ==> SameMemberOutside(ms[i], ns[i], fields)
    case _ => a == b
  }

  predicate SameMemberOutside(m: (string, Value), n: (string, Value), fields: set<string>)
    decreases m, 0
  {
    m.0 == n.0 && (m.0 in fields || SameOutside(m.1, n.1, fields))
  }

  /** Redacting by `a` and then by `b` is redacting by both at once. */
  lemma {:induction false} RedactCompose(v: Value, a: set<string>, b: set<string>)
    ensures Redact(Redact(v, a), b) == Redact(v, a + b)
    decreases v
  {
    match v
    case Arr(items) =>
      forall i | 0 <= i < |items|
        ensures Redact(Redact(items[i], a), b) == Redact(items[i], a + b)
      {
        RedactCompose(items[i], a, b);
      }
      assert RedactItems(RedactItems(items, a), b) == RedactItems(items, a + b);
    case Obj(ms) =>
      forall i | 0 <= i < |ms|
        ensures RedactMember(RedactMember(ms[i], a), b) == RedactMember(ms[i], a + b)
      {
        RedactCompose(ms[i].1, a, b);
      }
      assert RedactMembers(RedactMembers(ms, a), b) == RedactMembers(ms, a + b);
    case _ =>
  }

  lemma RedactIdempotent(v: Value, fields: set<string>)
    ensures Redact(Redact(v, fields), fields) == Redact(v, fields)
  {
    RedactCompose(v, fields, fields);
    assert fields + fields == fields;
  }

  /** The redacted value shows exactly what lies outside the sensitive positions. */
  lemma {:induction false} RedactShowsOutside(a: Value, b: Value, fields: set<string>)
    ensures Redact(a, fields) == Redact(b, fields) <==> SameOutside(a, b, fields)
    decreases a
  {
    match (a, b)
    case (Arr(xs), Arr(ys)) =>
      forall i | 0 <= i < |xs| && i < |ys|
        ensures RedactItems(xs, fields)[i] == RedactItems(ys, fields)[i] <==> SameOutside(xs[i], ys[i], fields)
      {
        RedactShowsOutside(xs[i], ys[i], fields);
      }
    case (Obj(ms), Obj(ns)) =>
      forall i | 0 <= i < |ms| && i < |ns|
        ensures RedactMembers(ms, fields)[i] == RedactMembers(ns, fields)[i] <==>
          SameMemberOutside(ms[i], ns[i], fields)
      {
        RedactShowsOutside(ms[i].1, ns[i].1, fields);
      }
    case _ =>
  }

  /** `w` is `v` with "[REDACTED]" under every sensitive key, at every depth, and nothing else
      changed. */
  predicate Masks(v: Value, w: Value, fields: set<string>)
    decreases v, 1
  {
    match v
    case Arr(items) =>
      w.Arr? && |w.items| == |items| && forall i :: 0 <= i < |items| ==> Masks(items[i], w.items[i], fields)
    case Obj(ms) =>
      w.Obj? && |w.members| == |ms| && forall i :: 0 <= i < |ms| ==> MasksMember(ms[i], w.members[i], fields)
    case _ => w == v
  }

  predicate MasksMember(m: (string, Value), n: (string, Value), fields: set<string>)
    decreases m, 0
  {
    m.0 == n.0 && if m.0 in fields then n.1 == Str("[REDACTED]") else Masks(m.1, n.1, fields)
  }

  lemma {:induction false} RedactMasks(v: Value, w: Value, fields: set<string>)
    ensures Masks(v, w, fields) <==> w == Redact(v, fields)
    decreases v
  {
    match v
    case Arr(items) =>
      forall i | w.Arr? && 0 <= i < |items| && i < |w.items|
        ensures Masks(items[i], w.items[i], fields) <==> w.items[i] == RedactItems(items, fields)[i]
      {
        RedactMasks(items[i], w.items[i], fields);
      }
    case Obj(ms) =>
      forall i | w.Obj? && 0 <= i < |ms| && i < |w.members|
        ensures MasksMember(ms[i], w.members[i], fields) <==> w.members[i] == RedactMembers(ms, fields)[i]
      {
        RedactMasks(ms[i].1, w.members[i].1, fields);
      }
    case _ =>
  }

  // ----- change sets -----

  datatype FieldChange = FieldChange(before: Option<Value>, after: Option<Value>)
  type Changes = map<string, FieldChange>

  function Keys(record: Record): set<string> {
    set i | 0 <= i < |record| :: record[i].0
  }

  /** `record[key]` */
  function Get(record: Record, key: string): Value {
    if record == [] then Undefined
    else if record[0].0 == key then record[0].1
    else Get(record[1..], key)
  }

  /** A field's value in a change set: hidden under a sensitive key, else masked inside. */
  predicate ShownAs(key: string, value: Value, fields: set<string>, shown: Value) {
    if key in fields then shown == Str("[REDACTED]") else Masks(value, shown, fields)
  }

  lemma FieldIsShown(key: string, value: Value, fields: set<string>)
    ensures ShownAs(key, value, fields, RedactField(key, value, fields))
  {
    RedactMasks(value, Redact(value, fields), fields);
  }

  /** What the three change sets hold: the keys named, and before and after as shown. */
  lemma ChangesShow(before: Record, after: Record, fields: set<string>, ignored: set<string>, key: string)
    ensures key in CreateChanges(after, fields) <==> key in Keys(after)
    ensures key in CreateChanges(after, fields) ==>
      var c := CreateChanges(after, fields)[key];
      c.before.None? && c.after.Some? && ShownAs(key, Get(after, key), fields, c.after.value)
    ensures key in DeleteChanges(before, fields) <==> key in Keys(before)
    ensures key in DeleteChanges(before, fields) ==>
      var c := DeleteChanges(before, fields)[key];
      c.after.None? && c.before.Some? && ShownAs(key, Get(before, key), fields, c.before.value)
    ensures key in UpdateChanges(before, after, fields, ignored) <==>
      key in Keys(after) && key !in ignored && !IsDeepEqual(Get(before, key), Get(after, key))
    ensures key in UpdateChanges(before, after, fields, ignored) ==>
      var c := UpdateChanges(before, after, fields, ignored)[key];
      && c.before.Some? && ShownAs(key, Get(before, key), fields, c.before.value)
      && c.after.Some? && ShownAs(key, Get(after, key), fields, c.after.value)
  {
    FieldIsShown(key, Get(before, key), fields);
    FieldIsShown(key, Get(after, key), fields);
  }

  /** `redactFieldValue` */
  function RedactField(key: string, value: Value, fields: set<string>): Value {
    if key in fields then REDACTED
    else if !IsObject(value) then value
    else Redact(value, fields)
  }

  predicate Changed(before: Record, after: Record, ignored: set<string>, key: string) {
    key in Keys(after) && key !in ignored && !IsDeepEqual(Get(before, key), Get(after, key))
  }

  function CreateChanges(after: Record, fields: set<string>): Changes {
    map k | k in Keys(after) :: FieldChange(None, Some(RedactField(k, Get(after, k), fields)))
  }

  function UpdateChanges(before: Record, after: Record, fields: set<string>, ignored: set<string>): Changes {
    map k | k in Keys(after) && Changed(before, after, ignored, k) ::
      FieldChange(Some(RedactField(k, Get(before, k), fields)), Some(RedactField(k, Get(after, k), fields)))
  }

  function DeleteChanges(before: Record, fields: set<string>): Changes {
    map k | k in Keys(before) :: FieldChange(Some(RedactField(k, Get(before, k), fields)), None)
  }

  lemma {:induction false} GetAt(record: Record, i: nat)
    requires Distinct(record) && i < |record|
    ensures Get(record, record[i].0) == record[i].1
  {
    if i > 0 { GetAt(record[1..], i - 1); }
  }

  lemma {:induction false} GetMissing(record: Record, key: string)
    requires key !in Keys(record)
    ensures Get(record, key) == Undefined
  {
    if record != [] {
      assert record[0].0 in Keys(record);
      forall k | k in Keys(record[1..]) ensures k in Keys(record) {
        var i :| 0 <= i < |record[1..]| && record[1..][i].0 == k;
        assert record[i + 1].0 == k;
      }
      GetMissing(record[1..], key);
    }
  }

  method ComputeCreateChanges(after: Record, fields: set<string>) returns (changes: Changes)
    requires Distinct(after)
    ensures changes == CreateChanges(after, fields)
  {
    changes := map[];
    for i := 0 to |after|
      invariant changes == CreateChanges(after[..i], fields)
    {
      var (key, value) := after[i];
      ExtendPrefix(after, i);
      changes := changes[key := FieldChange(None, Some(RedactField(key, value, fields)))];
    }
    assert after[..|after|] == after;
  }

  method ComputeUpdateChanges(before: Record, after: Record, fields: set<string>, ignored: set<string>)
    returns (changes: Changes)
    requires Distinct(after)
    ensures changes == UpdateChanges(before, after, fields, ignored)
  {
    changes := map[];
    for i := 0 to |after|
      invariant changes == UpdateChanges(before, after[..i], fields, ignored)
    {
      var (key, value) := after[i];
      UpdateStep(before, after, fields, ignored, i);
      if key in ignored {
        continue;
      }
      if !IsDeepEqual(Get(before, key), value) {
        changes := changes[key := FieldChange(Some(RedactField(key, Get(before, key), fields)),
                                              Some(RedactField(key, value, fields)))];
      }
    }
    assert after[..|after|] == after;
  }

  method ComputeDeleteChanges(before: Record, fields: set<string>) returns (changes: Changes)
    requires Distinct(before)
    ensures changes == DeleteChanges(before, fields)
  {
    changes := map[];
    for i := 0 to |before|
      invariant changes == DeleteChanges(before[..i], fields)
    {
      var (key, value) := before[i];
      ExtendPrefix(before, i);
      changes := changes[key := FieldChange(Some(RedactField(key, value, fields)), None)];
    }
    assert before[..|before|] == before;
  }

  /** What one more entry adds to the changes. */
  lemma UpdateStep(before: Record, after: Record, fields: set<string>, ignored: set<string>, i: nat)
    requires Distinct(after) && i < |after|
    ensures var (key, value) := after[i];
      UpdateChanges(before, after[..i + 1], fields, ignored) ==
        if key in ignored || IsDeepEqual(Get(before, key), value)
        then UpdateChanges(before, after[..i], fields, ignored)
        else UpdateChanges(before, after[..i], fields, ignored)
          [key := FieldChange(Some(RedactField(key, Get(before, key), fields)), Some(RedactField(key, value, fields)))]
  {
    ExtendPrefix(after, i);
  }

  /** One more entry adds one key and leaves the other values alone. */
  lemma ExtendPrefix(record: Record, i: nat)
    requires Distinct(record) && i < |record|
    ensures Keys(record[..i + 1]) == Keys(record[..i]) + {record[i].0}
    ensures record[i].0 !in Keys(record[..i])
    ensures Get(record[..i + 1], record[i].0) == record[i].1
    ensures forall k :: k in Keys(record[..i]) ==> Get(record[..i + 1], k) == Get(record[..i], k)
  {
    var shorter, longer := record[..i], record[..i + 1];
    assert longer[i] == record[i];
    GetAt(longer, i);
    forall k | k in Keys(shorter) ensures Get(longer, k) == Get(shorter, k) {
      var j :| 0 <= j < |shorter| && shorter[j].0 == k;
      GetAt(shorter, j);
      assert longer[j] == shorter[j];
      GetAt(longer, j);
    }
    forall k | k in Keys(longer) ensures k in Keys(shorter) + {record[i].0} {
      var j :| 0 <= j < |longer| && longer[j].0 == k;
      assert j < i ==> shorter[j] == longer[j];
    }
    forall k | k in Keys(shorter) ensures k in Keys(longer) {
      var j :| 0 <= j < |shorter| && shorter[j].0 == k;
      assert longer[j] == shorter[j];
    }
  }

  // ----- replaying a change set -----

  /** The record with the recorded new values put in. */
  function ReplayAfter(before: Record, changes: Changes, key: string): Value {
    if key in changes && changes[key].after.Some? then changes[key].after.value else Get(before, key)
  }

  /** The record with the recorded old values put back. */
  function ReplayBefore(after: Record, changes: Changes, key: string): Value {
    if key in changes && changes[key].before.Some? then changes[key].before.value else Get(after, key)
  }

  predicate RecordWellFormed(record: Record) {
    WellFormed(Obj(record))
  }

  lemma GetWellFormed(record: Record, key: string)
    requires RecordWellFormed(record)
    ensures WellFormed(Get(record, key))
  {
    if key in Keys(record) {
      var i :| 0 <= i < |record| && record[i].0 == key;
      GetAt(record, i);
    } else {
      GetMissing(record, key);
    }
  }

  lemma {:induction false} RedactNothing(v: Value)
    ensures Redact(v, {}) == v
    decreases v
  {
    match v
    case Arr(items) =>
      forall i | 0 <= i < |items| ensures Redact(items[i], {}) == items[i] { RedactNothing(items[i]); }
      assert RedactItems(items, {}) == items;
    case Obj(ms) =>
      forall i | 0 <= i < |ms| ensures RedactMember(ms[i], {}) == ms[i] { RedactNothing(ms[i].1); }
      assert RedactMembers(ms, {}) == ms;
    case _ =>
  }

  /** Without sensitive fields an update's change set leads from the old record to the
      new one and back, up to key order, on every reported key. */
  lemma UpdateReplays(before: Record, after: Record, ignored: set<string>, key: string)
    requires RecordWellFormed(before) && RecordWellFormed(after)
    requires key in Keys(after) && key !in ignored
    ensures Equiv(ReplayAfter(before, UpdateChanges(before, after, {}, ignored), key), Get(after, key))
    ensures Equiv(ReplayBefore(after, UpdateChanges(before, after, {}, ignored), key), Get(before, key))
  {
    var b, a := Get(before, key), Get(after, key);
    GetWellFormed(before, key);
    GetWellFormed(after, key);
    RedactNothing(b);
    RedactNothing(a);
    DeepEqualMeaning(b, a);
    DeepEqualMeaning(a, b);
    DeepEqualMeaning(a, a);
    DeepEqualMeaning(b, b);
    DeepEqualEquivalence(b, a, a);
    DeepEqualEquivalence(a, b, b);
  }

  /** The change set from `a` to `c` names only keys that one of two steps through `b` names. */
  predicate Composes(a: Record, b: Record, c: Record, fields: set<string>, ignored: set<string>) {
    UpdateChanges(a, c, fields, ignored).Keys
      <= UpdateChanges(a, b, fields, ignored).Keys + UpdateChanges(b, c, fields, ignored).Keys
  }

  /** No field that `b` lacks goes unnoticed from something to undefined. */
  predicate NothingLost(a: Record, b: Record, c: Record, ignored: set<string>) {
    forall key :: key in Keys(c) && key !in Keys(b) && key !in ignored ==>
      (Get(c, key) == Undefined ==> Get(a, key) == Undefined)
  }

  lemma ChangedComposes(a: Record, b: Record, c: Record, ignored: set<string>, key: string)
    requires RecordWellFormed(a) && RecordWellFormed(b) && RecordWellFormed(c)
    requires Changed(a, c, ignored, key)
    ensures Changed(a, b, ignored, key) || Changed(b, c, ignored, key) <==>
      key in Keys(b) || Get(c, key) != Undefined || Get(a, key) == Undefined
  {
    GetWellFormed(a, key);
    GetWellFormed(b, key);
    GetWellFormed(c, key);
    DeepEqualEquivalence(Get(a, key), Get(b, key), Get(c, key));
    if key !in Keys(b) { GetMissing(b, key); }
  }

  /** Two updates in a row compose exactly when no field that the middle record lacks is
      undefined at the end and was something at the start. */
  lemma UpdateComposesExactly(a: Record, b: Record, c: Record, fields: set<string>, ignored: set<string>)
    requires RecordWellFormed(a) && RecordWellFormed(b) && RecordWellFormed(c)
    ensures Composes(a, b, c, fields, ignored) <==> NothingLost(a, b, c, ignored)
  {
    forall key | Changed(a, c, ignored, key)
      ensures Changed(a, b, ignored, key) || Changed(b, c, ignored, key) <==>
        key in Keys(b) || Get(c, key) != Undefined || Get(a, key) == Undefined
    {
      ChangedComposes(a, b, c, ignored, key);
    }
    if Composes(a, b, c, fields, ignored) {
      forall key | key in Keys(c) && key !in Keys(b) && key !in ignored && Get(c, key) == Undefined
        ensures Get(a, key) == Undefined
      {
        if Changed(a, c, ignored, key) {
          assert key in UpdateChanges(a, c, fields, ignored).Keys;
        } else {
          assert IsDeepEqual(Get(a, key), Undefined);
        }
      }
    }
  }

  /** In particular when the middle record has all keys of the last one. */
  lemma UpdateComposes(a: Record, b: Record, c: Record, fields: set<string>, ignored: set<string>)
    requires RecordWellFormed(a) && RecordWellFormed(b) && RecordWellFormed(c)
    requires Keys(c) <= Keys(b)
    ensures Composes(a, b, c, fields, ignored)
  {
    UpdateComposesExactly(a, b, c, fields, ignored);
  }

  const WITH_NULL: Record := [("k", Null)]
  const WITH_UNDEFINED: Record := [("k", Undefined)]

  /** The key sets matter: a key dropped by the middle record and then set to undefined
      changes overall without changing in either step. */
  lemma UpdateComposesNeedsKeys()
    ensures RecordWellFormed(WITH_NULL) && RecordWellFormed([]) && RecordWellFormed(WITH_UNDEFINED)
    ensures "k" in UpdateChanges(WITH_NULL, WITH_UNDEFINED, {}, {})
    ensures "k" !in UpdateChanges(WITH_NULL, [], {}, {})
    ensures "k" !in UpdateChanges([], WITH_UNDEFINED, {}, {})
  {
    assert WITH_UNDEFINED[0].0 == "k";
    assert "k" in Keys(WITH_UNDEFINED);
    assert Get(WITH_UNDEFINED, "k") == Undefined && Get(WITH_NULL, "k") == Null && Get([], "k") == Undefined;
    assert Keys([]) == {};
  }

  /** An update that reports nothing left every field it looked at as it was: the test for
      timestamp-only updates is exact. */
  lemma NoChangesMeaning(before: Record, after: Record, fields: set<string>, ignored: set<string>)
    requires RecordWellFormed(before) && RecordWellFormed(after)
    ensures UpdateChanges(before, after, fields, ignored) == map[] <==>
      forall k :: k in Keys(after) && k !in ignored ==> Equiv(Get(before, k), Get(after, k))
  {
    var changes := UpdateChanges(before, after, fields, ignored);
    forall k | k in Keys(after)
      ensures IsDeepEqual(Get(before, k), Get(after, k)) <==> Equiv(Get(before, k), Get(after, k))
    {
      GetWellFormed(before, k);
      GetWellFormed(after, k);
      DeepEqualMeaning(Get(before, k), Get(after, k));
    }
    assert changes == map[] <==> changes.Keys == {};
    forall k | k in Keys(after) && k !in ignored && !Equiv(Get(before, k), Get(after, k)) ensures k in changes.Keys {
    }
  }

  /** What an update reports as changed never depends on what is sensitive. */
  lemma ChangedKeysIgnoreRedaction(before: Record, after: Record, f: set<string>, g: set<string>, ignored: set<string>)
    ensures UpdateChanges(before, after, f, ignored).Keys == UpdateChanges(before, after, g, ignored).Keys
  {
  }

  /** Field by field, create and delete change sets hold what `redactObject` shows. */
  lemma ChangesAgreeWithRedactObject(record: Record, fields: set<string>, key: string)
    requires Distinct(record) && key in Keys(record)
    ensures CreateChanges(record, fields)[key].after == Some(Get(RedactObject(record, fields), key))
    ensures DeleteChanges(record, fields)[key].before == Some(Get(RedactObject(record, fields), key))
  {
    var i :| 0 <= i < |record| && record[i].0 == key;
    GetAt(record, i);
    var r := RedactObject(record, fields);
    assert r[i] == RedactMember(record[i], fields);
    assert Distinct(r);
    GetAt(r, i);
    assert r[i].0 == key;
    var value := record[i].1;
    assert !IsObject(value) ==> Redact(value, fields) == value;
    assert r[i].1 == if key in fields then REDACTED else Redact(value, fields);
    assert key in CreateChanges(record, fields) && key in DeleteChanges(record, fields);
  }
}
