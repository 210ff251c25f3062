/** Which records a deleteMany audits and which it deletes: the batch is found by the call's
    `where`, locked and read again by primary key, and deleted by `where` once more, all at
    READ COMMITTED.  Only the two counts are compared. */
module BatchDeletes {
  import opened Prelude

  type Pk = nat
  type Value = int
  type Where = Value -> bool

  datatype Captured = Captured(pk: Pk, record: Value)

  /** `Locking` stands before the next row's lock, `Rereading` between lock and re-read. */
  datatype Phase = Finding | Locking(todo: seq<Pk>) | Rereading(todo: seq<Pk>) | Deleted | Refused

  /** `rows` is what the deleting transaction sees.  `used` are the keys that ever existed. */
  datatype State = State(
    rows: map<Pk, Value>,
    used: set<Pk>,
    locked: set<Pk>,
    phase: Phase,
    captured: seq<Captured>,
    deleted: map<Pk, Value>,
    marked: bool,
    audited: seq<Captured>,
    committed: bool)

  datatype Event =
    | OthersCommit(rows: map<Pk, Value>)
    | Find(found: seq<Pk>)
    | Overflow
    | TakeLock
    | Reread
    | Delete
    | WriteRecord
    | Commit

  function Start(rows: map<Pk, Value>): State {
    State(rows, rows.Keys, {}, Finding, [], map[], false, [], false)
  }

  function Matching(matches: Where, rows: map<Pk, Value>): set<Pk> {
    set pk | pk in rows && matches(rows[pk])
  }

  predicate Distinct(pks: seq<Pk>) {
    forall i, j :: 0 <= i < j < |pks| ==> pks[i] != pks[j]
  }

  function PkSet(pks: seq<Pk>): set<Pk> {
    set pk | pk in pks
  }

  function PksOf(cs: seq<Captured>): set<Pk> {
    set c | c in cs :: c.pk
  }

  predicate DistinctPks(cs: seq<Captured>) {
    forall i, j :: 0 <= i < j < |cs| ==> cs[i].pk != cs[j].pk
  }

  /** Others change no locked row and reuse no key. */
  predicate Undisturbed(s: State, rows: map<Pk, Value>) {
    && (forall pk :: pk in s.locked && pk in s.rows ==> pk in rows && rows[pk] == s.rows[pk])
    && (forall pk :: pk in rows ==> pk in s.rows || pk !in s.used)
  }

  predicate Enabled(matches: Where, limit: nat, s: State, e: Event) {
    !s.committed &&
    match e
    case OthersCommit(rows) => Undisturbed(s, rows)
    case Find(found) =>
      && s.phase.Finding? && Distinct(found) && |found| <= limit
      && PkSet(found) == Matching(matches, s.rows)
    case Overflow => s.phase.Finding? && |Matching(matches, s.rows)| > limit
    case TakeLock => s.phase.Locking? && s.phase.todo != []
    case Reread => s.phase.Rereading? && s.phase.todo != []
    case Delete => s.phase == Locking([])
    case WriteRecord => s.phase.Deleted? && !s.marked && |s.audited| < |s.captured|
    case Commit => s.phase.Deleted? && !s.marked && s.audited == s.captured
  }

  function Next(matches: Where, limit: nat, s: State, e: Event): State
    requires Enabled(matches, limit, s, e)
  {
    match e
    case OthersCommit(rows) => s.(rows := rows, used := s.used + rows.Keys)
    case Find(found) => s.(phase := Locking(found))
    case Overflow => s.(phase := Refused)
    case TakeLock =>
      var pk := s.phase.todo[0];
      s.(phase := Rereading(s.phase.todo), locked := if pk in s.rows then s.locked + {pk} else s.locked)
    case Reread =>
      var pk := s.phase.todo[0];
      s.(phase := Locking(s.phase.todo[1..]),
         captured := if pk in s.rows then s.captured + [Captured(pk, s.rows[pk])] else s.captured)
    case Delete =>
      var gone := Matching(matches, s.rows);
      s.(phase := Deleted, rows := s.rows - gone, deleted := s.rows - (s.rows.Keys - gone),
         marked := |gone| != |s.captured|)
    case WriteRecord => s.(audited := s.audited + [s.captured[|s.audited|]])
    case Commit => s.(committed := true)
  }

  ghost predicate Valid(matches: Where, limit: nat, s: State, es: seq<Event>)
    decreases |es|
  {
    es == [] || (Enabled(matches, limit, s, es[0]) && Valid(matches, limit, Next(matches, limit, s, es[0]), es[1..]))
  }

  ghost function Exec(matches: Where, limit: nat, s: State, es: seq<Event>): State
    requires Valid(matches, limit, s, es)
    decreases |es|
  {
    if es == [] then s else Exec(matches, limit, Next(matches, limit, s, es[0]), es[1..])
  }

  // ----- invariant -----

  /** The captured records are locked and still what the rows hold. */
  ghost predicate Current(rows: map<Pk, Value>, locked: set<Pk>, cs: seq<Captured>) {
    && DistinctPks(cs)
    && forall i :: 0 <= i < |cs| ==> cs[i].pk in locked && cs[i].pk in rows && rows[cs[i].pk] == cs[i].record
  }

  predicate Todo(s: State, todo: seq<Pk>) {
    && Distinct(todo)
    && (forall i :: 0 <= i < |todo| ==> todo[i] in s.used)
    && (forall i, j :: 0 <= i < |todo| && 0 <= j < |s.captured| ==> todo[i] != s.captured[j].pk)
  }

  /** What the deletion did to the captured records. */
  ghost predicate Settled(matches: Where, cs: seq<Captured>, deleted: map<Pk, Value>) {
    && DistinctPks(cs)
    && (forall pk :: pk in deleted ==> matches(deleted[pk]))
    && (forall i :: 0 <= i < |cs| ==> (cs[i].pk in deleted <==> matches(cs[i].record)))
    && (forall i :: 0 <= i < |cs| && cs[i].pk in deleted ==> deleted[cs[i].pk] == cs[i].record)
  }

  ghost predicate Inv(matches: Where, s: State) {
    && s.rows.Keys <= s.used
    && (!s.phase.Deleted? ==> s.audited == [])
    && match s.phase
       case Finding => s.captured == []
       case Locking(todo) => Current(s.rows, s.locked, s.captured) && Todo(s, todo)
       case Rereading(todo) =>
         && Current(s.rows, s.locked, s.captured) && Todo(s, todo) && todo != []
         && (todo[0] in s.rows ==> todo[0] in s.locked)
       case Deleted =>
         && Settled(matches, s.captured, s.deleted) && (!s.marked ==> |s.deleted| == |s.captured|)
         && s.audited <= s.captured && (s.committed ==> s.audited == s.captured && !s.marked)
       case Refused => !s.committed
  }

  /** The deletion, seen from the captured records. */
  lemma DeletionSettles(matches: Where, rows: map<Pk, Value>, locked: set<Pk>, cs: seq<Captured>)
    requires Current(rows, locked, cs)
    ensures var gone := Matching(matches, rows); var deleted := rows - (rows.Keys - gone);
      deleted.Keys == gone && |deleted| == |gone| && Settled(matches, cs, deleted)
  {
    var gone := Matching(matches, rows);
    var deleted := rows - (rows.Keys - gone);
    assert deleted.Keys == gone;
    assert |deleted| == |deleted.Keys|;
  }

  lemma RereadKeepsInv(matches: Where, limit: nat, s: State)
    requires Inv(matches, s) && Enabled(matches, limit, s, Reread)
    ensures Inv(matches, Next(matches, limit, s, Reread))
  {
    var t := Next(matches, limit, s, Reread);
    var todo, rest := s.phase.todo, s.phase.todo[1..];
    assert forall i :: 0 <= i < |rest| ==> rest[i] == todo[i + 1];
  }

  lemma OthersKeepInv(matches: Where, limit: nat, s: State, rows: map<Pk, Value>)
    requires Inv(matches, s) && Enabled(matches, limit, s, OthersCommit(rows))
    ensures Inv(matches, Next(matches, limit, s, OthersCommit(rows)))
  {
  }

  lemma FindKeepsInv(matches: Where, limit: nat, s: State, e: Event)
    requires Inv(matches, s) && Enabled(matches, limit, s, e) && (e.Find? || e.Overflow?)
    ensures Inv(matches, Next(matches, limit, s, e))
  {
    if e.Find? {
      forall i | 0 <= i < |e.found| ensures e.found[i] in s.used {
        assert e.found[i] in Matching(matches, s.rows);
      }
    }
  }

  lemma LockKeepsInv(matches: Where, limit: nat, s: State)
    requires Inv(matches, s) && Enabled(matches, limit, s, TakeLock)
    ensures Inv(matches, Next(matches, limit, s, TakeLock))
  {
  }

  lemma DeleteKeepsInv(matches: Where, limit: nat, s: State)
    requires Inv(matches, s) && Enabled(matches, limit, s, Delete)
    ensures Inv(matches, Next(matches, limit, s, Delete))
  {
    DeletionSettles(matches, s.rows, s.locked, s.captured);
  }

  lemma EndKeepsInv(matches: Where, limit: nat, s: State, e: Event)
    requires Inv(matches, s) && Enabled(matches, limit, s, e) && (e.WriteRecord? || e.Commit?)
    ensures Inv(matches, Next(matches, limit, s, e))
  {
  }

  lemma StepKeepsInv(matches: Where, limit: nat, s: State, e: Event)
    requires Inv(matches, s) && Enabled(matches, limit, s, e)
    ensures Inv(matches, Next(matches, limit, s, e))
  {
    match e
    case OthersCommit(rows) => OthersKeepInv(matches, limit, s, rows);
    case Find(_) => FindKeepsInv(matches, limit, s, e);
    case Overflow => FindKeepsInv(matches, limit, s, e);
    case TakeLock => LockKeepsInv(matches, limit, s);
    case Reread => RereadKeepsInv(matches, limit, s);
    case Delete => DeleteKeepsInv(matches, limit, s);
    case WriteRecord => EndKeepsInv(matches, limit, s, e);
    case Commit => EndKeepsInv(matches, limit, s, e);
  }

  lemma {:induction false} ExecKeepsInv(matches: Where, limit: nat, s: State, es: seq<Event>)
    requires Inv(matches, s) && Valid(matches, limit, s, es)
    ensures Inv(matches, Exec(matches, limit, s, es))
    decreases |es|
  {
    if es != [] {
      StepKeepsInv(matches, limit, s, es[0]);
      ExecKeepsInv(matches, limit, Next(matches, limit, s, es[0]), es[1..]);
    }
  }

  // ----- main results -----

  lemma {:induction false} PksSize(cs: seq<Captured>)
    requires DistinctPks(cs)
    ensures |PksOf(cs)| == |cs|
  {
    if cs != [] {
      var rest, last := cs[..|cs| - 1], cs[|cs| - 1];
      PksSize(rest);
      assert cs == rest + [last];
      assert PksOf(cs) == PksOf(rest) + {last.pk};
      assert last.pk !in PksOf(rest);
    }
  }

  /** Equal counts mean equal records exactly when every captured record matches. */
  lemma SameCountSameRecords(matches: Where, cs: seq<Captured>, deleted: map<Pk, Value>)
    requires Settled(matches, cs, deleted) && |deleted| == |cs|
    ensures PksOf(cs) == deleted.Keys <==> forall i :: 0 <= i < |cs| ==> matches(cs[i].record)
  {
    PksSize(cs);
    assert |deleted.Keys| == |deleted|;
    if forall i :: 0 <= i < |cs| ==> matches(cs[i].record) {
      forall pk | pk in PksOf(cs) ensures pk in deleted.Keys {
        var c :| c in cs && c.pk == pk;
      }
      SubsetOfSameSize(PksOf(cs), deleted.Keys);
    }
    if PksOf(cs) == deleted.Keys {
      forall i | 0 <= i < |cs| ensures matches(cs[i].record) {
        assert cs[i].pk in PksOf(cs);
      }
    }
  }

  lemma SubsetOfSameSize(a: set<Pk>, b: set<Pk>)
    requires a <= b && |a| == |b|
    ensures a == b
  {
    assert b == a + (b - a);
    assert |b| == |a| + |b - a|;
  }

  /** What a committed deleteMany's audit rows are: as many as records were deleted; each that
      names a deleted record shows it as it was; and they name exactly the deleted records if
      and only if every captured record, as read again under its lock, still matches `where`. */
  lemma CommittedBatch(matches: Where, limit: nat, rows: map<Pk, Value>, es: seq<Event>)
    requires Valid(matches, limit, Start(rows), es) && Exec(matches, limit, Start(rows), es).committed
    ensures var t := Exec(matches, limit, Start(rows), es);
      && |t.audited| == |t.deleted| && DistinctPks(t.audited)
      && (forall i :: 0 <= i < |t.audited| && t.audited[i].pk in t.deleted ==>
            t.deleted[t.audited[i].pk] == t.audited[i].record)
      && (PksOf(t.audited) == t.deleted.Keys <==> forall i :: 0 <= i < |t.audited| ==> matches(t.audited[i].record))
  {
    ExecKeepsInv(matches, limit, Start(rows), es);
    CommittedPhase(matches, limit, Start(rows), es);
    var t := Exec(matches, limit, Start(rows), es);
    SameCountSameRecords(matches, t.audited, t.deleted);
  }

  lemma {:induction false} CommittedPhase(matches: Where, limit: nat, s: State, es: seq<Event>)
    requires Valid(matches, limit, s, es) && (s.committed ==> s.phase.Deleted?)
    ensures Exec(matches, limit, s, es).committed ==> Exec(matches, limit, s, es).phase.Deleted?
    decreases |es|
  {
    if es != [] {
      CommittedPhase(matches, limit, Next(matches, limit, s, es[0]), es[1..]);
    }
  }

  // ----- the condition is needed -----

  const SMALL: Where := (v: Value) => v < 10
  const AB: map<Pk, Value> := map[1 := 1, 2 := 2]

  /** Another transaction changed row 2, which no longer matches, and inserted row 3, which does. */
  const CHANGED: map<Pk, Value> := map[1 := 1, 2 := 50, 3 := 3]

  const SWAP: seq<Event> :=
    [Find([1, 2]), OthersCommit(CHANGED), TakeLock, Reread, TakeLock, Reread, Delete, WriteRecord, WriteRecord, Commit]

  ghost predicate Leads(s: State, es: seq<Event>, t: State) {
    Valid(SMALL, 2, s, es) && Exec(SMALL, 2, s, es) == t
  }

  lemma {:induction false} Chain(s: State, es: seq<Event>, t: State, fs: seq<Event>, u: State)
    requires Leads(s, es, t) && Leads(t, fs, u)
    ensures Leads(s, es + fs, u)
    decreases |es|
  {
    if es == [] {
      assert es + fs == fs;
    } else {
      assert (es + fs)[1..] == es[1..] + fs;
      Chain(Next(SMALL, 2, s, es[0]), es[1..], t, fs, u);
    }
  }

  lemma One(t: State, e: Event)
    requires Enabled(SMALL, 2, t, e)
    ensures Leads(t, [e], Next(SMALL, 2, t, e))
  {
    assert [e][1..] == [];
    assert Exec(SMALL, 2, Next(SMALL, 2, t, e), []) == Next(SMALL, 2, t, e);
  }

  lemma Then(s: State, es: seq<Event>, t: State, e: Event, u: State)
    requires Leads(s, es, t) && Enabled(SMALL, 2, t, e) && Next(SMALL, 2, t, e) == u
    ensures Leads(s, es + [e], u)
  {
    One(t, e);
    Chain(s, es, t, [e], u);
  }

  /** The batch between find and delete. */
  function During(phase: Phase, locked: set<Pk>, captured: seq<Captured>): State {
    State(CHANGED, {1, 2, 3}, locked, phase, captured, map[], false, [], false)
  }

  const FOUND := Start(AB).(phase := Locking([1, 2]))
  const BOTH := [Captured(1, 1), Captured(2, 50)]
  const READY := During(Locking([]), {1, 2}, BOTH)
  const GONE := READY.(phase := Deleted, rows := map[2 := 50], deleted := map[1 := 1, 3 := 3])

  const ONE_CAPTURED := During(Locking([2]), {1}, [Captured(1, 1)])

  lemma FindBoth()
    ensures Leads(Start(AB), [Find([1, 2]), OthersCommit(CHANGED)], During(Locking([1, 2]), {}, []))
  {
    assert Matching(SMALL, AB) == {1, 2} == PkSet([1, 2]);
    Then(Start(AB), [], Start(AB), Find([1, 2]), FOUND);
    assert [] + [Find([1, 2])] == [Find([1, 2])];
    assert FOUND.used + CHANGED.Keys == {1, 2, 3};
    Then(Start(AB), [Find([1, 2])], FOUND, OthersCommit(CHANGED), During(Locking([1, 2]), {}, []));
  }

  lemma CaptureFirst()
    ensures Leads(During(Locking([1, 2]), {}, []), [TakeLock, Reread], ONE_CAPTURED)
  {
    var s, t := During(Locking([1, 2]), {}, []), During(Rereading([1, 2]), {1}, []);
    assert [1, 2][1..] == [2];
    Then(s, [], s, TakeLock, t);
    assert [] + [TakeLock] == [TakeLock];
    Then(s, [TakeLock], t, Reread, ONE_CAPTURED);
  }

  lemma CaptureSecond()
    ensures Leads(ONE_CAPTURED, [TakeLock, Reread], READY)
  {
    var t := During(Rereading([2]), {1, 2}, [Captured(1, 1)]);
    assert [2][1..] == [];
    Then(ONE_CAPTURED, [], ONE_CAPTURED, TakeLock, t);
    assert [] + [TakeLock] == [TakeLock];
    Then(ONE_CAPTURED, [TakeLock], t, Reread, READY);
  }

  lemma CaptureBoth()
    ensures Leads(Start(AB), [Find([1, 2]), OthersCommit(CHANGED), TakeLock, Reread, TakeLock, Reread], READY)
  {
    FindBoth();
    CaptureFirst();
    CaptureSecond();
    var run := [Find([1, 2]), OthersCommit(CHANGED)];
    Chain(Start(AB), run, During(Locking([1, 2]), {}, []), [TakeLock, Reread], ONE_CAPTURED);
    Chain(Start(AB), run + [TakeLock, Reread], ONE_CAPTURED, [TakeLock, Reread], READY);
    assert run + [TakeLock, Reread] + [TakeLock, Reread]
        == [Find([1, 2]), OthersCommit(CHANGED), TakeLock, Reread, TakeLock, Reread];
  }

  lemma DeleteAndCommit()
    ensures Leads(READY, [Delete, WriteRecord, WriteRecord, Commit], GONE.(audited := BOTH, committed := true))
  {
    assert Matching(SMALL, CHANGED) == {1, 3};
    assert CHANGED - {1, 3} == map[2 := 50];
    assert CHANGED.Keys == {1, 2, 3} && CHANGED - {2} == map[1 := 1, 3 := 3];
    assert CHANGED.Keys - {1, 3} == {2};
    Then(READY, [], READY, Delete, GONE);
    assert [] + [Delete] == [Delete];
    Then(READY, [Delete], GONE, WriteRecord, GONE.(audited := [Captured(1, 1)]));
    Then(READY, [Delete] + [WriteRecord], GONE.(audited := [Captured(1, 1)]), WriteRecord, GONE.(audited := BOTH));
    Then(READY, [Delete] + [WriteRecord] + [WriteRecord], GONE.(audited := BOTH), Commit,
         GONE.(audited := BOTH, committed := true));
    assert [Delete] + [WriteRecord] + [WriteRecord] + [Commit] == [Delete, WriteRecord, WriteRecord, Commit];
  }

  /** The counts agree and the batch commits, yet row 2 has a record and was not deleted, and
      row 3 was deleted and has none. */
  lemma SwappedBatchCommits()
    ensures Valid(SMALL, 2, Start(AB), SWAP)
    ensures var t := Exec(SMALL, 2, Start(AB), SWAP);
      && t.committed && t.audited == BOTH && t.deleted == map[1 := 1, 3 := 3]
      && 2 in PksOf(t.audited) && 2 !in t.deleted && 3 in t.deleted && 3 !in PksOf(t.audited)
  {
    CaptureBoth();
    DeleteAndCommit();
    var first := [Find([1, 2]), OthersCommit(CHANGED), TakeLock, Reread, TakeLock, Reread];
    Chain(Start(AB), first, READY, [Delete, WriteRecord, WriteRecord, Commit],
          GONE.(audited := BOTH, committed := true));
    assert first + [Delete, WriteRecord, WriteRecord, Commit] == SWAP;
    assert BOTH[1].pk == 2 && BOTH[1] in BOTH;
  }

  // ----- the same as the source writes it -----

  lemma {:induction false} DistinctSize(pks: seq<Pk>)
    requires Distinct(pks)
    ensures |PkSet(pks)| == |pks|
  {
    if pks != [] {
      var n := |pks| - 1;
      DistinctSize(pks[..n]);
      assert pks == pks[..n] + [pks[n]] && pks[n] !in pks[..n];
      assert PkSet(pks) == PkSet(pks[..n]) + {pks[n]};
    }
  }

  /** What one more re-read adds to the captured records. */
  lemma CapturedMore(cs: seq<Captured>, current: Option<Value>, found: seq<Pk>, i: nat, rows: map<Pk, Value>)
    requires i < |found| && (current.Some? <==> found[i] in rows)
    requires forall pk :: pk in found[..i] && pk in rows <==> pk in PksOf(cs)
    ensures var more := if current.Some? then cs + [Captured(found[i], current.value)] else cs;
      PksOf(more) == set pk | pk in found[..i + 1] && pk in rows
  {
    assert found[..i + 1] == found[..i] + [found[i]];
    if current.Some? {
      var c := Captured(found[i], current.value);
      forall pk ensures pk in PksOf(cs + [c]) <==> pk in PksOf(cs) || pk == found[i] {
        if pk in PksOf(cs) {
          var d :| d in cs && d.pk == pk;
          assert d in cs + [c];
        }
        assert c in cs + [c];
      }
    }
  }

  /** One transaction's session: its view of the model's table and the row locks it holds.
      Handlers of the same transaction that write these rows meanwhile are not part of it. */
  class Session {
    const matches: Where
    var rows: map<Pk, Value>
    var used: set<Pk>
    var locked: set<Pk>
    ghost var disturbed: bool

    ghost predicate Consistent()
      reads this
    {
      locked <= rows.Keys <= used
    }

    constructor (matches: Where, rows: map<Pk, Value>)
      ensures Consistent() && this.matches == matches && this.rows == rows && locked == {} && !disturbed
    {
      this.matches := matches;
      this.rows := rows;
      used, locked, disturbed := rows.Keys, {}, false;
    }

    /** From `before` on: keys stay used, none comes back, locks are kept with what they lock, and
        nothing changes without a disturbance. */
    twostate predicate Later()
      reads this
    {
      && Consistent() && old(used) <= used && old(locked) <= locked
      && (forall pk :: pk in old(locked) && pk in old(rows) ==> pk in rows && rows[pk] == old(rows)[pk])
      && (forall pk :: pk in rows && pk in old(used) ==> pk in old(rows))
      && (old(disturbed) ==> disturbed)
      && (!disturbed ==> rows == old(rows))
    }

    /** Other transactions commit: no locked row changes, no key comes back. */
    method Interfere()
      requires Consistent()
      modifies this
      ensures Later() && locked == old(locked)
    {
      var gone: set<Pk> := *;
      var changed: map<Pk, Value> := *;
      var born: map<Pk, Value> := *;
      var free := rows.Keys - locked - gone;
      rows := (rows - (gone - locked)) + (changed - (changed.Keys - free)) + (born - used);
      used := used + rows.Keys;
      disturbed := disturbed || rows != old(rows);
    }

    /** `SELECT ... FOR UPDATE` of one row; a row that is gone locks nothing. */
    method Lock(pk: Pk)
      requires Consistent()
      modifies this
      ensures Later() && locked <= old(locked) + {pk}
      ensures pk in rows ==> pk in locked
    {
      Interfere();
      if pk in rows {
        locked := locked + {pk};
      }
    }

    /** `findFirst({ where: { [pk]: value } })` */
    method Refetch(pk: Pk) returns (record: Option<Value>)
      requires Consistent() && pk in used && (pk in rows ==> pk in locked)
      modifies this
      ensures Later() && locked == old(locked)
      ensures record == if pk in rows then Some(rows[pk]) else None
    {
      Interfere();
      record := if pk in rows then Some(rows[pk]) else None;
    }

    /** `lockAndRefreshBatch`: each record is locked and then read again; exactly those that are
        gone drop out. */
    method LockAndRefresh(found: seq<Pk>) returns (refreshed: seq<Captured>)
      requires Consistent() && Distinct(found) && forall i :: 0 <= i < |found| ==> found[i] in used
      modifies this
      ensures Later() && Current(rows, locked, refreshed)
      ensures PksOf(refreshed) == set pk | pk in found && pk in rows
    {
      refreshed := [];
      var i := 0;
      while i < |found|
        invariant 0 <= i <= |found|
        invariant Later() && Current(rows, locked, refreshed)
        invariant PksOf(refreshed) == set pk | pk in found[..i] && pk in rows
      {
        var pk := found[i];
        assert pk !in found[..i];
        Lock(pk);
        var current := Refetch(pk);
        CapturedMore(refreshed, current, found, i, rows);
        if current.Some? {
          refreshed := refreshed + [Captured(pk, current.value)];
        }
        i := i + 1;
      }
      assert found[..i] == found;
    }

    /** The matching rows, as the database returns them. */
    method FindMany() returns (found: seq<Pk>)
      ensures Distinct(found) && PkSet(found) == Matching(matches, rows)
    {
      found := [];
      var rest := Matching(matches, rows);
      while rest != {}
        invariant Distinct(found) && PkSet(found) + rest == Matching(matches, rows)
        invariant PkSet(found) !! rest
        decreases rest
      {
        var pk :| pk in rest;
        assert pk !in PkSet(found);
        found := found + [pk];
        rest := rest - {pk};
      }
    }

    /** `deleteMany` without lifecycles.  `atFind` and `atDelete` are the table when the batch was
        found and when it was deleted; `records` are what the audit rows show. */
    method DeleteMany(limit: nat)
      returns (r: Result<nat, ()>, records: seq<Captured>, ghost atFind: map<Pk, Value>, ghost atDelete: map<Pk, Value>)
      requires Consistent()
      modifies this
      ensures !disturbed ==> atFind == old(rows) && atDelete == old(rows)
      ensures r.Failed? <==> Refuses(matches, limit, atFind, atDelete)
      ensures r.Ok? ==>
        && Audits(matches, atFind, atDelete, records) && r.value == |records|
        && rows == atDelete - Matching(matches, atDelete)
    {
      Interfere();
      atFind, atDelete := rows, rows;
      var found := FindMany();
      DistinctSize(found);
      if |found| > limit { return Failed(()), [], atFind, atDelete; }
      FoundAreUsed(matches, rows, found);
      records := LockAndRefresh(found);
      Interfere();
      atDelete := rows;
      StillThere(matches, atFind, atDelete, locked, found, records);
      var count := Delete();
      if count != |records| { return Failed(()), [], atFind, atDelete; }
      r := Ok(count);
    }

    /** `DELETE ... WHERE` */
    method Delete() returns (count: nat)
      modifies this`rows, this`locked
      ensures rows == old(rows) - Matching(matches, old(rows)) && count == |Matching(matches, old(rows))|
    {
      var gone := Matching(matches, rows);
      rows, locked := rows - gone, locked - gone;
      count := |gone|;
    }
  }

  lemma FoundAreUsed(matches: Where, rows: map<Pk, Value>, found: seq<Pk>)
    requires PkSet(found) == Matching(matches, rows)
    ensures forall i :: 0 <= i < |found| ==> found[i] in rows
  {
    forall i | 0 <= i < |found| ensures found[i] in rows {
      assert found[i] in PkSet(found);
    }
  }

  /** Too many rows match, or the deleted rows are not as many as the found ones still there. */
  ghost predicate Refuses(matches: Where, limit: nat, atFind: map<Pk, Value>, atDelete: map<Pk, Value>) {
    var found, gone := Matching(matches, atFind), Matching(matches, atDelete);
    |found| > limit || |gone| != |found * atDelete.Keys|
  }

  /** The records are those found and still there, as they were when deleted; they are exactly the
      deleted ones if and only if all of them still match. */
  ghost predicate Audits(matches: Where, atFind: map<Pk, Value>, atDelete: map<Pk, Value>, records: seq<Captured>) {
    var found, gone := Matching(matches, atFind), Matching(matches, atDelete);
    && |records| == |gone| && DistinctPks(records) && PksOf(records) == found * atDelete.Keys
    && (forall i :: 0 <= i < |records| ==>
          records[i].pk in atDelete && atDelete[records[i].pk] == records[i].record)
    && (PksOf(records) == gone <==> forall i :: 0 <= i < |records| ==> matches(records[i].record))
  }

  lemma StillThere(matches: Where, atFind: map<Pk, Value>, atDelete: map<Pk, Value>, locked: set<Pk>,
                   found: seq<Pk>, records: seq<Captured>)
    requires PkSet(found) == Matching(matches, atFind) && Current(atDelete, locked, records)
    requires PksOf(records) == set pk | pk in found && pk in atDelete
    ensures |records| == |Matching(matches, atFind) * atDelete.Keys|
    ensures |Matching(matches, atDelete)| == |records| ==> Audits(matches, atFind, atDelete, records)
  {
    var gone := Matching(matches, atDelete);
    assert PksOf(records) == Matching(matches, atFind) * atDelete.Keys;
    PksSize(records);
    if |gone| == |records| {
      DeletionSettles(matches, atDelete, locked, records);
      SameCountSameRecords(matches, records, atDelete - (atDelete.Keys - gone));
    }
  }

  /** Undisturbed, every batch within the limit succeeds, and its records are exactly the matching
      rows. */
  lemma UndisturbedBatch(matches: Where, limit: nat, rows: map<Pk, Value>)
    ensures Refuses(matches, limit, rows, rows) <==> |Matching(matches, rows)| > limit
    ensures forall records :: Audits(matches, rows, rows, records) ==> PksOf(records) == Matching(matches, rows)
  {
    assert Matching(matches, rows) * rows.Keys == Matching(matches, rows);
  }
}
