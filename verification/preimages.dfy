/** Row locks and re-reads behind the audited `before` and `after`: many transactions at READ
    COMMITTED, each with any number of handlers in flight, writing rows by primary key. */
module Preimages {
  import opened Prelude

  type Pk = nat
  type Value = int
  type TxId = nat
  type HandlerId = nat

  /** None stands for a row that does not exist. */
  type Version = Option<Value>

  /** A row lock, with the owner's uncommitted version of the row if it wrote one. */
  datatype Lock = Lock(owner: TxId, write: Option<Version>)

  datatype Phase =
    | Candidate                                  // findFirst found the row
    | Locked                                     // SELECT ... FOR UPDATE returned
    | Read(before: Version)                      // re-read done, query next
    | Mutated(before: Version, overwritten: Version)

  datatype Handler = Handler(tx: TxId, pk: Pk, phase: Phase)

  /** An audit record; `overwritten` is the version the mutation really replaced. */
  datatype Record = Record(pk: Pk, before: Version, after: Version, overwritten: Version)

  datatype State = State(
    rows: map<Pk, Value>,
    used: set<Pk>,
    locks: map<Pk, Lock>,
    handlers: map<HandlerId, Handler>,
    records: map<TxId, seq<Record>>,
    log: seq<Record>)

  datatype Event =
    | Create(tx: TxId, pk: Pk, value: Value)
    | Begin(handler: HandlerId, tx: TxId, pk: Pk)
    | TakeLock(handler: HandlerId)
    | Reread(handler: HandlerId)
    | Mutate(handler: HandlerId, version: Version)
    | QueryFails(handler: HandlerId)
    | WriteRecord(handler: HandlerId)
    | Commit(tx: TxId)
    | Abort(tx: TxId)

  const EMPTY := State(map[], {}, map[], map[], map[], [])

  function Stored(s: State, pk: Pk): Version {
    if pk in s.rows then Some(s.rows[pk]) else None
  }

  predicate Owns(s: State, tx: TxId, pk: Pk) {
    pk in s.locks && s.locks[pk].owner == tx
  }

  predicate Wrote(s: State, tx: TxId, pk: Pk) {
    Owns(s, tx, pk) && s.locks[pk].write.Some?
  }

  /** What a statement of `tx` sees: its own version, else the last committed one. */
  function View(s: State, tx: TxId, pk: Pk): Version {
    if Wrote(s, tx, pk) then s.locks[pk].write.value else Stored(s, pk)
  }

  /** No other transaction holds the row. */
  predicate Free(s: State, tx: TxId, pk: Pk) {
    pk in s.locks ==> s.locks[pk].owner == tx
  }

  function Buffered(s: State, tx: TxId): seq<Record> {
    if tx in s.records then s.records[tx] else []
  }

  predicate InPhase(s: State, h: HandlerId, phase: Phase) {
    h in s.handlers && s.handlers[h].phase == phase
  }

  predicate Enabled(s: State, e: Event) {
    match e
    case Create(_, pk, _) => pk !in s.used && pk !in s.locks
    case Begin(h, _, _) => h !in s.handlers
    case TakeLock(h) => InPhase(s, h, Candidate) && Free(s, s.handlers[h].tx, s.handlers[h].pk)
    case Reread(h) => InPhase(s, h, Locked)
    case Mutate(h, _) =>
      && h in s.handlers && s.handlers[h].phase.Read?
      && Free(s, s.handlers[h].tx, s.handlers[h].pk)
      && View(s, s.handlers[h].tx, s.handlers[h].pk).Some?
    case QueryFails(h) => h in s.handlers && s.handlers[h].phase.Read?
    case WriteRecord(h) => h in s.handlers && s.handlers[h].phase.Mutated?
    case Commit(tx) => forall h :: h in s.handlers ==> s.handlers[h].tx != tx
    case Abort(_) => true
  }

  /** The record a handler writes: what it read, what the row is now, what its query replaced. */
  function RecordOf(s: State, h: HandlerId): Record
    requires h in s.handlers && s.handlers[h].phase.Mutated?
  {
    var Handler(tx, pk, phase) := s.handlers[h];
    Record(pk, phase.before, View(s, tx, pk), phase.overwritten)
  }

  function SetPhase(s: State, h: HandlerId, phase: Phase): State
    requires h in s.handlers
  {
    s.(handlers := s.handlers[h := s.handlers[h].(phase := phase)])
  }

  function Drop(s: State, h: HandlerId): State {
    s.(handlers := s.handlers - {h})
  }

  function Buffer(s: State, tx: TxId, r: Record): State {
    s.(records := s.records[tx := Buffered(s, tx) + [r]])
  }

  function Release(s: State, tx: TxId): State {
    s.(locks := s.locks - (set pk | pk in s.locks && s.locks[pk].owner == tx),
       records := s.records - {tx},
       handlers := s.handlers - (set h | h in s.handlers && s.handlers[h].tx == tx))
  }

  function CommittedRows(s: State, tx: TxId): map<Pk, Value> {
    map pk | pk in s.rows.Keys + s.locks.Keys && View(s, tx, pk).Some? :: View(s, tx, pk).value
  }

  function Next(s: State, e: Event): State
    requires Enabled(s, e)
  {
    match e
    case Create(tx, pk, value) =>
      Buffer(s.(used := s.used + {pk}, locks := s.locks[pk := Lock(tx, Some(Some(value)))]), tx,
             Record(pk, None, Some(value), None))
    case Begin(h, tx, pk) =>
      s.(handlers := s.handlers[h := Handler(tx, pk, if View(s, tx, pk).Some? then Candidate else Read(None))])
    case TakeLock(h) =>
      var tx, pk := s.handlers[h].tx, s.handlers[h].pk;
      var t := SetPhase(s, h, Locked);
      // FOR UPDATE locks nothing when the row is gone
      if View(s, tx, pk).None? || pk in s.locks then t else t.(locks := s.locks[pk := Lock(tx, None)])
    case Reread(h) => SetPhase(s, h, Read(View(s, s.handlers[h].tx, s.handlers[h].pk)))
    case Mutate(h, version) =>
      var tx, pk := s.handlers[h].tx, s.handlers[h].pk;
      SetPhase(s, h, Mutated(s.handlers[h].phase.before, View(s, tx, pk)))
        .(locks := s.locks[pk := Lock(tx, Some(version))])
    case QueryFails(h) => Drop(s, h)
    case WriteRecord(h) =>
      Drop(Buffer(s, s.handlers[h].tx, RecordOf(s, h)), h)
    case Commit(tx) => Release(s.(rows := CommittedRows(s, tx), log := s.log + Buffered(s, tx)), tx)
    case Abort(tx) => Release(s, tx)
  }

  ghost predicate Valid(s: State, es: seq<Event>)
    decreases |es|
  {
    es == [] || (Enabled(s, es[0]) && Valid(Next(s, es[0]), es[1..]))
  }

  ghost function Exec(s: State, es: seq<Event>): State
    requires Valid(s, es)
    decreases |es|
  {
    if es == [] then s else Exec(Next(s, es[0]), es[1..])
  }

  // ----- what records show -----

  /** The version a history of records leaves a row at. */
  function After(rs: seq<Record>, pk: Pk): Version {
    if rs == [] then None
    else if rs[|rs| - 1].pk == pk then rs[|rs| - 1].after
    else After(rs[..|rs| - 1], pk)
  }

  predicate Mentions(rs: seq<Record>, pk: Pk) {
    exists i :: 0 <= i < |rs| && rs[i].pk == pk
  }

  lemma AfterPush(rs: seq<Record>, r: Record, pk: Pk)
    ensures After(rs + [r], pk) == if r.pk == pk then r.after else After(rs, pk)
  {
    assert (rs + [r])[..|rs|] == rs;
  }

  lemma {:induction false} AfterConcat(a: seq<Record>, b: seq<Record>, pk: Pk)
    ensures After(a + b, pk) == if Mentions(b, pk) then After(b, pk) else After(a, pk)
  {
    if b == [] {
      assert a + b == a;
    } else {
      var b', r := b[..|b| - 1], b[|b| - 1];
      assert a + b == (a + b') + [r];
      assert b == b' + [r];
      AfterPush(a + b', r, pk);
      AfterPush(b', r, pk);
      AfterConcat(a, b', pk);
      if Mentions(b, pk) && r.pk != pk {
        var i :| 0 <= i < |b| && b[i].pk == pk;
        assert b'[i] == b[i];
      }
      if Mentions(b', pk) {
        var i :| 0 <= i < |b'| && b'[i].pk == pk;
        assert b[i] == b'[i];
      }
    }
  }

  /** Records of other rows slipped in between change nothing. */
  lemma AfterAround(a: seq<Record>, other: seq<Record>, b: seq<Record>, pk: Pk)
    requires !Mentions(other, pk)
    ensures After(a + other + b, pk) == After(a + b, pk)
  {
    AfterConcat(a, b, pk);
    AfterConcat(a + other, b, pk);
    AfterConcat(a, other, pk);
  }

  // ----- invariant -----

  /** The row is deleted for good. */
  predicate Dead(s: State, pk: Pk) {
    pk in s.used && pk !in s.rows && pk !in s.locks
  }

  ghost predicate NoMutation(s: State, tx: TxId, pk: Pk) {
    forall h :: h in s.handlers && s.handlers[h].tx == tx && s.handlers[h].pk == pk ==> !s.handlers[h].phase.Mutated?
  }

  /** A transaction's buffered records cover what it wrote and nothing else. */
  ghost predicate RecordsInv(s: State, tx: TxId) {
    var rs := Buffered(s, tx);
    && (forall pk :: Mentions(rs, pk) ==> Wrote(s, tx, pk))
    && (forall pk :: Wrote(s, tx, pk) && NoMutation(s, tx, pk) ==>
          Mentions(rs, pk) && After(rs, pk) == s.locks[pk].write.value)
  }

  ghost predicate HandlerInv(s: State, h: HandlerId)
    requires h in s.handlers
  {
    var tx, pk := s.handlers[h].tx, s.handlers[h].pk;
    match s.handlers[h].phase
    case Candidate => pk in s.used
    case Locked => Owns(s, tx, pk) || Dead(s, pk)
    case Read(before) => before.Some? ==> Owns(s, tx, pk)
    case Mutated(_, _) => Wrote(s, tx, pk)
  }

  ghost predicate Inv(s: State) {
    && (forall pk :: After(s.log, pk) == Stored(s, pk))
    && (forall pk :: pk in s.rows || pk in s.locks ==> pk in s.used)
    && (forall tx :: RecordsInv(s, tx))
    && (forall h :: h in s.handlers ==> HandlerInv(s, h))
  }

  lemma BeginKeepsInv(s: State, e: Event)
    requires Inv(s) && Enabled(s, e) && e.Begin?
    ensures Inv(Next(s, e))
  {
    var t := Next(s, e);
    forall tx ensures RecordsInv(t, tx) {
      assert RecordsInv(s, tx) && Buffered(t, tx) == Buffered(s, tx);
      forall pk | NoMutation(t, tx, pk) ensures NoMutation(s, tx, pk) {
        forall h | h in s.handlers ensures t.handlers[h] == s.handlers[h] {}
      }
    }
    forall h | h in t.handlers ensures HandlerInv(t, h) {
      if h != e.handler { assert HandlerInv(s, h); }
    }
  }

  /** A step that only moves the handler's phase, and not to or from `Mutated`. */
  lemma PhaseKeepsRecords(s: State, t: State, h: HandlerId, tx: TxId)
    requires RecordsInv(s, tx) && h in s.handlers && h in t.handlers && t.handlers == s.handlers[h := t.handlers[h]]
    requires !s.handlers[h].phase.Mutated?
    requires t.log == s.log && t.records == s.records
    requires forall pk :: Wrote(t, tx, pk) <==> Wrote(s, tx, pk)
    requires forall pk :: Wrote(t, tx, pk) ==> t.locks[pk] == s.locks[pk]
    ensures RecordsInv(t, tx)
  {
    forall pk | NoMutation(t, tx, pk) ensures NoMutation(s, tx, pk) {
      forall g | g in s.handlers && g != h ensures t.handlers[g] == s.handlers[g] {}
    }
  }

  lemma LockKeepsHandler(s: State, e: Event, h: HandlerId)
    requires Inv(s) && Enabled(s, e) && (e.TakeLock? || e.Reread?) && h in s.handlers
    ensures HandlerInv(Next(s, e), h)
  {
    assert HandlerInv(s, h) && HandlerInv(s, e.handler);
  }

  lemma LockWritesNothing(s: State, e: Event)
    requires Enabled(s, e) && (e.TakeLock? || e.Reread?)
    ensures var t := Next(s, e);
      && t.log == s.log && t.records == s.records && t.rows == s.rows && t.used == s.used
      && e.handler in t.handlers && t.handlers == s.handlers[e.handler := t.handlers[e.handler]]
      && (forall tx, pk :: Wrote(t, tx, pk) <==> Wrote(s, tx, pk))
      && (forall tx, pk :: Wrote(t, tx, pk) ==> t.locks[pk] == s.locks[pk])
      && (forall pk :: pk in t.locks && pk !in s.locks ==> pk in s.rows)
  {
  }

  lemma LockKeepsInv(s: State, e: Event)
    requires Inv(s) && Enabled(s, e) && (e.TakeLock? || e.Reread?)
    ensures Inv(Next(s, e))
  {
    var t := Next(s, e);
    LockWritesNothing(s, e);
    forall tx ensures RecordsInv(t, tx) {
      PhaseKeepsRecords(s, t, e.handler, tx);
    }
    forall h | h in t.handlers ensures HandlerInv(t, h) {
      LockKeepsHandler(s, e, h);
    }
    LockKeepsRest(s, e);
  }

  lemma LockKeepsRest(s: State, e: Event)
    requires Inv(s) && Enabled(s, e) && (e.TakeLock? || e.Reread?)
    ensures var t := Next(s, e);
      && (forall pk :: After(t.log, pk) == Stored(t, pk))
      && (forall pk :: pk in t.rows || pk in t.locks ==> pk in t.used)
  {
    LockWritesNothing(s, e);
  }

  /** With no mutation waiting for its record, the records show the row as the transaction
      sees it. */
  lemma ViewIsHistory(s: State, tx: TxId, pk: Pk)
    requires Inv(s) && NoMutation(s, tx, pk)
    ensures View(s, tx, pk) == After(s.log + Buffered(s, tx), pk)
  {
    assert RecordsInv(s, tx);
    AfterConcat(s.log, Buffered(s, tx), pk);
  }

  lemma MutateKeepsRecords(s: State, e: Event, tx: TxId)
    requires Inv(s) && Enabled(s, e) && e.Mutate?
    ensures RecordsInv(Next(s, e), tx)
  {
    var t := Next(s, e);
    var tx0, pk0 := s.handlers[e.handler].tx, s.handlers[e.handler].pk;
    assert RecordsInv(s, tx);
    assert !NoMutation(t, tx0, pk0) by { assert t.handlers[e.handler].phase.Mutated?; }
    forall pk | NoMutation(t, tx, pk) ensures NoMutation(s, tx, pk) {
      forall h | h in s.handlers && h != e.handler ensures t.handlers[h] == s.handlers[h] {}
    }
  }

  lemma MutateKeepsHandler(s: State, e: Event, h: HandlerId)
    requires Inv(s) && Enabled(s, e) && e.Mutate? && h in s.handlers
    ensures HandlerInv(Next(s, e), h)
  {
    assert HandlerInv(s, h) && HandlerInv(s, e.handler);
  }

  lemma MutateKeepsInv(s: State, e: Event)
    requires Inv(s) && Enabled(s, e) && e.Mutate?
    ensures Inv(Next(s, e))
  {
    var t := Next(s, e);
    forall tx ensures RecordsInv(t, tx) {
      MutateKeepsRecords(s, e, tx);
    }
    forall h | h in t.handlers ensures HandlerInv(t, h) {
      MutateKeepsHandler(s, e, h);
    }
  }

  lemma FailKeepsInv(s: State, e: Event)
    requires Inv(s) && Enabled(s, e) && e.QueryFails?
    ensures Inv(Next(s, e))
  {
    var t := Next(s, e);
    forall tx ensures RecordsInv(t, tx) {
      assert RecordsInv(s, tx) && Buffered(t, tx) == Buffered(s, tx);
      forall pk | NoMutation(t, tx, pk) ensures NoMutation(s, tx, pk) {
        forall h | h in s.handlers && h != e.handler ensures t.handlers[h] == s.handlers[h] {}
      }
    }
    forall h | h in t.handlers ensures HandlerInv(t, h) {
      assert HandlerInv(s, h);
    }
  }

  lemma MentionsPush(rs: seq<Record>, r: Record, pk: Pk)
    ensures Mentions(rs + [r], pk) <==> Mentions(rs, pk) || r.pk == pk
  {
    if Mentions(rs, pk) {
      var i :| 0 <= i < |rs| && rs[i].pk == pk;
      assert (rs + [r])[i] == rs[i];
    }
    assert (rs + [r])[|rs|] == r;
  }

  /** One more record in a buffer whose other conditions are known. */
  lemma PushRecord(s: State, t: State, tx: TxId, r: Record)
    requires RecordsInv(s, tx) && Buffered(t, tx) == Buffered(s, tx) + [r]
    requires forall pk :: pk != r.pk ==> (Wrote(t, tx, pk) <==> Wrote(s, tx, pk))
    requires forall pk :: pk != r.pk && Wrote(t, tx, pk) ==> t.locks[pk] == s.locks[pk]
    requires forall pk :: pk != r.pk && NoMutation(t, tx, pk) ==> NoMutation(s, tx, pk)
    requires Wrote(t, tx, r.pk) && t.locks[r.pk].write.value == r.after
    ensures RecordsInv(t, tx)
  {
    var rs := Buffered(s, tx);
    forall pk ensures Mentions(rs + [r], pk) <==> Mentions(rs, pk) || r.pk == pk {
      MentionsPush(rs, r, pk);
    }
    forall pk ensures After(rs + [r], pk) == if r.pk == pk then r.after else After(rs, pk) {
      AfterPush(rs, r, pk);
    }
  }

  lemma WriteKeepsRecords(s: State, e: Event, tx: TxId)
    requires Inv(s) && Enabled(s, e) && e.WriteRecord?
    ensures RecordsInv(Next(s, e), tx)
  {
    var t := Next(s, e);
    var tx0, pk0 := s.handlers[e.handler].tx, s.handlers[e.handler].pk;
    assert HandlerInv(s, e.handler) && RecordsInv(s, tx);
    forall pk | NoMutation(t, tx, pk) && !(tx == tx0 && pk == pk0) ensures NoMutation(s, tx, pk) {
      forall h | h in s.handlers && h != e.handler ensures t.handlers[h] == s.handlers[h] {}
    }
    if tx == tx0 {
      PushRecord(s, t, tx, Buffered(t, tx)[|Buffered(s, tx)|]);
    } else {
      assert Buffered(t, tx) == Buffered(s, tx);
    }
  }

  lemma WriteKeepsHandler(s: State, e: Event, h: HandlerId)
    requires Inv(s) && Enabled(s, e) && e.WriteRecord? && h in Next(s, e).handlers
    ensures HandlerInv(Next(s, e), h)
  {
    assert HandlerInv(s, h);
  }

  lemma RecordKeepsInv(s: State, e: Event)
    requires Inv(s) && Enabled(s, e) && e.WriteRecord?
    ensures Inv(Next(s, e))
  {
    var t := Next(s, e);
    forall tx ensures RecordsInv(t, tx) {
      WriteKeepsRecords(s, e, tx);
    }
    forall h | h in t.handlers ensures HandlerInv(t, h) {
      WriteKeepsHandler(s, e, h);
    }
  }

  lemma CreatePushes(s: State, e: Event)
    requires Inv(s) && Enabled(s, e) && e.Create?
    ensures RecordsInv(Next(s, e), e.tx)
  {
    var t, tx := Next(s, e), e.tx;
    assert RecordsInv(s, tx);
    var r := Record(e.pk, None, Some(e.value), None);
    assert Buffered(t, tx) == Buffered(s, tx) + [r];
    assert forall pk :: pk != e.pk ==> (Wrote(t, tx, pk) <==> Wrote(s, tx, pk));
    forall pk | NoMutation(t, tx, pk) ensures NoMutation(s, tx, pk) {}
    PushRecord(s, t, tx, r);
  }

  lemma CreateKeepsRecords(s: State, e: Event, tx: TxId)
    requires Inv(s) && Enabled(s, e) && e.Create?
    ensures RecordsInv(Next(s, e), tx)
  {
    if tx == e.tx {
      CreatePushes(s, e);
    } else {
      var t := Next(s, e);
      assert RecordsInv(s, tx);
      assert Buffered(t, tx) == Buffered(s, tx);
      assert forall pk :: Wrote(t, tx, pk) <==> Wrote(s, tx, pk);
      forall pk | NoMutation(t, tx, pk) ensures NoMutation(s, tx, pk) {}
    }
  }

  lemma CreateKeepsHandler(s: State, e: Event, h: HandlerId)
    requires Inv(s) && Enabled(s, e) && e.Create? && h in s.handlers
    ensures HandlerInv(Next(s, e), h)
  {
    assert HandlerInv(s, h);
  }

  lemma CreateKeepsInv(s: State, e: Event)
    requires Inv(s) && Enabled(s, e) && e.Create?
    ensures Inv(Next(s, e))
  {
    var t := Next(s, e);
    forall tx ensures RecordsInv(t, tx) {
      CreateKeepsRecords(s, e, tx);
    }
    forall h | h in t.handlers ensures HandlerInv(t, h) {
      CreateKeepsHandler(s, e, h);
    }
  }

  lemma ReleaseFacts(s: State, t: State, tx: TxId)
    requires t == Release(s, tx)
    ensures Buffered(t, tx) == []
    ensures forall u :: u != tx ==> Buffered(t, u) == Buffered(s, u)
    ensures forall u, pk :: u != tx ==> (Wrote(t, u, pk) <==> Wrote(s, u, pk)) && (Owns(t, u, pk) <==> Owns(s, u, pk))
    ensures forall pk :: !Owns(t, tx, pk)
    ensures forall u, pk :: u != tx && NoMutation(t, u, pk) ==> NoMutation(s, u, pk)
  {
    forall u, pk | u != tx && NoMutation(t, u, pk) ensures NoMutation(s, u, pk) {
      forall h | h in s.handlers && s.handlers[h].tx == u ensures h in t.handlers && t.handlers[h] == s.handlers[h] {}
    }
  }

  lemma AbortKeepsInv(s: State, e: Event)
    requires Inv(s) && Enabled(s, e) && e.Abort?
    ensures Inv(Next(s, e))
  {
    var t := Next(s, e);
    ReleaseFacts(s, t, e.tx);
    forall tx ensures RecordsInv(t, tx) {
      assert RecordsInv(s, tx);
    }
    forall h | h in t.handlers ensures HandlerInv(t, h) {
      assert HandlerInv(s, h);
    }
  }

  /** Records of different transactions never meet on a row. */
  lemma BuffersDisjoint(s: State, tx: TxId, u: TxId, pk: Pk)
    requires Inv(s) && tx != u && Mentions(Buffered(s, u), pk)
    ensures !Mentions(Buffered(s, tx), pk)
  {
    assert RecordsInv(s, tx) && RecordsInv(s, u);
  }

  lemma CommitRows(s: State, tx: TxId, pk: Pk)
    requires Inv(s) && Enabled(s, Commit(tx))
    ensures After(s.log + Buffered(s, tx), pk) == View(s, tx, pk)
  {
    ViewIsHistory(s, tx, pk);
  }

  lemma CommitRecords(s: State, tx: TxId, u: TxId)
    requires Inv(s) && Enabled(s, Commit(tx)) && u != tx
    ensures RecordsInv(Next(s, Commit(tx)), u)
  {
    var t := Next(s, Commit(tx));
    ReleaseFacts(s.(rows := CommittedRows(s, tx), log := s.log + Buffered(s, tx)), t, tx);
    assert RecordsInv(s, u) && Buffered(t, u) == Buffered(s, u);
    forall pk | NoMutation(t, u, pk) ensures NoMutation(s, u, pk) {
      forall h | h in s.handlers && s.handlers[h].tx == u ensures h in t.handlers && t.handlers[h] == s.handlers[h] {}
    }
  }

  lemma CommitHandler(s: State, tx: TxId, h: HandlerId)
    requires Inv(s) && Enabled(s, Commit(tx)) && h in Next(s, Commit(tx)).handlers
    ensures HandlerInv(Next(s, Commit(tx)), h)
  {
    var t := Next(s, Commit(tx));
    var u, pk := s.handlers[h].tx, s.handlers[h].pk;
    assert HandlerInv(s, h);
  }

  lemma CommitKeepsInv(s: State, e: Event)
    requires Inv(s) && Enabled(s, e) && e.Commit?
    ensures Inv(Next(s, e))
  {
    var t := Next(s, e);
    ReleaseFacts(s.(rows := CommittedRows(s, e.tx), log := s.log + Buffered(s, e.tx)), t, e.tx);
    assert RecordsInv(s, e.tx);
    forall pk ensures After(t.log, pk) == Stored(t, pk) {
      CommitRows(s, e.tx, pk);
    }
    forall tx ensures RecordsInv(t, tx) {
      if tx != e.tx { CommitRecords(s, e.tx, tx); }
    }
    forall h | h in t.handlers ensures HandlerInv(t, h) {
      CommitHandler(s, e.tx, h);
    }
  }

  lemma StepKeepsInv(s: State, e: Event)
    requires Inv(s) && Enabled(s, e)
    ensures Inv(Next(s, e))
  {
    match e
    case Create(_, _, _) => CreateKeepsInv(s, e);
    case Begin(_, _, _) => BeginKeepsInv(s, e);
    case TakeLock(_) => LockKeepsInv(s, e);
    case Reread(_) => LockKeepsInv(s, e);
    case Mutate(_, _) => MutateKeepsInv(s, e);
    case QueryFails(_) => FailKeepsInv(s, e);
    case WriteRecord(_) => RecordKeepsInv(s, e);
    case Commit(_) => CommitKeepsInv(s, e);
    case Abort(_) => AbortKeepsInv(s, e);
  }

  lemma {:induction false} ExecKeepsInv(s: State, es: seq<Event>)
    requires Inv(s) && Valid(s, es)
    ensures Inv(Exec(s, es))
    decreases |es|
  {
    if es != [] {
      StepKeepsInv(s, es[0]);
      ExecKeepsInv(Next(s, es[0]), es[1..]);
    }
  }

  // ----- main results -----

  lemma {:induction false} AfterIsPredecessor(rs: seq<Record>, j: nat, pk: Pk)
    requires j < |rs| && rs[j].pk == pk
    requires forall i :: j < i < |rs| ==> rs[i].pk != pk
    ensures After(rs, pk) == rs[j].after
    decreases |rs|
  {
    if j < |rs| - 1 {
      AfterIsPredecessor(rs[..|rs| - 1], j, pk);
    }
  }

  /** In every history a row's last committed record shows the row as it is. */
  lemma LastRecordIsCurrent(es: seq<Event>, i: nat)
    requires Valid(EMPTY, es)
    requires var log := Exec(EMPTY, es).log;
      i < |log| && forall k :: i < k < |log| ==> log[k].pk != log[i].pk
    ensures var t := Exec(EMPTY, es);
      t.log[i].after == Stored(t, t.log[i].pk)
  {
    InitialInv();
    ExecKeepsInv(EMPTY, es);
    var t := Exec(EMPTY, es);
    AfterIsPredecessor(t.log, i, t.log[i].pk);
  }

  lemma InitialInv()
    ensures Inv(EMPTY)
  {
  }

  // ----- a record that is not true -----

  /** One transaction, two updates of the same row that are not awaited in turn: both re-read
      version 1, both write, and the second record's `before` was overwritten by the first. */
  const READING: seq<Event> :=
    [Create(9, 5, 1), Commit(9), Begin(1, 0, 5), Begin(2, 0, 5), TakeLock(1), TakeLock(2), Reread(1), Reread(2)]

  const WRITING: seq<Event> :=
    [Mutate(1, Some(2)), WriteRecord(1), Mutate(2, Some(3)), WriteRecord(2), Commit(0)]

  const CREATED := Record(5, None, Some(1), None)
  const FIRST := Record(5, Some(1), Some(2), Some(1))
  const SECOND := Record(5, Some(1), Some(3), Some(2))

  /** The run's states between the two commits. */
  function Busy(write: Option<Version>, handlers: map<HandlerId, Handler>, rs: seq<Record>): State {
    State(map[5 := 1], {5}, map[5 := Lock(0, write)], handlers, if rs == [] then map[] else map[0 := rs], [CREATED])
  }

  function Idle(handlers: map<HandlerId, Handler>): State {
    State(map[5 := 1], {5}, map[], handlers, map[], [CREATED])
  }

  function Updating(phase: Phase): Handler {
    Handler(0, 5, phase)
  }

  ghost predicate Leads(s: State, es: seq<Event>, t: State) {
    Valid(s, es) && Exec(s, es) == t
  }

  lemma One(s: State, e: Event)
    requires Enabled(s, e)
    ensures Leads(s, [e], Next(s, e))
  {
    assert [e][1..] == [];
  }

  lemma {:induction false} Chain(s: State, es: seq<Event>, t: State, fs: seq<Event>, u: State)
    requires Leads(s, es, t) && Leads(t, fs, u)
    ensures Leads(s, es + fs, u)
    decreases |es|
  {
    if es == [] {
      assert es + fs == fs;
    } else {
      assert (es + fs)[1..] == es[1..] + fs;
      Chain(Next(s, es[0]), es[1..], t, fs, u);
    }
  }

  lemma RowCreated()
    ensures Leads(EMPTY, [Create(9, 5, 1), Commit(9)], Idle(map[]))
  {
    var s := Next(EMPTY, Create(9, 5, 1));
    One(EMPTY, Create(9, 5, 1));
    One(s, Commit(9));
    assert Next(s, Commit(9)) == Idle(map[]) by {
      assert CommittedRows(s, 9) == map[5 := 1];
    }
    Chain(EMPTY, [Create(9, 5, 1)], s, [Commit(9)], Idle(map[]));
  }

  lemma BothBegin()
    ensures Leads(Idle(map[]), [Begin(1, 0, 5), Begin(2, 0, 5)],
                  Idle(map[1 := Updating(Candidate), 2 := Updating(Candidate)]))
  {
    var s := Idle(map[1 := Updating(Candidate)]);
    One(Idle(map[]), Begin(1, 0, 5));
    One(s, Begin(2, 0, 5));
    Chain(Idle(map[]), [Begin(1, 0, 5)], s, [Begin(2, 0, 5)],
          Idle(map[1 := Updating(Candidate), 2 := Updating(Candidate)]));
  }

  lemma BothLock()
    ensures Leads(Idle(map[1 := Updating(Candidate), 2 := Updating(Candidate)]), [TakeLock(1), TakeLock(2)],
                  Busy(None, map[1 := Updating(Locked), 2 := Updating(Locked)], []))
  {
    var s := Idle(map[1 := Updating(Candidate), 2 := Updating(Candidate)]);
    var t := Busy(None, map[1 := Updating(Locked), 2 := Updating(Candidate)], []);
    One(s, TakeLock(1));
    assert Next(s, TakeLock(1)) == t;
    One(t, TakeLock(2));
    Chain(s, [TakeLock(1)], t, [TakeLock(2)], Busy(None, map[1 := Updating(Locked), 2 := Updating(Locked)], []));
  }

  lemma BothReread()
    ensures Leads(Busy(None, map[1 := Updating(Locked), 2 := Updating(Locked)], []), [Reread(1), Reread(2)],
                  Busy(None, map[1 := Updating(Read(Some(1))), 2 := Updating(Read(Some(1)))], []))
  {
    var s := Busy(None, map[1 := Updating(Locked), 2 := Updating(Locked)], []);
    var t := Busy(None, map[1 := Updating(Read(Some(1))), 2 := Updating(Locked)], []);
    One(s, Reread(1));
    One(t, Reread(2));
    Chain(s, [Reread(1)], t, [Reread(2)],
          Busy(None, map[1 := Updating(Read(Some(1))), 2 := Updating(Read(Some(1)))], []));
  }

  lemma FirstWrites()
    ensures Leads(Busy(None, map[1 := Updating(Read(Some(1))), 2 := Updating(Read(Some(1)))], []),
                  [Mutate(1, Some(2)), WriteRecord(1)],
                  Busy(Some(Some(2)), map[2 := Updating(Read(Some(1)))], [FIRST]))
  {
    var s := Busy(None, map[1 := Updating(Read(Some(1))), 2 := Updating(Read(Some(1)))], []);
    var t := Busy(Some(Some(2)), map[1 := Updating(Mutated(Some(1), Some(1))), 2 := Updating(Read(Some(1)))], []);
    One(s, Mutate(1, Some(2)));
    assert Next(s, Mutate(1, Some(2))) == t;
    One(t, WriteRecord(1));
    assert Buffered(t, 0) + [FIRST] == [FIRST];
    assert Next(t, WriteRecord(1)).records == map[0 := [FIRST]];
    assert Next(t, WriteRecord(1)).handlers == map[2 := Updating(Read(Some(1)))];
    Chain(s, [Mutate(1, Some(2))], t, [WriteRecord(1)],
          Busy(Some(Some(2)), map[2 := Updating(Read(Some(1)))], [FIRST]));
  }

  lemma SecondWrites()
    ensures Leads(Busy(Some(Some(2)), map[2 := Updating(Read(Some(1)))], [FIRST]),
                  [Mutate(2, Some(3)), WriteRecord(2)],
                  Busy(Some(Some(3)), map[], [FIRST, SECOND]))
  {
    var s := Busy(Some(Some(2)), map[2 := Updating(Read(Some(1)))], [FIRST]);
    var t := Busy(Some(Some(3)), map[2 := Updating(Mutated(Some(1), Some(2)))], [FIRST]);
    One(s, Mutate(2, Some(3)));
    assert Next(s, Mutate(2, Some(3))) == t;
    One(t, WriteRecord(2));
    assert Buffered(t, 0) + [SECOND] == [FIRST, SECOND];
    assert Next(t, WriteRecord(2)).records == map[0 := [FIRST, SECOND]];
    assert Next(t, WriteRecord(2)).handlers == map[];
    Chain(s, [Mutate(2, Some(3))], t, [WriteRecord(2)], Busy(Some(Some(3)), map[], [FIRST, SECOND]));
  }

  const READ_BOTH := Busy(None, map[1 := Updating(Read(Some(1))), 2 := Updating(Read(Some(1)))], [])

  lemma BothReadOne()
    ensures Leads(EMPTY, READING, READ_BOTH)
  {
    RowCreated();
    BothBegin();
    BothLock();
    BothReread();
    var begun := Idle(map[1 := Updating(Candidate), 2 := Updating(Candidate)]);
    var locked := Busy(None, map[1 := Updating(Locked), 2 := Updating(Locked)], []);
    var run := [Create(9, 5, 1), Commit(9)];
    Chain(EMPTY, run, Idle(map[]), [Begin(1, 0, 5), Begin(2, 0, 5)], begun);
    run := run + [Begin(1, 0, 5), Begin(2, 0, 5)];
    Chain(EMPTY, run, begun, [TakeLock(1), TakeLock(2)], locked);
    run := run + [TakeLock(1), TakeLock(2)];
    Chain(EMPTY, run, locked, [Reread(1), Reread(2)], READ_BOTH);
    assert run + [Reread(1), Reread(2)] == READING;
  }

  /** After the commit row 5 holds 3 and the log has all three records. */
  const FINAL := State(map[5 := 3], {5}, map[], map[], map[], [CREATED, FIRST, SECOND])

  lemma LastCommit()
    ensures var last := Busy(Some(Some(3)), map[], [FIRST, SECOND]);
      Enabled(last, Commit(0)) && Next(last, Commit(0)) == FINAL
  {
    var last := Busy(Some(Some(3)), map[], [FIRST, SECOND]);
    assert CommittedRows(last, 0) == map[5 := 3];
    assert last.log + Buffered(last, 0) == [CREATED, FIRST, SECOND];
  }

  lemma BothCommit(t: State)
    requires t == FINAL
    ensures Leads(READ_BOTH, WRITING, t)
  {
    FirstWrites();
    SecondWrites();
    var half := Busy(Some(Some(2)), map[2 := Updating(Read(Some(1)))], [FIRST]);
    var last := Busy(Some(Some(3)), map[], [FIRST, SECOND]);
    LastCommit();
    One(last, Commit(0));
    var run := [Mutate(1, Some(2)), WriteRecord(1)];
    Chain(READ_BOTH, run, half, [Mutate(2, Some(3)), WriteRecord(2)], last);
    run := run + [Mutate(2, Some(3)), WriteRecord(2)];
    Chain(READ_BOTH, run, last, [Commit(0)], t);
    assert run + [Commit(0)] == WRITING;
  }

  /** The last record of this committed log says 1 was overwritten, but its mutation replaced 2. */
  lemma InterleavedHandlersLosePreimages()
    ensures Valid(EMPTY, READING + WRITING)
    ensures Exec(EMPTY, READING + WRITING).log == [CREATED, FIRST, SECOND]
    ensures SECOND.before != SECOND.overwritten && SECOND.before != FIRST.after
  {
    BothReadOne();
    LastCommit();
    BothCommit(FINAL);
    Chain(EMPTY, READING, READ_BOTH, WRITING, FINAL);
  }
}
