/** Automatic auditing in `atomic-required` mode: all handlers of one `withAuditTransaction`
    call, and the lifecycles inside them, as interleaved steps on a shared transaction. */
module AtomicProtocol {
  import Diff
  import opened Prelude
  import Values

  type OpId = nat
  type Token = nat

  /** A record as captured for the audit row. */
  type Image = Diff.Record
  type Error = nat

  datatype Kind = Create | Update | Upsert | Delete | DeleteMany | CreateMany | UpdateMany

  datatype Phase = PreRead | Querying | Writing | Settled(ok: bool)

  /** Why a successful mutation may go without a row; `after` is the record read afterwards. */
  datatype Exemption = NotExempt | TimestampOnly(after: Image) | Suppressed

  /** `ignoreTimestampOnlyUpdates`, and the schema's updated-at fields per model. */
  datatype Policy = Policy(ignoreTimestampOnly: bool, updatedAt: map<string, set<string>>)

  /** `affected`: how many records the query changed, once it succeeded.  `captured`: the
      preimages read before it.  `tokens`: the suppression scope around the query. */
  datatype Op = Op(kind: Kind, model: string, phase: Phase, captured: seq<Image>, affected: Option<nat>,
                   exempt: Exemption, tokens: set<Token>)

  datatype LifecycleStatus = Active | Succeeded | Threw

  /** A `withAuditLifecycle` call, the delete it runs inside of, and the outer operation it
      asks to suppress. */
  datatype Lifecycle = Lifecycle(scope: Option<OpId>, suppress: Option<(string, Kind)>, status: LifecycleStatus)

  /** What a row says happened: `${model}.created` and so on. */
  datatype Action = Created | Updated | Deleted | Summary

  datatype Row = Row(op: OpId, action: Action, image: Option<Image>)

  datatype Outcome = Open | Committing | Committed | RolledBack(error: Error)

  /** `stray`: some handler had not settled when the callback returned, or started later. */
  datatype Tx = Tx(policy: Policy, ops: map<OpId, Op>, lifecycles: map<Token, Lifecycle>, rows: seq<Row>,
                   failure: Option<Error>, outcome: Outcome, stray: bool)

  datatype Entry = Enter | Reject | ActorFails(error: Error)

  datatype Event =
    | Begin(id: OpId, kind: Kind, model: string, entry: Entry)
    | PreReadDone(id: OpId, images: seq<Image>)
    | PreReadFails(id: OpId, error: Error)
    | Overflow(id: OpId)
    | QueryOk(id: OpId, affected: nat, mismatch: Error)
    | QueryFails(id: OpId)
    | SkipTimestampOnly(id: OpId, after: Image)
    | WriteRow(id: OpId)
    | AfterQueryFails(id: OpId, error: Error)
    | LifecycleStarts(token: Token, scope: Option<OpId>, suppress: Option<(string, Kind)>)
    | LifecycleEnds(token: Token, ok: bool)
    | CallbackReturns
    | CallbackThrows(error: Error)
    | HostCommits
    | HostFails(error: Error)

  function Start(policy: Policy): Tx {
    Tx(policy, map[], map[], [], None, Open, false)
  }

  /** `updatedAtFieldsFor` */
  function UpdatedAtFields(policy: Policy, model: string): set<string> {
    if !policy.ignoreTimestampOnly then {}
    else if model in policy.updatedAt && policy.updatedAt[model] != {} then policy.updatedAt[model]
    else {"updatedAt"}
  }

  /** An update that found its record and changed nothing else in it; sensitive fields do not
      matter to that, by `Diff.ChangedKeysIgnoreRedaction`. */
  predicate ChangedOnlyTimestamps(policy: Policy, op: Op, after: Image) {
    && policy.ignoreTimestampOnly && (op.kind.Update? || op.kind.Upsert?) && op.captured != []
    && Diff.UpdateChanges(op.captured[0], after, {}, UpdatedAtFields(policy, op.model)) == map[]
  }

  predicate ReadsFirst(kind: Kind) {
    kind.Update? || kind.Upsert? || kind.Delete? || kind.DeleteMany?
  }

  predicate SuppressionScope(kind: Kind) {
    kind.Delete? || kind.DeleteMany?
  }

  predicate IsPhase(tx: Tx, id: OpId, phase: Phase) {
    id in tx.ops && tx.ops[id].phase == phase
  }

  /** The lifecycle runs inside `op` and names its model and operation. */
  predicate Asks(l: Lifecycle, id: OpId, op: Op) {
    l.scope == Some(id) && l.suppress == Some((op.model, op.kind))
  }

  predicate Enabled(tx: Tx, e: Event) {
    match e
    case Begin(id, kind, _, entry) => id !in tx.ops && ((kind.CreateMany? || kind.UpdateMany?) ==> !entry.Enter?)
    case PreReadDone(id, images) =>
      IsPhase(tx, id, PreRead) && (tx.ops[id].kind.DeleteMany? || |images| <= 1)
    case PreReadFails(id, _) => IsPhase(tx, id, PreRead)
    case Overflow(id) => IsPhase(tx, id, PreRead) && tx.ops[id].kind.DeleteMany?
    case QueryOk(id, affected, _) => IsPhase(tx, id, Querying) && (tx.ops[id].kind.DeleteMany? || affected == 1)
    case QueryFails(id) => IsPhase(tx, id, Querying)
    case SkipTimestampOnly(id, after) =>
      IsPhase(tx, id, Writing) && ChangedOnlyTimestamps(tx.policy, tx.ops[id], after)
    case WriteRow(id) => IsPhase(tx, id, Writing)
    case AfterQueryFails(id, _) => IsPhase(tx, id, Writing)
    case LifecycleStarts(token, scope, _) =>
      token !in tx.lifecycles &&
      (scope.Some? ==> IsPhase(tx, scope.value, Querying) && SuppressionScope(tx.ops[scope.value].kind))
    case LifecycleEnds(token, _) => token in tx.lifecycles && tx.lifecycles[token].status.Active?
    case CallbackReturns => tx.outcome.Open?
    case CallbackThrows(_) => tx.outcome.Open?
    case HostCommits => tx.outcome.Committing?
    case HostFails(_) => tx.outcome.Committing? || tx.outcome.Open?
  }

  function SetOp(tx: Tx, id: OpId, op: Op): Tx {
    tx.(ops := tx.ops[id := op])
  }

  /** `markAtomicFailure`: the first failure sticks. */
  function Mark(tx: Tx, error: Error): Tx {
    if tx.failure.None? then tx.(failure := Some(error)) else tx
  }

  /** How many rows the operation owes. */
  function Owed(op: Op): nat {
    if op.kind.DeleteMany? then |op.captured| else 1
  }

  /** The rows of one operation, in order. */
  function RowsOf(rows: seq<Row>, id: OpId): seq<Row> {
    if rows == [] then []
    else
      var rest := RowsOf(rows[..|rows| - 1], id);
      if rows[|rows| - 1].op == id then rest + [rows[|rows| - 1]] else rest
  }

  /** The `n`-th row an operation writes. */
  function RowFor(id: OpId, op: Op, n: nat): Row {
    RowWith(id, op.kind, op.captured, n)
  }

  /** An upsert is reported as an update exactly when its pre-read found the record. */
  function ActionOf(kind: Kind, captured: seq<Image>): Action {
    match kind
    case Create => Created
    case Update => Updated
    case Upsert => if captured == [] then Created else Updated
    case Delete => Deleted
    case DeleteMany => Deleted
    case _ => Summary
  }

  function RowWith(id: OpId, kind: Kind, captured: seq<Image>, n: nat): Row {
    Row(id, ActionOf(kind, captured), if kind.DeleteMany? && n < |captured| then Some(captured[n])
            else if captured != [] then Some(captured[0]) else None)
  }

  function Unsettled(tx: Tx): set<OpId> {
    set id | id in tx.ops && !tx.ops[id].phase.Settled?
  }

  function BeginOp(tx: Tx, id: OpId, kind: Kind, model: string, entry: Entry): Tx {
    var phase := if entry.Enter? then (if ReadsFirst(kind) then PreRead else Querying) else Settled(false);
    var t := SetOp(tx, id, Op(kind, model, phase, [], None, NotExempt, {})).(stray := tx.stray || !tx.outcome.Open?);
    if entry.ActorFails? then Mark(t, entry.error) else t
  }

  function FinishQuery(tx: Tx, id: OpId, affected: nat, mismatch: Error): Tx
    requires id in tx.ops
  {
    var op := tx.ops[id].(affected := Some(affected));
    if op.tokens != {} then SetOp(tx, id, op.(phase := Settled(true), exempt := Suppressed))
    else if op.kind.DeleteMany? && affected != |op.captured| then
      Mark(SetOp(tx, id, op.(phase := Settled(false))), mismatch)
    else SetOp(tx, id, op.(phase := if Owed(op) == 0 then Settled(true) else Writing))
  }

  function AddRow(tx: Tx, id: OpId): Tx
    requires id in tx.ops
  {
    var op := tx.ops[id];
    var n := |RowsOf(tx.rows, id)|;
    SetOp(tx, id, if n + 1 == Owed(op) then op.(phase := Settled(true)) else op)
      .(rows := tx.rows + [RowFor(id, op, n)])
  }

  function Fail(tx: Tx, id: OpId): Tx
    requires id in tx.ops
  {
    SetOp(tx, id, tx.ops[id].(phase := Settled(false)))
  }

  function StartLifecycle(tx: Tx, token: Token, l: Lifecycle): Tx {
    var t := tx.(lifecycles := tx.lifecycles[token := l]);
    if l.scope.Some? && l.scope.value in tx.ops && Asks(l, l.scope.value, tx.ops[l.scope.value])
    then SetOp(t, l.scope.value, tx.ops[l.scope.value].(tokens := tx.ops[l.scope.value].tokens + {token})) else t
  }

  function EndLifecycle(tx: Tx, token: Token, ok: bool): Tx
    requires token in tx.lifecycles
  {
    var l := tx.lifecycles[token];
    var t := tx.(lifecycles := tx.lifecycles[token := l.(status := if ok then Succeeded else Threw)]);
    if !ok && l.scope.Some? && l.scope.value in tx.ops && Asks(l, l.scope.value, tx.ops[l.scope.value])
    then SetOp(t, l.scope.value, tx.ops[l.scope.value].(tokens := tx.ops[l.scope.value].tokens - {token})) else t
  }

  function Next(tx: Tx, e: Event): Tx
    requires Enabled(tx, e)
  {
    match e
    case Begin(id, kind, model, entry) => BeginOp(tx, id, kind, model, entry)
    case PreReadDone(id, images) => SetOp(tx, id, tx.ops[id].(phase := Querying, captured := images))
    case PreReadFails(id, error) => Mark(Fail(tx, id), error)
    case Overflow(id) => Fail(tx, id)
    case QueryOk(id, affected, mismatch) => FinishQuery(tx, id, affected, mismatch)
    case QueryFails(id) => Fail(tx, id)
    case SkipTimestampOnly(id, after) =>
      SetOp(tx, id, tx.ops[id].(phase := Settled(true), exempt := TimestampOnly(after)))
    case WriteRow(id) => AddRow(tx, id)
    case AfterQueryFails(id, error) => Mark(Fail(tx, id), error)
    case LifecycleStarts(token, scope, suppress) => StartLifecycle(tx, token, Lifecycle(scope, suppress, Active))
    case LifecycleEnds(token, ok) => EndLifecycle(tx, token, ok)
    case CallbackReturns =>
      tx.(outcome := if tx.failure.Some? then RolledBack(tx.failure.value) else Committing,
          stray := tx.stray || Unsettled(tx) != {})
    case CallbackThrows(error) => tx.(outcome := RolledBack(error))
    case HostCommits => tx.(outcome := Committed)
    case HostFails(error) => tx.(outcome := RolledBack(error))
  }

  ghost predicate Valid(tx: Tx, es: seq<Event>)
    decreases |es|
  {
    es == [] || (Enabled(tx, es[0]) && Valid(Next(tx, es[0]), es[1..]))
  }

  ghost function Exec(tx: Tx, es: seq<Event>): Tx
    requires Valid(tx, es)
    decreases |es|
  {
    if es == [] then tx else Exec(Next(tx, es[0]), es[1..])
  }

  // ----- evidence -----

  /** The rows a mutation leaves: exactly one for a single record, which says what happened and
      shows the preimage that was found; for a deleteMany one per affected record, which show
      the captured records in order. */
  ghost predicate Complete(tx: Tx, id: OpId)
    requires id in tx.ops
  {
    var op := tx.ops[id];
    var rows := RowsOf(tx.rows, id);
    var found := if op.captured == [] then None else Some(op.captured[0]);
    match op.kind
    case Create => rows == [Row(id, Created, None)]
    case Update => rows == [Row(id, Updated, found)]
    case Upsert => rows == [Row(id, if found.None? then Created else Updated, found)]
    case Delete => rows == [Row(id, Deleted, found)]
    case DeleteMany =>
      && op.affected == Some(|rows|) && |rows| == |op.captured|
      && forall n :: 0 <= n < |rows| ==> rows[n] == Row(id, Deleted, Some(op.captured[n]))
    case _ => false
  }

  /** What holds of one operation at any moment. */
  ghost predicate OpInv(tx: Tx, id: OpId)
    requires id in tx.ops
  {
    var op := tx.ops[id];
    var rows := RowsOf(tx.rows, id);
    && (op.kind.Create? ==> op.captured == [])
    && (op.kind.CreateMany? || op.kind.UpdateMany? ==> op.phase == Settled(false))
    && match op.phase
    case PreRead => op.affected.None? && rows == [] && op.exempt.NotExempt? && ReadsFirst(op.kind)
    case Querying => op.affected.None? && rows == [] && op.exempt.NotExempt?
    case Writing =>
      && op.affected.Some? && op.exempt.NotExempt?
      && |rows| < Owed(op)
      && (op.kind.DeleteMany? ==> op.affected.value == |op.captured|)
      && forall n :: 0 <= n < |rows| ==> rows[n] == RowFor(id, op, n)
    case Settled(true) =>
      && op.affected.Some?
      && (op.exempt.NotExempt? ==> Complete(tx, id))
      && (op.exempt.TimestampOnly? ==> ChangedOnlyTimestamps(tx.policy, op, op.exempt.after))
      && (op.exempt.Suppressed? ==> SuppressionScope(op.kind))
    case Settled(false) =>
      && op.exempt.NotExempt?
      && ((op.affected.None? && rows == []) || (tx.failure.Some? && !Complete(tx, id)))
  }

  /** A scope's tokens are those of the lifecycles that ask for it and have not failed. */
  ghost predicate TokenInv(tx: Tx, id: OpId)
    requires id in tx.ops
  {
    && (forall t :: t in tx.ops[id].tokens <==>
          t in tx.lifecycles && Asks(tx.lifecycles[t], id, tx.ops[id]) && !tx.lifecycles[t].status.Threw?)
    && (tx.ops[id].tokens != {} ==> SuppressionScope(tx.ops[id].kind))
  }

  ghost predicate Inv(tx: Tx) {
    && (forall id :: id in tx.ops ==> OpInv(tx, id))
    && (forall id :: id in tx.ops ==> TokenInv(tx, id))
    && (forall i :: 0 <= i < |tx.rows| ==> tx.rows[i].op in tx.ops)
    && ScopesExist(tx)
    && (tx.outcome.Committing? || tx.outcome.Committed? ==>
          tx.stray || (Unsettled(tx) == {} && tx.failure.None?))
  }

  lemma {:induction false} NoRows(rows: seq<Row>, id: OpId)
    requires forall i :: 0 <= i < |rows| ==> rows[i].op != id
    ensures RowsOf(rows, id) == []
  {
    if rows != [] { NoRows(rows[..|rows| - 1], id); }
  }

  lemma RowsOfPush(rows: seq<Row>, r: Row, id: OpId)
    ensures RowsOf(rows + [r], id) == RowsOf(rows, id) + if r.op == id then [r] else []
  {
    assert (rows + [r])[..|rows|] == rows;
  }

  /** Steps that change one operation and leave rows and lifecycles alone. */
  predicate Local(e: Event) {
    || e.PreReadDone? || e.PreReadFails? || e.Overflow?
    || e.QueryOk? || e.QueryFails? || e.SkipTimestampOnly? || e.AfterQueryFails?
  }

  /** An operation that a step leaves alone keeps what holds of it. */
  lemma OpFrame(tx: Tx, t: Tx, id: OpId)
    requires id in tx.ops && id in t.ops && OpInv(tx, id) && TokenInv(tx, id)
    requires t.ops[id] == tx.ops[id] && t.rows == tx.rows && t.lifecycles == tx.lifecycles && t.policy == tx.policy
    requires tx.failure.Some? ==> t.failure.Some?
    ensures OpInv(t, id) && TokenInv(t, id)
  {
  }

  lemma BegunOp(tx: Tx, id: OpId, kind: Kind, model: string, entry: Entry)
    requires Inv(tx) && Enabled(tx, Begin(id, kind, model, entry))
    ensures var t := BeginOp(tx, id, kind, model, entry); OpInv(t, id) && TokenInv(t, id)
  {
    NoRows(tx.rows, id);
  }

  lemma BeginKeepsInv(tx: Tx, e: Event)
    requires Inv(tx) && Enabled(tx, e) && e.Begin?
    ensures Inv(Next(tx, e))
  {
    var t := Next(tx, e);
    BegunOp(tx, e.id, e.kind, e.model, e.entry);
    forall id | id in t.ops ensures OpInv(t, id) && TokenInv(t, id) {
      if id != e.id { OpFrame(tx, t, id); }
    }
  }

  lemma FinishQueryOp(tx: Tx, id: OpId, affected: nat, mismatch: Error)
    requires id in tx.ops && tx.ops[id].phase.Querying? && OpInv(tx, id) && TokenInv(tx, id)
    ensures OpInv(FinishQuery(tx, id, affected, mismatch), id) && TokenInv(FinishQuery(tx, id, affected, mismatch), id)
  {
  }

  lemma LocalOp(tx: Tx, e: Event)
    requires Enabled(tx, e) && Local(e) && OpInv(tx, e.id) && TokenInv(tx, e.id)
    ensures OpInv(Next(tx, e), e.id) && TokenInv(Next(tx, e), e.id)
  {
    if e.QueryOk? { FinishQueryOp(tx, e.id, e.affected, e.mismatch); }
  }

  /** The rest of the invariant when only operations changed, an unsettled one among them. */
  lemma CloseInv(tx: Tx, t: Tx, id: OpId)
    requires Inv(tx) && t.ops.Keys == tx.ops.Keys && t.rows == tx.rows && t.lifecycles == tx.lifecycles
    requires t.outcome == tx.outcome && t.stray == tx.stray
    requires forall o :: o in t.ops ==> OpInv(t, o) && TokenInv(t, o)
    requires id in tx.ops && !tx.ops[id].phase.Settled?
    ensures Inv(t)
  {
    assert id in Unsettled(tx);
  }

  lemma LocalFacts(tx: Tx, e: Event)
    requires Enabled(tx, e) && Local(e)
    ensures var t := Next(tx, e);
      && e.id in tx.ops && !tx.ops[e.id].phase.Settled?
      && t.ops.Keys == tx.ops.Keys && t.rows == tx.rows && t.lifecycles == tx.lifecycles
      && t.outcome == tx.outcome && t.stray == tx.stray && t.policy == tx.policy
      && (tx.failure.Some? ==> t.failure.Some?)
      && forall id :: id in tx.ops && id != e.id ==> t.ops[id] == tx.ops[id]
  {
  }

  lemma LocalKeepsInv(tx: Tx, e: Event)
    requires Inv(tx) && Enabled(tx, e) && Local(e)
    ensures Inv(Next(tx, e))
  {
    var t := Next(tx, e);
    LocalOp(tx, e);
    LocalFacts(tx, e);
    forall id | id in t.ops ensures OpInv(t, id) && TokenInv(t, id) {
      if id != e.id { OpFrame(tx, t, id); }
    }
    CloseInv(tx, t, e.id);
  }

  lemma AddRowOp(tx: Tx, id: OpId)
    requires id in tx.ops && tx.ops[id].phase.Writing? && OpInv(tx, id) && TokenInv(tx, id)
    ensures OpInv(AddRow(tx, id), id) && TokenInv(AddRow(tx, id), id)
  {
    var n := |RowsOf(tx.rows, id)|;
    RowsOfPush(tx.rows, RowFor(id, tx.ops[id], n), id);
  }

  lemma AddRowOther(tx: Tx, id: OpId, other: OpId)
    requires id in tx.ops && other in tx.ops && other != id && OpInv(tx, other) && TokenInv(tx, other)
    ensures OpInv(AddRow(tx, id), other) && TokenInv(AddRow(tx, id), other)
  {
    var n := |RowsOf(tx.rows, id)|;
    RowsOfPush(tx.rows, RowFor(id, tx.ops[id], n), other);
  }

  lemma WriteRowKeepsInv(tx: Tx, id: OpId)
    requires Inv(tx) && IsPhase(tx, id, Writing)
    ensures Inv(AddRow(tx, id))
  {
    var t := AddRow(tx, id);
    forall o | o in t.ops ensures OpInv(t, o) && TokenInv(t, o) {
      if o == id { AddRowOp(tx, id); } else { AddRowOther(tx, id, o); }
    }
    assert id in Unsettled(tx);
  }

  /** What holds of an operation's evidence does not depend on its tokens. */
  lemma TokensOnly(tx: Tx, t: Tx, id: OpId)
    requires id in tx.ops && id in t.ops && OpInv(tx, id)
    requires t.ops[id] == tx.ops[id].(tokens := t.ops[id].tokens) && t.rows == tx.rows && t.failure == tx.failure
    requires t.policy == tx.policy
    ensures OpInv(t, id)
  {
    assert forall n: nat :: RowFor(id, t.ops[id], n) == RowFor(id, tx.ops[id], n);
    assert Owed(t.ops[id]) == Owed(tx.ops[id]);
  }

  lemma TokensOnStart(tx: Tx, token: Token, l: Lifecycle, id: OpId)
    requires id in tx.ops && TokenInv(tx, id) && token !in tx.lifecycles && l.status.Active?
    requires l.scope == Some(id) ==> SuppressionScope(tx.ops[id].kind)
    ensures TokenInv(StartLifecycle(tx, token, l), id)
  {
  }

  lemma TokensOnEnd(tx: Tx, token: Token, ok: bool, id: OpId)
    requires id in tx.ops && TokenInv(tx, id) && token in tx.lifecycles && tx.lifecycles[token].status.Active?
    ensures TokenInv(EndLifecycle(tx, token, ok), id)
  {
  }

  /** A lifecycle's start or end changes nothing but lifecycles and tokens. */
  ghost predicate OnlyTokens(tx: Tx, t: Tx) {
    && t.ops.Keys == tx.ops.Keys && t.rows == tx.rows && t.failure == tx.failure && t.policy == tx.policy
    && t.outcome == tx.outcome && t.stray == tx.stray
    && forall id :: id in tx.ops ==> t.ops[id] == tx.ops[id].(tokens := t.ops[id].tokens)
  }

  predicate ScopesExist(tx: Tx) {
    forall k :: k in tx.lifecycles && tx.lifecycles[k].scope.Some? ==> tx.lifecycles[k].scope.value in tx.ops
  }

  lemma OnlyTokensKeepsInv(tx: Tx, t: Tx)
    requires Inv(tx) && OnlyTokens(tx, t) && ScopesExist(t) && forall id :: id in t.ops ==> TokenInv(t, id)
    ensures Inv(t)
  {
    forall id | id in t.ops ensures OpInv(t, id) && t.ops[id].phase == tx.ops[id].phase {
      assert OpInv(tx, id);
      TokensOnly(tx, t, id);
    }
    assert Unsettled(t) == Unsettled(tx);
  }

  lemma StartKeepsInv(tx: Tx, token: Token, l: Lifecycle)
    requires Inv(tx) && token !in tx.lifecycles && l.status.Active?
    requires l.scope.Some? ==> l.scope.value in tx.ops && SuppressionScope(tx.ops[l.scope.value].kind)
    ensures Inv(StartLifecycle(tx, token, l))
  {
    var t := StartLifecycle(tx, token, l);
    assert OnlyTokens(tx, t);
    forall id | id in t.ops ensures TokenInv(t, id) {
      TokensOnStart(tx, token, l, id);
    }
    OnlyTokensKeepsInv(tx, t);
  }

  lemma EndKeepsInv(tx: Tx, token: Token, ok: bool)
    requires Inv(tx) && token in tx.lifecycles && tx.lifecycles[token].status.Active?
    ensures Inv(EndLifecycle(tx, token, ok))
  {
    var t := EndLifecycle(tx, token, ok);
    assert OnlyTokens(tx, t);
    forall id | id in t.ops ensures TokenInv(t, id) {
      TokensOnEnd(tx, token, ok, id);
    }
    OnlyTokensKeepsInv(tx, t);
  }

  lemma StepKeepsInv(tx: Tx, e: Event)
    requires Inv(tx) && Enabled(tx, e)
    ensures Inv(Next(tx, e))
  {
    match e
    case Begin(_, _, _, _) => BeginKeepsInv(tx, e);
    case WriteRow(id) => WriteRowKeepsInv(tx, id);
    case LifecycleStarts(token, scope, suppress) => StartKeepsInv(tx, token, Lifecycle(scope, suppress, Active));
    case LifecycleEnds(token, ok) => EndKeepsInv(tx, token, ok);
    case CallbackReturns => OutcomeKeepsInv(tx, e);
    case CallbackThrows(_) => OutcomeKeepsInv(tx, e);
    case HostCommits => OutcomeKeepsInv(tx, e);
    case HostFails(_) => OutcomeKeepsInv(tx, e);
    case _ => LocalKeepsInv(tx, e);
  }

  lemma OutcomeKeepsInv(tx: Tx, e: Event)
    requires Inv(tx) && Enabled(tx, e) && (e.CallbackReturns? || e.CallbackThrows? || e.HostCommits? || e.HostFails?)
    ensures Inv(Next(tx, e))
  {
    var t := Next(tx, e);
    assert t.ops == tx.ops && t.rows == tx.rows && t.lifecycles == tx.lifecycles && t.failure == tx.failure;
    forall id | id in t.ops ensures OpInv(t, id) && TokenInv(t, id) {
      assert OpInv(tx, id) && TokenInv(tx, id);
    }
    assert Unsettled(t) == Unsettled(tx);
  }

  lemma {:induction false} ExecKeepsInv(tx: Tx, es: seq<Event>)
    requires Inv(tx) && Valid(tx, es)
    ensures Inv(Exec(tx, es))
    decreases |es|
  {
    if es != [] {
      StepKeepsInv(tx, es[0]);
      ExecKeepsInv(Next(tx, es[0]), es[1..]);
    }
  }

  // ----- main results -----

  /** Atomic evidence: when the transaction commits and no handler was left unsettled at the
      callback's return, every mutation that succeeded has exactly its rows.  A deleteMany
      has as many as records were affected, which hold the captured records in order.  The
      exceptions are suppressed deletes and, if the option is on, updates that left every
      field but the ignored ones equal. */
  lemma CommittedMeansComplete(policy: Policy, es: seq<Event>, id: OpId)
    requires Valid(Start(policy), es)
    requires var t := Exec(Start(policy), es);
      t.outcome.Committed? && !t.stray && id in t.ops && t.ops[id].affected.Some?
    ensures var t := Exec(Start(policy), es); var op := t.ops[id];
      match op.exempt
      case NotExempt => Complete(t, id)
      case Suppressed => op.kind == Delete || op.kind == DeleteMany
      case TimestampOnly(after) =>
        policy.ignoreTimestampOnly && (op.kind.Update? || op.kind.Upsert?) && FieldsEqual(policy, op, after)
  {
    ExecKeepsInv(Start(policy), es);
    PolicyStays(Start(policy), es);
    var t := Exec(Start(policy), es);
    assert OpInv(t, id);
    assert id in Unsettled(t) <==> !t.ops[id].phase.Settled?;
    if t.ops[id].exempt.TimestampOnly? { OnlyTimestampsMeaning(policy, t.ops[id], t.ops[id].exempt.after); }
  }

  /** Call by call and at any moment of any history, whatever else was not awaited: a mutation
      that is not exempt has exactly its rows if and only if its handler has settled with
      success. */
  lemma EvidenceExactly(policy: Policy, es: seq<Event>, id: OpId)
    requires Valid(Start(policy), es)
    requires var op := Exec(Start(policy), es).ops; id in op && op[id].affected.Some? && op[id].exempt.NotExempt?
    ensures var t := Exec(Start(policy), es); Complete(t, id) <==> t.ops[id].phase == Settled(true)
  {
    ExecKeepsInv(Start(policy), es);
    assert OpInv(Exec(Start(policy), es), id);
  }

  /** With the option off there is no such exception. */
  lemma CommittedWithoutOption(policy: Policy, es: seq<Event>, id: OpId)
    requires !policy.ignoreTimestampOnly && Valid(Start(policy), es)
    requires var t := Exec(Start(policy), es);
      t.outcome.Committed? && !t.stray && id in t.ops && t.ops[id].affected.Some?
    ensures var t := Exec(Start(policy), es);
      Complete(t, id) || (t.ops[id].exempt.Suppressed? && (t.ops[id].kind == Delete || t.ops[id].kind == DeleteMany))
  {
    CommittedMeansComplete(policy, es, id);
  }

  /** Every field of the record read afterwards is what it was before, except those the schema
      marks as updated-at, or `updatedAt` when it marks none. */
  predicate FieldsEqual(policy: Policy, op: Op, after: Image) {
    && op.captured != []
    && (Diff.RecordWellFormed(op.captured[0]) && Diff.RecordWellFormed(after) ==>
          forall k :: k in Diff.Keys(after) ==>
            || Values.Equiv(Diff.Get(op.captured[0], k), Diff.Get(after, k))
            || (if op.model in policy.updatedAt && policy.updatedAt[op.model] != {}
                then k in policy.updatedAt[op.model] else k == "updatedAt"))
  }

  lemma OnlyTimestampsMeaning(policy: Policy, op: Op, after: Image)
    requires ChangedOnlyTimestamps(policy, op, after)
    ensures FieldsEqual(policy, op, after)
  {
    if Diff.RecordWellFormed(op.captured[0]) && Diff.RecordWellFormed(after) {
      Diff.NoChangesMeaning(op.captured[0], after, {}, UpdatedAtFields(policy, op.model));
    }
  }

  lemma {:induction false} PolicyStays(tx: Tx, es: seq<Event>)
    requires Valid(tx, es)
    ensures Exec(tx, es).policy == tx.policy
    decreases |es|
  {
    if es != [] { PolicyStays(Next(tx, es[0]), es[1..]); }
  }

  /** No query of this operation ever ran, nor will. */
  predicate NeverRuns(tx: Tx, id: OpId) {
    id in tx.ops && (tx.ops[id].kind.CreateMany? || tx.ops[id].kind.UpdateMany?) ==>
      tx.ops[id].affected.None? && tx.ops[id].phase == Settled(false)
  }

  lemma SummaryStep(tx: Tx, e: Event, id: OpId)
    requires Enabled(tx, e) && NeverRuns(tx, id)
    ensures NeverRuns(Next(tx, e), id)
  {
    if Local(e) { LocalFacts(tx, e); }
  }

  /** createMany and updateMany never reach the database in atomic mode. */
  lemma {:induction false} SummariesNeverRun(tx: Tx, es: seq<Event>, id: OpId)
    requires Valid(tx, es) && NeverRuns(tx, id)
    ensures NeverRuns(Exec(tx, es), id)
    decreases |es|
  {
    if es != [] {
      SummaryStep(tx, es[0], id);
      SummariesNeverRun(Next(tx, es[0]), es[1..], id);
    }
  }

  /** The first step that ends the running callback rolls back for good, with this error
      unless the callback itself threw or the host failed. */
  ghost predicate EndsWith(tx: Tx, es: seq<Event>, error: Error)
    requires Valid(tx, es)
    decreases |es|
  {
    es == [] ||
    var t := Next(tx, es[0]);
    if t.outcome.Open? then EndsWith(t, es[1..], error)
    else
      && t.outcome.RolledBack? && Exec(tx, es).outcome == t.outcome
      && (es[0].CallbackThrows? || es[0].HostFails? || t.outcome.error == error)
  }

  /** A failure marked while the callback is running sticks, and nothing commits: the callback
      may catch every error it likes, its return rolls back with that failure; only its own
      throw or the host's failure can come before it. */
  lemma {:induction false} FailureForcesRollback(tx: Tx, es: seq<Event>, error: Error)
    requires Valid(tx, es) && tx.failure == Some(error) && tx.outcome.Open?
    ensures Exec(tx, es).failure == Some(error) && !Exec(tx, es).outcome.Committed? && EndsWith(tx, es, error)
    decreases |es|
  {
    if es != [] {
      var t := Next(tx, es[0]);
      if t.outcome.Open? { FailureForcesRollback(t, es[1..], error); } else { RolledBackStays(t, es[1..]); }
    }
  }

  lemma {:induction false} RolledBackStays(tx: Tx, es: seq<Event>)
    requires Valid(tx, es) && tx.outcome.RolledBack?
    ensures Exec(tx, es).outcome == tx.outcome && (tx.failure.Some? ==> Exec(tx, es).failure == tx.failure)
    decreases |es|
  {
    if es != [] { RolledBackStays(Next(tx, es[0]), es[1..]); }
  }

  /** Every handler that ends in an error after its query succeeded has marked the
      transaction: no failure after a mutation goes unnoticed. */
  lemma FailureAfterMutationIsMarked(policy: Policy, es: seq<Event>, id: OpId)
    requires Valid(Start(policy), es)
    requires var t := Exec(Start(policy), es);
      id in t.ops && t.ops[id].phase == Settled(false) && t.ops[id].affected.Some?
    ensures Exec(Start(policy), es).failure.Some?
  {
    ExecKeepsInv(Start(policy), es);
    assert OpInv(Exec(Start(policy), es), id);
  }

  /** No lifecycle of the scope is still running. */
  predicate LifecyclesEnded(tx: Tx, id: OpId) {
    forall t :: t in tx.lifecycles && tx.lifecycles[t].scope == Some(id) ==> !tx.lifecycles[t].status.Active?
  }

  /** A lifecycle that ran inside the operation, named its model and kind, and succeeded. */
  predicate TakesOver(l: Lifecycle, id: OpId, model: string, kind: Kind) {
    && l.scope == Some(id) && l.status == Succeeded
    && l.suppress.Some? && l.suppress.value.0 == model && l.suppress.value.1 == kind
  }

  /** Lifecycle suppression: once the lifecycles awaited inside a delete have ended, its scope
      holds exactly the matching ones that succeeded, so its row is skipped if and only if
      at least one did.  Failed lifecycles, other models or operations, and lifecycles of
      concurrent deletes make no difference. */
  lemma SuppressedIffLifecycleSucceeded(policy: Policy, es: seq<Event>, id: OpId, affected: nat, mismatch: Error)
    requires Valid(Start(policy), es) && Enabled(Exec(Start(policy), es), QueryOk(id, affected, mismatch))
    requires LifecyclesEnded(Exec(Start(policy), es), id)
    ensures var t := Exec(Start(policy), es);
      && (forall token :: token in t.ops[id].tokens <==>
            token in t.lifecycles && TakesOver(t.lifecycles[token], id, t.ops[id].model, t.ops[id].kind))
      && (Next(t, QueryOk(id, affected, mismatch)).ops[id].exempt.Suppressed? <==>
            exists token ::
              token in t.lifecycles && TakesOver(t.lifecycles[token], id, t.ops[id].model, t.ops[id].kind))
  {
    ExecKeepsInv(Start(policy), es);
    var t := Exec(Start(policy), es);
    assert TokenInv(t, id) && OpInv(t, id);
    if t.ops[id].tokens != {} {
      var token :| token in t.ops[id].tokens;
    }
  }

  // ----- where the assumptions are needed -----

  lemma ValidStep(tx: Tx, es: seq<Event>)
    requires es != [] && Enabled(tx, es[0]) && Valid(Next(tx, es[0]), es[1..])
    ensures Valid(tx, es) && Exec(tx, es) == Exec(Next(tx, es[0]), es[1..])
  {
  }

  const PLAIN := Policy(false, map[])

  const UNAWAITED: seq<Event> := [Begin(0, Create, "User", Enter), QueryOk(0, 1, 0), CallbackReturns, HostCommits]

  /** The helper does not drain: a mutation whose handler is not awaited can commit without
      its row. */
  lemma UnawaitedWriteCommitsWithoutRow()
    ensures Valid(Start(PLAIN), UNAWAITED)
    ensures var t := Exec(Start(PLAIN), UNAWAITED);
      t.outcome.Committed? && t.ops[0].affected == Some(1) && t.rows == [] && t.ops[0].exempt.NotExempt?
  {
    var es := UNAWAITED;
    var t1 := Next(Start(PLAIN), es[0]);
    var t2 := Next(t1, es[1]);
    var t3 := Next(t2, es[2]);
    assert es[4..] == [];
    ValidStep(t3, es[3..]);
    ValidStep(t2, es[2..]);
    ValidStep(t1, es[1..]);
    ValidStep(Start(PLAIN), es);
  }

  const UNAWAITED_LIFECYCLE: seq<Event> :=
    [Begin(0, Delete, "User", Enter), PreReadDone(0, [[]]), LifecycleStarts(0, Some(0), Some(("User", Delete))),
     QueryOk(0, 1, 0), LifecycleEnds(0, false)]

  /** A lifecycle counts from its start: one that is not awaited suppresses the row even if
      it fails afterwards. */
  lemma UnawaitedLifecycleSuppresses()
    ensures Valid(Start(PLAIN), UNAWAITED_LIFECYCLE)
    ensures var t := Exec(Start(PLAIN), UNAWAITED_LIFECYCLE);
      t.ops[0].exempt.Suppressed? && t.lifecycles[0].status.Threw? && t.ops[0].tokens == {}
  {
    var es := UNAWAITED_LIFECYCLE;
    var t1 := Next(Start(PLAIN), es[0]);
    var t2 := Next(t1, es[1]);
    var t3 := Next(t2, es[2]);
    var t4 := Next(t3, es[3]);
    assert es[5..] == [];
    assert 0 in t3.ops[0].tokens;
    ValidStep(t4, es[4..]);
    ValidStep(t3, es[3..]);
    ValidStep(t2, es[2..]);
    ValidStep(t1, es[1..]);
    ValidStep(Start(PLAIN), es);
  }
}
