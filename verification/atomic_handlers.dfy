/** The operation handlers of the audited client, in `atomic-required` mode, with the scope
    state they share.  Database answers are arbitrary; between any two awaits the other
    handlers and lifecycles of the transaction may run. */
module AtomicHandlers {
  import opened AtomicProtocol
  import Diff
  import opened Prelude

  ghost predicate Leads(tx: Tx, t: Tx) {
    exists es :: LeadsBy(tx, t, es)
  }

  ghost predicate LeadsBy(tx: Tx, t: Tx, es: seq<Event>) {
    Valid(tx, es) && Exec(tx, es) == t
  }

  lemma {:induction false} Chain(tx: Tx, es: seq<Event>, fs: seq<Event>)
    requires Valid(tx, es) && Valid(Exec(tx, es), fs)
    ensures Valid(tx, es + fs) && Exec(tx, es + fs) == Exec(Exec(tx, es), fs)
    decreases |es|
  {
    if es == [] {
      assert es + fs == fs;
    } else {
      Chain(Next(tx, es[0]), es[1..], fs);
      assert (es + fs)[1..] == es[1..] + fs && (es + fs)[0] == es[0];
    }
  }

  lemma LeadsTo(tx: Tx, t: Tx, u: Tx)
    requires Leads(tx, t) && Leads(t, u)
    ensures Leads(tx, u)
  {
    var es :| LeadsBy(tx, t, es);
    var fs :| LeadsBy(t, u, fs);
    Chain(tx, es, fs);
    assert LeadsBy(tx, u, es + fs);
  }

  lemma LeadsNowhere(tx: Tx)
    ensures Leads(tx, tx)
  {
    assert LeadsBy(tx, tx, []);
  }

  lemma LeadsOnce(tx: Tx, e: Event)
    requires Enabled(tx, e)
    ensures Leads(tx, Next(tx, e))
  {
    assert [e][1..] == [];
    ValidStep(tx, [e]);
    assert LeadsBy(tx, Next(tx, e), [e]);
  }

  /** What a history from the start of the transaction implies for one operation. */
  lemma OpFacts(tx: Tx, id: OpId)
    requires Leads(Start(tx.policy), tx) && id in tx.ops
    ensures OpInv(tx, id) && TokenInv(tx, id)
  {
    var es :| LeadsBy(Start(tx.policy), tx, es);
    ExecKeepsInv(Start(tx.policy), es);
  }

  /** What is settled is final: no later step of anyone touches the operation's outcome or
      its rows. */
  lemma SettledStep(tx: Tx, e: Event, id: OpId)
    requires Enabled(tx, e) && id in tx.ops && tx.ops[id].phase.Settled?
    ensures var t := Next(tx, e);
      id in t.ops && t.ops[id] == tx.ops[id].(tokens := t.ops[id].tokens) && RowsOf(t.rows, id) == RowsOf(tx.rows, id)
  {
    if e.WriteRow? {
      RowsOfPush(tx.rows, Next(tx, e).rows[|tx.rows|], id);
    } else if Local(e) {
      LocalFacts(tx, e);
    }
  }

  lemma {:induction false} SettledRun(tx: Tx, es: seq<Event>, id: OpId)
    requires Valid(tx, es) && id in tx.ops && tx.ops[id].phase.Settled?
    ensures var t := Exec(tx, es);
      id in t.ops && t.ops[id] == tx.ops[id].(tokens := t.ops[id].tokens) && RowsOf(t.rows, id) == RowsOf(tx.rows, id)
    decreases |es|
  {
    if es != [] {
      SettledStep(tx, es[0], id);
      SettledRun(Next(tx, es[0]), es[1..], id);
    }
  }

  /** A settled handler's result stays what it was. */
  lemma ReportStays(tx: Tx, t: Tx, id: OpId, kind: Kind, model: string, r: Result<nat, ()>)
    requires Leads(tx, t) && Reported(tx, id, kind, model, r)
    ensures Reported(t, id, kind, model, r)
  {
    var es :| LeadsBy(tx, t, es);
    SettledRun(tx, es, id);
    PolicyStays(tx, es);
    FailureStays(tx, es);
  }

  lemma {:induction false} FailureStays(tx: Tx, es: seq<Event>)
    requires Valid(tx, es)
    ensures tx.failure.Some? ==> Exec(tx, es).failure == tx.failure
    decreases |es|
  {
    if es != [] { FailureStays(Next(tx, es[0]), es[1..]); }
  }

  /** What a settled handler has to show for its result: a success has its rows, unless it was
      suppressed or changed only timestamps; a failure after the mutation is marked. */
  ghost predicate Reported(tx: Tx, id: OpId, kind: Kind, model: string, r: Result<nat, ()>) {
    && IsPhase(tx, id, Settled(r.Ok?))
    && tx.ops[id].kind == kind && tx.ops[id].model == model
    && (r.Ok? ==> tx.ops[id].affected == Some(r.value) && Evidenced(tx, id))
    && (r.Failed? ==> tx.ops[id].exempt.NotExempt? && (tx.ops[id].affected.Some? ==> tx.failure.Some?))
  }

  ghost predicate Evidenced(tx: Tx, id: OpId)
    requires id in tx.ops
  {
    match tx.ops[id].exempt
    case NotExempt => Complete(tx, id)
    case Suppressed => tx.ops[id].kind == Delete || tx.ops[id].kind == DeleteMany
    case TimestampOnly(after) => ChangedOnlyTimestamps(tx.policy, tx.ops[id], after)
  }

  /** What the database and the policy checks have answered to one handler: how many records a
      batch matched, the records read (again) before the query, how many the query changed, the
      record read afterwards, and how often something failed. */
  datatype Answers = Answers(matched: nat, read: seq<Image>, changed: Option<nat>, after: Option<Image>, faults: nat)

  const NOTHING_YET := Answers(0, [], None, None, 0)

  function TokensOf(tx: Tx): map<OpId, set<Token>> {
    map id | id in tx.ops :: tx.ops[id].tokens
  }

  /** Only lifecycles change an existing suppression scope. */
  lemma TokensAfter(tx: Tx, e: Event)
    requires Enabled(tx, e) && !e.LifecycleStarts? && !e.LifecycleEnds?
    ensures TokensOf(Next(tx, e)) == if e.Begin? then TokensOf(tx)[e.id := {}] else TokensOf(tx)
  {
    var t := Next(tx, e);
    if !e.Begin? {
      if Local(e) { LocalFacts(tx, e); LocalTokens(tx, e); }
      assert forall id :: id in tx.ops ==> id in t.ops && t.ops[id].tokens == tx.ops[id].tokens;
    }
  }

  lemma BeginFacts(tx: Tx, id: OpId, kind: Kind, model: string, entry: Entry)
    requires id !in tx.ops
    ensures var t := BeginOp(tx, id, kind, model, entry);
      && t.ops.Keys == tx.ops.Keys + {id} && t.rows == tx.rows && t.policy == tx.policy
      && t.failure == (if entry.ActorFails? && tx.failure.None? then Some(entry.error) else tx.failure)
      && t.ops[id].kind == kind && t.ops[id].model == model && t.ops[id].captured == [] && t.ops[id].affected.None?
      && t.ops[id].phase == (if !entry.Enter? then Settled(false) else if ReadsFirst(kind) then PreRead else Querying)
  {
  }

  lemma LocalTokens(tx: Tx, e: Event)
    requires Enabled(tx, e) && Local(e)
    ensures e.id in Next(tx, e).ops && Next(tx, e).ops[e.id].tokens == tx.ops[e.id].tokens
  {
  }

  /** One more row for one operation. */
  lemma AddRowFacts(tx: Tx, id: OpId)
    requires IsPhase(tx, id, Writing)
    ensures var t := AddRow(tx, id); var op := tx.ops[id]; var n := |RowsOf(tx.rows, id)|;
      && t.rows == tx.rows + [RowFor(id, op, n)] && |RowsOf(t.rows, id)| == n + 1
      && t.failure == tx.failure && id in t.ops
      && t.ops[id] == op.(phase := if n + 1 == Owed(op) then Settled(true) else Writing)
  {
    RowsOfPush(tx.rows, RowFor(id, tx.ops[id], |RowsOf(tx.rows, id)|), id);
  }

  lemma FinishQueryFacts(tx: Tx, id: OpId, affected: nat, mismatch: Error)
    requires IsPhase(tx, id, Querying)
    ensures var t := FinishQuery(tx, id, affected, mismatch); var op := tx.ops[id];
      var short := op.tokens == {} && op.kind.DeleteMany? && affected != |op.captured|;
      && id in t.ops && t.rows == tx.rows
      && t.failure == (if short && tx.failure.None? then Some(mismatch) else tx.failure)
      && t.ops[id].kind == op.kind && t.ops[id].model == op.model && t.ops[id].captured == op.captured
      && t.ops[id].affected == Some(affected)
      && t.ops[id].exempt == (if op.tokens != {} then Suppressed else op.exempt)
      && t.ops[id].phase ==
         (if short then Settled(false) else if op.tokens != {} || Owed(op) == 0 then Settled(true) else Writing)
  {
  }

  datatype QueryResult = Stop | Skip(affected: nat) | Write(affected: nat)

  class TransactionScope {
    const policy: Policy
    var failed: bool
    var failure: Error
    var rows: seq<Row>
    var tokens: map<OpId, set<Token>>
    ghost var tx: Tx
    ghost var answers: map<OpId, Answers>

    /** The scope's fields, the buffered audit rows and the suppression scopes are those of
        a reachable protocol state. */
    ghost predicate Represents()
      reads this
    {
      Aligned() && answers.Keys <= tx.ops.Keys
    }

    ghost predicate Aligned()
      reads this
    {
      && tx.policy == policy && Leads(Start(policy), tx)
      && tx.rows == rows
      && tx.failure == (if failed then Some(failure) else None)
      && tokens == TokensOf(tx)
    }

    ghost function Heard(id: OpId): Answers
      reads this
    {
      if id in answers then answers[id] else NOTHING_YET
    }

    constructor (policy: Policy)
      ensures Represents() && this.policy == policy && tx == Start(policy)
    {
      this.policy := policy;
      failed, failure, rows, tokens := false, 0, [], map[];
      tx, answers := Start(policy), map[];
      LeadsNowhere(Start(policy));
    }

    /** `reportAuditError`: mark first; the caller throws. */
    method ReportAuditError(error: Error)
      modifies this`failed, this`failure
      ensures failed && failure == if old(failed) then old(failure) else error
    {
      if !failed {
        failed, failure := true, error;
      }
    }

    ghost method Step(e: Event)
      requires tx.policy == policy && Leads(Start(policy), tx)
      requires Enabled(tx, e) && !e.LifecycleStarts? && !e.LifecycleEnds?
      modifies this`tx
      ensures tx == Next(old(tx), e) && tx.policy == policy && Leads(Start(policy), tx) && Leads(old(tx), tx)
      ensures TokensOf(tx) == if e.Begin? then TokensOf(old(tx))[e.id := {}] else TokensOf(old(tx))
    {
      TokensAfter(tx, e);
      LeadsOnce(tx, e);
      LeadsTo(Start(policy), tx, Next(tx, e));
      tx := Next(tx, e);
    }

    /** An await inside the handler of `id`: any history of the others, including the
        lifecycles inside its own query. */
    method Interfere(ghost id: OpId)
      requires Represents() && id in tx.ops
      modifies this
      ensures Represents() && Leads(old(tx), tx)
      ensures id in tx.ops && tx.ops[id] == old(tx.ops[id]).(tokens := tx.ops[id].tokens)
      ensures RowsOf(tx.rows, id) == RowsOf(old(tx.rows), id)
      ensures old(failed) ==> failed && failure == old(failure)
      ensures Heard(id) == old(Heard(id))
    {
      LeadsNowhere(tx);
    }

    // ----- what the outside answers -----

    ghost method Hear(id: OpId, a: Answers)
      modifies this`answers
      ensures answers == old(answers)[id := a]
    {
      answers := answers[id := a];
    }

    /** The policy checks. */
    method Check(id: OpId) returns (entry: Entry)
      modifies this`answers
      ensures Heard(id) == old(Heard(id)).(faults := old(Heard(id)).faults + if entry.Enter? then 0 else 1)
      ensures answers.Keys == old(answers.Keys) + {id}
    {
      entry := *;
      Hear(id, Heard(id).(faults := Heard(id).faults + if entry.Enter? then 0 else 1));
    }

    /** Something that may fail. */
    method Try(id: OpId) returns (ok: bool)
      modifies this`answers
      ensures Heard(id) == old(Heard(id)).(faults := old(Heard(id)).faults + if ok then 0 else 1)
      ensures answers.Keys == old(answers.Keys) + {id}
    {
      ok := *;
      Hear(id, Heard(id).(faults := Heard(id).faults + if ok then 0 else 1));
    }

    /** The locked re-read of one record. */
    method FindFirst(id: OpId) returns (found: Option<Image>)
      modifies this`answers
      ensures Heard(id) == old(Heard(id)).(
        read := old(Heard(id)).read + if found.Some? then [found.value] else [])
      ensures answers.Keys == old(answers.Keys) + {id}
    {
      found := *;
      Hear(id, Heard(id).(read := Heard(id).read + if found.Some? then [found.value] else []));
    }

    method FindMany(id: OpId) returns (matched: seq<Image>)
      modifies this`answers
      ensures Heard(id) == old(Heard(id)).(matched := |matched|)
      ensures answers.Keys == old(answers.Keys) + {id}
    {
      matched := *;
      Hear(id, Heard(id).(matched := |matched|));
    }

    /** The mutation itself, once it did not fail. */
    method Mutate(id: OpId, kind: Kind) returns (affected: nat)
      modifies this`answers
      ensures Heard(id) == old(Heard(id)).(changed := Some(affected))
      ensures answers.Keys == old(answers.Keys) + {id}
      ensures kind != DeleteMany ==> affected == 1
    {
      affected := *;
      if kind != DeleteMany {
        affected := 1;
      }
      Hear(id, Heard(id).(changed := Some(affected)));
    }

    method FindAfter(id: OpId) returns (after: Image)
      modifies this`answers
      ensures Heard(id) == old(Heard(id)).(after := Some(after))
      ensures answers.Keys == old(answers.Keys) + {id}
    {
      after := *;
      Hear(id, Heard(id).(after := Some(after)));
    }

    // ----- the parts of a handler -----

    /** Policy checks before anything is read or written. */
    method Enter(id: OpId, kind: Kind, model: string) returns (ok: bool)
      requires Represents() && id !in tx.ops
      modifies this
      ensures Represents() && Leads(old(tx), tx)
      ensures id in tx.ops && tx.ops[id].kind == kind && tx.ops[id].model == model && tx.ops[id].captured == []
      ensures tx.ops[id].phase == if !ok then Settled(false) else if ReadsFirst(kind) then PreRead else Querying
      ensures !ok ==> tx.ops[id].affected.None?
      ensures Heard(id) == NOTHING_YET.(faults := Heard(id).faults)
      ensures ok <==> Heard(id).faults == 0 && kind != CreateMany && kind != UpdateMany
    {
      assert id !in answers;
      var entry := Check(id);
      if !entry.ActorFails? && (kind == CreateMany || kind == UpdateMany) {
        entry := Reject;
      }
      Admit(id, kind, model, entry);
      ok := entry.Enter?;
    }

    method Admit(id: OpId, kind: Kind, model: string, entry: Entry)
      requires Aligned() && id !in tx.ops && ((kind == CreateMany || kind == UpdateMany) ==> !entry.Enter?)
      modifies this`failed, this`failure, this`tokens, this`tx
      ensures Aligned() && Leads(old(tx), tx) && tx.ops.Keys == old(tx.ops.Keys) + {id}
      ensures tx.ops[id].kind == kind && tx.ops[id].model == model
      ensures tx.ops[id].captured == [] && tx.ops[id].affected.None?
      ensures tx.ops[id].phase ==
        if !entry.Enter? then Settled(false) else if ReadsFirst(kind) then PreRead else Querying
    {
      if entry.ActorFails? {
        ReportAuditError(entry.error);
      }
      BeginFacts(tx, id, kind, model, entry);
      tokens := tokens[id := {}];
      Step(Begin(id, kind, model, entry));
    }

    /** The handler of `id` stands at `phase`, with these preimages read. */
    ghost predicate At(id: OpId, kind: Kind, model: string, phase: Phase, records: seq<Image>)
      reads this
    {
      && Represents() && IsPhase(tx, id, phase)
      && tx.ops[id].kind == kind && tx.ops[id].model == model && tx.ops[id].captured == records
    }

    method ReadFails(id: OpId, kind: Kind, model: string, error: Error)
      requires At(id, kind, model, PreRead, [])
      modifies this
      ensures Leads(old(tx), tx) && At(id, kind, model, Settled(false), []) && Heard(id) == old(Heard(id))
      ensures tx.ops[id].affected == old(tx.ops[id].affected)
    {
      ReportAuditError(error);
      Step(PreReadFails(id, error));
    }

    method ReadSucceeds(id: OpId, kind: Kind, model: string, ghost records: seq<Image>)
      requires At(id, kind, model, PreRead, []) && (kind == DeleteMany || |records| <= 1)
      modifies this
      ensures Leads(old(tx), tx) && At(id, kind, model, Querying, records) && Heard(id) == old(Heard(id))
    {
      Step(PreReadDone(id, records));
    }

    /** `readBeforeMutation`: one record or none. */
    method ReadBefore(id: OpId, kind: Kind, model: string) returns (ok: bool, records: seq<Image>)
      requires At(id, kind, model, PreRead, []) && ReadsFirst(kind) && Heard(id) == NOTHING_YET
      modifies this
      ensures Leads(old(tx), tx)
      ensures if ok then At(id, kind, model, Querying, records) && |records| <= 1
        else At(id, kind, model, Settled(false), [])
      ensures Heard(id) == NOTHING_YET.(read := records, faults := Heard(id).faults)
      ensures ok <==> Heard(id).faults == 0
      ensures !ok ==> tx.ops[id].affected.None?
    {
      ghost var entered := tx;
      Interfere(id);
      ghost var before := tx;
      OpFacts(tx, id);
      ok := Try(id);
      records := [];
      if ok {
        var found := FindFirst(id);
        records := if found.Some? then [found.value] else [];
        ReadSucceeds(id, kind, model, records);
      } else {
        var error: Error := *;
        ReadFails(id, kind, model, error);
      }
      LeadsTo(entered, before, tx);
    }

    /** Locks each match and reads it again; those that are gone by then drop out. */
    method LockAndRefresh(id: OpId, model: string, matched: seq<Image>) returns (ok: bool, records: seq<Image>)
      requires At(id, DeleteMany, model, PreRead, []) && Heard(id).read == [] && Heard(id).faults == 0
      modifies this
      ensures Leads(old(tx), tx) && At(id, DeleteMany, model, PreRead, []) && |records| <= |matched|
      ensures Heard(id) == old(Heard(id)).(read := records, faults := Heard(id).faults)
      ensures ok <==> Heard(id).faults == 0
      ensures tx.ops[id].affected == old(tx.ops[id].affected)
    {
      ghost var entered := tx;
      LeadsNowhere(tx);
      ok, records := true, [];
      var i := 0;
      while i < |matched| && ok
        invariant 0 <= i <= |matched| && |records| <= i
        invariant At(id, DeleteMany, model, PreRead, []) && Leads(entered, tx)
        invariant Heard(id) == old(Heard(id)).(read := records, faults := Heard(id).faults)
        invariant ok <==> Heard(id).faults == 0
        invariant tx.ops[id].affected == entered.ops[id].affected
      {
        ghost var locking := tx;
        Interfere(id);
        LeadsTo(entered, locking, tx);
        ok := Try(id);
        if ok {
          var current := FindFirst(id);
          if current.Some? {
            records := records + [current.value];
          }
        }
        i := i + 1;
      }
    }

    /** `deleteMany`'s pre-read: at most `limit` matches, each locked and read again.  Which
        records they are is the subject of the batch model. */
    method ReadBatch(id: OpId, model: string, limit: nat) returns (ok: bool, records: seq<Image>)
      requires At(id, DeleteMany, model, PreRead, []) && Heard(id) == NOTHING_YET
      modifies this
      ensures Leads(old(tx), tx)
      ensures if ok then At(id, DeleteMany, model, Querying, records) && |records| <= limit
              else At(id, DeleteMany, model, Settled(false), [])
      ensures ok ==> records == Heard(id).read
      ensures Heard(id).changed.None? && Heard(id).after.None?
      ensures ok <==> Heard(id).faults == 0 && Heard(id).matched <= limit
      ensures !ok ==> tx.ops[id].affected.None?
    {
      ghost var entered := tx;
      Interfere(id);
      ghost var before := tx;
      OpFacts(tx, id);
      var matched := FindMany(id);
      ok, records := false, [];
      if |matched| > limit {
        Step(Overflow(id));
      } else {
        ok, records := LockAndRefresh(id, model, matched);
        LeadsTo(entered, before, tx);
        before := tx;
        if ok {
          ReadSucceeds(id, DeleteMany, model, records);
        } else {
          var error: Error := *;
          ReadFails(id, DeleteMany, model, error);
        }
      }
      LeadsTo(entered, before, tx);
    }

    /** The query, and what a delete decides right after it: skip the row when a lifecycle
        has taken the evidence over, give up when the preimages do not cover the deletion. */
    method RunQuery(id: OpId, kind: Kind, model: string, records: seq<Image>) returns (r: QueryResult)
      requires At(id, kind, model, Querying, records) && Heard(id).changed.None? && Heard(id).faults == 0
      modifies this
      ensures Leads(old(tx), tx) && AfterQuery(id, kind, model, records, r)
      ensures Heard(id) == old(Heard(id)).(changed := Heard(id).changed, faults := Heard(id).faults)
    {
      ghost var entered := tx;
      Interfere(id);
      ghost var before := tx;
      OpFacts(tx, id);
      var ok := Try(id);
      if !ok {
        Step(QueryFails(id));
        r := Stop;
      } else {
        var affected := Mutate(id, kind);
        r := Decide(id, kind, model, records, affected);
      }
      LeadsTo(entered, before, tx);
    }

    method Decide(id: OpId, kind: Kind, model: string, records: seq<Image>, affected: nat) returns (r: QueryResult)
      requires At(id, kind, model, Querying, records) && RowsOf(tx.rows, id) == []
      requires tx.ops[id].affected.None? && tx.ops[id].exempt.NotExempt?
      requires kind == DeleteMany || affected == 1
      requires Heard(id).changed == Some(affected) && Heard(id).faults == 0
      modifies this
      ensures Leads(old(tx), tx) && AfterQuery(id, kind, model, records, r) && Heard(id) == old(Heard(id))
    {
      var error: Error := *;
      FinishQueryFacts(tx, id, affected, error);
      var suppressed := tokens[id] != {};
      if suppressed {
        r := Skip(affected);
      } else if kind == DeleteMany && affected != |records| {
        ReportAuditError(error);
        r := Stop;
      } else {
        r := if kind == DeleteMany && records == [] then Skip(0) else Write(affected);
      }
      Step(QueryOk(id, affected, error));
    }

    /** Where the handler stands once its query has been answered. */
    ghost predicate AfterQuery(id: OpId, kind: Kind, model: string, records: seq<Image>, q: QueryResult)
      reads this
    {
      match q
      case Stop =>
        && At(id, kind, model, Settled(false), records) && tx.ops[id].affected == Heard(id).changed
        && (if Heard(id).changed.None? then Heard(id).faults > 0
            else Heard(id).faults == 0 && kind == DeleteMany && Heard(id).changed.value != |records|)
      case Skip(n) =>
        && At(id, kind, model, Settled(true), records) && tx.ops[id].affected == Some(n) == Heard(id).changed
        && Heard(id).faults == 0
        && (if tx.ops[id].exempt.NotExempt? then kind == DeleteMany && n == |records| == 0
            else tx.ops[id].exempt.Suppressed?)
      case Write(n) =>
        && At(id, kind, model, Writing, records) && tx.ops[id].affected == Some(n) == Heard(id).changed
        && RowsOf(tx.rows, id) == [] && tx.ops[id].exempt.NotExempt?
        && Heard(id).faults == 0 && (kind == DeleteMany ==> n == |records| > 0)
    }

    /** Where the handler stands after its `n`-th row. */
    function AfterRow(kind: Kind, records: seq<Image>, n: nat): Phase {
      if n + 1 == (if kind.DeleteMany? then |records| else 1) then Settled(true) else Writing
    }

    /** `INSERT`ing one row. */
    method AppendRow(id: OpId, kind: Kind, model: string, records: seq<Image>, n: nat)
      requires At(id, kind, model, Writing, records) && n == |RowsOf(tx.rows, id)|
      modifies this
      ensures Leads(old(tx), tx)
      ensures At(id, kind, model, AfterRow(kind, records, n), records)
      ensures |RowsOf(tx.rows, id)| == n + 1
      ensures tx.ops[id].affected == old(tx.ops[id].affected) && tx.ops[id].exempt == old(tx.ops[id].exempt)
      ensures Heard(id) == old(Heard(id))
    {
      AddRowFacts(tx, id);
      rows := rows + [RowWith(id, kind, records, n)];
      Step(WriteRow(id));
    }

    method RowFails(id: OpId, kind: Kind, model: string, records: seq<Image>, error: Error)
      requires At(id, kind, model, Writing, records)
      modifies this
      ensures Leads(old(tx), tx) && At(id, kind, model, Settled(false), records) && Heard(id) == old(Heard(id))
      ensures tx.ops[id].affected == old(tx.ops[id].affected) && tx.ops[id].exempt == old(tx.ops[id].exempt)
    {
      ReportAuditError(error);
      ReportAuditError(error);
      Step(AfterQueryFails(id, error));
    }

    /** Building, reading back and inserting one row.  Whatever goes wrong reaches
        `reportAuditError`, inside `tryAuditLog` or in the handler's outer catch. */
    method InsertRow(id: OpId, kind: Kind, model: string, records: seq<Image>, n: nat) returns (ok: bool)
      requires At(id, kind, model, Writing, records) && n == |RowsOf(tx.rows, id)|
      modifies this
      ensures Leads(old(tx), tx)
      ensures !ok ==> At(id, kind, model, Settled(false), records)
      ensures ok ==>
        At(id, kind, model, AfterRow(kind, records, n), records)
      ensures ok ==> |RowsOf(tx.rows, id)| == n + 1
      ensures tx.ops[id].affected == old(tx.ops[id].affected) && tx.ops[id].exempt == old(tx.ops[id].exempt)
      ensures Heard(id) == old(Heard(id)).(faults := Heard(id).faults)
      ensures ok <==> Heard(id).faults == old(Heard(id).faults)
    {
      ghost var entered := tx;
      Interfere(id);
      ghost var before := tx;
      ok := Try(id);
      if ok {
        AppendRow(id, kind, model, records, n);
      } else {
        var error: Error := *;
        RowFails(id, kind, model, records, error);
      }
      LeadsTo(entered, before, tx);
    }

    lemma SettledIsReported(id: OpId, kind: Kind, model: string, r: Result<nat, ()>)
      requires Represents() && IsPhase(tx, id, Settled(r.Ok?)) && tx.ops[id].kind == kind && tx.ops[id].model == model
      requires r.Ok? ==> tx.ops[id].affected == Some(r.value)
      ensures Reported(tx, id, kind, model, r)
    {
      OpFacts(tx, id);
    }

    /** The skip's guard: the option, a record found before, no change but in ignored fields. */
    predicate ChangesOnlyTimestamps(model: string, records: seq<Image>, after: Image) {
      policy.ignoreTimestampOnly && records != []
      && Diff.UpdateChanges(records[0], after, {}, UpdatedAtFields(policy, model)) == map[]
    }

    /** How a handler's end follows from what it heard: it fails exactly if something failed, or a
        batch was too large or not the one deleted; it audits the records it read; it skips the row
        of an update exactly if only timestamps changed. */
    ghost predicate Follows(id: OpId, limit: nat, r: Result<nat, ()>)
      requires id in tx.ops
      reads this
    {
      var op, a := tx.ops[id], Heard(id);
      var short := op.kind == DeleteMany && !op.exempt.Suppressed? && a.changed.Some? && a.changed.value != |a.read|;
      && (r.Failed? <==> a.faults > 0 || a.matched > limit || short)
      && op.affected == a.changed && (op.affected.Some? ==> op.captured == a.read)
      && (op.exempt.TimestampOnly? <==>
            && (op.kind == Update || op.kind == Upsert) && a.after.Some?
            && ChangesOnlyTimestamps(op.model, a.read, a.after.value))
      && (op.exempt.TimestampOnly? ==> a.after == Some(op.exempt.after))
    }

    /** The part of a single-record handler after its query. */
    method FinishOne(id: OpId, kind: Kind, model: string, records: seq<Image>, q: QueryResult)
      returns (r: Result<nat, ()>)
      requires kind != DeleteMany && AfterQuery(id, kind, model, records, q)
      requires Heard(id).read == records && Heard(id).after.None? && Heard(id).matched == 0
      modifies this
      ensures Represents() && Leads(old(tx), tx) && Reported(tx, id, kind, model, r) && Follows(id, 0, r)
    {
      LeadsNowhere(tx);
      OpFacts(tx, id);
      match q {
        case Stop => r := Failed(());
        case Skip(n) => r := Ok(n);
        case Write(n) => r := WriteOne(id, kind, model, records, n);
      }
      SettledIsReported(id, kind, model, r);
    }

    /** One row, unless an update changed only timestamps. */
    method WriteOne(id: OpId, kind: Kind, model: string, records: seq<Image>, n: nat) returns (r: Result<nat, ()>)
      requires kind != DeleteMany && AfterQuery(id, kind, model, records, Write(n))
      requires Heard(id).read == records && Heard(id).after.None? && Heard(id).matched == 0
      modifies this
      ensures Leads(old(tx), tx) && At(id, kind, model, Settled(r.Ok?), records) && Follows(id, 0, r)
      ensures tx.ops[id].affected == Some(n) && (r.Ok? ==> r.value == n)
    {
      var after := FindAfter(id);
      if (kind == Update || kind == Upsert) && ChangesOnlyTimestamps(model, records, after) {
        Step(SkipTimestampOnly(id, after));
        r := Ok(n);
      } else {
        var ok := InsertRow(id, kind, model, records, 0);
        r := if ok then Ok(n) else Failed(());
      }
    }

    method HandleCreate(id: OpId, model: string) returns (r: Result<nat, ()>)
      requires Represents() && id !in tx.ops
      modifies this
      ensures Represents() && Leads(old(tx), tx) && Reported(tx, id, Create, model, r) && Follows(id, 0, r)
      ensures r.Ok? ==> RowsOf(tx.rows, id) == [Row(id, Created, None)]
    {
      ghost var entered := tx;
      var ok := Enter(id, Create, model);
      if !ok {
        r := Failed(());
        SettledIsReported(id, Create, model, r);
        return;
      }
      ghost var t := tx;
      var q := RunQuery(id, Create, model, []);
      LeadsTo(entered, t, tx);
      t := tx;
      r := FinishOne(id, Create, model, [], q);
      LeadsTo(entered, t, tx);
    }

    /** `update`, `upsert` and `delete` differ in what they make of the row, not in when. */
    method HandleUpdateUpsertDelete(id: OpId, kind: Kind, model: string) returns (r: Result<nat, ()>)
      requires Represents() && id !in tx.ops && (kind == Update || kind == Upsert || kind == Delete)
      modifies this
      ensures Represents() && Leads(old(tx), tx) && Reported(tx, id, kind, model, r) && Follows(id, 0, r)
      ensures r.Ok? && tx.ops[id].exempt.NotExempt? ==>
        var read := Heard(id).read;
        var action := if kind == Delete then Deleted else if kind == Upsert && read == [] then Created else Updated;
        RowsOf(tx.rows, id) == [Row(id, action, if read == [] then None else Some(read[0]))]
    {
      r := HandleSingle(id, kind, model);
      if r.Ok? && tx.ops[id].exempt.NotExempt? {
        assert Complete(tx, id) && tx.ops[id].captured == Heard(id).read;
      }
    }

    method HandleSingle(id: OpId, kind: Kind, model: string) returns (r: Result<nat, ()>)
      requires Represents() && id !in tx.ops && (kind == Update || kind == Upsert || kind == Delete)
      modifies this
      ensures Represents() && Leads(old(tx), tx) && Reported(tx, id, kind, model, r) && Follows(id, 0, r)
    {
      ghost var entered := tx;
      var ok := Enter(id, kind, model);
      ghost var t := tx;
      var records: seq<Image> := [];
      if ok {
        ok, records := ReadBefore(id, kind, model);
        LeadsTo(entered, t, tx);
      }
      if !ok {
        r := Failed(());
        EarlyEnd(id, kind, model, 0);
        return;
      }
      t := tx;
      var q := RunQuery(id, kind, model, records);
      LeadsTo(entered, t, tx);
      t := tx;
      r := FinishOne(id, kind, model, records, q);
      LeadsTo(entered, t, tx);
    }

    /** A handler that ended before its query. */
    lemma EarlyEnd(id: OpId, kind: Kind, model: string, limit: nat)
      requires At(id, kind, model, Settled(false), []) && Heard(id).changed.None? && Heard(id).after.None?
      requires tx.ops[id].affected.None? && (Heard(id).faults > 0 || Heard(id).matched > limit)
      ensures Reported(tx, id, kind, model, Failed(())) && Follows(id, limit, Failed(()))
    {
      OpFacts(tx, id);
    }

    method HandleDeleteMany(id: OpId, model: string, limit: nat) returns (r: Result<nat, ()>)
      requires Represents() && id !in tx.ops
      modifies this
      ensures Represents() && Leads(old(tx), tx) && Reported(tx, id, DeleteMany, model, r) && Follows(id, limit, r)
      ensures r.Ok? && tx.ops[id].exempt.NotExempt? ==>
        var read := Heard(id).read;
        && r.value == |RowsOf(tx.rows, id)| == |read| <= limit
        && forall n :: 0 <= n < |read| ==> RowsOf(tx.rows, id)[n] == Row(id, Deleted, Some(read[n]))
    {
      r := HandleBatch(id, model, limit);
      if r.Ok? && tx.ops[id].exempt.NotExempt? {
        assert Complete(tx, id) && tx.ops[id].captured == Heard(id).read;
      }
    }

    method HandleBatch(id: OpId, model: string, limit: nat) returns (r: Result<nat, ()>)
      requires Represents() && id !in tx.ops
      modifies this
      ensures Represents() && Leads(old(tx), tx) && Reported(tx, id, DeleteMany, model, r) && Follows(id, limit, r)
      ensures r.Ok? ==> |Heard(id).read| <= limit
    {
      ghost var entered := tx;
      var ok := Enter(id, DeleteMany, model);
      ghost var t := tx;
      var records: seq<Image> := [];
      if ok {
        ok, records := ReadBatch(id, model, limit);
        LeadsTo(entered, t, tx);
      }
      if !ok {
        r := Failed(());
        EarlyEnd(id, DeleteMany, model, limit);
        return;
      }
      t := tx;
      var q := RunQuery(id, DeleteMany, model, records);
      LeadsTo(entered, t, tx);
      t := tx;
      r := FinishBatch(id, model, limit, records, q);
      LeadsTo(entered, t, tx);
    }

    /** The part of a deleteMany after its query. */
    method FinishBatch(id: OpId, model: string, limit: nat, records: seq<Image>, q: QueryResult)
      returns (r: Result<nat, ()>)
      requires AfterQuery(id, DeleteMany, model, records, q)
      requires Heard(id).read == records && Heard(id).after.None? && Heard(id).matched <= limit
      modifies this
      ensures Represents() && Leads(old(tx), tx) && Reported(tx, id, DeleteMany, model, r) && Follows(id, limit, r)
      ensures Heard(id).read == records
    {
      LeadsNowhere(tx);
      OpFacts(tx, id);
      match q {
        case Stop => r := Failed(());
        case Skip(n) => r := Ok(n);
        case Write(n) =>
          var ok := WriteBatch(id, model, records);
          r := if ok then Ok(n) else Failed(());
      }
      SettledIsReported(id, DeleteMany, model, r);
    }

    /** One row per captured record, in order; the first failure ends the loop. */
    method WriteBatch(id: OpId, model: string, records: seq<Image>) returns (ok: bool)
      requires At(id, DeleteMany, model, Writing, records) && RowsOf(tx.rows, id) == [] && Heard(id).faults == 0
      modifies this
      ensures Leads(old(tx), tx) && At(id, DeleteMany, model, Settled(ok), records)
      ensures tx.ops[id].affected == old(tx.ops[id].affected) && tx.ops[id].exempt == old(tx.ops[id].exempt)
      ensures Heard(id) == old(Heard(id)).(faults := Heard(id).faults) && (ok <==> Heard(id).faults == 0)
    {
      ghost var entered, heard := tx, Heard(id);
      LeadsNowhere(tx);
      OpFacts(tx, id);
      ok := true;
      var i := 0;
      while ok && i < |records|
        invariant 0 <= i <= |records|
        invariant Leads(entered, tx)
        invariant var phase := if !ok then Settled(false) else if i < |records| then Writing else Settled(true);
          At(id, DeleteMany, model, phase, records)
        invariant ok ==> |RowsOf(tx.rows, id)| == i
        invariant tx.ops[id].affected == entered.ops[id].affected && tx.ops[id].exempt == entered.ops[id].exempt
        invariant Heard(id) == heard.(faults := Heard(id).faults) && (ok <==> Heard(id).faults == 0)
      {
        ghost var before := tx;
        ok := InsertRow(id, DeleteMany, model, records, i);
        LeadsTo(entered, before, tx);
        if ok {
          i := i + 1;
        }
      }
    }

    /** The end of `withAuditTransaction`'s callback: a failure someone caught is thrown again
        instead of the result.  The host may have given up before. */
    method AfterCallback() returns (thrown: Option<Error>)
      requires Represents()
      modifies this
      ensures Represents() && Leads(old(tx), tx)
      ensures thrown == old(tx.failure) == tx.failure
      ensures old(tx.outcome.Open?) ==>
        tx.outcome == if thrown.Some? then RolledBack(thrown.value) else Committing
      ensures old(tx.outcome.Open?) && thrown.None? && !tx.stray ==>
        forall id :: id in tx.ops && tx.ops[id].affected.Some? ==> Evidenced(tx, id)
    {
      thrown := if failed then Some(failure) else None;
      LeadsNowhere(tx);
      if tx.outcome.Open? {
        Step(CallbackReturns);
        forall id | id in tx.ops && tx.ops[id].affected.Some? && thrown.None? && !tx.stray ensures Evidenced(tx, id) {
          OpFacts(tx, id);
          assert id in Unsettled(tx) <==> !tx.ops[id].phase.Settled?;
        }
      }
    }

    // ----- a callback that awaits its calls -----

    /** A key that no operation uses yet. */
    method FreshId() returns (id: OpId)
      requires Represents()
      ensures id !in tx.ops
    {
      assert tokens.Keys == tx.ops.Keys;
      id := 0;
      while id in tokens
        invariant forall j :: 0 <= j < id ==> j in tokens
        decreases |tokens.Keys| - id
      {
        id := id + 1;
        AllBelow(tokens.Keys, id);
      }
    }

    method Await(id: OpId, call: Call) returns (r: Result<nat, ()>)
      requires Represents() && id !in tx.ops
      modifies this
      ensures Represents() && Leads(old(tx), tx) && Reported(tx, id, KindOf(call), call.model, r)
    {
      match call {
        case CreateCall(model) => r := HandleCreate(id, model);
        case UpdateCall(model) => r := HandleUpdateUpsertDelete(id, Update, model);
        case UpsertCall(model) => r := HandleUpdateUpsertDelete(id, Upsert, model);
        case DeleteCall(model) => r := HandleUpdateUpsertDelete(id, Delete, model);
        case DeleteManyCall(model, limit) => r := HandleDeleteMany(id, model, limit);
      }
    }

    /** A callback that awaits its calls one after another, whatever it does with their
        results: when its end does not throw, each call either changed nothing or has its
        evidence in the transaction. */
    method AwaitAll(calls: seq<Call>) returns (ids: seq<OpId>, results: seq<Result<nat, ()>>, thrown: Option<Error>)
      requires Represents()
      modifies this
      ensures Represents() && Leads(old(tx), tx) && |ids| == |results| == |calls|
      ensures forall i :: 0 <= i < |calls| ==> Reported(tx, ids[i], KindOf(calls[i]), calls[i].model, results[i])
      ensures thrown.None? ==> forall i :: 0 <= i < |calls| ==>
        ids[i] in tx.ops && if results[i].Ok? then Evidenced(tx, ids[i]) else tx.ops[ids[i]].affected.None?
    {
      ids, results := [], [];
      ghost var entered := tx;
      LeadsNowhere(tx);
      var n := 0;
      while n < |calls|
        invariant 0 <= n <= |calls| && |ids| == |results| == n
        invariant Represents() && Leads(entered, tx)
        invariant forall i :: 0 <= i < n ==> Reported(tx, ids[i], KindOf(calls[i]), calls[i].model, results[i])
      {
        ghost var before := tx;
        var id := FreshId();
        var r := Await(id, calls[n]);
        LeadsTo(entered, before, tx);
        forall i | 0 <= i < n ensures Reported(tx, ids[i], KindOf(calls[i]), calls[i].model, results[i]) {
          ReportStays(before, tx, ids[i], KindOf(calls[i]), calls[i].model, results[i]);
        }
        ids, results := ids + [id], results + [r];
        n := n + 1;
      }
      ghost var before := tx;
      thrown := AfterCallback();
      LeadsTo(entered, before, tx);
      forall i | 0 <= i < |calls| ensures Reported(tx, ids[i], KindOf(calls[i]), calls[i].model, results[i]) {
        ReportStays(before, tx, ids[i], KindOf(calls[i]), calls[i].model, results[i]);
      }
    }
  }

  /** A call of the audited client, as a callback awaits it. */
  datatype Call =
    | CreateCall(model: string)
    | UpdateCall(model: string)
    | UpsertCall(model: string)
    | DeleteCall(model: string)
    | DeleteManyCall(model: string, limit: nat)

  function KindOf(call: Call): Kind {
    match call
    case CreateCall(_) => Create
    case UpdateCall(_) => Update
    case UpsertCall(_) => Upsert
    case DeleteCall(_) => Delete
    case DeleteManyCall(_, _) => DeleteMany
  }

  lemma {:induction false} AllBelow(s: set<nat>, n: nat)
    requires forall j :: 0 <= j < n ==> j in s
    ensures n <= |s|
  {
    if n > 0 {
      AllBelow(s - {n - 1}, n - 1);
    }
  }
}
