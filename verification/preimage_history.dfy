/** What a committed audit record says about the history it comes from: exactly when its
    `before` was overwritten, and exactly when it continues the row's previous record, in
    every history, whatever handlers of one transaction are in flight on one row. */
module PreimageHistory {
  import opened Preimages
  import opened Prelude

  /** A run of the machine: its steps and the states before and after them. */
  datatype Run = Run(es: seq<Event>, at: seq<State>)

  ghost predicate Steps(u: Run, i: nat) {
    && i < |u.es| < |u.at|
    && Enabled(u.at[i], u.es[i]) && u.at[i + 1] == Next(u.at[i], u.es[i])
  }

  ghost predicate IsRun(u: Run) {
    && |u.at| == |u.es| + 1 && u.at[0] == EMPTY
    && forall i: nat :: i < |u.es| ==> Steps(u, i)
  }

  lemma {:induction false} AtInv(u: Run, i: nat)
    requires IsRun(u) && i <= |u.es|
    ensures Inv(u.at[i])
  {
    if i == 0 {
      InitialInv();
    } else {
      AtInv(u, i - 1);
      assert Steps(u, i - 1);
      StepKeepsInv(u.at[i - 1], u.es[i - 1]);
    }
  }

  lemma {:induction false} Extends(s: State, es: seq<Event>, i: nat)
    requires Valid(s, es) && i <= |es|
    ensures Valid(s, es[..i])
    ensures i < |es| ==>
      && Enabled(Exec(s, es[..i]), es[i]) && Valid(s, es[..i + 1])
      && Exec(s, es[..i + 1]) == Next(Exec(s, es[..i]), es[i])
    decreases i
  {
    if i == 0 {
      if es != [] { assert es[..1] == [es[0]] && [es[0]][1..] == []; }
    } else {
      Extends(Next(s, es[0]), es[1..], i - 1);
      assert es[..i][1..] == es[1..][..i - 1];
      if i < |es| { assert es[..i + 1][1..] == es[1..][..i]; }
    }
  }

  /** Every history is a run. */
  lemma RunOf(es: seq<Event>) returns (u: Run)
    requires Valid(EMPTY, es)
    ensures IsRun(u) && u.es == es && u.at[|es|] == Exec(EMPTY, es)
  {
    var at: seq<State> := [EMPTY];
    while |at| <= |es|
      invariant 1 <= |at| <= |es| + 1 && at[0] == EMPTY
      invariant forall i :: 0 <= i < |at| ==> Valid(EMPTY, es[..i]) && at[i] == Exec(EMPTY, es[..i])
      decreases |es| - |at|
    {
      Extends(EMPTY, es, |at| - 1);
      at := at + [Exec(EMPTY, es[..|at|])];
    }
    u := Run(es, at);
    assert es[..|es|] == es;
    forall i: nat | i < |es| ensures Steps(u, i) {
      Extends(EMPTY, es, i);
    }
  }

  // ----- what a step does to a row -----

  /** A step of this handler. */
  predicate Of(e: Event, h: HandlerId) {
    match e
    case Begin(g, _, _) => g == h
    case TakeLock(g) => g == h
    case Reread(g) => g == h
    case Mutate(g, _) => g == h
    case QueryFails(g) => g == h
    case WriteRecord(g) => g == h
    case _ => false
  }

  predicate Ends(e: Event, tx: TxId) {
    (e.Commit? || e.Abort?) && e.tx == tx
  }

  predicate For(s: State, h: HandlerId, tx: TxId, pk: Pk) {
    h in s.handlers && s.handlers[h].tx == tx && s.handlers[h].pk == pk
  }

  /** The transaction changes the row. */
  predicate Changes(s: State, e: Event, tx: TxId, pk: Pk) {
    (e.Create? && e.tx == tx && e.pk == pk) || (e.Mutate? && For(s, e.handler, tx, pk))
  }

  function Change(e: Event): Version
    requires e.Create? || e.Mutate?
  {
    if e.Create? then Some(e.value) else e.version
  }

  predicate Writes(e: Event) {
    e.Create? || e.WriteRecord?
  }

  function Writer(s: State, e: Event): TxId
    requires Enabled(s, e) && Writes(e)
  {
    if e.Create? then e.tx else s.handlers[e.handler].tx
  }

  /** The record a step writes. */
  function Written(s: State, e: Event): Record
    requires Enabled(s, e) && Writes(e)
  {
    if e.Create? then Record(e.pk, None, Some(e.value), None) else RecordOf(s, e.handler)
  }

  predicate Records(s: State, e: Event, tx: TxId, pk: Pk) {
    Enabled(s, e) && Writes(e) && Writer(s, e) == tx && Written(s, e).pk == pk
  }

  /** The version at which the transaction's changes to the row in steps `i..j` leave it, if it
      is `v` before them. */
  ghost function LeftAt(u: Run, i: nat, j: nat, tx: TxId, pk: Pk, v: Version): Version
    requires IsRun(u) && i <= j <= |u.es|
    decreases j
  {
    if i == j then v
    else if Changes(u.at[j - 1], u.es[j - 1], tx, pk) then Change(u.es[j - 1])
    else LeftAt(u, i, j - 1, tx, pk, v)
  }

  /** Right after the transaction's last record of the row before step `w`, or else where the
      transaction began. */
  ghost function Since(u: Run, w: nat, tx: TxId, pk: Pk): (q: nat)
    requires IsRun(u) && w <= |u.es|
    ensures q <= w
    ensures q == 0 || Ends(u.es[q - 1], tx) || Records(u.at[q - 1], u.es[q - 1], tx, pk)
    ensures NoEnd(u, q, w, tx) && NoRecord(u, q, w, tx, pk)
  {
    if w == 0 || Ends(u.es[w - 1], tx) || Records(u.at[w - 1], u.es[w - 1], tx, pk) then w
    else Since(u, w - 1, tx, pk)
  }

  ghost predicate NoEnd(u: Run, i: nat, j: nat, tx: TxId) {
    j <= |u.es| && forall k :: i <= k < j ==> !Ends(u.es[k], tx)
  }

  ghost predicate NoRecord(u: Run, i: nat, j: nat, tx: TxId, pk: Pk)
    requires IsRun(u) && j <= |u.es|
  {
    forall k :: i <= k < j ==> !Records(u.at[k], u.es[k], tx, pk)
  }

  lemma OwnedStep(s: State, e: Event, tx: TxId, pk: Pk)
    requires Inv(s) && Enabled(s, e) && Owns(s, tx, pk) && !Ends(e, tx)
    ensures var t := Next(s, e);
      && Owns(t, tx, pk) && Stored(t, pk) == Stored(s, pk)
      && View(t, tx, pk) == if Changes(s, e, tx, pk) then Change(e) else View(s, tx, pk)
  {
  }

  lemma {:induction false} OwnedSpan(u: Run, i: nat, j: nat, tx: TxId, pk: Pk)
    requires IsRun(u) && i <= j <= |u.es| && NoEnd(u, i, j, tx) && Owns(u.at[i], tx, pk)
    ensures Owns(u.at[j], tx, pk) && Stored(u.at[j], pk) == Stored(u.at[i], pk)
    ensures View(u.at[j], tx, pk) == LeftAt(u, i, j, tx, pk, View(u.at[i], tx, pk))
    decreases j
  {
    if i < j {
      OwnedSpan(u, i, j - 1, tx, pk);
      AtInv(u, j - 1);
      assert Steps(u, j - 1);
      OwnedStep(u.at[j - 1], u.es[j - 1], tx, pk);
    }
  }

  /** What the records so far show of the row, to the transaction. */
  function Shown(s: State, tx: TxId, pk: Pk): Version {
    After(s.log + Buffered(s, tx), pk)
  }

  lemma ShownStep(s: State, e: Event, tx: TxId, pk: Pk)
    requires Inv(s) && Enabled(s, e) && Owns(s, tx, pk) && !Ends(e, tx) && !Records(s, e, tx, pk)
    ensures Shown(Next(s, e), tx, pk) == Shown(s, tx, pk)
  {
    var t := Next(s, e);
    if e.Commit? {
      assert RecordsInv(s, e.tx) && Buffered(t, tx) == Buffered(s, tx);
      AfterAround(s.log, Buffered(s, e.tx), Buffered(s, tx), pk);
    } else if Writes(e) && Writer(s, e) == tx {
      var r := Written(s, e);
      assert t.log + Buffered(t, tx) == (s.log + Buffered(s, tx)) + [r];
      AfterPush(s.log + Buffered(s, tx), r, pk);
    } else {
      assert Buffered(t, tx) == Buffered(s, tx);
    }
  }

  lemma ShownAt(u: Run, i: nat, tx: TxId, pk: Pk)
    requires IsRun(u) && i < |u.es| && Owns(u.at[i], tx, pk)
    requires !Ends(u.es[i], tx) && !Records(u.at[i], u.es[i], tx, pk)
    ensures Shown(u.at[i + 1], tx, pk) == Shown(u.at[i], tx, pk)
  {
    AtInv(u, i);
    assert Steps(u, i);
    ShownStep(u.at[i], u.es[i], tx, pk);
  }

  lemma {:induction false} Constant(versions: seq<Version>, i: nat, j: nat)
    requires i <= j < |versions| && forall k :: i < k <= j ==> versions[k] == versions[k - 1]
    ensures versions[j] == versions[i]
    decreases j
  {
    if i < j { Constant(versions, i, j - 1); }
  }

  lemma ShownSpan(u: Run, i: nat, j: nat, tx: TxId, pk: Pk)
    requires IsRun(u) && i <= j <= |u.es| && NoEnd(u, i, j, tx) && NoRecord(u, i, j, tx, pk)
    requires Owns(u.at[i], tx, pk)
    ensures Shown(u.at[j], tx, pk) == Shown(u.at[i], tx, pk)
  {
    var versions := seq(|u.at|, k requires 0 <= k < |u.at| => Shown(u.at[k], tx, pk));
    forall k | i < k <= j ensures versions[k] == versions[k - 1] {
      OwnedSpan(u, i, k - 1, tx, pk);
      ShownAt(u, k - 1, tx, pk);
    }
    Constant(versions, i, j);
  }

  /** A transaction that has not touched the row. */
  predicate Untouched(s: State, tx: TxId, pk: Pk) {
    !Wrote(s, tx, pk) && !Mentions(Buffered(s, tx), pk)
  }

  lemma FirstStep(s: State, e: Event, tx: TxId, pk: Pk)
    requires Inv(s) && Enabled(s, e) && !Ends(e, tx) && !Records(s, e, tx, pk)
    requires !Mentions(Buffered(s, tx), pk)
    ensures var t := Next(s, e);
      && !Mentions(Buffered(t, tx), pk)
      && (if Changes(s, e, tx, pk) then Wrote(t, tx, pk) && t.locks[pk].write.value == Change(e)
          else Wrote(t, tx, pk) == Wrote(s, tx, pk) && (Wrote(t, tx, pk) ==> t.locks[pk] == s.locks[pk]))
  {
    var t := Next(s, e);
    if Writes(e) && Writer(s, e) == tx {
      var r := Written(s, e);
      assert Buffered(t, tx) == Buffered(s, tx) + [r];
      MentionsPush(Buffered(s, tx), r, pk);
    } else {
      assert Buffered(t, tx) == Buffered(s, tx);
    }
  }

  lemma {:induction false} FirstSpan(u: Run, q: nat, i: nat, tx: TxId, pk: Pk, v: Version)
    requires IsRun(u) && q <= i <= |u.es| && NoEnd(u, q, i, tx) && Untouched(u.at[q], tx, pk)
    requires NoRecord(u, q, i, tx, pk)
    ensures var s := u.at[i];
      && !Mentions(Buffered(s, tx), pk)
      && LeftAt(u, q, i, tx, pk, v) == if Wrote(s, tx, pk) then s.locks[pk].write.value else v
    decreases i
  {
    if q < i {
      FirstSpan(u, q, i - 1, tx, pk, v);
      AtInv(u, i - 1);
      assert Steps(u, i - 1);
      FirstStep(u.at[i - 1], u.es[i - 1], tx, pk);
    }
  }

  lemma BeginsUntouched(u: Run, q: nat, tx: TxId, pk: Pk)
    requires IsRun(u) && q <= |u.es| && (q == 0 || Ends(u.es[q - 1], tx))
    ensures Untouched(u.at[q], tx, pk)
  {
    if q > 0 { assert Steps(u, q - 1); }
  }

  lemma RecordStep(s: State, e: Event, tx: TxId, pk: Pk)
    requires Inv(s) && Records(s, e, tx, pk)
    ensures var t := Next(s, e);
      Owns(t, tx, pk) && Shown(t, tx, pk) == Written(s, e).after == View(t, tx, pk)
  {
    var t, r := Next(s, e), Written(s, e);
    assert e.WriteRecord? ==> HandlerInv(s, e.handler);
    assert t.log + Buffered(t, tx) == (s.log + Buffered(s, tx)) + [r];
    AfterPush(s.log + Buffered(s, tx), r, pk);
  }

  lemma RecordShows(u: Run, q: nat, tx: TxId, pk: Pk)
    requires IsRun(u) && 0 < q <= |u.es| && Records(u.at[q - 1], u.es[q - 1], tx, pk)
    ensures Owns(u.at[q], tx, pk) && Shown(u.at[q], tx, pk) == View(u.at[q], tx, pk)
  {
    AtInv(u, q - 1);
    assert Steps(u, q - 1);
    RecordStep(u.at[q - 1], u.es[q - 1], tx, pk);
  }

  // ----- where records come from -----

  /** The steps that wrote the transaction's buffered records. */
  ghost function BufferSteps(u: Run, i: nat, tx: TxId): seq<nat>
    requires IsRun(u) && i <= |u.es|
  {
    if i == 0 then []
    else
      var s, e, steps := u.at[i - 1], u.es[i - 1], BufferSteps(u, i - 1, tx);
      assert Steps(u, i - 1);
      if Ends(e, tx) then [] else if Writes(e) && Writer(s, e) == tx then steps + [i - 1] else steps
  }

  /** The steps that wrote the committed records, in the log's order. */
  ghost function LogSteps(u: Run, i: nat): seq<nat>
    requires IsRun(u) && i <= |u.es|
  {
    if i == 0 then []
    else
      var e, steps := u.es[i - 1], LogSteps(u, i - 1);
      if e.Commit? then steps + BufferSteps(u, i - 1, e.tx) else steps
  }

  /** Step `w` wrote `r`, and the records then showed `shown` of its row. */
  ghost predicate Source(u: Run, w: nat, r: Record, shown: Version)
    requires IsRun(u)
  {
    && w < |u.es| && Writes(u.es[w]) && Enabled(u.at[w], u.es[w]) && Written(u.at[w], u.es[w]) == r
    && Shown(u.at[w], Writer(u.at[w], u.es[w]), r.pk) == shown
  }

  /** Each of the records `rs`, which follow `before`, has its step. */
  ghost predicate Sourced(u: Run, steps: seq<nat>, rs: seq<Record>, before: seq<Record>)
    requires IsRun(u)
  {
    && |steps| == |rs|
    && forall k :: 0 <= k < |rs| ==> SourcedAt(u, steps, rs, before, k)
  }

  ghost predicate SourcedAt(u: Run, steps: seq<nat>, rs: seq<Record>, before: seq<Record>, k: nat)
    requires IsRun(u) && k < |rs| == |steps|
  {
    Source(u, steps[k], rs[k], After(before + rs[..k], rs[k].pk))
  }

  lemma SourcedPush(u: Run, steps: seq<nat>, rs: seq<Record>, before: seq<Record>, w: nat, r: Record)
    requires IsRun(u) && Sourced(u, steps, rs, before) && Source(u, w, r, After(before + rs, r.pk))
    ensures Sourced(u, steps + [w], rs + [r], before)
  {
    forall k | 0 <= k <= |rs| ensures SourcedAt(u, steps + [w], rs + [r], before, k) {
      assert (rs + [r])[..k] == rs[..k];
      if k == |rs| { assert rs[..k] == rs; } else { assert SourcedAt(u, steps, rs, before, k); }
    }
  }

  /** Another transaction's records come in before. */
  lemma SourcedAround(u: Run, steps: seq<nat>, rs: seq<Record>, before: seq<Record>, other: seq<Record>)
    requires IsRun(u) && Sourced(u, steps, rs, before)
    requires forall k :: 0 <= k < |rs| ==> !Mentions(other, rs[k].pk)
    ensures Sourced(u, steps, rs, before + other)
  {
    forall k | 0 <= k < |rs| ensures SourcedAt(u, steps, rs, before + other, k) {
      assert SourcedAt(u, steps, rs, before, k);
      AfterAround(before, other, rs[..k], rs[k].pk);
    }
  }

  lemma ConcatFront(u: Run, a: seq<nat>, rs: seq<Record>, b: seq<nat>, qs: seq<Record>, k: nat)
    requires IsRun(u) && k < |rs| == |a| && |qs| == |b| && SourcedAt(u, a, rs, [], k)
    ensures SourcedAt(u, a + b, rs + qs, [], k)
  {
    assert (rs + qs)[..k] == rs[..k];
  }

  lemma ConcatBack(u: Run, a: seq<nat>, rs: seq<Record>, b: seq<nat>, qs: seq<Record>, k: nat)
    requires IsRun(u) && |rs| == |a| && k < |qs| == |b| && SourcedAt(u, b, qs, rs, k)
    ensures SourcedAt(u, a + b, rs + qs, [], |rs| + k)
  {
    assert [] + (rs + qs)[..|rs| + k] == rs + qs[..k];
  }

  lemma SourcedConcat(u: Run, a: seq<nat>, rs: seq<Record>, b: seq<nat>, qs: seq<Record>)
    requires IsRun(u) && Sourced(u, a, rs, []) && Sourced(u, b, qs, rs)
    ensures Sourced(u, a + b, rs + qs, [])
  {
    forall k: nat | k < |rs + qs| ensures SourcedAt(u, a + b, rs + qs, [], k) {
      if k < |rs| {
        ConcatFront(u, a, rs, b, qs, k);
      } else {
        ConcatBack(u, a, rs, b, qs, k - |rs|);
      }
    }
  }

  ghost predicate SourceInv(u: Run, i: nat)
    requires IsRun(u) && i <= |u.es|
  {
    && Sourced(u, LogSteps(u, i), u.at[i].log, [])
    && forall tx :: BufferSourced(u, i, tx)
  }

  ghost predicate BufferSourced(u: Run, i: nat, tx: TxId)
    requires IsRun(u) && i <= |u.es|
  {
    Sourced(u, BufferSteps(u, i, tx), Buffered(u.at[i], tx), u.at[i].log)
  }

  lemma CommitSourced(u: Run, i: nat, tx: TxId)
    requires IsRun(u) && i < |u.es| && BufferSourced(u, i, tx) && u.es[i].Commit? && tx != u.es[i].tx
    ensures BufferSourced(u, i + 1, tx)
  {
    var s, t, other := u.at[i], u.at[i + 1], u.es[i].tx;
    AtInv(u, i);
    assert Steps(u, i);
    var rs := Buffered(s, tx);
    assert Buffered(t, tx) == rs && t.log == s.log + Buffered(s, other);
    forall k | 0 <= k < |rs| ensures !Mentions(Buffered(s, other), rs[k].pk) {
      assert Mentions(rs, rs[k].pk);
      BuffersDisjoint(s, other, tx, rs[k].pk);
    }
    SourcedAround(u, BufferSteps(u, i, tx), rs, s.log, Buffered(s, other));
  }

  lemma BufferStep(u: Run, i: nat, tx: TxId)
    requires IsRun(u) && i < |u.es| && BufferSourced(u, i, tx)
    ensures BufferSourced(u, i + 1, tx)
  {
    var s, e, t := u.at[i], u.es[i], u.at[i + 1];
    assert Steps(u, i);
    if Ends(e, tx) {
      assert Buffered(t, tx) == [];
    } else if e.Commit? {
      CommitSourced(u, i, tx);
    } else if Writes(e) && Writer(s, e) == tx {
      assert Buffered(t, tx) == Buffered(s, tx) + [Written(s, e)];
      SourcedPush(u, BufferSteps(u, i, tx), Buffered(s, tx), s.log, i, Written(s, e));
    } else {
      assert Buffered(t, tx) == Buffered(s, tx) && t.log == s.log;
    }
  }

  lemma {:induction false} StepsAreSources(u: Run, i: nat)
    requires IsRun(u) && i <= |u.es|
    ensures SourceInv(u, i)
  {
    if i > 0 {
      var s, e := u.at[i - 1], u.es[i - 1];
      StepsAreSources(u, i - 1);
      assert Steps(u, i - 1);
      forall tx ensures BufferSourced(u, i, tx) {
        BufferStep(u, i - 1, tx);
      }
      if e.Commit? {
        assert BufferSourced(u, i - 1, e.tx);
        SourcedConcat(u, LogSteps(u, i - 1), s.log, BufferSteps(u, i - 1, e.tx), Buffered(s, e.tx));
      }
    }
  }

  // ----- a handler's way to its record -----

  /** Handler `h` read the row again in step `r`, ran its query in `m` and wrote its record in
      `w`; its transaction did not end in between. */
  ghost predicate Handled(u: Run, r: nat, m: nat, w: nat, h: HandlerId, tx: TxId) {
    && r < m < w < |u.es|
    && u.es[r] == Reread(h) && u.es[m].Mutate? && u.es[m].handler == h && u.es[w] == WriteRecord(h)
    && (forall k :: r < k < w && k != m ==> !Of(u.es[k], h))
    && NoEnd(u, r, w, tx)
  }

  lemma HandlerStep(s: State, e: Event, h: HandlerId)
    requires Enabled(s, e) && h in Next(s, e).handlers && !Of(e, h)
    ensures h in s.handlers && Next(s, e).handlers[h] == s.handlers[h] && !Ends(e, s.handlers[h].tx)
  {
  }

  /** The query of a handler that has run it. */
  lemma {:induction false} QueryOf(u: Run, i: nat, h: HandlerId) returns (m: nat)
    requires IsRun(u) && i <= |u.es| && h in u.at[i].handlers && u.at[i].handlers[h].phase.Mutated?
    ensures m < i && u.es[m].Mutate? && u.es[m].handler == h
    ensures var s, g := u.at[m], u.at[i].handlers[h];
      && h in s.handlers && s.handlers[h] == g.(phase := Read(g.phase.before))
      && g.phase.overwritten == View(s, g.tx, g.pk) && NoEnd(u, m, i, g.tx)
    ensures forall k :: m < k < i ==> !Of(u.es[k], h)
    decreases i
  {
    assert Steps(u, i - 1);
    if Of(u.es[i - 1], h) {
      m := i - 1;
    } else {
      HandlerStep(u.at[i - 1], u.es[i - 1], h);
      m := QueryOf(u, i - 1, h);
    }
  }

  /** The re-read of a handler that found its row. */
  lemma {:induction false} RereadOf(u: Run, i: nat, h: HandlerId) returns (r: nat)
    requires IsRun(u) && i <= |u.es| && h in u.at[i].handlers
    requires u.at[i].handlers[h].phase.Read? && u.at[i].handlers[h].phase.before.Some?
    ensures r < i && u.es[r] == Reread(h)
    ensures var s, g := u.at[r], u.at[i].handlers[h];
      For(s, h, g.tx, g.pk) && g.phase.before == View(s, g.tx, g.pk) && Owns(s, g.tx, g.pk) && NoEnd(u, r, i, g.tx)
    ensures forall k :: r < k < i ==> !Of(u.es[k], h)
    decreases i
  {
    assert Steps(u, i - 1);
    if Of(u.es[i - 1], h) {
      r := i - 1;
      AtInv(u, i);
      assert HandlerInv(u.at[i], h);
    } else {
      HandlerStep(u.at[i - 1], u.es[i - 1], h);
      r := RereadOf(u, i - 1, h);
    }
  }

  /** A record, the steps of its handler, and what they saw. */
  ghost predicate Story(u: Run, x: Record, r: nat, m: nat, w: nat, h: HandlerId, tx: TxId)
    requires IsRun(u)
  {
    && Handled(u, r, m, w, h, tx)
    && For(u.at[r], h, tx, x.pk) && Owns(u.at[r], tx, x.pk)
    && x.before == View(u.at[r], tx, x.pk) && x.overwritten == View(u.at[m], tx, x.pk)
    && Records(u.at[w], u.es[w], tx, x.pk)
  }

  lemma RecordStory(u: Run, w: nat, x: Record) returns (h: HandlerId, tx: TxId, r: nat, m: nat)
    requires IsRun(u) && w < |u.es| && Writes(u.es[w]) && Enabled(u.at[w], u.es[w])
    requires x == Written(u.at[w], u.es[w]) && x.before.Some?
    ensures Story(u, x, r, m, w, h, tx) && tx == Writer(u.at[w], u.es[w])
  {
    h, tx := u.es[w].handler, Writer(u.at[w], u.es[w]);
    m := QueryOf(u, w, h);
    r := RereadOf(u, m, h);
  }

  // ----- exact results -----

  /** The committed records at the end of a run. */
  ghost function Log(u: Run): seq<Record>
    requires IsRun(u)
  {
    u.at[|u.es|].log
  }

  lemma LogSource(u: Run, j: nat)
    requires IsRun(u) && j < |Log(u)|
    ensures |LogSteps(u, |u.es|)| == |Log(u)|
    ensures Source(u, LogSteps(u, |u.es|)[j], Log(u)[j], After(Log(u)[..j], Log(u)[j].pk))
  {
    StepsAreSources(u, |u.es|);
    assert SourcedAt(u, LogSteps(u, |u.es|), Log(u), [], j);
    assert [] + Log(u)[..j] == Log(u)[..j];
  }

  /** True preimages, exactly, in every history: a committed `before` is what the mutation
      overwrote if and only if what the handler's own transaction did to the row between its
      re-read and its query, if anything, left the row as the re-read had seen it.  Other
      transactions never matter. */
  lemma BeforeIsOverwrittenExactly(u: Run, j: nat) returns (h: HandlerId, tx: TxId, r: nat, m: nat)
    requires IsRun(u) && j < |Log(u)| && Log(u)[j].before.Some?
    ensures |LogSteps(u, |u.es|)| == |Log(u)|
    ensures var x, w := Log(u)[j], LogSteps(u, |u.es|)[j];
      && Story(u, x, r, m, w, h, tx)
      && (x.before == x.overwritten <==> LeftAt(u, r, m, tx, x.pk, x.before) == x.before)
  {
    LogSource(u, j);
    var x := Log(u)[j];
    h, tx, r, m := RecordStory(u, LogSteps(u, |u.es|)[j], x);
    OwnedSpan(u, r, m, tx, x.pk);
  }

  /** What the records show of a row when one of them is written, and its `before`. */
  lemma BeforeAgainstShown(u: Run, x: Record, r: nat, m: nat, w: nat, h: HandlerId, tx: TxId)
    requires IsRun(u) && Story(u, x, r, m, w, h, tx)
    ensures var q, shown := Since(u, w, tx, x.pk), Shown(u.at[w], tx, x.pk);
      if q <= r then x.before == LeftAt(u, q, r, tx, x.pk, shown)
      else shown == LeftAt(u, r, q, tx, x.pk, x.before)
  {
    var pk, q := x.pk, Since(u, w, tx, x.pk);
    OwnedSpan(u, r, w, tx, pk);
    if q > 0 && Records(u.at[q - 1], u.es[q - 1], tx, pk) {
      RecordShows(u, q, tx, pk);
      ShownSpan(u, q, w, tx, pk);
      if q <= r { OwnedSpan(u, q, r, tx, pk); } else { OwnedSpan(u, r, q, tx, pk); }
    } else {
      assert q <= r;
      BeginsUntouched(u, q, tx, pk);
      var s := u.at[w];
      FirstSpan(u, q, w, tx, pk, Stored(s, pk));
      FirstSpan(u, q, r, tx, pk, Stored(s, pk));
      AfterConcat(s.log, Buffered(s, tx), pk);
      AtInv(u, w);
    }
  }

  ghost predicate Predecessor(log: seq<Record>, i: nat, j: nat) {
    i < j < |log| && log[i].pk == log[j].pk && forall k :: i < k < j ==> log[k].pk != log[j].pk
  }

  /** Unbroken chains, exactly, in every history: a committed `before` is the `after` of the
      row's previous record if and only if what the handler's own transaction did to the row
      between writing that record (or beginning, if another transaction wrote it) and the
      re-read, whichever came first, left the row as it was. */
  lemma BeforeContinuesExactly(u: Run, i: nat, j: nat) returns (h: HandlerId, tx: TxId, r: nat, m: nat)
    requires IsRun(u) && Predecessor(Log(u), i, j) && Log(u)[j].before.Some?
    ensures |LogSteps(u, |u.es|)| == |Log(u)|
    ensures var x, w, last := Log(u)[j], LogSteps(u, |u.es|)[j], Log(u)[i].after;
      && Story(u, x, r, m, w, h, tx)
      && var q := Since(u, w, tx, x.pk);
         x.before == last <==>
           if q <= r then LeftAt(u, q, r, tx, x.pk, last) == last
           else LeftAt(u, r, q, tx, x.pk, x.before) == x.before
  {
    LogSource(u, j);
    var log := Log(u);
    var x, w := log[j], LogSteps(u, |u.es|)[j];
    h, tx, r, m := RecordStory(u, w, x);
    AfterIsPredecessor(log[..j], i, x.pk);
    BeforeAgainstShown(u, x, r, m, w, h, tx);
  }

  // ----- handlers that keep out of each other's way -----

  /** When the handler reads the row again no other handler of its transaction stands between
      query and record on it, and until it has written its own record none runs its query or
      writes its record for the row. */
  ghost predicate Alone(u: Run, r: nat, w: nat, h: HandlerId, tx: TxId, pk: Pk)
    requires IsRun(u) && r <= w <= |u.es|
  {
    && NoMutation(u.at[r], tx, pk)
    && forall k :: r <= k < w && (Changes(u.at[k], u.es[k], tx, pk) || Records(u.at[k], u.es[k], tx, pk)) ==>
         Of(u.es[k], h)
  }

  lemma {:induction false} NothingLeft(u: Run, i: nat, j: nat, tx: TxId, pk: Pk, v: Version)
    requires IsRun(u) && i <= j <= |u.es|
    requires forall k :: i <= k < j ==> !Changes(u.at[k], u.es[k], tx, pk)
    ensures LeftAt(u, i, j, tx, pk, v) == v
    decreases j
  {
    if i < j { NothingLeft(u, i, j - 1, tx, pk, v); }
  }

  /** Such a record is true and continues the chain, whatever else is in flight. */
  lemma UndisturbedRecord(u: Run, i: nat, j: nat, r: nat, m: nat, h: HandlerId, tx: TxId)
    requires IsRun(u) && Predecessor(Log(u), i, j) && |LogSteps(u, |u.es|)| == |Log(u)|
    requires var x, w := Log(u)[j], LogSteps(u, |u.es|)[j];
      Story(u, x, r, m, w, h, tx) && Alone(u, r, w, h, tx, x.pk)
    ensures Log(u)[j].before == Log(u)[i].after == Log(u)[j].overwritten
  {
    var log := Log(u);
    var x, w := log[j], LogSteps(u, |u.es|)[j];
    var pk := x.pk;
    OwnedSpan(u, r, m, tx, pk);
    NothingLeft(u, r, m, tx, pk, x.before);
    AtInv(u, r);
    ViewIsHistory(u.at[r], tx, pk);
    ShownSpan(u, r, w, tx, pk);
    LogSource(u, j);
    AfterIsPredecessor(log[..j], i, pk);
  }

  /** Two handlers of one transaction are never in flight on the same row. */
  ghost predicate Exclusive(u: Run)
    requires IsRun(u)
  {
    forall k, h :: 0 <= k < |u.es| && u.es[k].Begin? && h in u.at[k].handlers ==>
      !For(u.at[k], h, u.es[k].tx, u.es[k].pk)
  }

  lemma {:induction false} OneHandler(u: Run, i: nat, g: HandlerId, h: HandlerId, tx: TxId, pk: Pk)
    requires IsRun(u) && Exclusive(u) && i <= |u.es|
    requires For(u.at[i], g, tx, pk) && For(u.at[i], h, tx, pk)
    ensures g == h
    decreases i
  {
    if i > 0 {
      var s, e := u.at[i - 1], u.es[i - 1];
      assert Steps(u, i - 1);
      if !(e.Begin? && (e.handler == g || e.handler == h)) { OneHandler(u, i - 1, g, h, tx, pk); }
    }
  }

  lemma {:induction false} InFlight(u: Run, r: nat, k: nat, w: nat, h: HandlerId, tx: TxId, pk: Pk)
    requires IsRun(u) && r <= k <= w <= |u.es| && NoEnd(u, r, w, tx) && For(u.at[r], h, tx, pk)
    requires forall n :: r <= n < w ==> !(Of(u.es[n], h) && (u.es[n].QueryFails? || u.es[n].WriteRecord?))
    ensures For(u.at[k], h, tx, pk)
    decreases k
  {
    if r < k {
      InFlight(u, r, k - 1, w, h, tx, pk);
      assert Steps(u, k - 1);
    }
  }

  /** Then every record is undisturbed. */
  lemma ExclusiveIsAlone(u: Run, x: Record, r: nat, m: nat, w: nat, h: HandlerId, tx: TxId)
    requires IsRun(u) && Exclusive(u) && Story(u, x, r, m, w, h, tx)
    ensures Alone(u, r, w, h, tx, x.pk)
  {
    var pk := x.pk;
    forall g | For(u.at[r], g, tx, pk) ensures !u.at[r].handlers[g].phase.Mutated? {
      OneHandler(u, r, g, h, tx, pk);
      assert Steps(u, r);
    }
    forall k | r <= k < w && (Changes(u.at[k], u.es[k], tx, pk) || Records(u.at[k], u.es[k], tx, pk))
      ensures Of(u.es[k], h)
    {
      InFlight(u, r, k, w, h, tx, pk);
      AtInv(u, k);
      assert Steps(u, k);
      if u.es[k].Create? {
        OwnedSpan(u, r, k, tx, pk);
      } else {
        OneHandler(u, k, u.es[k].handler, h, tx, pk);
      }
    }
  }

  /** As long as no transaction has two handlers in flight on one row, every committed
      `before` that was found is what its mutation overwrote and the `after` of the row's
      previous record. */
  lemma CommittedRecordsChain(u: Run, i: nat, j: nat)
    requires IsRun(u) && Exclusive(u) && Predecessor(Log(u), i, j) && Log(u)[j].before.Some?
    ensures Log(u)[j].before == Log(u)[i].after == Log(u)[j].overwritten
  {
    var h, tx, r, m := BeforeIsOverwrittenExactly(u, j);
    ExclusiveIsAlone(u, Log(u)[j], r, m, LogSteps(u, |u.es|)[j], h, tx);
    UndisturbedRecord(u, i, j, r, m, h, tx);
  }

  /** Where it fails: two updates of one row that are not awaited in turn both read version 1;
      between the second one's re-read and query the first leaves the row at another one. */
  lemma InterleavedHandlersFail() returns (u: Run, h: HandlerId, tx: TxId, r: nat, m: nat)
    ensures IsRun(u) && u.es == READING + WRITING && Log(u) == [CREATED, FIRST, SECOND]
    ensures |LogSteps(u, |u.es|)| == 3 && Story(u, SECOND, r, m, LogSteps(u, |u.es|)[2], h, tx)
    ensures LeftAt(u, r, m, tx, 5, SECOND.before) != SECOND.before && SECOND.before != SECOND.overwritten
  {
    InterleavedHandlersLosePreimages();
    u := RunOf(READING + WRITING);
    h, tx, r, m := BeforeIsOverwrittenExactly(u, 2);
  }
}
