/** `runManualAuditTransaction`: a host transaction whose callback may start any number of
    audit writes, awaited or not, and must not commit past a failed or unfinished one.
    Every promise settlement, log call and abort is one event; any order may happen. */
module ManualTransaction {
  import opened Prelude

  /** Thrown values: JavaScript may throw null and undefined. */
  datatype Thrown = ThrownNull | ThrownUndefined | ThrownValue(code: nat)

  datatype Write = Pending | Done | Broken(error: Thrown)

  /** The promise of the user's callback, and whether the helper has seen it settle. */
  datatype Callback = Running | Settled(result: Result<nat, Thrown>)

  /** The async function handed to the host: still open, or settled. */
  datatype Inner = Open | Resolved(value: nat) | Rejected(error: Thrown)

  /** The promise the caller of the helper holds. */
  datatype Outer = Waiting | Fulfilled(value: nat) | Refused(error: Thrown)

  datatype State = State(
    acceptingWrites: bool,
    writes: seq<Write>,
    auditFailure: Option<Thrown>,
    callback: Callback,
    resumed: bool,
    inner: Inner,
    outer: Outer,
    active: bool,
    rejectedCalls: nat)

  datatype Event =
    | Log                                       // the scope's log is called
    | Settle(write: nat, outcome: Option<Thrown>)
    | CallbackSettles(result: Result<nat, Thrown>)
    | Resume                                    // the helper continues after the callback
    | Drained                                   // Promise.all(pending) has resolved
    | HostAborts(error: Thrown)                 // timeout, lost connection, ...
    | HostCommits
    | HostCommitFails(error: Thrown)

  function Start(): State {
    State(true, [], None, Running, false, Open, Waiting, true, 0)
  }

  predicate AllSettled(s: State) {
    forall i :: 0 <= i < |s.writes| ==> !s.writes[i].Pending?
  }

  predicate Enabled(s: State, e: Event) {
    match e
    case Log => true
    case Settle(write, _) => write < |s.writes| && s.writes[write].Pending?
    case CallbackSettles(_) => s.callback.Running?
    case Resume => s.callback.Settled? && !s.resumed
    case Drained => s.callback.Settled? && s.resumed && s.inner.Open? && AllSettled(s)
    case HostAborts(_) => s.outer.Waiting?
    case HostCommits => s.outer.Waiting? && s.inner.Resolved?
    case HostCommitFails(_) => s.outer.Waiting? && s.inner.Resolved?
  }

  function Close(s: State, outer: Outer): State {
    s.(outer := outer, active := false, acceptingWrites := false)
  }

  /** How the inner function ends once every started write has settled. */
  function Verdict(s: State): Inner
    requires s.callback.Settled?
  {
    if s.callback.result.Failed? then Rejected(s.callback.result.error)
    else if s.auditFailure.Some? then Rejected(s.auditFailure.value)
    else Resolved(s.callback.result.value)
  }

  function Next(s: State, e: Event): State
    requires Enabled(s, e)
  {
    match e
    case Log =>
      if s.acceptingWrites then s.(writes := s.writes + [Pending]) else s.(rejectedCalls := s.rejectedCalls + 1)
    case Settle(write, outcome) =>
      if outcome.None? then s.(writes := s.writes[write := Done])
      else s.(writes := s.writes[write := Broken(outcome.value)],
              auditFailure := if s.auditFailure.None? then outcome else s.auditFailure)
    case CallbackSettles(result) => s.(callback := Settled(result))
    case Resume => s.(acceptingWrites := false, resumed := true)
    case Drained =>
      var verdict := Verdict(s);
      var t := s.(inner := verdict, acceptingWrites := false);
      // the host rolls back and rejects with the inner function's error
      if verdict.Rejected? && s.outer.Waiting? then Close(t, Refused(verdict.error)) else t
    case HostAborts(error) => Close(s, Refused(error))
    case HostCommits => Close(s, Fulfilled(s.inner.value))
    case HostCommitFails(error) => Close(s, Refused(error))
  }

  ghost predicate Valid(s: State, es: seq<Event>)
    decreases |es|
  {
    es == [] || (Enabled(s, es[0]) && Valid(Next(s, es[0]), es[1..]))
  }

  ghost function Exec(s: State, es: seq<Event>): State
    requires Valid(s, es)
    decreases |es|
  {
    if es == [] then s else Exec(Next(s, es[0]), es[1..])
  }

  // ----- reference: what a history settled first -----

  /** The first failure to settle in a history. */
  function FirstFailure(es: seq<Event>): Option<Thrown> {
    if es == [] then None
    else if es[0].Settle? && es[0].outcome.Some? then es[0].outcome
    else FirstFailure(es[1..])
  }

  /** How the callback settled in a history. */
  function CallbackOutcome(es: seq<Event>): Option<Result<nat, Thrown>> {
    if es == [] then None
    else if es[0].CallbackSettles? then Some(es[0].result)
    else CallbackOutcome(es[1..])
  }

  predicate SomeBroken(s: State) {
    exists i :: 0 <= i < |s.writes| && s.writes[i].Broken?
  }

  /** How the inner function must end, from what happened alone. */
  function Expected(callback: Option<Result<nat, Thrown>>, firstFailure: Option<Thrown>): Inner {
    match callback
    case None => Open
    case Some(Failed(error)) => Rejected(error)
    case Some(Ok(value)) => if firstFailure.Some? then Rejected(firstFailure.value) else Resolved(value)
  }

  predicate HostFailed(es: seq<Event>) {
    exists i :: 0 <= i < |es| && (es[i].HostAborts? || es[i].HostCommitFails?)
  }

  ghost predicate Inv(s: State, callback: Option<Result<nat, Thrown>>, firstFailure: Option<Thrown>, hostFailed: bool) {
    && s.auditFailure == firstFailure
    && (firstFailure.Some? <==> SomeBroken(s))
    && s.callback == (if callback.Some? then Settled(callback.value) else Running)
    && (s.resumed ==> s.callback.Settled? && !s.acceptingWrites)
    && (!s.inner.Open? ==> s.resumed && AllSettled(s) && s.inner == Expected(callback, firstFailure))
    && (s.outer.Waiting? <==> s.active)
    && (!s.outer.Waiting? ==> !s.acceptingWrites)
    && (s.outer.Fulfilled? ==> s.inner == Resolved(s.outer.value))
    && (s.outer.Refused? ==> hostFailed || s.inner == Rejected(s.outer.error))
    && (s.inner.Rejected? ==> s.outer.Refused?)
  }

  function Either<T>(a: Option<T>, b: Option<T>): Option<T> {
    if a.Some? then a else b
  }

  lemma SettleKeepsInv(s: State, e: Event, c: Option<Result<nat, Thrown>>, f: Option<Thrown>, h: bool)
    requires Inv(s, c, f, h) && Enabled(s, e) && e.Settle?
    ensures Inv(Next(s, e), c, Either(f, FirstFailure([e])), h)
  {
    var t := Next(s, e);
    if e.outcome.Some? {
      assert t.writes[e.write].Broken?;
    } else {
      forall i | 0 <= i < |s.writes| && s.writes[i].Broken? ensures t.writes[i].Broken? {}
    }
    if SomeBroken(t) && !SomeBroken(s) {
      var i :| 0 <= i < |t.writes| && t.writes[i].Broken?;
      assert i == e.write;
    }
  }

  lemma StepKeepsInv(s: State, e: Event, c: Option<Result<nat, Thrown>>, f: Option<Thrown>, h: bool)
    requires Inv(s, c, f, h) && Enabled(s, e)
    ensures Inv(Next(s, e), Either(c, CallbackOutcome([e])), Either(f, FirstFailure([e])), h || HostFailed([e]))
  {
    var t := Next(s, e);
    match e
    case Settle(_, _) => SettleKeepsInv(s, e, c, f, h);
    case Log =>
      forall i | 0 <= i < |s.writes| ensures t.writes[i] == s.writes[i] {}
    case HostAborts(_) => assert [e][0] == e && HostFailed([e]);
    case HostCommitFails(_) => assert [e][0] == e && HostFailed([e]);
    case _ =>
  }

  lemma {:induction false} ExecKeepsInv(
    s: State, es: seq<Event>, c: Option<Result<nat, Thrown>>, f: Option<Thrown>, h: bool)
    requires Inv(s, c, f, h) && Valid(s, es)
    ensures Inv(Exec(s, es), Either(c, CallbackOutcome(es)), Either(f, FirstFailure(es)), h || HostFailed(es))
    decreases |es|
  {
    if es != [] {
      StepKeepsInv(s, es[0], c, f, h);
      ExecKeepsInv(Next(s, es[0]), es[1..], Either(c, CallbackOutcome([es[0]])), Either(f, FirstFailure([es[0]])),
                   h || HostFailed([es[0]]));
      HostFailedSplit(es);
    }
  }

  lemma HostFailedSplit(es: seq<Event>)
    requires es != []
    ensures HostFailed(es) <==> HostFailed([es[0]]) || HostFailed(es[1..])
  {
    assert [es[0]][0] == es[0];
    assert forall i :: 0 <= i < |es[1..]| ==> es[1..][i] == es[i + 1];
    if HostFailed(es) {
      var i :| 0 <= i < |es| && (es[i].HostAborts? || es[i].HostCommitFails?);
      assert i > 0 ==> es[1..][i - 1] == es[i];
    }
  }

  /** The caller's promise fulfils only when the callback succeeded with that value and
      every write it ever started succeeded, in every interleaving. */
  lemma FulfilledMeansAllWritten(es: seq<Event>)
    requires Valid(Start(), es) && Exec(Start(), es).outer.Fulfilled?
    ensures CallbackOutcome(es) == Some(Ok(Exec(Start(), es).outer.value))
    ensures forall i :: 0 <= i < |Exec(Start(), es).writes| ==> Exec(Start(), es).writes[i].Done?
  {
    ExecKeepsInv(Start(), es, None, None, false);
  }

  /** Unless the host itself failed, a refusal carries the callback's error if it threw,
      and otherwise the first failure to settle, whatever value was thrown. */
  lemma RefusedMeansFirstFailure(es: seq<Event>)
    requires Valid(Start(), es) && Exec(Start(), es).outer.Refused? && !HostFailed(es)
    ensures match CallbackOutcome(es)
      case None => false
      case Some(Failed(error)) => Exec(Start(), es).outer.error == error
      case Some(Ok(_)) => FirstFailure(es) == Some(Exec(Start(), es).outer.error)
  {
    ExecKeepsInv(Start(), es, None, None, false);
  }

  /** The function given to the host settles only after every started write has, and then
      exactly as the history demands: it resolves if and only if the callback succeeded and
      no write failed. */
  lemma InnerVerdict(es: seq<Event>)
    requires Valid(Start(), es)
    ensures var t := Exec(Start(), es);
      !t.inner.Open? ==>
        && AllSettled(t)
        && t.inner == Expected(CallbackOutcome(es), FirstFailure(es))
        && (t.inner.Resolved? <==> CallbackOutcome(es).Some? && CallbackOutcome(es).value.Ok? && !SomeBroken(t))
  {
    ExecKeepsInv(Start(), es, None, None, false);
  }

  /** Once the scope stops accepting writes the log function is never called again: a later
      log only adds a rejected call. */
  lemma {:induction false} ClosedForGood(s: State, es: seq<Event>)
    requires Valid(s, es) && !s.acceptingWrites
    ensures var t := Exec(s, es);
      !t.acceptingWrites && |t.writes| == |s.writes|
    decreases |es|
  {
    if es != [] {
      ClosedForGood(Next(s, es[0]), es[1..]);
    }
  }

  /** A fulfilled or refused caller means the scope is closed. */
  lemma SettledMeansRevoked(es: seq<Event>)
    requires Valid(Start(), es) && !Exec(Start(), es).outer.Waiting?
    ensures !Exec(Start(), es).acceptingWrites && !Exec(Start(), es).active
  {
    ExecKeepsInv(Start(), es, None, None, false);
  }

  /** The helper never gets stuck: with the callback and all started writes settled it is
      done, or the next thing it does is to finish. */
  lemma AlwaysFinishes(es: seq<Event>)
    requires Valid(Start(), es)
    ensures var t := Exec(Start(), es);
      t.callback.Settled? && AllSettled(t) ==>
        || !t.inner.Open?
        || (!t.resumed && Enabled(t, Resume) && Enabled(Next(t, Resume), Drained))
        || Enabled(t, Drained)
  {
    ExecKeepsInv(Start(), es, None, None, false);
  }

  // ----- the same protocol as the source writes it: mutable scope, callbacks -----

  class Scope {
    var active: bool
    var acceptingWrites: bool
    var pending: seq<Write>
    var auditFailed: bool
    var auditFailure: Thrown
    var callbackFailed: bool
    var callbackFailure: Thrown
    var result: nat
    ghost var state: State

    /** The fields represent the protocol state. */
    ghost predicate Represents()
      reads this
    {
      && state.active == active && state.acceptingWrites == acceptingWrites
      && (state.outer.Waiting? <==> active)
      && state.writes == pending
      && state.auditFailure == (if auditFailed then Some(auditFailure) else None)
      && (state.resumed ==>
            state.callback == Settled(if callbackFailed then Result.Failed(callbackFailure) else Ok(result)))
    }

    constructor ()
      ensures Represents() && state == Start()
    {
      active, acceptingWrites, pending := true, true, [];
      auditFailed, auditFailure := false, ThrownUndefined;
      callbackFailed, callbackFailure, result := false, ThrownUndefined, 0;
      state := Start();
    }

    /** `log`; a refused call never reaches the log function. */
    method Log() returns (started: bool)
      requires Represents()
      modifies this
      ensures Represents() && state == Next(old(state), Event.Log)
      ensures started == old(acceptingWrites)
    {
      if !acceptingWrites {
        state := Next(state, Event.Log);
        return false;
      }
      pending := pending + [Pending];
      state := Next(state, Event.Log);
      return true;
    }

    /** The handlers attached to a started write. */
    method OnSettled(write: nat, failure: Option<Thrown>)
      requires Represents() && Enabled(state, Settle(write, failure))
      modifies this
      ensures Represents() && state == Next(old(state), Settle(write, failure))
    {
      if failure.Some? {
        if !auditFailed {
          auditFailed, auditFailure := true, failure.value;
        }
        pending := pending[write := Broken(failure.value)];
      } else {
        pending := pending[write := Done];
      }
      state := Next(state, Settle(write, failure));
    }

    /** `catch` and `finally` around the callback. */
    method AfterCallback(settled: Result<nat, Thrown>)
      requires Represents() && Enabled(state, Resume) && state.callback == Settled(settled)
      modifies this
      ensures Represents() && state == Next(old(state), Resume)
    {
      match settled {
        case Ok(value) => callbackFailed, result := false, value;
        case Failed(error) => callbackFailed, callbackFailure := true, error;
      }
      acceptingWrites := false;
      state := Next(state, Resume);
    }

    /** After `Promise.all(pending)`, also when the host has given up meanwhile: throw the
        callback's failure, else the audit failure. */
    method AfterDrain() returns (inner: Inner)
      requires Represents() && Enabled(state, Drained)
      modifies this
      ensures state == Next(old(state), Drained) && inner == state.inner && Represents()
    {
      acceptingWrites := false;
      if callbackFailed {
        inner := Rejected(callbackFailure);
      } else if auditFailed {
        inner := Rejected(auditFailure);
      } else {
        inner := Resolved(result);
      }
      if inner.Rejected? {
        active := false;
      }
      state := Next(state, Drained);
    }

    /** The outermost `finally`, reached however the host's promise settles. */
    method Revoke(e: Event)
      requires Represents() && Enabled(state, e) && (e.HostAborts? || e.HostCommits? || e.HostCommitFails?)
      modifies this
      ensures Represents() && state == Next(old(state), e) && !active && !acceptingWrites
    {
      active, acceptingWrites := false, false;
      state := Next(state, e);
    }
  }
}
