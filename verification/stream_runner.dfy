/** `AuditStreamRunner.runOnce` and the scan generator it drives, step by step, against a
    world that may interfere, fail or stop at every await. */
module StreamRunner {
  import opened Keys
  import opened Pages
  import opened Prelude
  import opened Rows
  import opened StreamProtocol
  import opened StreamTheorems

  /** `t` follows from `s` by a guarded history; with `restarts`, runs may start in it. */
  ghost predicate Leads(c: Config, s: Sys, t: Sys, restarts: bool) {
    exists es :: LeadsBy(c, s, t, restarts, es)
  }

  ghost predicate LeadsBy(c: Config, s: Sys, t: Sys, restarts: bool, es: seq<Event>) {
    && Valid(c, s, es)
    && GuardedRun(c, s, es)
    && Exec(c, s, es) == t
    && (restarts || forall i :: 0 <= i < |es| ==> !es[i].Start?)
  }

  lemma {:induction false} GuardedChain(c: Config, s: Sys, es: seq<Event>, fs: seq<Event>)
    requires Valid(c, s, es) && GuardedRun(c, s, es)
    requires Valid(c, Exec(c, s, es), fs) && GuardedRun(c, Exec(c, s, es), fs)
    ensures Valid(c, s, es + fs) && GuardedRun(c, s, es + fs)
    decreases |es|
  {
    Chain(c, s, es, fs);
    if es == [] {
      assert es + fs == fs;
    } else {
      GuardedChain(c, Next(c, s, es[0]), es[1..], fs);
      assert (es + fs)[1..] == es[1..] + fs && (es + fs)[0] == es[0];
    }
  }

  lemma LeadsStep(c: Config, s: Sys, e: Event)
    requires Enabled(c, s, e) && Guarded(s, e)
    ensures Leads(c, s, Next(c, s, e), e.Start?)
  {
    One(c, s, e, Next(c, s, e));
    assert [e][1..] == [];
    assert LeadsBy(c, s, Next(c, s, e), e.Start?, [e]);
  }

  lemma LeadsTo(c: Config, s: Sys, t: Sys, u: Sys, r1: bool, r2: bool)
    requires Leads(c, s, t, r1) && Leads(c, t, u, r2)
    ensures Leads(c, s, u, r1 || r2)
  {
    var es :| LeadsBy(c, s, t, r1, es);
    var fs :| LeadsBy(c, t, u, r2, fs);
    Chain(c, s, es, fs);
    GuardedChain(c, s, es, fs);
    assert LeadsBy(c, s, u, r1 || r2, es + fs);
  }

  lemma LeadsNowhere(c: Config, s: Sys)
    ensures Leads(c, s, s, false)
  {
    assert LeadsBy(c, s, s, false, []);
  }

  lemma {:induction false} ExecKeepsAccepted(c: Config, s: Sys, es: seq<Event>)
    requires Valid(c, s, es)
    ensures s.accepted <= Exec(c, s, es).accepted
    decreases |es|
  {
    if es != [] {
      ExecKeepsAccepted(c, Next(c, s, es[0]), es[1..]);
    }
  }

  lemma {:induction false} ExecKeepsStored(c: Config, s: Sys, es: seq<Event>)
    requires Valid(c, s, es)
    ensures s.delivered <= Exec(c, s, es).delivered && s.letters.Keys <= Exec(c, s, es).letters.Keys
    decreases |es|
  {
    if es != [] {
      ExecKeepsStored(c, Next(c, s, es[0]), es[1..]);
    }
  }

  /** Nothing that was delivered or passed is ever taken back. */
  lemma LeadsGrows(c: Config, s: Sys, t: Sys, restarts: bool)
    requires DrainInv(c, s) && Leads(c, s, t, restarts)
    ensures s.accepted <= t.accepted && NotBefore(Checkpoint(s), Checkpoint(t))
    ensures s.delivered <= t.delivered && s.letters.Keys <= t.letters.Keys
    ensures forall k :: Passed(s, k) ==> Passed(t, k)
  {
    var es :| LeadsBy(c, s, t, restarts, es);
    ExecKeepsInv(c, s, es);
    ExecKeepsAccepted(c, s, es);
    ExecKeepsStored(c, s, es);
  }

  lemma LeadsToWatermark(c: Config, s: Sys, t: Sys, hw: Key)
    requires DrainInv(c, s) && Leads(c, s, t, false) && HeadedFor(s, hw)
    ensures HeadedFor(t, hw)
  {
    var es :| LeadsBy(c, s, t, false, es);
    RunEndsAtWatermark(c, s, es, hw);
  }

  /** What a save writes in the current phase of a run. */
  function PendingSave(r: Run): Option<StreamState> {
    match r
    case Normalizing(state) => Some(state)
    case Yielded(state, page) => Some(state.(highWatermark := Some(page.highWatermark)))
    case Acked(_, page) => if page.keys == [] then None else Some(AckedState(page))
    case _ => None
  }

  lemma DeliverFacts(c: Config, s: Sys, effect: bool, answer: SinkAnswer)
    requires s.run.Delivering? && (answer.Accepted? ==> effect)
    ensures var t := Next(c, s, Deliver(effect, answer));
      && t.rows == s.rows && t.store == s.store && t.letters == s.letters
      && (effect ==> forall k :: k in s.run.page.keys ==> k in t.delivered)
      && t.run == match answer
           case Accepted => Acked(s.run.state, s.run.page)
           case Terminal => if c.hasDeadLetters then DeadLettering(s.run.state, s.run.page) else Stopped
           case Transient =>
             if s.run.attempt > c.maxRetries then Stopped
             else Delivering(s.run.state, s.run.page, s.run.attempt + 1)
  {
  }

  lemma BuryFacts(c: Config, s: Sys, effect: bool, ok: bool)
    requires s.run.DeadLettering? && (ok ==> effect)
    ensures var t := Next(c, s, WriteDeadLetter(effect, ok));
      && t.rows == s.rows && t.store == s.store
      && t.letters == (if effect then Written(s.letters, s.run.page.keys) else s.letters)
      && t.run == if ok then Acked(s.run.state, s.run.page) else Stopped
  {
  }

  /** The audit table, the checkpoint store and the sinks, with everything other sessions
      do to them.  `sys` is the protocol state they are in. */
  class World {
    const c: Config
    var rows: Table
    var store: Option<StreamState>
    var letters: Letters
    ghost var sys: Sys
    ghost var faults: nat
    ghost var answers: seq<SinkAnswer>

    ghost predicate Consistent()
      reads this
    {
      && DrainInv(c, sys)
      && sys.rows == rows
      && sys.store == store
      && sys.letters == letters
    }

    constructor (c: Config, rows: Table)
      requires ValidConfig(c)
      ensures Consistent() && this.c == c && Fresh(c, sys)
    {
      this.c := c;
      this.rows := rows;
      store, letters := None, map[];
      sys := Sys(rows, None, {}, {}, map[], {}, Stopped);
      faults, answers := 0, [];
    }

    /** A signal, or a throw outside the stores; `faults` counts what went wrong. */
    method Fails() returns (hit: bool)
      modifies this`faults
      ensures faults == old(faults) + if hit then 1 else 0
    {
      hit := *;
      faults := faults + if hit then 1 else 0;
    }

    /** The step just taken on the real fields is the protocol's step `e`. */
    ghost method Record(e: Event)
      requires DrainInv(c, sys) && Enabled(c, sys, e) && Guarded(sys, e)
      modifies this`sys
      ensures sys == Next(c, old(sys), e) && DrainInv(c, sys)
      ensures Leads(c, old(sys), sys, e.Start?)
    {
      StepKeepsDrainInv(c, sys, e);
      LeadsStep(c, sys, e);
      sys := Next(c, sys, e);
    }

    /** Other sessions commit rows; retention removes rows the stream has passed. */
    method Interfere()
      requires Consistent()
      modifies this
      ensures Consistent() && Leads(c, old(sys), sys, false)
      ensures sys.run == old(sys.run) && sys.accepted == old(sys.accepted)
      ensures store == old(store) && letters == old(letters) && faults == old(faults) && answers == old(answers)
    {
      var n: nat := *;
      LeadsNowhere(c, sys);
      while n > 0
        invariant Consistent() && Leads(c, old(sys), sys, false)
        invariant sys.run == old(sys.run) && sys.accepted == old(sys.accepted)
        invariant store == old(store) && letters == old(letters) && faults == old(faults) && answers == old(answers)
      {
        ghost var before := sys;
        var inserts: bool := *;
        if inserts {
          var key: Key := *;
          var entry: Entry := *;
          if key !in rows {
            rows := rows[key := entry];
            Record(Insert(key, entry));
            LeadsTo(c, old(sys), before, sys, false, false);
          }
        } else {
          var keys: set<Key> := *;
          var passed := set k | k in keys && store.Some? && store.value.checkpoint.Some? &&
            UpTo(k, store.value.checkpoint.value);
          rows := rows - passed;
          Record(Remove(passed));
          LeadsTo(c, old(sys), before, sys, false, false);
        }
        n := n - 1;
      }
    }

    /** The process dies, the signal aborts, or a call throws. */
    method Stop()
      requires Consistent()
      modifies this
      ensures Consistent() && Leads(c, old(sys), sys, false)
      ensures sys.run.Stopped? && store == old(store) && sys.accepted == old(sys.accepted)
      ensures faults == old(faults) && answers == old(answers)
    {
      Record(Crash);
    }

    method Load() returns (state: Option<StreamState>)
      requires Consistent() && (sys.run.Stopped? || sys.run.Finished?)
      modifies this
      ensures Consistent() && Leads(c, old(sys), sys, true)
      ensures state == store == old(store) && sys.run == StartRun(sys) && sys.accepted == old(sys.accepted)
      ensures faults == old(faults)
    {
      Interfere();
      ghost var before := sys;
      state := store;
      Record(Start);
      LeadsTo(c, old(sys), before, sys, false, true);
    }

    method Save(state: StreamState) returns (ok: bool)
      requires Consistent() && PendingSave(sys.run) == Some(state)
      modifies this
      ensures Consistent() && Leads(c, old(sys), sys, false) && sys.accepted == old(sys.accepted)
      ensures !ok ==> sys.run.Stopped?
      ensures faults == old(faults) + if ok then 0 else 1
      ensures ok ==> store == Some(state) && match old(sys.run)
        case Normalizing(_) => sys.run == Ready(state)
        case Yielded(_, page) => sys.run == Delivering(state, page, 1)
        case Acked(_, page) =>
          sys.run == (if page.more then Scanning(state, page.highWatermark) else Finished(state, true))
        case _ => true
    {
      Interfere();
      ghost var before := sys;
      var effect: bool := *;
      ok := *;
      ok := ok && effect;
      faults := faults + if ok then 0 else 1;
      if effect {
        store := Some(state);
      }
      Record(match sys.run
        case Normalizing(_) => SaveNormalized(effect, ok)
        case Yielded(_, _) => SaveWatermark(effect, ok)
        case _ => SaveCheckpoint(effect, ok));
      LeadsTo(c, old(sys), before, sys, false, false);
    }

    /** `SELECT ... WHERE conditions`: the keys selected. */
    function Selected(conditions: seq<Condition>): set<Key>
      reads this
    {
      set k | k in rows && Where(conditions, k, rows[k])
    }

    /** `ORDER BY created_at DESC, id DESC LIMIT 1` */
    method QueryWatermark(conditions: seq<Condition>) returns (found: Option<Key>)
      requires Consistent() && sys.run.Ready?
      requires forall k, e :: Where(conditions, k, e) <==>
        MatchesScan(c.filter, k, e) && Bounded(sys.run.state.checkpoint, sys.run.state.highWatermark, k)
      modifies this
      ensures Consistent() && Leads(c, old(sys), sys, false) && store == old(store) && sys.accepted == old(sys.accepted)
      ensures faults == old(faults)
      ensures sys.run == match found
        case Some(hw) => Scanning(old(sys.run.state), hw)
        case None => Finished(old(sys.run.state), false)
      ensures var r := Visible(c, rows, old(sys.run.state.checkpoint), old(sys.run.state.highWatermark));
        if found.Some? then IsGreatest(found.value, r) else r == {}
    {
      Interfere();
      ghost var before := sys;
      var descending := (k: Key) => -(Rank(k) as int);
      var r := Selected(conditions);
      assert r == Visible(c, sys.rows, sys.run.state.checkpoint, sys.run.state.highWatermark);
      assert Injective(descending) by {
        forall a, b | descending(a) == descending(b) ensures a == b { RankOrder(a, b); }
      }
      var top := SelectPage(descending, r, 1);
      EmptyPage(descending, top, r, 1);
      if top == [] {
        found := None;
      } else {
        found := Some(top[0]);
        assert top[0] in top;
        forall j | j in r ensures UpTo(j, top[0]) {
          PageFirst(descending, top, r, 1, j);
          RankOrder(j, top[0]);
        }
      }
      Record(StreamProtocol.QueryWatermark(found));
      LeadsTo(c, old(sys), before, sys, false, false);
    }

    /** `ORDER BY created_at ASC, id ASC LIMIT limit` */
    method QueryPage(conditions: seq<Condition>, limit: nat) returns (keys: seq<Key>)
      requires Consistent() && sys.run.Scanning? && limit == c.batchSize + 1
      requires forall k, e :: Where(conditions, k, e) <==>
        MatchesScan(c.filter, k, e) && Bounded(sys.run.state.checkpoint, Some(sys.run.highWatermark), k)
      modifies this
      ensures Consistent() && Leads(c, old(sys), sys, false) && store == old(store) && sys.accepted == old(sys.accepted)
      ensures faults == old(faults)
      ensures IsPage(KeyOrder(), keys,
                     Visible(c, rows, old(sys.run.state.checkpoint), Some(old(sys.run.highWatermark))), limit)
      ensures keys == [] ==> sys.run.Finished?
      ensures var state, page := old(sys.run.state), PageOf(c, keys, old(sys.run.highWatermark));
        keys != [] ==>
          sys.run == if state.highWatermark.None? then Yielded(state, page) else Delivering(state, page, 1)
    {
      Interfere();
      ghost var before := sys;
      var r := Selected(conditions);
      assert r == Visible(c, sys.rows, sys.run.state.checkpoint, Some(sys.run.highWatermark));
      KeyOrderInjective();
      keys := SelectPage(KeyOrder(), r, limit);
      Record(StreamProtocol.QueryPage(keys));
      LeadsTo(c, old(sys), before, sys, false, false);
    }

    method SinkDeliver() returns (answer: SinkAnswer)
      requires Consistent() && sys.run.Delivering?
      modifies this
      ensures Consistent() && Leads(c, old(sys), sys, false) && store == old(store)
      ensures faults == old(faults) + (if answer.Accepted? then 0 else 1) && answers == old(answers) + [answer]
      ensures answer.Accepted? ==> sys.run == Acked(old(sys.run.state), old(sys.run.page))
      ensures answer.Accepted? ==> forall k :: k in old(sys.run.page.keys) ==> k in sys.delivered
      ensures answer.Terminal? ==>
        sys.run == if c.hasDeadLetters then DeadLettering(old(sys.run.state), old(sys.run.page)) else Stopped
      ensures answer.Transient? ==>
        sys.run == if old(sys.run.attempt) > c.maxRetries then Stopped
                   else Delivering(old(sys.run.state), old(sys.run.page), old(sys.run.attempt) + 1)
    {
      Interfere();
      ghost var before := sys;
      answer := *;
      var effect: bool := *;
      faults, answers := faults + (if answer.Accepted? then 0 else 1), answers + [answer];
      DeliverFacts(c, sys, effect || answer.Accepted?, answer);
      Record(Deliver(effect || answer.Accepted?, answer));
      LeadsTo(c, old(sys), before, sys, false, false);
    }

    /** INSERT ... ON CONFLICT (stream_id, batch_id) DO NOTHING */
    method DeadLetterWrite(batch: seq<Key>) returns (ok: bool)
      requires Consistent() && sys.run.DeadLettering? && batch == sys.run.page.keys && batch != []
      modifies this
      ensures ok ==> letters == Written(old(letters), batch)
      ensures letters == old(letters) || letters == Written(old(letters), batch)
      ensures Consistent() && Leads(c, old(sys), sys, false) && store == old(store)
      ensures sys.run == if ok then Acked(old(sys.run.state), old(sys.run.page)) else Stopped
      ensures faults == old(faults) + (if ok then 0 else 1) && answers == old(answers)
    {
      Interfere();
      ghost var before := sys;
      ok := *;
      faults := faults + if ok then 0 else 1;
      var effect: bool := *;
      effect := effect || ok;
      if effect && BatchIdOf(batch) !in letters {
        letters := letters[BatchIdOf(batch) := batch];
      }
      BuryFacts(c, sys, effect, ok);
      Record(WriteDeadLetter(effect, ok));
      LeadsTo(c, old(sys), before, sys, false, false);
    }
  }

  /** What a scan yields: the kept keys, the cursor of the last one, the watermark. */
  datatype ScanPage = ScanPage(keys: seq<Key>, checkpoint: Option<Key>, highWatermark: Option<Key>)

  datatype ScanPhase = Unstarted | Paging | Exhausted

  /** A page in flight lies in its range. */
  lemma PageFacts(c: Config, s: Sys, state: StreamState, page: Page)
    requires Inv(c, s) && (s.run == Yielded(state, page) || s.run == Delivering(state, page, 1))
    ensures page.keys != [] && UpTo(Last(page.keys), page.highWatermark)
    ensures state.checkpoint.Some? ==> Before(state.checkpoint.value, Last(page.keys))
  {
    assert PageInv(c, s, state, page);
  }

  /** The generator `scanPages`, resumed once per page. */
  class PageScan {
    const world: World
    const start: Option<Key>
    const until: Option<Key>
    var phase: ScanPhase
    var base: seq<Condition>
    var highWatermark: Key
    var after: Option<Key>

    constructor (world: World, start: Option<Key>, until: Option<Key>)
      ensures this.world == world && this.start == start && this.until == until
      ensures phase == Unstarted && after == start
    {
      this.world := world;
      this.start := start;
      this.until := until;
      phase, after := Unstarted, start;
    }

    /** The generator stands where the protocol's run stands. */
    ghost predicate InStep()
      reads this, world
    {
      match phase
      case Unstarted => after == start && world.sys.run == Ready(StreamState(start, until))
      case Paging =>
        && world.sys.run.Scanning? && world.sys.run.highWatermark == highWatermark
        && world.sys.run.state.checkpoint == after
        && Bounds()
      case Exhausted => world.sys.run.Finished?
    }

    /** How many keys lie between the position and the watermark: the scan's progress,
        however many rows arrive meanwhile. */
    ghost function KeysLeft(): int
      reads this
    {
      Rank(highWatermark) - if after.Some? then Rank(after.value) else -1
    }

    /** A run never starts with both ends of its range equal, so the source's shortcut for
        that case is not taken here. */
    method ResolveHighWatermark() returns (found: Option<Key>)
      requires world.Consistent() && phase == Unstarted && InStep()
      modifies this`base, world
      ensures world.Consistent() && Leads(world.c, old(world.sys), world.sys, false)
      ensures world.store == old(world.store) && world.sys.accepted == old(world.sys.accepted)
      ensures world.faults == old(world.faults)
      ensures BaseMeans()
      ensures world.sys.run == match found
        case Some(hw) => Scanning(StreamState(start, until), hw)
        case None => Finished(StreamState(start, until), false)
      ensures start.Some? ==> start != until
      ensures var r := Visible(world.c, world.rows, start, until);
        if found.Some? then IsGreatest(found.value, r) else r == {}
    {
      base := BuildScanConditions(world.c.filter, start, until);
      found := world.QueryWatermark(base);
    }

    ghost function RunState(): StreamState
      reads this, world
    {
      match world.sys.run
      case Scanning(state, _) => state
      case _ => StreamState(start, until)
    }

    /** `base` is the scan's WHERE clause. */
    ghost predicate BaseMeans()
      reads this
    {
      forall k, e :: Where(base, k, e) <==> MatchesScan(world.c.filter, k, e) && Bounded(start, until, k)
    }

    /** The position lies in the scan's range. */
    ghost predicate Bounds()
      reads this
    {
      && BaseMeans()
      && (start.Some? ==> after.Some? && UpTo(start.value, after.value))
      && (until.Some? ==> UpTo(highWatermark, until.value))
    }

    /** The conditions of one page: `base`, the position, the watermark. */
    method PageConditions() returns (conditions: seq<Condition>)
      requires Bounds()
      ensures forall k, e :: Where(conditions, k, e) <==>
        MatchesScan(world.c.filter, k, e) && Bounded(after, Some(highWatermark), k)
    {
      conditions := base;
      if after.Some? {
        conditions := conditions + [After(after.value)];
      }
      conditions := conditions + [Until(highWatermark)];
      forall k, e
        ensures Where(conditions, k, e) <==> MatchesScan(world.c.filter, k, e) && Bounded(after, Some(highWatermark), k)
      {
        if after.Some? {
          WherePush(base, After(after.value), k, e);
          WherePush(base + [After(after.value)], Until(highWatermark), k, e);
        } else {
          WherePush(base, Until(highWatermark), k, e);
        }
      }
    }

    /** The page in flight is the one just yielded. */
    ghost predicate OnPage(state: StreamState, page: ScanPage)
      reads this, world
    {
      var p := Page(page.keys, phase == Paging, highWatermark);
      && page.keys != [] && |page.keys| <= world.c.batchSize
      && page.checkpoint == after == Some(Last(page.keys))
      && page.highWatermark == Some(highWatermark)
      && UpTo(Last(page.keys), highWatermark)
      && world.sys.run == (if state.highWatermark.None? then Yielded(state, p) else Delivering(state, p, 1))
    }

    /** The page query, which may throw. */
    method FetchRows() returns (ok: bool, rows: seq<Key>)
      requires world.Consistent() && Bounds()
      requires world.sys.run.Scanning? && world.sys.run.highWatermark == highWatermark
      requires world.sys.run.state.checkpoint == after
      modifies world
      ensures world.Consistent() && Leads(world.c, old(world.sys), world.sys, false)
      ensures world.store == old(world.store) && world.sys.accepted == old(world.sys.accepted)
      ensures !ok ==> world.sys.run.Stopped?
      ensures world.faults == old(world.faults) + if ok then 0 else 1
      ensures ok && rows == [] ==> world.sys.run.Finished?
      ensures var state, page := old(world.sys.run.state), PageOf(world.c, rows, highWatermark);
        ok && rows != [] ==>
          world.sys.run == if state.highWatermark.None? then Yielded(state, page) else Delivering(state, page, 1)
    {
      var conditions := PageConditions();
      var fails := world.Fails();
      if fails {
        world.Stop();
        return false, [];
      }
      ok := true;
      rows := world.QueryPage(conditions, world.c.batchSize + 1);
    }

    /** One page query; None when it finds no row. */
    method Fetch() returns (ok: bool, page: Option<ScanPage>)
      requires world.Consistent() && ValidConfig(world.c) && Bounds()
      requires world.sys.run.Scanning? && world.sys.run.highWatermark == highWatermark
      requires world.sys.run.state.checkpoint == after
      modifies this`phase, this`after, world
      ensures world.Consistent() && Leads(world.c, old(world.sys), world.sys, false)
      ensures world.store == old(world.store) && world.sys.accepted == old(world.sys.accepted)
      ensures !ok ==> world.sys.run.Stopped?
      ensures world.faults == old(world.faults) + if ok then 0 else 1
      ensures ok ==> match page
        case None => world.sys.run.Finished? && phase == Exhausted
        case Some(p) =>
          && OnPage(old(world.sys.run.state), p) && Bounds() && phase != Unstarted
          && (old(after).Some? ==> Before(old(after).value, after.value))
    {
      page := None;
      ghost var state := world.sys.run.state;
      var rows: seq<Key>;
      ok, rows := FetchRows();
      if !ok { return; }
      if rows == [] {
        phase := Exhausted;
        return;
      }
      var kept := Yield(rows, state);
      page := Some(kept);
    }

    /** Keeps `batchSize` rows and moves the position behind them. */
    method Yield(rows: seq<Key>, ghost state: StreamState) returns (page: ScanPage)
      requires world.Consistent() && ValidConfig(world.c) && Bounds() && state.checkpoint == after && rows != []
      requires var p := PageOf(world.c, rows, highWatermark);
        world.sys.run == if state.highWatermark.None? then Yielded(state, p) else Delivering(state, p, 1)
      modifies this`phase, this`after
      ensures OnPage(state, page) && Bounds() && phase != Unstarted
      ensures old(after).Some? ==> Before(old(after).value, after.value)
    {
      PageFacts(world.c, world.sys, state, PageOf(world.c, rows, highWatermark));
      var kept := if |rows| <= world.c.batchSize then rows else rows[..world.c.batchSize];
      var last := Last(kept);
      page := ScanPage(kept, Some(last), Some(highWatermark));
      phase := if |rows| <= world.c.batchSize then Exhausted else Paging;
      after := Some(last);
    }

    /** The next page, None at the end; `ok` is false when a query throws. */
    method Next() returns (ok: bool, page: Option<ScanPage>)
      requires world.Consistent() && ValidConfig(world.c) && InStep()
      modifies this, world
      ensures world.Consistent() && Leads(world.c, old(world.sys), world.sys, false)
      ensures world.store == old(world.store) && world.sys.accepted == old(world.sys.accepted)
      ensures !ok ==> world.sys.run.Stopped?
      ensures world.faults == old(world.faults) + if ok then 0 else 1
      ensures ok && page.None? ==> world.sys.run.Finished? && phase == Exhausted
      ensures ok && page.Some? && page.value.keys == [] ==>
        && old(phase) == Unstarted && phase == Exhausted && page.value.checkpoint.None?
        && world.sys.run == Finished(StreamState(start, until), false)
      ensures ok && page.Some? && page.value.keys != [] ==>
        && old(phase) != Exhausted && phase != Unstarted
        && OnPage(old(RunState()), page.value) && Bounds()
        && (old(phase) == Paging ==> highWatermark == old(highWatermark) && KeysLeft() < old(KeysLeft()))
        && (start.Some? && old(phase) == Unstarted ==> Before(start.value, after.value))
    {
      ok, page := true, None;
      ghost var entered := world.sys;
      LeadsNowhere(world.c, world.sys);
      if phase == Exhausted {
        return;
      }
      if phase == Unstarted {
        var found := ResolveHighWatermark();
        if found.None? {
          phase := Exhausted;
          page := Some(ScanPage([], None, if start.Some? then start else until));
          return;
        }
        highWatermark := found.value;
      }
      ghost var resolved := world.sys;
      ghost var from := after;
      ok, page := Fetch();
      LeadsTo(world.c, entered, resolved, world.sys, false, false);
      if ok && page.Some? && from.Some? {
        RankOrder(from.value, after.value);
      }
    }
  }

  datatype RunResult = RunResult(delivered: nat, deadLettered: nat, batches: nat, checkpoint: Option<Key>)

  datatype Delivery = Delivered | DeadLettered | Aborted

  /** Who has an acknowledged page: the sink all of it, or the dead letters its batch id. */
  ghost predicate TakenAs(c: Config, s: Sys, batch: seq<Key>, buried: bool) {
    && batch != [] && |batch| <= c.batchSize
    && if buried then c.hasDeadLetters && BatchIdOf(batch) in s.letters else forall k :: k in batch ==> k in s.delivered
  }

  /** After a terminal answer: the dead letters, if there are any. */
  method GiveUp(world: World, batch: seq<Key>) returns (outcome: Delivery)
    requires world.Consistent() && batch != [] && |batch| <= world.c.batchSize
    requires if world.c.hasDeadLetters then world.sys.run.DeadLettering? && batch == world.sys.run.page.keys
             else world.sys.run.Stopped?
    modifies world
    ensures world.Consistent() && Leads(world.c, old(world.sys), world.sys, false) && world.store == old(world.store)
    ensures if outcome.Aborted? then world.sys.run.Stopped?
            else world.c.hasDeadLetters && world.sys.run == Acked(old(world.sys.run.state), old(world.sys.run.page))
    ensures !outcome.Delivered? && (outcome.DeadLettered? ==> TakenAs(world.c, world.sys, batch, true))
    ensures world.answers == old(world.answers)
    ensures world.faults == old(world.faults) + if outcome.Aborted? && world.c.hasDeadLetters then 1 else 0
  {
    LeadsNowhere(world.c, world.sys);
    if !world.c.hasDeadLetters {
      return Aborted;
    }
    var written := world.DeadLetterWrite(batch);
    outcome := if written then DeadLettered else Aborted;
  }

  /** Why a delivery ended as it did: by the sink's last answer, or by something else going wrong. */
  predicate Explains(c: Config, told: seq<SinkAnswer>, outcome: Delivery, otherFault: bool) {
    match outcome
    case Delivered => told != [] && told[|told| - 1].Accepted?
    case DeadLettered => told != [] && told[|told| - 1].Terminal?
    case Aborted =>
      || otherFault
      || (|told| == c.maxRetries + 1 && told[|told| - 1].Transient?)
      || (told != [] && told[|told| - 1].Terminal? && !c.hasDeadLetters)
  }

  /** One attempt, unless the signal has aborted. */
  method Attempt(world: World, ghost batch: seq<Key>) returns (answer: Option<SinkAnswer>)
    requires world.Consistent() && world.sys.run.Delivering?
    requires batch == world.sys.run.page.keys && batch != [] && |batch| <= world.c.batchSize
    modifies world
    ensures world.Consistent() && Leads(world.c, old(world.sys), world.sys, false) && world.store == old(world.store)
    ensures answer.None? ==>
      world.sys.run.Stopped? && world.faults == old(world.faults) + 1 && world.answers == old(world.answers)
    ensures answer.Some? ==>
      && world.answers == old(world.answers) + [answer.value]
      && world.faults == old(world.faults) + (if answer.value.Accepted? then 0 else 1)
      && world.sys.run == match answer.value
           case Accepted => Acked(old(world.sys.run.state), old(world.sys.run.page))
           case Terminal =>
             if world.c.hasDeadLetters then DeadLettering(old(world.sys.run.state), old(world.sys.run.page))
             else Stopped
           case Transient =>
             if old(world.sys.run.attempt) > world.c.maxRetries then Stopped
             else Delivering(old(world.sys.run.state), old(world.sys.run.page), old(world.sys.run.attempt) + 1)
    ensures answer == Some(Accepted) ==> TakenAs(world.c, world.sys, batch, false)
  {
    var aborted := world.Fails();
    if aborted {
      world.Stop();
      answer := None;
    } else {
      var given := world.SinkDeliver();
      answer := Some(given);
    }
  }

  /** `deliver`: retries until an answer is final.  At most `maxRetries + 1` attempts; it gives
      up only when they are used up, on a terminal answer without dead letters, or when
      something other than the sink went wrong. */
  method DeliverPage(world: World, batch: seq<Key>)
    returns (outcome: Delivery, attempts: nat, ghost told: seq<SinkAnswer>)
    requires world.Consistent() && world.sys.run.Delivering? && world.sys.run.attempt == 1
    requires batch == world.sys.run.page.keys && batch != [] && |batch| <= world.c.batchSize
    modifies world
    ensures world.Consistent() && Leads(world.c, old(world.sys), world.sys, false) && world.store == old(world.store)
    ensures 0 <= attempts <= world.c.maxRetries + 1
    ensures if outcome.Aborted? then world.sys.run.Stopped?
            else world.sys.run == Acked(old(world.sys.run.state), old(world.sys.run.page))
    ensures !outcome.Aborted? ==> TakenAs(world.c, world.sys, batch, outcome.DeadLettered?)
    ensures world.answers == old(world.answers) + told && |told| == attempts
    ensures forall i :: 0 <= i < attempts - 1 ==> told[i].Transient?
    ensures Explains(world.c, told, outcome, world.faults == old(world.faults) + attempts + 1)
    ensures world.faults >= old(world.faults) && (outcome.Aborted? ==> world.faults > old(world.faults))
  {
    ghost var entered, faults := world.sys, world.faults;
    LeadsNowhere(world.c, world.sys);
    attempts, told := 0, [];
    while true
      invariant world.Consistent() && Leads(world.c, entered, world.sys, false) && world.store == old(world.store)
      invariant world.sys.run == Delivering(entered.run.state, entered.run.page, attempts + 1)
      invariant attempts <= world.c.maxRetries
      invariant world.answers == old(world.answers) + told && |told| == attempts
      invariant forall i :: 0 <= i < attempts ==> told[i].Transient?
      invariant world.faults == faults + attempts
      decreases world.c.maxRetries - attempts
    {
      ghost var before := world.sys;
      var given := Attempt(world, batch);
      LeadsTo(world.c, entered, before, world.sys, false, false);
      if given.None? {
        return Aborted, attempts, told;
      }
      var answer := given.value;
      attempts, told := attempts + 1, told + [answer];
      if answer.Accepted? {
        return Delivered, attempts, told;
      }
      if answer.Terminal? {
        ghost var terminal := world.sys;
        outcome := GiveUp(world, batch);
        LeadsTo(world.c, entered, terminal, world.sys, false, false);
        return;
      }
      if attempts > world.c.maxRetries {
        return Aborted, attempts, told;
      }
    }
  }

  /** Redaction may throw before anything is delivered. */
  method RedactAndDeliver(world: World, batch: seq<Key>) returns (outcome: Delivery)
    requires world.Consistent() && world.sys.run.Delivering? && world.sys.run.attempt == 1
    requires batch == world.sys.run.page.keys && batch != [] && |batch| <= world.c.batchSize
    modifies world
    ensures world.Consistent() && Leads(world.c, old(world.sys), world.sys, false) && world.store == old(world.store)
    ensures if outcome.Aborted? then world.sys.run.Stopped?
            else world.sys.run == Acked(old(world.sys.run.state), old(world.sys.run.page))
    ensures !outcome.Aborted? ==> TakenAs(world.c, world.sys, batch, outcome.DeadLettered?)
    ensures world.faults >= old(world.faults) && (outcome.Aborted? ==> world.faults > old(world.faults))
  {
    var redactionThrows := world.Fails();
    if redactionThrows {
      world.Stop();
      outcome := Aborted;
    } else {
      var attempts: nat;
      ghost var told;
      outcome, attempts, told := DeliverPage(world, batch);
    }
  }

  /** A page is done once its checkpoint is saved: `runOnce`'s loop body. */
  method ProcessPage(world: World, state: StreamState, page: ScanPage, scan: PageScan)
    returns (ok: bool, outcome: Delivery, next: StreamState)
    requires scan.world == world && world.Consistent() && scan.OnPage(state, page)
    modifies world
    ensures world.Consistent() && Leads(world.c, old(world.sys), world.sys, false)
    ensures !ok ==> world.sys.run.Stopped?
    ensures ok ==>
      && next == AckedState(Page(page.keys, scan.phase == Paging, scan.highWatermark))
      && world.store == Some(next)
      && world.sys.run == (if scan.phase == Paging then Scanning(next, scan.highWatermark) else Finished(next, true))
      && (forall k :: k in page.keys ==> k in world.sys.accepted)
      && !outcome.Aborted? && TakenAs(world.c, world.sys, page.keys, outcome.DeadLettered?)
    ensures world.faults >= old(world.faults) && (!ok ==> world.faults > old(world.faults))
  {
    ghost var entered := world.sys;
    LeadsNowhere(world.c, world.sys);
    outcome, next := Aborted, state;
    if next.highWatermark.None? {
      next := StreamState(next.checkpoint, page.highWatermark);
      ok := world.Save(next);
      if !ok {
        return;
      }
    }
    ghost var saved := world.sys;
    outcome := RedactAndDeliver(world, page.keys);
    LeadsTo(world.c, entered, saved, world.sys, false, false);
    if outcome.Aborted? {
      ok := false;
      return;
    }
    ghost var acked := world.sys;
    assert TakenAs(world.c, acked, page.keys, outcome.DeadLettered?);
    next := StreamState(page.checkpoint, if page.checkpoint == page.highWatermark then None else page.highWatermark);
    ok := world.Save(next);
    LeadsGrows(world.c, acked, world.sys, false);
    LeadsTo(world.c, entered, acked, world.sys, false, false);
  }

  /** The loop's running result. */
  datatype Tally = Tally(state: StreamState, delivered: nat, deadLettered: nat, batches: nat)

  /** Keys acknowledged since `entered`: in order, taken, behind the checkpoint now. */
  ghost predicate AckedSince(entered: Sys, now: Sys, acked: seq<Key>) {
    && Ordered(acked)
    && (forall k :: k in acked ==> k in now.accepted && Passed(now, k) && !Passed(entered, k))
  }

  /** An acknowledged page, and whether it is a dead letter. */
  datatype Batch = Batch(keys: seq<Key>, buried: bool)

  function AllKeys(batches: seq<Batch>): seq<Key> {
    if batches == [] then [] else AllKeys(batches[..|batches| - 1]) + batches[|batches| - 1].keys
  }

  /** The keys the sink has taken, or the keys that went to the dead letters. */
  function Taken(batches: seq<Batch>, buried: bool): seq<Key> {
    if batches == [] then []
    else
      var last := batches[|batches| - 1];
      Taken(batches[..|batches| - 1], buried) + if last.buried == buried then last.keys else []
  }

  ghost predicate AllTaken(c: Config, s: Sys, batches: seq<Batch>) {
    forall i :: 0 <= i < |batches| ==> TakenAs(c, s, batches[i].keys, batches[i].buried)
  }

  ghost predicate SinceThen(c: Config, entered: Sys, now: Sys, batches: seq<Batch>) {
    AckedSince(entered, now, AllKeys(batches)) && AllTaken(c, now, batches)
  }

  ghost predicate TallyInv(c: Config, entered: Sys, now: Sys, tally: Tally, batches: seq<Batch>) {
    var acked := AllKeys(batches);
    && AckedSince(entered, now, acked)
    && AllTaken(c, now, batches)
    && tally.state == StoredState(now)
    && tally.delivered == |Taken(batches, false)|
    && tally.deadLettered == |Taken(batches, true)|
    && tally.batches == |batches|
    && (batches == [] ==> Checkpoint(now) == Checkpoint(entered))
    && (batches != [] ==> acked != [] && Checkpoint(now) == Some(Last(acked)))
  }

  lemma BatchPush(batches: seq<Batch>, b: Batch)
    ensures AllKeys(batches + [b]) == AllKeys(batches) + b.keys
    ensures Taken(batches + [b], b.buried) == Taken(batches, b.buried) + b.keys
    ensures Taken(batches + [b], !b.buried) == Taken(batches, !b.buried)
  {
    assert (batches + [b])[..|batches|] == batches;
  }

  /** Every acknowledged key is counted once. */
  lemma {:induction false} TakenSplit(batches: seq<Batch>)
    ensures |AllKeys(batches)| == |Taken(batches, false)| + |Taken(batches, true)|
    ensures multiset(AllKeys(batches)) == multiset(Taken(batches, false)) + multiset(Taken(batches, true))
  {
    if batches != [] { TakenSplit(batches[..|batches| - 1]); }
  }

  /** Without a dead-letter store nothing is dead-lettered. */
  lemma {:induction false} NothingBuried(c: Config, s: Sys, batches: seq<Batch>)
    requires AllTaken(c, s, batches) && !c.hasDeadLetters
    ensures Taken(batches, true) == [] && Taken(batches, false) == AllKeys(batches)
  {
    if batches != [] {
      var n := |batches| - 1;
      assert forall i :: 0 <= i < n ==> batches[..n][i] == batches[i];
      NothingBuried(c, s, batches[..n]);
      assert TakenAs(c, s, batches[n].keys, batches[n].buried);
    }
  }

  /** What the sink is said to have, it has. */
  lemma {:induction false} SunkIsDelivered(c: Config, s: Sys, batches: seq<Batch>)
    requires AllTaken(c, s, batches)
    ensures forall k :: k in Taken(batches, false) ==> k in s.delivered
  {
    if batches != [] {
      var n := |batches| - 1;
      assert forall i :: 0 <= i < n ==> batches[..n][i] == batches[i];
      SunkIsDelivered(c, s, batches[..n]);
      assert TakenAs(c, s, batches[n].keys, batches[n].buried);
    }
  }

  lemma AckedLater(c: Config, entered: Sys, s: Sys, t: Sys, batches: seq<Batch>)
    requires DrainInv(c, s) && Leads(c, s, t, false)
    requires SinceThen(c, entered, s, batches)
    ensures SinceThen(c, entered, t, batches)
  {
    LeadsGrows(c, s, t, false);
    forall i | 0 <= i < |batches| ensures TakenAs(c, t, batches[i].keys, batches[i].buried) {
      assert TakenAs(c, s, batches[i].keys, batches[i].buried);
    }
  }

  /** One more page: its keys lie beyond everything acknowledged before. */
  lemma AckedPage(entered: Sys, s: Sys, t: Sys, acked: seq<Key>, keys: seq<Key>)
    requires AckedSince(entered, s, acked) && AckedSince(entered, t, acked)
    requires NotBefore(Checkpoint(entered), Checkpoint(s))
    requires acked != [] ==> Checkpoint(s) == Some(Last(acked))
    requires keys != [] && Ordered(keys)
    requires forall k :: k in keys ==> !Passed(s, k) && Passed(t, k) && k in t.accepted
    ensures AckedSince(entered, t, acked + keys)
  {
    var all := acked + keys;
    forall i, j | 0 <= i < j < |all| ensures Before(all[i], all[j]) {
      if i < |acked| <= j {
        assert all[j] == keys[j - |acked|] && keys[j - |acked|] in keys;
        assert i == |acked| - 1 || Before(acked[i], Last(acked));
      }
    }
  }

  datatype Status = Again | End | Fail

  ghost function PhaseRank(scan: PageScan): nat
    reads scan
  {
    match scan.phase
    case Unstarted => 2
    case Paging => 1
    case Exhausted => 0
  }

  /** The run stands between two pages. */
  ghost predicate BetweenPages(world: World, scan: PageScan, entered: Sys, tally: Tally, batches: seq<Batch>)
    reads world, scan
  {
    && scan.world == world
    && world.Consistent() && scan.InStep()
    && TallyInv(world.c, entered, world.sys, tally, batches)
    && NotBefore(Checkpoint(entered), Checkpoint(world.sys))
    && (tally.batches > 0 ==> scan.phase != Unstarted)
    && (scan.phase == Exhausted && tally.batches > 0 ==> tally.state.highWatermark.None?)
    && (scan.phase == Paging ==> tally.batches > 0)
  }

  /** A page has been yielded and nothing has been done with it yet. */
  ghost predicate OnYield(world: World, scan: PageScan, page: ScanPage, entered: Sys, tally: Tally, batches: seq<Batch>)
    reads world, scan
  {
    && scan.world == world
    && world.Consistent() && scan.OnPage(tally.state, page) && scan.Bounds() && scan.phase != Unstarted
    && TallyInv(world.c, entered, world.sys, tally, batches)
    && NotBefore(Checkpoint(entered), Checkpoint(world.sys))
  }

  /** Delivery, checkpoint and counting of one page. */
  method Complete(
    world: World, scan: PageScan, page: ScanPage, tally: Tally, ghost entered: Sys, ghost batches: seq<Batch>)
    returns (ok: bool, tally': Tally, ghost batches': seq<Batch>)
    requires OnYield(world, scan, page, entered, tally, batches)
    modifies world
    ensures world.Consistent() && Leads(world.c, old(world.sys), world.sys, false)
    ensures !ok ==> world.sys.run.Stopped? && SinceThen(world.c, entered, world.sys, batches')
    ensures ok ==> BetweenPages(world, scan, entered, tally', batches')
    ensures world.faults >= old(world.faults) && (!ok ==> world.faults > old(world.faults))
  {
    ghost var yielded := world.sys;
    tally', batches' := tally, batches;
    var keys := page.keys;
    PageIsNew(world.c, yielded, yielded.run.page);
    var outcome: Delivery, state: StreamState;
    ok, outcome, state := ProcessPage(world, tally.state, page, scan);
    AckedLater(world.c, entered, yielded, world.sys, batches);
    if !ok {
      return;
    }
    LeadsGrows(world.c, yielded, world.sys, false);
    PagePassed(keys, world.sys);
    batches' := batches + [Batch(keys, outcome.DeadLettered?)];
    tally' := if outcome.DeadLettered?
      then Tally(state, tally.delivered, tally.deadLettered + |keys|, tally.batches + 1)
      else Tally(state, tally.delivered + |keys|, tally.deadLettered, tally.batches + 1);
    assert SinceThen(world.c, entered, world.sys, batches);
    TallyPage(world.c, entered, yielded, world.sys, tally, tally', batches, Batch(keys, outcome.DeadLettered?));
  }

  lemma PageIsNew(c: Config, s: Sys, page: Page)
    requires Inv(c, s) && InFlight(s.run) && s.run.page == page
    ensures Ordered(page.keys) && forall k :: k in page.keys ==> !Passed(s, k)
  {
    assert PageInv(c, s, s.run.state, page);
  }

  /** The tally of one more page. */
  lemma TallyPage(c: Config, entered: Sys, s: Sys, t: Sys, tally: Tally, tally': Tally, batches: seq<Batch>, b: Batch)
    requires TallyInv(c, entered, s, tally, batches) && SinceThen(c, entered, t, batches)
    requires NotBefore(Checkpoint(entered), Checkpoint(s))
    requires TakenAs(c, t, b.keys, b.buried) && Ordered(b.keys)
    requires forall k :: k in b.keys ==> !Passed(s, k) && Passed(t, k) && k in t.accepted
    requires tally'.state == StoredState(t) && Checkpoint(t) == Some(Last(b.keys))
    requires tally'.batches == tally.batches + 1
    requires tally'.delivered == tally.delivered + if b.buried then 0 else |b.keys|
    requires tally'.deadLettered == tally.deadLettered + if b.buried then |b.keys| else 0
    ensures TallyInv(c, entered, t, tally', batches + [b])
  {
    BatchPush(batches, b);
    AckedPage(entered, s, t, AllKeys(batches), b.keys);
    forall i | 0 <= i <= |batches| ensures TakenAs(c, t, (batches + [b])[i].keys, (batches + [b])[i].buried) {
      assert i < |batches| ==> (batches + [b])[i] == batches[i];
    }
  }

  lemma PagePassed(keys: seq<Key>, s: Sys)
    requires keys != [] && Checkpoint(s) == Some(Last(keys))
    requires Ordered(keys)
    ensures forall k :: k in keys ==> Passed(s, k)
  {
    forall k | k in keys ensures Passed(s, k) {
      var i :| 0 <= i < |keys| && keys[i] == k;
      assert i == |keys| - 1 || Before(keys[i], Last(keys));
    }
  }

  /** Asks the scan for its next page. */
  method Resume(world: World, scan: PageScan, tally: Tally, ghost entered: Sys, ghost batches: seq<Batch>)
    returns (ok: bool, page: Option<ScanPage>)
    requires BetweenPages(world, scan, entered, tally, batches)
    modifies world, scan
    ensures world.Consistent() && Leads(world.c, old(world.sys), world.sys, false)
    ensures !ok ==> world.sys.run.Stopped? && SinceThen(world.c, entered, world.sys, batches)
    ensures world.faults == old(world.faults) + if ok then 0 else 1
    ensures ok && page.None? ==> BetweenPages(world, scan, entered, tally, batches) && world.sys.run.Finished?
    ensures ok && page.Some? && page.value.keys == [] ==>
      && BetweenPages(world, scan, entered, tally, batches)
      && page.value.checkpoint.None? && PhaseRank(scan) < old(PhaseRank(scan))
    ensures ok && page.Some? && page.value.keys != [] ==>
      && OnYield(world, scan, page.value, entered, tally, batches) && page.value.checkpoint.Some?
      && (|| PhaseRank(scan) < old(PhaseRank(scan))
          || (scan.phase == old(scan.phase) == Paging && 0 <= scan.KeysLeft() < old(scan.KeysLeft())))
  {
    ghost var before := world.sys;
    ok, page := scan.Next();
    AckedLater(world.c, entered, before, world.sys, batches);
    if ok && page.None? && before.run.Scanning? {
      LeadsToWatermark(world.c, before, world.sys, before.run.highWatermark);
    }
  }

  /** One turn of `runOnce`'s loop. */
  method Turn(world: World, scan: PageScan, tally: Tally, ghost entered: Sys, ghost batches: seq<Batch>)
    returns (status: Status, tally': Tally, ghost batches': seq<Batch>)
    requires BetweenPages(world, scan, entered, tally, batches)
    modifies world, scan
    ensures world.Consistent() && Leads(world.c, old(world.sys), world.sys, false)
    ensures status.Fail? ==> world.sys.run.Stopped? && SinceThen(world.c, entered, world.sys, batches')
    ensures !status.Fail? ==> BetweenPages(world, scan, entered, tally', batches')
    ensures status.End? ==> world.sys.run.Finished?
    ensures world.faults >= old(world.faults) && (status.Fail? ==> world.faults > old(world.faults))
    ensures status.Again? ==>
      || PhaseRank(scan) < old(PhaseRank(scan))
      || (scan.phase == old(scan.phase) == Paging && 0 <= scan.KeysLeft() < old(scan.KeysLeft()))
  {
    ghost var before := world.sys;
    status, tally', batches' := Fail, tally, batches;
    var ok, page := Resume(world, scan, tally, entered, batches);
    if !ok {
      return;
    }
    if page.None? {
      status := End;
      return;
    }
    ghost var yielded := world.sys;
    var aborted := world.Fails();
    if aborted {
      world.Stop();
      LeadsTo(world.c, before, yielded, world.sys, false, false);
      AckedLater(world.c, entered, yielded, world.sys, batches);
      return;
    }
    if page.value.keys == [] || page.value.checkpoint.None? {
      status := Again;
      return;
    }
    ok, tally', batches' := Complete(world, scan, page.value, tally, entered, batches);
    LeadsTo(world.c, before, yielded, world.sys, false, false);
    if ok {
      status := Again;
    }
  }

  /** `runOnce`'s beginning: load, and drop a watermark that the checkpoint has reached. */
  method StartState(world: World) returns (ok: bool, state: StreamState)
    requires world.Consistent() && (world.sys.run.Stopped? || world.sys.run.Finished?)
    modifies world
    ensures world.Consistent() && Leads(world.c, old(world.sys), world.sys, true)
    ensures if ok then world.sys.run == Ready(state) && state == StoredState(world.sys) else world.sys.run.Stopped?
    ensures ok ==> Checkpoint(world.sys) == old(Checkpoint(world.sys))
    ensures world.faults == old(world.faults) + if ok then 0 else 1
  {
    ghost var entered := world.sys;
    var loaded := world.Load();
    state := if loaded.Some? then loaded.value else NO_STATE;
    ok := true;
    if state.checkpoint.Some? && state.checkpoint == state.highWatermark {
      ghost var ready := world.sys;
      state := StreamState(state.checkpoint, None);
      ok := world.Save(state);
      LeadsTo(world.c, entered, ready, world.sys, true, false);
    }
  }

  /** The loop over the pages. */
  method RunPages(world: World, scan: PageScan, state: StreamState)
    returns (ok: bool, tally: Tally, ghost batches: seq<Batch>)
    requires BetweenPages(world, scan, world.sys, Tally(state, 0, 0, 0), [])
    modifies world, scan
    ensures world.Consistent() && Leads(world.c, old(world.sys), world.sys, false)
    ensures if ok then BetweenPages(world, scan, old(world.sys), tally, batches) && world.sys.run.Finished?
            else world.sys.run.Stopped? && SinceThen(world.c, old(world.sys), world.sys, batches)
    ensures world.faults >= old(world.faults) && (!ok ==> world.faults > old(world.faults))
  {
    ghost var entered := world.sys;
    LeadsNowhere(world.c, world.sys);
    batches := [];
    tally := Tally(state, 0, 0, 0);
    var status := Again;
    while status.Again?
      invariant world.Consistent() && Leads(world.c, entered, world.sys, false)
      invariant !status.Fail? ==> BetweenPages(world, scan, entered, tally, batches)
      invariant status.End? ==> world.sys.run.Finished?
      invariant world.faults >= old(world.faults) && (status.Fail? ==> world.faults > old(world.faults))
      invariant status.Fail? ==> world.sys.run.Stopped? && SinceThen(world.c, entered, world.sys, batches)
      decreases status.Again?, PhaseRank(scan), if scan.phase == Paging then scan.KeysLeft() else 0
    {
      ghost var before := world.sys;
      status, tally, batches := Turn(world, scan, tally, entered, batches);
      LeadsTo(world.c, entered, before, world.sys, false, false);
    }
    ok := status.End?;
  }

  /** What was acknowledged since a run began was acknowledged since before it. */
  lemma AckedFromEntry(entered: Sys, begun: Sys, now: Sys, acked: seq<Key>)
    requires AckedSince(begun, now, acked) && Checkpoint(begun) == Checkpoint(entered)
    ensures AckedSince(entered, now, acked)
  {
  }

  /** What a result says: `delivered` entries the sink has, `deadLettered` ones that went to the
      dead letters, no others, in so many pages. */
  ghost predicate Counted(c: Config, s: Sys, result: RunResult, batches: seq<Batch>) {
    && result.delivered == |Taken(batches, false)| && result.deadLettered == |Taken(batches, true)|
    && result.batches == |batches|
    && (forall k :: k in Taken(batches, false) ==> k in s.delivered)
    && |AllKeys(batches)| == result.delivered + result.deadLettered
    && (!c.hasDeadLetters ==> result.deadLettered == 0)
  }

  lemma TallyIsCounted(c: Config, s: Sys, result: RunResult, batches: seq<Batch>)
    requires AllTaken(c, s, batches)
    requires result.delivered == |Taken(batches, false)| && result.deadLettered == |Taken(batches, true)|
    requires result.batches == |batches|
    ensures Counted(c, s, result, batches)
  {
    TakenSplit(batches);
    SunkIsDelivered(c, s, batches);
    if !c.hasDeadLetters { NothingBuried(c, s, batches); }
  }

  /** `runOnce`.  `batches` lists the pages this run got acknowledged; it ends without a result
      only when something went wrong. */
  method RunOnce(world: World) returns (result: Option<RunResult>, ghost batches: seq<Batch>)
    requires world.Consistent() && (world.sys.run.Stopped? || world.sys.run.Finished?)
    modifies world
    ensures world.Consistent() && Leads(world.c, old(world.sys), world.sys, true)
    ensures SinceThen(world.c, old(world.sys), world.sys, batches)
    ensures result.None? ==> world.sys.run.Stopped? && world.faults > old(world.faults)
    ensures result.Some? ==>
      && world.sys.run.Finished?
      && result.value.checkpoint == Checkpoint(world.sys)
      && Counted(world.c, world.sys, result.value, batches)
      && (batches == [] ==> Checkpoint(world.sys) == old(Checkpoint(world.sys)))
      && (batches != [] ==>
            AllKeys(batches) != [] && world.store == Some(StreamState(Some(Last(AllKeys(batches))), None)))
  {
    batches := [];
    result := None;
    ghost var entered := world.sys;
    var ok, state := StartState(world);
    if !ok {
      return;
    }
    ghost var begun := world.sys;
    var scan := new PageScan(world, state.checkpoint, state.highWatermark);
    var tally: Tally;
    ok, tally, batches := RunPages(world, scan, state);
    LeadsTo(world.c, entered, begun, world.sys, true, false);
    AckedFromEntry(entered, begun, world.sys, AllKeys(batches));
    if ok {
      result := Some(RunResult(tally.delivered, tally.deadLettered, tally.batches, tally.state.checkpoint));
      TallyIsCounted(world.c, world.sys, result.value, batches);
    }
  }
}
