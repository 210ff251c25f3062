/** What every history of the durable stream guarantees. */
module StreamTheorems {
  import opened Keys
  import opened Pages
  import opened Prelude
  import opened Rows
  import opened StreamProtocol

  // ----- at least once -----

  /** Nothing stored, nothing delivered, any rows. */
  ghost predicate Fresh(c: Config, s: Sys) {
    && ValidConfig(c) && s.store.None? && s.run.Stopped?
    && s.accepted == {} && s.delivered == {} && s.letters == map[] && s.late == {}
  }

  /** Some event of the history inserted `k` behind the scan position of that moment. */
  ghost predicate InsertedBehind(c: Config, s: Sys, es: seq<Event>, k: Key)
    requires Valid(c, s, es)
    decreases |es|
  {
    es != [] &&
    ((es[0].Insert? && es[0].key == k && Behind(s, k)) || InsertedBehind(c, Next(c, s, es[0]), es[1..], k))
  }

  lemma {:induction false} ExecKeepsInv(c: Config, s: Sys, es: seq<Event>)
    requires Inv(c, s) && Valid(c, s, es)
    ensures Inv(c, Exec(c, s, es))
    ensures NotBefore(Checkpoint(s), Checkpoint(Exec(c, s, es)))
    decreases |es|
  {
    if es != [] {
      StepKeepsInv(c, s, es[0]);
      ExecKeepsInv(c, Next(c, s, es[0]), es[1..]);
    }
  }

  lemma {:induction false} LateOrigin(c: Config, s: Sys, es: seq<Event>, k: Key)
    requires Valid(c, s, es) && k in Exec(c, s, es).late && k !in s.late
    ensures InsertedBehind(c, s, es, k)
    decreases |es|
  {
    if es != [] && !(es[0].Insert? && es[0].key == k && Behind(s, k)) {
      LateOrigin(c, Next(c, s, es[0]), es[1..], k);
    }
  }

  /** At least once, over every history of inserts, removals, deliveries, lost
      acknowledgements, failed saves, crashes and restarts: a matching row at or before the
      stored checkpoint is in a batch that the sink or the dead-letter store took, unless it
      counts as late, and then some step inserted it behind the scan position.  The
      checkpoint stays at or before the stored watermark. */
  lemma AtLeastOnce(c: Config, s: Sys, es: seq<Event>, k: Key)
    requires Fresh(c, s) && Valid(c, s, es)
    ensures var t := Exec(c, s, es);
      && StateInv(StoredState(t))
      && (k in t.rows && MatchesScan(c.filter, k, t.rows[k]) && Passed(t, k) ==>
            k in t.accepted || (k in t.late && InsertedBehind(c, s, es, k)))
  {
    ExecKeepsInv(c, s, es);
    if k in Exec(c, s, es).late {
      LateOrigin(c, s, es, k);
    }
  }

  /** No key is inserted twice; `used` are those that were there before. */
  ghost predicate NewKeys(es: seq<Event>, used: set<Key>)
    decreases |es|
  {
    es == [] ||
    var e := es[0];
    (e.Insert? ==> e.key !in used) && NewKeys(es[1..], Uses(used, e))
  }

  function Uses(used: set<Key>, e: Event): set<Key> {
    if e.Insert? then used + {e.key} else used
  }

  /** What counts as late was not accepted and is not about to be. */
  ghost predicate MissInv(s: Sys, used: set<Key>) {
    && (forall k :: k in s.rows || k in s.accepted ==> k in used)
    && (forall k :: k in s.late ==> k !in s.accepted)
    && (InFlight(s.run) ==> forall k :: k in s.run.page.keys ==> k in used && k !in s.late)
  }

  lemma PageIsNotLate(c: Config, s: Sys, keys: seq<Key>, used: set<Key>)
    requires Inv(c, s) && MissInv(s, used) && Enabled(c, s, QueryPage(keys))
    ensures MissInv(Next(c, s, QueryPage(keys)), used)
  {
    var r := Visible(c, s.rows, s.run.state.checkpoint, Some(s.run.highWatermark));
    forall k | k in PageOf(c, keys, s.run.highWatermark).keys ensures k in used && k !in s.late {
      assert k in keys && k in r;
      assert !Behind(s, k);
    }
  }

  lemma MissStep(c: Config, s: Sys, e: Event, used: set<Key>)
    requires Inv(c, s) && MissInv(s, used) && Enabled(c, s, e) && (e.Insert? ==> e.key !in used)
    ensures MissInv(Next(c, s, e), Uses(used, e))
  {
    if e.QueryPage? { PageIsNotLate(c, s, e.keys, used); }
  }

  lemma {:induction false} ExecKeepsMissInv(c: Config, s: Sys, es: seq<Event>, used: set<Key>)
    requires Inv(c, s) && MissInv(s, used) && Valid(c, s, es) && NewKeys(es, used)
    ensures forall k :: k in Exec(c, s, es).late ==> k !in Exec(c, s, es).accepted
    decreases |es|
  {
    if es != [] {
      StepKeepsInv(c, s, es[0]);
      MissStep(c, s, es[0], used);
      ExecKeepsMissInv(c, Next(c, s, es[0]), es[1..], Uses(used, es[0]));
    }
  }

  /** Exactly what is missed: over every such history without reused keys, a matching row at or
      before the checkpoint was taken if and only if it does not count as late. */
  lemma MissedExactly(c: Config, s: Sys, es: seq<Event>, k: Key)
    requires Fresh(c, s) && Valid(c, s, es) && NewKeys(es, s.rows.Keys)
    ensures var t := Exec(c, s, es);
      k in t.rows && MatchesScan(c.filter, k, t.rows[k]) && Passed(t, k) ==> (k in t.accepted <==> k !in t.late)
  {
    AtLeastOnce(c, s, es, k);
    ExecKeepsMissInv(c, s, es, s.rows.Keys);
  }

  /** The checkpoint never moves back, from any reachable state on. */
  lemma CheckpointMonotone(c: Config, s: Sys, before: seq<Event>, more: seq<Event>)
    requires Fresh(c, s) && Valid(c, s, before) && Valid(c, Exec(c, s, before), more)
    ensures NotBefore(Checkpoint(Exec(c, s, before)), Checkpoint(Exec(c, Exec(c, s, before), more)))
  {
    ExecKeepsInv(c, s, before);
    ExecKeepsInv(c, Exec(c, s, before), more);
  }

  // ----- the exception is real -----

  const ANY := Filter(None, None, None, None, None, None, None, None, None, None)
  const CONFIG := Config(ANY, 1, 0, false)
  const FIRST := Key(1, 0)
  const SECOND := Key(2, 0)
  const ROW := Entry(None, None, "", None, "", None, None, "", None, None, "")
  const EMPTY_SYS := Sys(map[], None, {}, {}, map[], {}, Stopped)
  const ROWS: Table := map[SECOND := ROW]
  const PAGE := Page([SECOND], false, SECOND)
  const BOUNDED := StreamState(None, Some(SECOND))
  const DONE := StreamState(Some(SECOND), None)
  const SCANNED := Sys(ROWS, None, {}, {}, map[], {}, Yielded(NO_STATE, PAGE))
  const DELIVERED := Sys(ROWS, Some(DONE), {SECOND}, {SECOND}, map[], {}, Finished(DONE, true))

  const COMMIT_LATE: seq<Event> := [Insert(FIRST, ROW)]
  const DELIVER_SECOND: seq<Event> :=
    [SaveWatermark(true, true), Deliver(true, Accepted), SaveCheckpoint(true, true)]
  const SCAN_SECOND: seq<Event> :=
    [Insert(SECOND, ROW), Start, QueryWatermark(Some(SECOND)), QueryPage([SECOND])]

  lemma NothingLate(c: Config, s: Sys, e: Event, t: Sys)
    requires Apply(c, s, e) == t && t.late == {}
    ensures Next(c, s, e) == t
  {
    assert (set k | k in t.late && Behind(t, k)) == {};
  }

  lemma {:induction false} Chain(c: Config, s: Sys, es: seq<Event>, fs: seq<Event>)
    requires Valid(c, s, es) && Valid(c, Exec(c, s, es), fs)
    ensures Valid(c, s, es + fs) && Exec(c, s, es + fs) == Exec(c, Exec(c, s, es), fs)
    decreases |es|
  {
    if es == [] {
      assert es + fs == fs;
    } else {
      Chain(c, Next(c, s, es[0]), es[1..], fs);
      assert (es + fs)[1..] == es[1..] + fs && (es + fs)[0] == es[0];
    }
  }

  lemma One(c: Config, s: Sys, e: Event, t: Sys)
    requires Enabled(c, s, e) && Next(c, s, e) == t
    ensures Valid(c, s, [e]) && Exec(c, s, [e]) == t
  {
    assert [e][1..] == [];
  }

  lemma DeliverSecond()
    ensures Valid(CONFIG, SCANNED, DELIVER_SECOND) && Exec(CONFIG, SCANNED, DELIVER_SECOND) == DELIVERED
  {
    var es := DELIVER_SECOND;
    var delivering := Sys(ROWS, Some(BOUNDED), {}, {}, map[], {}, Delivering(BOUNDED, PAGE, 1));
    var acked := Sys(ROWS, Some(BOUNDED), {SECOND}, {SECOND}, map[], {}, Acked(BOUNDED, PAGE));
    assert KeysOf(PAGE) == {SECOND};
    NothingLate(CONFIG, SCANNED, es[0], delivering);
    One(CONFIG, SCANNED, es[0], delivering);
    NothingLate(CONFIG, delivering, es[1], acked);
    One(CONFIG, delivering, es[1], acked);
    Chain(CONFIG, SCANNED, [es[0]], [es[1]]);
    NothingLate(CONFIG, acked, es[2], DELIVERED);
    One(CONFIG, acked, es[2], DELIVERED);
    Chain(CONFIG, SCANNED, [es[0]] + [es[1]], [es[2]]);
    assert es == [es[0]] + [es[1]] + [es[2]];
  }

  lemma ScanQueries(scanning: Sys)
    requires scanning == Sys(ROWS, None, {}, {}, map[], {}, Scanning(NO_STATE, SECOND))
    ensures Enabled(CONFIG, scanning.(run := Ready(NO_STATE)), QueryWatermark(Some(SECOND)))
    ensures Enabled(CONFIG, scanning, QueryPage([SECOND]))
  {
    assert Visible(CONFIG, ROWS, None, None) == {SECOND};
    assert Visible(CONFIG, ROWS, None, Some(SECOND)) == {SECOND};
    assert IsPage(KeyOrder(), [SECOND], {SECOND}, 2);
  }

  lemma ScanSecond()
    ensures Valid(CONFIG, EMPTY_SYS, SCAN_SECOND) && Exec(CONFIG, EMPTY_SYS, SCAN_SECOND) == SCANNED
  {
    var es := SCAN_SECOND;
    var stopped := Sys(ROWS, None, {}, {}, map[], {}, Stopped);
    var ready := stopped.(run := Ready(NO_STATE));
    var scanning := stopped.(run := Scanning(NO_STATE, SECOND));
    ScanQueries(scanning);
    NothingLate(CONFIG, EMPTY_SYS, es[0], stopped);
    One(CONFIG, EMPTY_SYS, es[0], stopped);
    NothingLate(CONFIG, stopped, es[1], ready);
    One(CONFIG, stopped, es[1], ready);
    Chain(CONFIG, EMPTY_SYS, [es[0]], [es[1]]);
    NothingLate(CONFIG, ready, es[2], scanning);
    One(CONFIG, ready, es[2], scanning);
    Chain(CONFIG, EMPTY_SYS, [es[0]] + [es[1]], [es[2]]);
    NothingLate(CONFIG, scanning, es[3], SCANNED);
    One(CONFIG, scanning, es[3], SCANNED);
    Chain(CONFIG, EMPTY_SYS, [es[0]] + [es[1]] + [es[2]], [es[3]]);
    assert es == [es[0]] + [es[1]] + [es[2]] + [es[3]];
  }

  /** A row that commits behind the checkpoint is passed without being delivered. */
  lemma LateRowIsMissed(es: seq<Event>)
    requires es == SCAN_SECOND + DELIVER_SECOND + COMMIT_LATE
    ensures Fresh(CONFIG, EMPTY_SYS) && Valid(CONFIG, EMPTY_SYS, es)
    ensures var t := Exec(CONFIG, EMPTY_SYS, es);
      FIRST in t.rows && MatchesScan(CONFIG.filter, FIRST, t.rows[FIRST]) && Passed(t, FIRST) && FIRST !in t.accepted
  {
    ScanSecond();
    DeliverSecond();
    Chain(CONFIG, EMPTY_SYS, SCAN_SECOND, DELIVER_SECOND);
    One(CONFIG, DELIVERED, COMMIT_LATE[0], Next(CONFIG, DELIVERED, COMMIT_LATE[0]));
    Chain(CONFIG, EMPTY_SYS, SCAN_SECOND + DELIVER_SECOND, COMMIT_LATE);
  }

  // ----- retention that respects the checkpoint -----

  /** Rows above the checkpoint do not disappear. */
  predicate Guarded(s: Sys, e: Event) {
    e.Remove? ==> forall k :: k in e.removed ==> Passed(s, k)
  }

  ghost predicate GuardedRun(c: Config, s: Sys, es: seq<Event>)
    requires Valid(c, s, es)
    decreases |es|
  {
    es != [] ==> Guarded(s, es[0]) && GuardedRun(c, Next(c, s, es[0]), es[1..])
  }

  /** A matching row that is present and not yet passed. */
  ghost predicate Ahead(c: Config, s: Sys, k: Key) {
    k in s.rows && MatchesScan(c.filter, k, s.rows[k]) && !Passed(s, k)
  }

  ghost predicate WatermarkInv(c: Config, s: Sys, state: StreamState, hw: Key) {
    Ahead(c, s, hw) && (state.highWatermark.Some? ==> state.highWatermark.value == hw)
  }

  /** Every watermark in use, stored or not, is the key of a row still to come; a stored
      state with checkpoint and watermark equal is one that the next run normalizes. */
  ghost predicate DrainInv(c: Config, s: Sys) {
    && Inv(c, s)
    && (StoredState(s).highWatermark.Some? ==>
          Checkpoint(s) == StoredState(s).highWatermark || Ahead(c, s, StoredState(s).highWatermark.value))
    && (s.run.Normalizing? ==> Checkpoint(s) == StoredState(s).highWatermark)
    && (s.run.Ready? || s.run.Scanning? || InFlight(s.run) ==>
          (s.run.state.highWatermark.Some? ==> Ahead(c, s, s.run.state.highWatermark.value)))
    && (s.run.Scanning? ==> WatermarkInv(c, s, s.run.state, s.run.highWatermark))
    && (InFlight(s.run) ==>
          && WatermarkInv(c, s, s.run.state, s.run.page.highWatermark)
          && (s.run.page.more <==> Last(s.run.page.keys) != s.run.page.highWatermark))
    && (s.run.Delivering? || s.run.DeadLettering? || s.run.Acked? ==> s.run.state.highWatermark.Some?)
  }

  lemma PageReachesWatermark(c: Config, s: Sys, keys: seq<Key>)
    requires DrainInv(c, s) && Enabled(c, s, QueryPage(keys))
    ensures keys != []
    ensures var page := PageOf(c, keys, s.run.highWatermark);
      page.keys != [] && (page.more <==> Last(page.keys) != page.highWatermark)
  {
    var hw := s.run.highWatermark;
    var r := Visible(c, s.rows, s.run.state.checkpoint, Some(hw));
    assert hw in r;
    EmptyPage(KeyOrder(), keys, r, c.batchSize + 1);
    var page := PageOf(c, keys, hw);
    CutPage(keys, r, c.batchSize, page.keys);
    assert Last(page.keys) in r;
    if page.more {
      var k :| k in r && Before(Last(page.keys), k);
    } else {
      assert !Before(Last(page.keys), hw);
    }
  }

  lemma SaveCheckpointDrains(c: Config, s: Sys, e: Event)
    requires DrainInv(c, s) && Enabled(c, s, e) && e.SaveCheckpoint?
    ensures DrainInv(c, Next(c, s, e))
  {
    StepKeepsInv(c, s, e);
  }

  lemma DeliverDrains(c: Config, s: Sys, e: Event)
    requires DrainInv(c, s) && Enabled(c, s, e) && (e.Deliver? || e.WriteDeadLetter? || e.SaveWatermark?)
    ensures DrainInv(c, Next(c, s, e))
  {
    StepKeepsInv(c, s, e);
  }

  lemma RowsDrain(c: Config, s: Sys, e: Event)
    requires DrainInv(c, s) && Enabled(c, s, e) && Guarded(s, e) && (e.Insert? || e.Remove?)
    ensures DrainInv(c, Next(c, s, e))
  {
    StepKeepsInv(c, s, e);
  }

  lemma QueryPageDrains(c: Config, s: Sys, keys: seq<Key>)
    requires DrainInv(c, s) && Enabled(c, s, QueryPage(keys))
    ensures DrainInv(c, Next(c, s, QueryPage(keys)))
  {
    StepKeepsInv(c, s, QueryPage(keys));
    PageReachesWatermark(c, s, keys);
  }

  lemma StartDrains(c: Config, s: Sys, e: Event)
    requires DrainInv(c, s) && Enabled(c, s, e) && (e.Start? || e.SaveNormalized? || e.QueryWatermark? || e.Crash?)
    ensures DrainInv(c, Next(c, s, e))
  {
    StepKeepsInv(c, s, e);
    if e.QueryWatermark? {
      var state := s.run.state;
      assert state.highWatermark.Some? ==>
        state.highWatermark.value in Visible(c, s.rows, state.checkpoint, state.highWatermark);
    }
  }

  lemma StepKeepsDrainInv(c: Config, s: Sys, e: Event)
    requires DrainInv(c, s) && Enabled(c, s, e) && Guarded(s, e)
    ensures DrainInv(c, Next(c, s, e))
  {
    match e
    case Insert(_, _) => RowsDrain(c, s, e);
    case Remove(_) => RowsDrain(c, s, e);
    case QueryPage(keys) => QueryPageDrains(c, s, keys);
    case SaveCheckpoint(_, _) => SaveCheckpointDrains(c, s, e);
    case Deliver(_, _) => DeliverDrains(c, s, e);
    case WriteDeadLetter(_, _) => DeliverDrains(c, s, e);
    case SaveWatermark(_, _) => DeliverDrains(c, s, e);
    case _ => StartDrains(c, s, e);
  }

  lemma {:induction false} ExecKeepsDrainInv(c: Config, s: Sys, es: seq<Event>)
    requires DrainInv(c, s) && Valid(c, s, es) && GuardedRun(c, s, es)
    ensures DrainInv(c, Exec(c, s, es))
    decreases |es|
  {
    if es != [] {
      StepKeepsDrainInv(c, s, es[0]);
      ExecKeepsDrainInv(c, Next(c, s, es[0]), es[1..]);
    }
  }

  /** While rows above the checkpoint stay, a run that has a watermark ends there: it
      finishes only with the checkpoint at the watermark and no watermark pending. */
  ghost predicate HeadedFor(s: Sys, hw: Key) {
    match s.run
    case Scanning(_, h) => h == hw
    case Stopped => true
    case Finished(_, _) => s.store == Some(StreamState(Some(hw), None))
    case Normalizing(_) => false
    case Ready(_) => false
    case _ => s.run.page.highWatermark == hw
  }

  lemma HeadedStep(c: Config, s: Sys, e: Event, hw: Key)
    requires DrainInv(c, s) && Enabled(c, s, e) && HeadedFor(s, hw) && !e.Start?
    ensures HeadedFor(Next(c, s, e), hw)
  {
    if e.QueryPage? { PageReachesWatermark(c, s, e.keys); }
  }

  lemma {:induction false} RunEndsAtWatermark(c: Config, s: Sys, es: seq<Event>, hw: Key)
    requires DrainInv(c, s) && Valid(c, s, es) && GuardedRun(c, s, es)
    requires HeadedFor(s, hw)
    requires forall i :: 0 <= i < |es| ==> !es[i].Start?
    ensures HeadedFor(Exec(c, s, es), hw)
    decreases |es|
  {
    if es != [] {
      StepKeepsDrainInv(c, s, es[0]);
      HeadedStep(c, s, es[0], hw);
      assert forall i :: 0 <= i < |es[1..]| ==> es[1..][i] == es[i + 1];
      RunEndsAtWatermark(c, Next(c, s, es[0]), es[1..], hw);
    }
  }

  /** A row seen ahead of the scan position is delivered before the checkpoint passes it,
      whatever crashes and restarts come between. */
  lemma {:induction false} AheadRowsAreDelivered(c: Config, s: Sys, es: seq<Event>, k: Key)
    requires Inv(c, s) && Valid(c, s, es) && GuardedRun(c, s, es)
    requires if Passed(s, k) then k in s.accepted else Ahead(c, s, k) && k !in s.late
    ensures var t := Exec(c, s, es);
      if Passed(t, k) then k in t.accepted else Ahead(c, t, k) && k !in t.late
    decreases |es|
  {
    if es != [] {
      StepKeepsInv(c, s, es[0]);
      AheadStep(c, s, es[0], k);
      AheadRowsAreDelivered(c, Next(c, s, es[0]), es[1..], k);
    }
  }

  lemma AheadStep(c: Config, s: Sys, e: Event, k: Key)
    requires Inv(c, s) && Enabled(c, s, e) && Guarded(s, e)
    requires if Passed(s, k) then k in s.accepted else Ahead(c, s, k) && k !in s.late
    ensures var t := Next(c, s, e);
      if Passed(t, k) then k in t.accepted else Ahead(c, t, k) && k !in t.late
  {
    StepKeepsInv(c, s, e);
    if Passed(s, k) {
      assert NotBefore(Checkpoint(s), Checkpoint(Next(c, s, e)));
    }
  }

  /** A scan drains its range: a run that finishes has delivered every matching row that its
      watermark query saw, from the checkpoint up to the watermark. */
  lemma RunDeliversItsRange(c: Config, s: Sys, es: seq<Event>, k: Key)
    requires DrainInv(c, s) && Valid(c, s, es) && GuardedRun(c, s, es) && s.run.Scanning?
    requires forall i :: 0 <= i < |es| ==> !es[i].Start?
    requires k in Visible(c, s.rows, s.run.state.checkpoint, Some(s.run.highWatermark))
    requires Exec(c, s, es).run.Finished?
    ensures k in Exec(c, s, es).accepted
  {
    assert !Passed(s, k) && !Behind(s, k);
    AheadRowsAreDelivered(c, s, es, k);
    RunEndsAtWatermark(c, s, es, s.run.highWatermark);
  }

  // ----- a stored watermark over an empty range -----

  /** A guarded history never leaves a stored watermark without a row to reach, unless the
      checkpoint is already there. */
  lemma ResumeFindsRows(c: Config, s: Sys, es: seq<Event>)
    requires Fresh(c, s) && Valid(c, s, es) && GuardedRun(c, s, es)
    ensures var state := StoredState(Exec(c, s, es));
      state.highWatermark.Some? && state.checkpoint != state.highWatermark ==>
        state.highWatermark.value in Visible(c, Exec(c, s, es).rows, state.checkpoint, state.highWatermark)
  {
    ExecKeepsDrainInv(c, s, es);
  }

  predicate TouchesRange(state: StreamState, e: Event) {
    || (e.Insert? && Bounded(state.checkpoint, state.highWatermark, e.key))
    || (e.Remove? && exists k :: k in e.removed && Bounded(state.checkpoint, state.highWatermark, k))
  }

  lemma UntouchedRange(c: Config, s: Sys, e: Event, state: StreamState)
    requires Enabled(c, s, e) && !TouchesRange(state, e)
    ensures Visible(c, Next(c, s, e).rows, state.checkpoint, state.highWatermark)
         == Visible(c, s.rows, state.checkpoint, state.highWatermark)
  {
    var t := Next(c, s, e);
    forall k | Bounded(state.checkpoint, state.highWatermark, k)
      ensures k in t.rows <==> k in s.rows
      ensures k in t.rows ==> t.rows[k] == s.rows[k]
    {
    }
  }

  ghost predicate Idle(c: Config, s: Sys, state: StreamState) {
    && s.store == Some(state)
    && Visible(c, s.rows, state.checkpoint, state.highWatermark) == {}
    && (s.run.Stopped? || s.run == Ready(state) || s.run == Finished(state, false))
  }

  /** Without the guard the stream can stall: once the range up to a stored watermark is
      empty, no number of runs delivers anything or moves the stored state, whatever rows
      arrive above the watermark. */
  lemma {:induction false} EmptyRangeStalls(c: Config, s: Sys, es: seq<Event>, state: StreamState)
    requires Valid(c, s, es) && Idle(c, s, state)
    requires state.highWatermark.Some? && state.checkpoint != state.highWatermark
    requires forall i :: 0 <= i < |es| ==> !TouchesRange(state, es[i])
    ensures Idle(c, Exec(c, s, es), state) && Exec(c, s, es).accepted == s.accepted
    decreases |es|
  {
    if es != [] {
      StallStep(c, s, es[0], state);
      assert forall i :: 0 <= i < |es[1..]| ==> es[1..][i] == es[i + 1];
      EmptyRangeStalls(c, Next(c, s, es[0]), es[1..], state);
    }
  }

  lemma StallStep(c: Config, s: Sys, e: Event, state: StreamState)
    requires Enabled(c, s, e) && Idle(c, s, state)
    requires state.highWatermark.Some? && state.checkpoint != state.highWatermark
    requires !TouchesRange(state, e)
    ensures Idle(c, Next(c, s, e), state) && Next(c, s, e).accepted == s.accepted
  {
    UntouchedRange(c, s, e, state);
  }

  const SAVE_AND_DIE: seq<Event> := [SaveWatermark(true, true), Crash, Remove({SECOND})]
  const STALLED := Sys(map[], Some(BOUNDED), {}, {}, map[], {}, Stopped)

  /** Such a state is reached: a run saves its watermark and dies, and retention that ignores
      the stream removes the rows. */
  lemma StallIsReached()
    ensures Fresh(CONFIG, EMPTY_SYS) && Valid(CONFIG, EMPTY_SYS, SCAN_SECOND + SAVE_AND_DIE)
    ensures Exec(CONFIG, EMPTY_SYS, SCAN_SECOND + SAVE_AND_DIE) == STALLED && Idle(CONFIG, STALLED, BOUNDED)
    ensures BOUNDED.highWatermark.Some? && BOUNDED.checkpoint != BOUNDED.highWatermark
  {
    var es := SAVE_AND_DIE;
    var delivering := SCANNED.(store := Some(BOUNDED), run := Delivering(BOUNDED, PAGE, 1));
    var dead := delivering.(run := Stopped);
    ScanSecond();
    NothingLate(CONFIG, SCANNED, es[0], delivering);
    One(CONFIG, SCANNED, es[0], delivering);
    NothingLate(CONFIG, delivering, es[1], dead);
    One(CONFIG, delivering, es[1], dead);
    Chain(CONFIG, SCANNED, [es[0]], [es[1]]);
    assert ROWS - {SECOND} == map[];
    NothingLate(CONFIG, dead, es[2], STALLED);
    One(CONFIG, dead, es[2], STALLED);
    Chain(CONFIG, SCANNED, [es[0]] + [es[1]], [es[2]]);
    assert es == [es[0]] + [es[1]] + [es[2]];
    Chain(CONFIG, EMPTY_SYS, SCAN_SECOND, SAVE_AND_DIE);
    assert Visible(CONFIG, map[], None, Some(SECOND)) == {};
  }

  // ----- replay -----

  /** `page` is what a page query over `r` returns. */
  ghost predicate PageFrom(c: Config, keys: seq<Key>, r: set<Key>, page: Page) {
    && IsPage(KeyOrder(), keys, r, c.batchSize + 1)
    && IsGreatest(page.highWatermark, r)
    && page == PageOf(c, keys, page.highWatermark)
  }

  /** As long as the checkpoint is that of `state`, the only page a run can have is `page`. */
  ghost predicate Replays(c: Config, s: Sys, state: StreamState, page: Page, r: set<Key>) {
    Checkpoint(s) == state.checkpoint ==>
      && StoredState(s) == state
      && Visible(c, s.rows, state.checkpoint, state.highWatermark) == r
      && (s.run.Scanning? ==> s.run.highWatermark == page.highWatermark)
      && (InFlight(s.run) ==> s.run.page == page && !s.run.Yielded?)
      && !s.run.Normalizing?
  }

  lemma KeyOrderInjective()
    ensures Injective(KeyOrder())
  {
    forall a, b | KeyOrder()(a) == KeyOrder()(b) ensures a == b {
      RankOrder(a, b);
    }
  }

  /** A page query over the range the batch came from returns that batch. */
  lemma ReplayQuery(c: Config, s: Sys, found: seq<Key>, state: StreamState, page: Page, keys: seq<Key>, r: set<Key>)
    requires Enabled(c, s, QueryPage(found)) && PageFrom(c, keys, r, page)
    requires s.run.state == state && s.run.highWatermark == page.highWatermark
    requires Visible(c, s.rows, state.checkpoint, Some(page.highWatermark)) == r
    ensures found == keys
  {
    KeyOrderInjective();
    PageUnique(KeyOrder(), found, keys, r, c.batchSize + 1);
  }

  lemma ReplayStore(c: Config, s: Sys, e: Event, state: StreamState, page: Page, r: set<Key>)
    requires Inv(c, s) && Enabled(c, s, e) && !e.QueryPage? && !e.QueryWatermark?
    requires state.highWatermark == Some(page.highWatermark) && state.checkpoint != state.highWatermark
    requires Replays(c, s, state, page, r) && Checkpoint(s) == state.checkpoint
    ensures var t := Next(c, s, e);
      Checkpoint(t) == state.checkpoint ==>
        && StoredState(t) == state
        && (t.run.Scanning? ==> t.run.highWatermark == page.highWatermark)
        && (InFlight(t.run) ==> t.run.page == page && !t.run.Yielded?)
        && !t.run.Normalizing?
  {
    if e.SaveCheckpoint? {
      assert Bounded(s.run.state.checkpoint, Some(s.run.page.highWatermark), Last(s.run.page.keys));
    }
  }

  lemma ReplayFetch(c: Config, s: Sys, found: seq<Key>, state: StreamState, page: Page, keys: seq<Key>, r: set<Key>)
    requires Enabled(c, s, QueryPage(found)) && PageFrom(c, keys, r, page) && keys != []
    requires s.run.state == state && s.run.highWatermark == page.highWatermark && state.highWatermark.Some?
    requires Visible(c, s.rows, state.checkpoint, Some(page.highWatermark)) == r
    ensures Apply(c, s, QueryPage(found)) == s.(run := Delivering(state, page, 1))
  {
    ReplayQuery(c, s, found, state, page, keys, r);
  }

  /** Steps that leave the stored state alone. */
  lemma ReplayQueries(c: Config, s: Sys, e: Event, state: StreamState, page: Page, keys: seq<Key>, r: set<Key>)
    requires Inv(c, s) && Enabled(c, s, e) && PageFrom(c, keys, r, page) && (e.QueryPage? || e.QueryWatermark?)
    requires state.highWatermark == Some(page.highWatermark) && state.checkpoint != state.highWatermark
    requires Replays(c, s, state, page, r) && Checkpoint(s) == state.checkpoint
    ensures Replays(c, Next(c, s, e), state, page, r)
  {
    var t := Next(c, s, e);
    assert StoredState(t) == state && t.rows == s.rows;
    if e.QueryPage? {
      assert page.highWatermark in r;
      EmptyPage(KeyOrder(), keys, r, c.batchSize + 1);
      ReplayFetch(c, s, e.keys, state, page, keys, r);
    }
  }

  lemma ReplayStep(c: Config, s: Sys, e: Event, state: StreamState, page: Page, keys: seq<Key>, r: set<Key>)
    requires Inv(c, s) && Enabled(c, s, e) && PageFrom(c, keys, r, page)
    requires state.highWatermark == Some(page.highWatermark) && state.checkpoint != state.highWatermark
    requires Replays(c, s, state, page, r) && NotBefore(state.checkpoint, Checkpoint(s)) && !TouchesRange(state, e)
    ensures Replays(c, Next(c, s, e), state, page, r)
  {
    StepKeepsInv(c, s, e);
    if Checkpoint(Next(c, s, e)) == state.checkpoint {
      assert Checkpoint(s) == state.checkpoint;
      if e.QueryPage? || e.QueryWatermark? {
        ReplayQueries(c, s, e, state, page, keys, r);
      } else {
        UntouchedRange(c, s, e, state);
        ReplayStore(c, s, e, state, page, r);
      }
    }
  }

  lemma {:induction false} ReplayRun(
    c: Config, s: Sys, es: seq<Event>, state: StreamState, page: Page, keys: seq<Key>, r: set<Key>)
    requires Inv(c, s) && Valid(c, s, es) && PageFrom(c, keys, r, page)
    requires state.highWatermark == Some(page.highWatermark) && state.checkpoint != state.highWatermark
    requires Replays(c, s, state, page, r) && NotBefore(state.checkpoint, Checkpoint(s))
    requires forall i :: 0 <= i < |es| ==> !TouchesRange(state, es[i])
    ensures Replays(c, Exec(c, s, es), state, page, r)
    decreases |es|
  {
    if es != [] {
      StepKeepsInv(c, s, es[0]);
      ReplayStep(c, s, es[0], state, page, keys, r);
      assert forall i :: 0 <= i < |es[1..]| ==> es[1..][i] == es[i + 1];
      ReplayRun(c, Next(c, s, es[0]), es[1..], state, page, keys, r);
    }
  }

  /** Replay: once a batch is being delivered, and as long as nothing is inserted or removed
      between checkpoint and watermark, whatever is delivered again after a lost save, a
      crash or a restart with the same checkpoint is the same batch, in entries, order and
      batch id, even if rows beyond the watermark arrive. */
  lemma ReplayIsTheSameBatch(c: Config, s: Sys, es: seq<Event>, keys: seq<Key>)
    requires DrainInv(c, s) && Valid(c, s, es) && s.run.Delivering?
    requires var state := StoredState(s);
      && PageFrom(c, keys, Visible(c, s.rows, state.checkpoint, state.highWatermark), s.run.page)
      && forall i :: 0 <= i < |es| ==> !TouchesRange(state, es[i])
    ensures var t := Exec(c, s, es);
      Checkpoint(t) == Checkpoint(s) && t.run.Delivering? ==>
        && t.run.page == s.run.page
        && t.run.page.keys != []
        && BatchIdOf(t.run.page.keys) == BatchIdOf(s.run.page.keys)
  {
    var state := StoredState(s);
    ReplayRun(c, s, es, state, s.run.page, keys, Visible(c, s.rows, state.checkpoint, state.highWatermark));
  }
}
