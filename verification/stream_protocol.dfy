/** The durable stream as a state machine: one runner, its checkpoint store, its sink and
    dead-letter store, and a table that other sessions keep changing.  Every call may
    succeed, fail, or take effect and then report failure, and the process may die between
    any two events. */
module StreamProtocol {
  import opened Keys
  import opened Pages
  import opened Prelude
  import opened Rows

  datatype Config = Config(filter: Filter, batchSize: nat, maxRetries: nat, hasDeadLetters: bool)

  ghost predicate ValidConfig(c: Config) {
    1 <= c.batchSize
  }

  datatype StreamState = StreamState(checkpoint: Option<Key>, highWatermark: Option<Key>)

  const NO_STATE := StreamState(None, None)

  /** A page of a scan: its keys in order, whether rows are left below the watermark, and
      the watermark the scan is bounded by. */
  datatype Page = Page(keys: seq<Key>, more: bool, highWatermark: Key)

  datatype Run =
    | Stopped
    | Normalizing(state: StreamState)
    | Ready(state: StreamState)
    | Scanning(state: StreamState, highWatermark: Key)
    | Yielded(state: StreamState, page: Page)
    | Delivering(state: StreamState, page: Page, attempt: nat)
    | DeadLettering(state: StreamState, page: Page)
    | Acked(state: StreamState, page: Page)
    | Finished(state: StreamState, delivered: bool)

  /** `${first.id}:${last.id}` */
  datatype BatchId = BatchId(first: Id, last: Id)

  /** The stream's dead letters: the entries kept per batch id. */
  type Letters = map<BatchId, seq<Key>>

  /** `accepted`: keys of the batches that the sink or the dead-letter store has taken.
      `delivered` and `letters`: what the sink has and what the dead-letter table holds.
      `late`: keys of rows that were inserted behind the scan position. */
  datatype Sys = Sys(rows: Table, store: Option<StreamState>, accepted: set<Key>, delivered: set<Key>, letters: Letters,
                     late: set<Key>, run: Run)

  datatype SinkAnswer = Accepted | Transient | Terminal

  datatype Event =
    | Insert(key: Key, entry: Entry)
    | Remove(removed: set<Key>)
    | Start
    | SaveNormalized(effect: bool, ok: bool)
    | QueryWatermark(found: Option<Key>)
    | QueryPage(keys: seq<Key>)
    | SaveWatermark(effect: bool, ok: bool)
    | Deliver(effect: bool, answer: SinkAnswer)
    | WriteDeadLetter(effect: bool, ok: bool)
    | SaveCheckpoint(effect: bool, ok: bool)
    | Crash

  // ----- what the queries see -----

  /** Keys of the matching rows in `(after, until]`. */
  function Visible(c: Config, rows: Table, after: Option<Key>, until: Option<Key>): set<Key> {
    set k | k in rows && MatchesScan(c.filter, k, rows[k]) && Bounded(after, until, k)
  }

  ghost predicate IsGreatest(k: Key, r: set<Key>) {
    k in r && forall j :: j in r ==> UpTo(j, k)
  }

  function KeyOrder(): Position {
    (k: Key) => Rank(k)
  }

  function Last(p: seq<Key>): Key
    requires p != []
  {
    p[|p| - 1]
  }

  function BatchIdOf(batch: seq<Key>): BatchId
    requires batch != []
  {
    BatchId(batch[0].id, Last(batch).id)
  }

  /** INSERT ... ON CONFLICT (stream_id, batch_id) DO NOTHING: the first writer wins. */
  function Written(letters: Letters, batch: seq<Key>): Letters {
    if batch == [] || BatchIdOf(batch) in letters then letters else letters[BatchIdOf(batch) := batch]
  }

  predicate Ordered(batch: seq<Key>) {
    forall i, j :: 0 <= i < j < |batch| ==> Before(batch[i], batch[j])
  }

  // ----- the scan position -----

  predicate InFlight(r: Run) {
    r.Yielded? || r.Delivering? || r.DeadLettering? || r.Acked?
  }

  function StoredState(s: Sys): StreamState {
    if s.store.Some? then s.store.value else NO_STATE
  }

  function Checkpoint(s: Sys): Option<Key> {
    StoredState(s).checkpoint
  }

  /** At or before the stored checkpoint. */
  predicate Passed(s: Sys, k: Key) {
    Checkpoint(s).Some? && UpTo(k, Checkpoint(s).value)
  }

  /** Behind the scan position: passed, or at or before the end of the page in flight. */
  predicate Behind(s: Sys, k: Key) {
    Passed(s, k) || (InFlight(s.run) && s.run.page.keys != [] && UpTo(k, Last(s.run.page.keys)))
  }

  // ----- events -----

  ghost predicate Enabled(c: Config, s: Sys, e: Event) {
    match e
    case Insert(key, _) => key !in s.rows
    case Remove(_) => true
    case Start => s.run.Stopped? || s.run.Finished?
    case SaveNormalized(effect, ok) => s.run.Normalizing? && (ok ==> effect)
    case QueryWatermark(found) =>
      s.run.Ready? &&
      var r := Visible(c, s.rows, s.run.state.checkpoint, s.run.state.highWatermark);
      if found.Some? then IsGreatest(found.value, r) else r == {}
    case QueryPage(keys) =>
      s.run.Scanning? &&
      IsPage(KeyOrder(), keys, Visible(c, s.rows, s.run.state.checkpoint, Some(s.run.highWatermark)), c.batchSize + 1)
    case SaveWatermark(effect, ok) => s.run.Yielded? && (ok ==> effect)
    case Deliver(effect, answer) => s.run.Delivering? && (answer.Accepted? ==> effect)
    case WriteDeadLetter(effect, ok) => s.run.DeadLettering? && (ok ==> effect)
    case SaveCheckpoint(effect, ok) => s.run.Acked? && s.run.page.keys != [] && (ok ==> effect)
    case Crash => true
  }

  /** The state saved once a page is acknowledged. */
  function AckedState(page: Page): StreamState
    requires page.keys != []
  {
    var checkpoint := Last(page.keys);
    StreamState(Some(checkpoint), if checkpoint == page.highWatermark then None else Some(page.highWatermark))
  }

  function StartRun(s: Sys): Run {
    var state := StoredState(s);
    if state.checkpoint.Some? && state.checkpoint == state.highWatermark
    then Normalizing(StreamState(state.checkpoint, None))
    else Ready(state)
  }

  function PageOf(c: Config, keys: seq<Key>, highWatermark: Key): Page {
    Page(if |keys| <= c.batchSize then keys else keys[..c.batchSize], |keys| > c.batchSize, highWatermark)
  }

  function Store(s: Sys, effect: bool, state: StreamState): Sys {
    if effect then s.(store := Some(state)) else s
  }

  function KeysOf(page: Page): set<Key> {
    set k | k in page.keys
  }

  /** The sink has the page. */
  function Sink(s: Sys, effect: bool, page: Page): Sys {
    if effect then s.(accepted := s.accepted + KeysOf(page), delivered := s.delivered + KeysOf(page)) else s
  }

  /** The dead-letter table was given the page. */
  function Bury(s: Sys, effect: bool, page: Page): Sys {
    if effect then s.(accepted := s.accepted + KeysOf(page), letters := Written(s.letters, page.keys)) else s
  }

  function Apply(c: Config, s: Sys, e: Event): Sys {
    match e
    case Insert(key, entry) =>
      s.(rows := s.rows[key := entry], late := if Behind(s, key) then s.late + {key} else s.late)
    case Remove(removed) => s.(rows := s.rows - removed)
    case Start => s.(run := StartRun(s))
    case SaveNormalized(effect, ok) =>
      if !s.run.Normalizing? then s
      else Store(s, effect, s.run.state).(run := if ok then Ready(s.run.state) else Stopped)
    case QueryWatermark(found) =>
      if !s.run.Ready? then s
      else s.(run := if found.Some? then Scanning(s.run.state, found.value) else Finished(s.run.state, false))
    case QueryPage(keys) =>
      if !s.run.Scanning? then s
      else if keys == [] then s.(run := Finished(s.run.state, true))
      else
        var page := PageOf(c, keys, s.run.highWatermark);
        s.(run :=
          if s.run.state.highWatermark.None? then Yielded(s.run.state, page) else Delivering(s.run.state, page, 1))
    case SaveWatermark(effect, ok) =>
      if !s.run.Yielded? then s
      else
        var state := s.run.state.(highWatermark := Some(s.run.page.highWatermark));
        Store(s, effect, state).(run := if ok then Delivering(state, s.run.page, 1) else Stopped)
    case Deliver(effect, answer) =>
      if !s.run.Delivering? then s
      else
        Sink(s, effect, s.run.page).(run :=
          if answer.Accepted? then Acked(s.run.state, s.run.page)
          else if answer.Terminal? then
            if c.hasDeadLetters then DeadLettering(s.run.state, s.run.page) else Stopped
          else if s.run.attempt > c.maxRetries then Stopped
          else Delivering(s.run.state, s.run.page, s.run.attempt + 1))
    case WriteDeadLetter(effect, ok) =>
      if !s.run.DeadLettering? then s
      else Bury(s, effect, s.run.page).(run := if ok then Acked(s.run.state, s.run.page) else Stopped)
    case SaveCheckpoint(effect, ok) =>
      if !s.run.Acked? || s.run.page.keys == [] then s
      else
        var state := AckedState(s.run.page);
        Store(s, effect, state).(run :=
          if !ok then Stopped
          else if s.run.page.more then Scanning(state, s.run.page.highWatermark)
          else Finished(state, true))
    case Crash => s.(run := Stopped)
  }

  /** One step.  A row that is behind the position no longer once a page is abandoned will
      be scanned again, so it stops counting as late. */
  function Next(c: Config, s: Sys, e: Event): Sys {
    var t := Apply(c, s, e);
    t.(late := set k | k in t.late && Behind(t, k))
  }

  ghost predicate Valid(c: Config, s: Sys, es: seq<Event>)
    decreases |es|
  {
    es == [] || (Enabled(c, s, es[0]) && Valid(c, Next(c, s, es[0]), es[1..]))
  }

  ghost function Exec(c: Config, s: Sys, es: seq<Event>): Sys
    requires Valid(c, s, es)
    decreases |es|
  {
    if es == [] then s else Exec(c, Next(c, s, es[0]), es[1..])
  }

  // ----- safety -----

  /** A page in flight was complete when it was read: what it misses came late. */
  ghost predicate PageInv(c: Config, s: Sys, state: StreamState, page: Page) {
    && page.keys != []
    && Ordered(page.keys)
    && (forall k :: k in page.keys ==> Bounded(state.checkpoint, Some(page.highWatermark), k))
    && Bounded(state.checkpoint, Some(page.highWatermark), Last(page.keys))
    && (forall k :: k in s.rows && MatchesScan(c.filter, k, s.rows[k]) && UpTo(k, Last(page.keys)) && !Passed(s, k)
          ==> k in page.keys || k in s.late)
  }

  ghost predicate StateInv(state: StreamState) {
    state.checkpoint.Some? && state.highWatermark.Some? ==> UpTo(state.checkpoint.value, state.highWatermark.value)
  }

  ghost predicate Inv(c: Config, s: Sys) {
    && ValidConfig(c)
    && StateInv(StoredState(s))
    && (forall k :: k in s.rows && MatchesScan(c.filter, k, s.rows[k]) && Passed(s, k) ==>
          k in s.accepted || k in s.late)
    && (forall k :: k in s.late ==> Behind(s, k))
    && match s.run
       case Stopped => true
       case Finished(state, _) => state == StoredState(s)
       case Normalizing(state) => state == StoredState(s).(highWatermark := None)
       case Ready(state) => state == StoredState(s)
       case Scanning(state, hw) => state == StoredState(s)
       case Yielded(state, page) =>
         state == StoredState(s) && state.highWatermark.None? && PageInv(c, s, state, page)
       case Delivering(state, page, _) => state == StoredState(s) && PageInv(c, s, state, page)
       case DeadLettering(state, page) => state == StoredState(s) && PageInv(c, s, state, page)
       case Acked(state, page) =>
         state == StoredState(s) && PageInv(c, s, state, page) && forall k :: k in page.keys ==> k in s.accepted
  }

  predicate NotBefore(a: Option<Key>, b: Option<Key>) {
    a.Some? ==> b.Some? && UpTo(a.value, b.value)
  }

  /** What fetching `n + 1` rows and keeping `n` of them tells about a range. */
  lemma CutPage(keys: seq<Key>, r: set<Key>, n: nat, kept: seq<Key>)
    requires 1 <= n && IsPage(KeyOrder(), keys, r, n + 1) && keys != []
    requires kept == if |keys| <= n then keys else keys[..n]
    ensures Ordered(kept)
    ensures kept != [] && forall k :: k in kept ==> k in r
    ensures forall k :: k in r ==> k in kept || Before(Last(kept), k)
    ensures |keys| > n <==> exists k :: k in r && Before(Last(kept), k)
  {
    forall i, j | 0 <= i < j < |keys| ensures Before(keys[i], keys[j]) {
      assert KeyOrder()(keys[i]) < KeyOrder()(keys[j]);
      RankOrder(keys[i], keys[j]);
    }
    assert kept <= keys;
    forall k | k in r ensures k in kept || Before(Last(kept), k) {
      CutPageCovers(keys, r, n, kept, k);
    }
    if |keys| > n {
      assert keys[n] in keys && keys[n] in r && Before(Last(kept), keys[n]);
    } else {
      forall k | k in r ensures !Before(Last(kept), k) {
        assert k in kept;
        var i :| 0 <= i < |kept| && kept[i] == k;
      }
    }
  }

  lemma CutPageCovers(keys: seq<Key>, r: set<Key>, n: nat, kept: seq<Key>, k: Key)
    requires 1 <= n && IsPage(KeyOrder(), keys, r, n + 1) && keys != [] && k in r
    requires kept == if |keys| <= n then keys else keys[..n]
    requires Ordered(keys)
    ensures k in kept || Before(Last(kept), k)
  {
    if k in keys {
      var i :| 0 <= i < |keys| && keys[i] == k;
      assert i < |kept| ==> kept[i] == k;
    } else {
      assert KeyOrder()(keys[|keys| - 1]) < KeyOrder()(k);
      RankOrder(keys[|keys| - 1], k);
      assert |keys| == n + 1 && Before(Last(kept), keys[n]);
    }
  }

  lemma PageInvAtQuery(c: Config, s: Sys, keys: seq<Key>)
    requires Inv(c, s) && s.run.Scanning? && Enabled(c, s, QueryPage(keys)) && keys != []
    ensures PageInv(c, s, s.run.state, PageOf(c, keys, s.run.highWatermark))
  {
    var page := PageOf(c, keys, s.run.highWatermark);
    var r := Visible(c, s.rows, s.run.state.checkpoint, Some(s.run.highWatermark));
    CutPage(keys, r, c.batchSize, page.keys);
    assert Last(page.keys) in r;
  }

  lemma InsertKeepsInv(c: Config, s: Sys, key: Key, entry: Entry)
    requires Inv(c, s) && key !in s.rows
    ensures Inv(c, Next(c, s, Insert(key, entry)))
  {
  }

  lemma RemoveKeepsInv(c: Config, s: Sys, removed: set<Key>)
    requires Inv(c, s)
    ensures Inv(c, Next(c, s, Remove(removed)))
  {
  }

  lemma StopKeepsInv(c: Config, s: Sys)
    requires Inv(c, s)
    ensures Inv(c, Next(c, s, Crash))
  {
  }

  lemma StartKeepsInv(c: Config, s: Sys, e: Event)
    requires Inv(c, s) && Enabled(c, s, e) && (e.Start? || e.SaveNormalized? || e.QueryWatermark?)
    ensures Inv(c, Next(c, s, e)) && Checkpoint(Next(c, s, e)) == Checkpoint(s)
  {
  }

  lemma QueryPageKeepsInv(c: Config, s: Sys, keys: seq<Key>)
    requires Inv(c, s) && Enabled(c, s, QueryPage(keys))
    ensures Inv(c, Next(c, s, QueryPage(keys)))
  {
    if keys != [] {
      PageInvAtQuery(c, s, keys);
    }
  }

  lemma SaveWatermarkKeepsInv(c: Config, s: Sys, e: Event)
    requires Inv(c, s) && Enabled(c, s, e) && e.SaveWatermark?
    ensures Inv(c, Next(c, s, e)) && Checkpoint(Next(c, s, e)) == Checkpoint(s)
  {
  }

  lemma DeliverKeepsInv(c: Config, s: Sys, e: Event)
    requires Inv(c, s) && Enabled(c, s, e) && e.Deliver?
    ensures Inv(c, Next(c, s, e)) && Checkpoint(Next(c, s, e)) == Checkpoint(s)
  {
  }

  lemma WriteDeadLetterKeepsInv(c: Config, s: Sys, e: Event)
    requires Inv(c, s) && Enabled(c, s, e) && e.WriteDeadLetter?
    ensures Inv(c, Next(c, s, e)) && Checkpoint(Next(c, s, e)) == Checkpoint(s)
  {
  }

  lemma SaveCheckpointKeepsInv(c: Config, s: Sys, e: Event)
    requires Inv(c, s) && Enabled(c, s, e) && e.SaveCheckpoint?
    ensures Inv(c, Next(c, s, e)) && NotBefore(Checkpoint(s), Checkpoint(Next(c, s, e)))
  {
  }

  lemma StepKeepsInv(c: Config, s: Sys, e: Event)
    requires Inv(c, s) && Enabled(c, s, e)
    ensures Inv(c, Next(c, s, e))
    ensures NotBefore(Checkpoint(s), Checkpoint(Next(c, s, e)))
  {
    match e
    case Insert(key, entry) => InsertKeepsInv(c, s, key, entry);
    case Remove(removed) => RemoveKeepsInv(c, s, removed);
    case QueryPage(keys) => QueryPageKeepsInv(c, s, keys);
    case SaveWatermark(_, _) => SaveWatermarkKeepsInv(c, s, e);
    case Deliver(_, _) => DeliverKeepsInv(c, s, e);
    case WriteDeadLetter(_, _) => WriteDeadLetterKeepsInv(c, s, e);
    case SaveCheckpoint(_, _) => SaveCheckpointKeepsInv(c, s, e);
    case Crash => StopKeepsInv(c, s);
    case _ => StartKeepsInv(c, s, e);
  }
}
