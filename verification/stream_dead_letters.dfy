/** At least once with the shipped dead-letter table, which keeps only the first batch of each
    batch id. */
module StreamDeadLetters {
  import opened Keys
  import opened Pages
  import opened PostgresStore
  import opened Prelude
  import opened Rows
  import opened StreamProtocol
  import opened StreamTheorems

  /** An id belongs to one row for ever; `stamp` is when that row was created. */
  type Stamp = Id -> nat

  predicate Stamped(stamp: Stamp, k: Key) {
    k.ts == stamp(k.id)
  }

  ghost predicate StampedRows(stamp: Stamp, rows: Table) {
    forall k :: k in rows ==> Stamped(stamp, k)
  }

  ghost predicate StampedRun(stamp: Stamp, es: seq<Event>) {
    forall i :: 0 <= i < |es| && es[i].Insert? ==> Stamped(stamp, es[i].key)
  }

  /** The sink has the row, or a dead letter holds it. */
  predicate Held(s: Sys, k: Key) {
    k in s.delivered || exists id :: id in s.letters && k in s.letters[id]
  }

  predicate Inside(batch: seq<Key>, k: Key) {
    batch != [] && Before(batch[0], k) && Before(k, Last(batch))
  }

  /** A dead letter has the row between its ends and does not hold it. */
  predicate Shadowed(s: Sys, k: Key) {
    exists id :: id in s.letters && Inside(s.letters[id], k) && k !in s.letters[id]
  }

  // ----- every history -----

  ghost predicate LetterInv(stamp: Stamp, s: Sys) {
    && (forall id :: id in s.letters ==>
          s.letters[id] != [] && Ordered(s.letters[id]) && BatchIdOf(s.letters[id]) == id
          && Stamped(stamp, s.letters[id][0]) && Stamped(stamp, Last(s.letters[id])))
    && (forall k :: k in s.accepted ==> Held(s, k) || Shadowed(s, k))
  }

  ghost predicate PageStamped(stamp: Stamp, s: Sys) {
    InFlight(s.run) ==> forall k :: k in s.run.page.keys ==> Stamped(stamp, k)
  }

  ghost predicate StoredInv(c: Config, stamp: Stamp, s: Sys) {
    Inv(c, s) && StampedRows(stamp, s.rows) && PageStamped(stamp, s) && LetterInv(stamp, s)
  }

  lemma BetweenEnds(batch: seq<Key>, k: Key)
    requires Ordered(batch) && k in batch
    ensures k == batch[0] || k == Last(batch) || Inside(batch, k)
  {
    var i :| 0 <= i < |batch| && batch[i] == k;
  }

  /** A letter that is there already has the ends of the batch. */
  lemma SameEnds(stamp: Stamp, s: Sys, batch: seq<Key>)
    requires LetterInv(stamp, s) && batch != [] && BatchIdOf(batch) in s.letters
    requires Stamped(stamp, batch[0]) && Stamped(stamp, Last(batch))
    ensures var letter := s.letters[BatchIdOf(batch)];
      letter != [] && Ordered(letter) && letter[0] == batch[0] && Last(letter) == Last(batch)
  {
  }

  /** After a write, each entry of the batch is held, or shadowed by the letter that was there. */
  lemma BuriedEntry(stamp: Stamp, s: Sys, batch: seq<Key>, k: Key)
    requires LetterInv(stamp, s) && Ordered(batch) && k in batch
    requires Stamped(stamp, batch[0]) && Stamped(stamp, Last(batch))
    ensures var t := s.(letters := Written(s.letters, batch)); Held(t, k) || Shadowed(t, k)
  {
    var t := s.(letters := Written(s.letters, batch));
    var id := BatchIdOf(batch);
    assert id in t.letters;
    if id in s.letters {
      SameEnds(stamp, s, batch);
      BetweenEnds(batch, k);
      assert s.letters[id][0] in s.letters[id] && Last(s.letters[id]) in s.letters[id];
    } else {
      assert k in t.letters[id];
    }
  }

  lemma HeldStays(s: Sys, t: Sys, k: Key)
    requires s.delivered <= t.delivered
    requires forall id :: id in s.letters ==> id in t.letters && t.letters[id] == s.letters[id]
    ensures Held(s, k) ==> Held(t, k)
    ensures Shadowed(s, k) ==> Shadowed(t, k)
  {
  }

  lemma WriteKeepsLetters(c: Config, stamp: Stamp, s: Sys, e: Event)
    requires StoredInv(c, stamp, s) && Enabled(c, s, e) && e.WriteDeadLetter?
    ensures LetterInv(stamp, Next(c, s, e))
  {
    var t := Next(c, s, e);
    var batch := s.run.page.keys;
    assert PageInv(c, s, s.run.state, s.run.page) && Last(batch) in batch;
    forall k | k in t.accepted ensures Held(t, k) || Shadowed(t, k) {
      if k in s.accepted { HeldStays(s, t, k); } else { BuriedEntry(stamp, s, batch, k); }
    }
  }

  lemma OtherKeepsLetters(c: Config, stamp: Stamp, s: Sys, e: Event)
    requires StoredInv(c, stamp, s) && Enabled(c, s, e) && !e.WriteDeadLetter?
    ensures LetterInv(stamp, Next(c, s, e))
  {
    var t := Next(c, s, e);
    assert t.letters == s.letters && s.delivered <= t.delivered;
    forall k | k in t.accepted ensures Held(t, k) || Shadowed(t, k) {
      if k in s.accepted { HeldStays(s, t, k); }
    }
  }

  lemma StepKeepsStamps(c: Config, stamp: Stamp, s: Sys, e: Event)
    requires StoredInv(c, stamp, s) && Enabled(c, s, e) && (e.Insert? ==> Stamped(stamp, e.key))
    ensures StampedRows(stamp, Next(c, s, e).rows) && PageStamped(stamp, Next(c, s, e))
  {
    if e.QueryPage? && e.keys != [] {
      var page := PageOf(c, e.keys, s.run.highWatermark);
      forall k | k in page.keys ensures Stamped(stamp, k) {
        assert k in e.keys;
      }
    }
  }

  lemma StepKeepsStoredInv(c: Config, stamp: Stamp, s: Sys, e: Event)
    requires StoredInv(c, stamp, s) && Enabled(c, s, e) && (e.Insert? ==> Stamped(stamp, e.key))
    ensures StoredInv(c, stamp, Next(c, s, e))
  {
    StepKeepsInv(c, s, e);
    StepKeepsStamps(c, stamp, s, e);
    if e.WriteDeadLetter? { WriteKeepsLetters(c, stamp, s, e); } else { OtherKeepsLetters(c, stamp, s, e); }
  }

  lemma {:induction false} ExecKeepsStoredInv(c: Config, stamp: Stamp, s: Sys, es: seq<Event>)
    requires StoredInv(c, stamp, s) && Valid(c, s, es) && StampedRun(stamp, es)
    ensures StoredInv(c, stamp, Exec(c, s, es))
    decreases |es|
  {
    if es != [] {
      StepKeepsStoredInv(c, stamp, s, es[0]);
      assert forall i :: 0 <= i < |es[1..]| ==> es[1..][i] == es[i + 1];
      ExecKeepsStoredInv(c, stamp, Next(c, s, es[0]), es[1..]);
    }
  }

  /** At least once in the shipped stores, over every history: a matching row at or before the
      checkpoint is with the sink or in a dead letter, unless it was inserted behind the scan
      position or lies between the ends of a dead letter that was written without it. */
  lemma StoredAtLeastOnce(c: Config, stamp: Stamp, s: Sys, es: seq<Event>, k: Key)
    requires Fresh(c, s) && Valid(c, s, es) && StampedRows(stamp, s.rows) && StampedRun(stamp, es)
    ensures var t := Exec(c, s, es);
      k in t.rows && MatchesScan(c.filter, k, t.rows[k]) && Passed(t, k) ==>
        Held(t, k) || Shadowed(t, k) || (k in t.late && InsertedBehind(c, s, es, k))
  {
    ExecKeepsStoredInv(c, stamp, s, es);
    AtLeastOnce(c, s, es, k);
  }

  // ----- histories in which no letter is outgrown -----

  predicate Open(s: Sys, batch: seq<Key>) {
    batch != [] && !Passed(s, batch[0])
  }

  ghost predicate Present(c: Config, s: Sys, batch: seq<Key>) {
    forall k :: k in batch ==> k in s.rows && MatchesScan(c.filter, k, s.rows[k]) && k !in s.late
  }

  /** Every matching row between the ends is in the batch. */
  ghost predicate Complete(c: Config, s: Sys, batch: seq<Key>)
    requires batch != []
  {
    forall k :: k in s.rows && MatchesScan(c.filter, k, s.rows[k]) && UpTo(batch[0], k) && UpTo(k, Last(batch)) ==>
      k in batch
  }

  /** A matching row arrives between the ends of a batch that is not full and whose rows are
      still to be passed. */
  predicate Outgrows(c: Config, s: Sys, batch: seq<Key>, e: Event) {
    && e.Insert? && MatchesScan(c.filter, e.key, e.entry)
    && Open(s, batch) && |batch| < c.batchSize && Inside(batch, e.key)
  }

  ghost predicate Disturbs(c: Config, s: Sys, e: Event) {
    || (InFlight(s.run) && Outgrows(c, s, s.run.page.keys, e))
    || exists id :: id in s.letters && Outgrows(c, s, s.letters[id], e)
  }

  ghost predicate UndisturbedRun(c: Config, s: Sys, es: seq<Event>)
    requires Valid(c, s, es)
    decreases |es|
  {
    es != [] ==> !Disturbs(c, s, es[0]) && UndisturbedRun(c, Next(c, s, es[0]), es[1..])
  }

  ghost predicate BatchInv(c: Config, s: Sys, batch: seq<Key>) {
    && Ordered(batch) && |batch| <= c.batchSize
    && (Open(s, batch) ==> Present(c, s, batch) && (|batch| < c.batchSize ==> Complete(c, s, batch)))
  }

  ghost predicate KeptInv(c: Config, stamp: Stamp, s: Sys) {
    && StoredInv(c, stamp, s)
    && (forall id :: id in s.letters ==> BatchInv(c, s, s.letters[id]))
    && (InFlight(s.run) ==> BatchInv(c, s, s.run.page.keys))
    && (forall k :: k in s.accepted ==> Held(s, k))
  }

  lemma OpenKeys(s: Sys, batch: seq<Key>, k: Key)
    requires Ordered(batch) && Open(s, batch) && k in batch
    ensures !Passed(s, k)
  {
    var i :| 0 <= i < |batch| && batch[i] == k;
    if i > 0 { assert Before(batch[0], batch[i]); }
  }

  lemma StillOpen(c: Config, s: Sys, e: Event, batch: seq<Key>)
    requires Inv(c, s) && Enabled(c, s, e) && Open(Next(c, s, e), batch)
    ensures Open(s, batch)
  {
    StepKeepsInv(c, s, e);
  }

  /** Rows of an open batch stay, and no step makes them late. */
  lemma PresentStays(c: Config, s: Sys, e: Event, batch: seq<Key>)
    requires Inv(c, s) && Enabled(c, s, e) && Guarded(s, e) && Ordered(batch) && Open(s, batch) && Present(c, s, batch)
    ensures Present(c, Next(c, s, e), batch)
  {
    forall k | k in batch
      ensures k in Next(c, s, e).rows && MatchesScan(c.filter, k, Next(c, s, e).rows[k]) && k !in Next(c, s, e).late
    {
      OpenKeys(s, batch, k);
    }
  }

  lemma CompleteStays(c: Config, s: Sys, e: Event, batch: seq<Key>)
    requires Enabled(c, s, e) && batch != [] && Present(c, s, batch) && Complete(c, s, batch)
    requires Open(s, batch) && |batch| < c.batchSize && !Outgrows(c, s, batch, e)
    ensures Complete(c, Next(c, s, e), batch)
  {
    var t := Next(c, s, e);
    assert batch[0] in batch && Last(batch) in batch;
    forall k | k in t.rows && MatchesScan(c.filter, k, t.rows[k]) && UpTo(batch[0], k) && UpTo(k, Last(batch))
      ensures k in batch
    {
      if k in s.rows { assert t.rows[k] == s.rows[k]; }
    }
  }

  lemma BatchStep(c: Config, s: Sys, e: Event, batch: seq<Key>)
    requires Inv(c, s) && Enabled(c, s, e) && Guarded(s, e) && BatchInv(c, s, batch) && !Outgrows(c, s, batch, e)
    ensures BatchInv(c, Next(c, s, e), batch)
  {
    if Open(Next(c, s, e), batch) {
      StillOpen(c, s, e, batch);
      PresentStays(c, s, e, batch);
      if |batch| < c.batchSize { CompleteStays(c, s, e, batch); }
    }
  }

  lemma FetchedPresent(c: Config, s: Sys, r: set<Key>, batch: seq<Key>)
    requires Inv(c, s) && s.run.Scanning? && forall k :: k in batch ==> k in r
    requires r == Visible(c, s.rows, s.run.state.checkpoint, Some(s.run.highWatermark))
    ensures Present(c, s, batch)
  {
    forall k | k in batch ensures k in s.rows && MatchesScan(c.filter, k, s.rows[k]) && k !in s.late {
      assert k in r;
      assert !Behind(s, k);
    }
  }

  /** A page that was just read. */
  lemma FetchedPage(c: Config, s: Sys, keys: seq<Key>)
    requires Inv(c, s) && s.run.Scanning? && Enabled(c, s, QueryPage(keys)) && keys != []
    ensures BatchInv(c, s, PageOf(c, keys, s.run.highWatermark).keys)
  {
    var hw := s.run.highWatermark;
    var r := Visible(c, s.rows, s.run.state.checkpoint, Some(hw));
    var batch := PageOf(c, keys, hw).keys;
    CutPage(keys, r, c.batchSize, batch);
    FetchedPresent(c, s, r, batch);
    if |batch| < c.batchSize {
      assert Last(batch) in r && batch[0] in r;
      forall k | k in s.rows && MatchesScan(c.filter, k, s.rows[k]) && UpTo(batch[0], k) && UpTo(k, Last(batch))
        ensures k in batch
      {
        assert k in r;
      }
    }
  }

  lemma PageStep(c: Config, stamp: Stamp, s: Sys, e: Event)
    requires KeptInv(c, stamp, s) && Enabled(c, s, e) && Guarded(s, e) && !Disturbs(c, s, e)
    requires InFlight(Next(c, s, e).run)
    ensures BatchInv(c, Next(c, s, e), Next(c, s, e).run.page.keys)
  {
    if e.QueryPage? {
      FetchedPage(c, s, e.keys);
      BatchStep(c, s, e, PageOf(c, e.keys, s.run.highWatermark).keys);
    } else {
      BatchStep(c, s, e, s.run.page.keys);
    }
  }

  /** The letter that is there when an undisturbed page is written holds all of the page. */
  lemma LetterCovers(c: Config, stamp: Stamp, s: Sys)
    requires KeptInv(c, stamp, s) && s.run.DeadLettering? && BatchIdOf(s.run.page.keys) in s.letters
    ensures forall k :: k in s.run.page.keys ==> k in s.letters[BatchIdOf(s.run.page.keys)]
  {
    var page := s.run.page.keys;
    var letter := s.letters[BatchIdOf(page)];
    assert PageInv(c, s, s.run.state, s.run.page) && page[0] in page && Last(page) in page;
    SameEnds(stamp, s, page);
    assert Open(s, page) && Open(s, letter);
    forall k | k in page ensures UpTo(letter[0], k) && UpTo(k, Last(letter)) { BetweenEnds(page, k); }
    if |letter| == c.batchSize {
      forall k | k in letter ensures k in page {
        BetweenEnds(letter, k);
        OpenKeys(s, letter, k);
      }
      SameBatch(letter, page);
    }
  }

  lemma BuriedHeld(c: Config, stamp: Stamp, s: Sys, e: Event, k: Key)
    requires KeptInv(c, stamp, s) && Enabled(c, s, e) && e.WriteDeadLetter? && k in s.run.page.keys
    ensures var letters := Written(s.letters, s.run.page.keys);
      BatchIdOf(s.run.page.keys) in letters && k in letters[BatchIdOf(s.run.page.keys)]
  {
    if BatchIdOf(s.run.page.keys) in s.letters { LetterCovers(c, stamp, s); }
  }

  lemma AcceptedHeld(c: Config, stamp: Stamp, s: Sys, e: Event)
    requires KeptInv(c, stamp, s) && Enabled(c, s, e)
    ensures forall k :: k in Next(c, s, e).accepted ==> Held(Next(c, s, e), k)
  {
    var t := Next(c, s, e);
    forall k | k in t.accepted ensures Held(t, k) {
      if k in s.accepted {
        HeldStays(s, t, k);
      } else if e.WriteDeadLetter? {
        BuriedHeld(c, stamp, s, e, k);
      }
    }
  }

  lemma LettersStep(c: Config, stamp: Stamp, s: Sys, e: Event, id: BatchId)
    requires KeptInv(c, stamp, s) && Enabled(c, s, e) && Guarded(s, e) && !Disturbs(c, s, e)
    requires id in Next(c, s, e).letters
    ensures BatchInv(c, Next(c, s, e), Next(c, s, e).letters[id])
  {
    if id in s.letters {
      assert Next(c, s, e).letters[id] == s.letters[id];
      BatchStep(c, s, e, s.letters[id]);
    } else {
      BatchStep(c, s, e, s.run.page.keys);
    }
  }

  lemma StepKeepsKeptInv(c: Config, stamp: Stamp, s: Sys, e: Event)
    requires KeptInv(c, stamp, s) && Enabled(c, s, e) && Guarded(s, e) && !Disturbs(c, s, e)
    requires e.Insert? ==> Stamped(stamp, e.key)
    ensures KeptInv(c, stamp, Next(c, s, e))
  {
    StepKeepsStoredInv(c, stamp, s, e);
    AcceptedHeld(c, stamp, s, e);
    forall id | id in Next(c, s, e).letters ensures BatchInv(c, Next(c, s, e), Next(c, s, e).letters[id]) {
      LettersStep(c, stamp, s, e, id);
    }
    if InFlight(Next(c, s, e).run) { PageStep(c, stamp, s, e); }
  }

  lemma {:induction false} ExecKeepsKeptInv(c: Config, stamp: Stamp, s: Sys, es: seq<Event>)
    requires KeptInv(c, stamp, s) && Valid(c, s, es) && StampedRun(stamp, es)
    requires GuardedRun(c, s, es) && UndisturbedRun(c, s, es)
    ensures KeptInv(c, stamp, Exec(c, s, es))
    decreases |es|
  {
    if es != [] {
      StepKeepsKeptInv(c, stamp, s, es[0]);
      assert forall i :: 0 <= i < |es[1..]| ==> es[1..][i] == es[i + 1];
      ExecKeepsKeptInv(c, stamp, Next(c, s, es[0]), es[1..]);
    }
  }

  /** At least once without that exception: as long as no matching row arrives between the
      ends of a batch in flight or of a dead letter that is not full and not yet passed, and
      rows above the checkpoint stay, everything accepted is held.  Full batches may be
      followed by any inserts. */
  lemma UndisturbedAtLeastOnce(c: Config, stamp: Stamp, s: Sys, es: seq<Event>, k: Key)
    requires Fresh(c, s) && Valid(c, s, es) && StampedRows(stamp, s.rows) && StampedRun(stamp, es)
    requires GuardedRun(c, s, es) && UndisturbedRun(c, s, es)
    ensures var t := Exec(c, s, es);
      k in t.rows && MatchesScan(c.filter, k, t.rows[k]) && Passed(t, k) ==>
        Held(t, k) || (k in t.late && InsertedBehind(c, s, es, k))
  {
    ExecKeepsKeptInv(c, stamp, s, es);
    AtLeastOnce(c, s, es, k);
  }
}
