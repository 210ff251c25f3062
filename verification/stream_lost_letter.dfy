/** The exception in `StoredAtLeastOnce` is real: a history of the shipped stores in which the
    checkpoint passes a row that neither the sink nor a dead letter has. */
module StreamLostLetter {
  import opened Keys
  import opened Pages
  import opened Prelude
  import opened Rows
  import opened StreamDeadLetters
  import opened StreamProtocol
  import opened StreamTheorems

  const BURYING := Config(ANY, 500, 0, true)
  const A := Key(1, 1)
  const B := Key(2, 2)
  const C := Key(3, 3)
  const TWO: Table := map[A := ROW, C := ROW]
  const THREE: Table := map[A := ROW, C := ROW, B := ROW]
  const FIRST_PAGE := Page([A, C], false, C)
  const SECOND_PAGE := Page([A, B, C], false, C)
  const TO_C := StreamState(None, Some(C))
  const AT_C := StreamState(Some(C), None)
  const LETTERS: Letters := map[BatchId(1, 3) := [A, C]]
  const BEGUN := Sys(TWO, None, {}, {}, map[], {}, Stopped)
  const BURIED := Sys(TWO, Some(TO_C), {A, C}, {}, LETTERS, {}, Stopped)
  const ARRIVED := Sys(THREE, Some(TO_C), {A, C}, {}, LETTERS, {}, Stopped)
  const PASSED := Sys(THREE, Some(AT_C), {A, B, C}, {}, LETTERS, {}, Finished(AT_C, true))

  /** The batch [A, C] is dead-lettered; the checkpoint save after it fails. */
  const BURY: seq<Event> :=
    [Start, QueryWatermark(Some(C)), QueryPage([A, C]), SaveWatermark(true, true),
     Deliver(false, Terminal), WriteDeadLetter(true, true), SaveCheckpoint(false, false)]

  /** The replay reads [A, B, C], whose batch id is taken. */
  const REPLAY: seq<Event> :=
    [Start, QueryWatermark(Some(C)), QueryPage([A, B, C]),
     Deliver(false, Terminal), WriteDeadLetter(true, true), SaveCheckpoint(true, true)]

  ghost predicate Reaches(s: Sys, es: seq<Event>, t: Sys) {
    Valid(BURYING, s, es) && Exec(BURYING, s, es) == t
  }

  lemma Step(s: Sys, es: seq<Event>, t: Sys, e: Event, u: Sys)
    requires Reaches(s, es, t) && Enabled(BURYING, t, e) && Apply(BURYING, t, e) == u && u.late == {}
    ensures Reaches(s, es + [e], u)
  {
    NothingLate(BURYING, t, e, u);
    One(BURYING, t, e, u);
    Chain(BURYING, s, es, [e]);
  }

  lemma Queries(rows: Table, keys: seq<Key>)
    requires (rows == TWO && keys == [A, C]) || (rows == THREE && keys == [A, B, C])
    ensures Visible(BURYING, rows, None, None) == Visible(BURYING, rows, None, Some(C)) == set k | k in keys
    ensures IsGreatest(C, set k | k in keys)
    ensures IsPage(KeyOrder(), keys, set k | k in keys, 501)
  {
    RankOrder(A, B);
    RankOrder(B, C);
  }

  lemma FirstRun()
    ensures Reaches(BEGUN, BURY, BURIED)
  {
    Queries(TWO, [A, C]);
    var scanning := BEGUN.(run := Scanning(NO_STATE, C));
    var yielded := BEGUN.(run := Yielded(NO_STATE, FIRST_PAGE));
    var delivering := BEGUN.(store := Some(TO_C), run := Delivering(TO_C, FIRST_PAGE, 1));
    var acked := BURIED.(run := Acked(TO_C, FIRST_PAGE));
    assert KeysOf(FIRST_PAGE) == {A, C};
    assert Written(map[], [A, C]) == LETTERS;
    var run: seq<Event> := [];
    Step(BEGUN, run, BEGUN, BURY[0], BEGUN.(run := Ready(NO_STATE)));
    run := run + [BURY[0]];
    Step(BEGUN, run, BEGUN.(run := Ready(NO_STATE)), BURY[1], scanning);
    run := run + [BURY[1]];
    Step(BEGUN, run, scanning, BURY[2], yielded);
    run := run + [BURY[2]];
    Step(BEGUN, run, yielded, BURY[3], delivering);
    run := run + [BURY[3]];
    Step(BEGUN, run, delivering, BURY[4], delivering.(run := DeadLettering(TO_C, FIRST_PAGE)));
    run := run + [BURY[4]];
    Step(BEGUN, run, delivering.(run := DeadLettering(TO_C, FIRST_PAGE)), BURY[5], acked);
    run := run + [BURY[5]];
    Step(BEGUN, run, acked, BURY[6], BURIED);
    run := run + [BURY[6]];
    assert run == BURY;
  }

  lemma SecondRun()
    ensures Reaches(ARRIVED, REPLAY, PASSED)
  {
    Queries(THREE, [A, B, C]);
    var ready := ARRIVED.(run := Ready(TO_C));
    var scanning := ARRIVED.(run := Scanning(TO_C, C));
    var delivering := ARRIVED.(run := Delivering(TO_C, SECOND_PAGE, 1));
    var burying := ARRIVED.(run := DeadLettering(TO_C, SECOND_PAGE));
    var acked := ARRIVED.(accepted := {A, B, C}, run := Acked(TO_C, SECOND_PAGE));
    assert KeysOf(SECOND_PAGE) == {A, B, C};
    assert Written(LETTERS, [A, B, C]) == LETTERS;
    var run: seq<Event> := [];
    Step(ARRIVED, run, ARRIVED, REPLAY[0], ready);
    run := run + [REPLAY[0]];
    Step(ARRIVED, run, ready, REPLAY[1], scanning);
    run := run + [REPLAY[1]];
    Step(ARRIVED, run, scanning, REPLAY[2], delivering);
    run := run + [REPLAY[2]];
    Step(ARRIVED, run, delivering, REPLAY[3], burying);
    run := run + [REPLAY[3]];
    Step(ARRIVED, run, burying, REPLAY[4], acked);
    run := run + [REPLAY[4]];
    Step(ARRIVED, run, acked, REPLAY[5], PASSED);
    run := run + [REPLAY[5]];
    assert run == REPLAY;
  }

  lemma {:induction false} NoInsertNoLate(s: Sys, es: seq<Event>, k: Key)
    requires Valid(BURYING, s, es) && forall i :: 0 <= i < |es| ==> !es[i].Insert?
    ensures !InsertedBehind(BURYING, s, es, k)
    decreases |es|
  {
    if es != [] {
      assert forall i :: 0 <= i < |es[1..]| ==> es[1..][i] == es[i + 1];
      NoInsertNoLate(Next(BURYING, s, es[0]), es[1..], k);
    }
  }

  lemma {:induction false} InsertedBehindSplits(s: Sys, es: seq<Event>, fs: seq<Event>, k: Key)
    requires Valid(BURYING, s, es) && Valid(BURYING, Exec(BURYING, s, es), fs)
    ensures Valid(BURYING, s, es + fs)
    ensures InsertedBehind(BURYING, s, es + fs, k) <==>
      InsertedBehind(BURYING, s, es, k) || InsertedBehind(BURYING, Exec(BURYING, s, es), fs, k)
    decreases |es|
  {
    Chain(BURYING, s, es, fs);
    if es == [] {
      assert es + fs == fs;
    } else {
      assert (es + fs)[1..] == es[1..] + fs && (es + fs)[0] == es[0];
      InsertedBehindSplits(Next(BURYING, s, es[0]), es[1..], fs, k);
    }
  }

  /** B arrives between two runs, behind nothing. */
  lemma NotBehind()
    ensures Reaches(BURIED, [Insert(B, ROW)], ARRIVED)
    ensures !InsertedBehind(BURYING, BURIED, [Insert(B, ROW)], B)
  {
    Step(BURIED, [], BURIED, Insert(B, ROW), ARRIVED);
    assert [] + [Insert(B, ROW)] == [Insert(B, ROW)];
    assert [Insert(B, ROW)][1..] == [];
  }

  lemma RowLostBehindLetter()
    ensures Fresh(BURYING, BEGUN) && Valid(BURYING, BEGUN, BURY + [Insert(B, ROW)] + REPLAY)
    ensures var es := BURY + [Insert(B, ROW)] + REPLAY; var t := Exec(BURYING, BEGUN, es);
      && B in t.rows && MatchesScan(BURYING.filter, B, t.rows[B]) && Passed(t, B)
      && !Held(t, B) && B !in t.late && !InsertedBehind(BURYING, BEGUN, es, B) && Shadowed(t, B)
  {
    FirstRun();
    NotBehind();
    SecondRun();
    Chain(BURYING, BEGUN, BURY, [Insert(B, ROW)]);
    Chain(BURYING, BEGUN, BURY + [Insert(B, ROW)], REPLAY);
    NoInsertNoLate(BEGUN, BURY, B);
    NoInsertNoLate(ARRIVED, REPLAY, B);
    InsertedBehindSplits(BEGUN, BURY, [Insert(B, ROW)], B);
    InsertedBehindSplits(BEGUN, BURY + [Insert(B, ROW)], REPLAY, B);
    assert BatchId(1, 3) in PASSED.letters && Inside(PASSED.letters[BatchId(1, 3)], B);
  }
}
