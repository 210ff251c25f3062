/** `prune`: what the checkpoint guard lets through and what it removes. */
module Retention {
  import opened Calendar
  import opened Cursor
  import opened Keys
  import opened Partitions
  import opened Prelude

  // ----- Date.parse -----

  /** The months of every year, January of year 0 included. */
  function DaysBeforeAnyYear(y: nat): int {
    if y == 0 then -366 else DaysBeforeYear(y)
  }

  /** JavaScript reads days up to 31 in any month and lets them run over; anything else that
      is not a moment gives NaN. */
  predicate Parses(s: Stamp) {
    && 1 <= s.date.month <= 12 && 1 <= s.date.day <= 31
    && (if s.hour == 24 then s.minute == 0 && s.second == 0 && s.micro < 1000
        else s.hour < 24 && s.minute < 60 && s.second < 60)
  }

  /** `Date.parse`, in milliseconds since 0001-01-01; the microseconds' last digits are cut. */
  function ParseDate(s: Stamp): Option<int> {
    if !Parses(s) then None
    else
      var days := DaysBeforeAnyYear(s.date.year) + DaysBeforeMonth(s.date.year, s.date.month) + s.date.day - 1;
      Some(days * 86_400_000 + ((s.hour * 60 + s.minute) * 60 + s.second) * 1000 + s.micro / 1000)
  }

  /** On a real moment it is the truncation to whole milliseconds. */
  lemma ParseTruncates(s: Stamp)
    requires RealStamp(s)
    ensures ParseDate(s) == Some(Micros(s) / 1000)
  {
    var q := DayNumber(s.date) * 86_400_000 + ((s.hour * 60 + s.minute) * 60 + s.second) * 1000 + s.micro / 1000;
    assert Micros(s) == q * 1000 + s.micro % 1000;
    DivUnique(Micros(s), 1000, q, s.micro % 1000);
  }

  /** A real time of day, or 24:00 sharp; any day from 1 to 31 of any month. */
  lemma ParsesMeaning(s: Stamp)
    ensures ParseDate(s).Some? <==>
      && s.date.month in {1, 2, 3, 4, 5, 6, 7, 8, 9, 10, 11, 12} && 0 < s.date.day < 32
      && (|| (s.hour <= 23 && s.minute <= 59 && s.second <= 59)
          || (s.hour == 24 && s.minute == 0 && s.second == 0 && s.micro / 1000 == 0))
  {
  }

  /** Days after a month's end run over into the next month, and 24:00 is the next day. */
  lemma ParseRollsOver(s: Stamp)
    requires Parses(s) && s.date.year >= 1
    ensures var over := s.date.day - DaysIn(s.date.year, s.date.month);
      over > 0 ==> s.date.month < 12 && ParseDate(s) == ParseDate(s.(date := Date(s.date.year, s.date.month + 1, over)))
    ensures s.hour == 24 ==> ParseDate(s) == Some(ParseDate(s.(hour := 0)).value + 86_400_000)
  {
  }

  // ----- the guard -----

  datatype PruneError =
    | InvalidCursor
    | CutoffAhead
    | StepFailed(failed: string, alreadyPruned: seq<string>)
    | TransactionFailed

  /** The checkpoint does not hold the cutoff back. */
  predicate LetsThrough(checkpoint: string, olderThan: int) {
    var decoded := DecodeCursor(checkpoint);
    && decoded.Ok?
    && var parsed := ParseDate(StampOf(decoded.value.ts));
       parsed.Some? ==> olderThan <= parsed.value
  }

  method ValidateCheckpoint(checkpoint: string, olderThan: int) returns (r: Result<(), PruneError>)
    ensures r.Ok? <==> LetsThrough(checkpoint, olderThan)
    ensures r.Failed? ==> r.error == if DecodeCursor(checkpoint).Failed? then InvalidCursor else CutoffAhead
  {
    var decoded := DecodeCursor(checkpoint);
    if decoded.Failed? { return Failed(InvalidCursor); }
    var parsed := ParseDate(StampOf(decoded.value.ts));
    if parsed.Some? && olderThan > parsed.value { return Failed(CutoffAhead); }
    return Ok(());
  }

  /** The first checkpoint that does not let the cutoff through, and why. */
  predicate FirstRefusal(checkpoints: seq<string>, olderThan: int, i: int, error: PruneError) {
    && 0 <= i < |checkpoints| && !LetsThrough(checkpoints[i], olderThan)
    && (forall k :: 0 <= k < i ==> LetsThrough(checkpoints[k], olderThan))
    && error == if DecodeCursor(checkpoints[i]).Failed? then InvalidCursor else CutoffAhead
  }

  /** The checkpoint loop of `validatePruneOptions`. */
  method ValidateCheckpoints(checkpoints: seq<string>, olderThan: int) returns (r: Result<(), PruneError>)
    ensures r.Ok? <==> forall i :: 0 <= i < |checkpoints| ==> LetsThrough(checkpoints[i], olderThan)
    ensures r.Failed? ==> exists i :: FirstRefusal(checkpoints, olderThan, i, r.error)
  {
    var i := 0;
    while i < |checkpoints|
      invariant 0 <= i <= |checkpoints|
      invariant forall k :: 0 <= k < i ==> LetsThrough(checkpoints[k], olderThan)
    {
      r := ValidateCheckpoint(checkpoints[i], olderThan);
      if r.Failed? {
        assert FirstRefusal(checkpoints, olderThan, i, r.error);
        return;
      }
      i := i + 1;
    }
    return Ok(());
  }

  /** The checkpoint of a stream: the cursor of a row key. */
  predicate Names(checkpoint: string, c: Key) {
    var decoded := DecodeCursor(checkpoint);
    decoded.Ok? && NamesKey(decoded.value) && KeyOf(decoded.value) == c
  }

  /** What a stream stores is such a checkpoint: the cursor encoded from a row's timestamp
      text and id names the row's key. */
  lemma EncodedCursorNames(ts: string, id: string)
    requires NamesKey(Parts(ts, Lower(id)))
    ensures EncodeCursor(ts, id).Ok? && Names(EncodeCursor(ts, id).value, KeyOf(Parts(ts, Lower(id))))
  {
    CursorRoundTrip(ts, id);
  }

  /** Although the guard compares truncated milliseconds, every row older than an accepted
      cutoff lies before every required checkpoint. */
  lemma OlderRowsAreBehind(checkpoint: string, c: Key, olderThan: int, k: Key)
    requires LetsThrough(checkpoint, olderThan) && Names(checkpoint, c) && k.ts < olderThan * 1000
    ensures Before(k, c)
  {
    ParseTruncates(StampOf(DecodeCursor(checkpoint).value.ts));
    assert c.ts / 1000 * 1000 <= c.ts;
  }

  /** For a stream's checkpoint the truncation loses nothing: the cutoff is accepted exactly
      when it is not after the checkpoint. */
  lemma GuardIsExact(checkpoint: string, c: Key, olderThan: int)
    requires Names(checkpoint, c)
    ensures LetsThrough(checkpoint, olderThan) <==> olderThan * 1000 <= c.ts
  {
    ParseTruncates(StampOf(DecodeCursor(checkpoint).value.ts));
  }

  /** An accepted cursor holds no cutoff back at all exactly when its text, which has the shape
      of a moment, names none that `Date.parse` reads. */
  lemma GuardsNothing(checkpoint: string)
    requires DecodeCursor(checkpoint).Ok?
    ensures (forall olderThan :: LetsThrough(checkpoint, olderThan)) <==>
      !Parses(StampOf(DecodeCursor(checkpoint).value.ts))
  {
    var parsed := ParseDate(StampOf(DecodeCursor(checkpoint).value.ts));
    if parsed.Some? {
      assert !LetsThrough(checkpoint, parsed.value + 1);
    }
  }

  predicate OnlyZeros(s: string) {
    forall i :: 0 <= i < |s| && HexDigit(s[i]) ==> s[i] == '0'
  }

  lemma {:induction false} ZeroNumber(s: string)
    requires OnlyZeros(s)
    ensures Number(s, 10) == 0
  {
    if s != "" {
      assert forall i :: 0 <= i < |s[1..]| ==> s[1..][i] == s[i + 1];
      ZeroNumber(s[1..]);
    }
  }

  /** A template with every digit 0: `0000-00-00T00:00:00.000000Z`, the nil uuid. */
  function ZeroFill(template: string): (s: string)
    ensures |s| == |template|
    ensures forall i :: 0 <= i < |s| ==> s[i] == if template[i] == '#' || template[i] == '*' then '0' else template[i]
  {
    seq(|template|, i requires 0 <= i < |template| =>
      if template[i] == '#' || template[i] == '*' then '0' else template[i])
  }

  lemma ZeroFillFits(template: string, base: nat)
    requires InBase(template, base)
    ensures Fits(ZeroFill(template), template) && OnlyZeros(ZeroFill(template))
  {
  }

  lemma NoMonthZero()
    ensures !Parses(Unpack(0))
  {
  }

  lemma ZerosGuardNothing(ts: string, id: string, olderThan: int)
    requires Wellformed(Parts(ts, id)) && OnlyZeros(ts)
    ensures EncodeCursor(ts, id).Ok? && LetsThrough(EncodeCursor(ts, id).value, olderThan)
  {
    var p := Parts(ts, id);
    LowerFits(id);
    CursorRoundTrip(ts, id);
    var cursor := EncodeCursor(ts, id).value;
    assert DecodeCursor(cursor) == Ok(p);
    ZeroNumber(ts);
    NoMonthZero();
    GuardsNothing(cursor);
  }

  /** There is such a cursor: month 0 of year 0. */
  lemma NilCheckpointGuardsNothing(olderThan: int)
    ensures var ts, id := ZeroFill(MicroTemplate()), ZeroFill(UuidTemplate());
      EncodeCursor(ts, id).Ok? && LetsThrough(EncodeCursor(ts, id).value, olderThan)
  {
    TemplateBases();
    ZeroFillFits(MicroTemplate(), 10);
    ZeroFillFits(UuidTemplate(), 16);
    ZerosGuardNothing(ZeroFill(MicroTemplate()), ZeroFill(UuidTemplate()), olderThan);
  }

  // ----- the tables -----

  /** A partition's rows and range; an upper bound that is not a timestamp (DEFAULT or
      MAXVALUE) is None. */
  datatype Partition = Partition(name: string, upper: Option<nat>, rows: set<Key>)

  predicate Routed(ps: seq<Partition>) {
    forall i :: 0 <= i < |ps| ==> ps[i].upper.Some? ==> forall k :: k in ps[i].rows ==> k.ts < ps[i].upper.value
  }

  predicate WholeMilliseconds(ps: seq<Partition>) {
    forall i :: 0 <= i < |ps| && ps[i].upper.Some? ==> ps[i].upper.value % 1000 == 0
  }

  function AllRows(ps: seq<Partition>): set<Key> {
    if ps == [] then {} else AllRows(ps[..|ps| - 1]) + ps[|ps| - 1].rows
  }

  predicate Expired(p: Partition, olderThan: int) {
    p.upper.Some? && p.upper.value / 1000 <= olderThan
  }

  function Targets(ps: seq<Partition>, olderThan: int): seq<string> {
    if ps == [] then []
    else if Expired(ps[|ps| - 1], olderThan) then Targets(ps[..|ps| - 1], olderThan) + [ps[|ps| - 1].name]
    else Targets(ps[..|ps| - 1], olderThan)
  }

  function Without(ps: seq<Partition>, names: seq<string>): seq<Partition> {
    if ps == [] then []
    else Without(ps[..|ps| - 1], names) + (if ps[|ps| - 1].name in names then [] else [ps[|ps| - 1]])
  }

  predicate DistinctNames(ps: seq<Partition>) {
    forall i, j :: 0 <= i < j < |ps| ==> ps[i].name != ps[j].name
  }

  lemma {:induction false} WithoutTwice(ps: seq<Partition>, a: seq<string>, b: seq<string>)
    ensures Without(Without(ps, a), b) == Without(ps, a + b)
  {
    if ps != [] {
      var p, w := ps[|ps| - 1], Without(ps[..|ps| - 1], a);
      WithoutTwice(ps[..|ps| - 1], a, b);
      assert w + [] == w;
      assert (w + [p])[..|w|] == w;
      assert p.name in a + b <==> p.name in a || p.name in b;
    }
  }

  lemma {:induction false} WithoutNothing(ps: seq<Partition>)
    ensures Without(ps, []) == ps
  {
    if ps != [] {
      WithoutNothing(ps[..|ps| - 1]);
    }
  }

  lemma {:induction false} TargetIsExpired(ps: seq<Partition>, olderThan: int, p: Partition)
    requires DistinctNames(ps) && p in ps
    ensures p.name in Targets(ps, olderThan) <==> Expired(p, olderThan)
  {
    var init, last := ps[..|ps| - 1], ps[|ps| - 1];
    assert forall i :: 0 <= i < |init| ==> init[i] == ps[i];
    TargetsAreNames(init, olderThan);
    if p == last {
      assert p.name !in Targets(init, olderThan);
    } else {
      assert p in init;
      TargetIsExpired(init, olderThan, p);
      assert p.name != last.name;
    }
  }

  /** The targets are the expired partitions, all of them, in their order. */
  lemma {:induction false} TargetPositions(ps: seq<Partition>, olderThan: int) returns (at: seq<nat>)
    ensures |at| == |Targets(ps, olderThan)|
    ensures forall k :: 0 <= k < |at| ==> at[k] < |ps| && Targets(ps, olderThan)[k] == ps[at[k]].name
    ensures forall j, k :: 0 <= j < k < |at| ==> at[j] < at[k]
    ensures forall i :: 0 <= i < |ps| ==>
      (i in at <==> ps[i].upper.Some? && ps[i].upper.value / 1000 <= olderThan)
  {
    if ps == [] {
      at := [];
    } else {
      var n := |ps| - 1;
      at := TargetPositions(ps[..n], olderThan);
      assert forall i :: 0 <= i < n ==> ps[..n][i] == ps[i];
      assert forall k :: 0 <= k < |at| ==> at[k] < n;
      if Expired(ps[n], olderThan) {
        at := at + [n];
        assert n in at;
      }
    }
  }

  lemma {:induction false} TargetsAreNames(ps: seq<Partition>, olderThan: int)
    ensures forall name :: name in Targets(ps, olderThan) ==> exists i :: 0 <= i < |ps| && ps[i].name == name
  {
    if ps != [] {
      var init := ps[..|ps| - 1];
      TargetsAreNames(init, olderThan);
      forall name | name in Targets(ps, olderThan) ensures exists i :: 0 <= i < |ps| && ps[i].name == name {
        if name in Targets(init, olderThan) {
          var i :| 0 <= i < |init| && init[i].name == name;
          assert ps[i].name == name;
        }
      }
    }
  }

  lemma {:induction false} RowOfPartition(ps: seq<Partition>, k: Key)
    ensures k in AllRows(ps) <==> exists i :: 0 <= i < |ps| && k in ps[i].rows
  {
    if ps != [] {
      var init := ps[..|ps| - 1];
      RowOfPartition(init, k);
      if k in AllRows(init) {
        var i :| 0 <= i < |init| && k in init[i].rows;
        assert k in ps[i].rows;
      }
      if i :| 0 <= i < |ps| && k in ps[i].rows {
        if i < |init| { assert k in init[i].rows; }
      }
    }
  }

  lemma {:induction false} KeptPartition(ps: seq<Partition>, names: seq<string>, p: Partition)
    ensures p in Without(ps, names) <==> p in ps && p.name !in names
  {
    if ps != [] {
      KeptPartition(ps[..|ps| - 1], names, p);
      assert ps == ps[..|ps| - 1] + [ps[|ps| - 1]];
    }
  }

  /** Rows that are gone were in an expired partition. */
  lemma GoneRowsExpired(ps: seq<Partition>, olderThan: int, names: seq<string>, k: Key) returns (p: Partition)
    requires DistinctNames(ps) && forall name :: name in names ==> name in Targets(ps, olderThan)
    requires k in AllRows(ps) && k !in AllRows(Without(ps, names))
    ensures p in ps && k in p.rows && Expired(p, olderThan)
  {
    RowOfPartition(ps, k);
    var i :| 0 <= i < |ps| && k in ps[i].rows;
    p := ps[i];
    KeptPartition(ps, names, p);
    if p.name !in names {
      var kept := Without(ps, names);
      var j :| 0 <= j < |kept| && kept[j] == p;
      RowOfPartition(kept, k);
    }
    TargetIsExpired(ps, olderThan, p);
  }

  /** With upper bounds at whole milliseconds an expired partition's rows are all older than
      the cutoff. */
  lemma ExpiredRowsAreOlder(ps: seq<Partition>, olderThan: int, p: Partition, k: Key)
    requires Routed(ps) && WholeMilliseconds(ps) && p in ps && k in p.rows && Expired(p, olderThan)
    ensures k.ts < olderThan * 1000
  {
    var i :| 0 <= i < |ps| && ps[i] == p;
    assert p.upper.value == p.upper.value / 1000 * 1000;
  }

  /** What a prune with this guard may remove. */
  ghost predicate OnlyBehind(before: set<Key>, after: set<Key>, checkpoints: seq<string>) {
    && after <= before
    && forall k, c, i :: k in before - after && 0 <= i < |checkpoints| && Names(checkpoints[i], c) ==> Before(k, c)
  }

  lemma PartitionsOnlyBehind(ps: seq<Partition>, olderThan: int, names: seq<string>, checkpoints: seq<string>)
    requires DistinctNames(ps) && Routed(ps) && WholeMilliseconds(ps)
    requires forall name :: name in names ==> name in Targets(ps, olderThan)
    requires forall i :: 0 <= i < |checkpoints| ==> LetsThrough(checkpoints[i], olderThan)
    ensures OnlyBehind(AllRows(ps), AllRows(Without(ps, names)), checkpoints)
  {
    var kept := Without(ps, names);
    forall k | k in AllRows(kept) ensures k in AllRows(ps) {
      RowOfPartition(kept, k);
      var j :| 0 <= j < |kept| && k in kept[j].rows;
      KeptPartition(ps, names, kept[j]);
      var i :| 0 <= i < |ps| && ps[i] == kept[j];
      RowOfPartition(ps, k);
    }
    forall k, c, i | k in AllRows(ps) - AllRows(kept) && 0 <= i < |checkpoints| && Names(checkpoints[i], c)
      ensures Before(k, c)
    {
      var p := GoneRowsExpired(ps, olderThan, names, k);
      ExpiredRowsAreOlder(ps, olderThan, p, k);
      OlderRowsAreBehind(checkpoints[i], c, olderThan, k);
    }
  }

  // ----- partitioned tables -----

  class PartitionedTable {
    var partitions: seq<Partition>
    ghost var faults: nat

    constructor (partitions: seq<Partition>)
      ensures this.partitions == partitions
    {
      this.partitions := partitions;
    }

    /** DROP TABLE or DETACH PARTITION of one partition; either way its rows leave the table. */
    method Remove(name: string) returns (ok: bool)
      modifies this
      ensures partitions == if ok then Without(old(partitions), [name]) else old(partitions)
      ensures faults == old(faults) + if ok then 0 else 1
    {
      ok := *;
      faults := faults + if ok then 0 else 1;
      if ok {
        ghost var was := partitions;
        var kept: seq<Partition> := [];
        var i := 0;
        while i < |partitions|
          invariant 0 <= i <= |partitions| && partitions == was && faults == old(faults)
          invariant kept == Without(was[..i], [name])
        {
          assert was[..i + 1][..i] == was[..i];
          if partitions[i].name != name { kept := kept + [partitions[i]]; }
          i := i + 1;
        }
        assert was[..i] == was;
        partitions := kept;
      }
    }

    method FindTargets(olderThan: int) returns (targets: seq<string>)
      ensures targets == Targets(partitions, olderThan)
    {
      targets := [];
      var i := 0;
      while i < |partitions|
        invariant 0 <= i <= |partitions|
        invariant targets == Targets(partitions[..i], olderThan)
      {
        assert partitions[..i + 1][..i] == partitions[..i];
        if Expired(partitions[i], olderThan) { targets := targets + [partitions[i].name]; }
        i := i + 1;
      }
      assert partitions[..i] == partitions;
    }

    /** The loop over the targets; it stops at the first step that fails. */
    method RemoveAll(targets: seq<string>) returns (removed: nat)
      modifies this
      ensures removed <= |targets| && partitions == Without(old(partitions), targets[..removed])
      ensures removed < |targets| <==> faults > old(faults)
    {
      WithoutNothing(partitions);
      removed := 0;
      while removed < |targets|
        invariant 0 <= removed <= |targets| && faults == old(faults)
        invariant partitions == Without(old(partitions), targets[..removed])
      {
        var ok := Remove(targets[removed]);
        if !ok { return; }
        WithoutTwice(old(partitions), targets[..removed], [targets[removed]]);
        assert targets[..removed + 1] == targets[..removed] + [targets[removed]];
        removed := removed + 1;
      }
    }

    /** `prune` of a partitioned table.  A step that fails leaves the earlier ones done, and
        the error says which. */
    method Prune(olderThan: int, checkpoints: seq<string>, dryRun: bool) returns (r: Result<seq<string>, PruneError>)
      requires DistinctNames(partitions) && Routed(partitions)
      modifies this
      ensures r.Ok? ==>
        && (forall i :: 0 <= i < |checkpoints| ==> LetsThrough(checkpoints[i], olderThan))
        && r.value == Targets(old(partitions), olderThan)
        && partitions == if dryRun then old(partitions) else Without(old(partitions), r.value)
      ensures r.Failed? && !r.error.StepFailed? ==>
        partitions == old(partitions) && exists i :: FirstRefusal(checkpoints, olderThan, i, r.error)
      ensures r.Failed? && r.error.StepFailed? <==> faults > old(faults)
      ensures r.Failed? && r.error.StepFailed? ==>
        var targets := Targets(old(partitions), olderThan);
        var n := |r.error.alreadyPruned|;
        && n < |targets| && r.error.alreadyPruned == targets[..n] && r.error.failed == targets[n]
        && partitions == Without(old(partitions), targets[..n])
      ensures WholeMilliseconds(old(partitions)) ==>
        OnlyBehind(old(AllRows(partitions)), AllRows(partitions), checkpoints)
    {
      var valid := ValidateCheckpoints(checkpoints, olderThan);
      if valid.Failed? { return Failed(valid.error); }
      var targets := FindTargets(olderThan);
      if dryRun { return Ok(targets); }
      var removed := RemoveAll(targets);
      if WholeMilliseconds(old(partitions)) {
        PartitionsOnlyBehind(old(partitions), olderThan, targets[..removed], checkpoints);
      }
      if removed < |targets| { return Failed(StepFailed(targets[removed], targets[..removed])); }
      assert targets[..removed] == targets;
      return Ok(targets);
    }
  }

  /** Every other bound breaks the promise: a partition that ends within the millisecond of a
      checkpoint is dropped under a cutoff the guard lets through, with a last row that does
      not lie before the checkpoint. */
  lemma UnalignedBoundOutrunsStream(checkpoint: string, c: Key, upper: nat, id: Id)
    requires Names(checkpoint, c) && upper % 1000 != 0 && c.ts == upper / 1000 * 1000
    requires upper % 1000 == 1 ==> c.id <= id
    ensures var k := Key(upper - 1, id);
      var ps := [Partition("p", Some(upper), {k})];
      var olderThan := c.ts / 1000;
      && DistinctNames(ps) && Routed(ps) && LetsThrough(checkpoint, olderThan)
      && k in AllRows(ps) - AllRows(Without(ps, Targets(ps, olderThan))) && !Before(k, c)
  {
    GuardIsExact(checkpoint, c, c.ts / 1000);
    var p := Partition("p", Some(upper), {Key(upper - 1, id)});
    var ps := [p];
    var olderThan := c.ts / 1000;
    assert upper / 1000 == olderThan;
    assert ps[..0] == [] && Targets([], olderThan) == [] && AllRows([]) == {};
    assert Targets(ps, olderThan) == ["p"];
    assert Without(ps, ["p"]) == [];
    assert AllRows(ps) == p.rows;
  }

  predicate EndsAsPlanned(p: Partition, plan: seq<Planned>) {
    exists j :: 0 <= j < |plan| && p.upper == Some(plan[j].to)
  }

  /** Partitions made by `partitionPlan` end at whole milliseconds. */
  lemma PlannedPartitionsAreWhole(table: string, now: Month, ahead: nat, ps: seq<Partition>)
    requires RealMonth(now)
    requires forall i :: 0 <= i < |ps| ==> EndsAsPlanned(ps[i], PartitionPlan(table, now, ahead))
    ensures WholeMilliseconds(ps)
  {
    var plan := PartitionPlan(table, now, ahead);
    forall i | 0 <= i < |ps| ensures ps[i].upper.Some? && ps[i].upper.value % 1000 == 0 {
      var j :| 0 <= j < |plan| && ps[i].upper == Some(plan[j].to);
      PlannedBoundsAreWhole(table, AddMonths(now, j));
    }
  }

  // ----- flat tables -----

  /** The table's rows and its append-only enforcement. */
  datatype Flat = Flat(rows: set<Key>, trigger: bool, rule: bool)

  function Older(rows: set<Key>, olderThan: int): set<Key> {
    set k | k in rows && k.ts < olderThan * 1000
  }

  /** DELETE: the trigger raises, the rule makes it delete nothing. */
  function Delete(t: Flat, olderThan: int): Option<Flat> {
    if t.trigger then None
    else if t.rule then Some(t)
    else Some(t.(rows := t.rows - Older(t.rows, olderThan)))
  }

  class FlatTable {
    var state: Flat
    ghost var faults: nat

    constructor (state: Flat)
      ensures this.state == state
    {
      this.state := state;
    }

    /** Steps of the maintenance transaction may fail; nothing shows until it commits. */
    method Step() returns (ok: bool)
      modifies this`faults
      ensures faults == old(faults) + if ok then 0 else 1
    {
      ok := *;
      faults := faults + if ok then 0 else 1;
    }

    method CommitDelete(olderThan: int) returns (deleted: Option<nat>)
      modifies this
      ensures deleted.None? ==> state == old(state)
      ensures deleted.None? <==> faults > old(faults)
      ensures deleted.Some? ==>
        && state.trigger == old(state.trigger) && state.rule == old(state.rule)
        && state.rows == (if old(state).trigger && old(state).rule then old(state.rows)
                          else set k | k in old(state.rows) && !(k.ts < olderThan * 1000))
        && deleted.value == |old(state.rows) - state.rows|
    {
      var hasTrigger := state.trigger;
      var hasRule := if hasTrigger then false else state.rule;
      var tx := state;
      if hasTrigger {
        var ok := Step();
        if !ok { return None; }
        tx := tx.(trigger := false);
      } else if hasRule {
        var ok := Step();
        if !ok { return None; }
        tx := tx.(rule := false);
      }
      var left := Delete(tx, olderThan);
      var done := Step();
      if left.None? || !done { return None; }
      var count := |tx.rows - left.value.rows|;
      tx := left.value;
      if hasTrigger {
        var ok := Step();
        if !ok { return None; }
        tx := tx.(trigger := true);
      } else if hasRule {
        var ok := Step();
        if !ok { return None; }
        tx := tx.(rule := true);
      }
      var committed := Step();
      if !committed { return None; }
      state := tx;
      return Some(count);
    }

    /** `prune` of a flat table: all or nothing, append-only enforcement is as it was either
        way, and no row after a required checkpoint goes. */
    method Prune(olderThan: int, checkpoints: seq<string>, dryRun: bool) returns (r: Result<nat, PruneError>)
      modifies this
      ensures state.trigger == old(state.trigger) && state.rule == old(state.rule)
      ensures r.Failed? || dryRun ==> state == old(state)
      ensures r.Failed? <==>
        faults > old(faults) || exists i :: 0 <= i < |checkpoints| && !LetsThrough(checkpoints[i], olderThan)
      ensures r.Failed? ==>
        if faults > old(faults) then r.error == TransactionFailed
        else exists i :: FirstRefusal(checkpoints, olderThan, i, r.error)
      ensures r.Ok? && dryRun ==> r.value == |set k | k in old(state.rows) && k.ts < olderThan * 1000|
      ensures r.Ok? && !dryRun && !(old(state).trigger && old(state).rule) ==>
        && state.rows == (set k | k in old(state.rows) && !(k.ts < olderThan * 1000))
        && r.value == |set k | k in old(state.rows) && k.ts < olderThan * 1000|
      ensures r.Ok? ==> forall i :: 0 <= i < |checkpoints| ==> LetsThrough(checkpoints[i], olderThan)
      ensures OnlyBehind(old(state.rows), state.rows, checkpoints)
    {
      var valid := ValidateCheckpoints(checkpoints, olderThan);
      if valid.Failed? { return Failed(valid.error); }
      var older := Older(state.rows, olderThan);
      if dryRun { return Ok(|older|); }
      ghost var was := state.rows;
      var deleted := CommitDelete(olderThan);
      if deleted.None? { return Failed(TransactionFailed); }
      assert was - (was - older) == older && older == set k | k in was && k.ts < olderThan * 1000;
      assert (set k | k in was && !(k.ts < olderThan * 1000)) == was - older;
      forall k, c, i | k in was - state.rows && 0 <= i < |checkpoints| && Names(checkpoints[i], c)
        ensures Before(k, c)
      {
        OlderRowsAreBehind(checkpoints[i], c, olderThan, k);
      }
      return Ok(deleted.value);
    }
  }
}
