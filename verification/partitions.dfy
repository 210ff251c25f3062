/** Monthly partitions: which months are planned, what they are called, what they hold. */
module Partitions {
  import opened Calendar
  import opened Prelude

  /** `month` counts from 1.  Years below 100 mean the twentieth century to `Date.UTC`, so a
      clock that shows one is outside the model. */
  datatype Month = Month(year: nat, month: nat)

  predicate RealMonth(m: Month) {
    m.year >= 100 && 1 <= m.month <= 12
  }

  /** Months on one line. */
  function Index(m: Month): int {
    m.year * 12 + m.month - 1
  }

  /** `addMonths` */
  function AddMonths(m: Month, n: nat): (r: Month)
    requires RealMonth(m)
    ensures RealMonth(r)
    ensures Index(r) == Index(m) + n
  {
    var i := m.month - 1 + n;
    Month(m.year + i / 12, i % 12 + 1)
  }

  lemma IndexIdentifies(a: Month, b: Month)
    requires 1 <= a.month <= 12 && 1 <= b.month <= 12
    ensures Index(a) == Index(b) <==> a == b
  {
  }

  function FirstDay(m: Month): Date {
    Date(m.year, m.month, 1)
  }

  /** Microseconds at which the month begins. */
  function MonthStart(m: Month): nat
    requires RealMonth(m)
  {
    DayNumberNonNegative(FirstDay(m));
    DayNumber(FirstDay(m)) * DAY_MICROS
  }

  // ----- names -----

  function DigitChar(n: nat): char
    requires n < 10
  {
    '0' + n as char
  }

  function Decimal(n: nat): (s: string)
    ensures s != ""
  {
    if n < 10 then [DigitChar(n)] else Decimal(n / 10) + [DigitChar(n % 10)]
  }

  /** `String(month).padStart(2, '0')` */
  function Padded(n: nat): string {
    if n < 10 then "0" + Decimal(n) else Decimal(n)
  }

  function PartitionName(table: string, m: Month): string {
    table + "_y" + Decimal(m.year) + "m" + Padded(m.month)
  }

  lemma {:induction false} DecimalIdentifies(a: nat, b: nat)
    requires Decimal(a) == Decimal(b)
    ensures a == b
  {
    var s, t := Decimal(a), Decimal(b);
    assert s[|s| - 1] == DigitChar(a % 10) && t[|t| - 1] == DigitChar(b % 10);
    assert |s| == 1 <==> a < 10;
    assert |t| == 1 <==> b < 10;
    if a >= 10 {
      assert s[..|s| - 1] == Decimal(a / 10) && t[..|t| - 1] == Decimal(b / 10);
      DecimalIdentifies(a / 10, b / 10);
    }
  }

  lemma PaddedMonth(m: nat)
    requires 1 <= m <= 12
    ensures |Padded(m)| == 2
    ensures Padded(m) == [DigitChar(m / 10), DigitChar(m % 10)]
  {
    if m >= 10 {
      assert Decimal(m / 10) == [DigitChar(m / 10)];
    }
  }

  lemma NamesIdentify(table: string, a: Month, b: Month)
    requires RealMonth(a) && RealMonth(b) && PartitionName(table, a) == PartitionName(table, b)
    ensures a == b
  {
    PaddedMonth(a.month);
    PaddedMonth(b.month);
    var s, t := PartitionName(table, a), PartitionName(table, b);
    var n, k := |s|, |table| + 2;
    assert s[n - 2..] == Padded(a.month) && t[n - 2..] == Padded(b.month);
    assert s[k..n - 3] == Decimal(a.year) && t[k..n - 3] == Decimal(b.year);
    DecimalIdentifies(a.year, b.year);
    assert Padded(a.month)[0] == Padded(b.month)[0] && Padded(a.month)[1] == Padded(b.month)[1];
  }

  function ReadDecimal(s: string): nat {
    if s == "" then 0
    else
      var c := s[|s| - 1];
      ReadDecimal(s[..|s| - 1]) * 10 + if '0' <= c <= '9' then (c - '0') as nat else 0
  }

  lemma {:induction false} DecimalReads(n: nat)
    ensures var s := Decimal(n);
      && ReadDecimal(s) == n && (s[0] == '0' ==> n == 0)
      && forall i :: 0 <= i < |s| ==> '0' <= s[i] <= '9'
  {
    var s := Decimal(n);
    if n < 10 {
      assert s[..0] == "" && ReadDecimal("") == 0;
    } else {
      DecimalReads(n / 10);
      assert s[..|s| - 1] == Decimal(n / 10);
    }
  }

  /** `<table>_y<year>m<month>`, the month in two digits. */
  lemma NameReads(table: string, m: Month)
    requires RealMonth(m)
    ensures var s := PartitionName(table, m); var n := |s|;
      && n > |table| + 5 && s[..|table|] == table && s[|table|..|table| + 2] == "_y" && s[n - 3] == 'm'
      && ReadDecimal(s[|table| + 2..n - 3]) == m.year && ReadDecimal(s[n - 2..]) == m.month
      && (forall i :: |table| + 2 <= i < n && i != n - 3 ==> '0' <= s[i] <= '9')
  {
    PaddedMonth(m.month);
    DecimalReads(m.year);
    var s := PartitionName(table, m);
    var n := |s|;
    assert s[n - 2..] == Padded(m.month) && s[|table| + 2..n - 3] == Decimal(m.year);
    var two := Padded(m.month);
    assert two[..1] == [two[0]] && [two[0]][..0] == "";
    assert ReadDecimal([two[0]]) == m.month / 10;
    forall i | |table| + 2 <= i < n - 3 ensures '0' <= s[i] <= '9' {
      assert s[i] == Decimal(m.year)[i - |table| - 2];
    }
  }

  // ----- the plan -----

  datatype Planned = Planned(name: string, month: Month, from: nat, to: nat)

  function PlannedMonth(table: string, m: Month): Planned
    requires RealMonth(m)
  {
    Planned(PartitionName(table, m), m, MonthStart(m), MonthStart(AddMonths(m, 1)))
  }

  /** `partitionPlan`: the current month and `ahead` more. */
  function PartitionPlan(table: string, now: Month, ahead: nat): (plan: seq<Planned>)
    requires RealMonth(now)
    ensures |plan| == ahead + 1
    ensures forall i :: 0 <= i <= ahead ==> plan[i] == PlannedMonth(table, AddMonths(now, i))
  {
    seq(ahead + 1, i requires 0 <= i => PlannedMonth(table, AddMonths(now, i)))
  }

  predicate Holds(p: Planned, micros: nat) {
    p.from <= micros < p.to
  }

  function MonthOf(s: Stamp): Month {
    Month(s.date.year, s.date.month)
  }

  /** A moment lies before a month's start exactly when it falls in an earlier month. */
  lemma BeforeMonth(s: Stamp, m: Month)
    requires RealStamp(s) && RealMonth(m)
    ensures Micros(s) < MonthStart(m) <==> Index(MonthOf(s)) < Index(m)
  {
    TimeOrder(s, s);
    DateOrder(s.date, FirstDay(m));
    var d, e := DayNumber(s.date), DayNumber(FirstDay(m));
    assert d < e ==> (d + 1) * DAY_MICROS <= e * DAY_MICROS;
    assert e <= d ==> e * DAY_MICROS <= d * DAY_MICROS;
  }

  /** A planned partition holds exactly the rows of the month in its name. */
  lemma PartitionHoldsItsMonth(table: string, m: Month, s: Stamp)
    requires RealStamp(s) && RealMonth(m)
    ensures Holds(PlannedMonth(table, m), Micros(s)) <==> MonthOf(s) == m
  {
    BeforeMonth(s, m);
    BeforeMonth(s, AddMonths(m, 1));
    IndexIdentifies(MonthOf(s), m);
  }

  /** Planned partitions have distinct names, follow each other without gap or overlap, also
      across year ends, and every moment from the start of this month to the end of the last
      planned one lies in exactly one of them. */
  lemma PlanTiles(table: string, now: Month, ahead: nat, s: Stamp)
    requires RealMonth(now) && RealStamp(s)
    ensures var plan := PartitionPlan(table, now, ahead);
      && (forall i, j :: 0 <= i < j <= ahead ==> plan[i].name != plan[j].name)
      && (forall i :: 0 <= i < ahead ==> plan[i].to == plan[i + 1].from)
      && (forall i, j :: 0 <= i < j <= ahead ==> !(Holds(plan[i], Micros(s)) && Holds(plan[j], Micros(s))))
      && ((exists i :: 0 <= i <= ahead && Holds(plan[i], Micros(s))) <==>
            Index(now) <= Index(MonthOf(s)) <= Index(now) + ahead)
  {
    var plan := PartitionPlan(table, now, ahead);
    forall i, j | 0 <= i < j <= ahead ensures plan[i].name != plan[j].name {
      if plan[i].name == plan[j].name {
        NamesIdentify(table, AddMonths(now, i), AddMonths(now, j));
      }
    }
    forall i | 0 <= i < ahead ensures plan[i].to == plan[i + 1].from {
      IndexIdentifies(AddMonths(AddMonths(now, i), 1), AddMonths(now, i + 1));
    }
    forall i | 0 <= i <= ahead ensures Holds(plan[i], Micros(s)) <==> Index(MonthOf(s)) == Index(now) + i {
      PartitionHoldsItsMonth(table, AddMonths(now, i), s);
      if Index(MonthOf(s)) == Index(now) + i {
        assert MonthOf(s).year * 12 + MonthOf(s).month - 1 == Index(AddMonths(now, i));
      }
    }
    if Index(now) <= Index(MonthOf(s)) <= Index(now) + ahead {
      assert Holds(plan[Index(MonthOf(s)) - Index(now)], Micros(s));
    }
  }

  /** A row written now has its partition. */
  lemma CurrentMonthIsPlanned(table: string, s: Stamp, ahead: nat)
    requires RealStamp(s) && RealMonth(MonthOf(s))
    ensures Holds(PartitionPlan(table, MonthOf(s), ahead)[0], Micros(s))
  {
    PartitionHoldsItsMonth(table, MonthOf(s), s);
    IndexIdentifies(AddMonths(MonthOf(s), 0), MonthOf(s));
  }

  /** Planned bounds are whole milliseconds. */
  lemma PlannedBoundsAreWhole(table: string, m: Month)
    requires RealMonth(m)
    ensures PlannedMonth(table, m).from % 1000 == 0 && PlannedMonth(table, m).to % 1000 == 0
  {
    DivUnique(MonthStart(m), 1000, DayNumber(FirstDay(m)) * 86_400_000, 0);
    var n := AddMonths(m, 1);
    DivUnique(MonthStart(n), 1000, DayNumber(FirstDay(n)) * 86_400_000, 0);
  }

  // ----- ensurePartitions -----

  /** The plan's names in order. */
  function PlanNames(table: string, now: Month, ahead: nat): (names: seq<string>)
    requires RealMonth(now)
    ensures |names| == ahead + 1
    ensures forall i :: 0 <= i <= ahead ==> names[i] == PartitionName(table, AddMonths(now, i))
  {
    var plan := PartitionPlan(table, now, ahead);
    seq(ahead + 1, i requires 0 <= i < |plan| => plan[i].name)
  }

  datatype Outcome = Created | Duplicate | Broken

  /** The database catalog and what it answers: the partitions that exist, and other sessions
      that may create one between the look and the CREATE TABLE. */
  class Catalog {
    const partitioned: bool
    var existing: set<string>
    ghost var made: seq<string>
    ghost var faults: nat

    constructor (partitioned: bool)
      ensures existing == {} && this.partitioned == partitioned
    {
      this.partitioned := partitioned;
      existing, made, faults := {}, [], 0;
    }

    /** Runs one CREATE TABLE ... PARTITION OF; on Duplicate someone else was first. */
    method CreatePartition(name: string) returns (outcome: Outcome)
      modifies this
      ensures existing == if outcome == Broken then old(existing) else old(existing) + {name}
      ensures made == old(made) + if outcome == Created then [name] else []
      ensures faults == old(faults) + if outcome == Broken then 1 else 0
    {
      outcome := *;
      made := made + if outcome == Created then [name] else [];
      faults := faults + if outcome == Broken then 1 else 0;
      if outcome != Broken {
        existing := existing + {name};
      }
    }

    /** The loop of `ensurePartitions`: look, then create. */
    method CreateMissing(names: seq<string>) returns (r: Result<seq<string>, ()>)
      modifies this
      ensures old(existing) <= existing
      ensures forall name :: name in existing ==> name in old(existing) || name in names
      ensures r.Failed? <==> faults > old(faults)
      ensures r.Ok? ==>
        && made == old(made) + r.value
        && (forall name :: name in names ==> name in existing)
        && (forall name :: name in r.value ==> name in existing && name !in old(existing))
        && (forall i, j :: 0 <= i < j < |r.value| ==> r.value[i] != r.value[j])
    {
      var created: seq<string> := [];
      var i := 0;
      while i < |names|
        invariant 0 <= i <= |names|
        invariant old(existing) <= existing && made == old(made) + created && faults == old(faults)
        invariant forall name :: name in existing ==> name in old(existing) || name in names
        invariant forall k :: 0 <= k < i ==> names[k] in existing
        invariant forall name :: name in created ==> name in existing && name !in old(existing)
        invariant forall k, l :: 0 <= k < l < |created| ==> created[k] != created[l]
      {
        var name := names[i];
        i := i + 1;
        if name in existing { continue; }
        var outcome := CreatePartition(name);
        match outcome {
          case Created => created := created + [name];
          case Duplicate =>
          case Broken => return Failed(());
        }
      }
      r := Ok(created);
    }

    /** `ensurePartitions`: refused for a negative `ahead` and for a table that is not
        partitioned; on success every planned partition exists, and what is reported as
        created was not there before. */
    method EnsurePartitions(table: string, now: Month, ahead: int) returns (r: Result<seq<string>, ()>)
      requires RealMonth(now)
      modifies this
      ensures ahead < 0 || !partitioned ==> existing == old(existing) && made == old(made)
      ensures r.Failed? <==> ahead < 0 || !partitioned || faults > old(faults)
      ensures old(existing) <= existing
      ensures 0 <= ahead ==>
        forall name :: name in existing ==> name in old(existing) || name in PlanNames(table, now, ahead)
      ensures r.Ok? ==>
        && 0 <= ahead && made == old(made) + r.value
        && (forall i :: 0 <= i <= ahead ==> PartitionName(table, AddMonths(now, i)) in existing)
        && (forall name :: name in r.value ==> name in existing && name !in old(existing))
        && (forall i, j :: 0 <= i < j < |r.value| ==> r.value[i] != r.value[j])
    {
      if ahead < 0 { return Failed(()); }
      if !partitioned { return Failed(()); }
      r := CreateMissing(PlanNames(table, now, ahead));
      if r.Ok? {
        forall i | 0 <= i <= ahead ensures PartitionName(table, AddMonths(now, i)) in existing {
          assert PlanNames(table, now, ahead)[i] in PlanNames(table, now, ahead);
        }
      }
    }
  }
}
