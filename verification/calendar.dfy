/** The proleptic Gregorian calendar in UTC: how timestamps and months lie on one timeline. */
module Calendar {

  const DAY_MICROS: nat := 86_400_000_000

  predicate Leap(y: nat) {
    y % 4 == 0 && (y % 100 != 0 || y % 400 == 0)
  }

  function DaysIn(y: nat, m: nat): (d: nat)
    requires 1 <= m <= 12
    ensures 28 <= d <= 31
  {
    if m == 2 then (if Leap(y) then 29 else 28)
    else if m == 4 || m == 6 || m == 9 || m == 11 then 30
    else 31
  }

  function DaysBeforeMonth(y: nat, m: nat): nat
    requires 1 <= m <= 13
  {
    if m == 1 then 0 else DaysBeforeMonth(y, m - 1) + DaysIn(y, m - 1)
  }

  /** Days from 0001-01-01 to the first of January of `y`. */
  function DaysBeforeYear(y: nat): int
    requires y >= 1
  {
    365 * (y - 1) + (y - 1) / 4 - (y - 1) / 100 + (y - 1) / 400
  }

  datatype Date = Date(year: nat, month: nat, day: nat)

  predicate RealDate(d: Date) {
    1 <= d.year && 1 <= d.month <= 12 && 1 <= d.day <= DaysIn(d.year, d.month)
  }

  function DayNumber(d: Date): int
    requires RealDate(d)
  {
    DaysBeforeYear(d.year) + DaysBeforeMonth(d.year, d.month) + d.day - 1
  }

  lemma {:induction false} MonthsGrow(y: nat, m: nat, n: nat)
    requires 1 <= m < n <= 13
    ensures DaysBeforeMonth(y, m) + DaysIn(y, m) <= DaysBeforeMonth(y, n)
    decreases n
  {
    if m + 1 < n { MonthsGrow(y, m, n - 1); }
  }

  lemma YearLength(y: nat)
    requires 1 <= y
    ensures DaysBeforeMonth(y, 13) == if Leap(y) then 366 else 365
  {
    assert DaysBeforeMonth(y, 2) == 31;
    assert DaysBeforeMonth(y, 3) == 31 + DaysIn(y, 2);
    var march := DaysBeforeMonth(y, 3);
    assert DaysBeforeMonth(y, 4) == march + 31;
    assert DaysBeforeMonth(y, 5) == march + 61;
    assert DaysBeforeMonth(y, 6) == march + 92;
    assert DaysBeforeMonth(y, 7) == march + 122;
    assert DaysBeforeMonth(y, 8) == march + 153;
    assert DaysBeforeMonth(y, 9) == march + 184;
    assert DaysBeforeMonth(y, 10) == march + 214;
    assert DaysBeforeMonth(y, 11) == march + 245;
    assert DaysBeforeMonth(y, 12) == march + 275;
  }

  /** Months of 30 and 31 days alternate, with July and August together; February has 28 days,
      29 in every fourth year, but in every hundredth only if it is a four hundredth. */
  lemma MonthLengths(y: nat, m: nat)
    requires 1 <= m <= 12
    ensures m != 2 ==> DaysIn(y, m) == 30 + (m + m / 8) % 2
    ensures m == 2 ==> (DaysIn(y, m) == 29 <==> (y % 4 == 0 && y % 100 != 0) || y % 400 == 0)
    ensures m == 2 ==> DaysIn(y, m) == 28 || DaysIn(y, m) == 29
  {
    Multiples(y);
  }

  /** The first of January 1970 is day 719162, and a leap day is a day. */
  lemma KnownDays()
    ensures DayNumber(Date(1970, 1, 1)) == 719_162
    ensures DayNumber(Date(2024, 3, 1)) == DayNumber(Date(1970, 1, 1)) + 19_783
  {
    assert DaysBeforeMonth(2024, 2) == 31;
  }

  lemma Multiples(y: nat)
    ensures y % 400 == 0 ==> y % 100 == 0
    ensures y % 100 == 0 ==> y % 4 == 0
  {
    if y % 400 == 0 { DivUnique(y, 100, y / 400 * 4, 0); }
    if y % 100 == 0 { DivUnique(y, 4, y / 100 * 25, 0); }
  }

  lemma NextYear(y: nat)
    requires 1 <= y
    ensures DaysBeforeYear(y + 1) == DaysBeforeYear(y) + DaysBeforeMonth(y, 13)
  {
    YearLength(y);
    Multiples(y);
    Quotient(y, 4);
    Quotient(y, 100);
    Quotient(y, 400);
    var q4, q100, q400 := (y - 1) / 4, (y - 1) / 100, (y - 1) / 400;
    assert DaysBeforeYear(y) == 365 * (y - 1) + q4 - q100 + q400;
    assert DaysBeforeYear(y + 1) == 365 * y + y / 4 - y / 100 + y / 400;
  }

  lemma Quotient(y: nat, k: nat)
    requires 1 <= y && 1 <= k
    ensures y / k == (y - 1) / k + (if y % k == 0 then 1 else 0)
  {
    var q, r := y / k, y % k;
    assert y == q * k + r;
    if r == 0 {
      assert y - 1 == (q - 1) * k + (k - 1);
      DivUnique(y - 1, k, q - 1, k - 1);
    } else {
      assert y - 1 == q * k + (r - 1);
      DivUnique(y - 1, k, q, r - 1);
    }
  }

  lemma DivUnique(n: int, k: nat, q: int, r: nat)
    requires 1 <= k && n == q * k + r && r < k
    ensures n / k == q && n % k == r
  {
    var d := n / k - q;
    assert d * k == r - n % k;
    assert d >= 1 ==> d * k >= k;
    assert d <= -1 ==> d * k + k <= 0;
  }

  lemma {:induction false} YearsGrow(y: nat, z: nat)
    requires 1 <= y < z
    ensures DaysBeforeYear(y) + DaysBeforeMonth(y, 13) <= DaysBeforeYear(z)
    decreases z
  {
    NextYear(z - 1);
    if y < z - 1 { YearsGrow(y, z - 1); }
  }

  predicate Earlier(a: Date, b: Date) {
    a.year < b.year || (a.year == b.year && (a.month < b.month || (a.month == b.month && a.day < b.day)))
  }

  lemma EarlierGrows(a: Date, b: Date)
    requires RealDate(a) && RealDate(b) && Earlier(a, b)
    ensures DayNumber(a) < DayNumber(b)
  {
    if a.year < b.year {
      YearsGrow(a.year, b.year);
      MonthsGrow(a.year, a.month, 13);
    } else if a.month < b.month {
      MonthsGrow(a.year, a.month, b.month);
    }
  }

  /** The calendar is a strictly growing numbering of the days. */
  lemma DateOrder(a: Date, b: Date)
    requires RealDate(a) && RealDate(b)
    ensures DayNumber(a) < DayNumber(b) <==> Earlier(a, b)
    ensures DayNumber(a) == DayNumber(b) <==> a == b
  {
    if Earlier(a, b) { EarlierGrows(a, b); }
    if Earlier(b, a) { EarlierGrows(b, a); }
  }

  lemma DayNumberNonNegative(d: Date)
    requires RealDate(d)
    ensures DayNumber(d) >= 0
  {
    if d != Date(1, 1, 1) {
      EarlierGrows(Date(1, 1, 1), d);
    }
    assert DayNumber(Date(1, 1, 1)) == 0;
  }

  // ----- timestamps -----

  datatype Stamp = Stamp(date: Date, hour: nat, minute: nat, second: nat, micro: nat)

  predicate RealStamp(s: Stamp) {
    RealDate(s.date) && s.hour < 24 && s.minute < 60 && s.second < 60 && s.micro < 1_000_000
  }

  function TimeOfDay(s: Stamp): nat {
    ((s.hour * 60 + s.minute) * 60 + s.second) * 1_000_000 + s.micro
  }

  /** Microseconds since 0001-01-01T00:00:00Z. */
  function Micros(s: Stamp): nat
    requires RealStamp(s)
  {
    DayNumberNonNegative(s.date);
    DayNumber(s.date) * DAY_MICROS + TimeOfDay(s)
  }

  /** `YYYYMMDDhhmmssffffff` read as one decimal number. */
  function Packed(s: Stamp): nat {
    ((s.date.year * 100 + s.date.month) * 100 + s.date.day) * 1_000_000_000_000
      + ((s.hour * 100 + s.minute) * 100 + s.second) * 1_000_000 + s.micro
  }

  function Unpack(n: nat): Stamp {
    var date, time := n / 1_000_000_000_000, n % 1_000_000_000_000;
    Stamp(Date(date / 10_000, date / 100 % 100, date % 100),
          time / 10_000_000_000, time / 100_000_000 % 100, time / 1_000_000 % 100, time % 1_000_000)
  }

  lemma Hundreds(n: nat)
    ensures (n / 10_000 * 100 + n / 100 % 100) * 100 + n % 100 == n
  {
    var q := n / 100;
    DivUnique(n, 10_000, q / 100, q % 100 * 100 + n % 100);
  }

  lemma Millions(n: nat)
    ensures n / 10_000_000_000 == n / 1_000_000 / 10_000
    ensures n / 100_000_000 == n / 1_000_000 / 100
  {
    var q, r := n / 1_000_000, n % 1_000_000;
    DivUnique(n, 10_000_000_000, q / 10_000, q % 10_000 * 1_000_000 + r);
    DivUnique(n, 100_000_000, q / 100, q % 100 * 1_000_000 + r);
  }

  lemma UnpackIsInverse(n: nat)
    ensures Packed(Unpack(n)) == n
  {
    Hundreds(n / 1_000_000_000_000);
    Millions(n % 1_000_000_000_000);
    Hundreds(n % 1_000_000_000_000 / 1_000_000);
  }

  predicate EarlierTime(a: Stamp, b: Stamp) {
    a.hour < b.hour || (a.hour == b.hour && (a.minute < b.minute || (a.minute == b.minute &&
      (a.second < b.second || (a.second == b.second && a.micro < b.micro)))))
  }

  lemma TimeOrder(a: Stamp, b: Stamp)
    requires RealStamp(a) && RealStamp(b)
    ensures TimeOfDay(a) < TimeOfDay(b) <==> EarlierTime(a, b)
    ensures TimeOfDay(a) < DAY_MICROS
  {
  }

  lemma PackedOrder(a: Stamp, b: Stamp)
    requires RealStamp(a) && RealStamp(b)
    ensures Packed(a) < Packed(b) <==> Earlier(a.date, b.date) || (a.date == b.date && EarlierTime(a, b))
  {
    assert a.date.day < 100 && b.date.day < 100 && a.date.month < 100 && b.date.month < 100;
    var p := (a.date.year * 100 + a.date.month) * 100 + a.date.day;
    var q := (b.date.year * 100 + b.date.month) * 100 + b.date.day;
    assert p < q <==> Earlier(a.date, b.date);
    assert p == q <==> a.date == b.date;
  }

  /** Reading timestamps as decimal numbers orders them in time. */
  lemma MicrosOrder(a: Stamp, b: Stamp)
    requires RealStamp(a) && RealStamp(b)
    ensures Micros(a) < Micros(b) <==> Packed(a) < Packed(b)
  {
    DateOrder(a.date, b.date);
    TimeOrder(a, b);
    TimeOrder(b, a);
    PackedOrder(a, b);
  }
}
