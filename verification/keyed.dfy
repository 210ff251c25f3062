/** Lists of (key, value) pairs: the own properties of a JavaScript object in order. */
module Keyed {

  /** Order of `Array.prototype.sort()` on strings. */
  predicate StringBefore(a: string, b: string)
    decreases |a|
  {
    if b == "" then false
    else if a == "" then true
    else a[0] < b[0] || (a[0] == b[0] && StringBefore(a[1..], b[1..]))
  }

  /** At the first place where they differ `a` has the smaller character or has ended. */
  predicate Earlier(a: string, b: string) {
    exists i :: 0 <= i <= |a| && i < |b| && (i == |a| || a[i] < b[i]) && forall j :: 0 <= j < i ==> a[j] == b[j]
  }

  lemma {:induction false} StringBeforeMeaning(a: string, b: string)
    ensures StringBefore(a, b) <==> Earlier(a, b)
    decreases |a|
  {
    if b != "" && a == "" {
      assert 0 <= 0 <= |a| && 0 < |b|;
    } else if b != "" {
      var x, y := a[1..], b[1..];
      StringBeforeMeaning(x, y);
      if a[0] < b[0] {
        assert 0 <= 0 <= |a| && 0 < |b| && a[0] < b[0];
      } else if a[0] == b[0] && Earlier(x, y) {
        var i :| 0 <= i <= |x| && i < |y| && (i == |x| || x[i] < y[i]) && forall j :: 0 <= j < i ==> x[j] == y[j];
        assert forall j :: 0 <= j < i + 1 ==> a[j] == b[j] by {
          forall j | 0 < j < i + 1 ensures a[j] == b[j] { assert x[j - 1] == y[j - 1]; }
        }
        assert i + 1 == |a| || a[i + 1] == x[i];
        assert b[i + 1] == y[i];
      }
      if Earlier(a, b) && a[0] == b[0] {
        var i :| 0 <= i <= |a| && i < |b| && (i == |a| || a[i] < b[i]) && forall j :: 0 <= j < i ==> a[j] == b[j];
        assert i > 0;
        forall j | 0 <= j < i - 1 ensures x[j] == y[j] { assert a[j + 1] == b[j + 1]; }
        assert i == |a| || x[i - 1] == a[i];
        assert y[i - 1] == b[i];
      }
    }
  }

  lemma {:induction false} StringOrderTotal(a: string, b: string)
    ensures a == b || StringBefore(a, b) || StringBefore(b, a)
    decreases |a|
  {
    if a != "" && b != "" && a[0] == b[0] {
      StringOrderTotal(a[1..], b[1..]);
      assert a == [a[0]] + a[1..] && b == [b[0]] + b[1..];
    }
  }

  lemma {:induction false} StringOrderTransitive(a: string, b: string, c: string)
    requires StringBefore(a, b) && StringBefore(b, c)
    ensures StringBefore(a, c)
    decreases |a|
  {
    if a != "" && a[0] == b[0] == c[0] {
      StringOrderTransitive(a[1..], b[1..], c[1..]);
    }
  }

  lemma {:induction false} StringOrderIrreflexive(a: string)
    ensures !StringBefore(a, a)
  {
    if a != "" { StringOrderIrreflexive(a[1..]); }
  }

  predicate HasKey<T>(ms: seq<(string, T)>, k: string) {
    exists i :: 0 <= i < |ms| && ms[i].0 == k
  }

  predicate Distinct<T>(ms: seq<(string, T)>) {
    forall i, j :: 0 <= i < j < |ms| ==> ms[i].0 != ms[j].0
  }

  predicate Sorted<T>(ms: seq<(string, T)>) {
    forall i :: 0 <= i < |ms| - 1 ==> StringBefore(ms[i].0, ms[i + 1].0)
  }

  function Insert<T>(m: (string, T), ms: seq<(string, T)>): (r: seq<(string, T)>)
    ensures |r| == |ms| + 1
    ensures multiset(r) == multiset(ms) + multiset{m}
  {
    if ms == [] then [m]
    else if StringBefore(m.0, ms[0].0) then
      assert [m] + ms == [m] + ms;
      [m] + ms
    else
      assert ms == [ms[0]] + ms[1..];
      [ms[0]] + Insert(m, ms[1..])
  }

  /** The pairs in ascending key order. */
  function SortPairs<T>(ms: seq<(string, T)>): (r: seq<(string, T)>)
    ensures |r| == |ms|
    ensures multiset(r) == multiset(ms)
  {
    if ms == [] then []
    else
      assert ms == [ms[0]] + ms[1..];
      Insert(ms[0], SortPairs(ms[1..]))
  }

  /** Every pair of `a` is one of `b`. */
  predicate Within<T(==)>(a: seq<(string, T)>, b: seq<(string, T)>) {
    forall i :: 0 <= i < |a| ==> a[i] in b
  }

  lemma SamePairsWithin<T>(a: seq<(string, T)>, b: seq<(string, T)>)
    requires multiset(a) == multiset(b)
    ensures Within(a, b)
  {
    forall i | 0 <= i < |a| ensures a[i] in b {
      assert a[i] in multiset(a) && a[i] in multiset(b);
    }
  }

  lemma ConsSorted<T>(m: (string, T), ms: seq<(string, T)>)
    requires Sorted(ms) && (ms != [] ==> StringBefore(m.0, ms[0].0))
    ensures Sorted([m] + ms)
  {
    var r := [m] + ms;
    forall i | 0 <= i < |r| - 1 ensures StringBefore(r[i].0, r[i + 1].0) {
      if i > 0 { assert r[i] == ms[i - 1] && r[i + 1] == ms[i]; }
    }
  }

  lemma {:induction false} InsertSorted<T>(m: (string, T), ms: seq<(string, T)>)
    requires Sorted(ms) && !HasKey(ms, m.0)
    ensures Sorted(Insert(m, ms))
    ensures Insert(m, ms)[0] == m || (ms != [] && Insert(m, ms)[0] == ms[0])
  {
    if ms != [] && !StringBefore(m.0, ms[0].0) {
      assert ms[0].0 != m.0;
      StringOrderTotal(m.0, ms[0].0);
      assert forall i :: 0 <= i < |ms[1..]| ==> ms[1..][i] == ms[i + 1];
      InsertSorted(m, ms[1..]);
      ConsSorted(ms[0], Insert(m, ms[1..]));
    }
  }

  lemma {:induction false} SortPairsSorted<T>(ms: seq<(string, T)>)
    requires Distinct(ms)
    ensures Sorted(SortPairs(ms))
  {
    if ms != [] {
      SortPairsSorted(ms[1..]);
      var rest := SortPairs(ms[1..]);

      assert !HasKey(rest, ms[0].0) by {
        forall i | 0 <= i < |rest| ensures rest[i].0 != ms[0].0 {
          assert rest[i] in multiset(rest) && rest[i] in multiset(ms[1..]);
          var j :| 0 <= j < |ms[1..]| && ms[1..][j] == rest[i];
          assert ms[j + 1] == rest[i];
        }
      }
      InsertSorted(ms[0], rest);
    }
  }

  lemma {:induction false} SortedHeadLeast<T>(ms: seq<(string, T)>, i: nat)
    requires Sorted(ms) && 0 < i < |ms|
    ensures StringBefore(ms[0].0, ms[i].0)
  {
    if i > 1 {
      SortedHeadLeast(ms, i - 1);
      StringOrderTransitive(ms[0].0, ms[i - 1].0, ms[i].0);
    }
  }

  lemma SortedHeadsAgree<T>(a: seq<(string, T)>, b: seq<(string, T)>)
    requires Sorted(a) && Sorted(b) && a != [] && b != []
    requires a[0] in b && b[0] in a
    ensures a[0] == b[0]
  {
    var i :| 0 <= i < |b| && b[i] == a[0];
    var j :| 0 <= j < |a| && a[j] == b[0];
    if i > 0 && j > 0 {
      SortedHeadLeast(b, i);
      SortedHeadLeast(a, j);
      StringOrderTransitive(a[0].0, b[0].0, a[0].0);
      StringOrderIrreflexive(a[0].0);
    }
  }

  lemma SortedTailWithin<T>(a: seq<(string, T)>, b: seq<(string, T)>)
    requires Sorted(a) && a != [] && b != [] && a[0] == b[0] && Within(a, b)
    ensures Within(a[1..], b[1..])
  {
    forall i | 0 <= i < |a[1..]| ensures a[1..][i] in b[1..] {
      SortedHeadLeast(a, i + 1);
      StringOrderIrreflexive(a[0].0);
      assert a[i + 1] in b;
      var j :| 0 <= j < |b| && b[j] == a[i + 1];
      assert b[1..][j - 1] == b[j];
    }
  }

  /** Two sorted lists with the same pairs are the same list. */
  lemma {:induction false} SortedUnique<T>(a: seq<(string, T)>, b: seq<(string, T)>)
    requires Sorted(a) && Sorted(b) && Within(a, b) && Within(b, a)
    ensures a == b
    decreases |a|
  {
    if a == [] {
      assert forall i :: 0 <= i < |b| ==> b[i] in a;
    } else {
      assert a[0] in b;
      assert b[0] in a;
      SortedHeadsAgree(a, b);
      SortedTailWithin(a, b);
      SortedTailWithin(b, a);
      SortedUnique(a[1..], b[1..]);
      assert a == [a[0]] + a[1..] && b == [b[0]] + b[1..];
    }
  }

  /** Sorting identifies exactly the lists with the same pairs. */
  lemma SortPairsAgree<T>(a: seq<(string, T)>, b: seq<(string, T)>)
    requires Distinct(a) && Distinct(b)
    ensures SortPairs(a) == SortPairs(b) <==> Within(a, b) && Within(b, a)
  {
    var x, y := SortPairs(a), SortPairs(b);
    SamePairsWithin(a, x);
    SamePairsWithin(x, a);
    SamePairsWithin(b, y);
    SamePairsWithin(y, b);
    if x == y {
      WithinTransitive(a, x, b);
      WithinTransitive(b, x, a);
    }
    if Within(a, b) && Within(b, a) {
      WithinTransitive(x, a, b);
      WithinTransitive(x, b, y);
      WithinTransitive(y, b, a);
      WithinTransitive(y, a, x);
      SortPairsSorted(a);
      SortPairsSorted(b);
      SortedUnique(x, y);
    }
  }

  lemma WithinTransitive<T>(a: seq<(string, T)>, b: seq<(string, T)>, c: seq<(string, T)>)
    requires Within(a, b) && Within(b, c)
    ensures Within(a, c)
  {
    forall i | 0 <= i < |a| ensures a[i] in c {
      assert a[i] in b;
      var j :| 0 <= j < |b| && b[j] == a[i];
      assert b[j] in c;
    }
  }

  lemma SortPairsDistinct<T>(ms: seq<(string, T)>)
    requires Distinct(ms)
    ensures Distinct(SortPairs(ms))
  {
    var r := SortPairs(ms);
    SortPairsSorted(ms);
    forall i, j | 0 <= i < j < |r| ensures r[i].0 != r[j].0 {
      assert Sorted(r[i..]);
      SortedHeadLeast(r[i..], j - i);
      StringOrderIrreflexive(r[i].0);
    }
  }

  /** `f` on every value, keys kept. */
  function MapValues<T, U>(f: T -> U, ms: seq<(string, T)>): (r: seq<(string, U)>)
    ensures |r| == |ms|
    ensures forall i :: 0 <= i < |ms| ==> r[i] == (ms[i].0, f(ms[i].1))
  {
    seq(|ms|, i requires 0 <= i < |ms| => (ms[i].0, f(ms[i].1)))
  }

  lemma MapValuesCons<T, U>(f: T -> U, m: (string, T), ms: seq<(string, T)>)
    ensures MapValues(f, [m] + ms) == [(m.0, f(m.1))] + MapValues(f, ms)
  {
  }

  lemma {:induction false} InsertMap<T, U>(f: T -> U, m: (string, T), ms: seq<(string, T)>)
    ensures Insert((m.0, f(m.1)), MapValues(f, ms)) == MapValues(f, Insert(m, ms))
  {
    if ms == [] {
    } else if StringBefore(m.0, ms[0].0) {
      MapValuesCons(f, m, ms);
    } else {
      InsertMap(f, m, ms[1..]);
      assert MapValues(f, ms)[1..] == MapValues(f, ms[1..]);
      MapValuesCons(f, ms[0], Insert(m, ms[1..]));
    }
  }

  /** Sorting looks at keys only, so it commutes with any function on values. */
  lemma {:induction false} SortMap<T, U>(f: T -> U, ms: seq<(string, T)>)
    ensures SortPairs(MapValues(f, ms)) == MapValues(f, SortPairs(ms))
  {
    if ms != [] {
      SortMap(f, ms[1..]);
      assert MapValues(f, ms)[1..] == MapValues(f, ms[1..]);
      InsertMap(f, ms[0], SortPairs(ms[1..]));
    }
  }
}
