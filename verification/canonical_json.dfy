/** The canonical JSON of `changes` and `metadata` in a CSV export. */
module CanonicalJson {
  import opened Keyed
  import opened Values

  /** What JSON keeps of a value: no undefined members, null for an undefined item, the ISO
      string for a date. */
  function JsonView(v: Value): Value
    decreases v, 1
  {
    match v
    case Undefined => Null
    case Date(t) => Str(t)
    case Arr(items) => Arr(ViewItems(items))
    case Obj(ms) => Obj(ViewMembers(ms))
    case _ => v
  }

  function ViewItems(vs: seq<Value>): (r: seq<Value>)
    ensures |r| == |vs| && forall i :: 0 <= i < |vs| ==> r[i] == JsonView(vs[i])
    decreases vs, 0
  {
    if vs == [] then [] else [JsonView(vs[0])] + ViewItems(vs[1..])
  }

  function ViewMember(m: (string, Value)): (string, Value)
    decreases m, 0
  {
    (m.0, JsonView(m.1))
  }

  function ViewMembers(ms: seq<(string, Value)>): seq<(string, Value)>
    decreases ms, 0
  {
    if ms == [] then []
    else if ms[0].1.Undefined? then ViewMembers(ms[1..])
    else [ViewMember(ms[0])] + ViewMembers(ms[1..])
  }

  predicate Digits(s: string) {
    s != "" && forall i :: 0 <= i < |s| ==> '0' <= s[i] <= '9'
  }

  /** An array index in its canonical printing, below 2^32 - 1; such properties come first. */
  predicate IsIndex(key: string) {
    && Digits(key) && (key == "0" || key[0] != '0')
    && (|key| < 10 || (|key| == 10 && StringBefore(key, "4294967295")))
  }

  predicate IndexBefore(a: string, b: string) {
    |a| < |b| || (|a| == |b| && StringBefore(a, b))
  }

  function InsertIndex(m: (string, Value), ms: seq<(string, Value)>): (r: seq<(string, Value)>)
    ensures multiset(r) == multiset(ms) + multiset{m} && |r| == |ms| + 1
  {
    if ms == [] then [m]
    else if IndexBefore(m.0, ms[0].0) then [m] + ms
    else
      assert ms == [ms[0]] + ms[1..];
      [ms[0]] + InsertIndex(m, ms[1..])
  }

  function Indexes(ms: seq<(string, Value)>): seq<(string, Value)> {
    if ms == [] then []
    else if IsIndex(ms[0].0) then InsertIndex(ms[0], Indexes(ms[1..]))
    else Indexes(ms[1..])
  }

  function Names(ms: seq<(string, Value)>): seq<(string, Value)> {
    if ms == [] then []
    else if IsIndex(ms[0].0) then Names(ms[1..])
    else [ms[0]] + Names(ms[1..])
  }

  /** Order of an object's own keys: array indexes ascending, then the others as inserted. */
  function OwnOrder(ms: seq<(string, Value)>): seq<(string, Value)> {
    Indexes(ms) + Names(ms)
  }

  /** Every object rebuilt with its keys inserted in sorted order. */
  function Ordered(v: Value): Value
    decreases v, 1
  {
    match v
    case Arr(items) => Arr(OrderedItems(items))
    case Obj(ms) => Obj(OwnOrder(SortPairs(OrderedMembers(ms))))
    case _ => v
  }

  function OrderedItems(vs: seq<Value>): (r: seq<Value>)
    ensures |r| == |vs| && forall i :: 0 <= i < |vs| ==> r[i] == Ordered(vs[i])
    decreases vs, 0
  {
    if vs == [] then [] else [Ordered(vs[0])] + OrderedItems(vs[1..])
  }

  function OrderedMember(m: (string, Value)): (string, Value)
    decreases m, 0
  {
    (m.0, Ordered(m.1))
  }

  function OrderedMembers(ms: seq<(string, Value)>): (r: seq<(string, Value)>)
    ensures |r| == |ms| && forall i :: 0 <= i < |ms| ==> r[i] == OrderedMember(ms[i])
    decreases ms, 0
  {
    if ms == [] then [] else [OrderedMember(ms[0])] + OrderedMembers(ms[1..])
  }

  function Canonical(v: Value): Value {
    Ordered(JsonView(v))
  }

  /** `canonicalJson` */
  function JsonText(v: Value): string {
    Text(Canonical(v))
  }

  /** What `canonicalize` keeps of a list of members. */
  function Kept(ms: seq<(string, Value)>): seq<(string, Value)> {
    OrderedMembers(ViewMembers(ms))
  }

  /** What one member adds. */
  function Keep(m: (string, Value)): seq<(string, Value)> {
    if m.1.Undefined? then [] else [(m.0, Canonical(m.1))]
  }

  lemma KeptCons(ms: seq<(string, Value)>)
    requires ms != []
    ensures Kept(ms) == Keep(ms[0]) + Kept(ms[1..])
  {
    if ms[0].1.Undefined? {
    } else {
      var rest := ViewMembers(ms[1..]);
      assert ViewMembers(ms) == [ViewMember(ms[0])] + rest;
      assert ([ViewMember(ms[0])] + rest)[1..] == rest;
    }
  }

  lemma Assoc(a: seq<(string, Value)>, b: seq<(string, Value)>, c: seq<(string, Value)>)
    ensures (a + b) + c == a + (b + c)
  {
  }

  lemma {:induction false} KeptPush(ms: seq<(string, Value)>, m: (string, Value))
    ensures Kept(ms + [m]) == Kept(ms) + Keep(m)
    decreases |ms|
  {
    KeptCons(ms + [m]);
    if ms == [] {
      assert ms + [m] == [m] && Kept([]) == [];
    } else {
      KeptCons(ms);
      assert (ms + [m])[1..] == ms[1..] + [m];
      KeptPush(ms[1..], m);
      Assoc(Keep(ms[0]), Kept(ms[1..]), Keep(m));
    }
  }

  lemma {:induction false} KeptHead(ms: seq<(string, Value)>)
    requires Sorted(ms) && Kept(ms) != []
    ensures ms != [] && (ms[0].0 == Kept(ms)[0].0 || StringBefore(ms[0].0, Kept(ms)[0].0))
  {
    if ms != [] {
      KeptCons(ms);
      if ms[0].1.Undefined? {
        KeptHead(ms[1..]);
        if StringBefore(ms[1].0, Kept(ms)[0].0) {
          StringOrderTransitive(ms[0].0, ms[1].0, Kept(ms)[0].0);
        }
      }
    }
  }

  /** A kept member that sorts before a list sorts before what is kept of it. */
  lemma KeptInsertFirst(m: (string, Value), ms: seq<(string, Value)>)
    requires Sorted(ms) && ms != [] && StringBefore(m.0, ms[0].0)
    ensures Insert((m.0, Canonical(m.1)), Kept(ms)) == [(m.0, Canonical(m.1))] + Kept(ms)
  {
    if Kept(ms) != [] {
      KeptHead(ms);
      if ms[0].0 != Kept(ms)[0].0 {
        StringOrderTransitive(m.0, ms[0].0, Kept(ms)[0].0);
      }
    }
  }

  lemma {:induction false} KeptInsert(m: (string, Value), ms: seq<(string, Value)>)
    requires Sorted(ms)
    ensures Kept(Insert(m, ms)) == if m.1.Undefined? then Kept(ms) else Insert((m.0, Canonical(m.1)), Kept(ms))
  {
    KeptCons(Insert(m, ms));
    if ms == [] {
      assert Kept([]) == [];
    } else if StringBefore(m.0, ms[0].0) {
      KeptInsertFirst(m, ms);
      assert ([m] + ms)[1..] == ms;
    } else {
      KeptCons(ms);
      KeptInsert(m, ms[1..]);
      assert Insert(m, ms)[1..] == Insert(m, ms[1..]);
      assert Keep(ms[0]) != [] ==> Kept(ms)[1..] == Kept(ms[1..]);
    }
  }

  lemma {:induction false} KeptSorted(ms: seq<(string, Value)>)
    requires Distinct(ms)
    ensures Kept(SortPairs(ms)) == SortPairs(Kept(ms))
  {
    if ms != [] {
      KeptCons(ms);
      assert Distinct(ms[1..]);
      KeptSorted(ms[1..]);
      SortPairsSorted(ms[1..]);
      KeptInsert(ms[0], SortPairs(ms[1..]));
      SortKept(ms[0], Kept(ms[1..]));
    }
  }

  lemma SortKept(m: (string, Value), rest: seq<(string, Value)>)
    ensures SortPairs(Keep(m) + rest) ==
      if m.1.Undefined? then SortPairs(rest) else Insert((m.0, Canonical(m.1)), SortPairs(rest))
  {
    if m.1.Undefined? {
      assert Keep(m) + rest == rest;
    } else {
      assert (Keep(m) + rest)[1..] == rest;
    }
  }

  lemma ItemsPush(vs: seq<Value>, v: Value)
    ensures OrderedItems(ViewItems(vs + [v])) == OrderedItems(ViewItems(vs)) + [Canonical(v)]
  {
    assert ViewItems(vs + [v]) == ViewItems(vs) + [JsonView(v)];
  }

  // ----- the order of keys -----

  /** Array indexes first, the smaller the earlier; then the other keys in sorted order. */
  predicate KeyBefore(a: string, b: string) {
    if IsIndex(a) then IsIndex(b) ==> IndexBefore(a, b) else !IsIndex(b) && StringBefore(a, b)
  }

  lemma IndexOrder(a: string, b: string, c: string)
    ensures a == b || IndexBefore(a, b) || IndexBefore(b, a)
    ensures IndexBefore(a, b) && IndexBefore(b, c) ==> IndexBefore(a, c)
  {
    StringOrderTotal(a, b);
    if StringBefore(a, b) && StringBefore(b, c) { StringOrderTransitive(a, b, c); }
  }

  predicate IndexesOrdered(ms: seq<(string, Value)>) {
    && (forall i :: 0 <= i < |ms| ==> IsIndex(ms[i].0))
    && forall i, j :: 0 <= i < j < |ms| ==> IndexBefore(ms[i].0, ms[j].0)
  }

  lemma {:induction false} InsertIndexOrdered(m: (string, Value), ms: seq<(string, Value)>)
    requires IndexesOrdered(ms) && IsIndex(m.0) && forall i :: 0 <= i < |ms| ==> ms[i].0 != m.0
    ensures IndexesOrdered(InsertIndex(m, ms))
    ensures forall x :: x in InsertIndex(m, ms) ==> x == m || x in ms
  {
    if ms != [] {
      if IndexBefore(m.0, ms[0].0) {
        forall j | 0 <= j < |ms| ensures IndexBefore(m.0, ms[j].0) {
          if j > 0 { IndexOrder(m.0, ms[0].0, ms[j].0); }
        }
      } else {
        var rest := ms[1..];
        InsertIndexOrdered(m, rest);
        IndexOrder(ms[0].0, m.0, m.0);
        var more := InsertIndex(m, rest);
        forall j | 0 <= j < |more| ensures IndexBefore(ms[0].0, more[j].0) {
          assert more[j] in more;
          if more[j] in rest {
            var k :| 0 <= k < |rest| && rest[k] == more[j];
            assert ms[k + 1] == rest[k];
          }
        }
      }
    }
  }

  lemma {:induction false} IndexesSorted(ms: seq<(string, Value)>)
    requires Distinct(ms)
    ensures IndexesOrdered(Indexes(ms)) && forall x :: x in Indexes(ms) ==> x in ms
  {
    if ms != [] {
      var rest := ms[1..];
      IndexesSorted(rest);
      if IsIndex(ms[0].0) {
        forall i | 0 <= i < |Indexes(rest)| ensures Indexes(rest)[i].0 != ms[0].0 {
          assert Indexes(rest)[i] in rest;
        }
        InsertIndexOrdered(ms[0], Indexes(rest));
      }
    }
  }

  predicate NamesOrdered(ms: seq<(string, Value)>) {
    && (forall i :: 0 <= i < |ms| ==> !IsIndex(ms[i].0))
    && forall i, j :: 0 <= i < j < |ms| ==> StringBefore(ms[i].0, ms[j].0)
  }

  lemma {:induction false} SortedApart(ms: seq<(string, Value)>, j: nat)
    requires Sorted(ms) && 0 < j < |ms|
    ensures StringBefore(ms[0].0, ms[j].0)
  {
    assert StringBefore(ms[j - 1].0, ms[j - 1 + 1].0);
    if j > 1 {
      SortedApart(ms, j - 1);
      StringOrderTransitive(ms[0].0, ms[j - 1].0, ms[j].0);
    }
  }

  lemma {:induction false} NamesSorted(ms: seq<(string, Value)>)
    requires Sorted(ms)
    ensures NamesOrdered(Names(ms)) && forall x :: x in Names(ms) ==> x in ms
  {
    if ms != [] {
      var rest := ms[1..];
      assert forall i :: 0 <= i < |rest| ==> rest[i] == ms[i + 1];
      NamesSorted(rest);
      forall j | 0 <= j < |Names(rest)| ensures StringBefore(ms[0].0, Names(rest)[j].0) {
        assert Names(rest)[j] in rest;
        var k :| 0 <= k < |rest| && rest[k] == Names(rest)[j];
        SortedApart(ms, k + 1);
      }
    }
  }

  /** A canonical object prints its keys in that order. */
  lemma KeysInOrder(ms: seq<(string, Value)>)
    requires Distinct(ms)
    ensures var own := OwnOrder(SortPairs(ms));
      forall i, j :: 0 <= i < j < |own| ==> KeyBefore(own[i].0, own[j].0)
  {
    var sorted := SortPairs(ms);
    SortPairsSorted(ms);
    DistinctByPairs(ms, sorted);
    IndexesSorted(sorted);
    NamesSorted(sorted);
  }

  // ----- what canonical JSON distinguishes -----

  lemma {:induction false} ViewMembersFrom(ms: seq<(string, Value)>, i: nat) returns (k: nat)
    requires i < |ViewMembers(ms)|
    ensures k < |ms| && !ms[k].1.Undefined? && ViewMembers(ms)[i] == ViewMember(ms[k]) && k >= i
  {
    if ms[0].1.Undefined? {
      k := ViewMembersFrom(ms[1..], i);
      k := k + 1;
    } else if i == 0 {
      k := 0;
    } else {
      k := ViewMembersFrom(ms[1..], i - 1);
      k := k + 1;
    }
  }

  lemma {:induction false} ViewMembersDistinct(ms: seq<(string, Value)>)
    requires Distinct(ms)
    ensures Distinct(ViewMembers(ms))
  {
    if ms != [] {
      ViewMembersDistinct(ms[1..]);
      forall i | 0 <= i < |ViewMembers(ms[1..])| ensures ViewMembers(ms[1..])[i].0 != ms[0].0 {
        var k := ViewMembersFrom(ms[1..], i);
        assert ms[k + 1] == ms[1..][k];
      }
    }
  }

  lemma {:induction false} ViewWellFormed(v: Value)
    requires WellFormed(v)
    ensures WellFormed(JsonView(v))
    decreases v
  {
    match v
    case Arr(items) =>
      forall i | 0 <= i < |items| ensures WellFormed(ViewItems(items)[i]) {
        ViewWellFormed(items[i]);
      }
    case Obj(ms) =>
      ViewMembersDistinct(ms);
      forall i | 0 <= i < |ViewMembers(ms)|
        ensures ViewMembers(ms)[i].0 != "__proto__" && WellFormed(ViewMembers(ms)[i].1)
      {
        var k := ViewMembersFrom(ms, i);
        ViewWellFormed(ms[k].1);
      }
    case _ =>
  }

  lemma {:induction false} OwnOrderSamePairs(ms: seq<(string, Value)>)
    ensures multiset(OwnOrder(ms)) == multiset(ms)
  {
    if ms != [] {
      OwnOrderSamePairs(ms[1..]);
      assert ms == [ms[0]] + ms[1..];
      assert multiset(OwnOrder(ms)) == multiset(Indexes(ms)) + multiset(Names(ms));
      assert multiset(OwnOrder(ms[1..])) == multiset(Indexes(ms[1..])) + multiset(Names(ms[1..]));
    }
  }

  /** Equal own order means equal pairs, as it does for sorted order. */
  lemma OwnOrderAgree(a: seq<(string, Value)>, b: seq<(string, Value)>)
    requires Distinct(a) && Distinct(b)
    ensures OwnOrder(SortPairs(a)) == OwnOrder(SortPairs(b)) <==> Within(a, b) && Within(b, a)
  {
    SortPairsAgree(a, b);
    OwnOrderSamePairs(SortPairs(a));
    OwnOrderSamePairs(SortPairs(b));
    if OwnOrder(SortPairs(a)) == OwnOrder(SortPairs(b)) {
      SamePairsWithin(a, b);
      SamePairsWithin(b, a);
    }
  }

  lemma {:induction false} OrderedMeaning(a: Value, b: Value)
    requires WellFormed(a) && WellFormed(b)
    ensures Ordered(a) == Ordered(b) <==> Equiv(a, b)
    decreases a
  {
    match (a, b)
    case (Arr(xs), Arr(ys)) =>
      forall i | 0 <= i < |xs| && 0 <= i < |ys|
        ensures OrderedItems(xs)[i] == OrderedItems(ys)[i] <==> Equiv(xs[i], ys[i])
      {
        OrderedMeaning(xs[i], ys[i]);
      }
    case (Obj(ms), Obj(ns)) =>
      forall i, j | 0 <= i < |ms| && 0 <= j < |ns|
        ensures OrderedMembers(ms)[i] == OrderedMembers(ns)[j] <==> SameMember(ms[i], ns[j])
      {
        OrderedMeaning(ms[i].1, ns[j].1);
      }
      assert Distinct(OrderedMembers(ms)) && Distinct(OrderedMembers(ns));
      OwnOrderAgree(OrderedMembers(ms), OrderedMembers(ns));
      MembersWithin(ms, ns, OrderedMembers(ms), OrderedMembers(ns));
    case _ =>
  }

  lemma DistinctByPairs(a: seq<(string, Value)>, b: seq<(string, Value)>)
    requires Distinct(a) && multiset(a) == multiset(b)
    ensures Distinct(b)
  {
    forall i, j | 0 <= i < j < |b| ensures b[i].0 != b[j].0 {
      if b[i].0 == b[j].0 {
        SamePairsWithin(b, a);
        var k :| 0 <= k < |a| && a[k] == b[i];
        var l :| 0 <= l < |a| && a[l] == b[j];
        assert k == l;
        TwiceIn(b, i, j);
        OnceIn(a, k);
      }
    }
  }

  lemma TwiceIn(b: seq<(string, Value)>, i: nat, j: nat)
    requires i < j < |b| && b[i] == b[j]
    ensures multiset(b)[b[i]] >= 2
  {
    assert b == b[..j] + [b[j]] + b[j + 1..];
    assert b[..j][i] == b[i];
    assert b[i] in multiset(b[..j]);
  }

  lemma OnceIn(a: seq<(string, Value)>, k: nat)
    requires Distinct(a) && k < |a|
    ensures multiset(a)[a[k]] == 1
  {
    assert a == a[..k] + [a[k]] + a[k + 1..];
    assert a[k] !in a[..k] && a[k] !in a[k + 1..];
    assert multiset(a) == multiset(a[..k]) + multiset{a[k]} + multiset(a[k + 1..]);
  }

  lemma {:induction false} OrderedWellFormed(v: Value)
    requires WellFormed(v)
    ensures WellFormed(Ordered(v))
    decreases v
  {
    match v
    case Arr(items) =>
      forall i | 0 <= i < |items| ensures WellFormed(OrderedItems(items)[i]) {
        OrderedWellFormed(items[i]);
      }
    case Obj(ms) =>
      var om := OrderedMembers(ms);
      forall i | 0 <= i < |ms| ensures om[i].0 != "__proto__" && WellFormed(om[i].1) {
        OrderedWellFormed(ms[i].1);
      }
      assert Distinct(om);
      var own := OwnOrder(SortPairs(om));
      OwnOrderSamePairs(SortPairs(om));
      DistinctByPairs(om, own);
      SamePairsWithin(own, om);
      forall i | 0 <= i < |own| ensures own[i].0 != "__proto__" && WellFormed(own[i].1) {
        assert own[i] in om;
      }
    case _ =>
  }

  /** Two values have the same canonical JSON exactly when JSON keeps the same of both, up to
      the order of object keys. */
  lemma JsonTextMeaning(a: Value, b: Value)
    requires WellFormed(a) && WellFormed(b)
    ensures JsonText(a) == JsonText(b) <==> Equiv(JsonView(a), JsonView(b))
  {
    ViewWellFormed(a);
    ViewWellFormed(b);
    OrderedMeaning(JsonView(a), JsonView(b));
    if JsonText(a) == JsonText(b) {
      OrderedWellFormed(JsonView(a));
      OrderedWellFormed(JsonView(b));
      assert JsonText(a) + "" == JsonText(b) + "";
      TextPrefix(Canonical(a), Canonical(b), "", "");
    }
  }

  lemma {:induction false} ViewMembersTo(ms: seq<(string, Value)>, k: nat) returns (i: nat)
    requires k < |ms| && !ms[k].1.Undefined?
    ensures i < |ViewMembers(ms)| && ViewMembers(ms)[i] == ViewMember(ms[k])
  {
    if k == 0 {
      i := 0;
    } else {
      i := ViewMembersTo(ms[1..], k - 1);
      i := if ms[0].1.Undefined? then i else i + 1;
    }
  }

  lemma EquivUndefined(a: Value, b: Value)
    requires Equiv(a, b)
    ensures a.Undefined? <==> b.Undefined?
  {
  }

  /** Matching survives the view. */
  ghost predicate ViewsMatch(ms: seq<(string, Value)>, ns: seq<(string, Value)>) {
    forall k, l :: 0 <= k < |ms| && 0 <= l < |ns| && SameMember(ms[k], ns[l]) ==>
      SameMember(ViewMember(ms[k]), ViewMember(ns[l]))
  }

  lemma ViewHasMatch(ms: seq<(string, Value)>, ns: seq<(string, Value)>, i: nat)
    requires i < |ViewMembers(ms)| && ViewsMatch(ms, ns)
    requires forall k :: 0 <= k < |ms| ==> HasMatch(ms[k], ns)
    ensures HasMatch(ViewMembers(ms)[i], ViewMembers(ns))
  {
    var k := ViewMembersFrom(ms, i);
    assert HasMatch(ms[k], ns);
    var l :| 0 <= l < |ns| && SameMember(ms[k], ns[l]);
    EquivUndefined(ms[k].1, ns[l].1);
    var j := ViewMembersTo(ns, l);
    assert SameMember(ViewMembers(ms)[i], ViewMembers(ns)[j]);
  }

  lemma ViewIsMatched(ms: seq<(string, Value)>, ns: seq<(string, Value)>, j: nat)
    requires j < |ViewMembers(ns)| && ViewsMatch(ms, ns)
    requires forall l :: 0 <= l < |ns| ==> IsMatched(ms, ns[l])
    ensures IsMatched(ViewMembers(ms), ViewMembers(ns)[j])
  {
    var l := ViewMembersFrom(ns, j);
    assert IsMatched(ms, ns[l]);
    var k :| 0 <= k < |ms| && SameMember(ms[k], ns[l]);
    EquivUndefined(ms[k].1, ns[l].1);
    var i := ViewMembersTo(ms, k);
    assert SameMember(ViewMembers(ms)[i], ViewMembers(ns)[j]);
  }

  lemma EquivViewMembers(ms: seq<(string, Value)>, ns: seq<(string, Value)>)
    requires Equiv(Obj(ms), Obj(ns)) && ViewsMatch(ms, ns)
    ensures Equiv(Obj(ViewMembers(ms)), Obj(ViewMembers(ns)))
  {
    forall i | 0 <= i < |ViewMembers(ms)| ensures HasMatch(ViewMembers(ms)[i], ViewMembers(ns)) {
      ViewHasMatch(ms, ns, i);
    }
    forall j | 0 <= j < |ViewMembers(ns)| ensures IsMatched(ViewMembers(ms), ViewMembers(ns)[j]) {
      ViewIsMatched(ms, ns, j);
    }
  }

  /** Reordering keys does not change what JSON keeps. */
  lemma {:induction false} EquivView(a: Value, b: Value)
    requires Equiv(a, b)
    ensures Equiv(JsonView(a), JsonView(b))
    decreases a
  {
    match (a, b)
    case (Arr(xs), Arr(ys)) =>
      forall i | 0 <= i < |xs| ensures Equiv(ViewItems(xs)[i], ViewItems(ys)[i]) {
        EquivView(xs[i], ys[i]);
      }
    case (Obj(ms), Obj(ns)) =>
      forall k, l | 0 <= k < |ms| && 0 <= l < |ns| && SameMember(ms[k], ns[l])
        ensures SameMember(ViewMember(ms[k]), ViewMember(ns[l]))
      {
        EquivView(ms[k].1, ns[l].1);
      }
      EquivViewMembers(ms, ns);
    case _ =>
  }
}
