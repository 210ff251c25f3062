/** Ordered, limited selection: what `ORDER BY ... LIMIT n` returns from a finite set of
    keys, for any order given by a position function. */
module Pages {
  import opened Keys

  type Position = Key -> int

  ghost predicate Injective(pos: Position) {
    forall a, b :: pos(a) == pos(b) ==> a == b
  }

  predicate Ascending(pos: Position, p: seq<Key>) {
    forall i, j :: 0 <= i < j < |p| ==> pos(p[i]) < pos(p[j])
  }

  /** `p` is the answer to `SELECT ... FROM r ORDER BY pos LIMIT limit`. */
  ghost predicate IsPage(pos: Position, p: seq<Key>, r: set<Key>, limit: nat) {
    && Ascending(pos, p)
    && |p| <= limit
    && (forall k :: k in p ==> k in r)
    && (forall k :: k in r && k !in p ==> |p| == limit && (p == [] || pos(p[|p| - 1]) < pos(k)))
  }

  lemma AscendingDistinct(pos: Position, p: seq<Key>)
    requires Ascending(pos, p)
    ensures forall i, j :: 0 <= i < j < |p| ==> p[i] != p[j]
  {
    forall i, j | 0 <= i < j < |p| ensures p[i] != p[j] {
      assert pos(p[i]) < pos(p[j]);
    }
  }

  /** The tail of a page is the page of what is left. */
  lemma PageTail(pos: Position, p: seq<Key>, r: set<Key>, limit: nat)
    requires IsPage(pos, p, r, limit) && p != []
    ensures IsPage(pos, p[1..], r - {p[0]}, limit - 1)
  {
    AscendingDistinct(pos, p);
    assert p == [p[0]] + p[1..];
    forall k | k in p[1..] ensures k in r - {p[0]} {
      var i :| 1 <= i < |p| && p[i] == k;
    }
    forall k | k in r - {p[0]} && k !in p[1..]
      ensures |p[1..]| == limit - 1 && (p[1..] == [] || pos(p[1..][|p| - 2]) < pos(k))
    {
      assert k !in p;
    }
  }

  lemma PageFirst(pos: Position, p: seq<Key>, r: set<Key>, limit: nat, k: Key)
    requires IsPage(pos, p, r, limit) && p != [] && k in r
    ensures pos(p[0]) <= pos(k)
  {
    if k in p {
      var i :| 0 <= i < |p| && p[i] == k;
      if i > 0 { assert pos(p[0]) < pos(p[i]); }
    }
  }

  lemma EmptyPage(pos: Position, p: seq<Key>, r: set<Key>, limit: nat)
    requires IsPage(pos, p, r, limit)
    ensures p == [] <==> r == {} || limit == 0
  {
    if p != [] {
      assert p[0] in r;
    } else if r != {} {
      var k :| k in r;
    }
  }

  lemma SameFirst(pos: Position, p: seq<Key>, q: seq<Key>, r: set<Key>, limit: nat)
    requires Injective(pos) && p != [] && q != []
    requires IsPage(pos, p, r, limit) && IsPage(pos, q, r, limit)
    ensures p[0] == q[0]
  {
    PageFirst(pos, p, r, limit, q[0]);
    PageFirst(pos, q, r, limit, p[0]);
  }

  lemma SameHeadSameTail(p: seq<Key>, q: seq<Key>)
    requires p != [] && q != [] && p[0] == q[0] && p[1..] == q[1..]
    ensures p == q
  {
    assert p == [p[0]] + p[1..] && q == [q[0]] + q[1..];
  }

  /** Ordered, limited selection has exactly one answer. */
  lemma {:induction false} PageUnique(pos: Position, p: seq<Key>, q: seq<Key>, r: set<Key>, limit: nat)
    requires Injective(pos)
    requires IsPage(pos, p, r, limit) && IsPage(pos, q, r, limit)
    ensures p == q
    decreases |p|
  {
    EmptyPage(pos, p, r, limit);
    EmptyPage(pos, q, r, limit);
    if p != [] {
      SameFirst(pos, p, q, r, limit);
      PageTail(pos, p, r, limit);
      PageTail(pos, q, r, limit);
      PageUnique(pos, p[1..], q[1..], r - {p[0]}, limit - 1);
      SameHeadSameTail(p, q);
    }
  }

  /** Shortening the limit drops the end of the page. */
  lemma PagePrefix(pos: Position, p: seq<Key>, r: set<Key>, limit: nat, n: nat)
    requires IsPage(pos, p, r, limit) && n <= limit
    ensures IsPage(pos, p[..if |p| <= n then |p| else n], r, n)
  {
    var m := if |p| <= n then |p| else n;
    forall k | k in r && k !in p[..m]
      ensures |p[..m]| == n && (p[..m] == [] || pos(p[..m][m - 1]) < pos(k))
    {
      if k in p {
        var i :| 0 <= i < |p| && p[i] == k;
        assert forall j :: 0 <= j < m ==> p[..m][j] == p[j];
        assert m <= i;
      }
    }
  }

  lemma LeastExists(pos: Position, r: set<Key>) returns (k: Key)
    requires r != {}
    ensures k in r && forall j :: j in r ==> pos(k) <= pos(j)
    decreases |r|
  {
    var x :| x in r;
    if r == {x} {
      k := x;
    } else {
      assert |r - {x}| < |r|;
      assert r == (r - {x}) + {x};
      var y := LeastExists(pos, r - {x});
      k := if pos(x) <= pos(y) then x else y;
    }
  }

  /** The database's side of a limited query. */
  method SelectPage(pos: Position, r: set<Key>, limit: nat) returns (p: seq<Key>)
    requires Injective(pos)
    ensures IsPage(pos, p, r, limit)
  {
    p := [];
    var rest := r;
    while |p| < limit && rest != {}
      invariant |p| <= limit
      invariant Ascending(pos, p)
      invariant rest <= r && (forall k :: k in r ==> k in p || k in rest)
      invariant forall k :: k in p ==> k in r
      invariant forall k, j :: k in rest && j in p ==> pos(j) < pos(k)
      decreases rest
    {
      ghost var least := LeastExists(pos, rest);
      var k :| k in rest && forall j :: j in rest ==> pos(k) <= pos(j);
      p := p + [k];
      rest := rest - {k};
    }
  }
}
