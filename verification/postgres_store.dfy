/** The PostgreSQL dead-letter table, page by page: letters are inserted once per batch id. */
module PostgresStore {
  import opened Keys
  import opened Pages
  import opened StreamProtocol

  /** The dead letters hold every entry of the batch. */
  predicate Covers(letters: Letters, batch: seq<Key>)
    requires batch != []
  {
    && BatchIdOf(batch) in letters
    && forall k :: k in batch ==> k in letters[BatchIdOf(batch)]
  }

  /** Writing a batch again changes nothing, and a write covers its batch exactly when the
      batch id is new or was covered before. */
  lemma WriteOnce(letters: Letters, batch: seq<Key>)
    requires batch != []
    ensures Written(Written(letters, batch), batch) == Written(letters, batch)
    ensures Covers(Written(letters, batch), batch) <==> BatchIdOf(batch) !in letters || Covers(letters, batch)
  {
  }

  lemma InPage(p: seq<Key>, r: set<Key>, limit: nat, k: Key)
    requires p != [] && IsPage(KeyOrder(), p, r, limit) && k in r && UpTo(k, Last(p))
    ensures k in p
  {
    RankOrder(k, Last(p));
    RankOrder(Last(p), k);
  }

  lemma PageRange(p: seq<Key>, k: Key)
    requires Ascending(KeyOrder(), p) && k in p
    ensures UpTo(p[0], k) && UpTo(k, Last(p))
  {
    var i :| 0 <= i < |p| && p[i] == k;
    var n := |p| - 1;
    RankOrder(p[0], k);
    RankOrder(k, p[n]);
    assert i > 0 ==> KeyOrder()(p[0]) < KeyOrder()(p[i]);
    assert i < n ==> KeyOrder()(p[i]) < KeyOrder()(p[n]);
  }

  lemma PageOrdered(p: seq<Key>)
    requires Ascending(KeyOrder(), p)
    ensures Ordered(p)
  {
    forall i, j | 0 <= i < j < |p| ensures Before(p[i], p[j]) {
      assert KeyOrder()(p[i]) < KeyOrder()(p[j]);
      RankOrder(p[i], p[j]);
    }
  }

  function KeySet(p: seq<Key>): (r: set<Key>)
    ensures forall k :: k in r <==> k in p
  {
    set k | k in p
  }

  lemma {:induction false} OrderedSize(p: seq<Key>)
    requires Ordered(p)
    ensures |KeySet(p)| == |p|
  {
    if p != [] {
      var n := |p| - 1;
      var rest, last := p[..n], p[n];
      OrderedSize(rest);
      forall i | 0 <= i < n ensures rest[i] != last { assert Before(p[i], p[n]); }
      assert p == rest + [last];
      assert KeySet(p) == KeySet(rest) + {last};
    }
  }

  lemma SameSize(a: set<Key>, b: set<Key>)
    requires a <= b && |b| <= |a|
    ensures a == b
  {
    assert b == a + (b - a);
    assert |b| == |a| + |b - a|;
  }

  /** A batch that holds all of another one as long holds nothing else. */
  lemma SameBatch(a: seq<Key>, b: seq<Key>)
    requires Ordered(a) && Ordered(b) && |b| <= |a| && forall k :: k in a ==> k in b
    ensures forall k :: k in b ==> k in a
  {
    OrderedSize(a);
    OrderedSize(b);
    SameSize(KeySet(a), KeySet(b));
    forall k | k in b ensures k in a {
      assert k in KeySet(b);
    }
  }

  /** A replayed batch with the same ends, read after more rows arrived: the dead letter kept
      from the first time covers it exactly when no row arrived between the ends; and that
      can only happen to a batch that was not full. */
  lemma ReplayedDeadLetter(r: set<Key>, later: set<Key>, limit: nat, first: seq<Key>, again: seq<Key>)
    requires r <= later && first != [] && again != []
    requires IsPage(KeyOrder(), first, r, limit) && IsPage(KeyOrder(), again, later, limit)
    requires first[0] == again[0] && Last(first) == Last(again)
    ensures (forall k :: k in again ==> k in first) <==>
      forall k :: k in later - r ==> !(Before(first[0], k) && Before(k, Last(first)))
    ensures |first| == limit ==> forall k :: k in again ==> k in first
  {
    forall k | k in first ensures k in again {
      PageRange(first, k);
      InPage(again, later, limit, k);
    }
    forall k | k in again ensures UpTo(first[0], k) && UpTo(k, Last(first)) && k in later {
      PageRange(again, k);
    }
    forall k | k in later && Before(first[0], k) && Before(k, Last(first)) ensures k in again {
      InPage(again, later, limit, k);
    }
    forall k | k in again && k in r ensures k in first {
      InPage(first, r, limit, k);
    }
    assert first[0] in first && Last(first) in first;
    forall k | k in later - r && Before(first[0], k) && Before(k, Last(first)) ensures k in again && k !in first {}
    if |first| == limit {
      PageOrdered(first);
      PageOrdered(again);
      SameBatch(first, again);
    }
  }

  /** The row that goes missing: a short batch [a, c] was dead-lettered, the save after it was
      lost, b arrived between them, and the replayed batch [a, b, c] has the same batch id. */
  lemma LateRowMissesDeadLetter(a: Key, b: Key, c: Key)
    requires Before(a, b) && Before(b, c)
    ensures var letters := Written(map[], [a, c]);
      && IsPage(KeyOrder(), [a, c], {a, c}, 500) && IsPage(KeyOrder(), [a, b, c], {a, b, c}, 500)
      && Written(letters, [a, b, c]) == letters && b !in letters[BatchIdOf([a, b, c])]
  {
    RankOrder(a, b);
    RankOrder(b, c);
  }
}
