/** Row keys `(created_at, id)`: microseconds since 0001-01-01T00:00:00Z and a 128-bit uuid. */
module Keys {
  const ID_LIMIT: nat := 0x1_0000_0000_0000_0000_0000_0000_0000_0000
  type Id = n: nat | n < ID_LIMIT

  datatype Key = Key(ts: nat, id: Id)

  /** The tuple comparison `(created_at, id) < (ts, id)`. */
  predicate Before(a: Key, b: Key) {
    a.ts < b.ts || (a.ts == b.ts && a.id < b.id)
  }

  predicate UpTo(a: Key, b: Key) {
    a == b || Before(a, b)
  }

  /** A key as one number.  Only finitely many keys lie below another one. */
  function Rank(k: Key): nat {
    k.ts * ID_LIMIT + k.id
  }

  lemma RankOrder(a: Key, b: Key)
    ensures Before(a, b) <==> Rank(a) < Rank(b)
    ensures a == b <==> Rank(a) == Rank(b)
  {
  }
}
