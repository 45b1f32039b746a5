/** The bounded result cache (`CircularBuffer<Key, Value>`): a map plus the
    keys in insertion order. Overwriting a present key keeps its place, `Get`
    never reorders, and a full buffer evicts the oldest-inserted key — a plain
    FIFO, not an LRU. */
module FifoCache {
  import opened Text

  datatype Fifo<K, V> = Fifo(capacity: nat, order: seq<K>, entries: map<K, V>)

  predicate Distinct<K(==)>(s: seq<K>)
  {
    forall i, j :: 0 <= i < j < |s| ==> s[i] != s[j]
  }

  /** The list and the map describe the same keys, each listed once, and the
      buffer never holds more than its capacity. */
  ghost predicate Valid<K(!new), V>(c: Fifo<K, V>)
  {
    && c.capacity > 0
    && |c.order| <= c.capacity
    && Distinct(c.order)
    && (forall k :: k in c.entries <==> k in c.order)
  }

  function Empty<K(==,!new), V>(capacity: nat): (c: Fifo<K, V>)
    requires capacity > 0
    ensures Valid(c)
    ensures Size(c) == 0
    ensures forall k :: Get(c, k) == None
  {
    Fifo(capacity, [], map[])
  }

  function Get<K(==,!new), V>(c: Fifo<K, V>, k: K): Option<V>
  {
    if k in c.entries then Some(c.entries[k]) else None
  }

  function Size<K(==,!new), V>(c: Fifo<K, V>): nat
  {
    |c.entries|
  }

  function IsEmpty<K(==,!new), V>(c: Fifo<K, V>): (b: bool)
    ensures b <==> Size(c) == 0
  {
    |c.entries| == 0
  }

  /** The distinct elements of a list are as many as its length. */
  lemma {:induction false} DistinctCard<K(!new)>(s: seq<K>)
    requires Distinct(s)
    ensures |set k | k in s| == |s|
  {
    if |s| > 0 {
      DistinctCard(s[1..]);
      assert (set k | k in s) == (set k | k in s[1..]) + {s[0]};
      assert s[0] !in s[1..];
    } else {
      assert (set k | k in s) == {};
    }
  }

  /** In a valid buffer the map holds one entry per listed key. */
  lemma {:induction false} SizeIsListLength<K(!new), V>(c: Fifo<K, V>)
    requires Valid(c)
    ensures Size(c) == |c.order|
  {
    assert c.entries.Keys == set k | k in c.order;
    DistinctCard(c.order);
  }

  /** `s` without the element `k`. */
  function Without<K(==,!new)>(s: seq<K>, k: K): (r: seq<K>)
    ensures forall x :: x in r <==> x in s && x != k
    ensures Distinct(s) ==> Distinct(r)
    ensures k in s && Distinct(s) ==> |r| == |s| - 1
    ensures k !in s ==> r == s
  {
    if |s| == 0 then []
    else if s[0] == k then Without(s[1..], k)
    else
      var rest := Without(s[1..], k);
      assert s[0] !in rest || !Distinct(s);
      [s[0]] + rest
  }

  /** `insert`: a present key has its value replaced in place; otherwise a
      full buffer first drops its oldest key, then the new key is appended. */
  function Insert<K(==,!new), V>(c: Fifo<K, V>, k: K, v: V): (r: Fifo<K, V>)
    requires Valid(c)
    ensures Valid(r)
    ensures r.capacity == c.capacity
    ensures Get(r, k) == Some(v)
    // overwriting changes nothing but the value
    ensures k in c.entries ==> r.order == c.order && Size(r) == Size(c)
    ensures k in c.entries ==> forall j :: j != k ==> Get(r, j) == Get(c, j)
    // a new key goes to the back
    ensures k !in c.entries ==> |r.order| > 0 && r.order[|r.order| - 1] == k
    // room left: nothing is evicted
    ensures k !in c.entries && |c.order| < c.capacity ==>
              r.order == c.order + [k] && forall j :: j != k ==> Get(r, j) == Get(c, j)
    // full: exactly the oldest key is evicted, every other key keeps its value
    ensures k !in c.entries && |c.order| == c.capacity ==>
              && Get(r, c.order[0]) == None
              && r.order == c.order[1..] + [k]
              && forall j :: j != k && j != c.order[0] ==> Get(r, j) == Get(c, j)
  {
    if k in c.entries then
      Fifo(c.capacity, c.order, c.entries[k := v])
    else if |c.order| >= c.capacity then
      var oldest := c.order[0];
      assert oldest !in c.order[1..];
      Fifo(c.capacity, c.order[1..] + [k], (c.entries - {oldest})[k := v])
    else
      Fifo(c.capacity, c.order + [k], c.entries[k := v])
  }

  /** An insertion adds at most its own key: every key present afterwards is
      the inserted one or was present before with the same value. */
  lemma {:induction false} InsertOnlyAdds<K(!new), V>(c: Fifo<K, V>, k: K, v: V)
    requires Valid(c)
    ensures forall j :: j in Insert(c, k, v).entries ==> j == k || (j in c.entries && Insert(c, k, v).entries[j] == c.entries[j])
  {
    var r := Insert(c, k, v);
    forall j | j in r.entries && j != k
      ensures j in c.entries && r.entries[j] == c.entries[j]
    {
      assert Get(r, j) == Some(r.entries[j]);
    }
  }

  /** `remove`: false and no change when the key is absent; otherwise true and
      the key is gone while every other key stays. */
  function Remove<K(==,!new), V>(c: Fifo<K, V>, k: K): (r: (Fifo<K, V>, bool))
    requires Valid(c)
    ensures Valid(r.0)
    ensures r.1 <==> k in c.entries
    ensures !r.1 ==> r.0 == c
    ensures Get(r.0, k) == None
    ensures forall j :: j != k ==> Get(r.0, j) == Get(c, j)
    ensures r.1 ==> Size(r.0) == Size(c) - 1
    // the other keys keep their eviction order, and the capacity stays
    ensures r.0.capacity == c.capacity && r.0.order == Without(c.order, k)
  {
    if k !in c.entries then (c, false)
    else
      var r := Fifo(c.capacity, Without(c.order, k), c.entries - {k});
      SizeIsListLength(c);
      SizeIsListLength(r);
      (r, true)
  }

  /** `clear`: everything is forgotten, the capacity stays. */
  function Clear<K(==,!new), V>(c: Fifo<K, V>): (r: Fifo<K, V>)
    requires Valid(c)
    ensures Valid(r)
    ensures r.capacity == c.capacity
    ensures Size(r) == 0 && IsEmpty(r)
    ensures forall k :: Get(r, k) == None
    ensures r.entries == map[]
  {
    Fifo(c.capacity, [], map[])
  }

  /** The size never exceeds the capacity. */
  lemma {:induction false} SizeBounded<K(!new), V>(c: Fifo<K, V>)
    requires Valid(c)
    ensures Size(c) <= c.capacity
  {
    SizeIsListLength(c);
  }

  /** Reading a key does not protect it from eviction (`get` is `const`):
      when a full buffer takes a new key, a key that could be read before is
      evicted exactly when it is the oldest-inserted one. */
  lemma {:induction false} GetDoesNotRefresh<K(!new), V>(c: Fifo<K, V>, a: K, x: K, vx: V)
    requires Valid(c) && |c.order| == c.capacity
    requires x !in c.entries && Get(c, a).Some?
    ensures Get(Insert(c, x, vx), a) == None <==> a == c.order[0]
  {
    assert a != x;
  }
}
