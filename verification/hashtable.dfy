/** The singly linked chains of common/slist.c and the hash table of webservice/hashtable.c over them. */
module Hashtable {
  import opened Memory

  // How a table tells keys: hash(key), and 0 == cmp(value, key). `keyOf` is the key a value goes by.
  datatype Keys<!K, !V> = Keys(cmp: (V, K) -> bool, hash: K -> nat, keyOf: V -> K)

  ghost predicate Coherent<K(!new), V(!new)>(c: Keys<K, V>) {
    forall v, k :: c.cmp(v, k) <==> c.keyOf(v) == k
  }

  // The contents of a table: the chains, first node first, and the collision counter.
  datatype Table<V> = Table(buckets: seq<seq<V>>, collisions: nat)

  datatype AddResult = Success | Found | Error

  function BucketOf<K, V>(c: Keys<K, V>, t: Table<V>, k: K): (b: nat)
    requires t.buckets != []
    ensures b < |t.buckets|
  {
    c.hash(k) % |t.buckets|
  }

  function Chain<K, V>(c: Keys<K, V>, t: Table<V>, k: K): seq<V>
    requires t.buckets != []
  {
    t.buckets[BucketOf(c, t, k)]
  }

  // The first value of a chain that matches.
  function FindIn<K, V>(c: Keys<K, V>, chain: seq<V>, k: K): Option<V> {
    if chain == [] then None
    else if c.cmp(chain[0], k) then Some(chain[0])
    else FindIn(c, chain[1..], k)
  }

  function Find<K, V>(c: Keys<K, V>, t: Table<V>, k: K): Option<V>
    requires t.buckets != []
  {
    FindIn(c, Chain(c, t, k), k)
  }

  // hashtable_add's first statement under the lock
  function Counted<K, V>(c: Keys<K, V>, t: Table<V>, k: K): Table<V>
    requires t.buckets != []
  {
    if Chain(c, t, k) == [] then t else t.(collisions := t.collisions + 1)
  }

  function Pushed<K, V>(c: Keys<K, V>, t: Table<V>, v: V, k: K): Table<V>
    requires t.buckets != []
  {
    var b := BucketOf(c, t, k);
    t.(buckets := t.buckets[b := [v] + t.buckets[b]])
  }

  // `available` tells whether there is memory for a node.
  function Add<K, V>(c: Keys<K, V>, t: Table<V>, v: V, k: K, available: bool): (Table<V>, AddResult)
    requires t.buckets != []
  {
    var u := Counted(c, t, k);
    if Find(c, t, k).Some? then (u, Found)
    else if available then (Pushed(c, u, v, k), Success)
    else (u, Error)
  }

  // The table as a map

  ghost predicate Placed<K, V>(c: Keys<K, V>, t: Table<V>, b: nat, i: nat)
    requires b < |t.buckets| && i < |t.buckets[b]|
  {
    c.hash(c.keyOf(t.buckets[b][i])) % |t.buckets| == b
  }

  // Every value is in the bucket its key selects, and no two values of a bucket go by the same key.
  ghost predicate WellPlaced<K, V>(c: Keys<K, V>, t: Table<V>) {
    && t.buckets != []
    && (forall b, i :: 0 <= b < |t.buckets| && 0 <= i < |t.buckets[b]| ==> Placed(c, t, b, i))
    && forall b :: 0 <= b < |t.buckets| ==> DistinctKeys(c, t.buckets[b])
  }

  ghost predicate DistinctKeys<K, V>(c: Keys<K, V>, chain: seq<V>) {
    forall i, j :: 0 <= i < j < |chain| ==> c.keyOf(chain[i]) != c.keyOf(chain[j])
  }

  function Lookup<K, V>(m: map<K, V>, k: K): Option<V> {
    if k in m then Some(m[k]) else None
  }

  ghost predicate Implements<K(!new), V>(c: Keys<K, V>, t: Table<V>, m: map<K, V>) {
    t.buckets != [] && forall k :: Find(c, t, k) == Lookup(m, k)
  }

  lemma {:induction false} FindInMeaning<K(!new), V(!new)>(c: Keys<K, V>, chain: seq<V>, k: K)
    requires Coherent(c)
    ensures FindIn(c, chain, k).None? <==> forall i :: 0 <= i < |chain| ==> c.keyOf(chain[i]) != k
    ensures FindIn(c, chain, k).Some? ==> c.keyOf(FindIn(c, chain, k).value) == k && FindIn(c, chain, k).value in chain
  {
    if chain != [] {
      assert c.cmp(chain[0], k) <==> c.keyOf(chain[0]) == k;
      FindInMeaning(c, chain[1..], k);
      assert chain == [chain[0]] + chain[1..];
    }
  }

  /** Adding refines insertion into a map that never overwrites, whatever the memory grants. */
  lemma AddRefines<K(!new), V(!new)>(c: Keys<K, V>, t: Table<V>, m: map<K, V>, v: V, k: K, available: bool)
    requires Coherent(c) && WellPlaced(c, t) && Implements(c, t, m) && c.keyOf(v) == k
    ensures var (u, r) := Add(c, t, v, k, available);
            && WellPlaced(c, u) && |u.buckets| == |t.buckets|
            && Implements(c, u, if r == Success then m[k := v] else m)
            && (r == Found <==> k in m) && (r == Error <==> k !in m && !available)
  {
    var (u, r) := Add(c, t, v, k, available);
    assert Find(c, t, k) == Lookup(m, k);
    if r == Success {
      PushKeepsPlaces(c, t, v, k, u);
      PushIsInsertion(c, t, m, v, k, u);
    } else {
      assert u.buckets == t.buckets;
      forall k'
        ensures Find(c, u, k') == Lookup(m, k')
      {
        assert Find(c, t, k') == Lookup(m, k');
      }
      forall b, i | 0 <= b < |u.buckets| && 0 <= i < |u.buckets[b]|
        ensures Placed(c, u, b, i)
      {
        assert Placed(c, t, b, i);
      }
    }
  }

  lemma PushKeepsPlaces<K(!new), V(!new)>(c: Keys<K, V>, t: Table<V>, v: V, k: K, u: Table<V>)
    requires Coherent(c) && WellPlaced(c, t) && c.keyOf(v) == k && Find(c, t, k).None?
    requires u.buckets == Pushed(c, t, v, k).buckets
    ensures WellPlaced(c, u)
  {
    var h := BucketOf(c, t, k);
    FindInMeaning(c, t.buckets[h], k);
    forall b, i | 0 <= b < |u.buckets| && 0 <= i < |u.buckets[b]|
      ensures Placed(c, u, b, i)
    {
      if b != h {
        assert Placed(c, t, b, i);
      } else if i > 0 {
        assert Placed(c, t, b, i - 1);
      }
    }
    forall b | 0 <= b < |u.buckets|
      ensures DistinctKeys(c, u.buckets[b])
    {
      assert DistinctKeys(c, t.buckets[b]);
    }
  }

  lemma PushIsInsertion<K(!new), V(!new)>(c: Keys<K, V>, t: Table<V>, m: map<K, V>, v: V, k: K, u: Table<V>)
    requires Coherent(c) && Implements(c, t, m) && c.keyOf(v) == k
    requires u.buckets == Pushed(c, t, v, k).buckets
    ensures Implements(c, u, m[k := v])
  {
    forall k'
      ensures Find(c, u, k') == Lookup(m[k := v], k')
    {
      assert Find(c, t, k') == Lookup(m, k');
      assert c.cmp(v, k') <==> k == k';
      var b := BucketOf(c, t, k');
      if b == BucketOf(c, t, k) {
        assert u.buckets[b] == [v] + t.buckets[b];
        assert u.buckets[b][1..] == t.buckets[b];
      }
    }
  }

  // The collision counter

  function Entries<V>(buckets: seq<seq<V>>): nat {
    if buckets == [] then 0 else |buckets[0]| + Entries(buckets[1..])
  }

  function NonEmpty<V>(buckets: seq<seq<V>>): nat {
    if buckets == [] then 0 else (if buckets[0] == [] then 0 else 1) + NonEmpty(buckets[1..])
  }

  lemma {:induction false} PushCounts<V>(buckets: seq<seq<V>>, b: nat, v: V)
    requires b < |buckets|
    ensures Entries(buckets[b := [v] + buckets[b]]) == Entries(buckets) + 1
    ensures NonEmpty(buckets[b := [v] + buckets[b]]) == NonEmpty(buckets) + (if buckets[b] == [] then 1 else 0)
  {
    var changed := buckets[b := [v] + buckets[b]];
    if b == 0 {
      assert changed[1..] == buckets[1..];
    } else {
      PushCounts(buckets[1..], b - 1, v);
      assert changed[1..] == buckets[1..][b - 1 := [v] + buckets[1..][b - 1]];
    }
  }

  datatype Addition<K, V> = Addition(v: V, k: K, available: bool)

  function Empty<V>(nrBuckets: nat): (t: Table<V>)
    ensures |t.buckets| == nrBuckets
  {
    Table(seq(nrBuckets, _ => []), 0)
  }

  function AddAll<K, V>(c: Keys<K, V>, nrBuckets: nat, adds: seq<Addition<K, V>>): (t: Table<V>)
    requires nrBuckets > 0
    ensures |t.buckets| == nrBuckets
  {
    if adds == [] then Empty(nrBuckets)
    else var a := adds[|adds| - 1]; Add(c, AddAll(c, nrBuckets, adds[..|adds| - 1]), a.v, a.k, a.available).0
  }

  // Of these additions, how many did not add: the key was found, or memory failed for a bucket in use.
  function Refused<K, V>(c: Keys<K, V>, nrBuckets: nat, adds: seq<Addition<K, V>>): nat
    requires nrBuckets > 0
  {
    if adds == [] then 0
    else
      var front, a := adds[..|adds| - 1], adds[|adds| - 1];
      var t := AddAll(c, nrBuckets, front);
      Refused(c, nrBuckets, front)
      + match Add(c, t, a.v, a.k, a.available).1
        case Success => 0
        case Found => 1
        case Error => if Chain(c, t, a.k) == [] then 0 else 1
  }

  lemma {:induction false} NothingInEmpty<V>(nrBuckets: nat)
    ensures Entries(Empty<V>(nrBuckets).buckets) == 0 == NonEmpty(Empty<V>(nrBuckets).buckets)
  {
    if nrBuckets > 0 {
      NothingInEmpty<V>(nrBuckets - 1);
      assert Empty<V>(nrBuckets).buckets[1..] == Empty<V>(nrBuckets - 1).buckets;
    }
  }

  lemma FoundInChain<K, V>(c: Keys<K, V>, chain: seq<V>, k: K)
    ensures FindIn(c, chain, k).Some? ==> chain != []
  {
  }

  /** What the collision counter counts: entries beyond the first of their bucket, and refused adds. */
  lemma {:induction false} CollisionLaw<K, V>(c: Keys<K, V>, nrBuckets: nat, adds: seq<Addition<K, V>>)
    requires nrBuckets > 0
    ensures var t := AddAll(c, nrBuckets, adds);
            t.collisions + NonEmpty(t.buckets) == Entries(t.buckets) + Refused(c, nrBuckets, adds)
  {
    if adds == [] {
      NothingInEmpty<V>(nrBuckets);
    } else {
      var front, a := adds[..|adds| - 1], adds[|adds| - 1];
      CollisionLaw(c, nrBuckets, front);
      var t := AddAll(c, nrBuckets, front);
      FoundInChain(c, Chain(c, t, a.k), a.k);
      PushCounts(t.buckets, BucketOf(c, t, a.k), a.v);
    }
  }

  /** Without memory failures every add either collides or starts a bucket. */
  lemma {:induction false} CollisionsOfAllAdds<K, V>(c: Keys<K, V>, nrBuckets: nat, adds: seq<Addition<K, V>>)
    requires nrBuckets > 0 && forall i :: 0 <= i < |adds| ==> adds[i].available
    ensures var t := AddAll(c, nrBuckets, adds); t.collisions + NonEmpty(t.buckets) == |adds|
  {
    if adds == [] {
      NothingInEmpty<V>(nrBuckets);
    } else {
      var front, a := adds[..|adds| - 1], adds[|adds| - 1];
      CollisionsOfAllAdds(c, nrBuckets, front);
      var t := AddAll(c, nrBuckets, front);
      FoundInChain(c, Chain(c, t, a.k), a.k);
      PushCounts(t.buckets, BucketOf(c, t, a.k), a.v);
    }
  }

  // The chains and the table on the heap

  // A node's fields are set once, when it is pushed.
  class SNode<V> {
    const next: SNode?<V>
    const data: V

    constructor (data: V, next: SNode?<V>)
      ensures this.next == next && this.data == data
    {
      this.next, this.data := next, data;
    }
  }

  class SList<V> {
    var head: SNode?<V>
    ghost var nodes: seq<SNode<V>>
    ghost var contents: seq<V>

    static ghost function LinkAt(nodes: seq<SNode<V>>, i: nat): SNode?<V>
      requires i <= |nodes|
    {
      if i < |nodes| then nodes[i] else null
    }

    // Node i holds value i and leads to node i + 1.
    static ghost predicate Holds(nodes: seq<SNode<V>>, contents: seq<V>, i: nat)
      requires i < |nodes| == |contents|
    {
      nodes[i].data == contents[i] && nodes[i].next == LinkAt(nodes, i + 1)
    }

    ghost predicate Valid()
      reads this
    {
      && |nodes| == |contents| && head == LinkAt(nodes, 0)
      && forall i :: 0 <= i < |nodes| ==> Holds(nodes, contents, i)
    }

    constructor ()
      ensures Valid() && contents == []
    {
      head, nodes, contents := null, [], [];
    }

    // slist_push_front; `available` tells whether there is memory for the node.
    method PushFront(data: V, available: bool) returns (node: SNode?<V>)
      requires Valid()
      modifies this
      ensures Valid() && (node == null <==> !available)
      ensures contents == if available then [data] + old(contents) else old(contents)
    {
      if !available {
        return null;
      }
      node := new SNode(data, head);
      head := node;
      ghost var ns, vs := nodes, contents;
      nodes, contents := [node] + ns, [data] + vs;
      forall i | 0 <= i < |nodes|
        ensures Holds(nodes, contents, i)
      {
        if i > 0 { assert Holds(ns, vs, i - 1); }
      }
    }

    // slist_pop_front
    method PopFront() returns (data: Option<V>)
      requires Valid()
      modifies this
      ensures Valid()
      ensures data == if old(contents) == [] then None else Some(old(contents)[0])
      ensures contents == if old(contents) == [] then [] else old(contents)[1..]
    {
      var node := head;
      if node == null {
        return None;
      }
      assert Holds(nodes, contents, 0);
      data := Some(node.data);
      head := node.next;
      ghost var ns, vs := nodes, contents;
      nodes, contents := ns[1..], vs[1..];
      forall i | 0 <= i < |nodes|
        ensures Holds(nodes, contents, i)
      {
        assert Holds(ns, vs, i + 1);
      }
    }
  }

  class HashtableObject<K(!new), V(!new)> {
    const keys: Keys<K, V>
    const buckets: array<SList<V>>
    var collisions: nat
    ghost var table: Table<V>

    // The chains are separate objects and hold what the table says.
    ghost predicate Valid()
      reads this, buckets, buckets[..]
    {
      && buckets.Length > 0 && |table.buckets| == buckets.Length && collisions == table.collisions
      && (forall i, j :: 0 <= i < j < buckets.Length ==> buckets[i] != buckets[j])
      && forall i :: 0 <= i < buckets.Length ==> buckets[i].Valid() && buckets[i].contents == table.buckets[i]
    }

    constructor (keys: Keys<K, V>, nrBuckets: nat)
      requires nrBuckets > 0
      ensures Valid() && table == Empty(nrBuckets) && this.keys == keys
      ensures fresh(buckets) && forall i :: 0 <= i < buckets.Length ==> fresh(buckets[i])
    {
      var first := new SList<V>();
      var made := new SList<V>[nrBuckets](_ => first);
      for b := 1 to nrBuckets
        invariant fresh(made)
        invariant forall i :: 0 <= i < nrBuckets ==> fresh(made[i]) && made[i].Valid() && made[i].contents == []
        invariant forall i, j :: 0 <= i < j < b ==> made[i] != made[j]
        invariant forall i :: b <= i < nrBuckets ==> made[i] == first
      {
        var bucket := new SList<V>();
        made[b] := bucket;
      }
      this.keys, buckets, collisions := keys, made, 0;
      table := Empty(nrBuckets);
    }

    // _hashtable_find: walks the chain to the first node that matches.
    method FindNode(bucket: SList<V>, k: K) returns (node: SNode?<V>)
      requires bucket.Valid()
      ensures node == null <==> FindIn(keys, bucket.contents, k).None?
      ensures node != null ==> FindIn(keys, bucket.contents, k) == Some(node.data)
    {
      node := bucket.head;
      ghost var i := 0;
      assert bucket.contents[0..] == bucket.contents;
      while node != null
        invariant i <= |bucket.nodes| && node == SList.LinkAt(bucket.nodes, i)
        invariant FindIn(keys, bucket.contents, k) == FindIn(keys, bucket.contents[i..], k)
        decreases |bucket.nodes| - i
      {
        assert SList.Holds(bucket.nodes, bucket.contents, i);
        if keys.cmp(node.data, k) {
          return;
        }
        assert bucket.contents[i..][1..] == bucket.contents[i + 1..];
        node, i := node.next, i + 1;
      }
    }

    // hashtable_add, between taking the write lock and releasing it.
    method AddValue(v: V, k: K, available: bool) returns (error: AddResult)
      requires Valid()
      modifies this, Bucket(k)
      ensures Valid() && (table, error) == Add(keys, old(table), v, k, available)
    {
      var b := keys.hash(k) % buckets.Length;
      var bucket := buckets[b];
      if bucket.head != null {
        collisions := collisions + 1;
      }
      var node := FindNode(bucket, k);
      if node == null {
        var pushed := bucket.PushFront(v, available);
        error := if pushed == null then Error else Success;
      } else {
        error := Found;
      }
      table := Add(keys, table, v, k, available).0;
    }

    ghost function Bucket(k: K): SList<V>
      requires buckets.Length > 0
      reads buckets
    {
      buckets[keys.hash(k) % buckets.Length]
    }

    // hashtable_find, between taking the read lock and releasing it.
    method FindValue(k: K) returns (value: Option<V>)
      requires Valid()
      ensures value == Find(keys, table, k)
    {
      var node := FindNode(buckets[keys.hash(k) % buckets.Length], k);
      return if node != null then Some(node.data) else None;
    }

    // The inner loop of hashtable_free: pops a chain empty and gives each value to value_free.
    static method Drain(bucket: SList<V>, before: seq<V>) returns (freed: seq<V>)
      requires bucket.Valid()
      modifies bucket
      ensures bucket.Valid() && bucket.contents == [] && freed == before + old(bucket.contents)
    {
      freed := before;
      var value := bucket.PopFront();
      while value.Some?
        invariant bucket.Valid() && (value.None? ==> bucket.contents == [])
        invariant freed + (if value.Some? then [value.value] else []) + bucket.contents == before + old(bucket.contents)
        decreases |bucket.contents|, value.Some?
      {
        freed := freed + [value.value];
        value := bucket.PopFront();
      }
    }

    // hashtable_free; `freed` are the values given to value_free, in order.
    method Free() returns (freed: seq<V>)
      requires Valid()
      modifies this, buckets[..]
      ensures freed == Values(old(table).buckets)
      ensures Valid() && table.buckets == Empty<V>(|old(table).buckets|).buckets
    {
      freed := [];
      ghost var all := table.buckets;
      assert all[..0] == [];
      for i := 0 to buckets.Length
        invariant Valid() && |table.buckets| == |all| && freed == Values(all[..i])
        invariant forall j :: 0 <= j < i ==> table.buckets[j] == []
        invariant forall j :: i <= j < |all| ==> table.buckets[j] == all[j]
      {
        freed := Drain(buckets[i], freed);
        table := table.(buckets := table.buckets[i := []]);
        ValuesSnoc(all, i);
      }
      assert all[..|all|] == all;
    }
  }

  // The values of all buckets, in the order they are freed.
  function Values<V>(buckets: seq<seq<V>>): seq<V> {
    if buckets == [] then [] else Values(buckets[..|buckets| - 1]) + buckets[|buckets| - 1]
  }

  lemma ValuesSnoc<V>(buckets: seq<seq<V>>, i: nat)
    requires i < |buckets|
    ensures Values(buckets[..i + 1]) == Values(buckets[..i]) + buckets[i]
  {
    assert buckets[..i + 1][..i] == buckets[..i];
  }
}
