/** The doubly linked list of common/list.c and common/list.h.
    A node does not point back at its predecessor but at the pointer field that leads to it
    (the list's `head` or the predecessor's `next`), and the list keeps the address of the last such
    field, so that unlinking and appending need no special case for the first node. */
module SlotList {

  import opened Memory

  // The address of a pointer field: a `node_t **` of the C code.
  datatype Slot = NullSlot | HeadSlot | NextSlot(node: Node)

  class Node {
    var next: Node?
    var previous: Slot
    var data: Pointer
    ghost var live: bool  // allocated and not yet freed

    constructor ()
      ensures next == null && previous == NullSlot && data == NULL && live
    {
      next, previous, data, live := null, NullSlot, NULL, true;
    }
  }

  method NodeFree(node: Node?)
    requires node != null ==> node.live
    modifies node
    ensures node != null ==> node.next == null && node.previous == NullSlot && node.data == NULL && !node.live
  {
    if node != null {
      node.next, node.previous, node.data := null, NullSlot, NULL;
      node.live := false;
    }
  }

  ghost function LinkAt(nodes: seq<Node>, i: nat): Node?
    requires i <= |nodes|
  {
    if i < |nodes| then nodes[i] else null
  }

  ghost function SlotAt(nodes: seq<Node>, i: nat): Slot
    requires i <= |nodes|
  {
    if i == 0 then HeadSlot else NextSlot(nodes[i - 1])
  }

  ghost predicate Distinct<T>(s: seq<T>) {
    forall i, j :: 0 <= i < j < |s| ==> s[i] != s[j]
  }

  function RemoveAt<T>(s: seq<T>, k: nat): seq<T>
    requires k < |s|
  {
    s[..k] + s[k + 1..]
  }

  function InsertAt<T>(s: seq<T>, k: nat, x: T): seq<T>
    requires k <= |s|
  {
    s[..k] + [x] + s[k..]
  }

  lemma DistinctAfterRemove<T>(s: seq<T>, k: nat)
    requires Distinct(s) && k < |s|
    ensures Distinct(RemoveAt(s, k)) && s[k] !in RemoveAt(s, k)
  {
  }

  lemma DistinctAfterInsert<T>(s: seq<T>, k: nat, x: T)
    requires Distinct(s) && k <= |s| && x !in s
    ensures Distinct(InsertAt(s, k, x))
  {
  }

  lemma GoneStayGone<T>(all: seq<T>, s: seq<T>, j: nat, x: T)
    requires j < |s| && j < |all| && forall i :: 0 <= i < j ==> all[i] !in s && all[i] != x
    requires all[j] !in s[j := x]
    ensures forall i :: 0 <= i <= j ==> all[i] !in s[j := x]
  {
  }

  lemma DoneIsBehind<T>(s: seq<T>, j: nat)
    requires Distinct(s) && j <= |s|
    ensures forall x :: x in s[..j] ==> x !in s[j..]
  {
  }

  lemma ReplaceAt<T>(s: seq<T>, k: nat, x: T)
    requires k < |s|
    ensures InsertAt(RemoveAt(s, k), k, x) == s[k := x]
  {
  }

  /** How many nodes list_free pops: up to and including the first that holds NULL. */
  function Drained(contents: seq<Pointer>): (n: nat)
    ensures n <= |contents|
    ensures forall i :: 0 <= i < n - 1 ==> contents[i] != NULL
    ensures n < |contents| ==> n > 0 && contents[n - 1] == NULL
  {
    if contents == [] then 0
    else if contents[0] == NULL then 1
    else 1 + Drained(contents[1..])
  }

  ghost predicate NoneNull(contents: seq<Pointer>, n: int) {
    n <= |contents| && forall i :: 0 <= i < n ==> contents[i] != NULL
  }

  lemma {:induction false} DrainedAt(contents: seq<Pointer>, j: nat)
    requires j <= |contents| && NoneNull(contents, j - 1)
    requires j == |contents| || (j > 0 && contents[j - 1] == NULL)
    ensures Drained(contents) == j
  {
    if j > 1 {
      DrainedAt(contents[1..], j - 1);
    }
  }

  /** list_free gives back every node exactly when no node but the last holds NULL. */
  lemma DrainsEverythingIff(contents: seq<Pointer>)
    ensures Drained(contents) == |contents| <==> forall i :: 0 <= i < |contents| - 1 ==> contents[i] != NULL
  {
  }

  class List {
    var head: Node?
    var tail: Slot
    ghost var nodes: seq<Node>
    ghost var contents: seq<Pointer>  // what the nodes hold, in order
    ghost var live: bool

    /** Node `i` is reached through slot `i` and leads to node `i + 1`. */
    static ghost predicate Placed(ns: seq<Node>, i: nat)
      requires i < |ns|
      reads ns[i]
    {
      ns[i].previous == SlotAt(ns, i) && ns[i].next == LinkAt(ns, i + 1)
    }

    /** Node `n` is allocated and carries `data`. */
    static ghost predicate Holds(n: Node, data: Pointer)
      reads n
    {
      n.live && n.data == data
    }

    /** The chain of slots spells exactly the nodes `ns`, in order. */
    ghost predicate Represents(ns: seq<Node>)
      reads this`head, this`tail, ns
    {
      && Distinct(ns)
      && head == LinkAt(ns, 0)
      && tail == SlotAt(ns, |ns|)
      && forall i :: 0 <= i < |ns| ==> Placed(ns, i)
    }

    static ghost predicate Carries(ns: seq<Node>, data: seq<Pointer>)
      reads ns
    {
      |data| == |ns| && forall i :: 0 <= i < |ns| ==> Holds(ns[i], data[i])
    }

    ghost predicate Valid()
      reads this, nodes
    {
      && live
      && Represents(nodes)
      && Carries(nodes, contents)
    }

    constructor ()
      ensures Valid() && nodes == [] && contents == []
    {
      head, tail := null, HeadSlot;
      nodes, contents, live := [], [], true;
    }

    // `*slot = value`
    method StoreThrough(slot: Slot, value: Node?)
      requires !slot.NullSlot?
      requires slot.NextSlot? ==> slot.node.live
      modifies this`head, (if slot.NextSlot? then {slot.node} else {})`next
      ensures if slot.HeadSlot? then head == value else slot.node.next == value && head == old(head)
    {
      match slot {
        case HeadSlot => head := value;
        case NextSlot(node) => node.next := value;
      }
    }

    // Node `i` once node `k` has been bypassed on both sides.
    static ghost predicate Bypassing(ns: seq<Node>, k: nat, i: nat)
      requires k < |ns| && i < |ns|
      reads ns[i]
    {
      && ns[i].next == LinkAt(ns, if i + 1 == k then k + 1 else i + 1)
      && ns[i].previous == SlotAt(ns, if i == k + 1 then k else i)
    }

    lemma Unlinked(ns: seq<Node>, data: seq<Pointer>, k: nat)
      requires Distinct(ns) && k < |ns| == |data|
      requires head == LinkAt(ns, if k == 0 then 1 else 0)
      requires tail == SlotAt(ns, if k + 1 == |ns| then k else |ns|)
      requires forall i :: 0 <= i < |ns| && i != k ==> Bypassing(ns, k, i)
      requires forall i :: 0 <= i < |ns| && i != k ==> Holds(ns[i], data[i])
      ensures Represents(RemoveAt(ns, k)) && Carries(RemoveAt(ns, k), RemoveAt(data, k))
    {
      var rest, kept := RemoveAt(ns, k), RemoveAt(data, k);
      DistinctAfterRemove(ns, k);
      assert head == LinkAt(rest, 0) && tail == SlotAt(rest, |rest|);
      forall i | 0 <= i < |rest|
        ensures Placed(rest, i) && Holds(rest[i], kept[i])
      {
        var j := if i < k then i else i + 1;
        assert rest[i] == ns[j] && kept[i] == data[j];
        assert Bypassing(ns, k, j) && Holds(ns[j], data[j]);
      }
    }

    // Takes node `k` out of the chain and frees it; the list's own account of its nodes stays behind.
    method Unlink(node: Node, ghost k: nat)
      requires Valid() && k < |nodes| && node == nodes[k]
      modifies this`head, this`tail, nodes
      ensures !node.live
      ensures head == LinkAt(nodes, if k == 0 then 1 else 0)
      ensures tail == SlotAt(nodes, if k + 1 == |nodes| then k else |nodes|)
      ensures forall i :: 0 <= i < |nodes| && i != k ==> Bypassing(nodes, k, i)
      ensures forall i :: 0 <= i < |nodes| && i != k ==> Holds(nodes[i], contents[i])
    {
      assert Placed(nodes, k) && Holds(nodes[k], contents[k]);
      if k + 1 < |nodes| { assert Placed(nodes, k + 1); }
      StoreThrough(node.previous, node.next);
      if node.next != null {
        node.next.previous := node.previous;
      }
      if tail == NextSlot(node) {
        tail := node.previous;
      }
      NodeFree(node);
      forall i | 0 <= i < |nodes| && i != k
        ensures Bypassing(nodes, k, i)
        ensures Holds(nodes[i], contents[i])
      {
        assert old(Placed(nodes, i)) && old(Holds(nodes[i], contents[i]));
      }
    }

    // `k` is the place of `node` in the list, or its length for a NULL `node`.
    method Remove(node: Node?, ghost k: nat) returns (data: Pointer)
      requires Valid() && k <= |nodes| && node == LinkAt(nodes, k)
      modifies this`head, this`tail, this`nodes, this`contents, nodes
      ensures Valid()
      ensures node == null ==> data == NULL && nodes == old(nodes) && contents == old(contents)
      ensures node != null ==>
                && data == old(contents)[k]
                && nodes == RemoveAt(old(nodes), k)
                && contents == RemoveAt(old(contents), k)
                && !node.live
    {
      if node == null {
        return NULL;
      }
      assert Holds(node, contents[k]);
      data := node.data;
      Unlink(node, k);
      ghost var ns, held := nodes, contents;
      nodes, contents := RemoveAt(ns, k), RemoveAt(held, k);
      Unlinked(ns, held, k);
    }

    // Node `i` once the chain has been routed through `node` in front of node `k`, or behind the last one.
    static ghost predicate Passing(ns: seq<Node>, k: nat, node: Node, i: nat)
      requires k <= |ns| && i < |ns|
      reads ns[i]
    {
      && ns[i].next == (if i + 1 == k then node else LinkAt(ns, i + 1))
      && ns[i].previous == (if i == k then NextSlot(node) else SlotAt(ns, i))
    }

    lemma Linked(ns: seq<Node>, data: seq<Pointer>, k: nat, node: Node)
      requires Distinct(ns) && node !in ns && k <= |ns| == |data|
      requires node.live && node.next == LinkAt(ns, k) && node.previous == SlotAt(ns, k)
      requires head == (if k == 0 then node else ns[0])
      requires tail == (if k == |ns| then NextSlot(node) else SlotAt(ns, |ns|))
      requires forall i :: 0 <= i < |ns| ==> Passing(ns, k, node, i)
      requires forall i :: 0 <= i < |ns| ==> Holds(ns[i], data[i])
      ensures Represents(InsertAt(ns, k, node)) && Carries(InsertAt(ns, k, node), InsertAt(data, k, node.data))
    {
      var all, held := InsertAt(ns, k, node), InsertAt(data, k, node.data);
      DistinctAfterInsert(ns, k, node);
      forall i | 0 <= i < |all|
        ensures Placed(all, i) && Holds(all[i], held[i])
      {
        if i != k {
          var j := if i < k then i else i - 1;
          assert all[i] == ns[j] && held[i] == data[j];
          assert Passing(ns, k, node, j) && Holds(ns[j], data[j]);
        }
      }
    }

    // The chain has been led through a new node at place `k`, with the list's own account of it left behind.
    ghost predicate Spliced(node: Node, k: nat)
      reads this, nodes, node
    {
      && live && k <= |nodes| == |contents| && Distinct(nodes)
      && node !in nodes && node.live && node.next == LinkAt(nodes, k) && node.previous == SlotAt(nodes, k)
      && head == (if k == 0 then node else nodes[0])
      && tail == (if k == |nodes| then NextSlot(node) else SlotAt(nodes, |nodes|))
      && (forall i :: 0 <= i < |nodes| ==> Passing(nodes, k, node, i))
      && forall i :: 0 <= i < |nodes| ==> Holds(nodes[i], contents[i])
    }

    // Brings the list's own account up to date.
    ghost method Account(node: Node, k: nat)
      requires Spliced(node, k)
      modifies this`nodes, this`contents
      ensures Valid()
      ensures nodes == InsertAt(old(nodes), k, node) && contents == InsertAt(old(contents), k, node.data)
    {
      var ns, held := nodes, contents;
      nodes, contents := InsertAt(ns, k, node), InsertAt(held, k, node.data);
      Linked(ns, held, k, node);
    }

    // The stores of list_push_front.
    method SpliceFront(data: Pointer) returns (node: Node)
      requires Valid()
      modifies this`head, this`tail, nodes
      ensures fresh(node) && node.data == data && Spliced(node, 0)
    {
      node := new Node();
      assert node !in nodes;
      node.data := data;
      node.next := head;
      node.previous := HeadSlot;
      if head != null {
        head.previous := NextSlot(node);
      } else {
        tail := NextSlot(node);
      }
      head := node;
      forall i | 0 <= i < |nodes|
        ensures Passing(nodes, 0, node, i)
        ensures Holds(nodes[i], contents[i])
      {
        assert old(Placed(nodes, i)) && old(Holds(nodes[i], contents[i]));
      }
    }

    method PushFront(data: Pointer)
      requires Valid()
      modifies this`head, this`tail, this`nodes, this`contents, nodes
      ensures Valid()
      ensures |nodes| == |old(nodes)| + 1 && nodes[1..] == old(nodes) && fresh(nodes[0])
      ensures contents == [data] + old(contents)
    {
      var node := SpliceFront(data);
      Account(node, 0);
    }

    // The stores of list_push_back.
    method SpliceBack(data: Pointer) returns (node: Node)
      requires Valid()
      modifies this`head, this`tail, nodes
      ensures fresh(node) && node.data == data && Spliced(node, |nodes|)
    {
      node := new Node();
      assert node !in nodes;
      node.data := data;
      StoreThrough(tail, node);
      assert nodes == [] ==> head == node;
      assert nodes != [] ==> nodes[|nodes| - 1].next == node && head == nodes[0];
      node.previous := tail;
      tail := NextSlot(node);
      assert node.previous == SlotAt(nodes, |nodes|) && node.next == null;
      forall i | 0 <= i < |nodes|
        ensures Passing(nodes, |nodes|, node, i)
        ensures Holds(nodes[i], contents[i])
      {
        assert old(Placed(nodes, i)) && old(Holds(nodes[i], contents[i]));
        if i + 1 < |nodes| { assert nodes[i] != nodes[|nodes| - 1]; }
      }
    }

    method PushBack(data: Pointer)
      requires Valid()
      modifies this`head, this`tail, this`nodes, this`contents, nodes
      ensures Valid()
      ensures |nodes| == |old(nodes)| + 1 && nodes[..|old(nodes)|] == old(nodes) && fresh(nodes[|old(nodes)|])
      ensures contents == old(contents) + [data]
    {
      var node := SpliceBack(data);
      Account(node, |nodes|);
    }

    // The last two stores of list_push_before.
    method LeadThrough(node: Node, next: Node, ghost k: nat)
      requires Valid() && k < |nodes| && next == nodes[k] && node !in nodes && node.live
      requires node.next == next && node.previous == next.previous
      modifies this`head, nodes
      ensures node.data == old(node.data) && Spliced(node, k)
    {
      assert Placed(nodes, k);
      StoreThrough(next.previous, node);
      assert k > 0 ==> nodes[k - 1].next == node && head == nodes[0];
      next.previous := NextSlot(node);
      forall i | 0 <= i < |nodes|
        ensures Passing(nodes, k, node, i)
        ensures Holds(nodes[i], contents[i])
      {
        assert old(Placed(nodes, i)) && old(Holds(nodes[i], contents[i]));
      }
    }

    // The stores of list_push_before, for a `next` that is not NULL.
    method Splice(next: Node, data: Pointer, ghost k: nat) returns (node: Node)
      requires Valid() && k < |nodes| && next == nodes[k]
      modifies this`head, nodes
      ensures fresh(node) && node.data == data && Spliced(node, k)
    {
      node := new Node();
      assert node !in nodes;
      node.data := data;
      node.next := next;
      node.previous := next.previous;
      LeadThrough(node, next, k);
    }

    // `k` is the place of `next` in the list, or its length for a NULL `next`.
    method PushBefore(next: Node?, data: Pointer, ghost k: nat)
      requires Valid() && k <= |nodes| && next == LinkAt(nodes, k)
      modifies this`head, this`tail, this`nodes, this`contents, nodes
      ensures Valid()
      ensures |nodes| == |old(nodes)| + 1 && fresh(nodes[k]) && nodes == InsertAt(old(nodes), k, nodes[k])
      ensures contents == InsertAt(old(contents), k, data)
    {
      if next == null {
        PushBack(data);
        return;
      }
      var node := Splice(next, data, k);
      Account(node, k);
    }

    method PopFront() returns (data: Pointer)
      requires Valid()
      modifies this`head, this`tail, this`nodes, this`contents, nodes
      ensures Valid()
      ensures old(nodes) == [] ==> data == NULL && nodes == [] && contents == []
      ensures old(nodes) != [] ==>
                && data == old(contents)[0] && nodes == old(nodes)[1..]
                && contents == old(contents)[1..] && !old(nodes)[0].live
    {
      data := Remove(head, 0);
    }

    // What is left of a list that held `held` in the nodes `all`, once the first `j` are popped.
    ghost predicate PoppedTo(all: seq<Node>, held: seq<Pointer>, j: nat)
      reads this, nodes, all
    {
      && Valid() && |held| == |all| && Distinct(all) && j <= |all| && nodes == all[j..] && contents == held[j..]
      && forall i :: 0 <= i < j ==> !all[i].live
    }

    // One round of list_free's loop.
    method PopNext(ghost all: seq<Node>, ghost held: seq<Pointer>, ghost j: nat)
      returns (data: Pointer, ghost next: nat)
      requires PoppedTo(all, held, j) && NoneNull(held, j)
      modifies this`head, this`tail, this`nodes, this`contents, nodes
      ensures PoppedTo(all, held, next)
      ensures data != NULL ==> j < next && NoneNull(held, next)
      ensures data == NULL ==> next == Drained(held)
    {
      DoneIsBehind(all, j);
      data := PopFront();
      next := if j < |all| then j + 1 else j;
      if data == NULL { DrainedAt(held, next); }
    }

    // list_free: pops until a NULL comes out, then frees the list itself.
    method Free()
      requires Valid()
      modifies this, nodes
      ensures !live
      ensures nodes == old(nodes)[Drained(old(contents))..]
      ensures forall i :: 0 <= i < Drained(old(contents)) ==> !old(nodes)[i].live
      ensures Carries(nodes, contents)
    {
      ghost var all, held, j := nodes, contents, 0;
      var data;
      while true
        invariant PoppedTo(all, held, j) && NoneNull(held, j)
        decreases |all| - j
      {
        data, j := PopNext(all, held, j);
        if data == NULL {
          break;
        }
      }
      live := false;
    }

    function Head(): (node: Node?)
      requires Valid()
      reads this, nodes
      ensures node == LinkAt(nodes, 0)
    {
      head
    }

    function Tail(): (node: Node?)
      requires Valid()
      reads this, nodes
      ensures node == if nodes == [] then null else nodes[|nodes| - 1]
    {
      if tail == HeadSlot then null else tail.node
    }

    function Next(node: Node, ghost k: nat): (next: Node?)
      requires Valid() && k < |nodes| && node == nodes[k]
      reads this, nodes
      ensures next == LinkAt(nodes, k + 1)
    {
      assert Placed(nodes, k);
      node.next
    }

    function Previous(node: Node, ghost k: nat): (previous: Node?)
      requires Valid() && k < |nodes| && node == nodes[k]
      reads this, nodes
      ensures previous == if k == 0 then null else nodes[k - 1]
    {
      assert Placed(nodes, k);
      if node.previous == HeadSlot then null else node.previous.node
    }

    // Takes node `k` out and puts what it held back where it was, in a new node.
    method Reinsert(node: Node, next: Node?, ghost k: nat)
      requires Valid() && k < |nodes| && node == nodes[k] && next == LinkAt(nodes, k + 1)
      modifies this`head, this`tail, this`nodes, this`contents, nodes
      ensures Valid()
      ensures |nodes| == |old(nodes)| && fresh(nodes[k]) && nodes == old(nodes)[k := nodes[k]]
      ensures contents == old(contents) && !node.live && node !in nodes
    {
      ghost var ns, held := nodes, contents;
      var item := Remove(node, k);
      DistinctAfterRemove(ns, k);
      PushBefore(next, item, k);
      ReplaceAt(ns, k, nodes[k]);
      ReplaceAt(held, k, item);
    }

    // The first `j` of the nodes `all` have been replaced by others that hold the same.
    ghost predicate ReplacedTo(all: seq<Node>, held: seq<Pointer>, j: nat)
      reads this, nodes, all
    {
      && Valid() && j <= |nodes| == |all| && contents == held
      && (forall i :: j <= i < |all| ==> nodes[i] == all[i])
      && forall i :: 0 <= i < j ==> all[i] !in nodes && !all[i].live
    }

    // One round of the loop below: `next` is read before the visit frees the node it is read from.
    method ReinsertNext(node: Node, ghost all: seq<Node>, ghost held: seq<Pointer>, ghost j: nat)
      returns (next: Node?, data: Pointer)
      requires ReplacedTo(all, held, j) && j < |nodes| && node == nodes[j]
      modifies this`head, this`tail, this`nodes, this`contents, nodes
      ensures ReplacedTo(all, held, j + 1) && next == LinkAt(nodes, j + 1) && data == held[j]
      ensures fresh(nodes[j]) && nodes == old(nodes)[j := nodes[j]]
    {
      assert Placed(nodes, j) && Holds(nodes[j], contents[j]);
      ghost var before := nodes;
      next := node.next;
      data := node.data;
      Reinsert(node, next, j);
      GoneStayGone(all, before, j, nodes[j]);
    }

    // The list_foreach_safe loop of common/list-test.c.
    method ReinsertEach() returns (ghost visited: seq<Pointer>)
      requires Valid()
      modifies this`head, this`tail, this`nodes, this`contents, nodes
      ensures Valid()
      ensures visited == old(contents) && contents == old(contents)
      ensures forall i :: 0 <= i < |old(nodes)| ==> !old(nodes)[i].live
      ensures forall i :: 0 <= i < |nodes| ==> fresh(nodes[i])
    {
      ghost var all, held, j := nodes, contents, 0;
      visited := [];
      var node := head;
      while node != null
        invariant ReplacedTo(all, held, j) && node == LinkAt(nodes, j)
        invariant |visited| == j && forall i :: 0 <= i < j ==> visited[i] == held[i]
        invariant forall i :: 0 <= i < j ==> fresh(nodes[i])
        decreases |all| - j
      {
        var data;
        node, data := ReinsertNext(node, all, held, j);
        visited, j := visited + [data], j + 1;
      }
    }

    lemma SamePrefix(a: seq<Node>, b: seq<Node>, n: nat)
      requires Represents(a) && Represents(b) && n <= |a| && n <= |b|
      ensures a[..n] == b[..n] && LinkAt(a, n) == LinkAt(b, n)
    {
      if n > 0 {
        SamePrefix(a, b, n - 1);
        assert Placed(a, n - 1) && Placed(b, n - 1);
      }
    }

    // The slots in the heap spell one sequence only.
    lemma ChainIsUnique(a: seq<Node>, b: seq<Node>)
      requires Represents(a) && Represents(b)
      ensures a == b
    {
      SamePrefix(a, b, if |a| <= |b| then |a| else |b|);
    }
  }
}
