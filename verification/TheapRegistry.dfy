/// A thread's list of its theaps, linked through the theaps themselves, does
/// what the heap machine's `Find` and `Without` say.

module TheapRegistry {
  import opened HeapLifetime

  class TheapNode {
    const theap: Theap
    var tnext: TheapNode?

    constructor (theap: Theap)
      ensures this.theap == theap && tnext == null
    {
      this.theap := theap;
      tnext := null;
    }
  }

  function Theaps(nodes: seq<TheapNode>): (r: seq<Theap>)
    ensures |r| == |nodes| && forall i :: 0 <= i < |r| ==> r[i] == nodes[i].theap
  {
    if nodes == [] then [] else [nodes[0].theap] + Theaps(nodes[1..])
  }

  function At(nodes: seq<TheapNode>, i: nat): TheapNode? {
    if i < |nodes| then nodes[i] else null
  }

  lemma {:induction false} FoundAt(reg: seq<Theap>, i: nat, a: Addr)
    requires i <= |reg| && (i < |reg| ==> reg[i].heap == a)
    requires forall j :: 0 <= j < i ==> reg[j].heap != a
    ensures Find(reg, a) == i
  {
    if reg != [] && reg[0].heap != a { FoundAt(reg[1..], i - 1, a); }
  }

  class Registry {
    var head: TheapNode?
    ghost var nodes: seq<TheapNode>

    ghost predicate Valid()
      reads this, nodes
    {
      && head == At(nodes, 0)
      && (forall i, j :: 0 <= i < j < |nodes| ==> nodes[i] != nodes[j])
      && (forall i: nat :: i < |nodes| ==> Linked(nodes, i))
    }

    static ghost predicate Linked(nodes: seq<TheapNode>, i: nat)
      requires i < |nodes|
      reads nodes[i]
    {
      nodes[i].tnext == At(nodes, i + 1)
    }

    constructor ()
      ensures Valid() && nodes == []
    {
      head, nodes := null, [];
    }

    /// The thread's theap for the heap at `a`, made on first use; null when
    /// there is no memory.
    method TheapFor(a: Addr, inc: Inc, canAlloc: bool) returns (tp: TheapNode?)
      requires Valid()
      modifies this
      ensures Valid()
      ensures var i := Find(old(Theaps(nodes)), a);
        if i < |old(nodes)| then nodes == old(nodes) && tp == nodes[i]
        else if canAlloc then tp != null && fresh(tp) && tp.theap == Theap(a, inc) && nodes == [tp] + old(nodes)
        else nodes == old(nodes) && tp == null
    {
      var cur := head;
      ghost var i := 0;
      while cur != null
        invariant i <= |nodes| && cur == At(nodes, i)
        invariant forall j :: 0 <= j < i ==> nodes[j].theap.heap != a
        decreases |nodes| - i
      {
        assert Linked(nodes, i);
        if cur.theap.heap == a {
          FoundAt(Theaps(nodes), i, a);
          return cur;
        }
        cur := cur.tnext;
        i := i + 1;
      }
      FoundAt(Theaps(nodes), i, a);
      if !canAlloc { return null; }
      ghost var was := nodes;
      var node := new TheapNode(Theap(a, inc));
      node.tnext := head;
      head := node;
      nodes := [node] + nodes;
      forall k: nat | k < |nodes| ensures Linked(nodes, k) {
        assert k > 0 ==> old(Linked(was, k - 1));
      }
      return node;
    }

    /// The first theap for the heap at `a`, and the one before it.
    method Search(a: Addr) returns (prev: TheapNode?, cur: TheapNode?, ghost i: nat)
      requires Valid()
      ensures i == Find(Theaps(nodes), a) <= |nodes| && cur == At(nodes, i)
      ensures prev == if i == 0 then null else nodes[i - 1]
    {
      prev, cur, i := null, head, 0;
      while cur != null
        invariant i <= |nodes| && cur == At(nodes, i) && prev == if i == 0 then null else nodes[i - 1]
        invariant forall j :: 0 <= j < i ==> nodes[j].theap.heap != a
        decreases |nodes| - i
      {
        assert Linked(nodes, i);
        if cur.theap.heap == a { break; }
        prev := cur;
        cur := cur.tnext;
        i := i + 1;
      }
      FoundAt(Theaps(nodes), i, a);
    }

    method Detach(prev: TheapNode?, cur: TheapNode, next: TheapNode?, ghost i: nat)
      requires Valid() && i < |nodes| && cur == nodes[i] && next == cur.tnext
      requires prev == if i == 0 then null else nodes[i - 1]
      modifies this, nodes
      ensures Valid() && cur.tnext == null && nodes == old(nodes)[..i] + old(nodes)[i + 1..]
    {
      ghost var was := nodes;
      assert Linked(was, i);
      if prev == null {
        head := next;
      } else {
        prev.tnext := next;
      }
      cur.tnext := null;
      nodes := was[..i] + was[i + 1..];
      forall k: nat | k < |nodes| ensures Linked(nodes, k) {
        assert old(Linked(was, if k < i then k else k + 1));
      }
    }

    /// Takes the thread's theap for the heap at `a` out of the list, the others
    /// keeping their order; null, and nothing changed, if it has none.
    method TakeTheapFor(a: Addr) returns (tp: TheapNode?)
      requires Valid()
      modifies this, nodes
      ensures Valid()
      ensures var i := Find(old(Theaps(nodes)), a);
        if i < |old(nodes)| then
          tp == old(nodes)[i] && tp.tnext == null && nodes == old(nodes)[..i] + old(nodes)[i + 1..]
        else tp == null && nodes == old(nodes)
    {
      var prev, cur;
      ghost var i;
      prev, cur, i := Search(a);
      if cur != null { Detach(prev, cur, cur.tnext, i); }
      return cur;
    }

    /// Thread exit: every theap is torn down once, in list order.
    method Drop() returns (torn: seq<TheapNode>)
      requires Valid()
      modifies this
      ensures Valid() && nodes == [] && torn == old(nodes)
    {
      torn := [];
      var cur := head;
      ghost var was := nodes;
      head, nodes := null, [];
      while cur != null
        invariant nodes == [] && head == null
        invariant |torn| <= |was| && torn == was[..|torn|] && cur == At(was, |torn|)
        invariant forall k: nat :: k < |was| ==> Linked(was, k)
        decreases |was| - |torn|
      {
        assert Linked(was, |torn|);
        var next := cur.tnext;
        torn := torn + [cur];
        cur := next;
      }
    }
  }
}
