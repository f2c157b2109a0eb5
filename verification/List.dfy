/**
 * kernel/lib/list.c: intrusive circular lists with a sentinel, on real pointers. A list of nodes
 * is proved to be a sequence, and a node to be linked exactly when it is in some list.
 */
module List {

  class ListNode {
    var prev: ListNode?
    var next: ListNode?

    /** list_node_init. */
    constructor ()
      ensures prev == null && next == null
    {
      prev, next := null, null;
    }
  }

  /** As list_node_init leaves a node. */
  predicate Isolated(n: ListNode)
    reads n
  {
    n.prev == null && n.next == null
  }

  class List {
    const head: ListNode
    ghost var nodes: seq<ListNode>

    /** list_init. */
    constructor ()
      ensures Valid() && nodes == [] && fresh(head)
    {
      head := new ListNode();
      nodes := [];
      new;
      head.next := head;
      head.prev := head;
    }

    /** Going round from the sentinel, position 0, back to it. */
    ghost function At(i: nat): ListNode
      requires i <= |nodes| + 1
      reads this
    {
      if i == 0 || i == |nodes| + 1 then head else nodes[i - 1]
    }

    /** Forward and backward links agree with the sequence, and so are inverse to each other. */
    ghost predicate Valid()
      reads this, head, nodes
    {
      var distinct := head !in nodes && forall i, j :: 0 <= i < j < |nodes| ==> nodes[i] != nodes[j];
      var forward := forall i :: 0 <= i <= |nodes| ==> At(i).next == At(i + 1);
      var backward := forall i :: 0 <= i <= |nodes| ==> At(i + 1).prev == At(i);
      distinct && forward && backward
    }

    lemma MemberLinked(n: ListNode)
      requires Valid() && n in nodes
      ensures n.prev != null && n.next != null
    {
      var k :| 0 <= k < |nodes| && nodes[k] == n;
      assert At(k + 1).prev == At(k) && At(k + 1).next == At(k + 2);
    }

    method Front() returns (node: ListNode)
      requires Valid()
      ensures node == At(1)
    {
      assert At(0).next == At(1);
      node := head.next;
    }

    method Back() returns (node: ListNode)
      requires Valid()
      ensures node == At(|nodes|)
    {
      assert At(|nodes| + 1).prev == At(|nodes|);
      node := head.prev;
    }

    method Empty() returns (empty: bool)
      requires Valid()
      ensures empty <==> nodes == []
    {
      assert At(0).next == At(1);
      empty := head.next == head;
    }

    /** `i` is the position of `pos` among the nodes, |nodes| for the sentinel; `node` comes to stand there. */
    method InsertBefore(pos: ListNode, node: ListNode, ghost i: nat)
      requires Valid() && i <= |nodes| && pos == At(i + 1)
      requires Isolated(node)
      requires node != head && node !in nodes
      modifies this, pos, pos.prev, node
      ensures Valid() && nodes == old(nodes)[..i] + [node] + old(nodes)[i..]
    {
      assert At(i + 1).prev == At(i);
      ghost var before := At(i);
      node.prev := pos.prev;
      node.next := pos;
      pos.prev.next := node;
      pos.prev := node;
      nodes := nodes[..i] + [node] + nodes[i..];
      forall j | 0 <= j <= |nodes|
        ensures At(j).next == At(j + 1) && At(j + 1).prev == At(j)
      {
        if j > i + 1 {
          assert At(j) == old(At(j - 1)) && At(j + 1) == old(At(j));
        } else if j < i {
          assert At(j) == old(At(j)) && At(j + 1) == old(At(j + 1));
        }
      }
    }

    /** `i` is the position of `pos`, 0 for the sentinel; `node` comes to stand behind it. */
    method InsertAfter(pos: ListNode, node: ListNode, ghost i: nat)
      requires Valid() && i <= |nodes| && pos == At(i)
      requires Isolated(node)
      requires node != head && node !in nodes
      modifies this, pos, pos.next, node
      ensures Valid() && nodes == old(nodes)[..i] + [node] + old(nodes)[i..]
    {
      assert At(i).next == At(i + 1);
      node.prev := pos;
      node.next := pos.next;
      pos.next.prev := node;
      pos.next := node;
      nodes := nodes[..i] + [node] + nodes[i..];
      forall j | 0 <= j <= |nodes|
        ensures At(j).next == At(j + 1) && At(j + 1).prev == At(j)
      {
        if j > i + 1 {
          assert At(j) == old(At(j - 1)) && At(j + 1) == old(At(j));
        } else if j < i {
          assert At(j) == old(At(j)) && At(j + 1) == old(At(j + 1));
        }
      }
    }

    method PushFront(node: ListNode)
      requires Valid() && Isolated(node)
      requires node != head && node !in nodes
      modifies this, head, head.next, node
      ensures Valid() && nodes == [node] + old(nodes)
    {
      InsertAfter(head, node, 0);
    }

    method PushBack(node: ListNode)
      requires Valid() && Isolated(node)
      requires node != head && node !in nodes
      modifies this, head, head.prev, node
      ensures Valid() && nodes == old(nodes) + [node]
    {
      InsertBefore(head, node, |nodes|);
    }

    method Remove(node: ListNode, ghost i: nat)
      requires Valid() && i < |nodes| && node == nodes[i]
      modifies this, node, node.prev, node.next
      ensures Valid() && nodes == old(nodes)[..i] + old(nodes)[i + 1..]
      ensures node.prev == null && node.next == null
    {
      assert At(i + 1).prev == At(i) && At(i + 1).next == At(i + 2);
      node.prev.next := node.next;
      node.next.prev := node.prev;
      node.prev := null;
      node.next := null;
      nodes := nodes[..i] + nodes[i + 1..];
      forall j | 0 <= j <= |nodes|
        ensures At(j).next == At(j + 1) && At(j + 1).prev == At(j)
      {
        if j > i {
          assert At(j) == old(At(j + 1)) && At(j + 1) == old(At(j + 2));
        } else if j < i {
          assert At(j) == old(At(j)) && At(j + 1) == old(At(j + 1));
        }
      }
    }
  }

  // ----- all lists together -----

  ghost predicate InSome(lists: set<List>, n: ListNode)
    reads lists
  {
    exists l :: l in lists && n in l.nodes
  }

  /** Separate lists over a pool of nodes; a node of the pool is in a list iff its pointers are not null. */
  ghost predicate Separate(lists: set<List>, pool: set<ListNode>)
    reads lists, pool, set l | l in lists :: l.head
  {
    (forall l, n | l in lists && n in l.nodes :: n in pool) &&
    var valid := forall l | l in lists :: l.head !in pool && l.Valid();
    var disjoint := forall l, m | l in lists && m in lists && l != m ::
                      l.head != m.head && forall n | n in l.nodes :: n !in m.nodes;
    var linked := forall n | n in pool && !Isolated(n) :: n.prev != null && n.next != null;
    var listed := forall n | n in pool :: Isolated(n) <==> !InSome(lists, n);
    valid && disjoint && linked && listed
  }

  /** Nothing that belongs to one list, and no unlinked node, belongs to another. */
  lemma OthersApart(lists: set<List>, pool: set<ListNode>, l: List, x: ListNode)
    requires Separate(lists, pool) && l in lists && (x == l.head || x in l.nodes || (x in pool && Isolated(x)))
    ensures forall m | m in lists && m != l :: x != m.head && x !in m.nodes
  {
    if x in pool && Isolated(x) {
      assert !InSome(lists, x);
    }
  }

  lemma Unlinked(lists: set<List>, pool: set<ListNode>, l: List, x: ListNode)
    requires Separate(lists, pool) && l in lists && x in pool && Isolated(x)
    ensures l.Valid() && x != l.head && x !in l.nodes
  {
    assert !InSome(lists, x);
  }

  /** Linking an unlinked node changes one list, leaves all others alone and keeps them separate. */
  method InsertBeforeAmong(l: List, pos: ListNode, node: ListNode, ghost i: nat,
                           ghost lists: set<List>, ghost pool: set<ListNode>)
    requires Separate(lists, pool) && l in lists && i <= |l.nodes| && pos == l.At(i + 1)
    requires node in pool && Isolated(node)
    modifies l, pos, pos.prev, node
    ensures Separate(lists, pool) && l.nodes == old(l.nodes)[..i] + [node] + old(l.nodes)[i..]
    ensures forall m | m in lists && m != l :: m.nodes == old(m.nodes)
  {
    ghost var before := l.At(i);
    Unlinked(lists, pool, l, node);
    assert l.At(i + 1).prev == before;
    OthersApart(lists, pool, l, node);
    OthersApart(lists, pool, l, pos);
    OthersApart(lists, pool, l, before);
    l.InsertBefore(pos, node, i);
    assert forall n :: n in l.nodes <==> n in old(l.nodes) || n == node;
    assert forall m | m in lists && m != l :: m.nodes == old(m.nodes) && old(m.Valid()) && m.Valid();
    forall n | n in pool
      ensures !Isolated(n) ==> n.prev != null && n.next != null
      ensures Isolated(n) <==> !InSome(lists, n)
    {
      if n in l.nodes {
        l.MemberLinked(n);
      } else if n != node {
        assert InSome(lists, n) <==> old(InSome(lists, n));
      }
    }
  }

  method RemoveAmong(l: List, node: ListNode, ghost i: nat, ghost lists: set<List>, ghost pool: set<ListNode>)
    requires Separate(lists, pool) && l in lists && i < |l.nodes| && node == l.nodes[i]
    modifies l, node, node.prev, node.next
    ensures Separate(lists, pool) && l.nodes == old(l.nodes)[..i] + old(l.nodes)[i + 1..] && Isolated(node)
    ensures forall m | m in lists && m != l :: m.nodes == old(m.nodes)
  {
    ghost var before, after := l.At(i), l.At(i + 2);
    assert l.At(i + 1).prev == before && l.At(i + 1).next == after;
    OthersApart(lists, pool, l, node);
    OthersApart(lists, pool, l, before);
    OthersApart(lists, pool, l, after);
    l.Remove(node, i);
    assert forall n :: n in l.nodes <==> n in old(l.nodes) && n != node;
    assert forall m | m in lists && m != l :: m.nodes == old(m.nodes) && old(m.Valid()) && m.Valid();
    forall n | n in pool
      ensures !Isolated(n) ==> n.prev != null && n.next != null
      ensures Isolated(n) <==> !InSome(lists, n)
    {
      if n in l.nodes {
        l.MemberLinked(n);
      } else if n != node {
        assert InSome(lists, n) <==> old(InSome(lists, n));
      }
    }
  }
}
