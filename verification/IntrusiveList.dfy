/** The doubly linked list that kernel objects carry within them: nodes on the heap, in a ring through a header node. */
module IntrusiveLists {
  import opened Lists
  import opened RingPositions

  class ListNode {
    var next: ListNode
    var prev: ListNode

    // RT_LIST_OBJECT_INIT
    constructor ()
      ensures Ring(this, [])
    {
      next, prev := this, this;
    }

    // rt_list_init
    method Init()
      modifies this
      ensures Ring(this, [])
    {
      next, prev := this, this;
    }
  }

  /** The ring through h holds the nodes of the list in order: each node and the one after it point to each other. */
  ghost predicate Ring(h: ListNode, list: seq<ListNode>)
    reads h, list
  {
    && Distinct(list) && h !in list
    && forall i: nat | i <= |list| :: Joined(h, list, i)
  }

  ghost predicate Joined(h: ListNode, list: seq<ListNode>, i: nat)
    requires i <= |list|
    reads h, list
  {
    At(h, list, i).next == At(h, list, i + 1) && At(h, list, i + 1).prev == At(h, list, i)
  }

  /** A ring determines its list. */
  lemma {:induction false} RingIsList(h: ListNode, list: seq<ListNode>, list': seq<ListNode>)
    requires Ring(h, list) && Ring(h, list')
    ensures list == list'
  {
    var i: nat := 0;
    while i < |list| && i < |list'|
      invariant i <= |list| && i <= |list'| && list[..i] == list'[..i]
    {
      assert Joined(h, list, i) && Joined(h, list', i);
      assert At(h, list, i) == At(h, list', i);
      i := i + 1;
    }
    assert Joined(h, list, i) && Joined(h, list', i) && At(h, list, i) == At(h, list', i);
  }

  /** With every other pair of neighbours still joined, a node joined between the i-th and the next is in the list there. */
  lemma JoinIn(h: ListNode, list: seq<ListNode>, i: nat, n: ListNode)
    requires Distinct(list) && h !in list && i <= |list| && n != h && n !in list
    requires forall j: nat | j <= |list| && j != i :: Joined(h, list, j)
    requires At(h, list, i).next == n && n.prev == At(h, list, i) && n.next == At(h, list, i + 1) && At(h, list, i + 1).prev == n
    ensures Ring(h, InsertAt(list, i, n))
  {
    var r := InsertAt(list, i, n);
    forall j: nat | j <= |r|
      ensures Joined(h, r, j)
    {
      InsertedAt(h, list, i, n, j);
      InsertedAt(h, list, i, n, j + 1);
      assert if j < i then Joined(h, list, j) else j > i + 1 ==> Joined(h, list, j - 1);
    }
  }

  /** With its neighbours joined to each other, the i-th element is out of the list. */
  lemma JoinOver(h: ListNode, list: seq<ListNode>, i: nat)
    requires Distinct(list) && h !in list && i < |list|
    requires forall j: nat | j <= |list| && j != i && j != i + 1 :: Joined(h, list, j)
    requires At(h, list, i).next == At(h, list, i + 2) && At(h, list, i + 2).prev == At(h, list, i)
    ensures Ring(h, DropAt(list, i))
  {
    var r := DropAt(list, i);
    forall j: nat | j <= |r|
      ensures Joined(h, r, j)
    {
      RemovedAt(h, list, i, j);
      RemovedAt(h, list, i, j + 1);
      assert if j < i then Joined(h, list, j) else j > i ==> Joined(h, list, j + 1);
    }
  }

  // rt_list_insert_after, behind the i-th node
  method InsertAfter(l: ListNode, n: ListNode, ghost h: ListNode, ghost list: seq<ListNode>, ghost i: nat)
    requires Ring(h, list) && i <= |list| && l == At(h, list, i) && n != h && n !in list
    modifies n, l`next, l.next`prev
    ensures Ring(h, InsertAt(list, i, n))
  {
    assert Joined(h, list, i);
    l.next.prev := n;
    n.next := l.next;
    l.next := n;
    n.prev := l;
    forall j: nat | j <= |list| && j != i
      ensures Joined(h, list, j)
    {
      assert old(Joined(h, list, j));
      AtDistinct(h, list, if j < i then j else i, if j < i then i else j);
      InRing(h, list, j);
      InRing(h, list, j + 1);
    }
    JoinIn(h, list, i, n);
  }

  // rt_list_insert_before, in front of the node after the i-th one; before the header is at the end of the list
  method InsertBefore(l: ListNode, n: ListNode, ghost h: ListNode, ghost list: seq<ListNode>, ghost i: nat)
    requires Ring(h, list) && i <= |list| && l == At(h, list, i + 1) && n != h && n !in list
    modifies n, l`prev, l.prev`next
    ensures Ring(h, InsertAt(list, i, n))
  {
    assert Joined(h, list, i);
    l.prev.next := n;
    n.prev := l.prev;
    l.prev := n;
    n.next := l;
    forall j: nat | j <= |list| && j != i
      ensures Joined(h, list, j)
    {
      assert old(Joined(h, list, j));
      AtDistinct(h, list, if j < i then j else i, if j < i then i else j);
      InRing(h, list, j);
      InRing(h, list, j + 1);
    }
    JoinIn(h, list, i, n);
  }

  // rt_list_remove, of the i-th element
  method Remove(n: ListNode, ghost h: ListNode, ghost list: seq<ListNode>, ghost i: nat)
    requires Ring(h, list) && i < |list| && n == list[i]
    modifies n, n.next`prev, n.prev`next
    ensures Ring(h, DropAt(list, i)) && Ring(n, [])
  {
    assert Joined(h, list, i) && Joined(h, list, i + 1);
    AtDistinct(h, list, 0, i + 1);
    n.next.prev := n.prev;
    n.prev.next := n.next;
    n.next, n.prev := n, n;
    forall j: nat | j <= |list| && j != i && j != i + 1
      ensures Joined(h, list, j)
    {
      assert old(Joined(h, list, j));
      AtDistinct(h, list, if j < i then j else i, if j < i then i else j);
      AtDistinct(h, list, if j < i then j else i + 1, if j < i then i + 1 else j);
    }
    JoinOver(h, list, i);
  }

  // rt_list_remove, of a node by itself
  method RemoveAlone(n: ListNode)
    requires Ring(n, [])
    modifies n
    ensures Ring(n, [])
  {
    assert Joined(n, [], 0);
    n.next.prev := n.prev;
    n.prev.next := n.next;
    n.next, n.prev := n, n;
  }

  // rt_list_isempty
  method IsEmpty(l: ListNode, ghost list: seq<ListNode>) returns (b: bool)
    requires Ring(l, list)
    ensures b <==> list == []
  {
    assert Joined(l, list, 0);
    b := l.next == l;
  }

  // rt_list_len
  method Len(l: ListNode, ghost list: seq<ListNode>) returns (len: nat)
    requires Ring(l, list)
    ensures len == |list|
  {
    len := 0;
    var p := l;
    assert Joined(l, list, 0);
    while p.next != l
      invariant len <= |list| && p == At(l, list, len) && Joined(l, list, len)
      decreases |list| - len
    {
      p := p.next;
      len := len + 1;
      assert Joined(l, list, len);
    }
  }

  // rt_list_for_each: the nodes in the order of the list
  method ForEach(head: ListNode, ghost list: seq<ListNode>) returns (seen: seq<ListNode>)
    requires Ring(head, list)
    ensures seen == list
  {
    seen := [];
    assert Joined(head, list, 0);
    var pos := head.next;
    while pos != head
      invariant |seen| <= |list| && seen == list[..|seen|] && pos == At(head, list, |seen| + 1)
      decreases |list| - |seen|
    {
      seen := seen + [pos];
      assert Joined(head, list, |seen|);
      pos := pos.next;
    }
  }

  /** Taking out what was just put in gives the list back. */
  lemma RemoveInserted(list: seq<ListNode>, i: nat, n: ListNode)
    requires i <= |list|
    ensures InsertAt(list, i, n)[i] == n && DropAt(InsertAt(list, i, n), i) == list
  {
    assert list == list[..i] + list[i..];
  }

  // A round trip over the heap: the ring is what it was, and so is every list that shares no node with this one.
  method PutAndTake(l: ListNode, n: ListNode, ghost h: ListNode, ghost list: seq<ListNode>, ghost i: nat,
                    ghost h': ListNode, ghost list': seq<ListNode>)
    requires Ring(h, list) && i <= |list| && l == At(h, list, i) && n != h && n !in list
    requires Ring(h', list') && h' != n && h' != h && h' !in list && h !in list' && n !in list' && forall x | x in list :: x !in list'
    modifies h, n, list
    ensures Ring(h, list) && Ring(n, []) && Ring(h', list')
  {
    hide InsertAt, DropAt;
    InRing(h, list, i);
    assert Joined(h, list, i);
    InRing(h, list, i + 1);
    InsertAfter(l, n, h, list, i);
    RemoveInserted(list, i, n);
    assert Joined(h, InsertAt(list, i, n), i) && Joined(h, InsertAt(list, i, n), i + 1);
    InsertedAt(h, list, i, n, i);
    InsertedAt(h, list, i, n, i + 1);
    InsertedAt(h, list, i, n, i + 2);
    Remove(n, h, InsertAt(list, i, n), i);
  }
}
