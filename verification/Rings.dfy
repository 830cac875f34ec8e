/** Positions in a ring of nodes: a header and a list, numbered from the header and back to it. */
module RingPositions {
  import opened Lists

  // The i-th node of the ring, counting from the header and back to it.
  function At<T>(h: T, list: seq<T>, i: nat): T
    requires i <= |list| + 1
  {
    if i == 0 || i == |list| + 1 then h else list[i - 1]
  }

  lemma AtDistinct<T>(h: T, list: seq<T>, i: nat, j: nat)
    requires Distinct(list) && h !in list && i < j <= |list|
    ensures At(h, list, i) != At(h, list, j) && At(h, list, i + 1) != At(h, list, j + 1)
  {
  }

  lemma InRing<T>(h: T, list: seq<T>, i: nat)
    requires i <= |list| + 1
    ensures At(h, list, i) == h || At(h, list, i) in list
  {
  }

  lemma InsertedAt<T>(h: T, list: seq<T>, i: nat, x: T, j: nat)
    requires i <= |list| && j <= |list| + 2
    ensures At(h, InsertAt(list, i, x), j) == if j <= i then At(h, list, j) else if j == i + 1 then x else At(h, list, j - 1)
  {
  }

  lemma RemovedAt<T>(h: T, list: seq<T>, i: nat, j: nat)
    requires i < |list| && j <= |list|
    ensures At(h, DropAt(list, i), j) == if j <= i then At(h, list, j) else At(h, list, j + 1)
  {
  }

  lemma RemovedDistinct<T>(h: T, list: seq<T>, i: nat)
    requires Distinct(list) && h !in list && i < |list|
    ensures Distinct(DropAt(list, i)) && h !in DropAt(list, i)
  {
    var r := DropAt(list, i);
    assert forall j | 0 <= j < |r| :: r[j] == list[if j < i then j else j + 1];
  }
}

/** Circular doubly-linked lists: a header node, and next and previous links that a store keeps for every node. */
module Rings {
  import opened Lists
  import opened RingPositions

  type Node = int

  /** Following the links from the header gives the list and then the header again, in both directions. */
  ghost predicate Ring(h: Node, list: seq<Node>, nx: map<Node, Node>, pv: map<Node, Node>) {
    && Distinct(list) && h !in list
    && forall i: nat | i <= |list| :: Linked(h, list, nx, pv, i)
  }

  // The i-th node and the one after it point to each other.
  ghost predicate Linked(h: Node, list: seq<Node>, nx: map<Node, Node>, pv: map<Node, Node>, i: nat)
    requires i <= |list|
  {
    && At(h, list, i) in nx && nx[At(h, list, i)] == At(h, list, i + 1)
    && At(h, list, i + 1) in pv && pv[At(h, list, i + 1)] == At(h, list, i)
  }

  /** Linking a new node in behind the i-th one. */
  lemma RingInsert(h: Node, list: seq<Node>, nx: map<Node, Node>, pv: map<Node, Node>, i: nat, x: Node)
    requires Ring(h, list, nx, pv) && i <= |list| && x !in list && x != h
    ensures var p, n := At(h, list, i), At(h, list, i + 1);
            Ring(h, InsertAt(list, i, x), nx[x := n][p := x], pv[x := p][n := x])
  {
    var p, n, r := At(h, list, i), At(h, list, i + 1), InsertAt(list, i, x);
    var nx', pv' := nx[x := n][p := x], pv[x := p][n := x];
    InsertDistinct(list, i, x);
    InRing(h, list, i);
    InRing(h, list, i + 1);
    forall j: nat | j <= |r|
      ensures Linked(h, r, nx', pv', j)
    {
      assert (j <= |list| ==> Linked(h, list, nx, pv, j)) && (j > 0 ==> Linked(h, list, nx, pv, j - 1));
      InsertedAt(h, list, i, x, j);
      InsertedAt(h, list, i, x, j + 1);
      if j < i {
        AtDistinct(h, list, j, i);
        InRing(h, list, j);
        InRing(h, list, j + 1);
      } else if j > i + 1 {
        AtDistinct(h, list, i, j - 1);
        InRing(h, list, j);
        InRing(h, list, j - 1);
      }
    }
  }

  /** Unlinking the i-th element. */
  lemma RingRemove(h: Node, list: seq<Node>, nx: map<Node, Node>, pv: map<Node, Node>, i: nat)
    requires Ring(h, list, nx, pv) && i < |list|
    ensures var p, n := At(h, list, i), At(h, list, i + 2);
            && list[i] in nx && nx[list[i]] == n && list[i] in pv && pv[list[i]] == p
            && Ring(h, DropAt(list, i), nx[p := n], pv[n := p])
  {
    var p, n, r := At(h, list, i), At(h, list, i + 2), DropAt(list, i);
    var nx', pv' := nx[p := n], pv[n := p];
    assert At(h, list, i + 1) == list[i] && Linked(h, list, nx, pv, i) && Linked(h, list, nx, pv, i + 1);
    RemovedDistinct(h, list, i);
    forall j: nat | j <= |r|
      ensures Linked(h, r, nx', pv', j)
    {
      assert Linked(h, list, nx, pv, j) && Linked(h, list, nx, pv, j + 1);
      RemovedAt(h, list, i, j);
      RemovedAt(h, list, i, j + 1);
      if j < i {
        AtDistinct(h, list, j, i);
        AtDistinct(h, list, j, i + 1);
      } else if j > i {
        AtDistinct(h, list, i, j + 1);
        AtDistinct(h, list, i + 1, j + 1);
      }
    }
  }

  // The links of a node outside the ring do not matter.
  lemma RingFrame(h: Node, list: seq<Node>, nx: map<Node, Node>, pv: map<Node, Node>, x: Node, n: Node, p: Node)
    requires Ring(h, list, nx, pv) && x != h && x !in list
    ensures Ring(h, list, nx[x := n], pv[x := p])
  {
    var nx', pv' := nx[x := n], pv[x := p];
    forall i: nat | i <= |list|
      ensures Linked(h, list, nx', pv', i)
    {
      assert Linked(h, list, nx, pv, i);
      InRing(h, list, i);
      InRing(h, list, i + 1);
    }
  }

  lemma RingLinks(h: Node, list: seq<Node>, nx: map<Node, Node>, pv: map<Node, Node>, i: nat)
    requires Ring(h, list, nx, pv) && i <= |list|
    ensures At(h, list, i) in nx && nx[At(h, list, i)] == At(h, list, i + 1)
    ensures At(h, list, i + 1) in pv && pv[At(h, list, i + 1)] == At(h, list, i)
  {
    assert Linked(h, list, nx, pv, i);
  }
}
