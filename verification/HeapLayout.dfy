/** Dividing an address range into blocks, each behind a header of h bytes: what allocating and freeing do to the division,
    and to the bytes free in it. */
module HeapLayout {
  import opened Lists

  type Addr = int

  const MINI := 12                       // RT_MEMHEAP_MINIALLOC, and MIN_SIZE_ALIGNED

  /** The headers of the blocks in address order, the tail block last, and which of them are in use. */
  datatype Layout = Layout(blocks: seq<Addr>, used: set<Addr>)

  // From one header to the next there is room for the header.
  ghost predicate Tiles(b: seq<Addr>, start: Addr, end: Addr, h: nat) {
    && h > 0 && |b| >= 2 && b[0] == start && b[|b| - 1] == end
    && forall i | 0 <= i < |b| - 1 :: b[i] + h <= b[i + 1]
  }

  // RT_ALIGN_SIZE is 4.
  ghost predicate Aligned(b: seq<Addr>, start: Addr) {
    forall a | a in b :: (a - start) % 4 == 0
  }

  // No two neighbours are both free.
  ghost predicate Merged(b: seq<Addr>, used: set<Addr>) {
    forall i | 0 <= i < |b| - 1 :: b[i] in used || b[i + 1] in used
  }

  ghost predicate LayoutOk(l: Layout, start: Addr, end: Addr, h: nat) {
    && h % 4 == 0 && Tiles(l.blocks, start, end, h) && Aligned(l.blocks, start) && Merged(l.blocks, l.used)
    && end in l.used && forall a | a in l.used :: a in l.blocks
  }

  // The payload of block i, MEMITEM_SIZE.
  function SizeAt(b: seq<Addr>, i: nat, h: nat): int
    requires i < |b| - 1
  {
    b[i + 1] - b[i] - h
  }

  function FreeIn(used: set<Addr>, a: Addr, next: Addr, h: nat): int {
    if a in used then 0 else next - a - h
  }

  /** The payload bytes of all free blocks. */
  function FreeBytes(b: seq<Addr>, used: set<Addr>, h: nat): int {
    if |b| <= 1 then 0 else FreeIn(used, b[0], b[1], h) + FreeBytes(b[1..], used, h)
  }

  // --- what the operations do ---

  function Split(l: Layout, i: nat, x: Addr): Layout
    requires i < |l.blocks|
  {
    l.(blocks := InsertAt(l.blocks, i + 1, x))
  }

  // Block i is taken for `size` bytes, and split if what is left over is worth a block.
  function Allocated(l: Layout, i: nat, size: nat, h: nat): Layout
    requires i < |l.blocks| - 1
  {
    var l' := l.(used := l.used + {l.blocks[i]});
    if SizeAt(l.blocks, i, h) >= size + h + MINI then Split(l', i, l.blocks[i] + h + size) else l'
  }

  // Block i is freed, and merged with its left and its right neighbour if they are free.
  function Freed(l: Layout, i: nat): Layout
    requires 0 <= i < |l.blocks| - 1
  {
    var used := l.used - {l.blocks[i]};
    var right := if l.blocks[i + 1] in used then l.blocks else DropAt(l.blocks, i + 1);
    Layout(if i > 0 && l.blocks[i - 1] !in used then DropAt(right, i) else right, used)
  }

  // Block i, in use, ends at x instead; the free block after it begins there.
  function Moved(l: Layout, i: nat, x: Addr): Layout
    requires i < |l.blocks| - 1
  {
    l.(blocks := l.blocks[i + 1 := x])
  }

  // Block i, in use, is cut down to `size` bytes.
  function Cut(l: Layout, i: nat, size: nat, h: nat): Layout
    requires i < |l.blocks| - 1
  {
    var x := l.blocks[i] + h + size;
    if l.blocks[i + 1] in l.used then Split(l, i, x) else Moved(l, i, x)
  }

  // --- tiling ---

  lemma {:induction false} TilesAscend(b: seq<Addr>, start: Addr, end: Addr, i: nat, j: nat, h: nat)
    requires Tiles(b, start, end, h) && i < j < |b|
    ensures b[i] + h <= b[j]
  {
    if i < j - 1 {
      TilesAscend(b, start, end, i, j - 1, h);
    }
  }

  lemma TilesDistinct(b: seq<Addr>, start: Addr, end: Addr, h: nat)
    requires Tiles(b, start, end, h)
    ensures Distinct(b)
  {
    forall i, j | 0 <= i < j < |b|
      ensures b[i] != b[j]
    {
      TilesAscend(b, start, end, i, j, h);
    }
  }

  lemma BetweenTiles(b: seq<Addr>, start: Addr, end: Addr, i: nat, x: Addr, h: nat)
    requires Tiles(b, start, end, h) && i < |b| - 1 && b[i] + h <= x && x + h <= b[i + 1]
    ensures x !in b
  {
    forall j | 0 <= j < |b|
      ensures b[j] != x
    {
      if j < i {
        TilesAscend(b, start, end, j, i, h);
      } else if j > i + 1 {
        TilesAscend(b, start, end, i + 1, j, h);
      }
    }
  }

  lemma InsertTiles(b: seq<Addr>, start: Addr, end: Addr, i: nat, x: Addr, h: nat)
    requires Tiles(b, start, end, h) && i < |b| - 1 && b[i] + h <= x && x + h <= b[i + 1]
    ensures Tiles(InsertAt(b, i + 1, x), start, end, h) && x !in b
  {
    BetweenTiles(b, start, end, i, x, h);
    var r := InsertAt(b, i + 1, x);
    assert forall j | 0 <= j < |r| :: r[j] == if j <= i then b[j] else if j == i + 1 then x else b[j - 1];
  }

  lemma DropTiles(b: seq<Addr>, start: Addr, end: Addr, k: nat, h: nat)
    requires Tiles(b, start, end, h) && 0 < k < |b| - 1
    ensures Tiles(DropAt(b, k), start, end, h)
    ensures forall a :: a in DropAt(b, k) <==> a in b && a != b[k]
  {
    var r := DropAt(b, k);
    assert forall j | 0 <= j < |r| :: r[j] == b[if j < k then j else j + 1];
    TilesAscend(b, start, end, k - 1, k + 1, h);
    TilesDistinct(b, start, end, h);
    DropMembers(b, k);
  }

  lemma DropMembers(b: seq<Addr>, k: nat)
    requires k < |b| && Distinct(b)
    ensures forall a :: a in DropAt(b, k) <==> a in b && a != b[k]
  {
    var r := DropAt(b, k);
    assert b == b[..k] + [b[k]] + b[k + 1..];
    assert forall j | 0 <= j < |b[..k]| :: b[..k][j] == b[j];
    assert forall a :: a in b[k + 1..] ==> a in b;
  }

  // --- free bytes ---

  lemma {:induction false} InsertBytes(b: seq<Addr>, used: set<Addr>, i: nat, x: Addr, h: nat)
    requires i < |b| - 1
    ensures FreeBytes(InsertAt(b, i + 1, x), used, h)
            == FreeBytes(b, used, h) - FreeIn(used, b[i], b[i + 1], h) + FreeIn(used, b[i], x, h) + FreeIn(used, x, b[i + 1], h)
  {
    var r := InsertAt(b, i + 1, x);
    if i == 0 {
      assert r[1..] == [x] + b[1..];
      assert r[1..][1..] == b[1..];
    } else {
      InsertBytes(b[1..], used, i - 1, x, h);
      assert r[1..] == InsertAt(b[1..], i, x);
    }
  }

  lemma DropBytes(b: seq<Addr>, used: set<Addr>, k: nat, h: nat)
    requires 0 < k < |b| - 1
    ensures FreeBytes(DropAt(b, k), used, h)
            == FreeBytes(b, used, h) + FreeIn(used, b[k - 1], b[k + 1], h) - FreeIn(used, b[k - 1], b[k], h) - FreeIn(used, b[k], b[k + 1], h)
  {
    InsertBytes(DropAt(b, k), used, k - 1, b[k], h);
    assert InsertAt(DropAt(b, k), k, b[k]) == b;
  }

  lemma {:induction false} SameBytes(b: seq<Addr>, used: set<Addr>, used': set<Addr>, h: nat)
    requires forall i | 0 <= i < |b| - 1 :: b[i] in used <==> b[i] in used'
    ensures FreeBytes(b, used, h) == FreeBytes(b, used', h)
  {
    if |b| > 1 {
      assert forall i | 0 <= i < |b[1..]| - 1 :: b[1..][i] == b[i + 1];
      SameBytes(b[1..], used, used', h);
    }
  }

  lemma {:induction false} MarkBytes(b: seq<Addr>, used: set<Addr>, i: nat, h: nat)
    requires i < |b| - 1 && Distinct(b)
    ensures FreeBytes(b, used + {b[i]}, h) == FreeBytes(b, used, h) - FreeIn(used, b[i], b[i + 1], h)
  {
    if i == 0 {
      SameBytes(b[1..], used, used + {b[0]}, h);
    } else {
      MarkBytes(b[1..], used, i - 1, h);
    }
  }

  lemma UnmarkBytes(b: seq<Addr>, used: set<Addr>, i: nat, h: nat)
    requires i < |b| - 1 && Distinct(b) && b[i] in used
    ensures FreeBytes(b, used - {b[i]}, h) == FreeBytes(b, used, h) + SizeAt(b, i, h)
  {
    MarkBytes(b, used - {b[i]}, i, h);
    assert used - {b[i]} + {b[i]} == used;
  }

  lemma {:induction false} FreeBytesBound(b: seq<Addr>, used: set<Addr>, i: nat, h: nat)
    requires i < |b| - 1 && b[i] !in used && forall j | 0 <= j < |b| - 1 :: b[j] + h <= b[j + 1]
    ensures SizeAt(b, i, h) <= FreeBytes(b, used, h) && 0 <= FreeBytes(b, used, h)
  {
    assert forall j | 0 <= j < |b[1..]| - 1 :: b[1..][j] == b[j + 1];
    FreeBytesNat(b[1..], used, h);
    if i > 0 {
      FreeBytesBound(b[1..], used, i - 1, h);
    }
  }

  lemma {:induction false} FreeBytesNat(b: seq<Addr>, used: set<Addr>, h: nat)
    requires forall j | 0 <= j < |b| - 1 :: b[j] + h <= b[j + 1]
    ensures FreeBytes(b, used, h) >= 0
  {
    if |b| > 1 {
      assert forall j | 0 <= j < |b[1..]| - 1 :: b[1..][j] == b[j + 1];
      FreeBytesNat(b[1..], used, h);
    }
  }

  lemma {:induction false} FreeBytesMax(b: seq<Addr>, used: set<Addr>, h: nat)
    requires b != [] && forall j | 0 <= j < |b| - 1 :: b[j] + h <= b[j + 1]
    ensures FreeBytes(b, used, h) <= b[|b| - 1] - b[0]
  {
    if |b| > 1 {
      assert forall j | 0 <= j < |b[1..]| - 1 :: b[1..][j] == b[j + 1];
      FreeBytesMax(b[1..], used, h);
    }
  }

  // --- the operations keep the layout in order, and change the free bytes by what they take or give ---

  lemma AllocatedOk(l: Layout, start: Addr, end: Addr, i: nat, size: nat, h: nat)
    requires LayoutOk(l, start, end, h) && i < |l.blocks| - 1 && l.blocks[i] !in l.used
    requires size <= SizeAt(l.blocks, i, h) && size % 4 == 0
    ensures LayoutOk(Allocated(l, i, size, h), start, end, h)
    ensures FreeBytes(Allocated(l, i, size, h).blocks, Allocated(l, i, size, h).used, h) == FreeBytes(l.blocks, l.used, h)
            - (if SizeAt(l.blocks, i, h) >= size + h + MINI then size + h else SizeAt(l.blocks, i, h))
  {
    hide Tiles, Aligned, Merged, FreeBytes, InsertAt, Distinct;
    var a := l.blocks[i];
    TilesDistinct(l.blocks, start, end, h);
    Neighbours(l.blocks, l.used, i);
    MarkBytes(l.blocks, l.used, i, h);
    MarkMerged(l.blocks, l.used, a);
    if SizeAt(l.blocks, i, h) >= size + h + MINI {
      var x := a + h + size;
      InsertTiles(l.blocks, start, end, i, x, h);
      InsertBytes(l.blocks, l.used + {a}, i, x, h);
      InsertMerged(l.blocks, l.used + {a}, i, x);
      InsertAligned(l.blocks, start, i, size, h);
      InsertMembers(l.blocks, i + 1, x);
    }
  }

  lemma InsertMembers(b: seq<Addr>, i: nat, x: Addr)
    requires i <= |b|
    ensures forall a :: a in InsertAt(b, i, x) <==> a == x || a in b
  {
  }

  lemma InsertAligned(b: seq<Addr>, start: Addr, i: nat, size: nat, h: nat)
    requires Aligned(b, start) && i < |b| && size % 4 == 0 && h % 4 == 0
    ensures Aligned(InsertAt(b, i + 1, b[i] + h + size), start)
  {
    assert b[i] in b;
  }

  // The neighbours of a free block are in use.
  lemma Neighbours(b: seq<Addr>, used: set<Addr>, i: nat)
    requires Merged(b, used) && i < |b| - 1 && b[i] !in used
    ensures b[i + 1] in used && (i > 0 ==> b[i - 1] in used)
  {
  }

  lemma MarkMerged(b: seq<Addr>, used: set<Addr>, a: Addr)
    requires Merged(b, used)
    ensures Merged(b, used + {a})
  {
  }

  lemma InsertMerged(b: seq<Addr>, used: set<Addr>, i: nat, x: Addr)
    requires Merged(b, used) && i < |b| - 1 && b[i] in used && b[i + 1] in used
    ensures Merged(InsertAt(b, i + 1, x), used)
  {
  }

  lemma DropMerged(b: seq<Addr>, used: set<Addr>, k: nat)
    requires 0 < k < |b| - 1 && (b[k - 1] in used || b[k + 1] in used)
    requires forall i | 0 <= i < |b| - 1 && i != k && i != k - 1 :: b[i] in used || b[i + 1] in used
    ensures Merged(DropAt(b, k), used)
  {
  }

  ghost predicate Partly(b: seq<Addr>, used: set<Addr>, start: Addr, end: Addr, h: nat) {
    Tiles(b, start, end, h) && Aligned(b, start) && end in used && forall a | a in used :: a in b
  }

  // Two free neighbours become one, and the header of the second becomes free bytes.
  lemma DropFree(b: seq<Addr>, used: set<Addr>, start: Addr, end: Addr, k: nat, h: nat)
    requires Partly(b, used, start, end, h) && 0 < k < |b| && b[k] !in used && b[k - 1] !in used
    ensures k < |b| - 1 && Partly(DropAt(b, k), used, start, end, h)
    ensures FreeBytes(DropAt(b, k), used, h) == FreeBytes(b, used, h) + h
  {
    hide FreeBytes, Aligned;
    assert k < |b| - 1;
    DropTiles(b, start, end, k, h);
    DropBytes(b, used, k, h);
    DropAligned(b, start, k);
  }

  lemma FreedRight(b: seq<Addr>, used: set<Addr>, i: nat)
    requires Merged(b, used) && i < |b| - 1 && Distinct(b) && b[|b| - 1] in used
    ensures var used' := used - {b[i]};
      var r := if b[i + 1] !in used' then DropAt(b, i + 1) else b;
      && i < |r| - 1 && r[i + 1] in used' && r[i] == b[i] && (i > 0 ==> r[i - 1] == b[i - 1])
      && forall j | 0 <= j < |r| - 1 && j != i && j != i - 1 :: r[j] in used' || r[j + 1] in used'
  {
    var used' := used - {b[i]};
    assert forall j | 0 <= j < |b| && j != i :: b[j] in used' <==> b[j] in used;
    hide Distinct;
    if b[i + 1] !in used' {
      var r := DropAt(b, i + 1);
      assert i + 2 < |b| && b[i + 2] in used;
      forall j | 0 <= j < |r| - 1 && j != i && j != i - 1
        ensures r[j] in used' || r[j + 1] in used'
      {
        var j' := if j < i then j else j + 1;
        assert r[j] == b[j'] && r[j + 1] == b[j' + 1];
      }
    }
  }

  lemma FreedMerged(b: seq<Addr>, used: set<Addr>, i: nat)
    requires Merged(b, used) && i < |b| - 1 && b[i] in used && Distinct(b) && b[|b| - 1] in used
    ensures var l := Freed(Layout(b, used), i); Merged(l.blocks, l.used)
  {
    hide Distinct;
    FreedRight(b, used, i);
    var used' := used - {b[i]};
    var r := if b[i + 1] !in used' then DropAt(b, i + 1) else b;
    if i > 0 && b[i - 1] !in used' {
      DropMerged(r, used', i);
    } else if i > 0 {
      assert r[i - 1] in used';
    }
  }

  lemma FreedOk(l: Layout, start: Addr, end: Addr, i: nat, h: nat)
    requires LayoutOk(l, start, end, h) && i < |l.blocks| - 1 && l.blocks[i] in l.used
    ensures LayoutOk(Freed(l, i), start, end, h)
    ensures FreeBytes(Freed(l, i).blocks, Freed(l, i).used, h) == FreeBytes(l.blocks, l.used, h) + SizeAt(l.blocks, i, h)
            + (if l.blocks[i + 1] !in l.used then h else 0) + (if i > 0 && l.blocks[i - 1] !in l.used then h else 0)
  {
    hide Tiles, Aligned, FreeBytes, Merged, Distinct;
    var b, used := l.blocks, l.used - {l.blocks[i]};
    TilesDistinct(b, start, end, h);
    assert b[|b| - 1] in l.used by { LastIsEnd(b, start, end, h); }
    FreedMerged(b, l.used, i);
    UnmarkBytes(b, l.used, i, h);
    Unmarked(l, start, end, i, h);
    var r := b;
    if b[i + 1] !in used {
      DropFree(b, used, start, end, i + 1, h);
      r := DropAt(b, i + 1);
      assert r[i] == b[i] && (i > 0 ==> r[i - 1] == b[i - 1]);
    }
    if i > 0 && b[i - 1] !in used {
      DropFree(r, used, start, end, i, h);
    }
  }

  lemma Unmarked(l: Layout, start: Addr, end: Addr, i: nat, h: nat)
    requires LayoutOk(l, start, end, h) && i < |l.blocks| - 1 && l.blocks[i] in l.used
    ensures Partly(l.blocks, l.used - {l.blocks[i]}, start, end, h)
    ensures l.blocks[i + 1] != l.blocks[i] && (i > 0 ==> l.blocks[i - 1] != l.blocks[i])
  {
    TilesDistinct(l.blocks, start, end, h);
    LastDiffers(l.blocks, start, end, i, h);
  }

  lemma LastIsEnd(b: seq<Addr>, start: Addr, end: Addr, h: nat)
    requires Tiles(b, start, end, h)
    ensures b[|b| - 1] == end
  {
  }

  lemma LastDiffers(b: seq<Addr>, start: Addr, end: Addr, i: nat, h: nat)
    requires Tiles(b, start, end, h) && i < |b| - 1
    ensures b[i] != end && b[i] != b[i + 1]
  {
    TilesAscend(b, start, end, i, |b| - 1, h);
  }

  lemma DropAligned(b: seq<Addr>, start: Addr, k: nat)
    requires Aligned(b, start) && k < |b|
    ensures Aligned(DropAt(b, k), start)
  {
    assert forall a | a in DropAt(b, k) :: a in b;
  }

  // The header of a free block moves: forwards when the block before it grows, backwards when it is cut.
  lemma MovedOk(l: Layout, start: Addr, end: Addr, i: nat, size: nat, h: nat)
    requires LayoutOk(l, start, end, h) && i < |l.blocks| - 1 && l.blocks[i] in l.used && l.blocks[i + 1] !in l.used
    requires i + 2 < |l.blocks| ==> l.blocks[i] + h + size + h <= l.blocks[i + 2]
    requires size % 4 == 0
    ensures var x := l.blocks[i] + h + size; var m := Moved(l, i, x);
            && LayoutOk(m, start, end, h) && i + 2 < |l.blocks|
            && FreeBytes(m.blocks, m.used, h) == FreeBytes(l.blocks, l.used, h) + SizeAt(l.blocks, i, h) - size
  {
    hide Aligned, FreeBytes, Merged;
    var b, x := l.blocks, l.blocks[i] + h + size;
    assert i + 1 < |b| - 1;
    Neighbours(b, l.used, i + 1);
    var r := DropAt(b, i + 1);
    TilesAscend(b, start, end, i, i + 2, h);
    DropTiles(b, start, end, i + 1, h);
    DropBytes(b, l.used, i + 1, h);
    DropAligned(b, start, i + 1);
    assert r[i] == b[i] && r[i + 1] == b[i + 2];
    MoveTail(l, start, end, i, size, r, h);
  }

  lemma MoveTail(l: Layout, start: Addr, end: Addr, i: nat, size: nat, r: seq<Addr>, h: nat)
    requires LayoutOk(l, start, end, h) && i + 2 < |l.blocks| && l.blocks[i] in l.used && l.blocks[i + 1] !in l.used
    requires r == DropAt(l.blocks, i + 1) && Tiles(r, start, end, h) && Aligned(r, start) && size % 4 == 0
    requires l.blocks[i] + h + size + h <= l.blocks[i + 2] && l.blocks[i + 2] in l.used
    requires FreeBytes(r, l.used, h) == FreeBytes(l.blocks, l.used, h) - (l.blocks[i + 2] - l.blocks[i + 1] - h)
    ensures var x := l.blocks[i] + h + size; var m := Moved(l, i, x);
            && LayoutOk(m, start, end, h)
            && FreeBytes(m.blocks, m.used, h) == FreeBytes(l.blocks, l.used, h) + SizeAt(l.blocks, i, h) - size
  {
    hide Aligned, FreeBytes, Tiles, Merged, InsertAt, DropAt;
    var b, x := l.blocks, l.blocks[i] + h + size;
    DropThenInsert(b, i, x);
    InsertTiles(r, start, end, i, x, h);
    NewHeaderFree(l, i, x);
    InsertBytes(r, l.used, i, x, h);
    InsertAligned(r, start, i, size, h);
    MovedMembers(l, i, x);
  }

  lemma NewHeaderFree(l: Layout, i: nat, x: Addr)
    requires i + 1 < |l.blocks| && l.blocks[i + 1] !in l.used && x !in DropAt(l.blocks, i + 1)
    requires forall a | a in l.used :: a in l.blocks
    ensures x !in l.used
  {
    var b, r := l.blocks, DropAt(l.blocks, i + 1);
    assert forall j | 0 <= j < |b| && j != i + 1 :: b[j] == r[if j <= i then j else j - 1];
  }

  lemma DropThenInsert(b: seq<Addr>, i: nat, x: Addr)
    requires i + 2 < |b|
    ensures var r := DropAt(b, i + 1); |r| == |b| - 1 && r[i] == b[i] && r[i + 1] == b[i + 2] && InsertAt(r, i + 1, x) == b[i + 1 := x]
  {
  }

  lemma MovedMembers(l: Layout, i: nat, x: Addr)
    requires i + 2 < |l.blocks| && l.blocks[i] in l.used && l.blocks[i + 1] !in l.used && l.blocks[i + 2] in l.used
    requires Merged(l.blocks, l.used) && x !in DropAt(l.blocks, i + 1) && forall a | a in l.used :: a in l.blocks
    ensures Merged(l.blocks[i + 1 := x], l.used) && forall a | a in l.used :: a in l.blocks[i + 1 := x]
  {
    var b, m := l.blocks, l.blocks[i + 1 := x];
    forall a | a in l.used
      ensures a in m
    {
      var j :| 0 <= j < |b| && b[j] == a;
      assert m[j] == a;
    }
  }

  lemma CutOk(l: Layout, start: Addr, end: Addr, i: nat, size: nat, h: nat)
    requires LayoutOk(l, start, end, h) && i < |l.blocks| - 1 && l.blocks[i] in l.used
    requires size + h <= SizeAt(l.blocks, i, h) && size % 4 == 0
    ensures LayoutOk(Cut(l, i, size, h), start, end, h)
    ensures FreeBytes(Cut(l, i, size, h).blocks, Cut(l, i, size, h).used, h) == FreeBytes(l.blocks, l.used, h) + SizeAt(l.blocks, i, h) - size
            - (if l.blocks[i + 1] in l.used then h else 0)
  {
    hide Tiles, Aligned, FreeBytes, Merged, InsertAt;
    var x := l.blocks[i] + h + size;
    if l.blocks[i + 1] in l.used {
      InsertTiles(l.blocks, start, end, i, x, h);
      InsertBytes(l.blocks, l.used, i, x, h);
      InsertMerged(l.blocks, l.used, i, x);
      InsertAligned(l.blocks, start, i, size, h);
      InsertMembers(l.blocks, i + 1, x);
    } else {
      CutBound(l, start, end, i, h);
      MovedOk(l, start, end, i, size, h);
    }
  }

  lemma CutBound(l: Layout, start: Addr, end: Addr, i: nat, h: nat)
    requires LayoutOk(l, start, end, h) && i + 1 < |l.blocks|
    ensures i + 2 < |l.blocks| ==> l.blocks[i + 1] + h <= l.blocks[i + 2]
  {
  }

  // --- what the operations leave alone ---

  ghost predicate Adjacent(b: seq<Addr>, a: Addr, c: Addr) {
    exists j :: 0 <= j < |b| - 1 && b[j] == a && b[j + 1] == c
  }

  /** Every block in use but one is still there, in use, and as long as before. */
  ghost predicate Keeps(l: Layout, l': Layout, except: Addr) {
    forall j | 0 <= j < |l.blocks| - 1 && l.blocks[j] in l.used && l.blocks[j] != except ::
      l.blocks[j] in l'.used && Adjacent(l'.blocks, l.blocks[j], l.blocks[j + 1])
  }

  lemma AdjacentInsert(b: seq<Addr>, i: nat, x: Addr, j: nat)
    requires i < |b| - 1 && j < |b| - 1 && j != i
    ensures Adjacent(InsertAt(b, i + 1, x), b[j], b[j + 1])
  {
    var r, j' := InsertAt(b, i + 1, x), if j < i then j else j + 1;
    assert r[j'] == b[j] && r[j' + 1] == b[j + 1];
  }

  lemma AdjacentDrop(b: seq<Addr>, k: nat, j: nat)
    requires 0 < k < |b| - 1 && j < |b| - 1 && j != k && j != k - 1
    ensures Adjacent(DropAt(b, k), b[j], b[j + 1])
  {
    var r, j' := DropAt(b, k), if j < k then j else j - 1;
    assert r[j'] == b[j] && r[j' + 1] == b[j + 1];
  }

  lemma SplitKeeps(l: Layout, l': Layout, i: nat, x: Addr)
    requires i < |l.blocks| - 1 && l'.blocks == InsertAt(l.blocks, i + 1, x) && l.used <= l'.used
    ensures Keeps(l, l', l.blocks[i])
  {
    forall j | 0 <= j < |l.blocks| - 1 && l.blocks[j] != l.blocks[i]
      ensures Adjacent(l'.blocks, l.blocks[j], l.blocks[j + 1])
    {
      AdjacentInsert(l.blocks, i, x, j);
    }
  }

  lemma AllocatedKeeps(l: Layout, i: nat, size: nat, h: nat)
    requires i < |l.blocks| - 1
    ensures Keeps(l, Allocated(l, i, size, h), l.blocks[i])
  {
    if SizeAt(l.blocks, i, h) >= size + h + MINI {
      SplitKeeps(l, Allocated(l, i, size, h), i, l.blocks[i] + h + size);
    }
  }

  lemma MovedKeeps(l: Layout, i: nat, x: Addr)
    requires i < |l.blocks| - 1 && l.blocks[i + 1] !in l.used
    ensures Keeps(l, Moved(l, i, x), l.blocks[i])
  {
    var b, r := l.blocks, Moved(l, i, x).blocks;
    forall j | 0 <= j < |b| - 1 && b[j] in l.used && b[j] != b[i]
      ensures Adjacent(r, b[j], b[j + 1])
    {
      assert j != i && j != i + 1;
      assert r[j] == b[j] && r[j + 1] == b[j + 1];
    }
  }

  lemma CutKeeps(l: Layout, i: nat, size: nat, h: nat)
    requires i < |l.blocks| - 1
    ensures Keeps(l, Cut(l, i, size, h), l.blocks[i])
  {
    var x := l.blocks[i] + h + size;
    if l.blocks[i + 1] in l.used {
      SplitKeeps(l, Cut(l, i, size, h), i, x);
    } else {
      MovedKeeps(l, i, x);
    }
  }

  lemma DropKeeps(l: Layout, k: nat, except: Addr)
    requires 0 < k < |l.blocks| - 1 && l.blocks[k] !in l.used && (l.blocks[k - 1] !in l.used || l.blocks[k - 1] == except)
    ensures Keeps(l, l.(blocks := DropAt(l.blocks, k)), except)
  {
    var b := l.blocks;
    forall j | 0 <= j < |b| - 1 && b[j] in l.used && b[j] != except
      ensures Adjacent(DropAt(b, k), b[j], b[j + 1])
    {
      AdjacentDrop(b, k, j);
    }
  }

  lemma KeepsTrans(l: Layout, m: Layout, r: Layout, except: Addr)
    requires Keeps(l, m, except) && Keeps(m, r, except)
    ensures Keeps(l, r, except)
  {
    forall j | 0 <= j < |l.blocks| - 1 && l.blocks[j] in l.used && l.blocks[j] != except
      ensures l.blocks[j] in r.used && Adjacent(r.blocks, l.blocks[j], l.blocks[j + 1])
    {
      assert Adjacent(m.blocks, l.blocks[j], l.blocks[j + 1]);
      var i :| 0 <= i < |m.blocks| - 1 && m.blocks[i] == l.blocks[j] && m.blocks[i + 1] == l.blocks[j + 1];
    }
  }

  lemma FreedKeeps(l: Layout, start: Addr, end: Addr, i: nat, h: nat)
    requires LayoutOk(l, start, end, h) && i < |l.blocks| - 1 && l.blocks[i] in l.used
    ensures Keeps(l, Freed(l, i), l.blocks[i])
  {
    hide Keeps, Tiles, Aligned, Merged;
    var b, a := l.blocks, l.blocks[i];
    Unmarked(l, start, end, i, h);
    UnmarkKeeps(l, i);
    var m := l.(used := l.used - {a});
    if b[i + 1] !in m.used {
      NotLast(b, start, end, end in m.used, i + 1, m.used, h);
      DropKeeps(m, i + 1, a);
      var r := m.(blocks := DropAt(b, i + 1));
      KeepsTrans(l, m, r, a);
      if i > 0 && b[i - 1] !in m.used {
        assert r.blocks[i] == a && r.blocks[i - 1] == b[i - 1];
        DropKeeps(r, i, a);
        KeepsTrans(l, r, Freed(l, i), a);
      }
    } else if i > 0 && b[i - 1] !in m.used {
      DropKeeps(m, i, a);
      KeepsTrans(l, m, Freed(l, i), a);
    }
  }

  lemma NotLast(b: seq<Addr>, start: Addr, end: Addr, known: bool, k: nat, used: set<Addr>, h: nat)
    requires Tiles(b, start, end, h) && known && end in used && k < |b| && b[k] !in used
    ensures k < |b| - 1
  {
  }

  lemma UnmarkKeeps(l: Layout, i: nat)
    requires i < |l.blocks| - 1
    ensures Keeps(l, l.(used := l.used - {l.blocks[i]}), l.blocks[i])
  {
    forall j | 0 <= j < |l.blocks| - 1
      ensures Adjacent(l.blocks, l.blocks[j], l.blocks[j + 1])
    {
    }
  }

  // Different blocks do not overlap.
  lemma Apart(b: seq<Addr>, start: Addr, end: Addr, i: nat, j: nat, h: nat)
    requires Tiles(b, start, end, h) && i < |b| - 1 && j < |b| - 1 && i != j
    ensures b[j + 1] <= b[i] || b[i + 1] <= b[j]
  {
    if j + 1 < i {
      TilesAscend(b, start, end, j + 1, i, h);
    } else if i + 1 < j {
      TilesAscend(b, start, end, i + 1, j, h);
    }
  }

  /** Freeing what was just allocated restores the layout, and so the number of free bytes. */
  lemma AllocateThenFree(l: Layout, start: Addr, end: Addr, i: nat, size: nat, h: nat)
    requires LayoutOk(l, start, end, h) && i < |l.blocks| - 1 && l.blocks[i] !in l.used
    requires size <= SizeAt(l.blocks, i, h) && size % 4 == 0
    ensures Allocated(l, i, size, h).blocks[i] == l.blocks[i] && i < |Allocated(l, i, size, h).blocks| - 1
    ensures Freed(Allocated(l, i, size, h), i) == l
  {
    hide Tiles, Aligned, Merged, Freed, Distinct, InsertAt;
    var b, a := l.blocks, l.blocks[i];
    Neighbours(b, l.used, i);
    TilesDistinct(b, start, end, h);
    NextDiffers(b, i);
    InsertedFirst(b, i, a + h + size);
    if SizeAt(b, i, h) >= size + h + MINI {
      InsertTiles(b, start, end, i, a + h + size, h);
      UndoSplit(b, l.used, i, a + h + size);
    } else {
      UndoMark(b, l.used, i);
    }
  }

  lemma InsertedFirst(b: seq<Addr>, i: nat, x: Addr)
    requires i < |b| - 1
    ensures InsertAt(b, i + 1, x)[i] == b[i]
  {
  }

  lemma NextDiffers(b: seq<Addr>, i: nat)
    requires Distinct(b) && i < |b| - 1
    ensures b[i + 1] != b[i] && (i > 0 ==> b[i - 1] != b[i])
  {
  }

  lemma UndoMark(b: seq<Addr>, used: set<Addr>, i: nat)
    requires i < |b| - 1 && b[i] !in used && b[i + 1] in used && (i > 0 ==> b[i - 1] in used)
    ensures Freed(Layout(b, used + {b[i]}), i) == Layout(b, used)
  {
    assert used + {b[i]} - {b[i]} == used;
  }

  lemma UndoSplit(b: seq<Addr>, used: set<Addr>, i: nat, x: Addr)
    requires i < |b| - 1 && b[i] !in used && (i > 0 ==> b[i - 1] in used) && x !in used && x != b[i]
    ensures Freed(Layout(InsertAt(b, i + 1, x), used + {b[i]}), i) == Layout(b, used)
  {
    var r := InsertAt(b, i + 1, x);
    assert used + {b[i]} - {b[i]} == used;
    assert r[i] == b[i] && (i > 0 ==> r[i - 1] == b[i - 1]);
    assert DropAt(r, i + 1) == b;
  }

  // Merging to the left and then to the right, as rt_memheap_free does, comes to the same.
  lemma FreedFacts(l: Layout, start: Addr, end: Addr, i: nat, h: nat)
    requires LayoutOk(l, start, end, h) && i < |l.blocks| - 1 && l.blocks[i] in l.used
    ensures var b, used := l.blocks, l.used - {l.blocks[i]};
      var left, right := i > 0 && b[i - 1] !in used, b[i + 1] !in used;
      var b' := if left then DropAt(b, i) else b;
      var g := if left then i - 1 else i;
      && (left <==> i > 0 && b[i - 1] !in l.used) && (right <==> b[i + 1] !in l.used)
      && |b'| > g + 1 && b'[g] == (if left then b[i - 1] else b[i]) && b'[g + 1] == b[i + 1] && Distinct(b')
      && b[|b| - 1] in used && (right ==> g + 1 < |b'| - 1)
      && (if right then DropAt(b', g + 1) else b') == Freed(l, i).blocks && Freed(l, i).used == used
  {
    hide Distinct, Aligned, DropAt;
    var b, used := l.blocks, l.used - {l.blocks[i]};
    TilesDistinct(b, start, end, h);
    LastDiffers(b, start, end, i, h);
    NextDiffers(b, i);
    LastIsEnd(b, start, end, h);
    if b[i + 1] !in used {
      NotLast(b, start, end, true, i + 1, l.used, h);
    }
    if i > 0 {
      DropTiles(b, start, end, i, h);
      TilesDistinct(DropAt(b, i), start, end, h);
      AfterDrop(b, i);
    }
  }

  lemma AfterDrop(b: seq<Addr>, i: nat)
    requires 0 < i < |b| - 1
    ensures var r := DropAt(b, i); |r| == |b| - 1 && r[i - 1] == b[i - 1] && r[i] == b[i + 1]
    ensures DropAt(DropAt(b, i), i) == DropAt(DropAt(b, i + 1), i)
  {
  }

  lemma LayoutTiles(l: Layout, start: Addr, end: Addr, h: nat)
    requires LayoutOk(l, start, end, h)
    ensures Tiles(l.blocks, start, end, h)
  {
  }

  lemma LayoutDistinct(l: Layout, start: Addr, end: Addr, h: nat)
    requires LayoutOk(l, start, end, h)
    ensures Distinct(l.blocks)
  {
    TilesDistinct(l.blocks, start, end, h);
  }

  lemma DropIndex(b: seq<Addr>, k: nat, i: nat)
    requires i < k < |b|
    ensures |DropAt(b, k)| == |b| - 1 && DropAt(b, k)[i] == b[i]
  {
  }

  lemma InsertedAfter(b: seq<Addr>, i: nat, x: Addr)
    requires i < |b| - 1
    ensures var r := InsertAt(b, i + 1, x); |r| == |b| + 1 && r[i] == b[i] && r[i + 1] == x && r[i + 2] == b[i + 1]
    ensures DropAt(InsertAt(b, i + 1, x), i + 2) == b[i + 1 := x]
    ensures i + 2 < |b| ==> InsertAt(b, i + 1, x)[i + 3] == b[i + 2]
  {
  }

  lemma MovedIs(l: Layout, i: nat, x: Addr)
    requires i < |l.blocks| - 1
    ensures Moved(l, i, x).blocks == l.blocks[i + 1 := x]
  {
  }

  // Freeing block i, the headers that go are those of the right neighbour if it is free, and its own if the left one is.
  lemma FreedMembers(l: Layout, start: Addr, end: Addr, i: nat, h: nat)
    requires LayoutOk(l, start, end, h) && i < |l.blocks| - 1 && l.blocks[i] in l.used
    ensures Freed(l, i).used == l.used - {l.blocks[i]}
    ensures forall a :: a in Freed(l, i).blocks <==>
              a in l.blocks && !(a == l.blocks[i + 1] && a !in l.used) && !(i > 0 && a == l.blocks[i] && l.blocks[i - 1] !in l.used)
  {
    hide Distinct, Aligned, Tiles, Merged, DropAt;
    var b := l.blocks;
    TilesDistinct(b, start, end, h);
    NextDiffers(b, i);
    if b[i + 1] !in l.used {
      NotLast(b, start, end, true, i + 1, l.used, h);
      DropTiles(b, start, end, i + 1, h);
      TilesDistinct(DropAt(b, i + 1), start, end, h);
      DropIndex(b, i + 1, i);
      DropMembers(DropAt(b, i + 1), i);
    } else {
      DropMembers(b, i);
    }
  }

  lemma FreeNext(l: Layout, start: Addr, end: Addr, i: nat, h: nat)
    requires LayoutOk(l, start, end, h) && i < |l.blocks| - 1 && l.blocks[i + 1] !in l.used
    ensures i + 1 < |l.blocks| - 1
  {
  }

  lemma BlockInPool(b: seq<Addr>, start: Addr, end: Addr, j: nat, h: nat)
    requires Tiles(b, start, end, h) && j < |b| - 1
    ensures start <= b[j] && b[j + 1] <= end
  {
    if j > 0 {
      TilesAscend(b, start, end, 0, j, h);
    }
    if j + 1 < |b| - 1 {
      TilesAscend(b, start, end, j + 1, |b| - 1, h);
    }
  }

  // --- what a caller who asks for `size` bytes gets ---

  // A block of n bytes serves: RT_ALIGN_SIZE is 4.
  ghost predicate Serves(n: nat, size: nat) {
    n % 4 == 0 && size <= n && MINI <= n
  }

  /** n is the shortest block that serves. */
  ghost predicate Rounded(size: nat, n: nat) {
    Serves(n, size) && forall m: nat | Serves(m, size) :: n <= m
  }

  lemma RoundedIs(size: nat, n: nat)
    requires Serves(n, size) && (n == MINI || n < size + 4)
    ensures Rounded(size, n)
  {
  }

  /** It is at most 3 bytes longer than what was asked for, or than the minimum. */
  lemma RoundedBound(size: nat, n: nat, m: nat)
    requires Rounded(size, n) && Rounded(size, m)
    ensures n == m && n <= (if size < MINI then MINI else size) + 3
  {
    var s := if size < MINI then MINI else size;
    assert Serves(s + 3 - (s + 3) % 4, size);
  }

  ghost function BlockSize(l: Layout, a: Addr, h: nat): int {
    if a in l.blocks && IndexOf(l.blocks, a) < |l.blocks| - 1 then SizeAt(l.blocks, IndexOf(l.blocks, a), h) else 0
  }

  /** The block at p is in use, it has room for `size` bytes, within the heap, and no other block in use meets them. */
  ghost predicate GivesRoom(l: Layout, start: Addr, end: Addr, p: Addr, size: nat, h: nat) {
    && p - h in l.used && p - h in l.blocks && BlockSize(l, p - h, h) >= size
    && start + h <= p && p + size <= end
    && forall j | 0 <= j < |l.blocks| - 1 && l.blocks[j] in l.used && l.blocks[j] != p - h ::
         l.blocks[j + 1] <= p - h || p + size <= l.blocks[j]
  }

  lemma BlockSizeAt(l: Layout, start: Addr, end: Addr, i: nat, h: nat)
    requires LayoutOk(l, start, end, h) && i < |l.blocks| - 1
    ensures IndexOf(l.blocks, l.blocks[i]) == i && BlockSize(l, l.blocks[i], h) == SizeAt(l.blocks, i, h)
  {
    hide Aligned, Merged;
    TilesDistinct(l.blocks, start, end, h);
  }

  lemma RoomOf(l: Layout, start: Addr, end: Addr, i: nat, size: nat, h: nat)
    requires LayoutOk(l, start, end, h) && i < |l.blocks| - 1 && l.blocks[i] in l.used
    ensures GivesRoom(l, start, end, l.blocks[i] + h, size, h) <==> size <= SizeAt(l.blocks, i, h)
    ensures SizeAt(l.blocks, i, h) + h <= end - start
  {
    hide Aligned, Merged, Tiles;
    BlockSizeAt(l, start, end, i, h);
    BlockInPool(l.blocks, start, end, i, h);
    forall j | 0 <= j < |l.blocks| - 1 && l.blocks[j] != l.blocks[i]
      ensures l.blocks[j + 1] <= l.blocks[i] || l.blocks[i + 1] <= l.blocks[j]
    {
      Apart(l.blocks, start, end, i, j, h);
    }
  }

  lemma RoomLess(l: Layout, start: Addr, end: Addr, p: Addr, n: nat, size: nat, h: nat)
    requires GivesRoom(l, start, end, p, n, h) && size <= n
    ensures GivesRoom(l, start, end, p, size, h)
  {
  }

  // The same, by the header after it.
  lemma RoomBetween(l: Layout, start: Addr, end: Addr, a: Addr, c: Addr, size: nat, h: nat)
    requires LayoutOk(l, start, end, h) && a in l.used && Adjacent(l.blocks, a, c)
    ensures GivesRoom(l, start, end, a + h, size, h) <==> size <= c - a - h
    ensures c - a <= end - start
  {
    hide LayoutOk, GivesRoom;
    var i :| 0 <= i < |l.blocks| - 1 && l.blocks[i] == a && l.blocks[i + 1] == c;
    RoomOf(l, start, end, i, size, h);
  }

  // A block taken for n bytes is that long, or has been left whole because the rest is not worth a block.
  ghost predicate Snug(l: Layout, l': Layout, a: Addr, n: nat, h: nat) {
    BlockSize(l', a, h) == n || BlockSize(l', a, h) == BlockSize(l, a, h) < n + h + MINI
  }

  lemma AllocatedRoom(l: Layout, start: Addr, end: Addr, i: nat, n: nat, size: nat, h: nat)
    requires i < |l.blocks| - 1 && n <= SizeAt(l.blocks, i, h)
    requires LayoutOk(l, start, end, h) && LayoutOk(Allocated(l, i, n, h), start, end, h)
    ensures var m, a := Allocated(l, i, n, h), l.blocks[i];
      && a in m.used && BlockSize(m, a, h) >= n && Snug(l, m, a, n, h)
      && BlockSize(m, a, h) + h <= end - start
      && (GivesRoom(m, start, end, a + h, size, h) <==> size <= BlockSize(m, a, h))
  {
    hide LayoutOk, GivesRoom;
    var m := Allocated(l, i, n, h);
    assert i < |m.blocks| - 1 && m.blocks[i] == l.blocks[i];
    BlockSizeAt(l, start, end, i, h);
    BlockSizeAt(m, start, end, i, h);
    RoomOf(m, start, end, i, size, h);
  }
}
