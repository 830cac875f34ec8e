/** The memory heap: headers linked through all blocks and through the free ones, rewritten in place. */
module MemHeaps {
  import opened Kernels
  import opened Lists
  import opened RingPositions
  import opened Rings
  import opened Words
  import opened HeapLayout

  type Byte = b: nat | b < 256

  const SIZE: nat := 24                  // RT_MEMHEAP_SIZE

  const HEADER: Addr := -1               // &heap->free_header, outside the pool
  const NULL: Addr := -2

  // RT_ALIGN(size, RT_ALIGN_SIZE), and at least RT_MEMHEAP_MINIALLOC; the addition wraps at 32 bits
  function Request(size: nat): (r: nat)
    ensures r >= MINI && r % 4 == 0 && r < W32
  {
    var aligned := U32(size + 3) / 4 * 4;
    if aligned < MINI then MINI else aligned
  }

  /** It is the shortest block that serves, unless the addition wraps; then it is the minimum. */
  lemma RequestIs(size: nat)
    requires size < W32
    ensures if size + 3 < W32 then Rounded(size, Request(size)) else Request(size) == MINI
  {
    if size + 3 < W32 {
      RoundedIs(size, Request(size));
    }
  }

  // Every number that is the shortest to serve is that one.
  lemma RequestOnly(size: nat)
    requires size + 3 < W32
    ensures forall n | Rounded(size, n) :: n == Request(size)
  {
    RequestIs(size);
    forall n | Rounded(size, n)
      ensures n == Request(size)
    {
      RoundedBound(size, n, Request(size));
    }
  }

  /** The test by which rt_memheap_realloc decides to grow a block in place tells whether there is room, unless the sum on its
      right wraps around at 32 bits: then it holds whenever the two blocks have more bytes than what is left of the sum. */
  lemma GrowTest(room: nat, n: nat)
    requires room < W32 && n < W32
    ensures (U32(room) > U32(n + MINI) <==> room > n + MINI) <==> n + MINI < W32 || room <= n + MINI - W32
  {
  }

  /** The test for growing block i to n bytes, if rt_memheap_realloc comes to it, is the true one. */
  ghost predicate TestIsTrue(l: Layout, i: nat, n: nat) {
    i + 2 < |l.blocks| && l.blocks[i + 1] !in l.used && n > SizeAt(l.blocks, i, SIZE) ==>
      n + MINI < W32 || SizeAt(l.blocks, i, SIZE) + SizeAt(l.blocks, i + 1, SIZE) <= n + MINI - W32
  }

  // A request of nearly 4 GB passes for one that fits into 100 bytes.
  lemma GrowTestFails()
    ensures Request(0xFFFF_FFF2) == 0xFFFF_FFF4 && U32(100) > U32(0xFFFF_FFF4 + MINI)
  {
  }

  // The blocks and the free list are as the links say.
  ghost predicate BlocksOk(l: Layout, next: map<Addr, Addr>, prev: map<Addr, Addr>, magic: map<Addr, bool>) {
    |l.blocks| >= 2 && Ring(l.blocks[0], l.blocks[1..], next, prev) && MagicOk(l, magic)
  }

  ghost predicate MagicOk(l: Layout, magic: map<Addr, bool>) {
    forall a | a in l.blocks :: a in magic && (magic[a] <==> a in l.used)
  }

  ghost predicate FreeOk(l: Layout, free: seq<Addr>) {
    forall a :: a in free <==> a in l.blocks && a !in l.used
  }

  // The contents of the blocks in use, except for one, are the same.
  ghost predicate BytesKept(l: Layout, bytes: map<Addr, Byte>, bytes': map<Addr, Byte>, except: Addr) {
    forall j, x | 0 <= j < |l.blocks| - 1 && l.blocks[j] in l.used && l.blocks[j] != except
                  && l.blocks[j] + SIZE <= x < l.blocks[j + 1] ::
      x in bytes && x in bytes' && bytes'[x] == bytes[x]
  }

  // Writing a header at x destroys what was there; what its bytes become does not matter.
  function Overwritten(bytes: map<Addr, Byte>, x: Addr): (r: map<Addr, Byte>)
    ensures r.Keys == bytes.Keys
  {
    map y | y in bytes :: if x <= y < x + SIZE then 0 else bytes[y]
  }

  ghost predicate PoolBytes(bytes: map<Addr, Byte>, start: Addr, size: nat) {
    forall x | start <= x < start + size :: x in bytes
  }

  // --- from positions in the layout to positions in the rings ---

  lemma BlockLinks(l: Layout, next: map<Addr, Addr>, prev: map<Addr, Addr>, i: nat)
    requires |l.blocks| >= 2 && Ring(l.blocks[0], l.blocks[1..], next, prev) && i < |l.blocks| - 1
    ensures l.blocks[i] in next && next[l.blocks[i]] == l.blocks[i + 1]
    ensures l.blocks[i + 1] in prev && prev[l.blocks[i + 1]] == l.blocks[i]
    ensures l.blocks[0] in prev && prev[l.blocks[0]] == l.blocks[|l.blocks| - 1]
  {
    RingLinks(l.blocks[0], l.blocks[1..], next, prev, i);
    RingLinks(l.blocks[0], l.blocks[1..], next, prev, |l.blocks| - 1);
  }

  lemma RingSplit(b: seq<Addr>, next: map<Addr, Addr>, prev: map<Addr, Addr>, i: nat, x: Addr)
    requires |b| >= 2 && Ring(b[0], b[1..], next, prev) && i < |b| - 1 && x !in b
    ensures var r := InsertAt(b, i + 1, x); var n := b[i + 1];
            r[0] == b[0] && Ring(r[0], r[1..], next[x := n][b[i] := x], prev[x := b[i]][n := x])
  {
    var r := InsertAt(b, i + 1, x);
    assert r[1..] == InsertAt(b[1..], i, x);
    RingInsert(b[0], b[1..], next, prev, i, x);
    assert At(b[0], b[1..], i) == b[i] && At(b[0], b[1..], i + 1) == b[i + 1];
  }

  lemma RingDrop(b: seq<Addr>, next: map<Addr, Addr>, prev: map<Addr, Addr>, k: nat)
    requires |b| >= 3 && Ring(b[0], b[1..], next, prev) && 0 < k < |b| - 1
    ensures var r := DropAt(b, k);
            r[0] == b[0] && |r| >= 2 && Ring(r[0], r[1..], next[b[k - 1] := b[k + 1]], prev[b[k + 1] := b[k - 1]])
  {
    var r := DropAt(b, k);
    assert r[1..] == DropAt(b[1..], k - 1);
    RingRemove(b[0], b[1..], next, prev, k - 1);
    assert At(b[0], b[1..], k - 1) == b[k - 1] && At(b[0], b[1..], k + 1) == b[k + 1];
  }

  class MemHeap {
    const start: nat                     // start_addr
    const poolSize: nat                  // pool_size
    var available: int                   // available_size
    var maxUsed: int                     // max_used_size
    var next: map<Addr, Addr>            // the fields of struct rt_memheap_item, by address of the item
    var prev: map<Addr, Addr>
    var magic: map<Addr, bool>           // the RT_MEMHEAP_USED bit
    var nextFree: map<Addr, Addr>
    var prevFree: map<Addr, Addr>
    var bytes: map<Addr, Byte>           // the bytes of the pool
    ghost var l: Layout
    ghost var free: seq<Addr>            // the free list, from its header on

    ghost function End(): Addr {
      start + poolSize - SIZE
    }

    ghost predicate Valid()
      reads this
    {
      && LayoutOk(l, start, End(), SIZE) && BlocksOk(l, next, prev, magic)
      && FreeOk(l, free) && Ring(HEADER, free, nextFree, prevFree)
      && available == FreeBytes(l.blocks, l.used, SIZE) && available <= poolSize && poolSize - available <= maxUsed <= poolSize
      && PoolBytes(bytes, start, poolSize) && poolSize < W32
    }

    // rt_memheap_init
    constructor (start: nat, size: nat, bytes: map<Addr, Byte>)
      requires 2 * SIZE <= size < W32 && PoolBytes(bytes, start, size)
      ensures Valid() && this.start == start && poolSize == size / 4 * 4
      ensures l == Layout([start, End()], {End()}) && available == poolSize - 2 * SIZE && maxUsed == 2 * SIZE
    {
      var pool := size / 4 * 4;
      var tail := start + pool - SIZE;
      this.start, poolSize, available, maxUsed := start, pool, pool - 2 * SIZE, 2 * SIZE;
      next := map[start := tail, tail := start];
      prev := map[start := tail, tail := start];
      magic := map[start := false, tail := true];
      nextFree := map[HEADER := start, start := HEADER];
      prevFree := map[HEADER := start, start := HEADER];
      this.bytes := Overwritten(Overwritten(bytes, start), tail);
      l, free := Layout([start, tail], {tail}), [start];
      new;
      InitialRings(start, tail);
    }

    // new_ptr->prev = header_ptr and so on: a new header behind block i
    method LinkBlock(h: Addr, x: Addr, ghost i: nat)
      requires |l.blocks| >= 2 && Ring(l.blocks[0], l.blocks[1..], next, prev)
      requires i < |l.blocks| - 1 && l.blocks[i] == h && x !in l.blocks
      modifies this`next, this`prev
      ensures var r := InsertAt(l.blocks, i + 1, x); Ring(r[0], r[1..], next, prev)
    {
      BlockLinks(l, next, prev, i);
      RingSplit(l.blocks, next, prev, i, x);
      prev := prev[x := h];
      next := next[x := next[h]];
      prev := prev[next[h] := x];
      next := next[h := x];
    }

    // block k leaves the list of all blocks
    method UnlinkBlock(x: Addr, ghost k: nat)
      requires |l.blocks| >= 3 && Ring(l.blocks[0], l.blocks[1..], next, prev) && 0 < k < |l.blocks| - 1 && l.blocks[k] == x
      modifies this`next, this`prev
      ensures var r := DropAt(l.blocks, k); |r| >= 2 && Ring(r[0], r[1..], next, prev)
    {
      BlockLinks(l, next, prev, k);
      BlockLinks(l, next, prev, k - 1);
      RingDrop(l.blocks, next, prev, k);
      var n, p := next[x], prev[x];
      prev := prev[n := p];
      next := next[p := n];
    }

    // a block leaves the free list
    method UnlinkFree(x: Addr, ghost k: nat)
      requires Ring(HEADER, free, nextFree, prevFree) && k < |free| && free[k] == x
      modifies this`nextFree, this`prevFree, this`free
      ensures free == DropAt(old(free), k) && Ring(HEADER, free, nextFree, prevFree)
    {
      RingRemove(HEADER, free, nextFree, prevFree, k);
      var n, p := nextFree[x], prevFree[x];
      prevFree := prevFree[n := p];
      nextFree := nextFree[p := n];
      free := DropAt(free, k);
    }

    // a block goes to the front of the free list
    method LinkFree(x: Addr)
      requires Ring(HEADER, free, nextFree, prevFree) && x !in free && x != HEADER
      modifies this`nextFree, this`prevFree, this`free
      ensures free == [x] + old(free) && Ring(HEADER, free, nextFree, prevFree)
    {
      RingLinks(HEADER, free, nextFree, prevFree, 0);
      RingInsert(HEADER, free, nextFree, prevFree, 0, x);
      assert InsertAt(free, 0, x) == [x] + free;
      nextFree := nextFree[x := nextFree[HEADER]];
      prevFree := prevFree[x := HEADER];
      prevFree := prevFree[nextFree[HEADER] := x];
      nextFree := nextFree[HEADER := x];
      free := [x] + free;
    }

    // A free block is a block before the tail, and its links say how long it is.
    lemma FreeBlock(a: Addr)
      requires Valid() && a in free
      ensures a in l.blocks && a !in l.used && IndexOf(l.blocks, a) < |l.blocks| - 1
      ensures a in next && next[a] == l.blocks[IndexOf(l.blocks, a) + 1] && next[a] - a - SIZE >= 0
    {
      hide Ring, FreeBytes, Aligned, Merged;
      BlockLinks(l, next, prev, IndexOf(l.blocks, a));
    }

    // the search of rt_memheap_alloc: the first block of the free list that is long enough
    method FirstFit(size: nat) returns (h: Addr, freeSize: int, ghost k: nat)
      requires Valid() && size > 0
      ensures k <= |free| && h == At(HEADER, free, k + 1) && freeSize >= 0
      ensures forall j | 0 <= j < k :: free[j] in next && next[free[j]] - free[j] - SIZE < size
      ensures k < |free| ==> h == free[k] && h in next && freeSize == next[h] - h - SIZE >= size
      ensures k == |free| ==> freeSize < size
    {
      hide Valid, Ring;
      freeSize, k := 0, 0;
      FreeRing();
      RingLinks(HEADER, free, nextFree, prevFree, 0);
      h := nextFree[HEADER];
      while h != HEADER && freeSize < size
        invariant k <= |free| && h == At(HEADER, free, k + 1) && freeSize >= 0 && HEADER !in free
        invariant forall j | 0 <= j < k :: free[j] in next && next[free[j]] - free[j] - SIZE < size
        invariant freeSize >= size ==> k < |free| && h in next && freeSize == next[h] - h - SIZE
        decreases |free| - k, if freeSize < size then 1 else 0
      {
        assert h == free[k];
        FreeBlock(h);
        freeSize := next[h] - h - SIZE;
        if freeSize < size {
          RingLinks(HEADER, free, nextFree, prevFree, k + 1);
          h := nextFree[h];
          k := k + 1;
        }
      }
      assert k < |free| ==> free[k] in free;
    }

    lemma FreeRing()
      requires Valid()
      ensures Ring(HEADER, free, nextFree, prevFree) && HEADER !in free && Distinct(free) && forall a | a in free :: a >= 0
    {
      hide FreeBytes, Aligned, Merged;
      forall a | a in free
        ensures a >= 0
      {
        var i :| 0 <= i < |l.blocks| && l.blocks[i] == a;
        if i > 0 {
          TilesAscend(l.blocks, start, End(), 0, i, SIZE);
        }
      }
    }

    // The k-th block of the free list, block i of the layout, becomes a block in use of `size` bytes.
    method Take(h: Addr, size: nat, freeSize: int, ghost i: nat, ghost k: nat)
      requires Valid() && k < |free| && free[k] == h && i < |l.blocks| - 1 && l.blocks[i] == h && h !in l.used
      requires freeSize == SizeAt(l.blocks, i, SIZE) >= size > 0 && size % 4 == 0
      modifies this
      ensures Valid() && Taken(old(l), old(free), i, k, size, l, free)
      ensures BytesKept(old(l), old(bytes), bytes, h) && Keeps(old(l), l, h)
      ensures maxUsed == if poolSize - available > old(maxUsed) then poolSize - available else old(maxUsed)
    {
      hide Ring, LayoutOk, FreeOk, MagicOk, FreeBytes, PoolBytes, BytesKept, Keeps, Overwritten, InsertAt, DropAt, Distinct;
      FreeRing();
      AllocatedOk(l, start, End(), i, size, SIZE);
      AllocatedKeeps(l, i, size, SIZE);
      TakenFree(l, free, i, k, size, start, End());
      SplitPoint(l, free, start, End(), i, size);
      TakenMagic(l, magic, i, size);
      FreeInRange(Allocated(l, i, size, SIZE), start, End(), poolSize);
      BytesSame(l, bytes, start, End(), poolSize, h);
      if freeSize >= size + SIZE + MINI {
        var x := h + SIZE + size;
        LayoutTiles(l, start, End(), SIZE);
        OverwrittenKept(l, bytes, start, End(), poolSize, i, x);
        magic := magic[x := false];
        bytes := Overwritten(bytes, x);
        LinkBlock(h, x, i);
        Detach(h, k);
        LinkFree(x);
        available := available - size - SIZE;
      } else {
        available := available - freeSize;
        Detach(h, k);
      }
      if poolSize - available > maxUsed {
        maxUsed := poolSize - available;
      }
      magic := magic[h := true];
      l := Allocated(l, i, size, SIZE);
    }

    // a block leaves the free list, and its free links are reset
    method Detach(x: Addr, ghost k: nat)
      requires Ring(HEADER, free, nextFree, prevFree) && k < |free| && free[k] == x
      modifies this`nextFree, this`prevFree, this`free
      ensures free == DropAt(old(free), k) && Ring(HEADER, free, nextFree, prevFree)
      ensures forall a | a in free :: a in old(free)
    {
      hide Ring;
      RingDistinct(HEADER, free, nextFree, prevFree);
      DropMembers(free, k);
      UnlinkFree(x, k);
      RingFrame(HEADER, free, nextFree, prevFree, x, NULL, NULL);
      nextFree := nextFree[x := NULL];
      prevFree := prevFree[x := NULL];
    }

    // rt_memheap_alloc
    method Alloc(size: nat) returns (p: Option<Addr>)
      requires Valid() && size < W32
      modifies this
      ensures Valid()
      ensures p == None <==> (Request(size) >= old(available) || NoFit(old(free), old(next), Request(size)))
      ensures p == None ==> l == old(l) && free == old(free) && bytes == old(bytes) && maxUsed == old(maxUsed)
      ensures p.Some? ==> FirstTaken(old(l), old(free), old(next), p.value - SIZE, Request(size), l, free)
      ensures p.Some? ==> BytesKept(old(l), old(bytes), bytes, p.value - SIZE) && Keeps(old(l), l, p.value - SIZE)
      ensures p.Some? ==> maxUsed == if poolSize - available > old(maxUsed) then poolSize - available else old(maxUsed)
      // in terms of the bytes asked for: the addition that rounds them wraps for the last three numbers
      ensures size + 3 < W32 ==>
        forall n: nat | Rounded(size, n) :: p == None <==> n >= old(available) || NoFit(old(free), old(next), n)
      ensures p.Some? ==> (GivesRoom(l, start, End(), p.value, size, SIZE) <==> size + 3 < W32)
      ensures p.Some? && size + 3 < W32 ==> forall n: nat | Rounded(size, n) :: Snug(old(l), l, p.value - SIZE, n, SIZE)
    {
      hide Valid, FirstTaken, BytesKept, Keeps, Rounded, GivesRoom, Snug, Request, NoFit;
      ghost var l0, free0, next0 := l, free, next;
      LayoutKnown();
      RequestIs(size);
      if size + 3 < W32 {
        RequestOnly(size);
      }
      p := AllocAligned(Request(size));
      if p.Some? {
        LayoutKnown();
        TakenRoom(l0, free0, next0, l, free, p.value - SIZE, Request(size), size);
      }
    }

    // rt_memheap_alloc, once the size is aligned
    method AllocAligned(n: nat) returns (p: Option<Addr>)
      requires Valid() && MINI <= n < W32 && n % 4 == 0
      modifies this
      ensures Valid()
      ensures p == None <==> (n >= old(available) || NoFit(old(free), old(next), n))
      ensures p == None ==> l == old(l) && free == old(free) && bytes == old(bytes) && maxUsed == old(maxUsed)
      ensures p.Some? ==> FirstTaken(old(l), old(free), old(next), p.value - SIZE, n, l, free)
      ensures p.Some? ==> BytesKept(old(l), old(bytes), bytes, p.value - SIZE) && Keeps(old(l), l, p.value - SIZE)
      ensures p.Some? ==> maxUsed == if poolSize - available > old(maxUsed) then poolSize - available else old(maxUsed)
    {
      hide Valid, Ring, BytesKept, Taken, Keeps;
      p := None;
      if n < available {
        var h, freeSize;
        ghost var k;
        h, freeSize, k := FirstFit(n);
        if freeSize >= n {
          FreeRing();
          assert h in free;
          FreeBlock(h);
          FreePlace(free, k);
          Take(h, n, freeSize, IndexOf(l.blocks, h), k);
          p := Some(h + SIZE);
        } else {
          NoneFits(n);
        }
      }
    }

    lemma LayoutKnown()
      requires Valid()
      ensures LayoutOk(l, start, End(), SIZE) && End() - start < W32 - SIZE
    {
    }

    // What the block just taken gives.
    lemma TakenRoom(l0: Layout, free0: seq<Addr>, next0: map<Addr, Addr>, l1: Layout, free1: seq<Addr>, h: Addr, n: nat, size: nat)
      requires LayoutOk(l0, start, End(), SIZE) && LayoutOk(l1, start, End(), SIZE) && End() - start < W32 - SIZE
      requires FirstTaken(l0, free0, next0, h, n, l1, free1)
      requires size < W32 && (if size + 3 < W32 then Rounded(size, n) else n == MINI)
      ensures Snug(l0, l1, h, n, SIZE) && (GivesRoom(l1, start, End(), h + SIZE, size, SIZE) <==> size + 3 < W32)
    {
      hide LayoutOk, GivesRoom, Snug, Allocated;
      AllocatedRoom(l0, start, End(), IndexOf(l0.blocks, h), n, size, SIZE);
    }

    lemma NoneFits(n: nat)
      requires forall j | 0 <= j < |free| :: free[j] in next && next[free[j]] - free[j] - SIZE < n
      ensures NoFit(free, next, n)
    {
    }

    lemma FreePlace(list: seq<Addr>, k: nat)
      requires k < |list| && Distinct(list)
      ensures IndexOf(list, list[k]) == k
    {
    }

    // --- rt_memheap_free ---

    // A block just marked free is joined to a free block on its left; g heads the result.
    method MergeLeft(h: Addr, ghost i: nat) returns (g: Addr, inserting: bool)
      requires BlocksOk(l, next, prev, magic) && i < |l.blocks| - 1 && l.blocks[i] == h && l.blocks[|l.blocks| - 1] in l.used
      requires Distinct(l.blocks)
      modifies this`next, this`prev, this`l, this`available
      ensures BlocksOk(l, next, prev, magic)
      ensures var left := i > 0 && old(l).blocks[i - 1] !in old(l).used;
        && l == (if left then old(l).(blocks := DropAt(old(l).blocks, i)) else old(l))
        && g == (if left then old(l).blocks[i - 1] else h) && inserting == !left
        && available == old(available) + if left then SIZE else 0
    {
      hide Ring, Distinct;
      BlockLinks(l, next, prev, i);
      if i > 0 {
        BlockLinks(l, next, prev, i - 1);
      }
      assert prev[h] == if i > 0 then l.blocks[i - 1] else l.blocks[|l.blocks| - 1];
      assert prev[h] in l.blocks;
      g, inserting := h, true;
      if !magic[prev[h]] {
        available := available + SIZE;
        g := prev[h];
        UnlinkBlock(h, i);
        DropMembers(l.blocks, i);
        l := l.(blocks := DropAt(l.blocks, i));
        inserting := false;
      }
    }

    // A free block is joined to a free block on its right, which leaves the free list.
    method MergeRight(g: Addr, ghost i: nat)
      requires BlocksOk(l, next, prev, magic) && Ring(HEADER, free, nextFree, prevFree)
      requires i < |l.blocks| - 1 && l.blocks[i] == g && Distinct(l.blocks)
      requires l.blocks[i + 1] !in l.used ==> i + 1 < |l.blocks| - 1 && l.blocks[i + 1] in free
      modifies this`next, this`prev, this`l, this`available, this`nextFree, this`prevFree, this`free
      ensures BlocksOk(l, next, prev, magic) && Ring(HEADER, free, nextFree, prevFree)
      ensures var right := old(l).blocks[i + 1] !in old(l).used;
        && l == (if right then old(l).(blocks := DropAt(old(l).blocks, i + 1)) else old(l))
        && free == (if right then DropAt(old(free), IndexOf(old(free), old(l).blocks[i + 1])) else old(free))
        && available == old(available) + if right then SIZE else 0
    {
      hide Ring, Distinct;
      BlockLinks(l, next, prev, i);
      assert l.blocks[i + 1] in l.blocks;
      if !magic[next[g]] {
        available := available + SIZE;
        var x := next[g];
        UnlinkBlock(x, i + 1);
        UnlinkFree(x, IndexOf(free, x));
        DropMembers(l.blocks, i + 1);
        l := l.(blocks := DropAt(l.blocks, i + 1));
      }
    }

    // The critical section of rt_memheap_free.
    method Release(h: Addr, ghost i: nat)
      requires LayoutOk(l, start, End(), SIZE) && BlocksOk(l, next, prev, magic) && Ring(HEADER, free, nextFree, prevFree)
      requires i < |l.blocks| - 1 && l.blocks[i] == h && h in l.used && h >= 0 && h !in WithoutRight(l, free, i)
      requires l.blocks[i + 1] !in l.used ==> l.blocks[i + 1] in free
      modifies this`next, this`prev, this`magic, this`nextFree, this`prevFree, this`free, this`l, this`available
      ensures BlocksOk(l, next, prev, magic) && Ring(HEADER, free, nextFree, prevFree)
      ensures l == Freed(old(l), i) && free == FreedList(old(l), old(free), i)
      ensures available == old(available) + SizeAt(old(l).blocks, i, SIZE)
        + (if old(l).blocks[i + 1] !in old(l).used then SIZE else 0) + (if i > 0 && old(l).blocks[i - 1] !in old(l).used then SIZE else 0)
    {
      hide Ring, LayoutOk, MagicOk, InsertAt, DropAt, Distinct, Freed, IndexOf;
      FreedFacts(l, start, End(), i, SIZE);
      LayoutDistinct(l, start, End(), SIZE);
      BlockLinks(l, next, prev, i);
      UnmarkMagic(l, magic, h);
      magic := magic[h := false];
      available := available + (next[h] - h - SIZE);
      l := l.(used := l.used - {h});
      var g, inserting := MergeLeft(h, i);
      MergeRight(g, if inserting then i else i - 1);
      if inserting {
        LinkFree(g);
      }
    }

    // rt_memheap_free
    method Free(p: Option<Addr>)
      requires Valid() && (p.Some? ==> p.value - SIZE in l.used && p.value - SIZE != End())
      modifies this
      ensures Valid() && bytes == old(bytes) && maxUsed == old(maxUsed)
      ensures p == None ==> l == old(l) && free == old(free)
      ensures p.Some? ==> var h := p.value - SIZE; h in old(l).blocks
      ensures p.Some? ==> var h := p.value - SIZE; var i := IndexOf(old(l).blocks, h);
        i < |old(l).blocks| - 1 && l == Freed(old(l), i) && Keeps(old(l), l, h)
        && free == FreedList(old(l), old(free), i)
    {
      hide Ring, LayoutOk, FreeOk, MagicOk, FreeBytes, PoolBytes, Keeps, InsertAt, DropAt, Distinct, Freed, WithoutRight, IndexOf;
      if p == None {
        return;
      }
      var h := p.value - SIZE;
      UsedBlock(h);
      ghost var i, l0, free0 := IndexOf(l.blocks, h), l, free;
      FreeRing();
      FreedOk(l, start, End(), i, SIZE);
      FreedKeeps(l, start, End(), i, SIZE);
      FreedFree(l, free, start, End(), i);
      FreeInRange(Freed(l, i), start, End(), poolSize);
      Release(h, i);
    }

    lemma UsedBlock(h: Addr)
      requires Valid() && h in l.used && h != End()
      ensures h in l.blocks && IndexOf(l.blocks, h) < |l.blocks| - 1 && h >= 0
      ensures Distinct(l.blocks) && l.blocks[|l.blocks| - 1] in l.used && SizeAt(l.blocks, IndexOf(l.blocks, h), SIZE) >= 0
    {
      hide Ring, FreeBytes, Aligned, Merged;
      var i := IndexOf(l.blocks, h);
      TilesDistinct(l.blocks, start, End(), SIZE);
      if i > 0 {
        TilesAscend(l.blocks, start, End(), 0, i, SIZE);
      }
    }

    // --- rt_memheap_realloc ---

    // A new free header at x behind block i, which is in use; `covered` is the layout in which block i reaches beyond x.
    method NewFree(h: Addr, x: Addr, ghost i: nat)
      requires BlocksOk(l, next, prev, magic) && Ring(HEADER, free, nextFree, prevFree)
      requires i < |l.blocks| - 1 && l.blocks[i] == h && x !in l.blocks && x !in l.used && x !in free && x != HEADER
      modifies this`next, this`prev, this`magic, this`bytes, this`nextFree, this`prevFree, this`free, this`l
      ensures BlocksOk(l, next, prev, magic) && Ring(HEADER, free, nextFree, prevFree)
      ensures l == old(l).(blocks := InsertAt(old(l).blocks, i + 1, x)) && free == [x] + old(free)
      ensures bytes == Overwritten(old(bytes), x)
    {
      hide Ring, MagicOk, Overwritten;
      InsertMagic(l, magic, i, x);
      InsertedFirst(l.blocks, i, x);
      magic := magic[x := false];
      bytes := Overwritten(bytes, x);
      LinkBlock(h, x, i);
      LinkFree(x);
      l := l.(blocks := InsertAt(l.blocks, i + 1, x));
    }

    // a free block leaves both lists
    method RemoveFree(x: Addr, ghost k: nat)
      requires BlocksOk(l, next, prev, magic) && Ring(HEADER, free, nextFree, prevFree)
      requires 0 < k < |l.blocks| - 1 && l.blocks[k] == x && x in free
      modifies this`next, this`prev, this`nextFree, this`prevFree, this`free, this`l
      ensures BlocksOk(l, next, prev, magic) && Ring(HEADER, free, nextFree, prevFree)
      ensures l == old(l).(blocks := DropAt(old(l).blocks, k)) && free == DropAt(old(free), IndexOf(old(free), x))
    {
      hide Ring, MagicOk;
      DropMagic(l, magic, k);
      UnlinkBlock(x, k);
      UnlinkFree(x, IndexOf(free, x));
      l := l.(blocks := DropAt(l.blocks, k));
    }

    // Block i grows to `size` bytes at the expense of the free block after it.
    method Grow(h: Addr, size: nat, ghost i: nat)
      requires Valid() && i < |l.blocks| - 2 && l.blocks[i] == h && h in l.used && l.blocks[i + 1] !in l.used
      requires size % 4 == 0 && SizeAt(l.blocks, i, SIZE) < size && size + MINI < SizeAt(l.blocks, i, SIZE) + SizeAt(l.blocks, i + 1, SIZE)
      modifies this
      ensures Valid() && l == Moved(old(l), i, h + SIZE + size) && Keeps(old(l), l, h)
      ensures BytesKept(old(l), old(bytes), bytes, h) && BytesSameIn(old(bytes), bytes, h + SIZE, SizeAt(old(l).blocks, i, SIZE))
    {
      hide Ring, LayoutOk, FreeOk, MagicOk, FreeBytes, PoolBytes, BytesKept, Keeps, Overwritten, InsertAt, DropAt, IndexOf;
      ghost var l0, free0, bytes0 := l, free, bytes;
      var x := h + SIZE + size;
      FreeRing();
      GrowFacts(l, free, bytes, start, End(), poolSize, i, size);
      BlockLinks(l, next, prev, i);
      BlockLinks(l, next, prev, i + 1);
      var old' := next[h] - h - SIZE;
      available := available - (size - old');
      if poolSize - available > maxUsed {
        maxUsed := poolSize - available;
      }
      RemoveFree(next[h], i + 1);
      DropIndex(l0.blocks, i + 1, i);
      NewFree(h, x, i);
    }

    // Block i is cut down to `size` bytes, and the rest becomes free.
    method Shrink(h: Addr, size: nat, ghost i: nat)
      requires Valid() && i < |l.blocks| - 1 && l.blocks[i] == h && h in l.used
      requires size % 4 == 0 && size + SIZE + MINI < SizeAt(l.blocks, i, SIZE)
      modifies this
      ensures Valid() && l == Cut(old(l), i, size, SIZE) && Keeps(old(l), l, h)
      ensures BytesKept(old(l), old(bytes), bytes, h) && BytesSameIn(old(bytes), bytes, h + SIZE, size)
    {
      hide Ring, LayoutOk, FreeOk, MagicOk, FreeBytes, PoolBytes, BytesKept, Keeps, Overwritten, InsertAt, DropAt, IndexOf;
      ghost var l0, free0, bytes0 := l, free, bytes;
      var x := h + SIZE + size;
      FreeRing();
      CutFacts(l, free, bytes, magic, start, End(), poolSize, i, size);
      BlockLinks(l, next, prev, i);
      NewFree(h, x, i);
      InsertedAfter(l0.blocks, i, x);
      Absorb(x, i + 1);
      BlockLinks(l, next, prev, i + 1);
      available := available + (next[x] - x - SIZE);
      assert l == Cut(l0, i, size, SIZE);
    }

    // A new free block k swallows a free block after it.
    method Absorb(x: Addr, ghost k: nat)
      requires BlocksOk(l, next, prev, magic) && Ring(HEADER, free, nextFree, prevFree)
      requires 0 < k < |l.blocks| - 1 && l.blocks[k] == x
      requires l.blocks[k + 1] !in l.used ==> k + 1 < |l.blocks| - 1 && l.blocks[k + 1] in free
      modifies this`next, this`prev, this`nextFree, this`prevFree, this`free, this`l, this`available
      ensures BlocksOk(l, next, prev, magic) && Ring(HEADER, free, nextFree, prevFree)
      ensures var b, y := old(l).blocks, old(l).blocks[k + 1];
        if y in old(l).used then l == old(l) && free == old(free) && available == old(available)
        else && l == old(l).(blocks := DropAt(b, k + 1)) && free == DropAt(old(free), IndexOf(old(free), y))
             && available == old(available) - (b[k + 2] - y - SIZE)
    {
      hide Ring, MagicOk, DropAt, IndexOf;
      BlockLinks(l, next, prev, k);
      MagicAt(l, magic, k + 1);
      if !magic[next[x]] {
        var y := next[x];
        BlockLinks(l, next, prev, k + 1);
        available := available - (next[y] - y - SIZE);
        RemoveFree(y, k + 1);
      }
    }

    // rt_memcpy between two blocks
    method CopyBytes(dst: Addr, src: Addr, n: nat)
      requires forall x | src <= x < src + n || dst <= x < dst + n :: x in bytes
      requires src + n <= dst || dst + n <= src
      modifies this`bytes
      ensures bytes.Keys == old(bytes).Keys
      ensures CopiedTo(old(bytes), src, bytes, dst, n)
      ensures forall x | x in bytes && !(dst <= x < dst + n) :: bytes[x] == old(bytes)[x]
    {
      var k := 0;
      while k < n
        invariant 0 <= k <= n && bytes.Keys == old(bytes).Keys
        invariant CopiedTo(old(bytes), src, bytes, dst, k)
        invariant forall x | x in bytes && !(dst <= x < dst + k) :: bytes[x] == old(bytes)[x]
      {
        bytes := bytes[dst + k := bytes[src + k]];
        k := k + 1;
      }
    }

    // Allocate anew, copy, and free the old block.
    method Move(h: Addr, size: nat, ghost i: nat) returns (q: Option<Addr>)
      requires Valid() && i < |l.blocks| - 1 && l.blocks[i] == h && h in l.used && size < W32
      requires 0 <= SizeAt(l.blocks, i, SIZE) < size && Request(size) == size
      modifies this
      ensures Valid()
      ensures q == None <==> (size >= old(available) || NoFit(old(free), old(next), size))
      ensures q == None ==> l == old(l) && bytes == old(bytes)
      ensures q.Some? ==>
        q.value - SIZE != h && Reallocated(old(l), old(bytes), l, bytes, h, q.value - SIZE, size, SizeAt(old(l).blocks, i, SIZE))
    {
      hide LayoutOk, BlocksOk, FreeOk, PoolBytes, FreeBytes, BytesKept, Keeps, NoFit, Freed, FreedList, IndexOf, Ring, Allocated, Reallocated,
        Adjacent, CopiedTo, Rounded, GivesRoom, Snug, Request;
      ghost var l0, bytes0, n, free0 := l, bytes, SizeAt(l.blocks, i, SIZE), free;
      BlockLinks2(l, next, prev, magic, i);
      var oldSize := next[h] - h - SIZE;
      // rt_memheap_alloc, which aligns the size once more
      q := AllocAligned(Request(size));
      if q.Some? {
        ghost var l1, bytes1, g := l, bytes, q.value - SIZE;
        FreeUnused(l0, free0, g);
        ghost var c := AfterAlloc(l0, bytes0, l1, bytes1, start, End(), poolSize, i, IndexOf(l0.blocks, g), size);
        AdjacentAt(l0.blocks, i);
        Carry(h, q.value - SIZE, oldSize, c);
        FinallyMoved(l0, bytes0, l1, bytes1, l, bytes, h, g, c, size, n);
      }
    }

    // The bytes of the block at h are copied to the one at g, and the block at h is freed.
    method Carry(h: Addr, g: Addr, n: nat, ghost c: Addr)
      requires Valid() && h in l.used && g in l.used && h != g && h != End()
      requires Adjacent(l.blocks, h, h + SIZE + n) && Adjacent(l.blocks, g, c) && g + SIZE + n <= c
      modifies this
      ensures Valid() && h !in l.used && Keeps(old(l), l, h) && BytesKept(old(l), old(bytes), bytes, g)
      ensures CopiedTo(old(bytes), h + SIZE, bytes, g + SIZE, n)
    {
      hide LayoutOk, BlocksOk, FreeOk, PoolBytes, FreeBytes, BytesKept, Keeps, Freed, FreedList, IndexOf, Ring, Adjacent;
      ghost var l1, bytes1 := l, bytes;
      CopyRange(l, bytes, start, End(), poolSize, h, g, c, n);
      CopyBytes(g + SIZE, h + SIZE, n);
      CopiedKept(l1, bytes1, bytes, start, End(), poolSize, g, c, n);
      Free(Some(h + SIZE));
      FreedUnused(l1, IndexOf(l1.blocks, h));
    }

    // rt_memheap_realloc for a block in use and an aligned size: longer, or no longer, than the block
    method Resize(h: Addr, n: nat, ghost i: nat) returns (q: Option<Addr>)
      requires Valid() && Request(n) == n && i < |l.blocks| - 1 && l.blocks[i] == h && h in l.used && TestIsTrue(l, i, n)
      modifies this
      ensures Valid()
      ensures q == Some(h + SIZE) <==> StaysInPlace(old(l), i, n)
      ensures q == None <==> !StaysInPlace(old(l), i, n) && (n >= old(available) || NoFit(old(free), old(next), n))
      ensures q == None ==> l == old(l) && bytes == old(bytes)
      ensures q.Some? ==> Reallocated(old(l), old(bytes), l, bytes, h, q.value - SIZE, n, SizeAt(old(l).blocks, i, SIZE))
    {
      hide LayoutOk, BlocksOk, FreeOk, PoolBytes, FreeBytes, BytesKept, Keeps, NoFit, FreedList, IndexOf, Ring, Allocated, Reallocated,
        Freed, Moved, Cut, Adjacent, Taken;
      BlockLinks2(l, next, prev, magic, i);
      if n > next[h] - h - SIZE {
        q := Enlarge(h, n, i);
      } else {
        Cutback(h, n, i);
        q := Some(h + SIZE);
      }
    }

    method Enlarge(h: Addr, n: nat, ghost i: nat) returns (q: Option<Addr>)
      requires Valid() && Request(n) == n && i < |l.blocks| - 1 && l.blocks[i] == h && h in l.used && TestIsTrue(l, i, n)
      requires n > SizeAt(l.blocks, i, SIZE)
      modifies this
      ensures Valid()
      ensures q == Some(h + SIZE) <==> StaysInPlace(old(l), i, n)
      ensures q == None <==> !StaysInPlace(old(l), i, n) && (n >= old(available) || NoFit(old(free), old(next), n))
      ensures q == None ==> l == old(l) && bytes == old(bytes)
      ensures q.Some? ==> Reallocated(old(l), old(bytes), l, bytes, h, q.value - SIZE, n, SizeAt(old(l).blocks, i, SIZE))
    {
      hide LayoutOk, BlocksOk, FreeOk, PoolBytes, FreeBytes, BytesKept, Keeps, NoFit, FreedList, IndexOf, Ring, Allocated, Reallocated,
        Freed, Moved, Cut, Adjacent, Taken;
      ghost var l0, bytes0 := l, bytes;
      BlockLinks2(l, next, prev, magic, i);
      BytesSame(l, bytes, start, End(), poolSize, h);
      BytesOfBlock(l, bytes, start, End(), poolSize, i);
      KeepsSelf(l, h);
      SizeInPool(l, start, End(), i);
      var y, oldSize := next[h], next[h] - h - SIZE;
      if !magic[y] {
        FreeNext(l, start, End(), i, SIZE);
        BlockLinks2(l, next, prev, magic, i + 1);
        RoomInPool(l, start, End(), i);
        if U32(next[y] - y - SIZE + oldSize) > U32(n + MINI) {
          GrowTest(next[y] - y - SIZE + oldSize, n);
          Grow(h, n, i);
          GrownInPlace(l0, bytes0, l, bytes, i, n);
          return Some(h + SIZE);
        }
      }
      q := Move(h, n, i);
    }

    method Cutback(h: Addr, n: nat, ghost i: nat)
      requires Valid() && Request(n) == n && i < |l.blocks| - 1 && l.blocks[i] == h && h in l.used
      requires n <= SizeAt(l.blocks, i, SIZE)
      modifies this
      ensures Valid() && Reallocated(old(l), old(bytes), l, bytes, h, h, n, SizeAt(old(l).blocks, i, SIZE))
    {
      hide LayoutOk, BlocksOk, FreeOk, PoolBytes, FreeBytes, BytesKept, Keeps, NoFit, FreedList, IndexOf, Ring, Allocated, Reallocated,
        Freed, Moved, Cut, Adjacent, Taken;
      ghost var l0, bytes0 := l, bytes;
      BlockLinks2(l, next, prev, magic, i);
      BytesSame(l, bytes, start, End(), poolSize, h);
      BytesOfBlock(l, bytes, start, End(), poolSize, i);
      KeepsSelf(l, h);
      SizeInPool(l, start, End(), i);
      var oldSize := next[h] - h - SIZE;
      if U32(n + SIZE + MINI) >= oldSize {
        // not split when there is less than one node space left
        SameInPlace(l, bytes, i, n);
      } else {
        Shrink(h, n, i);
        CutInPlace(l0, bytes0, l, bytes, i, n);
      }
    }

    // rt_memheap_realloc
    method Realloc(p: Option<Addr>, newsize: nat) returns (q: Option<Addr>)
      requires Valid() && newsize < W32 && (p.Some? ==> p.value - SIZE in l.used && p.value - SIZE != End())
      requires p.Some? && p.value - SIZE in l.blocks ==> TestIsTrue(l, IndexOf(l.blocks, p.value - SIZE), Request(newsize))
      modifies this
      ensures Valid()
      ensures p.Some? ==> p.value - SIZE in old(l).blocks && IndexOf(old(l).blocks, p.value - SIZE) < |old(l).blocks| - 1
      ensures newsize == 0 ==> q == None && bytes == old(bytes)
      ensures newsize == 0 ==> l == if p == None then old(l) else Freed(old(l), IndexOf(old(l).blocks, p.value - SIZE))
      ensures p == None && newsize > 0 ==>
        (q == None <==> (Request(newsize) >= old(available) || NoFit(old(free), old(next), Request(newsize))))
      ensures p == None && q.Some? ==>
        Keeps(old(l), l, q.value - SIZE) && BytesKept(old(l), old(bytes), bytes, q.value - SIZE)
      ensures p.Some? && newsize > 0 ==>
        var h := p.value - SIZE; var i, n := IndexOf(old(l).blocks, h), Request(newsize);
        && (q == p <==> StaysInPlace(old(l), i, n))
        && (q == None <==> !StaysInPlace(old(l), i, n) && (n >= old(available) || NoFit(old(free), old(next), n)))
        && (q == None ==> l == old(l) && bytes == old(bytes))
        && (q.Some? ==> Reallocated(old(l), old(bytes), l, bytes, h, q.value - SIZE, n, SizeAt(old(l).blocks, i, SIZE)))
      // in terms of the bytes asked for
      ensures q.Some? ==> (GivesRoom(l, start, End(), q.value, newsize, SIZE) <==> newsize + 3 < W32)
      ensures newsize + 3 < W32 && newsize > 0 ==> forall n: nat | Rounded(newsize, n) ::
        if p == None then
          && (q == None <==> n >= old(available) || NoFit(old(free), old(next), n))
          && (q.Some? ==> Snug(old(l), l, q.value - SIZE, n, SIZE))
        else
          var h := p.value - SIZE; var i := IndexOf(old(l).blocks, h);
          && (q == p <==> StaysInPlace(old(l), i, n))
          && (q == None <==> !StaysInPlace(old(l), i, n) && (n >= old(available) || NoFit(old(free), old(next), n)))
          && (q.Some? ==> Reallocated(old(l), old(bytes), l, bytes, h, q.value - SIZE, n, SizeAt(old(l).blocks, i, SIZE)))
    {
      hide LayoutOk, BlocksOk, FreeOk, PoolBytes, FreeBytes, BytesKept, Keeps, NoFit, FreedList, IndexOf, Ring, Allocated, Reallocated,
        Freed, Moved, Cut, Adjacent, Taken, Rounded, GivesRoom, Snug, Request;
      if newsize == 0 {
        Free(p);
        return None;
      }
      RequestIs(newsize);
      if newsize + 3 < W32 {
        RequestOnly(newsize);
      }
      var n := Request(newsize);
      RequestAgain(newsize);
      if p == None {
        ghost var l0, free0, next0 := l, free, next;
        LayoutKnown();
        q := Alloc(n);
        if q.Some? {
          LayoutKnown();
          TakenRoom(l0, free0, next0, l, free, q.value - SIZE, n, newsize);
        }
        return q;
      }
      UsedBlock(p.value - SIZE);
      ghost var l0, bytes0, i := l, bytes, IndexOf(l.blocks, p.value - SIZE);
      q := Resize(p.value - SIZE, n, i);
      if q.Some? {
        LayoutKnown();
        ReallocatedRoom(l0, bytes0, p.value - SIZE, q.value - SIZE, n, SizeAt(l0.blocks, i, SIZE), newsize);
      }
    }

    // What the block gives after it has been reallocated.
    lemma ReallocatedRoom(l0: Layout, bytes0: map<Addr, Byte>, h: Addr, g: Addr, n: nat, oldSize: int, size: nat)
      requires LayoutOk(l, start, End(), SIZE) && End() - start < W32 - SIZE
      requires Reallocated(l0, bytes0, l, bytes, h, g, n, oldSize)
      requires size < W32 && (if size + 3 < W32 then Rounded(size, n) else n == MINI)
      ensures GivesRoom(l, start, End(), g + SIZE, size, SIZE) <==> size + 3 < W32
    {
      hide LayoutOk, GivesRoom, CopiedTo, Keeps, BytesKept;
      var c :| Adjacent(l.blocks, g, c) && n <= c - g - SIZE;
      RoomBetween(l, start, End(), g, c, size, SIZE);
    }
  }

  lemma SizeInPool(l: Layout, start: Addr, end: Addr, i: nat)
    requires LayoutOk(l, start, end, SIZE) && i + 1 < |l.blocks|
    ensures 0 <= SizeAt(l.blocks, i, SIZE) && SizeAt(l.blocks, i, SIZE) + SIZE <= end - start
  {
    hide Aligned, Merged;
    BlockInPool(l.blocks, start, end, i, SIZE);
  }

  lemma RoomInPool(l: Layout, start: Addr, end: Addr, i: nat)
    requires LayoutOk(l, start, end, SIZE) && i + 2 < |l.blocks|
    ensures 0 <= SizeAt(l.blocks, i, SIZE) && 0 <= SizeAt(l.blocks, i + 1, SIZE)
    ensures SizeAt(l.blocks, i, SIZE) + SizeAt(l.blocks, i + 1, SIZE) < end - start
  {
    hide Aligned, Merged;
    BlockInPool(l.blocks, start, end, i, SIZE);
    BlockInPool(l.blocks, start, end, i + 1, SIZE);
  }

  lemma InitialRings(start: nat, tail: int)
    requires tail >= start + SIZE
    ensures Ring(start, [tail], map[start := tail, tail := start], map[start := tail, tail := start])
    ensures Ring(HEADER, [start], map[HEADER := start, start := HEADER], map[HEADER := start, start := HEADER])
  {
  }

  /** The layout and the free list after block i, the k-th of the free list, has been taken for `size` bytes. */
  ghost predicate Taken(l: Layout, free: seq<Addr>, i: nat, k: nat, size: nat, l': Layout, free': seq<Addr>)
    requires i < |l.blocks| - 1 && k < |free|
  {
    && l' == Allocated(l, i, size, SIZE)
    && free' == if SizeAt(l.blocks, i, SIZE) >= size + SIZE + MINI then [l.blocks[i] + SIZE + size] + DropAt(free, k) else DropAt(free, k)
  }

  /** The block at h, the first of the free list that has n bytes, is taken for n bytes. */
  ghost predicate FirstTaken(l: Layout, free: seq<Addr>, next: map<Addr, Addr>, h: Addr, n: nat, l': Layout, free': seq<Addr>) {
    && h in free && h in l.blocks && h !in l.used && IndexOf(l.blocks, h) < |l.blocks| - 1
    && var i, k := IndexOf(l.blocks, h), IndexOf(free, h);
       && SizeAt(l.blocks, i, SIZE) >= n && Taken(l, free, i, k, n, l', free')
       && forall j | 0 <= j < k :: free[j] in next && next[free[j]] - free[j] - SIZE < n
  }

  // No block of the free list is as long as that.
  ghost predicate NoFit(free: seq<Addr>, next: map<Addr, Addr>, size: nat) {
    forall a | a in free :: a in next && next[a] - a - SIZE < size
  }

  lemma RingDistinct(h: Addr, list: seq<Addr>, nx: map<Addr, Addr>, pv: map<Addr, Addr>)
    requires Ring(h, list, nx, pv)
    ensures Distinct(list) && h !in list
  {
  }

  lemma TakenFree(l: Layout, free: seq<Addr>, i: nat, k: nat, size: nat, start: Addr, end: Addr)
    requires LayoutOk(l, start, end, SIZE) && FreeOk(l, free) && Distinct(free)
    requires i < |l.blocks| - 1 && k < |free| && free[k] == l.blocks[i] && 0 < size <= SizeAt(l.blocks, i, SIZE)
    ensures FreeOk(Allocated(l, i, size, SIZE), DropAt(free, k)) || SizeAt(l.blocks, i, SIZE) >= size + SIZE + MINI
    ensures SizeAt(l.blocks, i, SIZE) >= size + SIZE + MINI ==>
              FreeOk(Allocated(l, i, size, SIZE), [l.blocks[i] + SIZE + size] + DropAt(free, k))
  {
    hide Tiles, Aligned, Merged;
    DropMembers(free, k);
    if SizeAt(l.blocks, i, SIZE) >= size + SIZE + MINI {
      InsertTiles(l.blocks, start, end, i, l.blocks[i] + SIZE + size, SIZE);
    }
  }

  lemma TakenMagic(l: Layout, magic: map<Addr, bool>, i: nat, size: nat)
    requires MagicOk(l, magic) && i < |l.blocks| - 1
    requires var x := l.blocks[i] + SIZE + size; SizeAt(l.blocks, i, SIZE) >= size + SIZE + MINI ==> x !in l.used && x != l.blocks[i]
    ensures var x := l.blocks[i] + SIZE + size;
            MagicOk(Allocated(l, i, size, SIZE), (if SizeAt(l.blocks, i, SIZE) >= size + SIZE + MINI then magic[x := false] else magic)[l.blocks[i] := true])
  {
  }

  lemma FreeInRange(l: Layout, start: Addr, end: Addr, size: nat)
    requires LayoutOk(l, start, end, SIZE)
    ensures 0 <= FreeBytes(l.blocks, l.used, SIZE) <= end - start
  {
    hide Aligned, Merged;
    FreeBytesNat(l.blocks, l.used, SIZE);
    FreeBytesMax(l.blocks, l.used, SIZE);
  }

  lemma BytesSame(l: Layout, bytes: map<Addr, Byte>, start: Addr, end: Addr, size: nat, except: Addr)
    requires LayoutOk(l, start, end, SIZE) && PoolBytes(bytes, start, size) && end == start + size - SIZE
    ensures BytesKept(l, bytes, bytes, except)
  {
    hide Aligned, Merged, Tiles;
    forall j, y | 0 <= j < |l.blocks| - 1 && l.blocks[j] in l.used && l.blocks[j] != except
                  && l.blocks[j] + SIZE <= y < l.blocks[j + 1]
      ensures y in bytes
    {
      BlockInPool(l.blocks, start, end, j, SIZE);
    }
  }

  lemma NewHeader(l: Layout, free: seq<Addr>, start: Addr, end: Addr, i: nat, x: Addr)
    requires LayoutOk(l, start, end, SIZE) && FreeOk(l, free) && start >= 0
    requires i < |l.blocks| - 1 && l.blocks[i] + SIZE <= x && x + SIZE <= l.blocks[i + 1]
    ensures x !in l.blocks && x !in l.used && x !in free && x >= 0
  {
    hide Aligned, Merged;
    InsertTiles(l.blocks, start, end, i, x, SIZE);
    if i > 0 {
      TilesAscend(l.blocks, start, end, 0, i, SIZE);
    }
  }

  lemma SplitPoint(l: Layout, free: seq<Addr>, start: Addr, end: Addr, i: nat, size: nat)
    requires LayoutOk(l, start, end, SIZE) && FreeOk(l, free) && start >= 0 && i < |l.blocks| - 1
    ensures SizeAt(l.blocks, i, SIZE) >= size + SIZE + MINI ==>
              var x := l.blocks[i] + SIZE + size; x !in l.blocks && x !in l.used && x !in free && x >= 0 && x != l.blocks[i]
  {
    if SizeAt(l.blocks, i, SIZE) >= size + SIZE + MINI {
      NewHeader(l, free, start, end, i, l.blocks[i] + SIZE + size);
    }
  }

  lemma OverwrittenKept(l: Layout, bytes: map<Addr, Byte>, start: Addr, end: Addr, size: nat, i: nat, x: Addr)
    requires Tiles(l.blocks, start, end, SIZE) && PoolBytes(bytes, start, size) && end == start + size - SIZE
    requires i < |l.blocks| - 1 && l.blocks[i] <= x && x + SIZE <= l.blocks[i + 1]
    ensures BytesKept(l, bytes, Overwritten(bytes, x), l.blocks[i]) && PoolBytes(Overwritten(bytes, x), start, size)
  {
    hide Tiles, Overwritten;
    forall j, y | 0 <= j < |l.blocks| - 1 && l.blocks[j] in l.used && l.blocks[j] != l.blocks[i]
                  && l.blocks[j] + SIZE <= y < l.blocks[j + 1]
      ensures y in bytes && y in Overwritten(bytes, x) && Overwritten(bytes, x)[y] == bytes[y]
    {
      Untouched(l.blocks, start, end, i, j, x, y);
      OverwrittenAt(bytes, x, y);
    }
  }

  lemma OverwrittenAt(bytes: map<Addr, Byte>, x: Addr, y: Addr)
    requires y in bytes && !(x <= y < x + SIZE)
    ensures y in Overwritten(bytes, x) && Overwritten(bytes, x)[y] == bytes[y]
  {
  }

  lemma Untouched(b: seq<Addr>, start: Addr, end: Addr, i: nat, j: nat, x: Addr, y: Addr)
    requires Tiles(b, start, end, SIZE) && i < |b| - 1 && j < |b| - 1 && i != j
    requires b[i] <= x && x + SIZE <= b[i + 1] && b[j] <= y < b[j + 1]
    ensures start <= y < end && !(x <= y < x + SIZE)
  {
    Apart(b, start, end, i, j, SIZE);
    BlockInPool(b, start, end, j, SIZE);
  }

  // The free list without the right neighbour of block i, and then after block i has been freed.
  function WithoutRight(l: Layout, free: seq<Addr>, i: nat): seq<Addr>
    requires i < |l.blocks| - 1
  {
    if l.blocks[i + 1] in l.used || l.blocks[i + 1] !in free then free else DropAt(free, IndexOf(free, l.blocks[i + 1]))
  }

  function FreedList(l: Layout, free: seq<Addr>, i: nat): seq<Addr>
    requires i < |l.blocks| - 1
  {
    if i > 0 && l.blocks[i - 1] !in l.used then WithoutRight(l, free, i) else [l.blocks[i]] + WithoutRight(l, free, i)
  }

  lemma UnmarkMagic(l: Layout, magic: map<Addr, bool>, h: Addr)
    requires MagicOk(l, magic)
    ensures MagicOk(l.(used := l.used - {h}), magic[h := false])
  {
  }

  lemma FreedFree(l: Layout, free: seq<Addr>, start: Addr, end: Addr, i: nat)
    requires LayoutOk(l, start, end, SIZE) && FreeOk(l, free) && Distinct(free) && i < |l.blocks| - 1 && l.blocks[i] in l.used
    ensures FreeOk(Freed(l, i), FreedList(l, free, i)) && l.blocks[i] !in WithoutRight(l, free, i)
    ensures l.blocks[i + 1] !in l.used ==> l.blocks[i + 1] in free
    ensures WithoutRight(l, free, i) ==
            if l.blocks[i + 1] in l.used || l.blocks[i + 1] !in free then free else DropAt(free, IndexOf(free, l.blocks[i + 1]))
  {
    hide Distinct, Aligned, Tiles, Merged, IndexOf, DropAt, Freed, FreedList;
    var b := l.blocks;
    TilesDistinct(b, start, end, SIZE);
    NextDiffers(b, i);
    FreedMembers(l, start, end, i, SIZE);
    if b[i + 1] !in l.used {
      assert b[i + 1] in b;
      DropMembers(free, IndexOf(free, b[i + 1]));
    }
    FreedListMembers(l, free, i);
  }

  lemma FreedListMembers(l: Layout, free: seq<Addr>, i: nat)
    requires i < |l.blocks| - 1 && l.blocks[i + 1] != l.blocks[i]
    requires l.blocks[i + 1] !in l.used && l.blocks[i + 1] in free ==>
      forall a :: a in DropAt(free, IndexOf(free, l.blocks[i + 1])) <==> a in free && a != l.blocks[i + 1]
    ensures forall a :: a in WithoutRight(l, free, i) <==> a in free && !(a == l.blocks[i + 1] && a !in l.used)
    ensures forall a :: a in FreedList(l, free, i) <==>
              (a == l.blocks[i] && !(i > 0 && l.blocks[i - 1] !in l.used)) || (a in free && !(a == l.blocks[i + 1] && a !in l.used))
  {
    hide IndexOf, DropAt;
  }

  // The n bytes at src in the first memory are those at dst in the second.
  ghost predicate CopiedTo(bytes: map<Addr, Byte>, src: Addr, bytes': map<Addr, Byte>, dst: Addr, n: int) {
    forall x | src <= x < src + n :: x in bytes && Shift(x, src, dst) in bytes' && bytes'[Shift(x, src, dst)] == bytes[x]
  }

  function Shift(x: Addr, src: Addr, dst: Addr): Addr {
    x - src + dst
  }

  ghost predicate BytesSameIn(bytes: map<Addr, Byte>, bytes': map<Addr, Byte>, a: Addr, n: int) {
    forall x | a <= x < a + n :: x in bytes && x in bytes' && bytes'[x] == bytes[x]
  }

  lemma InsertMagic(l: Layout, magic: map<Addr, bool>, i: nat, x: Addr)
    requires MagicOk(l, magic) && i < |l.blocks| && x !in l.used
    ensures MagicOk(l.(blocks := InsertAt(l.blocks, i + 1, x)), magic[x := false])
  {
  }

  lemma DropMagic(l: Layout, magic: map<Addr, bool>, k: nat)
    requires MagicOk(l, magic) && k < |l.blocks|
    ensures MagicOk(l.(blocks := DropAt(l.blocks, k)), magic)
  {
    assert forall a | a in DropAt(l.blocks, k) :: a in l.blocks;
  }

  lemma MagicAt(l: Layout, magic: map<Addr, bool>, i: nat)
    requires MagicOk(l, magic) && i < |l.blocks|
    ensures l.blocks[i] in magic && (magic[l.blocks[i]] <==> l.blocks[i] in l.used)
  {
    var a: Addr := l.blocks[i];
    assert a in l.blocks;
    assert a in magic;
  }

  // Everything that a block's growing relies on and brings about, but for the links.
  lemma GrowFacts(l: Layout, free: seq<Addr>, bytes: map<Addr, Byte>, start: Addr, end: Addr, pool: nat, i: nat, size: nat)
    requires LayoutOk(l, start, end, SIZE) && FreeOk(l, free) && Distinct(free) && start >= 0
    requires PoolBytes(bytes, start, pool) && end == start + pool - SIZE
    requires i < |l.blocks| - 2 && l.blocks[i] in l.used && l.blocks[i + 1] !in l.used
    requires size % 4 == 0 && SizeAt(l.blocks, i, SIZE) < size && size + MINI < SizeAt(l.blocks, i, SIZE) + SizeAt(l.blocks, i + 1, SIZE)
    ensures var x := l.blocks[i] + SIZE + size; var m := Moved(l, i, x);
      var r, f := DropAt(l.blocks, i + 1), DropAt(free, IndexOf(free, l.blocks[i + 1]));
      && l.blocks[i + 1] in free && x !in r && x !in l.used && x !in f && x >= 0
      && LayoutOk(m, start, end, SIZE) && m.blocks == InsertAt(r, i + 1, x) && FreeOk(m, [x] + f) && Keeps(l, m, l.blocks[i])
      && FreeBytes(m.blocks, m.used, SIZE) == FreeBytes(l.blocks, l.used, SIZE) + SizeAt(l.blocks, i, SIZE) - size
      && 0 <= FreeBytes(m.blocks, m.used, SIZE) <= end - start
      && BytesKept(l, bytes, Overwritten(bytes, x), l.blocks[i]) && PoolBytes(Overwritten(bytes, x), start, pool)
      && BytesSameIn(bytes, Overwritten(bytes, x), l.blocks[i] + SIZE, SizeAt(l.blocks, i, SIZE))
  {
    hide Aligned, Merged, Tiles, Distinct, FreeBytes, Keeps, Moved, InsertAt, DropAt, IndexOf, Overwritten, BytesKept, PoolBytes, FreeOk;
    var b, x := l.blocks, l.blocks[i] + SIZE + size;
    MovedOk(l, start, end, i, size, SIZE);
    MovedKeeps(l, i, x);
    FreeInRange(Moved(l, i, x), start, end, pool);
    DropThenInsert(b, i, x);
    DropTiles(b, start, end, i + 1, SIZE);
    InsertTiles(DropAt(b, i + 1), start, end, i, x, SIZE);
    NewHeaderFree(l, i, x);
    MovedFree(l, free, start, end, i, x);
    var r := l.(blocks := DropAt(b, i + 1));
    OverwrittenKept(r, bytes, start, end, pool, i, x);
    DropKeeps(l, i + 1, b[i]);
    KeptVia(l, r, bytes, Overwritten(bytes, x), b[i]);
    HeaderAfter(b, bytes, start, end, pool, i, x, SizeAt(b, i, SIZE));
    BlockInPool(b, start, end, i, SIZE);
    MovedIs(l, i, x);
  }

  lemma MovedFree(l: Layout, free: seq<Addr>, start: Addr, end: Addr, i: nat, x: Addr)
    requires LayoutOk(l, start, end, SIZE) && FreeOk(l, free) && Distinct(free)
    requires i < |l.blocks| - 2 && l.blocks[i] in l.used && l.blocks[i + 1] !in l.used && x !in DropAt(l.blocks, i + 1) && x !in l.used
    ensures l.blocks[i + 1] in free
    ensures var f := DropAt(free, IndexOf(free, l.blocks[i + 1])); x !in f && FreeOk(Moved(l, i, x), [x] + f)
  {
    hide Aligned, Merged, Tiles, Distinct, DropAt, IndexOf;
    var b := l.blocks;
    assert b[i + 1] in b;
    DropMembers(free, IndexOf(free, b[i + 1]));
    DropTiles(b, start, end, i + 1, SIZE);
    MovedElements(b, i, x);
  }

  lemma MovedElements(b: seq<Addr>, i: nat, x: Addr)
    requires i < |b| - 1
    ensures var m := b[i + 1 := x]; forall a :: a in m <==> a == x || a in DropAt(b, i + 1)
  {
    var r, m := DropAt(b, i + 1), b[i + 1 := x];
    assert m[i + 1] == x;
    assert forall j | 0 <= j < |r| :: r[j] == m[if j <= i then j else j + 1];
    assert forall j | 0 <= j < |m| && j != i + 1 :: m[j] == r[if j <= i then j else j - 1];
  }

  // What is kept for the blocks of a later layout is kept for those of the first.
  lemma KeptVia(l: Layout, m: Layout, bytes: map<Addr, Byte>, bytes': map<Addr, Byte>, except: Addr)
    requires Keeps(l, m, except) && BytesKept(m, bytes, bytes', except)
    ensures BytesKept(l, bytes, bytes', except)
  {
    forall j, x | 0 <= j < |l.blocks| - 1 && l.blocks[j] in l.used && l.blocks[j] != except
                  && l.blocks[j] + SIZE <= x < l.blocks[j + 1]
      ensures x in bytes && x in bytes' && bytes'[x] == bytes[x]
    {
      assert Adjacent(m.blocks, l.blocks[j], l.blocks[j + 1]);
      var i :| 0 <= i < |m.blocks| - 1 && m.blocks[i] == l.blocks[j] && m.blocks[i + 1] == l.blocks[j + 1];
    }
  }

  // A header that comes after the first n bytes of block i does not touch them.
  lemma HeaderAfter(b: seq<Addr>, bytes: map<Addr, Byte>, start: Addr, end: Addr, pool: nat, i: nat, x: Addr, n: int)
    requires Tiles(b, start, end, SIZE) && PoolBytes(bytes, start, pool) && end == start + pool - SIZE
    requires i < |b| - 1 && n <= SizeAt(b, i, SIZE) && b[i] + SIZE + n <= x
    ensures BytesSameIn(bytes, Overwritten(bytes, x), b[i] + SIZE, n)
  {
    hide Tiles, Overwritten;
    BlockInPool(b, start, end, i, SIZE);
    forall y | b[i] + SIZE <= y < b[i] + SIZE + n
      ensures y in bytes && y in Overwritten(bytes, x) && Overwritten(bytes, x)[y] == bytes[y]
    {
      OverwrittenAt(bytes, x, y);
    }
  }

  lemma CutFacts(l: Layout, free: seq<Addr>, bytes: map<Addr, Byte>, magic: map<Addr, bool>, start: Addr, end: Addr, pool: nat,
                 i: nat, size: nat)
    requires LayoutOk(l, start, end, SIZE) && FreeOk(l, free) && Distinct(free) && start >= 0
    requires PoolBytes(bytes, start, pool) && end == start + pool - SIZE
    requires i < |l.blocks| - 1 && l.blocks[i] in l.used && size % 4 == 0 && size + SIZE + MINI < SizeAt(l.blocks, i, SIZE)
    ensures var x := l.blocks[i] + SIZE + size; var m := Cut(l, i, size, SIZE);
      && x !in l.blocks && x !in l.used && x !in free && x >= 0
      && (l.blocks[i + 1] !in l.used ==> i + 1 < |l.blocks| - 1 && l.blocks[i + 1] in free)
      && LayoutOk(m, start, end, SIZE) && Keeps(l, m, l.blocks[i])
      && FreeOk(m, if l.blocks[i + 1] in l.used then [x] + free
                   else DropAt([x] + free, IndexOf([x] + free, l.blocks[i + 1])))
      && FreeBytes(m.blocks, m.used, SIZE) == FreeBytes(l.blocks, l.used, SIZE) + SizeAt(l.blocks, i, SIZE) - size
                                        - (if l.blocks[i + 1] in l.used then SIZE else 0)
      && 0 <= FreeBytes(m.blocks, m.used, SIZE) <= end - start
      && BytesKept(l, bytes, Overwritten(bytes, x), l.blocks[i]) && PoolBytes(Overwritten(bytes, x), start, pool)
      && BytesSameIn(bytes, Overwritten(bytes, x), l.blocks[i] + SIZE, size)
  {
    hide Aligned, Merged, Tiles, Distinct, FreeBytes, Keeps, Cut, InsertAt, DropAt, IndexOf, Overwritten, BytesKept, PoolBytes, FreeOk;
    var b, x := l.blocks, l.blocks[i] + SIZE + size;
    CutOk(l, start, end, i, size, SIZE);
    CutKeeps(l, i, size, SIZE);
    FreeInRange(Cut(l, i, size, SIZE), start, end, pool);
    NewHeader(l, free, start, end, i, x);
    if b[i + 1] !in l.used {
      NotLast(b, start, end, true, i + 1, l.used, SIZE);
    }
    CutFree(l, free, start, end, i, size);
    OverwrittenKept(l, bytes, start, end, pool, i, x);
    HeaderAfter(b, bytes, start, end, pool, i, x, size);
  }

  lemma CutFree(l: Layout, free: seq<Addr>, start: Addr, end: Addr, i: nat, size: nat)
    requires LayoutOk(l, start, end, SIZE) && FreeOk(l, free) && Distinct(free) && i < |l.blocks| - 1
    requires var x := l.blocks[i] + SIZE + size; x !in l.blocks && x !in l.used && x !in free
    requires l.blocks[i] in l.used && (l.blocks[i + 1] !in l.used ==> i + 1 < |l.blocks| - 1)
    ensures l.blocks[i + 1] !in l.used ==> l.blocks[i + 1] in free
    ensures var x := l.blocks[i] + SIZE + size;
      FreeOk(Cut(l, i, size, SIZE), if l.blocks[i + 1] in l.used then [x] + free
                              else DropAt([x] + free, IndexOf([x] + free, l.blocks[i + 1])))
  {
    hide Aligned, Merged, Tiles, Distinct, DropAt, IndexOf;
    var b, x := l.blocks, l.blocks[i] + SIZE + size;
    assert b[i + 1] in b;
    if b[i + 1] in l.used {
      InsertMembers(b, i + 1, x);
    } else {
      MovedFree2(l, free, start, end, i, x);
    }
  }

  lemma MovedFree2(l: Layout, free: seq<Addr>, start: Addr, end: Addr, i: nat, x: Addr)
    requires LayoutOk(l, start, end, SIZE) && FreeOk(l, free) && Distinct(free)
    requires i < |l.blocks| - 2 && l.blocks[i] in l.used && l.blocks[i + 1] !in l.used && x !in l.blocks && x !in l.used
    ensures l.blocks[i + 1] in [x] + free
    ensures FreeOk(Moved(l, i, x), DropAt([x] + free, IndexOf([x] + free, l.blocks[i + 1])))
  {
    hide Aligned, Merged, Tiles, Distinct, DropAt, IndexOf;
    var b, y := l.blocks, l.blocks[i + 1];
    assert y in b;
    DropTiles(b, start, end, i + 1, SIZE);
    MovedFree(l, free, start, end, i, x);
    ConsDrop(x, free, y);
  }

  lemma ConsDrop(x: Addr, free: seq<Addr>, y: Addr)
    requires x != y && y in free
    ensures y in [x] + free && DropAt([x] + free, IndexOf([x] + free, y)) == [x] + DropAt(free, IndexOf(free, y))
  {
    assert ([x] + free)[1..] == free;
  }

  /** What rt_memheap_realloc does when it succeeds: the block that was at h is now at g, `size` bytes long at least, and
      not so much longer that the rest would be worth a block; its first bytes, as many as fit, are the old ones; and no other block in use has changed. */
  ghost predicate Reallocated(l: Layout, bytes: map<Addr, Byte>, l': Layout, bytes': map<Addr, Byte>,
                              h: Addr, g: Addr, size: nat, oldSize: int)
  {
    && g in l'.used && (exists c :: Adjacent(l'.blocks, g, c) && size <= c - g - SIZE <= size + SIZE + MINI)
    && (g != h ==> h !in l'.used)
    && CopiedTo(bytes, h + SIZE, bytes', g + SIZE, if oldSize < size then oldSize else size)
    && Keeps(l, l', h) && BytesKept(l, bytes, bytes', h)
  }

  /** The block keeps its place if it is long enough, or if the free block after it makes up for what it lacks. */
  ghost predicate StaysInPlace(l: Layout, i: nat, size: nat)
    requires i < |l.blocks| - 1
  {
    || size <= SizeAt(l.blocks, i, SIZE)
    || (l.blocks[i + 1] !in l.used && i + 1 < |l.blocks| - 1
        && size + MINI < SizeAt(l.blocks, i, SIZE) + SizeAt(l.blocks, i + 1, SIZE))
  }

  lemma RequestAgain(size: nat)
    ensures Request(Request(size)) == Request(size)
  {
  }

  lemma BlockLinks2(l: Layout, next: map<Addr, Addr>, prev: map<Addr, Addr>, magic: map<Addr, bool>, i: nat)
    requires BlocksOk(l, next, prev, magic) && i < |l.blocks| - 1
    ensures l.blocks[i] in next && next[l.blocks[i]] == l.blocks[i + 1]
    ensures l.blocks[i + 1] in magic && (magic[l.blocks[i + 1]] <==> l.blocks[i + 1] in l.used)
  {
    hide Ring;
    BlockLinks(l, next, prev, i);
    MagicAt(l, magic, i + 1);
  }

  lemma FreeUnused(l: Layout, free: seq<Addr>, g: Addr)
    requires FreeOk(l, free) && g in free
    ensures g !in l.used
  {
  }

  lemma FreedUnused(l: Layout, i: nat)
    requires i < |l.blocks| - 1
    ensures l.blocks[i] !in Freed(l, i).used
  {
  }

  lemma AdjacentAt(b: seq<Addr>, i: nat)
    requires i < |b| - 1
    ensures Adjacent(b, b[i], b[i + 1])
  {
  }

  lemma KeepsSelf(l: Layout, h: Addr)
    ensures Keeps(l, l, h)
  {
    forall j | 0 <= j < |l.blocks| - 1
      ensures Adjacent(l.blocks, l.blocks[j], l.blocks[j + 1])
    {
    }
  }

  lemma BytesOfBlock(l: Layout, bytes: map<Addr, Byte>, start: Addr, end: Addr, pool: nat, i: nat)
    requires LayoutOk(l, start, end, SIZE) && PoolBytes(bytes, start, pool) && end == start + pool - SIZE && i < |l.blocks| - 1
    ensures BytesSameIn(bytes, bytes, l.blocks[i] + SIZE, SizeAt(l.blocks, i, SIZE))
  {
    BlockInPool(l.blocks, start, end, i, SIZE);
  }

  lemma SameInPlace(l: Layout, bytes: map<Addr, Byte>, i: nat, size: nat)
    requires i < |l.blocks| - 1 && l.blocks[i] in l.used && size <= SizeAt(l.blocks, i, SIZE) <= size + SIZE + MINI
    requires BytesSameIn(bytes, bytes, l.blocks[i] + SIZE, SizeAt(l.blocks, i, SIZE))
    requires Keeps(l, l, l.blocks[i]) && BytesKept(l, bytes, bytes, l.blocks[i])
    ensures Reallocated(l, bytes, l, bytes, l.blocks[i], l.blocks[i], size, SizeAt(l.blocks, i, SIZE))
  {
    hide Keeps, BytesKept;
    assert Adjacent(l.blocks, l.blocks[i], l.blocks[i + 1]);
  }

  lemma GrownInPlace(l: Layout, bytes: map<Addr, Byte>, l': Layout, bytes': map<Addr, Byte>, i: nat, size: nat)
    requires i < |l.blocks| - 1 && l.blocks[i] in l.used && l' == Moved(l, i, l.blocks[i] + SIZE + size)
    requires BytesSameIn(bytes, bytes', l.blocks[i] + SIZE, SizeAt(l.blocks, i, SIZE))
    requires Keeps(l, l', l.blocks[i]) && BytesKept(l, bytes, bytes', l.blocks[i])
    ensures Reallocated(l, bytes, l', bytes', l.blocks[i], l.blocks[i], size, SizeAt(l.blocks, i, SIZE))
  {
    hide Keeps, BytesKept;
    var x := l.blocks[i] + SIZE + size;
    assert l'.blocks[i] == l.blocks[i] && l'.blocks[i + 1] == x;
    assert Adjacent(l'.blocks, l.blocks[i], x);
  }

  lemma CutInPlace(l: Layout, bytes: map<Addr, Byte>, l': Layout, bytes': map<Addr, Byte>, i: nat, size: nat)
    requires i < |l.blocks| - 1 && l.blocks[i] in l.used && l' == Cut(l, i, size, SIZE) && size <= SizeAt(l.blocks, i, SIZE)
    requires BytesSameIn(bytes, bytes', l.blocks[i] + SIZE, size)
    requires Keeps(l, l', l.blocks[i]) && BytesKept(l, bytes, bytes', l.blocks[i])
    ensures Reallocated(l, bytes, l', bytes', l.blocks[i], l.blocks[i], size, SizeAt(l.blocks, i, SIZE))
  {
    hide Keeps, BytesKept;
    var x := l.blocks[i] + SIZE + size;
    assert l'.blocks[i] == l.blocks[i] && l'.blocks[i + 1] == x;
    assert Adjacent(l'.blocks, l.blocks[i], x);
  }

  // The block allocated for the move: long enough, in use, and apart from the block being moved, which is as before.
  lemma AfterAlloc(l0: Layout, bytes0: map<Addr, Byte>, l1: Layout, bytes1: map<Addr, Byte>, start: Addr, end: Addr, pool: nat,
                   i: nat, j: nat, size: nat) returns (c: Addr)
    requires LayoutOk(l0, start, end, SIZE) && LayoutOk(l1, start, end, SIZE) && i < |l0.blocks| - 1 && j < |l0.blocks| - 1
    requires l0.blocks[i] in l0.used && l0.blocks[j] !in l0.used && size <= SizeAt(l0.blocks, j, SIZE) && l1 == Allocated(l0, j, size, SIZE)
    requires Keeps(l0, l1, l0.blocks[j])
    ensures var h, g := l0.blocks[i], l0.blocks[j];
      && g in l1.used && Adjacent(l1.blocks, g, c) && size <= c - g - SIZE <= size + SIZE + MINI
      && h in l1.used && Adjacent(l1.blocks, h, l0.blocks[i + 1]) && h != g && h != end
  {
    hide Tiles, Aligned, Merged;
    c := l1.blocks[j + 1];
    assert l1.blocks[j] == l0.blocks[j];
    assert Adjacent(l1.blocks, l0.blocks[j], c);
    LastDiffers(l0.blocks, start, end, i, SIZE);
  }

  lemma CopyRange(l: Layout, bytes: map<Addr, Byte>, start: Addr, end: Addr, pool: nat, h: Addr, g: Addr, c: Addr, n: int)
    requires LayoutOk(l, start, end, SIZE) && PoolBytes(bytes, start, pool) && end == start + pool - SIZE
    requires 0 <= n && Adjacent(l.blocks, h, h + SIZE + n) && Adjacent(l.blocks, g, c) && h != g && g + SIZE + n <= c
    ensures forall x | h + SIZE <= x < h + SIZE + n || g + SIZE <= x < g + SIZE + n :: x in bytes
    ensures h + SIZE + n <= g + SIZE || g + SIZE + n <= h + SIZE
  {
    hide Aligned, Merged;
    var i :| 0 <= i < |l.blocks| - 1 && l.blocks[i] == h && l.blocks[i + 1] == h + SIZE + n;
    var j :| 0 <= j < |l.blocks| - 1 && l.blocks[j] == g && l.blocks[j + 1] == c;
    Apart(l.blocks, start, end, i, j, SIZE);
    BlockInPool(l.blocks, start, end, i, SIZE);
    BlockInPool(l.blocks, start, end, j, SIZE);
  }

  lemma CopiedKept(l: Layout, bytes: map<Addr, Byte>, bytes': map<Addr, Byte>, start: Addr, end: Addr, pool: nat,
                   g: Addr, c: Addr, n: int)
    requires LayoutOk(l, start, end, SIZE) && PoolBytes(bytes, start, pool) && end == start + pool - SIZE
    requires Adjacent(l.blocks, g, c) && g + SIZE + n <= c && bytes'.Keys == bytes.Keys
    requires forall x | x in bytes && !(g + SIZE <= x < g + SIZE + n) :: bytes'[x] == bytes[x]
    ensures BytesKept(l, bytes, bytes', g) && PoolBytes(bytes', start, pool)
  {
    hide LayoutOk, PoolBytes;
    SameKeys(bytes, bytes', start, pool);
    var i :| 0 <= i < |l.blocks| - 1 && l.blocks[i] == g && l.blocks[i + 1] == c;
    forall j, x | 0 <= j < |l.blocks| - 1 && l.blocks[j] in l.used && l.blocks[j] != g
                  && l.blocks[j] + SIZE <= x < l.blocks[j + 1]
      ensures x in bytes && x in bytes' && bytes'[x] == bytes[x]
    {
      OtherBlock(l, start, end, i, j);
      InPool(bytes, start, pool, x);
    }
  }

  lemma OtherBlock(l: Layout, start: Addr, end: Addr, i: nat, j: nat)
    requires LayoutOk(l, start, end, SIZE) && i < |l.blocks| - 1 && j < |l.blocks| - 1 && l.blocks[i] != l.blocks[j]
    ensures l.blocks[i + 1] <= l.blocks[j] || l.blocks[j + 1] <= l.blocks[i]
    ensures start <= l.blocks[j] && l.blocks[j + 1] <= end
  {
    hide Aligned, Merged, Tiles;
    Apart(l.blocks, start, end, i, j, SIZE);
    BlockInPool(l.blocks, start, end, j, SIZE);
  }

  lemma SameKeys(bytes: map<Addr, Byte>, bytes': map<Addr, Byte>, start: Addr, pool: nat)
    requires PoolBytes(bytes, start, pool) && bytes'.Keys == bytes.Keys
    ensures PoolBytes(bytes', start, pool)
  {
    assert forall x | start <= x < start + pool :: x in bytes ==> x in bytes.Keys;
  }

  lemma InPool(bytes: map<Addr, Byte>, start: Addr, pool: nat, x: Addr)
    requires PoolBytes(bytes, start, pool) && start <= x < start + pool
    ensures x in bytes
  {
  }

  lemma KeepsUnused(l: Layout, m: Layout, r: Layout, g: Addr, h: Addr)
    requires Keeps(l, m, g) && Keeps(m, r, h) && g !in l.used
    ensures Keeps(l, r, h)
  {
    forall j | 0 <= j < |l.blocks| - 1 && l.blocks[j] in l.used && l.blocks[j] != h
      ensures l.blocks[j] in r.used && Adjacent(r.blocks, l.blocks[j], l.blocks[j + 1])
    {
      assert Adjacent(m.blocks, l.blocks[j], l.blocks[j + 1]);
      var i :| 0 <= i < |m.blocks| - 1 && m.blocks[i] == l.blocks[j] && m.blocks[i + 1] == l.blocks[j + 1];
    }
  }

  lemma KeptTwice(l: Layout, m: Layout, b0: map<Addr, Byte>, b1: map<Addr, Byte>, b2: map<Addr, Byte>, g: Addr, h: Addr)
    requires Keeps(l, m, g) && BytesKept(l, b0, b1, g) && BytesKept(m, b1, b2, g) && g !in l.used
    ensures BytesKept(l, b0, b2, h)
  {
    forall j, x | 0 <= j < |l.blocks| - 1 && l.blocks[j] in l.used && l.blocks[j] != h
                  && l.blocks[j] + SIZE <= x < l.blocks[j + 1]
      ensures x in b0 && x in b2 && b2[x] == b0[x]
    {
      assert Adjacent(m.blocks, l.blocks[j], l.blocks[j + 1]);
      var i :| 0 <= i < |m.blocks| - 1 && m.blocks[i] == l.blocks[j] && m.blocks[i + 1] == l.blocks[j + 1];
    }
  }

  lemma FinallyMoved(l0: Layout, bytes0: map<Addr, Byte>, l1: Layout, bytes1: map<Addr, Byte>,
                     l2: Layout, bytes2: map<Addr, Byte>, h: Addr, g: Addr, c: Addr, size: nat, n: int)
    requires Keeps(l0, l1, g) && BytesKept(l0, bytes0, bytes1, g) && Keeps(l1, l2, h) && BytesKept(l1, bytes1, bytes2, g)
    requires g !in l0.used && h in l0.used && g in l1.used && h !in l2.used && g != h && 0 <= n < size
    requires Adjacent(l0.blocks, h, h + SIZE + n) && Adjacent(l1.blocks, g, c) && size <= c - g - SIZE <= size + SIZE + MINI
    requires CopiedTo(bytes1, h + SIZE, bytes2, g + SIZE, n)
    ensures Reallocated(l0, bytes0, l2, bytes2, h, g, size, n)
  {
    hide Keeps, BytesKept, Adjacent, CopiedTo;
    KeepsUnused(l0, l1, l2, g, h);
    KeptTwice(l0, l1, bytes0, bytes1, bytes2, g, h);
    KeepsAt(l1, l2, h, g, c);
    CopiedFirst(l0, bytes0, bytes1, bytes2, h, g, n);
  }

  lemma KeepsAt(l: Layout, m: Layout, except: Addr, a: Addr, c: Addr)
    requires Keeps(l, m, except) && a in l.used && a != except && Adjacent(l.blocks, a, c)
    ensures a in m.used && Adjacent(m.blocks, a, c)
  {
  }

  // The bytes copied are those that the block had before the other one was allocated.
  lemma CopiedFirst(l: Layout, bytes0: map<Addr, Byte>, bytes1: map<Addr, Byte>, bytes2: map<Addr, Byte>, h: Addr, g: Addr, n: int)
    requires BytesKept(l, bytes0, bytes1, g) && h in l.used && h != g && Adjacent(l.blocks, h, h + SIZE + n)
    requires CopiedTo(bytes1, h + SIZE, bytes2, g + SIZE, n)
    ensures CopiedTo(bytes0, h + SIZE, bytes2, g + SIZE, n)
  {
    var i :| 0 <= i < |l.blocks| - 1 && l.blocks[i] == h && l.blocks[i + 1] == h + SIZE + n;
    forall x | h + SIZE <= x < h + SIZE + n
      ensures x in bytes0 && x in bytes1 && bytes1[x] == bytes0[x]
    {
      assert l.blocks[i] + SIZE <= x < l.blocks[i + 1];
    }
  }
}
