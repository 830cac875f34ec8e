/** The small-memory heap: blocks linked by offsets, a pointer to the lowest free one, and an exact count of what is used. */
module SmallMems {
  import opened Kernels
  import opened Lists
  import opened Words
  import opened HeapLayout

  const HDR: nat := 12                   // SIZEOF_STRUCT_MEM

  // RT_ALIGN(size, RT_ALIGN_SIZE); the addition wraps at 32 bits
  function Align(size: nat): (r: nat)
    ensures r % 4 == 0 && r < W32
  {
    U32(size + 3) / 4 * 4
  }

  function AtLeastMini(size: nat): nat {
    if size < MINI then MINI else size
  }

  /** The shortest block that serves, unless the addition wraps; then rt_malloc takes the minimum and rt_realloc frees. */
  lemma AlignIs(size: nat)
    requires size < W32
    ensures size + 3 < W32 ==> Rounded(size, AtLeastMini(Align(size))) && (Align(size) == 0 <==> size == 0)
    ensures size + 3 >= W32 ==> Align(size) == 0
  {
    if size + 3 < W32 {
      RoundedIs(size, AtLeastMini(Align(size)));
    }
  }

  // m is size rounded up to a multiple of 4.
  ghost predicate RoundedUp(size: nat, m: nat) {
    m % 4 == 0 && size <= m < size + 4
  }

  lemma AlignIsUp(size: nat)
    requires size + 3 < W32
    ensures RoundedUp(size, Align(size)) && forall m: nat | RoundedUp(size, m) :: m == Align(size)
  {
  }

  // Every number that is the shortest to serve is that one.
  lemma AlignOnly(size: nat)
    requires size + 3 < W32
    ensures forall n | Rounded(size, n) :: n == AtLeastMini(Align(size))
  {
    AlignIs(size);
    forall n | Rounded(size, n)
      ensures n == AtLeastMini(Align(size))
    {
      RoundedBound(size, n, AtLeastMini(Align(size)));
    }
  }

  /** The bytes of the blocks in use, headers included. */
  function UsedBytes(b: seq<Addr>, used: set<Addr>): int {
    if |b| <= 1 then 0 else (if b[0] in used then b[1] - b[0] else 0) + UsedBytes(b[1..], used)
  }

  // A block is in use or free.
  lemma {:induction false} UsedOrFree(b: seq<Addr>, used: set<Addr>)
    requires b != []
    ensures UsedBytes(b, used) + FreeBytes(b, used, 0) == b[|b| - 1] - b[0]
  {
    if |b| > 1 {
      UsedOrFree(b[1..], used);
    }
  }

  // The block before block i; the first block is its own.
  function Before(b: seq<Addr>, i: nat): Addr
    requires i < |b|
  {
    if i == 0 then b[0] else b[i - 1]
  }

  function After(b: seq<Addr>, i: nat): Addr
    requires i < |b| - 1
  {
    b[i + 1]
  }

  /** next links each block to the one after it, and prev to the one before it; what the end block's prev holds is not kept up. */
  ghost predicate LinksOk(b: seq<Addr>, next: map<Addr, Addr>, prev: map<Addr, Addr>) {
    NextOk(b, next) && PrevOk(b, prev)
  }

  ghost predicate NextOk(b: seq<Addr>, next: map<Addr, Addr>) {
    && |b| >= 2 && b[|b| - 1] in next
    && forall i | 0 <= i < |b| - 1 :: b[i] in next && next[b[i]] == After(b, i)
  }

  ghost predicate PrevOk(b: seq<Addr>, prev: map<Addr, Addr>) {
    && |b| >= 2 && b[|b| - 1] in prev
    && forall i | 0 <= i < |b| - 1 :: b[i] in prev && prev[b[i]] == Before(b, i)
  }

  ghost predicate FlagsOk(l: Layout, flags: map<Addr, bool>) {
    forall a | a in l.blocks :: a in flags && (flags[a] <==> a in l.used)
  }

  // lfree is a free block or the end.
  ghost predicate SomeFree(l: Layout, lfree: Addr, end: Addr) {
    lfree in l.blocks && (lfree == end || lfree !in l.used)
  }

  /** lfree is the lowest free block, or the end if there is none. */
  ghost predicate LowestFree(l: Layout, lfree: Addr, end: Addr) {
    SomeFree(l, lfree, end) && forall a | a in l.blocks && a < lfree :: a in l.used
  }

  // --- the links under splitting and merging ---

  lemma LinksSplit(b: seq<Addr>, next: map<Addr, Addr>, prev: map<Addr, Addr>, i: nat, x: Addr)
    requires LinksOk(b, next, prev) && Distinct(b) && i < |b| - 1 && x !in b
    ensures var n := b[i + 1];
      LinksOk(InsertAt(b, i + 1, x), next[x := n][b[i] := x],
              if i + 1 < |b| - 1 then prev[x := b[i]][n := x] else prev[x := b[i]])
  {
    hide NextOk, PrevOk, InsertAt, Distinct;
    NextSplit(b, next, i, x);
    PrevSplit(b, prev, i, x);
  }

  lemma NextSplit(b: seq<Addr>, next: map<Addr, Addr>, i: nat, x: Addr)
    requires NextOk(b, next) && Distinct(b) && i < |b| - 1 && x !in b
    ensures NextOk(InsertAt(b, i + 1, x), next[x := b[i + 1]][b[i] := x])
  {
    assert forall j | 0 <= j < |b| :: b[j] != x && (j != i ==> b[j] != b[i]);
    InsertPlaces(b, i + 1, x);
    hide Distinct, InsertAt;
  }

  lemma PrevSplit(b: seq<Addr>, prev: map<Addr, Addr>, i: nat, x: Addr)
    requires PrevOk(b, prev) && Distinct(b) && i < |b| - 1 && x !in b
    ensures PrevOk(InsertAt(b, i + 1, x), if i + 1 < |b| - 1 then prev[x := b[i]][b[i + 1] := x] else prev[x := b[i]])
  {
    var r := InsertAt(b, i + 1, x);
    var prev' := if i + 1 < |b| - 1 then prev[x := b[i]][b[i + 1] := x] else prev[x := b[i]];
    InsertPlaces(b, i + 1, x);
    hide InsertAt;
    assert r[|r| - 1] == b[|b| - 1];
    forall j | 0 <= j < |r| - 1
      ensures r[j] in prev' && prev'[r[j]] == Before(r, j)
    {
      if j <= i {
        assert r[j] == b[j] && (j > 0 ==> r[j - 1] == b[j - 1]);
      } else if j == i + 1 {
        assert r[j] == x && r[i] == b[i];
      } else {
        assert r[j] == b[j - 1] && r[j - 1] == if j == i + 2 then x else b[j - 2];
      }
    }
  }

  // Element j once x has been put in at place k.
  function Placed(b: seq<Addr>, k: nat, x: Addr, j: nat): Addr
    requires k <= |b| && j <= |b|
  {
    if j < k then b[j] else if j == k then x else b[j - 1]
  }

  lemma InsertPlaces(b: seq<Addr>, k: nat, x: Addr)
    requires k <= |b|
    ensures |InsertAt(b, k, x)| == |b| + 1 && forall j | 0 <= j <= |b| :: InsertAt(b, k, x)[j] == Placed(b, k, x, j)
  {
  }

  lemma LinksMerge(b: seq<Addr>, next: map<Addr, Addr>, prev: map<Addr, Addr>, k: nat)
    requires LinksOk(b, next, prev) && Distinct(b) && 0 < k < |b| - 1
    ensures LinksOk(DropAt(b, k), next[b[k - 1] := b[k + 1]], prev[b[k + 1] := b[k - 1]])
  {
    hide NextOk, PrevOk, DropAt, Distinct;
    NextMerge(b, next, k);
    PrevMerge(b, prev, k);
  }

  lemma NextMerge(b: seq<Addr>, next: map<Addr, Addr>, k: nat)
    requires NextOk(b, next) && Distinct(b) && 0 < k < |b| - 1
    ensures NextOk(DropAt(b, k), next[b[k - 1] := b[k + 1]])
  {
    assert forall j | 0 <= j < |b| :: j != k - 1 ==> b[j] != b[k - 1];
    DropPlaces(b, k);
    hide Distinct, DropAt;
  }

  lemma PrevMerge(b: seq<Addr>, prev: map<Addr, Addr>, k: nat)
    requires PrevOk(b, prev) && Distinct(b) && 0 < k < |b| - 1
    ensures PrevOk(DropAt(b, k), prev[b[k + 1] := b[k - 1]])
  {
    assert forall j | 0 <= j < |b| :: j != k + 1 ==> b[j] != b[k + 1];
    DropPlaces(b, k);
    hide Distinct, DropAt;
  }

  // Element j once the one at place k has gone.
  function Closed(b: seq<Addr>, k: nat, j: nat): Addr
    requires j < |b| - 1
  {
    if j < k then b[j] else b[j + 1]
  }

  lemma DropPlaces(b: seq<Addr>, k: nat)
    requires k < |b|
    ensures |DropAt(b, k)| == |b| - 1 && forall j | 0 <= j < |b| - 1 :: DropAt(b, k)[j] == Closed(b, k, j)
  {
  }

  lemma LinkAt(b: seq<Addr>, next: map<Addr, Addr>, prev: map<Addr, Addr>, i: nat)
    requires LinksOk(b, next, prev) && i < |b| - 1
    ensures b[i] in next && next[b[i]] == b[i + 1] && b[i + 1] in next
    ensures b[i] in prev && prev[b[i]] == if i == 0 then b[0] else b[i - 1]
  {
    if i + 1 < |b| - 1 {
      assert next[b[i + 1]] == After(b, i + 1);
    }
  }

  lemma FlagAt(l: Layout, flags: map<Addr, bool>, i: nat)
    requires FlagsOk(l, flags) && i < |l.blocks|
    ensures l.blocks[i] in flags && (flags[l.blocks[i]] <==> l.blocks[i] in l.used)
  {
    var a: Addr := l.blocks[i];
    assert a in l.blocks;
    assert a in flags;
  }

  lemma FlagsSet(l: Layout, flags: map<Addr, bool>, a: Addr)
    requires FlagsOk(l, flags)
    ensures FlagsOk(l.(used := l.used + {a}), flags[a := true]) && FlagsOk(l.(used := l.used - {a}), flags[a := false])
  {
  }

  lemma FlagsSplit(l: Layout, flags: map<Addr, bool>, i: nat, x: Addr)
    requires FlagsOk(l, flags) && i < |l.blocks| && x !in l.used
    ensures FlagsOk(l.(blocks := InsertAt(l.blocks, i + 1, x)), flags[x := false])
  {
  }

  lemma FlagsMerge(l: Layout, flags: map<Addr, bool>, k: nat)
    requires FlagsOk(l, flags) && k < |l.blocks|
    ensures FlagsOk(l.(blocks := DropAt(l.blocks, k)), flags)
  {
    assert forall a | a in DropAt(l.blocks, k) :: a in l.blocks;
  }

  // --- what the operations do to the bytes in use ---

  lemma AllocatedUsed(l: Layout, end: Addr, i: nat, size: nat)
    requires LayoutOk(l, 0, end, HDR) && i < |l.blocks| - 1 && l.blocks[i] !in l.used && size <= SizeAt(l.blocks, i, HDR) && size % 4 == 0
    ensures var m := Allocated(l, i, size, HDR);
      UsedBytes(m.blocks, m.used) == UsedBytes(l.blocks, l.used)
        + if SizeAt(l.blocks, i, HDR) >= size + HDR + MINI then size + HDR else l.blocks[i + 1] - l.blocks[i]
  {
    hide LayoutOk, FreeBytes, UsedBytes, Distinct, InsertAt;
    var b, m := l.blocks, Allocated(l, i, size, HDR);
    AllocatedOk(l, 0, end, i, size, HDR);
    LayoutDistinct(l, 0, end, HDR);
    Ends(l, end);
    Ends(m, end);
    PlaceOf(l, end, i);
    UsedOrFree(b, l.used);
    UsedOrFree(m.blocks, m.used);
    MarkBytes(b, l.used, i, 0);
    if SizeAt(b, i, HDR) >= size + HDR + MINI {
      CutTiles(l, end, i, size);
      InsertBytes(b, l.used + {b[i]}, i, b[i] + HDR + size, 0);
    }
  }

  lemma FreedUsed(l: Layout, end: Addr, i: nat)
    requires LayoutOk(l, 0, end, HDR) && i < |l.blocks| - 1 && l.blocks[i] in l.used
    ensures var m := Freed(l, i);
            UsedBytes(m.blocks, m.used) == UsedBytes(l.blocks, l.used) - (l.blocks[i + 1] - l.blocks[i])
  {
    hide Aligned, Merged, FreeBytes, UsedBytes, Distinct, Tiles, DropAt;
    var b, used := l.blocks, l.used - {l.blocks[i]};
    FreedOk(l, 0, end, i, HDR);
    LayoutDistinct(l, 0, end, HDR);
    Ends(l, end);
    Ends(Freed(l, i), end);
    UsedOrFree(b, l.used);
    UsedOrFree(Freed(l, i).blocks, used);
    UnmarkBytes(b, l.used, i, 0);
    FreedFacts(l, 0, end, i, HDR);
    var r := b;
    if b[i + 1] !in used {
      FreeNext(l, 0, end, i, HDR);
      DropBytes(b, used, i + 1, 0);
      r := DropAt(b, i + 1);
      DropIndex(b, i + 1, i);
      if i > 0 {
        DropIndex(b, i + 1, i - 1);
      }
    }
    if i > 0 && b[i - 1] !in used {
      LongEnough(b, r, i);
      DropBytes(r, used, i, 0);
    }
  }

  lemma LongEnough(b: seq<Addr>, r: seq<Addr>, i: nat)
    requires i < |b| - 1 && (r == b || (i + 1 < |b| - 1 && r == DropAt(b, i + 1)))
    ensures i < |r| - 1 && r[i] == b[i] && (i > 0 ==> r[i - 1] == b[i - 1])
  {
  }

  lemma Ends(l: Layout, end: Addr)
    requires LayoutOk(l, 0, end, HDR)
    ensures |l.blocks| >= 2 && l.blocks[0] == 0 && l.blocks[|l.blocks| - 1] == end
  {
  }

  lemma CutUsed(l: Layout, end: Addr, i: nat, size: nat)
    requires LayoutOk(l, 0, end, HDR) && i < |l.blocks| - 1 && l.blocks[i] in l.used
    requires size + HDR <= SizeAt(l.blocks, i, HDR) && size % 4 == 0
    ensures var m := Cut(l, i, size, HDR);
            UsedBytes(m.blocks, m.used) == UsedBytes(l.blocks, l.used) - (SizeAt(l.blocks, i, HDR) - size)
  {
    hide Aligned, Merged, FreeBytes, UsedBytes, Distinct, Tiles, InsertAt;
    var b, x := l.blocks, l.blocks[i] + HDR + size;
    CutOk(l, 0, end, i, size, HDR);
    Ends(l, end);
    Ends(Cut(l, i, size, HDR), end);
    UsedOrFree(b, l.used);
    UsedOrFree(Cut(l, i, size, HDR).blocks, l.used);
    CutTiles(l, end, i, size);
    InsertBytes(b, l.used, i, x, 0);
    if b[i + 1] !in l.used {
      FreeNext(l, 0, end, i, HDR);
      InsertedAfter(b, i, x);
      DropBytes(InsertAt(b, i + 1, x), l.used, i + 2, 0);
    }
  }

  lemma CutTiles(l: Layout, end: Addr, i: nat, size: nat)
    requires LayoutOk(l, 0, end, HDR) && i < |l.blocks| - 1 && size + HDR <= SizeAt(l.blocks, i, HDR)
    ensures var x := l.blocks[i] + HDR + size;
            x !in l.blocks && x !in l.used && Tiles(InsertAt(l.blocks, i + 1, x), 0, end, HDR)
  {
    hide Aligned, Merged;
    InsertTiles(l.blocks, 0, end, i, l.blocks[i] + HDR + size, HDR);
  }

  lemma UsedInRange(l: Layout, end: Addr)
    requires LayoutOk(l, 0, end, HDR)
    ensures 0 <= UsedBytes(l.blocks, l.used) <= end
  {
    hide Aligned, Merged, UsedBytes;
    Ends(l, end);
    UsedOrFree(l.blocks, l.used);
    FreeBytesNat(l.blocks, l.used, 0);
    FreeBytesMax(l.blocks, l.used, 0);
  }

  class SmallMem {
    const memSize: nat                   // mem_size_aligned
    var next: map<Addr, Addr>            // the fields of struct heap_mem, by offset from heap_ptr
    var prev: map<Addr, Addr>
    var flags: map<Addr, bool>           // used
    var lfree: Addr
    var usedMem: int                     // used_mem
    var maxMem: int                      // max_mem
    ghost var l: Layout

    function End(): Addr {
      memSize + HDR
    }

    /** All but the claim that lfree is the lowest free block. */
    ghost predicate Valid()
      reads this
    {
      && memSize >= MINI && memSize % 4 == 0 && memSize + 2 * HDR < W32
      && LayoutOk(l, 0, End(), HDR) && LinksOk(l.blocks, next, prev) && FlagsOk(l, flags)
      && usedMem == UsedBytes(l.blocks, l.used) && usedMem <= maxMem
      && SomeFree(l, lfree, End())
    }

    /** used_mem is never negative and never more than the bytes there are. */
    lemma UsageInRange()
      requires Valid()
      ensures 0 <= usedMem <= End()
    {
      UsedInRange(l, End());
    }

    ghost predicate Lowest()
      reads this
    {
      LowestFree(l, lfree, End())
    }

    // rt_system_heap_init, for a heap with room for a block
    constructor (memSize: nat)
      requires memSize >= MINI && memSize % 4 == 0 && memSize + 2 * HDR < W32   // addresses have 32 bits
      ensures Valid() && Lowest() && this.memSize == memSize && l == Layout([0, memSize + HDR], {memSize + HDR})
    {
      var end := memSize + HDR;
      this.memSize := memSize;
      next, prev := map[0 := end, end := end], map[0 := 0, end := end];
      flags := map[0 := false, end := true];
      lfree, usedMem, maxMem := 0, 0, 0;
      l := Layout([0, end], {end});
      new;
      assert [0, end][1..] == [end];
    }

    // plug_holes, forwards: a free block is joined to a free block after it
    method PlugForward(mem: Addr, ghost i: nat)
      requires Linked() && i < |l.blocks| - 1 && l.blocks[i] == mem && mem !in l.used
      requires l.blocks[|l.blocks| - 1] == End() && End() in l.used && Distinct(l.blocks) && lfree in l.blocks
      modifies this`next, this`prev, this`lfree, this`l
      ensures Linked()
      ensures var right := old(l).blocks[i + 1] !in old(l).used;
        && (right ==> i + 1 < |old(l).blocks| - 1)
        && l == (if right then old(l).(blocks := DropAt(old(l).blocks, i + 1)) else old(l))
        && lfree == (if right && old(lfree) == old(l).blocks[i + 1] then mem else old(lfree))
    {
      hide LinksOk, FlagsOk, Distinct;
      LinkAt(l.blocks, next, prev, i);
      FlagAt(l, flags, i + 1);
      NextDiffers(l.blocks, i);
      var nmem := next[mem];
      if mem != nmem && !flags[nmem] && nmem != End() {
        assert i + 1 < |l.blocks| - 1;
        LinkAt(l.blocks, next, prev, i + 1);
        LinksMerge(l.blocks, next, prev, i + 1);
        FlagsMerge(l, flags, i + 1);
        if lfree == nmem {
          lfree := mem;
        }
        next := next[mem := next[nmem]];
        prev := prev[next[mem] := mem];
        l := l.(blocks := DropAt(l.blocks, i + 1));
      }
    }

    // plug_holes, backwards: a free block is joined to a free block before it
    method PlugBackward(mem: Addr, ghost i: nat)
      requires Linked() && i < |l.blocks| - 1 && l.blocks[i] == mem && mem !in l.used
      requires Distinct(l.blocks) && lfree in l.blocks
      modifies this`next, this`prev, this`lfree, this`l
      ensures Linked()
      ensures var left := i > 0 && old(l).blocks[i - 1] !in old(l).used;
        && l == (if left then old(l).(blocks := DropAt(old(l).blocks, i)) else old(l))
        && lfree == (if left && old(lfree) == mem then old(l).blocks[i - 1] else old(lfree))
    {
      hide LinksOk, FlagsOk, Distinct;
      LinkAt(l.blocks, next, prev, i);
      NextDiffers(l.blocks, i);
      var pmem := prev[mem];
      if i > 0 {
        FlagAt(l, flags, i - 1);
        LinkAt(l.blocks, next, prev, i - 1);
      }
      if pmem != mem && !flags[pmem] {
        LinksMerge(l.blocks, next, prev, i);
        FlagsMerge(l, flags, i);
        if lfree == mem {
          lfree := pmem;
        }
        next := next[pmem := next[mem]];
        prev := prev[next[mem] := pmem];
        l := l.(blocks := DropAt(l.blocks, i));
      }
    }

    ghost predicate Linked()
      reads this
    {
      LinksOk(l.blocks, next, prev) && FlagsOk(l, flags)
    }

    // plug_holes
    method PlugHoles(mem: Addr, ghost i: nat, ghost l0: Layout)
      requires Linked() && LayoutOk(l0, 0, End(), HDR) && i < |l.blocks| - 1 && l.blocks[i] == mem && mem in l0.used
      requires l == l0.(used := l0.used - {mem}) && lfree in l.blocks
      modifies this`next, this`prev, this`lfree, this`l
      ensures Linked() && l == Freed(l0, i)
      ensures lfree == LfreeAfter(l0, i, old(lfree))
    {
      hide LinksOk, FlagsOk, LayoutOk, Distinct, DropAt, Freed;
      LayoutDistinct(l0, 0, End(), HDR);
      FreedFacts(l0, 0, End(), i, HDR);
      Ends(l0, End());
      PlugFacts(l0, End(), i, lfree);
      PlugFreed(l0, End(), i);
      PlugForward(mem, i);
      PlugBackward(mem, i);
    }

    // the search of rt_malloc, from lfree on
    method Search(size: nat) returns (ptr: Addr, ghost i: nat)
      requires Valid() && size <= memSize
      ensures i < |l.blocks| && l.blocks[i] == ptr >= lfree
      ensures ptr < memSize - size ==> i < |l.blocks| - 1 && ptr !in l.used && SizeAt(l.blocks, i, HDR) >= size
      ensures ptr >= memSize - size ==> NoFit(l, lfree, memSize - size, size)
      ensures lfree in l.blocks && PassedOver(l, IndexOf(l.blocks, lfree), i, size)
    {
      hide LayoutOk, LinksOk, FlagsOk, UsedBytes;
      i := IndexOf(l.blocks, lfree);
      ghost var first := i;
      ptr := lfree;
      Inside(i, size);
      while ptr < memSize - size && !(!flags[ptr] && next[ptr] - (ptr + HDR) >= size)
        invariant first <= i < |l.blocks| && l.blocks[i] == ptr >= lfree
        invariant ptr in flags && ptr in next && (flags[ptr] <==> ptr in l.used)
        invariant i < |l.blocks| - 1 ==> next[ptr] == l.blocks[i + 1]
        invariant ptr < memSize - size ==> i < |l.blocks| - 1
        invariant PassedOver(l, first, i, size)
        decreases |l.blocks| - i
      {
        PlaceOf(l, End(), i);
        i := i + 1;
        ptr := next[ptr];
        PlaceOf(l, End(), i);
        Inside(i, size);
      }
      if ptr >= memSize - size {
        Missed(l, End(), first, i, lfree, memSize - size, size);
      }
    }

    // Steps of the search stay on known blocks.
    lemma Inside(i: nat, size: nat)
      requires Valid() && i < |l.blocks| && size <= memSize
      ensures l.blocks[i] in flags && l.blocks[i] in next && (flags[l.blocks[i]] <==> l.blocks[i] in l.used)
      ensures i < |l.blocks| - 1 ==> next[l.blocks[i]] == l.blocks[i + 1]
      ensures l.blocks[i] < memSize - size ==> i < |l.blocks| - 1
    {
      hide Aligned, Merged, Tiles, UsedBytes, FlagsOk;
      FlagAt(l, flags, i);
      Ends(l, End());
    }

    // after an allocation from the lowest free block: on to the next free one
    method NextLfree(ghost first: nat)
      requires Linked() && LayoutOk(l, 0, End(), HDR) && first < |l.blocks| && l.blocks[first] == lfree
      modifies this`lfree
      ensures SomeFree(l, lfree, End()) && forall a | a in l.blocks && old(lfree) <= a < lfree :: a in l.used
      ensures lfree >= old(lfree)
    {
      hide LinksOk, FlagsOk, LayoutOk;
      ghost var i := first;
      Ends(l, End());
      FlagAt(l, flags, i);
      while flags[lfree] && lfree != End()
        invariant first <= i < |l.blocks| && l.blocks[i] == lfree && lfree in flags && (flags[lfree] <==> lfree in l.used)
        invariant forall j | first <= j < i :: l.blocks[j] in l.used
        decreases |l.blocks| - i
      {
        EndIs(l, End(), i);
        LinkAt(l.blocks, next, prev, i);
        FlagAt(l, flags, i + 1);
        lfree := next[lfree];
        i := i + 1;
      }
      Between(l, End(), first, i);
      assert l.blocks[i] in l.blocks;
    }

    // rt_malloc
    method Malloc(size: nat) returns (p: Option<Addr>)
      requires Valid() && size < W32
      modifies this
      ensures Valid() && (old(Lowest()) ==> Lowest())
      ensures p == None <==> var n := AtLeastMini(Align(size));
        size == 0 || Align(size) > memSize || NoFit(old(l), old(lfree), memSize - n, n)
      ensures p == None ==> l == old(l) && lfree == old(lfree)
      ensures p.Some? ==> var n := AtLeastMini(Align(size)); var h := p.value - HDR;
        && h in old(l).blocks && h !in old(l).used && IndexOf(old(l).blocks, h) < |old(l).blocks| - 1
        && n <= SizeAt(old(l).blocks, IndexOf(old(l).blocks, h), HDR) && l == Allocated(old(l), IndexOf(old(l).blocks, h), n, HDR)
        && old(lfree) in old(l).blocks
        && PassedOver(old(l), IndexOf(old(l).blocks, old(lfree)), IndexOf(old(l).blocks, h), n)
      // in terms of the bytes asked for: the addition that rounds them wraps for the last three numbers
      ensures size + 3 < W32 ==>
        forall n: nat | Rounded(size, n) :: p == None <==> size == 0 || NoFit(old(l), old(lfree), memSize - n, n)
      ensures p.Some? ==> (GivesRoom(l, 0, End(), p.value, size, HDR) <==> size + 3 < W32)
      ensures p.Some? && size + 3 < W32 ==> forall n: nat | Rounded(size, n) :: Snug(old(l), l, p.value - HDR, n, HDR)
    {
      hide LayoutOk, LinksOk, FlagsOk, UsedBytes, Allocated, IndexOf, NoFit, Align, Rounded, GivesRoom, Snug;
      ghost var l0 := l;
      AlignIs(size);
      if size + 3 < W32 {
        AlignOnly(size);
      }
      if Align(size) > memSize {
        TooLong(l, lfree, End(), memSize, AtLeastMini(Align(size)));
      }
      p := None;
      if size != 0 {
        var n := Align(size);
        if n <= memSize {
          if n < MINI {
            n := MINI;
          }
          var ptr;
          ghost var i;
          ptr, i := Search(n);
          if ptr < memSize - n {
            IndexAt(l, End(), i);
            FitSeen(l, lfree, i, memSize - n, n);
            Take(ptr, n, i);
            TakenRoom(l0, l, End(), i, n, size);
            p := Some(ptr + HDR);
          }
        }
      }
    }

    // the block at ptr, block i, is taken
    method Take(ptr: Addr, size: nat, ghost i: nat)
      requires Valid() && i < |l.blocks| - 1 && l.blocks[i] == ptr && ptr !in l.used && ptr >= lfree
      requires 0 < size <= SizeAt(l.blocks, i, HDR) && size % 4 == 0
      modifies this
      ensures Valid() && l == Allocated(old(l), i, size, HDR) && (old(Lowest()) ==> Lowest())
    {
      hide LayoutOk, LinksOk, FlagsOk, UsedBytes, Allocated, SomeFree, LowestFree;
      ghost var l0, lfree0 := l, lfree;
      AllocatedOk(l, 0, End(), i, size, HDR);
      AllocatedUsed(l, End(), i, size);
      TakeLinks(ptr, size, i);
      if maxMem < usedMem {
        maxMem := usedMem;
      }
      TakenLowest(l0, l, End(), i, size, lfree);
      if ptr == lfree {
        NextLfree(i);
        TakenNext(l0, l, End(), i, size, lfree0, lfree);
      }
    }

    // a new free block at ptr2 within the block at ptr, block i
    method Split(ptr: Addr, ptr2: Addr, ghost i: nat)
      requires Linked() && i < |l.blocks| - 1 && l.blocks[i] == ptr && ptr2 !in l.blocks && ptr2 !in l.used && Distinct(l.blocks)
      requires l.blocks[i + 1] == End() <==> i + 1 == |l.blocks| - 1
      modifies this`next, this`prev, this`flags, this`l
      ensures Linked() && l == old(l).(blocks := InsertAt(old(l).blocks, i + 1, ptr2))
    {
      hide LinksOk, FlagsOk, Distinct, InsertAt;
      LinkAt(l.blocks, next, prev, i);
      LinksSplit(l.blocks, next, prev, i, ptr2);
      FlagsSplit(l, flags, i, ptr2);
      flags := flags[ptr2 := false];
      var n := next[ptr];
      next := next[ptr2 := n];
      prev := prev[ptr2 := ptr];
      next := next[ptr := ptr2];
      if n != End() {
        prev := prev[n := ptr2];
      }
      l := l.(blocks := InsertAt(l.blocks, i + 1, ptr2));
    }

    // the links, flags and count of an allocation
    method TakeLinks(ptr: Addr, size: nat, ghost i: nat)
      requires Linked() && LayoutOk(l, 0, End(), HDR) && i < |l.blocks| - 1 && l.blocks[i] == ptr && ptr !in l.used
      requires 0 < size <= SizeAt(l.blocks, i, HDR) && size % 4 == 0
      modifies this`next, this`prev, this`flags, this`l, this`usedMem
      ensures Linked() && l == Allocated(old(l), i, size, HDR)
      ensures usedMem == old(usedMem)
        + if SizeAt(old(l).blocks, i, HDR) >= size + HDR + MINI then size + HDR else old(l).blocks[i + 1] - old(l).blocks[i]
    {
      hide LayoutOk, LinksOk, FlagsOk, Distinct;
      LinkAt(l.blocks, next, prev, i);
      if next[ptr] - (ptr + HDR) >= size + HDR + MINI {
        var ptr2 := ptr + HDR + size;
        CutTiles(l, End(), i, size);
        LayoutDistinct(l, 0, End(), HDR);
        EndIs(l, End(), i + 1);
        Split(ptr, ptr2, i);
        usedMem := usedMem + (size + HDR);
      } else {
        usedMem := usedMem + (next[ptr] - ptr);
      }
      FlagsSet(l, flags, ptr);
      flags := flags[ptr := true];
      l := l.(used := l.used + {ptr});
    }

    // rt_free
    method Free(p: Option<Addr>)
      requires Valid() && (p.Some? ==> p.value - HDR in l.used && p.value - HDR != End())
      modifies this
      ensures Valid() && (old(Lowest()) ==> Lowest())
      ensures p == None ==> l == old(l)
      ensures p.Some? ==> var h := p.value - HDR;
        h in old(l).blocks && IndexOf(old(l).blocks, h) < |old(l).blocks| - 1 && l == Freed(old(l), IndexOf(old(l).blocks, h))
    {
      hide LayoutOk, LinksOk, FlagsOk, UsedBytes, Freed, IndexOf, SomeFree, LowestFree;
      if p == None {
        return;
      }
      var mem := p.value - HDR;
      ghost var l0, lfree0 := l, lfree;
      InUse(l, End(), mem);
      ghost var i := IndexOf(l.blocks, mem);
      FreedOk(l, 0, End(), i, HDR);
      FreedUsed(l, End(), i);
      PlaceOf(l, End(), i);
      LinkAt(l.blocks, next, prev, i);
      FlagsSet(l, flags, mem);
      LfreeKnown(l, lfree, End());
      flags := flags[mem := false];
      if mem < lfree {
        lfree := mem;
      }
      usedMem := usedMem - (next[mem] - mem);
      l := l.(used := l.used - {mem});
      PlugHoles(mem, i, l0);
      FreedLowest(l0, End(), i, lfree0);
    }

    // rt_realloc within the block: what is beyond `size` bytes becomes free
    method Shrink(ptr: Addr, size: nat, ghost i: nat)
      requires Valid() && i < |l.blocks| - 1 && l.blocks[i] == ptr && ptr in l.used
      requires size % 4 == 0 && size + HDR + MINI < SizeAt(l.blocks, i, HDR)
      modifies this
      ensures Valid() && l == Cut(old(l), i, size, HDR)
      ensures old(Lowest()) ==> (Lowest() <==> old(lfree) < ptr || old(l).blocks[i + 1] !in old(l).used)
    {
      hide LayoutOk, LinksOk, FlagsOk, UsedBytes, Cut, SomeFree, LowestFree;
      ghost var l0, lfree0 := l, lfree;
      CutOk(l, 0, End(), i, size, HDR);
      CutUsed(l, End(), i, size);
      LinkAt(l.blocks, next, prev, i);
      LfreeKnown(l, lfree, End());
      usedMem := usedMem - ((next[ptr] - ptr - HDR) - size);
      CutLinks(ptr, size, i);
      CutLowest(l0, End(), i, size, lfree0, lfree);
    }

    // the links and flags of a block cut down, and lfree
    method CutLinks(ptr: Addr, size: nat, ghost i: nat)
      requires Linked() && LayoutOk(l, 0, End(), HDR) && i < |l.blocks| - 1 && l.blocks[i] == ptr && ptr in l.used
      requires size % 4 == 0 && size + HDR <= SizeAt(l.blocks, i, HDR) && lfree in l.blocks
      modifies this`next, this`prev, this`flags, this`lfree, this`l
      ensures Linked() && l == Cut(old(l), i, size, HDR)
      ensures lfree == if old(l).blocks[i + 1] !in old(l).used && old(lfree) == old(l).blocks[i + 1] then ptr + HDR + size else old(lfree)
    {
      hide LayoutOk, LinksOk, FlagsOk, Cut, InsertAt, DropAt, Distinct;
      ghost var l0 := l;
      var ptr2 := ptr + HDR + size;
      CutTiles(l, End(), i, size);
      LayoutDistinct(l, 0, End(), HDR);
      EndIs(l, End(), i + 1);
      Ends(l, End());
      Split(ptr, ptr2, i);
      CutSteps(l0, l, End(), i, size, lfree);
      PlugForward(ptr2, i + 1);
      CutMiddle(l0, End(), i, size);
      CutMembers(l0, End(), i, size);
      PlugBackward(ptr2, i + 1);
    }

    // rt_realloc
    method Realloc(p: Option<Addr>, newsize: nat) returns (q: Option<Addr>)
      requires Valid() && newsize < W32 && (p.Some? ==> p.value - HDR in l.used && p.value - HDR != End())
      modifies this
      ensures Valid()
      ensures p.Some? ==> p.value - HDR in old(l).blocks && IndexOf(old(l).blocks, p.value - HDR) < |old(l).blocks| - 1
      ensures Align(newsize) > memSize ==> q == None && l == old(l)
      ensures Align(newsize) == 0 ==> q == None && l == if p == None then old(l) else Freed(old(l), IndexOf(old(l).blocks, p.value - HDR))
      ensures 0 < Align(newsize) <= memSize ==> Reallocated(old(l), old(lfree), memSize, p, Align(newsize), l, q)
      ensures old(Lowest()) ==> (Lowest() <==> !(0 < Align(newsize) <= memSize && p.Some? && LosesLowest(old(l), old(lfree), p.value - HDR, Align(newsize))))
      // in terms of the bytes asked for: the addition that rounds them wraps for the last three numbers
      ensures newsize + 3 < W32 ==> forall m: nat | RoundedUp(newsize, m) ::
        if m > memSize then q == None && l == old(l)
        else if m == 0 then q == None && l == if p == None then old(l) else Freed(old(l), IndexOf(old(l).blocks, p.value - HDR))
        else Reallocated(old(l), old(lfree), memSize, p, m, l, q)
      ensures newsize + 3 >= W32 ==>
        q == None && l == if p == None then old(l) else Freed(old(l), IndexOf(old(l).blocks, p.value - HDR))
      ensures q.Some? ==> GivesRoom(l, 0, End(), q.value, newsize, HDR)
    {
      hide LayoutOk, LinksOk, FlagsOk, UsedBytes, Allocated, Freed, Cut, IndexOf, NoFit, SomeFree, LowestFree, Relocated, Align,
        RoundedUp, GivesRoom, Rounded, Snug;
      AlignIs(newsize);
      if newsize + 3 < W32 {
        AlignIsUp(newsize);
        AlignAtLeast(newsize);
      }
      if p.Some? {
        InUse(l, End(), p.value - HDR);
      }
      var n := Align(newsize);
      if n > memSize {
        return None;
      }
      if n == 0 {
        Free(p);
        return None;
      }
      AlignAgain(newsize);
      if p == None {
        q := Malloc(n);
        if q.Some? {
          RoomLess(l, 0, End(), q.value, n, newsize, HDR);
        }
        return q;
      }
      ghost var l0, lfree0 := l, lfree;
      q := Resize(p.value - HDR, n);
      if q.Some? {
        ReallocatedGives(l0, lfree0, End(), memSize, p.value - HDR, n, l, q.value);
        RoomLess(l, 0, End(), q.value, n, newsize, HDR);
      }
    }

    // rt_realloc for a block in use and a size that is aligned and in range
    method Resize(ptr: Addr, size: nat) returns (q: Option<Addr>)
      requires Valid() && 0 < size <= memSize && size < W32 && size % 4 == 0 && ptr in l.used && ptr != End()
      requires ptr in l.blocks && IndexOf(l.blocks, ptr) < |l.blocks| - 1
      modifies this
      ensures Valid() && Reallocated(old(l), old(lfree), memSize, Some(ptr + HDR), size, l, q)
      ensures old(Lowest()) ==> (Lowest() <==> !LosesLowest(old(l), old(lfree), ptr, size))
    {
      hide LayoutOk, LinksOk, FlagsOk, UsedBytes, Allocated, Freed, Cut, IndexOf, NoFit, SomeFree, LowestFree, Relocated;
      ghost var i := IndexOf(l.blocks, ptr);
      LinkAt(l.blocks, next, prev, i);
      var was := next[ptr] - ptr - HDR;
      if was == size {
        return Some(ptr + HDR);
      }
      if size + HDR + MINI < was {
        Shrink(ptr, size, i);
        return Some(ptr + HDR);
      }
      q := Move(ptr, size);
    }

    // rt_realloc to another block
    method Move(ptr: Addr, size: nat) returns (q: Option<Addr>)
      requires Valid() && 0 < size <= memSize && size < W32 && size % 4 == 0 && ptr in l.used && ptr != End()
      modifies this
      ensures Valid() && (old(Lowest()) ==> Lowest())
      ensures Relocated(old(l), old(lfree), memSize, ptr, AtLeastMini(size), l, q)
    {
      hide LayoutOk, LinksOk, FlagsOk, UsedBytes, Allocated, Freed, IndexOf, NoFit, SomeFree, LowestFree;
      ghost var l0 := l;
      q := Malloc(size);
      if q.Some? {
        StillUsed(l0, IndexOf(l0.blocks, q.value - HDR), AtLeastMini(size), ptr);
        ghost var m := l;
        Free(Some(ptr + HDR));
        assert AllocatedAt(l0, q.value - HDR, AtLeastMini(size), m);
      }
    }
  }

  // A block longer than the heap does not fit.
  lemma TooLong(l: Layout, lfree: Addr, end: Addr, memSize: nat, n: nat)
    requires LayoutOk(l, 0, end, HDR) && n > memSize
    ensures NoFit(l, lfree, memSize - n, n)
  {
    hide Aligned, Merged;
    forall j | 0 <= j < |l.blocks| - 1
      ensures l.blocks[j] >= 0
    {
      BlockInPool(l.blocks, 0, end, j, HDR);
    }
  }

  lemma AlignAtLeast(size: nat)
    requires size + 3 < W32
    ensures Align(size) >= size && Align(size) + 3 < W32
  {
  }

  // What the block gives after it has been reallocated.
  lemma ReallocatedGives(l: Layout, lfree: Addr, end: Addr, memSize: nat, h: Addr, size: nat, l': Layout, q: Addr)
    requires LayoutOk(l, 0, end, HDR) && LayoutOk(l', 0, end, HDR) && h in l.used && h != end
    requires size % 4 == 0 && Reallocated(l, lfree, memSize, Some(h + HDR), size, l', Some(q))
    ensures GivesRoom(l', 0, end, q, size, HDR)
  {
    hide LayoutOk, GivesRoom, Allocated, Freed;
    var i := IndexOf(l.blocks, h);
    if size == SizeAt(l.blocks, i, HDR) {
      RoomOf(l, 0, end, i, size, HDR);
    } else if Shrinks(l, i, size) {
      assert l'.blocks[i] == h && l'.blocks[i + 1] == h + HDR + size;
      RoomOf(l', 0, end, i, size, HDR);
    } else {
      RelocatedGives(l, lfree, end, memSize, h, size, l', q);
    }
  }

  lemma RelocatedGives(l: Layout, lfree: Addr, end: Addr, memSize: nat, h: Addr, size: nat, l': Layout, q: Addr)
    requires LayoutOk(l, 0, end, HDR) && LayoutOk(l', 0, end, HDR) && h in l.used && h != end
    requires size % 4 == 0 && Relocated(l, lfree, memSize, h, AtLeastMini(size), l', Some(q))
    ensures GivesRoom(l', 0, end, q, size, HDR)
  {
    hide LayoutOk, GivesRoom, Freed;
    var n, g := AtLeastMini(size), q - HDR;
    var m :| AllocatedAt(l, g, n, m) && h in m.blocks && IndexOf(m.blocks, h) < |m.blocks| - 1
             && l' == Freed(m, IndexOf(m.blocks, h));
    var j, k := IndexOf(l.blocks, g), IndexOf(m.blocks, h);
    TakenPlace(l, j, n);
    AllocatedOk(l, 0, end, j, n, HDR);
    StillUsed(l, j, n, h);
    FreedKeeps(m, 0, end, k, HDR);
    assert g in m.used && g != h;
    var c := m.blocks[j + 1];
    assert m.blocks[j] == g;
    assert g in l'.used && Adjacent(l'.blocks, g, c);
    RoomBetween(l', 0, end, g, c, size, HDR);
  }

  lemma TakenPlace(l: Layout, j: nat, n: nat)
    requires j < |l.blocks| - 1 && n <= SizeAt(l.blocks, j, HDR)
    ensures var m := Allocated(l, j, n, HDR);
      j < |m.blocks| - 1 && m.blocks[j] == l.blocks[j] && m.blocks[j + 1] - m.blocks[j] - HDR >= n && l.blocks[j] in m.used
  {
  }

  // What the block just taken gives.
  lemma TakenRoom(l0: Layout, l: Layout, end: Addr, i: nat, n: nat, size: nat)
    requires LayoutOk(l0, 0, end, HDR) && LayoutOk(l, 0, end, HDR) && end < W32 - HDR
    requires i < |l0.blocks| - 1 && n <= SizeAt(l0.blocks, i, HDR) && l == Allocated(l0, i, n, HDR)
    requires size < W32 && (size + 3 < W32 ==> Rounded(size, n))
    ensures Snug(l0, l, l0.blocks[i], n, HDR)
    ensures GivesRoom(l, 0, end, l0.blocks[i] + HDR, size, HDR) <==> size + 3 < W32
  {
    hide LayoutOk, GivesRoom;
    AllocatedRoom(l0, 0, end, i, n, size, HDR);
  }

  predicate Shrinks(l: Layout, i: nat, size: nat)
    requires i < |l.blocks| - 1
  {
    size + HDR + MINI < SizeAt(l.blocks, i, HDR)
  }

  /** The one case in which a free block appears below lfree: a block is cut down while no lower block is free and the
      next one is in use. */
  ghost predicate LosesLowest(l: Layout, lfree: Addr, h: Addr, size: nat) {
    && h in l.blocks && IndexOf(l.blocks, h) < |l.blocks| - 1
    && var i := IndexOf(l.blocks, h);
       Shrinks(l, i, size) && !(lfree < h) && l.blocks[i + 1] in l.used
  }

  /** A heap of 100 bytes, all of it one block in use: cut down to 12 bytes, it has a free block that lfree does not lead to. */
  lemma LosesLowestOnce()
    ensures var l := Layout([0, 112], {0, 112});
      LowestFree(l, 112, 112) && LosesLowest(l, 112, 0, 12) && SomeFree(Cut(l, 0, 12, HDR), 112, 112) && !LowestFree(Cut(l, 0, 12, HDR), 112, 112)
  {
    var l := Layout([0, 112], {0, 112});
    assert l.blocks[0] == 0 && l.blocks[1] == 112;
    var m := Cut(l, 0, 12, HDR);
    assert m.blocks == [0, 24, 112];
    assert m.blocks[1] == 24 && m.blocks[2] == 112;
    var a: Addr := 24;
    assert a in m.blocks && a < 112 && a !in m.used;
  }

  /** What rt_realloc does for a size in range: allocate, keep, cut down, or move the block. */
  ghost predicate Reallocated(l: Layout, lfree: Addr, memSize: nat, p: Option<Addr>, size: nat, l': Layout, q: Option<Addr>) {
    var n := AtLeastMini(size);
    if p == None then
      && (q == None <==> NoFit(l, lfree, memSize - n, n)) && (q == None ==> l' == l)
      && (q.Some? ==> AllocatedAt(l, q.value - HDR, n, l'))
    else
      var h := p.value - HDR;
      && h in l.blocks && IndexOf(l.blocks, h) < |l.blocks| - 1
      && var i := IndexOf(l.blocks, h);
         if size == SizeAt(l.blocks, i, HDR) then q == p && l' == l
         else if Shrinks(l, i, size) then q == p && l' == Cut(l, i, size, HDR)
         else Relocated(l, lfree, memSize, h, n, l', q)
  }

  // A block is allocated and then the block at h is freed, or there is no room and nothing changes.
  ghost predicate Relocated(l: Layout, lfree: Addr, memSize: nat, h: Addr, n: nat, l': Layout, q: Option<Addr>) {
    && (q == None <==> NoFit(l, lfree, memSize - n, n)) && (q == None ==> l' == l)
    && (q.Some? ==> exists m :: AllocatedAt(l, q.value - HDR, n, m) && h in m.blocks && IndexOf(m.blocks, h) < |m.blocks| - 1
                                && l' == Freed(m, IndexOf(m.blocks, h)))
  }

  // A free block at h, long enough, has been taken.
  ghost predicate AllocatedAt(l: Layout, h: Addr, n: nat, l': Layout) {
    && h in l.blocks && h !in l.used && IndexOf(l.blocks, h) < |l.blocks| - 1
    && var j := IndexOf(l.blocks, h); n <= SizeAt(l.blocks, j, HDR) && l' == Allocated(l, j, n, HDR)
  }

  lemma AlignAgain(size: nat)
    ensures Align(Align(size)) == Align(size)
  {
  }

  lemma StillUsed(l: Layout, i: nat, size: nat, h: Addr)
    requires i < |l.blocks| - 1 && h in l.used
    ensures h in Allocated(l, i, size, HDR).used
  {
  }

  /** No free block from lfree on that starts below `bound` is as long as that. */
  ghost predicate NoFit(l: Layout, lfree: Addr, bound: int, size: nat) {
    forall j | 0 <= j < |l.blocks| - 1 && lfree <= l.blocks[j] < bound :: l.blocks[j] in l.used || SizeAt(l.blocks, j, HDR) < size
  }

  /** The blocks from first up to i are in use or too short. */
  ghost predicate PassedOver(l: Layout, first: nat, i: nat, size: nat) {
    forall j | first <= j < i :: j < |l.blocks| - 1 && (l.blocks[j] in l.used || SizeAt(l.blocks, j, HDR) < size)
  }

  /** As long as lfree is the lowest free block, the search misses none that starts below its bound. */
  lemma MissesNone(l: Layout, lfree: Addr, end: Addr, bound: int, size: nat)
    requires LowestFree(l, lfree, end)
    ensures NoFit(l, lfree, bound, size) <==>
      forall j | 0 <= j < |l.blocks| - 1 && l.blocks[j] < bound :: l.blocks[j] in l.used || SizeAt(l.blocks, j, HDR) < size
  {
    forall j | 0 <= j < |l.blocks| - 1 && l.blocks[j] < lfree
      ensures l.blocks[j] in l.used
    {
      var a: Addr := l.blocks[j];
      assert a in l.blocks;
    }
  }

  // lfree after block i has been freed and joined to its neighbours.
  function LfreeAfter(l: Layout, i: nat, lfree: Addr): Addr
    requires i < |l.blocks| - 1
  {
    var f := if l.blocks[i + 1] !in l.used && lfree == l.blocks[i + 1] then l.blocks[i] else lfree;
    if i > 0 && l.blocks[i - 1] !in l.used && f == l.blocks[i] then l.blocks[i - 1] else f
  }

  lemma PlugFacts(l: Layout, end: Addr, i: nat, lfree: Addr)
    requires LayoutOk(l, 0, end, HDR) && i < |l.blocks| - 1 && l.blocks[i] in l.used && lfree in l.blocks
    ensures var b, used := l.blocks, l.used - {l.blocks[i]};
      var b' := if b[i + 1] !in used then DropAt(b, i + 1) else b;
      && b[|b| - 1] in used && (b[i + 1] !in used <==> b[i + 1] !in l.used) && (i > 0 ==> (b[i - 1] !in used <==> b[i - 1] !in l.used))
      && i < |b'| - 1 && b'[i] == b[i] && (i > 0 ==> b'[i - 1] == b[i - 1]) && Distinct(b')
      && (lfree in b' || (lfree == b[i + 1] && b[i + 1] !in used)) && b[i] in b'
  {
    hide LayoutOk, Distinct, DropAt, Freed;
    var b, used := l.blocks, l.used - {l.blocks[i]};
    FreedFacts(l, 0, end, i, HDR);
    LayoutDistinct(l, 0, end, HDR);
    if b[i + 1] !in used {
      FreeNext(l, 0, end, i, HDR);
      DropNext(l, end, i);
    }
  }

  lemma DropNext(l: Layout, end: Addr, i: nat)
    requires LayoutOk(l, 0, end, HDR) && i + 1 < |l.blocks| - 1
    ensures var b, r := l.blocks, DropAt(l.blocks, i + 1);
      Distinct(r) && |r| == |b| - 1 && r[i] == b[i] && b[i] in r && (i > 0 ==> r[i - 1] == b[i - 1]) && forall a | a in b :: a in r || a == b[i + 1]
  {
    hide Aligned, Merged, Distinct;
    var b := l.blocks;
    DropTiles(b, 0, end, i + 1, HDR);
    TilesDistinct(DropAt(b, i + 1), 0, end, HDR);
    TilesDistinct(b, 0, end, HDR);
    hide Tiles, DropAt;
    DropMembers(b, i + 1);
    DropIndex(b, i + 1, i);
    if i > 0 {
      DropIndex(b, i + 1, i - 1);
    }
  }

  lemma PlugFreed(l: Layout, end: Addr, i: nat)
    requires LayoutOk(l, 0, end, HDR) && i < |l.blocks| - 1 && l.blocks[i] in l.used
    ensures var b, used := l.blocks, l.used - {l.blocks[i]};
      var b' := if b[i + 1] !in used then DropAt(b, i + 1) else b;
      i < |b'| && Freed(l, i) == Layout(if i > 0 && b[i - 1] !in used then DropAt(b', i) else b', used)
  {
    hide LayoutOk;
    FreedFacts(l, 0, end, i, HDR);
  }

  lemma PlaceOf(l: Layout, end: Addr, i: nat)
    requires LayoutOk(l, 0, end, HDR) && i < |l.blocks|
    ensures i < |l.blocks| - 1 ==> l.blocks[i] < l.blocks[i + 1] <= end
    ensures i == |l.blocks| - 1 ==> l.blocks[i] == end
  {
    hide Aligned, Merged;
    if i + 1 < |l.blocks| - 1 {
      TilesAscend(l.blocks, 0, end, i + 1, |l.blocks| - 1, HDR);
    }
  }

  lemma Missed(l: Layout, end: Addr, first: nat, i: nat, lfree: Addr, bound: int, size: nat)
    requires LayoutOk(l, 0, end, HDR) && first <= i < |l.blocks| && l.blocks[first] == lfree && l.blocks[i] >= bound
    requires forall j | first <= j < i :: j < |l.blocks| - 1 && (l.blocks[j] in l.used || SizeAt(l.blocks, j, HDR) < size)
    ensures NoFit(l, lfree, bound, size)
  {
    hide Aligned, Merged;
    forall j | 0 <= j < |l.blocks| - 1 && lfree <= l.blocks[j] < bound
      ensures first <= j < i
    {
      if j < first {
        TilesAscend(l.blocks, 0, end, j, first, HDR);
      }
      if i < j {
        TilesAscend(l.blocks, 0, end, i, j, HDR);
      }
    }
  }

  lemma FitSeen(l: Layout, lfree: Addr, i: nat, bound: int, size: nat)
    requires i < |l.blocks| - 1 && lfree <= l.blocks[i] < bound && l.blocks[i] !in l.used && SizeAt(l.blocks, i, HDR) >= size
    ensures !NoFit(l, lfree, bound, size)
  {
  }

  lemma IndexAt(l: Layout, end: Addr, i: nat)
    requires LayoutOk(l, 0, end, HDR) && i < |l.blocks|
    ensures l.blocks[i] in l.blocks && IndexOf(l.blocks, l.blocks[i]) == i
  {
    hide Aligned, Merged;
    TilesDistinct(l.blocks, 0, end, HDR);
  }

  lemma EndIs(l: Layout, end: Addr, k: nat)
    requires LayoutOk(l, 0, end, HDR) && k < |l.blocks|
    ensures l.blocks[k] == end <==> k == |l.blocks| - 1
  {
    hide Aligned, Merged;
    if k < |l.blocks| - 1 {
      TilesAscend(l.blocks, 0, end, k, |l.blocks| - 1, HDR);
    }
  }

  lemma Between(l: Layout, end: Addr, first: nat, i: nat)
    requires LayoutOk(l, 0, end, HDR) && first <= i < |l.blocks| && forall j | first <= j < i :: l.blocks[j] in l.used
    ensures l.blocks[first] <= l.blocks[i]
    ensures forall a | a in l.blocks && l.blocks[first] <= a < l.blocks[i] :: a in l.used
  {
    hide Aligned, Merged;
    if first < i {
      TilesAscend(l.blocks, 0, end, first, i, HDR);
    }
    forall a | a in l.blocks && l.blocks[first] <= a < l.blocks[i]
      ensures a in l.used
    {
      var j :| 0 <= j < |l.blocks| && l.blocks[j] == a;
      if j < first {
        TilesAscend(l.blocks, 0, end, j, first, HDR);
      }
      if i < j {
        TilesAscend(l.blocks, 0, end, i, j, HDR);
      }
    }
  }

  lemma InUse(l: Layout, end: Addr, h: Addr)
    requires LayoutOk(l, 0, end, HDR) && h in l.used && h != end
    ensures h in l.blocks && IndexOf(l.blocks, h) < |l.blocks| - 1
  {
    hide Aligned, Merged;
    EndIs(l, end, IndexOf(l.blocks, h));
  }

  lemma LfreeKnown(l: Layout, lfree: Addr, end: Addr)
    requires SomeFree(l, lfree, end)
    ensures lfree in l.blocks
  {
  }

  // The order of blocks by place and by address is the same.
  lemma Order(l: Layout, end: Addr, i: nat, a: Addr)
    requires LayoutOk(l, 0, end, HDR) && i < |l.blocks| - 1 && a in l.blocks
    ensures a < l.blocks[i] || a == l.blocks[i] || l.blocks[i + 1] <= a
    ensures l.blocks[i] + HDR <= l.blocks[i + 1]
    ensures i > 0 && a < l.blocks[i] ==> a <= l.blocks[i - 1]
    ensures a <= end && (i > 0 ==> l.blocks[i - 1] + HDR <= l.blocks[i])
  {
    hide Aligned, Merged;
    var b := l.blocks;
    var j :| 0 <= j < |b| && b[j] == a;
    if j > i + 1 {
      TilesAscend(b, 0, end, i + 1, j, HDR);
    }
    if j < i {
      TilesAscend(b, 0, end, j, i, HDR);
      if j < i - 1 {
        TilesAscend(b, 0, end, j, i - 1, HDR);
      }
    }
    if j < |b| - 1 {
      TilesAscend(b, 0, end, j, |b| - 1, HDR);
    }
  }

  lemma TakenLowest(l: Layout, m: Layout, end: Addr, i: nat, size: nat, lfree: Addr)
    requires LayoutOk(l, 0, end, HDR) && i < |l.blocks| - 1 && l.blocks[i] !in l.used && lfree <= l.blocks[i]
    requires 0 < size <= SizeAt(l.blocks, i, HDR) && m == Allocated(l, i, size, HDR) && SomeFree(l, lfree, end)
    ensures i < |m.blocks| && m.blocks[i] == l.blocks[i]
    ensures lfree != l.blocks[i] ==> SomeFree(m, lfree, end) && (LowestFree(l, lfree, end) ==> LowestFree(m, lfree, end))
  {
    hide LayoutOk, InsertAt;
    if SizeAt(l.blocks, i, HDR) >= size + HDR + MINI {
      InsertMembers(l.blocks, i + 1, l.blocks[i] + HDR + size);
      InsertedFirst(l.blocks, i, l.blocks[i] + HDR + size);
    }
  }

  lemma TakenNext(l: Layout, m: Layout, end: Addr, i: nat, size: nat, lfree: Addr, lfree': Addr)
    requires LayoutOk(l, 0, end, HDR) && i < |l.blocks| - 1 && lfree == l.blocks[i] && m == Allocated(l, i, size, HDR)
    requires SomeFree(m, lfree', end) && forall a | a in m.blocks && lfree <= a < lfree' :: a in m.used
    ensures LowestFree(l, lfree, end) ==> LowestFree(m, lfree', end)
  {
    hide LayoutOk, InsertAt;
    if SizeAt(l.blocks, i, HDR) >= size + HDR + MINI {
      InsertMembers(l.blocks, i + 1, l.blocks[i] + HDR + size);
    }
    if LowestFree(l, lfree, end) {
      forall a | a in m.blocks && a < lfree'
        ensures a in m.used
      {
        assert a < lfree ==> a in l.blocks;
      }
    }
  }

  lemma FreedLowest(l: Layout, end: Addr, i: nat, lfree: Addr)
    requires LayoutOk(l, 0, end, HDR) && i < |l.blocks| - 1 && l.blocks[i] in l.used && SomeFree(l, lfree, end)
    ensures var f := LfreeAfter(l, i, if l.blocks[i] < lfree then l.blocks[i] else lfree);
            SomeFree(Freed(l, i), f, end) && (LowestFree(l, lfree, end) ==> LowestFree(Freed(l, i), f, end))
  {
    hide LayoutOk, Freed;
    var b := l.blocks;
    FreedMembers(l, 0, end, i, HDR);
    EndIs(l, end, i);
    Order(l, end, i, lfree);
    assert b[i] in b && b[i + 1] in b && (i > 0 ==> b[i - 1] in b);
  }

  lemma CutSteps(l: Layout, m: Layout, end: Addr, i: nat, size: nat, lfree: Addr)
    requires LayoutOk(l, 0, end, HDR) && i < |l.blocks| - 1 && size + HDR <= SizeAt(l.blocks, i, HDR) && lfree in l.blocks
    requires m == l.(blocks := InsertAt(l.blocks, i + 1, l.blocks[i] + HDR + size))
    ensures i + 1 < |m.blocks| - 1 && m.blocks[i + 1] == l.blocks[i] + HDR + size && m.blocks[i + 2] == l.blocks[i + 1]
    ensures m.blocks[i] == l.blocks[i] && m.blocks[|m.blocks| - 1] in m.used && Distinct(m.blocks) && lfree in m.blocks
  {
    hide Aligned, Merged, Distinct, InsertAt;
    CutTiles(l, end, i, size);
    TilesDistinct(m.blocks, 0, end, HDR);
    InsertedAfter(l.blocks, i, l.blocks[i] + HDR + size);
    InsertMembers(l.blocks, i + 1, l.blocks[i] + HDR + size);
  }

  lemma CutMiddle(l: Layout, end: Addr, i: nat, size: nat)
    requires LayoutOk(l, 0, end, HDR) && i < |l.blocks| - 1 && size + HDR <= SizeAt(l.blocks, i, HDR) && size % 4 == 0
    requires l.blocks[i] in l.used
    ensures var b, x, m := l.blocks, l.blocks[i] + HDR + size, Cut(l, i, size, HDR);
      && m == l.(blocks := if b[i + 1] in l.used then InsertAt(b, i + 1, x) else DropAt(InsertAt(b, i + 1, x), i + 2))
      && i + 1 < |m.blocks| - 1 && m.blocks[i] == b[i] && m.blocks[i + 1] == x && Distinct(m.blocks)
  {
    hide LayoutOk, Distinct, InsertAt, DropAt;
    var b, x := l.blocks, l.blocks[i] + HDR + size;
    CutOk(l, 0, end, i, size, HDR);
    LayoutDistinct(Cut(l, i, size, HDR), 0, end, HDR);
    InsertedAfter(b, i, x);
    if b[i + 1] !in l.used {
      FreeNext(l, 0, end, i, HDR);
    }
  }

  lemma CutMembers(l: Layout, end: Addr, i: nat, size: nat)
    requires LayoutOk(l, 0, end, HDR) && i < |l.blocks| - 1 && size + HDR <= SizeAt(l.blocks, i, HDR) && size % 4 == 0
    requires l.blocks[i] in l.used
    ensures var b, x, m := l.blocks, l.blocks[i] + HDR + size, Cut(l, i, size, HDR);
            m.used == l.used && forall a :: a in m.blocks <==> a == x || (a in b && (a != b[i + 1] || a in l.used))
  {
    hide LayoutOk, Distinct, InsertAt, DropAt, Cut, Tiles;
    var b, x := l.blocks, l.blocks[i] + HDR + size;
    CutMiddle(l, end, i, size);
    CutTiles(l, end, i, size);
    InsertedAfter(b, i, x);
    InsertMembers(b, i + 1, x);
    if b[i + 1] !in l.used {
      TilesDistinct(InsertAt(b, i + 1, x), 0, end, HDR);
      DropMembers(InsertAt(b, i + 1, x), i + 2);
    }
  }

  lemma CutLowest(l: Layout, end: Addr, i: nat, size: nat, lfree: Addr, lfree': Addr)
    requires LayoutOk(l, 0, end, HDR) && i < |l.blocks| - 1 && l.blocks[i] in l.used && SomeFree(l, lfree, end)
    requires size + HDR <= SizeAt(l.blocks, i, HDR) && size % 4 == 0
    requires lfree' == if l.blocks[i + 1] !in l.used && lfree == l.blocks[i + 1] then l.blocks[i] + HDR + size else lfree
    ensures var m := Cut(l, i, size, HDR);
      && SomeFree(m, lfree', end)
      && (LowestFree(l, lfree, end) ==> (LowestFree(m, lfree', end) <==> lfree < l.blocks[i] || l.blocks[i + 1] !in l.used))
  {
    hide LayoutOk, Cut;
    var b, x, m := l.blocks, l.blocks[i] + HDR + size, Cut(l, i, size, HDR);
    CutMembers(l, end, i, size);
    CutTiles(l, end, i, size);
    EndIs(l, end, i);
    Order(l, end, i, lfree);
    assert b[i] in b && b[i + 1] in b;
    assert m.used == l.used && x in m.blocks;
    forall a | a in b
      ensures a < b[i] || a == b[i] || b[i + 1] <= a
    {
      Order(l, end, i, a);
    }
  }
}
