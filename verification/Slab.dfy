/** Zones of equal chunks: which sizes share a zone, and the bookkeeping of one zone. */
module Zones {
  import opened Lists

  type Addr = int

  const NZONES := 72

  // (n + m - 1) & ~(m - 1)
  function RoundUp(n: nat, m: nat): (r: nat)
    requires m > 0
  {
    (n + m - 1) / m * m
  }

  /** zoneindex: the zone for a request of n bytes, and the chunk size of that zone. */
  function ZoneIndex(n: nat): (r: (nat, nat)) {
    if n < 128 then var b := RoundUp(n, 8); (if b / 8 >= 1 then b / 8 - 1 else 0, b)
    else if n < 256 then var b := RoundUp(n, 16); (b / 16 + 7, b)
    else if n < 512 then var b := RoundUp(n, 32); (b / 32 + 15, b)
    else if n < 1024 then var b := RoundUp(n, 64); (b / 64 + 23, b)
    else if n < 2048 then var b := RoundUp(n, 128); (b / 128 + 31, b)
    else if n < 4096 then var b := RoundUp(n, 256); (b / 256 + 39, b)
    else if n < 8192 then var b := RoundUp(n, 512); (b / 512 + 47, b)
    else if n < 16384 then var b := RoundUp(n, 1024); (b / 1024 + 55, b)
    else (0, n)
  }

  /** The chunk size that belongs to an index. */
  function ChunkSize(zi: nat): nat {
    if zi < 16 then (zi + 1) * 8
    else if zi < 24 then (zi - 7) * 16
    else if zi < 32 then (zi - 15) * 32
    else if zi < 40 then (zi - 23) * 64
    else if zi < 48 then (zi - 31) * 128
    else if zi < 56 then (zi - 39) * 256
    else if zi < 64 then (zi - 47) * 512
    else (zi - 55) * 1024
  }

  /** Requests of every size below 16 KB get an index in range, whose chunk size is what zoneindex writes back;
      the chunk is long enough, and no smaller index has one that is. */
  lemma ZoneIndexFits(n: nat)
    requires 0 < n < 16384
    ensures var (zi, bytes) := ZoneIndex(n);
      && zi < NZONES && bytes == ChunkSize(zi) && n <= bytes && bytes % 8 == 0
      && (forall j | 0 <= j < zi :: ChunkSize(j) < n)
  {
    hide RoundUp, ZoneIndex;
    var (zi, bytes) := ZoneIndex(n);
    Rounded(n);
    if zi > 0 {
      forall j | 0 <= j < zi
        ensures ChunkSize(j) < n
      {
        ChunkSizeGrows(j, zi - 1);
      }
    }
  }

  /** A chunk is less than 8 bytes longer than the request, or less than an eighth of it. */
  lemma ChunkWaste(n: nat)
    requires 0 < n < 16384
    ensures var waste := ZoneIndex(n).1 - n; if n < 128 then waste < 8 else 8 * waste < n
  {
  }

  lemma ChunkSizeGrows(i: nat, j: nat)
    requires i <= j < NZONES
    ensures ChunkSize(i) <= ChunkSize(j)
  {
  }

  lemma Multiple(a: int, m: nat)
    requires a >= 1
    ensures a * m >= m
  {
  }

  lemma Rounded(n: nat)
    requires 0 < n < 16384
    ensures Fits(n, ZoneIndex(n).0, ZoneIndex(n).1)
  {
    hide RoundUp, ChunkSize, Fits;
    if n < 128 {
      Band8(n);
    } else if n < 256 {
      Band16(n);
    } else if n < 512 {
      Band32(n);
    } else if n < 1024 {
      Band64(n);
    } else if n < 2048 {
      Band128(n);
    } else if n < 4096 {
      Band256(n);
    } else if n < 8192 {
      Band512(n);
    } else {
      Band1024(n);
    }
  }

  ghost predicate Fits(n: nat, zi: int, bytes: nat) {
    0 <= zi < NZONES && bytes == ChunkSize(zi) && n <= bytes && bytes % 8 == 0 && (zi > 0 ==> ChunkSize(zi - 1) < n)
  }

  lemma Band8(n: nat)
    requires 0 < n < 128
    ensures Fits(n, RoundUp(n, 8) / 8 - 1, RoundUp(n, 8))
  {
  }

  lemma Band16(n: nat)
    requires 128 <= n < 256
    ensures Fits(n, RoundUp(n, 16) / 16 + 7, RoundUp(n, 16))
  {
  }

  lemma Band32(n: nat)
    requires 256 <= n < 512
    ensures Fits(n, RoundUp(n, 32) / 32 + 15, RoundUp(n, 32))
  {
  }

  lemma Band64(n: nat)
    requires 512 <= n < 1024
    ensures Fits(n, RoundUp(n, 64) / 64 + 23, RoundUp(n, 64))
  {
  }

  lemma Band128(n: nat)
    requires 1024 <= n < 2048
    ensures Fits(n, RoundUp(n, 128) / 128 + 31, RoundUp(n, 128))
  {
  }

  lemma Band256(n: nat)
    requires 2048 <= n < 4096
    ensures Fits(n, RoundUp(n, 256) / 256 + 39, RoundUp(n, 256))
  {
  }

  lemma Band512(n: nat)
    requires 4096 <= n < 8192
    ensures Fits(n, RoundUp(n, 512) / 512 + 47, RoundUp(n, 512))
  {
  }

  lemma Band1024(n: nat)
    requires 8192 <= n < 16384
    ensures Fits(n, RoundUp(n, 1024) / 1024 + 55, RoundUp(n, 1024))
  {
  }

  // --- one zone ---

  /** struct slab_zone, with the list of free chunks behind z_freechunk. */
  datatype Zone = Zone(nfree: nat, nmax: nat, base: Addr, uindex: nat, chunkSize: nat, zoneIndex: nat, free: seq<Addr>)

  function ChunkAt(z: Zone, i: nat): Addr {
    z.base + i * z.chunkSize
  }

  /** The first n chunks of a zone. */
  ghost function Chunks(z: Zone, n: nat): set<Addr> {
    if n == 0 then {} else Chunks(z, n - 1) + {ChunkAt(z, n - 1)}
  }

  ghost function Elements(s: seq<Addr>): set<Addr> {
    set c | c in s
  }

  /** The chunks handed out so far are those in use and those on the free list, each once;
      z_nfree counts the latter and the chunks never handed out. */
  ghost predicate ZoneOk(z: Zone, live: set<Addr>) {
    && z.uindex < z.nmax && z.chunkSize == ChunkSize(z.zoneIndex) && z.zoneIndex < NZONES
    && Distinct(z.free) && live !! Elements(z.free) && live + Elements(z.free) == Chunks(z, z.uindex + 1)
    && z.nfree == z.nmax - 1 - z.uindex + |z.free|
  }

  lemma {:induction false} ChunkMember(z: Zone, n: nat, c: Addr)
    ensures c in Chunks(z, n) <==> exists i :: 0 <= i < n && ChunkAt(z, i) == c
  {
    if n > 0 {
      ChunkMember(z, n - 1, c);
      if c in Chunks(z, n) {
        if c != ChunkAt(z, n - 1) {
          var i :| 0 <= i < n - 1 && ChunkAt(z, i) == c;
        }
      }
      if i :| 0 <= i < n && ChunkAt(z, i) == c {
        assert i == n - 1 || (0 <= i < n - 1 && ChunkAt(z, i) == c);
      }
    }
  }

  lemma ChunkOrder(z: Zone, i: nat, j: nat)
    requires i < j
    ensures ChunkAt(z, i) + z.chunkSize <= ChunkAt(z, j)
  {
    MulOrder(i, j, z.chunkSize);
  }

  lemma MulOrder(i: nat, j: nat, s: nat)
    requires i < j
    ensures i * s + s <= j * s
  {
    assert j * s == i * s + (j - i) * s;
    Multiple(j - i, s);
  }

  lemma NewChunk(z: Zone, n: nat)
    requires z.chunkSize > 0
    ensures ChunkAt(z, n) !in Chunks(z, n)
  {
    ChunkMember(z, n, ChunkAt(z, n));
    forall i | 0 <= i < n
      ensures ChunkAt(z, i) != ChunkAt(z, n)
    {
      ChunkOrder(z, i, n);
    }
  }

  lemma {:induction false} ChunkCount(z: Zone, n: nat)
    requires z.chunkSize > 0
    ensures |Chunks(z, n)| == n
  {
    if n > 0 {
      ChunkCount(z, n - 1);
      NewChunk(z, n - 1);
    }
  }

  lemma {:induction false} DistinctCount(s: seq<Addr>)
    requires Distinct(s)
    ensures |Elements(s)| == |s|
  {
    if s != [] {
      DistinctTail(s);
      DistinctCount(s[1..]);
      assert Elements(s) == {s[0]} + Elements(s[1..]);
    }
  }

  lemma {:induction false} SameChunks(z: Zone, z': Zone, n: nat)
    requires z'.base == z.base && z'.chunkSize == z.chunkSize
    ensures Chunks(z', n) == Chunks(z, n)
  {
    if n > 0 {
      SameChunks(z, z', n - 1);
    }
  }

  lemma SizePositive(zi: nat)
    requires zi < NZONES
    ensures ChunkSize(zi) >= 8
  {
  }

  /** z_nfree is what is not in use; a zone all of whose chunks are free is idle. */
  lemma FreeCount(z: Zone, live: set<Addr>)
    requires ZoneOk(z, live)
    ensures z.nfree + |live| == z.nmax && (z.nfree == z.nmax <==> live == {})
  {
    hide ChunkSize;
    SizePositive(z.zoneIndex);
    ChunkCount(z, z.uindex + 1);
    DistinctCount(z.free);
    assert |live + Elements(z.free)| == |live| + |Elements(z.free)|;
  }

  // The chunk that rt_malloc takes from a zone: a new one as long as there is any, and then the head of the free list.
  function TakenChunk(z: Zone): Addr {
    if z.uindex + 1 != z.nmax || z.free == [] then ChunkAt(z, z.uindex + 1) else z.free[0]
  }

  function AfterTake(z: Zone): Zone {
    var left := if z.nfree > 0 then z.nfree - 1 else 0;
    if z.uindex + 1 != z.nmax then z.(nfree := left, uindex := z.uindex + 1)
    else z.(nfree := left, free := if z.free == [] then [] else z.free[1..])
  }

  lemma TakeOk(z: Zone, live: set<Addr>)
    requires ZoneOk(z, live) && z.nfree > 0
    ensures var p := TakenChunk(z);
      p !in live && ZoneOk(AfterTake(z), live + {p}) && p in Chunks(z, z.nmax) && (z.uindex + 1 == z.nmax ==> z.free != [])
  {
    hide ChunkSize;
    SizePositive(z.zoneIndex);
    ChunkMember(z, z.nmax, TakenChunk(z));
    SameChunks(z, AfterTake(z), z.uindex + 1);
    SameChunks(z, AfterTake(z), z.uindex + 2);
    if z.uindex + 1 != z.nmax {
      NewChunk(z, z.uindex + 1);
      assert ChunkAt(z, z.uindex + 1) == TakenChunk(z);
    } else {
      TakeRecycled(z, live);
    }
  }

  lemma TakeRecycled(z: Zone, live: set<Addr>)
    requires ZoneOk(z, live) && z.nfree > 0 && z.uindex + 1 == z.nmax
    ensures z.free != [] && z.free[0] !in live && ZoneOk(z.(nfree := z.nfree - 1, free := z.free[1..]), live + {z.free[0]})
    ensures z.free[0] in Chunks(z, z.nmax)
  {
    hide ChunkSize;
    var z' := z.(nfree := z.nfree - 1, free := z.free[1..]);
    SizePositive(z.zoneIndex);
    SameChunks(z, z', z.uindex + 1);
    DistinctTail(z.free);
    assert Elements(z.free) == {z.free[0]} + Elements(z.free[1..]);
    assert z.free[0] in Chunks(z, z.uindex + 1);
  }

  lemma GiveOk(z: Zone, live: set<Addr>, p: Addr)
    requires ZoneOk(z, live) && p in live
    ensures ZoneOk(z.(nfree := z.nfree + 1, free := [p] + z.free), live - {p})
  {
    hide ChunkSize;
    var z' := z.(nfree := z.nfree + 1, free := [p] + z.free);
    SameChunks(z, z', z.uindex + 1);
    DistinctConcat([p], z.free);
    assert Elements([p] + z.free) == {p} + Elements(z.free);
  }

  lemma FreshOk(z: Zone)
    requires z.uindex == 0 && z.free == [] && z.nmax > 0 && z.nfree == z.nmax - 1 && z.zoneIndex < NZONES
    requires z.chunkSize == ChunkSize(z.zoneIndex)
    ensures ZoneOk(z, {ChunkAt(z, 0)})
  {
    assert Chunks(z, 1) == Chunks(z, 0) + {ChunkAt(z, 0)};
    assert Elements(z.free) == {};
  }

  // (size | (size - 1)) + 1 == (size << 1)
  predicate PowerOfTwo(n: nat) {
    n == 8 || n == 16 || n == 32 || n == 64 || n == 128 || n == 256 || n == 512 || n == 1024 || n == 2048 || n == 4096
    || n == 8192 || n == 16384
  }

  const HEADER := 36                     // sizeof(slab_zone)

  /** Where the chunks of a zone begin: chunks of a power of 2 are aligned to their size, others to 8. */
  function ChunkOffset(size: nat): nat
    requires size > 0
  {
    RoundUp(HEADER, if PowerOfTwo(size) then size else 8)
  }

  lemma RoundUpBound(n: nat, m: nat)
    requires m > 0
    ensures n <= RoundUp(n, m) < n + m
  {
    var x := n + m - 1;
    assert x == x / m * m + x % m;
  }

  // A fresh zone for chunks of up to a quarter of the zone has room for two or more.
  lemma FreshRoom(zoneSize: nat, size: nat)
    requires size >= 8 && zoneSize >= 4 * size && zoneSize >= 1024
    ensures ChunkOffset(size) < zoneSize && (zoneSize - ChunkOffset(size)) / size >= 2
  {
    RoundUpBound(HEADER, if PowerOfTwo(size) then size else 8);
    var rest := zoneSize - ChunkOffset(size);
    assert rest >= 2 * size;
    DivAtLeast(rest, size);
  }

  lemma DivAtLeast(x: nat, m: nat)
    requires m > 0 && x >= 2 * m
    ensures x / m >= 2
  {
    assert x == x / m * m + x % m;
    if x / m < 2 {
      SmallMultiple(x / m, m);
    }
  }

  lemma SmallMultiple(a: nat, m: nat)
    requires a <= 1
    ensures a * m <= m
  {
  }

  lemma LimitIsChunk(n: nat, limit: nat)
    requires 0 < n < limit && (limit == 8192 || limit == 16384)
    ensures ZoneIndex(n).1 <= limit
  {
    hide RoundUp, ZoneIndex;
    Rounded(n);
    var zi := ZoneIndex(n).0;
    if limit == 8192 && zi > 63 {
      ChunkSizeGrows(63, zi - 1);
    } else {
      ChunkSizeGrows(zi, 71);
      if limit == 8192 {
        ChunkSizeGrows(zi, 63);
      }
    }
  }
}

/** The slab allocator: zones by chunk size, idle zones, and the map from pages to what they hold. */
module Slabs {
  import opened Kernels
  import opened Lists
  import opened PageRuns
  import opened PageAllocators
  import opened Words
  import opened Zones

  const PAGE := 4096                     // RT_MM_PAGE_SIZE
  const RELEASE := 2                     // ZONE_RELEASE_THRESH

  /** struct memusage */
  datatype Usage = Free | Small(offset: nat) | Large(pages: nat)

  // The pages [a, a + spans[a]) are allocated, for every a, and do not overlap each other or the free runs.
  ghost predicate SpansOk(spans: map<Page, nat>, runs: seq<Run>) {
    && (forall a | a in spans :: Apart(runs, Run(a, spans[a])))
    && (forall a, b | a in spans && b in spans && a < b :: a + spans[a] <= b)
  }

  /** The zones: one to each listed place, its pages marked, and its header and chunks within those pages. */
  ghost predicate ZonesOk(zones: map<Page, Zone>, live: map<Page, set<Zones.Addr>>, idle: seq<Page>, count: nat) {
    && zones.Keys == live.Keys
    && (forall z | z in zones :: ZoneOk(zones[z], live[z]) && ZoneFits(z, zones[z], count))
    && (forall z | z in idle :: z in zones && live[z] == {})
  }

  ghost predicate ZoneFits(z: Page, zn: Zone, count: nat) {
    && zn.nmax >= 2 && zn.chunkSize >= 8 && z * PAGE <= zn.base
    && ChunkAt(zn, zn.nmax) <= (z + count) * PAGE
  }

  /** A zone that is not idle is on the list of its index exactly while it has a chunk to give. */
  ghost predicate ZoneListsOk(zones: map<Page, Zone>, lists: seq<seq<Page>>, idle: seq<Page>) {
    && |lists| == NZONES && Distinct(idle)
    && (forall i | 0 <= i < NZONES :: Distinct(lists[i]))
    && (forall i, z | 0 <= i < NZONES && z in lists[i] :: z in zones && z !in idle && zones[z].zoneIndex == i && zones[z].nfree > 0)
    && (forall z | z in zones && z !in idle && zones[z].nfree > 0 :: zones[z].zoneIndex < NZONES && z in lists[zones[z].zoneIndex])
  }

  ghost predicate UsageOk(usage: map<Page, Usage>, zones: map<Page, Zone>, large: map<Page, nat>, count: nat) {
    && (forall z, off | z in zones && z <= off < z + count :: off in usage && usage[off] == Small(off - z))
    && (forall b | b in large :: b in usage && usage[b] == Large(large[b]))
  }

  ghost predicate OwnersOk(spans: map<Page, nat>, zones: map<Page, Zone>, large: map<Page, nat>, count: nat) {
    && (forall z | z in zones :: z in spans && spans[z] == count && z !in large)
    && (forall b | b in large :: b in spans && spans[b] == large[b])
  }

  /** What the callers hold: each pointer with the number of bytes that belong to it. */
  ghost predicate HeldOk(held: map<Zones.Addr, nat>, zones: map<Page, Zone>, live: map<Page, set<Zones.Addr>>, large: map<Page, nat>) {
    && zones.Keys == live.Keys
    && (forall z, p | z in live && p in live[z] :: p in held && held[p] == zones[z].chunkSize)
    && (forall b | b in large :: b * PAGE in held && held[b * PAGE] == large[b] * PAGE)
    && (forall p | p in held :: (exists z :: z in live && p in live[z]) || (exists b :: b in large && b * PAGE == p))
  }

  // --- where chunks lie ---

  lemma ChunkInZone(z: Page, zn: Zone, live: set<Zones.Addr>, count: nat, p: Zones.Addr)
    requires ZoneOk(zn, live) && ZoneFits(z, zn, count) && p in live
    ensures z * PAGE <= p && p + zn.chunkSize <= (z + count) * PAGE && z <= p / PAGE < z + count
  {
    hide ChunkSize, Distinct;
    assert p in Chunks(zn, zn.uindex + 1);
    ChunkMember(zn, zn.uindex + 1, p);
    var i :| 0 <= i < zn.uindex + 1 && ChunkAt(zn, i) == p;
    ChunkOrder(zn, i, zn.nmax);
    ChunkNotBefore(zn, i);
  }

  lemma ChunkNotBefore(zn: Zone, i: nat)
    ensures zn.base <= ChunkAt(zn, i)
  {
  }

  lemma ChunksApart(zn: Zone, live: set<Zones.Addr>, p: Zones.Addr, q: Zones.Addr)
    requires ZoneOk(zn, live) && p in live && q in live && p != q
    ensures p + zn.chunkSize <= q || q + zn.chunkSize <= p
  {
    hide ChunkSize, Distinct;
    assert p in Chunks(zn, zn.uindex + 1) && q in Chunks(zn, zn.uindex + 1);
    ChunkMember(zn, zn.uindex + 1, p);
    ChunkMember(zn, zn.uindex + 1, q);
    var i :| 0 <= i < zn.uindex + 1 && ChunkAt(zn, i) == p;
    var j :| 0 <= j < zn.uindex + 1 && ChunkAt(zn, j) == q;
    if i < j {
      ChunkOrder(zn, i, j);
    } else {
      ChunkOrder(zn, j, i);
    }
  }

  /** Where a pointer's bytes lie: within the pages of one span, its own zone or its own large block. */
  ghost predicate Within(p: Zones.Addr, n: nat, a: Page, pages: nat) {
    a * PAGE <= p && p + n <= (a + pages) * PAGE
  }

  lemma HeldWithin(held: map<Zones.Addr, nat>, zones: map<Page, Zone>, live: map<Page, set<Zones.Addr>>, large: map<Page, nat>,
                   spans: map<Page, nat>, idle: seq<Page>, count: nat, p: Zones.Addr) returns (a: Page)
    requires HeldOk(held, zones, live, large) && OwnersOk(spans, zones, large, count) && ZonesOk(zones, live, idle, count) && p in held
    ensures a in spans && Within(p, held[p], a, spans[a])
    ensures (a in live && p in live[a]) || (a in large && a * PAGE == p)
  {
    hide ZoneOk, ZoneFits;
    if z :| z in live && p in live[z] {
      a := z;
      ChunkInZone(z, zones[z], live[z], count, p);
    } else {
      a :| a in large && a * PAGE == p;
    }
  }

  /** No two pointers that callers hold share a byte. */
  lemma HeldApart(held: map<Zones.Addr, nat>, zones: map<Page, Zone>, live: map<Page, set<Zones.Addr>>, large: map<Page, nat>,
                  spans: map<Page, nat>, runs: seq<Run>, idle: seq<Page>, count: nat, p: Zones.Addr, q: Zones.Addr)
    requires HeldOk(held, zones, live, large) && OwnersOk(spans, zones, large, count) && ZonesOk(zones, live, idle, count)
    requires SpansOk(spans, runs) && p in held && q in held && p != q
    ensures p + held[p] <= q || q + held[q] <= p
  {
    hide ZoneOk, ZoneFits, Apart;
    var a := HeldWithin(held, zones, live, large, spans, idle, count, p);
    var b := HeldWithin(held, zones, live, large, spans, idle, count, q);
    if a == b {
      if a in live {
        ChunksApart(zones[a], live[a], p, q);
      }
    } else if a < b {
      PagesBefore(a + spans[a], b);
    } else {
      PagesBefore(b + spans[b], a);
    }
  }

  lemma PagesBefore(a: nat, b: nat)
    requires a <= b
    ensures a * PAGE <= b * PAGE
  {
  }

  // --- the page runs and the spans ---

  lemma SpanIsTaken(spans: map<Page, nat>, runs: seq<Run>, a: Page, b: Page, n: nat)
    requires SpansOk(spans, runs) && a in spans && AllFree(runs, b, n) && n > 0
    ensures a + spans[a] <= b || b + n <= a
  {
    if a < b + n && b < a + spans[a] {
      var q := if a < b then b else a;
      assert InRun(Run(a, spans[a]), q);
    }
  }

  lemma SpansAdd(spans: map<Page, nat>, runs: seq<Run>, runs': seq<Run>, b: Page, n: nat)
    requires SpansOk(spans, runs) && AllFree(runs, b, n) && n > 0
    requires forall q: Page :: Covers(runs', q) <==> Covers(runs, q) && !(b <= q < b + n)
    ensures SpansOk(spans[b := n], runs') && forall a | a in spans :: a + spans[a] <= b || b + n <= a
  {
    hide Covers;
    forall a | a in spans
      ensures a + spans[a] <= b || b + n <= a
    {
      SpanIsTaken(spans, runs, a, b, n);
    }
    forall a, q: Page | a in spans && InRun(Run(a, spans[a]), q)
      ensures !Covers(runs', q)
    {
      assert Apart(runs, Run(a, spans[a]));
    }
  }

  lemma SpansDrop(spans: map<Page, nat>, runs: seq<Run>, runs': seq<Run>, b: Page)
    requires SpansOk(spans, runs) && b in spans
    requires forall q: Page :: Covers(runs', q) <==> Covers(runs, q) || b <= q < b + spans[b]
    ensures SpansOk(spans - {b}, runs')
  {
    hide Covers;
    forall a | a in spans && a != b
      ensures Apart(runs', Run(a, spans[a]))
    {
      assert Apart(runs, Run(a, spans[a]));
      assert a + spans[a] <= b || b + spans[b] <= a;
    }
  }

  // A span of its own for a block of pages: it is new to the zones and the large blocks, and overlaps none of them.
  ghost predicate OwnSpan(spans: map<Page, nat>, b: Page, n: nat) {
    forall a | a in spans :: a + spans[a] <= b || b + n <= a
  }

  // A place in pages that no span reaches is held by nobody.
  lemma NotHeld(held: map<Zones.Addr, nat>, zones: map<Page, Zone>, live: map<Page, set<Zones.Addr>>, large: map<Page, nat>,
                spans: map<Page, nat>, idle: seq<Page>, count: nat, b: Page, n: nat, p: Zones.Addr)
    requires HeldOk(held, zones, live, large) && OwnersOk(spans, zones, large, count) && ZonesOk(zones, live, idle, count)
    requires OwnSpan(spans, b, n) && b * PAGE <= p < (b + n) * PAGE && LargeLong(large)
    ensures p !in held
  {
    hide ZoneOk, ZoneFits;
    if p in held {
      var a: Page := HeldWithin(held, zones, live, large, spans, idle, count, p);
      LongEnough(held, zones, live, large, idle, count, p);
      OutOf(a, spans[a], b, n, p, held[p]);
    }
  }

  lemma OutOf(a: Page, s: nat, b: Page, n: nat, p: Zones.Addr, m: nat)
    requires (a + s <= b || b + n <= a) && Within(p, m, a, s) && m > 0
    ensures !(b * PAGE <= p < (b + n) * PAGE)
  {
    if a + s <= b {
      PagesBefore(a + s, b);
    } else {
      PagesBefore(b + n, a);
    }
  }

  ghost predicate LargeLong(large: map<Page, nat>) {
    forall b | b in large :: large[b] > 0
  }

  lemma LongEnough(held: map<Zones.Addr, nat>, zones: map<Page, Zone>, live: map<Page, set<Zones.Addr>>, large: map<Page, nat>,
                   idle: seq<Page>, count: nat, p: Zones.Addr)
    requires HeldOk(held, zones, live, large) && ZonesOk(zones, live, idle, count) && p in held && LargeLong(large)
    ensures held[p] > 0
  {
    hide ZoneOk;
    if z :| z in live && p in live[z] {
    } else {
      var b :| b in large && b * PAGE == p;
    }
  }

  // --- a large block ---

  lemma LargeAdded(held: map<Zones.Addr, nat>, zones: map<Page, Zone>, live: map<Page, set<Zones.Addr>>, large: map<Page, nat>,
                   spans: map<Page, nat>, usage: map<Page, Usage>, count: nat, b: Page, n: nat)
    requires HeldOk(held, zones, live, large) && OwnersOk(spans, zones, large, count) && UsageOk(usage, zones, large, count)
    requires OwnSpan(spans, b, n) && n > 0 && LargeLong(large) && count > 0 && b * PAGE !in held
    ensures HeldOk(held[b * PAGE := n * PAGE], zones, live, large[b := n])
    ensures OwnersOk(spans[b := n], zones, large[b := n], count) && UsageOk(usage[b := Large(n)], zones, large[b := n], count)
    ensures LargeLong(large[b := n])
  {
    hide ZoneOk, ZoneFits;
    forall z | z in zones
      ensures z in spans && !(z <= b < z + count)
    {
    }
    LargeHeld(held, zones, live, large, b, n);
  }

  lemma LargeHeld(held: map<Zones.Addr, nat>, zones: map<Page, Zone>, live: map<Page, set<Zones.Addr>>, large: map<Page, nat>,
                  b: Page, n: nat)
    requires HeldOk(held, zones, live, large) && b * PAGE !in held
    ensures HeldOk(held[b * PAGE := n * PAGE], zones, live, large[b := n])
  {
    var held', large' := held[b * PAGE := n * PAGE], large[b := n];
    forall p | p in held'
      ensures (exists z :: z in live && p in live[z]) || (exists c :: c in large' && c * PAGE == p)
    {
      if p == b * PAGE {
        assert b in large';
      } else if c :| c in large && c * PAGE == p {
        assert c in large';
      }
    }
  }

  lemma LargeDropped(held: map<Zones.Addr, nat>, zones: map<Page, Zone>, live: map<Page, set<Zones.Addr>>, large: map<Page, nat>,
                     spans: map<Page, nat>, usage: map<Page, Usage>, runs: seq<Run>, idle: seq<Page>, count: nat, b: Page)
    requires HeldOk(held, zones, live, large) && OwnersOk(spans, zones, large, count) && UsageOk(usage, zones, large, count)
    requires ZonesOk(zones, live, idle, count) && SpansOk(spans, runs) && b in large && LargeLong(large) && count > 0
    ensures HeldOk(held - {b * PAGE}, zones, live, large - {b})
    ensures OwnersOk(spans - {b}, zones, large - {b}, count) && UsageOk(usage[b := Large(0)], zones, large - {b}, count)
    ensures LargeLong(large - {b}) && b in spans && spans[b] == large[b] && b * PAGE in held
  {
    hide ZoneOk, ZoneFits, SpansOk, HeldOk, ZonesOk, OwnersOk, UsageOk;
    ZonesElsewhere(zones, spans, runs, large, count, b);
    ChunksElsewhere(zones, live, idle, count, b);
    LargeUnheld(held, zones, live, large, b);
    LargeUnowned(zones, large, spans, usage, count, b);
  }

  lemma LargeUnowned(zones: map<Page, Zone>, large: map<Page, nat>, spans: map<Page, nat>, usage: map<Page, Usage>, count: nat, b: Page)
    requires OwnersOk(spans, zones, large, count) && UsageOk(usage, zones, large, count) && b in large && LargeLong(large)
    requires forall z | z in zones :: z != b && !(z <= b < z + count)
    ensures OwnersOk(spans - {b}, zones, large - {b}, count) && UsageOk(usage[b := Large(0)], zones, large - {b}, count)
    ensures LargeLong(large - {b}) && b in spans && spans[b] == large[b]
  {
  }

  lemma ZonesElsewhere(zones: map<Page, Zone>, spans: map<Page, nat>, runs: seq<Run>, large: map<Page, nat>, count: nat, b: Page)
    requires OwnersOk(spans, zones, large, count) && SpansOk(spans, runs) && b in large && LargeLong(large)
    ensures forall z | z in zones :: z != b && !(z <= b < z + count)
  {
    hide Apart;
    forall z | z in zones
      ensures z != b && !(z <= b < z + count)
    {
      assert z in spans && b in spans && (z < b ==> z + spans[z] <= b);
    }
  }

  lemma ChunksElsewhere(zones: map<Page, Zone>, live: map<Page, set<Zones.Addr>>, idle: seq<Page>, count: nat, b: Page)
    requires ZonesOk(zones, live, idle, count) && forall z | z in zones :: !(z <= b < z + count)
    ensures forall z, p | z in live && p in live[z] :: p != b * PAGE
  {
    hide ZoneOk, ZoneFits;
    forall z, p | z in live && p in live[z]
      ensures p != b * PAGE
    {
      ChunkInZone(z, zones[z], live[z], count, p);
    }
  }

  lemma LargeUnheld(held: map<Zones.Addr, nat>, zones: map<Page, Zone>, live: map<Page, set<Zones.Addr>>, large: map<Page, nat>, b: Page)
    requires HeldOk(held, zones, live, large) && b in large && forall z, p | z in live && p in live[z] :: p != b * PAGE
    ensures b * PAGE in held
    ensures HeldOk(held - {b * PAGE}, zones, live, large - {b})
  {
    var held', large' := held - {b * PAGE}, large - {b};
    forall p | p in held'
      ensures (exists z :: z in live && p in live[z]) || (exists c :: c in large' && c * PAGE == p)
    {
      if c :| c in large && c * PAGE == p {
        assert c in large';
      }
    }
  }

  // --- a zone in use gives or takes a chunk ---

  ghost predicate SamePlace(z: Zone, z': Zone) {
    z'.nmax == z.nmax && z'.base == z.base && z'.chunkSize == z.chunkSize && z'.zoneIndex == z.zoneIndex
  }

  lemma ZonesTouched(zones: map<Page, Zone>, live: map<Page, set<Zones.Addr>>, idle: seq<Page>, count: nat,
                     z: Page, zn: Zone, lv: set<Zones.Addr>)
    requires ZonesOk(zones, live, idle, count) && z in zones && z !in idle && ZoneOk(zn, lv) && SamePlace(zones[z], zn)
    ensures ZonesOk(zones[z := zn], live[z := lv], idle, count)
  {
    hide ZoneOk;
  }

  lemma UsageTouched(usage: map<Page, Usage>, spans: map<Page, nat>, zones: map<Page, Zone>, large: map<Page, nat>, count: nat,
                     z: Page, zn: Zone)
    requires UsageOk(usage, zones, large, count) && OwnersOk(spans, zones, large, count) && z in zones
    ensures UsageOk(usage, zones[z := zn], large, count) && OwnersOk(spans, zones[z := zn], large, count)
  {
  }

  // The list of the zone's index after it has given a chunk, and after it has got one back.
  function ListAfterTake(list: seq<Page>, nfree: nat): seq<Page> {
    if nfree == 0 && list != [] then list[1..] else list
  }

  lemma ListsTaken(zones: map<Page, Zone>, lists: seq<seq<Page>>, idle: seq<Page>, z: Page, zn: Zone)
    requires ZoneListsOk(zones, lists, idle) && z in zones && z !in idle && SamePlace(zones[z], zn)
    requires zones[z].zoneIndex < NZONES && lists[zones[z].zoneIndex] != [] && lists[zones[z].zoneIndex][0] == z
    ensures var zi := zn.zoneIndex; ZoneListsOk(zones[z := zn], lists[zi := ListAfterTake(lists[zi], zn.nfree)], idle)
  {
    var zi := zn.zoneIndex;
    DistinctTail(lists[zi]);
    assert lists[zi] == [z] + lists[zi][1..];
    hide Distinct;
  }

  lemma ZoneListsGiven(zones: map<Page, Zone>, lists: seq<seq<Page>>, idle: seq<Page>, z: Page, zn: Zone)
    requires ZoneListsOk(zones, lists, idle) && z in zones && z !in idle && SamePlace(zones[z], zn) && zones[z].zoneIndex < NZONES
    requires zn.nfree == zones[z].nfree + 1
    ensures var zi := zn.zoneIndex;
            ZoneListsOk(zones[z := zn], if zones[z].nfree == 0 then lists[zi := [z] + lists[zi]] else lists, idle)
  {
    var zi := zn.zoneIndex;
    if zones[z].nfree == 0 {
      assert z !in lists[zi];
      DistinctConcat([z], lists[zi]);
    }
    hide Distinct;
  }

  lemma HeldTaken(held: map<Zones.Addr, nat>, zones: map<Page, Zone>, live: map<Page, set<Zones.Addr>>, large: map<Page, nat>,
                  z: Page, zn: Zone, p: Zones.Addr)
    requires HeldOk(held, zones, live, large) && z in zones && zn.chunkSize == zones[z].chunkSize && p !in held
    ensures HeldOk(held[p := zn.chunkSize], zones[z := zn], live[z := live[z] + {p}], large)
  {
    var held', live' := held[p := zn.chunkSize], live[z := live[z] + {p}];
    forall q | q in held'
      ensures (exists y :: y in live' && q in live'[y]) || (exists b :: b in large && b * PAGE == q)
    {
      if q == p {
        assert z in live' && p in live'[z];
      } else if y :| y in live && q in live[y] {
        assert y in live' && q in live'[y];
      }
    }
  }

  // p is in no other zone, and starts no large block.
  ghost predicate OnlyIn(live: map<Page, set<Zones.Addr>>, large: map<Page, nat>, z: Page, p: Zones.Addr) {
    (forall y | y in live && p in live[y] :: y == z) && forall b | b in large :: b * PAGE != p
  }

  lemma HeldGiven(held: map<Zones.Addr, nat>, zones: map<Page, Zone>, live: map<Page, set<Zones.Addr>>, large: map<Page, nat>,
                  z: Page, zn: Zone, p: Zones.Addr)
    requires HeldOk(held, zones, live, large) && z in zones && zn.chunkSize == zones[z].chunkSize && p in live[z]
    requires OnlyIn(live, large, z, p)
    ensures HeldOk(held - {p}, zones[z := zn], live[z := live[z] - {p}], large)
  {
    var held', live' := held - {p}, live[z := live[z] - {p}];
    forall q | q in held'
      ensures (exists y :: y in live' && q in live'[y]) || (exists b :: b in large && b * PAGE == q)
    {
      if y :| y in live && q in live[y] {
        assert y in live' && q in live'[y];
      }
    }
  }

  // The zone whose pages a place lies in is determined by the place.
  lemma OneOwner(spans: map<Page, nat>, runs: seq<Run>, a: Page, b: Page, q: Page)
    requires SpansOk(spans, runs) && a in spans && b in spans && a <= q < a + spans[a] && b <= q < b + spans[b]
    ensures a == b
  {
    hide Apart;
  }

  lemma ChunkOwner(zones: map<Page, Zone>, live: map<Page, set<Zones.Addr>>, large: map<Page, nat>,
                   spans: map<Page, nat>, runs: seq<Run>, idle: seq<Page>, count: nat, z: Page, p: Zones.Addr)
    requires OwnersOk(spans, zones, large, count) && ZonesOk(zones, live, idle, count) && SpansOk(spans, runs)
    requires LargeLong(large) && z in zones && z <= p / PAGE < z + count
    ensures OnlyIn(live, large, z, p)
  {
    hide ZoneOk, ZoneFits, Apart, SpansOk;
    forall y | y in live && p in live[y]
      ensures y == z
    {
      ChunkInZone(y, zones[y], live[y], count, p);
      OneOwner(spans, runs, y, z, p / PAGE);
    }
    forall b | b in large
      ensures b * PAGE != p
    {
      if b * PAGE == p {
        PageOf(b);
        OneOwner(spans, runs, b, z, b);
      }
    }
  }

  lemma PageOf(b: nat)
    ensures b * PAGE / PAGE == b
  {
  }

  // A chunk of a zone lies in the zone's pages, whether in use or not.
  lemma AnyChunkInZone(z: Page, zn: Zone, count: nat, p: Zones.Addr)
    requires ZoneFits(z, zn, count) && p in Chunks(zn, zn.nmax)
    ensures z * PAGE <= p && p + zn.chunkSize <= (z + count) * PAGE && z <= p / PAGE < z + count
  {
    ChunkMember(zn, zn.nmax, p);
    var i :| 0 <= i < zn.nmax && ChunkAt(zn, i) == p;
    ChunkOrder(zn, i, zn.nmax);
    ChunkNotBefore(zn, i);
  }

  // The chunk taken from a zone was held by nobody.
  lemma TakenUnheld(held: map<Zones.Addr, nat>, zones: map<Page, Zone>, live: map<Page, set<Zones.Addr>>, large: map<Page, nat>,
                    spans: map<Page, nat>, runs: seq<Run>, idle: seq<Page>, count: nat, z: Page, p: Zones.Addr)
    requires HeldOk(held, zones, live, large) && OwnersOk(spans, zones, large, count) && ZonesOk(zones, live, idle, count)
    requires SpansOk(spans, runs) && LargeLong(large) && z in zones && p !in live[z] && z <= p / PAGE < z + count
    ensures p !in held
  {
    hide ZoneOk, ZoneFits, SpansOk;
    ChunkOwner(zones, live, large, spans, runs, idle, count, z, p);
  }

  // --- a zone comes into use, falls idle, or is given up ---

  lemma ZonesStarted(zones: map<Page, Zone>, live: map<Page, set<Zones.Addr>>, idle: seq<Page>, idle': seq<Page>, count: nat,
                     z: Page, zn: Zone, p: Zones.Addr)
    requires ZonesOk(zones, live, idle, count) && ZoneOk(zn, {p}) && ZoneFits(z, zn, count)
    requires z !in idle' && forall y | y in idle' :: y in idle
    ensures ZonesOk(zones[z := zn], live[z := {p}], idle', count)
  {
    hide ZoneOk, ZoneFits;
  }

  lemma ListsStarted(zones: map<Page, Zone>, lists: seq<seq<Page>>, idle: seq<Page>, idle': seq<Page>, z: Page, zn: Zone)
    requires ZoneListsOk(zones, lists, idle) && zn.zoneIndex < NZONES && zn.nfree > 0 && Distinct(idle')
    requires z !in idle' && (forall y | y in idle' :: y in idle) && (forall y | y in idle && y != z :: y in idle')
    requires z in zones ==> z in idle
    ensures ZoneListsOk(zones[z := zn], lists[zn.zoneIndex := [z] + lists[zn.zoneIndex]], idle')
  {
    var zi := zn.zoneIndex;
    assert forall i | 0 <= i < NZONES :: z !in lists[i];
    DistinctConcat([z], lists[zi]);
    hide Distinct;
  }

  lemma HeldStarted(held: map<Zones.Addr, nat>, zones: map<Page, Zone>, live: map<Page, set<Zones.Addr>>, large: map<Page, nat>,
                    z: Page, zn: Zone, p: Zones.Addr)
    requires HeldOk(held, zones, live, large) && (z in live ==> live[z] == {}) && p !in held
    ensures HeldOk(held[p := zn.chunkSize], zones[z := zn], live[z := {p}], large)
  {
    var held', live' := held[p := zn.chunkSize], live[z := {p}];
    forall q | q in held'
      ensures (exists y :: y in live' && q in live'[y]) || (exists b :: b in large && b * PAGE == q)
    {
      if q == p {
        assert z in live' && p in live'[z];
      } else if y :| y in live && q in live[y] {
        assert y in live' && q in live'[y];
      }
    }
  }

  lemma ZoneListsIdled(zones: map<Page, Zone>, lists: seq<seq<Page>>, idle: seq<Page>, z: Page)
    requires ZoneListsOk(zones, lists, idle) && z in zones && z !in idle && zones[z].zoneIndex < NZONES
    ensures var zi := zones[z].zoneIndex; ZoneListsOk(zones, lists[zi := Remove(lists[zi], z)], [z] + idle)
  {
    var zi := zones[z].zoneIndex;
    RemoveDistinct(lists[zi], z);
    DistinctConcat([z], idle);
    hide Distinct;
  }

  lemma ZonesIdled(zones: map<Page, Zone>, live: map<Page, set<Zones.Addr>>, idle: seq<Page>, count: nat, z: Page)
    requires ZonesOk(zones, live, idle, count) && z in zones && live[z] == {}
    ensures ZonesOk(zones, live, [z] + idle, count)
  {
    hide ZoneOk, ZoneFits;
  }

  // The idle zone z is given up.
  lemma ZonesReleased(zones: map<Page, Zone>, live: map<Page, set<Zones.Addr>>, idle: seq<Page>, count: nat, z: Page,
                      lists: seq<seq<Page>>, large: map<Page, nat>, held: map<Zones.Addr, nat>)
    requires ZonesOk(zones, live, idle, count) && ZoneListsOk(zones, lists, idle) && idle != [] && z == idle[0]
    requires HeldOk(held, zones, live, large)
    ensures ZonesOk(zones - {z}, live - {z}, idle[1..], count) && ZoneListsOk(zones - {z}, lists, idle[1..])
    ensures HeldOk(held, zones - {z}, live - {z}, large)
  {
    hide ZoneOk, ZoneFits;
    DistinctTail(idle);
    assert idle == [z] + idle[1..];
    hide Distinct;
    HeldReleased(held, zones, live, large, z);
  }

  lemma HeldReleased(held: map<Zones.Addr, nat>, zones: map<Page, Zone>, live: map<Page, set<Zones.Addr>>, large: map<Page, nat>, z: Page)
    requires HeldOk(held, zones, live, large) && z in live && live[z] == {}
    ensures HeldOk(held, zones - {z}, live - {z}, large)
  {
    var live' := live - {z};
    forall q | q in held
      ensures (exists y :: y in live' && q in live'[y]) || (exists b :: b in large && b * PAGE == q)
    {
      if y :| y in live && q in live[y] {
        assert y in live' && q in live'[y];
      }
    }
  }

  // The page map with the pages of a zone marked as such, or as free.
  ghost predicate Marked(usage: map<Page, Usage>, usage': map<Page, Usage>, z: Page, count: nat, small: bool) {
    && (forall q | z <= q < z + count :: q in usage' && usage'[q] == if small then Small(q - z) else Free)
    && (forall q | q in usage && !(z <= q < z + count) :: q in usage' && usage'[q] == usage[q])
  }

  lemma UsageStarted(usage: map<Page, Usage>, usage': map<Page, Usage>, spans: map<Page, nat>, zones: map<Page, Zone>,
                     large: map<Page, nat>, count: nat, z: Page, zn: Zone)
    requires UsageOk(usage, zones, large, count) && OwnersOk(spans, zones, large, count) && LargeLong(large)
    requires OwnSpan(spans, z, count) && count > 0 && Marked(usage, usage', z, count, true)
    ensures UsageOk(usage', zones[z := zn], large, count) && OwnersOk(spans[z := count], zones[z := zn], large, count)
    ensures z !in zones
  {
    assert z !in zones && z !in large by { assert (z in zones || z in large) ==> z in spans; }
    forall y, off | y in zones && y <= off < y + count
      ensures off in usage' && usage'[off] == Small(off - y)
    {
      assert y in spans;
    }
    forall b | b in large
      ensures b in usage' && usage'[b] == Large(large[b])
    {
      assert b in spans;
    }
  }

  lemma UsageReleased(usage: map<Page, Usage>, usage': map<Page, Usage>, spans: map<Page, nat>, runs: seq<Run>, zones: map<Page, Zone>,
                      large: map<Page, nat>, count: nat, z: Page)
    requires UsageOk(usage, zones, large, count) && OwnersOk(spans, zones, large, count) && LargeLong(large)
    requires SpansOk(spans, runs) && z in zones && count > 0 && Marked(usage, usage', z, count, false)
    ensures UsageOk(usage', zones - {z}, large, count) && OwnersOk(spans - {z}, zones - {z}, large, count)
  {
    hide Apart, UsageOk, Marked;
    assert forall y | y in zones && y != z :: y + count <= z || z + count <= y;
    assert forall b | b in large :: b + large[b] <= z || z + count <= b;
    hide SpansOk, OwnersOk;
    UsageUnmarked(usage, usage', zones, large, count, z);
    OwnersReleased(spans, zones, large, count, z);
  }

  lemma UsageUnmarked(usage: map<Page, Usage>, usage': map<Page, Usage>, zones: map<Page, Zone>, large: map<Page, nat>, count: nat, z: Page)
    requires UsageOk(usage, zones, large, count) && LargeLong(large) && count > 0 && Marked(usage, usage', z, count, false)
    requires forall y | y in zones && y != z :: y + count <= z || z + count <= y
    requires forall b | b in large :: b + large[b] <= z || z + count <= b
    ensures UsageOk(usage', zones - {z}, large, count)
  {
  }

  lemma OwnersReleased(spans: map<Page, nat>, zones: map<Page, Zone>, large: map<Page, nat>, count: nat, z: Page)
    requires OwnersOk(spans, zones, large, count) && z in zones
    ensures OwnersOk(spans - {z}, zones - {z}, large, count)
  {
  }

  ghost predicate Sized(zoneSize: nat, zoneLimit: nat, zonePages: nat) {
    && zoneSize == zonePages * PAGE && zoneSize >= 32768 && (zoneLimit == 8192 || zoneLimit == 16384) && 4 * zoneLimit <= zoneSize
  }

  // The header of a zone just put to use, its first chunk handed out.
  function FreshZone(z: Page, zi: nat, size: nat, zoneSize: nat): Zone
    requires size > 0 && (zoneSize - ChunkOffset(size)) / size >= 1
  {
    var nmax := (zoneSize - ChunkOffset(size)) / size;
    Zone(nmax - 1, nmax, z * PAGE + ChunkOffset(size), 0, size, zi, [])
  }

  /** A zone put to use has as many chunks as fit behind its header, from the first place that is aligned. */
  lemma ZoneIsFull(z: Page, zi: nat, size: nat, zoneSize: nat)
    requires size > 0 && (zoneSize - ChunkOffset(size)) / size >= 1
    ensures var zn, start := FreshZone(z, zi, size, zoneSize), z * PAGE;
      && zn.base + zn.nmax * size <= start + zoneSize < zn.base + (zn.nmax + 1) * size
      && zn.base - start == ChunkOffset(size)
    ensures var align := if PowerOfTwo(size) then size else 8;
      HEADER <= ChunkOffset(size) < HEADER + align && exists i: nat :: ChunkOffset(size) == i * align
  {
    var align := if PowerOfTwo(size) then size else 8;
    DivisionBounds(zoneSize - ChunkOffset(size), size);
    DivisionBounds(HEADER + align - 1, align);
    var i: nat := (HEADER + align - 1) / align;
    hide PowerOfTwo;
    assert ChunkOffset(size) == i * align;
  }

  lemma DivisionBounds(x: int, m: nat)
    requires m > 0
    ensures x / m * m <= x < x / m * m + m
    ensures x / m * m + m == (x / m + 1) * m
  {
  }

  /** The first zone of the list for index zi has given the chunk at p, and has left the list if it was its last. */
  ghost predicate TookListed(zones: map<Page, Zone>, lists: seq<seq<Page>>, zi: nat, p: Zones.Addr,
                             zones': map<Page, Zone>, lists': seq<seq<Page>>)
  {
    && zi < |lists| && lists[zi] != []
    && var z := lists[zi][0];
       && z in zones && p == TakenChunk(zones[z]) && zones' == zones[z := AfterTake(zones[z])]
       && lists' == lists[zi := ListAfterTake(lists[zi], AfterTake(zones[z]).nfree)]
  }

  /** A zone at z has been put to use for chunks of that size, has given its first chunk, and is first in the list. */
  ghost predicate TookFresh(zones: map<Page, Zone>, lists: seq<seq<Page>>, z: Page, zi: nat, size: nat, zoneSize: nat, p: Zones.Addr,
                            zones': map<Page, Zone>, lists': seq<seq<Page>>)
  {
    && zi < |lists| && size > 0 && (zoneSize - ChunkOffset(size)) / size >= 1
    && zones' == zones[z := FreshZone(z, zi, size, zoneSize)] && lists' == lists[zi := [z] + lists[zi]]
    && p == z * PAGE + ChunkOffset(size)
  }

  // The lowest n consecutive free pages.
  ghost predicate LowestPages(runs: seq<Run>, b: Page, n: nat) {
    AllFree(runs, b, n) && forall a: Page :: AllFree(runs, a, n) ==> b <= a
  }

  function GivenZone(zn: Zone, p: Zones.Addr): Zone {
    zn.(nfree := zn.nfree + 1, free := [p] + zn.free)
  }

  // The list of the zone's index once the zone has got a chunk back.
  function ListAfterGive(list: seq<Page>, z: Page, nfree: nat): seq<Page> {
    if nfree == 0 then [z] + list else list
  }

  /** The chunk at p has gone back to its zone z. If that leaves the zone without chunks in use, and it is not the only one
      on its list, it becomes idle; beyond two idle zones its pages are given back instead. */
  ghost predicate GaveChunk(zones: map<Page, Zone>, lists: seq<seq<Page>>, idle: seq<Page>, runs: seq<Run>, count: nat,
                            z: Page, p: Zones.Addr,
                            zones': map<Page, Zone>, lists': seq<seq<Page>>, idle': seq<Page>, runs': seq<Run>)
  {
    && z in zones && zones[z].zoneIndex < |lists|
    && var zn, zi := GivenZone(zones[z], p), zones[z].zoneIndex;
       var list := ListAfterGive(lists[zi], z, zones[z].nfree);
       if zn.nfree != zn.nmax || list == [z] then
         zones' == zones[z := zn] && lists' == lists[zi := list] && idle' == idle && runs' == runs
       else
         && lists' == lists[zi := Remove(list, z)]
         && if |idle| < RELEASE then zones' == zones[z := zn] && idle' == [z] + idle && runs' == runs
            else zones' == zones - {z} && idle' == idle && runs' == FreeOne(runs, Run(z, count))
  }

  /** What rt_free does with a pointer, going by what the page map says of its page. */
  ghost predicate GaveBack(usage: map<Page, Usage>, zones: map<Page, Zone>, lists: seq<seq<Page>>, idle: seq<Page>, runs: seq<Run>,
                           count: nat, p: Zones.Addr,
                           zones': map<Page, Zone>, lists': seq<seq<Page>>, idle': seq<Page>, runs': seq<Run>)
  {
    && p >= 0 && p / PAGE in usage
    && match usage[p / PAGE]
       case Large(n) => zones' == zones && lists' == lists && idle' == idle && runs' == FreeOne(runs, Run(p / PAGE, n))
       case Small(offset) =>
         p / PAGE >= offset && GaveChunk(zones, lists, idle, runs, count, p / PAGE - offset, p, zones', lists', idle', runs')
       case Free => false
  }

  class Slab {
    const zoneSize: nat                    // zone_size
    const zoneLimit: nat                   // zone_limit
    const zonePages: nat                   // zone_page_cnt
    const pages: PageAllocator
    var zones: map<Page, Zone>             // the zone headers, by first page of the zone
    var zoneArray: seq<seq<Page>>          // zone_array
    var zoneFree: seq<Page>                // zone_free
    var zoneFreeCnt: nat                   // zone_free_cnt
    var usage: map<Page, Usage>            // memusage
    ghost var live: map<Page, set<Zones.Addr>>   // the chunks in use, zone by zone
    ghost var large: map<Page, nat>              // the large blocks in use
    ghost var spans: map<Page, nat>              // all pages in use
    ghost var held: map<Zones.Addr, nat>         // what the callers hold

    ghost predicate Valid()
      reads this, pages
    {
      && pages.Valid() && Sized(zoneSize, zoneLimit, zonePages)
      && SpansOk(spans, pages.runs) && OwnersOk(spans, zones, large, zonePages) && LargeLong(large)
      && ZonesOk(zones, live, zoneFree, zonePages) && ZoneListsOk(zones, zoneArray, zoneFree)
      && UsageOk(usage, zones, large, zonePages) && HeldOk(held, zones, live, large)
      && zoneFreeCnt == |zoneFree| <= RELEASE
    }

    // rt_system_heap_init, for the pages from `start` on; the page map is put into the first of them
    constructor (start: Page, npages: nat)
      requires npages > 0
      ensures Valid() && held == map[] && fresh(pages)
      ensures pages.runs == if npages == (npages * 4 + PAGE - 1) / PAGE then []
                            else [Run(start + (npages * 4 + PAGE - 1) / PAGE, npages - (npages * 4 + PAGE - 1) / PAGE)]
    {
      hide Canonical, Linked, Covers, AllFree, Taken, SpansOk, OwnersOk, ZonesOk, ZoneListsOk, UsageOk, HeldOk, LargeLong;
      var size := ZoneSizing(npages * PAGE);
      zoneSize, zonePages := size, size / PAGE;
      zoneLimit := if size / 4 > 16384 then 16384 else size / 4;
      zones, zoneArray, zoneFree, zoneFreeCnt, usage := map[], seq(NZONES, _ => []), [], 0, map[];
      live, large, spans, held := map[], map[], map[], map[];
      pages := new PageAllocator(start, npages);
      new;
      ghost var runs := pages.runs;
      var memusage := pages.PageAlloc((npages * 4 + PAGE - 1) / PAGE);
      OneRun(start, npages, (npages * 4 + PAGE - 1) / PAGE);
      NothingYet(pages.runs, zonePages);
    }

    // the zone size for a heap of that many bytes
    static method ZoneSizing(limit: nat) returns (size: nat)
      ensures size == 32768 || size == 65536 || size == 131072
      ensures size == 131072 || 2 * size >= limit / 1024
      ensures size == 32768 || size < limit / 1024
    {
      size := 32768;
      while size < 131072 && 2 * size < limit / 1024
        invariant size == 32768 || size == 65536 || size == 131072
        invariant size == 32768 || size < limit / 1024
        decreases 131072 - size
      {
        size := 2 * size;
      }
    }

    // rt_malloc for zone_limit bytes or more
    method MallocLarge(size: nat) returns (p: Option<Zones.Addr>)
      requires Valid() && zoneLimit <= size < W32
      modifies this`usage, this`large, this`spans, this`held, pages
      ensures Valid()
      ensures p == None <==> var n := U32(size + PAGE - 1) / PAGE;
                n == 0 || forall b: Page :: !AllFree(old(pages.runs), b, n)
      ensures p == None ==> held == old(held) && pages.runs == old(pages.runs)
      ensures p.Some? ==> var n := U32(size + PAGE - 1) / PAGE; n * PAGE >= size && p.value !in old(held) && held == old(held)[p.value := n * PAGE]
      ensures p.Some? ==> exists b: Page :: p.value == b * PAGE && LowestPages(old(pages.runs), b, U32(size + PAGE - 1) / PAGE)
    {
      hide Canonical, Linked, AllFree, Covers, Taken, SpansOk, OwnersOk, ZonesOk, ZoneListsOk, UsageOk, HeldOk, Sized, LargeLong, OwnSpan;
      CountPositive();
      ghost var runs := pages.runs;
      var n := U32(size + PAGE - 1) / PAGE;
      var b := pages.PageAlloc(n);
      if b == NULL {
        return None;
      }
      LargeSize(size);
      SpansAdd(spans, runs, pages.runs, b, n);
      OwnSpanOf(spans, b, n);
      NotHeld(held, zones, live, large, spans, zoneFree, zonePages, b, n, b * PAGE);
      LargeAdded(held, zones, live, large, spans, usage, zonePages, b, n);
      usage := usage[b := Large(n)];
      large, spans, held := large[b := n], spans[b := n], held[b * PAGE := n * PAGE];
      assert LowestPages(runs, b, n);
      return Some(b * PAGE);
    }

    lemma CountPositive()
      requires Valid()
      ensures zonePages > 0
    {
    }

    // rt_malloc when a zone of the right index has a chunk left
    method MallocListed(zi: nat) returns (p: Zones.Addr)
      requires Valid() && zi < NZONES && zoneArray[zi] != []
      modifies this`zones, this`zoneArray, this`live, this`held
      ensures Valid() && p !in old(held) && held == old(held)[p := ChunkSize(zi)]
      ensures TookListed(old(zones), old(zoneArray), zi, p, zones, zoneArray)
    {
      hide Canonical, Linked, Covers, SpansOk, OwnersOk, ZonesOk, UsageOk, HeldOk, Sized, LargeLong, ZoneOk, ZoneFits, Distinct,
        ChunkSize, AfterTake, TakenChunk;
      var z := zoneArray[zi][0];
      assert z in zoneArray[zi];
      ZoneAt(zones, live, zoneFree, zonePages, z);
      var zn := zones[z];
      TakeOk(zn, live[z]);
      AfterTakePlace(zn);
      p := TakenChunk(zn);
      AnyChunkInZone(z, zn, zonePages, p);
      TakenUnheld(held, zones, live, large, spans, pages.runs, zoneFree, zonePages, z, p);
      ZonesTouched(zones, live, zoneFree, zonePages, z, AfterTake(zn), live[z] + {p});
      UsageTouched(usage, spans, zones, large, zonePages, z, AfterTake(zn));
      ListsTaken(zones, zoneArray, zoneFree, z, AfterTake(zn));
      HeldTaken(held, zones, live, large, z, AfterTake(zn), p);
      zones := zones[z := AfterTake(zn)];
      // a zone that has become empty leaves the list
      if zones[z].nfree == 0 {
        zoneArray := zoneArray[zi := zoneArray[zi][1..]];
      }
      assert zoneArray == old(zoneArray)[zi := ListAfterTake(old(zoneArray)[zi], AfterTake(zn).nfree)];
      live, held := live[z := live[z] + {p}], held[p := zn.chunkSize];
    }

    // the new zone header that rt_malloc fills in
    method ZoneInit(z: Page, zi: nat, size: nat) returns (zn: Zone)
      requires Sized(zoneSize, zoneLimit, zonePages) && zi < NZONES && size == ChunkSize(zi) && size <= zoneLimit
      ensures zn.uindex == 0 && zn.free == [] && zn.nfree == zn.nmax - 1 > 0 && zn.zoneIndex == zi && zn.chunkSize == size
      ensures ZoneFits(z, zn, zonePages) && ZoneOk(zn, {ChunkAt(zn, 0)})
      ensures (zoneSize - ChunkOffset(size)) / size >= 1 && zn == FreshZone(z, zi, size, zoneSize)
    {
      hide ChunkSize, PowerOfTwo;
      SizePositive(zi);
      FreshRoom(zoneSize, size);
      var off := ChunkOffset(size);
      var nmax := (zoneSize - off) / size;
      zn := Zone(nmax - 1, nmax, z * PAGE + off, 0, size, zi, []);
      FreshOk(zn);
      FreshFits(z, zn, zoneSize, off);
    }

    // rt_malloc when every zone of the right index is exhausted: an idle zone, or new pages
    method MallocFresh(zi: nat, size: nat) returns (p: Option<Zones.Addr>)
      requires Valid() && zi < NZONES && size == ChunkSize(zi) && size <= zoneLimit && zoneArray[zi] == []
      modifies this, pages
      ensures Valid()
      ensures p == None <==> old(zoneFree) == [] && forall b: Page :: !AllFree(old(pages.runs), b, zonePages)
      ensures p == None ==> held == old(held) && pages.runs == old(pages.runs)
      ensures p.Some? ==> p.value !in old(held) && held == old(held)[p.value := size]
      ensures p.Some? && old(zoneFree) != [] ==>
        zoneFree == old(zoneFree)[1..] && pages.runs == old(pages.runs)
        && TookFresh(old(zones), old(zoneArray), old(zoneFree)[0], zi, size, zoneSize, p.value, zones, zoneArray)
      ensures p.Some? && old(zoneFree) == [] ==>
        zoneFree == [] && exists z: Page :: LowestPages(old(pages.runs), z, zonePages)
                                            && TookFresh(old(zones), old(zoneArray), z, zi, size, zoneSize, p.value, zones, zoneArray)
    {
      hide Canonical, Linked, AllFree, Covers, Taken, SpansOk, OwnersOk, ZonesOk, UsageOk, HeldOk, Sized, LargeLong, OwnSpan, Marked,
        ZoneOk, ZoneFits, Distinct, ChunkSize, ChunkOffset;
      CountPositive();
      SizePositive(zi);
      if zoneFree != [] {
        var z := zoneFree[0];
        var c := StartIdle(z, zi, size);
        return Some(c);
      }
      ghost var runs := pages.runs;
      var z := pages.PageAlloc(zonePages);
      if z == NULL {
        return None;
      }
      SpansAdd(spans, runs, pages.runs, z, zonePages);
      OwnSpanOf(spans, z, zonePages);
      ghost var usage0 := usage;
      MarkZone(z, true);
      var zn := ZoneInit(z, zi, size);
      var c := ChunkAt(zn, 0);
      FirstChunk(z, zn, zonePages);
      NotHeld(held, zones, live, large, spans, zoneFree, zonePages, z, zonePages, c);
      UsageStarted(usage0, usage, spans, zones, large, zonePages, z, zn);
      NewZone(zones, live, zoneFree, zonePages, z);
      ZonesStarted(zones, live, zoneFree, zoneFree, zonePages, z, zn, c);
      ListsStarted(zones, zoneArray, zoneFree, zoneFree, z, zn);
      HeldStarted(held, zones, live, large, z, zn, c);
      Link(z, zi, zn, c);
      spans := spans[z := zonePages];
      assert LowestPages(runs, z, zonePages);
      return Some(c);
    }

    // The zone header is written, and the zone becomes the first of its list.
    method Link(z: Page, zi: nat, zn: Zone, c: Zones.Addr)
      requires zi < |zoneArray|
      modifies this`zones, this`zoneArray, this`live, this`held
      ensures zones == old(zones)[z := zn] && zoneArray == old(zoneArray)[zi := [z] + old(zoneArray)[zi]]
      ensures live == old(live)[z := {c}] && held == old(held)[c := zn.chunkSize]
    {
      zones := zones[z := zn];
      zoneArray := zoneArray[zi := [z] + zoneArray[zi]];
      live, held := live[z := {c}], held[c := zn.chunkSize];
    }

    // An idle zone is put to use for chunks of another size.
    method StartIdle(z: Page, zi: nat, size: nat) returns (c: Zones.Addr)
      requires Valid() && zi < NZONES && size == ChunkSize(zi) && size <= zoneLimit && zoneFree != [] && z == zoneFree[0]
      modifies this`zones, this`zoneArray, this`zoneFree, this`zoneFreeCnt, this`live, this`held
      ensures Valid() && c !in old(held) && held == old(held)[c := size] && zoneFree == old(zoneFree)[1..]
      ensures TookFresh(old(zones), old(zoneArray), z, zi, size, zoneSize, c, zones, zoneArray)
    {
      hide Canonical, Linked, Covers, SpansOk, OwnersOk, ZonesOk, ZoneListsOk, UsageOk, HeldOk, Sized, LargeLong, ZoneOk, ZoneFits,
        Distinct, ChunkSize, ChunkOffset;
      IdleHead(zones, live, zoneArray, zoneFree, zonePages);
      SizePositive(zi);
      var zn := ZoneInit(z, zi, size);
      c := ChunkAt(zn, 0);
      FirstChunk(z, zn, zonePages);
      TakenUnheld(held, zones, live, large, spans, pages.runs, zoneFree, zonePages, z, c);
      UsageTouched(usage, spans, zones, large, zonePages, z, zn);
      ZonesStarted(zones, live, zoneFree, zoneFree[1..], zonePages, z, zn, c);
      ListsStarted(zones, zoneArray, zoneFree, zoneFree[1..], z, zn);
      HeldStarted(held, zones, live, large, z, zn, c);
      zoneFree := zoneFree[1..];
      zoneFreeCnt := zoneFreeCnt - 1;
      Link(z, zi, zn, c);
    }

    // the loops over memusage
    method MarkZone(z: Page, small: bool)
      modifies this`usage
      ensures Marked(old(usage), usage, z, zonePages, small)
    {
      var off := 0;
      while off < zonePages
        invariant off <= zonePages && Marked(old(usage), usage, z, off, small)
      {
        usage := usage[z + off := if small then Small(off) else Free];
        off := off + 1;
      }
    }

    // rt_malloc
    method Malloc(size: nat) returns (p: Option<Zones.Addr>)
      requires Valid() && size < W32
      modifies this, pages
      ensures Valid()
      ensures p == None <==>
        size == 0 || (if size >= zoneLimit then NoPages(old(pages.runs), U32(size + PAGE - 1) / PAGE)
                      else var zi := ZoneIndex(size).0;
                           zi < |old(zoneArray)| && old(zoneArray)[zi] == [] && old(zoneFree) == [] && NoPages(old(pages.runs), zonePages))
      ensures p == None ==> held == old(held) && pages.runs == old(pages.runs)
      ensures p.Some? ==> p.value !in old(held)
      ensures p.Some? ==> var n := if size >= zoneLimit then U32(size + PAGE - 1) / PAGE * PAGE else ZoneIndex(size).1;
                          n >= size && held == old(held)[p.value := n]
      ensures p.Some? && size >= zoneLimit ==> exists b: Page :: p.value == b * PAGE && LowestPages(old(pages.runs), b, U32(size + PAGE - 1) / PAGE)
      ensures p.Some? && size < zoneLimit ==>
        var (zi, chunk) := ZoneIndex(size);
        && zi < |old(zoneArray)|
        && if old(zoneArray)[zi] != [] then
             TookListed(old(zones), old(zoneArray), zi, p.value, zones, zoneArray) && zoneFree == old(zoneFree) && pages.runs == old(pages.runs)
           else if old(zoneFree) != [] then
             && TookFresh(old(zones), old(zoneArray), old(zoneFree)[0], zi, chunk, zoneSize, p.value, zones, zoneArray)
             && zoneFree == old(zoneFree)[1..] && pages.runs == old(pages.runs)
           else
             && zoneFree == []
             && exists z: Page :: LowestPages(old(pages.runs), z, zonePages)
                                  && TookFresh(old(zones), old(zoneArray), z, zi, chunk, zoneSize, p.value, zones, zoneArray)
    {
      hide Canonical, Linked, AllFree, Covers, TookListed, TookFresh, LowestPages, SpansOk, OwnersOk, ZonesOk, UsageOk, HeldOk, LargeLong, ZoneIndex, ChunkSize;
      if size == 0 {
        return None;
      }
      if size >= zoneLimit {
        p := MallocLarge(size);
        return p;
      }
      ZoneIndexFits(size);
      LimitIsChunk(size, zoneLimit);
      var (zi, chunk) := ZoneIndex(size);
      if zoneArray[zi] != [] {
        var c := MallocListed(zi);
        return Some(c);
      }
      p := MallocFresh(zi, chunk);
    }

    // rt_free of a large block
    method FreeLarge(p: Zones.Addr, size: nat, ghost b: Page)
      requires Valid() && b in large && p == b * PAGE && size == large[b]
      modifies this`usage, this`large, this`spans, this`held, pages
      ensures Valid() && p in old(held) && held == old(held) - {p} && p / PAGE == b
      ensures pages.runs == FreeOne(old(pages.runs), Run(b, size))
    {
      hide Canonical, Linked, Covers, SpansOk, OwnersOk, ZonesOk, ZoneListsOk, UsageOk, HeldOk, Sized, LargeLong, FreeOne;
      CountPositive();
      LargeDropped(held, zones, live, large, spans, usage, pages.runs, zoneFree, zonePages, b);
      SpanApart(spans, pages.runs, b);
      PageOf(b);
      ghost var runs := pages.runs;
      usage := usage[p / PAGE := Large(0)];
      pages.PageFree(p / PAGE, size);
      SpansDrop(spans, runs, pages.runs, b);
      large, spans, held := large - {b}, spans - {b}, held - {p};
    }

    // The chunk goes back to its zone, and the zone to its list if it had no chunk left.
    method GiveBack(p: Zones.Addr, z: Page)
      requires Valid() && z in zones && p in live[z]
      modifies this`zones, this`zoneArray, this`live, this`held
      ensures Valid() && p in old(held) && held == old(held) - {p} && z in zones && z !in zoneFree && zones[z].nfree > 0
      ensures |old(zoneArray)| == |zoneArray| == NZONES && zones[z].zoneIndex < NZONES && z in zoneArray[zones[z].zoneIndex]
      ensures zones == old(zones)[z := GivenZone(old(zones)[z], p)]
      ensures var zi := zones[z].zoneIndex; zoneArray == old(zoneArray)[zi := ListAfterGive(old(zoneArray)[zi], z, old(zones)[z].nfree)]
    {
      hide Canonical, Linked, Covers, SpansOk, OwnersOk, ZonesOk, UsageOk, HeldOk, Sized, LargeLong, ZoneOk, ZoneFits, Distinct, ChunkSize;
      ZoneAt(zones, live, zoneFree, zonePages, z);
      NotIdle(zones, live, zoneFree, zonePages, z, p);
      var zn := GivenZone(zones[z], p);
      GiveOk(zones[z], live[z], p);
      ChunkInZone(z, zones[z], live[z], zonePages, p);
      ChunkOwner(zones, live, large, spans, pages.runs, zoneFree, zonePages, z, p);
      ZonesTouched(zones, live, zoneFree, zonePages, z, zn, live[z] - {p});
      UsageTouched(usage, spans, zones, large, zonePages, z, zn);
      ZoneListsGiven(zones, zoneArray, zoneFree, z, zn);
      HeldGiven(held, zones, live, large, z, zn, p);
      HeldHas(held, zones, live, large, z, p);
      if zones[z].nfree == 0 {
        zoneArray := zoneArray[zn.zoneIndex := [z] + zoneArray[zn.zoneIndex]];
      }
      zones := zones[z := zn];
      live, held := live[z := live[z] - {p}], held - {p};
    }

    // A zone without chunks in use moves to the idle zones; a third idle zone gives its pages back.
    method Retire(z: Page)
      requires Valid() && z in zones && z !in zoneFree && zones[z].nfree == zones[z].nmax && zones[z].zoneIndex < NZONES
      modifies this, pages
      ensures Valid() && held == old(held)
      ensures var zi := old(zones)[z].zoneIndex; zi < |old(zoneArray)| && zoneArray == old(zoneArray)[zi := Remove(old(zoneArray)[zi], z)]
      ensures if old(zoneFreeCnt) < RELEASE then zones == old(zones) && zoneFree == [z] + old(zoneFree) && pages.runs == old(pages.runs)
              else zones == old(zones) - {z} && zoneFree == old(zoneFree) && pages.runs == FreeOne(old(pages.runs), Run(z, zonePages))
    {
      hide Canonical, Linked, Covers, SpansOk, OwnersOk, ZonesOk, UsageOk, HeldOk, Sized, LargeLong, ZoneOk, ZoneFits, Distinct, ChunkSize;
      CountPositive();
      ZoneAt(zones, live, zoneFree, zonePages, z);
      FreeCount(zones[z], live[z]);
      ZoneListsIdled(zones, zoneArray, zoneFree, z);
      ZonesIdled(zones, live, zoneFree, zonePages, z);
      var zi := zones[z].zoneIndex;
      zoneArray := zoneArray[zi := Remove(zoneArray[zi], z)];
      zoneFree := [z] + zoneFree;
      zoneFreeCnt := zoneFreeCnt + 1;
      if zoneFreeCnt > RELEASE {
        GiveUp(z);
      }
    }

    method GiveUp(z: Page)
      requires pages.Valid() && Sized(zoneSize, zoneLimit, zonePages) && zonePages > 0
      requires SpansOk(spans, pages.runs) && OwnersOk(spans, zones, large, zonePages) && LargeLong(large)
      requires ZonesOk(zones, live, zoneFree, zonePages) && ZoneListsOk(zones, zoneArray, zoneFree)
      requires UsageOk(usage, zones, large, zonePages) && HeldOk(held, zones, live, large)
      requires zoneFreeCnt == |zoneFree| == RELEASE + 1 && z == zoneFree[0]
      modifies this`zones, this`zoneFree, this`zoneFreeCnt, this`usage, this`live, this`spans, pages
      ensures Valid() && zoneFreeCnt == RELEASE && zoneFree == old(zoneFree)[1..] && zones == old(zones) - {z}
      ensures pages.runs == FreeOne(old(pages.runs), Run(z, zonePages))
    {
      hide Canonical, Linked, Covers, SpansOk, OwnersOk, ZonesOk, ZoneListsOk, UsageOk, HeldOk, Sized, LargeLong, Marked, FreeOne;
      IdleHead(zones, live, zoneArray, zoneFree, zonePages);
      ZonesReleased(zones, live, zoneFree, zonePages, z, zoneArray, large, held);
      ZoneSpan(spans, zones, large, zonePages, z);
      SpanApart(spans, pages.runs, z);
      ghost var usage0, runs := usage, pages.runs;
      zoneFree := zoneFree[1..];
      zoneFreeCnt := zoneFreeCnt - 1;
      MarkZone(z, false);
      UsageReleased(usage0, usage, spans, runs, zones, large, zonePages, z);
      pages.PageFree(z, zonePages);
      SpansDrop(spans, runs, pages.runs, z);
      zones, live, spans := zones - {z}, live - {z}, spans - {z};
    }

    // rt_free of a chunk
    method FreeSmall(p: Zones.Addr, z: Page)
      requires Valid() && z in zones && p in live[z]
      modifies this, pages
      ensures Valid() && p in old(held) && held == old(held) - {p}
      ensures GaveChunk(old(zones), old(zoneArray), old(zoneFree), old(pages.runs), zonePages, z, p, zones, zoneArray, zoneFree, pages.runs)
    {
      hide Canonical, Linked, Covers, SpansOk, OwnersOk, ZonesOk, ZoneListsOk, UsageOk, HeldOk, Sized, LargeLong, FreeOne;
      ghost var zones0, lists0 := zones, zoneArray;
      GiveBack(p, z);
      var zi := zones[z].zoneIndex;
      ghost var lists1 := zoneArray;
      if zones[z].nfree == zones[z].nmax && zoneArray[zi] != [z] {
        Retire(z);
        assert zoneArray == lists0[zi := Remove(lists1[zi], z)];
        assert zones0[z := GivenZone(zones0[z], p)] - {z} == zones0 - {z};
      }
    }

    // rt_free
    method FreePtr(p: Option<Zones.Addr>)
      requires Valid() && (p.Some? ==> p.value in held)
      modifies this, pages
      ensures Valid() && held == if p == None then old(held) else old(held) - {p.value}
      ensures if p == None then zones == old(zones) && zoneArray == old(zoneArray) && zoneFree == old(zoneFree) && pages.runs == old(pages.runs)
              else GaveBack(old(usage), old(zones), old(zoneArray), old(zoneFree), old(pages.runs), zonePages, p.value,
                            zones, zoneArray, zoneFree, pages.runs)
    {
      hide Canonical, Linked, Covers, SpansOk, OwnersOk, ZonesOk, ZoneListsOk, UsageOk, HeldOk, Sized, LargeLong, FreeOne, GaveChunk;
      if p == None {
        return;
      }
      CountPositive();
      ghost var owner: Page := PageMapLeadsBack(p.value);
      var q: Page := p.value / PAGE;
      match usage[q]
      case Large(size) => FreeLarge(p.value, size, owner);
      case Small(offset) =>
        var z: Page := q - offset;
        FreeSmall(p.value, z);
      case Free => assert false;
    }

    /** No two pointers that callers hold share a byte. */
    lemma NoOverlap(p: Zones.Addr, q: Zones.Addr)
      requires Valid() && p in held && q in held && p != q
      ensures p + held[p] <= q || q + held[q] <= p
    {
      hide Canonical, Linked, Covers, SpansOk, OwnersOk, ZonesOk, ZoneListsOk, UsageOk, HeldOk, Sized, LargeLong;
      HeldApart(held, zones, live, large, spans, pages.runs, zoneFree, zonePages, p, q);
    }

    /** The page map leads from any pointer in use back to its zone, or to its large block. */
    lemma PageMapLeadsBack(p: Zones.Addr) returns (a: Page)
      requires Valid() && p in held
      ensures p >= 0 && p / PAGE in usage
      ensures match usage[p / PAGE]
              case Small(offset) => a in zones && p in live[a] && a == p / PAGE - offset
              case Large(n) => a in large && p == a * PAGE && n == large[a]
              case Free => false
    {
      hide Canonical, Linked, Covers, SpansOk, ZoneListsOk, Sized, LargeLong, ZoneOk, ZoneFits;
      a := HeldWithin(held, zones, live, large, spans, zoneFree, zonePages, p);
      if a in live && p in live[a] {
        ZoneAt(zones, live, zoneFree, zonePages, a);
        ChunkInZone(a, zones[a], live[a], zonePages, p);
      } else {
        PageOf(a);
      }
    }
  }

  lemma SpanApart(spans: map<Page, nat>, runs: seq<Run>, b: Page)
    requires SpansOk(spans, runs) && b in spans
    ensures Apart(runs, Run(b, spans[b]))
  {
  }

  lemma ZoneSpan(spans: map<Page, nat>, zones: map<Page, Zone>, large: map<Page, nat>, count: nat, z: Page)
    requires OwnersOk(spans, zones, large, count) && z in zones
    ensures z in spans && spans[z] == count
  {
  }

  lemma NotIdle(zones: map<Page, Zone>, live: map<Page, set<Zones.Addr>>, idle: seq<Page>, count: nat, z: Page, p: Zones.Addr)
    requires ZonesOk(zones, live, idle, count) && z in zones && p in live[z]
    ensures z !in idle
  {
    hide ZoneOk, ZoneFits;
  }

  lemma HeldHas(held: map<Zones.Addr, nat>, zones: map<Page, Zone>, live: map<Page, set<Zones.Addr>>, large: map<Page, nat>,
                z: Page, p: Zones.Addr)
    requires HeldOk(held, zones, live, large) && z in zones && p in live[z]
    ensures p in held
  {
  }

  lemma NothingYet(runs: seq<Run>, count: nat)
    ensures SpansOk(map[], runs) && OwnersOk(map[], map[], map[], count) && LargeLong(map[])
    ensures ZonesOk(map[], map[], [], count) && ZoneListsOk(map[], seq(NZONES, _ => []), [])
    ensures UsageOk(map[], map[], map[], count) && HeldOk(map[], map[], map[], map[])
  {
  }

  lemma OneRun(start: Page, npages: nat, n: nat)
    requires 0 < n <= npages
    ensures AllFree([Run(start, npages)], start, n)
    ensures forall i | 0 <= i < 1 :: Taken([Run(start, npages)], i, n) == if npages == n then [] else [Run(start + n, npages - n)]
  {
    forall q: Page | start <= q < start + n
      ensures Covers([Run(start, npages)], q)
    {
      assert InRun([Run(start, npages)][0], q);
    }
  }

  ghost predicate NoPages(runs: seq<Run>, n: nat) {
    n == 0 || forall b: Page :: !AllFree(runs, b, n)
  }

  // RT_ALIGN to pages wraps around for the last page of the address space, which leaves 0 pages.
  lemma LargeSize(size: nat)
    requires 0 < size < W32
    ensures var n := U32(size + PAGE - 1) / PAGE; n > 0 ==> n * PAGE >= size
  {
  }

  lemma OwnSpanOf(spans: map<Page, nat>, b: Page, n: nat)
    requires forall a | a in spans :: a + spans[a] <= b || b + n <= a
    ensures OwnSpan(spans, b, n)
  {
  }

  lemma ZoneAt(zones: map<Page, Zone>, live: map<Page, set<Zones.Addr>>, idle: seq<Page>, count: nat, z: Page)
    requires ZonesOk(zones, live, idle, count) && z in zones
    ensures z in live && ZoneOk(zones[z], live[z]) && ZoneFits(z, zones[z], count)
    ensures zones[z].zoneIndex < NZONES && zones[z].chunkSize == ChunkSize(zones[z].zoneIndex)
  {
    hide ChunkSize, ZoneFits, Distinct;
  }

  lemma AfterTakePlace(zn: Zone)
    ensures SamePlace(zn, AfterTake(zn))
  {
  }

  lemma FreshFits(z: Page, zn: Zone, zoneSize: nat, off: nat)
    requires zn.chunkSize >= 8 && off <= zoneSize && zn.nmax == (zoneSize - off) / zn.chunkSize >= 2
    requires zn.base == z * PAGE + off && zoneSize % PAGE == 0
    ensures ZoneFits(z, zn, zoneSize / PAGE)
  {
    var x := zoneSize - off;
    assert x == zn.nmax * zn.chunkSize + x % zn.chunkSize;
  }

  lemma FirstChunk(z: Page, zn: Zone, count: nat)
    requires ZoneFits(z, zn, count)
    ensures var c := ChunkAt(zn, 0); z * PAGE <= c < (z + count) * PAGE && z <= c / PAGE < z + count
  {
    ChunkOrder(zn, 0, zn.nmax);
  }

  lemma NewZone(zones: map<Page, Zone>, live: map<Page, set<Zones.Addr>>, idle: seq<Page>, count: nat, z: Page)
    requires ZonesOk(zones, live, idle, count) && z !in zones
    ensures z !in live && z !in idle
  {
    hide ZoneOk, ZoneFits;
  }

  lemma IdleHead(zones: map<Page, Zone>, live: map<Page, set<Zones.Addr>>, lists: seq<seq<Page>>, idle: seq<Page>, count: nat)
    requires ZonesOk(zones, live, idle, count) && ZoneListsOk(zones, lists, idle) && idle != []
    ensures var z := idle[0]; z in zones && z in live && live[z] == {} && z !in idle[1..] && Distinct(idle[1..]) && z in idle && |lists| == NZONES
    ensures (forall y | y in idle[1..] :: y in idle) && forall y | y in idle && y != idle[0] :: y in idle[1..]
  {
    hide ZoneOk, ZoneFits;
    DistinctTail(idle);
    hide Distinct;
    assert idle == [idle[0]] + idle[1..];
  }
}
