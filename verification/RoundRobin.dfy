/** Time slicing among the threads of the best priority: fairness of the ready list's rotation. */
module RoundRobin {

  /** One thread of the best ready list: its handle, its slice, and what is left of the slice. */
  datatype Slot = Slot(thread: nat, initTick: nat, remainingTick: nat)

  ghost predicate Positive(ring: seq<Slot>) {
    forall i | 0 <= i < |ring| :: 0 < ring[i].remainingTick && 0 < ring[i].initTick
  }

  /** One tick: the head's slice shrinks; when it is used up it is refilled and the head goes to the end. */
  function Tick(ring: seq<Slot>): (r: seq<Slot>)
    requires ring != [] && ring[0].remainingTick > 0
    ensures |r| == |ring|
  {
    var left := ring[0].remainingTick - 1;
    if left > 0 then [ring[0].(remainingTick := left)] + ring[1..]
    else ring[1..] + [Refilled(ring[0])]
  }

  function Refilled(s: Slot): Slot {
    s.(remainingTick := s.initTick)
  }

  function RefilledAll(ring: seq<Slot>): seq<Slot> {
    seq(|ring|, i requires 0 <= i < |ring| => Refilled(ring[i]))
  }

  function Ticks(ring: seq<Slot>, n: nat): (r: seq<Slot>)
    requires ring != [] && Positive(ring)
    ensures |r| == |ring| && Positive(r)
    decreases n
  {
    if n == 0 then ring else Ticks(Tick(ring), n - 1)
  }

  function Remaining(ring: seq<Slot>): nat {
    if ring == [] then 0 else ring[0].remainingTick + Remaining(ring[1..])
  }

  lemma {:induction false} TicksAdd(ring: seq<Slot>, m: nat, n: nat)
    requires ring != [] && Positive(ring)
    ensures Ticks(ring, m + n) == Ticks(Ticks(ring, m), n)
    decreases m
  {
    if m > 0 {
      TicksAdd(Tick(ring), m - 1, n);
    }
  }

  /** The head runs for exactly what is left of its slice, and then goes to the end with a fresh one. */
  lemma {:induction false} HeadExpires(ring: seq<Slot>)
    requires ring != [] && Positive(ring)
    ensures Ticks(ring, ring[0].remainingTick) == ring[1..] + [Refilled(ring[0])]
    decreases ring[0].remainingTick
  {
    var next := Tick(ring);
    if ring[0].remainingTick == 1 {
      assert Ticks(next, 0) == next;
    } else {
      HeadExpires(next);
      assert next[1..] == ring[1..];
    }
  }

  /** After exactly the ticks that the first i threads have left, the ring has rotated by i:
      thread i runs, and the i threads before it wait behind the others with fresh slices. */
  lemma {:induction false} RotatesBy(ring: seq<Slot>, i: nat)
    requires Positive(ring) && i < |ring|
    ensures Ticks(ring, Remaining(ring[..i])) == ring[i..] + RefilledAll(ring[..i])
    decreases i
  {
    if i == 0 {
      assert ring[0..] + RefilledAll(ring[..0]) == ring;
    } else {
      var head := ring[0].remainingTick;
      var next := ring[1..] + [Refilled(ring[0])];
      HeadExpires(ring);
      TicksAdd(ring, head, Remaining(ring[1..i]));
      assert ring[..i][1..] == ring[1..i];
      RotatedTail(ring, i);
      hide RefilledAll, Ticks;
      RotatesBy(next, i - 1);
    }
  }

  lemma RotatedTail(ring: seq<Slot>, i: nat)
    requires 0 < i < |ring|
    ensures var next := ring[1..] + [Refilled(ring[0])];
      ring[1..i] == next[..i - 1] && next[i - 1..] + RefilledAll(next[..i - 1]) == ring[i..] + RefilledAll(ring[..i])
  {
  }

  function Slices(ring: seq<Slot>): nat {
    if ring == [] then 0 else ring[0].initTick + Slices(ring[1..])
  }

  lemma {:induction false} RemainingWithinSlices(ring: seq<Slot>)
    requires forall i | 0 <= i < |ring| :: ring[i].remainingTick <= ring[i].initTick
    ensures Remaining(ring) <= Slices(ring)
  {
    if ring != [] {
      RemainingWithinSlices(ring[1..]);
    }
  }

  lemma {:induction false} PrefixSlices(ring: seq<Slot>, i: nat)
    requires i <= |ring|
    ensures Slices(ring[..i]) + Slices(ring[i..]) == Slices(ring)
  {
    if i > 0 {
      PrefixSlices(ring[1..], i - 1);
      assert ring[..i][1..] == ring[1..][..i - 1] && ring[i..] == ring[1..][i - 1..];
    } else {
      assert ring[..0] == [] && ring[0..] == ring;
    }
  }

  /** Every slot heads the ring again within the sum of the slices of the others. */
  lemma EveryThreadRuns(ring: seq<Slot>, i: nat)
    requires Positive(ring) && i < |ring|
    requires forall j | 0 <= j < |ring| :: ring[j].remainingTick <= ring[j].initTick
    ensures var n := Remaining(ring[..i]); n <= Slices(ring) - ring[i].initTick && Ticks(ring, n)[0] == ring[i]
  {
    RotatesBy(ring, i);
    RemainingWithinSlices(ring[..i]);
    PrefixSlices(ring, i);
  }
}

/** The kernel's clock tick is a tick of the ring. */
module RoundRobinTick {
  import opened BitIndex
  import opened Kernels
  import opened Lists
  import opened RoundRobin
  import opened Words

  function Ring(tcb: map<Tid, Tcb>, list: seq<Tid>): (ring: seq<Slot>)
    requires forall t | t in list :: t in tcb
    ensures |ring| == |list|
  {
    seq(|list|, i requires 0 <= i < |list| => Slot(list[i], tcb[list[i]].initTick, tcb[list[i]].remainingTick))
  }

  /** What rt_tick_increase does to the running thread and to the best ready list, which that thread heads,
      is one tick of the ring. */
  lemma TickIsRingTick(tcb: map<Tid, Tcb>, list: seq<Tid>, tcb': map<Tid, Tcb>, list': seq<Tid>)
    requires list != [] && Distinct(list) && (forall t | t in list :: t in tcb)
    requires tcb[list[0]].remainingTick > 0
    requires var b := tcb[list[0]];
      && tcb' == tcb[list[0] := b.(remainingTick := if b.remainingTick == 1 then b.initTick else b.remainingTick - 1)]
      && list' == if b.remainingTick == 1 && |list| > 1 then Remove(list, list[0]) + [list[0]] else list
    ensures Ring(tcb', list') == Tick(Ring(tcb, list))
  {
    var left := tcb[list[0]].remainingTick - 1;
    var ring, ring' := Ring(tcb, list), Ring(tcb', list');
    hide Distinct, Ring;
    RingAt(tcb, list);
    RingAt(tcb', list');
    OthersKept(tcb, list, tcb');
    forall i | 0 <= i < |list|
      ensures ring'[i] == Tick(ring)[i]
    {
      if left > 0 || |list| == 1 {
        assert list'[i] == list[i];
      } else {
        assert list'[i] == if i + 1 < |list| then list[i + 1] else list[0];
      }
    }
  }

  lemma RingAt(tcb: map<Tid, Tcb>, list: seq<Tid>)
    requires forall t | t in list :: t in tcb
    ensures forall i | 0 <= i < |list| :: Ring(tcb, list)[i] == Slot(list[i], tcb[list[i]].initTick, tcb[list[i]].remainingTick)
  {
  }

  lemma OthersKept(tcb: map<Tid, Tcb>, list: seq<Tid>, tcb': map<Tid, Tcb>)
    requires list != [] && Distinct(list) && (forall t | t in list :: t in tcb && t in tcb')
    requires forall t | t in tcb && t != list[0] :: t in tcb' && tcb'[t] == tcb[t]
    ensures forall i | 0 < i < |list| :: tcb'[list[i]] == tcb[list[i]]
  {
  }

  /** The scheduler runs: the current thread heads the best ready list, that of priority p, whose threads all have slices. */
  ghost predicate Runs(k: Kernel, p: nat)
    reads k
  {
    && k.Valid() && k.lockNest == 0 && k.tick < W32
    && p < |k.table| && k.table[p] != [] && (forall q | 0 <= q < p :: k.table[q] == [])
    && k.current == Some(k.table[p][0])
    && (forall t | t in k.table[p] :: t in k.tcb)
    && Positive(Ring(k.tcb, k.table[p]))
  }

  // In a consistent kernel the best ready list is without repetition, and its threads have its priority.
  lemma BestList(tcb: map<Tid, Tcb>, ready: seq<seq<Tid>>, group: Word, bytes: seq<Word>,
                 wait: map<QueueId, seq<Tid>>, defunct: seq<Tid>, p: nat)
    requires Consistent(tcb, ready, group, bytes, wait, defunct, {}) && p < |ready| && ready[p] != []
    ensures Distinct(ready[p]) && SomeReady(ready)
    ensures forall t | t in ready[p] :: t in tcb && tcb[t].currentPriority == p && tcb[t].stat == Ready
  {
  }

  lemma BestHead(ready: seq<seq<Tid>>, p: nat, t: Tid)
    requires p < |ready| && ready[p] != [] && (forall q | 0 <= q < p :: ready[q] == []) && HeadsBest(ready, t)
    ensures t == ready[p][0]
  {
  }

  lemma HeadHasTicks(tcb: map<Tid, Tcb>, list: seq<Tid>)
    requires list != [] && (forall t | t in list :: t in tcb) && Positive(Ring(tcb, list))
    ensures tcb[list[0]].remainingTick > 0
  {
    RingAt(tcb, list);
  }

  lemma StaysPositive(ring: seq<Slot>)
    requires ring != [] && Positive(ring)
    ensures Positive(Tick(ring))
  {
    assert Ticks(ring, 1) == Ticks(Tick(ring), 0);
  }

  /** One call of rt_tick_increase: the ready list makes one tick of the ring, and its head is current. */
  method TickOnce(k: Kernel, ghost p: nat)
    requires Runs(k, p)
    modifies k
    ensures Runs(k, p) && k.tick == U32(old(k.tick) + 1)
    ensures Ring(k.tcb, k.table[p]) == Tick(old(Ring(k.tcb, k.table[p])))
  {
    hide Consistent, HeadsBest, SomeReady, Distinct, Positive, Ring, Remove, Tick;
    ghost var tcb, table := k.tcb, k.table;
    BestList(tcb, table, k.group, k.readyTable, k.wait, k.defunct, p);
    HeadHasTicks(tcb, table[p]);
    StaysPositive(Ring(tcb, table[p]));
    k.TickIncrease();
    if tcb[table[p][0]].remainingTick == 1 && |table[p]| > 1 {
      BestHead(k.table, p, k.current.value);
    }
    BestList(k.tcb, k.table, k.group, k.readyTable, k.wait, k.defunct, p);
    TickIsRingTick(tcb, table[p], k.tcb, k.table[p]);
  }

  /** n calls of it make n ticks of the ring; the head of the list is current throughout. */
  method RunTicks(k: Kernel, n: nat, ghost p: nat)
    requires Runs(k, p)
    modifies k
    ensures Runs(k, p) && k.tick == U32(old(k.tick) + n)
    ensures Ring(k.tcb, k.table[p]) == Ticks(old(Ring(k.tcb, k.table[p])), n)
  {
    hide Kernel.Valid, Positive, Ring, Tick;
    ghost var ring := Ring(k.tcb, k.table[p]);
    var j := 0;
    while j < n
      invariant j <= n && Runs(k, p) && k.tick == U32(old(k.tick) + j)
      invariant Ring(k.tcb, k.table[p]) == Ticks(ring, j)
    {
      TicksAdd(ring, j, 1);
      U32Add(old(k.tick) + j, 1);
      TickOnce(k, p);
      OneTick(Ticks(ring, j));
      j := j + 1;
    }
  }

  lemma OneTick(ring: seq<Slot>)
    requires ring != [] && Positive(ring)
    ensures Ticks(ring, 1) == Tick(ring)
  {
    assert Ticks(ring, 1) == Ticks(Tick(ring), 0);
  }

  /** Fairness: thread i of the best ready list is the current thread n ticks later, within the slices of the others. */
  method RunsAgain(k: Kernel, p: nat, i: nat) returns (n: nat)
    requires Runs(k, p) && i < |k.table[p]|
    requires forall t | t in k.table[p] :: k.tcb[t].remainingTick <= k.tcb[t].initTick
    modifies k
    ensures n <= Slices(old(Ring(k.tcb, k.table[p]))) - old(k.tcb[k.table[p][i]].initTick)
    ensures k.tick == U32(old(k.tick) + n) && Runs(k, p) && k.current == Some(old(k.table[p][i]))
  {
    hide Consistent, Positive, Ring, Ticks, Slices, Remaining;
    var ring := Ring(k.tcb, k.table[p]);
    RingAt(k.tcb, k.table[p]);
    EveryThreadRuns(ring, i);
    n := Remaining(ring[..i]);
    RunTicks(k, n, p);
    RingAt(k.tcb, k.table[p]);
  }
}
