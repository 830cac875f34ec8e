/** The bitmap index over the ready lists. */
module ReadyIndex {
  import opened BitIndex

  /** One word for at most 32 priorities; otherwise a byte per eight priorities and a word over the bytes. */
  ghost predicate IndexAgrees<T>(ready: seq<seq<T>>, group: Word, bytes: seq<Word>)
    requires |bytes| == 32
  {
    if |ready| <= 32 then
      forall p: nat | p < 32 :: p in group <==> p < |ready| && ready[p] != []
    else
      && (forall n, b | 0 <= n < 32 && b in bytes[n] :: b < 8)
      && (forall n, b | 0 <= n < 32 && 0 <= b < 8 :: b in bytes[n] <==> 8 * n + b < |ready| && ready[8 * n + b] != [])
      && (forall n | 0 <= n < 32 :: n in group <==> bytes[n] != {})
  }

  /** How rt_schedule reads the best priority off the index. */
  function HighestReady(max: nat, group: Word, bytes: seq<Word>): int
    requires |bytes| == 32
  {
    var number := Ffs(group) - 1;
    if max <= 32 then number
    else if 0 <= number < 32 then number * 8 + Ffs(bytes[number]) - 1
    else -1
  }

  lemma IndexSet<T>(ready: seq<seq<T>>, group: Word, bytes: seq<Word>, n: nat, b: nat, list: seq<T>)
    requires |bytes| == 32 && 32 < |ready| <= 256 && b < 8 && 8 * n + b < |ready| && list != []
    requires IndexAgrees(ready, group, bytes)
    ensures IndexAgrees(ready[8 * n + b := list], group + {n}, bytes[n := bytes[n] + {b}])
  {
  }

  lemma IndexClear<T>(ready: seq<seq<T>>, group: Word, bytes: seq<Word>, n: nat, b: nat)
    requires |bytes| == 32 && 32 < |ready| <= 256 && b < 8 && 8 * n + b < |ready|
    requires IndexAgrees(ready, group, bytes)
    ensures var w := bytes[n] - {b};
      IndexAgrees(ready[8 * n + b := []], if w == {} then group - {n} else group, bytes[n := w])
  {
    var w: Word := bytes[n] - {b};
    var bytes', ready' := bytes[n := w], ready[8 * n + b := []];
    forall m, c | 0 <= m < 32 && 0 <= c < 8
      ensures c in bytes'[m] <==> 8 * m + c < |ready'| && ready'[8 * m + c] != []
    {
      assert c in bytes[m] <==> 8 * m + c < |ready| && ready[8 * m + c] != [];
    }
    forall m | 0 <= m < 32
      ensures m in (if w == {} then group - {n} else group) <==> bytes'[m] != {}
    {
      assert m in group <==> bytes[m] != {};
    }
  }

  /** The index leads to the best non-empty ready list, in both configurations. */
  lemma HighestReadyIsBest<T>(ready: seq<seq<T>>, group: Word, bytes: seq<Word>, p: nat)
    requires |bytes| == 32 && |ready| <= 256
    requires IndexAgrees(ready, group, bytes)
    requires p < |ready| && ready[p] != []
    ensures var h := HighestReady(|ready|, group, bytes);
            0 <= h < |ready| && ready[h] != [] && forall q | 0 <= q < h :: ready[q] == []
  {
    hide Ffs;
    if |ready| <= 32 {
      assert p in group;
      var n := LowestBit(group);
    } else {
      BitOf(ready, group, bytes, p);
      var n := LowestBit(group);
      var b := LowestBit(bytes[n]);
      LowestIsBest(ready, group, bytes, n, b);
    }
  }

  lemma LowestBit(w: Word) returns (b: nat)
    requires w != {}
    ensures b == Ffs(w) - 1 && b in w && forall c: nat | c < b :: c !in w
  {
    FfsFindsLowest(w);
    b := Ffs(w) - 1;
  }

  lemma BitOf<T>(ready: seq<seq<T>>, group: Word, bytes: seq<Word>, p: nat)
    requires |bytes| == 32 && 32 < |ready| <= 256 && p < |ready| && ready[p] != []
    requires IndexAgrees(ready, group, bytes)
    ensures p / 8 in group
  {
    assert p == 8 * (p / 8) + p % 8 && p % 8 in bytes[p / 8];
  }

  lemma LowestIsBest<T>(ready: seq<seq<T>>, group: Word, bytes: seq<Word>, n: nat, b: nat)
    requires |bytes| == 32 && 32 < |ready| <= 256 && n in group && b in bytes[n]
    requires IndexAgrees(ready, group, bytes)
    requires forall m: nat | m < n :: m !in group
    requires forall c: nat | c < b :: c !in bytes[n]
    ensures 8 * n + b < |ready| && ready[8 * n + b] != [] && forall q | 0 <= q < 8 * n + b :: ready[q] == []
  {
    forall q | 0 <= q < 8 * n + b
      ensures ready[q] == []
    {
      EmptyBelow(ready, group, bytes, n, b, q);
    }
  }

  lemma EmptyBelow<T>(ready: seq<seq<T>>, group: Word, bytes: seq<Word>, n: nat, b: nat, q: nat)
    requires |bytes| == 32 && 32 < |ready| <= 256 && n < 32 && b < 8 && q < 8 * n + b < |ready|
    requires IndexAgrees(ready, group, bytes)
    requires forall m: nat | m < n :: m !in group
    requires forall c: nat | c < b :: c !in bytes[n]
    ensures ready[q] == []
  {
    var qn, qb := q / 8, q % 8;
    assert q == 8 * qn + qb;
    if qn < n {
      assert qn !in group;
    }
    assert qb !in bytes[qn];
  }
}

/** Threads, their ready lists and wait lists, and the scheduler. */
module Kernels {
  import opened BitIndex
  import opened ReadyIndex
  import opened Lists
  import opened Words

  type Tid = nat
  type QueueId = nat

  datatype Stat = Init | Ready | Suspend | Close
  datatype IpcFlag = Fifo | Prio
  datatype Err = EOk | EError | ETimeout | EFull
  datatype Option<T> = None | Some(value: T)

  /** The fields of a thread control block that the scheduler and the wait lists use. */
  datatype Tcb = Tcb(stat: Stat, initPriority: nat, currentPriority: nat,
                     number: nat, numberMask: Word, highMask: Word,
                     initTick: nat, remainingTick: nat, error: Err, timerArmed: bool)

  // Where a thread of priority p goes: before the first thread of strictly worse priority.
  function PrioPos(priorities: seq<nat>, p: nat): (i: nat)
    ensures i <= |priorities|
    ensures forall j | 0 <= j < i :: priorities[j] <= p
    ensures i < |priorities| ==> p < priorities[i]
  {
    if priorities == [] || p < priorities[0] then 0 else 1 + PrioPos(priorities[1..], p)
  }

  lemma {:induction false} PrioPosUnique(priorities: seq<nat>, p: nat, n: nat)
    requires n <= |priorities| && (forall i | 0 <= i < n :: priorities[i] <= p)
    requires n < |priorities| ==> p < priorities[n]
    ensures PrioPos(priorities, p) == n
  {
    if n > 0 {
      PrioPosUnique(priorities[1..], p, n - 1);
    }
  }

  function Priorities(tcb: map<Tid, Tcb>, q: seq<Tid>): (ps: seq<nat>)
    requires forall t | t in q :: t in tcb
    ensures |ps| == |q| && forall i | 0 <= i < |q| :: ps[i] == tcb[q[i]].currentPriority
  {
    seq(|q|, i requires 0 <= i < |q| => tcb[q[i]].currentPriority)
  }

  /** The wait list after rt_ipc_list_suspend. */
  function Enqueue(tcb: map<Tid, Tcb>, q: seq<Tid>, t: Tid, flag: IpcFlag): seq<Tid>
    requires t in tcb && forall u | u in q :: u in tcb
  {
    match flag
    case Fifo => q + [t]
    case Prio => InsertAt(q, PrioPos(Priorities(tcb, q), tcb[t].currentPriority), t)
  }

  // READY iff on a ready list, and then once, on the list of its current priority
  ghost predicate ReadyOk(tcb: map<Tid, Tcb>, ready: seq<seq<Tid>>, moving: set<Tid>) {
    && (forall p | 0 <= p < |ready| :: Distinct(ready[p]))
    && (forall p, t | 0 <= p < |ready| && t in ready[p] ::
          t in tcb && tcb[t].currentPriority == p && (t !in moving ==> tcb[t].stat == Ready))
    && (forall t | t in tcb && t !in moving && tcb[t].stat == Ready ::
          tcb[t].currentPriority < |ready| && t in ready[tcb[t].currentPriority])
  }

  // on a wait list only if SUSPENDed, and then once, on one such list
  ghost predicate WaitOk(tcb: map<Tid, Tcb>, wait: map<QueueId, seq<Tid>>, moving: set<Tid>) {
    && (forall q | q in wait :: Distinct(wait[q]))
    && (forall q, t | q in wait && t in wait[q] :: t in tcb && (t !in moving ==> tcb[t].stat == Suspend))
    && (forall q, r, t | q in wait && r in wait && t in wait[q] && t in wait[r] :: q == r)
  }

  // on the defunct list only if CLOSEd, and then once
  ghost predicate DefunctOk(tcb: map<Tid, Tcb>, defunct: seq<Tid>, moving: set<Tid>) {
    Distinct(defunct) && forall t | t in defunct :: t in tcb && (t !in moving ==> tcb[t].stat == Close)
  }

  /** Each thread is on the one list its state calls for; threads in `moving` may be between lists. */
  ghost predicate ListsOk(tcb: map<Tid, Tcb>, ready: seq<seq<Tid>>, wait: map<QueueId, seq<Tid>>, defunct: seq<Tid>,
                          moving: set<Tid>)
  {
    ReadyOk(tcb, ready, moving) && WaitOk(tcb, wait, moving) && DefunctOk(tcb, defunct, moving)
  }

  ghost predicate OnNoList(ready: seq<seq<Tid>>, wait: map<QueueId, seq<Tid>>, defunct: seq<Tid>, t: Tid) {
    && (forall p | 0 <= p < |ready| :: t !in ready[p])
    && (forall q | q in wait :: t !in wait[q])
    && t !in defunct
  }

  // The masks that rt_thread_startup and rt_thread_control compute from the priority.
  predicate MasksOk(max: nat, b: Tcb) {
    if max <= 32 then b.numberMask == {b.currentPriority}
    else b.number == b.currentPriority / 8 && b.numberMask == {b.number} && b.highMask == {b.currentPriority % 8}
  }

  // The index after rt_schedule_insert_thread, and after rt_schedule_remove_thread emptied the thread's list.
  function SetIndex(max: nat, b: Tcb, group: Word, bytes: seq<Word>): (r: (Word, seq<Word>))
    requires |bytes| == 32
    ensures |r.1| == 32
  {
    (group + b.numberMask,
     if max > 32 && b.number < 32 then bytes[b.number := bytes[b.number] + b.highMask] else bytes)
  }

  function ClearIndex(max: nat, b: Tcb, group: Word, bytes: seq<Word>): (r: (Word, seq<Word>))
    requires |bytes| == 32
    ensures |r.1| == 32
  {
    if max > 32 && b.number < 32 then
      var w: Word := bytes[b.number] - b.highMask;
      (if w == {} then group - b.numberMask else group, bytes[b.number := w])
    else (group - b.numberMask, bytes)
  }

  lemma IndexInsert(b: Tcb, ready: seq<seq<Tid>>, group: Word, bytes: seq<Word>, list: seq<Tid>)
    requires |bytes| == 32 && |ready| <= 256 && b.currentPriority < |ready| && MasksOk(|ready|, b) && list != []
    requires IndexAgrees(ready, group, bytes)
    ensures var (g, w) := SetIndex(|ready|, b, group, bytes); IndexAgrees(ready[b.currentPriority := list], g, w)
  {
    if |ready| > 32 {
      IndexSet(ready, group, bytes, b.number, b.currentPriority % 8, list);
    }
  }

  lemma IndexRemove(b: Tcb, ready: seq<seq<Tid>>, group: Word, bytes: seq<Word>)
    requires |bytes| == 32 && |ready| <= 256 && b.currentPriority < |ready| && MasksOk(|ready|, b)
    requires IndexAgrees(ready, group, bytes)
    ensures var (g, w) := ClearIndex(|ready|, b, group, bytes); IndexAgrees(ready[b.currentPriority := []], g, w)
  {
    if |ready| > 32 {
      IndexClear(ready, group, bytes, b.number, b.currentPriority % 8);
    }
  }

  lemma IndexKept(ready: seq<seq<Tid>>, group: Word, bytes: seq<Word>, p: nat, list: seq<Tid>)
    requires |bytes| == 32 && p < |ready| && IndexAgrees(ready, group, bytes) && (list == [] <==> ready[p] == [])
    ensures IndexAgrees(ready[p := list], group, bytes)
  {
  }

  function Unlinked(wait: map<QueueId, seq<Tid>>, t: Tid): map<QueueId, seq<Tid>> {
    map q | q in wait :: Remove(wait[q], t)
  }

  // The masks match the priority, and a thread's own timer runs only while the thread is SUSPENDed.
  ghost predicate TcbsOk(max: nat, tcb: map<Tid, Tcb>) {
    forall t | t in tcb ::
      && tcb[t].currentPriority < max && (tcb[t].stat == Ready || tcb[t].stat == Suspend ==> MasksOk(max, tcb[t]))
      && (tcb[t].timerArmed ==> tcb[t].stat == Suspend)
  }

  /** The scheduler's invariant, except that the threads of `moving` may be between lists. */
  ghost predicate Consistent(tcb: map<Tid, Tcb>, ready: seq<seq<Tid>>, group: Word, bytes: seq<Word>,
                             wait: map<QueueId, seq<Tid>>, defunct: seq<Tid>, moving: set<Tid>)
  {
    && 0 < |ready| <= 256 && |bytes| == 32
    && TcbsOk(|ready|, tcb)
    && ListsOk(tcb, ready, wait, defunct, moving)
    && IndexAgrees(ready, group, bytes)
  }

  lemma InsertKeepsLists(tcb: map<Tid, Tcb>, ready: seq<seq<Tid>>, wait: map<QueueId, seq<Tid>>, defunct: seq<Tid>, t: Tid)
    requires ListsOk(tcb, ready, wait, defunct, {t}) && t in tcb && tcb[t].currentPriority < |ready|
    requires OnNoList(ready, wait, defunct, t)
    ensures var p := tcb[t].currentPriority;
            ListsOk(tcb[t := tcb[t].(stat := Ready)], ready[p := ready[p] + [t]], wait, defunct, {})
  {
  }

  lemma InsertConsistent(tcb: map<Tid, Tcb>, ready: seq<seq<Tid>>, group: Word, bytes: seq<Word>,
                         wait: map<QueueId, seq<Tid>>, defunct: seq<Tid>, t: Tid)
    requires Consistent(tcb, ready, group, bytes, wait, defunct, {t})
    requires t in tcb && MasksOk(|ready|, tcb[t]) && !tcb[t].timerArmed && OnNoList(ready, wait, defunct, t)
    ensures var (p, (g, w)) := (tcb[t].currentPriority, SetIndex(|ready|, tcb[t], group, bytes));
            Consistent(tcb[t := tcb[t].(stat := Ready)], ready[p := ready[p] + [t]], g, w, wait, defunct, {})
  {
    var tcb' := tcb[t := tcb[t].(stat := Ready)];
    assert TcbsOk(|ready|, tcb') by {
      assert MasksOk(|ready|, tcb'[t]);
    }
    InsertKeepsLists(tcb, ready, wait, defunct, t);
    IndexInsert(tcb[t], ready, group, bytes, ready[tcb[t].currentPriority] + [t]);
  }

  lemma UnlinkedDistinct(wait: map<QueueId, seq<Tid>>, t: Tid)
    requires forall q | q in wait :: Distinct(wait[q])
    ensures forall q | q in Unlinked(wait, t) :: Distinct(Unlinked(wait, t)[q]) && t !in Unlinked(wait, t)[q]
  {
    forall q | q in wait
      ensures Distinct(Remove(wait[q], t)) && t !in Remove(wait[q], t)
    {
      RemoveDistinct(wait[q], t);
    }
  }

  lemma RemoveKeepsLists(tcb: map<Tid, Tcb>, ready: seq<seq<Tid>>, wait: map<QueueId, seq<Tid>>, defunct: seq<Tid>, t: Tid)
    requires ListsOk(tcb, ready, wait, defunct, {t}) && t in tcb && tcb[t].currentPriority < |ready|
    ensures var p := tcb[t].currentPriority;
            var ready' := ready[p := Remove(ready[p], t)];
            ListsOk(tcb, ready', Unlinked(wait, t), Remove(defunct, t), {t})
            && OnNoList(ready', Unlinked(wait, t), Remove(defunct, t), t)
  {
    RemoveDistinct(ready[tcb[t].currentPriority], t);
    RemoveDistinct(defunct, t);
    UnlinkWait(tcb, wait, t, {t});
  }

  lemma UnlinkWait(tcb: map<Tid, Tcb>, wait: map<QueueId, seq<Tid>>, t: Tid, moving: set<Tid>)
    requires WaitOk(tcb, wait, moving)
    ensures WaitOk(tcb, Unlinked(wait, t), moving) && forall q | q in Unlinked(wait, t) :: t !in Unlinked(wait, t)[q]
  {
    UnlinkedDistinct(wait, t);
    var w := Unlinked(wait, t);
    forall q, u | q in w && u in w[q]
      ensures u in wait[q]
    {
    }
  }

  lemma RemoveConsistent(tcb: map<Tid, Tcb>, ready: seq<seq<Tid>>, group: Word, bytes: seq<Word>,
                         wait: map<QueueId, seq<Tid>>, defunct: seq<Tid>, t: Tid)
    requires Consistent(tcb, ready, group, bytes, wait, defunct, {t})
    requires t in tcb && MasksOk(|ready|, tcb[t])
    ensures var p := tcb[t].currentPriority;
            var (list, wait', defunct') := (Remove(ready[p], t), Unlinked(wait, t), Remove(defunct, t));
            var (g, w) := if list == [] then ClearIndex(|ready|, tcb[t], group, bytes) else (group, bytes);
            Consistent(tcb, ready[p := list], g, w, wait', defunct', {t})
            && OnNoList(ready[p := list], wait', defunct', t)
  {
    var p := tcb[t].currentPriority;
    var list := Remove(ready[p], t);
    RemoveKeepsLists(tcb, ready, wait, defunct, t);
    if list == [] {
      IndexRemove(tcb[t], ready, group, bytes);
    } else {
      IndexKept(ready, group, bytes, p, list);
    }
  }

  // What the removal of one queue's head does to the wait lists.
  lemma UnlinkHead(tcb: map<Tid, Tcb>, ready: seq<seq<Tid>>, wait: map<QueueId, seq<Tid>>, defunct: seq<Tid>, q: QueueId)
    requires ListsOk(tcb, ready, wait, defunct, {}) && q in wait && wait[q] != []
    ensures Unlinked(wait, wait[q][0]) == wait[q := wait[q][1..]]
  {
    var t := wait[q][0];
    forall r | r in wait && r != q
      ensures t !in wait[r]
    {
      assert t in wait[q];
    }
  }

  // The same for a thread anywhere in a queue.
  // A waiter is unlinked from the one list it is on.
  lemma UnlinkWaiter(tcb: map<Tid, Tcb>, ready: seq<seq<Tid>>, group: Word, bytes: seq<Word>,
                     wait: map<QueueId, seq<Tid>>, defunct: seq<Tid>, q: QueueId, t: Tid)
    requires Consistent(tcb, ready, group, bytes, wait, defunct, {}) && q in wait && t in wait[q]
    ensures Unlinked(wait, t) == wait[q := Remove(wait[q], t)]
  {
    forall r | r in wait && r != q
      ensures t !in wait[r]
    {
    }
  }

  lemma UnlinkAt(tcb: map<Tid, Tcb>, ready: seq<seq<Tid>>, group: Word, bytes: seq<Word>,
                 wait: map<QueueId, seq<Tid>>, defunct: seq<Tid>, q: QueueId, n: nat)
    requires Consistent(tcb, ready, group, bytes, wait, defunct, {}) && q in wait && n < |wait[q]|
    ensures Unlinked(wait, wait[q][n]) == wait[q := wait[q][..n] + wait[q][n + 1..]]
  {
    var t := wait[q][n];
    RemoveAt(wait[q], n);
    forall r | r in wait && r != q
      ensures t !in wait[r]
    {
      assert t in wait[q];
    }
  }

  lemma EnqueueKeepsLists(tcb: map<Tid, Tcb>, ready: seq<seq<Tid>>, wait: map<QueueId, seq<Tid>>, defunct: seq<Tid>,
                          q: QueueId, t: Tid, flag: IpcFlag)
    requires ListsOk(tcb, ready, wait, defunct, {}) && q in wait
    requires t in tcb && tcb[t].stat == Suspend && OnNoList(ready, wait, defunct, t)
    ensures ListsOk(tcb, ready, wait[q := Enqueue(tcb, wait[q], t, flag)], defunct, {})
  {
    var s := Enqueue(tcb, wait[q], t, flag);
    if flag == Prio {
      InsertDistinct(wait[q], PrioPos(Priorities(tcb, wait[q]), tcb[t].currentPriority), t);
    }
    assert forall u | u in s :: u == t || u in wait[q];
  }

  // Only the record of t changes: as long as t keeps its priority, or is on no list, the lists stay in order.
  lemma TouchMoving(tcb: map<Tid, Tcb>, ready: seq<seq<Tid>>, wait: map<QueueId, seq<Tid>>, defunct: seq<Tid>, t: Tid, b: Tcb,
                    moving: set<Tid>)
    requires ListsOk(tcb, ready, wait, defunct, moving) && moving <= {t} && t in tcb
    requires b.currentPriority == tcb[t].currentPriority || OnNoList(ready, wait, defunct, t)
    ensures ListsOk(tcb[t := b], ready, wait, defunct, {t})
    ensures b.stat == tcb[t].stat && b.currentPriority == tcb[t].currentPriority ==> ListsOk(tcb[t := b], ready, wait, defunct, moving)
  {
  }

  lemma Settle(tcb: map<Tid, Tcb>, ready: seq<seq<Tid>>, wait: map<QueueId, seq<Tid>>, defunct: seq<Tid>, t: Tid)
    requires ListsOk(tcb, ready, wait, defunct, {t}) && t in tcb && tcb[t].stat != Ready && OnNoList(ready, wait, defunct, t)
    ensures ListsOk(tcb, ready, wait, defunct, {})
  {
  }

  lemma RepriotizeKeepsLists(tcb: map<Tid, Tcb>, ready: seq<seq<Tid>>, wait: map<QueueId, seq<Tid>>, defunct: seq<Tid>, t: Tid,
                             b: Tcb)
    requires ListsOk(tcb, ready, wait, defunct, {}) && t in tcb && tcb[t].stat != Ready && b.stat == tcb[t].stat
    ensures ListsOk(tcb[t := b], ready, wait, defunct, {})
  {
  }

  // A READY thread is on no wait list and not on the defunct list; a SUSPENDed one is at most on a wait list.
  lemma ReadyIsOnlyReady(tcb: map<Tid, Tcb>, ready: seq<seq<Tid>>, wait: map<QueueId, seq<Tid>>, defunct: seq<Tid>, t: Tid)
    requires ListsOk(tcb, ready, wait, defunct, {}) && t in tcb && tcb[t].stat == Ready
    ensures Unlinked(wait, t) == wait && Remove(defunct, t) == defunct
  {
    assert forall q | q in wait :: t !in wait[q];
  }

  lemma UnlinkSuspended(tcb: map<Tid, Tcb>, ready: seq<seq<Tid>>, wait: map<QueueId, seq<Tid>>, defunct: seq<Tid>, t: Tid)
    requires ListsOk(tcb, ready, wait, defunct, {}) && t in tcb && tcb[t].stat == Suspend
    ensures ListsOk(tcb, ready, Unlinked(wait, t), defunct, {}) && OnNoList(ready, Unlinked(wait, t), defunct, t)
  {
    UnlinkedDistinct(wait, t);
  }

  lemma WaitersExist(tcb: map<Tid, Tcb>, ready: seq<seq<Tid>>, wait: map<QueueId, seq<Tid>>, defunct: seq<Tid>, q: QueueId)
    requires ListsOk(tcb, ready, wait, defunct, {}) && q in wait
    ensures forall t | t in wait[q] :: t in tcb && tcb[t].stat == Suspend
  {
  }

  lemma WaitersOk(tcb: map<Tid, Tcb>, ready: seq<seq<Tid>>, group: Word, bytes: seq<Word>,
                  wait: map<QueueId, seq<Tid>>, defunct: seq<Tid>, q: QueueId)
    requires Consistent(tcb, ready, group, bytes, wait, defunct, {}) && q in wait
    ensures Distinct(wait[q])
    ensures forall t | t in wait[q] :: t in tcb && tcb[t].stat == Suspend && tcb[t].currentPriority < |ready|
  {
  }

  /** A thread's timer runs only while the thread is SUSPENDed. */
  lemma TimerStopped(tcb: map<Tid, Tcb>, ready: seq<seq<Tid>>, group: Word, bytes: seq<Word>,
                     wait: map<QueueId, seq<Tid>>, defunct: seq<Tid>, t: Tid)
    requires Consistent(tcb, ready, group, bytes, wait, defunct, {}) && t in tcb
    ensures tcb[t].stat != Suspend ==> !tcb[t].timerArmed
  {
  }

  lemma EnqueueConsistent(tcb: map<Tid, Tcb>, ready: seq<seq<Tid>>, group: Word, bytes: seq<Word>,
                          wait: map<QueueId, seq<Tid>>, defunct: seq<Tid>, q: QueueId, t: Tid, flag: IpcFlag)
    requires Consistent(tcb, ready, group, bytes, wait, defunct, {}) && q in wait
    requires t in tcb && tcb[t].stat == Suspend && OnNoList(ready, wait, defunct, t)
    ensures t !in wait[q] && forall u | u in wait[q] :: u in tcb
    ensures Consistent(tcb, ready, group, bytes, wait[q := Enqueue(tcb, wait[q], t, flag)], defunct, {})
  {
    hide ReadyOk, DefunctOk, IndexAgrees, TcbsOk;
    EnqueueKeepsLists(tcb, ready, wait, defunct, q, t, flag);
  }

  lemma InitIsUnlinked(tcb: map<Tid, Tcb>, ready: seq<seq<Tid>>, wait: map<QueueId, seq<Tid>>, defunct: seq<Tid>, t: Tid)
    requires ListsOk(tcb, ready, wait, defunct, {}) && t in tcb && tcb[t].stat == Init
    ensures OnNoList(ready, wait, defunct, t) && Unlinked(wait, t) == wait
    ensures forall p | 0 <= p < |ready| :: Remove(ready[p], t) == ready[p]
  {
    assert forall q | q in wait :: t !in wait[q];
  }

  lemma StartupKeepsLists(tcb: map<Tid, Tcb>, ready: seq<seq<Tid>>, wait: map<QueueId, seq<Tid>>, defunct: seq<Tid>, t: Tid, b: Tcb)
    requires ListsOk(tcb, ready, wait, defunct, {}) && t in tcb && tcb[t].stat == Init && b.stat == Suspend
    ensures ListsOk(tcb[t := b], ready, wait, defunct, {})
  {
    InitIsUnlinked(tcb, ready, wait, defunct, t);
  }

  lemma NotClosedNotDefunct(tcb: map<Tid, Tcb>, ready: seq<seq<Tid>>, wait: map<QueueId, seq<Tid>>, defunct: seq<Tid>, t: Tid)
    requires ListsOk(tcb, ready, wait, defunct, {}) && t in tcb && tcb[t].stat != Close
    ensures t !in defunct && Remove(defunct, t) == defunct
  {
  }

  lemma CloseKeepsLists(tcb: map<Tid, Tcb>, ready: seq<seq<Tid>>, wait: map<QueueId, seq<Tid>>, defunct: seq<Tid>, t: Tid)
    requires ListsOk(tcb, ready, wait, defunct, {t}) && t in tcb && OnNoList(ready, wait, defunct, t)
    ensures var tcb' := tcb[t := tcb[t].(stat := Close, timerArmed := false)];
            ListsOk(tcb', ready, wait, defunct, {}) && ListsOk(tcb', ready, wait, [t] + defunct, {})
  {
  }

  lemma ClosedHeadsNothing(tcb: map<Tid, Tcb>, ready: seq<seq<Tid>>, wait: map<QueueId, seq<Tid>>, defunct: seq<Tid>, t: Tid)
    requires ListsOk(tcb, ready, wait, defunct, {}) && t in tcb && tcb[t].stat != Ready
    ensures !HeadsBest(ready, t)
  {
  }

  lemma RotateKeepsLists(tcb: map<Tid, Tcb>, ready: seq<seq<Tid>>, wait: map<QueueId, seq<Tid>>, defunct: seq<Tid>, t: Tid)
    requires ListsOk(tcb, ready, wait, defunct, {}) && t in tcb && tcb[t].stat == Ready && tcb[t].currentPriority < |ready|
    ensures var p := tcb[t].currentPriority;
            ListsOk(tcb, ready[p := Remove(ready[p], t) + [t]], wait, defunct, {})
  {
    RemoveDistinct(ready[tcb[t].currentPriority], t);
  }

  // The thread is linked at the end of its priority's ready list, or taken off it.
  function Appended(ready: seq<seq<Tid>>, p: nat, t: Tid): seq<seq<Tid>>
    requires p < |ready|
  {
    ready[p := ready[p] + [t]]
  }

  function Dropped(ready: seq<seq<Tid>>, p: nat, t: Tid): seq<seq<Tid>>
    requires p < |ready|
  {
    ready[p := Remove(ready[p], t)]
  }

  // The thread control block of a thread made ready with the given error code.
  function Woken(b: Tcb, error: Err): Tcb {
    b.(stat := Ready, error := error, timerArmed := false)
  }

  // Every thread of the list made ready with an error, and linked to the ready lists in order.
  function AllWoken(tcb: map<Tid, Tcb>, list: seq<Tid>): map<Tid, Tcb> {
    map t | t in tcb :: if t in list then Woken(tcb[t], EError) else tcb[t]
  }

  function AllAppended(tcb: map<Tid, Tcb>, ready: seq<seq<Tid>>, list: seq<Tid>): (r: seq<seq<Tid>>)
    ensures |r| == |ready|
    decreases |list|
  {
    if list == [] || list[0] !in tcb || tcb[list[0]].currentPriority >= |ready| then ready
    else AllAppended(tcb, Appended(ready, tcb[list[0]].currentPriority, list[0]), list[1..])
  }

  // The first n threads of the list have been woken.
  ghost predicate WokenUpTo(tcb0: map<Tid, Tcb>, ready0: seq<seq<Tid>>, list: seq<Tid>, n: nat,
                            tcb: map<Tid, Tcb>, ready: seq<seq<Tid>>)
    requires n <= |list|
  {
    && tcb == AllWoken(tcb0, list[..n])
    && |ready| == |ready0| && AllAppended(tcb0, ready, list[n..]) == AllAppended(tcb0, ready0, list)
  }

  lemma WokenUpToNone(tcb: map<Tid, Tcb>, ready: seq<seq<Tid>>, list: seq<Tid>)
    ensures WokenUpTo(tcb, ready, list, 0, tcb, ready)
  {
    assert list[0..] == list;
  }

  lemma WokenUpToNext(tcb0: map<Tid, Tcb>, ready0: seq<seq<Tid>>, list: seq<Tid>, n: nat, tcb: map<Tid, Tcb>, ready: seq<seq<Tid>>)
    requires n < |list| && WokenUpTo(tcb0, ready0, list, n, tcb, ready)
    requires Distinct(list) && list[n] in tcb0 && tcb0[list[n]].currentPriority < |ready0|
    ensures var t := list[n];
            t in tcb && tcb[t] == tcb0[t] && list[n..][0] == t && list[n..][1..] == list[n + 1..] &&
            WokenUpTo(tcb0, ready0, list, n + 1, tcb[t := Woken(tcb[t], EError)], Appended(ready, tcb[t].currentPriority, t))
  {
    assert list[..n + 1] == list[..n] + [list[n]];
    assert forall t | t in list[..n] :: t != list[n];
  }

  lemma WokenUpToAll(tcb0: map<Tid, Tcb>, ready0: seq<seq<Tid>>, list: seq<Tid>, tcb: map<Tid, Tcb>, ready: seq<seq<Tid>>)
    requires WokenUpTo(tcb0, ready0, list, |list|, tcb, ready)
    ensures tcb == AllWoken(tcb0, list) && ready == AllAppended(tcb0, ready0, list)
  {
    assert list[..|list|] == list;
  }

  /** t heads the best non-empty ready list. */
  ghost predicate HeadsBest(ready: seq<seq<Tid>>, t: Tid) {
    exists p :: 0 <= p < |ready| && ready[p] != [] && ready[p][0] == t && forall q | 0 <= q < p :: ready[q] == []
  }

  ghost predicate SomeReady(ready: seq<seq<Tid>>) {
    exists p :: 0 <= p < |ready| && ready[p] != []
  }

  /** A thread is linked at one place at most, and at one place exactly when it is READY. */
  lemma OnePlace(tcb: map<Tid, Tcb>, ready: seq<seq<Tid>>, wait: map<QueueId, seq<Tid>>, defunct: seq<Tid>, t: Tid)
    requires ListsOk(tcb, ready, wait, defunct, {}) && t in tcb
    ensures tcb[t].stat == Ready <==> exists p, i :: 0 <= p < |ready| && 0 <= i < |ready[p]| && ready[p][i] == t
    ensures forall p, i | 0 <= p < |ready| && 0 <= i < |ready[p]| && ready[p][i] == t ::
              p == tcb[t].currentPriority && forall j | 0 <= j < |ready[p]| && ready[p][j] == t :: i == j
    ensures forall q, i | q in wait && 0 <= i < |wait[q]| && wait[q][i] == t ::
              tcb[t].stat == Suspend && t !in defunct
              && forall r, j | r in wait && 0 <= j < |wait[r]| && wait[r][j] == t :: q == r && i == j
    ensures t in defunct ==> tcb[t].stat == Close
  {
    if tcb[t].stat == Ready {
      var p := tcb[t].currentPriority;
      var i :| 0 <= i < |ready[p]| && ready[p][i] == t;
    }
    forall q, i, r, j | q in wait && 0 <= i < |wait[q]| && wait[q][i] == t && r in wait && 0 <= j < |wait[r]| && wait[r][j] == t
      ensures q == r && i == j
    {
      assert t in wait[q] && t in wait[r];
    }
  }

  ghost predicate Sorted(ps: seq<nat>) {
    forall i, j | 0 <= i < j < |ps| :: ps[i] <= ps[j]
  }

  lemma SortedAround(ps: seq<nat>, n: nat, p: nat)
    requires Sorted(ps) && n <= |ps| && (forall i | 0 <= i < n :: ps[i] <= p) && (forall i | n <= i < |ps| :: p <= ps[i])
    ensures Sorted(ps[..n] + [p] + ps[n..])
  {
    var r := ps[..n] + [p] + ps[n..];
    forall i, j | 0 <= i < j < |r|
      ensures r[i] <= r[j]
    {
      assert r[i] == if i < n then ps[i] else if i == n then p else ps[i - 1];
      assert r[j] == if j < n then ps[j] else if j == n then p else ps[j - 1];
    }
  }

  lemma InsertSorted(ps: seq<nat>, p: nat)
    requires Sorted(ps)
    ensures Sorted(InsertAt(ps, PrioPos(ps, p), p))
    ensures forall i | PrioPos(ps, p) <= i < |ps| :: p < ps[i]
  {
    SortedAround(ps, PrioPos(ps, p), p);
  }

  lemma PrioritiesInsert(tcb: map<Tid, Tcb>, q: seq<Tid>, n: nat, t: Tid)
    requires n <= |q| && t in tcb && forall u | u in q :: u in tcb
    ensures Priorities(tcb, InsertAt(q, n, t)) == InsertAt(Priorities(tcb, q), n, tcb[t].currentPriority)
  {
  }

  /** A PRIO wait list stays sorted by priority; the newcomer goes behind every waiter of its own or a better priority,
      and before every other one. */
  lemma PrioEnqueueSorted(tcb: map<Tid, Tcb>, q: seq<Tid>, t: Tid)
    requires t in tcb && (forall u | u in q :: u in tcb) && Sorted(Priorities(tcb, q))
    ensures Sorted(Priorities(tcb, Enqueue(tcb, q, t, Prio)))
    ensures var n := PrioPos(Priorities(tcb, q), tcb[t].currentPriority);
            Enqueue(tcb, q, t, Prio) == q[..n] + [t] + q[n..]
            && (forall i | 0 <= i < n :: tcb[q[i]].currentPriority <= tcb[t].currentPriority)
            && (forall i | n <= i < |q| :: tcb[t].currentPriority < tcb[q[i]].currentPriority)
  {
    hide Sorted;
    InsertSorted(Priorities(tcb, q), tcb[t].currentPriority);
    PrioritiesInsert(tcb, q, PrioPos(Priorities(tcb, q), tcb[t].currentPriority), t);
  }

  lemma ReplaceSorted(ps: seq<nat>, i: nat, p: nat)
    requires Sorted(ps) && i < |ps|
    ensures Sorted(ps[i := p]) <==> (i > 0 ==> ps[i - 1] <= p) && (i + 1 < |ps| ==> p <= ps[i + 1])
  {
    var qs := ps[i := p];
    assert Sorted(qs) ==> (i > 0 ==> qs[i - 1] <= qs[i]) && (i + 1 < |ps| ==> qs[i] <= qs[i + 1]);
    if (i > 0 ==> ps[i - 1] <= p) && (i + 1 < |ps| ==> p <= ps[i + 1]) {
      forall j, k | 0 <= j < k < |qs|
        ensures qs[j] <= qs[k]
      {
        assert (j < i ==> ps[j] <= ps[i - 1]) && (i < k ==> ps[i + 1] <= ps[k]);
      }
    }
  }

  /** Changing the priority of a waiting thread leaves it where it is: only its place in the list of priorities changes, and
      the wait list stays sorted exactly when the new priority still fits between those of its neighbours. */
  lemma ChangeKeepsSorted(tcb: map<Tid, Tcb>, list: seq<Tid>, i: nat, b: Tcb)
    requires (forall t | t in list :: t in tcb) && Distinct(list) && i < |list| && Sorted(Priorities(tcb, list))
    ensures var ps, tcb', p := Priorities(tcb, list), tcb[list[i] := b], b.currentPriority;
      && Priorities(tcb', list) == ps[i := p]
      && (Sorted(Priorities(tcb', list)) <==> (i > 0 ==> ps[i - 1] <= p) && (i + 1 < |ps| ==> p <= ps[i + 1]))
  {
    var ps, qs := Priorities(tcb, list), Priorities(tcb[list[i] := b], list);
    assert qs == ps[i := b.currentPriority];
    ReplaceSorted(ps, i, b.currentPriority);
  }

  /** So the better of two waiters may come to stand last: u, waiting at 20 behind t at 10, is raised to 5. */
  lemma ChangeBreaksOrder(tcb: map<Tid, Tcb>, t: Tid, u: Tid, b: Tcb)
    requires t in tcb && u in tcb && t != u
    requires tcb[t].currentPriority == 10 && tcb[u].currentPriority == 20 && b.currentPriority == 5
    ensures Sorted(Priorities(tcb, [t, u])) && !Sorted(Priorities(tcb[u := b], [t, u]))
  {
    ChangeKeepsSorted(tcb, [t, u], 1, b);
  }

  // The place rt_ipc_list_suspend gives the thread.
  function Place(tcb: map<Tid, Tcb>, list: seq<Tid>, t: Tid, flag: IpcFlag): (pos: nat)
    requires t in tcb && forall u | u in list :: u in tcb
    ensures pos <= |list|
  {
    if flag == Fifo then |list| else PrioPos(Priorities(tcb, list), tcb[t].currentPriority)
  }

  lemma EnqueueIsInsert(tcb: map<Tid, Tcb>, tcb': map<Tid, Tcb>, list: seq<Tid>, t: Tid, flag: IpcFlag)
    requires t in tcb && t !in list && (forall u | u in list :: u in tcb)
    requires t in tcb' && (forall u | u in list :: u in tcb')
    requires forall u | u in list :: tcb'[u].currentPriority == tcb[u].currentPriority
    requires tcb'[t].currentPriority == tcb[t].currentPriority
    ensures Enqueue(tcb', list, t, flag) == InsertAt(list, Place(tcb, list, t, flag), t)
  {
    assert Priorities(tcb', list) == Priorities(tcb, list);
  }

  // The thread control block of a thread put to sleep, with its timer running or not.
  function Blocked(b: Tcb, timed: bool): Tcb {
    b.(stat := Suspend, error := EOk, timerArmed := timed)
  }

  class Kernel {
    const prioMax: nat                   // RT_THREAD_PRIORITY_MAX
    var tcb: map<Tid, Tcb>
    var table: seq<seq<Tid>>             // rt_thread_priority_table
    var group: Word                      // rt_thread_ready_priority_group
    var readyTable: seq<Word>            // rt_thread_ready_table
    var wait: map<QueueId, seq<Tid>>     // the suspend_thread lists of the IPC objects
    var defunct: seq<Tid>                // rt_thread_defunct
    var current: Option<Tid>             // rt_current_thread
    var lockNest: int                    // rt_scheduler_lock_nest
    var tick: nat                        // rt_tick, a 32-bit counter

    ghost predicate Inv(moving: set<Tid>)
      reads this
    {
      |table| == prioMax && Consistent(tcb, table, group, readyTable, wait, defunct, moving)
    }

    ghost predicate Valid()
      reads this
    {
      Inv({})
    }

    // rt_schedule_insert_thread
    method InsertThread(t: Tid)
      requires Inv({t}) && t in tcb && MasksOk(prioMax, tcb[t]) && !tcb[t].timerArmed && OnNoList(table, wait, defunct, t)
      modifies this`tcb, this`group, this`table, this`readyTable
      ensures Valid()
      ensures tcb == old(tcb)[t := old(tcb[t]).(stat := Ready)]
      ensures table == Appended(old(table), tcb[t].currentPriority, t)
    {
      hide ListsOk, IndexAgrees, OnNoList;
      InsertConsistent(tcb, table, group, readyTable, wait, defunct, t);
      var b := tcb[t];
      tcb := tcb[t := b.(stat := Ready)];
      table := table[b.currentPriority := table[b.currentPriority] + [t]];
      if prioMax > 32 {
        readyTable := readyTable[b.number := readyTable[b.number] + b.highMask];
      }
      group := group + b.numberMask;
    }

    // rt_schedule_remove_thread: rt_list_remove takes tlist off whatever list it is on
    method RemoveThread(t: Tid)
      requires Inv({t}) && t in tcb && MasksOk(prioMax, tcb[t])
      modifies this`group, this`wait, this`defunct, this`table, this`readyTable
      ensures Inv({t}) && OnNoList(table, wait, defunct, t)
      ensures table == Dropped(old(table), tcb[t].currentPriority, t)
      ensures wait == Unlinked(old(wait), t) && defunct == Remove(old(defunct), t)
    {
      hide ListsOk, IndexAgrees, OnNoList;
      RemoveConsistent(tcb, table, group, readyTable, wait, defunct, t);
      var b := tcb[t];
      table := table[b.currentPriority := Remove(table[b.currentPriority], t)];
      wait := Unlinked(wait, t);
      defunct := Remove(defunct, t);
      if table[b.currentPriority] == [] {
        if prioMax > 32 {
          readyTable := readyTable[b.number := readyTable[b.number] - b.highMask];
          if readyTable[b.number] == {} {
            group := group - b.numberMask;
          }
        } else {
          group := group - b.numberMask;
        }
      }
    }

    // rt_system_scheduler_init
    constructor (max: nat)
      requires 0 < max <= 256
      ensures Valid() && prioMax == max && tcb == map[] && wait == map[] && lockNest == 0 && current == None && tick == 0
    {
      prioMax := max;
      tcb, wait, defunct := map[], map[], [];
      table := seq(max, _ => []);
      group, readyTable := {}, seq(32, _ => {});
      current, lockNest, tick := None, 0, 0;
    }

    // rt_thread_init
    method ThreadInit(t: Tid, priority: nat, tick: nat)
      requires Valid() && t !in tcb && priority < prioMax
      modifies this`tcb
      ensures Valid()
      ensures tcb == old(tcb)[t := Tcb(Init, priority, priority, 0, {}, {}, tick, tick, EOk, false)]
    {
      tcb := tcb[t := Tcb(Init, priority, priority, 0, {}, {}, tick, tick, EOk, false)];
    }

    // rt_list_init on the wait list of a new IPC object
    method QueueInit(q: QueueId)
      requires Valid() && q !in wait
      modifies this`wait
      ensures Valid() && wait == old(wait)[q := []]
    {
      wait := wait[q := []];
    }

    // rt_schedule
    method Schedule()
      requires Valid() && SomeReady(table)
      modifies this`current
      ensures if lockNest == 0 then current.Some? && HeadsBest(table, current.value) else current == old(current)
    {
      if lockNest == 0 {
        ghost var p :| 0 <= p < |table| && table[p] != [];
        HighestReadyIsBest(table, group, readyTable, p);
        var highest := HighestReady(prioMax, group, readyTable);
        var to := table[highest][0];
        if Some(to) != current {
          current := Some(to);
        }
      }
    }

    // rt_enter_critical
    method EnterCritical()
      modifies this`lockNest
      ensures lockNest == old(lockNest) + 1
    {
      lockNest := lockNest + 1;
    }

    // rt_exit_critical
    method ExitCritical()
      requires Valid() && SomeReady(table)
      modifies this`lockNest, this`current
      ensures lockNest == if old(lockNest) <= 1 then 0 else old(lockNest) - 1
      ensures if lockNest == 0 then current.Some? && HeadsBest(table, current.value) else current == old(current)
    {
      lockNest := lockNest - 1;
      if lockNest <= 0 {
        lockNest := 0;
        Schedule();
      }
    }

    // rt_thread_suspend
    method Suspend(t: Tid) returns (r: Err)
      requires Valid() && t in tcb
      modifies this`tcb, this`group, this`table, this`readyTable, this`wait, this`defunct
      ensures Valid() && wait == old(wait) && defunct == old(defunct)
      ensures r == if old(tcb[t]).stat == Ready then EOk else EError
      ensures r == EError ==> tcb == old(tcb) && table == old(table)
      ensures r == EOk ==> tcb == old(tcb)[t := old(tcb[t]).(stat := Stat.Suspend, timerArmed := false)]
      ensures r == EOk ==> table == Dropped(old(table), tcb[t].currentPriority, t) && OnNoList(table, wait, defunct, t)
    {
      hide ListsOk, IndexAgrees, OnNoList, Unlinked, Remove;
      if tcb[t].stat != Ready {
        return EError;
      }
      ReadyIsOnlyReady(tcb, table, wait, defunct, t);
      TouchMoving(tcb, table, wait, defunct, t, tcb[t].(stat := Stat.Suspend), {});
      tcb := tcb[t := tcb[t].(stat := Stat.Suspend)];
      RemoveThread(t);
      TouchMoving(tcb, table, wait, defunct, t, tcb[t].(timerArmed := false), {t});
      tcb := tcb[t := tcb[t].(timerArmed := false)];
      Settle(tcb, table, wait, defunct, t);
      return EOk;
    }

    // rt_thread_resume
    method Resume(t: Tid) returns (r: Err)
      requires Valid() && t in tcb
      modifies this`tcb, this`group, this`table, this`readyTable, this`wait
      ensures Valid()
      ensures r == if old(tcb[t]).stat == Stat.Suspend then EOk else EError
      ensures r == EError ==> tcb == old(tcb) && table == old(table) && wait == old(wait)
      ensures r == EOk ==> tcb == old(tcb)[t := Woken(old(tcb[t]), old(tcb[t]).error)]
      ensures r == EOk ==> table == Appended(old(table), tcb[t].currentPriority, t) && wait == Unlinked(old(wait), t)
    {
      hide ListsOk, IndexAgrees, OnNoList, Unlinked;
      if tcb[t].stat != Stat.Suspend {
        return EError;
      }
      UnlinkSuspended(tcb, table, wait, defunct, t);
      wait := Unlinked(wait, t);
      TouchMoving(tcb, table, wait, defunct, t, tcb[t].(timerArmed := false), {});
      tcb := tcb[t := tcb[t].(timerArmed := false)];
      InsertThread(t);
      return EOk;
    }

    // rt_thread_timeout, called from the timer interrupt
    method Timeout(t: Tid)
      requires Valid() && t in tcb && tcb[t].timerArmed
      modifies this`tcb, this`group, this`table, this`readyTable, this`wait, this`current
      ensures Valid() && old(tcb[t]).stat == Stat.Suspend
      ensures tcb == old(tcb)[t := Woken(old(tcb[t]), ETimeout)]
      ensures table == Appended(old(table), tcb[t].currentPriority, t) && wait == Unlinked(old(wait), t)
      ensures if lockNest == 0 then current.Some? && HeadsBest(table, current.value) else current == old(current)
    {
      hide ListsOk, IndexAgrees, OnNoList, Unlinked;
      UnlinkSuspended(tcb, table, wait, defunct, t);
      wait := Unlinked(wait, t);
      TouchMoving(tcb, table, wait, defunct, t, tcb[t].(error := ETimeout, timerArmed := false), {});
      tcb := tcb[t := tcb[t].(error := ETimeout, timerArmed := false)];
      InsertThread(t);
      assert table[tcb[t].currentPriority] != [];
      Schedule();
    }

    /** A wait list on which rt_thread_control changes the priority of a thread. */
    lemma ChangeInQueue(q: QueueId, i: nat, priority: nat)
      requires Valid() && q in wait && i < |wait[q]| && priority < prioMax && forall u | u in wait[q] :: u in tcb
      requires Sorted(Priorities(tcb, wait[q]))
      ensures var list := wait[q];
        var ps, tcb' := Priorities(tcb, list), tcb[list[i] := WithPriority(tcb[list[i]], priority)];
        && Priorities(tcb', list) == ps[i := priority]
        && (Sorted(Priorities(tcb', list)) <==>
              (i > 0 ==> ps[i - 1] <= priority) && (i + 1 < |ps| ==> priority <= ps[i + 1]))
    {
      hide Sorted;
      WaitersOk(tcb, table, group, readyTable, wait, defunct, q);
      ChangeKeepsSorted(tcb, wait[q], i, WithPriority(tcb[wait[q][i]], priority));
    }

    // rt_thread_control with RT_THREAD_CTRL_CHANGE_PRIORITY: a suspended thread keeps its place in its wait list
    method ChangePriority(t: Tid, priority: nat)
      requires Valid() && t in tcb && priority < prioMax
      modifies this`tcb, this`group, this`table, this`readyTable, this`wait, this`defunct
      ensures Valid() && wait == old(wait) && defunct == old(defunct)
      ensures tcb == old(tcb)[t := WithPriority(old(tcb[t]), priority)]
      ensures table == if old(tcb[t]).stat != Ready then old(table)
                       else Appended(Dropped(old(table), old(tcb[t]).currentPriority, t), priority, t)
    {
      hide ListsOk, IndexAgrees, OnNoList, Unlinked, Remove;
      var b := WithPriority(tcb[t], priority);
      if tcb[t].stat == Ready {
        ReadyIsOnlyReady(tcb, table, wait, defunct, t);
        TouchMoving(tcb, table, wait, defunct, t, tcb[t], {});
        assert tcb == tcb[t := tcb[t]];
        RemoveThread(t);
        TouchMoving(tcb, table, wait, defunct, t, b, {t});
        tcb := tcb[t := b];
        InsertThread(t);
      } else {
        RepriotizeKeepsLists(tcb, table, wait, defunct, t, b);
        tcb := tcb[t := b];
      }
    }

    // The priority and the masks recalculated from it.
    function WithPriority(b: Tcb, priority: nat): (r: Tcb)
      requires priority < prioMax <= 256
      ensures MasksOk(prioMax, r)
    {
      if prioMax > 32 then
        b.(currentPriority := priority, number := priority / 8, numberMask := {priority / 8}, highMask := {priority % 8})
      else
        b.(currentPriority := priority, numberMask := {priority})
    }

    // thread->error = e, and rt_timer_start of the thread's own timer
    method SetError(t: Tid, e: Err)
      requires Valid() && t in tcb
      modifies this`tcb
      ensures Valid() && tcb == old(tcb)[t := old(tcb[t]).(error := e)]
    {
      hide ListsOk, IndexAgrees;
      TouchMoving(tcb, table, wait, defunct, t, tcb[t].(error := e), {});
      tcb := tcb[t := tcb[t].(error := e)];
    }

    method StartTimer(t: Tid)
      requires Valid() && t in tcb && tcb[t].stat == Stat.Suspend
      modifies this`tcb
      ensures Valid() && tcb == old(tcb)[t := old(tcb[t]).(timerArmed := true)]
    {
      hide ListsOk, IndexAgrees;
      TouchMoving(tcb, table, wait, defunct, t, tcb[t].(timerArmed := true), {});
      tcb := tcb[t := tcb[t].(timerArmed := true)];
    }

    // rt_ipc_list_suspend
    method IpcSuspend(q: QueueId, t: Tid, flag: IpcFlag)
      requires Valid() && q in wait && t in tcb && tcb[t].stat == Ready
      modifies this`tcb, this`group, this`table, this`readyTable, this`wait, this`defunct
      ensures Valid() && defunct == old(defunct)
      ensures tcb == old(tcb)[t := old(tcb[t]).(stat := Stat.Suspend, timerArmed := false)]
      ensures table == Dropped(old(table), tcb[t].currentPriority, t)
      ensures (forall u | u in old(wait)[q] :: u in old(tcb)) && t !in old(wait)[q]
      ensures wait == old(wait)[q := Enqueue(tcb, old(wait)[q], t, flag)]
    {
      hide Consistent, OnNoList, Distinct, PrioPos, Priorities, InsertAt, Remove;
      WaitersOk(tcb, table, group, readyTable, wait, defunct, q);
      var r := Suspend(t);
      EnqueueConsistent(tcb, table, group, readyTable, wait, defunct, q, t, flag);
      match flag
      case Fifo =>
        wait := wait[q := wait[q] + [t]];
      case Prio =>
        var n := FindPosition(wait[q], t);
        wait := wait[q := InsertAt(wait[q], n, t)];
    }

    // What every blocking call does to its thread: reset the error, suspend it on the list, start its timer if timed.
    method Block(q: QueueId, t: Tid, flag: IpcFlag, timed: bool)
      requires Valid() && q in wait && t in tcb && tcb[t].stat == Ready
      modifies this`tcb, this`group, this`table, this`readyTable, this`wait, this`defunct
      ensures Valid() && defunct == old(defunct)
      ensures tcb == old(tcb)[t := Blocked(old(tcb)[t], timed)]
      ensures table == Dropped(old(table), tcb[t].currentPriority, t)
      ensures (forall u | u in old(wait)[q] :: u in old(tcb)) && t !in old(wait)[q]
      ensures wait == old(wait)[q := InsertAt(old(wait)[q], Place(old(tcb), old(wait)[q], t, flag), t)]
    {
      hide Consistent, OnNoList, PrioPos, Priorities, InsertAt, Remove, Enqueue, Place;
      ghost var tcb0 := tcb;
      SetError(t, EOk);
      IpcSuspend(q, t, flag);
      EnqueueIsInsert(tcb0, tcb, old(wait)[q], t, flag);
      if timed {
        StartTimer(t);
      }
      assert tcb == tcb0[t := tcb[t]];
    }

    // the search of rt_ipc_list_suspend for the first waiter of strictly worse priority
    method FindPosition(list: seq<Tid>, t: Tid) returns (n: nat)
      requires t in tcb && forall u | u in list :: u in tcb
      ensures n == PrioPos(Priorities(tcb, list), tcb[t].currentPriority)
    {
      n := 0;
      ghost var ps := Priorities(tcb, list);
      while n < |list| && !(tcb[t].currentPriority < tcb[list[n]].currentPriority)
        invariant n <= |list|
        invariant forall i | 0 <= i < n :: ps[i] <= tcb[t].currentPriority
      {
        n := n + 1;
      }
      PrioPosUnique(ps, tcb[t].currentPriority, n);
    }

    // rt_ipc_list_resume
    method IpcResume(q: QueueId)
      requires Valid() && q in wait && wait[q] != []
      modifies this`tcb, this`group, this`table, this`readyTable, this`wait
      ensures Valid() && old(wait)[q][0] in old(tcb)
      ensures var t := old(wait)[q][0];
        && old(tcb)[t].stat == Stat.Suspend
        && tcb == old(tcb)[t := Woken(old(tcb)[t], old(tcb)[t].error)]
        && table == Appended(old(table), tcb[t].currentPriority, t)
      ensures wait == old(wait)[q := old(wait)[q][1..]]
    {
      WaitersExist(tcb, table, wait, defunct, q);
      hide ListsOk, IndexAgrees, OnNoList;
      UnlinkHead(tcb, table, wait, defunct, q);
      var r := Resume(wait[q][0]);
    }

    // one turn of the loop of rt_ipc_list_resume_all
    method ResumeWithError(q: QueueId)
      requires Valid() && q in wait && wait[q] != []
      modifies this`tcb, this`group, this`table, this`readyTable, this`wait
      ensures Valid() && wait == old(wait)[q := old(wait)[q][1..]]
      ensures var t := old(wait)[q][0];
        && t in old(tcb)
        && tcb == old(tcb)[t := Woken(old(tcb)[t], EError)]
        && table == Appended(old(table), old(tcb)[t].currentPriority, t)
    {
      WaitersExist(tcb, table, wait, defunct, q);
      hide ListsOk, IndexAgrees, OnNoList, Unlinked, Appended;
      UnlinkHead(tcb, table, wait, defunct, q);
      var t := wait[q][0];
      SetError(t, EError);
      var r := Resume(t);
    }

    // rt_ipc_list_resume_all
    method IpcResumeAll(q: QueueId)
      requires Valid() && q in wait
      modifies this`tcb, this`group, this`table, this`readyTable, this`wait
      ensures Valid() && (forall t | t in old(wait)[q] :: t in old(tcb) && old(tcb)[t].stat == Stat.Suspend)
      ensures tcb == AllWoken(old(tcb), old(wait)[q])
      ensures table == AllAppended(old(tcb), old(table), old(wait)[q])
      ensures wait == old(wait)[q := []]
    {
      hide Consistent, WokenUpTo, AllAppended, AllWoken, Appended, Distinct;
      ghost var list, done, tcb0, table0, wait0 := wait[q], 0, tcb, table, wait;
      WaitersOk(tcb, table, group, readyTable, wait, defunct, q);
      WokenUpToNone(tcb, table, list);
      while wait[q] != []
        invariant Valid() && q in wait && wait == wait0[q := wait[q]]
        invariant done <= |list| && wait[q] == list[done..]
        invariant WokenUpTo(tcb0, table0, list, done, tcb, table)
        decreases |list| - done
      {
        WokenUpToNext(tcb0, table0, list, done, tcb, table);
        ResumeWithError(q);
        done := done + 1;
      }
      WokenUpToAll(tcb0, table0, list, tcb, table);
    }

    // rt_thread_startup
    method Startup(t: Tid)
      requires Valid() && t in tcb && tcb[t].stat == Init && tcb[t].initPriority < prioMax
      modifies this`tcb, this`group, this`table, this`readyTable, this`wait, this`current
      ensures Valid() && wait == old(wait)
      ensures tcb == old(tcb)[t := Woken(WithPriority(old(tcb[t]), old(tcb[t]).initPriority), old(tcb[t]).error)]
      ensures table == Appended(old(table), tcb[t].currentPriority, t)
      ensures if old(current).Some? && lockNest == 0 then current.Some? && HeadsBest(table, current.value)
              else current == old(current)
    {
      hide ListsOk, IndexAgrees;
      InitIsUnlinked(tcb, table, wait, defunct, t);
      var b := WithPriority(tcb[t], tcb[t].initPriority).(stat := Stat.Suspend);
      StartupKeepsLists(tcb, table, wait, defunct, t, b);
      tcb := tcb[t := b];
      var r := Resume(t);
      assert table[b.currentPriority] != [];
      if current.Some? {
        Schedule();
      }
    }

    // rt_thread_delete, or rt_thread_detach of a thread with (toDefunct) or without a cleanup function
    method Delete(t: Tid, toDefunct: bool)
      requires Valid() && t in tcb && tcb[t].stat != Close
      modifies this`tcb, this`group, this`table, this`readyTable, this`wait, this`defunct
      ensures Valid() && wait == Unlinked(old(wait), t)
      ensures tcb == old(tcb)[t := old(tcb[t]).(stat := Close, timerArmed := false)]
      ensures table == Dropped(old(table), tcb[t].currentPriority, t)
      ensures defunct == if toDefunct then [t] + old(defunct) else old(defunct)
    {
      hide ListsOk, IndexAgrees, OnNoList, Unlinked, Remove;
      NotClosedNotDefunct(tcb, table, wait, defunct, t);
      if tcb[t].stat != Init {
        TouchMoving(tcb, table, wait, defunct, t, tcb[t], {});
        assert tcb == tcb[t := tcb[t]];
        RemoveThread(t);
      } else {
        InitIsUnlinked(tcb, table, wait, defunct, t);
        TouchMoving(tcb, table, wait, defunct, t, tcb[t], {});
        assert tcb == tcb[t := tcb[t]];
      }
      CloseKeepsLists(tcb, table, wait, defunct, t);
      tcb := tcb[t := tcb[t].(stat := Close, timerArmed := false)];
      if toDefunct {
        defunct := [t] + defunct;
      }
    }

    // rt_thread_exit; some other thread is always ready, the idle thread if no other
    method Exit(toDefunct: bool)
      requires Valid() && current.Some? && current.value in tcb && tcb[current.value].stat == Ready
      requires SomeReady(Dropped(table, CurrentPriority(current.value), current.value))
      modifies this`tcb, this`group, this`table, this`readyTable, this`wait, this`defunct, this`current
      ensures Valid() && wait == old(wait)
      ensures var t := old(current).value;
        && tcb == old(tcb)[t := old(tcb)[t].(stat := Close, timerArmed := false)]
        && table == Dropped(old(table), tcb[t].currentPriority, t)
        && defunct == (if toDefunct then [t] + old(defunct) else old(defunct))
        && if lockNest == 0 then current.Some? && HeadsBest(table, current.value) && current.value != t else current == old(current)
    {
      hide ListsOk, IndexAgrees, Unlinked, Remove, HeadsBest, SomeReady;
      var t := current.value;
      ReadyIsOnlyReady(tcb, table, wait, defunct, t);
      Delete(t, toDefunct);
      Schedule();
      ClosedHeadsNothing(tcb, table, wait, defunct, t);
    }

    function CurrentPriority(t: Tid): (p: nat)
      requires Valid() && t in tcb
      reads this
      ensures p < |table|
    {
      tcb[t].currentPriority
    }

    // rt_thread_yield
    method Yield()
      requires Valid() && SomeReady(table) && current.Some? && current.value in tcb
      modifies this`table, this`current
      ensures Valid()
      ensures var t := old(current).value; var p := tcb[t].currentPriority;
        if tcb[t].stat == Ready && |old(table)[p]| > 1 then
          table == Appended(Dropped(old(table), p, t), p, t)
          && if lockNest == 0 then current.Some? && HeadsBest(table, current.value) else current == old(current)
        else table == old(table) && current == old(current)
    {
      hide IndexAgrees;
      var t := current.value;
      var p := tcb[t].currentPriority;
      if tcb[t].stat == Ready && |table[p]| > 1 {
        var list := Remove(table[p], t) + [t];
        RotateKeepsLists(tcb, table, wait, defunct, t);
        IndexKept(table, group, readyTable, p, list);
        table := table[p := list];
        assert table[p] != [];
        Schedule();
      }
    }

    // rt_tick_increase, up to its call of the timer check
    method TickIncrease()
      requires Valid() && SomeReady(table) && current.Some? && current.value in tcb
      requires tcb[current.value].remainingTick > 0
      modifies this`tick, this`tcb, this`table, this`current
      ensures Valid() && tick == U32(old(tick) + 1)
      ensures var t := old(current).value; var b := old(tcb)[t]; var p := b.currentPriority;
        && tcb == old(tcb)[t := b.(remainingTick := if b.remainingTick == 1 then b.initTick else b.remainingTick - 1)]
        && (if b.remainingTick == 1 && b.stat == Ready && |old(table)[p]| > 1 then
              table == Appended(Dropped(old(table), p, t), p, t)
              && if lockNest == 0 then current.Some? && HeadsBest(table, current.value) else current == old(current)
            else table == old(table) && current == old(current))
    {
      hide ListsOk, IndexAgrees;
      tick := U32(tick + 1);
      var t := current.value;
      var b := tcb[t];
      var left := b.remainingTick - 1;
      TouchMoving(tcb, table, wait, defunct, t, b.(remainingTick := left), {});
      tcb := tcb[t := b.(remainingTick := left)];
      if left == 0 {
        TouchMoving(tcb, table, wait, defunct, t, b.(remainingTick := b.initTick), {});
        tcb := tcb[t := b.(remainingTick := b.initTick)];
        Yield();
      }
    }
  }
}
