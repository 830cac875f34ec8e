/** Message queues as a step system. Sending and receiving each take two critical sections with an unlocked copy
    between them, so a slot of the pool may be free, queued, or in the hands of a sender or a receiver mid-copy. */
module QueueProtocol {
  import opened Kernels
  import opened Lists
  import opened Words

  type Byte = b: nat | b < 256
  type Slot = nat
  type Message = seq<Byte>

  datatype Status = Waiting | Woken | Failed(err: Err)

  /** Where a thread is inside rt_mq_send, rt_mq_urgent or rt_mq_recv. */
  datatype Call =
    | SendCopy(slot: Slot, buffer: Message, urgent: bool, copied: bool)
    | RecvWait(size: nat, timeout: int, start: nat, due: nat, armed: bool, status: Status)
    | RecvCopy(slot: Slot, size: nat, message: Message, got: Option<Message>)

  datatype State = State(
    msgSize: nat,
    maxMsgs: nat,
    free: seq<Slot>,               // the chain from msg_queue_free
    queue: seq<Slot>,              // the chain from msg_queue_head
    content: seq<Message>,         // the bytes of each slot
    receivers: seq<Tid>,           // parent.suspend_thread
    calls: map<Tid, Call>,
    tick: nat,
    messages: seq<Message>)        // what a queue of messages should hold, in order

  datatype Outcome = Outcome(s: State, result: Option<Err>, message: Option<Message>)

  function WakeReceiver(s: State): State {
    if s.receivers == [] || s.receivers[0] !in s.calls || !s.calls[s.receivers[0]].RecvWait? then s
    else s.(receivers := s.receivers[1..], calls := s.calls[s.receivers[0] := s.calls[s.receivers[0]].(armed := false, status := Woken)])
  }

  // The first section of rt_mq_send and rt_mq_urgent: take a slot off the free list.
  function SendStart(s: State, t: Tid, buffer: Message, urgent: bool): Outcome {
    if |buffer| > s.msgSize then Outcome(s, Some(EError), None)
    else if s.free == [] then Outcome(s, Some(EFull), None)
    else Outcome(s.(free := s.free[1..], calls := s.calls[t := SendCopy(s.free[0], buffer, urgent, false)]), None, None)
  }

  // The unlocked copy into the slot: the bytes beyond the message keep what was there.
  function CopyIn(s: State, t: Tid): State {
    if t !in s.calls || !s.calls[t].SendCopy? || s.calls[t].slot >= |s.content| then s
    else
      var c := s.calls[t];
      var old' := s.content[c.slot];
      var bytes := c.buffer + (if |c.buffer| <= |old'| then old'[|c.buffer|..] else []);
      s.(content := s.content[c.slot := bytes], calls := s.calls[t := c.(copied := true)])
  }

  // The second section: link the slot at the tail, or at the head, and wake a receiver.
  function Link(s: State, t: Tid): Outcome {
    if t !in s.calls || !s.calls[t].SendCopy? then Outcome(s, None, None)
    else
      var c := s.calls[t];
      var s' := s.(queue := if c.urgent then [c.slot] + s.queue else s.queue + [c.slot],
                   messages := if c.urgent then [c.buffer] + s.messages else s.messages + [c.buffer],
                   calls := Without(s.calls, t));
      Outcome(WakeReceiver(s'), Some(EOk), None)
  }

  // One pass through the first section of rt_mq_recv: unlink the head, or wait at place `pos`.
  function RecvAttempt(s: State, t: Tid, size: nat, timeout: int, due: nat, pos: nat): Outcome {
    if s.queue == [] || s.messages == [] then
      if timeout == 0 then Outcome(s.(calls := Without(s.calls, t)), Some(ETimeout), None)
      else if pos > |s.receivers| then Outcome(s, None, None)
      else Outcome(s.(receivers := InsertAt(s.receivers, pos, t),
                      calls := s.calls[t := RecvWait(size, timeout, s.tick, due, timeout > 0, Waiting)]), None, None)
    else
      Outcome(s.(queue := s.queue[1..], messages := s.messages[1..],
                 calls := s.calls[t := RecvCopy(s.queue[0], size, s.messages[0], None)]), None, None)
  }

  // The unlocked copy out of the slot.
  function CopyOut(s: State, t: Tid): State {
    if t !in s.calls || !s.calls[t].RecvCopy? || s.calls[t].slot >= |s.content| then s
    else
      var c := s.calls[t];
      var n := if c.size > s.msgSize then s.msgSize else c.size;
      var bytes := s.content[c.slot];
      s.(calls := s.calls[t := c.(got := Some(if n <= |bytes| then bytes[..n] else bytes))])
  }

  // The second section of rt_mq_recv: give the slot back.
  function Release(s: State, t: Tid): Outcome {
    if t !in s.calls || !s.calls[t].RecvCopy? then Outcome(s, None, None)
    else Outcome(s.(free := [s.calls[t].slot] + s.free, calls := Without(s.calls, t)), Some(EOk), s.calls[t].got)
  }

  function FailAll(calls: map<Tid, Call>, list: seq<Tid>): map<Tid, Call> {
    map t | t in calls :: if t in list && calls[t].RecvWait? then calls[t].(armed := false, status := Failed(EError)) else calls[t]
  }

  function Reversed(s: seq<Slot>): (r: seq<Slot>)
    ensures |r| == |s| && forall x :: x in r <==> x in s
  {
    if s == [] then [] else Reversed(s[1..]) + [s[0]]
  }

  datatype Event =
    | Send(t: Tid, buffer: Message, urgent: bool)
    | Copy(t: Tid)
    | Linked(t: Tid)
    | Receive(t: Tid, size: nat, timeout: int, pos: nat)
    | Retry(t: Tid, pos: nat)
    | GiveUp(t: Tid)
    | Unload(t: Tid)
    | Returned(t: Tid)
    | Timeout(t: Tid)
    | Reset
    | Tick

  ghost predicate Enabled(s: State, e: Event) {
    match e
    case Send(t, buffer, urgent) => t !in s.calls && buffer != []
    case Copy(t) => t in s.calls && s.calls[t].SendCopy? && !s.calls[t].copied
    case Linked(t) => t in s.calls && s.calls[t].SendCopy? && s.calls[t].copied
    case Receive(t, size, timeout, pos) => t !in s.calls && size > 0 && pos <= |s.receivers| && -W32 / 2 <= timeout < W32 / 2
    case Retry(t, pos) => t in s.calls && s.calls[t].RecvWait? && s.calls[t].status == Woken && pos <= |s.receivers|
    case GiveUp(t) => t in s.calls && s.calls[t].RecvWait? && s.calls[t].status.Failed?
    case Unload(t) => t in s.calls && s.calls[t].RecvCopy? && s.calls[t].got.None?
    case Returned(t) => t in s.calls && s.calls[t].RecvCopy? && s.calls[t].got.Some?
    case Timeout(t) => t in s.calls && s.calls[t].RecvWait? && s.calls[t].armed
    case Reset => true
    case Tick => true
  }

  function Next(s: State, e: Event): Outcome {
    match e
    case Send(t, buffer, urgent) => SendStart(s, t, buffer, urgent)
    case Copy(t) => Outcome(CopyIn(s, t), None, None)
    case Linked(t) => Link(s, t)
    case Receive(t, size, timeout, pos) => RecvAttempt(s, t, size, timeout, U32(s.tick + timeout), pos)
    case Retry(t, pos) =>
      if t !in s.calls || !s.calls[t].RecvWait? then Outcome(s, None, None)
      else
        var c := s.calls[t];
        RecvAttempt(s, t, c.size, LeftOver(c.timeout, c.start, s.tick), c.due, pos)
    case GiveUp(t) =>
      if t !in s.calls || !s.calls[t].RecvWait? || !s.calls[t].status.Failed? then Outcome(s, None, None)
      else Outcome(s.(calls := Without(s.calls, t)), Some(s.calls[t].status.err), None)
    case Unload(t) => Outcome(CopyOut(s, t), None, None)
    case Returned(t) => Release(s, t)
    case Timeout(t) =>
      if t !in s.calls || !s.calls[t].RecvWait? then Outcome(s, None, None)
      else Outcome(s.(receivers := Remove(s.receivers, t), calls := s.calls[t := s.calls[t].(armed := false, status := Failed(ETimeout))]), None, None)
    case Reset =>
      Outcome(s.(receivers := [], calls := FailAll(s.calls, s.receivers),
                 queue := [], messages := [], free := Reversed(s.queue) + s.free), Some(EOk), None)
    case Tick => Outcome(s.(tick := U32(s.tick + 1)), None, None)
  }

  ghost predicate Holds(c: Call, slot: Slot) {
    (c.SendCopy? || c.RecvCopy?) && c.slot == slot
  }

  /** Every slot of the pool is in exactly one place. */
  ghost predicate SlotsOk(max: nat, free: seq<Slot>, queue: seq<Slot>, calls: map<Tid, Call>) {
    && Distinct(free) && Distinct(queue)
    && (forall x | x in free :: x < max && x !in queue)
    && (forall x | x in queue :: x < max)
    && (forall t, x: Slot {:trigger Holds(calls[t], x)} | t in calls && Holds(calls[t], x) :: x < max && x !in free && x !in queue)
    && (forall t, u, x: Slot | t in calls && u in calls && Holds(calls[t], x) && Holds(calls[u], x) :: t == u)
    && (forall x: Slot | x < max :: x in free || x in queue || exists t :: t in calls && Holds(calls[t], x))
  }

  ghost predicate ReceiversOk(receivers: seq<Tid>, calls: map<Tid, Call>) {
    && Distinct(receivers)
    && (forall t | t in receivers :: t in calls && calls[t].RecvWait? && calls[t].status == Waiting)
    && (forall t | t in calls && calls[t].RecvWait? && calls[t].status == Waiting :: t in receivers)
    // a thread's timer runs only while it waits
    && (forall t | t in calls && calls[t].RecvWait? && calls[t].armed :: calls[t].status == Waiting)
  }

  ghost function WokenReceivers(calls: map<Tid, Call>): set<Tid> {
    set t | t in calls && calls[t].RecvWait? && calls[t].status == Woken
  }

  ghost predicate NoLostWakeup(s: State) {
    s.receivers != [] ==> |s.queue| <= |WokenReceivers(s.calls)|
  }

  ghost predicate Starts(bytes: Message, m: Message) {
    |m| <= |bytes| && bytes[..|m|] == m
  }

  // The bytes in the slots are the messages they should be, whoever holds the slot.
  ghost predicate ContentOk(s: State) {
    && |s.content| == s.maxMsgs && (forall x | 0 <= x < s.maxMsgs :: |s.content[x]| == s.msgSize)
    && |s.messages| == |s.queue|
    && (forall i | 0 <= i < |s.queue| :: s.queue[i] < s.maxMsgs && Starts(s.content[s.queue[i]], s.messages[i]))
    && (forall t | t in s.calls :: CallOk(s, s.calls[t]))
  }

  ghost predicate CallOk(s: State, c: Call) {
    match c
    case SendCopy(slot, buffer, urgent, copied) =>
      slot < |s.content| && |buffer| <= s.msgSize && (copied ==> Starts(s.content[slot], buffer))
    case RecvCopy(slot, size, message, got) =>
      && slot < |s.content| && |message| <= s.msgSize && (got.None? ==> Starts(s.content[slot], message))
      && (got.Some? ==> |got.value| == (if size > s.msgSize then s.msgSize else size) && Agree(got.value, message))
    case RecvWait(size, timeout, start, due, armed, status) =>
      timeout != 0 && -W32 / 2 <= timeout < W32 / 2 && (timeout > 0 ==> U32(start + timeout) == due)
  }

  // What was received and what was sent agree as far as both go.
  ghost predicate Agree(got: Message, message: Message) {
    forall i | 0 <= i < |got| && i < |message| :: got[i] == message[i]
  }

  ghost predicate Inv(s: State) {
    && SlotsOk(s.maxMsgs, s.free, s.queue, s.calls) && ReceiversOk(s.receivers, s.calls)
    && NoLostWakeup(s) && ContentOk(s)
  }

  // A call that holds no slot may change in any way that keeps it so, and so may the flags of one that holds a slot.
  lemma SlotsKept(max: nat, free: seq<Slot>, queue: seq<Slot>, calls: map<Tid, Call>, calls': map<Tid, Call>)
    requires SlotsOk(max, free, queue, calls)
    requires forall t, x: Slot :: t in calls' && Holds(calls'[t], x) <==> t in calls && Holds(calls[t], x)
    ensures SlotsOk(max, free, queue, calls')
  {
    forall x: Slot | x < max && x !in free && x !in queue
      ensures exists t :: t in calls' && Holds(calls'[t], x)
    {
      var t :| t in calls && Holds(calls[t], x);
      assert t in calls' && Holds(calls'[t], x);
    }
  }

  lemma SlotTaken(max: nat, free: seq<Slot>, queue: seq<Slot>, calls: map<Tid, Call>, t: Tid, c: Call)
    requires SlotsOk(max, free, queue, calls) && free != [] && Holds(c, free[0])
    requires t in calls ==> calls[t].RecvWait?
    ensures SlotsOk(max, free[1..], queue, calls[t := c])
  {
    Covered(max, free, queue, calls, free[1..], queue, calls[t := c], free[0], t);
    DistinctTail(free);
    assert free[0] in free && forall x | x in free[1..] :: x in free;
    var calls' := calls[t := c];
    forall u, y: Slot | u in calls' && Holds(calls'[u], y)
      ensures y < max && y !in free[1..] && y !in queue && (y == free[0] <==> u == t)
    {
      if u == t {
        assert y == free[0];
      } else {
        assert u in calls && Holds(calls[u], y);
      }
    }
    forall u, v, y: Slot | u in calls' && v in calls' && Holds(calls'[u], y) && Holds(calls'[v], y)
      ensures u == v
    {
      assert u != t && v != t ==> Holds(calls[u], y) && Holds(calls[v], y);
    }
  }

  lemma SlotUnlinked(max: nat, free: seq<Slot>, queue: seq<Slot>, calls: map<Tid, Call>, t: Tid, c: Call)
    requires SlotsOk(max, free, queue, calls) && queue != [] && Holds(c, queue[0])
    requires t in calls ==> calls[t].RecvWait?
    ensures SlotsOk(max, free, queue[1..], calls[t := c])
  {
    Covered(max, free, queue, calls, free, queue[1..], calls[t := c], queue[0], t);
    DistinctTail(queue);
    assert queue[0] in queue && forall x | x in queue[1..] :: x in queue;
    var calls' := calls[t := c];
    forall u, y: Slot | u in calls' && Holds(calls'[u], y)
      ensures y < max && y !in free && y !in queue[1..] && (y == queue[0] <==> u == t)
    {
      if u == t {
        assert y == queue[0];
      } else {
        assert u in calls && Holds(calls[u], y);
      }
    }
    forall u, v, y: Slot | u in calls' && v in calls' && Holds(calls'[u], y) && Holds(calls'[v], y)
      ensures u == v
    {
      assert u != t && v != t ==> Holds(calls[u], y) && Holds(calls[v], y);
    }
  }

  // Slot x goes to thread t; everything else stays where it is.
  lemma Covered(max: nat, free: seq<Slot>, queue: seq<Slot>, calls: map<Tid, Call>,
                free': seq<Slot>, queue': seq<Slot>, calls': map<Tid, Call>, x: Slot, t: Tid)
    requires SlotsOk(max, free, queue, calls) && t in calls' && Holds(calls'[t], x)
    requires forall y | y in free && y != x :: y in free'
    requires forall y | y in queue && y != x :: y in queue'
    requires forall u | u in calls && u != t :: u in calls' && calls'[u] == calls[u]
    requires t in calls ==> calls[t].RecvWait?
    ensures forall y: Slot | y < max :: y in free' || y in queue' || exists u :: u in calls' && Holds(calls'[u], y)
  {
    forall y: Slot | y < max && y !in free' && y !in queue'
      ensures exists u :: u in calls' && Holds(calls'[u], y)
    {
      if y == x {
        assert Holds(calls'[t], y);
      } else {
        var u :| u in calls && Holds(calls[u], y);
        assert u in calls' && Holds(calls'[u], y);
      }
    }
  }

  // Slot x goes from thread t, which leaves, to the free list or the queue.
  lemma SlotReturned(max: nat, free: seq<Slot>, queue: seq<Slot>, calls: map<Tid, Call>, t: Tid,
                     free': seq<Slot>, queue': seq<Slot>)
    requires SlotsOk(max, free, queue, calls) && t in calls && (calls[t].SendCopy? || calls[t].RecvCopy?)
    requires var x := calls[t].slot;
      || (free' == [x] + free && queue' == queue)
      || (free' == free && (queue' == [x] + queue || queue' == queue + [x]))
    ensures SlotsOk(max, free', queue', Without(calls, t))
  {
    var x := calls[t].slot;
    assert Holds(calls[t], x);
    DistinctConcat([x], free);
    DistinctConcat([x], queue);
    DistinctConcat(queue, [x]);
    forall y: Slot | y < max && y !in free' && y !in queue'
      ensures exists u :: u in Without(calls, t) && Holds(Without(calls, t)[u], y)
    {
      assert y != x;
      var u :| u in calls && Holds(calls[u], y);
      assert u != t && Holds(Without(calls, t)[u], y);
    }
  }

  lemma {:induction false} ReversedDistinct(s: seq<Slot>)
    requires Distinct(s)
    ensures Distinct(Reversed(s))
  {
    if s != [] {
      ReversedDistinct(s[1..]);
      assert s[0] !in s[1..];
    }
  }

  lemma QueueFreed(max: nat, free: seq<Slot>, queue: seq<Slot>, calls: map<Tid, Call>)
    requires SlotsOk(max, free, queue, calls)
    ensures SlotsOk(max, Reversed(queue) + free, [], calls)
  {
    ReversedDistinct(queue);
    var free' := Reversed(queue) + free;
    assert forall x | x in queue :: x in Reversed(queue);
    assert forall x: Slot | x in free || x in queue :: x in free';
    DistinctConcat(Reversed(queue), free);
  }

  lemma StartsAgree(bytes: Message, message: Message, n: nat)
    requires Starts(bytes, message) && n <= |bytes|
    ensures Agree(bytes[..n], message)
  {
    assert forall i | 0 <= i < |message| :: bytes[i] == bytes[..|message|][i];
  }

  // Bytes written to a slot are seen by no other holder and by no message in the queue.
  lemma CopyInKeepsContent(s: State, t: Tid)
    requires Inv(s) && Enabled(s, Copy(t))
    ensures ContentOk(CopyIn(s, t))
  {
    var c := s.calls[t];
    var s' := CopyIn(s, t);
    assert Holds(c, c.slot);
    var bytes := s'.content[c.slot];
    assert |bytes| == s.msgSize && bytes[..|c.buffer|] == c.buffer;
    forall u | u in s'.calls
      ensures CallOk(s', s'.calls[u])
    {
      assert CallOk(s, s.calls[u]);
      if u != t && (s.calls[u].SendCopy? || s.calls[u].RecvCopy?) {
        assert Holds(s.calls[u], s.calls[u].slot);
      }
    }
  }

  lemma CopyOutKeepsContent(s: State, t: Tid)
    requires ContentOk(s) && Enabled(s, Unload(t))
    ensures ContentOk(CopyOut(s, t))
  {
    var c := s.calls[t];
    var s' := CopyOut(s, t);
    assert CallOk(s, c);
    var n := if c.size > s.msgSize then s.msgSize else c.size;
    StartsAgree(s.content[c.slot], c.message, n);
    forall u | u in s'.calls
      ensures CallOk(s', s'.calls[u])
    {
      assert CallOk(s, s.calls[u]);
    }
  }

  lemma ContentDone(s: State, t: Tid, calls: map<Tid, Call>)
    requires ContentOk(s) && forall u | u in calls :: CallOk(s, calls[u])
    ensures ContentOk(s.(calls := calls))
  {
    forall u | u in calls
      ensures CallOk(s.(calls := calls), calls[u])
    {
      assert CallOk(s, calls[u]);
    }
  }

  lemma CallOkFrame(s: State, s': State)
    requires s'.content == s.content && s'.msgSize == s.msgSize && s'.maxMsgs == s.maxMsgs
    ensures forall c: Call :: CallOk(s, c) <==> CallOk(s', c)
  {
  }

  lemma WakeKeepsContent(s: State)
    requires ContentOk(s)
    ensures ContentOk(WakeReceiver(s))
  {
    var s' := WakeReceiver(s);
    CallOkFrame(s, s');
    forall u | u in s'.calls
      ensures CallOk(s', s'.calls[u])
    {
      assert CallOk(s, s.calls[u]);
    }
  }

  lemma LinkKeepsContent(s: State, t: Tid)
    requires ContentOk(s) && Enabled(s, Linked(t))
    ensures ContentOk(Link(s, t).s)
  {
    var c := s.calls[t];
    assert CallOk(s, c);
    var m := s.(queue := if c.urgent then [c.slot] + s.queue else s.queue + [c.slot],
                messages := if c.urgent then [c.buffer] + s.messages else s.messages + [c.buffer],
                calls := Without(s.calls, t));
    CallOkFrame(s, m);
    hide CallOk;
    assert ContentOk(m);
    WakeKeepsContent(m);
  }

  lemma AttemptKeepsContent(s: State, t: Tid, size: nat, timeout: int, due: nat, pos: nat)
    requires ContentOk(s) && pos <= |s.receivers|
    requires -W32 / 2 <= timeout < W32 / 2 && (timeout > 0 ==> U32(s.tick + timeout) == due)
    ensures ContentOk(RecvAttempt(s, t, size, timeout, due, pos).s)
  {
    var s' := RecvAttempt(s, t, size, timeout, due, pos).s;
    CallOkFrame(s, s');
    if s.queue != [] {
      var m := s.messages[0];
      assert Starts(s.content[s.queue[0]], m);
      assert CallOk(s, RecvCopy(s.queue[0], size, m, None));
    }
    forall u | u in s'.calls
      ensures CallOk(s', s'.calls[u])
    {
      assert u in s.calls ==> CallOk(s, s.calls[u]);
    }
  }

  // --- receivers ---

  lemma ReceiversKept(receivers: seq<Tid>, calls: map<Tid, Call>, t: Tid, calls': map<Tid, Call>)
    requires ReceiversOk(receivers, calls)
    requires t in calls ==> !(calls[t].RecvWait? && calls[t].status == Waiting)
    requires t in calls' && calls'[t].RecvWait? ==> calls'[t].status != Waiting && !calls'[t].armed
    requires forall u | u != t :: (u in calls <==> u in calls') && (u in calls ==> calls[u] == calls'[u])
    ensures ReceiversOk(receivers, calls')
    ensures WokenReceivers(calls') - {t} == WokenReceivers(calls) - {t}
  {
  }

  lemma ReceiverAdded(receivers: seq<Tid>, calls: map<Tid, Call>, t: Tid, c: Call, pos: nat)
    requires ReceiversOk(receivers, calls) && pos <= |receivers|
    requires t in calls ==> !(calls[t].RecvWait? && calls[t].status == Waiting)
    requires c.RecvWait? && c.status == Waiting
    ensures t !in receivers && ReceiversOk(InsertAt(receivers, pos, t), calls[t := c])
  {
    InsertDistinct(receivers, pos, t);
  }

  lemma ReceiverWoken(receivers: seq<Tid>, calls: map<Tid, Call>)
    requires ReceiversOk(receivers, calls) && receivers != []
    ensures var t := receivers[0];
      t in calls && calls[t].RecvWait? && calls[t].status == Waiting &&
      var calls' := calls[t := calls[t].(armed := false, status := Woken)];
      ReceiversOk(receivers[1..], calls') && |WokenReceivers(calls')| == |WokenReceivers(calls)| + 1
  {
    var t := receivers[0];
    assert t in receivers;
    var calls' := calls[t := calls[t].(armed := false, status := Woken)];
    assert WokenReceivers(calls') == WokenReceivers(calls) + {t};
    DistinctTail(receivers);
    assert receivers == [t] + receivers[1..];
    assert forall u | u in receivers[1..] :: u in receivers;
  }

  lemma WakeSlots(s: State)
    requires SlotsOk(s.maxMsgs, s.free, s.queue, s.calls)
    ensures var s' := WakeReceiver(s); SlotsOk(s'.maxMsgs, s'.free, s'.queue, s'.calls)
  {
    SlotsKept(s.maxMsgs, s.free, s.queue, s.calls, WakeReceiver(s).calls);
  }

  // --- each step keeps the invariant ---

  lemma SendKeepsInv(s: State, t: Tid, buffer: Message, urgent: bool)
    requires Inv(s) && Enabled(s, Send(t, buffer, urgent))
    ensures Inv(SendStart(s, t, buffer, urgent).s)
  {
    hide SlotsOk, ReceiversOk, WokenReceivers;
    var s' := SendStart(s, t, buffer, urgent).s;
    if s' != s {
      var c := SendCopy(s.free[0], buffer, urgent, false);
      SlotTaken(s.maxMsgs, s.free, s.queue, s.calls, t, c);
      ReceiversKept(s.receivers, s.calls, t, s'.calls);
      NotWoken(s.calls, t, s'.calls);
      FreeInRange(s);
      CallOkFrame(s, s');
    }
  }

  lemma FreeInRange(s: State)
    requires SlotsOk(s.maxMsgs, s.free, s.queue, s.calls)
    ensures s.free != [] ==> s.free[0] < s.maxMsgs
  {
    assert s.free != [] ==> s.free[0] in s.free;
  }

  // A call that was not and is not woken does not change who is.
  lemma NotWoken(calls: map<Tid, Call>, t: Tid, calls': map<Tid, Call>)
    requires t in calls ==> !(calls[t].RecvWait? && calls[t].status == Woken)
    requires t in calls' ==> !(calls'[t].RecvWait? && calls'[t].status == Woken)
    requires forall u | u != t :: (u in calls <==> u in calls') && (u in calls ==> calls[u] == calls'[u])
    ensures WokenReceivers(calls') == WokenReceivers(calls)
  {
  }

  lemma CopyKeepsInv(s: State, t: Tid)
    requires Inv(s) && (Enabled(s, Copy(t)) || Enabled(s, Unload(t)))
    ensures Enabled(s, Copy(t)) ==> Inv(CopyIn(s, t))
    ensures Enabled(s, Unload(t)) ==> Inv(CopyOut(s, t))
  {
    var s' := if s.calls[t].SendCopy? then CopyIn(s, t) else CopyOut(s, t);
    if s.calls[t].SendCopy? {
      CopyInKeepsContent(s, t);
    } else {
      CopyOutKeepsContent(s, t);
    }
    hide ContentOk, SlotsOk, ReceiversOk, WokenReceivers;
    SlotsKept(s.maxMsgs, s.free, s.queue, s.calls, s'.calls);
    ReceiversKept(s.receivers, s.calls, t, s'.calls);
    NotWoken(s.calls, t, s'.calls);
  }

  lemma LinkKeepsInv(s: State, t: Tid)
    requires Inv(s) && Enabled(s, Linked(t))
    ensures Inv(Link(s, t).s)
  {
    LinkKeepsContent(s, t);
    hide ContentOk, SlotsOk, ReceiversOk, WokenReceivers;
    var c := s.calls[t];
    var queue' := if c.urgent then [c.slot] + s.queue else s.queue + [c.slot];
    var m := s.(queue := queue', messages := if c.urgent then [c.buffer] + s.messages else s.messages + [c.buffer],
                calls := Without(s.calls, t));
    SlotReturned(s.maxMsgs, s.free, s.queue, s.calls, t, s.free, queue');
    ReceiversKept(s.receivers, s.calls, t, m.calls);
    NotWoken(s.calls, t, m.calls);
    WakeSlots(m);
    if s.receivers != [] {
      ReceiverWoken(m.receivers, m.calls);
    }
  }

  lemma NotReceiving(calls: map<Tid, Call>, t: Tid)
    requires t in calls ==> !calls[t].RecvWait?
    ensures WokenReceivers(calls) - {t} == WokenReceivers(calls)
  {
  }

  lemma GiveUpKeepsInv(s: State, t: Tid)
    requires Inv(s) && Enabled(s, GiveUp(t))
    ensures Inv(Next(s, GiveUp(t)).s)
  {
    var s' := Next(s, GiveUp(t)).s;
    ContentDone(s, t, s'.calls);
    hide ContentOk, SlotsOk, ReceiversOk, WokenReceivers;
    SlotsKept(s.maxMsgs, s.free, s.queue, s.calls, s'.calls);
    ReceiversKept(s.receivers, s.calls, t, s'.calls);
    NotWoken(s.calls, t, s'.calls);
  }

  lemma ReleaseKeepsInv(s: State, t: Tid)
    requires Inv(s) && Enabled(s, Returned(t))
    ensures Inv(Release(s, t).s)
  {
    var s' := Release(s, t).s;
    ContentDone(s, t, s'.calls);
    CallOkFrame(s, s');
    hide SlotsOk, ReceiversOk, WokenReceivers;
    SlotReturned(s.maxMsgs, s.free, s.queue, s.calls, t, s'.free, s.queue);
    ReceiversKept(s.receivers, s.calls, t, s'.calls);
    NotWoken(s.calls, t, s'.calls);
  }

  lemma TimeoutKeepsInv(s: State, t: Tid)
    requires Inv(s) && Enabled(s, Timeout(t))
    ensures Inv(Next(s, Timeout(t)).s)
  {
    var s' := Next(s, Timeout(t)).s;
    assert s.calls[t].status == Waiting;
    ContentDone(s, t, s'.calls);
    RemoveDistinct(s.receivers, t);
    assert ReceiversOk(s'.receivers, s'.calls);
    hide SlotsOk, ReceiversOk, WokenReceivers;
    CallOkFrame(s, s');
    SlotsKept(s.maxMsgs, s.free, s.queue, s.calls, s'.calls);
    NotWoken(s.calls, t, s'.calls);
  }

  lemma ResetKeepsInv(s: State)
    requires Inv(s)
    ensures Inv(Next(s, Reset).s)
  {
    var s' := Next(s, Reset).s;
    ContentDone(s, 0, s'.calls);
    CallOkFrame(s, s');
    assert ReceiversOk(s'.receivers, s'.calls);
    hide SlotsOk, ReceiversOk, WokenReceivers;
    SlotsKept(s.maxMsgs, s.free, s.queue, s.calls, s'.calls);
    QueueFreed(s.maxMsgs, s.free, s.queue, s'.calls);
  }

  lemma AttemptKeepsInv(s: State, t: Tid, size: nat, timeout: int, due: nat, pos: nat)
    requires Inv(s) && pos <= |s.receivers|
    requires t in s.calls ==> s.calls[t].RecvWait? && s.calls[t].status != Waiting
    requires -W32 / 2 <= timeout < W32 / 2 && (timeout > 0 ==> U32(s.tick + timeout) == due)
    ensures Inv(RecvAttempt(s, t, size, timeout, due, pos).s)
  {
    AttemptKeepsContent(s, t, size, timeout, due, pos);
    assert |s.messages| == |s.queue|;
    hide ContentOk, SlotsOk, ReceiversOk, WokenReceivers;
    var s' := RecvAttempt(s, t, size, timeout, due, pos).s;
    if s.queue == [] {
      SlotsKept(s.maxMsgs, s.free, s.queue, s.calls, s'.calls);
      if timeout == 0 {
        ReceiversKept(s.receivers, s.calls, t, s'.calls);
      } else {
        ReceiverAdded(s.receivers, s.calls, t, s'.calls[t], pos);
      }
    } else {
      SlotUnlinked(s.maxMsgs, s.free, s.queue, s.calls, t, s'.calls[t]);
      ReceiversKept(s.receivers, s.calls, t, s'.calls);
      CardinalityWithout(WokenReceivers(s.calls), t);
      NotReceiving(s'.calls, t);
    }
  }

  lemma TickKeepsInv(s: State)
    requires Inv(s)
    ensures Inv(Next(s, Tick).s)
  {
    CallOkFrame(s, Next(s, Tick).s);
  }

  /** Whatever happens next, the invariant holds afterwards. */
  lemma StepKeepsInv(s: State, e: Event)
    requires Inv(s) && Enabled(s, e)
    ensures Inv(Next(s, e).s)
  {
    hide SlotsOk, ReceiversOk, NoLostWakeup, RecvAttempt, Link, SendStart, Release, CopyIn, CopyOut;
    match e
    case Send(t, buffer, urgent) => SendKeepsInv(s, t, buffer, urgent);
    case Copy(t) => CopyKeepsInv(s, t);
    case Linked(t) => LinkKeepsInv(s, t);
    case Receive(t, size, timeout, pos) => AttemptKeepsInv(s, t, size, timeout, U32(s.tick + timeout), pos);
    case Retry(t, pos) =>
      var c := s.calls[t];
      assert CallOk(s, c);
      LeftOverKeepsDue(c.timeout, c.start, s.tick);
      AttemptKeepsInv(s, t, c.size, LeftOver(c.timeout, c.start, s.tick), c.due, pos);
    case GiveUp(t) => GiveUpKeepsInv(s, t);
    case Unload(t) => CopyKeepsInv(s, t);
    case Returned(t) => ReleaseKeepsInv(s, t);
    case Timeout(t) => TimeoutKeepsInv(s, t);
    case Reset => ResetKeepsInv(s);
    case Tick => TickKeepsInv(s);
  }

  ghost predicate Initial(s: State) {
    && s.queue == [] && s.messages == [] && s.receivers == [] && s.calls == map[]
    && |s.content| == s.maxMsgs == |s.free| && (forall x | 0 <= x < s.maxMsgs :: |s.content[x]| == s.msgSize)
    && Distinct(s.free) && (forall x | x in s.free :: x < s.maxMsgs) && (forall x: Slot | x < s.maxMsgs :: x in s.free)
  }

  lemma InitialInv(s: State)
    requires Initial(s)
    ensures Inv(s)
  {
  }

  ghost predicate Run(trace: seq<State>, events: seq<Event>) {
    && |trace| == |events| + 1
    && forall i | 0 <= i < |events| :: Enabled(trace[i], events[i]) && trace[i + 1] == Next(trace[i], events[i]).s
  }

  /** For every interleaving of senders, urgent senders and receivers, with timeouts and resets, the invariant holds:
      no slot is lost or shared, the queued slots hold the messages in order, and no wake-up is lost. */
  lemma {:induction false} RunsKeepInv(trace: seq<State>, events: seq<Event>, n: nat)
    requires Run(trace, events) && Initial(trace[0]) && n < |trace|
    ensures Inv(trace[n])
  {
    if n > 0 {
      RunsKeepInv(trace, events, n - 1);
      StepKeepsInv(trace[n - 1], events[n - 1]);
    }
  }

  /** What rt_mq_recv hands to its caller is the message at the head when it unlinked it: `size` bytes (or the slot size),
      that agree with the message sent as far as both go. */
  lemma ReceivedUnaltered(trace: seq<State>, events: seq<Event>, n: nat)
    requires Run(trace, events) && Initial(trace[0]) && n < |events| && events[n].Returned?
    ensures var c := trace[n].calls[events[n].t];
            var o := Next(trace[n], events[n]);
            && o.message.Some? && |o.message.value| == (if c.size > trace[n].msgSize then trace[n].msgSize else c.size)
            && Agree(o.message.value, c.message)
  {
    RunsKeepInv(trace, events, n);
    assert Enabled(trace[n], events[n]);
    assert CallOk(trace[n], trace[n].calls[events[n].t]);
  }

  /** Whatever wakes a thread stops its timer: over every run a timer that fires finds its thread still waiting. */
  lemma TimersOnlyWhileWaiting(trace: seq<State>, events: seq<Event>, n: nat, t: Tid)
    requires Run(trace, events) && Initial(trace[0]) && n < |events| && events[n] == Timeout(t)
    ensures t in trace[n].calls && trace[n].calls[t].RecvWait? && trace[n].calls[t].status == Waiting && t in trace[n].receivers
  {
    RunsKeepInv(trace, events, n);
  }

  /** When every woken receiver has had its turn, receivers wait only on an empty queue. */
  lemma QuietQueue(trace: seq<State>, events: seq<Event>, n: nat)
    requires Run(trace, events) && Initial(trace[0]) && n < |trace|
    requires forall t | t in trace[n].calls && trace[n].calls[t].RecvWait? :: trace[n].calls[t].status != Woken
    ensures trace[n].receivers != [] ==> trace[n].queue == []
  {
    RunsKeepInv(trace, events, n);
    assert WokenReceivers(trace[n].calls) == {};
  }

  /** When nobody is mid-copy, the free slots and the queued ones make up the whole pool. */
  lemma NoSlotLost(trace: seq<State>, events: seq<Event>, n: nat)
    requires Run(trace, events) && Initial(trace[0]) && n < |trace|
    requires forall t | t in trace[n].calls :: trace[n].calls[t].RecvWait?
    ensures var s := trace[n];
            Distinct(s.free + s.queue) && forall x: Slot :: x < s.maxMsgs <==> x in s.free + s.queue
  {
    RunsKeepInv(trace, events, n);
    DistinctConcat(trace[n].free, trace[n].queue);
  }
}

/** The message queue object: slots linked through their `next` fields into a free chain and a message chain. */
module MessageQueues {
  import opened Kernels
  import opened Lists
  import opened Words
  import opened QueueProtocol

  const NULL: int := -1

  /** Following `next` from `first` visits the slots of the list, in order, and ends at NULL. */
  ghost predicate Chain(next: seq<int>, first: int, list: seq<Slot>)
    decreases |list|
  {
    if list == [] then first == NULL
    else first == list[0] && list[0] < |next| && Chain(next, next[list[0]], list[1..])
  }

  lemma {:induction false} ChainFrame(next: seq<int>, first: int, list: seq<Slot>, x: Slot, v: int)
    requires Chain(next, first, list) && x < |next| && x !in list
    ensures Chain(next[x := v], first, list)
    decreases |list|
  {
    if list != [] {
      ChainFrame(next, next[list[0]], list[1..], x, v);
    }
  }

  // The new tail's next field is NULL already when the old tail is linked to it.
  lemma {:induction false} ChainAppend(next: seq<int>, first: int, list: seq<Slot>, x: Slot)
    requires Chain(next, first, list) && list != [] && Distinct(list) && x !in list
    requires x < |next| && next[x] == NULL
    ensures list[|list| - 1] < |next| && Chain(next[list[|list| - 1] := x], first, list + [x])
    decreases |list|
  {
    var last := list[|list| - 1];
    if |list| == 1 {
      assert (list + [x])[1..] == [x];
      assert Chain(next[last := x], x, [x]) by { assert [x][1..] == []; }
    } else {
      DistinctTail(list);
      ChainAppend(next, next[list[0]], list[1..], x);
      assert list[1..][|list| - 2] == last;
      assert list[0] != last by { assert last in list[1..]; }
      assert (list + [x])[1..] == list[1..] + [x];
    }
  }

  lemma ChainPush(next: seq<int>, first: int, list: seq<Slot>, x: Slot)
    requires Chain(next, first, list) && x < |next| && x !in list
    ensures Chain(next[x := first], x, [x] + list)
  {
    ChainFrame(next, first, list, x, first);
    assert ([x] + list)[1..] == list;
  }

  /** The locals of a thread inside a call. */
  datatype Frame =
    | Sender(msg: Slot, buffer: Message, urgent: bool, copied: bool)
    | Waiter(size: nat, timeout: int, tickDelta: nat)
    | Receiver(msg: Slot, size: nat, got: Option<Message>)

  ghost predicate InCall(b: Tcb, f: Frame, c: Call) {
    match c
    case SendCopy(slot, buffer, urgent, copied) => f == Sender(slot, buffer, urgent, copied) && !b.timerArmed
    case RecvCopy(slot, size, message, got) => f == Receiver(slot, size, got) && !b.timerArmed
    case RecvWait(size, timeout, start, due, armed, status) =>
      && f == Waiter(size, timeout, start) && b.timerArmed == armed
      && match status
         case Waiting => b.stat == Suspend && b.error == EOk
         case Woken => b.stat == Ready && b.error == EOk
         case Failed(e) => b.stat == Ready && b.error == e && e != EOk
  }

  ghost predicate FramesOk(tcb: map<Tid, Tcb>, frames: map<Tid, Frame>, calls: map<Tid, Call>) {
    frames.Keys == calls.Keys && forall t | t in calls :: t in tcb && InCall(tcb[t], frames[t], calls[t])
  }

  lemma FramesOkStep(tcb: map<Tid, Tcb>, frames: map<Tid, Frame>, calls: map<Tid, Call>, t: Tid, b: Tcb, f: Frame, c: Call)
    requires FramesOk(tcb, frames, calls) && InCall(b, f, c)
    ensures FramesOk(tcb[t := b], frames[t := f], calls[t := c])
  {
  }

  lemma FramesOkLeave(tcb: map<Tid, Tcb>, frames: map<Tid, Frame>, calls: map<Tid, Call>, t: Tid, b: Tcb)
    requires FramesOk(tcb, frames, calls)
    ensures FramesOk(tcb, Without(frames, t), Without(calls, t)) && FramesOk(tcb[t := b], Without(frames, t), Without(calls, t))
  {
  }

  lemma FramesOkWake(tcb: map<Tid, Tcb>, frames: map<Tid, Frame>, calls: map<Tid, Call>, h: Tid)
    requires FramesOk(tcb, frames, calls) && h in calls && calls[h].RecvWait? && calls[h].status == Waiting
    ensures h in tcb
    ensures FramesOk(tcb[h := Kernels.Woken(tcb[h], tcb[h].error)], frames, calls[h := calls[h].(armed := false, status := Status.Woken)])
  {
  }

  lemma FramesOkTimeout(tcb: map<Tid, Tcb>, frames: map<Tid, Frame>, calls: map<Tid, Call>, t: Tid)
    requires FramesOk(tcb, frames, calls) && t in calls && calls[t].RecvWait?
    ensures t in tcb
    ensures FramesOk(tcb[t := Kernels.Woken(tcb[t], ETimeout)], frames, calls[t := calls[t].(armed := false, status := Failed(ETimeout))])
  {
  }

  // Of a thread's control block, the call concerns neither the time slice nor the place in the ready list.
  lemma FramesOkTick(tcb: map<Tid, Tcb>, frames: map<Tid, Frame>, calls: map<Tid, Call>, t: Tid, left: nat)
    requires FramesOk(tcb, frames, calls) && t in tcb
    ensures FramesOk(tcb[t := tcb[t].(remainingTick := left)], frames, calls)
  {
  }

  lemma FramesOkAllWoken(tcb: map<Tid, Tcb>, frames: map<Tid, Frame>, calls: map<Tid, Call>, list: seq<Tid>)
    requires FramesOk(tcb, frames, calls) && ReceiversOk(list, calls)
    ensures FramesOk(AllWoken(tcb, list), frames, FailAll(calls, list))
  {
    forall t | t in calls
      ensures t in tcb && InCall(AllWoken(tcb, list)[t], frames[t], FailAll(calls, list)[t])
    {
      FrameOf(tcb, frames, calls, t);
    }
  }

  // The chains and the slots, as the protocol sees them.
  ghost predicate PoolOk(next: seq<int>, payload: seq<Message>, head: int, tail: int, free: int, s: State) {
    && |next| == s.maxMsgs && payload == s.content
    && Chain(next, head, s.queue) && Chain(next, free, s.free)
    && tail == (if s.queue == [] then NULL else s.queue[|s.queue| - 1])
    // a sender that has copied its message has also ended the chain at its slot
    && (forall t | t in s.calls && s.calls[t].SendCopy? && s.calls[t].copied && !s.calls[t].urgent ::
          s.calls[t].slot < |next| && next[s.calls[t].slot] == NULL)
  }

  lemma PoolTake(next: seq<int>, payload: seq<Message>, head: int, tail: int, free: int, s: State, t: Tid, c: Call)
    requires PoolOk(next, payload, head, tail, free, s) && s.free != [] && c.SendCopy? && !c.copied
    ensures free == s.free[0] < |next|
    ensures PoolOk(next, payload, head, tail, next[free], s.(free := s.free[1..], calls := s.calls[t := c]))
  {
  }

  lemma PoolUnlink(next: seq<int>, payload: seq<Message>, head: int, tail: int, free: int, s: State, t: Tid, c: Call,
                   messages: seq<Message>)
    requires PoolOk(next, payload, head, tail, free, s) && s.queue != [] && Distinct(s.queue) && c.RecvCopy?
    ensures head == s.queue[0] < |next|
    ensures PoolOk(next, payload, next[head], if tail == head then NULL else tail, free,
                   s.(queue := s.queue[1..], messages := messages, calls := s.calls[t := c]))
  {
    if |s.queue| > 1 {
      assert s.queue[0] != s.queue[|s.queue| - 1];
    }
  }

  lemma PoolCopy(next: seq<int>, payload: seq<Message>, head: int, tail: int, free: int, s: State, t: Tid)
    requires PoolOk(next, payload, head, tail, free, s) && Inv(s) && Enabled(s, Copy(t))
    ensures var c := s.calls[t];
      c.slot < |next| && |next| == |s.content| &&
      PoolOk(if c.urgent then next else next[c.slot := NULL], CopyIn(s, t).content, head, tail, free, CopyIn(s, t))
  {
    var c := s.calls[t];
    assert Holds(c, c.slot) && CallOk(s, c);
    ChainFrame(next, head, s.queue, c.slot, NULL);
    ChainFrame(next, free, s.free, c.slot, NULL);
  }

  lemma PoolLink(next: seq<int>, payload: seq<Message>, head: int, tail: int, free: int, s: State, t: Tid)
    requires PoolOk(next, payload, head, tail, free, s) && Inv(s) && Enabled(s, Linked(t)) && !s.calls[t].urgent
    ensures s.calls[t].slot < |next| && (tail != NULL ==> 0 <= tail < |next|)
    ensures var x := s.calls[t].slot;
      PoolOk(if tail != NULL then next[tail := x] else next, payload, if head == NULL then x else head, x, free,
             s.(queue := s.queue + [x], messages := s.messages + [s.calls[t].buffer], calls := Without(s.calls, t)))
  {
    var c := s.calls[t];
    var x := c.slot;
    assert Holds(c, x) && CallOk(s, c);
    if s.queue == [] {
      assert [x][1..] == [] && s.queue + [x] == [x];
    } else {
      var last := s.queue[|s.queue| - 1];
      assert last in s.queue;
      ChainAppend(next, head, s.queue, x);
      ChainFrame(next, free, s.free, last, x);
      forall u | u in s.calls && s.calls[u].SendCopy?
        ensures s.calls[u].slot != last
      {
        assert Holds(s.calls[u], s.calls[u].slot);
      }
    }
  }

  lemma PoolLinkUrgent(next: seq<int>, payload: seq<Message>, head: int, tail: int, free: int, s: State, t: Tid)
    requires PoolOk(next, payload, head, tail, free, s) && Inv(s) && Enabled(s, Linked(t)) && s.calls[t].urgent
    ensures s.calls[t].slot < |next|
    ensures var x := s.calls[t].slot;
      PoolOk(next[x := head], payload, x, if tail == NULL then x else tail, free,
             s.(queue := [x] + s.queue, messages := [s.calls[t].buffer] + s.messages, calls := Without(s.calls, t)))
  {
    var c := s.calls[t];
    var x := c.slot;
    assert Holds(c, x) && CallOk(s, c);
    ChainPush(next, head, s.queue, x);
    ChainFrame(next, free, s.free, x, head);
    forall u | u in s.calls && u != t && s.calls[u].SendCopy?
      ensures s.calls[u].slot != x
    {
      assert Holds(s.calls[u], s.calls[u].slot);
    }
  }

  lemma PoolRelease(next: seq<int>, payload: seq<Message>, head: int, tail: int, free: int, s: State, t: Tid)
    requires PoolOk(next, payload, head, tail, free, s) && Inv(s) && Enabled(s, Returned(t))
    ensures s.calls[t].slot < |next|
    ensures var x := s.calls[t].slot;
      PoolOk(next[x := free], payload, head, tail, x, s.(free := [x] + s.free, calls := Without(s.calls, t)))
  {
    var c := s.calls[t];
    var x := c.slot;
    assert Holds(c, x) && CallOk(s, c);
    ChainPush(next, free, s.free, x);
    ChainFrame(next, head, s.queue, x, free);
    forall u | u in s.calls && u != t && s.calls[u].SendCopy?
      ensures s.calls[u].slot != x
    {
      assert Holds(s.calls[u], s.calls[u].slot);
    }
  }

  // One turn of the reset loop: the head of the queue goes to the free chain.
  lemma PoolReset(next: seq<int>, payload: seq<Message>, head: int, tail: int, free: int, s: State)
    requires PoolOk(next, payload, head, tail, free, s) && SlotsOk(s.maxMsgs, s.free, s.queue, s.calls) && s.queue != []
    ensures 0 <= head < |next|
    ensures PoolOk(next[head := free], payload, next[head], if tail == head then NULL else tail, head,
                   s.(queue := s.queue[1..], free := [s.queue[0]] + s.free))
    ensures SlotsOk(s.maxMsgs, [s.queue[0]] + s.free, s.queue[1..], s.calls)
  {
    var x := s.queue[0];
    assert x in s.queue;
    DistinctTail(s.queue);
    ChainPush(next, free, s.free, x);
    ChainFrame(next, next[x], s.queue[1..], x, free);
    DistinctConcat([x], s.free);
    assert forall y | y in s.queue[1..] :: y in s.queue;
    forall u | u in s.calls && s.calls[u].SendCopy?
      ensures s.calls[u].slot != x
    {
      assert Holds(s.calls[u], s.calls[u].slot);
    }
    if |s.queue| > 1 {
      assert s.queue[|s.queue| - 1] in s.queue[1..];
    }
  }

  class MessageQueue {
    const k: Kernel
    const flag: IpcFlag
    const msgSize: nat                // rt_uint16_t
    const maxMsgs: nat                // rt_uint16_t
    const next: array<int>            // the headers of the slots of msg_pool
    const payload: array<Message>     // the bytes of the slots of msg_pool
    var entry: nat
    var head: int                     // msg_queue_head
    var tail: int                     // msg_queue_tail
    var free: int                     // msg_queue_free
    const recvQueue: QueueId          // parent.suspend_thread
    var frames: map<Tid, Frame>
    ghost var s: State

    ghost predicate Valid()
      reads this, k, next, payload
    {
      && k.Valid() && recvQueue in k.wait
      && next.Length == maxMsgs == payload.Length
      && s.msgSize == msgSize && s.maxMsgs == maxMsgs && s.tick == k.tick
      && entry == |s.queue| && s.receivers == k.wait[recvQueue]
      && PoolOk(next[..], payload[..], head, tail, free, s)
      && FramesOk(k.tcb, frames, s.calls)
      && Inv(s)
    }

    // rt_mq_init
    constructor (kernel: Kernel, msgSize: nat, poolSize: nat, flag: IpcFlag, r: QueueId, bytes: Message)
      requires kernel.Valid() && r !in kernel.wait && kernel.tick < W32
      requires |bytes| == AlignUp(msgSize)
      modifies kernel`wait
      ensures kernel.wait == old(kernel.wait)[r := []]
      ensures Valid() && fresh(next) && fresh(payload) && k == kernel && Initial(s)
      ensures this.msgSize == AlignUp(msgSize) && maxMsgs == SlotCount(poolSize, this.msgSize)
    {
      hide Consistent, Chain, Distinct, Inv, PoolOk, FramesOk, AlignUp, SlotCount;
      var size := AlignUp(msgSize);
      var max := SlotCount(poolSize, size);
      k, this.flag, recvQueue := kernel, flag, r;
      this.msgSize, maxMsgs := size, max;
      var links, slots, first;
      ghost var list;
      links, slots, first, list := MakePool(max, bytes);
      next, payload, free := links, slots, first;
      entry, head, tail := 0, NULL, NULL;
      frames := map[];
      s := State(size, max, list, [], seq(max, _ => bytes), [], map[], kernel.tick, []);
      new;
      kernel.QueueInit(r);
      NoFrames(k.tcb);
      EmptyPool(next[..], payload[..], free, s);
      InitialInv(s);
    }

    // The loop of rt_mq_init: the slots are pushed on the free chain one by one.
    static method MakePool(max: nat, bytes: Message) returns (links: array<int>, slots: array<Message>, first: int, ghost list: seq<Slot>)
      ensures fresh(links) && fresh(slots) && links.Length == max
      ensures slots[..] == seq(max, _ => bytes)
      ensures |list| == max && Distinct(list) && (forall x: Slot :: x in list <==> x < max)
      ensures Chain(links[..], first, list)
    {
      links := new int[max];
      slots := new Message[max](_ => bytes);
      first, list := NULL, [];
      var temp := 0;
      while temp < max
        invariant temp <= max && |list| == temp && Distinct(list)
        invariant forall x: Slot :: x in list <==> x < temp
        invariant Chain(links[..], first, list)
        invariant slots[..] == seq(max, _ => bytes)
      {
        ghost var links0 := links[..];
        ChainPush(links0, first, list, temp);
        links[temp] := first;
        assert links[..] == links0[temp := first];
        DistinctConcat([temp], list);
        first := temp;
        list := [temp] + list;
        temp := temp + 1;
      }
    }

    // The first section of rt_mq_send and rt_mq_urgent: None when the thread goes on to copy its message.
    method Send(t: Tid, buffer: Message, urgent: bool) returns (r: Option<Err>)
      requires Valid() && t in k.tcb && k.tcb[t].stat == Ready && t !in s.calls && buffer != []
      modifies this`free, this`frames, this`s
      ensures Valid() && var o := Next(old(s), QueueProtocol.Send(t, buffer, urgent)); s == o.s && r == o.result
    {
      hide Consistent, Inv, FramesOk, PoolOk;
      StepKeepsInv(s, QueueProtocol.Send(t, buffer, urgent));
      if |buffer| > msgSize {
        return Some(EError);
      }
      var msg := free;
      FreeEmpty(next[..], payload[..], head, tail, free, s);
      if msg == NULL {
        return Some(EFull);
      }
      ghost var c := SendCopy(s.free[0], buffer, urgent, false);
      PoolTake(next[..], payload[..], head, tail, free, s, t, c);
      free := next[msg];
      TimerStopped(k.tcb, k.table, k.group, k.readyTable, k.wait, k.defunct, t);
      FramesOkStep(k.tcb, frames, s.calls, t, k.tcb[t], Sender(msg, buffer, urgent, false), c);
      assert k.tcb[t := k.tcb[t]] == k.tcb;
      frames := frames[t := Sender(msg, buffer, urgent, false)];
      s := SendStart(s, t, buffer, urgent).s;
      return None;
    }

    // Between the sections, with interrupts on: end the chain at the slot, unless urgent, and copy the message in.
    method CopyMessage(t: Tid)
      requires Valid() && Enabled(s, Copy(t))
      modifies this`frames, this`s, next, payload
      ensures Valid() && s == Next(old(s), Copy(t)).s
    {
      hide Consistent, Inv, PoolOk, FramesOk;
      StepKeepsInv(s, Copy(t));
      FrameOf(k.tcb, frames, s.calls, t);
      PoolCopy(next[..], payload[..], head, tail, free, s, t);
      var f := frames[t];
      ghost var next0, payload0, c := next[..], payload[..], s.calls[t];
      if !f.urgent {
        next[f.msg] := NULL;
        assert next[..] == next0[f.msg := NULL];
      }
      ContentSizes(s, t);
      PoolPayload(next0, payload0, head, tail, free, s);
      payload[f.msg] := f.buffer + payload[f.msg][|f.buffer|..];
      assert payload[..] == payload0[f.msg := f.buffer + payload0[f.msg][|f.buffer|..]];
      FramesOkStep(k.tcb, frames, s.calls, t, k.tcb[t], f.(copied := true), c.(copied := true));
      assert k.tcb[t := k.tcb[t]] == k.tcb;
      frames := frames[t := f.(copied := true)];
      s := CopyIn(s, t);
    }

    // Link the slot of a sender at the end of the message chain, or at its beginning.
    method LinkSlot(ghost t: Tid, msg: Slot, urgent: bool)
      requires PoolOk(next[..], payload[..], head, tail, free, s) && Inv(s) && Enabled(s, Linked(t))
      requires s.calls[t].slot == msg && s.calls[t].urgent == urgent
      modifies this`head, this`tail, next
      ensures PoolOk(next[..], payload[..], head, tail, free, LinkedState(s, t))
    {
      hide Inv, PoolOk;
      FreeEmpty(next[..], payload[..], head, tail, free, s);
      ghost var next0 := next[..];
      if urgent {
        PoolLinkUrgent(next0, payload[..], head, tail, free, s, t);
        next[msg] := head;
        assert next[..] == next0[msg := head];
        head := msg;
        if tail == NULL {
          tail := msg;
        }
      } else {
        PoolLink(next0, payload[..], head, tail, free, s, t);
        if tail != NULL {
          next[tail] := msg;
          assert next[..] == next0[tail := msg];
        }
        tail := msg;
        if head == NULL {
          head := msg;
        }
      }
    }

    // The second section of rt_mq_send and rt_mq_urgent: link the slot, wake a receiver.
    method LinkMessage(t: Tid)
      requires Valid() && Enabled(s, Linked(t))
      modifies this`head, this`tail, this`entry, this`frames, this`s, k, next
      ensures Valid() && s == Next(old(s), Linked(t)).s
    {
      hide Consistent, Inv, PoolOk, FramesOk, Appended, ReceiversOk;
      StepKeepsInv(s, Linked(t));
      FrameOf(k.tcb, frames, s.calls, t);
      FirstReceiver(s, t);
      LinkSlot(t, frames[t].msg, frames[t].urgent);
      entry := entry + 1;
      FramesOkLeave(k.tcb, frames, s.calls, t, k.tcb[t]);
      frames := Without(frames, t);
      s := LinkedState(s, t);
      PoolWake(next[..], payload[..], head, tail, free, s);
      if k.wait[recvQueue] != [] {
        FramesOkWake(k.tcb, frames, s.calls, s.receivers[0]);
        k.IpcResume(recvQueue);
      }
      s := WakeReceiver(s);
    }

    // The head of the message chain is unlinked and goes to the receiver.
    method UnlinkHead(t: Tid, size: nat)
      requires Valid() && t in k.tcb && k.tcb[t].stat == Ready && entry > 0
      requires t in s.calls ==> s.calls[t].RecvWait? && s.calls[t].status != Waiting
      modifies this`head, this`tail, this`entry, this`frames, this`s
      ensures Valid() && old(s).queue != [] && old(s).messages != [] && s == RecvAttempt(old(s), t, size, 0, 0, 0).s
    {
      hide Consistent, Inv, PoolOk, FramesOk;
      AttemptKeepsInv(s, t, size, 0, 0, 0);
      FreeEmpty(next[..], payload[..], head, tail, free, s);
      MessagesMatch(s);
      var msg := head;
      ghost var c := RecvCopy(s.queue[0], size, s.messages[0], None);
      QueueDistinct(s);
      PoolUnlink(next[..], payload[..], head, tail, free, s, t, c, s.messages[1..]);
      head := next[msg];
      if tail == msg {
        tail := NULL;
      }
      entry := entry - 1;
      TimerStopped(k.tcb, k.table, k.group, k.readyTable, k.wait, k.defunct, t);
      FramesOkStep(k.tcb, frames, s.calls, t, k.tcb[t], Receiver(msg, size, None), c);
      assert k.tcb[t := k.tcb[t]] == k.tcb;
      frames := frames[t := Receiver(msg, size, None)];
      s := RecvAttempt(s, t, size, 0, 0, 0).s;
    }

    // One pass through the first section of rt_mq_recv: None when the thread sleeps or goes on to copy a message.
    method RecvLoop(t: Tid, size: nat, timeout: int, ghost due: nat) returns (r: Option<Err>)
      requires Valid() && t in k.tcb && k.tcb[t].stat == Ready
      requires -W32 / 2 <= timeout < W32 / 2 && (timeout > 0 ==> U32(s.tick + timeout) == due)
      requires t in s.calls ==> s.calls[t].RecvWait? && s.calls[t].status != Waiting
      modifies this`head, this`tail, this`entry, this`frames, this`s, k
      ensures Valid() && (forall u | u in old(s).receivers :: u in old(k.tcb))
      ensures var o := RecvAttempt(old(s), t, size, timeout, due, Place(old(k.tcb), old(s).receivers, t, flag));
              s == o.s && r == o.result && o.message == None
    {
      hide Consistent, Inv, PoolOk, FramesOk, Place, InsertAt, Dropped, Distinct;
      WaitersOk(k.tcb, k.table, k.group, k.readyTable, k.wait, k.defunct, recvQueue);
      ghost var pos := Place(k.tcb, s.receivers, t, flag);
      AttemptKeepsInv(s, t, size, timeout, due, pos);
      FreeEmpty(next[..], payload[..], head, tail, free, s);
      MessagesMatch(s);
      if entry == 0 {
        if timeout == 0 {
          FramesOkLeave(k.tcb, frames, s.calls, t, k.tcb[t].(error := ETimeout));
          PoolCalls(next[..], payload[..], head, tail, free, s, RecvAttempt(s, t, size, timeout, due, pos).s);
          k.SetError(t, ETimeout);
          frames := Without(frames, t);
          s := RecvAttempt(s, t, size, timeout, due, pos).s;
          return Some(ETimeout);
        }
        ghost var c := RecvWait(size, timeout, s.tick, due, timeout > 0, Waiting);
        FramesOkStep(k.tcb, frames, s.calls, t, Blocked(k.tcb[t], timeout > 0), Waiter(size, timeout, k.tick), c);
        PoolCalls(next[..], payload[..], head, tail, free, s, RecvAttempt(s, t, size, timeout, due, pos).s);
        k.Block(recvQueue, t, flag, timeout > 0);
        frames := frames[t := Waiter(size, timeout, k.tick)];
        s := RecvAttempt(s, t, size, timeout, due, pos).s;
        return None;
      }
      UnlinkHead(t, size);
      return None;
    }

    // rt_mq_recv, up to its first return, sleep or copy
    method Recv(t: Tid, size: nat, timeout: int) returns (r: Option<Err>)
      requires Valid() && t in k.tcb && k.tcb[t].stat == Ready && t !in s.calls && size > 0 && -W32 / 2 <= timeout < W32 / 2
      modifies this`head, this`tail, this`entry, this`frames, this`s, k
      ensures Valid() && (forall u | u in old(s).receivers :: u in old(k.tcb))
      ensures var e := Receive(t, size, timeout, Place(old(k.tcb), old(s).receivers, t, flag));
              Enabled(old(s), e) && s == Next(old(s), e).s && r == Next(old(s), e).result
    {
      hide Consistent, Inv, PoolOk, FramesOk, Place, RecvAttempt;
      r := RecvLoop(t, size, timeout, U32(s.tick + timeout));
    }

    // A receiver asleep in rt_mq_recv runs again, after rt_schedule returned to it.
    method Continue(t: Tid) returns (r: Option<Err>)
      requires Valid() && t in s.calls && s.calls[t].RecvWait? && s.calls[t].status != Waiting
      modifies this`head, this`tail, this`entry, this`frames, this`s, k
      ensures Valid() && t in old(k.tcb) && (forall u | u in old(s).receivers :: u in old(k.tcb))
      ensures var e := if old(s).calls[t].status == Status.Woken then Retry(t, Place(old(k.tcb), old(s).receivers, t, flag))
                       else GiveUp(t);
              Enabled(old(s), e) && s == Next(old(s), e).s && r == Next(old(s), e).result
    {
      hide Consistent, Inv, PoolOk, FramesOk, Place, RecvAttempt;
      FrameOf(k.tcb, frames, s.calls, t);
      WaitersOk(k.tcb, k.table, k.group, k.readyTable, k.wait, k.defunct, recvQueue);
      var f := frames[t];
      ghost var c := s.calls[t];
      if k.tcb[t].error != EOk {
        StepKeepsInv(s, GiveUp(t));
        FramesOkLeave(k.tcb, frames, s.calls, t, k.tcb[t]);
        PoolCalls(next[..], payload[..], head, tail, free, s, Next(s, GiveUp(t)).s);
        frames := Without(frames, t);
        s := Next(s, GiveUp(t)).s;
        return Some(k.tcb[t].error);
      }
      RetryTiming(s, t);
      r := RecvLoop(t, f.size, LeftOver(f.timeout, f.tickDelta, k.tick), c.due);
    }

    // Between the sections of rt_mq_recv, with interrupts on: copy the message out.
    method Fetch(t: Tid)
      requires Valid() && Enabled(s, Unload(t))
      modifies this`frames, this`s
      ensures Valid() && s == Next(old(s), Unload(t)).s
    {
      hide Consistent, Inv, PoolOk, FramesOk;
      StepKeepsInv(s, Unload(t));
      FrameOf(k.tcb, frames, s.calls, t);
      var f := frames[t];
      ghost var c := s.calls[t];
      UnloadSizes(s, t);
      PoolPayload(next[..], payload[..], head, tail, free, s);
      var got := payload[f.msg][..if f.size > msgSize then msgSize else f.size];
      FramesOkStep(k.tcb, frames, s.calls, t, k.tcb[t], f.(got := Some(got)), c.(got := Some(got)));
      assert k.tcb[t := k.tcb[t]] == k.tcb;
      PoolCalls(next[..], payload[..], head, tail, free, s, CopyOut(s, t));
      frames := frames[t := f.(got := Some(got))];
      s := CopyOut(s, t);
    }

    // The second section of rt_mq_recv: give the slot back and return the message.
    method Return(t: Tid) returns (r: Err, message: Message)
      requires Valid() && Enabled(s, Returned(t))
      modifies this`free, this`frames, this`s, next
      ensures Valid() && var o := Next(old(s), Returned(t)); s == o.s && o.result == Some(r) && o.message == Some(message)
    {
      hide Consistent, Inv, PoolOk;
      StepKeepsInv(s, Returned(t));
      var f := frames[t];
      ghost var next0 := next[..];
      PoolRelease(next0, payload[..], head, tail, free, s, t);
      next[f.msg] := free;
      assert next[..] == next0[f.msg := free];
      free := f.msg;
      FramesOkLeave(k.tcb, frames, s.calls, t, k.tcb[t]);
      frames := Without(frames, t);
      s := Release(s, t).s;
      return EOk, f.got.value;
    }

    // rt_thread_timeout for a thread inside a call whose timer is running
    method TimerFires(t: Tid)
      requires Valid() && t in s.calls && k.tcb[t].timerArmed
      modifies this`s, k
      ensures Valid() && Enabled(old(s), QueueProtocol.Timeout(t)) && s == Next(old(s), QueueProtocol.Timeout(t)).s
    {
      hide Consistent, Inv, PoolOk, FramesOk, HeadsBest, Remove, Appended;
      FrameOf(k.tcb, frames, s.calls, t);
      StepKeepsInv(s, QueueProtocol.Timeout(t));
      FramesOkTimeout(k.tcb, frames, s.calls, t);
      PoolCalls(next[..], payload[..], head, tail, free, s, Next(s, QueueProtocol.Timeout(t)).s);
      k.Timeout(t);
      s := Next(s, QueueProtocol.Timeout(t)).s;
    }

    // rt_tick_increase, whatever it does to the running thread: no call is affected but by the time
    method ClockTick()
      requires Valid() && SomeReady(k.table) && k.current.Some? && k.current.value in k.tcb
      requires k.tcb[k.current.value].remainingTick > 0
      modifies this`s, k
      ensures Valid() && Enabled(old(s), Tick) && s == Next(old(s), Tick).s
    {
      hide Consistent, Inv, PoolOk, HeadsBest, Remove, Appended;
      StepKeepsInv(s, Tick);
      PoolCalls(next[..], payload[..], head, tail, free, s, Next(s, Tick).s);
      ghost var t := k.current.value;
      FramesOkTick(k.tcb, frames, s.calls, t, if k.tcb[t].remainingTick == 1 then k.tcb[t].initTick else k.tcb[t].remainingTick - 1);
      k.TickIncrease();
      s := Next(s, Tick).s;
    }

    // The loop of rt_mq_control that moves every queued slot to the free chain.
    method DrainQueue(ghost s1: State) returns (ghost freed: seq<Slot>)
      requires PoolOk(next[..], payload[..], head, tail, free, s1) && SlotsOk(s1.maxMsgs, s1.free, s1.queue, s1.calls)
      modifies this`head, this`tail, this`free, next
      ensures freed == Reversed(s1.queue) + s1.free
      ensures PoolOk(next[..], payload[..], head, tail, free, s1.(queue := [], free := freed))
    {
      hide PoolOk, SlotsOk;
      ghost var queue := s1.queue;
      freed := s1.free;
      FreeEmpty(next[..], payload[..], head, tail, free, s1);
      assert s1.(queue := queue, free := freed) == s1;
      while head != NULL
        invariant head == NULL <==> queue == []
        invariant PoolOk(next[..], payload[..], head, tail, free, s1.(queue := queue, free := freed))
        invariant SlotsOk(s1.maxMsgs, freed, queue, s1.calls)
        invariant Reversed(queue) + freed == Reversed(s1.queue) + s1.free
        decreases |queue|
      {
        ghost var next0 := next[..];
        PoolReset(next0, payload[..], head, tail, free, s1.(queue := queue, free := freed));
        ReversedStep(queue, freed);
        var msg := head;
        head := next[msg];
        if tail == msg {
          tail := NULL;
        }
        next[msg] := free;
        assert next[..] == next0[msg := free];
        free := msg;
        freed := [queue[0]] + freed;
        queue := queue[1..];
        FreeEmpty(next[..], payload[..], head, tail, free, s1.(queue := queue, free := freed));
      }
      assert Reversed(queue) + freed == freed;
    }

    // rt_mq_control with RT_IPC_CMD_RESET
    method ControlReset()
      requires Valid()
      modifies this`head, this`tail, this`free, this`entry, this`s, k, next
      ensures Valid() && s == Next(old(s), Reset).s
    {
      hide Consistent, Inv, PoolOk, FramesOk, FailAll, AllWoken, AllAppended, SlotsOk, Reversed;
      StepKeepsInv(s, Reset);
      InvParts(s);
      FramesOkAllWoken(k.tcb, frames, s.calls, s.receivers);
      PoolReceivers(next[..], payload[..], head, tail, free, s);
      k.IpcResumeAll(recvQueue);
      ghost var s1 := s.(receivers := [], calls := FailAll(s.calls, s.receivers));
      ghost var freed := DrainQueue(s1);
      entry := 0;
      PoolEmptied(next[..], payload[..], head, tail, free, s1, freed);
      s := Next(s, Reset).s;
    }
  }

  lemma FreeEmpty(next: seq<int>, payload: seq<Message>, head: int, tail: int, free: int, s: State)
    requires PoolOk(next, payload, head, tail, free, s)
    ensures free == NULL <==> s.free == []
    ensures head == NULL <==> s.queue == []
  {
  }

  lemma PoolPayload(next: seq<int>, payload: seq<Message>, head: int, tail: int, free: int, s: State)
    requires PoolOk(next, payload, head, tail, free, s)
    ensures payload == s.content
  {
  }

  lemma ContentSizes(s: State, t: Tid)
    requires Inv(s) && Enabled(s, Copy(t))
    ensures var c := s.calls[t]; c.slot < |s.content| == s.maxMsgs && |c.buffer| <= |s.content[c.slot]|
  {
    assert CallOk(s, s.calls[t]);
  }

  // rt_mq_message headers are 4 bytes, and RT_ALIGN_SIZE is 4
  function AlignUp(size: nat): (r: nat)
    ensures r % 4 == 0 && size <= r < size + 4
  {
    (size + 3) / 4 * 4
  }

  // The state between linking a message and waking a receiver.
  ghost function LinkedState(s: State, t: Tid): State
    requires t in s.calls && s.calls[t].SendCopy?
  {
    var c := s.calls[t];
    s.(queue := if c.urgent then [c.slot] + s.queue else s.queue + [c.slot],
       messages := if c.urgent then [c.buffer] + s.messages else s.messages + [c.buffer],
       calls := Without(s.calls, t))
  }

  // max_msgs: each slot of the pool has a header
  function SlotCount(poolSize: nat, msgSize: nat): nat {
    poolSize / (msgSize + 4)
  }

  lemma NoFrames(tcb: map<Tid, Tcb>)
    ensures FramesOk(tcb, map[], map[])
  {
  }

  lemma EmptyPool(next: seq<int>, payload: seq<Message>, free: int, s: State)
    requires |next| == s.maxMsgs && payload == s.content && Chain(next, free, s.free)
    requires s.queue == [] && s.calls == map[]
    ensures PoolOk(next, payload, NULL, NULL, free, s)
  {
  }

  lemma FrameOf(tcb: map<Tid, Tcb>, frames: map<Tid, Frame>, calls: map<Tid, Call>, t: Tid)
    requires FramesOk(tcb, frames, calls) && t in calls
    ensures t in tcb && t in frames && InCall(tcb[t], frames[t], calls[t])
  {
  }

  lemma FirstReceiver(s: State, t: Tid)
    requires Inv(s) && (t in s.calls ==> !s.calls[t].RecvWait?)
    ensures s.receivers != [] ==> var h := s.receivers[0];
      h != t && h in s.calls && s.calls[h].RecvWait? && s.calls[h].status == Waiting
  {
    assert s.receivers != [] ==> s.receivers[0] in s.receivers;
  }

  // Changes to the calls that send nothing leave the pool as it is.
  lemma PoolCalls(next: seq<int>, payload: seq<Message>, head: int, tail: int, free: int, s: State, s': State)
    requires PoolOk(next, payload, head, tail, free, s)
    requires s'.maxMsgs == s.maxMsgs && s'.content == s.content && s'.queue == s.queue && s'.free == s.free
    requires forall t | t in s'.calls && s'.calls[t].SendCopy? :: t in s.calls && s.calls[t] == s'.calls[t]
    ensures PoolOk(next, payload, head, tail, free, s')
  {
  }

  lemma PoolWake(next: seq<int>, payload: seq<Message>, head: int, tail: int, free: int, s: State)
    requires PoolOk(next, payload, head, tail, free, s)
    ensures PoolOk(next, payload, head, tail, free, WakeReceiver(s))
  {
    PoolCalls(next, payload, head, tail, free, s, WakeReceiver(s));
  }

  lemma PoolReceivers(next: seq<int>, payload: seq<Message>, head: int, tail: int, free: int, s: State)
    requires PoolOk(next, payload, head, tail, free, s)
    ensures PoolOk(next, payload, head, tail, free, s.(receivers := [], calls := FailAll(s.calls, s.receivers)))
  {
    PoolCalls(next, payload, head, tail, free, s, s.(receivers := [], calls := FailAll(s.calls, s.receivers)));
  }

  lemma PoolEmptied(next: seq<int>, payload: seq<Message>, head: int, tail: int, free: int, s: State, freed: seq<Slot>)
    requires PoolOk(next, payload, head, tail, free, s.(queue := [], free := freed))
    ensures PoolOk(next, payload, head, tail, free, s.(queue := [], messages := [], free := freed))
  {
    PoolCalls(next, payload, head, tail, free, s.(queue := [], free := freed), s.(queue := [], messages := [], free := freed));
  }

  lemma MessagesMatch(s: State)
    requires Inv(s)
    ensures |s.messages| == |s.queue|
  {
  }

  lemma QueueDistinct(s: State)
    requires Inv(s)
    ensures Distinct(s.queue)
  {
  }

  lemma InvParts(s: State)
    requires Inv(s)
    ensures SlotsOk(s.maxMsgs, s.free, s.queue, FailAll(s.calls, s.receivers)) && ReceiversOk(s.receivers, s.calls)
  {
    SlotsKept(s.maxMsgs, s.free, s.queue, s.calls, FailAll(s.calls, s.receivers));
  }

  lemma RetryTiming(s: State, t: Tid)
    requires Inv(s) && t in s.calls && s.calls[t].RecvWait?
    ensures var c := s.calls[t]; var r := LeftOver(c.timeout, c.start, s.tick);
            -W32 / 2 <= r < W32 / 2 && (r > 0 ==> U32(s.tick + r) == c.due)
  {
    assert CallOk(s, s.calls[t]);
    LeftOverKeepsDue(s.calls[t].timeout, s.calls[t].start, s.tick);
  }

  lemma UnloadSizes(s: State, t: Tid)
    requires Inv(s) && Enabled(s, Unload(t))
    ensures var c := s.calls[t]; c.slot < |s.content| && |s.content[c.slot]| == s.msgSize
  {
    assert CallOk(s, s.calls[t]);
  }

  lemma ReversedStep(queue: seq<Slot>, freed: seq<Slot>)
    requires queue != []
    ensures Reversed(queue[1..]) + ([queue[0]] + freed) == Reversed(queue) + freed
  {
  }
}
