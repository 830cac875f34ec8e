/** What becomes of each message over a run of a message queue: who sent it, when it was linked, in which order messages leave,
    and that each of them leaves once. Messages are told apart by the step that linked them. */
module MessageOrder {
  import opened Kernels
  import opened Lists
  import opened QueueProtocol
  import opened Words

  // A receiver takes the head of the queue.
  predicate Unlinks(s: State, e: Event) {
    (e.Receive? || e.Retry?) && s.queue != [] && s.messages != []
  }

  predicate IsUrgent(s: State, e: Event) {
    e.Linked? && e.t in s.calls && s.calls[e.t].SendCopy? && s.calls[e.t].urgent
  }

  // The message that a step links.
  function Text(s: State, e: Event): Message {
    if e.Linked? && e.t in s.calls && s.calls[e.t].SendCopy? then s.calls[e.t].buffer else []
  }

  // What step k does to the queue of linking steps, and to those whose messages have been taken.
  function AfterStep(q: seq<nat>, s: State, e: Event, k: nat): seq<nat> {
    if e.Linked? then (if IsUrgent(s, e) then [k] + q else q + [k])
    else if e.Reset? then []
    else if Unlinks(s, e) && q != [] then q[1..]
    else q
  }

  function TakenBy(g: seq<nat>, q: seq<nat>, s: State, e: Event): seq<nat> {
    if Unlinks(s, e) && q != [] then g + [q[0]] else g
  }

  /** The steps that linked the messages now in the queue, in the order of the queue. */
  ghost function Queued(trace: seq<State>, events: seq<Event>, n: nat): seq<nat>
    requires n <= |events| <= |trace|
  {
    if n == 0 then [] else AfterStep(Queued(trace, events, n - 1), trace[n - 1], events[n - 1], n - 1)
  }

  /** The steps that linked the messages receivers have taken so far, in the order taken. */
  ghost function Gone(trace: seq<State>, events: seq<Event>, n: nat): seq<nat>
    requires n <= |events| <= |trace|
  {
    if n == 0 then []
    else TakenBy(Gone(trace, events, n - 1), Queued(trace, events, n - 1), trace[n - 1], events[n - 1])
  }

  // Step i links a message, which is m.
  ghost predicate Links(trace: seq<State>, events: seq<Event>, i: nat, m: Message) {
    i < |events| && i < |trace| && events[i].Linked? && Text(trace[i], events[i]) == m
  }

  lemma StepMessages(s: State, e: Event)
    requires Inv(s) && Enabled(s, e)
    ensures var m := Next(s, e).s.messages;
      if e.Linked? then m == (if IsUrgent(s, e) then [Text(s, e)] + s.messages else s.messages + [Text(s, e)])
      else if e.Reset? then m == []
      else if Unlinks(s, e) then m == s.messages[1..]
      else m == s.messages
  {
    hide SlotsOk, ReceiversOk, NoLostWakeup, CallOk, InsertAt, Remove;
  }

  // The messages are those linked by the steps of q.
  ghost predicate TextsOf(trace: seq<State>, events: seq<Event>, q: seq<nat>, n: nat, messages: seq<Message>) {
    |q| == |messages| && forall j | 0 <= j < |q| :: q[j] < n && Links(trace, events, q[j], messages[j])
  }

  lemma TextsAfter(trace: seq<State>, events: seq<Event>, q: seq<nat>, n: nat)
    requires n < |events| && n < |trace| && TextsOf(trace, events, q, n, trace[n].messages)
    requires Inv(trace[n]) && Enabled(trace[n], events[n])
    ensures TextsOf(trace, events, AfterStep(q, trace[n], events[n], n), n + 1, Next(trace[n], events[n]).s.messages)
  {
    hide Inv, Enabled, Next, Links, IsUrgent, Text;
    StepMessages(trace[n], events[n]);
    LinksNow(trace, events, n);
  }

  lemma LinksNow(trace: seq<State>, events: seq<Event>, n: nat)
    requires n < |events| && n < |trace|
    ensures events[n].Linked? ==> Links(trace, events, n, Text(trace[n], events[n]))
  {
  }

  /** The queue holds exactly the messages that those steps linked, in that order. */
  lemma {:induction false} QueuedMessages(trace: seq<State>, events: seq<Event>, n: nat)
    requires Run(trace, events) && Initial(trace[0]) && n < |trace|
    ensures TextsOf(trace, events, Queued(trace, events, n), n, trace[n].messages)
  {
    if n > 0 {
      QueuedMessages(trace, events, n - 1);
      RunsKeepInv(trace, events, n - 1);
      hide Inv, Enabled, Next, TextsOf, AfterStep;
      TextsAfter(trace, events, Queued(trace, events, n - 1), n - 1);
    }
  }

  ghost predicate UrgentStep(trace: seq<State>, events: seq<Event>, i: nat) {
    i < |events| && i < |trace| && IsUrgent(trace[i], events[i])
  }

  // Urgent messages before ordinary ones; the latest urgent one first, and the earliest ordinary one first.
  ghost predicate Ahead(trace: seq<State>, events: seq<Event>, x: nat, y: nat) {
    if UrgentStep(trace, events, y) then UrgentStep(trace, events, x) && y < x else UrgentStep(trace, events, x) || x < y
  }

  ghost predicate InOrder(trace: seq<State>, events: seq<Event>, q: seq<nat>, n: nat) {
    && (forall a | 0 <= a < |q| :: q[a] < n)
    && forall a, b | 0 <= a < b < |q| :: Ahead(trace, events, q[a], q[b])
  }

  // The place of a message that is linked now, against those linked before.
  lemma NewIsAhead(trace: seq<State>, events: seq<Event>, n: nat, x: nat)
    requires x < n < |events| && n < |trace|
    ensures if IsUrgent(trace[n], events[n]) then Ahead(trace, events, n, x) else Ahead(trace, events, x, n)
  {
    hide IsUrgent;
  }

  lemma OrderAfter(trace: seq<State>, events: seq<Event>, q: seq<nat>, n: nat)
    requires n < |events| && n < |trace| && InOrder(trace, events, q, n)
    ensures InOrder(trace, events, AfterStep(q, trace[n], events[n], n), n + 1)
  {
    hide Unlinks, IsUrgent, Ahead;
    forall j | 0 <= j < |q|
      ensures if IsUrgent(trace[n], events[n]) then Ahead(trace, events, n, q[j]) else Ahead(trace, events, q[j], n)
    {
      NewIsAhead(trace, events, n, q[j]);
    }
  }

  /** Messages wait in the order in which they are to be received. */
  lemma {:induction false} QueuedInOrder(trace: seq<State>, events: seq<Event>, n: nat)
    requires |trace| == |events| + 1 && n < |trace|
    ensures InOrder(trace, events, Queued(trace, events, n), n)
  {
    hide InOrder, AfterStep;
    if n > 0 {
      QueuedInOrder(trace, events, n - 1);
      OrderAfter(trace, events, Queued(trace, events, n - 1), n - 1);
    } else {
      EmptyInOrder(trace, events);
    }
  }

  lemma EmptyInOrder(trace: seq<State>, events: seq<Event>)
    ensures InOrder(trace, events, [], 0)
  {
  }

  ghost predicate OnceEach(g: seq<nat>, q: seq<nat>, n: nat) {
    Distinct(g + q) && (forall i | i in g :: i < n) && forall i | i in q :: i < n
  }

  lemma OnceAfter(g: seq<nat>, q: seq<nat>, n: nat, s: State, e: Event)
    requires OnceEach(g, q, n)
    ensures OnceEach(TakenBy(g, q, s, e), AfterStep(q, s, e, n), n + 1)
  {
    hide IsUrgent;
    DistinctSplit(g, q);
    var g', q' := TakenBy(g, q, s, e), AfterStep(q, s, e, n);
    if e.Linked? {
      InsertAnywhere(g, q, n);
    } else if e.Reset? {
      assert g' + q' == g;
    } else if Unlinks(s, e) && q != [] {
      assert g' + q' == g + q;
      assert q[0] in q && forall i | i in q' :: i in q;
    }
  }

  /** No message leaves twice, or leaves and stays. */
  lemma {:induction false} LeavesOnce(trace: seq<State>, events: seq<Event>, n: nat)
    requires |trace| == |events| + 1 && n < |trace|
    ensures OnceEach(Gone(trace, events, n), Queued(trace, events, n), n)
  {
    if n > 0 {
      LeavesOnce(trace, events, n - 1);
      hide OnceEach, TakenBy, AfterStep;
      OnceAfter(Gone(trace, events, n - 1), Queued(trace, events, n - 1), n - 1, trace[n - 1], events[n - 1]);
    }
  }

  lemma DistinctSplit(g: seq<nat>, q: seq<nat>)
    requires Distinct(g + q)
    ensures Distinct(g) && Distinct(q) && forall i | 0 <= i < |g| :: g[i] !in q
  {
    assert forall i | 0 <= i < |g| :: (g + q)[i] == g[i];
    assert forall i | 0 <= i < |q| :: (g + q)[|g| + i] == q[i];
  }

  lemma InsertAnywhere(g: seq<nat>, q: seq<nat>, x: nat)
    requires Distinct(g) && Distinct(q) && (forall i | 0 <= i < |g| :: g[i] !in q) && x !in g && x !in q
    ensures Distinct(g + ([x] + q)) && Distinct(g + (q + [x]))
  {
    DistinctConcat([x], q);
    DistinctConcat(q, [x]);
    DistinctConcat(g, [x] + q);
    DistinctConcat(g, q + [x]);
  }

  /** Without resets every message linked has been taken or is in the queue. */
  lemma {:induction false} NoneLost(trace: seq<State>, events: seq<Event>, n: nat, i: nat)
    requires |trace| == |events| + 1 && i < n < |trace| && events[i].Linked?
    requires forall j | i <= j < n :: !events[j].Reset?
    ensures i in Gone(trace, events, n) + Queued(trace, events, n)
    decreases n
  {
    hide Next, Enabled, IsUrgent;
    var g, q := Gone(trace, events, n - 1), Queued(trace, events, n - 1);
    if i < n - 1 {
      NoneLost(trace, events, n - 1, i);
      if Unlinks(trace[n - 1], events[n - 1]) && q != [] {
        assert q == [q[0]] + q[1..];
      }
    }
  }

  // --- from the sender to the receiver ---

  /** A message is linked after it has been handed to rt_mq_send or rt_mq_urgent, as it was handed over. */
  lemma {:induction false} SentBefore(trace: seq<State>, events: seq<Event>, n: nat, t: Tid) returns (j: nat)
    requires Run(trace, events) && Initial(trace[0]) && n < |trace|
    requires t in trace[n].calls && trace[n].calls[t].SendCopy?
    ensures j < n && events[j] == Send(t, trace[n].calls[t].buffer, trace[n].calls[t].urgent)
    ensures forall i | j < i <= n :: t in trace[i].calls && trace[i].calls[t].SendCopy?
  {
    var s, e := trace[n - 1], events[n - 1];
    SendCalls(s, e, t);
    if t in s.calls && s.calls[t].SendCopy? {
      j := SentBefore(trace, events, n - 1, t);
    } else {
      j := n - 1;
    }
  }

  lemma SendCalls(s: State, e: Event, t: Tid)
    requires Enabled(s, e) && t in Next(s, e).s.calls && Next(s, e).s.calls[t].SendCopy?
    ensures var c := Next(s, e).s.calls[t];
      if t in s.calls && s.calls[t].SendCopy? then s.calls[t].buffer == c.buffer && s.calls[t].urgent == c.urgent
      else e == Send(t, c.buffer, c.urgent)
  {
    hide InsertAt, Remove;
  }

  /** A receiver that copies a message out has unlinked it, as the head of the queue, and has kept hold of it since. */
  lemma {:induction false} UnlinkedBefore(trace: seq<State>, events: seq<Event>, n: nat, t: Tid) returns (i: nat)
    requires Run(trace, events) && Initial(trace[0]) && n < |trace|
    requires t in trace[n].calls && trace[n].calls[t].RecvCopy?
    ensures i < n && Unlinks(trace[i], events[i]) && events[i].t == t && trace[i].messages[0] == trace[n].calls[t].message
    ensures forall k | i < k <= n :: t in trace[k].calls && trace[k].calls[t].RecvCopy?
  {
    var s, e := trace[n - 1], events[n - 1];
    RecvCalls(s, e, t);
    if t in s.calls && s.calls[t].RecvCopy? {
      i := UnlinkedBefore(trace, events, n - 1, t);
    } else {
      i := n - 1;
    }
  }

  lemma RecvCalls(s: State, e: Event, t: Tid)
    requires Enabled(s, e) && t in Next(s, e).s.calls && Next(s, e).s.calls[t].RecvCopy?
    ensures var c := Next(s, e).s.calls[t];
      if t in s.calls && s.calls[t].RecvCopy? then s.calls[t].message == c.message && s.calls[t].size == c.size
      else Unlinks(s, e) && e.t == t && s.messages[0] == c.message
  {
    hide InsertAt, Remove;
  }

  /** What rt_mq_recv returns at step n is what some thread handed to rt_mq_send or rt_mq_urgent at step j: it was linked at
      step l, was first in the queue when this receiver unlinked it at step i, and is returned byte for byte, in the size
      asked for or that of a slot. */
  lemma Delivered(trace: seq<State>, events: seq<Event>, n: nat) returns (j: nat, l: nat, i: nat)
    requires Run(trace, events) && Initial(trace[0]) && n < |events| && events[n].Returned?
    ensures j < l < i < n && events[j].Send? && events[l] == Linked(events[j].t)
    ensures IsUrgent(trace[l], events[l]) == events[j].urgent
    ensures UnlinkedAt(trace, events, i, n) && Queued(trace, events, i) != [] && Queued(trace, events, i)[0] == l
    ensures var m := Next(trace[n], events[n]).message; var size := trace[n].calls[events[n].t].size;
      m.Some? && |m.value| == (if size > trace[n].msgSize then trace[n].msgSize else size) && Agree(m.value, events[j].buffer)
  {
    var t := events[n].t;
    ReceivedUnaltered(trace, events, n);
    i := UnlinkedBefore(trace, events, n, t);
    QueuedMessages(trace, events, i);
    l := Queued(trace, events, i)[0];
    assert Links(trace, events, l, trace[i].messages[0]);
    j := SentBefore(trace, events, l, events[l].t);
  }

  ghost predicate HoldsOn(trace: seq<State>, t: Tid, i: nat, n: nat)
    requires n < |trace|
  {
    forall k | i < k <= n :: t in trace[k].calls && trace[k].calls[t].RecvCopy?
  }

  /** Two messages returned were linked by different steps: none is delivered twice. */
  lemma DeliveredOnce(trace: seq<State>, events: seq<Event>, i: nat, i': nat)
    requires Run(trace, events) && Initial(trace[0]) && i < i' < |events|
    requires Unlinks(trace[i], events[i]) && Unlinks(trace[i'], events[i'])
    ensures Queued(trace, events, i) != [] && Queued(trace, events, i') != []
    ensures Queued(trace, events, i)[0] != Queued(trace, events, i')[0]
  {
    hide Enabled, Next, Initial, Inv;
    QueuedMessages(trace, events, i);
    QueuedMessages(trace, events, i');
    hide Run, Links;
    var g, q := Gone(trace, events, i'), Queued(trace, events, i');
    GoneStays(trace, events, i + 1, i');
    LeavesOnce(trace, events, i');
    DistinctSplit(g, q);
    var l := Queued(trace, events, i)[0];
    hide Distinct, AfterStep, Unlinks;
    assert Gone(trace, events, i + 1)[|Gone(trace, events, i)|] == l;
    assert g[|Gone(trace, events, i)|] == l;
  }

  lemma {:induction false} GoneStays(trace: seq<State>, events: seq<Event>, m: nat, n: nat)
    requires m <= n <= |events| <= |trace|
    ensures Gone(trace, events, m) <= Gone(trace, events, n)
    decreases n
  {
    if m < n {
      GoneStays(trace, events, m, n - 1);
    }
  }

  /** Different calls of rt_mq_recv unlink at different steps. */
  lemma UnlinkedOnce(trace: seq<State>, events: seq<Event>, i: nat, n: nat, n': nat)
    requires Run(trace, events) && n < n' < |events| && events[n].Returned? && events[n'].Returned?
    requires i < n && HoldsOn(trace, events[n].t, i, n) && events[n].t == events[n'].t
    ensures !HoldsOn(trace, events[n'].t, i, n')
  {
    assert events[n].t !in trace[n + 1].calls;
  }

  // Step i is the one at which the message returned at step n was unlinked.
  ghost predicate UnlinkedAt(trace: seq<State>, events: seq<Event>, i: nat, n: nat) {
    && i < n < |events| && n < |trace| && events[n].Returned?
    && Unlinks(trace[i], events[i]) && events[i].t == events[n].t && HoldsOn(trace, events[n].t, i, n)
  }

  /** No two calls of rt_mq_recv return the message of one linking step. */
  lemma NoneTwice(trace: seq<State>, events: seq<Event>, i: nat, n: nat, i': nat, n': nat)
    requires Run(trace, events) && Initial(trace[0]) && n < n'
    requires UnlinkedAt(trace, events, i, n) && UnlinkedAt(trace, events, i', n')
    ensures Queued(trace, events, i) != [] && Queued(trace, events, i') != []
    ensures Queued(trace, events, i)[0] != Queued(trace, events, i')[0]
  {
    if i == i' {
      UnlinkedOnce(trace, events, i, n, n');
    } else if i < i' {
      DeliveredOnce(trace, events, i, i');
    } else {
      DeliveredOnce(trace, events, i', i);
    }
  }

  // --- what the callers are told ---

  /** rt_mq_send and rt_mq_urgent refuse a message that is too long, and one for which there is no slot, and then nothing
      happens; otherwise the call goes on to copy the message. */
  lemma SendAnswers(s: State, e: Event)
    requires Inv(s) && Enabled(s, e) && e.Send?
    ensures var r := Next(s, e);
      && (r.result == Some(EError) <==> |e.buffer| > s.msgSize)
      && (r.result == Some(EFull) <==> |e.buffer| <= s.msgSize && s.free == [])
      && (r.result != None ==> r.result in {Some(EError), Some(EFull)} && r.s == s)
      && (r.result == None <==> e.t in r.s.calls)
      && (r.result == None ==> r.s == s.(free := r.s.free, calls := r.s.calls) && Enabled(r.s, Copy(e.t))
                               && r.s.calls[e.t].buffer == e.buffer && r.s.calls[e.t].urgent == e.urgent)
  {
  }

  // The steps of a thread inside rt_mq_send or rt_mq_urgent.
  predicate OfSend(e: Event) {
    e.Send? || e.Copy? || e.Linked?
  }

  /** Such a call is told RT_EOK exactly when its message is linked, at the end of the queue or, an urgent one, at its front. */
  lemma SendReturns(s: State, e: Event)
    requires Inv(s) && Enabled(s, e) && OfSend(e)
    ensures var r := Next(s, e);
      && (r.result == Some(EOk) <==> e.Linked?)
      && (e.Linked? ==> e.t in s.calls && e.t !in r.s.calls)
      && (e.Linked? ==> var c := s.calls[e.t];
            r.s.messages == if c.urgent then [c.buffer] + s.messages else s.messages + [c.buffer])
      && (!e.Linked? ==> r.s.messages == s.messages)
  {
    hide SlotsOk, ReceiversOk, NoLostWakeup;
  }

  /** Over every run: the message of a send that has been told RT_EOK is in the queue, or a receiver has unlinked it, as long as
      there is no reset; and it is the one that was handed over. */
  lemma SentIsKept(trace: seq<State>, events: seq<Event>, i: nat, n: nat) returns (j: nat)
    requires Run(trace, events) && Initial(trace[0]) && i < n < |trace|
    requires OfSend(events[i]) && Next(trace[i], events[i]).result == Some(EOk)
    requires forall k | i <= k < n :: !events[k].Reset?
    ensures i in Gone(trace, events, n) + Queued(trace, events, n)
    ensures j < i && events[j] == Send(events[i].t, Text(trace[i], events[i]), IsUrgent(trace[i], events[i]))
    ensures Next(trace[j], events[j]).result == None
  {
    RunsKeepInv(trace, events, i);
    SendReturns(trace[i], events[i]);
    NoneLost(trace, events, n, i);
    j := SentBefore(trace, events, i, events[i].t);
    RunsKeepInv(trace, events, j);
    SendAnswers(trace[j], events[j]);
    assert events[j].t in trace[j + 1].calls;
  }

  /** Every thread inside a call can go on, unless it is asleep: a sender copies and then links, a receiver with a message copies
      it out and then returns it, and one that has been woken tests again or gives up. */
  lemma CallGoesOn(s: State, t: Tid)
    requires Inv(s) && t in s.calls
    ensures var c := s.calls[t];
      && (c.SendCopy? && !c.copied ==> Enabled(s, Copy(t)) && Enabled(Next(s, Copy(t)).s, Linked(t)))
      && (c.SendCopy? && c.copied ==> Enabled(s, Linked(t)))
      && (c.RecvCopy? && c.got == None ==> Enabled(s, Unload(t)) && Enabled(Next(s, Unload(t)).s, Returned(t)))
      && (c.RecvCopy? && c.got != None ==> Enabled(s, Returned(t)))
      && (c.RecvWait? && t !in s.receivers ==> Enabled(s, Retry(t, 0)) || Enabled(s, GiveUp(t)))
  {
    hide SlotsOk, NoLostWakeup;
  }

  // How many ticks a receiver may still wait.
  function TimeLeft(s: State, e: Event): int
    requires e.Receive? || (e.Retry? && e.t in s.calls && s.calls[e.t].RecvWait?)
  {
    if e.Receive? then e.timeout else LeftOver(s.calls[e.t].timeout, s.calls[e.t].start, s.tick)
  }

  /** A receiver that finds a message goes on to copy it; with no time left it is told RT_ETIMEOUT, and nothing else
      happens; otherwise it is told nothing and waits, with a timer if its time is limited. */
  lemma ReceiveAnswers(s: State, e: Event)
    requires Inv(s) && Enabled(s, e) && (e.Receive? || e.Retry?)
    ensures var r := Next(s, e);
      && r.message == None && r.result in {None, Some(ETimeout)}
      && (r.result == Some(ETimeout) <==> s.messages == [] && TimeLeft(s, e) == 0)
      && (r.result == Some(ETimeout) ==> r.s == s.(calls := Without(s.calls, e.t)))
      && (e.t in r.s.receivers <==> s.messages == [] && TimeLeft(s, e) != 0)
      && (s.messages != [] ==> s.messages == [r.s.calls[e.t].message] + r.s.messages && r.s.calls[e.t].RecvCopy?)
      && (r.result == None ==> r.s.calls[e.t].size == if e.Receive? then e.size else s.calls[e.t].size)
      && (e.t in r.s.receivers ==> IsWaiting(r.s, e.t) && r.s.calls[e.t].armed == (TimeLeft(s, e) > 0))
  {
    hide SlotsOk, NoLostWakeup;
  }

  // The steps of a thread inside rt_mq_recv.
  predicate OfReceive(e: Event) {
    e.Receive? || e.Retry? || e.GiveUp? || e.Unload? || e.Returned?
  }

  // What wakes a waiting receiver with an error.
  ghost predicate Fails(e: Event, t: Tid, err: Err) {
    (e == Timeout(t) && err == ETimeout) || (e == Reset && err == EError)
  }

  ghost predicate HasFailed(s: State, t: Tid) {
    t in s.calls && s.calls[t].RecvWait? && s.calls[t].status.Failed?
  }

  ghost predicate IsWaiting(s: State, t: Tid) {
    t in s.calls && s.calls[t].RecvWait? && s.calls[t].status == Waiting
  }

  lemma FailStep(s: State, e: Event, t: Tid)
    requires Inv(s) && Enabled(s, e) && HasFailed(Next(s, e).s, t)
    ensures if IsWaiting(s, t) then Fails(e, t, Next(s, e).s.calls[t].status.err)
            else HasFailed(s, t) && s.calls[t].status == Next(s, e).s.calls[t].status
  {
    hide SlotsOk, NoLostWakeup, ContentOk, LeftOver;
  }

  /** A receiver that is woken with an error was waiting when its timer fired, and then it is RT_ETIMEOUT, or when the queue was
      reset, and then it is RT_ERROR. */
  lemma {:induction false} FailedFor(trace: seq<State>, events: seq<Event>, n: nat, t: Tid) returns (i: nat)
    requires Run(trace, events) && Initial(trace[0]) && n < |trace| && HasFailed(trace[n], t)
    ensures i < n && IsWaiting(trace[i], t) && Fails(events[i], t, trace[n].calls[t].status.err)
    ensures forall k | i < k <= n :: HasFailed(trace[k], t) && trace[k].calls[t].status == trace[n].calls[t].status
  {
    hide Inv, Next, Enabled, Fails, IsWaiting;
    RunsKeepInv(trace, events, n - 1);
    FailStep(trace[n - 1], events[n - 1], t);
    if IsWaiting(trace[n - 1], t) {
      i := n - 1;
    } else {
      i := FailedFor(trace, events, n - 1, t);
    }
  }

  /** And that error is what it returns. */
  lemma GiveUpAnswers(trace: seq<State>, events: seq<Event>, n: nat, t: Tid) returns (i: nat)
    requires Run(trace, events) && Initial(trace[0]) && n < |events| && events[n] == GiveUp(t)
    ensures i < n && IsWaiting(trace[i], t) && t !in trace[n + 1].calls
    ensures var r := Next(trace[n], events[n]); r.message == None && r.result.Some? && Fails(events[i], t, r.result.value)
  {
    i := FailedFor(trace, events, n, t);
  }

  /** Over every run: rt_mq_recv returns RT_EOK exactly with a message, which Delivered traces back to its sender. */
  lemma ReceiveReturns(trace: seq<State>, events: seq<Event>, n: nat)
    requires Run(trace, events) && Initial(trace[0]) && n < |events| && OfReceive(events[n])
    ensures var r := Next(trace[n], events[n]);
      && (r.result == Some(EOk) <==> events[n].Returned?) && (r.message.Some? <==> events[n].Returned?)
      && (events[n].Returned? ==> events[n].t !in r.s.calls)
  {
    RunsKeepInv(trace, events, n);
    if events[n].Receive? || events[n].Retry? {
      ReceiveAnswers(trace[n], events[n]);
    } else if events[n].GiveUp? {
      var i := GiveUpAnswers(trace, events, n, events[n].t);
    }
  }

  /** The clock advances by one tick of 32 bits, and nothing else changes; a timer that fires takes its thread off the list, and
      changes no other call and no message. */
  lemma ClockAnswers(s: State, t: Tid)
    requires Inv(s)
    ensures var r := Next(s, Tick); r.result == None && r.s == s.(tick := r.s.tick) && r.s.tick == (s.tick + 1) % 0x1_0000_0000
    ensures Enabled(s, Timeout(t)) ==>
      var r := Next(s, Timeout(t));
      && r.result == None && r.s == s.(receivers := r.s.receivers, calls := r.s.calls) && r.s.calls.Keys == s.calls.Keys
      && t !in r.s.receivers && HasFailed(r.s, t)
      && forall u | u in s.calls && u != t :: r.s.calls[u] == s.calls[u] && (u in s.receivers <==> u in r.s.receivers)
  {
    hide SlotsOk, NoLostWakeup, ContentOk;
    RemoveDistinct(s.receivers, t);
  }

  /** A reset empties the queue, and nobody waits any more. */
  lemma ResetAnswers(s: State)
    requires Inv(s)
    ensures var r := Next(s, Reset); r.result == Some(EOk) && r.s.messages == [] && r.s.queue == [] && r.s.receivers == []
    ensures forall t | t in s.calls :: t in Next(s, Reset).s.calls && (IsWaiting(s, t) ==> HasFailed(Next(s, Reset).s, t))
                                       && (!IsWaiting(s, t) ==> Next(s, Reset).s.calls[t] == s.calls[t])
  {
    hide SlotsOk, NoLostWakeup, ContentOk;
  }
}
