/** Mailboxes as a step system: what sending, receiving, timeouts and reset do to a mailbox,
    for every interleaving of the threads that use it. */
module MailboxProtocol {
  import opened Kernels
  import opened Lists
  import opened Words

  type Mail = nat

  // Which of the two blocking calls a thread is inside, and how far it has got.
  datatype Op = Sending(mail: Mail) | Receiving
  datatype Status = Waiting | Woken | Failed(err: Err)

  /** A blocked call: its arguments, the local `timeout`, the tick at which it last went to sleep,
      the tick at which the original call was to give up, and whether the thread's timer is running. */
  datatype Call = Call(op: Op, timeout: int, start: nat, due: nat, armed: bool, status: Status)

  datatype State = State(
    size: nat,                      // mb->size
    box: seq<Mail>,                 // the mails in the ring buffer, oldest first
    senders: seq<Tid>,              // mb->suspend_sender_thread
    receivers: seq<Tid>,            // mb->parent.suspend_thread
    calls: map<Tid, Call>,          // the threads inside a blocked call
    tick: nat,                      // rt_tick
    sent: seq<Mail>,                // history: the mails put into the box
    left: seq<(Mail, bool)>)        // history: the mails gone from the box, and whether a receiver got them

  datatype Outcome = Outcome(s: State, result: Option<Err>, mail: Option<Mail>)

  function Initial(size: nat, tick: nat): State {
    State(size, [], [], [], map[], U32(tick), [], [])
  }

  function WakeSender(s: State): State {
    if s.senders == [] || s.senders[0] !in s.calls then s
    else s.(senders := s.senders[1..], calls := s.calls[s.senders[0] := s.calls[s.senders[0]].(armed := false, status := Woken)])
  }

  function WakeReceiver(s: State): State {
    if s.receivers == [] || s.receivers[0] !in s.calls then s
    else s.(receivers := s.receivers[1..], calls := s.calls[s.receivers[0] := s.calls[s.receivers[0]].(armed := false, status := Woken)])
  }

  /** One pass through the loop of rt_mb_send_wait or rt_mb_recv, from its test to the end of the critical section.
      A thread that must wait goes to place `pos` of the wait list. */
  function Attempt(s: State, t: Tid, op: Op, timeout: int, due: nat, pos: nat): Outcome {
    match op
    case Sending(mail) =>
      if |s.box| == s.size then
        if timeout == 0 then Outcome(s.(calls := Without(s.calls, t)), Some(EFull), None)
        else if pos > |s.senders| then Outcome(s, None, None)
        else Outcome(s.(senders := InsertAt(s.senders, pos, t),
                        calls := s.calls[t := Call(op, timeout, s.tick, due, timeout > 0, Waiting)]), None, None)
      else
        var s' := s.(box := s.box + [mail], sent := s.sent + [mail], calls := Without(s.calls, t));
        Outcome(WakeReceiver(s'), Some(EOk), None)
    case Receiving =>
      if |s.box| == 0 then
        if timeout == 0 then Outcome(s.(calls := Without(s.calls, t)), Some(ETimeout), None)
        else if pos > |s.receivers| then Outcome(s, None, None)
        else Outcome(s.(receivers := InsertAt(s.receivers, pos, t),
                        calls := s.calls[t := Call(op, timeout, s.tick, due, timeout > 0, Waiting)]), None, None)
      else
        var s' := s.(box := s.box[1..], left := s.left + [(s.box[0], true)], calls := Without(s.calls, t));
        Outcome(WakeSender(s'), Some(EOk), Some(s.box[0]))
  }

  /** What can happen. */
  datatype Event =
    | Enter(t: Tid, op: Op, timeout: int, pos: nat)   // a thread makes the call
    | Retry(t: Tid, pos: nat)                         // a woken thread runs again and retests
    | GiveUp(t: Tid)                                  // a thread woken with an error returns it
    | Timeout(t: Tid)                                 // the thread's timer fires
    | Reset                                           // rt_mb_control with RT_IPC_CMD_RESET
    | Tick                                            // the clock advances

  function WaitList(s: State, op: Op): seq<Tid> {
    if op.Sending? then s.senders else s.receivers
  }

  ghost predicate Enabled(s: State, e: Event) {
    match e
    case Enter(t, op, timeout, pos) => t !in s.calls && pos <= |WaitList(s, op)| && -W32 / 2 <= timeout < W32 / 2
    case Retry(t, pos) => t in s.calls && s.calls[t].status == Woken && pos <= |WaitList(s, s.calls[t].op)|
    case GiveUp(t) => t in s.calls && s.calls[t].status.Failed?
    case Timeout(t) => t in s.calls && s.calls[t].armed
    case Reset => true
    case Tick => true
  }

  // Every waiting thread woken with an error.
  function FailAll(calls: map<Tid, Call>, list: seq<Tid>): map<Tid, Call> {
    map t | t in calls :: if t in list then calls[t].(armed := false, status := Failed(EError)) else calls[t]
  }

  function Discarded(box: seq<Mail>): seq<(Mail, bool)> {
    seq(|box|, i requires 0 <= i < |box| => (box[i], false))
  }

  function Next(s: State, e: Event): Outcome {
    match e
    case Enter(t, op, timeout, pos) => Attempt(s, t, op, timeout, U32(s.tick + timeout), pos)
    case Retry(t, pos) =>
      if t !in s.calls then Outcome(s, None, None)
      else
        var c := s.calls[t];
        Attempt(s, t, c.op, LeftOver(c.timeout, c.start, s.tick), c.due, pos)
    case GiveUp(t) =>
      if t !in s.calls || !s.calls[t].status.Failed? then Outcome(s, None, None)
      else Outcome(s.(calls := Without(s.calls, t)), Some(s.calls[t].status.err), None)
    case Timeout(t) =>
      if t !in s.calls then Outcome(s, None, None)
      else Outcome(s.(senders := Remove(s.senders, t), receivers := Remove(s.receivers, t),
                      calls := s.calls[t := s.calls[t].(armed := false, status := Failed(ETimeout))]), None, None)
    case Reset =>
      Outcome(s.(box := [], senders := [], receivers := [], left := s.left + Discarded(s.box),
                 calls := FailAll(FailAll(s.calls, s.receivers), s.senders)), Some(EOk), None)
    case Tick => Outcome(s.(tick := U32(s.tick + 1)), None, None)
  }

  /** The threads woken on one side that have not retested yet. */
  ghost function WokenSenders(calls: map<Tid, Call>): set<Tid> {
    set t | t in calls && calls[t].op.Sending? && calls[t].status == Woken
  }

  ghost function WokenReceivers(calls: map<Tid, Call>): set<Tid> {
    set t | t in calls && calls[t].op.Receiving? && calls[t].status == Woken
  }

  function Mails(left: seq<(Mail, bool)>): seq<Mail> {
    seq(|left|, i requires 0 <= i < |left| => left[i].0)
  }

  // A thread waits on a list exactly while its call says so.
  ghost predicate QueuesOk(s: State) {
    && Distinct(s.senders) && Distinct(s.receivers)
    && (forall t | t in s.senders :: t in s.calls && s.calls[t].op.Sending? && s.calls[t].status == Waiting)
    && (forall t | t in s.receivers :: t in s.calls && s.calls[t].op.Receiving? && s.calls[t].status == Waiting)
    && (forall t | t in s.calls && s.calls[t].status == Waiting ::
          if s.calls[t].op.Sending? then t in s.senders else t in s.receivers)
    // a thread's timer runs only while it waits
    && (forall t | t in s.calls && s.calls[t].armed :: s.calls[t].status == Waiting)
  }

  // No wake-up is lost: whatever could serve a waiting thread has already been promised to a woken one.
  ghost predicate NoLostWakeup(s: State) {
    && (s.receivers != [] ==> |s.box| <= |WokenReceivers(s.calls)|)
    && (s.senders != [] ==> s.size - |s.box| <= |WokenSenders(s.calls)|)
  }

  // A timed call keeps the deadline of the original call however often it is woken and goes back to sleep.
  ghost predicate DeadlinesKept(s: State) {
    forall t | t in s.calls :: var c := s.calls[t];
      c.timeout != 0 && -W32 / 2 <= c.timeout < W32 / 2 && (c.timeout > 0 ==> U32(c.start + c.timeout) == c.due)
  }

  ghost predicate Inv(s: State) {
    && |s.box| <= s.size
    && QueuesOk(s) && NoLostWakeup(s) && DeadlinesKept(s)
    // every mail accepted is still in the box or left it once, in the order of acceptance
    && s.sent == Mails(s.left) + s.box
  }

  ghost predicate Run(trace: seq<State>, events: seq<Event>) {
    && |trace| == |events| + 1
    && forall i | 0 <= i < |events| :: Enabled(trace[i], events[i]) && trace[i + 1] == Next(trace[i], events[i]).s
  }

  lemma WokenReceiverCounts(calls: map<Tid, Call>, t: Tid)
    requires t in calls && calls[t].status == Waiting && calls[t].op.Receiving?
    ensures var calls' := calls[t := calls[t].(armed := false, status := Woken)];
            |WokenReceivers(calls')| == |WokenReceivers(calls)| + 1 && WokenSenders(calls') == WokenSenders(calls)
  {
    assert WokenReceivers(calls[t := calls[t].(armed := false, status := Woken)]) == WokenReceivers(calls) + {t};
  }

  lemma WokenSenderCounts(calls: map<Tid, Call>, t: Tid)
    requires t in calls && calls[t].status == Waiting && calls[t].op.Sending?
    ensures var calls' := calls[t := calls[t].(armed := false, status := Woken)];
            |WokenSenders(calls')| == |WokenSenders(calls)| + 1 && WokenReceivers(calls') == WokenReceivers(calls)
  {
    assert WokenSenders(calls[t := calls[t].(armed := false, status := Woken)]) == WokenSenders(calls) + {t};
  }

  // A thread that leaves its call, or goes (back) to sleep, is no longer woken.
  lemma LeavingCounts(calls: map<Tid, Call>, t: Tid, calls': map<Tid, Call>)
    requires forall u | u != t :: (u in calls <==> u in calls') && (u in calls ==> calls[u] == calls'[u])
    requires t in calls' ==> calls'[t].status != Woken
    ensures WokenSenders(calls') == WokenSenders(calls) - {t}
    ensures WokenReceivers(calls') == WokenReceivers(calls) - {t}
  {
  }

  lemma LeavingKeepsQueues(s: State, t: Tid)
    requires QueuesOk(s) && (t in s.calls ==> s.calls[t].status != Waiting)
    ensures t !in s.senders && t !in s.receivers
    ensures QueuesOk(s.(calls := Without(s.calls, t)))
  {
  }

  lemma SleepingSenderKeepsQueues(s: State, t: Tid, c: Call, pos: nat)
    requires QueuesOk(s) && (t in s.calls ==> s.calls[t].status != Waiting) && c.status == Waiting
    requires c.op.Sending? && pos <= |s.senders|
    ensures QueuesOk(s.(senders := InsertAt(s.senders, pos, t), calls := s.calls[t := c]))
  {
    LeavingKeepsQueues(s, t);
    InsertDistinct(s.senders, pos, t);
    hide InsertAt, Distinct;
  }

  lemma SleepingReceiverKeepsQueues(s: State, t: Tid, c: Call, pos: nat)
    requires QueuesOk(s) && (t in s.calls ==> s.calls[t].status != Waiting) && c.status == Waiting
    requires c.op.Receiving? && pos <= |s.receivers|
    ensures QueuesOk(s.(receivers := InsertAt(s.receivers, pos, t), calls := s.calls[t := c]))
  {
    LeavingKeepsQueues(s, t);
    InsertDistinct(s.receivers, pos, t);
    hide InsertAt, Distinct;
  }

  lemma WakingKeepsQueues(s: State)
    requires QueuesOk(s)
    ensures QueuesOk(WakeReceiver(s)) && QueuesOk(WakeSender(s))
  {
    if s.receivers != [] {
      WakingReceiverKeepsQueues(s);
    }
    if s.senders != [] {
      WakingSenderKeepsQueues(s);
    }
  }

  lemma WakingReceiverKeepsQueues(s: State)
    requires QueuesOk(s) && s.receivers != []
    ensures QueuesOk(WakeReceiver(s))
  {
    assert s.receivers == [s.receivers[0]] + s.receivers[1..];
  }

  lemma WakingSenderKeepsQueues(s: State)
    requires QueuesOk(s) && s.senders != []
    ensures QueuesOk(WakeSender(s))
  {
    assert s.senders == [s.senders[0]] + s.senders[1..];
  }

  lemma HeadWaits(s: State)
    requires QueuesOk(s)
    ensures s.receivers != [] ==> var t := s.receivers[0];
              t in s.calls && s.calls[t].status == Waiting && s.calls[t].op.Receiving?
    ensures s.senders != [] ==> var t := s.senders[0];
              t in s.calls && s.calls[t].status == Waiting && s.calls[t].op.Sending?
  {
  }

  // One more mail, one more woken receiver; one more free place, one more woken sender.
  lemma WakeReceiverOk(s: State)
    requires QueuesOk(s) && DeadlinesKept(s)
    requires s.receivers != [] ==> |s.box| <= |WokenReceivers(s.calls)| + 1
    requires s.senders != [] ==> s.size - |s.box| <= |WokenSenders(s.calls)|
    ensures QueuesOk(WakeReceiver(s)) && DeadlinesKept(WakeReceiver(s)) && NoLostWakeup(WakeReceiver(s))
  {
    hide QueuesOk, WokenSenders, WokenReceivers;
    WakingKeepsQueues(s);
    if s.receivers != [] {
      HeadWaits(s);
      WokenReceiverCounts(s.calls, s.receivers[0]);
    }
  }

  lemma WakeSenderOk(s: State)
    requires QueuesOk(s) && DeadlinesKept(s)
    requires s.receivers != [] ==> |s.box| <= |WokenReceivers(s.calls)|
    requires s.senders != [] ==> s.size - |s.box| <= |WokenSenders(s.calls)| + 1
    ensures QueuesOk(WakeSender(s)) && DeadlinesKept(WakeSender(s)) && NoLostWakeup(WakeSender(s))
  {
    hide QueuesOk, WokenSenders, WokenReceivers;
    WakingKeepsQueues(s);
    if s.senders != [] {
      HeadWaits(s);
      WokenSenderCounts(s.calls, s.senders[0]);
    }
  }

  lemma LeavingWoken(calls: map<Tid, Call>, t: Tid, calls': map<Tid, Call>, op: Op)
    requires forall u | u != t :: (u in calls <==> u in calls') && (u in calls ==> calls[u] == calls'[u])
    requires t in calls' ==> calls'[t].status != Woken
    requires t in calls ==> calls[t].op == op
    ensures |WokenSenders(calls')| >= |WokenSenders(calls)| - (if op.Sending? then 1 else 0)
    ensures |WokenReceivers(calls')| >= |WokenReceivers(calls)| - (if op.Receiving? then 1 else 0)
  {
    LeavingCounts(calls, t, calls');
    CardinalityWithout(WokenSenders(calls), t);
    CardinalityWithout(WokenReceivers(calls), t);
  }

  lemma LeavingKeepsDeadlines(s: State, t: Tid, c: Call)
    requires DeadlinesKept(s)
    ensures DeadlinesKept(s.(calls := Without(s.calls, t)))
    ensures c.timeout != 0 && -W32 / 2 <= c.timeout < W32 / 2 && (c.timeout > 0 ==> U32(c.start + c.timeout) == c.due) ==>
              DeadlinesKept(s.(calls := s.calls[t := c]))
  {
  }

  // The mailbox cannot serve the call.
  lemma BlockedAttempt(s: State, t: Tid, op: Op, timeout: int, due: nat, pos: nat)
    requires Inv(s) && pos <= |WaitList(s, op)|
    requires t in s.calls ==> s.calls[t].status == Status.Woken && s.calls[t].op == op
    requires -W32 / 2 <= timeout < W32 / 2 && (timeout > 0 ==> U32(s.tick + timeout) == due)
    requires if op.Sending? then |s.box| == s.size else |s.box| == 0
    ensures Inv(Attempt(s, t, op, timeout, due, pos).s)
  {
    hide QueuesOk, WokenSenders, WokenReceivers, InsertAt, Mails, DeadlinesKept;
    var c := Call(op, timeout, s.tick, due, timeout > 0, Waiting);
    LeavingKeepsQueues(s, t);
    LeavingKeepsDeadlines(s, t, c);
    if op.Sending? {
      SleepingSenderKeepsQueues(s, t, c, pos);
    } else {
      SleepingReceiverKeepsQueues(s, t, c, pos);
    }
    LeavingWoken(s.calls, t, Without(s.calls, t), op);
    LeavingWoken(s.calls, t, s.calls[t := c], op);
    var calls' := if timeout == 0 then Without(s.calls, t) else s.calls[t := c];
    KeepsDeadlines(s.(calls := calls'), Attempt(s, t, op, timeout, due, pos).s);
  }

  lemma KeepsDeadlines(s: State, s': State)
    requires s'.calls == s.calls && DeadlinesKept(s)
    ensures DeadlinesKept(s')
  {
  }

  lemma SendAttempt(s: State, t: Tid, mail: Mail, timeout: int, due: nat, pos: nat)
    requires Inv(s) && |s.box| < s.size
    requires t in s.calls ==> s.calls[t].status == Woken && s.calls[t].op == Sending(mail)
    ensures Inv(Attempt(s, t, Sending(mail), timeout, due, pos).s)
  {
    hide QueuesOk, WokenSenders, WokenReceivers, WakeReceiver, Mails;
    LeavingKeepsQueues(s, t);
    LeavingWoken(s.calls, t, Without(s.calls, t), Sending(mail));
    var m := s.(box := s.box + [mail], sent := s.sent + [mail], calls := Without(s.calls, t));
    BoxIrrelevant(s.(calls := Without(s.calls, t)), m);
    WakeReceiverOk(m);
    WakeKeepsBox(m);
  }

  lemma RecvAttempt(s: State, t: Tid, timeout: int, due: nat, pos: nat)
    requires Inv(s) && s.box != []
    requires t in s.calls ==> s.calls[t].status == Woken && s.calls[t].op == Receiving
    ensures Inv(Attempt(s, t, Receiving, timeout, due, pos).s)
  {
    hide QueuesOk, WokenSenders, WokenReceivers, WakeSender, Mails;
    LeavingKeepsQueues(s, t);
    LeavingWoken(s.calls, t, Without(s.calls, t), Receiving);
    var m := s.(box := s.box[1..], left := s.left + [(s.box[0], true)], calls := Without(s.calls, t));
    BoxIrrelevant(s.(calls := Without(s.calls, t)), m);
    WakeSenderOk(m);
    WakeKeepsBox(m);
    MailsAppend(s.left, [(s.box[0], true)], s.box[..1]);
    assert s.box == s.box[..1] + s.box[1..];
  }

  /** One pass through the loop keeps the invariant, for a thread that is new to the call or was woken in it. */
  lemma AttemptKeepsInv(s: State, t: Tid, op: Op, timeout: int, due: nat, pos: nat)
    requires Inv(s) && pos <= |WaitList(s, op)|
    requires t in s.calls ==> s.calls[t].status == Status.Woken && s.calls[t].op == op
    requires -W32 / 2 <= timeout < W32 / 2 && (timeout > 0 ==> U32(s.tick + timeout) == due)
    ensures Inv(Attempt(s, t, op, timeout, due, pos).s)
  {
    hide Attempt, QueuesOk, NoLostWakeup, DeadlinesKept, Mails;
    if if op.Sending? then |s.box| == s.size else |s.box| == 0 {
      BlockedAttempt(s, t, op, timeout, due, pos);
    } else if op.Sending? {
      SendAttempt(s, t, op.mail, timeout, due, pos);
    } else {
      RecvAttempt(s, t, timeout, due, pos);
    }
  }

  lemma MailsAppend(left: seq<(Mail, bool)>, more: seq<(Mail, bool)>, box: seq<Mail>)
    requires |more| == |box| && forall i | 0 <= i < |box| :: more[i].0 == box[i]
    ensures Mails(left + more) == Mails(left) + box
  {
  }

  lemma BoxIrrelevant(s: State, s': State)
    requires QueuesOk(s) && s'.senders == s.senders && s'.receivers == s.receivers && s'.calls == s.calls
    ensures QueuesOk(s')
  {
  }

  lemma WakeKeepsBox(s: State)
    ensures WakeReceiver(s).(receivers := s.receivers, calls := s.calls) == s
    ensures WakeSender(s).(senders := s.senders, calls := s.calls) == s
  {
  }

  lemma ResetKeepsInv(s: State)
    requires Inv(s)
    ensures Inv(Next(s, Reset).s)
  {
    hide Mails;
    MailsAppend(s.left, Discarded(s.box), s.box);
  }

  lemma TimeoutKeepsQueues(s: State, t: Tid)
    requires QueuesOk(s) && t in s.calls && s.calls[t].armed
    ensures s.calls[t].status == Waiting && QueuesOk(Next(s, Timeout(t)).s)
  {
    RemoveDistinct(s.senders, t);
    RemoveDistinct(s.receivers, t);
  }

  lemma NotWokenCounts(calls: map<Tid, Call>, t: Tid, calls': map<Tid, Call>)
    requires t in calls && calls[t].status != Woken && (t in calls' ==> calls'[t].status != Woken)
    requires forall u | u != t :: (u in calls <==> u in calls') && (u in calls ==> calls[u] == calls'[u])
    ensures WokenSenders(calls') == WokenSenders(calls) && WokenReceivers(calls') == WokenReceivers(calls)
  {
  }

  lemma TimeoutKeepsInv(s: State, t: Tid)
    requires Inv(s) && Enabled(s, Timeout(t))
    ensures Inv(Next(s, Timeout(t)).s)
  {
    hide QueuesOk, Mails, WokenSenders, WokenReceivers;
    TimeoutKeepsQueues(s, t);
    NotWokenCounts(s.calls, t, Next(s, Timeout(t)).s.calls);
  }

  lemma GiveUpKeepsInv(s: State, t: Tid)
    requires Inv(s) && Enabled(s, GiveUp(t))
    ensures Inv(Next(s, GiveUp(t)).s)
  {
    hide QueuesOk, Mails, WokenSenders, WokenReceivers;
    LeavingKeepsQueues(s, t);
    NotWokenCounts(s.calls, t, Without(s.calls, t));
  }

  /** Whatever happens next, the invariant holds afterwards. */
  lemma StepKeepsInv(s: State, e: Event)
    requires Inv(s) && Enabled(s, e)
    ensures Inv(Next(s, e).s)
  {
    hide QueuesOk, NoLostWakeup, Attempt;
    match e
    case Enter(t, op, timeout, pos) =>
      AttemptKeepsInv(s, t, op, timeout, U32(s.tick + timeout), pos);
    case Retry(t, pos) =>
      var c := s.calls[t];
      LeftOverKeepsDue(c.timeout, c.start, s.tick);
      AttemptKeepsInv(s, t, c.op, LeftOver(c.timeout, c.start, s.tick), c.due, pos);
    case GiveUp(t) => GiveUpKeepsInv(s, t);
    case Timeout(t) => TimeoutKeepsInv(s, t);
    case Reset => ResetKeepsInv(s);
    case Tick => TickKeepsInv(s);
  }

  lemma TickKeepsInv(s: State)
    requires Inv(s)
    ensures Inv(Next(s, Tick).s)
  {
  }

  /** Over every run of a mailbox, no matter how the threads interleave, the invariant holds in every state. */
  lemma {:induction false} RunsKeepInv(size: nat, tick: nat, trace: seq<State>, events: seq<Event>, n: nat)
    requires Run(trace, events) && trace[0] == Initial(size, tick) && n < |trace|
    ensures Inv(trace[n])
  {
    if n > 0 {
      RunsKeepInv(size, tick, trace, events, n - 1);
      StepKeepsInv(trace[n - 1], events[n - 1]);
    }
  }

  /** Whatever wakes a thread stops its timer: over every run a timer that fires finds its thread still waiting. */
  lemma TimersOnlyWhileWaiting(size: nat, tick: nat, trace: seq<State>, events: seq<Event>, n: nat, t: Tid)
    requires Run(trace, events) && trace[0] == Initial(size, tick) && n < |events| && events[n] == Timeout(t)
    ensures t in trace[n].calls && trace[n].calls[t].status == Waiting
    ensures t in WaitList(trace[n], trace[n].calls[t].op)
  {
    RunsKeepInv(size, tick, trace, events, n);
  }

  /** When every woken thread has had its turn, nobody waits for what is there:
      receivers wait only on an empty mailbox and senders only on a full one, so never both. */
  lemma QuietMailbox(size: nat, tick: nat, trace: seq<State>, events: seq<Event>, n: nat)
    requires Run(trace, events) && trace[0] == Initial(size, tick) && n < |trace|
    requires forall t | t in trace[n].calls :: trace[n].calls[t].status != Woken
    ensures var s := trace[n];
            && (s.receivers != [] ==> s.box == [])
            && (s.senders != [] ==> |s.box| == s.size)
            && (s.size > 0 ==> s.receivers == [] || s.senders == [])
  {
    RunsKeepInv(size, tick, trace, events, n);
    assert WokenReceivers(trace[n].calls) == {} && WokenSenders(trace[n].calls) == {};
    SizeIsConstant(size, tick, trace, events, n);
  }

  lemma {:induction false} SizeIsConstant(size: nat, tick: nat, trace: seq<State>, events: seq<Event>, n: nat)
    requires Run(trace, events) && trace[0] == Initial(size, tick) && n < |trace|
    ensures trace[n].size == size
  {
    if n > 0 {
      SizeIsConstant(size, tick, trace, events, n - 1);
    }
  }

  function Received(left: seq<(Mail, bool)>): seq<Mail> {
    if left == [] then []
    else Received(left[..|left| - 1]) + (if left[|left| - 1].1 then [left[|left| - 1].0] else [])
  }

  lemma {:induction false} ReceivedAll(left: seq<(Mail, bool)>)
    requires forall i | 0 <= i < |left| :: left[i].1
    ensures Received(left) == Mails(left)
  {
    if left != [] {
      ReceivedAll(left[..|left| - 1]);
    }
  }

  /** As long as nothing was discarded by a reset, the mails received are the mails sent, in the order sent,
      up to the at most `size` mails still in the box. */
  lemma FirstInFirstOut(size: nat, tick: nat, trace: seq<State>, events: seq<Event>, n: nat)
    requires Run(trace, events) && trace[0] == Initial(size, tick) && n < |trace|
    requires forall i | 0 <= i < |trace[n].left| :: trace[n].left[i].1
    ensures trace[n].sent == Received(trace[n].left) + trace[n].box && |trace[n].box| <= size
  {
    RunsKeepInv(size, tick, trace, events, n);
    SizeIsConstant(size, tick, trace, events, n);
    ReceivedAll(trace[n].left);
  }

  // --- what the callers are told ---

  /** The call that t is inside before step n, by its last Enter. */
  ghost function Called(events: seq<Event>, n: nat, t: Tid): Option<Op>
    requires n <= |events|
  {
    if n == 0 then None
    else if events[n - 1].Enter? && events[n - 1].t == t then Some(events[n - 1].op)
    else Called(events, n - 1, t)
  }

  // The call that step n may end.
  ghost function CallAt(events: seq<Event>, n: nat): Option<Op>
    requires n < |events|
  {
    match events[n]
    case Enter(t, op, timeout, pos) => Some(op)
    case Retry(t, pos) => Called(events, n, t)
    case GiveUp(t) => Called(events, n, t)
    case _ => None
  }

  /** The mails of the sending calls that have returned RT_EOK, in the order of their return. */
  ghost function Accepted(trace: seq<State>, events: seq<Event>, n: nat): seq<Mail>
    requires n <= |events| <= |trace|
  {
    if n == 0 then []
    else
      var op := CallAt(events, n - 1);
      Accepted(trace, events, n - 1)
      + if op.Some? && op.value.Sending? && Next(trace[n - 1], events[n - 1]).result == Some(EOk) then [op.value.mail] else []
  }

  /** The mails that receiving calls have returned with RT_EOK; without a mail they would count as 0. */
  ghost function Answered(trace: seq<State>, events: seq<Event>, n: nat): seq<Mail>
    requires n <= |events| <= |trace|
  {
    if n == 0 then []
    else
      var op, r := CallAt(events, n - 1), Next(trace[n - 1], events[n - 1]);
      Answered(trace, events, n - 1)
      + if op.Some? && op.value.Receiving? && r.result == Some(EOk) then [if r.mail.Some? then r.mail.value else 0] else []
  }

  // An attempt by t leaves the other calls as they are, but for one that it wakes.
  lemma AttemptCalls(s: State, t: Tid, op: Op, timeout: int, due: nat, pos: nat)
    requires QueuesOk(s) && pos <= |WaitList(s, op)| && (t in s.calls ==> s.calls[t].status == Woken)
    ensures var calls := Attempt(s, t, op, timeout, due, pos).s.calls;
      && (t in calls ==> calls[t].op == op && calls[t].status == Waiting)
      && forall u | u != t :: (u in calls <==> u in s.calls)
                              && (u in calls ==> calls[u].op == s.calls[u].op
                                                 && (calls[u].status == s.calls[u].status || calls[u].status == Woken))
  {
    HeadWaits(s);
    hide QueuesOk;
  }

  lemma CallStep(s: State, e: Event, t: Tid)
    requires Inv(s) && Enabled(s, e) && t in Next(s, e).s.calls
    ensures if e.Enter? && e.t == t then Next(s, e).s.calls[t].op == e.op
            else t in s.calls && Next(s, e).s.calls[t].op == s.calls[t].op
  {
    hide NoLostWakeup, DeadlinesKept, QueuesOk, Attempt;
    if e.Enter? || e.Retry? {
      CallsAttempted(s, e);
    }
  }

  lemma CallsAttempted(s: State, e: Event)
    requires Inv(s) && Enabled(s, e) && (e.Enter? || e.Retry?)
    ensures var calls, op := Next(s, e).s.calls, OpOf(s, e);
      && (e.t in calls ==> calls[e.t].op == op && calls[e.t].status == Waiting)
      && forall u | u != e.t :: (u in calls <==> u in s.calls)
                                && (u in calls ==> calls[u].op == s.calls[u].op
                                                   && (calls[u].status == s.calls[u].status || calls[u].status == Woken))
  {
    hide NoLostWakeup, DeadlinesKept, QueuesOk, Attempt;
    if e.Enter? {
      AttemptCalls(s, e.t, e.op, e.timeout, U32(s.tick + e.timeout), e.pos);
    } else {
      var c := s.calls[e.t];
      AttemptCalls(s, e.t, c.op, LeftOver(c.timeout, c.start, s.tick), c.due, e.pos);
    }
  }

  /** A thread is inside the call it made last. */
  lemma {:induction false} CallIsLast(size: nat, tick: nat, trace: seq<State>, events: seq<Event>, n: nat, t: Tid)
    requires Run(trace, events) && trace[0] == Initial(size, tick) && n < |trace| && t in trace[n].calls
    ensures Called(events, n, t) == Some(trace[n].calls[t].op)
  {
    hide Inv, Next, Enabled;
    if n > 0 {
      RunsKeepInv(size, tick, trace, events, n - 1);
      CallStep(trace[n - 1], events[n - 1], t);
      if !(events[n - 1].Enter? && events[n - 1].t == t) {
        CallIsLast(size, tick, trace, events, n - 1, t);
      }
    }
  }

  // How many ticks the call of a step may still wait.
  function TimeLeft(s: State, e: Event): int
    requires e.Enter? || (e.Retry? && e.t in s.calls)
  {
    if e.Enter? then e.timeout else LeftOver(s.calls[e.t].timeout, s.calls[e.t].start, s.tick)
  }

  function OpOf(s: State, e: Event): Op
    requires e.Enter? || (e.Retry? && e.t in s.calls)
  {
    if e.Enter? then e.op else s.calls[e.t].op
  }

  /** What an attempt by t, with `left` ticks to wait, tells its caller: a sender is told RT_EOK exactly if its mail is then the last
      in the box, a receiver is told RT_EOK and a mail exactly if that was the first; with no time left they are told RT_EFULL
      or RT_ETIMEOUT, and nothing else happens; and they are told nothing exactly if they go to sleep, with a timer if their time
      is limited. */
  ghost predicate Tells(s: State, t: Tid, op: Op, left: int, r: Outcome) {
    var s' := r.s;
    && (r.result == Some(EOk) <==> if op.Sending? then |s.box| < s.size else s.box != [])
    && (r.result == Some(EOk) ==> t !in s'.calls)
    && (r.result == Some(EOk) && op.Sending? ==> s'.box == s.box + [op.mail] && r.mail == None)
    && (r.result == Some(EOk) && op.Receiving? ==> r.mail.Some? && s.box == [r.mail.value] + s'.box)
    && (r.result != Some(EOk) ==> s'.box == s.box && r.mail == None)
    && (r.result == Some(EFull) <==> op.Sending? && |s.box| == s.size && left == 0)
    && (r.result == Some(ETimeout) <==> op.Receiving? && s.box == [] && left == 0)
    && (r.result == Some(EFull) || r.result == Some(ETimeout) ==>
          s'.calls == Without(s.calls, t) && s'.senders == s.senders && s'.receivers == s.receivers)
    && (r.result == None <==> t in WaitList(s', op))
    && (r.result == None ==> t in s'.calls && s'.calls[t].status == Waiting && s'.calls[t].armed == (left > 0))
    && r.result != Some(EError)
  }

  lemma BlockedTells(s: State, t: Tid, op: Op, timeout: int, due: nat, pos: nat)
    requires t !in s.senders && t !in s.receivers && pos <= |WaitList(s, op)|
    requires if op.Sending? then |s.box| == s.size else s.box == []
    ensures Tells(s, t, op, timeout, Attempt(s, t, op, timeout, due, pos))
  {
  }

  lemma AcceptedTells(s: State, t: Tid, op: Op, timeout: int, due: nat, pos: nat)
    requires t !in s.senders && t !in s.receivers && (s.receivers != [] ==> s.receivers[0] != t)
    requires op.Sending? && |s.box| < s.size
    ensures Tells(s, t, op, timeout, Attempt(s, t, op, timeout, due, pos))
  {
    hide WakeReceiver;
    WokenReceiver(s.(box := s.box + [op.mail], sent := s.sent + [op.mail], calls := Without(s.calls, t)));
  }

  lemma ServedTells(s: State, t: Tid, op: Op, timeout: int, due: nat, pos: nat)
    requires t !in s.senders && t !in s.receivers && (s.senders != [] ==> s.senders[0] != t)
    requires op.Receiving? && s.box != []
    ensures Tells(s, t, op, timeout, Attempt(s, t, op, timeout, due, pos))
  {
    hide WakeSender;
    WokenSender(s.(box := s.box[1..], left := s.left + [(s.box[0], true)], calls := Without(s.calls, t)));
  }

  lemma WokenReceiver(s: State)
    ensures var s' := WakeReceiver(s); s'.box == s.box && s'.calls.Keys == s.calls.Keys && s'.senders == s.senders
    ensures forall t | t in WakeReceiver(s).receivers :: t in s.receivers
  {
  }

  lemma WokenSender(s: State)
    ensures var s' := WakeSender(s); s'.box == s.box && s'.calls.Keys == s.calls.Keys && s'.receivers == s.receivers
    ensures forall t | t in WakeSender(s).senders :: t in s.senders
  {
  }

  lemma AttemptTells(s: State, t: Tid, op: Op, timeout: int, due: nat, pos: nat)
    requires QueuesOk(s) && |s.box| <= s.size && pos <= |WaitList(s, op)| && (t in s.calls ==> s.calls[t].status == Woken)
    ensures Tells(s, t, op, timeout, Attempt(s, t, op, timeout, due, pos))
  {
    LeavingKeepsQueues(s, t);
    hide QueuesOk, Attempt, Tells;
    if if op.Sending? then |s.box| == s.size else s.box == [] {
      BlockedTells(s, t, op, timeout, due, pos);
    } else if op.Sending? {
      AcceptedTells(s, t, op, timeout, due, pos);
    } else {
      ServedTells(s, t, op, timeout, due, pos);
    }
  }

  lemma AttemptAnswers(s: State, e: Event)
    requires Inv(s) && Enabled(s, e) && (e.Enter? || e.Retry?)
    ensures Tells(s, e.t, OpOf(s, e), TimeLeft(s, e), Next(s, e))
  {
    hide NoLostWakeup, DeadlinesKept, Attempt, Tells;
    if e.Enter? {
      AttemptTells(s, e.t, e.op, e.timeout, U32(s.tick + e.timeout), e.pos);
    } else {
      var c := s.calls[e.t];
      AttemptTells(s, e.t, c.op, LeftOver(c.timeout, c.start, s.tick), c.due, e.pos);
    }
  }

  /** A mail put in wakes the first of the waiting receivers, a mail taken out the first of the waiting senders. */
  lemma WakesFirst(s: State, e: Event)
    requires Inv(s) && Enabled(s, e) && (e.Enter? || e.Retry?) && Next(s, e).result == Some(EOk)
    ensures var s' := Next(s, e).s; var list := if OpOf(s, e).Sending? then s.receivers else s.senders;
      && s'.receivers == (if OpOf(s, e).Sending? && list != [] then list[1..] else s.receivers)
      && s'.senders == (if OpOf(s, e).Receiving? && list != [] then list[1..] else s.senders)
      && (list != [] ==> list[0] in s'.calls && s'.calls[list[0]].status == Woken)
      && forall t | t in s.calls && t != e.t && (list == [] || t != list[0]) :: t in s'.calls && s'.calls[t] == s.calls[t]
  {
    hide NoLostWakeup, DeadlinesKept;
  }

  // The steps other than an attempt or a reset leave the box alone.
  lemma BoxStep(s: State, e: Event)
    requires Enabled(s, e) && !e.Enter? && !e.Retry? && !e.Reset?
    ensures Next(s, e).s.box == s.box
  {
  }

  // What wakes a waiting call with an error.
  ghost predicate Fails(e: Event, t: Tid, err: Err) {
    (e == Timeout(t) && err == ETimeout) || (e == Reset && err == EError)
  }

  lemma FailStep(s: State, e: Event, t: Tid)
    requires Inv(s) && Enabled(s, e) && t in Next(s, e).s.calls && Next(s, e).s.calls[t].status.Failed?
    ensures t in s.calls
    ensures if s.calls[t].status == Waiting then Fails(e, t, Next(s, e).s.calls[t].status.err)
            else s.calls[t].status == Next(s, e).s.calls[t].status
  {
    hide NoLostWakeup, DeadlinesKept, Attempt;
    if e.Enter? || e.Retry? {
      CallsAttempted(s, e);
    }
    hide LeftOver;
  }

  /** A call that is woken with an error was waiting when its timer fired, and then it is RT_ETIMEOUT, or when the mailbox was
      reset, and then it is RT_ERROR. */
  lemma {:induction false} FailedFor(size: nat, tick: nat, trace: seq<State>, events: seq<Event>, n: nat, t: Tid) returns (i: nat)
    requires Run(trace, events) && trace[0] == Initial(size, tick) && n < |trace|
    requires t in trace[n].calls && trace[n].calls[t].status.Failed?
    ensures i < n && t in trace[i].calls && trace[i].calls[t].status == Waiting
    ensures Fails(events[i], t, trace[n].calls[t].status.err)
    ensures forall k | i < k <= n :: t in trace[k].calls && trace[k].calls[t].status == trace[n].calls[t].status
  {
    hide Inv, Next, Enabled, Fails;
    RunsKeepInv(size, tick, trace, events, n - 1);
    FailStep(trace[n - 1], events[n - 1], t);
    if trace[n - 1].calls[t].status == Waiting {
      i := n - 1;
    } else {
      i := FailedFor(size, tick, trace, events, n - 1, t);
    }
  }

  /** And that error is what it returns. */
  lemma GiveUpAnswers(size: nat, tick: nat, trace: seq<State>, events: seq<Event>, n: nat, t: Tid) returns (i: nat)
    requires Run(trace, events) && trace[0] == Initial(size, tick) && n < |events| && events[n] == GiveUp(t)
    ensures i < n && t in trace[i].calls && trace[i].calls[t].status == Waiting && t !in trace[n + 1].calls
    ensures var r := Next(trace[n], events[n]); r.mail == None && r.result.Some? && Fails(events[i], t, r.result.value)
  {
    i := FailedFor(size, tick, trace, events, n, t);
  }

  /** The clock advances by one tick of 32 bits, and nothing else changes; a timer that fires takes its thread off the list, and
      changes no other call and no mail. */
  lemma ClockAnswers(s: State, t: Tid)
    requires Inv(s)
    ensures var r := Next(s, Tick); r.result == None && r.s == s.(tick := r.s.tick) && r.s.tick == (s.tick + 1) % 0x1_0000_0000
    ensures Enabled(s, Timeout(t)) ==>
      var r := Next(s, Timeout(t));
      && r.result == None && r.s.box == s.box && r.s.calls.Keys == s.calls.Keys
      && t !in r.s.senders && t !in r.s.receivers && r.s.calls[t].status == Failed(ETimeout)
      && forall u | u in s.calls && u != t ::
           r.s.calls[u] == s.calls[u] && (u in s.senders <==> u in r.s.senders) && (u in s.receivers <==> u in r.s.receivers)
  {
    hide NoLostWakeup, DeadlinesKept;
    RemoveDistinct(s.senders, t);
    RemoveDistinct(s.receivers, t);
  }

  /** A reset empties the box, and nobody waits any more. */
  lemma ResetAnswers(s: State)
    requires Inv(s)
    ensures var r := Next(s, Reset); r.result == Some(EOk) && r.s.box == [] && r.s.senders == [] && r.s.receivers == []
    ensures var calls := Next(s, Reset).s.calls; calls.Keys == s.calls.Keys && forall t | t in calls ::
      calls[t].status == if s.calls[t].status == Waiting then Failed(EError) else s.calls[t].status
  {
    hide NoLostWakeup, DeadlinesKept;
  }

  // A call that gives up has been told that it failed.
  ghost predicate FailuresOk(s: State) {
    forall t | t in s.calls && s.calls[t].status.Failed? :: s.calls[t].status.err in {ETimeout, EError}
  }

  lemma {:induction false} FailuresKept(trace: seq<State>, events: seq<Event>, n: nat, size: nat, tick: nat)
    requires Run(trace, events) && trace[0] == Initial(size, tick) && n < |trace|
    ensures FailuresOk(trace[n])
  {
    if n > 0 {
      FailuresKept(trace, events, n - 1, size, tick);
      FailureStep(trace[n - 1], events[n - 1]);
    }
  }

  lemma FailureStep(s: State, e: Event)
    requires FailuresOk(s) && Enabled(s, e)
    ensures FailuresOk(Next(s, e).s)
  {
  }

  /** First in, first out, in the answers of the calls: as long as there is no reset, the mails of the sending calls that have
      returned RT_EOK are those that receiving calls have returned, in that order, and then those in the box. */
  lemma {:induction false} AnsweredInOrder(size: nat, tick: nat, trace: seq<State>, events: seq<Event>, n: nat)
    requires Run(trace, events) && trace[0] == Initial(size, tick) && n < |trace|
    requires forall i | 0 <= i < n :: !events[i].Reset?
    ensures Accepted(trace, events, n) == Answered(trace, events, n) + trace[n].box
  {
    hide Inv, Enabled, Next, FailuresOk;
    if n > 0 {
      AnsweredInOrder(size, tick, trace, events, n - 1);
      AnsweredStep(size, tick, trace, events, n - 1);
    }
  }

  lemma AnsweredStep(size: nat, tick: nat, trace: seq<State>, events: seq<Event>, n: nat)
    requires Run(trace, events) && trace[0] == Initial(size, tick) && n < |events| && !events[n].Reset?
    requires Accepted(trace, events, n) == Answered(trace, events, n) + trace[n].box
    ensures Accepted(trace, events, n + 1) == Answered(trace, events, n + 1) + trace[n + 1].box
  {
    hide Inv, Next;
    var s, e := trace[n], events[n];
    RunsKeepInv(size, tick, trace, events, n);
    if e.Enter? || e.Retry? {
      if e.Retry? {
        CallIsLast(size, tick, trace, events, n, e.t);
      }
      AttemptAnswers(s, e);
    } else {
      FailuresKept(trace, events, n, size, tick);
      BoxStep(s, e);
      NotAnswered(s, e);
    }
  }

  lemma NotAnswered(s: State, e: Event)
    requires FailuresOk(s) && Enabled(s, e) && !e.Enter? && !e.Retry? && !e.Reset?
    ensures Next(s, e).result != Some(EOk)
  {
  }
}

/** The mailbox object itself: a ring buffer and two wait lists, whose every critical section is a step of the protocol. */
module Mailboxes {
  import opened Kernels
  import opened Lists
  import opened Words
  import opened MailboxProtocol

  /** The locals of a thread asleep inside rt_mb_send_wait or rt_mb_recv. */
  datatype Frame = Frame(op: Op, timeout: int, tickDelta: nat)

  // The ring buffer index i places after `offset`.
  function Wrap(offset: nat, i: nat, size: nat): nat {
    if offset + i < size then offset + i else offset + i - size
  }

  ghost predicate Holds(pool: seq<Mail>, outOffset: nat, box: seq<Mail>) {
    && |box| <= |pool| && (if |pool| == 0 then outOffset == 0 else outOffset < |pool|)
    && forall i | 0 <= i < |box| :: pool[Wrap(outOffset, i, |pool|)] == box[i]
  }

  lemma HoldsPut(pool: seq<Mail>, outOffset: nat, box: seq<Mail>, mail: Mail)
    requires Holds(pool, outOffset, box) && |box| < |pool|
    ensures var p := Wrap(outOffset, |box|, |pool|);
            && p < |pool| && Holds(pool[p := mail], outOffset, box + [mail])
            && Wrap(outOffset, |box| + 1, |pool|) == if p + 1 >= |pool| then 0 else p + 1
  {
  }

  lemma HoldsTake(pool: seq<Mail>, outOffset: nat, box: seq<Mail>)
    requires Holds(pool, outOffset, box) && box != []
    ensures outOffset < |pool| && pool[outOffset] == box[0]
    ensures var o := if outOffset + 1 >= |pool| then 0 else outOffset + 1;
            Holds(pool, o, box[1..]) && Wrap(outOffset, |box|, |pool|) == Wrap(o, |box| - 1, |pool|)
  {
    var o := if outOffset + 1 >= |pool| then 0 else outOffset + 1;
    assert forall i | 0 <= i < |box| - 1 :: Wrap(o, i, |pool|) == Wrap(outOffset, i + 1, |pool|);
  }

  // What a thread's control block and stack say about where it is in its call.
  ghost predicate InCall(b: Tcb, f: Frame, c: Call) {
    && f.op == c.op && f.timeout == c.timeout && f.tickDelta == c.start
    && b.timerArmed == c.armed
    && match c.status
       case Waiting => b.stat == Suspend && b.error == EOk
       case Woken => b.stat == Ready && b.error == EOk
       case Failed(e) => b.stat == Ready && b.error == e && e != EOk
  }

  ghost predicate FramesOk(tcb: map<Tid, Tcb>, frames: map<Tid, Frame>, calls: map<Tid, Call>) {
    frames.Keys == calls.Keys && forall t | t in calls :: t in tcb && InCall(tcb[t], frames[t], calls[t])
  }

  lemma FramesOkStep(tcb: map<Tid, Tcb>, frames: map<Tid, Frame>, calls: map<Tid, Call>, t: Tid, b: Tcb, c: Call)
    requires FramesOk(tcb, frames, calls) && InCall(b, Frame(c.op, c.timeout, c.start), c)
    ensures FramesOk(tcb[t := b], frames[t := Frame(c.op, c.timeout, c.start)], calls[t := c])
  {
  }

  lemma FramesOkDone(tcb: map<Tid, Tcb>, frames: map<Tid, Frame>, calls: map<Tid, Call>, t: Tid)
    requires FramesOk(tcb, frames, calls)
    ensures FramesOk(tcb, map u | u in frames && u != t :: frames[u], Without(calls, t))
  {
  }

  // Of a thread's control block, the call concerns neither the time slice nor the place in the ready list.
  lemma FramesOkTick(tcb: map<Tid, Tcb>, frames: map<Tid, Frame>, calls: map<Tid, Call>, t: Tid, left: nat)
    requires FramesOk(tcb, frames, calls) && t in tcb
    ensures FramesOk(tcb[t := tcb[t].(remainingTick := left)], frames, calls)
  {
  }

  lemma FramesOkAllWoken(tcb: map<Tid, Tcb>, frames: map<Tid, Frame>, calls: map<Tid, Call>, list: seq<Tid>)
    requires FramesOk(tcb, frames, calls)
    ensures FramesOk(AllWoken(tcb, list), frames, FailAll(calls, list))
  {
  }

  lemma BoxFits(s: State)
    requires Inv(s)
    ensures |s.box| <= s.size
  {
  }

  lemma FramesOkLeave(tcb: map<Tid, Tcb>, frames: map<Tid, Frame>, calls: map<Tid, Call>, t: Tid, e: Err)
    requires FramesOk(tcb, frames, calls) && t in tcb
    ensures FramesOk(tcb[t := tcb[t].(error := e)], map u | u in frames && u != t :: frames[u], Without(calls, t))
  {
  }

  lemma FramesOkTimeout(tcb: map<Tid, Tcb>, frames: map<Tid, Frame>, calls: map<Tid, Call>, t: Tid)
    requires FramesOk(tcb, frames, calls) && t in calls
    ensures t in tcb
    ensures FramesOk(tcb[t := Kernels.Woken(tcb[t], ETimeout)], frames, calls[t := calls[t].(armed := false, status := Failed(ETimeout))])
  {
  }

  lemma RetryTiming(s: State, t: Tid)
    requires Inv(s) && t in s.calls
    ensures var c := s.calls[t]; var r := LeftOver(c.timeout, c.start, s.tick);
            -W32 / 2 <= r < W32 / 2 && (r > 0 ==> U32(s.tick + r) == c.due)
  {
    LeftOverKeepsDue(s.calls[t].timeout, s.calls[t].start, s.tick);
  }

  lemma FramesOkWake(tcb: map<Tid, Tcb>, frames: map<Tid, Frame>, calls: map<Tid, Call>, h: Tid)
    requires FramesOk(tcb, frames, calls) && h in calls && calls[h].status == Waiting
    ensures h in tcb && FramesOk(tcb[h := Kernels.Woken(tcb[h], tcb[h].error)], frames, calls[h := calls[h].(armed := false, status := Status.Woken)])
  {
  }

  lemma WakeSenderHead(s0: State, t: Tid, s: State)
    requires Inv(s0) && s0.senders != [] && (t in s0.calls ==> s0.calls[t].status != Waiting)
    requires s.senders == s0.senders && s.calls == Without(s0.calls, t)
    ensures var h := s.senders[0]; h in s.calls && s.calls[h].status == Waiting
  {
    HeadWaits(s0);
  }

  // The first waiter is inside its call, and stays so when another thread leaves.
  lemma WakeReceiverHead(s0: State, t: Tid, s: State)
    requires Inv(s0) && s0.receivers != [] && (t in s0.calls ==> s0.calls[t].status != Waiting)
    requires s.receivers == s0.receivers && s.calls == Without(s0.calls, t)
    ensures var h := s.receivers[0]; h in s.calls && s.calls[h].status == Waiting
  {
    HeadWaits(s0);
  }

  class Mailbox {
    const k: Kernel
    const flag: IpcFlag
    const size: nat                   // rt_uint16_t size
    const pool: array<Mail>           // msg_pool
    var entry: nat
    var inOffset: nat
    var outOffset: nat
    const recvQueue: QueueId          // parent.suspend_thread
    const sendQueue: QueueId          // suspend_sender_thread
    var frames: map<Tid, Frame>       // the stacks of the threads asleep in a call
    ghost var s: State                // the state of the protocol

    ghost predicate Valid()
      reads this, k, pool
    {
      && k.Valid() && recvQueue in k.wait && sendQueue in k.wait && recvQueue != sendQueue
      && pool.Length == size && s.size == size
      && entry == |s.box| && Holds(pool[..], outOffset, s.box)
      && inOffset == Wrap(outOffset, entry, size)
      && s.senders == k.wait[sendQueue] && s.receivers == k.wait[recvQueue]
      && s.tick == k.tick
      && FramesOk(k.tcb, frames, s.calls)
      && Inv(s)
    }

    // rt_mb_init
    constructor (kernel: Kernel, buffer: array<Mail>, flag: IpcFlag, r: QueueId, w: QueueId)
      requires kernel.Valid() && r !in kernel.wait && w !in kernel.wait && r != w && kernel.tick < W32
      modifies kernel`wait
      ensures Valid() && k == kernel && pool == buffer && s == Initial(buffer.Length, kernel.tick)
      ensures kernel.wait == old(kernel.wait)[r := []][w := []]
    {
      hide Consistent;
      k, this.flag, size, pool := kernel, flag, buffer.Length, buffer;
      entry, inOffset, outOffset := 0, 0, 0;
      recvQueue, sendQueue := r, w;
      frames := map[];
      s := Initial(buffer.Length, kernel.tick);
      new;
      kernel.QueueInit(r);
      kernel.QueueInit(w);
    }

    // The thread goes to sleep on one of the two lists.
    method Sleep(t: Tid, op: Op, timeout: int, ghost due: nat)
      requires Valid() && t in k.tcb && k.tcb[t].stat == Ready && timeout != 0
      requires if op.Sending? then |s.box| == s.size else |s.box| == 0
      requires -W32 / 2 <= timeout < W32 / 2 && (timeout > 0 ==> U32(s.tick + timeout) == due)
      requires t in s.calls ==> s.calls[t].status == Status.Woken && s.calls[t].op == op
      modifies this`frames, this`s, k
      ensures Valid()
      ensures (forall u | u in WaitList(old(s), op) :: u in old(k.tcb))
      ensures s == Attempt(old(s), t, op, timeout, due, Place(old(k.tcb), WaitList(old(s), op), t, flag)).s
    {
      hide Consistent, Inv, FramesOk, Holds, Place, InsertAt, Without;
      var q := if op.Sending? then sendQueue else recvQueue;
      ghost var tcb0 := k.tcb;
      WaitersOk(k.tcb, k.table, k.group, k.readyTable, k.wait, k.defunct, q);
      AttemptKeepsInv(s, t, op, timeout, due, Place(k.tcb, k.wait[q], t, flag));
      k.Block(q, t, flag, timeout > 0);
      FramesOkStep(tcb0, frames, s.calls, t, k.tcb[t], Call(op, timeout, s.tick, due, timeout > 0, Waiting));
      frames := frames[t := Frame(op, timeout, k.tick)];
      s := Attempt(s, t, op, timeout, due, Place(tcb0, WaitList(s, op), t, flag)).s;
    }

    // Store the mail in the ring buffer.
    method Store(mail: Mail, ghost box: seq<Mail>)
      requires pool.Length == size && entry == |box| < size && Holds(pool[..], outOffset, box)
      requires inOffset == Wrap(outOffset, entry, size)
      modifies this`entry, this`inOffset, pool
      ensures entry == |box| + 1 && Holds(pool[..], outOffset, box + [mail]) && inOffset == Wrap(outOffset, entry, size)
    {
      hide Holds;
      HoldsPut(pool[..], outOffset, box, mail);
      pool[inOffset] := mail;
      assert pool[..] == old(pool[..])[inOffset := mail];
      inOffset := inOffset + 1;
      if inOffset >= size {
        inOffset := 0;
      }
      entry := entry + 1;
    }

    // Take the oldest mail out of the ring buffer.
    method Load(ghost box: seq<Mail>) returns (mail: Mail)
      requires pool.Length == size && entry == |box| > 0 && Holds(pool[..], outOffset, box)
      requires inOffset == Wrap(outOffset, entry, size)
      modifies this`entry, this`outOffset
      ensures mail == box[0]
      ensures entry == |box| - 1 && Holds(pool[..], outOffset, box[1..]) && inOffset == Wrap(outOffset, entry, size)
    {
      hide Holds;
      HoldsTake(pool[..], outOffset, box);
      mail := pool[outOffset];
      outOffset := outOffset + 1;
      if outOffset >= size {
        outOffset := 0;
      }
      entry := entry - 1;
    }

    // The end of rt_mb_send_wait, once there is room: store the mail, wake a receiver.
    method Put(t: Tid, mail: Mail)
      requires Valid() && entry < size
      requires t in s.calls ==> s.calls[t].status == Status.Woken && s.calls[t].op == Sending(mail)
      modifies this`frames, this`s, this`entry, this`inOffset, k, pool
      ensures Valid() && s == Attempt(old(s), t, Sending(mail), 0, 0, 0).s
    {
      hide Consistent, Inv, FramesOk, Holds, Without, Appended, Wrap;
      ghost var s0 := s;
      AttemptKeepsInv(s0, t, Sending(mail), 0, 0, 0);
      Store(mail, s.box);
      FramesOkDone(k.tcb, frames, s.calls, t);
      frames := map u | u in frames && u != t :: frames[u];
      s := s.(box := s.box + [mail], sent := s.sent + [mail], calls := Without(s.calls, t));
      if k.wait[recvQueue] != [] {
        WakeReceiverHead(s0, t, s);
        FramesOkWake(k.tcb, frames, s.calls, s.receivers[0]);
        k.IpcResume(recvQueue);
      }
      s := WakeReceiver(s);
    }

    // The end of rt_mb_recv, once there is a mail: fetch it, wake a sender.
    method Fetch(t: Tid) returns (mail: Mail)
      requires Valid() && entry > 0
      requires t in s.calls ==> s.calls[t].status == Status.Woken && s.calls[t].op == Receiving
      modifies this`frames, this`s, this`entry, this`outOffset, k
      ensures Valid()
      ensures var o := Attempt(old(s), t, Receiving, 0, 0, 0); s == o.s && o.mail == Some(mail)
    {
      hide Consistent, Inv, FramesOk, Holds, Without, Appended, Wrap;
      ghost var s0 := s;
      AttemptKeepsInv(s0, t, Receiving, 0, 0, 0);
      mail := Load(s.box);
      FramesOkDone(k.tcb, frames, s.calls, t);
      frames := map u | u in frames && u != t :: frames[u];
      s := s.(box := s.box[1..], left := s.left + [(s.box[0], true)], calls := Without(s.calls, t));
      if k.wait[sendQueue] != [] {
        WakeSenderHead(s0, t, s);
        FramesOkWake(k.tcb, frames, s.calls, s.senders[0]);
        k.IpcResume(sendQueue);
      }
      s := WakeSender(s);
    }

    // The thread leaves its call unserved, with the given error code left behind.
    method Leave(t: Tid, e: Err)
      requires Valid() && t in k.tcb && Inv(s.(calls := Without(s.calls, t)))
      modifies this`frames, this`s, k
      ensures Valid() && s == old(s).(calls := Without(old(s).calls, t))
    {
      hide Consistent, Inv, FramesOk, Holds, Without;
      k.SetError(t, e);
      FramesOkLeave(old(k.tcb), frames, s.calls, t, e);
      frames := map u | u in frames && u != t :: frames[u];
      s := s.(calls := Without(s.calls, t));
    }

    // The loop of rt_mb_send_wait from its test on: None when the thread went to sleep in it.
    method SendLoop(t: Tid, mail: Mail, timeout: int, ghost due: nat) returns (r: Option<Err>)
      requires Valid() && t in k.tcb && k.tcb[t].stat == Ready
      requires -W32 / 2 <= timeout < W32 / 2 && (timeout > 0 ==> U32(s.tick + timeout) == due)
      requires t in s.calls ==> s.calls[t].status == Status.Woken && s.calls[t].op == Sending(mail)
      modifies this`frames, this`s, this`entry, this`inOffset, k, pool
      ensures Valid() && (forall u | u in old(s).senders :: u in old(k.tcb))
      ensures var o := Attempt(old(s), t, Sending(mail), timeout, due, Place(old(k.tcb), old(s).senders, t, flag));
              s == o.s && r == o.result && o.mail == None
    {
      hide Consistent, Inv, FramesOk, Holds, Place, InsertAt, Without, WakeReceiver;
      WaitersOk(k.tcb, k.table, k.group, k.readyTable, k.wait, k.defunct, sendQueue);
      AttemptKeepsInv(s, t, Sending(mail), timeout, due, Place(k.tcb, s.senders, t, flag));
      BoxFits(s);
      if entry == size {
        if timeout == 0 {
          Leave(t, EOk);
          return Some(EFull);
        }
        Sleep(t, Sending(mail), timeout, due);
        return None;
      }
      Put(t, mail);
      return Some(EOk);
    }

    // The loop of rt_mb_recv from its test on: None when the thread went to sleep in it.
    method RecvLoop(t: Tid, timeout: int, ghost due: nat) returns (r: Option<Err>, mail: Option<Mail>)
      requires Valid() && t in k.tcb && k.tcb[t].stat == Ready
      requires -W32 / 2 <= timeout < W32 / 2 && (timeout > 0 ==> U32(s.tick + timeout) == due)
      requires t in s.calls ==> s.calls[t].status == Status.Woken && s.calls[t].op == Receiving
      modifies this`frames, this`s, this`entry, this`outOffset, k
      ensures Valid() && (forall u | u in old(s).receivers :: u in old(k.tcb))
      ensures var o := Attempt(old(s), t, Receiving, timeout, due, Place(old(k.tcb), old(s).receivers, t, flag));
              s == o.s && r == o.result && mail == o.mail
    {
      hide Consistent, Inv, FramesOk, Holds, Place, InsertAt, Without, WakeSender;
      WaitersOk(k.tcb, k.table, k.group, k.readyTable, k.wait, k.defunct, recvQueue);
      AttemptKeepsInv(s, t, Receiving, timeout, due, Place(k.tcb, s.receivers, t, flag));
      BoxFits(s);
      if entry == 0 {
        if timeout == 0 {
          Leave(t, ETimeout);
          return Some(ETimeout), None;
        }
        Sleep(t, Receiving, timeout, due);
        return None, None;
      }
      var m := Fetch(t);
      return Some(EOk), Some(m);
    }

    // rt_mb_send_wait, up to its return or to its going to sleep
    method SendWait(t: Tid, mail: Mail, timeout: int) returns (r: Option<Err>)
      requires Valid() && t in k.tcb && k.tcb[t].stat == Ready && t !in s.calls && -W32 / 2 <= timeout < W32 / 2
      modifies this`frames, this`s, this`entry, this`inOffset, k, pool
      ensures Valid() && (forall u | u in old(s).senders :: u in old(k.tcb))
      ensures var e := Enter(t, Sending(mail), timeout, Place(old(k.tcb), old(s).senders, t, flag));
              Enabled(old(s), e) && s == Next(old(s), e).s && r == Next(old(s), e).result
    {
      hide Consistent, Inv, FramesOk, Holds, Place, Attempt;
      r := SendLoop(t, mail, timeout, U32(s.tick + timeout));
    }

    // rt_mb_recv, up to its return or to its going to sleep
    method Recv(t: Tid, timeout: int) returns (r: Option<Err>, mail: Option<Mail>)
      requires Valid() && t in k.tcb && k.tcb[t].stat == Ready && t !in s.calls && -W32 / 2 <= timeout < W32 / 2
      modifies this`frames, this`s, this`entry, this`outOffset, k
      ensures Valid() && (forall u | u in old(s).receivers :: u in old(k.tcb))
      ensures var e := Enter(t, Receiving, timeout, Place(old(k.tcb), old(s).receivers, t, flag));
              Enabled(old(s), e) && s == Next(old(s), e).s && r == Next(old(s), e).result && mail == Next(old(s), e).mail
    {
      hide Consistent, Inv, FramesOk, Holds, Place, Attempt;
      r, mail := RecvLoop(t, timeout, U32(s.tick + timeout));
    }

    // A thread asleep in rt_mb_send_wait or rt_mb_recv runs again, after rt_schedule returned to it.
    method Continue(t: Tid) returns (r: Option<Err>, mail: Option<Mail>)
      requires Valid() && t in s.calls && s.calls[t].status != Waiting
      modifies this`frames, this`s, this`entry, this`inOffset, this`outOffset, k, pool
      ensures Valid() && t in old(k.tcb) && (forall u | u in WaitList(old(s), old(s).calls[t].op) :: u in old(k.tcb))
      ensures var c := old(s).calls[t];
              var e := if c.status == Status.Woken then Retry(t, Place(old(k.tcb), WaitList(old(s), c.op), t, flag)) else GiveUp(t);
              Enabled(old(s), e) && s == Next(old(s), e).s && r == Next(old(s), e).result && mail == Next(old(s), e).mail
    {
      hide Consistent, Inv, Holds, Place, Attempt;
      var f := frames[t];
      ghost var c := s.calls[t];
      WaitersOk(k.tcb, k.table, k.group, k.readyTable, k.wait, k.defunct, if f.op.Sending? then sendQueue else recvQueue);
      if k.tcb[t].error != EOk {
        StepKeepsInv(s, GiveUp(t));
        r := Some(k.tcb[t].error);
        Leave(t, k.tcb[t].error);
        return r, None;
      }
      var timeout := LeftOver(f.timeout, f.tickDelta, k.tick);
      RetryTiming(s, t);
      match f.op
      case Sending(value) =>
        r := SendLoop(t, value, timeout, c.due);
        return r, None;
      case Receiving =>
        r, mail := RecvLoop(t, timeout, c.due);
    }

    // rt_thread_timeout for a thread inside a call whose timer is running
    method TimerFires(t: Tid)
      requires Valid() && t in s.calls && k.tcb[t].timerArmed
      modifies this`s, k
      ensures Valid() && Enabled(old(s), MailboxProtocol.Timeout(t)) && s == Next(old(s), MailboxProtocol.Timeout(t)).s
    {
      hide Consistent, Inv, Holds, HeadsBest, Remove;
      StepKeepsInv(s, MailboxProtocol.Timeout(t));
      FramesOkTimeout(k.tcb, frames, s.calls, t);
      k.Timeout(t);
      s := Next(s, MailboxProtocol.Timeout(t)).s;
    }

    // rt_tick_increase, whatever it does to the running thread: no call is affected but by the time
    method ClockTick()
      requires Valid() && SomeReady(k.table) && k.current.Some? && k.current.value in k.tcb
      requires k.tcb[k.current.value].remainingTick > 0
      modifies this`s, k
      ensures Valid() && Enabled(old(s), Tick) && s == Next(old(s), Tick).s
    {
      hide Consistent, Inv, Holds, HeadsBest, Remove;
      StepKeepsInv(s, Tick);
      ghost var t := k.current.value;
      FramesOkTick(k.tcb, frames, s.calls, t, if k.tcb[t].remainingTick == 1 then k.tcb[t].initTick else k.tcb[t].remainingTick - 1);
      k.TickIncrease();
      s := Next(s, Tick).s;
    }

    // rt_mb_control with RT_IPC_CMD_RESET
    method ControlReset()
      requires Valid()
      modifies this`s, this`entry, this`inOffset, this`outOffset, k
      ensures Valid() && s == Next(old(s), Reset).s
    {
      hide Consistent, Inv, FramesOk, HeadsBest, FailAll, AllWoken, AllAppended;
      StepKeepsInv(s, Reset);
      ghost var receivers, senders := s.receivers, s.senders;
      FramesOkAllWoken(k.tcb, frames, s.calls, receivers);
      k.IpcResumeAll(recvQueue);
      FramesOkAllWoken(k.tcb, frames, FailAll(s.calls, receivers), senders);
      k.IpcResumeAll(sendQueue);
      entry, inOffset, outOffset := 0, 0, 0;
      s := Next(s, Reset).s;
    }
  }
}
