/** The calls of a mailbox and the timers of their threads on one clock: when a timed call gives up. */
module MailboxTimers {
  import opened Kernels
  import opened Lists
  import opened Words
  import M = MailboxProtocol
  import T = TimerProtocol

  /** Every thread has the timer of the same number. The deadlines, on a clock that never wraps, are a history. */
  datatype State = State(mb: M.State, tm: T.State, deadline: map<Tid, nat>)

  datatype Event =
    | Step(e: M.Event)      // a thread is inside rt_mb_send_wait, rt_mb_recv or rt_mb_control
    | Tick                  // rt_tick_increase, up to rt_timer_check
    | Fire                  // rt_timer_check calls rt_thread_timeout
    | EndCheck

  function StopAll(list: seq<Tid>): seq<T.Op> {
    seq(|list|, i requires 0 <= i < |list| => T.Stop(list[i]))
  }

  function First(list: seq<Tid>): seq<Tid> {
    if list == [] then [] else [list[0]]
  }

  // The thread that one pass through the loop of rt_mb_send_wait or rt_mb_recv resumes, if any.
  function Resumed(s: M.State, op: M.Op): seq<Tid> {
    if op.Sending? then (if |s.box| == s.size then [] else First(s.receivers))
    else if |s.box| == 0 then [] else First(s.senders)
  }

  // What such a pass, which leaves the mailbox as s', does to timers.
  function AttemptOps(s: M.State, t: Tid, op: M.Op, s': M.State): seq<T.Op> {
    if t !in s'.calls then StopAll(Resumed(s, op))
    else if 0 < s'.calls[t].timeout < T.HALF then [T.SetTime(t, s'.calls[t].timeout), T.Start(t)]
    else []
  }

  function Ops(s: M.State, e: M.Event): seq<T.Op> {
    match e
    case Enter(t, op, timeout, pos) => AttemptOps(s, t, op, M.Next(s, e).s)
    case Retry(t, pos) => if t in s.calls then AttemptOps(s, t, s.calls[t].op, M.Next(s, e).s) else []
    case Reset => StopAll(s.receivers + s.senders)
    case _ => []
  }

  // rt_timer_start asserts that timers run for less than half the range of ticks.
  ghost predicate TimeoutsOk(s: M.State) {
    forall t | t in s.calls :: s.calls[t].timeout < T.HALF
  }

  ghost predicate Enabled(s: State, e: Event) {
    match e
    case Step(e) =>
      && !s.tm.checking && !e.Timeout? && !e.Tick? && M.Enabled(s.mb, e) && TimeoutsOk(M.Next(s.mb, e).s)
      && (e.Enter? ==> e.t in s.tm.recs)
    case Tick => !s.tm.checking
    case Fire => s.tm.checking && T.HeadDue(s.tm)
    case EndCheck => s.tm.checking && !T.HeadDue(s.tm)
  }

  function Next(s: State, e: Event): State {
    match e
    case Step(e) =>
      State(M.Next(s.mb, e).s, T.DoAll(s.tm, Ops(s.mb, e)),
            if e.Enter? then s.deadline[e.t := s.tm.now + (if e.timeout > 0 then e.timeout else 0)] else s.deadline)
    case Tick => s.(mb := M.Next(s.mb, M.Tick).s, tm := T.Next(s.tm, T.Tick))
    case Fire =>
      if s.tm.list == [] then s
      else s.(mb := M.Next(s.mb, M.Timeout(s.tm.list[0])).s, tm := T.FireHead(s.tm, []))
    case EndCheck => s.(tm := T.Next(s.tm, T.EndCheck))
  }

  // A new mailbox, and threads whose timers have been initialised: one-shot, not started.
  function Initial(size: nat, now: nat, threads: set<Tid>): State {
    State(M.Initial(size, now),
          T.State(now, false, map t | t in threads :: T.Rec(0, false, false, 0, 0, 0), [], 0, []),
          map[])
  }

  ghost predicate Run(trace: seq<State>, events: seq<Event>) {
    && |trace| == |events| + 1
    && forall i | 0 <= i < |events| :: Enabled(trace[i], events[i]) && trace[i + 1] == Next(trace[i], events[i])
  }

  ghost predicate Armed(s: M.State, t: Tid) {
    t in s.calls && s.calls[t].armed
  }

  // The timers that run are those of the calls that are timed and waiting, and none of them is periodic.
  ghost predicate Linked(mb: M.State, tm: T.State) {
    forall t | t in tm.recs ::
      !tm.recs[t].periodic && (tm.recs[t].active <==> Armed(mb, t)) && (t in tm.list <==> tm.recs[t].active)
  }

  // What is known of a call's deadline.
  ghost predicate DeadlineOk(mb: M.State, now: nat, deadline: map<Tid, nat>) {
    forall t | t in mb.calls ::
      && t in deadline && deadline[t] < now + T.HALF && (mb.calls[t].armed ==> mb.calls[t].timeout > 0)
      && (mb.calls[t].timeout > 0 ==> U32(deadline[t]) == mb.calls[t].due)
  }

  // The timer of a call is due at the call's deadline, or whole turns of the clock later.
  ghost predicate DueOk(mb: M.State, tm: T.State, deadline: map<Tid, nat>) {
    forall t | Armed(mb, t) && t in tm.recs && t in deadline ::
      && tm.recs[t].started < tm.recs[t].due && U32(tm.recs[t].due) == mb.calls[t].due
      && tm.recs[t].due >= deadline[t]
  }

  ghost predicate Inv(s: State) {
    && M.Inv(s.mb) && T.Inv(s.tm) && s.mb.tick == U32(s.tm.now) && TimeoutsOk(s.mb) && Joined(s.mb, s.tm, s.deadline)
  }

  ghost predicate Joined(mb: M.State, tm: T.State, deadline: map<Tid, nat>) {
    && (forall t | t in mb.calls :: t in tm.recs) && Linked(mb, tm) && DeadlineOk(mb, tm.now, deadline) && DueOk(mb, tm, deadline)
  }

  // --- what the steps of the mailbox do to the calls ---

  // t goes to sleep: a new call, or the rest of one.
  ghost predicate Slept(s: M.State, t: Tid, s': M.State, timeout: int, due: nat) {
    && s'.calls.Keys == s.calls.Keys + {t} && (forall u | u in s.calls && u != t :: s'.calls[u] == s.calls[u])
    && var c := s'.calls[t]; c.timeout == timeout && c.due == due && (c.armed <==> timeout > 0)
  }

  // t leaves its call, and those on the list go on without their timers.
  ghost predicate Freed(s: M.State, gone: set<Tid>, list: seq<Tid>, s': M.State) {
    && s'.calls.Keys == s.calls.Keys - gone
    && forall u | u in s'.calls :: s'.calls[u].timeout == s.calls[u].timeout && s'.calls[u].due == s.calls[u].due
                                   && (s'.calls[u].armed <==> s.calls[u].armed && u !in list)
  }

  lemma AttemptChanges(s: M.State, t: Tid, op: M.Op, timeout: int, due: nat, pos: nat)
    requires M.QueuesOk(s) && pos <= |M.WaitList(s, op)| && (t in s.calls ==> s.calls[t].status == M.Woken)
    ensures var s' := M.Attempt(s, t, op, timeout, due, pos).s;
      && s'.tick == s.tick
      && (t in s'.calls ==> Slept(s, t, s', timeout, due) && timeout != 0)
      && (t !in s'.calls ==> Freed(s, {t}, Resumed(s, op), s'))
  {
    M.HeadWaits(s);
    hide M.QueuesOk, InsertAt;
    if op.Sending? {
      SendChanges(s, t, op, timeout, due, pos);
    } else {
      RecvChanges(s, t, op, timeout, due, pos);
    }
  }

  lemma SendChanges(s: M.State, t: Tid, op: M.Op, timeout: int, due: nat, pos: nat)
    requires op.Sending? && pos <= |s.senders| && (t in s.calls ==> s.calls[t].status == M.Woken)
    requires s.receivers != [] ==> s.receivers[0] in s.calls && s.calls[s.receivers[0]].status == M.Waiting
    ensures var s' := M.Attempt(s, t, op, timeout, due, pos).s;
      && s'.tick == s.tick
      && (t in s'.calls ==> Slept(s, t, s', timeout, due) && timeout != 0)
      && (t !in s'.calls ==> Freed(s, {t}, Resumed(s, op), s'))
  {
    hide InsertAt;
  }

  lemma RecvChanges(s: M.State, t: Tid, op: M.Op, timeout: int, due: nat, pos: nat)
    requires op.Receiving? && pos <= |s.receivers| && (t in s.calls ==> s.calls[t].status == M.Woken)
    requires s.senders != [] ==> s.senders[0] in s.calls && s.calls[s.senders[0]].status == M.Waiting
    ensures var s' := M.Attempt(s, t, op, timeout, due, pos).s;
      && s'.tick == s.tick
      && (t in s'.calls ==> Slept(s, t, s', timeout, due) && timeout != 0)
      && (t !in s'.calls ==> Freed(s, {t}, Resumed(s, op), s'))
  {
    hide InsertAt;
  }

  // --- what the operations do to the timers ---

  // The timer of t has been started; the others are as they were.
  ghost predicate Started(tm: T.State, t: Tid, timeout: T.Ticks, tm': T.State) {
    && tm'.now == tm.now && tm'.checking == tm.checking && tm'.recs.Keys == tm.recs.Keys
    && (forall u | u in tm.recs && u != t :: tm'.recs[u] == tm.recs[u] && (u in tm'.list <==> u in tm.list))
    && t in tm.recs && t in tm'.list
    && var r := tm'.recs[t];
       r.active && r.periodic == tm.recs[t].periodic && r.due == tm.now + timeout && r.started == tm.now
  }

  // The timers of those on the list have been stopped; the others are as they were.
  ghost predicate Stopped(tm: T.State, list: seq<Tid>, tm': T.State) {
    && tm'.now == tm.now && tm'.checking == tm.checking && tm'.recs.Keys == tm.recs.Keys
    && forall u | u in tm.recs ::
         && tm'.recs[u] == (if u in list then tm.recs[u].(active := false) else tm.recs[u])
         && (u in tm'.list <==> u in tm.list && u !in list)
  }

  lemma SleepTimers(tm: T.State, t: Tid, timeout: T.Ticks)
    requires T.Inv(tm) && t in tm.recs
    ensures var tm' := T.DoAll(tm, [T.SetTime(t, timeout), T.Start(t)]); T.Inv(tm') && Started(tm, t, timeout, tm')
  {
    hide T.ListOk, T.LogOk, T.ActiveListed, T.DoAll, T.DoStart;
    var ops := [T.SetTime(t, timeout), T.Start(t)];
    T.DoAllKeeps(tm, ops, {});
    T.DoAllLog(tm, ops);
    TwoOps(tm, ops[0], ops[1]);
    StartFacts(T.Do(tm, ops[0]), t);
  }

  lemma TwoOps(tm: T.State, a: T.Op, b: T.Op)
    ensures T.DoAll(tm, [a, b]) == T.Do(T.Do(tm, a), b)
  {
    hide T.Do;
    assert [a, b][1..] == [b] && [b][1..] == [];
    assert T.DoAll(T.Do(tm, a), [b]) == T.DoAll(T.Do(T.Do(tm, a), b), []);
  }

  lemma StartFacts(tm: T.State, t: Tid)
    requires t in tm.recs
    ensures var tm' := T.DoStart(tm, t);
      && tm'.recs == tm.recs[t := tm.recs[t].(active := true, due := tm.now + tm.recs[t].init, started := tm.now, stamp := tm.stamps)]
      && forall u :: u in tm'.list <==> u == t || u in tm.list
  {
  }

  lemma StopFacts(tm: T.State, t: Tid)
    requires T.ListOk(tm) && t in tm.recs && (t in tm.list <==> tm.recs[t].active)
    ensures Stopped(tm, [t], T.DoStop(tm, t))
  {
    RemoveDistinct(tm.list, t);
  }

  lemma {:induction false} StopTimers(tm: T.State, list: seq<Tid>)
    requires T.Inv(tm) && (forall t | t in tm.recs :: t in tm.list <==> tm.recs[t].active) && forall t | t in list :: t in tm.recs
    ensures var tm' := T.DoAll(tm, StopAll(list)); T.Inv(tm') && Stopped(tm, list, tm')
    decreases |list|
  {
    hide T.ListOk, T.LogOk, T.ActiveListed, T.DoStop;
    if list != [] {
      var ops := StopAll(list);
      assert ops[1..] == StopAll(list[1..]);
      var tm1 := T.Do(tm, ops[0]);
      StopFacts(tm, list[0]);
      T.DoKeeps(tm, ops[0], {});
      StopTimers(tm1, list[1..]);
    }
  }

  // --- every step ---

  // A thread goes to sleep for what is left of its time.
  lemma SleepJoined(mb: M.State, tm: T.State, deadline: map<Tid, nat>, t: Tid, mb': M.State, tm': T.State, timeout: int, due: nat)
    requires Joined(mb, tm, deadline) && Slept(mb, t, mb', timeout, due) && t in tm.recs && (t in mb.calls ==> !mb.calls[t].armed)
    requires 0 < timeout < T.HALF && Started(tm, t, timeout, tm')
    requires t in deadline && deadline[t] < tm.now + T.HALF && U32(deadline[t]) == due == U32(tm.now + timeout)
    ensures Joined(mb', tm', deadline)
  {
    assert tm.now + timeout >= deadline[t];
  }

  // Or without a timer.
  lemma RestJoined(mb: M.State, tm: T.State, deadline: map<Tid, nat>, t: Tid, mb': M.State, timeout: int, due: nat)
    requires Joined(mb, tm, deadline) && Slept(mb, t, mb', timeout, due) && t in tm.recs && (t in mb.calls ==> !mb.calls[t].armed)
    requires timeout <= 0 && t in deadline && deadline[t] < tm.now + T.HALF
    ensures Joined(mb', tm, deadline)
  {
  }

  lemma FreedJoined(mb: M.State, tm: T.State, deadline: map<Tid, nat>, gone: set<Tid>, list: seq<Tid>, mb': M.State, tm': T.State)
    requires Joined(mb, tm, deadline) && Freed(mb, gone, list, mb') && Stopped(tm, list, tm')
    requires forall t | t in gone && t in mb.calls :: !mb.calls[t].armed
    ensures Joined(mb', tm', deadline)
  {
  }

  lemma AttemptKeepsInv(s: State, t: Tid, op: M.Op, timeout: int, due: nat, pos: nat, deadline: map<Tid, nat>)
    requires Inv(s) && t in s.tm.recs && pos <= |M.WaitList(s.mb, op)| && (t in s.mb.calls ==> s.mb.calls[t].status == M.Woken)
    requires Joined(s.mb, s.tm, deadline) && t in deadline
    requires deadline[t] < s.tm.now + T.HALF || deadline[t] == s.tm.now + timeout
    requires timeout > 0 ==> U32(deadline[t]) == due == U32(s.tm.now + timeout)
    requires var mb' := M.Attempt(s.mb, t, op, timeout, due, pos).s; TimeoutsOk(mb')
    ensures var mb' := M.Attempt(s.mb, t, op, timeout, due, pos).s; var tm' := T.DoAll(s.tm, AttemptOps(s.mb, t, op, mb'));
      T.Inv(tm') && Joined(mb', tm', deadline) && tm'.now == s.tm.now && tm'.checking == s.tm.checking && mb'.tick == s.mb.tick
  {
    hide T.Inv, M.Attempt, T.DoAll, Slept, Freed, Started, Stopped;
    var mb' := M.Attempt(s.mb, t, op, timeout, due, pos).s;
    var tm' := T.DoAll(s.tm, AttemptOps(s.mb, t, op, mb'));
    AttemptChanges(s.mb, t, op, timeout, due, pos);
    NotArmed(s, t);
    if t !in mb'.calls {
      ResumedKnown(s, op);
      TimersLinked(s);
      StopTimers(s.tm, Resumed(s.mb, op));
      StoppedFields(s.tm, Resumed(s.mb, op), tm');
      FreedJoined(s.mb, s.tm, deadline, {t}, Resumed(s.mb, op), mb', tm');
    } else {
      SleptTimeout(s.mb, t, mb', timeout, due);
      if timeout > 0 {
        SleepTimers(s.tm, t, timeout);
        StartedFields(s.tm, t, timeout, tm');
        SleepJoined(s.mb, s.tm, deadline, t, mb', tm', timeout, due);
      } else {
        NoOps(s.tm);
        RestJoined(s.mb, s.tm, deadline, t, mb', timeout, due);
      }
    }
  }

  lemma NotArmed(s: State, t: Tid)
    requires Inv(s) && (t in s.mb.calls ==> s.mb.calls[t].status != M.Waiting)
    ensures t in s.mb.calls ==> !s.mb.calls[t].armed
  {
  }

  lemma ResumedKnown(s: State, op: M.Op)
    requires Inv(s)
    ensures forall t | t in Resumed(s.mb, op) :: t in s.tm.recs
  {
    M.HeadWaits(s.mb);
  }

  lemma TimersLinked(s: State)
    requires Inv(s)
    ensures T.Inv(s.tm) && forall t | t in s.tm.recs :: t in s.tm.list <==> s.tm.recs[t].active
  {
  }

  lemma StoppedFields(tm: T.State, list: seq<Tid>, tm': T.State)
    requires Stopped(tm, list, tm')
    ensures tm'.now == tm.now && tm'.checking == tm.checking
  {
  }

  lemma StartedFields(tm: T.State, t: Tid, timeout: T.Ticks, tm': T.State)
    requires Started(tm, t, timeout, tm')
    ensures tm'.now == tm.now && tm'.checking == tm.checking
  {
  }

  lemma SleptTimeout(s: M.State, t: Tid, s': M.State, timeout: int, due: nat)
    requires Slept(s, t, s', timeout, due)
    ensures t in s'.calls && s'.calls[t].timeout == timeout
  {
  }

  lemma NoOps(tm: T.State)
    ensures T.DoAll(tm, []) == tm
  {
  }

  // A call of t begins: its deadline is set.
  lemma NewDeadline(s: State, t: Tid, d: nat)
    requires Joined(s.mb, s.tm, s.deadline) && t !in s.mb.calls
    ensures Joined(s.mb, s.tm, s.deadline[t := d])
  {
  }

  lemma EnterKeepsInv(s: State, e: M.Event)
    requires Inv(s) && Enabled(s, Step(e)) && e.Enter?
    ensures Inv(Next(s, Step(e)))
  {
    hide M.Inv, T.Inv, Joined, AttemptOps, M.Attempt, T.DoAll, TimeoutsOk;
    M.StepKeepsInv(s.mb, e);
    QueuesKnown(s.mb);
    var d := s.tm.now + (if e.timeout > 0 then e.timeout else 0);
    NewDeadline(s, e.t, d);
    U32Add(s.tm.now, e.timeout);
    AttemptKeepsInv(s, e.t, e.op, e.timeout, U32(s.mb.tick + e.timeout), e.pos, s.deadline[e.t := d]);
  }

  lemma RetryKeepsInv(s: State, e: M.Event)
    requires Inv(s) && Enabled(s, Step(e)) && e.Retry?
    ensures Inv(Next(s, Step(e)))
  {
    hide M.Inv, T.Inv, Joined, AttemptOps, M.Attempt, T.DoAll, TimeoutsOk, LeftOver;
    M.StepKeepsInv(s.mb, e);
    QueuesKnown(s.mb);
    var c := s.mb.calls[e.t];
    CallKnown(s, e.t);
    LeftOverKeepsDue(c.timeout, c.start, s.mb.tick);
    var left := LeftOver(c.timeout, c.start, s.mb.tick);
    U32Add(s.tm.now, left);
    AttemptKeepsInv(s, e.t, c.op, left, c.due, e.pos, s.deadline);
  }

  lemma CallKnown(s: State, t: Tid)
    requires Inv(s) && t in s.mb.calls
    ensures t in s.tm.recs && t in s.deadline && s.deadline[t] < s.tm.now + T.HALF
    ensures var c := s.mb.calls[t];
      -W32 / 2 <= c.timeout < W32 / 2 && (c.timeout > 0 ==> U32(s.deadline[t]) == c.due == U32(c.start + c.timeout))
  {
  }

  lemma GiveUpKeepsInv(s: State, e: M.Event)
    requires Inv(s) && Enabled(s, Step(e)) && e.GiveUp?
    ensures Inv(Next(s, Step(e)))
  {
    hide M.Inv, T.Inv, Joined;
    M.StepKeepsInv(s.mb, e);
    NotArmed(s, e.t);
    NoOps(s.tm);
    FreedJoined(s.mb, s.tm, s.deadline, {e.t}, [], Next(s, Step(e)).mb, s.tm);
  }

  lemma ResetKeepsInv(s: State)
    requires Inv(s) && Enabled(s, Step(M.Reset))
    ensures Inv(Next(s, Step(M.Reset)))
  {
    hide M.Inv, T.Inv, Joined, T.DoAll, Stopped;
    var s' := Next(s, Step(M.Reset));
    var list := s.mb.receivers + s.mb.senders;
    M.StepKeepsInv(s.mb, M.Reset);
    WaitersKnown(s);
    TimersLinked(s);
    StopTimers(s.tm, list);
    StoppedFields(s.tm, list, s'.tm);
    FreedJoined(s.mb, s.tm, s.deadline, {}, list, s'.mb, s'.tm);
  }

  lemma WaitersKnown(s: State)
    requires Inv(s)
    ensures forall t | t in s.mb.receivers + s.mb.senders :: t in s.tm.recs
  {
    QueuesKnown(s.mb);
  }

  lemma TickKeepsInv(s: State)
    requires Inv(s) && Enabled(s, Tick)
    ensures Inv(Next(s, Tick))
  {
    hide M.Inv, T.Inv;
    M.StepKeepsInv(s.mb, M.Tick);
    T.StepKeepsInv(s.tm, T.Tick);
    U32Add(s.tm.now, 1);
  }

  // The first timer on the list is that of a waiting call, and its deadline has just come.
  lemma HeadIsCall(s: State)
    requires Inv(s) && Enabled(s, Fire)
    ensures var t := s.tm.list[0];
      && t in s.mb.calls && s.mb.calls[t].status == M.Waiting && M.Enabled(s.mb, M.Timeout(t)) && t in s.deadline
      && s.tm.recs[t].due == s.tm.now && s.mb.tick == s.mb.calls[t].due && s.tm.now >= s.deadline[t]
      && U32(s.tm.now) == U32(s.deadline[t])
      && (s.tm.now == s.deadline[t] <==> s.tm.recs[t].started < s.deadline[t])
  {
    var t := s.tm.list[0];
    assert t in s.tm.list;
    TimeoutKnown(s, t);
  }

  // A running timer is that of a timed call.
  lemma TimeoutKnown(s: State, t: Tid)
    requires Inv(s) && t in s.mb.calls && s.mb.calls[t].armed
    ensures s.mb.calls[t].timeout > 0 && s.mb.calls[t].status == M.Waiting
  {
  }

  lemma FireKeepsInv(s: State)
    requires Inv(s) && Enabled(s, Fire)
    ensures Inv(Next(s, Fire))
  {
    hide M.Inv, T.Inv, Joined, T.FireHead;
    var t := s.tm.list[0];
    HeadIsCall(s);
    M.StepKeepsInv(s.mb, M.Timeout(t));
    T.StepKeepsInv(s.tm, T.Fire([]));
    FiredTimers(s);
    FreedJoined(s.mb, s.tm, s.deadline, {}, [t], Next(s, Fire).mb, Next(s, Fire).tm);
  }

  lemma FiredTimers(s: State)
    requires Inv(s) && Enabled(s, Fire)
    ensures Stopped(s.tm, [s.tm.list[0]], T.FireHead(s.tm, []))
  {
    hide M.Inv;
    T.PopNotListed(s.tm);
    NoOps(T.Popped(s.tm));
  }

  lemma EndKeepsInv(s: State)
    requires Inv(s) && Enabled(s, EndCheck)
    ensures Inv(Next(s, EndCheck))
  {
    hide M.Inv, T.Inv;
    T.StepKeepsInv(s.tm, T.EndCheck);
  }

  lemma StepKeepsInv(s: State, e: Event)
    requires Inv(s) && Enabled(s, e)
    ensures Inv(Next(s, e))
  {
    hide Inv, Next;
    match e
    case Step(e) =>
      if e.Enter? {
        EnterKeepsInv(s, e);
      } else if e.Retry? {
        RetryKeepsInv(s, e);
      } else if e.GiveUp? {
        GiveUpKeepsInv(s, e);
      } else {
        ResetKeepsInv(s);
      }
    case Tick => TickKeepsInv(s);
    case Fire => FireKeepsInv(s);
    case EndCheck => EndKeepsInv(s);
  }

  /** Over every run the timers that run are those of timed calls asleep on the mailbox, and they are due in time. */
  lemma {:induction false} RunsKeepInv(size: nat, now: nat, threads: set<Tid>, trace: seq<State>, events: seq<Event>, n: nat)
    requires Run(trace, events) && trace[0] == Initial(size, now, threads) && n < |trace|
    ensures Inv(trace[n])
  {
    hide Enabled, Next, Inv;
    if n > 0 {
      RunsKeepInv(size, now, threads, trace, events, n - 1);
      StepKeepsInv(trace[n - 1], events[n - 1]);
    } else {
      InitialInv(size, now, threads);
    }
  }

  lemma InitialInv(size: nat, now: nat, threads: set<Tid>)
    ensures Inv(Initial(size, now, threads))
  {
    assert M.WokenReceivers(map[]) == {} && M.WokenSenders(map[]) == {};
  }

  /** Over every run: a timed call times out at a tick equal to its deadline and never before it, with its thread still waiting.
      On a clock that does not wrap, this is the deadline itself if and only if the thread last went to sleep before it (one
      that retests half a turn of the clock too late or more may wait for another turn). */
  lemma TimesOutOnTime(size: nat, now: nat, threads: set<Tid>, trace: seq<State>, events: seq<Event>, n: nat)
    requires Run(trace, events) && trace[0] == Initial(size, now, threads) && n < |events| && events[n] == Fire
    ensures var s := trace[n]; s.tm.list != [] && var t := s.tm.list[0];
      && t in s.mb.calls && s.mb.calls[t].status == M.Waiting && M.Enabled(s.mb, M.Timeout(t))
      && s.mb.tick == s.mb.calls[t].due
      && t in s.deadline && t in s.tm.recs && s.deadline[t] <= s.tm.now && (s.tm.now - s.deadline[t]) % W32 == 0
      && (s.tm.now == s.deadline[t] <==> s.tm.recs[t].started < s.deadline[t])
  {
    RunsKeepInv(size, now, threads, trace, events, n);
    HeadIsCall(trace[n]);
  }

  /** And none is overdue: between checks, the timer of a timed call that waits is due later. */
  lemma NoneOverdue(size: nat, now: nat, threads: set<Tid>, trace: seq<State>, events: seq<Event>, n: nat, t: Tid)
    requires Run(trace, events) && trace[0] == Initial(size, now, threads) && n < |trace| && !trace[n].tm.checking
    requires t in trace[n].mb.calls && trace[n].mb.calls[t].armed
    ensures t in trace[n].tm.recs && trace[n].tm.now < trace[n].tm.recs[t].due && U32(trace[n].tm.recs[t].due) == trace[n].mb.calls[t].due
  {
    RunsKeepInv(size, now, threads, trace, events, n);
  }

  lemma QueuesKnown(s: M.State)
    requires M.Inv(s)
    ensures M.QueuesOk(s) && M.DeadlinesKept(s)
  {
  }
}
