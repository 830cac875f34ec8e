/** Counting semaphores as a step system. */
module SemaphoreProtocol {
  import opened Kernels
  import opened Lists

  const MAX_VALUE := 0xffff

  // (rt_uint16_t)x
  function U16(x: nat): (u: nat)
    ensures u <= MAX_VALUE && (x <= MAX_VALUE ==> u == x)
  {
    x % 0x1_0000
  }

  datatype Status = Waiting | Granted | Failed(err: Err)

  /** A blocked call: whether the thread's timer is running, and how the wait has ended. */
  datatype Call = Call(armed: bool, status: Status)

  datatype State = State(value: nat, waiters: seq<Tid>, calls: map<Tid, Call>)

  datatype Outcome = Outcome(s: State, result: Option<Err>)

  datatype Event =
    | Take(t: Tid, time: int, pos: nat)   // rt_sem_take; a thread that must wait goes to place `pos`
    | Release                             // rt_sem_release
    | Return(t: Tid)                      // a woken thread leaves rt_sem_take
    | Timeout(t: Tid)                     // the thread's timer fires
    | Reset(value: nat)                   // rt_sem_control with RT_IPC_CMD_RESET

  ghost predicate Enabled(s: State, e: Event) {
    match e
    case Take(t, time, pos) => t !in s.calls && pos <= |s.waiters|
    case Release => true
    case Return(t) => t in s.calls && s.calls[t].status != Waiting
    case Timeout(t) => t in s.calls && s.calls[t].armed
    case Reset(value) => true
  }

  function FailAll(calls: map<Tid, Call>, list: seq<Tid>): map<Tid, Call> {
    map t | t in calls :: if t in list then Call(false, Failed(EError)) else calls[t]
  }

  function Next(s: State, e: Event): Outcome {
    match e
    case Take(t, time, pos) =>
      if s.value > 0 then Outcome(s.(value := s.value - 1), Some(EOk))
      else if time == 0 then Outcome(s, Some(ETimeout))
      else if pos > |s.waiters| then Outcome(s, None)
      else Outcome(s.(waiters := InsertAt(s.waiters, pos, t), calls := s.calls[t := Call(time > 0, Waiting)]), None)
    case Release =>
      if s.waiters != [] && s.waiters[0] in s.calls then
        var h := s.waiters[0];
        Outcome(s.(waiters := s.waiters[1..], calls := s.calls[h := Call(false, Granted)]), Some(EOk))
      else
        Outcome(s.(value := U16(s.value + 1)), Some(EOk))
    case Return(t) =>
      if t !in s.calls then Outcome(s, None)
      else
        Outcome(s.(calls := Without(s.calls, t)), Some(if s.calls[t].status.Failed? then s.calls[t].status.err else EOk))
    case Timeout(t) =>
      if t !in s.calls then Outcome(s, None)
      else Outcome(s.(waiters := Remove(s.waiters, t), calls := s.calls[t := Call(false, Failed(ETimeout))]), None)
    case Reset(value) =>
      Outcome(State(U16(value), [], FailAll(s.calls, s.waiters)), Some(EOk))
  }

  ghost predicate QueueOk(s: State) {
    && Distinct(s.waiters)
    && (forall t | t in s.waiters :: t in s.calls && s.calls[t].status == Waiting)
    && (forall t | t in s.calls && s.calls[t].status == Waiting :: t in s.waiters)
  }

  ghost predicate FailuresOk(s: State) {
    forall t | t in s.calls && s.calls[t].status.Failed? :: s.calls[t].status.err != EOk
  }

  // A thread's timer runs only while it waits.
  ghost predicate TimersOk(s: State) {
    forall t | t in s.calls && s.calls[t].armed :: s.calls[t].status == Waiting
  }

  ghost predicate Inv(s: State) {
    && QueueOk(s) && TimersOk(s) && FailuresOk(s) && s.value <= MAX_VALUE
    // nobody waits for a semaphore that can be taken
    && (s.value > 0 ==> s.waiters == [])
  }

  ghost predicate Run(trace: seq<State>, events: seq<Event>) {
    && |trace| == |events| + 1
    && forall i | 0 <= i < |events| :: Enabled(trace[i], events[i]) && trace[i + 1] == Next(trace[i], events[i]).s
  }

  function Initial(value: nat): State {
    State(U16(value), [], map[])
  }

  lemma StepKeepsInv(s: State, e: Event)
    requires Inv(s) && Enabled(s, e)
    ensures Inv(Next(s, e).s)
  {
    match e
    case Take(t, time, pos) => InsertDistinct(s.waiters, pos, t);
    case Release =>
      if s.waiters != [] {
        DistinctTail(s.waiters);
        assert s.waiters == [s.waiters[0]] + s.waiters[1..];
      }
    case Return(t) =>
    case Timeout(t) => RemoveDistinct(s.waiters, t);
    case Reset(value) =>
  }

  /** Over every run, threads wait only while the value is 0. */
  lemma {:induction false} RunsKeepInv(value: nat, trace: seq<State>, events: seq<Event>, n: nat)
    requires Run(trace, events) && trace[0] == Initial(value) && n < |trace|
    ensures Inv(trace[n])
  {
    if n > 0 {
      RunsKeepInv(value, trace, events, n - 1);
      StepKeepsInv(trace[n - 1], events[n - 1]);
    }
  }

  // --- conservation ---

  /** The threads that hold a unit but have not returned from rt_sem_take yet. */
  ghost function GrantedTo(calls: map<Tid, Call>): set<Tid> {
    set t | t in calls && calls[t].status == Granted
  }

  // The calls of rt_sem_take that have returned RT_EOK in the first n steps.
  ghost function Taken(trace: seq<State>, events: seq<Event>, n: nat): nat
    requires n <= |events| <= |trace|
  {
    if n == 0 then 0
    else Taken(trace, events, n - 1) + Success(trace[n - 1], events[n - 1])
  }

  function Success(s: State, e: Event): nat {
    if (e.Take? || e.Return?) && Next(s, e).result == Some(EOk) then 1 else 0
  }

  function Releases(events: seq<Event>, n: nat): nat
    requires n <= |events|
  {
    if n == 0 then 0 else Releases(events, n - 1) + if events[n - 1].Release? then 1 else 0
  }

  // The release that the 16-bit counter cannot record.
  predicate Overflows(s: State, e: Event) {
    e.Release? && s.waiters == [] && s.value == MAX_VALUE
  }

  // The units in the semaphore and on their way out of it.
  ghost function Units(s: State): nat {
    s.value + |GrantedTo(s.calls)|
  }

  // Only the call of t changes.
  lemma GrantedChange(calls: map<Tid, Call>, t: Tid, calls': map<Tid, Call>)
    requires forall u | u != t :: (u in calls <==> u in calls') && (u in calls ==> calls[u] == calls'[u])
    ensures var before, after := t in calls && calls[t].status == Granted, t in calls' && calls'[t].status == Granted;
            |GrantedTo(calls')| + (if before then 1 else 0) == |GrantedTo(calls)| + (if after then 1 else 0)
  {
    var rest := GrantedTo(calls) - {t};
    assert GrantedTo(calls) == if t in GrantedTo(calls) then rest + {t} else rest;
    assert GrantedTo(calls') == if t in GrantedTo(calls') then rest + {t} else rest;
  }

  // The thread whose call a step other than a reset concerns.
  function Concerned(s: State, e: Event): Tid {
    match e
    case Take(t, time, pos) => t
    case Release => if s.waiters != [] then s.waiters[0] else 0
    case Return(t) => t
    case Timeout(t) => t
    case Reset(value) => 0
  }

  lemma OnlyConcerned(s: State, e: Event)
    requires Inv(s) && Enabled(s, e) && !e.Reset?
    ensures var t := Concerned(s, e);
            forall u | u != t :: (u in s.calls <==> u in Next(s, e).s.calls) && (u in s.calls ==> s.calls[u] == Next(s, e).s.calls[u])
  {
  }

  /** A step other than a reset creates a unit by releasing and consumes one by returning RT_EOK,
      and nothing else, exactly unless the counter overflows. */
  lemma StepConserves(s: State, e: Event)
    requires Inv(s) && Enabled(s, e) && !e.Reset?
    ensures Units(Next(s, e).s) + Success(s, e) == Units(s) + (if e.Release? then 1 else 0) <==> !Overflows(s, e)
  {
    OnlyConcerned(s, e);
    GrantedChange(s.calls, Concerned(s, e), Next(s, e).s.calls);
    hide GrantedTo, Distinct, InsertAt, Remove;
  }

  /** Such a release is possible: the semaphore of the highest value is released once more, and has none left. */
  lemma OverflowLosesUnits() returns (trace: seq<State>, events: seq<Event>)
    ensures Run(trace, events) && trace[0] == Initial(MAX_VALUE) && events == [Release] && Overflows(trace[0], events[0])
    ensures Units(trace[0]) == MAX_VALUE && Units(trace[1]) == 0
  {
    trace, events := [Initial(MAX_VALUE), Initial(0)], [Release];
    assert GrantedTo(map[]) == {};
  }

  /** Without resets and overflows, the initial value plus the releases is the value plus the successful takes,
      those granted and not yet returned included. */
  lemma {:induction false} Conservation(value: nat, trace: seq<State>, events: seq<Event>, n: nat)
    requires Run(trace, events) && trace[0] == Initial(value) && n < |trace|
    requires forall i | 0 <= i < n :: !events[i].Reset? && !Overflows(trace[i], events[i])
    ensures U16(value) + Releases(events, n) == trace[n].value + Taken(trace, events, n) + |GrantedTo(trace[n].calls)|
  {
    if n > 0 {
      Conservation(value, trace, events, n - 1);
      RunsKeepInv(value, trace, events, n - 1);
      StepConserves(trace[n - 1], events[n - 1]);
    }
  }

  // --- each waiter is woken once, in its turn ---

  /** Whatever wakes a thread stops its timer: over every run a timer that fires finds its thread still waiting. */
  lemma TimersOnlyWhileWaiting(value: nat, trace: seq<State>, events: seq<Event>, n: nat, t: Tid)
    requires Run(trace, events) && trace[0] == Initial(value) && n < |events| && events[n] == Timeout(t)
    ensures t in trace[n].calls && trace[n].calls[t].status == Waiting && t in trace[n].waiters
  {
    RunsKeepInv(value, trace, events, n);
  }

  /** How a wait ended is settled the moment it ends: a grant never becomes a timeout, nor a timeout a grant. */
  lemma {:induction false} WokenOnce(value: nat, trace: seq<State>, events: seq<Event>, i: nat, j: nat, t: Tid)
    requires Run(trace, events) && trace[0] == Initial(value) && i <= j < |trace|
    requires forall n | i <= n <= j :: t in trace[n].calls
    requires trace[i].calls[t].status != Waiting
    ensures trace[j].calls[t].status == trace[i].calls[t].status
  {
    if i < j {
      WokenOnce(value, trace, events, i, j - 1, t);
      RunsKeepInv(value, trace, events, j - 1);
    }
  }

  ghost predicate Before(list: seq<Tid>, t: Tid, u: Tid) {
    exists i, j :: 0 <= i < j < |list| && list[i] == t && list[j] == u
  }

  lemma BeforeInsert(list: seq<Tid>, n: nat, x: Tid, t: Tid, u: Tid)
    requires n <= |list| && Before(list, t, u)
    ensures Before(InsertAt(list, n, x), t, u)
  {
    var i, j :| 0 <= i < j < |list| && list[i] == t && list[j] == u;
    var r := InsertAt(list, n, x);
    var i', j' := if i < n then i else i + 1, if j < n then j else j + 1;
    assert r[i'] == t && r[j'] == u;
  }

  lemma BeforeRemove(list: seq<Tid>, k: nat, t: Tid, u: Tid)
    requires k < |list| && Before(list, t, u) && list[k] != t && list[k] != u
    ensures Before(list[..k] + list[k + 1..], t, u)
  {
    var i, j :| 0 <= i < j < |list| && list[i] == t && list[j] == u;
    var r := list[..k] + list[k + 1..];
    var i', j' := if i < k then i else i - 1, if j < k then j else j - 1;
    assert r[i'] == t && r[j'] == u;
  }

  lemma StepKeepsOrder(s: State, e: Event, t: Tid, u: Tid)
    requires Inv(s) && Enabled(s, e) && Before(s.waiters, t, u) && t in Next(s, e).s.waiters
    ensures u in Next(s, e).s.waiters ==> Before(Next(s, e).s.waiters, t, u)
    ensures u in Next(s, e).s.calls ==> Next(s, e).s.calls[u].status != Granted
  {
    hide Before, Distinct;
    BeforeMembers(s.waiters, t, u);
    match e
    case Take(x, time, pos) =>
      if s.value == 0 && time != 0 {
        BeforeInsert(s.waiters, pos, x, t, u);
      }
    case Release => ReleaseKeepsOrder(s, t, u);
    case Return(x) =>
    case Timeout(x) =>
      RemoveDistinct(s.waiters, x);
      if x != u {
        RemoveKeepsOrder(s.waiters, x, t, u);
      }
    case Reset(value) =>
  }

  lemma ReleaseKeepsOrder(s: State, t: Tid, u: Tid)
    requires Inv(s) && Before(s.waiters, t, u) && t in Next(s, Release).s.waiters
    ensures u in Next(s, Release).s.waiters ==> Before(Next(s, Release).s.waiters, t, u)
    ensures u in Next(s, Release).s.calls ==> Next(s, Release).s.calls[u].status != Granted
  {
    hide Before, Distinct;
    BeforeTail(s.waiters, t, u);
  }

  lemma BeforeTail(list: seq<Tid>, t: Tid, u: Tid)
    requires Before(list, t, u) && Distinct(list)
    ensures list != [] && t in list && u in list
    ensures t in list[1..] ==> list[0] != u && Before(list[1..], t, u)
  {
    DistinctTail(list);
    var i, j :| 0 <= i < j < |list| && list[i] == t && list[j] == u;
    assert list[j] == list[1..][j - 1];
    if t in list[1..] {
      assert i > 0 && list[1..][i - 1] == t;
    }
  }

  lemma RemoveKeepsOrder(list: seq<Tid>, x: Tid, t: Tid, u: Tid)
    requires Before(list, t, u) && Distinct(list) && x in list && x != u && t in Remove(list, x)
    ensures Before(Remove(list, x), t, u)
  {
    RemoveDistinct(list, x);
    var k :| 0 <= k < |list| && list[k] == x;
    RemoveAt(list, k);
    BeforeRemove(list, k, t, u);
  }

  lemma BeforeMembers(list: seq<Tid>, t: Tid, u: Tid)
    requires Before(list, t, u)
    ensures list != [] && t in list && u in list
  {
  }

  /** No overtaking: a thread behind another in the wait list, FIFO or PRIO, is not granted the semaphore
      as long as the other keeps waiting. */
  lemma {:induction false} NoOvertaking(value: nat, trace: seq<State>, events: seq<Event>, i: nat, j: nat, t: Tid, u: Tid)
    requires Run(trace, events) && trace[0] == Initial(value) && i < j < |trace|
    requires Before(trace[i].waiters, t, u)
    requires forall n | i <= n <= j :: t in trace[n].waiters
    requires forall n | i <= n < j :: u in trace[n].waiters
    ensures u in trace[j].calls ==> trace[j].calls[u].status != Granted
    ensures u in trace[j].waiters ==> Before(trace[j].waiters, t, u)
  {
    hide Before, Inv, Next;
    assert t in trace[j].waiters;
    if j - 1 > i {
      NoOvertaking(value, trace, events, i, j - 1, t, u);
    }
    RunsKeepInv(value, trace, events, j - 1);
    StepKeepsOrder(trace[j - 1], events[j - 1], t, u);
  }

  // --- what the callers are told ---

  /** rt_sem_take is told RT_EOK if there is a unit, and takes just that one; with no unit and no time it is told RT_ETIMEOUT,
      and nothing changes; with no unit and time to wait it is told nothing and waits at its place. */
  lemma TakeAnswers(s: State, t: Tid, time: int, pos: nat)
    requires Inv(s) && Enabled(s, Take(t, time, pos))
    ensures var r := Next(s, Take(t, time, pos));
      && r.result in {Some(EOk), Some(ETimeout), None}
      && (r.result == Some(EOk) <==> s.value > 0)
      && (r.result == Some(EOk) ==> r.s == State(s.value - 1, s.waiters, s.calls))
      && (r.result == Some(ETimeout) <==> s.value == 0 && time == 0)
      && (r.result == Some(ETimeout) ==> r.s == s)
      && (r.result == None <==> t in r.s.waiters)
      && (r.result == None ==> r.s == State(0, s.waiters[..pos] + [t] + s.waiters[pos..], s.calls[t := Call(time > 0, Waiting)]))
  {
  }

  /** rt_sem_release hands the unit to the first to wait, or adds it to the value, which starts again at 0 when it is the highest
      already. */
  lemma ReleaseAnswers(s: State)
    requires Inv(s)
    ensures var r := Next(s, Release);
      && r.result == Some(EOk) && r.s.calls.Keys == s.calls.Keys
      && (s.waiters == [] ==> r.s == s.(value := if s.value == MAX_VALUE then 0 else s.value + 1))
      && (s.waiters != [] ==> r.s.value == s.value && s.waiters == [s.waiters[0]] + r.s.waiters
                              && s.waiters[0] in s.calls && r.s.calls[s.waiters[0]].status == Granted)
      && forall t | t in s.calls && (s.waiters == [] || t != s.waiters[0]) :: r.s.calls[t] == s.calls[t]
  {
  }

  /** What ends the wait of t, and how: a release while it is the first to wait, its timer, or a reset. */
  ghost predicate Ends(s: State, e: Event, t: Tid, status: Status) {
    match status
    case Waiting => false
    case Granted => e == Release && s.waiters != [] && s.waiters[0] == t
    case Failed(err) => (e == Timeout(t) && err == ETimeout) || (e.Reset? && err == EError)
  }

  ghost predicate HasEnded(s: State, t: Tid) {
    t in s.calls && s.calls[t].status != Waiting
  }

  lemma EndStep(s: State, e: Event, t: Tid)
    requires Inv(s) && Enabled(s, e) && HasEnded(Next(s, e).s, t)
    ensures t in s.calls
    ensures if s.calls[t].status == Waiting then Ends(s, e, t, Next(s, e).s.calls[t].status) else s.calls[t] == Next(s, e).s.calls[t]
  {
  }

  /** Over every run: a wait that is over was ended by such a step. */
  lemma {:induction false} EndedBy(value: nat, trace: seq<State>, events: seq<Event>, n: nat, t: Tid) returns (i: nat)
    requires Run(trace, events) && trace[0] == Initial(value) && n < |trace| && HasEnded(trace[n], t)
    ensures i < n && t in trace[i].waiters && Ends(trace[i], events[i], t, trace[n].calls[t].status)
    ensures forall k | i < k <= n :: HasEnded(trace[k], t) && trace[k].calls[t] == trace[n].calls[t]
  {
    hide Next, Enabled, Ends;
    RunsKeepInv(value, trace, events, n - 1);
    EndStep(trace[n - 1], events[n - 1], t);
    if trace[n - 1].calls[t].status == Waiting {
      i := n - 1;
    } else {
      i := EndedBy(value, trace, events, n - 1, t);
    }
  }

  /** And what ended it is what rt_sem_take returns: RT_EOK with a unit released to it as the first to wait, RT_ETIMEOUT after its
      timer, RT_ERROR after a reset. */
  lemma ReturnAnswers(value: nat, trace: seq<State>, events: seq<Event>, n: nat, t: Tid) returns (i: nat)
    requires Run(trace, events) && trace[0] == Initial(value) && n < |events| && events[n] == Return(t)
    ensures i < n && t in trace[i].waiters
    ensures var r := Next(trace[n], Return(t));
      && r.result.Some? && t !in r.s.calls && r.s.value == trace[n].value && r.s.waiters == trace[n].waiters
      && Ends(trace[i], events[i], t, if r.result == Some(EOk) then Granted else Failed(r.result.value))
  {
    i := EndedBy(value, trace, events, n, t);
  }

  /** A timer that fires takes its thread out of the list, and does nothing else. */
  lemma TimeoutAnswers(s: State, t: Tid)
    requires Inv(s) && Enabled(s, Timeout(t))
    ensures var r := Next(s, Timeout(t));
      && r.result == None && r.s.value == s.value && r.s.calls.Keys == s.calls.Keys && t !in r.s.waiters
      && forall u | u in s.calls && u != t :: r.s.calls[u] == s.calls[u] && (u in s.waiters <==> u in r.s.waiters)
  {
    RemoveDistinct(s.waiters, t);
  }

  /** A reset leaves the lowest 16 bits of the value it is given, and wakes everybody who waits with RT_ERROR. */
  lemma ResetAnswers(s: State, value: nat)
    requires Inv(s)
    ensures var r := Next(s, Reset(value));
      && r.result == Some(EOk) && r.s.waiters == [] && r.s.calls.Keys == s.calls.Keys
      && r.s.value < 0x1_0000 && (exists high: nat :: value == high * 0x1_0000 + r.s.value)
      && forall t | t in s.calls :: r.s.calls[t] == if t in s.waiters then Call(false, Failed(EError)) else s.calls[t]
  {
    var high: nat := value / 0x1_0000;
    assert value == high * 0x1_0000 + U16(value);
  }
}

/** The semaphore object, on the kernel that suspends and resumes threads. */
module Semaphores {
  import opened Kernels
  import opened Lists
  import opened SemaphoreProtocol

  ghost predicate InCall(b: Tcb, c: Call) {
    && b.timerArmed == c.armed
    && match c.status
       case Waiting => b.stat == Suspend && b.error == EOk
       case Granted => b.stat == Ready && b.error == EOk
       case Failed(e) => b.stat == Ready && b.error == e && e != EOk
  }

  ghost predicate CallsOk(tcb: map<Tid, Tcb>, calls: map<Tid, Call>) {
    forall t | t in calls :: t in tcb && InCall(tcb[t], calls[t])
  }

  lemma CallsOkAllWoken(tcb: map<Tid, Tcb>, calls: map<Tid, Call>, list: seq<Tid>)
    requires CallsOk(tcb, calls)
    ensures CallsOk(AllWoken(tcb, list), FailAll(calls, list))
  {
  }

  lemma CallsOkStep(tcb: map<Tid, Tcb>, calls: map<Tid, Call>, t: Tid, b: Tcb, c: Call)
    requires CallsOk(tcb, calls) && InCall(b, c)
    ensures CallsOk(tcb[t := b], calls[t := c])
  {
  }

  class Semaphore {
    const k: Kernel
    const flag: IpcFlag
    var value: nat                    // rt_uint16_t
    const queue: QueueId              // parent.suspend_thread
    ghost var s: State

    ghost predicate Valid()
      reads this, k
    {
      && k.Valid() && queue in k.wait
      && s.value == value && s.waiters == k.wait[queue]
      && CallsOk(k.tcb, s.calls)
      && Inv(s)
    }

    // rt_sem_init
    constructor (kernel: Kernel, value: nat, flag: IpcFlag, q: QueueId)
      requires kernel.Valid() && q !in kernel.wait
      modifies kernel`wait
      ensures Valid() && k == kernel && s == Initial(value) && kernel.wait == old(kernel.wait)[q := []]
    {
      k, this.flag, queue := kernel, flag, q;
      this.value := U16(value);
      s := Initial(value);
      new;
      kernel.QueueInit(q);
    }

    // rt_sem_take, up to its return or to its going to sleep
    method TakeUnit(t: Tid, time: int) returns (r: Option<Err>)
      requires Valid() && t in k.tcb && k.tcb[t].stat == Ready && t !in s.calls
      modifies this`value, this`s, k
      ensures Valid() && (forall u | u in old(s).waiters :: u in old(k.tcb))
      ensures var e := Take(t, time, Place(old(k.tcb), old(s).waiters, t, flag));
              Enabled(old(s), e) && s == Next(old(s), e).s && r == Next(old(s), e).result
    {
      hide Consistent, Inv, CallsOk, Place, InsertAt, Dropped;
      WaitersOk(k.tcb, k.table, k.group, k.readyTable, k.wait, k.defunct, queue);
      ghost var e := Take(t, time, Place(k.tcb, s.waiters, t, flag));
      StepKeepsInv(s, e);
      ghost var s' := Next(s, e).s;
      if value > 0 {
        value := value - 1;
        r := Some(EOk);
      } else if time == 0 {
        return Some(ETimeout);
      } else {
        CallsOkStep(k.tcb, s.calls, t, Blocked(k.tcb[t], time > 0), Call(time > 0, Waiting));
        k.Block(queue, t, flag, time > 0);
        r := None;
      }
      s := s';
    }

    // rt_sem_release
    method ReleaseUnit()
      requires Valid()
      modifies this`value, this`s, k
      ensures Valid() && s == Next(old(s), Release).s
    {
      hide Consistent, Inv, CallsOk, Appended;
      StepKeepsInv(s, Release);
      HeadInCall(k.tcb, s);
      if k.wait[queue] != [] {
        var h := k.wait[queue][0];
        CallsOkStep(k.tcb, s.calls, h, Kernels.Woken(k.tcb[h], k.tcb[h].error), Call(false, Granted));
        k.IpcResume(queue);
      } else {
        value := U16(value + 1);
      }
      s := Next(s, Release).s;
    }

    // A thread asleep in rt_sem_take runs again, after rt_schedule returned to it.
    method Continue(t: Tid) returns (r: Option<Err>)
      requires Valid() && t in s.calls && s.calls[t].status != Waiting
      modifies this`s
      ensures Valid() && Enabled(old(s), Return(t)) && s == Next(old(s), Return(t)).s && r == Next(old(s), Return(t)).result
    {
      hide Consistent, Inv;
      StepKeepsInv(s, Return(t));
      s := Next(s, Return(t)).s;
      if k.tcb[t].error != EOk {
        return Some(k.tcb[t].error);
      }
      return Some(EOk);
    }

    // rt_thread_timeout for a thread inside rt_sem_take whose timer is running
    method TimerFires(t: Tid)
      requires Valid() && t in s.calls && k.tcb[t].timerArmed
      modifies this`s, k
      ensures Valid() && Enabled(old(s), SemaphoreProtocol.Timeout(t)) && s == Next(old(s), SemaphoreProtocol.Timeout(t)).s
    {
      hide Consistent, Inv, HeadsBest, Remove;
      StepKeepsInv(s, SemaphoreProtocol.Timeout(t));
      CallsOkStep(k.tcb, s.calls, t, Kernels.Woken(k.tcb[t], ETimeout), Call(false, Failed(ETimeout)));
      k.Timeout(t);
      s := Next(s, SemaphoreProtocol.Timeout(t)).s;
    }

    // rt_sem_control with RT_IPC_CMD_RESET
    method ControlReset(value': nat)
      requires Valid()
      modifies this`value, this`s, k
      ensures Valid() && s == Next(old(s), Reset(value')).s
    {
      hide Consistent, Inv, CallsOk, FailAll, AllWoken, AllAppended;
      StepKeepsInv(s, Reset(value'));
      CallsOkAllWoken(k.tcb, s.calls, s.waiters);
      k.IpcResumeAll(queue);
      value := U16(value');
      s := Next(s, Reset(value')).s;
    }
  }

  lemma HeadInCall(tcb: map<Tid, Tcb>, s: State)
    requires Inv(s) && CallsOk(tcb, s.calls)
    ensures s.waiters != [] ==> var h := s.waiters[0];
              h in s.calls && h in tcb && s.calls[h].status == Waiting && tcb[h].error == EOk
  {
  }
}
