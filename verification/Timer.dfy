/** Timers as they are meant to work: one list, sorted by deadlines on a clock that never wraps. */
module TimerProtocol {
  import opened Kernels
  import opened Lists

  const HALF := 0x7fff_ffff            // RT_TICK_MAX / 2

  type TimerId = nat
  type Ticks = n: nat | n < HALF

  /** A timer: init_tick, the two flags, and when it was last started, as the how-manieth start, and when it is due. */
  datatype Rec = Rec(init: Ticks, active: bool, periodic: bool, due: nat, started: nat, stamp: nat)

  /** A call of a timeout function at tick `at`. */
  datatype Firing = Firing(t: TimerId, due: nat, started: nat, stamp: nat, at: nat)

  datatype State = State(
    now: nat,
    checking: bool,                    // the tick has advanced and rt_timer_check is running
    recs: map<TimerId, Rec>,
    list: seq<TimerId>,                // the timers started, in the order they will fire
    stamps: nat,                       // history: the number of starts
    log: seq<Firing>)                  // history: the timeout functions called

  /** What threads and timeout functions do with timers. */
  datatype Op = Start(t: TimerId) | Stop(t: TimerId) | SetTime(t: TimerId, ticks: Ticks) | SetPeriodic(t: TimerId, on: bool)

  function DueOf(recs: map<TimerId, Rec>, t: TimerId): nat {
    if t in recs then recs[t].due else 0
  }

  /** Stable insertion by deadline: behind the timers due at the same tick. */
  function Insert(recs: map<TimerId, Rec>, list: seq<TimerId>, t: TimerId): (r: seq<TimerId>)
    ensures |r| == |list| + 1 && forall u :: u in r <==> u == t || u in list
  {
    if list == [] || DueOf(recs, t) < DueOf(recs, list[0]) then [t] + list
    else
      assert forall u :: u in list <==> u == list[0] || u in list[1..];
      [list[0]] + Insert(recs, list[1..], t)
  }

  // rt_timer_start
  function DoStart(s: State, t: TimerId): State {
    if t !in s.recs then s
    else
      var r := s.recs[t];
      var recs := s.recs[t := r.(active := true, due := s.now + r.init, started := s.now, stamp := s.stamps)];
      s.(recs := recs, list := Insert(recs, Remove(s.list, t), t), stamps := s.stamps + 1)
  }

  // rt_timer_stop: a timer that is not activated is left where it is
  function DoStop(s: State, t: TimerId): State {
    if t !in s.recs || !s.recs[t].active then s
    else s.(list := Remove(s.list, t), recs := s.recs[t := s.recs[t].(active := false)])
  }

  function Do(s: State, op: Op): State {
    match op
    case Start(t) => DoStart(s, t)
    case Stop(t) => DoStop(s, t)
    case SetTime(t, ticks) => if t in s.recs then s.(recs := s.recs[t := s.recs[t].(init := ticks)]) else s
    case SetPeriodic(t, on) => if t in s.recs then s.(recs := s.recs[t := s.recs[t].(periodic := on)]) else s
  }

  function DoAll(s: State, ops: seq<Op>): State
    decreases |ops|
  {
    if ops == [] then s else DoAll(Do(s, ops[0]), ops[1..])
  }

  /** One turn of the loop of rt_timer_check: the first timer leaves the list, its timeout function does `ops`,
      and then it is started again if it is periodic and still activated. */
  function FireHead(s: State, ops: seq<Op>): State {
    if s.list == [] || s.list[0] !in s.recs then s
    else
      Concluded(DoAll(Popped(s), ops), s.list[0])
  }

  function Concluded(s: State, t: TimerId): State {
    if t !in s.recs then s
    else
      var stopped := s.(recs := s.recs[t := s.recs[t].(active := false)]);
      if s.recs[t].periodic && s.recs[t].active then DoStart(stopped, t) else stopped
  }

  function Popped(s: State): State
    requires s.list != [] && s.list[0] in s.recs
  {
    var r := s.recs[s.list[0]];
    s.(list := s.list[1..], log := s.log + [Firing(s.list[0], r.due, r.started, r.stamp, s.now)])
  }

  datatype Event =
    | Create(t: TimerId, init: Ticks, periodic: bool)   // rt_timer_init
    | Call(op: Op)                                      // a thread uses a timer
    | Tick                                              // rt_tick_increase, up to rt_timer_check
    | Fire(ops: seq<Op>)
    | EndCheck

  ghost predicate HeadDue(s: State) {
    s.list != [] && s.list[0] in s.recs && s.recs[s.list[0]].due <= s.now
  }

  ghost predicate Enabled(s: State, e: Event) {
    match e
    case Create(t, init, periodic) => t !in s.recs && !s.checking
    case Call(op) => !s.checking
    case Tick => !s.checking
    case Fire(ops) => s.checking && HeadDue(s)
    case EndCheck => s.checking && !HeadDue(s)
  }

  function Next(s: State, e: Event): State {
    match e
    case Create(t, init, periodic) => s.(recs := s.recs[t := Rec(init, false, periodic, 0, 0, 0)])
    case Call(op) => Do(s, op)
    case Tick => s.(now := s.now + 1, checking := true)
    case Fire(ops) => FireHead(s, ops)
    case EndCheck => s.(checking := false)
  }

  // Earlier deadline, or same deadline and started earlier.
  predicate Less(due: nat, stamp: nat, due': nat, stamp': nat) {
    due < due' || (due == due' && stamp < stamp')
  }

  ghost predicate SortedByKey(recs: map<TimerId, Rec>, list: seq<TimerId>) {
    && (forall t | t in list :: t in recs)
    && forall i, j | 0 <= i < j < |list| :: Less(recs[list[i]].due, recs[list[i]].stamp, recs[list[j]].due, recs[list[j]].stamp)
  }

  // A timer in the list was started in the past and is not due before now; one that is due has been started with
  // 0 ticks since the last check, unless the check is under way.
  ghost predicate PendingOk(s: State, r: Rec) {
    && r.stamp < s.stamps && r.started <= s.now && r.started <= r.due < r.started + HALF
    && if s.checking then r.due >= s.now || (r.due == r.started && r.due + 1 == s.now)
       else r.due > s.now || (r.due == r.started && r.due == s.now)
  }

  ghost predicate ListOk(s: State) {
    Distinct(s.list) && SortedByKey(s.recs, s.list) && forall t | t in s.list :: t in s.recs && PendingOk(s, s.recs[t])
  }

  // A timeout function runs at its timer's deadline, or at the next tick if it was started with 0 ticks.
  ghost predicate Punctual(f: Firing) {
    f.at == f.due || (f.due == f.started && f.at == f.due + 1)
  }

  ghost predicate LogOk(s: State) {
    && (forall f | f in s.log :: Punctual(f) && f.due <= f.at <= s.now && f.stamp < s.stamps)
    && (forall i, j | 0 <= i < j < |s.log| :: Less(s.log[i].due, s.log[i].stamp, s.log[j].due, s.log[j].stamp))
    && (forall f, t | f in s.log && t in s.list :: t in s.recs && Less(f.due, f.stamp, s.recs[t].due, s.recs[t].stamp))
  }

  // An activated timer is in the list, except for one whose timeout function is running.
  ghost predicate ActiveListed(s: State, except: set<TimerId>) {
    forall t | t in s.recs && s.recs[t].active && t !in except :: t in s.list
  }

  ghost predicate Inv(s: State) {
    ListOk(s) && LogOk(s) && ActiveListed(s, {})
  }

  ghost predicate Run(trace: seq<State>, events: seq<Event>) {
    && |trace| == |events| + 1
    && forall i | 0 <= i < |events| :: Enabled(trace[i], events[i]) && trace[i + 1] == Next(trace[i], events[i])
  }

  function Initial(now: nat): State {
    State(now, false, map[], [], 0, [])
  }

  // --- proofs ---

  lemma {:induction false} InsertSorted(recs: map<TimerId, Rec>, list: seq<TimerId>, t: TimerId)
    requires SortedByKey(recs, list) && Distinct(list) && t in recs && t !in list
    requires forall u | u in list :: recs[u].stamp < recs[t].stamp
    ensures SortedByKey(recs, Insert(recs, list, t)) && Distinct(Insert(recs, list, t))
  {
    if list != [] && !(recs[t].due < recs[list[0]].due) {
      assert forall u | u in list[1..] :: u in list;
      InsertSorted(recs, list[1..], t);
      var rest := Insert(recs, list[1..], t);
      forall u | u in rest
        ensures u != list[0] && Less(recs[list[0]].due, recs[list[0]].stamp, recs[u].due, recs[u].stamp)
      {
        if u != t {
          var i :| 0 <= i < |list| - 1 && list[1..][i] == u;
          assert list[i + 1] == u;
        }
      }
      assert forall i | 0 <= i < |rest| :: rest[i] in rest;
    }
  }

  lemma RemoveSorted(recs: map<TimerId, Rec>, list: seq<TimerId>, t: TimerId)
    requires SortedByKey(recs, list) && Distinct(list)
    ensures SortedByKey(recs, Remove(list, t)) && Distinct(Remove(list, t)) && t !in Remove(list, t)
  {
    hide Less, SortedByKey;
    RemoveDistinct(list, t);
    if t in list {
      var i :| 0 <= i < |list| && list[i] == t;
      RemoveAt(list, i);
      hide Remove, Distinct;
      DropSorted(recs, list, i);
    }
  }

  lemma DropSorted(recs: map<TimerId, Rec>, list: seq<TimerId>, i: nat)
    requires SortedByKey(recs, list) && i < |list|
    ensures SortedByKey(recs, list[..i] + list[i + 1..])
  {
    hide Less;
    var r := list[..i] + list[i + 1..];
    assert forall j | 0 <= j < |r| :: r[j] == list[if j < i then j else j + 1];
  }

  // The key of a timer outside the list does not matter to the list.
  lemma SortedFrame(recs: map<TimerId, Rec>, list: seq<TimerId>, t: TimerId, r: Rec)
    requires SortedByKey(recs, list) && (t in list ==> t in recs && r.due == recs[t].due && r.stamp == recs[t].stamp)
    ensures SortedByKey(recs[t := r], list)
  {
  }

  lemma StartKeeps(s: State, t: TimerId, except: set<TimerId>)
    requires ListOk(s) && LogOk(s) && ActiveListed(s, except) && t in s.recs
    ensures ListOk(DoStart(s, t)) && LogOk(DoStart(s, t)) && ActiveListed(DoStart(s, t), except - {t})
  {
    hide Remove, Insert;
    var rest := Remove(s.list, t);
    var s' := DoStart(s, t);
    RemoveSorted(s.recs, s.list, t);
    SortedFrame(s.recs, rest, t, s'.recs[t]);
    InsertSorted(s'.recs, rest, t);
    hide SortedByKey, Distinct;
    forall u | u in s'.list
      ensures u in s'.recs && PendingOk(s', s'.recs[u])
    {
    }
  }

  lemma StopKeeps(s: State, t: TimerId, except: set<TimerId>)
    requires ListOk(s) && LogOk(s) && ActiveListed(s, except)
    ensures ListOk(DoStop(s, t)) && LogOk(DoStop(s, t)) && ActiveListed(DoStop(s, t), except)
  {
    if t in s.recs && s.recs[t].active {
      RemoveSorted(s.recs, s.list, t);
      SortedFrame(s.recs, Remove(s.list, t), t, s.recs[t].(active := false));
    }
  }

  // A change of a timer's settings that leaves its place alone.
  lemma TouchKeeps(s: State, t: TimerId, r: Rec, except: set<TimerId>)
    requires ListOk(s) && LogOk(s) && ActiveListed(s, except) && t in s.recs
    requires r.due == s.recs[t].due && r.started == s.recs[t].started && r.stamp == s.recs[t].stamp
    requires r.active ==> s.recs[t].active
    ensures var s' := s.(recs := s.recs[t := r]);
            ListOk(s') && LogOk(s') && ActiveListed(s', except) && (!r.active ==> ActiveListed(s', except - {t}))
  {
    SortedFrame(s.recs, s.list, t, r);
  }

  lemma DoKeeps(s: State, op: Op, except: set<TimerId>)
    requires ListOk(s) && LogOk(s) && ActiveListed(s, except)
    ensures var s' := Do(s, op);
            ListOk(s') && LogOk(s') && ActiveListed(s', except) && s'.recs.Keys == s.recs.Keys
  {
    hide ListOk, LogOk;
    match op
    case Start(t) =>
      if t in s.recs {
        StartKeeps(s, t, except);
      }
    case Stop(t) => StopKeeps(s, t, except);
    case SetTime(t, ticks) =>
      if t in s.recs {
        TouchKeeps(s, t, s.recs[t].(init := ticks), except);
      }
    case SetPeriodic(t, on) =>
      if t in s.recs {
        TouchKeeps(s, t, s.recs[t].(periodic := on), except);
      }
  }

  lemma {:induction false} DoAllKeeps(s: State, ops: seq<Op>, except: set<TimerId>)
    requires ListOk(s) && LogOk(s) && ActiveListed(s, except)
    ensures var s' := DoAll(s, ops);
            ListOk(s') && LogOk(s') && ActiveListed(s', except) && s'.recs.Keys == s.recs.Keys
    decreases |ops|
  {
    hide ListOk, LogOk, ActiveListed;
    if ops != [] {
      DoKeeps(s, ops[0], except);
      DoAllKeeps(Do(s, ops[0]), ops[1..], except);
    }
  }

  lemma PopKeeps(s: State)
    requires Inv(s) && s.checking && HeadDue(s)
    ensures ListOk(Popped(s)) && LogOk(Popped(s)) && ActiveListed(Popped(s), {s.list[0]})
  {
    PopKeepsList(s);
    PopKeepsLog(s);
    assert s.list == [s.list[0]] + s.list[1..];
  }

  // The head is before the others.
  lemma HeadFirst(s: State)
    requires ListOk(s) && s.list != []
    ensures s.list[0] in s.recs
    ensures forall t | t in s.list[1..] ::
      t in s.recs && Less(s.recs[s.list[0]].due, s.recs[s.list[0]].stamp, s.recs[t].due, s.recs[t].stamp)
  {
    hide Less, PendingOk, Distinct;
    forall t | t in s.list[1..]
      ensures t in s.recs && Less(s.recs[s.list[0]].due, s.recs[s.list[0]].stamp, s.recs[t].due, s.recs[t].stamp)
    {
      var i :| 0 <= i < |s.list| - 1 && s.list[1..][i] == t;
      assert s.list[i + 1] == t;
    }
  }

  lemma PopKeepsList(s: State)
    requires ListOk(s) && HeadDue(s)
    ensures ListOk(Popped(s))
  {
    hide Less;
    DistinctTail(s.list);
    assert forall t | t in s.list[1..] :: t in s.list;
  }

  lemma PopKeepsLog(s: State)
    requires ListOk(s) && LogOk(s) && s.checking && HeadDue(s)
    ensures LogOk(Popped(s))
  {
    HeadFirst(s);
    assert s.list[0] in s.list;
    hide SortedByKey, Distinct;
  }

  lemma FireKeepsInv(s: State, ops: seq<Op>)
    requires Inv(s) && s.checking && HeadDue(s)
    ensures Inv(FireHead(s, ops))
  {
    hide ListOk, LogOk, ActiveListed, DoAll, DoStart;
    var t := s.list[0];
    PopKeeps(s);
    DoAllKeeps(Popped(s), ops, {t});
    var s' := DoAll(Popped(s), ops);
    TouchKeeps(s', t, s'.recs[t].(active := false), {t});
    var stopped := s'.(recs := s'.recs[t := s'.recs[t].(active := false)]);
    assert {t} - {t} == {};
    StartKeeps(stopped, t, {});
    assert {} - {t} == {};
  }

  lemma EndKeepsInv(s: State)
    requires Inv(s) && Enabled(s, EndCheck)
    ensures Inv(Next(s, EndCheck))
  {
    forall t | t in s.list
      ensures s.recs[t].due > s.now
    {
      var i :| 0 <= i < |s.list| && s.list[i] == t;
      assert s.list[0] in s.list;
    }
  }

  lemma CreateKeepsInv(s: State, t: TimerId, init: Ticks, periodic: bool)
    requires Inv(s) && t !in s.recs
    ensures Inv(Next(s, Create(t, init, periodic)))
  {
    SortedFrame(s.recs, s.list, t, Rec(init, false, periodic, 0, 0, 0));
  }

  lemma TickKeepsInv(s: State)
    requires Inv(s) && !s.checking
    ensures Inv(Next(s, Tick))
  {
  }

  lemma StepKeepsInv(s: State, e: Event)
    requires Inv(s) && Enabled(s, e)
    ensures Inv(Next(s, e))
  {
    hide ListOk, LogOk, ActiveListed, FireHead;
    match e
    case Create(t, init, periodic) => CreateKeepsInv(s, t, init, periodic);
    case Call(op) => DoKeeps(s, op, {});
    case Tick => TickKeepsInv(s);
    case Fire(ops) => FireKeepsInv(s, ops);
    case EndCheck => EndKeepsInv(s);
  }

  lemma {:induction false} RunsKeepInv(now: nat, trace: seq<State>, events: seq<Event>, n: nat)
    requires Run(trace, events) && trace[0] == Initial(now) && n < |trace|
    ensures Inv(trace[n])
  {
    if n > 0 {
      RunsKeepInv(now, trace, events, n - 1);
      StepKeepsInv(trace[n - 1], events[n - 1]);
    }
  }

  /** Over every run, whatever threads and timeout functions do with timers: timeout functions run exactly at their
      deadlines, in order of deadlines and, for equal deadlines, in order of starts, at most once per start;
      and after each check no deadline is left behind. */
  lemma FiresOnTimeInOrder(now: nat, trace: seq<State>, events: seq<Event>, n: nat)
    requires Run(trace, events) && trace[0] == Initial(now) && n < |trace|
    ensures var s := trace[n];
      && (forall f | f in s.log :: f.at == f.due || (f.due == f.started && f.at == f.due + 1))
      && (forall i, j | 0 <= i < j < |s.log| ::
            s.log[i].due < s.log[j].due || (s.log[i].due == s.log[j].due && s.log[i].stamp < s.log[j].stamp))
      && (!s.checking ==> forall t | t in s.recs && s.recs[t].active ::
            t in s.list && (s.recs[t].due > s.now || (s.recs[t].due == s.recs[t].started == s.now)))
  {
    RunsKeepInv(now, trace, events, n);
    hide SortedByKey, Distinct;
  }

  // --- periodic timers ---

  predicate Concerns(op: Op, t: TimerId) {
    op.t == t
  }

  ghost predicate LeavesAlone(e: Event, t: TimerId) {
    match e
    case Call(op) => !Concerns(op, t)
    case Fire(ops) => forall op | op in ops :: !Concerns(op, t)
    case _ => true
  }

  lemma {:induction false} DoAllLeavesAlone(s: State, ops: seq<Op>, t: TimerId)
    requires t in s.recs && forall op | op in ops :: !Concerns(op, t)
    ensures var s' := DoAll(s, ops);
      t in s'.recs && s'.recs[t] == s.recs[t] && s'.now == s.now && s'.log == s.log && s'.checking == s.checking
    decreases |ops|
  {
    if ops != [] {
      assert !Concerns(ops[0], t);
      assert forall op | op in ops[1..] :: op in ops;
      DoAllLeavesAlone(Do(s, ops[0]), ops[1..], t);
    }
  }

  lemma {:induction false} DoAllLog(s: State, ops: seq<Op>)
    ensures DoAll(s, ops).log == s.log && DoAll(s, ops).now == s.now && DoAll(s, ops).checking == s.checking
    ensures DoAll(s, ops).recs.Keys == s.recs.Keys
    decreases |ops|
  {
    if ops != [] {
      DoAllLog(Do(s, ops[0]), ops[1..]);
    }
  }

  function Firings(log: seq<Firing>, t: TimerId): nat {
    if log == [] then 0 else Firings(log[..|log| - 1], t) + if log[|log| - 1].t == t then 1 else 0
  }

  ghost predicate Ticking(s: State, t: TimerId) {
    t in s.recs && s.recs[t].periodic && s.recs[t].active && s.recs[t].init >= 1
  }

  lemma PeriodicStep(s: State, e: Event, t: TimerId)
    requires Inv(s) && Enabled(s, e) && Ticking(s, t) && LeavesAlone(e, t)
    requires s.recs[t].due > s.recs[t].started
    ensures var s' := Next(s, e);
      && Ticking(s', t) && s'.recs[t].init == s.recs[t].init && s'.recs[t].due > s'.recs[t].started
      && Firings(s'.log, t) >= Firings(s.log, t)
      && s'.recs[t].due == s.recs[t].due + s.recs[t].init * (Firings(s'.log, t) - Firings(s.log, t))
  {
    hide Inv, FireHead, Firings, Do, HeadDue;
    match e
    case Create(u, init, periodic) =>
    case Call(op) => DoLeavesAlone(s, op, t);
    case Tick =>
    case Fire(ops) => PeriodicFire(s, ops, t);
    case EndCheck =>
  }

  lemma DoLeavesAlone(s: State, op: Op, t: TimerId)
    requires t in s.recs && !Concerns(op, t)
    ensures var s' := Do(s, op);
      t in s'.recs && s'.recs[t] == s.recs[t] && s'.now == s.now && s'.log == s.log && s'.checking == s.checking
  {
  }

  lemma Telescope(init: int, a: int, b: int, c: int)
    ensures init * (b - a) + init * (c - b) == init * (c - a)
  {
  }

  lemma PeriodicFire(s: State, ops: seq<Op>, t: TimerId)
    requires Inv(s) && s.checking && HeadDue(s) && Ticking(s, t) && forall op | op in ops :: !Concerns(op, t)
    requires s.recs[t].due > s.recs[t].started
    ensures var s' := FireHead(s, ops);
      && Ticking(s', t) && s'.recs[t].init == s.recs[t].init && s'.recs[t].due > s'.recs[t].started
      && (if s.list[0] == t then Firings(s'.log, t) == Firings(s.log, t) + 1 && s'.recs[t].due == s.recs[t].due + s.recs[t].init
          else Firings(s'.log, t) == Firings(s.log, t) && s'.recs[t].due == s.recs[t].due)
  {
    hide Distinct, SortedByKey, LogOk, Insert, Remove;
    DoAllLeavesAlone(Popped(s), ops, t);
    DoAllLog(Popped(s), ops);
    assert s.list[0] in s.list;
    assert Popped(s).log[..|s.log|] == s.log;
  }

  /** A periodic timer that nobody touches recurs every init_tick, without drift. */
  lemma {:induction false} PeriodicRecurs(now: nat, trace: seq<State>, events: seq<Event>, i: nat, j: nat, t: TimerId)
    requires Run(trace, events) && trace[0] == Initial(now) && i <= j < |trace|
    requires Ticking(trace[i], t) && trace[i].recs[t].due > trace[i].recs[t].started
    requires forall n | i <= n < j :: LeavesAlone(events[n], t)
    ensures Ticking(trace[j], t) && trace[j].recs[t].init == trace[i].recs[t].init
    ensures trace[j].recs[t].due > trace[j].recs[t].started
    ensures trace[j].recs[t].due == trace[i].recs[t].due + trace[i].recs[t].init * (Firings(trace[j].log, t) - Firings(trace[i].log, t))
  {
    hide Next, Enabled, Inv, Firings, LeavesAlone;
    if i < j {
      PeriodicRecurs(now, trace, events, i, j - 1, t);
      RunsKeepInv(now, trace, events, j - 1);
      PeriodicStep(trace[j - 1], events[j - 1], t);
      Telescope(trace[i].recs[t].init, Firings(trace[i].log, t), Firings(trace[j - 1].log, t), Firings(trace[j].log, t));
    }
  }

  // --- what a call does, and what comes of it ---

  lemma {:induction false} RemoveInserted(recs: map<TimerId, Rec>, list: seq<TimerId>, t: TimerId)
    requires t !in list
    ensures Remove(Insert(recs, list, t), t) == list
  {
    if list == [] || DueOf(recs, t) < DueOf(recs, list[0]) {
      assert ([t] + list)[1..] == list;
    } else {
      RemoveInserted(recs, list[1..], t);
      var r := Insert(recs, list[1..], t);
      assert ([list[0]] + r)[1..] == r;
      assert list == [list[0]] + list[1..];
    }
  }

  /** A start makes a timer due init_tick from now, whether it was running or not; a stop takes an activated one out; the controls
      change one setting, and neither when nor whether the timer fires next. Other timers keep their settings and their order. */
  lemma OpLaws(s: State, op: Op)
    requires Inv(s) && op.t in s.recs
    ensures var s', r := Do(s, op), s.recs[op.t];
      && s'.now == s.now && s'.checking == s.checking && s'.log == s.log && s'.recs.Keys == s.recs.Keys
      && (forall u | u in s.recs && u != op.t :: s'.recs[u] == s.recs[u])
      && Remove(s'.list, op.t) == Remove(s.list, op.t)
      && s'.recs[op.t].init == (if op.SetTime? then op.ticks else r.init)
      && s'.recs[op.t].periodic == (if op.SetPeriodic? then op.on else r.periodic)
      && (op.Start? ==> op.t in s'.list && s'.recs[op.t].active && s'.recs[op.t].due == s.now + r.init)
      && (op.Stop? ==> !s'.recs[op.t].active && (r.active ==> op.t !in s'.list) && (!r.active ==> s' == s))
      && (op.SetTime? || op.SetPeriodic? ==> s'.list == s.list && s'.recs[op.t].due == r.due && s'.recs[op.t].active == r.active)
  {
    hide LogOk, SortedByKey, PendingOk;
    RemoveDistinct(s.list, op.t);
    hide Distinct;
    if op.Start? {
      RemoveInserted(Do(s, op).recs, Remove(s.list, op.t), op.t);
    }
  }

  // From place k of the log on, t has not fired; it is due at d, having been started at tick `start`.
  ghost predicate Pending(s: State, t: TimerId, start: nat, d: nat, k: nat) {
    && t in s.recs && s.recs[t].active && s.recs[t].due == d && s.recs[t].started == start
    && start <= s.now && (s.checking ==> start < s.now)
    && k <= |s.log| && forall i | k <= i < |s.log| :: s.log[i].t != t
  }

  // Place i of the log is the first from place k on that is a firing of t.
  ghost predicate FirstFiring(log: seq<Firing>, k: nat, i: nat, t: TimerId) {
    k <= i < |log| && log[i].t == t && forall j | k <= j < i :: log[j].t != t
  }

  ghost predicate Fired(s: State, t: TimerId, start: nat, d: nat, k: nat) {
    exists i: nat :: FirstFiring(s.log, k, i, t) && s.log[i].due == d && s.log[i].started == start && start < s.log[i].at
  }

  lemma LogGrows(s: State, e: Event)
    requires Enabled(s, e)
    ensures s.log <= Next(s, e).log
  {
    hide Insert, Remove;
    if e.Fire? {
      DoAllLog(Popped(s), e.ops);
    }
  }

  lemma PendingStep(s: State, e: Event, t: TimerId, start: nat, d: nat, k: nat)
    requires Inv(s) && Enabled(s, e) && LeavesAlone(e, t) && Pending(s, t, start, d, k)
    ensures Pending(Next(s, e), t, start, d, k) || Fired(Next(s, e), t, start, d, k)
  {
    hide Inv, FireHead, Do, Firings, FirstFiring;
    match e
    case Create(u, init, periodic) =>
    case Call(op) => DoLeavesAlone(s, op, t);
    case Tick =>
    case Fire(ops) => PendingFire(s, ops, t, start, d, k);
    case EndCheck =>
  }

  lemma PendingFire(s: State, ops: seq<Op>, t: TimerId, start: nat, d: nat, k: nat)
    requires s.checking && HeadDue(s) && Pending(s, t, start, d, k) && forall op | op in ops :: !Concerns(op, t)
    ensures Pending(FireHead(s, ops), t, start, d, k) || Fired(FireHead(s, ops), t, start, d, k)
  {
    hide Insert, Remove;
    DoAllLeavesAlone(Popped(s), ops, t);
    DoAllLog(Popped(s), ops);
    var s' := FireHead(s, ops);
    assert s'.log == Popped(s).log;
    if s.list[0] == t {
      assert FirstFiring(s'.log, k, |s.log|, t);
    }
  }

  lemma FiredStep(s: State, e: Event, t: TimerId, start: nat, d: nat, k: nat)
    requires Enabled(s, e) && Fired(s, t, start, d, k)
    ensures Fired(Next(s, e), t, start, d, k)
  {
    hide Enabled, Next;
    LogGrows(s, e);
    var i: nat :| FirstFiring(s.log, k, i, t) && s.log[i].due == d && s.log[i].started == start && start < s.log[i].at;
    assert FirstFiring(Next(s, e).log, k, i, t);
  }

  lemma {:induction false} PendingOrFired(now: nat, trace: seq<State>, events: seq<Event>, i: nat, j: nat, t: TimerId)
    requires Run(trace, events) && trace[0] == Initial(now) && i < j < |trace|
    requires events[i] == Call(Start(t)) && t in trace[i].recs && forall n | i < n < j :: LeavesAlone(events[n], t)
    ensures var s := trace[i]; var d := s.now + s.recs[t].init;
      Pending(trace[j], t, s.now, d, |s.log|) || Fired(trace[j], t, s.now, d, |s.log|)
    decreases j
  {
    var s := trace[i];
    var d := s.now + s.recs[t].init;
    if i + 1 < j {
      hide Next, Enabled, Inv, LeavesAlone, Pending, Fired;
      PendingOrFired(now, trace, events, i, j - 1, t);
      RunsKeepInv(now, trace, events, j - 1);
      if Pending(trace[j - 1], t, s.now, d, |s.log|) {
        PendingStep(trace[j - 1], events[j - 1], t, s.now, d, |s.log|);
      } else {
        FiredStep(trace[j - 1], events[j - 1], t, s.now, d, |s.log|);
      }
    }
  }

  /** Over every run: a timer that is started, and that nobody touches after that, fires init_tick ticks later, or at the next
      tick if init_tick is 0, and not before. */
  lemma FiresAfter(now: nat, trace: seq<State>, events: seq<Event>, i: nat, j: nat, t: TimerId)
    requires Run(trace, events) && trace[0] == Initial(now) && i < j < |trace| && !trace[j].checking
    requires events[i] == Call(Start(t)) && t in trace[i].recs && forall n | i < n < j :: LeavesAlone(events[n], t)
    ensures var from, init, log := |trace[i].log|, trace[i].recs[t].init, trace[j].log;
      var at := trace[i].now + if init == 0 then 1 else init;
      && from <= |log|
      && if trace[j].now < at then forall m | from <= m < |log| :: log[m].t != t
         else exists m: nat :: FirstFiring(log, from, m, t) && log[m].at == at
  {
    var s := trace[i];
    var d := s.now + s.recs[t].init;
    PendingOrFired(now, trace, events, i, j, t);
    RunsKeepInv(now, trace, events, j);
    hide SortedByKey, Distinct, Run, LeavesAlone;
    if !Pending(trace[j], t, s.now, d, |s.log|) {
      var log := trace[j].log;
      var m: nat :| FirstFiring(log, |s.log|, m, t) && log[m].due == d && log[m].started == s.now && s.now < log[m].at;
      assert log[m] in log && Punctual(log[m]) && log[m].at <= trace[j].now;
    }
  }

  lemma {:induction false} NotConcerned(ops: seq<Op>, t: TimerId, before: bool)
    requires forall op | op in ops :: !Concerns(op, t)
    ensures LastIsStart(ops, t, before) == before
    decreases |ops|
  {
    if ops != [] {
      assert ops[0] in ops && forall op | op in ops[1..] :: op in ops;
      NotConcerned(ops[1..], t, before);
    }
  }

  lemma QuietStep(s: State, e: Event, t: TimerId)
    requires Inv(s) && Enabled(s, e) && LeavesAlone(e, t) && t in s.recs && t !in s.list
    ensures var s' := Next(s, e);
      && t in s'.recs && t !in s'.list && |s.log| <= |s'.log| && forall m | |s.log| <= m < |s'.log| :: s'.log[m].t != t
  {
    hide LogOk, SortedByKey, PendingOk;
    match e
    case Create(u, init, periodic) =>
    case Call(op) =>
      DoLeavesAlone(s, op, t);
      RemoveDistinct(s.list, op.t);
    case Tick =>
    case Fire(ops) => QuietFire(s, ops, t);
    case EndCheck =>
  }

  lemma QuietFire(s: State, ops: seq<Op>, t: TimerId)
    requires Inv(s) && s.checking && HeadDue(s) && (forall op | op in ops :: !Concerns(op, t)) && t in s.recs && t !in s.list
    ensures var s' := FireHead(s, ops); t in s'.recs && t !in s'.list && s'.log == Popped(s).log && s.list[0] != t
  {
    hide ListOk, LogOk, ActiveListed, LastIsStart;
    var p := Popped(s);
    PopKeeps(s);
    DoAllLeavesAlone(p, ops, t);
    DoAllLog(p, ops);
    DoAllKeeps(p, ops, {s.list[0]});
    DoAllListed(p, ops, t);
    NotConcerned(ops, t, false);
  }

  /** Over every run: a timer that is not in the list, as after a stop of an activated one, does not fire until it is started. */
  lemma {:induction false} StaysStopped(now: nat, trace: seq<State>, events: seq<Event>, i: nat, j: nat, t: TimerId)
    requires Run(trace, events) && trace[0] == Initial(now) && i <= j < |trace|
    requires t in trace[i].recs && t !in trace[i].list && forall n | i <= n < j :: LeavesAlone(events[n], t)
    ensures t in trace[j].recs && t !in trace[j].list && |trace[i].log| <= |trace[j].log|
    ensures forall m | |trace[i].log| <= m < |trace[j].log| :: trace[j].log[m].t != t
    decreases j
  {
    hide Next, Enabled, Inv, LeavesAlone;
    if i < j {
      StaysStopped(now, trace, events, i, j - 1, t);
      RunsKeepInv(now, trace, events, j - 1);
      QuietStep(trace[j - 1], events[j - 1], t);
      StepLog(trace, events, j - 1);
    }
  }

  lemma StepLog(trace: seq<State>, events: seq<Event>, n: nat)
    requires Run(trace, events) && n < |events|
    ensures trace[n].log <= trace[n + 1].log
  {
    LogGrows(trace[n], events[n]);
  }

  // --- a one-shot timer restarted by its own timeout function ---

  // Whether the last of the operations that start or stop t starts it, and what the last change of its mode leaves.
  predicate LastIsStart(ops: seq<Op>, t: TimerId, before: bool)
    decreases |ops|
  {
    if ops == [] then before
    else LastIsStart(ops[1..], t, if ops[0] == Start(t) then true else if ops[0] == Stop(t) then false else before)
  }

  predicate EndsPeriodic(ops: seq<Op>, t: TimerId, before: bool)
    decreases |ops|
  {
    if ops == [] then before
    else EndsPeriodic(ops[1..], t, if ops[0].SetPeriodic? && ops[0].t == t then ops[0].on else before)
  }

  lemma DoListed(s: State, op: Op, t: TimerId)
    requires ListOk(s) && t in s.recs && (t in s.list ==> s.recs[t].active)
    ensures var s' := Do(s, op);
      && t in s'.recs && (t in s'.list ==> s'.recs[t].active)
      && (t in s'.list <==> if op == Start(t) then true else if op == Stop(t) then false else t in s.list)
      && s'.recs[t].periodic == if op.SetPeriodic? && op.t == t then op.on else s.recs[t].periodic
  {
    RemoveDistinct(s.list, t);
  }

  lemma {:induction false} DoAllListed(s: State, ops: seq<Op>, t: TimerId)
    requires ListOk(s) && LogOk(s) && t in s.recs && (t in s.list ==> s.recs[t].active)
    ensures var s' := DoAll(s, ops);
      && t in s'.recs && (t in s'.list ==> s'.recs[t].active)
      && (t in s'.list <==> LastIsStart(ops, t, t in s.list))
      && s'.recs[t].periodic == EndsPeriodic(ops, t, s.recs[t].periodic)
    decreases |ops|
  {
    hide ListOk, LogOk, Do;
    if ops != [] {
      DoListed(s, ops[0], t);
      DoKeeps(s, ops[0], s.recs.Keys);
      DoAllListed(Do(s, ops[0]), ops[1..], t);
    }
  }

  /** After its timeout function, a timer is left in the list with its flag cleared exactly when that function
      restarted it and it is a one-shot timer; it will fire again, but rt_timer_stop no longer takes it out. */
  lemma SelfRestart(s: State, ops: seq<Op>)
    requires Inv(s) && s.checking && HeadDue(s)
    ensures var t := s.list[0]; var s' := FireHead(s, ops);
      && t in s'.recs
      && ((t in s'.list && !s'.recs[t].active) <==>
            LastIsStart(ops, t, false) && !EndsPeriodic(ops, t, s.recs[t].periodic))
      && (t in s'.list && !s'.recs[t].active ==> DoStop(s', t) == s')
  {
    hide ListOk, LogOk, ActiveListed, DoAll, LastIsStart, EndsPeriodic;
    PopKeeps(s);
    PopNotListed(s);
    DoAllListed(Popped(s), ops, s.list[0]);
  }

  /** For example: a timer of 1 tick is started, restarts itself when it fires, and rt_timer_stop then leaves it running. */
  lemma RestartedNotStopped() returns (trace: seq<State>, events: seq<Event>)
    ensures Run(trace, events) && trace[0] == Initial(0) && |trace| == 7
    ensures events[5] == Call(Stop(0)) && trace[5].list == trace[6].list == [0] && 0 in trace[6].recs && !trace[6].recs[0].active
  {
    var log := [Firing(0, 1, 0, 0, 1)];
    events := [Create(0, 1, false), Call(Start(0)), Tick, Fire([Start(0)]), EndCheck, Call(Stop(0))];
    trace := [Initial(0),
              State(0, false, map[0 := Rec(1, false, false, 0, 0, 0)], [], 0, []),
              State(0, false, map[0 := Rec(1, true, false, 1, 0, 0)], [0], 1, []),
              State(1, true, map[0 := Rec(1, true, false, 1, 0, 0)], [0], 1, []),
              State(1, true, map[0 := Rec(1, false, false, 2, 1, 1)], [0], 2, log),
              State(1, false, map[0 := Rec(1, false, false, 2, 1, 1)], [0], 2, log),
              State(1, false, map[0 := Rec(1, false, false, 2, 1, 1)], [0], 2, log)];
    FiresAlone(trace[3], trace[4]);
  }

  lemma FiresAlone(s: State, s': State)
    requires s == State(1, true, map[0 := Rec(1, true, false, 1, 0, 0)], [0], 1, [])
    requires s' == State(1, true, map[0 := Rec(1, false, false, 2, 1, 1)], [0], 2, [Firing(0, 1, 0, 0, 1)])
    ensures FireHead(s, [Start(0)]) == s'
  {
    var p := Popped(s);
    assert p == State(1, true, s.recs, [], 1, s'.log);
    assert DoAll(p, [Start(0)]) == DoAll(DoStart(p, 0), []);
    assert DoStart(p, 0) == State(1, true, map[0 := Rec(1, true, false, 2, 1, 1)], [0], 2, s'.log);
  }

  lemma PopNotListed(s: State)
    requires ListOk(s) && HeadDue(s)
    ensures s.list[0] !in Popped(s).list && Popped(s).recs == s.recs
  {
    DistinctTail(s.list);
  }

  // --- termination of the check ---

  // An operation that starts no timer of 0 ticks, and makes no timer periodic with 0 ticks.
  predicate CalmOp(recs: map<TimerId, Rec>, op: Op) {
    match op
    case Start(t) => t in recs ==> recs[t].init >= 1
    case Stop(t) => true
    case SetTime(t, ticks) => ticks >= 1
    case SetPeriodic(t, on) => on && t in recs ==> recs[t].init >= 1
  }

  // Each operation, in the state it finds.
  predicate CalmAll(s: State, ops: seq<Op>)
    decreases |ops|
  {
    ops == [] || (CalmOp(s.recs, ops[0]) && CalmAll(Do(s, ops[0]), ops[1..]))
  }

  ghost predicate NoNewZero(recs: map<TimerId, Rec>, recs': map<TimerId, Rec>) {
    recs'.Keys == recs.Keys && forall t | t in recs && recs[t].init >= 1 :: recs'[t].init >= 1
  }

  ghost function DueTimers(s: State): set<TimerId> {
    set t | t in s.list && DueOf(s.recs, t) <= s.now
  }

  // The activated periodic timers of 0 ticks.
  ghost function Zeros(recs: map<TimerId, Rec>): set<TimerId> {
    set t | t in recs && recs[t].periodic && recs[t].active && recs[t].init == 0
  }

  /** Those that are due: rt_timer_check starts them again as soon as it has fired them. */
  ghost function StuckTimers(s: State): set<TimerId> {
    DueTimers(s) * Zeros(s.recs)
  }

  // What calm operations, and restarting a timer that is not of 0 ticks, do to the timers that are due or of 0 ticks.
  ghost predicate Calmer(s: State, s': State) {
    DueTimers(s') <= DueTimers(s) && Zeros(s'.recs) <= Zeros(s.recs) && NoNewZero(s.recs, s'.recs)
  }

  lemma StartIsLater(s: State, t: TimerId)
    requires ListOk(s) && t in s.recs && s.recs[t].init >= 1
    ensures DueTimers(DoStart(s, t)) <= DueTimers(s) - {t} && Calmer(s, DoStart(s, t))
  {
    hide Insert, Remove, SortedByKey;
  }

  lemma CalmDo(s: State, op: Op)
    requires ListOk(s) && CalmOp(s.recs, op)
    ensures Calmer(s, Do(s, op))
  {
    hide ListOk, Insert, Remove;
    if op.Start? && op.t in s.recs {
      StartIsLater(s, op.t);
    }
  }

  lemma {:induction false} CalmDoAll(s: State, ops: seq<Op>)
    requires ListOk(s) && LogOk(s) && CalmAll(s, ops)
    ensures Calmer(s, DoAll(s, ops))
    decreases |ops|
  {
    hide ListOk, LogOk, Do, DueTimers, Zeros, CalmOp;
    if ops != [] {
      CalmDo(s, ops[0]);
      DoKeeps(s, ops[0], s.recs.Keys);
      CalmDoAll(Do(s, ops[0]), ops[1..]);
    }
  }

  /** Each timer fired is one due timer less, unless it is periodic and of 0 ticks. */
  lemma FireDecreases(s: State, ops: seq<Op>)
    requires Inv(s) && s.checking && HeadDue(s) && s.list[0] !in Zeros(s.recs) && CalmAll(Popped(s), ops)
    ensures var s' := FireHead(s, ops); DueTimers(s') < DueTimers(s) && Calmer(s, s') && s'.checking
  {
    hide ListOk, LogOk, DoAll, DueTimers, CalmAll, DoStart;
    var t := s.list[0];
    var p := Popped(s);
    PopKeeps(s);
    PopDecreases(s);
    CalmDoAll(p, ops);
    DoAllKeeps(p, ops, {t});
    DoAllLog(p, ops);
    RestartCalm(DoAll(p, ops), t);
  }

  lemma PopDecreases(s: State)
    requires Inv(s) && HeadDue(s)
    ensures DueTimers(Popped(s)) == DueTimers(s) - {s.list[0]} && s.list[0] in DueTimers(s)
  {
    hide LogOk, SortedByKey;
    DistinctTail(s.list);
    hide Distinct;
    assert s.list == [s.list[0]] + s.list[1..];
  }

  lemma RestartCalm(s: State, t: TimerId)
    requires ListOk(s) && LogOk(s) && t in s.recs && t !in Zeros(s.recs)
    ensures Calmer(s, Concluded(s, t)) && Concluded(s, t).checking == s.checking
  {
    hide LogOk, SortedByKey, Distinct, Insert, Remove;
    var stopped := s.(recs := s.recs[t := s.recs[t].(active := false)]);
    TouchKeeps(s, t, s.recs[t].(active := false), s.recs.Keys);
    assert DueTimers(stopped) == DueTimers(s);
    if s.recs[t].periodic && s.recs[t].active {
      StartIsLater(stopped, t);
    }
  }

  /** The state after n turns of the loop of rt_timer_check, if the i-th timeout function called does script(i). */
  function Turns(s: State, script: nat -> seq<Op>, n: nat): State {
    if n == 0 then s else FireHead(Turns(s, script, n - 1), script(n - 1))
  }

  ghost predicate Ends(s: State, script: nat -> seq<Op>) {
    exists n: nat :: !HeadDue(Turns(s, script, n))
  }

  /** The loop takes n turns at least. */
  ghost predicate Reached(s: State, script: nat -> seq<Op>, n: nat) {
    forall i: nat | i < n :: HeadDue(Turns(s, script, i))
  }

  /** From its n-th turn on, timeout functions start no timers of 0 ticks. */
  ghost predicate CalmFrom(s: State, script: nat -> seq<Op>, n: nat) {
    forall i: nat | n <= i && Reached(s, script, i + 1) :: CalmAll(Popped(Turns(s, script, i)), script(i))
  }

  lemma {:induction false} TurnsKeepInv(s: State, script: nat -> seq<Op>, n: nat)
    requires Inv(s) && s.checking && Reached(s, script, n)
    ensures Inv(Turns(s, script, n)) && Turns(s, script, n).checking
  {
    hide Inv, FireHead, HeadDue;
    if n > 0 {
      TurnsKeepInv(s, script, n - 1);
      FireKeepsInv(Turns(s, script, n - 1), script(n - 1));
      FireChecking(Turns(s, script, n - 1), script(n - 1));
    }
  }

  lemma FireChecking(s: State, ops: seq<Op>)
    requires HeadDue(s)
    ensures FireHead(s, ops).checking == s.checking && FireHead(s, ops).recs.Keys == s.recs.Keys
  {
    DoAllLog(Popped(s), ops);
  }

  // With no timer stuck, a calm turn leaves fewer due timers and again none stuck.
  lemma FreeTurn(s: State, ops: seq<Op>)
    requires Inv(s) && s.checking && HeadDue(s) && StuckTimers(s) == {} && CalmAll(Popped(s), ops)
    ensures DueTimers(FireHead(s, ops)) < DueTimers(s) && StuckTimers(FireHead(s, ops)) == {}
  {
    hide FireHead, CalmAll, ListOk, LogOk;
    PopDecreases(s);
    assert s.list[0] !in StuckTimers(s);
    FireDecreases(s, ops);
  }

  lemma EndsFrom(s: State, script: nat -> seq<Op>, n: nat)
    requires Inv(s) && s.checking && Reached(s, script, n) && StuckTimers(Turns(s, script, n)) == {} && CalmFrom(s, script, n)
    ensures Ends(s, script)
  {
    hide Inv, CalmAll, HeadDue, FireHead, DueTimers, StuckTimers, Reached, CalmFrom;
    var i, p := n, Turns(s, script, n);
    while HeadDue(p)
      invariant n <= i && p == Turns(s, script, i) && Reached(s, script, i) && StuckTimers(p) == {}
      decreases DueTimers(p)
    {
      TurnsKeepInv(s, script, i);
      CalmTurnAt(s, script, n, i);
      FreeTurn(p, script(i));
      i, p := i + 1, FireHead(p, script(i));
    }
  }

  lemma CalmTurnAt(s: State, script: nat -> seq<Op>, n: nat, i: nat)
    requires CalmFrom(s, script, n) && n <= i && Reached(s, script, i) && HeadDue(Turns(s, script, i))
    ensures Reached(s, script, i + 1) && CalmAll(Popped(Turns(s, script, i)), script(i))
  {
    hide CalmAll, HeadDue, FireHead;
    assert Reached(s, script, i + 1);
  }

  /** Whatever timeout functions do: a check ends if and only if it comes to a turn at which no activated periodic timer of
      0 ticks is due, and from which on no timer of 0 ticks is started. */
  lemma EndsExactly(s: State, script: nat -> seq<Op>)
    requires Inv(s) && s.checking
    ensures Ends(s, script) <==>
      exists n: nat :: Reached(s, script, n) && StuckTimers(Turns(s, script, n)) == {} && CalmFrom(s, script, n)
  {
    hide Inv, CalmAll, HeadDue, FireHead, StuckTimers;
    if Ends(s, script) {
      var last: nat :| !HeadDue(Turns(s, script, last));
      var n := 0;
      while HeadDue(Turns(s, script, n))
        invariant n <= last && Reached(s, script, n)
        decreases last - n
      {
        n := n + 1;
      }
      TurnsKeepInv(s, script, n);
      NoneDue(Turns(s, script, n));
      assert CalmFrom(s, script, n);
    }
    if n: nat :| Reached(s, script, n) && StuckTimers(Turns(s, script, n)) == {} && CalmFrom(s, script, n) {
      EndsFrom(s, script, n);
    }
  }

  lemma NoneDue(s: State)
    requires Inv(s) && !HeadDue(s)
    ensures DueTimers(s) == {} && StuckTimers(s) == {}
  {
    forall t | t in s.list
      ensures s.recs[t].due > s.now
    {
      var i :| 0 <= i < |s.list| && s.list[i] == t;
      assert s.list[0] in s.list;
    }
  }

  // An activated periodic timer of 0 ticks is due while the check is under way.
  ghost predicate Stuck(s: State, t: TimerId) {
    && Inv(s) && s.checking && t in s.list && t in s.recs && s.recs[t].due <= s.now
    && s.recs[t].periodic && s.recs[t].active && s.recs[t].init == 0
  }

  lemma StuckIsDue(s: State, t: TimerId)
    requires Stuck(s, t)
    ensures HeadDue(s)
  {
    var i :| 0 <= i < |s.list| && s.list[i] == t;
    assert s.list[0] in s.list;
  }

  lemma StuckTurn(s: State, ops: seq<Op>, t: TimerId)
    requires Stuck(s, t) && HeadDue(s) && forall op | op in ops :: !Concerns(op, t)
    ensures Stuck(FireHead(s, ops), t)
  {
    hide ListOk, LogOk, DoAll, Insert, Remove;
    FireKeepsInv(s, ops);
    DoAllLeavesAlone(Popped(s), ops, t);
    DoAllLog(Popped(s), ops);
  }

  lemma {:induction false} StuckTurns(s: State, script: nat -> seq<Op>, t: TimerId, n: nat)
    requires Stuck(s, t) && forall i: nat, op | op in script(i) :: !Concerns(op, t)
    ensures Stuck(Turns(s, script, n), t)
  {
    hide Stuck, FireHead;
    if n > 0 {
      StuckTurns(s, script, t, n - 1);
      StuckIsDue(Turns(s, script, n - 1), t);
      StuckTurn(Turns(s, script, n - 1), script(n - 1), t);
    }
  }

  /** A check never ends once an activated periodic timer of 0 ticks is due, unless a timeout function does something about
      that timer. */
  lemma ZeroNeverEnds(s: State, script: nat -> seq<Op>, t: TimerId)
    requires Inv(s) && s.checking && t in s.list && s.recs[t].due <= s.now
    requires s.recs[t].periodic && s.recs[t].active && s.recs[t].init == 0
    requires forall i: nat, op | op in script(i) :: !Concerns(op, t)
    ensures !Ends(s, script)
  {
    forall n: nat
      ensures HeadDue(Turns(s, script, n))
    {
      StuckTurns(s, script, t, n);
      StuckIsDue(Turns(s, script, n), t);
    }
  }

  lemma CalmOps(recs: map<TimerId, Rec>, recs': map<TimerId, Rec>, ops: seq<Op>)
    requires NoNewZero(recs, recs') && forall op | op in ops :: CalmOp(recs, op)
    ensures forall op | op in ops :: CalmOp(recs', op)
  {
  }

  lemma {:induction false} CalmEach(s: State, ops: seq<Op>)
    requires ListOk(s) && LogOk(s) && forall op | op in ops :: CalmOp(s.recs, op)
    ensures CalmAll(s, ops)
    decreases |ops|
  {
    hide ListOk, LogOk, Do, CalmOp;
    if ops != [] {
      CalmDo(s, ops[0]);
      DoKeeps(s, ops[0], s.recs.Keys);
      assert forall op | op in ops[1..] :: op in ops;
      CalmOps(s.recs, Do(s, ops[0]).recs, ops[1..]);
      CalmEach(Do(s, ops[0]), ops[1..]);
    }
  }

  /** For timeout functions that start only timers of at least 1 tick, set none to 0 and leave the stuck ones alone: a check
      ends if and only if no activated periodic timer of 0 ticks is due when it begins. */
  lemma EndsUnlessStuck(s: State, script: nat -> seq<Op>)
    requires Inv(s) && s.checking && forall i: nat, op | op in script(i) :: CalmOp(s.recs, op)
    requires forall t, i: nat, op | t in StuckTimers(s) && op in script(i) :: !Concerns(op, t)
    ensures Ends(s, script) <==>
      forall t | t in s.list && s.recs[t].due <= s.now :: !(s.recs[t].periodic && s.recs[t].active && s.recs[t].init == 0)
  {
    if t :| t in StuckTimers(s) {
      ZeroNeverEnds(s, script, t);
    } else {
      assert forall t | t in s.list && s.recs[t].due <= s.now :: t in DueTimers(s) && t !in StuckTimers(s);
      CalmEnds(s, script);
    }
  }

  /** A check ends if no activated periodic timer of 0 ticks is due and no timeout function starts a timer of 0 ticks. */
  lemma CalmEnds(s: State, script: nat -> seq<Op>)
    requires Inv(s) && s.checking && StuckTimers(s) == {} && forall i: nat, op | op in script(i) :: CalmOp(s.recs, op)
    ensures Ends(s, script)
  {
    hide Inv, CalmOp, HeadDue, FireHead, DueTimers, Zeros, CalmAll, StuckTimers;
    var n, p := 0, s;
    while HeadDue(p)
      invariant p == Turns(s, script, n) && Inv(p) && p.checking && StuckTimers(p) == {} && NoNewZero(s.recs, p.recs)
      decreases DueTimers(p)
    {
      CalmTurn(s, p, script(n));
      n, p := n + 1, FireHead(p, script(n));
    }
  }

  lemma CalmTurn(s: State, p: State, ops: seq<Op>)
    requires NoNewZero(s.recs, p.recs) && forall op | op in ops :: CalmOp(s.recs, op)
    requires Inv(p) && p.checking && HeadDue(p) && StuckTimers(p) == {}
    ensures var p' := FireHead(p, ops);
      && Inv(p') && p'.checking && StuckTimers(p') == {} && NoNewZero(s.recs, p'.recs) && DueTimers(p') < DueTimers(p)
  {
    hide ListOk, LogOk, CalmOp, FireHead, CalmAll;
    CalmOps(s.recs, p.recs, ops);
    PopKeeps(p);
    CalmEach(Popped(p), ops);
    PopDecreases(p);
    assert p.list[0] !in StuckTimers(p);
    FireDecreases(p, ops);
    FireKeepsInv(p, ops);
  }

  /** Such a state is reached: a periodic timer of 0 ticks is created and started, and the tick advances. */
  lemma ZeroTimerSticks() returns (trace: seq<State>, events: seq<Event>)
    ensures Run(trace, events) && trace[0] == Initial(0) && events == [Create(0, 0, true), Call(Start(0)), Tick]
    ensures StuckTimers(trace[3]) == {0}
    ensures forall script: nat -> seq<Op> | (forall i: nat, op | op in script(i) :: !Concerns(op, 0)) :: !Ends(trace[3], script)
  {
    events := [Create(0, 0, true), Call(Start(0)), Tick];
    trace := [Initial(0),
              State(0, false, map[0 := Rec(0, false, true, 0, 0, 0)], [], 0, []),
              State(0, false, map[0 := Rec(0, true, true, 0, 0, 0)], [0], 1, []),
              State(1, true, map[0 := Rec(0, true, true, 0, 0, 0)], [0], 1, [])];
    RunsKeepInv(0, trace, events, 3);
    forall script: nat -> seq<Op> | (forall i: nat, op | op in script(i) :: !Concerns(op, 0))
      ensures !Ends(trace[3], script)
    {
      ZeroNeverEnds(trace[3], script, 0);
    }
  }
}

/** The timer list itself: rows of a skip list over 32-bit ticks. */
module Timers {
  import opened Kernels
  import opened Lists
  import opened Words
  import opened TimerProtocol

  const TICK_MAX := 0xffff_ffff        // RT_TICK_MAX

  /** struct rt_timer; its rows are the lists below. */
  datatype Timer = Timer(initTick: Ticks, timeoutTick: nat, activated: bool, periodic: bool)

  // The comparison of rt_timer_start: a listed timer fires strictly after the new one.
  predicate After(listed: nat, started: nat) {
    var d := U32(listed - started);
    d != 0 && d < HALF
  }

  // The comparison of rt_timer_check.
  predicate Expired(current: nat, timeout: nat) {
    U32(current - timeout) < HALF
  }

  /** On wrapped ticks, the comparison orders deadlines that are not too far apart as the unbounded clock does. */
  lemma AfterIsLater(listed: nat, started: nat)
    requires -0x8000_0001 <= listed - started < HALF
    ensures After(U32(listed), U32(started)) <==> listed > started
  {
    U32Sub(U32(listed), started);
    assert U32(U32(listed) - started) == U32(listed - started) by { var x: int := started; U32Add(listed, -x); }
    assert U32(listed - started) == if listed >= started then listed - started else listed - started + W32;
  }

  lemma ExpiredIsDue(now: nat, due: nat)
    requires -HALF < now - due < HALF
    ensures Expired(U32(now), U32(due)) <==> due <= now
  {
    U32Sub(U32(now), due);
    assert U32(U32(now) - due) == U32(now - due) by { var x: int := due; U32Add(now, -x); }
    assert U32(now - due) == if now >= due then now - due else now - due + W32;
  }

  /** a is b with some elements left out. */
  predicate Subsequence(a: seq<TimerId>, b: seq<TimerId>)
    decreases |b|
  {
    a == [] || (b != [] && if a[0] == b[0] then Subsequence(a[1..], b[1..]) else Subsequence(a, b[1..]))
  }

  lemma {:induction false} SubsequenceMembers(a: seq<TimerId>, b: seq<TimerId>, t: TimerId)
    requires Subsequence(a, b) && t in a
    ensures t in b
    decreases |b|
  {
    if a[0] == b[0] {
      if t != a[0] {
        assert t in a[1..];
        SubsequenceMembers(a[1..], b[1..], t);
      }
    } else {
      SubsequenceMembers(a, b[1..], t);
    }
  }

  // Deadlines never get earlier along the list.
  ghost predicate SortedByDue(recs: map<TimerId, Rec>, list: seq<TimerId>) {
    forall i, j | 0 <= i < j < |list| :: DueOf(recs, list[i]) <= DueOf(recs, list[j])
  }

  lemma {:induction false} SubsequenceSorted(recs: map<TimerId, Rec>, a: seq<TimerId>, b: seq<TimerId>)
    requires Subsequence(a, b) && SortedByDue(recs, b)
    ensures SortedByDue(recs, a)
    decreases |b|
  {
    if a != [] {
      if a[0] == b[0] {
        SubsequenceSorted(recs, a[1..], b[1..]);
        forall j | 0 < j < |a|
          ensures DueOf(recs, a[0]) <= DueOf(recs, a[j])
        {
          assert a[1..][j - 1] == a[j];
          SubsequenceMembers(a[1..], b[1..], a[j]);
          var i :| 0 <= i < |b| - 1 && b[1..][i] == a[j];
          assert b[i + 1] == a[j];
        }
        assert forall i, j | 0 < i < j < |a| :: a[i] == a[1..][i - 1] && a[j] == a[1..][j - 1];
      } else {
        SubsequenceSorted(recs, a, b[1..]);
      }
    }
  }

  lemma {:induction false} InsertSubsequence(recs: map<TimerId, Rec>, a: seq<TimerId>, b: seq<TimerId>, t: TimerId)
    requires Subsequence(a, b) && SortedByDue(recs, b) && t !in b
    ensures Subsequence(Insert(recs, a, t), Insert(recs, b, t))
    ensures Subsequence(a, Insert(recs, b, t))
    decreases |b|
  {
    if a != [] {
      SubsequenceMembers(a, b, a[0]);
    }
    if b == [] {
    } else if DueOf(recs, t) < DueOf(recs, b[0]) {
      assert a != [] ==> DueOf(recs, t) < DueOf(recs, a[0]);
      assert ([t] + b)[1..] == b && ([t] + a)[1..] == a;
    } else {
      var rest := Insert(recs, b[1..], t);
      assert Insert(recs, b, t)[1..] == rest;
      assert forall u | u in b[1..] :: u in b;
      if a != [] && a[0] == b[0] {
        InsertSubsequence(recs, a[1..], b[1..], t);
        assert Insert(recs, a, t)[1..] == Insert(recs, a[1..], t);
      } else {
        InsertSubsequence(recs, a, b[1..], t);
        assert Insert(recs, a, t)[0] == t || (a != [] && Insert(recs, a, t)[0] == a[0]);
      }
    }
  }

  lemma {:induction false} RemoveSubsequence(a: seq<TimerId>, b: seq<TimerId>, t: TimerId)
    requires Subsequence(a, b) && Distinct(b)
    ensures Subsequence(Remove(a, t), Remove(b, t))
    decreases |b|
  {
    if a != [] {
      DistinctTail(b);
      if a[0] == b[0] {
        RemoveSubsequence(a[1..], b[1..], t);
      } else {
        RemoveSubsequence(a, b[1..], t);
        if b[0] in a {
          SubsequenceMembers(a, b[1..], b[0]);
        }
        if b[0] != t {
          HeadOfRemove(a, t, b);
        }
      }
    }
  }

  lemma HeadOfRemove(a: seq<TimerId>, t: TimerId, b: seq<TimerId>)
    requires a != [] && b != [] && b[0] !in a && b[0] != t && Subsequence(Remove(a, t), Remove(b[1..], t))
    ensures Subsequence(Remove(a, t), Remove(b, t))
  {
    assert Remove(b, t) == [b[0]] + Remove(b[1..], t);
    assert Remove(b, t)[1..] == Remove(b[1..], t);
    if Remove(a, t) != [] {
      assert Remove(a, t)[0] in a;
    }
  }

  // The place where Insert puts the timer, wherever it is found from.
  lemma {:induction false} InsertPlace(recs: map<TimerId, Rec>, list: seq<TimerId>, t: TimerId, n: nat)
    requires n <= |list| && (forall i | 0 <= i < n :: DueOf(recs, list[i]) <= DueOf(recs, t))
    requires n < |list| ==> DueOf(recs, t) < DueOf(recs, list[n])
    ensures Insert(recs, list, t) == InsertAt(list, n, t)
  {
    hide InsertAt;
    if n > 0 {
      InsertPlace(recs, list[1..], t, n - 1);
    }
    PlaceInTail(list, t, n);
  }

  lemma PlaceInTail(list: seq<TimerId>, t: TimerId, n: nat)
    requires n <= |list|
    ensures InsertAt(list, n, t) == if n == 0 then [t] + list else [list[0]] + InsertAt(list[1..], n - 1, t)
  {
    if n > 0 {
      var tail := list[1..];
      assert list[..n] == [list[0]] + tail[..n - 1] && list[n..] == tail[n - 1..];
    }
  }

  // Each row is a subsequence of the one below; the last one holds every timer.
  ghost predicate RowsOk(rows: seq<seq<TimerId>>, list: seq<TimerId>) {
    && rows != [] && rows[|rows| - 1] == list
    && forall i | 0 <= i < |rows| - 1 :: Subsequence(rows[i], rows[i + 1])
  }

  lemma {:induction false} RowInList(rows: seq<seq<TimerId>>, list: seq<TimerId>, recs: map<TimerId, Rec>, i: nat)
    requires RowsOk(rows, list) && i < |rows| && SortedByDue(recs, list)
    ensures SortedByDue(recs, rows[i]) && forall t | t in rows[i] :: t in list
    decreases |rows| - i
  {
    if i < |rows| - 1 {
      RowInList(rows, list, recs, i + 1);
      SubsequenceSorted(recs, rows[i], rows[i + 1]);
      forall t | t in rows[i]
        ensures t in list
      {
        SubsequenceMembers(rows[i], rows[i + 1], t);
      }
    }
  }

  lemma {:induction false} RowDistinct(a: seq<TimerId>, b: seq<TimerId>)
    requires Subsequence(a, b) && Distinct(b)
    ensures Distinct(a)
    decreases |b|
  {
    if a != [] {
      DistinctTail(b);
      if a[0] == b[0] {
        RowDistinct(a[1..], b[1..]);
        if a[0] in a[1..] {
          SubsequenceMembers(a[1..], b[1..], a[0]);
        }
        assert a == [a[0]] + a[1..];
      } else {
        RowDistinct(a, b[1..]);
      }
    }
  }

  function Delinked(rows: seq<seq<TimerId>>, t: TimerId): (r: seq<seq<TimerId>>)
    ensures |r| == |rows|
  {
    seq(|rows|, i requires 0 <= i < |rows| => Remove(rows[i], t))
  }

  lemma {:induction false} RowsDistinct(rows: seq<seq<TimerId>>, list: seq<TimerId>, i: nat)
    requires RowsOk(rows, list) && Distinct(list) && i < |rows|
    ensures Distinct(rows[i])
    decreases |rows| - i
  {
    if i < |rows| - 1 {
      RowsDistinct(rows, list, i + 1);
      RowDistinct(rows[i], rows[i + 1]);
    }
  }

  lemma UnlinkRows(rows: seq<seq<TimerId>>, list: seq<TimerId>, t: TimerId)
    requires RowsOk(rows, list) && Distinct(list)
    ensures RowsOk(Delinked(rows, t), Remove(list, t))
  {
    forall i | 0 <= i < |rows| - 1
      ensures Subsequence(Remove(rows[i], t), Remove(rows[i + 1], t))
    {
      RowsDistinct(rows, list, i + 1);
      RemoveSubsequence(rows[i], rows[i + 1], t);
    }
  }

  // The timer linked into the lowest `height` rows.
  ghost function Raised(recs: map<TimerId, Rec>, rows: seq<seq<TimerId>>, t: TimerId, height: nat): (r: seq<seq<TimerId>>)
    ensures |r| == |rows|
  {
    seq(|rows|, i requires 0 <= i < |rows| => if i + height >= |rows| then Insert(recs, rows[i], t) else rows[i])
  }

  /** A timer of any height, put into each of its rows at its place, keeps every row a sorted subsequence of the next. */
  lemma RaiseRows(recs: map<TimerId, Rec>, rows: seq<seq<TimerId>>, list: seq<TimerId>, t: TimerId, height: nat)
    requires RowsOk(rows, list) && SortedByDue(recs, list) && t !in list && 1 <= height <= |rows|
    ensures RowsOk(Raised(recs, rows, t, height), Insert(recs, list, t))
  {
    var r := Raised(recs, rows, t, height);
    forall i | 0 <= i < |rows| - 1
      ensures Subsequence(r[i], r[i + 1])
    {
      RowInList(rows, list, recs, i + 1);
      InsertSubsequence(recs, rows[i], rows[i + 1], t);
    }
  }

  // The concrete records agree with the timers as they are meant to be.
  ghost predicate TimersOk(timers: map<TimerId, Timer>, recs: map<TimerId, Rec>, list: seq<TimerId>) {
    && timers.Keys == recs.Keys
    && (forall t | t in timers :: timers[t].initTick == recs[t].init && timers[t].periodic == recs[t].periodic
                                  && timers[t].activated == recs[t].active)
    && forall t | t in list :: t in timers && timers[t].timeoutTick == U32(recs[t].due)
  }

  lemma ConfiguredOk(timers: map<TimerId, Timer>, s: State, op: Op, timer: Timer)
    requires TimersOk(timers, s.recs, s.list) && op.t in timers
    requires (op.SetTime? && timer == timers[op.t].(initTick := op.ticks))
          || (op.SetPeriodic? && timer == timers[op.t].(periodic := op.on))
    ensures var s' := Do(s, op); TimersOk(timers[op.t := timer], s'.recs, s'.list) && s'.list == s.list && s'.now == s.now
  {
  }

  lemma AllExcept(s: State)
    ensures ActiveListed(s, s.recs.Keys)
  {
  }

  // The wrapped comparison with t tells, for every listed timer, whether it is due later.
  ghost predicate Comparable(timers: map<TimerId, Timer>, recs: map<TimerId, Rec>, list: seq<TimerId>, t: TimerId) {
    && t in timers
    && (forall u | u in list ::
          u in timers && (After(timers[u].timeoutTick, timers[t].timeoutTick) <==> DueOf(recs, t) < DueOf(recs, u)))
  }

  lemma PendingAfter(s: State, r: Rec, init: Ticks)
    requires PendingOk(s, r)
    ensures After(U32(r.due), U32(s.now + init)) <==> s.now + init < r.due
  {
    AfterIsLater(r.due, s.now + init);
  }

  lemma StartComparable(s: State, timers: map<TimerId, Timer>, t: TimerId)
    requires ListOk(s) && TimersOk(timers, s.recs, s.list) && t in s.recs
    ensures var x := timers[t].(activated := false, timeoutTick := U32(U32(s.now) + timers[t].initTick));
            Comparable(timers[t := x], DoStart(s, t).recs, Remove(s.list, t), t)
  {
    hide ListOk, TimersOk, Insert, After, U32, PendingOk, Remove;
    U32Add(s.now, s.recs[t].init);
    ListedTimers(s, timers, t);
    TimerKnown(s, timers, t);
    var due := s.now + s.recs[t].init;
    assert DueOf(DoStart(s, t).recs, t) == due;
    forall u | u in Remove(s.list, t)
      ensures u in timers && (After(timers[u].timeoutTick, U32(due)) <==> due < DueOf(DoStart(s, t).recs, u))
    {
      PendingAfter(s, s.recs[u], s.recs[t].init);
    }
  }

  lemma ListedTimers(s: State, timers: map<TimerId, Timer>, t: TimerId)
    requires ListOk(s) && TimersOk(timers, s.recs, s.list)
    ensures forall u | u in Remove(s.list, t) ::
      u != t && u in timers && u in s.recs && timers[u].timeoutTick == U32(s.recs[u].due) && PendingOk(s, s.recs[u])
  {
    RemoveDistinct(s.list, t);
  }

  lemma TimerKnown(s: State, timers: map<TimerId, Timer>, t: TimerId)
    requires TimersOk(timers, s.recs, s.list) && t in s.recs
    ensures t in timers && timers[t].initTick == s.recs[t].init
  {
  }

  lemma StartSorted(s: State, t: TimerId)
    requires ListOk(s) && t in s.recs
    ensures SortedByDue(DoStart(s, t).recs, Remove(s.list, t)) && t !in Remove(s.list, t) && Distinct(s.list)
    ensures DoStart(s, t).list == Insert(DoStart(s, t).recs, Remove(s.list, t), t)
  {
    hide Insert;
    RemoveSorted(s.recs, s.list, t);
    SortedFrame(s.recs, Remove(s.list, t), t, DoStart(s, t).recs[t]);
    hide Remove, Distinct;
  }

  lemma StartTimers(s: State, timers: map<TimerId, Timer>, t: TimerId)
    requires ListOk(s) && TimersOk(timers, s.recs, s.list) && t in s.recs
    ensures var x := timers[t].(activated := true, timeoutTick := U32(U32(s.now) + timers[t].initTick));
            TimersOk(timers[t := x], DoStart(s, t).recs, DoStart(s, t).list)
  {
    hide U32, SortedByKey, Insert, Remove, Distinct;
    U32Add(s.now, s.recs[t].init);
  }

  // How many rows above the last one the counter gives a timer: two bits of it for each.
  function ExtraRows(test: nat, room: nat): (n: nat)
    ensures n <= room
  {
    if room == 0 || test % 4 != 0 then 0 else 1 + ExtraRows(test / 4, room - 1)
  }

  // A place in a row behind everything due no later, and before everything due later.
  ghost predicate PlaceIn(recs: map<TimerId, Rec>, row: seq<TimerId>, t: TimerId, n: nat) {
    && n <= |row| && (forall i | 0 <= i < n :: DueOf(recs, row[i]) <= DueOf(recs, t))
    && (n < |row| ==> DueOf(recs, t) < DueOf(recs, row[n]))
  }

  // One row down: everything up to the timer reached so far is due no later.
  lemma StepDown(recs: map<TimerId, Rec>, row: seq<TimerId>, below: seq<TimerId>, t: TimerId, n: nat)
    requires Subsequence(row, below) && SortedByDue(recs, below) && PlaceIn(recs, row, t, n) && n > 0
    ensures row[n - 1] in below
    ensures forall i | 0 <= i <= IndexOf(below, row[n - 1]) :: DueOf(recs, below[i]) <= DueOf(recs, t)
  {
    SubsequenceMembers(row, below, row[n - 1]);
  }

  class TimerList {
    const levels: nat                  // RT_TIMER_SKIP_LIST_LEVEL
    var rows: seq<seq<TimerId>>        // rt_timer_list
    var timers: map<TimerId, Timer>
    var tick: nat                      // rt_tick
    var randomNr: nat                  // random_nr
    ghost var s: State

    // What holds also while a timeout function is running.
    ghost predicate Good()
      reads this
    {
      && |rows| == levels && RowsOk(rows, s.list) && TimersOk(timers, s.recs, s.list)
      && tick == U32(s.now) && ListOk(s) && LogOk(s)
    }

    ghost predicate Valid()
      reads this
    {
      Good() && Inv(s)
    }

    // rt_system_timer_init
    constructor (levels: nat, now: nat)
      requires levels >= 1
      ensures Valid() && s == Initial(now) && this.levels == levels
    {
      this.levels := levels;
      rows, timers, tick, randomNr := seq(levels, _ => []), map[], U32(now), 0;
      s := Initial(now);
    }

    // rt_timer_init
    method TimerInit(t: TimerId, init: Ticks, periodic: bool)
      requires Valid() && t !in timers && !s.checking
      modifies this`timers, this`s
      ensures Valid() && Enabled(old(s), Create(t, init, periodic)) && s == Next(old(s), Create(t, init, periodic))
    {
      hide Inv, RowsOk;
      StepKeepsInv(s, Create(t, init, periodic));
      InvLists(Next(s, Create(t, init, periodic)));
      timers := timers[t := Timer(init, 0, false, periodic)];
      s := Next(s, Create(t, init, periodic));
    }

    // _rt_timer_remove
    method Unlink(t: TimerId)
      modifies this`rows
      ensures rows == Delinked(old(rows), t)
    {
      var i := 0;
      while i < |rows|
        invariant i <= |rows| == |old(rows)|
        invariant forall j | 0 <= j < i :: rows[j] == Remove(old(rows)[j], t)
        invariant forall j | i <= j < |rows| :: rows[j] == old(rows)[j]
      {
        rows := rows[i := Remove(rows[i], t)];
        i := i + 1;
      }
    }

    // The inner loop of the search in rt_timer_start: along one row, as long as the timers there fire no later.
    method Walk(row: seq<TimerId>, start: nat, t: TimerId, ghost recs: map<TimerId, Rec>) returns (n: nat)
      requires start <= |row| && Comparable(timers, recs, row, t)
      requires forall i | 0 <= i < start :: DueOf(recs, row[i]) <= DueOf(recs, t)
      ensures PlaceIn(recs, row, t, n)
    {
      n := start;
      while n < |row| && !After(timers[row[n]].timeoutTick, timers[t].timeoutTick)
        invariant n <= |row| && forall i | 0 <= i < n :: DueOf(recs, row[i]) <= DueOf(recs, t)
      {
        n := n + 1;
      }
    }

    // The search of rt_timer_start, row by row from the top; each starts below where the one above ended.
    method FindHeads(t: TimerId, ghost recs: map<TimerId, Rec>, ghost list: seq<TimerId>) returns (heads: seq<nat>)
      requires RowsOk(rows, list) && SortedByDue(recs, list) && Comparable(timers, recs, list, t)
      ensures |heads| == |rows| && forall i | 0 <= i < |rows| :: PlaceIn(recs, rows[i], t, heads[i])
    {
      hide PlaceIn, SortedByDue, After;
      heads := [];
      var n: nat := 0;
      while |heads| < |rows|
        invariant |heads| <= |rows|
        invariant forall i | 0 <= i < |heads| :: PlaceIn(recs, rows[i], t, heads[i])
        invariant |heads| < |rows| ==> n <= |rows[|heads|]|
        invariant |heads| < |rows| ==> forall i | 0 <= i < n :: DueOf(recs, rows[|heads|][i]) <= DueOf(recs, t)
        decreases |rows| - |heads|
      {
        var row := rows[|heads|];
        RowInList(rows, list, recs, |heads|);
        n := Walk(row, n, t, recs);
        heads := heads + [n];
        if |heads| < |rows| {
          RowInList(rows, list, recs, |heads|);
          PlaceBound(recs, row, t, n);
          if n > 0 {
            StepDown(recs, row, rows[|heads|], t, n);
            n := IndexOf(rows[|heads|], row[n - 1]) + 1;
          }
        }
      }
    }

    // The end of rt_timer_start: link into the last row, and upwards for as long as the counter says.
    method Link(t: TimerId, heads: seq<nat>, ghost recs: map<TimerId, Rec>) returns (ghost height: nat)
      requires 1 <= levels == |rows| == |heads| && forall i | 0 <= i < |rows| :: PlaceIn(recs, rows[i], t, heads[i])
      modifies this`rows, this`randomNr
      ensures randomNr == U32(old(randomNr) + 1) && height == 1 + ExtraRows(randomNr, levels - 1)
      ensures rows == Raised(recs, old(rows), t, height)
    {
      hide PlaceIn, Insert, InsertAt, DueOf;
      randomNr := U32(randomNr + 1);
      var test := randomNr;
      PlaceIsInsert(recs, rows[levels - 1], t, heads[levels - 1]);
      rows := rows[levels - 1 := InsertAt(rows[levels - 1], heads[levels - 1], t)];
      height := 1;
      var level := 2;
      while level <= levels && test % 4 == 0
        invariant 2 <= level <= levels + 1 && height == level - 1 && |rows| == levels
        invariant randomNr == U32(old(randomNr) + 1)
        invariant ExtraRows(randomNr, levels - 1) == height - 1 + ExtraRows(test, levels - height)
        invariant forall i | 0 <= i < levels ::
          rows[i] == if i + height >= levels then Insert(recs, old(rows)[i], t) else old(rows)[i]
      {
        PlaceIsInsert(recs, rows[levels - level], t, heads[levels - level]);
        rows := rows[levels - level := InsertAt(rows[levels - level], heads[levels - level], t)];
        test := test / 4;
        level := level + 1;
        height := height + 1;
      }
      assert rows == Raised(recs, old(rows), t, height);
    }

    // The second critical section of rt_timer_start.
    method Place(t: TimerId, ghost recs: map<TimerId, Rec>, ghost list: seq<TimerId>)
      requires 1 <= levels == |rows| && RowsOk(rows, list) && SortedByDue(recs, list) && Comparable(timers, recs, list, t)
      requires t !in list
      modifies this`rows, this`randomNr
      ensures |rows| == levels && RowsOk(rows, Insert(recs, list, t))
    {
      hide RowsOk, SortedByDue, Comparable, PlaceIn, Insert;
      var heads := FindHeads(t, recs, list);
      ghost var before := rows;
      ghost var height := Link(t, heads, recs);
      RaiseRows(recs, before, list, t, height);
    }

    // rt_timer_start
    method StartTimer(t: TimerId)
      requires Good() && t in timers
      modifies this`rows, this`timers, this`randomNr, this`s
      ensures Good() && s == DoStart(old(s), t)
    {
      hide ListOk, LogOk, RowsOk, SortedByDue, Comparable, PlaceIn, Insert, Remove, Distinct, DoStart;
      ghost var s' := DoStart(s, t);
      ghost var rest := Remove(s.list, t);
      StartKeeps(s, t, s.recs.Keys);
      StartSorted(s, t);
      StartComparable(s, timers, t);
      StartTimers(s, timers, t);
      StartTime(s, t);
      UnlinkRows(rows, s.list, t);
      Unlink(t);
      timers := timers[t := timers[t].(activated := false)];
      timers := timers[t := timers[t].(timeoutTick := U32(tick + timers[t].initTick))];
      assert timers == old(timers)[t := timers[t]];
      Place(t, s'.recs, rest);
      timers := timers[t := timers[t].(activated := true)];
      assert timers == old(timers)[t := timers[t]];
      s := s';
    }

    // rt_timer_stop
    method StopTimer(t: TimerId) returns (r: Err)
      requires Good() && t in timers
      modifies this`rows, this`timers, this`s
      ensures Good() && s == DoStop(old(s), t) && r == if old(timers)[t].activated then EOk else EError
    {
      hide ListOk, LogOk, RowsOk, Remove;
      if !timers[t].activated {
        return EError;
      }
      StopKeeps(s, t, s.recs.Keys);
      ListedOnce(s);
      UnlinkRows(rows, s.list, t);
      Unlink(t);
      timers := timers[t := timers[t].(activated := false)];
      s := DoStop(s, t);
      return EOk;
    }

    // rt_timer_control
    method Perform(op: Op)
      requires Good() && op.t in timers
      modifies this`rows, this`timers, this`randomNr, this`s
      ensures Good() && s == Do(old(s), op)
    {
      hide ListOk, LogOk, RowsOk, DoStart, DoStop;
      DoKeeps(s, op, s.recs.Keys);
      match op
      case Start(t) => StartTimer(t);
      case Stop(t) => var r := StopTimer(t);
      case SetTime(t, ticks) => Configure(t, timers[t].(initTick := ticks), op);
      case SetPeriodic(t, on) => Configure(t, timers[t].(periodic := on), op);
    }

    // rt_timer_control, for a setting that leaves the list alone
    method Configure(t: TimerId, timer: Timer, ghost op: Op)
      requires Good() && t in timers && op.t == t
      requires (op.SetTime? && timer == timers[t].(initTick := op.ticks)) || (op.SetPeriodic? && timer == timers[t].(periodic := op.on))
      modifies this`timers, this`s
      ensures Good() && s == Do(old(s), op)
    {
      hide ListOk, LogOk, RowsOk, ActiveListed, TimersOk, Do;
      ConfiguredOk(timers, s, op, timer);
      AllExcept(s);
      DoKeeps(s, op, s.recs.Keys);
      timers := timers[t := timer];
      s := Do(s, op);
    }

    // What a thread does with a timer, between checks.
    method Use(op: Op)
      requires Valid() && op.t in timers && !s.checking
      modifies this`rows, this`timers, this`randomNr, this`s
      ensures Valid() && Enabled(old(s), Call(op)) && s == Next(old(s), Call(op))
    {
      hide ListOk, LogOk, RowsOk, Inv;
      StepKeepsInv(s, Call(op));
      Perform(op);
    }

    // t->timeout_func(t->parameter): whatever it does with timers
    method Callback(ops: seq<Op>)
      requires Good() && forall op | op in ops :: op.t in timers
      modifies this`rows, this`timers, this`randomNr, this`s
      ensures Good() && s == DoAll(old(s), ops)
    {
      hide ListOk, LogOk, RowsOk, Do;
      ghost var s0 := s;
      var i := 0;
      assert ops[0..] == ops;
      while i < |ops|
        invariant i <= |ops| && Good() && DoAll(s, ops[i..]) == DoAll(s0, ops)
        invariant forall op | op in ops :: op.t in timers
      {
        DoKeeps(s, ops[i], s.recs.Keys);
        assert ops[i..][0] == ops[i] && ops[i..][1..] == ops[i + 1..];
        Perform(ops[i]);
        i := i + 1;
      }
    }

    // rt_tick_increase, up to its call of rt_timer_check
    method TickIncrease()
      requires Valid() && !s.checking
      modifies this`tick, this`s
      ensures Valid() && Enabled(old(s), Tick) && s == Next(old(s), Tick)
    {
      hide Inv, RowsOk;
      StepKeepsInv(s, Tick);
      InvLists(Next(s, Tick));
      U32Add(s.now, 1);
      tick := U32(tick + 1);
      s := Next(s, Tick);
    }

    // one turn of the loop of rt_timer_check
    method FireFirst(ops: seq<Op>)
      requires Valid() && s.checking && HeadDue(s) && forall op | op in ops :: op.t in timers
      modifies this`rows, this`timers, this`randomNr, this`s
      ensures Valid() && s == FireHead(old(s), ops)
    {
      hide ListOk, LogOk, RowsOk, ActiveListed, DoAll, Concluded;
      FireKeepsInv(s, ops);
      PopKeeps(s);
      PopRows(rows, s);
      LastRow(rows, s.list);
      DoAllKeeps(Popped(s), ops, {s.list[0]});
      var t := rows[levels - 1][0];
      Unlink(t);
      s := Popped(s);
      Callback(ops);
      Conclude(t);
    }

    // What rt_timer_check does with a timer whose timeout function has returned.
    method Conclude(t: TimerId)
      requires Good() && t in timers
      modifies this`rows, this`timers, this`randomNr, this`s
      ensures Good() && s == Concluded(old(s), t)
    {
      hide ListOk, LogOk, RowsOk, ActiveListed, DoStart;
      TouchKeeps(s, t, s.recs[t].(active := false), s.recs.Keys);
      var again := timers[t].periodic && timers[t].activated;
      timers := timers[t := timers[t].(activated := false)];
      s := s.(recs := s.recs[t := s.recs[t].(active := false)]);
      if again {
        StartTimer(t);
      }
    }

    /** The loop of rt_timer_check, whether or not it ever ends, stopped after n turns at most. */
    method CheckTurns(script: nat -> seq<Op>, n: nat) returns (turns: nat, expired: bool)
      requires Valid() && s.checking && forall i: nat, op | op in script(i) :: op.t in timers
      modifies this`rows, this`timers, this`randomNr, this`s
      ensures Valid() && s.checking && expired == HeadDue(s) && turns <= n && (expired ==> turns == n)
      ensures Reached(old(s), script, turns) && s == Turns(old(s), script, turns)
    {
      hide Good, FireHead, Inv, HeadDue;
      ghost var s0 := s;
      SameTimers();
      turns := 0;
      expired := HeadExpired();
      while expired && turns < n
        invariant turns <= n && Valid() && s.checking && expired == HeadDue(s) && timers.Keys == old(timers.Keys)
        invariant Reached(s0, script, turns) && s == Turns(s0, script, turns)
      {
        SameTimers();
        FireChecking(s, script(turns));
        FireFirst(script(turns));
        SameTimers();
        turns := turns + 1;
        expired := HeadExpired();
      }
    }

    /** rt_timer_check, when it ends (see EndsExactly, EndsUnlessStuck); `script` says what the n-th timeout function called does. */
    method Check(script: nat -> seq<Op>) returns (ghost trace: seq<State>)
      requires Valid() && s.checking && Ends(s, script)
      requires forall n: nat, op | op in script(n) :: op.t in timers
      modifies this`rows, this`timers, this`randomNr, this`s
      ensures Valid() && !s.checking
      ensures Fires(trace, script) && trace[0] == old(s)
      ensures Enabled(trace[|trace| - 1], EndCheck) && s == Next(trace[|trace| - 1], EndCheck)
    {
      hide Good, FireHead, Inv, Fires, HeadDue;
      ghost var s0, last: nat := s, EndOf(s, script);
      SameTimers();
      var n := 0;
      trace := [s];
      FiresNone(s, script);
      var expired := HeadExpired();
      while expired
        invariant Valid() && s.checking && expired == HeadDue(s) && timers.Keys == old(timers.Keys)
        invariant n <= last && s == Turns(s0, script, n)
        invariant |trace| == n + 1 && trace[0] == old(s) && trace[n] == s && Fires(trace, script)
        decreases last - n
      {
        SameTimers();
        FireChecking(s, script(n));
        FiresMore(trace, script);
        FireFirst(script(n));
        SameTimers();
        trace := trace + [s];
        n := n + 1;
        expired := HeadExpired();
      }
      LeaveCheck();
    }

    // The loop of rt_timer_check ends.
    method LeaveCheck()
      requires Valid() && Enabled(s, EndCheck)
      modifies this`s
      ensures Valid() && s == Next(old(s), EndCheck)
    {
      hide ListOk, LogOk, ActiveListed, RowsOk, TimersOk;
      StepKeepsInv(s, EndCheck);
      s := Next(s, EndCheck);
    }

    lemma SameTimers()
      requires Valid()
      ensures timers.Keys == s.recs.Keys
    {
    }

    // The test of rt_timer_check on the first timer of the last row.
    method HeadExpired() returns (b: bool)
      requires Valid() && s.checking
      ensures b == HeadDue(s)
    {
      hide LogOk, SortedByKey, Distinct, Expired;
      if rows[levels - 1] == [] {
        return false;
      }
      var t := rows[levels - 1][0];
      assert t in s.list && PendingOk(s, s.recs[t]);
      ExpiredIsDue(s.now, s.recs[t].due);
      b := Expired(tick, timers[t].timeoutTick);
    }

    // rt_timer_list_next_timeout
    method NextTimeout() returns (r: nat)
      requires Valid()
      ensures r == if s.list == [] then TICK_MAX else U32(DueOf(s.recs, s.list[0]))
      ensures forall t | t in s.list :: DueOf(s.recs, s.list[0]) <= DueOf(s.recs, t)
    {
      forall t | t in s.list
        ensures DueOf(s.recs, s.list[0]) <= DueOf(s.recs, t)
      {
        var i :| 0 <= i < |s.list| && s.list[i] == t;
      }
      if rows[levels - 1] == [] {
        return TICK_MAX;
      }
      r := timers[rows[levels - 1][0]].timeoutTick;
    }
  }

  lemma InvLists(s: State)
    requires Inv(s)
    ensures ListOk(s) && LogOk(s)
  {
  }

  lemma PlaceBound(recs: map<TimerId, Rec>, row: seq<TimerId>, t: TimerId, n: nat)
    requires PlaceIn(recs, row, t, n)
    ensures n <= |row|
  {
  }

  lemma PlaceIsInsert(recs: map<TimerId, Rec>, row: seq<TimerId>, t: TimerId, n: nat)
    requires PlaceIn(recs, row, t, n)
    ensures n <= |row| && InsertAt(row, n, t) == Insert(recs, row, t)
  {
    InsertPlace(recs, row, t, n);
  }

  lemma StartTime(s: State, t: TimerId)
    ensures DoStart(s, t).now == s.now && DoStart(s, t).recs.Keys == s.recs.Keys
  {
  }

  lemma ListedOnce(s: State)
    requires ListOk(s)
    ensures Distinct(s.list)
  {
  }

  lemma LastRow(rows: seq<seq<TimerId>>, list: seq<TimerId>)
    requires RowsOk(rows, list)
    ensures rows != [] && rows[|rows| - 1] == list
  {
  }

  lemma PopRows(rows: seq<seq<TimerId>>, s: State)
    requires RowsOk(rows, s.list) && ListOk(s) && s.list != [] && s.list[0] in s.recs
    ensures RowsOk(Delinked(rows, s.list[0]), Popped(s).list)
  {
    UnlinkRows(rows, s.list, s.list[0]);
  }

  // The number of turns after which no timer is due.
  ghost function EndOf(s: State, script: nat -> seq<Op>): (n: nat)
    requires Ends(s, script)
    ensures !HeadDue(Turns(s, script, n))
  {
    var n: nat :| !HeadDue(Turns(s, script, n));
    n
  }

  /** A check, from firing to firing. */
  ghost predicate Fires(trace: seq<State>, script: nat -> seq<Op>) {
    && |trace| > 0
    && forall i: nat | i < |trace| - 1 ::
         Enabled(trace[i], Fire(script(i))) && trace[i + 1] == Next(trace[i], Fire(script(i)))
  }

  lemma FiresNone(s: State, script: nat -> seq<Op>)
    ensures Fires([s], script)
  {
  }

  lemma FiresMore(trace: seq<State>, script: nat -> seq<Op>)
    requires Fires(trace, script) && Enabled(trace[|trace| - 1], Fire(script(|trace| - 1)))
    ensures var n := |trace| - 1; Fires(trace + [FireHead(trace[n], script(n))], script)
  {
    hide FireHead, HeadDue;
    var n := |trace| - 1;
    var more := trace + [FireHead(trace[n], script(n))];
    forall i: nat | i < |more| - 1
      ensures Enabled(more[i], Fire(script(i))) && more[i + 1] == Next(more[i], Fire(script(i)))
    {
      assert more[i] == trace[i];
      if i < n {
        assert more[i + 1] == trace[i + 1] && Enabled(trace[i], Fire(script(i)));
      }
    }
  }
}
