/** Mutexes with priority inheritance: a system of mutexes and threads, step by step. */
module MutexProtocol {
  import opened Kernels
  import opened Lists

  type MutexId = nat

  /** struct rt_mutex; an owner of None is the null pointer. */
  datatype Mx = Mx(value: nat, owner: Option<Tid>, original: nat, hold: nat, waiters: seq<Tid>)

  const NO_PRIORITY := 0xff

  // rt_mutex_init
  const FREE_MUTEX := Mx(1, None, NO_PRIORITY, 0, [])

  datatype Result = Result(mx: Mx, prio: map<Tid, nat>, code: Option<Err>)

  function PrioList(prio: map<Tid, nat>, list: seq<Tid>): (ps: seq<nat>)
    ensures |ps| == |list|
  {
    seq(|list|, i requires 0 <= i < |list| => if list[i] in prio then prio[list[i]] else 0)
  }

  function WaitPlace(prio: map<Tid, nat>, list: seq<Tid>, p: nat, flag: IpcFlag): (pos: nat)
    ensures pos <= |list|
  {
    if flag == Fifo then |list| else PrioPos(PrioList(prio, list), p)
  }

  /** rt_mutex_take: None means that the thread went to sleep. The hold counter has 8 bits. */
  function Take(m: Mx, prio: map<Tid, nat>, t: Tid, time: int, flag: IpcFlag): Result {
    if m.owner == Some(t) then
      Result(m.(hold := (m.hold + 1) % 256), prio, Some(EOk))
    else if m.value > 0 && t in prio then
      Result(m.(value := m.value - 1, owner := Some(t), original := prio[t], hold := (m.hold + 1) % 256), prio, Some(EOk))
    else if time == 0 || m.owner.None? || m.owner.value !in prio || t !in prio then
      Result(m, prio, Some(ETimeout))
    else
      var o := m.owner.value;
      // the owner inherits a better priority
      var prio' := if prio[t] < prio[o] then prio[o := prio[t]] else prio;
      Result(m.(waiters := InsertAt(m.waiters, WaitPlace(prio', m.waiters, prio[t], flag), t)), prio', None)
  }

  /** rt_mutex_release */
  function Release(m: Mx, prio: map<Tid, nat>, t: Tid): Result {
    if m.owner != Some(t) then Result(m, prio, Some(EError))
    else if m.hold != 1 then Result(m.(hold := (m.hold + 255) % 256), prio, Some(EOk))
    else
      var prio' := prio[t := m.original];
      if m.waiters != [] && m.waiters[0] in prio' then
        // handed over to the first waiter
        var h := m.waiters[0];
        Result(m.(owner := Some(h), original := prio'[h], hold := 1, waiters := m.waiters[1..]), prio', Some(EOk))
      else
        Result(m.(value := m.value + 1, owner := None, original := NO_PRIORITY, hold := 0), prio', Some(EOk))
  }

  // The timer of a waiter fires: the owner keeps the priority it inherited.
  function Expire(m: Mx, t: Tid): Mx {
    m.(waiters := Remove(m.waiters, t))
  }

  datatype State = State(base: map<Tid, nat>, prio: map<Tid, nat>, mx: map<MutexId, Mx>)

  datatype Event = Taking(t: Tid, m: MutexId, time: int) | Releasing(t: Tid, m: MutexId) | Expiring(t: Tid, m: MutexId)

  ghost predicate Owns(s: State, t: Tid, m: MutexId) {
    m in s.mx && s.mx[m].owner == Some(t)
  }

  ghost predicate Waits(s: State, t: Tid, m: MutexId) {
    m in s.mx && t in s.mx[m].waiters
  }

  // A thread that waits runs no code.
  ghost predicate Enabled(s: State, e: Event) {
    match e
    case Taking(t, m, time) => t in s.base && m in s.mx && forall n | n in s.mx :: !Waits(s, t, n)
    case Releasing(t, m) => t in s.base && m in s.mx && forall n | n in s.mx :: !Waits(s, t, n)
    case Expiring(t, m) => Waits(s, t, m)
  }

  /** Whoever takes a mutex owns no other one. */
  ghost predicate Single(s: State, e: Event) {
    e.Taking? ==> forall n | n in s.mx :: Owns(s, e.t, n) ==> n == e.m
  }

  function Next(s: State, e: Event, flag: IpcFlag): State {
    match e
    case Taking(t, m, time) =>
      if m !in s.mx then s
      else var r := Take(s.mx[m], s.prio, t, time, flag); s.(mx := s.mx[m := r.mx], prio := r.prio)
    case Releasing(t, m) =>
      if m !in s.mx then s
      else var r := Release(s.mx[m], s.prio, t); s.(mx := s.mx[m := r.mx], prio := r.prio)
    case Expiring(t, m) =>
      if m !in s.mx then s else s.(mx := s.mx[m := Expire(s.mx[m], t)])
  }

  /** What a mutex's own fields say. */
  ghost predicate FieldsOk(m: Mx) {
    && m.value <= 1 && m.hold < 256 && (m.value == 1 <==> m.owner == None)
    && (m.owner == None ==> m.hold == 0 && m.waiters == [] && m.original == NO_PRIORITY)
    && Distinct(m.waiters) && (m.owner.Some? ==> m.owner.value !in m.waiters)
  }

  /** Inheritance: the owner's own priority is kept in the mutex; the waiters of a PRIO mutex are sorted and never better
      than its owner. */
  ghost predicate InheritanceOk(m: Mx, base: map<Tid, nat>, prio: map<Tid, nat>, flag: IpcFlag) {
    && (forall w | w in m.waiters :: w in base && w in prio && prio[w] == base[w])
    && (flag == Prio ==> Sorted(PrioList(prio, m.waiters)))
    && (m.owner.Some? ==>
          var o := m.owner.value;
          o in base && o in prio && m.original == base[o] && prio[o] <= base[o]
          && (flag == Prio ==> forall w | w in m.waiters :: prio[o] <= prio[w]))
  }

  /** A thread owns one mutex at most, waits for one at most, and never both; owning nothing, it has its own priority. */
  ghost predicate ThreadsOk(s: State) {
    && s.prio.Keys == s.base.Keys
    && (forall t, m, n | Owns(s, t, m) && Owns(s, t, n) :: m == n)
    && (forall t, m, n | Waits(s, t, m) && Waits(s, t, n) :: m == n)
    && (forall t, m, n | Owns(s, t, m) :: !Waits(s, t, n))
    && (forall t | t in s.base && (forall m | m in s.mx :: !Owns(s, t, m)) :: s.prio[t] == s.base[t])
  }

  ghost predicate Inv(s: State, flag: IpcFlag) {
    && (forall m | m in s.mx :: FieldsOk(s.mx[m]) && InheritanceOk(s.mx[m], s.base, s.prio, flag))
    && ThreadsOk(s)
  }

  ghost predicate Initial(s: State) {
    s.prio == s.base && forall m | m in s.mx :: s.mx[m] == FREE_MUTEX
  }

  ghost predicate Run(trace: seq<State>, events: seq<Event>, flag: IpcFlag) {
    && |trace| == |events| + 1
    && forall i | 0 <= i < |events| :: Enabled(trace[i], events[i]) && trace[i + 1] == Next(trace[i], events[i], flag)
  }

  /** A run in which no thread waits for, or takes, a mutex while it owns another one. */
  ghost predicate SingleRun(trace: seq<State>, events: seq<Event>, flag: IpcFlag) {
    Run(trace, events, flag) && forall i | 0 <= i < |events| :: Single(trace[i], events[i])
  }

  /** Nobody on the list has a better priority than p. */
  ghost predicate NoneBetter(prio: map<Tid, nat>, p: nat, list: seq<Tid>) {
    forall w | w in list :: w in prio && p <= prio[w]
  }

  // --- every run ---

  ghost predicate MutexSound(m: Mx, base: map<Tid, nat>) {
    && FieldsOk(m)
    && (forall w | w in m.waiters :: w in base)
    && (m.owner.Some? ==> m.owner.value in base && m.original <= base[m.owner.value])
  }

  /** What holds whichever mutexes a thread takes while it owns others: nobody is worse off than with its own priority, and
      a thread waits for one mutex at most. */
  ghost predicate Sound(s: State) {
    && s.prio.Keys == s.base.Keys && (forall t | t in s.base :: s.prio[t] <= s.base[t])
    && (forall m | m in s.mx :: MutexSound(s.mx[m], s.base))
    && (forall t, m, n | Waits(s, t, m) && Waits(s, t, n) :: m == n)
  }

  lemma TakeSound(m: Mx, base: map<Tid, nat>, prio: map<Tid, nat>, t: Tid, time: int, flag: IpcFlag)
    requires MutexSound(m, base) && t in base && t in prio && prio[t] <= base[t] && t !in m.waiters
    ensures var r := Take(m, prio, t, time, flag); MutexSound(r.mx, base)
  {
    var r := Take(m, prio, t, time, flag);
    if r.code == None {
      var prio' := if prio[t] < prio[m.owner.value] then prio[m.owner.value := prio[t]] else prio;
      InsertDistinct(m.waiters, WaitPlace(prio', m.waiters, prio[t], flag), t);
    }
  }

  lemma ReleaseSound(m: Mx, base: map<Tid, nat>, prio: map<Tid, nat>, t: Tid)
    requires MutexSound(m, base) && prio.Keys == base.Keys && forall u | u in base :: prio[u] <= base[u]
    ensures MutexSound(Release(m, prio, t).mx, base)
  {
    if m.waiters != [] {
      DistinctTail(m.waiters);
      HeadAndTail(m.waiters);
    }
  }

  lemma ExpireSound(m: Mx, base: map<Tid, nat>, t: Tid)
    requires MutexSound(m, base)
    ensures MutexSound(Expire(m, t), base)
  {
    RemoveDistinct(m.waiters, t);
  }

  lemma StepKeepsSound(s: State, e: Event, flag: IpcFlag)
    requires Sound(s) && Enabled(s, e)
    ensures Sound(Next(s, e, flag)) && Next(s, e, flag).base == s.base && Next(s, e, flag).mx.Keys == s.mx.Keys
  {
    hide FieldsOk, WaitPlace;
    var s' := Next(s, e, flag);
    var x := s.mx[e.m];
    assert MutexSound(x, s.base);
    match e {
      case Taking(t, m, time) =>
        assert !Waits(s, t, m);
        TakeSound(x, s.base, s.prio, t, time, flag);
        MutexReplaced(s, s', m, t);
      case Releasing(t, m) =>
        ReleaseSound(x, s.base, s.prio, t);
        if x.waiters != [] {
          HeadAndTail(x.waiters);
        }
        MutexReplaced(s, s', m, t);
      case Expiring(t, m) =>
        ExpireSound(x, s.base, t);
        MutexReplaced(s, s', m, t);
    }
  }

  lemma MutexReplaced(s: State, s': State, m: MutexId, t: Tid)
    requires Sound(s) && m in s.mx && s'.base == s.base && s'.prio.Keys == s.prio.Keys && m in s'.mx
    requires s'.mx == s.mx[m := s'.mx[m]] && MutexSound(s'.mx[m], s.base)
    requires forall u | u in s.base :: s'.prio[u] <= s.base[u]
    requires forall u | u in s'.mx[m].waiters :: u in s.mx[m].waiters || (u == t && forall n :: !Waits(s, t, n))
    ensures Sound(s')
  {
    hide MutexSound;
    assert forall u, n :: Waits(s', u, n) ==> Waits(s, u, n) || (u == t && n == m && !Waits(s, t, n));
  }

  lemma {:induction false} RunsSound(trace: seq<State>, events: seq<Event>, flag: IpcFlag, n: nat)
    requires Run(trace, events, flag) && Initial(trace[0]) && n < |trace|
    ensures Sound(trace[n]) && trace[n].base == trace[0].base && trace[n].mx.Keys == trace[0].mx.Keys
  {
    if n > 0 {
      RunsSound(trace, events, flag, n - 1);
      StepKeepsSound(trace[n - 1], events[n - 1], flag);
    }
  }

  // --- what the callers are told ---

  /** What rt_mutex_take or rt_mutex_release returns at this step; nothing, as long as its caller sleeps. */
  function Answer(s: State, e: Event, flag: IpcFlag): Option<Err> {
    if e.m !in s.mx || e.Expiring? then None
    else if e.Taking? then Take(s.mx[e.m], s.prio, e.t, e.time, flag).code
    else Release(s.mx[e.m], s.prio, e.t).code
  }

  // A thread is told RT_EOK exactly when the mutex is now its own, nothing when it now waits for it, RT_ETIMEOUT otherwise.
  ghost predicate TakeTold(s: State, t: Tid, m: MutexId, time: int, s': State, code: Option<Err>) {
    && (code == Some(EOk) <==> Owns(s', t, m))
    && (code == None <==> Waits(s', t, m))
    && (code == Some(ETimeout) <==> !Owns(s', t, m) && !Waits(s', t, m))
    // who is told what depends on who owns it, and on the time to wait
    && (code == Some(EOk) <==> m in s.mx && (s.mx[m].owner == None || s.mx[m].owner == Some(t)))
    && (code == Some(ETimeout) <==> time == 0 && exists o :: o != t && Owns(s, o, m))
    && (code == Some(ETimeout) ==> s' == s)
    && (code == None ==> m in s.mx && m in s'.mx && s'.mx[m].owner == s.mx[m].owner)
  }

  lemma TakeStep(s: State, t: Tid, m: MutexId, time: int, flag: IpcFlag)
    requires Sound(s) && Enabled(s, Taking(t, m, time))
    ensures TakeTold(s, t, m, time, Next(s, Taking(t, m, time), flag), Answer(s, Taking(t, m, time), flag))
  {
    hide WaitPlace, Distinct;
    var x := s.mx[m];
    assert MutexSound(x, s.base) && !Waits(s, t, m);
    if x.owner.Some? && x.owner != Some(t) {
      assert Owns(s, x.owner.value, m);
      if time == 0 {
        assert s.mx[m := x] == s.mx;
      }
    }
  }

  /** Over every run, in which threads may hold several mutexes. */
  lemma TakeAnswers(trace: seq<State>, events: seq<Event>, flag: IpcFlag, n: nat)
    requires Run(trace, events, flag) && Initial(trace[0]) && n < |events| && events[n].Taking?
    ensures var e := events[n]; TakeTold(trace[n], e.t, e.m, e.time, trace[n + 1], Answer(trace[n], e, flag))
  {
    hide Sound, Enabled, Next, TakeTold, Answer;
    RunsSound(trace, events, flag, n);
    TakeStep(trace[n], events[n].t, events[n].m, events[n].time, flag);
  }

  /** A release is told RT_EOK exactly when its caller owned the mutex; otherwise RT_ERROR, and nothing changes. */
  lemma ReleaseAnswers(s: State, t: Tid, m: MutexId, flag: IpcFlag)
    requires Enabled(s, Releasing(t, m))
    ensures var r := Answer(s, Releasing(t, m), flag);
      && r in {Some(EOk), Some(EError)} && (r == Some(EOk) <==> Owns(s, t, m))
      && (r == Some(EError) ==> Next(s, Releasing(t, m), flag) == s)
  {
    if !Owns(s, t, m) {
      assert s.mx[m := s.mx[m]] == s.mx;
    }
  }

  // How t has come to own m: it took it while nobody owned it, or its owner gave it up when t was the first to wait.
  ghost predicate GetsBy(s: State, e: Event, flag: IpcFlag, t: Tid, m: MutexId)
    requires m in s.mx
  {
    if e.Taking? then e.t == t && e.m == m && s.mx[m].owner == None && Answer(s, e, flag) == Some(EOk)
    else e.Releasing? && e.m == m && Owns(s, e.t, m) && s.mx[m].hold == 1 && s.mx[m].waiters != [] && s.mx[m].waiters[0] == t
  }

  lemma GetStep(s: State, e: Event, flag: IpcFlag, t: Tid, m: MutexId)
    requires Sound(s) && Enabled(s, e) && !Owns(s, t, m) && Owns(Next(s, e, flag), t, m)
    ensures m in s.mx && GetsBy(s, e, flag, t, m) && !Waits(Next(s, e, flag), t, m)
  {
    hide WaitPlace, InsertAt, Distinct;
    StepKeepsSound(s, e, flag);
    OwnerWaitsNot(Next(s, e, flag), t, m);
    assert MutexSound(s.mx[m], s.base);
  }

  lemma OwnerWaitsNot(s: State, t: Tid, m: MutexId)
    requires Sound(s) && Owns(s, t, m)
    ensures !Waits(s, t, m)
  {
    assert MutexSound(s.mx[m], s.base);
  }

  // A thread that waits goes on waiting, or is handed the mutex, or its timer fires, and then nothing else happens.
  ghost predicate WaitGoesOn(s: State, e: Event, s': State, flag: IpcFlag, t: Tid, m: MutexId)
    requires m in s.mx && m in s'.mx
  {
    && (!Waits(s', t, m) <==> e == Expiring(t, m) || Owns(s', t, m))
    && (e == Expiring(t, m) ==> s'.mx[m].owner == s.mx[m].owner && s'.prio == s.prio)
    && (Owns(s', t, m) ==> GetsBy(s, e, flag, t, m))
  }

  lemma WaitStep(s: State, e: Event, flag: IpcFlag, t: Tid, m: MutexId)
    requires Sound(s) && Enabled(s, e) && Waits(s, t, m)
    ensures m in Next(s, e, flag).mx && WaitGoesOn(s, e, Next(s, e, flag), flag, t, m)
  {
    hide WaitPlace, InsertAt, GetsBy;
    assert MutexSound(s.mx[m], s.base);
    if e.m != m {
    } else if e.Taking? {
      TakeWaiters(s, e, flag, t);
    } else if e.Releasing? {
      ReleaseWaiters(s, e, flag, t);
    } else {
      RemoveDistinct(s.mx[m].waiters, e.t);
    }
  }

  lemma TakeWaiters(s: State, e: Event, flag: IpcFlag, t: Tid)
    requires Sound(s) && Enabled(s, e) && Waits(s, t, e.m) && e.Taking?
    ensures Waits(Next(s, e, flag), t, e.m) && !Owns(Next(s, e, flag), t, e.m)
  {
    hide WaitPlace, Distinct;
    assert MutexSound(s.mx[e.m], s.base);
  }

  lemma ReleaseWaiters(s: State, e: Event, flag: IpcFlag, t: Tid)
    requires Sound(s) && Enabled(s, e) && Waits(s, t, e.m) && e.Releasing?
    ensures !Waits(Next(s, e, flag), t, e.m) <==> Owns(Next(s, e, flag), t, e.m)
    ensures Owns(Next(s, e, flag), t, e.m) ==> GetsBy(s, e, flag, t, e.m)
  {
    var x := s.mx[e.m];
    assert MutexSound(x, s.base);
    HeadAndTail(x.waiters);
    DistinctTail(x.waiters);
  }

  /** Over every run: a call of rt_mutex_take that sleeps ends by its timer, and then its thread does not own the mutex, or by
      being handed the mutex as the first to wait. */
  lemma WaitEnds(trace: seq<State>, events: seq<Event>, flag: IpcFlag, n: nat, t: Tid, m: MutexId)
    requires Run(trace, events, flag) && Initial(trace[0]) && n < |events| && Waits(trace[n], t, m)
    ensures m in trace[n + 1].mx && WaitGoesOn(trace[n], events[n], trace[n + 1], flag, t, m)
    ensures events[n] == Expiring(t, m) ==> !Owns(trace[n + 1], t, m)
  {
    RunsSound(trace, events, flag, n);
    WaitStep(trace[n], events[n], flag, t, m);
    hide Sound, Next;
  }

  /** Over every run: whoever comes to own a mutex has taken it while it was free, and was told so, or was the first to wait. */
  lemma GotHow(trace: seq<State>, events: seq<Event>, flag: IpcFlag, n: nat, t: Tid, m: MutexId)
    requires Run(trace, events, flag) && Initial(trace[0]) && n < |events|
    requires !Owns(trace[n], t, m) && Owns(trace[n + 1], t, m)
    ensures m in trace[n].mx && GetsBy(trace[n], events[n], flag, t, m) && !Waits(trace[n + 1], t, m)
  {
    RunsSound(trace, events, flag, n);
    GetStep(trace[n], events[n], flag, t, m);
  }

  // --- what an owner gets back ---

  /** t got m at step k and has owned it up to trace[n]. */
  ghost predicate HeldSince(trace: seq<State>, k: nat, n: nat, t: Tid, m: MutexId) {
    k < n < |trace| && !Owns(trace[k], t, m) && forall i | k < i <= n :: Owns(trace[i], t, m)
  }

  /** t gives m up at step n. */
  ghost predicate GivesUp(trace: seq<State>, n: nat, t: Tid, m: MutexId) {
    n + 1 < |trace| && Owns(trace[n], t, m) && !Owns(trace[n + 1], t, m)
  }

  // What a step adds to how often t has taken m.
  function Change(e: Event, t: Tid, m: MutexId): int {
    match e
    case Taking(u, l, time) => if u == t && l == m then 1 else 0
    case Releasing(u, l) => if u == t && l == m then -1 else 0
    case Expiring(u, l) => 0
  }

  // The mutex got by a step notes the priority of its new owner; only its owner's last release gives it up.
  ghost predicate OwnerNote(s: State, e: Event, s': State, t: Tid, m: MutexId) {
    && (!Owns(s, t, m) && Owns(s', t, m) ==>
          t in s.prio && t in s'.prio && s'.mx[m].original == s.prio[t] == s'.prio[t] && s'.mx[m].hold == 1)
    && (Owns(s, t, m) && Owns(s', t, m) ==>
          s'.mx[m].original == s.mx[m].original && s'.mx[m].hold == (s.mx[m].hold + Change(e, t, m)) % 256)
    && (Owns(s, t, m) && !Owns(s', t, m) ==>
          e == Releasing(t, m) && s.mx[m].hold == 1 && s'.prio == s.prio[t := s.mx[m].original])
  }

  lemma TakingNote(s: State, e: Event, flag: IpcFlag, t: Tid)
    requires Sound(s) && Enabled(s, e) && e.Taking?
    ensures OwnerNote(s, e, Next(s, e, flag), t, e.m)
  {
    hide WaitPlace, Distinct;
    assert MutexSound(s.mx[e.m], s.base);
  }

  lemma ReleasingNote(s: State, e: Event, flag: IpcFlag, t: Tid)
    requires Sound(s) && Enabled(s, e) && e.Releasing?
    ensures OwnerNote(s, e, Next(s, e, flag), t, e.m)
  {
    hide Distinct;
    assert MutexSound(s.mx[e.m], s.base);
    if s.mx[e.m].waiters != [] {
      HeadAndTail(s.mx[e.m].waiters);
    }
  }

  lemma OwnerStep(s: State, e: Event, flag: IpcFlag, t: Tid, m: MutexId)
    requires Sound(s) && Enabled(s, e)
    ensures OwnerNote(s, e, Next(s, e, flag), t, m)
  {
    hide Sound, Take, Release;
    if e.m != m || e.Expiring? {
      RangeHold(s, m);
    } else if e.Taking? {
      TakingNote(s, e, flag, t);
    } else {
      ReleasingNote(s, e, flag, t);
    }
  }

  lemma RangeHold(s: State, m: MutexId)
    requires Sound(s)
    ensures m in s.mx ==> s.mx[m].hold < 256
  {
    assert m in s.mx ==> MutexSound(s.mx[m], s.base);
  }

  lemma RunStep(trace: seq<State>, events: seq<Event>, flag: IpcFlag, n: nat, t: Tid, m: MutexId)
    requires Run(trace, events, flag) && Initial(trace[0]) && n < |events|
    ensures Enabled(trace[n], events[n]) && trace[n + 1] == Next(trace[n], events[n], flag)
    ensures OwnerNote(trace[n], events[n], trace[n + 1], t, m)
  {
    hide Sound, Enabled, Next, OwnerNote;
    RunsSound(trace, events, flag, n);
    OwnerStep(trace[n], events[n], flag, t, m);
  }

  /** Every owner got the mutex at some step of the run. */
  lemma {:induction false} GotAt(trace: seq<State>, events: seq<Event>, flag: IpcFlag, n: nat, t: Tid, m: MutexId)
    returns (k: nat)
    requires Run(trace, events, flag) && Initial(trace[0]) && n < |trace| && Owns(trace[n], t, m)
    ensures HeldSince(trace, k, n, t, m)
  {
    if Owns(trace[n - 1], t, m) {
      k := GotAt(trace, events, flag, n - 1, t, m);
    } else {
      k := n - 1;
    }
  }

  /** The priority noted in a mutex is the one its owner had when it got it. */
  lemma {:induction false} OriginalKept(trace: seq<State>, events: seq<Event>, flag: IpcFlag, k: nat, n: nat, t: Tid,
                                        m: MutexId)
    requires Run(trace, events, flag) && Initial(trace[0]) && HeldSince(trace, k, n, t, m)
    ensures t in trace[k].prio && trace[n].mx[m].original == trace[k].prio[t]
  {
    hide Initial, Enabled, Next, Change;
    RunStep(trace, events, flag, n - 1, t, m);
    if n > k + 1 {
      OriginalKept(trace, events, flag, k, n - 1, t, m);
    }
  }

  /** Over every run: whoever gives up a mutex has the priority back that it had when it got the mutex, and so has its own
      priority if and only if it had it then. */
  lemma RestoredExactly(trace: seq<State>, events: seq<Event>, flag: IpcFlag, k: nat, n: nat, t: Tid, m: MutexId)
    requires Run(trace, events, flag) && Initial(trace[0]) && HeldSince(trace, k, n, t, m) && GivesUp(trace, n, t, m)
    ensures events[n] == Releasing(t, m) && t in trace[0].base && t in trace[k].prio && t in trace[n + 1].prio
    ensures trace[n + 1].prio[t] == trace[k].prio[t]
    ensures trace[n + 1].prio[t] == trace[0].base[t] <==> trace[k].prio[t] == trace[0].base[t]
  {
    OriginalKept(trace, events, flag, k, n, t, m);
    RunStep(trace, events, flag, n, t, m);
    RunsSound(trace, events, flag, k);
  }

  /** Over every run: once t has given up m, none of the waiters of another mutex o that it still owns is better than it if
      and only if the priority it had when it got m was no worse than theirs. */
  lemma OtherMutexInversion(trace: seq<State>, events: seq<Event>, flag: IpcFlag, k: nat, n: nat, t: Tid, m: MutexId,
                            o: MutexId)
    requires Run(trace, events, flag) && Initial(trace[0]) && HeldSince(trace, k, n, t, m) && GivesUp(trace, n, t, m)
    requires Owns(trace[n], t, o) && o != m
    ensures t in trace[k].prio && t in trace[n + 1].prio && Owns(trace[n + 1], t, o)
    ensures trace[n].mx[m].original == trace[k].prio[t] && trace[n + 1].mx[o].waiters == trace[n].mx[o].waiters
    ensures NoneBetter(trace[n + 1].prio, trace[n + 1].prio[t], trace[n + 1].mx[o].waiters)
       <==> NoneBetter(trace[n].prio, trace[k].prio[t], trace[n].mx[o].waiters)
  {
    OriginalKept(trace, events, flag, k, n, t, m);
    RunStep(trace, events, flag, n, t, m);
    RunsSound(trace, events, flag, n);
    assert MutexSound(trace[n].mx[o], trace[n].base);
  }

  ghost predicate OwnsNothing(s: State, t: Tid) {
    forall m | m in s.mx :: !Owns(s, t, m)
  }

  // Only the owner of a mutex has its priority changed.
  lemma IdleStep(s: State, e: Event, flag: IpcFlag, t: Tid)
    requires Sound(s) && Enabled(s, e) && OwnsNothing(s, t) && t in s.base
    ensures t in s.prio && t in Next(s, e, flag).prio && Next(s, e, flag).prio[t] == s.prio[t]
  {
    assert !Owns(s, t, e.m);
  }

  /** The mutex that a thread gives up last is one it got when it owned none, as when mutexes are given up in the reverse
      order of taking them. */
  ghost predicate Nested(trace: seq<State>) {
    forall k: nat, n: nat, t, m | HeldSince(trace, k, n, t, m) && GivesUp(trace, n, t, m) && OwnsNothing(trace[n + 1], t) ::
      OwnsNothing(trace[k], t)
  }

  /** If so, ownership may overlap, and still every thread that owns nothing has its own priority. */
  lemma {:induction false} NestedIsRestored(trace: seq<State>, events: seq<Event>, flag: IpcFlag, n: nat, t: Tid)
    requires Run(trace, events, flag) && Initial(trace[0]) && Nested(trace) && n < |trace|
    requires t in trace[0].base && OwnsNothing(trace[n], t)
    ensures t in trace[n].prio && trace[n].prio[t] == trace[0].base[t]
  {
    RunsSound(trace, events, flag, n);
    if n > 0 {
      RunsSound(trace, events, flag, n - 1);
      if OwnsNothing(trace[n - 1], t) {
        NestedIsRestored(trace, events, flag, n - 1, t);
        IdleStep(trace[n - 1], events[n - 1], flag, t);
      } else {
        var m :| m in trace[n - 1].mx && Owns(trace[n - 1], t, m);
        assert m in trace[n].mx && GivesUp(trace, n - 1, t, m);
        var k := GotAt(trace, events, flag, n - 1, t, m);
        NestedIsRestored(trace, events, flag, k, t);
        RestoredExactly(trace, events, flag, k, n - 1, t, m);
      }
    }
  }

  // --- when an owner gives up ---

  /** How often t has taken m, less how often it has released it, since it got m at step k. */
  function Depth(events: seq<Event>, k: nat, n: nat, t: Tid, m: MutexId): int
    requires k < n <= |events|
  {
    if n == k + 1 then 1 else Depth(events, k, n - 1, t, m) + Change(events[n - 1], t, m)
  }

  lemma {:induction false} HoldCounts(trace: seq<State>, events: seq<Event>, flag: IpcFlag, k: nat, n: nat, t: Tid,
                                      m: MutexId)
    requires Run(trace, events, flag) && Initial(trace[0]) && HeldSince(trace, k, n, t, m)
    ensures trace[n].mx[m].hold == Depth(events, k, n, t, m) % 256
  {
    hide Initial, Enabled, Next, Change;
    RunStep(trace, events, flag, n - 1, t, m);
    if n > k + 1 {
      HoldCounts(trace, events, flag, k, n - 1, t, m);
    }
  }

  /** Over every run: a release by the owner gives the mutex up if and only if as many releases as takes have then been
      made, up to a multiple of 256. */
  lemma GivenUpExactly(trace: seq<State>, events: seq<Event>, flag: IpcFlag, k: nat, n: nat, t: Tid, m: MutexId)
    requires Run(trace, events, flag) && Initial(trace[0]) && HeldSince(trace, k, n, t, m)
    requires n < |events| && events[n] == Releasing(t, m)
    ensures GivesUp(trace, n, t, m) <==> Depth(events, k, n, t, m) % 256 == 1
  {
    HoldCounts(trace, events, flag, k, n, t, m);
    RunsSound(trace, events, flag, n);
    assert MutexSound(trace[n].mx[m], trace[n].base);
    if trace[n].mx[m].waiters != [] {
      HeadAndTail(trace[n].mx[m].waiters);
    }
  }

  // --- when no waiter is better than an owner ---

  ghost predicate Level(s: State, m: MutexId)
    requires m in s.mx
  {
    s.mx[m].owner.Some? ==>
      var o := s.mx[m].owner.value;
      o in s.prio && NoneBetter(s.prio, s.prio[o], s.mx[m].waiters)
  }

  ghost predicate InversionFree(s: State) {
    forall m | m in s.mx :: Level(s, m)
  }

  // t goes to sleep on a mutex: its owner, who inherits t's priority, is itself waiting for nobody worse than t.
  ghost predicate BoostSuffices(s: State, t: Tid, m: MutexId)
    requires m in s.mx
  {
    s.mx[m].owner.Some? ==>
      forall n | n in s.mx && Waits(s, s.mx[m].owner.value, n) && s.mx[n].owner.Some? ::
        t in s.prio && s.mx[n].owner.value in s.prio && s.prio[s.mx[n].owner.value] <= s.prio[t]
  }

  // t gives up m: no waiter of its other mutexes is better than the priority it falls back to.
  ghost predicate RestoreSuffices(s: State, t: Tid, m: MutexId)
    requires m in s.mx
  {
    forall n | n in s.mx && n != m && Owns(s, t, n) :: NoneBetter(s.prio, s.mx[m].original, s.mx[n].waiters)
  }

  // The first waiter is the best one.
  ghost predicate HeadBest(s: State, m: MutexId)
    requires m in s.mx
  {
    var list := s.mx[m].waiters;
    list != [] ==> list[0] in s.prio && NoneBetter(s.prio, s.prio[list[0]], list[1..])
  }

  /** What a step must meet to make no waiter better than the owner. */
  ghost predicate KeepsLevel(s: State, e: Event, flag: IpcFlag) {
    e.m in s.mx ==>
      match e
      case Taking(t, m, time) => Take(s.mx[m], s.prio, t, time, flag).code == None ==> BoostSuffices(s, t, m)
      case Releasing(t, m) => Owns(s, t, m) && s.mx[m].hold == 1 ==> RestoreSuffices(s, t, m) && HeadBest(s, m)
      case Expiring(t, m) => true
  }

  lemma SleepLevel(s: State, t: Tid, m: MutexId, time: int, flag: IpcFlag)
    requires Sound(s) && Enabled(s, Taking(t, m, time)) && InversionFree(s)
    requires Take(s.mx[m], s.prio, t, time, flag).code == None
    ensures InversionFree(Next(s, Taking(t, m, time), flag)) <==> BoostSuffices(s, t, m)
  {
    var s' := Next(s, Taking(t, m, time), flag);
    var o := s.mx[m].owner.value;
    assert MutexSound(s.mx[m], s.base) && Level(s, m) && Level(s', m);
    forall n | n in s.mx && n != m
      ensures s.mx[n].owner.Some? && o in s.mx[n].waiters ==>
                (Level(s', n) <==> s.prio[s.mx[n].owner.value] <= s.prio[t])
      ensures !(s.mx[n].owner.Some? && o in s.mx[n].waiters) ==> Level(s', n)
    {
      assert MutexSound(s.mx[n], s.base) && Level(s, n) && s'.mx[n] == s.mx[n];
    }
    if InversionFree(s') {
      forall n | n in s.mx && Waits(s, o, n) && s.mx[n].owner.Some?
        ensures s.prio[s.mx[n].owner.value] <= s.prio[t]
      {
        assert n in s'.mx && Level(s', n);
      }
    } else {
      var n :| n in s'.mx && !Level(s', n);
      assert Waits(s, o, n);
    }
  }

  // What becomes of m itself, and of every other mutex, when t gives up m.
  lemma GivenLevel(s: State, t: Tid, m: MutexId, flag: IpcFlag)
    requires Sound(s) && Enabled(s, Releasing(t, m)) && Owns(s, t, m) && s.mx[m].hold == 1
    ensures m in Next(s, Releasing(t, m), flag).mx
    ensures Level(Next(s, Releasing(t, m), flag), m) <==> HeadBest(s, m)
  {
    var x := s.mx[m];
    assert MutexSound(x, s.base);
    if x.waiters != [] {
      HeadAndTail(x.waiters);
    }
  }

  lemma OwnLevel(s: State, t: Tid, m: MutexId, flag: IpcFlag, n: MutexId)
    requires Sound(s) && Enabled(s, Releasing(t, m)) && Owns(s, t, m) && s.mx[m].hold == 1
    requires n in s.mx && n != m && Level(s, n)
    ensures n in Next(s, Releasing(t, m), flag).mx
    ensures Level(Next(s, Releasing(t, m), flag), n) <==>
            (Owns(s, t, n) ==> NoneBetter(s.prio, s.mx[m].original, s.mx[n].waiters))
  {
    assert MutexSound(s.mx[m], s.base) && MutexSound(s.mx[n], s.base) && !Waits(s, t, n);
    if s.mx[m].waiters != [] {
      HeadAndTail(s.mx[m].waiters);
    }
  }

  lemma GiveUpLevel(s: State, t: Tid, m: MutexId, flag: IpcFlag)
    requires Sound(s) && Enabled(s, Releasing(t, m)) && InversionFree(s) && Owns(s, t, m) && s.mx[m].hold == 1
    ensures InversionFree(Next(s, Releasing(t, m), flag)) <==> RestoreSuffices(s, t, m) && HeadBest(s, m)
  {
    hide Sound, Release, Level, HeadBest;
    var s' := Next(s, Releasing(t, m), flag);
    GivenLevel(s, t, m, flag);
    forall n | n in s.mx && n != m
      ensures Level(s', n) <==> (Owns(s, t, n) ==> NoneBetter(s.prio, s.mx[m].original, s.mx[n].waiters))
    {
      OwnLevel(s, t, m, flag, n);
    }
    assert s'.mx.Keys == s.mx.Keys;
  }

  // Nobody goes to sleep and nothing is given up.
  lemma OtherLevel(s: State, e: Event, flag: IpcFlag)
    requires Sound(s) && Enabled(s, e) && InversionFree(s)
    requires e.Taking? ==> Take(s.mx[e.m], s.prio, e.t, e.time, flag).code != None
    requires e.Releasing? ==> !(Owns(s, e.t, e.m) && s.mx[e.m].hold == 1)
    ensures InversionFree(Next(s, e, flag))
  {
    var s' := Next(s, e, flag);
    assert MutexSound(s.mx[e.m], s.base) && s'.prio == s.prio;
    forall n | n in s'.mx
      ensures Level(s', n)
    {
      assert Level(s, n);
    }
  }

  /** A step makes no waiter better than the owner if and only if it meets this condition on the state before it. */
  lemma StepInversion(s: State, e: Event, flag: IpcFlag)
    requires Sound(s) && Enabled(s, e) && InversionFree(s)
    ensures InversionFree(Next(s, e, flag)) <==> KeepsLevel(s, e, flag)
  {
    if e.Taking? && Take(s.mx[e.m], s.prio, e.t, e.time, flag).code == None {
      SleepLevel(s, e.t, e.m, e.time, flag);
    } else if e.Releasing? && Owns(s, e.t, e.m) && s.mx[e.m].hold == 1 {
      GiveUpLevel(s, e.t, e.m, flag);
    } else {
      OtherLevel(s, e, flag);
    }
  }

  /** Over every run, of PRIO or FIFO mutexes, overlapping or not: no waiter is ever better than the owner it waits for if
      and only if every step meets the condition. */
  lemma {:induction false} InversionExactly(trace: seq<State>, events: seq<Event>, flag: IpcFlag, n: nat)
    requires Run(trace, events, flag) && Initial(trace[0]) && n < |trace|
    ensures (forall i | 0 <= i <= n :: InversionFree(trace[i]))
       <==> (forall i | 0 <= i < n :: KeepsLevel(trace[i], events[i], flag))
  {
    hide Enabled, Next, Sound, InversionFree, KeepsLevel;
    if n > 0 {
      InversionExactly(trace, events, flag, n - 1);
      RunsSound(trace, events, flag, n - 1);
      if InversionFree(trace[n - 1]) {
        StepInversion(trace[n - 1], events[n - 1], flag);
        assert trace[n] == Next(trace[n - 1], events[n - 1], flag);
      }
    } else {
      InitialFree(trace[0]);
    }
  }

  lemma InitialFree(s: State)
    requires Initial(s)
    ensures InversionFree(s)
  {
  }

  // --- runs in which nobody owns two mutexes ---

  // Changing the priority of a thread that does not wait here does not touch the wait list.
  lemma InheritanceFrame(m: Mx, base: map<Tid, nat>, prio: map<Tid, nat>, t: Tid, p: nat, flag: IpcFlag)
    requires InheritanceOk(m, base, prio, flag) && t !in m.waiters && m.owner != Some(t)
    ensures InheritanceOk(m, base, prio[t := p], flag)
  {
    assert PrioList(prio[t := p], m.waiters) == PrioList(prio, m.waiters);
  }

  lemma InsertedPriorities(prio: map<Tid, nat>, list: seq<Tid>, n: nat, t: Tid)
    requires n <= |list| && t in prio
    ensures PrioList(prio, InsertAt(list, n, t)) == InsertAt(PrioList(prio, list), n, prio[t])
  {
  }

  lemma SleepKeepsSorted(prio: map<Tid, nat>, list: seq<Tid>, t: Tid)
    requires t in prio && Sorted(PrioList(prio, list))
    ensures Sorted(PrioList(prio, InsertAt(list, WaitPlace(prio, list, prio[t], Prio), t)))
  {
    InsertSorted(PrioList(prio, list), prio[t]);
    InsertedPriorities(prio, list, WaitPlace(prio, list, prio[t], Prio), t);
  }

  lemma SleepKeepsMutex(m: Mx, base: map<Tid, nat>, prio: map<Tid, nat>, t: Tid, time: int, flag: IpcFlag)
    requires FieldsOk(m) && InheritanceOk(m, base, prio, flag) && m.owner.Some? && m.owner != Some(t) && t !in m.waiters
    requires t in base && t in prio && prio[t] == base[t] && time != 0
    ensures var r := Take(m, prio, t, time, flag); FieldsOk(r.mx) && InheritanceOk(r.mx, base, r.prio, flag)
  {
    hide Sorted, Distinct, PrioList, WaitPlace;
    var o := m.owner.value;
    var prio' := if prio[t] < prio[o] then prio[o := prio[t]] else prio;
    PrioListFrame(prio, m.waiters, o, prio[t]);
    InsertDistinct(m.waiters, WaitPlace(prio', m.waiters, prio[t], flag), t);
    if flag == Prio {
      SleepKeepsSorted(prio', m.waiters, t);
    }
  }

  lemma RemovedPriorities(prio: map<Tid, nat>, list: seq<Tid>, i: nat)
    requires i < |list| && Sorted(PrioList(prio, list))
    ensures Sorted(PrioList(prio, list[..i] + list[i + 1..]))
  {
    var shorter := list[..i] + list[i + 1..];
    var full, ps := PrioList(prio, list), PrioList(prio, shorter);
    assert forall j | 0 <= j < |shorter| :: ps[j] == full[if j < i then j else j + 1];
  }

  lemma ExpireKeepsMutex(m: Mx, base: map<Tid, nat>, prio: map<Tid, nat>, t: Tid, flag: IpcFlag)
    requires FieldsOk(m) && InheritanceOk(m, base, prio, flag) && t in m.waiters
    ensures FieldsOk(Expire(m, t)) && InheritanceOk(Expire(m, t), base, prio, flag)
  {
    var i :| 0 <= i < |m.waiters| && m.waiters[i] == t;
    RemoveAt(m.waiters, i);
    if flag == Prio {
      RemovedPriorities(prio, m.waiters, i);
    }
  }

  // The first waiter of a sorted list is the best one.
  lemma FirstIsBest(prio: map<Tid, nat>, list: seq<Tid>)
    requires list != [] && Sorted(PrioList(prio, list)) && forall w | w in list :: w in prio
    ensures forall w | w in list :: prio[list[0]] <= prio[w]
  {
    forall w | w in list
      ensures prio[list[0]] <= prio[w]
    {
      var j :| 0 <= j < |list| && list[j] == w;
      assert PrioList(prio, list)[0] <= PrioList(prio, list)[j];
    }
  }

  lemma ReleaseKeepsMutex(m: Mx, base: map<Tid, nat>, prio: map<Tid, nat>, t: Tid, flag: IpcFlag)
    requires FieldsOk(m) && InheritanceOk(m, base, prio, flag) && m.owner == Some(t)
    ensures var r := Release(m, prio, t); FieldsOk(r.mx) && InheritanceOk(r.mx, base, r.prio, flag)
  {
    if m.hold == 1 && m.waiters != [] {
      HandOver(m, base, prio, t, flag);
    }
  }

  lemma HandOver(m: Mx, base: map<Tid, nat>, prio: map<Tid, nat>, t: Tid, flag: IpcFlag)
    requires FieldsOk(m) && InheritanceOk(m, base, prio, flag) && m.owner == Some(t) && m.hold == 1 && m.waiters != []
    ensures var r := Release(m, prio, t); FieldsOk(r.mx) && InheritanceOk(r.mx, base, r.prio, flag)
  {
    hide Sorted, PrioList, Distinct;
    var prio' := prio[t := m.original];
    PrioListFrame(prio, m.waiters, t, m.original);
    if flag == Prio {
      FirstIsBest(prio', m.waiters);
      TailSorted(prio', m.waiters);
    }
    DistinctTail(m.waiters);
    HeadAndTail(m.waiters);
  }

  lemma PrioListFrame(prio: map<Tid, nat>, list: seq<Tid>, t: Tid, p: nat)
    requires t !in list
    ensures PrioList(prio[t := p], list) == PrioList(prio, list)
  {
  }

  lemma TailSorted(prio: map<Tid, nat>, list: seq<Tid>)
    requires list != [] && Sorted(PrioList(prio, list))
    ensures Sorted(PrioList(prio, list[1..]))
  {
    RemovedPriorities(prio, list, 0);
    assert list[..0] + list[1..] == list[1..];
  }

  lemma HeadAndTail(list: seq<Tid>)
    requires list != []
    ensures list[0] in list && forall w | w in list[1..] :: w in list
  {
  }

  // The mutexes other than m are not affected by what happens to m.
  lemma OthersKept(s: State, m: MutexId, t: Tid, p: nat, flag: IpcFlag)
    requires Inv(s, flag) && m in s.mx && s.mx[m].owner == Some(t)
    ensures forall n | n in s.mx && n != m :: InheritanceOk(s.mx[n], s.base, s.prio[t := p], flag)
  {
    forall n | n in s.mx && n != m
      ensures InheritanceOk(s.mx[n], s.base, s.prio[t := p], flag)
    {
      assert Owns(s, t, m) && !Waits(s, t, n);
      assert !Owns(s, t, n);
      InheritanceFrame(s.mx[n], s.base, s.prio, t, p, flag);
    }
  }

  lemma TakeKeepsInv(s: State, t: Tid, m: MutexId, time: int, flag: IpcFlag)
    requires Inv(s, flag) && Enabled(s, Taking(t, m, time)) && Single(s, Taking(t, m, time))
    ensures Inv(Next(s, Taking(t, m, time), flag), flag)
  {
    var x := s.mx[m];
    var s' := Next(s, Taking(t, m, time), flag);
    assert !Waits(s, t, m);
    if x.owner.Some? && x.owner != Some(t) && time != 0 {
      var o := x.owner.value;
      assert Owns(s, o, m);
      assert forall n | n in s.mx :: !Owns(s, t, n);
      SleepKeepsMutex(x, s.base, s.prio, t, time, flag);
      OthersKept(s, m, o, s.prio[t], flag);
      SleepKeepsThreads(s, t, m, time, flag);
    } else if x.owner == None {
      assert forall n | n in s.mx :: !Owns(s, t, n);
      OwnKeepsThreads(s, t, m, time, flag);
    } else {
      SameOwner(s, m, s'.mx[m], flag);
    }
  }

  lemma SleepKeepsThreads(s: State, t: Tid, m: MutexId, time: int, flag: IpcFlag)
    requires Inv(s, flag) && Enabled(s, Taking(t, m, time)) && Single(s, Taking(t, m, time)) && time != 0
    requires s.mx[m].owner.Some? && s.mx[m].owner != Some(t) && forall n | n in s.mx :: !Owns(s, t, n)
    ensures ThreadsOk(Next(s, Taking(t, m, time), flag))
  {
    var s' := Next(s, Taking(t, m, time), flag);
    hide FieldsOk, InheritanceOk, WaitPlace;
    assert Owns(s, s.mx[m].owner.value, m);
    OwnerKnown(s, m, flag);
    assert forall u, n :: Owns(s', u, n) <==> Owns(s, u, n);
    assert forall u, n :: Waits(s', u, n) <==> Waits(s, u, n) || (u == t && n == m);
  }

  lemma OwnerKnown(s: State, m: MutexId, flag: IpcFlag)
    requires Inv(s, flag) && m in s.mx && s.mx[m].owner.Some?
    ensures s.mx[m].owner.value in s.base && s.mx[m].value == 0
    ensures s.mx[m].original == s.base[s.mx[m].owner.value]
  {
  }

  lemma OwnKeepsThreads(s: State, t: Tid, m: MutexId, time: int, flag: IpcFlag)
    requires Inv(s, flag) && Enabled(s, Taking(t, m, time)) && Single(s, Taking(t, m, time))
    requires s.mx[m].owner == None && forall n | n in s.mx :: !Owns(s, t, n)
    ensures Inv(Next(s, Taking(t, m, time), flag), flag)
  {
    OwnKeepsMutex(s, t, m, time, flag);
    hide FieldsOk, InheritanceOk;
    var s' := Next(s, Taking(t, m, time), flag);
    assert forall u, n :: Owns(s', u, n) <==> Owns(s, u, n) || (u == t && n == m);
    assert forall u, n :: Waits(s', u, n) <==> Waits(s, u, n);
  }

  lemma OwnKeepsMutex(s: State, t: Tid, m: MutexId, time: int, flag: IpcFlag)
    requires Inv(s, flag) && Enabled(s, Taking(t, m, time))
    requires s.mx[m].owner == None && forall n | n in s.mx :: !Owns(s, t, n)
    ensures var x := Mx(0, Some(t), s.prio[t], 1, []);
      && Next(s, Taking(t, m, time), flag) == s.(mx := s.mx[m := x]) && s.mx[m].waiters == []
      && FieldsOk(x) && InheritanceOk(x, s.base, s.prio, flag)
  {
    assert PrioList(s.prio, []) == [];
  }

  // Only the hold counter of a mutex changes, or nothing does.
  lemma SameOwner(s: State, m: MutexId, x: Mx, flag: IpcFlag)
    requires Inv(s, flag) && m in s.mx && FieldsOk(x) && x == s.mx[m].(hold := x.hold)
    ensures Inv(s.(mx := s.mx[m := x]), flag)
  {
    hide FieldsOk, Sorted, PrioList;
    var s' := s.(mx := s.mx[m := x]);
    assert forall u, n :: Owns(s', u, n) <==> Owns(s, u, n);
    assert forall u, n :: Waits(s', u, n) <==> Waits(s, u, n);
  }

  lemma ReleaseKeepsInv(s: State, t: Tid, m: MutexId, flag: IpcFlag)
    requires Inv(s, flag) && Enabled(s, Releasing(t, m))
    ensures Inv(Next(s, Releasing(t, m), flag), flag)
  {
    var x := s.mx[m];
    var s' := Next(s, Releasing(t, m), flag);
    if x.owner == Some(t) && x.hold == 1 {
      assert Owns(s, t, m);
      ReleaseKeepsMutex(x, s.base, s.prio, t, flag);
      OthersKept(s, m, t, x.original, flag);
      ReleaseKeepsThreads(s, t, m, flag);
    } else {
      assert s'.prio == s.prio;
      SameOwner(s, m, s'.mx[m], flag);
    }
  }

  lemma ReleaseKeepsThreads(s: State, t: Tid, m: MutexId, flag: IpcFlag)
    requires Inv(s, flag) && Enabled(s, Releasing(t, m)) && s.mx[m].owner == Some(t) && s.mx[m].hold == 1
    ensures ThreadsOk(Next(s, Releasing(t, m), flag))
  {
    hide Inv;
    var s' := Next(s, Releasing(t, m), flag);
    var x := s.mx[m];
    InvThreads(s, flag);
    OwnerKnown(s, m, flag);
    WaitersKnown(s, m, flag);
    assert Owns(s, t, m);
    if x.waiters == [] {
      assert forall u, n :: Owns(s', u, n) <==> Owns(s, u, n) && !(u == t && n == m);
      assert forall u, n :: Waits(s', u, n) <==> Waits(s, u, n);
    } else {
      OwnershipMoves(s, t, m, flag);
    }
    hide Next;
    assert forall n | n in s.mx :: !Owns(s', t, n);
  }

  lemma OwnershipMoves(s: State, t: Tid, m: MutexId, flag: IpcFlag)
    requires ThreadsOk(s) && m in s.mx && s.mx[m].owner == Some(t) && s.mx[m].hold == 1 && s.mx[m].waiters != []
    requires s.mx[m].waiters[0] in s.prio && Distinct(s.mx[m].waiters)
    ensures var h := s.mx[m].waiters[0]; var s' := Next(s, Releasing(t, m), flag);
      && Waits(s, h, m)
      && (forall u, n :: Owns(s', u, n) <==> (Owns(s, u, n) && n != m) || (u == h && n == m))
      && (forall u, n :: Waits(s', u, n) <==> Waits(s, u, n) && !(u == h && n == m))
  {
    var h := s.mx[m].waiters[0];
    assert Waits(s, h, m);
    DistinctTail(s.mx[m].waiters);
    assert s.mx[m].waiters == [h] + s.mx[m].waiters[1..];
  }

  lemma InvThreads(s: State, flag: IpcFlag)
    requires Inv(s, flag)
    ensures ThreadsOk(s)
  {
  }

  lemma WaitersKnown(s: State, m: MutexId, flag: IpcFlag)
    requires Inv(s, flag) && m in s.mx
    ensures Distinct(s.mx[m].waiters)
    ensures forall w | w in s.mx[m].waiters :: w in s.prio && s.prio[w] == s.base[w] && s.mx[m].owner != Some(w)
  {
  }

  lemma ExpireKeepsInv(s: State, t: Tid, m: MutexId, flag: IpcFlag)
    requires Inv(s, flag) && Enabled(s, Expiring(t, m))
    ensures Inv(Next(s, Expiring(t, m), flag), flag)
  {
    var s' := Next(s, Expiring(t, m), flag);
    ExpireKeepsMutex(s.mx[m], s.base, s.prio, t, flag);
    assert forall u, n :: Owns(s', u, n) <==> Owns(s, u, n);
    assert forall u, n :: Waits(s', u, n) ==> Waits(s, u, n);
  }

  lemma StepKeepsInv(s: State, e: Event, flag: IpcFlag)
    requires Inv(s, flag) && Enabled(s, e) && Single(s, e)
    ensures Inv(Next(s, e, flag), flag)
  {
    match e
    case Taking(t, m, time) => TakeKeepsInv(s, t, m, time, flag);
    case Releasing(t, m) => ReleaseKeepsInv(s, t, m, flag);
    case Expiring(t, m) => ExpireKeepsInv(s, t, m, flag);
  }

  /** Over every run in which no thread waits for, or takes, a mutex while it owns another one: who owns nothing has its
      own priority, waiters of PRIO mutexes are sorted by priority, and their owner runs at no worse one than theirs. */
  lemma {:induction false} RunsKeepInv(trace: seq<State>, events: seq<Event>, flag: IpcFlag, n: nat)
    requires SingleRun(trace, events, flag) && Initial(trace[0]) && n < |trace|
    ensures Inv(trace[n], flag)
  {
    if n > 0 {
      RunsKeepInv(trace, events, flag, n - 1);
      StepKeepsInv(trace[n - 1], events[n - 1], flag);
    } else {
      InitialInv(trace[0], flag);
    }
  }

  lemma InitialInv(s: State, flag: IpcFlag)
    requires Initial(s)
    ensures Inv(s, flag)
  {
    assert PrioList(s.prio, []) == [];
  }

  /** The owner of a PRIO mutex has at least the priority of everyone waiting for it. */
  lemma NoInversion(trace: seq<State>, events: seq<Event>, n: nat, m: MutexId, o: Tid, w: Tid)
    requires SingleRun(trace, events, Prio) && Initial(trace[0]) && n < |trace|
    requires Owns(trace[n], o, m) && Waits(trace[n], w, m)
    ensures o in trace[n].prio && w in trace[n].prio && trace[n].prio[o] <= trace[n].prio[w]
  {
    RunsKeepInv(trace, events, Prio, n);
  }

  /** w goes to sleep on m at step j. */
  ghost predicate Arrives(trace: seq<State>, j: nat, w: Tid, m: MutexId) {
    j + 1 < |trace| && !Waits(trace[j], w, m) && Waits(trace[j + 1], w, m)
  }

  /** Between the steps k and n a thread whose own priority is at least x went to sleep on m. */
  ghost predicate Arrived(trace: seq<State>, k: nat, n: nat, m: MutexId, x: nat) {
    exists j: nat, w | k < j < n && Arrives(trace, j, w, m) :: w in trace[j].base && trace[j].base[w] <= x
  }

  // Somebody whose own priority is at least x goes to sleep on m in this step.
  ghost predicate ArrivesNow(s: State, s': State, m: MutexId, x: nat) {
    exists w | !Waits(s, w, m) && Waits(s', w, m) :: w in s.base && s.base[w] <= x
  }

  lemma SleeperArrives(s: State, w: Tid, m: MutexId, time: int, flag: IpcFlag, x: nat)
    requires Inv(s, flag) && Enabled(s, Taking(w, m, time)) && Single(s, Taking(w, m, time))
    requires Take(s.mx[m], s.prio, w, time, flag).code == None
    ensures var s' := Next(s, Taking(w, m, time), flag); var o := s.mx[m].owner.value;
            && o in s.prio && o in s'.prio && w in s.base
            && (ArrivesNow(s, s', m, x) <==> s.base[w] <= x)
            && s'.prio[o] == if s.base[w] < s.prio[o] then s.base[w] else s.prio[o]
  {
    hide FieldsOk, InheritanceOk, WaitPlace;
    OwnerKnown(s, m, flag);
    assert forall n | n in s.mx :: !Owns(s, w, n);
    var s' := Next(s, Taking(w, m, time), flag);
    assert Waits(s', w, m) && !Waits(s, w, m);
    assert forall u :: Waits(s', u, m) ==> Waits(s, u, m) || u == w;
  }

  // An owner's priority becomes better only through a thread that goes to sleep on the mutex.
  lemma BoostStep(s: State, e: Event, flag: IpcFlag, t: Tid, m: MutexId, x: nat)
    requires Inv(s, flag) && Enabled(s, e) && Single(s, e) && Owns(s, t, m) && Owns(Next(s, e, flag), t, m)
    ensures t in s.prio && t in Next(s, e, flag).prio
    ensures Next(s, e, flag).prio[t] <= x <==> s.prio[t] <= x || ArrivesNow(s, Next(s, e, flag), m, x)
  {
    if e.Taking? && e.m == m && Take(s.mx[m], s.prio, e.t, e.time, flag).code == None {
      SleeperArrives(s, e.t, m, e.time, flag, x);
    } else {
      NobodyArrives(s, e, flag, t, m);
    }
  }

  lemma NobodyArrives(s: State, e: Event, flag: IpcFlag, t: Tid, m: MutexId)
    requires Inv(s, flag) && Enabled(s, e) && Single(s, e) && Owns(s, t, m) && Owns(Next(s, e, flag), t, m)
    requires e.Taking? && e.m == m ==> Take(s.mx[m], s.prio, e.t, e.time, flag).code != None
    ensures t in s.prio && t in Next(s, e, flag).prio && Next(s, e, flag).prio[t] == s.prio[t]
    ensures forall w :: Waits(Next(s, e, flag), w, m) ==> Waits(s, w, m)
  {
    hide FieldsOk, InheritanceOk, WaitPlace;
    OwnerKnown(s, m, flag);
    if e.m != m {
      assert !Owns(s, t, e.m);
    }
  }

  /** An owner has its own priority or the best of those that went to sleep on the mutex since it got it. */
  lemma {:induction false} OwnerPriority(trace: seq<State>, events: seq<Event>, flag: IpcFlag, k: nat, n: nat, t: Tid,
                                         m: MutexId, x: nat)
    requires SingleRun(trace, events, flag) && Initial(trace[0]) && HeldSince(trace, k, n, t, m)
    ensures t in trace[0].base && t in trace[n].prio
    ensures trace[n].prio[t] <= x <==> trace[0].base[t] <= x || Arrived(trace, k, n, m, x)
  {
    hide Inv, Enabled, Next, Single, Initial, Sound, Arrived, ArrivesNow, FieldsOk;
    RunStep(trace, events, flag, n - 1, t, m);
    RunsSound(trace, events, flag, n - 1);
    RunsKeepInv(trace, events, flag, n - 1);
    if n > k + 1 {
      OwnerPriority(trace, events, flag, k, n - 1, t, m, x);
      BoostStep(trace[n - 1], events[n - 1], flag, t, m, x);
      ArrivedNext(trace, k, n, m, x);
    } else {
      RunsKeepInv(trace, events, flag, n);
      RunsSound(trace, events, flag, n);
      OwnerKnown(trace[n], m, flag);
      NoneArrived(trace, k, n, m, x);
    }
  }

  lemma NoneArrived(trace: seq<State>, k: nat, n: nat, m: MutexId, x: nat)
    requires n <= k + 1
    ensures !Arrived(trace, k, n, m, x)
  {
  }

  lemma ArrivedNext(trace: seq<State>, k: nat, n: nat, m: MutexId, x: nat)
    requires k + 1 < n < |trace|
    ensures var s, s' := trace[n - 1], trace[n];
      Arrived(trace, k, n, m, x) <==>
      Arrived(trace, k, n - 1, m, x) || ArrivesNow(s, s', m, x)
  {
    if Arrived(trace, k, n, m, x) {
      var j: nat, w :| k < j < n && Arrives(trace, j, w, m) && w in trace[j].base && trace[j].base[w] <= x;
    }
    if ArrivesNow(trace[n - 1], trace[n], m, x) {
      var w :| !Waits(trace[n - 1], w, m) && Waits(trace[n], w, m) && w in trace[n - 1].base && trace[n - 1].base[w] <= x;
      assert Arrives(trace, n - 1, w, m);
    }
  }

  /** Handing over raises nobody, so a FIFO mutex may be given to a thread that others better than it go on waiting for.
      Over every such run no waiter is better than the owner if and only if each is no better than what the owner is by
      itself, or than somebody who has gone to sleep on the mutex since it was handed over. */
  lemma InversionByArrivals(trace: seq<State>, events: seq<Event>, flag: IpcFlag, k: nat, n: nat, t: Tid, m: MutexId)
    requires SingleRun(trace, events, flag) && Initial(trace[0]) && HeldSince(trace, k, n, t, m)
    ensures t in trace[0].base && t in trace[n].prio && forall w | w in trace[n].mx[m].waiters :: w in trace[0].base
    ensures NoneBetter(trace[n].prio, trace[n].prio[t], trace[n].mx[m].waiters) <==>
            (forall w | w in trace[n].mx[m].waiters ::
               trace[0].base[t] <= trace[0].base[w] || Arrived(trace, k, n, m, trace[0].base[w]))
  {
    RunsSound(trace, events, flag, n);
    RunsKeepInv(trace, events, flag, n);
    WaitersKnown(trace[n], m, flag);
    OwnerKnown(trace[n], m, flag);
    hide Inv, Enabled, Next, Single, Initial, Run, SingleRun;
    forall w | w in trace[n].mx[m].waiters
      ensures trace[n].prio[t] <= trace[n].prio[w] <==>
              trace[0].base[t] <= trace[0].base[w] || Arrived(trace, k, n, m, trace[0].base[w])
    {
      OwnerPriority(trace, events, flag, k, n, t, m, trace[0].base[w]);
    }
  }

  // --- the order in which waiters are served ---

  /** w has been asleep on m since step j. */
  ghost predicate AsleepSince(trace: seq<State>, j: nat, n: nat, w: Tid, m: MutexId) {
    j < n < |trace| && !Waits(trace[j], w, m) && forall i | j < i <= n :: Waits(trace[i], w, m)
  }

  // The step at which a waiter of m in trace[n] went to sleep.
  ghost function SleptAt(trace: seq<State>, n: nat, w: Tid, m: MutexId): (j: nat)
    requires n < |trace|
    ensures n > 0 ==> j < n
  {
    if n == 0 then 0 else if Waits(trace[n - 1], w, m) then SleptAt(trace, n - 1, w, m) else n - 1
  }

  lemma {:induction false} SleptAtIs(trace: seq<State>, j: nat, n: nat, w: Tid, m: MutexId)
    requires AsleepSince(trace, j, n, w, m)
    ensures SleptAt(trace, n, w, m) == j
  {
    if j < n - 1 {
      SleptAtIs(trace, j, n - 1, w, m);
    }
  }

  // v is to be served before w: by its own priority on a PRIO mutex, and by the time of going to sleep.
  ghost predicate Precedes(trace: seq<State>, flag: IpcFlag, n: nat, m: MutexId, v: Tid, w: Tid)
    requires n < |trace|
  {
    var base := trace[n].base;
    if flag == Fifo then SleptAt(trace, n, v, m) < SleptAt(trace, n, w, m)
    else
      && v in base && w in base
      && (base[v] < base[w] || (base[v] == base[w] && SleptAt(trace, n, v, m) < SleptAt(trace, n, w, m)))
  }

  ghost predicate Ordered(trace: seq<State>, flag: IpcFlag, n: nat, m: MutexId) {
    && n < |trace| && m in trace[n].mx
    && forall a, b | 0 <= a < b < |trace[n].mx[m].waiters| ::
         Precedes(trace, flag, n, m, trace[n].mx[m].waiters[a], trace[n].mx[m].waiters[b])
  }

  // t is put at place i: at the end, or behind the last of the same or a better priority.
  ghost predicate PutAt(base: map<Tid, nat>, flag: IpcFlag, list: seq<Tid>, list': seq<Tid>, i: nat, t: Tid) {
    && i <= |list| && t !in list && list' == InsertAt(list, i, t) && t in base
    && (flag == Fifo ==> i == |list|)
    && (flag == Prio ==>
          && (forall a | 0 <= a < i :: list[a] in base && base[list[a]] <= base[t])
          && (forall a | i <= a < |list| :: list[a] in base && base[t] < base[list[a]]))
  }

  lemma SleeperPut(s: State, t: Tid, m: MutexId, time: int, flag: IpcFlag) returns (i: nat)
    requires Sound(s) && Enabled(s, Taking(t, m, time)) && (flag == Prio ==> Inv(s, Prio) && Single(s, Taking(t, m, time)))
    requires Take(s.mx[m], s.prio, t, time, flag).code == None
    ensures PutAt(s.base, flag, s.mx[m].waiters, Next(s, Taking(t, m, time), flag).mx[m].waiters, i, t)
  {
    hide Sound, Inv, InsertAt, PrioPos;
    var x := s.mx[m];
    assert !Waits(s, t, m);
    var prio' := Take(x, s.prio, t, time, flag).prio;
    i := WaitPlace(prio', x.waiters, s.prio[t], flag);
    if flag == Prio {
      SleeperPlace(s, t, m, prio');
    }
  }

  lemma SleeperPlace(s: State, t: Tid, m: MutexId, prio': map<Tid, nat>)
    requires Inv(s, Prio) && t in s.base && m in s.mx && s.mx[m].owner.Some? && s.mx[m].owner != Some(t)
    requires forall n | n in s.mx :: Owns(s, t, n) ==> n == m
    requires t in s.prio && (prio' == s.prio || prio' == s.prio[s.mx[m].owner.value := s.prio[t]])
    ensures var base, list, i := s.base, s.mx[m].waiters, WaitPlace(prio', s.mx[m].waiters, s.prio[t], Prio);
      && (forall a | 0 <= a < i :: list[a] in base && base[list[a]] <= base[t])
      && (forall a | i <= a < |list| :: list[a] in base && base[t] < base[list[a]])
  {
    var list := s.mx[m].waiters;
    SleeperOwn(s, t, m);
    WaitersKnown(s, m, Prio);
    hide Inv, Sorted, PrioPos;
    PrioListFrame(s.prio, list, s.mx[m].owner.value, s.prio[t]);
    InsertSorted(PrioList(s.prio, list), s.prio[t]);
    assert forall a | 0 <= a < |list| :: list[a] in list && PrioList(s.prio, list)[a] == s.base[list[a]];
  }

  // A thread about to wait has its own priority, if it owns nothing.
  lemma SleeperOwn(s: State, t: Tid, m: MutexId)
    requires Inv(s, Prio) && t in s.base && m in s.mx && s.mx[m].owner.Some? && s.mx[m].owner != Some(t)
    requires forall n | n in s.mx :: Owns(s, t, n) ==> n == m
    ensures t in s.prio && s.prio[t] == s.base[t] && Sorted(PrioList(s.prio, s.mx[m].waiters))
    ensures s.mx[m].owner.value !in s.mx[m].waiters && s.prio.Keys == s.base.Keys
  {
    assert forall n | n in s.mx :: !Owns(s, t, n);
  }

  // A step leaves a wait list alone, takes one thread out, or puts one in.
  ghost predicate ListChange(base: map<Tid, nat>, flag: IpcFlag, list: seq<Tid>, list': seq<Tid>, i: nat, t: Tid) {
    list' == list || (i < |list| && list' == DropAt(list, i)) || PutAt(base, flag, list, list', i, t)
  }

  lemma ExpiryChange(s: State, t: Tid, m: MutexId, flag: IpcFlag) returns (i: nat)
    requires Sound(s) && Enabled(s, Expiring(t, m))
    ensures ListChange(s.base, flag, s.mx[m].waiters, Next(s, Expiring(t, m), flag).mx[m].waiters, i, t)
  {
    var x := s.mx[m];
    assert MutexSound(x, s.base) && Waits(s, t, m);
    i :| 0 <= i < |x.waiters| && x.waiters[i] == t;
    RemoveAt(x.waiters, i);
  }

  lemma ListStep(s: State, e: Event, flag: IpcFlag, m: MutexId) returns (i: nat)
    requires Sound(s) && Enabled(s, e) && m in s.mx && (flag == Prio ==> Inv(s, Prio) && Single(s, e))
    ensures m in Next(s, e, flag).mx
    ensures ListChange(s.base, flag, s.mx[m].waiters, Next(s, e, flag).mx[m].waiters, i, e.t)
  {
    hide Sound, Inv, PutAt, WaitPlace, InsertAt, Single;
    var x := s.mx[m];
    i := 0;
    if e.m == m {
      if e.Taking? && Take(x, s.prio, e.t, e.time, flag).code == None {
        i := SleeperPut(s, e.t, m, e.time, flag);
      } else if e.Expiring? {
        i := ExpiryChange(s, e.t, m, flag);
      }
    }
  }

  lemma {:induction false} QueueOrdered(trace: seq<State>, events: seq<Event>, flag: IpcFlag, n: nat, m: MutexId)
    requires Run(trace, events, flag) && (flag == Prio ==> SingleRun(trace, events, Prio))
    requires Initial(trace[0]) && m in trace[0].mx && n < |trace|
    ensures Ordered(trace, flag, n, m)
  {
    hide Run, SingleRun, Initial, Enabled, Next, ListChange, Ordered;
    RunLength(trace, events, flag);
    if n > 0 {
      QueueOrdered(trace, events, flag, n - 1, m);
      var i := RunListStep(trace, events, flag, n - 1, m);
      OrderStep(trace, flag, n, m, i, events[n - 1].t);
    } else {
      InitialOrdered(trace, flag, m);
    }
  }

  lemma RunLength(trace: seq<State>, events: seq<Event>, flag: IpcFlag)
    requires Run(trace, events, flag)
    ensures |trace| == |events| + 1
  {
  }

  lemma InitialOrdered(trace: seq<State>, flag: IpcFlag, m: MutexId)
    requires |trace| > 0 && Initial(trace[0]) && m in trace[0].mx
    ensures Ordered(trace, flag, 0, m)
  {
  }

  lemma RunListStep(trace: seq<State>, events: seq<Event>, flag: IpcFlag, n: nat, m: MutexId) returns (i: nat)
    requires Run(trace, events, flag) && (flag == Prio ==> SingleRun(trace, events, Prio))
    requires Initial(trace[0]) && m in trace[0].mx && n < |events|
    ensures m in trace[n].mx && m in trace[n + 1].mx && trace[n + 1].base == trace[n].base
    ensures n == 0 ==> trace[0].mx[m].waiters == []
    ensures ListChange(trace[n].base, flag, trace[n].mx[m].waiters, trace[n + 1].mx[m].waiters, i, events[n].t)
  {
    hide Sound, Inv, Enabled, Next, Single, ListChange;
    RunsSound(trace, events, flag, n);
    RunsSound(trace, events, flag, n + 1);
    if flag == Prio {
      RunsKeepInv(trace, events, Prio, n);
    }
    i := ListStep(trace[n], events[n], flag, m);
  }

  // Two threads that go on waiting keep their order.
  lemma PrecedesKept(trace: seq<State>, flag: IpcFlag, n: nat, m: MutexId, v: Tid, w: Tid)
    requires 0 < n < |trace| && trace[n].base == trace[n - 1].base && Waits(trace[n - 1], v, m) && Waits(trace[n - 1], w, m)
    ensures Precedes(trace, flag, n, m, v, w) <==> Precedes(trace, flag, n - 1, m, v, w)
  {
  }

  lemma OrderStep(trace: seq<State>, flag: IpcFlag, n: nat, m: MutexId, i: nat, t: Tid)
    requires 0 < n < |trace| && Ordered(trace, flag, n - 1, m) && m in trace[n].mx && trace[n].base == trace[n - 1].base
    requires n == 1 ==> trace[0].mx[m].waiters == []
    requires ListChange(trace[n - 1].base, flag, trace[n - 1].mx[m].waiters, trace[n].mx[m].waiters, i, t)
    ensures Ordered(trace, flag, n, m)
  {
    hide Precedes, Waits, PutAt;
    var list, list' := trace[n - 1].mx[m].waiters, trace[n].mx[m].waiters;
    WaitsIsListed(trace[n - 1], m);
    forall a, b | 0 <= a < b < |list'|
      ensures Precedes(trace, flag, n, m, list'[a], list'[b])
    {
      if list' == list {
        PrecedesKept(trace, flag, n, m, list[a], list[b]);
      } else if i < |list| && list' == DropAt(list, i) {
        var c, d := if a < i then a else a + 1, if b < i then b else b + 1;
        assert list'[a] == list[c] && list'[b] == list[d];
        PrecedesKept(trace, flag, n, m, list[c], list[d]);
      } else {
        PutOrder(trace, flag, n, m, i, t, a, b);
      }
    }
  }

  lemma WaitsIsListed(s: State, m: MutexId)
    requires m in s.mx
    ensures forall t :: Waits(s, t, m) <==> t in s.mx[m].waiters
  {
  }

  lemma PutOrder(trace: seq<State>, flag: IpcFlag, n: nat, m: MutexId, i: nat, t: Tid, a: nat, b: nat)
    requires 0 < n < |trace| && Ordered(trace, flag, n - 1, m) && m in trace[n].mx && trace[n].base == trace[n - 1].base
    requires n == 1 ==> trace[0].mx[m].waiters == []
    requires PutAt(trace[n - 1].base, flag, trace[n - 1].mx[m].waiters, trace[n].mx[m].waiters, i, t)
    requires a < b < |trace[n].mx[m].waiters|
    ensures Precedes(trace, flag, n, m, trace[n].mx[m].waiters[a], trace[n].mx[m].waiters[b])
  {
    var list, list' := trace[n - 1].mx[m].waiters, trace[n].mx[m].waiters;
    assert list' == list[..i] + [t] + list[i..];
    if a != i && b != i {
      var c, d := if a < i then a else a - 1, if b < i then b else b - 1;
      assert list'[a] == list[c] && list'[b] == list[d];
      assert Precedes(trace, flag, n - 1, m, list[c], list[d]);
      PrecedesKept(trace, flag, n, m, list[c], list[d]);
    } else {
      assert !Waits(trace[n - 1], t, m) && SleptAt(trace, n, t, m) == n - 1;
      var c := if b == i then a else b - 1;
      assert list'[if b == i then a else b] == list[c] && Waits(trace[n - 1], list[c], m);
    }
  }

  /** Over every run of FIFO mutexes, and every run of PRIO mutexes in which nobody owns two: of two waiters the one in front is
      the better one or, if they are equally good or the mutex is a FIFO one, the one that has been asleep for longer. */
  lemma ServedInOrder(trace: seq<State>, events: seq<Event>, flag: IpcFlag, n: nat, m: MutexId, a: nat, b: nat, ja: nat, jb: nat)
    requires Run(trace, events, flag) && (flag == Prio ==> SingleRun(trace, events, Prio))
    requires Initial(trace[0]) && n < |trace| && m in trace[n].mx && a < b < |trace[n].mx[m].waiters|
    requires AsleepSince(trace, ja, n, trace[n].mx[m].waiters[a], m) && AsleepSince(trace, jb, n, trace[n].mx[m].waiters[b], m)
    ensures var prio, v, w := trace[n].prio, trace[n].mx[m].waiters[a], trace[n].mx[m].waiters[b];
      v in prio && w in prio &&
      if flag == Fifo then ja < jb else prio[v] < prio[w] || (prio[v] == prio[w] && ja < jb)
  {
    RunsSound(trace, events, flag, n);
    QueueOrdered(trace, events, flag, n, m);
    var v, w := trace[n].mx[m].waiters[a], trace[n].mx[m].waiters[b];
    SleptAtIs(trace, ja, n, v, m);
    SleptAtIs(trace, jb, n, w, m);
    assert MutexSound(trace[n].mx[m], trace[n].base);
    if flag == Prio {
      RunsKeepInv(trace, events, Prio, n);
      WaitersKnown(trace[n], m, Prio);
    }
  }

  /** Every waiter went to sleep at some step of the run. */
  lemma {:induction false} AsleepAt(trace: seq<State>, events: seq<Event>, flag: IpcFlag, n: nat, w: Tid, m: MutexId)
    returns (j: nat)
    requires Run(trace, events, flag) && Initial(trace[0]) && n < |trace| && Waits(trace[n], w, m)
    ensures AsleepSince(trace, j, n, w, m)
  {
    if Waits(trace[n - 1], w, m) {
      j := AsleepAt(trace, events, flag, n - 1, w, m);
    } else {
      j := n - 1;
    }
  }

  /** So a mutex given up goes to the waiter that is served before all others. */
  lemma HandedInOrder(trace: seq<State>, events: seq<Event>, flag: IpcFlag, n: nat, t: Tid, m: MutexId, b: nat, jh: nat, jb: nat)
    requires Run(trace, events, flag) && (flag == Prio ==> SingleRun(trace, events, Prio)) && Initial(trace[0])
    requires GivesUp(trace, n, t, m) && 0 < b < |trace[n].mx[m].waiters|
    requires AsleepSince(trace, jh, n, trace[n].mx[m].waiters[0], m) && AsleepSince(trace, jb, n, trace[n].mx[m].waiters[b], m)
    ensures var prio, h, w := trace[n].prio, trace[n].mx[m].waiters[0], trace[n].mx[m].waiters[b];
      Owns(trace[n + 1], h, m) && h in prio && w in prio &&
      if flag == Fifo then jh < jb else prio[h] < prio[w] || (prio[h] == prio[w] && jh < jb)
  {
    ServedInOrder(trace, events, flag, n, m, 0, b, jh, jb);
    RunStep(trace, events, flag, n, t, m);
    RunsSound(trace, events, flag, n);
    assert MutexSound(trace[n].mx[m], trace[n].base);
  }

  // --- runs in which inheritance stops short of its purpose ---

  // Threads 1, 2 and 3 of priorities 20, 10 and 5, and two mutexes.
  function Prios3(a: nat, b: nat, c: nat): map<Tid, nat> {
    map[1 := a, 2 := b, 3 := c]
  }

  function Two(prio: map<Tid, nat>, x: Mx, y: Mx): State {
    State(Prios3(20, 10, 5), prio, map[0 := x, 1 := y])
  }

  lemma TwoInitial()
    ensures Initial(Two(Prios3(20, 10, 5), FREE_MUTEX, FREE_MUTEX))
  {
  }

  lemma RunOf4(s: seq<State>, e: seq<Event>, flag: IpcFlag)
    requires |s| == 5 && |e| == 4
    requires Enabled(s[0], e[0]) && s[1] == Next(s[0], e[0], flag) && Enabled(s[1], e[1]) && s[2] == Next(s[1], e[1], flag)
    requires Enabled(s[2], e[2]) && s[3] == Next(s[2], e[2], flag) && Enabled(s[3], e[3]) && s[4] == Next(s[3], e[3], flag)
    ensures Run(s, e, flag)
    ensures Single(s[0], e[0]) && Single(s[1], e[1]) && Single(s[2], e[2]) && Single(s[3], e[3]) ==> SingleRun(s, e, flag)
  {
    hide Enabled, Next, Single;
  }

  // t does not wait, and the step from s to s' changes only m and priorities.
  ghost predicate Only(s: State, s': State, t: Tid, m: MutexId) {
    && t in s.base && s'.base == s.base && m <= 1 && s.mx.Keys == s'.mx.Keys == {0, 1} && s'.mx[1 - m] == s.mx[1 - m]
    && t !in s.mx[0].waiters && t !in s.mx[1].waiters
  }

  lemma Gets(s: State, s': State, t: Tid, m: MutexId, flag: IpcFlag)
    requires Only(s, s', t, m) && s.mx[m] == FREE_MUTEX && t in s.prio
    requires s'.mx[m] == Mx(0, Some(t), s.prio[t], 1, []) && s'.prio == s.prio
    ensures Enabled(s, Taking(t, m, -1)) && s' == Next(s, Taking(t, m, -1), flag)
    ensures s.mx[1 - m].owner != Some(t) ==> Single(s, Taking(t, m, -1))
  {
    assert s'.mx == s.mx[m := s'.mx[m]];
  }

  lemma Sleeps(s: State, s': State, t: Tid, m: MutexId, flag: IpcFlag, o: Tid)
    requires Only(s, s', t, m)
    requires s.mx[m].owner == Some(o) && s.mx[m].value == 0 && o != t && o in s.prio && t in s.prio
    requires s.mx[m].waiters == [] || flag == Fifo
    requires s'.mx[m] == s.mx[m].(waiters := s.mx[m].waiters + [t])
    requires s'.prio == if s.prio[t] < s.prio[o] then s.prio[o := s.prio[t]] else s.prio
    ensures Enabled(s, Taking(t, m, -1)) && s' == Next(s, Taking(t, m, -1), flag)
    ensures s.mx[1 - m].owner != Some(t) ==> Single(s, Taking(t, m, -1))
  {
    assert s'.mx == s.mx[m := s'.mx[m]];
    LastPlace(s'.prio, s.mx[m].waiters, s.prio[t], flag, t);
    hide WaitPlace, InsertAt;
    assert Next(s, Taking(t, m, -1), flag).mx[m] == s'.mx[m];
  }

  lemma LastPlace(prio: map<Tid, nat>, list: seq<Tid>, p: nat, flag: IpcFlag, t: Tid)
    requires list == [] || flag == Fifo
    ensures WaitPlace(prio, list, p, flag) == |list| && InsertAt(list, |list|, t) == list + [t]
  {
  }

  lemma GivesBack(s: State, s': State, t: Tid, m: MutexId, flag: IpcFlag)
    requires Only(s, s', t, m)
    requires s.mx[m].owner == Some(t) && s.mx[m].hold == 1 && s.mx[m].value == 0 && s'.prio == s.prio[t := s.mx[m].original]
    requires var list, x := s.mx[m].waiters, s'.mx[m];
      if list == [] then x == FREE_MUTEX
      else list[0] in s'.prio && x == Mx(0, Some(list[0]), s'.prio[list[0]], 1, list[1..])
    ensures Enabled(s, Releasing(t, m)) && s' == Next(s, Releasing(t, m), flag) && Single(s, Releasing(t, m))
  {
    assert s'.mx == s.mx[m := s'.mx[m]];
  }

  lemma OverlapReleases(p: map<Tid, nat>, q: map<Tid, nat>)
    requires p == Prios3(20, 10, 5) && q == p[1 := 5]
    ensures var x, x', y := Mx(0, Some(1), 20, 1, [3]), Mx(0, Some(3), 5, 1, []), Mx(0, Some(1), 5, 1, []);
      && Enabled(Two(q, x, y), Releasing(1, 0)) && Two(p, x', y) == Next(Two(q, x, y), Releasing(1, 0), Prio)
      && Enabled(Two(p, x', y), Releasing(1, 1)) && Two(q, x', FREE_MUTEX) == Next(Two(p, x', y), Releasing(1, 1), Prio)
  {
    hide Enabled, Next, Take, Release, Single;
    assert p == q[1 := 20];
    var x', y := Mx(0, Some(3), 5, 1, []), Mx(0, Some(1), 5, 1, []);
    GivesBack(Two(q, Mx(0, Some(1), 20, 1, [3]), y), Two(p, x', y), 1, 0, Prio);
    GivesBack(Two(p, x', y), Two(q, x', FREE_MUTEX), 1, 1, Prio);
  }

  /** The wrong priority comes back: thread 1 takes mutex 0, inherits 5 from thread 3, takes mutex 1 and gives both back in
      the order taken. It then owns nothing and still runs at 5. */
  lemma OverlapRestoresWrongPriority() returns (trace: seq<State>, events: seq<Event>)
    ensures Run(trace, events, Prio) && Initial(trace[0]) && |trace| == 6 && trace[0].base == Prios3(20, 10, 5)
    ensures HeldSince(trace, 2, 4, 1, 1) && GivesUp(trace, 4, 1, 1) && OwnsNothing(trace[5], 1)
    ensures trace[2].prio == trace[5].prio == Prios3(5, 10, 5)
  {
    hide Enabled, Next, Take, Release, Initial, Single;
    TwoInitial();
    var p := Prios3(20, 10, 5);
    var q := p[1 := 5];
    assert q == Prios3(5, 10, 5);
    var s0 := Two(p, FREE_MUTEX, FREE_MUTEX);
    var s1 := Two(p, Mx(0, Some(1), 20, 1, []), FREE_MUTEX);
    var s2 := Two(q, Mx(0, Some(1), 20, 1, [3]), FREE_MUTEX);
    var s3 := Two(q, Mx(0, Some(1), 20, 1, [3]), Mx(0, Some(1), 5, 1, []));
    var s4 := Two(p, Mx(0, Some(3), 5, 1, []), Mx(0, Some(1), 5, 1, []));
    var s5 := Two(q, Mx(0, Some(3), 5, 1, []), FREE_MUTEX);
    trace := [s0, s1, s2, s3, s4, s5];
    events := [Taking(1, 0, -1), Taking(3, 0, -1), Taking(1, 1, -1), Releasing(1, 0), Releasing(1, 1)];
    Gets(s0, s1, 1, 0, Prio);
    Sleeps(s1, s2, 3, 0, Prio, 1);
    Gets(s2, s3, 1, 1, Prio);
    OverlapReleases(p, q);
  }

  /** And it comes back too soon: thread 1 takes both, inherits 5 from thread 3, which waits for mutex 0, and gives mutex 1
      back. It goes on at 20 while thread 3 waits for it. */
  lemma OverlapInversion() returns (trace: seq<State>, events: seq<Event>)
    ensures Run(trace, events, Prio) && Initial(trace[0]) && |trace| == 5 && trace[0].base == Prios3(20, 10, 5)
    ensures Owns(trace[4], 1, 0) && Waits(trace[4], 3, 0) && trace[4].prio == Prios3(20, 10, 5)
  {
    hide Enabled, Next, Take, Release, Initial, Single, Run, SingleRun;
    TwoInitial();
    var p, q := Prios3(20, 10, 5), Prios3(5, 10, 5);
    var s0 := Two(p, FREE_MUTEX, FREE_MUTEX);
    var s1 := Two(p, Mx(0, Some(1), 20, 1, []), FREE_MUTEX);
    var s2 := Two(p, Mx(0, Some(1), 20, 1, []), Mx(0, Some(1), 20, 1, []));
    var s3 := Two(q, Mx(0, Some(1), 20, 1, [3]), Mx(0, Some(1), 20, 1, []));
    var s4 := Two(p, Mx(0, Some(1), 20, 1, [3]), FREE_MUTEX);
    trace := [s0, s1, s2, s3, s4];
    events := [Taking(1, 0, -1), Taking(1, 1, -1), Taking(3, 0, -1), Releasing(1, 1)];
    Gets(s0, s1, 1, 0, Prio);
    Gets(s1, s2, 1, 1, Prio);
    Sleeps(s2, s3, 3, 0, Prio, 1);
    GivesBack(s3, s4, 1, 1, Prio);
    RunOf4(trace, events, Prio);
  }

  lemma BoostArrivals(p: map<Tid, nat>, q: map<Tid, nat>, r: map<Tid, nat>)
    requires p == Prios3(20, 10, 5) && q == p[1 := 10] && r == q[2 := 5]
    ensures var x, x', y := Mx(0, Some(1), 20, 1, []), Mx(0, Some(1), 20, 1, [2]), Mx(0, Some(2), 10, 1, []);
      Enabled(Two(p, x, y), Taking(2, 0, -1)) && Two(q, x', y) == Next(Two(p, x, y), Taking(2, 0, -1), Prio)
    ensures var x, y, y' := Mx(0, Some(1), 20, 1, [2]), Mx(0, Some(2), 10, 1, []), Mx(0, Some(2), 10, 1, [3]);
      Enabled(Two(q, x, y), Taking(3, 1, -1)) && Two(r, x, y') == Next(Two(q, x, y), Taking(3, 1, -1), Prio)
  {
    hide Enabled, Next, Take, Release, Single;
    var x, y := Mx(0, Some(1), 20, 1, [2]), Mx(0, Some(2), 10, 1, []);
    Sleeps(Two(p, Mx(0, Some(1), 20, 1, []), y), Two(q, x, y), 2, 0, Prio, 1);
    Sleeps(Two(q, x, y), Two(r, x, Mx(0, Some(2), 10, 1, [3])), 3, 1, Prio, 2);
  }

  /** A boost stops at the owner: thread 2 owns mutex 1 and waits for mutex 0 of thread 1; thread 3 then waits for mutex 1.
      Thread 2 waits at 5 for thread 1, which stays at 10. */
  lemma BoostStopsAtOwner() returns (trace: seq<State>, events: seq<Event>)
    ensures Run(trace, events, Prio) && Initial(trace[0]) && |trace| == 5 && trace[0].base == Prios3(20, 10, 5)
    ensures Owns(trace[4], 1, 0) && Waits(trace[4], 2, 0) && Owns(trace[4], 2, 1) && Waits(trace[4], 3, 1)
    ensures trace[4].prio == Prios3(10, 5, 5)
  {
    hide Enabled, Next, Take, Release, Initial, Single, Run, SingleRun;
    TwoInitial();
    var p := Prios3(20, 10, 5);
    var q := p[1 := 10];
    var r := q[2 := 5];
    assert r == Prios3(10, 5, 5);
    var s0 := Two(p, FREE_MUTEX, FREE_MUTEX);
    var s1 := Two(p, Mx(0, Some(1), 20, 1, []), FREE_MUTEX);
    var s2 := Two(p, Mx(0, Some(1), 20, 1, []), Mx(0, Some(2), 10, 1, []));
    var s3 := Two(q, Mx(0, Some(1), 20, 1, [2]), Mx(0, Some(2), 10, 1, []));
    var s4 := Two(r, Mx(0, Some(1), 20, 1, [2]), Mx(0, Some(2), 10, 1, [3]));
    trace := [s0, s1, s2, s3, s4];
    events := [Taking(1, 0, -1), Taking(2, 1, -1), Taking(2, 0, -1), Taking(3, 1, -1)];
    Gets(s0, s1, 1, 0, Prio);
    Gets(s1, s2, 2, 1, Prio);
    BoostArrivals(p, q, r);
    RunOf4(trace, events, Prio);
  }

  lemma FifoArrivals(p: map<Tid, nat>, q: map<Tid, nat>)
    requires p == Prios3(20, 10, 5) && q == p[2 := 5]
    ensures var s0, s1 := Two(p, FREE_MUTEX, FREE_MUTEX), Two(p, Mx(0, Some(2), 10, 1, []), FREE_MUTEX);
      Enabled(s0, Taking(2, 0, -1)) && s1 == Next(s0, Taking(2, 0, -1), Fifo) && Single(s0, Taking(2, 0, -1))
    ensures var s1, s2 := Two(p, Mx(0, Some(2), 10, 1, []), FREE_MUTEX), Two(p, Mx(0, Some(2), 10, 1, [1]), FREE_MUTEX);
      Enabled(s1, Taking(1, 0, -1)) && s2 == Next(s1, Taking(1, 0, -1), Fifo) && Single(s1, Taking(1, 0, -1))
    ensures var s2, s3 := Two(p, Mx(0, Some(2), 10, 1, [1]), FREE_MUTEX), Two(q, Mx(0, Some(2), 10, 1, [1, 3]), FREE_MUTEX);
      Enabled(s2, Taking(3, 0, -1)) && s3 == Next(s2, Taking(3, 0, -1), Fifo) && Single(s2, Taking(3, 0, -1))
  {
    hide Enabled, Next, Take, Release, Single;
    var s0, s1 := Two(p, FREE_MUTEX, FREE_MUTEX), Two(p, Mx(0, Some(2), 10, 1, []), FREE_MUTEX);
    var s2, s3 := Two(p, Mx(0, Some(2), 10, 1, [1]), FREE_MUTEX), Two(q, Mx(0, Some(2), 10, 1, [1, 3]), FREE_MUTEX);
    Gets(s0, s1, 2, 0, Fifo);
    Sleeps(s1, s2, 1, 0, Fifo, 2);
    Sleeps(s2, s3, 3, 0, Fifo, 2);
  }

  /** A FIFO mutex is handed to the first that came: thread 2 owns it, 1 and then 3 wait for it, 2 releases it, and thread 3,
      of priority 5, now waits for thread 1, which runs at 20. */
  lemma FifoInversion() returns (trace: seq<State>, events: seq<Event>)
    ensures SingleRun(trace, events, Fifo) && Initial(trace[0]) && |trace| == 5 && trace[0].base == Prios3(20, 10, 5)
    ensures HeldSince(trace, 3, 4, 1, 0) && Waits(trace[4], 3, 0) && trace[4].prio == Prios3(20, 10, 5)
  {
    hide Enabled, Next, Take, Release, Initial, Single, Run, SingleRun;
    TwoInitial();
    var p := Prios3(20, 10, 5);
    var q := p[2 := 5];
    assert p == q[2 := 10];
    var s0 := Two(p, FREE_MUTEX, FREE_MUTEX);
    var s1 := Two(p, Mx(0, Some(2), 10, 1, []), FREE_MUTEX);
    var s2 := Two(p, Mx(0, Some(2), 10, 1, [1]), FREE_MUTEX);
    var s3 := Two(q, Mx(0, Some(2), 10, 1, [1, 3]), FREE_MUTEX);
    var s4 := Two(p, Mx(0, Some(1), 20, 1, [3]), FREE_MUTEX);
    trace := [s0, s1, s2, s3, s4];
    events := [Taking(2, 0, -1), Taking(1, 0, -1), Taking(3, 0, -1), Releasing(2, 0)];
    FifoArrivals(p, q);
    GivesBack(s3, s4, 2, 0, Fifo);
    RunOf4(trace, events, Fifo);
  }

  // Thread 1 has taken mutex 0 i times.
  function Nested257(i: nat): State {
    Two(Prios3(20, 10, 5), if i == 0 then FREE_MUTEX else Mx(0, Some(1), 20, i % 256, []), FREE_MUTEX)
  }

  lemma TakesAgain(i: nat)
    ensures Enabled(Nested257(i), Taking(1, 0, -1)) && Nested257(i + 1) == Next(Nested257(i), Taking(1, 0, -1), Prio)
  {
    var s, s' := Nested257(i), Nested257(i + 1);
    assert s'.mx == s.mx[0 := s'.mx[0]];
  }

  /** The hold counter overflows: thread 1 takes a mutex 257 times, releases it once, and owns it no more. */
  lemma NestingOverflows() returns (trace: seq<State>, events: seq<Event>)
    ensures Run(trace, events, Prio) && Initial(trace[0]) && |events| == 258
    ensures (forall i | 0 <= i < 257 :: events[i] == Taking(1, 0, -1)) && events[257] == Releasing(1, 0)
    ensures HeldSince(trace, 0, 257, 1, 0) && GivesUp(trace, 257, 1, 0)
  {
    hide Enabled, Next;
    var s := Nested257(0);
    trace := seq(258, i requires 0 <= i < 258 => Nested257(i)) + [s];
    events := seq(257, i requires 0 <= i < 257 => Taking(1, 0, -1)) + [Releasing(1, 0)];
    forall i | 0 <= i < 257
      ensures Enabled(trace[i], events[i]) && trace[i + 1] == Next(trace[i], events[i], Prio)
    {
      TakesAgain(i);
    }
    GivesBack(Nested257(257), s, 1, 0, Prio);
  }
}

/** The mutex object, on the kernel that changes priorities and suspends and resumes threads. */
module Mutexes {
  import opened BitIndex
  import opened Kernels
  import opened Lists
  import opened MutexProtocol

  // The current priorities of all threads.
  ghost function Prios(tcb: map<Tid, Tcb>): map<Tid, nat> {
    map t | t in tcb :: tcb[t].currentPriority
  }

  lemma PlaceIsWaitPlace(tcb: map<Tid, Tcb>, list: seq<Tid>, t: Tid, flag: IpcFlag)
    requires t in tcb && forall u | u in list :: u in tcb
    ensures Place(tcb, list, t, flag) == WaitPlace(Prios(tcb), list, tcb[t].currentPriority, flag)
  {
    assert Priorities(tcb, list) == PrioList(Prios(tcb), list);
  }

  lemma PriosUpdate(tcb: map<Tid, Tcb>, t: Tid, b: Tcb)
    ensures Prios(tcb[t := b]) == Prios(tcb)[t := b.currentPriority]
    ensures t in tcb && b.currentPriority == tcb[t].currentPriority ==> Prios(tcb[t := b]) == Prios(tcb)
  {
  }

  // Neither woken, nor put to sleep, nor told anything.
  predicate SameWait(before: Tcb, after: Tcb) {
    after.stat == before.stat && after.error == before.error && after.timerArmed == before.timerArmed
  }

  // Nobody is told anything, and nobody but the new owner is woken.
  ghost predicate Undisturbed(before: map<Tid, Tcb>, after: map<Tid, Tcb>, owner: Option<Tid>) {
    && after.Keys == before.Keys
    && (forall u | u in before :: after[u].error == before[u].error)
    && forall u | u in before && owner != Some(u) :: SameWait(before[u], after[u])
  }

  class Mutex {
    const k: Kernel
    const flag: IpcFlag
    var value: nat                // rt_uint16_t
    var owner: Option<Tid>
    var original: nat             // original_priority, rt_uint8_t
    var hold: nat                 // rt_uint8_t
    const queue: QueueId          // parent.suspend_thread

    ghost function View(): Mx
      reads this, k
    {
      Mx(value, owner, original, hold, if queue in k.wait then k.wait[queue] else [])
    }

    ghost predicate Valid()
      reads this, k
    {
      && k.Valid() && queue in k.wait && FieldsOk(View())
      && (owner.Some? ==> owner.value in k.tcb && original < k.prioMax)
    }

    // rt_mutex_init
    constructor (kernel: Kernel, flag: IpcFlag, q: QueueId)
      requires kernel.Valid() && q !in kernel.wait
      modifies kernel`wait
      ensures Valid() && k == kernel && View() == FREE_MUTEX && kernel.wait == old(kernel.wait)[q := []]
    {
      k, this.flag, queue := kernel, flag, q;
      value, owner, original, hold := 1, None, NO_PRIORITY, 0;
      new;
      kernel.QueueInit(q);
    }

    // rt_mutex_take, up to its return or to its going to sleep
    method TakeMutex(t: Tid, time: int) returns (r: Option<Err>)
      requires Valid() && t in k.tcb && k.tcb[t].stat == Ready
      modifies this`value, this`owner, this`original, this`hold, k
      ensures Valid()
      ensures var res := Take(old(View()), old(Prios(k.tcb)), t, time, flag);
              View() == res.mx && Prios(k.tcb) == res.prio && r == res.code
      ensures k.wait.Keys == old(k.wait).Keys && forall q | q in k.wait && q != queue :: k.wait[q] == old(k.wait)[q]
      // the caller runs on with what it is told, or sleeps, with a timer if its time is limited
      ensures k.tcb.Keys == old(k.tcb).Keys && k.tcb[t].stat == (if r.Some? then Ready else Suspend)
      ensures k.tcb[t].error == (if r.Some? then r.value else EOk) && (r == None ==> k.tcb[t].timerArmed == (time > 0))
      ensures forall u | u in k.tcb && u != t :: SameWait(old(k.tcb)[u], k.tcb[u])
    {
      hide Consistent, Prios, PrioList, PrioPos, Place, WaitPlace, InsertAt, Dropped, Distinct;
      PriosUpdate(k.tcb, t, k.tcb[t].(error := EOk));
      PriosOf(k.tcb, t);
      k.SetError(t, EOk);
      if owner == Some(t) {
        hold := (hold + 1) % 256;
        return Some(EOk);
      } else if value > 0 {
        PriorityInRange(k.tcb, k.table, k.group, k.readyTable, k.wait, k.defunct, t);
        value := value - 1;
        owner := Some(t);
        original := k.tcb[t].currentPriority;
        hold := (hold + 1) % 256;
        return Some(EOk);
      } else if time == 0 {
        PriosUpdate(k.tcb, t, k.tcb[t].(error := ETimeout));
        k.SetError(t, ETimeout);
        return Some(ETimeout);
      } else {
        Inherit(t);
        SleepPlace(k.tcb, k.table, k.group, k.readyTable, k.wait, k.defunct, queue, t, flag);
        PriosUpdate(k.tcb, t, Blocked(k.tcb[t], time > 0));
        SleepFields(View(), t, Place(k.tcb, k.wait[queue], t, flag));
        k.Block(queue, t, flag, time > 0);
        return None;
      }
    }

    // The owner inherits the priority of the thread about to wait, if that is better.
    method Inherit(t: Tid)
      requires Valid() && owner.Some? && owner.value != t && t in k.tcb && k.tcb[t].stat == Ready
      modifies k
      ensures Valid() && k.wait == old(k.wait) && t in k.tcb && k.tcb[t] == old(k.tcb)[t] && k.tcb.Keys == old(k.tcb).Keys
      ensures forall u | u in k.tcb :: SameWait(old(k.tcb)[u], k.tcb[u])
      ensures var p, o := old(Prios(k.tcb)), owner.value;
              t in p && o in p && Prios(k.tcb) == if p[t] < p[o] then p[o := p[t]] else p
    {
      hide Consistent, Prios, Dropped, Appended, Distinct;
      PriosOf(k.tcb, t);
      PriosOf(k.tcb, owner.value);
      PriorityInRange(k.tcb, k.table, k.group, k.readyTable, k.wait, k.defunct, t);
      if k.tcb[t].currentPriority < k.tcb[owner.value].currentPriority {
        PriosUpdate(k.tcb, owner.value, k.WithPriority(k.tcb[owner.value], k.tcb[t].currentPriority));
        k.ChangePriority(owner.value, k.tcb[t].currentPriority);
      }
    }

    // The owner gets back the priority it had when it took the mutex.
    method Restore(t: Tid)
      requires k.Valid() && t in k.tcb && original < k.prioMax
      modifies k
      ensures k.Valid() && k.wait == old(k.wait) && k.tcb.Keys == old(k.tcb).Keys
      ensures Prios(k.tcb) == old(Prios(k.tcb))[t := original]
      ensures forall u | u in k.tcb :: SameWait(old(k.tcb)[u], k.tcb[u])
    {
      hide Consistent, Prios, Dropped, Appended, Distinct;
      PriorityInRange(k.tcb, k.table, k.group, k.readyTable, k.wait, k.defunct, t);
      PriosOf(k.tcb, t);
      PriosUpdate(k.tcb, t, k.WithPriority(k.tcb[t], original));
      if original != k.tcb[t].currentPriority {
        k.ChangePriority(t, original);
      }
    }

    // The first waiter becomes the owner, and is woken.
    method HandOn()
      requires k.Valid() && queue in k.wait && k.wait[queue] != [] && value == 0 && hold == 0
      modifies this`owner, this`original, this`hold, k
      ensures Valid() && old(k.wait)[queue][0] in k.tcb
      ensures var h := old(k.wait)[queue][0];
        && h in Prios(k.tcb) && View() == Mx(0, Some(h), Prios(k.tcb)[h], 1, old(k.wait)[queue][1..])
        && k.tcb == old(k.tcb)[h := k.tcb[h]] && h in old(k.tcb)
        && k.tcb[h].stat == Ready && k.tcb[h].error == old(k.tcb)[h].error
      ensures Prios(k.tcb) == old(Prios(k.tcb)) && k.wait == old(k.wait)[queue := old(k.wait)[queue][1..]]
    {
      hide Consistent, Prios, Dropped, Appended, Distinct;
      WaitersOk(k.tcb, k.table, k.group, k.readyTable, k.wait, k.defunct, queue);
      var h := k.wait[queue][0];
      PriorityInRange(k.tcb, k.table, k.group, k.readyTable, k.wait, k.defunct, h);
      PriosOf(k.tcb, h);
      PriosUpdate(k.tcb, h, Woken(k.tcb[h], k.tcb[h].error));
      DistinctTail(k.wait[queue]);
      owner := Some(h);
      original := k.tcb[h].currentPriority;
      hold := (hold + 1) % 256;
      k.IpcResume(queue);
      PriosOf(k.tcb, h);
    }

    // The owner has released as often as it has taken.
    method GiveUp(t: Tid)
      requires Valid() && owner == Some(t) && hold == 0
      modifies this`value, this`owner, this`original, this`hold, k
      ensures Valid()
      ensures var res := Release(old(View()).(hold := 1), old(Prios(k.tcb)), t); View() == res.mx && Prios(k.tcb) == res.prio
      ensures k.wait.Keys == old(k.wait).Keys && forall q | q in k.wait && q != queue :: k.wait[q] == old(k.wait)[q]
      ensures owner.Some? ==> owner.value in k.tcb && k.tcb[owner.value].stat == Ready
      ensures Undisturbed(old(k.tcb), k.tcb, owner)
    {
      hide Consistent, Prios, Dropped, Appended, Distinct;
      Restore(t);
      if k.wait[queue] != [] {
        HandOn();
      } else {
        value := value + 1;
        owner := None;
        original := NO_PRIORITY;
      }
    }

    // rt_mutex_release
    method ReleaseMutex(t: Tid) returns (r: Err)
      requires Valid() && t in k.tcb
      modifies this`value, this`owner, this`original, this`hold, k
      ensures Valid()
      ensures var res := Release(old(View()), old(Prios(k.tcb)), t);
              View() == res.mx && Prios(k.tcb) == res.prio && Some(r) == res.code
      ensures k.wait.Keys == old(k.wait).Keys && forall q | q in k.wait && q != queue :: k.wait[q] == old(k.wait)[q]
      // the new owner, if there is one, is woken, and returns what its take has set: RT_EOK
      ensures owner.Some? && owner != old(owner) ==> owner.value in k.tcb && k.tcb[owner.value].stat == Ready
      ensures if r == EOk then Undisturbed(old(k.tcb), k.tcb, owner) else k.tcb == old(k.tcb)[t := old(k.tcb)[t].(error := r)]
    {
      hide Consistent, Prios, Dropped, Appended, Distinct;
      if owner != Some(t) {
        PriosUpdate(k.tcb, t, k.tcb[t].(error := EError));
        k.SetError(t, EError);
        return EError;
      }
      hold := (hold + 255) % 256;
      if hold == 0 {
        GiveUp(t);
      }
      return EOk;
    }

    // rt_thread_timeout for a thread asleep in a timed rt_mutex_take
    method TimerFires(t: Tid)
      requires Valid() && t in k.wait[queue] && t in k.tcb && k.tcb[t].timerArmed
      modifies k
      ensures Valid() && View() == Expire(old(View()), t) && Prios(k.tcb) == old(Prios(k.tcb))
      // its rt_mutex_take returns RT_ETIMEOUT
      ensures t in k.tcb && k.tcb == old(k.tcb)[t := k.tcb[t]] && k.tcb[t].stat == Ready && k.tcb[t].error == ETimeout
      ensures k.wait.Keys == old(k.wait).Keys && forall q | q in k.wait && q != queue :: k.wait[q] == old(k.wait)[q]
    {
      hide Consistent, Prios, Appended, HeadsBest, Unlinked, Remove;
      PriosUpdate(k.tcb, t, Woken(k.tcb[t], ETimeout));
      RemoveDistinct(k.wait[queue], t);
      UnlinkWaiter(k.tcb, k.table, k.group, k.readyTable, k.wait, k.defunct, queue, t);
      k.Timeout(t);
    }
  }

  lemma PriosOf(tcb: map<Tid, Tcb>, t: Tid)
    requires t in tcb
    ensures t in Prios(tcb) && Prios(tcb)[t] == tcb[t].currentPriority
  {
  }

  lemma PriorityInRange(tcb: map<Tid, Tcb>, ready: seq<seq<Tid>>, group: Word, bytes: seq<Word>,
                        wait: map<QueueId, seq<Tid>>, defunct: seq<Tid>, t: Tid)
    requires Consistent(tcb, ready, group, bytes, wait, defunct, {}) && t in tcb
    ensures tcb[t].currentPriority < |ready| <= 256
  {
  }

  lemma SleepPlace(tcb: map<Tid, Tcb>, ready: seq<seq<Tid>>, group: Word, bytes: seq<Word>,
                   wait: map<QueueId, seq<Tid>>, defunct: seq<Tid>, q: QueueId, t: Tid, flag: IpcFlag)
    requires Consistent(tcb, ready, group, bytes, wait, defunct, {}) && t in tcb && q in wait && tcb[t].stat == Ready
    ensures forall u | u in wait[q] :: u in tcb
    ensures t !in wait[q] && Place(tcb, wait[q], t, flag) == WaitPlace(Prios(tcb), wait[q], tcb[t].currentPriority, flag)
  {
    PlaceIsWaitPlace(tcb, wait[q], t, flag);
  }

  lemma SleepFields(m: Mx, t: Tid, pos: nat)
    requires FieldsOk(m) && pos <= |m.waiters| && m.owner.Some? && m.owner != Some(t) && t !in m.waiters
    ensures FieldsOk(m.(waiters := InsertAt(m.waiters, pos, t)))
  {
    InsertDistinct(m.waiters, pos, t);
  }
}
