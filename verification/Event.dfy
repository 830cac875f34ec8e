/** Event objects: sets of event bits, and threads waiting for all or for some of a set of bits. */
module EventProtocol {
  import opened Kernels
  import opened Lists

  // A 32-bit event word, as the set of its set bits: `|` is `+`, `&` is `*`, `& ~` is `-`.
  type Bits = w: set<nat> | forall b | b in w :: b < 32 witness {}

  /** thread->event_set and thread->event_info: RT_EVENT_FLAG_AND, RT_EVENT_FLAG_OR, RT_EVENT_FLAG_CLEAR. */
  datatype Want = Want(bits: Bits, and: bool, or: bool, clear: bool)

  datatype Status = Waiting | Got(bits: Bits) | Failed(err: Err)

  datatype Call = Call(want: Want, armed: bool, status: Status)

  datatype State = State(word: Bits, waiters: seq<Tid>, calls: map<Tid, Call>)

  datatype Outcome = Outcome(s: State, result: Option<Err>, received: Option<Bits>)

  /** What rt_event_recv asks of the event word. */
  predicate Satisfied(want: Want, word: Bits) {
    if want.and then word * want.bits == want.bits
    else want.or && word * want.bits != {}
  }

  // What rt_event_recv hands over, and what it leaves behind, when the condition holds at once.
  function RecvBits(want: Want, word: Bits): Bits {
    word * want.bits
  }

  function RecvLeaves(want: Want, word: Bits): Bits {
    if want.clear then word - want.bits else word
  }

  /** One pass of rt_event_send over the waiters: the bits left in the event, the threads still waiting,
      and the woken ones with the bits they got. */
  datatype Pass = Pass(word: Bits, kept: seq<Tid>, woken: seq<(Tid, Bits)>)

  function SendPass(word: Bits, list: seq<Tid>, wants: map<Tid, Want>): Pass
    requires forall t | t in list :: t in wants
  {
    if list == [] then Pass(word, [], [])
    else
      var want := wants[list[0]];
      // thread->event_set, narrowed for an OR condition
      var eventSet: Bits := if want.and then want.bits else want.bits * word;
      if (if want.and then want.bits * word == want.bits else want.or && want.bits * word != {}) then
        var rest := SendPass(if want.clear then word - eventSet else word, list[1..], wants);
        rest.(woken := [(list[0], eventSet)] + rest.woken)
      else
        var rest := SendPass(word, list[1..], wants);
        rest.(kept := [list[0]] + rest.kept)
  }

  datatype Event =
    | Recv(t: Tid, want: Want, timeout: int, pos: nat)
    | Send(bits: Bits)
    | Return(t: Tid)
    | Timeout(t: Tid)
    | Reset

  ghost predicate Enabled(s: State, e: Event) {
    match e
    case Recv(t, want, timeout, pos) => t !in s.calls && (want.and || want.or) && pos <= |s.waiters|
    case Send(bits) => true
    case Return(t) => t in s.calls && s.calls[t].status != Waiting
    case Timeout(t) => t in s.calls && s.calls[t].armed
    case Reset => true
  }

  function Wants(calls: map<Tid, Call>): (w: map<Tid, Want>)
    ensures w.Keys == calls.Keys
  {
    map t | t in calls :: calls[t].want
  }

  // Every woken thread gets its bits.
  function Deliver(calls: map<Tid, Call>, woken: seq<(Tid, Bits)>): (r: map<Tid, Call>)
    ensures r.Keys == calls.Keys
    decreases |woken|
  {
    if woken == [] then calls
    else
      var (t, bits) := woken[0];
      Deliver(if t in calls then calls[t := calls[t].(armed := false, status := Got(bits))] else calls, woken[1..])
  }

  function FailAll(calls: map<Tid, Call>, list: seq<Tid>): map<Tid, Call> {
    map t | t in calls :: if t in list then calls[t].(armed := false, status := Failed(EError)) else calls[t]
  }

  function Next(s: State, e: Event): Outcome {
    match e
    case Recv(t, want, timeout, pos) =>
      if want.bits == {} then Outcome(s, Some(EError), None)
      else if Satisfied(want, s.word) then
        Outcome(s.(word := RecvLeaves(want, s.word)), Some(EOk), Some(RecvBits(want, s.word)))
      else if timeout == 0 then Outcome(s, Some(ETimeout), None)
      else if pos > |s.waiters| then Outcome(s, None, None)
      else Outcome(s.(waiters := InsertAt(s.waiters, pos, t), calls := s.calls[t := Call(want, timeout > 0, Waiting)]), None, None)
    case Send(bits) =>
      if bits == {} then Outcome(s, Some(EError), None)
      else if forall t | t in s.waiters :: t in s.calls then
        var p := SendPass(s.word + bits, s.waiters, Wants(s.calls));
        Outcome(s.(word := p.word, waiters := p.kept, calls := Deliver(s.calls, p.woken)), Some(EOk), None)
      else Outcome(s, None, None)
    case Return(t) =>
      if t !in s.calls then Outcome(s, None, None)
      else
        var s' := s.(calls := Without(s.calls, t));
        (match s.calls[t].status
         case Waiting => Outcome(s, None, None)
         case Got(bits) => Outcome(s', Some(EOk), Some(bits))
         case Failed(e) => Outcome(s', Some(e), None))
    case Timeout(t) =>
      if t !in s.calls then Outcome(s, None, None)
      else Outcome(s.(waiters := Remove(s.waiters, t), calls := s.calls[t := s.calls[t].(armed := false, status := Failed(ETimeout))]), None, None)
    case Reset =>
      Outcome(State({}, [], FailAll(s.calls, s.waiters)), Some(EOk), None)
  }

  /** rt_event_recv with no time to wait, on an event with nothing but this word. */
  function ReceiveNow(word: Bits, t: Tid, want: Want): Outcome {
    Next(State(word, [], map[]), Recv(t, want, 0, 0))
  }

  /** The waiters of a list, each calling rt_event_recv in turn, with the word the one before has left. */
  function EachReceives(word: Bits, list: seq<Tid>, wants: map<Tid, Want>): Pass
    requires forall t | t in list :: t in wants
  {
    if list == [] then Pass(word, [], [])
    else
      var r := ReceiveNow(word, list[0], wants[list[0]]);
      var rest := EachReceives(r.s.word, list[1..], wants);
      if r.result == Some(EOk) && r.received.Some? then rest.(woken := [(list[0], r.received.value)] + rest.woken)
      else rest.(kept := [list[0]] + rest.kept)
  }

  ghost predicate WaitersOk(s: State) {
    && Distinct(s.waiters)
    && (forall t | t in s.waiters :: t in s.calls && s.calls[t].status == Waiting)
    && (forall t | t in s.calls && s.calls[t].status == Waiting :: t in s.waiters)
    // a thread's timer runs only while it waits
    && (forall t | t in s.calls && s.calls[t].armed :: s.calls[t].status == Waiting)
    // nobody waits for no bits
    && (forall t | t in s.calls :: s.calls[t].want.bits != {})
  }

  // Nobody waits for what is there.
  ghost predicate NobodyMissed(s: State) {
    forall t | t in s.waiters :: t in s.calls && !Satisfied(s.calls[t].want, s.word)
  }

  // What a woken thread got is what it asked for: all of its bits, or some of them.
  ghost predicate GotEnough(c: Call) {
    c.status.Got? ==>
      c.status.bits <= c.want.bits && (if c.want.and then c.status.bits == c.want.bits else c.status.bits != {})
  }

  ghost predicate Inv(s: State) {
    WaitersOk(s) && NobodyMissed(s) && forall t | t in s.calls :: GotEnough(s.calls[t])
  }

  ghost predicate Run(trace: seq<State>, events: seq<Event>) {
    && |trace| == |events| + 1
    && forall i | 0 <= i < |events| :: Enabled(trace[i], events[i]) && trace[i + 1] == Next(trace[i], events[i]).s
  }

  // --- proofs ---

  // Fewer bits satisfy no more conditions.
  lemma SatisfiedMonotone(want: Want, fewer: Bits, more: Bits)
    requires fewer <= more && Satisfied(want, fewer)
    ensures Satisfied(want, more)
  {
    if want.and {
      assert want.bits <= fewer;
      assert more * want.bits == want.bits;
    } else {
      var b :| b in fewer * want.bits;
      assert b in more * want.bits;
    }
  }

  // Satisfied, in terms of single bits.
  ghost predicate Asks(want: Want, word: Bits) {
    if want.and then forall b | b in want.bits :: b in word else want.or && exists b :: b in want.bits && b in word
  }

  lemma SatisfiedIsAsks(want: Want, word: Bits)
    ensures Satisfied(want, word) <==> Asks(want, word)
  {
    if want.and {
      assert word * want.bits == want.bits <==> forall b | b in want.bits :: b in word;
    } else {
      assert forall b :: b in word * want.bits <==> b in want.bits && b in word;
    }
  }

  /** What rt_event_recv tells its caller: RT_EOK and the bits both set and wanted, if all of them are set, or some; a call with
      RT_EVENT_FLAG_CLEAR then clears exactly the wanted ones. A call for no bits is told RT_ERROR, one with no time to wait
      RT_ETIMEOUT, and nothing changes; any other is told nothing and waits. */
  lemma RecvAnswers(s: State, t: Tid, want: Want, timeout: int, pos: nat)
    requires Inv(s) && Enabled(s, Recv(t, want, timeout, pos))
    ensures var r := Next(s, Recv(t, want, timeout, pos));
      && (r.result == Some(EOk) <==> want.bits != {} && Asks(want, s.word))
      && (r.result == Some(EError) <==> want.bits == {})
      && (r.result == Some(ETimeout) <==> want.bits != {} && !Asks(want, s.word) && timeout == 0)
      && (r.result == None <==> t in r.s.waiters)
      && (r.result == Some(EOk) <==> r.received.Some?)
      && (r.received.Some? ==> forall b :: b in r.received.value <==> b in s.word && b in want.bits)
      && (r.result == Some(EOk) ==> forall b :: b in r.s.word <==> b in s.word && !(want.clear && b in want.bits))
      && (r.result != Some(EOk) ==> r.s.word == s.word)
      && (r.result != None ==> r.s.waiters == s.waiters && r.s.calls == s.calls)
      && (r.result == None ==> r.s.waiters == s.waiters[..pos] + [t] + s.waiters[pos..]
                               && r.s.calls == s.calls[t := Call(want, timeout > 0, Waiting)])
  {
    SatisfiedIsAsks(want, s.word);
  }

  /** A thread that receives at once is handed, and leaves, what it would be handed and would leave by waiting for the next send. */
  lemma RecvIsPass(s: State, t: Tid, want: Want, pos: nat)
    requires want.bits != {}
    ensures var r := Next(s, Recv(t, want, 0, pos)); var p := SendPass(s.word, [t], map[t := want]);
      && r.s.word == p.word && r.result == (if p.woken == [] then Some(ETimeout) else Some(EOk))
      && (p.woken != [] ==> p.woken == [(t, if r.received.Some? then r.received.value else {})] && r.received.Some?)
  {
    var list, wants := [t], map[t := want];
    assert list[1..] == [];
    assert want.bits * s.word == s.word * want.bits;
    assert s.word - want.bits * s.word == s.word - want.bits;
    var rest := SendPass(if want.clear then s.word - want.bits else s.word, list[1..], wants);
  }

  /** Sending gives each waiter exactly what it would get by receiving at its turn, and clears exactly as much. */
  lemma {:induction false} SendIsReceiveInTurn(word: Bits, list: seq<Tid>, wants: map<Tid, Want>)
    requires forall t | t in list :: t in wants && wants[t].bits != {}
    ensures SendPass(word, list, wants) == EachReceives(word, list, wants)
    decreases |list|
  {
    if list != [] {
      var want := wants[list[0]];
      PassFirst(word, list, wants);
      SendIsReceiveInTurn(if Satisfied(want, word) then RecvLeaves(want, word) else word, list[1..], wants);
    }
  }

  // The pass over the first waiter, in the terms of rt_event_recv.
  lemma PassFirst(word: Bits, list: seq<Tid>, wants: map<Tid, Want>)
    requires list != [] && forall t | t in list :: t in wants
    ensures var want := wants[list[0]];
      SendPass(word, list, wants) ==
        if Satisfied(want, word) then
          var rest := SendPass(RecvLeaves(want, word), list[1..], wants); rest.(woken := [(list[0], RecvBits(want, word))] + rest.woken)
        else
          var rest := SendPass(word, list[1..], wants); rest.(kept := [list[0]] + rest.kept)
  {
    var want := wants[list[0]];
    assert want.bits * word == word * want.bits;
    assert word - want.bits * word == word - want.bits;
  }

  function Firsts(woken: seq<(Tid, Bits)>): (r: seq<Tid>)
    ensures |r| == |woken|
  {
    seq(|woken|, i requires 0 <= i < |woken| => woken[i].0)
  }

  ghost predicate PassOk(p: Pass, word: Bits, list: seq<Tid>, wants: map<Tid, Want>)
    requires forall t | t in list :: t in wants
  {
    && p.word <= word && Distinct(p.kept) && Distinct(Firsts(p.woken))
    // the list splits into those kept and those woken
    && (forall t :: t in list <==> t in p.kept || t in Firsts(p.woken))
    && (forall t | t in p.kept :: t !in Firsts(p.woken))
    // nobody kept is satisfied by what is left, and everybody woken got what it wanted
    && (forall t | t in p.kept :: t in wants && !Satisfied(wants[t], p.word))
    && (forall i | 0 <= i < |p.woken| :: p.woken[i].0 in wants && GotEnough(Call(wants[p.woken[i].0], false, Got(p.woken[i].1))))
  }

  lemma {:induction false} PassIsOk(word: Bits, list: seq<Tid>, wants: map<Tid, Want>)
    requires Distinct(list) && forall t | t in list :: t in wants
    ensures PassOk(SendPass(word, list, wants), word, list, wants)
    decreases |list|
  {
    if list != [] {
      var want, t := wants[list[0]], list[0];
      DistinctTail(list);
      assert forall u :: u in list <==> u == t || u in list[1..];
      PassFirst(word, list, wants);
      if Satisfied(want, word) {
        var rest := SendPass(RecvLeaves(want, word), list[1..], wants);
        PassIsOk(RecvLeaves(want, word), list[1..], wants);
        PassWoken(rest, RecvLeaves(want, word), word, list, wants, RecvBits(want, word));
      } else {
        var rest := SendPass(word, list[1..], wants);
        PassIsOk(word, list[1..], wants);
        if Satisfied(want, rest.word) {
          SatisfiedMonotone(want, rest.word, word);
        }
        PassKept(rest, word, list, wants);
      }
    }
  }

  lemma PassWoken(rest: Pass, left: Bits, word: Bits, list: seq<Tid>, wants: map<Tid, Want>, bits: Bits)
    requires list != [] && Distinct(list) && (forall t | t in list :: t in wants)
    requires PassOk(rest, left, list[1..], wants) && left <= word
    requires GotEnough(Call(wants[list[0]], false, Got(bits)))
    ensures PassOk(rest.(woken := [(list[0], bits)] + rest.woken), word, list, wants)
  {
    DistinctTail(list);
    var woken := [(list[0], bits)] + rest.woken;
    assert Firsts(woken) == [list[0]] + Firsts(rest.woken);
    DistinctConcat([list[0]], Firsts(rest.woken));
    assert list == [list[0]] + list[1..];
  }

  lemma PassKept(rest: Pass, word: Bits, list: seq<Tid>, wants: map<Tid, Want>)
    requires list != [] && Distinct(list) && (forall t | t in list :: t in wants)
    requires PassOk(rest, word, list[1..], wants) && !Satisfied(wants[list[0]], rest.word)
    ensures PassOk(rest.(kept := [list[0]] + rest.kept), word, list, wants)
  {
    DistinctTail(list);
    DistinctConcat([list[0]], rest.kept);
    assert list == [list[0]] + list[1..];
  }

  lemma {:induction false} DeliverAt(calls: map<Tid, Call>, woken: seq<(Tid, Bits)>, t: Tid)
    requires Distinct(Firsts(woken)) && t in calls
    ensures t !in Firsts(woken) ==> Deliver(calls, woken)[t] == calls[t]
    ensures forall i | 0 <= i < |woken| && woken[i].0 == t :: Deliver(calls, woken)[t] == calls[t].(armed := false, status := Got(woken[i].1))
    decreases |woken|
  {
    if woken != [] {
      var (u, bits) := woken[0];
      var calls' := if u in calls then calls[u := calls[u].(armed := false, status := Got(bits))] else calls;
      assert Firsts(woken) == [u] + Firsts(woken[1..]);
      DistinctTail(Firsts(woken));
      DeliverAt(calls', woken[1..], t);
      forall i | 0 <= i < |woken| && woken[i].0 == t
        ensures Deliver(calls, woken)[t] == calls[t].(armed := false, status := Got(woken[i].1))
      {
        if i > 0 {
          assert woken[1..][i - 1] == woken[i];
          assert Firsts(woken)[0] != Firsts(woken)[i];
        } else {
          assert u !in Firsts(woken[1..]);
        }
      }
    }
  }

  // What the pass does to one thread's call.
  lemma SendAt(s: State, bits: Bits, t: Tid)
    requires Inv(s) && t in s.calls && bits != {}
    ensures var p := SendPass(s.word + bits, s.waiters, Wants(s.calls));
            var c := Deliver(s.calls, p.woken)[t];
            && c.want == s.calls[t].want && GotEnough(c) && (c.status == Waiting <==> t in p.kept) && (c.armed ==> c.status == Waiting)
            && (t in p.kept ==> t in s.waiters && !Satisfied(c.want, p.word))
  {
    var wants := Wants(s.calls);
    var p := SendPass(s.word + bits, s.waiters, wants);
    PassIsOk(s.word + bits, s.waiters, wants);
    hide SendPass, Satisfied, Deliver, Distinct;
    DeliverAt(s.calls, p.woken, t);
    if t in Firsts(p.woken) {
      var i :| 0 <= i < |p.woken| && p.woken[i].0 == t;
    }
  }

  lemma SendKeepsInv(s: State, bits: Bits)
    requires Inv(s)
    ensures Inv(Next(s, Send(bits)).s)
  {
    if bits != {} {
      var p := SendPass(s.word + bits, s.waiters, Wants(s.calls));
      PassIsOk(s.word + bits, s.waiters, Wants(s.calls));
      hide SendPass, Satisfied, Deliver, GotEnough;
      forall t | t in s.calls
        ensures var c := Deliver(s.calls, p.woken)[t]; c.want == s.calls[t].want && GotEnough(c) && (c.armed ==> c.status == Waiting)
        ensures var c := Deliver(s.calls, p.woken)[t];
                (c.status == Waiting <==> t in p.kept) && (t in p.kept ==> !Satisfied(c.want, p.word))
      {
        SendAt(s, bits, t);
      }
    }
  }

  lemma RecvKeepsInv(s: State, t: Tid, want: Want, timeout: int, pos: nat)
    requires Inv(s) && Enabled(s, Recv(t, want, timeout, pos))
    ensures Inv(Next(s, Recv(t, want, timeout, pos)).s)
  {
    if want.bits != {} {
      if Satisfied(want, s.word) {
        var left := RecvLeaves(want, s.word);
        forall u | u in s.waiters
          ensures !Satisfied(s.calls[u].want, left)
        {
          if Satisfied(s.calls[u].want, left) {
            SatisfiedMonotone(s.calls[u].want, left, s.word);
          }
        }
      } else if timeout != 0 {
        InsertDistinct(s.waiters, pos, t);
      }
    }
  }

  lemma StepKeepsInv(s: State, e: Event)
    requires Inv(s) && Enabled(s, e)
    ensures Inv(Next(s, e).s)
  {
    match e
    case Recv(t, want, timeout, pos) => RecvKeepsInv(s, t, want, timeout, pos);
    case Send(bits) => SendKeepsInv(s, bits);
    case Return(t) =>
    case Timeout(t) => RemoveDistinct(s.waiters, t);
    case Reset =>
  }

  /** Over every run, whenever no critical section is under way, no thread waits for bits that are set,
      and every woken thread has got what it asked for. */
  lemma {:induction false} RunsKeepInv(trace: seq<State>, events: seq<Event>, n: nat)
    requires Run(trace, events) && trace[0] == State({}, [], map[]) && n < |trace|
    ensures Inv(trace[n])
  {
    if n > 0 {
      RunsKeepInv(trace, events, n - 1);
      StepKeepsInv(trace[n - 1], events[n - 1]);
    }
  }

  /** Whatever wakes a thread stops its timer: over every run a timer that fires finds its thread still waiting. */
  lemma TimersOnlyWhileWaiting(trace: seq<State>, events: seq<Event>, n: nat, t: Tid)
    requires Run(trace, events) && trace[0] == State({}, [], map[]) && n < |events| && events[n] == Timeout(t)
    ensures t in trace[n].calls && trace[n].calls[t].status == Waiting && t in trace[n].waiters
  {
    RunsKeepInv(trace, events, n);
  }

  // --- what the callers are told ---

  /** A send of no bits is told RT_ERROR and changes nothing. Any other is told RT_EOK: the waiters receive in turn, in the order
      of the list, from the word with the new bits; those served are woken with what they got, the others keep waiting. */
  lemma SendAnswers(s: State, bits: Bits)
    requires Inv(s)
    ensures var r := Next(s, Send(bits));
      && r.result == (if bits == {} then Some(EError) else Some(EOk)) && r.s.calls.Keys == s.calls.Keys
      && (bits == {} ==> r.s == s)
    ensures bits != {} ==>
      var r, p := Next(s, Send(bits)), EachReceives(s.word + bits, s.waiters, Wants(s.calls));
      && r.s.word == p.word && r.s.waiters == p.kept
      && (forall i | 0 <= i < |p.woken| :: p.woken[i].0 in s.waiters && r.s.calls[p.woken[i].0].status == Got(p.woken[i].1))
      && forall t | t in s.calls && t !in Firsts(p.woken) :: r.s.calls[t] == s.calls[t]
  {
    if bits != {} {
      var p := SendPass(s.word + bits, s.waiters, Wants(s.calls));
      SendIsReceiveInTurn(s.word + bits, s.waiters, Wants(s.calls));
      PassIsOk(s.word + bits, s.waiters, Wants(s.calls));
      forall t | t in s.calls
        ensures t !in Firsts(p.woken) ==> Deliver(s.calls, p.woken)[t] == s.calls[t]
        ensures forall i | 0 <= i < |p.woken| && p.woken[i].0 == t :: Deliver(s.calls, p.woken)[t].status == Got(p.woken[i].1)
      {
        hide *;
        DeliverAt(s.calls, p.woken, t);
      }
      hide SendPass, EachReceives, Satisfied, Deliver, GotEnough, Distinct;
      assert forall i | 0 <= i < |p.woken| :: Firsts(p.woken)[i] == p.woken[i].0;
    }
  }

  /** What ends the wait of t, and how: a send that has t receive, in its turn, just these bits; its timer; or a reset. */
  ghost predicate Ends(s: State, e: Event, t: Tid, status: Status)
    requires WaitersOk(s)
  {
    match status
    case Waiting => false
    case Got(bits) => e.Send? && (t, bits) in EachReceives(s.word + e.bits, s.waiters, Wants(s.calls)).woken
    case Failed(err) => (e == Timeout(t) && err == ETimeout) || (e == Reset && err == EError)
  }

  ghost predicate HasEnded(s: State, t: Tid) {
    t in s.calls && s.calls[t].status != Waiting
  }

  lemma EndStep(s: State, e: Event, t: Tid)
    requires Inv(s) && Enabled(s, e) && HasEnded(Next(s, e).s, t)
    ensures t in s.calls
    ensures if s.calls[t].status == Waiting then Ends(s, e, t, Next(s, e).s.calls[t].status) else s.calls[t] == Next(s, e).s.calls[t]
  {
    if e.Send? {
      hide SendPass, EachReceives, NobodyMissed, GotEnough, Deliver, Distinct;
      SendAnswers(s, e.bits);
      if e.bits != {} {
        var p := EachReceives(s.word + e.bits, s.waiters, Wants(s.calls));
        if t in Firsts(p.woken) {
          var i :| 0 <= i < |p.woken| && Firsts(p.woken)[i] == t;
          assert p.woken[i] in p.woken;
        }
      }
    }
  }

  /** Over every run: a wait that has ended was ended by such a step, and what ended it is what rt_event_recv then returns. */
  lemma {:induction false} EndedBy(trace: seq<State>, events: seq<Event>, n: nat, t: Tid) returns (i: nat)
    requires Run(trace, events) && trace[0] == State({}, [], map[]) && n < |trace| && HasEnded(trace[n], t)
    ensures i < n && t in trace[i].waiters && WaitersOk(trace[i]) && Ends(trace[i], events[i], t, trace[n].calls[t].status)
    ensures forall k | i < k <= n :: HasEnded(trace[k], t) && trace[k].calls[t] == trace[n].calls[t]
  {
    hide Next, Enabled, Ends, NobodyMissed, GotEnough;
    RunsKeepInv(trace, events, n - 1);
    EndStep(trace[n - 1], events[n - 1], t);
    if trace[n - 1].calls[t].status == Waiting {
      i := n - 1;
    } else {
      i := EndedBy(trace, events, n - 1, t);
    }
  }

  /** RT_EOK and the bits received in turn, RT_ETIMEOUT after the timer, RT_ERROR after a reset; then the call is over. */
  lemma ReturnAnswers(trace: seq<State>, events: seq<Event>, n: nat, t: Tid) returns (i: nat)
    requires Run(trace, events) && trace[0] == State({}, [], map[]) && n < |events| && events[n] == Return(t)
    ensures i < n && t in trace[i].waiters && WaitersOk(trace[i])
    ensures var r := Next(trace[n], Return(t));
      && r.result.Some? && t !in r.s.calls && r.s.word == trace[n].word
      && (r.result == Some(EOk) <==> r.received.Some?)
      && Ends(trace[i], events[i], t, if r.received.Some? then Got(r.received.value) else Failed(r.result.value))
  {
    i := EndedBy(trace, events, n, t);
  }

  /** A timer that fires takes its thread out of the list, and does nothing else. */
  lemma TimeoutAnswers(s: State, t: Tid)
    requires Inv(s) && Enabled(s, Timeout(t))
    ensures var r := Next(s, Timeout(t)); r.result == None && r.s.word == s.word && r.s.calls.Keys == s.calls.Keys
    ensures forall u | u in s.calls && u != t ::
      Next(s, Timeout(t)).s.calls[u] == s.calls[u] && (u in s.waiters <==> u in Next(s, Timeout(t)).s.waiters)
  {
    RemoveDistinct(s.waiters, t);
  }

  /** A reset clears every bit, and nobody waits any more. */
  lemma ResetAnswers(s: State)
    requires Inv(s)
    ensures var r := Next(s, Reset); r.result == Some(EOk) && r.s.word == {} && r.s.waiters == [] && r.s.calls.Keys == s.calls.Keys
    ensures forall t | t in s.calls ::
      Next(s, Reset).s.calls[t] == if t in s.waiters then s.calls[t].(armed := false, status := Failed(EError)) else s.calls[t]
  {
  }
}

/** The event object, on the kernel that suspends and resumes threads. */
module Events {
  import opened Kernels
  import opened Lists
  import opened EventProtocol

  /** thread->event_set and thread->event_info; sending narrows event_set to the bits received. */
  type Info = Want

  ghost predicate InCall(b: Tcb, info: Info, c: Call) {
    && info.and == c.want.and && info.or == c.want.or && info.clear == c.want.clear
    && b.timerArmed == c.armed
    && match c.status
       case Waiting => b.stat == Suspend && b.error == EOk && info.bits == c.want.bits
       case Got(bits) => b.stat == Ready && b.error == EOk && info.bits == bits
       case Failed(e) => b.stat == Ready && b.error == e && e != EOk
  }

  ghost predicate FramesOk(tcb: map<Tid, Tcb>, infos: map<Tid, Info>, calls: map<Tid, Call>) {
    forall t | t in calls :: t in tcb && t in infos && InCall(tcb[t], infos[t], calls[t])
  }

  lemma FramesOkStep(tcb: map<Tid, Tcb>, infos: map<Tid, Info>, calls: map<Tid, Call>, t: Tid, b: Tcb, i: Info, c: Call)
    requires FramesOk(tcb, infos, calls) && InCall(b, i, c)
    ensures FramesOk(tcb[t := b], infos[t := i], calls[t := c])
  {
  }

  // A thread outside any call, or leaving its own, may get any control block.
  lemma FramesOkOther(tcb: map<Tid, Tcb>, infos: map<Tid, Info>, calls: map<Tid, Call>, t: Tid, b: Tcb)
    requires FramesOk(tcb, infos, calls)
    ensures FramesOk(tcb[t := b], infos, Without(calls, t)) && (t !in calls ==> Without(calls, t) == calls)
  {
    assert t !in calls ==> Without(calls, t) == calls;
  }

  lemma FramesOkAllWoken(tcb: map<Tid, Tcb>, infos: map<Tid, Info>, calls: map<Tid, Call>, list: seq<Tid>)
    requires FramesOk(tcb, infos, calls)
    ensures FramesOk(AllWoken(tcb, list), infos, FailAll(calls, list))
  {
  }

  /** The condition and the bits of one turn of the loop in rt_event_send. */
  predicate Wakes(want: Want, word: Bits) {
    if want.and then want.bits * word == want.bits else want.or && want.bits * word != {}
  }

  function Granted(want: Want, word: Bits): Bits {
    if want.and then want.bits else want.bits * word
  }

  function Cleared(want: Want, word: Bits): Bits {
    if want.clear then word - Granted(want, word) else word
  }

  /** Half-way through rt_event_send: the waiters in `kept` have been passed over, those in `rest` are still to come,
      and finishing from here gives what the whole pass from `before` gives. */
  ghost predicate Passing(before: State, bits: Bits, word: Bits, kept: seq<Tid>, rest: seq<Tid>, calls: map<Tid, Call>)
    requires forall t | t in before.waiters :: t in before.calls
  {
    var wants := Wants(before.calls);
    && Distinct(kept + rest)
    && (forall t | t in rest :: t in before.calls && t in calls && calls[t] == before.calls[t] && calls[t].status == Waiting)
    && var p, q := SendPass(before.word + bits, before.waiters, wants), SendPass(word, rest, wants);
       p.word == q.word && p.kept == kept + q.kept && Deliver(before.calls, p.woken) == Deliver(calls, q.woken)
  }

  lemma PassingStart(s: State, bits: Bits)
    requires Inv(s)
    ensures (forall t | t in s.waiters :: t in s.calls) && Passing(s, bits, s.word + bits, [], s.waiters, s.calls)
  {
    hide SendPass, Deliver;
    var p := SendPass(s.word + bits, s.waiters, Wants(s.calls));
    assert [] + s.waiters == s.waiters && [] + p.kept == p.kept;
  }

  lemma PassingEnd(s: State, bits: Bits, word: Bits, kept: seq<Tid>, calls: map<Tid, Call>)
    requires Inv(s) && bits != {} && Passing(s, bits, word, kept, [], calls)
    ensures s.(word := word, waiters := kept, calls := calls) == Next(s, Send(bits)).s
  {
    var q := SendPass(word, [], Wants(s.calls));
    assert kept + q.kept == kept;
  }

  lemma PassingWakes(s: State, bits: Bits, word: Bits, kept: seq<Tid>, rest: seq<Tid>, calls: map<Tid, Call>)
    requires Inv(s) && rest != [] && Passing(s, bits, word, kept, rest, calls)
    requires Wakes(calls[rest[0]].want, word)
    ensures var t := rest[0]; var w := calls[t].want;
            Passing(s, bits, Cleared(w, word), kept, rest[1..], calls[t := calls[t].(armed := false, status := Got(Granted(w, word)))])
  {
    var t := rest[0];
    var w := calls[t].want;
    var wants := Wants(s.calls);
    var c := calls[t := calls[t].(armed := false, status := Got(Granted(w, word)))];
    assert rest == [t] + rest[1..];
    var q, q' := SendPass(word, rest, wants), SendPass(Cleared(w, word), rest[1..], wants);
    assert q.woken == [(t, Granted(w, word))] + q'.woken;
    assert q.woken[1..] == q'.woken;
    DropMiddle(kept, rest);
  }

  lemma PassingOver(s: State, bits: Bits, word: Bits, kept: seq<Tid>, rest: seq<Tid>, calls: map<Tid, Call>)
    requires Inv(s) && rest != [] && Passing(s, bits, word, kept, rest, calls)
    requires !Wakes(calls[rest[0]].want, word)
    ensures Passing(s, bits, word, kept + [rest[0]], rest[1..], calls)
  {
    var wants := Wants(s.calls);
    assert rest == [rest[0]] + rest[1..];
    var q, q' := SendPass(word, rest, wants), SendPass(word, rest[1..], wants);
    assert (kept + [rest[0]]) + rest[1..] == kept + rest;
    assert kept + q.kept == (kept + [rest[0]]) + q'.kept;
  }

  lemma DropMiddle(kept: seq<Tid>, rest: seq<Tid>)
    requires Distinct(kept + rest) && rest != []
    ensures Distinct(kept + rest[1..]) && rest[0] !in kept && rest[0] !in rest[1..]
    ensures kept + rest[1..] == (kept + rest)[..|kept|] + (kept + rest)[|kept| + 1..]
  {
    var whole, part := kept + rest, kept + rest[1..];
    assert forall i | 0 <= i < |part| :: part[i] == whole[if i < |kept| then i else i + 1];
    assert whole[|kept|] == rest[0];
    assert forall i | 0 <= i < |kept| :: kept[i] == whole[i];
    assert forall i | 0 <= i < |rest| - 1 :: rest[1..][i] == whole[|kept| + 1 + i];
  }

  lemma PassingNext(s: State, bits: Bits, word: Bits, kept: seq<Tid>, rest: seq<Tid>, calls: map<Tid, Call>,
                    tcb: map<Tid, Tcb>, infos: map<Tid, Info>)
    requires Inv(s) && Passing(s, bits, word, kept, rest, calls) && FramesOk(tcb, infos, calls) && rest != []
    ensures var t := rest[0];
      t in calls && t in tcb && t in infos && tcb[t].stat == Suspend && tcb[t].error == EOk
      && infos[t] == calls[t].want && calls[t].status == Waiting
  {
    assert rest[0] in rest;
  }

  class EventObject {
    const k: Kernel
    const flag: IpcFlag
    var word: Bits                    // rt_uint32_t set
    const queue: QueueId              // parent.suspend_thread
    var infos: map<Tid, Info>
    ghost var s: State

    ghost predicate Valid()
      reads this, k
    {
      && k.Valid() && queue in k.wait
      && s.word == word && s.waiters == k.wait[queue]
      && FramesOk(k.tcb, infos, s.calls)
      && Inv(s)
    }

    // rt_event_init
    constructor (kernel: Kernel, flag: IpcFlag, q: QueueId)
      requires kernel.Valid() && q !in kernel.wait
      modifies kernel`wait
      ensures Valid() && k == kernel && s == State({}, [], map[]) && kernel.wait == old(kernel.wait)[q := []]
    {
      k, this.flag, queue := kernel, flag, q;
      word, infos := {}, map[];
      s := State({}, [], map[]);
      new;
      kernel.QueueInit(q);
    }

    // rt_event_recv, up to its return or to its going to sleep
    method Receive(t: Tid, want: Want, timeout: int) returns (r: Option<Err>, recved: Option<Bits>)
      requires Valid() && t in k.tcb && k.tcb[t].stat == Ready && t !in s.calls && (want.and || want.or)
      modifies this`word, this`infos, this`s, k
      ensures Valid() && (forall u | u in old(s).waiters :: u in old(k.tcb))
      ensures var e := Recv(t, want, timeout, Place(old(k.tcb), old(s).waiters, t, flag));
              Enabled(old(s), e) && s == Next(old(s), e).s && r == Next(old(s), e).result && recved == Next(old(s), e).received
    {
      hide Consistent, Inv, FramesOk, Place, InsertAt, Dropped;
      Kernels.WaitersOk(k.tcb, k.table, k.group, k.readyTable, k.wait, k.defunct, queue);
      ghost var tcb0, pos := k.tcb, Place(k.tcb, s.waiters, t, flag);
      StepKeepsInv(s, Recv(t, want, timeout, pos));
      ghost var s' := Next(s, Recv(t, want, timeout, pos)).s;
      if want.bits == {} {
        return Some(EError), None;
      }
      var ok := if want.and then word * want.bits == want.bits else word * want.bits != {};
      if ok {
        FramesOkOther(k.tcb, infos, s.calls, t, k.tcb[t].(error := EOk));
        k.SetError(t, EOk);
        recved := Some(word * want.bits);
        if want.clear {
          word := word - want.bits;
        }
        r := Some(EOk);
      } else if timeout == 0 {
        FramesOkOther(k.tcb, infos, s.calls, t, k.tcb[t].(error := ETimeout));
        k.SetError(t, ETimeout);
        r, recved := Some(ETimeout), None;
      } else {
        k.Block(queue, t, flag, timeout > 0);
        FramesOkStep(tcb0, infos, s.calls, t, k.tcb[t], want, Call(want, timeout > 0, Waiting));
        infos := infos[t := want];
        r, recved := None, None;
      }
      s := s';
    }

    // rt_event_send
    method SendBits(bits: Bits) returns (r: Err)
      requires Valid()
      modifies this`word, this`infos, this`s, k
      ensures Valid() && s == Next(old(s), Send(bits)).s && Some(r) == Next(old(s), Send(bits)).result
    {
      hide Consistent, Inv, FramesOk, SendPass, Deliver, Passing, Distinct;
      if bits == {} {
        return EError;
      }
      StepKeepsInv(s, Send(bits));
      PassingStart(s, bits);
      word := word + bits;
      ghost var calls := Walk(bits);
      PassingEnd(s, bits, word, k.wait[queue], calls);
      s := s.(word := word, waiters := k.wait[queue], calls := calls);
      return EOk;
    }

    // the walk of rt_event_send over the wait list
    method Walk(ghost bits: Bits) returns (ghost calls: map<Tid, Call>)
      requires k.Valid() && queue in k.wait && s.waiters == k.wait[queue] && Inv(s) && FramesOk(k.tcb, infos, s.calls)
      requires (forall t | t in s.waiters :: t in s.calls) && Passing(s, bits, word, [], s.waiters, s.calls)
      modifies this`word, this`infos, k
      ensures k.Valid() && queue in k.wait && FramesOk(k.tcb, infos, calls)
      ensures (forall t | t in s.waiters :: t in s.calls) && Passing(s, bits, word, k.wait[queue], [], calls)
    {
      hide Consistent, Inv, FramesOk, SendPass, Deliver, Passing, Distinct, Wakes, Granted, Cleared;
      ghost var kept, rest := [], s.waiters;
      calls := s.calls;
      var n := 0;
      assert [] + rest == rest;
      while n < |k.wait[queue]|
        invariant k.Valid() && queue in k.wait && k.wait[queue] == kept + rest && n == |kept|
        invariant FramesOk(k.tcb, infos, calls) && Passing(s, bits, word, kept, rest, calls)
        decreases |rest|
      {
        var t := k.wait[queue][n];
        PassingNext(s, bits, word, kept, rest, calls, k.tcb, infos);
        ghost var wake := Wakes(calls[t].want, word);
        if wake {
          PassingWakes(s, bits, word, kept, rest, calls);
        } else {
          PassingOver(s, bits, word, kept, rest, calls);
        }
        var woke := Visit(n, t, calls);
        if woke {
          calls := calls[t := calls[t].(armed := false, status := Got(infos[t].bits))];
        } else {
          kept := kept + [t];
          n := n + 1;
        }
        rest := rest[1..];
      }
      assert rest == [] && kept + rest == kept;
    }

    // one turn of the loop of rt_event_send: the waiter at place n is resumed if its condition holds
    method Visit(n: nat, t: Tid, ghost calls: map<Tid, Call>) returns (woke: bool)
      requires k.Valid() && queue in k.wait && n < |k.wait[queue]| && k.wait[queue][n] == t && FramesOk(k.tcb, infos, calls)
      requires t in k.tcb && t in infos && k.tcb[t].stat == Suspend && k.tcb[t].error == EOk
      requires t in calls && calls[t].status == Waiting && calls[t].want == infos[t]
      modifies this`word, this`infos, k
      ensures k.Valid() && t in infos && woke == Wakes(old(infos)[t], old(word))
      ensures k.wait == if woke then old(k.wait)[queue := old(k.wait)[queue][..n] + old(k.wait)[queue][n + 1..]] else old(k.wait)
      ensures word == if woke then Cleared(old(infos)[t], old(word)) else old(word)
      ensures infos[t].bits == if woke then Granted(old(infos)[t], old(word)) else old(infos)[t].bits
      ensures FramesOk(k.tcb, infos, if woke then calls[t := calls[t].(armed := false, status := Got(infos[t].bits))] else calls)
    {
      hide Consistent, FramesOk, Unlinked, Appended;
      woke := false;
      if infos[t].and {
        if infos[t].bits * word == infos[t].bits {
          woke := true;
        }
      } else if infos[t].or {
        if infos[t].bits * word != {} {
          infos := infos[t := infos[t].(bits := infos[t].bits * word)];
          woke := true;
        }
      }
      if woke {
        if infos[t].clear {
          word := word - infos[t].bits;
        }
        UnlinkAt(k.tcb, k.table, k.group, k.readyTable, k.wait, k.defunct, queue, n);
        FramesOkStep(k.tcb, old(infos), calls, t, Kernels.Woken(k.tcb[t], EOk), infos[t], calls[t].(armed := false, status := Got(infos[t].bits)));
        assert infos == old(infos)[t := infos[t]];
        var e := k.Resume(t);
      }
    }

    // A thread asleep in rt_event_recv runs again, after rt_schedule returned to it.
    method Continue(t: Tid) returns (r: Option<Err>, recved: Option<Bits>)
      requires Valid() && t in s.calls && s.calls[t].status != Waiting
      modifies this`s
      ensures Valid() && Enabled(old(s), Return(t)) && s == Next(old(s), Return(t)).s
      ensures r == Next(old(s), Return(t)).result && recved == Next(old(s), Return(t)).received
    {
      hide Consistent, Inv;
      StepKeepsInv(s, Return(t));
      s := s.(calls := Without(s.calls, t));
      if k.tcb[t].error != EOk {
        return Some(k.tcb[t].error), None;
      }
      return Some(EOk), Some(infos[t].bits);
    }

    // rt_thread_timeout for a thread inside rt_event_recv whose timer is running
    method TimerFires(t: Tid)
      requires Valid() && t in s.calls && k.tcb[t].timerArmed
      modifies this`s, k
      ensures Valid() && Enabled(old(s), EventProtocol.Timeout(t)) && s == Next(old(s), EventProtocol.Timeout(t)).s
    {
      hide Consistent, Inv, HeadsBest, Remove;
      StepKeepsInv(s, EventProtocol.Timeout(t));
      FramesOkStep(k.tcb, infos, s.calls, t, Kernels.Woken(k.tcb[t], ETimeout), infos[t], s.calls[t].(armed := false, status := Failed(ETimeout)));
      assert infos == infos[t := infos[t]];
      k.Timeout(t);
      s := Next(s, EventProtocol.Timeout(t)).s;
    }

    // rt_event_control with RT_IPC_CMD_RESET
    method ControlReset()
      requires Valid()
      modifies this`word, this`s, k
      ensures Valid() && s == Next(old(s), Reset).s
    {
      hide Consistent, Inv, FramesOk, FailAll, AllWoken, AllAppended;
      StepKeepsInv(s, Reset);
      FramesOkAllWoken(k.tcb, infos, s.calls, s.waiters);
      k.IpcResumeAll(queue);
      word := {};
      s := Next(s, Reset).s;
    }
  }
}
