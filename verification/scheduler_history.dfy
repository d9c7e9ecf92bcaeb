/** What becomes of every packet over a run. */
module SchedulerHistory {
  import opened Common
  import opened DatagramKinds
  import opened SchedulerModel

  datatype Part = TakenIn | GoneOut | HandedOver

  predicate Belongs(part: Part, fate: Fate) {
    match part
    case TakenIn => fate.Accepted?
    case GoneOut => !fate.Accepted?
    case HandedOver => fate.Carried?
  }

  /** The packets of one peer and class in one part of a history, in order. */
  function Select(events: seq<Event>, id: nat, c: Class, part: Part): seq<Packet> {
    if events == [] then []
    else
      var e := events[|events| - 1];
      Select(events[..|events| - 1], id, c, part) +
      if e.peer == id && e.class_ == c && Belongs(part, e.fate) then [e.packet] else []
  }

  function QueueOf(st: State, id: nat, c: Class): seq<Packet> {
    if id in st.peers then st.peers[id].Of(c).queue else []
  }

  lemma SelectNothing(id: nat, c: Class, part: Part)
    ensures Select([], id, c, part) == []
  {}

  lemma SelectPush(a: seq<Event>, e: Event, id: nat, c: Class, part: Part)
    ensures Select(a + [e], id, c, part) ==
            Select(a, id, c, part) + if e.peer == id && e.class_ == c && Belongs(part, e.fate) then [e.packet] else []
  {
    assert (a + [e])[..|a|] == a;
  }

  lemma {:induction false} SelectAppend(a: seq<Event>, b: seq<Event>, id: nat, c: Class, part: Part)
    ensures Select(a + b, id, c, part) == Select(a, id, c, part) + Select(b, id, c, part)
    decreases |b|
  {
    hide Select, Belongs;
    if b == [] {
      SelectNothing(id, c, part);
      assert a + b == a && Select(a, id, c, part) + [] == Select(a, id, c, part);
    } else {
      var n := |b| - 1;
      SelectAppend(a, b[..n], id, c, part);
      SelectPush(a + b[..n], b[n], id, c, part);
      SelectPush(b[..n], b[n], id, c, part);
      assert a + b == (a + b[..n]) + [b[n]] && b == b[..n] + [b[n]];
    }
  }

  lemma {:induction false} SelectMark(fate: Fate, id0: nat, c0: Class, packets: seq<Packet>, id: nat, c: Class,
                                      part: Part)
    ensures Select(Mark(fate, id0, c0, packets), id, c, part) ==
            if id0 == id && c0 == c && Belongs(part, fate) then packets else []
    decreases |packets|
  {
    var n := |packets|;
    if n != 0 {
      SelectMark(fate, id0, c0, packets[..n - 1], id, c, part);
      assert Mark(fate, id0, c0, packets)[..n - 1] == Mark(fate, id0, c0, packets[..n - 1]);
      assert packets == packets[..n - 1] + [packets[n - 1]];
    }
  }

  lemma SelectOne(e: Event, id: nat, c: Class, part: Part)
    ensures Select([e], id, c, part) ==
            if e.peer == id && e.class_ == c && Belongs(part, e.fate) then [e.packet] else []
  {
    assert [e][..0] == [];
  }

  /** The packets of a stretch of history: what was queued or came in has left or is queued, in the same order. */
  ghost predicate Conserves(before: State, events: seq<Event>, after: State, id: nat, c: Class) {
    QueueOf(before, id, c) + Select(events, id, c, TakenIn) ==
    Select(events, id, c, GoneOut) + QueueOf(after, id, c)
  }

  lemma ConservesBoth(s0: State, e0: seq<Event>, s1: State, e1: seq<Event>, s2: State, id: nat, c: Class)
    requires Conserves(s0, e0, s1, id, c) && Conserves(s1, e1, s2, id, c)
    ensures Conserves(s0, e0 + e1, s2, id, c)
  {
    hide Select, QueueOf;
    SelectAppend(e0, e1, id, c, TakenIn);
    SelectAppend(e0, e1, id, c, GoneOut);
    var (q0, q1, q2) := (QueueOf(s0, id, c), QueueOf(s1, id, c), QueueOf(s2, id, c));
    var (i0, i1) := (Select(e0, id, c, TakenIn), Select(e1, id, c, TakenIn));
    var (o0, o1) := (Select(e0, id, c, GoneOut), Select(e1, id, c, GoneOut));
    assert q0 + (i0 + i1) == (q0 + i0) + i1;
    assert (o0 + q1) + i1 == o0 + (q1 + i1);
    assert o0 + (o1 + q2) == (o0 + o1) + q2;
  }

  lemma ServeConserves(st: State, i: nat, c0: Class, id: nat, c: Class)
    requires Indexed(st) && i < |st.ids| && Payable(st, st.ids[i], c0)
    ensures Conserves(st, [Event(Carried, st.ids[i], c0, Head(st, st.ids[i], c0))], Serve(st, i, c0), id, c)
  {
    hide Select, Sorted;
    var e := Event(Carried, st.ids[i], c0, Head(st, st.ids[i], c0));
    SelectOne(e, id, c, TakenIn);
    SelectOne(e, id, c, GoneOut);
  }

  lemma PassConserves(st: State, id: nat, c: Class)
    requires Indexed(st) && SomePayable(st)
    ensures Conserves(st, [PassEvent(st)], Pass(st), id, c)
  {
    hide Serve, Head, Conserves;
    ServeConserves(st, Turn(st), PickClass(st, st.ids[Turn(st)]), id, c);
  }

  lemma {:induction false} DrainConserves(l: Limits, st: State, id: nat, c: Class)
    requires Valid(l, st)
    ensures Conserves(st, Drain(st).events, Drain(st).state, id, c)
    decreases st.tokens
  {
    hide Valid, Indexed, Drain, SomePayable, Pass, PassEvent, Conserves;
    ValidIsIndexed(l, st);
    TokensBounded(l, st);
    if SomePayable(st) {
      PassSpends(l, st);
      PassConserves(st, id, c);
      DrainConserves(l, Pass(st), id, c);
      ConservesBoth(st, [PassEvent(st)], Pass(st), Drain(Pass(st)).events, Drain(st).state, id, c);
    } else {
      DrainDone(st);
      NothingConserves(st, id, c);
    }
  }

  lemma NothingConserves(st: State, id: nat, c: Class)
    ensures Conserves(st, [], st, id, c)
  {}

  lemma SelectExpiredOf(clock: Clock, l: Limits, id0: nat, peer: Peer, ms: nat, id: nat, c: Class, part: Part)
    ensures Select(ExpiredOf(clock, l, id0, peer, ms), id, c, part) ==
            if id0 == id && part.GoneOut? then Pruned(clock, l, peer.Of(c), ms) else []
  {
    hide Select, Pruned, Mark;
    var a := Pruned(clock, l, peer.realtime, ms);
    var b := Pruned(clock, l, peer.reliable, ms);
    SelectMark(Expired, id0, Realtime, a, id, c, part);
    SelectMark(Expired, id0, Reliable, b, id, c, part);
    SelectAppend(Mark(Expired, id0, Realtime, a), Mark(Expired, id0, Reliable, b), id, c, part);
  }

  lemma NextIsNew(st: State, i: nat)
    requires Indexed(st) && 0 < i <= |st.ids|
    ensures st.ids[..i] == st.ids[..i - 1] + [st.ids[i - 1]] && st.ids[i - 1] !in st.ids[..i - 1]
  {}

  lemma {:induction false} SelectExpired(clock: Clock, l: Limits, st: State, i: nat, ms: nat, id: nat, c: Class,
                                         part: Part)
    requires Indexed(st) && i <= |st.ids|
    ensures Select(ExpiredBefore(clock, l, st, i, ms), id, c, part) ==
            if id in st.ids[..i] && id in st.peers && part.GoneOut? then Pruned(clock, l, st.peers[id].Of(c), ms)
            else []
  {
    hide Pruned, ExpiredOf, Select, Sorted;
    if i == 0 {
      SelectNothing(id, c, part);
    } else {
      var last := st.ids[i - 1];
      SelectExpired(clock, l, st, i - 1, ms, id, c, part);
      SelectExpiredOf(clock, l, last, st.peers[last], ms, id, c, part);
      SelectAppend(ExpiredBefore(clock, l, st, i - 1, ms), ExpiredOf(clock, l, last, st.peers[last], ms), id, c, part);
      NextIsNew(st, i);
    }
  }

  lemma RefreshConserves(clock: Clock, l: Limits, st: State, ms: nat, id: nat, c: Class)
    requires Indexed(st)
    ensures Conserves(st, ExpiredBefore(clock, l, st, |st.ids|, ms), Refresh(clock, l, st, ms), id, c)
  {
    hide ExpireCount, Select, ExpiredBefore, Elapsed, Refill, Sorted, QueueBytes;
    assert st.ids[..|st.ids|] == st.ids;
    SelectExpired(clock, l, st, |st.ids|, ms, id, c, TakenIn);
    SelectExpired(clock, l, st, |st.ids|, ms, id, c, GoneOut);
  }

  lemma SendConserves(l: Limits, st: State, id0: nat, bytes: seq<Byte>, id: nat, c: Class)
    ensures var o := Send(l, st, id0, bytes);
            Conserves(st, o.events, o.state, id, c)
  {
    hide ClassOf, EvictCount, Accept, Conserves;
    var kind := ClassOf(bytes);
    if id0 in st.peers && kind.Some? &&
       (kind.value.Realtime? || |bytes| <= l.queuedBytesPerClass - st.peers[id0].Of(kind.value).bytes) {
      var c0 := kind.value;
      var queue := st.peers[id0].Of(c0).queue;
      var k := if |bytes| <= l.queuedBytesPerClass - st.peers[id0].Of(c0).bytes then 0
               else EvictCount(queue, |bytes|, l.queuedBytesPerClass);
      AcceptConserves(st, id0, c0, k, Packet(st.now, bytes), id, c);
    } else {
      NothingConserves(st, id, c);
    }
  }

  lemma SelectAccept(st: State, id0: nat, c0: Class, k: nat, packet: Packet, id: nat, c: Class, part: Part)
    requires id0 in st.peers && k <= |st.peers[id0].Of(c0).queue|
    ensures Select(Accept(st, id0, c0, k, packet).events, id, c, part) ==
            if id == id0 && c == c0 then
              (if Belongs(part, Evicted) then st.peers[id0].Of(c0).queue[..k] else []) +
              (if Belongs(part, Accepted) then [packet] else [])
            else []
  {
    hide Select, DropFront, Push, Mark;
    var evicted := st.peers[id0].Of(c0).queue[..k];
    SelectMark(Evicted, id0, c0, evicted, id, c, part);
    SelectOne(Event(Accepted, id0, c0, packet), id, c, part);
    SelectAppend(Mark(Evicted, id0, c0, evicted), [Event(Accepted, id0, c0, packet)], id, c, part);
  }

  lemma AcceptQueues(st: State, id0: nat, c0: Class, k: nat, packet: Packet, id: nat, c: Class)
    requires id0 in st.peers && k <= |st.peers[id0].Of(c0).queue|
    ensures QueueOf(Accept(st, id0, c0, k, packet).state, id, c) ==
            if id == id0 && c == c0 then st.peers[id0].Of(c0).queue[k..] + [packet] else QueueOf(st, id, c)
  {
    hide QueueBytes, Mark;
  }

  lemma AcceptConserves(st: State, id0: nat, c0: Class, k: nat, packet: Packet, id: nat, c: Class)
    requires id0 in st.peers && k <= |st.peers[id0].Of(c0).queue|
    ensures Conserves(st, Accept(st, id0, c0, k, packet).events, Accept(st, id0, c0, k, packet).state, id, c)
  {
    hide Select, Accept;
    SelectAccept(st, id0, c0, k, packet, id, c, TakenIn);
    SelectAccept(st, id0, c0, k, packet, id, c, GoneOut);
    AcceptQueues(st, id0, c0, k, packet, id, c);
    if id == id0 && c == c0 {
      var queue := st.peers[id0].Of(c0).queue;
      assert queue + ([] + [packet]) == (queue[..k] + []) + (queue[k..] + [packet]);
    } else {
      assert QueueOf(st, id, c) + [] == [] + QueueOf(st, id, c);
    }
  }

  lemma RemoveConserves(l: Limits, st: State, id0: nat, id: nat, c: Class)
    requires Valid(l, st)
    ensures Conserves(st, RemovePeer(st, id0).events, RemovePeer(st, id0).state, id, c)
  {
    hide Select, Mark, LowerBound, Deleted, Valid;
    RemoveKeeps(l, st, id0);
    if id0 in st.peers {
      var a := st.peers[id0].realtime.queue;
      var b := st.peers[id0].reliable.queue;
      forall part: Part
        ensures Select(RemovePeer(st, id0).events, id, c, part) ==
                if id == id0 && Belongs(part, Removed) then st.peers[id0].Of(c).queue else []
      {
        SelectMark(Removed, id0, Realtime, a, id, c, part);
        SelectMark(Removed, id0, Reliable, b, id, c, part);
        SelectAppend(Mark(Removed, id0, Realtime, a), Mark(Removed, id0, Reliable, b), id, c, part);
      }
    } else {
      NothingConserves(st, id, c);
    }
  }

  lemma StepConserves(clock: Clock, l: Limits, st: State, op: Op, id: nat, c: Class)
    requires Valid(l, st)
    ensures Indexed(st)
    ensures Conserves(st, Step(clock, l, st, op).events, Step(clock, l, st, op).state, id, c)
  {
    hide Valid, Indexed, Conserves, RemovePeer, Send, Refresh, ExpiredBefore, Drain;
    ValidIsIndexed(l, st);
    match op
    case Add(id0) => AddConserves(st, id0, id, c);
    case Remove(id0) => RemoveConserves(l, st, id0, id, c);
    case Produce(id0, bytes) => SendConserves(l, st, id0, bytes, id, c);
    case Tick(ms) =>
      var pruned := Refresh(clock, l, st, ms);
      RefreshKeeps(clock, l, st, ms);
      ValidIsIndexed(l, pruned);
      RefreshConserves(clock, l, st, ms, id, c);
      DrainConserves(l, pruned, id, c);
      ConservesBoth(st, ExpiredBefore(clock, l, st, |st.ids|, ms), pruned, Drain(pruned).events, Drain(pruned).state,
                    id, c);
  }

  lemma AddConserves(st: State, id0: nat, id: nat, c: Class)
    ensures Conserves(st, AddPeer(st, id0).events, AddPeer(st, id0).state, id, c)
  {
    hide LowerBound, Inserted;
  }

  lemma {:induction false} RunConserves(clock: Clock, l: Limits, st: State, ops: seq<Op>, id: nat, c: Class)
    requires Valid(l, st)
    ensures Conserves(st, Run(clock, l, st, ops).events, Run(clock, l, st, ops).state, id, c)
    decreases |ops|
  {
    hide Valid, Step, Conserves;
    if ops == [] {
      NothingConserves(st, id, c);
    } else {
      StepKeeps(clock, l, st, ops[0]);
      StepConserves(clock, l, st, ops[0], id, c);
      var first := Step(clock, l, st, ops[0]);
      var rest := Run(clock, l, first.state, ops[1..]);
      RunConserves(clock, l, first.state, ops[1..], id, c);
      ConservesBoth(st, first.events, first.state, rest.events, rest.state, id, c);
    }
  }

  lemma {:induction false} HandedAmongGone(events: seq<Event>, id: nat, c: Class)
    ensures Subsequence(Select(events, id, c, HandedOver), Select(events, id, c, GoneOut))
  {
    if events != [] {
      var n := |events| - 1;
      HandedAmongGone(events[..n], id, c);
      var a := Select(events[..n], id, c, HandedOver);
      var b := Select(events[..n], id, c, GoneOut);
      var e := events[n];
      assert a + [] == a && b + [] == b;
      if e.peer == id && e.class_ == c {
        if e.fate.Carried? {
          SubsequencePush(a, b, e.packet);
        } else if !e.fate.Accepted? {
          SubsequenceExtends(a, b, [e.packet]);
        }
      }
    }
  }

  lemma ValidEmpty(l: Limits)
    requires ValidLimits(l)
    ensures Valid(l, EMPTY)
  {}

  /** From the start of a scheduler, for every peer and class: the accepted packets are, in order, those that
      were sent or dropped followed by those still queued; what was sent is a subsequence of what was accepted;
      and the byte counter is the sum of the queue and within the limit. */
  lemma EveryPacketAccountedFor(clock: Clock, l: Limits, ops: seq<Op>, id: nat, c: Class)
    requires ValidLimits(l)
    ensures Valid(l, EMPTY)
    ensures var o := Run(clock, l, EMPTY, ops);
            && Select(o.events, id, c, TakenIn) == Select(o.events, id, c, GoneOut) + QueueOf(o.state, id, c)
            && Subsequence(Select(o.events, id, c, HandedOver), Select(o.events, id, c, TakenIn))
            && (id in o.state.peers ==> LaneOk(l, o.state.peers[id].Of(c)))
  {
    hide Select, Step, Conserves, Subsequence, Valid;
    ValidEmpty(l);
    var o := Run(clock, l, EMPTY, ops);
    RunConserves(clock, l, EMPTY, ops, id, c);
    FromEmpty(o, id, c);
    HandedAmongGone(o.events, id, c);
    SubsequenceExtends(Select(o.events, id, c, HandedOver), Select(o.events, id, c, GoneOut), QueueOf(o.state, id, c));
    if id in o.state.peers { LanesOk(l, o.state, id, c); }
  }

  lemma FromEmpty(o: Outcome, id: nat, c: Class)
    requires Conserves(EMPTY, o.events, o.state, id, c)
    ensures Select(o.events, id, c, TakenIn) == Select(o.events, id, c, GoneOut) + QueueOf(o.state, id, c)
  {}

  /** Reliable packets never make room: they are only refused, aged out or removed with their peer. */
  lemma {:induction false} ReliableNeverEvicted(clock: Clock, l: Limits, st: State, ops: seq<Op>)
    requires Valid(l, st)
    ensures forall e :: e in Run(clock, l, st, ops).events && e.fate.Evicted? ==> e.class_.Realtime?
    decreases |ops|
  {
    hide Valid, Step;
    if ops != [] {
      StepKeeps(clock, l, st, ops[0]);
      StepEvictsRealtime(clock, l, st, ops[0]);
      ReliableNeverEvicted(clock, l, Step(clock, l, st, ops[0]).state, ops[1..]);
    }
  }

  lemma StepEvictsRealtime(clock: Clock, l: Limits, st: State, op: Op)
    requires Valid(l, st)
    ensures Indexed(st)
    ensures forall e :: e in Step(clock, l, st, op).events && e.fate.Evicted? ==> e.class_.Realtime?
  {
    hide Valid, Indexed, Drain, Refresh, ExpiredBefore, LowerBound, EvictCount, ClassOf, DropFront, Push;
    ValidIsIndexed(l, st);
    if op.Tick? {
      var pruned := Refresh(clock, l, st, op.ms);
      RefreshKeeps(clock, l, st, op.ms);
      ValidIsIndexed(l, pruned);
      DrainOnlyCarries(l, pruned);
      ExpiredOnly(clock, l, st, |st.ids|, op.ms);
    } else if op.Produce? && op.id in st.peers {
      var c := ClassOf(op.bytes);
      if c.Some? { assert Mark(Evicted, op.id, c.value, st.peers[op.id].Of(c.value).queue[..0]) == []; }
    }
  }

  lemma {:induction false} DrainOnlyCarries(l: Limits, st: State)
    requires Valid(l, st)
    ensures forall e :: e in Drain(st).events ==> e.fate.Carried?
    decreases st.tokens
  {
    if SomePayable(st) {
      PassSpends(l, st);
      DrainOnlyCarries(l, Pass(st));
    }
  }
}
