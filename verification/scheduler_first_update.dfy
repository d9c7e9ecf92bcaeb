/** What happens to packets that are queued before the first update, whose clock is still unset. */
module SchedulerFirstUpdate {
  import opened Common
  import opened DatagramKinds
  import opened SchedulerModel
  import opened SchedulerHistory

  predicate StampedZero(queue: seq<Packet>) { forall i :: 0 <= i < |queue| ==> queue[i].queuedAt == 0 }

  /** No update has been made, and everything queued carries the stamp 0. */
  predicate Unstarted(st: State) {
    && !st.started && st.now == 0
    && forall id :: id in st.peers ==>
         StampedZero(st.peers[id].realtime.queue) && StampedZero(st.peers[id].reliable.queue)
  }

  lemma AcceptUnstarted(st: State, id: nat, c: Class, k: nat, bytes: seq<Byte>)
    requires Unstarted(st) && id in st.peers && k <= |st.peers[id].Of(c).queue|
    ensures Unstarted(Accept(st, id, c, k, Packet(st.now, bytes)).state)
  {
    hide QueueBytes, Mark;
  }

  lemma SendUnstarted(l: Limits, st: State, id: nat, bytes: seq<Byte>)
    requires Unstarted(st)
    ensures Unstarted(Send(l, st, id, bytes).state)
  {
    hide ClassOf, EvictCount, Unstarted, Accept;
    var kind := ClassOf(bytes);
    if id in st.peers && kind.Some? {
      var lane := st.peers[id].Of(kind.value);
      AcceptUnstarted(st, id, kind.value, 0, bytes);
      AcceptUnstarted(st, id, kind.value, EvictCount(lane.queue, |bytes|, l.queuedBytesPerClass), bytes);
    }
  }

  lemma MembersUnstarted(st: State, id: nat)
    requires Unstarted(st)
    ensures Unstarted(AddPeer(st, id).state) && Unstarted(RemovePeer(st, id).state)
  {
    hide LowerBound, Inserted, Deleted, Mark;
  }

  /** Only an update starts the clock. */
  lemma StaysUnstarted(clock: Clock, l: Limits, st: State, op: Op)
    requires Indexed(st) && Unstarted(st) && !op.Tick?
    ensures Unstarted(Step(clock, l, st, op).state)
  {
    hide Unstarted, Send, AddPeer, RemovePeer, Update;
    match op
    case Add(id) => MembersUnstarted(st, id);
    case Remove(id) => MembersUnstarted(st, id);
    case Produce(id, bytes) => SendUnstarted(l, st, id, bytes);
  }

  predicate Tickless(ops: seq<Op>) { forall i :: 0 <= i < |ops| ==> !ops[i].Tick? }

  lemma {:induction false} RunUnstarted(clock: Clock, l: Limits, st: State, ops: seq<Op>)
    requires Valid(l, st) && Unstarted(st) && Tickless(ops)
    ensures Unstarted(Run(clock, l, st, ops).state)
    decreases |ops|
  {
    hide Valid, Unstarted, Step;
    if ops != [] {
      ValidIsIndexed(l, st);
      StaysUnstarted(clock, l, st, ops[0]);
      StepKeeps(clock, l, st, ops[0]);
      RunUnstarted(clock, l, Step(clock, l, st, ops[0]).state, ops[1..]);
    }
  }

  /** The run goes on by one operation. */
  lemma {:induction false} RunThen(clock: Clock, l: Limits, st: State, ops: seq<Op>, op: Op)
    requires Valid(l, st)
    ensures var before := Run(clock, l, st, ops);
            && Indexed(before.state)
            && Run(clock, l, st, ops + [op]).state == Step(clock, l, before.state, op).state
            && Run(clock, l, st, ops + [op]).events == before.events + Step(clock, l, before.state, op).events
    decreases |ops|
  {
    hide Valid, Step;
    ValidIsIndexed(l, Run(clock, l, st, ops).state);
    ValidIsIndexed(l, st);
    if ops == [] {
      StepKeeps(clock, l, st, op);
      OneStep(clock, l, st, op);
      assert ops + [op] == [op];
    } else {
      StepKeeps(clock, l, st, ops[0]);
      RunThen(clock, l, Step(clock, l, st, ops[0]).state, ops[1..], op);
      assert (ops + [op])[1..] == ops[1..] + [op];
    }
  }

  lemma OneStep(clock: Clock, l: Limits, st: State, op: Op)
    requires Valid(l, st) && Valid(l, Step(clock, l, st, op).state)
    ensures Indexed(st)
    ensures Run(clock, l, st, [op]).state == Step(clock, l, st, op).state
    ensures Run(clock, l, st, [op]).events == Step(clock, l, st, op).events
  {
    hide Valid, Step;
    ValidIsIndexed(l, st);
    var first := Step(clock, l, st, op);
    assert [op][1..] == [];
    assert first.events + [] == first.events;
  }

  // ---- the first update ----

  /** The packets of a queue all expire, or none does. */
  lemma {:induction false} AllOrNone(queue: seq<Packet>, ms: nat, maxAge: nat)
    requires ms < CLOCK && StampedZero(queue)
    ensures ExpireCount(Wrapping, queue, ms, maxAge) == if ms > maxAge then |queue| else 0
  {
    if queue != [] { AllOrNone(queue[1..], ms, maxAge); }
  }

  /** Everything queued at the first `i` peers, as it looks when it expires. */
  function Expiring(st: State, i: nat): seq<Event>
    requires Indexed(st) && i <= |st.ids|
  {
    if i == 0 then []
    else
      var id := st.ids[i - 1];
      Expiring(st, i - 1) +
      (Mark(Expired, id, Realtime, st.peers[id].realtime.queue) +
       Mark(Expired, id, Reliable, st.peers[id].reliable.queue))
  }

  lemma {:induction false} ExpiresAllOrNone(l: Limits, st: State, i: nat, ms: nat)
    requires Indexed(st) && Unstarted(st) && i <= |st.ids| && ms < CLOCK
    ensures ExpiredBefore(Wrapping, l, st, i, ms) == if ms > l.maxQueueAgeMs then Expiring(st, i) else []
  {
    hide Mark, ExpireCount, Sorted;
    if i != 0 {
      var id := st.ids[i - 1];
      var peer := st.peers[id];
      ExpiresAllOrNone(l, st, i - 1, ms);
      AllOrNone(peer.realtime.queue, ms, l.maxQueueAgeMs);
      AllOrNone(peer.reliable.queue, ms, l.maxQueueAgeMs);
      MarkNone(id);
      assert peer.realtime.queue[..|peer.realtime.queue|] == peer.realtime.queue;
      assert peer.reliable.queue[..|peer.reliable.queue|] == peer.reliable.queue;
    }
  }

  lemma MarkNone(id: nat)
    ensures Mark(Expired, id, Realtime, []) == Mark(Expired, id, Reliable, []) == []
  {}

  predicate QueuesEmpty(st: State) {
    forall id :: id in st.peers ==> st.peers[id].realtime.queue == [] && st.peers[id].reliable.queue == []
  }

  lemma RefreshAllOrNone(l: Limits, st: State, ms: nat)
    requires Unstarted(st) && ms < CLOCK
    ensures var refreshed := Refresh(Wrapping, l, st, ms);
            if ms > l.maxQueueAgeMs then QueuesEmpty(refreshed)
            else
              && refreshed.peers.Keys == st.peers.Keys
              && forall id :: id in st.peers ==>
                   && refreshed.peers[id].realtime.queue == st.peers[id].realtime.queue
                   && refreshed.peers[id].reliable.queue == st.peers[id].reliable.queue
  {
    hide ExpireCount, QueueBytes, Refill;
    forall id | id in st.peers
      ensures PruneLane(Wrapping, l, st.peers[id].realtime, ms).queue ==
              if ms > l.maxQueueAgeMs then [] else st.peers[id].realtime.queue
      ensures PruneLane(Wrapping, l, st.peers[id].reliable, ms).queue ==
              if ms > l.maxQueueAgeMs then [] else st.peers[id].reliable.queue
    {
      AllOrNone(st.peers[id].realtime.queue, ms, l.maxQueueAgeMs);
      AllOrNone(st.peers[id].reliable.queue, ms, l.maxQueueAgeMs);
    }
  }

  lemma EmptyDrainsNothing(st: State)
    requires Indexed(st) && QueuesEmpty(st)
    ensures Drain(st) == Outcome(st, true, [])
  {
    hide Drain, Sorted, QueuesEmpty;
    forall id | id in st.peers ensures Stuck(st, id) { EmptyIsStuck(st, id); }
    NobodyDrains(st);
  }

  lemma EmptyIsStuck(st: State, id: nat)
    requires QueuesEmpty(st) && id in st.peers
    ensures Stuck(st, id)
  {}

  lemma NobodyDrains(st: State)
    requires Indexed(st) && forall id :: id in st.peers ==> Stuck(st, id)
    ensures Drain(st) == Outcome(st, true, [])
  {
    hide Stuck, Sorted;
    if SomePayable(st) { SomebodyPays(st); }
  }

  lemma SomebodyPays(st: State)
    requires Indexed(st) && SomePayable(st)
    ensures exists id :: id in st.peers && !Stuck(st, id)
  {
    assert !Stuck(st, st.ids[Turn(st)]);
  }

  lemma {:induction false} DrainCarries(l: Limits, st: State)
    requires Valid(l, st)
    ensures forall e :: e in Drain(st).events ==> e.fate.Carried?
    decreases st.tokens
  {
    hide Valid, Pass, SomePayable;
    ValidIsIndexed(l, st);
    if SomePayable(st) {
      PassSpends(l, st);
      TokensNotNegative(l, st);
      DrainCarries(l, Pass(st));
    } else {
      DrainsNothing(st);
    }
  }

  lemma DrainsNothing(st: State)
    requires Indexed(st) && !SomePayable(st)
    ensures Drain(st).events == []
  {}

  lemma TokensNotNegative(l: Limits, st: State)
    requires Valid(l, st)
    ensures 0 <= st.tokens
  {}

  /** The packets queued before the first update are all stamped 0, however late it is. If the reading of the first
      update exceeds the age limit, all of them expire there, however young, and nothing is sent; if not, none
      expires there. */
  lemma QueuedBeforeFirstUpdate(l: Limits, ops: seq<Op>, ms: nat)
    requires ValidLimits(l) && Tickless(ops) && ms < CLOCK
    ensures Valid(l, EMPTY) && Indexed(Run(Wrapping, l, EMPTY, ops).state)
    ensures var before := Run(Wrapping, l, EMPTY, ops);
            var after := Run(Wrapping, l, EMPTY, ops + [Tick(ms)]);
            && Unstarted(before.state)
            && before.events <= after.events
            && var update := after.events[|before.events|..];
               if ms > l.maxQueueAgeMs then
                 update == Expiring(before.state, |before.state.ids|) && QueuesEmpty(after.state)
               else
                 forall e :: e in update ==> e.fate.Carried?
  {
    hide Valid, Run, Unstarted, Refresh, ExpiredBefore, Drain, Expiring, QueuesEmpty, Tickless;
    ValidEmpty(l);
    EmptyUnstarted();
    var st := Run(Wrapping, l, EMPTY, ops).state;
    RunUnstarted(Wrapping, l, EMPTY, ops);
    RunThen(Wrapping, l, EMPTY, ops, Tick(ms));
    ExpiresAllOrNone(l, st, |st.ids|, ms);
    RefreshAllOrNone(l, st, ms);
    RefreshKeeps(Wrapping, l, st, ms);
    var refreshed := Refresh(Wrapping, l, st, ms);
    ValidIsIndexed(l, refreshed);
    DrainCarries(l, refreshed);
    if ms > l.maxQueueAgeMs {
      EmptyDrainsNothing(refreshed);
      assert Expiring(st, |st.ids|) + [] == Expiring(st, |st.ids|);
    } else {
      assert [] + Drain(refreshed).events == Drain(refreshed).events;
    }
  }

  lemma EmptyUnstarted()
    ensures Unstarted(EMPTY)
  {}
}
