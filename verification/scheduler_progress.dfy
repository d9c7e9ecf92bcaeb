/** What an update owes its peers: how much credit it adds, and that nothing waits that could be paid for. */
module SchedulerProgress {
  import opened Common
  import opened DatagramKinds
  import opened SchedulerModel
  import opened SchedulerBudget

  /** Milliseconds from one reading of the 32-bit clock to the next. */
  function Passed(from: nat, to: nat): nat
    requires from < CLOCK && to < CLOCK
  {
    if from <= to then to - from else to + CLOCK - from
  }

  lemma PassedIsElapsed(st: State, ms: nat)
    requires st.started && st.now < CLOCK && ms < CLOCK
    ensures Elapsed(Wrapping, st, ms) == Passed(st.now, ms)
  {}

  /** An account when an update has refilled it: what it had, and the rate for every millisecond since the last update,
      up to the burst. The first update adds nothing. */
  function Refilled(l: Limits, st: State, ms: nat, who: Account): int
    requires st.now < CLOCK && ms < CLOCK
  {
    if st.started then Min(BURST_MILLI, Balance(st, who) + Passed(st.now, ms) * Rate(l, who)) else Balance(st, who)
  }

  /** What an update hands over and leaves is all there is. */
  lemma UpdateBalance(l: Limits, st: State, ms: nat, who: Account)
    requires Valid(l, st) && st.now < CLOCK && ms < CLOCK
    ensures var o := Update(Wrapping, l, st, ms);
            Charged(o.events, who) + Balance(o.state, who) == Refilled(l, st, ms, who)
  {
    hide Update, Charged, Elapsed;
    TickCharges(Wrapping, l, st, ms, who);
    if st.started {
      PassedIsElapsed(st, ms);
    } else {
      NothingElapsed(st, ms);
      WithinBurst(l, st, who);
    }
  }

  lemma NothingElapsed(st: State, ms: nat)
    requires !st.started
    ensures Elapsed(Wrapping, st, ms) == 0
  {}

  lemma WithinBurst(l: Limits, st: State, who: Account)
    requires Valid(l, st)
    ensures 0 <= Balance(st, who) <= BURST_MILLI
  {}

  // ---- nothing waits that could be paid for ----

  /** An update leaves a packet at the head of a queue only if it has spent the credit of that peer, or that of all
      peers, down to less than the packet costs. */
  lemma SpendsItsCredit(l: Limits, st: State, ms: nat, id: nat, c: Class)
    requires Valid(l, st) && st.now < CLOCK && ms < CLOCK
    requires var after := Update(Wrapping, l, st, ms).state; id in after.peers && after.peers[id].Of(c).queue != []
    ensures var o := Update(Wrapping, l, st, ms);
            var cost := 1000 * Cost(o.state.peers[id].Of(c).queue[0]);
            || Charged(o.events, Some(id)) + cost > Refilled(l, st, ms, Some(id))
            || Charged(o.events, None) + cost > Refilled(l, st, ms, None)
  {
    hide Charged, Update, Refresh, Stuck, Payable, Valid, Cost, Refilled, Indexed;
    ValidIsIndexed(l, st);
    var o := Update(Wrapping, l, st, ms);
    UpdateBalance(l, st, ms, Some(id));
    UpdateBalance(l, st, ms, None);
    EndsStuck(Wrapping, l, st, ms, id);
    StuckHead(o.state, id, c);
  }

  lemma EndsStuck(clock: Clock, l: Limits, st: State, ms: nat, id: nat)
    requires Valid(l, st) && id in Update(clock, l, st, ms).state.peers
    ensures Stuck(Update(clock, l, st, ms).state, id)
  {
    hide Refresh, Stuck, Valid, Indexed, ExpiredBefore, Drain;
    ValidIsIndexed(l, st);
    RefreshKeeps(clock, l, st, ms);
    var refreshed := Refresh(clock, l, st, ms);
    DrainsStuck(l, refreshed);
  }

  lemma {:induction false} DrainsStuck(l: Limits, st: State)
    requires Valid(l, st)
    ensures forall id :: id in Drain(st).state.peers ==> Stuck(Drain(st).state, id)
    decreases st.tokens
  {
    hide Valid, Pass, SomePayable, Stuck, Indexed, Drain;
    ValidIsIndexed(l, st);
    TokensBounded(l, st);
    if SomePayable(st) {
      PassSpends(l, st);
      DrainsStuck(l, Pass(st));
    } else {
      DrainDone(st);
      forall id | id in st.peers ensures Stuck(st, id) { NobodyPays(st, id); }
    }
  }

  lemma StuckHead(st: State, id: nat, c: Class)
    requires id in st.peers && Stuck(st, id) && st.peers[id].Of(c).queue != []
    ensures var cost := 1000 * Cost(st.peers[id].Of(c).queue[0]);
            cost > Balance(st, Some(id)) || cost > Balance(st, None)
  {}

  // ---- a peer on its own ----

  /** The head of a peer's lane is not too old at an update. */
  predicate InTime(l: Limits, queue: seq<Packet>, ms: nat)
    requires ms < CLOCK
  {
    queue != [] && queue[0].queuedAt < CLOCK && Passed(queue[0].queuedAt, ms) <= l.maxQueueAgeMs
  }

  /** A lone peer's head is handed over by the next update whose elapsed time, at both rates, covers its cost. */
  lemma LoneHeadIsSent(l: Limits, st: State, ms: nat, id: nat, c: Class)
    requires Valid(l, st) && st.started && st.now < CLOCK && ms < CLOCK && st.ids == [id] && id in st.peers
    requires InTime(l, st.peers[id].Of(c).queue, ms)
    requires st.peers[id].nextClass == c || st.peers[id].Of(c.Other()).queue == []
    requires var cost := 1000 * Cost(st.peers[id].Of(c).queue[0]);
             && cost <= Passed(st.now, ms) * l.perPeerBytesPerSecond
             && cost <= Passed(st.now, ms) * l.totalBytesPerSecond
    ensures Event(Carried, id, c, st.peers[id].Of(c).queue[0]) in Update(Wrapping, l, st, ms).events
  {
    hide Charged, Valid, Indexed, Drain, ExpiredBefore, Refresh, Elapsed, Cost, Pass, Turn, PickClass, SomePayable;
    ValidIsIndexed(l, st);
    RefreshKeeps(Wrapping, l, st, ms);
    var refreshed := Refresh(Wrapping, l, st, ms);
    ValidIsIndexed(l, refreshed);
    var head := st.peers[id].Of(c).queue[0];
    HeadStays(l, st, ms, id, c);
    CanPay(l, st, ms, id, c);
    OnlyPeer(refreshed, id, c);
    DrainFirst(refreshed);
    assert Drain(refreshed).events[0] == Event(Carried, id, c, head);
  }

  lemma HeadStays(l: Limits, st: State, ms: nat, id: nat, c: Class)
    requires id in st.peers && ms < CLOCK && InTime(l, st.peers[id].Of(c).queue, ms)
    ensures var after := Refresh(Wrapping, l, st, ms);
            && after.ids == st.ids && id in after.peers && after.peers[id].nextClass == st.peers[id].nextClass
            && after.peers[id].Of(c).queue == st.peers[id].Of(c).queue
            && (st.peers[id].Of(c.Other()).queue == [] ==> after.peers[id].Of(c.Other()).queue == [])
  {
    hide QueueBytes, Refill, Elapsed;
    var queue := st.peers[id].Of(c).queue;
    assert Since(Wrapping, ms, queue[0].queuedAt) == Passed(queue[0].queuedAt, ms);
    assert ExpireCount(Wrapping, queue, ms, l.maxQueueAgeMs) == 0;
  }

  lemma CanPay(l: Limits, st: State, ms: nat, id: nat, c: Class)
    requires Valid(l, st) && st.started && st.now < CLOCK && ms < CLOCK && id in st.peers
    requires var queue := st.peers[id].Of(c).queue;
             && queue != []
             && 1000 * Cost(queue[0]) <= Passed(st.now, ms) * l.perPeerBytesPerSecond
             && 1000 * Cost(queue[0]) <= Passed(st.now, ms) * l.totalBytesPerSecond
    ensures var after := Refresh(Wrapping, l, st, ms);
            && id in after.peers
            && 1000 * Cost(st.peers[id].Of(c).queue[0]) <= after.peers[id].tokens
            && 1000 * Cost(st.peers[id].Of(c).queue[0]) <= after.tokens
  {
    hide RefreshedPeers, Elapsed, LaneOk, Indexed;
    RefreshCredits(Wrapping, l, st, ms, Some(id));
    RefreshCredits(Wrapping, l, st, ms, None);
    PassedIsElapsed(st, ms);
    ShortEnough(l, st, id, c);
    WithinBurst(l, st, Some(id));
    WithinBurst(l, st, None);
    SameKeys(l, st, ms);
  }

  lemma SameKeys(l: Limits, st: State, ms: nat)
    ensures Refresh(Wrapping, l, st, ms).peers.Keys == st.peers.Keys
  {}

  lemma ShortEnough(l: Limits, st: State, id: nat, c: Class)
    requires Valid(l, st) && id in st.peers && st.peers[id].Of(c).queue != []
    ensures 1000 * Cost(st.peers[id].Of(c).queue[0]) <= BURST_MILLI
  {
    assert st.peers[id].Of(c).queue[0] in st.peers[id].Of(c).queue;
  }

  lemma OnlyPeer(st: State, id: nat, c: Class)
    requires Indexed(st) && st.ids == [id] && id in st.peers && Payable(st, id, c)
    requires st.peers[id].nextClass == c || st.peers[id].Of(c.Other()).queue == []
    ensures SomePayable(st) && PassEvent(st) == Event(Carried, id, c, st.peers[id].Of(c).queue[0])
  {}

  lemma DrainFirst(st: State)
    requires Indexed(st) && SomePayable(st)
    ensures Drain(st).events != [] && Drain(st).events[0] == PassEvent(st)
  {}

  // ---- waiting over several updates ----

  /** The readings of the clock do not go back. */
  predicate Forward(now: nat, ops: seq<Op>)
    decreases |ops|
  {
    if ops == [] then true
    else if ops[0].Tick? then now <= ops[0].ms && Forward(ops[0].ms, ops[1..])
    else Forward(now, ops[1..])
  }

  /** What a started scheduler sees pass is the difference of the first and the last reading. */
  lemma {:induction false} SeesTimePass(l: Limits, st: State, ops: seq<Op>)
    requires Valid(l, st) && st.started && Forward(st.now, ops)
    ensures Run(Unbounded, l, st, ops).state.now == st.now + ElapsedOver(Unbounded, l, st, ops)
    decreases |ops|
  {
    hide Valid, Step;
    if ops != [] {
      StepKeeps(Unbounded, l, st, ops[0]);
      ClockAfter(l, st, ops[0]);
      SeesTimePass(l, Step(Unbounded, l, st, ops[0]).state, ops[1..]);
    }
  }

  lemma ClockAfter(l: Limits, st: State, op: Op)
    requires Valid(l, st) && st.started
    ensures Indexed(st)
    ensures var st' := Step(Unbounded, l, st, op).state;
            st'.started && st'.now == if op.Tick? then op.ms else st.now
  {
    hide Valid, RefreshedPeers, ExpiredBefore, Drain, Accept, ClassOf, EvictCount;
    ValidIsIndexed(l, st);
    if op.Tick? {
      RefreshKeeps(Unbounded, l, st, op.ms);
      DrainClock(l, Refresh(Unbounded, l, st, op.ms));
    } else if op.Produce? {
      SendClock(l, st, op.id, op.bytes);
    }
  }

  lemma {:induction false} DrainClock(l: Limits, st: State)
    requires Valid(l, st)
    ensures Drain(st).state.now == st.now && Drain(st).state.started == st.started
    decreases st.tokens
  {
    hide Valid, SomePayable, Turn, PickClass, Indexed;
    ValidIsIndexed(l, st);
    TokensBounded(l, st);
    if SomePayable(st) {
      PassSpends(l, st);
      DrainClock(l, Pass(st));
    } else {
      DrainDone(st);
    }
  }

  lemma SendClock(l: Limits, st: State, id: nat, bytes: seq<Byte>)
    ensures Send(l, st, id, bytes).state.now == st.now && Send(l, st, id, bytes).state.started == st.started
  {
    hide ClassOf, EvictCount, DropFront;
  }

  predicate NothingSent(events: seq<Event>) { forall e :: e in events ==> !e.fate.Carried? }

  /** While nothing is handed over every account fills at its rate. */
  lemma {:induction false} Saves(clock: Clock, l: Limits, st: State, ops: seq<Op>, who: Account)
    requires Valid(l, st) && Registered(ops, who) && NothingSent(Run(clock, l, st, ops).events)
    ensures Balance(Run(clock, l, st, ops).state, who) ==
            Min(BURST_MILLI, Balance(st, who) + ElapsedOver(clock, l, st, ops) * Rate(l, who))
    decreases |ops|
  {
    hide Step, Valid, Balance, Elapsed, Rate, Registered, Charged;
    WithinBurst(l, st, who);
    if ops != [] {
      ValidIsIndexed(l, st);
      var first := Step(clock, l, st, ops[0]);
      StepKeeps(clock, l, st, ops[0]);
      RegisteredParts(ops, who);
      StepSaves(clock, l, st, ops[0], who);
      Saves(clock, l, first.state, ops[1..], who);
      var e0 := if ops[0].Tick? then Elapsed(clock, st, ops[0].ms) else 0;
      var e1 := ElapsedOver(clock, l, first.state, ops[1..]);
      Distribute(e0, e1, Rate(l, who));
      assert e1 * Rate(l, who) >= 0;
    }
  }

  lemma StepSaves(clock: Clock, l: Limits, st: State, op: Op, who: Account)
    requires Valid(l, st) && Registered([op], who)
    ensures Indexed(st)
    ensures NothingSent(Step(clock, l, st, op).events) ==>
              Balance(Step(clock, l, st, op).state, who) ==
              Min(BURST_MILLI, Balance(st, who) + (if op.Tick? then Elapsed(clock, st, op.ms) else 0) * Rate(l, who))
  {
    hide Valid, Indexed, Balance, Charged, Elapsed, Rate, Update, AddPeer, RemovePeer, Send;
    ValidIsIndexed(l, st);
    WithinBurst(l, st, who);
    if op.Tick? {
      TickCharges(clock, l, st, op.ms, who);
      if NothingSent(Update(clock, l, st, op.ms).events) {
        NothingCharged(Update(clock, l, st, op.ms).events, who);
      }
    } else {
      if op.Remove? { assert who != Some(op.id) by { assert op in [op]; } }
      QuietBalance(clock, l, st, op, who);
    }
  }

  /** A packet that still waits at the end of an update, when nothing has been handed over in the meantime, costs more
      than the time that has passed covers at the rate of its peer, or at that of all peers together. */
  lemma WaitsOnlyForCredit(clock: Clock, l: Limits, st: State, ops: seq<Op>, id: nat, c: Class)
    requires Valid(l, st) && Registered(ops, Some(id)) && ops != [] && ops[|ops| - 1].Tick?
    requires NothingSent(Run(clock, l, st, ops).events)
    requires var after := Run(clock, l, st, ops).state; id in after.peers && after.peers[id].Of(c).queue != []
    ensures var head := Run(clock, l, st, ops).state.peers[id].Of(c).queue[0];
            || 1000 * Cost(head) > ElapsedOver(clock, l, st, ops) * l.perPeerBytesPerSecond
            || 1000 * Cost(head) > ElapsedOver(clock, l, st, ops) * l.totalBytesPerSecond
  {
    hide Run, Stuck, Valid, ElapsedOver, Balance, NothingSent, Cost, Registered;
    var after := Run(clock, l, st, ops).state;
    Saves(clock, l, st, ops, Some(id));
    Saves(clock, l, st, ops, None) by { NobodyInParticular(ops); }
    WithinBurst(l, st, Some(id));
    WithinBurst(l, st, None);
    RunEndsStuck(clock, l, st, ops, id);
    StuckHead(after, id, c);
    ShortEnough(l, after, id, c);
  }

  lemma NobodyInParticular(ops: seq<Op>)
    ensures Registered(ops, None)
  {}

  lemma {:induction false} RunEndsStuck(clock: Clock, l: Limits, st: State, ops: seq<Op>, id: nat)
    requires Valid(l, st) && ops != [] && ops[|ops| - 1].Tick? && id in Run(clock, l, st, ops).state.peers
    ensures Stuck(Run(clock, l, st, ops).state, id)
    decreases |ops|
  {
    hide Step, Valid, Stuck;
    ValidIsIndexed(l, st);
    StepKeeps(clock, l, st, ops[0]);
    if |ops| == 1 {
      TickEndsStuck(clock, l, st, ops[0], id);
    } else {
      RunEndsStuck(clock, l, Step(clock, l, st, ops[0]).state, ops[1..], id);
    }
  }

  lemma TickEndsStuck(clock: Clock, l: Limits, st: State, op: Op, id: nat)
    requires Valid(l, st) && Indexed(st) && op.Tick? && id in Step(clock, l, st, op).state.peers
    ensures Stuck(Step(clock, l, st, op).state, id)
  {
    hide Update, Stuck, Valid, Indexed;
    EndsStuck(clock, l, st, op.ms, id);
  }
}
