/** The scheduler on a wrapping 32-bit clock against the same scheduler on a true clock. */
module SchedulerClock {
  import opened Common
  import opened DatagramKinds
  import opened SchedulerModel

  // ---- what the device stores of a state kept with true times ----

  function WrapPacket(p: Packet): Packet { Packet(p.queuedAt % CLOCK, p.bytes) }

  function WrapQueue(queue: seq<Packet>): (r: seq<Packet>)
    ensures |r| == |queue|
    ensures forall i :: 0 <= i < |queue| ==> r[i] == WrapPacket(queue[i])
  {
    seq(|queue|, i requires 0 <= i < |queue| => WrapPacket(queue[i]))
  }

  function WrapLane(lane: Lane): Lane { Lane(WrapQueue(lane.queue), lane.bytes) }

  function WrapPeer(peer: Peer): Peer {
    Peer(WrapLane(peer.realtime), WrapLane(peer.reliable), peer.nextClass, peer.tokens)
  }

  function WrapPeers(peers: map<nat, Peer>): map<nat, Peer> {
    map id | id in peers :: WrapPeer(peers[id])
  }

  function WrapState(st: State): State {
    st.(peers := WrapPeers(st.peers), now := st.now % CLOCK)
  }

  function WrapEvent(e: Event): Event { e.(packet := WrapPacket(e.packet)) }

  function WrapEvents(events: seq<Event>): (r: seq<Event>)
    ensures |r| == |events|
    ensures forall i :: 0 <= i < |events| ==> r[i] == WrapEvent(events[i])
  {
    seq(|events|, i requires 0 <= i < |events| => WrapEvent(events[i]))
  }

  function WrapOp(op: Op): Op { if op.Tick? then Tick(op.ms % CLOCK) else op }

  function WrapOps(ops: seq<Op>): (r: seq<Op>)
    ensures |r| == |ops|
    ensures forall i :: 0 <= i < |ops| ==> r[i] == WrapOp(ops[i])
  {
    seq(|ops|, i requires 0 <= i < |ops| => WrapOp(ops[i]))
  }

  function WrapOutcome(o: Outcome): Outcome {
    Outcome(WrapState(o.state), o.ok, WrapEvents(o.events))
  }

  // ---- the timing under which the two agree ----

  /** Nothing is sent before the first update, and updates come less than 2^32 - maxQueueAgeMs apart. */
  predicate Timely(l: Limits, st: State, op: Op) {
    match op
    case Add(_) => true
    case Remove(_) => true
    case Produce(_, _) => st.started
    case Tick(ms) => st.started ==> st.now <= ms < st.now + CLOCK - l.maxQueueAgeMs
  }

  predicate TimelyRun(l: Limits, st: State, ops: seq<Op>)
    requires Valid(l, st)
    decreases |ops|
  {
    ops == [] ||
    (Timely(l, st, ops[0]) &&
     (StepKeeps(Unbounded, l, st, ops[0]); TimelyRun(l, Step(Unbounded, l, st, ops[0]).state, ops[1..])))
  }

  /** Stamps never decrease front to back, and no packet is older than the limit. */
  predicate Young(queue: seq<Packet>, now: nat, maxAge: nat) {
    && (forall i, j :: 0 <= i < j < |queue| ==> queue[i].queuedAt <= queue[j].queuedAt)
    && (forall i :: 0 <= i < |queue| ==> queue[i].queuedAt <= now <= queue[i].queuedAt + maxAge)
  }

  predicate AllYoung(l: Limits, st: State) {
    && (forall id :: id in st.peers ==>
          Young(st.peers[id].realtime.queue, st.now, l.maxQueueAgeMs) &&
          Young(st.peers[id].reliable.queue, st.now, l.maxQueueAgeMs))
    && (!st.started ==> forall id :: id in st.peers ==>
          st.peers[id].realtime.queue == [] && st.peers[id].reliable.queue == [])
  }

  // ---- the age test ----

  lemma DifferenceMod(a: nat, b: nat)
    requires b <= a
    ensures Subtract32(a % CLOCK, b % CLOCK) == (a - b) % CLOCK
  {
    assert a - b == CLOCK * (a / CLOCK - b / CLOCK) + (a % CLOCK - b % CLOCK);
  }

  /** The wrapping test says "too old" exactly when the true age modulo 2^32 is over the limit. So it is right
      if and only if the packet is younger than 2^32 ms or its age wraps to something over the limit. */
  lemma AgeTest(now: nat, queuedAt: nat, maxAge: nat)
    requires queuedAt <= now && maxAge < CLOCK
    ensures var age := now - queuedAt;
            && Since(Wrapping, now % CLOCK, queuedAt % CLOCK) == age % CLOCK
            && ((Since(Wrapping, now % CLOCK, queuedAt % CLOCK) > maxAge <==> age > maxAge) <==>
                (age < CLOCK || age % CLOCK > maxAge))
  {
    DifferenceMod(now, queuedAt);
  }

  // ---- queues ----

  lemma {:induction false} QueueBytesWrapped(queue: seq<Packet>)
    ensures QueueBytes(WrapQueue(queue)) == QueueBytes(queue)
  {
    if queue != [] {
      QueueBytesWrapped(queue[1..]);
      assert WrapQueue(queue)[1..] == WrapQueue(queue[1..]);
    }
  }

  lemma {:induction false} EvictCountWrapped(queue: seq<Packet>, n: nat, limit: nat)
    ensures EvictCount(WrapQueue(queue), n, limit) == EvictCount(queue, n, limit)
  {
    QueueBytesWrapped(queue);
    if queue != [] {
      EvictCountWrapped(queue[1..], n, limit);
      assert WrapQueue(queue)[1..] == WrapQueue(queue[1..]);
    }
  }

  lemma {:induction false} ExpireCountWrapped(queue: seq<Packet>, ms: nat, maxAge: nat)
    requires maxAge < CLOCK
    requires forall i :: 0 <= i < |queue| ==> queue[i].queuedAt <= ms < queue[i].queuedAt + CLOCK
    ensures ExpireCount(Wrapping, WrapQueue(queue), ms % CLOCK, maxAge) == ExpireCount(Unbounded, queue, ms, maxAge)
  {
    if queue != [] {
      AgeTest(ms, queue[0].queuedAt, maxAge);
      ExpireCountWrapped(queue[1..], ms, maxAge);
      assert WrapQueue(queue)[1..] == WrapQueue(queue[1..]);
    }
  }

  lemma DropFrontWrapped(lane: Lane, k: nat)
    requires k <= |lane.queue|
    ensures DropFront(WrapLane(lane), k) == WrapLane(DropFront(lane, k))
  {
    QueueBytesWrapped(lane.queue[..k]);
    assert WrapQueue(lane.queue)[..k] == WrapQueue(lane.queue[..k]);
    assert WrapQueue(lane.queue)[k..] == WrapQueue(lane.queue[k..]);
  }

  lemma MarkWrapped(fate: Fate, id: nat, c: Class, packets: seq<Packet>)
    ensures Mark(fate, id, c, WrapQueue(packets)) == WrapEvents(Mark(fate, id, c, packets))
  {}

  lemma WrapEventsAppend(a: seq<Event>, b: seq<Event>)
    ensures WrapEvents(a + b) == WrapEvents(a) + WrapEvents(b)
  {}

  lemma {:induction false} ExpiredAreOld(queue: seq<Packet>, ms: nat, maxAge: nat)
    ensures var k := ExpireCount(Unbounded, queue, ms, maxAge);
            && (forall j :: 0 <= j < k ==> ms > queue[j].queuedAt + maxAge)
            && (k < |queue| ==> ms <= queue[k].queuedAt + maxAge)
  {
    if queue != [] { ExpiredAreOld(queue[1..], ms, maxAge); }
  }

  /** Pruning the front of a queue whose stamps do not decrease leaves nothing over age anywhere in it. */
  lemma PruningSuffices(queue: seq<Packet>, now: nat, ms: nat, maxAge: nat)
    requires Young(queue, now, maxAge) && now <= ms
    ensures Young(queue[ExpireCount(Unbounded, queue, ms, maxAge)..], ms, maxAge)
  {
    ExpiredAreOld(queue, ms, maxAge);
    var k := ExpireCount(Unbounded, queue, ms, maxAge);
    forall j | k <= j < |queue| ensures ms <= queue[j].queuedAt + maxAge {
      assert queue[k].queuedAt <= queue[j].queuedAt;
    }
  }

  lemma PruneLaneWrapped(l: Limits, lane: Lane, now: nat, ms: nat)
    requires ValidLimits(l) && Young(lane.queue, now, l.maxQueueAgeMs) && now <= ms < now + CLOCK - l.maxQueueAgeMs
    ensures PruneLane(Wrapping, l, WrapLane(lane), ms % CLOCK) == WrapLane(PruneLane(Unbounded, l, lane, ms))
    ensures Pruned(Wrapping, l, WrapLane(lane), ms % CLOCK) == WrapQueue(Pruned(Unbounded, l, lane, ms))
  {
    ExpireCountWrapped(lane.queue, ms, l.maxQueueAgeMs);
    DropFrontWrapped(lane, ExpireCount(Unbounded, lane.queue, ms, l.maxQueueAgeMs));
    var k := ExpireCount(Unbounded, lane.queue, ms, l.maxQueueAgeMs);
    assert WrapQueue(lane.queue)[..k] == WrapQueue(lane.queue[..k]);
  }

  lemma PruneEmptyWrapped(l: Limits, lane: Lane, ms: nat)
    requires lane.queue == []
    ensures PruneLane(Wrapping, l, WrapLane(lane), ms % CLOCK) == WrapLane(PruneLane(Unbounded, l, lane, ms))
    ensures Pruned(Wrapping, l, WrapLane(lane), ms % CLOCK) == WrapQueue(Pruned(Unbounded, l, lane, ms)) == []
    ensures PruneLane(Unbounded, l, lane, ms).queue == []
  {
    assert WrapQueue(lane.queue) == [];
  }

  // ---- refill and prune ----

  lemma ElapsedWrapped(l: Limits, st: State, ms: nat)
    requires ValidLimits(l) && Timely(l, st, Tick(ms))
    ensures Elapsed(Wrapping, WrapState(st), ms % CLOCK) == Elapsed(Unbounded, st, ms)
  {
    if st.started { DifferenceMod(ms, st.now); }
  }

  /** One peer's lanes at a timely update. */
  lemma PeerLanesWrapped(l: Limits, st: State, id: nat, c: Class, ms: nat)
    requires ValidLimits(l) && Timely(l, st, Tick(ms)) && AllYoung(l, st) && id in st.peers
    ensures var lane := st.peers[id].Of(c);
            && PruneLane(Wrapping, l, WrapLane(lane), ms % CLOCK) == WrapLane(PruneLane(Unbounded, l, lane, ms))
            && Pruned(Wrapping, l, WrapLane(lane), ms % CLOCK) == WrapQueue(Pruned(Unbounded, l, lane, ms))
            && Young(PruneLane(Unbounded, l, lane, ms).queue, ms, l.maxQueueAgeMs)
  {
    hide WrapLane, WrapQueue, Young, PruneLane, Pruned;
    var lane := st.peers[id].Of(c);
    if st.started {
      PruneLaneWrapped(l, lane, st.now, ms);
      PruneLaneYoung(l, lane, st.now, ms);
    } else {
      PruneEmptyWrapped(l, lane, ms);
      EmptyYoung(ms, l.maxQueueAgeMs);
    }
  }

  lemma EmptyYoung(ms: nat, maxAge: nat)
    ensures Young([], ms, maxAge)
  {}

  lemma PruneLaneYoung(l: Limits, lane: Lane, now: nat, ms: nat)
    requires Young(lane.queue, now, l.maxQueueAgeMs) && now <= ms
    ensures Young(PruneLane(Unbounded, l, lane, ms).queue, ms, l.maxQueueAgeMs)
  {
    PruningSuffices(lane.queue, now, ms, l.maxQueueAgeMs);
  }

  lemma RefreshWrapped(l: Limits, st: State, ms: nat)
    requires ValidLimits(l) && Indexed(st) && Timely(l, st, Tick(ms)) && AllYoung(l, st)
    ensures Refresh(Wrapping, l, WrapState(st), ms % CLOCK) == WrapState(Refresh(Unbounded, l, st, ms))
    ensures AllYoung(l, Refresh(Unbounded, l, st, ms))
  {
    hide WrapLane, PruneLane, Refill, Elapsed, Timely, Young;
    ElapsedWrapped(l, st, ms);
    forall id | id in st.peers
      ensures RefreshPeer(Wrapping, l, WrapPeer(st.peers[id]), Elapsed(Unbounded, st, ms), ms % CLOCK) ==
              WrapPeer(RefreshPeer(Unbounded, l, st.peers[id], Elapsed(Unbounded, st, ms), ms))
      ensures Young(PruneLane(Unbounded, l, st.peers[id].realtime, ms).queue, ms, l.maxQueueAgeMs)
      ensures Young(PruneLane(Unbounded, l, st.peers[id].reliable, ms).queue, ms, l.maxQueueAgeMs)
    {
      PeerLanesWrapped(l, st, id, Realtime, ms);
      PeerLanesWrapped(l, st, id, Reliable, ms);
    }
  }

  lemma ExpiredOfWrapped(l: Limits, st: State, id: nat, ms: nat)
    requires ValidLimits(l) && Timely(l, st, Tick(ms)) && AllYoung(l, st) && id in st.peers
    ensures ExpiredOf(Wrapping, l, id, WrapPeer(st.peers[id]), ms % CLOCK) ==
            WrapEvents(ExpiredOf(Unbounded, l, id, st.peers[id], ms))
  {
    hide WrapLane, WrapQueue, WrapEvents, Young, AllYoung, PruneLane, Pruned, Mark;
    var peer := st.peers[id];
    PeerLanesWrapped(l, st, id, Realtime, ms);
    PeerLanesWrapped(l, st, id, Reliable, ms);
    MarkWrapped(Expired, id, Realtime, Pruned(Unbounded, l, peer.realtime, ms));
    MarkWrapped(Expired, id, Reliable, Pruned(Unbounded, l, peer.reliable, ms));
    WrapEventsAppend(Mark(Expired, id, Realtime, Pruned(Unbounded, l, peer.realtime, ms)),
                     Mark(Expired, id, Reliable, Pruned(Unbounded, l, peer.reliable, ms)));
  }

  lemma WrapIndexed(st: State)
    requires Indexed(st)
    ensures Indexed(WrapState(st))
  {}

  lemma {:induction false} ExpiredWrapped(l: Limits, st: State, i: nat, ms: nat)
    requires ValidLimits(l) && Indexed(st) && Indexed(WrapState(st)) && i <= |st.ids|
    requires Timely(l, st, Tick(ms)) && AllYoung(l, st)
    ensures ExpiredBefore(Wrapping, l, WrapState(st), i, ms % CLOCK) ==
            WrapEvents(ExpiredBefore(Unbounded, l, st, i, ms))
  {
    hide WrapPeer, WrapEvents, AllYoung, Timely, ExpiredOf, Sorted;
    if i == 0 {
      WrapNoEvents();
    } else {
      var id := st.ids[i - 1];
      ExpiredWrapped(l, st, i - 1, ms);
      ExpiredOfWrapped(l, st, id, ms);
      WrapEventsAppend(ExpiredBefore(Unbounded, l, st, i - 1, ms), ExpiredOf(Unbounded, l, id, st.peers[id], ms));
    }
  }

  lemma WrapNoEvents()
    ensures WrapEvents([]) == []
  {}

  // ---- passes ----

  lemma PayableWrapped(st: State, id: nat, c: Class)
    requires id in st.peers
    ensures Payable(WrapState(st), id, c) == Payable(st, id, c)
    ensures Payable(st, id, c) ==> Head(WrapState(st), id, c) == WrapPacket(Head(st, id, c))
  {}

  lemma StuckWrapped(st: State, id: nat)
    requires id in st.peers
    ensures Stuck(WrapState(st), id) == Stuck(st, id)
    ensures PickClass(WrapState(st), id) == PickClass(st, id)
  {
    hide Payable;
    PayableWrapped(st, id, Realtime);
    PayableWrapped(st, id, Reliable);
  }

  lemma {:induction false} SkippedWrapped(st: State, start: nat, k: nat)
    requires Indexed(st) && Indexed(WrapState(st)) && start < |st.ids| && k <= |st.ids|
    ensures Skipped(WrapState(st), start, k) == Skipped(st, start, k)
    decreases |st.ids| - k
  {
    hide WrapPeers, Stuck, Sorted;
    if k != |st.ids| {
      StuckWrapped(st, st.ids[Around(start, k, |st.ids|)]);
      SkippedWrapped(st, start, k + 1);
    }
  }

  lemma PeersWrapped(peers: map<nat, Peer>, id: nat, peer: Peer)
    ensures WrapPeers(peers[id := peer]) == WrapPeers(peers)[id := WrapPeer(peer)]
    ensures WrapPeers(peers - {id}) == WrapPeers(peers) - {id}
    ensures id in WrapPeers(peers) <==> id in peers
    ensures id in peers ==> WrapPeers(peers)[id] == WrapPeer(peers[id])
  {
    assert WrapPeers(peers[id := peer]).Keys == WrapPeers(peers)[id := WrapPeer(peer)].Keys;
    assert WrapPeers(peers - {id}).Keys == (WrapPeers(peers) - {id}).Keys;
  }

  lemma ServeWrapped(st: State, i: nat, c: Class)
    requires Indexed(st) && Indexed(WrapState(st)) && i < |st.ids|
    requires Payable(st, st.ids[i], c) && Payable(WrapState(st), st.ids[i], c)
    ensures Serve(WrapState(st), i, c) == WrapState(Serve(st, i, c))
  {
    hide Sorted, WrapPeers;
    var id := st.ids[i];
    var lane := st.peers[id].Of(c);
    PeersWrapped(st.peers, id, Serve(st, i, c).peers[id]);
    assert WrapQueue(lane.queue)[1..] == WrapQueue(lane.queue[1..]);
  }

  lemma PassWrapped(st: State)
    requires Indexed(st) && Indexed(WrapState(st))
    ensures SomePayable(WrapState(st)) == SomePayable(st)
    ensures SomePayable(st) ==> Pass(WrapState(st)) == WrapState(Pass(st))
    ensures SomePayable(st) ==> PassEvent(WrapState(st)) == WrapEvent(PassEvent(st))
  {
    hide Serve, Sorted, WrapPeers, Payable, Skipped, LowerBound;
    if st.ids != [] {
      SkippedWrapped(st, Start(st), 0);
      if SomePayable(st) {
        var id := st.ids[Turn(st)];
        StuckWrapped(st, id);
        PayableWrapped(st, id, PickClass(st, id));
        ServeWrapped(st, Turn(st), PickClass(st, id));
      }
    }
  }

  lemma {:induction false} DrainWrapped(l: Limits, st: State)
    requires Valid(l, st) && Indexed(WrapState(st))
    ensures Drain(WrapState(st)).state == WrapState(Drain(st).state)
    ensures Drain(WrapState(st)).events == WrapEvents(Drain(st).events)
    decreases st.tokens
  {
    hide Valid, Indexed, WrapState, WrapEvents, SomePayable, Pass, PassEvent;
    ValidIsIndexed(l, st);
    TokensBounded(l, st);
    PassWrapped(st);
    if SomePayable(st) {
      PassSpends(l, st);
      ValidIsIndexed(l, Pass(st));
      WrapIndexed(Pass(st));
      DrainWrapped(l, Pass(st));
      WrapCons(PassEvent(st), Drain(Pass(st)).events);
    } else {
      WrapNoEvents();
    }
  }

  lemma WrapCons(e: Event, events: seq<Event>)
    ensures WrapEvents([e] + events) == [WrapEvent(e)] + WrapEvents(events)
  {}

  lemma ServeYoung(l: Limits, st: State, i: nat, c: Class)
    requires Indexed(st) && AllYoung(l, st) && i < |st.ids| && Payable(st, st.ids[i], c)
    ensures AllYoung(l, Serve(st, i, c))
    ensures Head(st, st.ids[i], c).queuedAt <= st.now <= Head(st, st.ids[i], c).queuedAt + l.maxQueueAgeMs
  {
    hide Sorted;
  }

  lemma {:induction false} DrainYoung(l: Limits, st: State)
    requires Valid(l, st) && AllYoung(l, st)
    ensures AllYoung(l, Drain(st).state) && Drain(st).state.now == st.now
    ensures forall e :: e in Drain(st).events ==>
              e.fate.Carried? && e.packet.queuedAt <= st.now <= e.packet.queuedAt + l.maxQueueAgeMs
    decreases st.tokens
  {
    hide Valid, AllYoung, Serve, Head, SomePayable;
    ValidIsIndexed(l, st);
    TokensBounded(l, st);
    if SomePayable(st) {
      PassSpends(l, st);
      ServeYoung(l, st, Turn(st), PickClass(st, st.ids[Turn(st)]));
      DrainYoung(l, Pass(st));
    }
  }

  lemma {:induction false} ExpiredTooOld(l: Limits, st: State, i: nat, ms: nat)
    requires Indexed(st) && i <= |st.ids|
    ensures forall e :: e in ExpiredBefore(Unbounded, l, st, i, ms) ==>
              e.fate.Expired? && ms > e.packet.queuedAt + l.maxQueueAgeMs
  {
    hide ExpireCount, Sorted;
    if i != 0 {
      ExpiredTooOld(l, st, i - 1, ms);
      var peer := st.peers[st.ids[i - 1]];
      ExpiredAreOld(peer.realtime.queue, ms, l.maxQueueAgeMs);
      ExpiredAreOld(peer.reliable.queue, ms, l.maxQueueAgeMs);
    }
  }

  // ---- the other operations ----

  lemma SendWrapped(l: Limits, st: State, id: nat, bytes: seq<Byte>)
    ensures Send(l, WrapState(st), id, bytes) == WrapOutcome(Send(l, st, id, bytes))
  {
    hide ClassOf, EvictCount, DropFront, WrapQueue, Mark;
    WrapNoEvents();
    var kind := ClassOf(bytes);
    if id in st.peers && kind.Some? {
      var lane := st.peers[id].Of(kind.value);
      EvictCountWrapped(lane.queue, |bytes|, l.queuedBytesPerClass);
      AcceptWrapped(st, id, kind.value, 0, Packet(st.now, bytes));
      AcceptWrapped(st, id, kind.value, EvictCount(lane.queue, |bytes|, l.queuedBytesPerClass), Packet(st.now, bytes));
    }
  }

  lemma AcceptWrapped(st: State, id: nat, c: Class, k: nat, packet: Packet)
    requires id in st.peers && k <= |st.peers[id].Of(c).queue|
    ensures Accept(WrapState(st), id, c, k, WrapPacket(packet)) == WrapOutcome(Accept(st, id, c, k, packet))
  {
    hide DropFront, Mark;
    var lane := st.peers[id].Of(c);
    DropFrontWrapped(lane, k);
    PushWrapped(DropFront(lane, k), packet);
    assert WrapQueue(lane.queue)[..k] == WrapQueue(lane.queue[..k]);
    MarkWrapped(Evicted, id, c, lane.queue[..k]);
    WrapEventsAppend(Mark(Evicted, id, c, lane.queue[..k]), [Event(Accepted, id, c, packet)]);
    assert WrapEvents([Event(Accepted, id, c, packet)]) == [Event(Accepted, id, c, WrapPacket(packet))];
    assert Accept(WrapState(st), id, c, k, WrapPacket(packet)).state.peers ==
           WrapPeers(Accept(st, id, c, k, packet).state.peers);
  }

  lemma PushWrapped(lane: Lane, packet: Packet)
    ensures Push(WrapLane(lane), WrapPacket(packet)) == WrapLane(Push(lane, packet))
  {}

  lemma MembersWrapped(st: State, id: nat)
    requires Indexed(st)
    ensures AddPeer(WrapState(st), id) == WrapOutcome(AddPeer(st, id))
    ensures RemovePeer(WrapState(st), id) == WrapOutcome(RemovePeer(st, id))
  {
    hide LowerBound, Inserted, Deleted, Mark, Sorted, WrapPeers, WrapPeer;
    WrapNoEvents();
    NewPeerWrapped();
    PeersWrapped(st.peers, id, NEW_PEER);
    if id in st.peers {
      var peer := st.peers[id];
      MarkWrapped(Removed, id, Realtime, peer.realtime.queue);
      MarkWrapped(Removed, id, Reliable, peer.reliable.queue);
      WrapEventsAppend(Mark(Removed, id, Realtime, peer.realtime.queue),
                       Mark(Removed, id, Reliable, peer.reliable.queue));
      PeerQueues(peer);
    }
  }

  lemma PeerQueues(peer: Peer)
    ensures WrapPeer(peer).realtime.queue == WrapQueue(peer.realtime.queue)
    ensures WrapPeer(peer).reliable.queue == WrapQueue(peer.reliable.queue)
  {}

  lemma NewPeerWrapped()
    ensures WrapPeer(NEW_PEER) == NEW_PEER
  {
    assert WrapQueue([]) == [];
  }

  // ---- steps and runs ----

  /** A timely step of the 32-bit scheduler is the wrapped image of the true-clock step. */
  lemma StepWrapped(l: Limits, st: State, op: Op)
    requires Valid(l, st) && AllYoung(l, st) && Timely(l, st, op)
    ensures Indexed(st) && Indexed(WrapState(st))
    ensures Step(Wrapping, l, WrapState(st), WrapOp(op)) == WrapOutcome(Step(Unbounded, l, st, op))
  {
    hide Valid, Indexed, AllYoung, Timely, WrapState, WrapEvents, Send, AddPeer, RemovePeer, Refresh, ExpiredBefore,
         Drain;
    ValidIsIndexed(l, st);
    WrapIndexed(st);
    match op
    case Add(id) => MembersWrapped(st, id);
    case Remove(id) => MembersWrapped(st, id);
    case Produce(id, bytes) => SendWrapped(l, st, id, bytes);
    case Tick(ms) =>
      LimitsOk(l, st);
      var pruned := Refresh(Unbounded, l, st, ms);
      RefreshKeeps(Unbounded, l, st, ms);
      ValidIsIndexed(l, pruned);
      WrapIndexed(pruned);
      RefreshWrapped(l, st, ms);
      SameIds(st);
      ExpiredWrapped(l, st, |st.ids|, ms);
      DrainWrapped(l, pruned);
      WrapEventsAppend(ExpiredBefore(Unbounded, l, st, |st.ids|, ms), Drain(pruned).events);
  }

  lemma LimitsOk(l: Limits, st: State)
    requires Valid(l, st)
    ensures ValidLimits(l)
  {}

  lemma SameIds(st: State)
    ensures WrapState(st).ids == st.ids
  {}

  /** A timely step keeps every queued packet young; what it hands over is young and what it expires is not. */
  lemma StepYoung(l: Limits, st: State, op: Op)
    requires Valid(l, st) && AllYoung(l, st) && Timely(l, st, op)
    ensures Indexed(st)
    ensures var o := Step(Unbounded, l, st, op);
            && AllYoung(l, o.state)
            && (op.Tick? ==> o.state.now == op.ms)
            && (forall e :: e in o.events ==>
                  (e.fate.Carried? ==> e.packet.queuedAt <= o.state.now <= e.packet.queuedAt + l.maxQueueAgeMs) &&
                  (e.fate.Expired? ==> o.state.now > e.packet.queuedAt + l.maxQueueAgeMs))
  {
    hide Valid, Indexed, Refresh, ExpiredBefore, Drain, LowerBound, Accept, ClassOf, EvictCount, Inserted, Deleted,
         AllYoung;
    ValidIsIndexed(l, st);
    match op
    case Tick(ms) =>
      LimitsOk(l, st);
      var pruned := Refresh(Unbounded, l, st, ms);
      assert pruned.now == ms by { RefreshedNow(l, st, ms); }
      RefreshKeeps(Unbounded, l, st, ms);
      RefreshWrapped(l, st, ms);
      DrainYoung(l, pruned);
      ExpiredTooOld(l, st, |st.ids|, ms);
    case Add(id) => MembersYoung(l, st, id);
    case Remove(id) => MembersYoung(l, st, id);
    case Produce(id, bytes) => SendYoung(l, st, id, bytes);
  }

  lemma RefreshedNow(l: Limits, st: State, ms: nat)
    ensures Refresh(Unbounded, l, st, ms).now == ms
  {}

  lemma MembersYoung(l: Limits, st: State, id: nat)
    requires AllYoung(l, st)
    ensures AllYoung(l, AddPeer(st, id).state) && AllYoung(l, RemovePeer(st, id).state)
  {
    hide LowerBound, Inserted, Deleted, Mark;
  }

  lemma SendYoung(l: Limits, st: State, id: nat, bytes: seq<Byte>)
    requires AllYoung(l, st) && st.started
    ensures AllYoung(l, Send(l, st, id, bytes).state)
    ensures forall e :: e in Send(l, st, id, bytes).events ==> e.fate.Accepted? || e.fate.Evicted?
  {
    hide ClassOf, EvictCount, AllYoung, Accept;
    var kind := ClassOf(bytes);
    if id in st.peers && kind.Some? {
      var lane := st.peers[id].Of(kind.value);
      AcceptYoung(l, st, id, kind.value, 0, bytes);
      AcceptYoung(l, st, id, kind.value, EvictCount(lane.queue, |bytes|, l.queuedBytesPerClass), bytes);
    }
  }

  lemma AcceptYoung(l: Limits, st: State, id: nat, c: Class, k: nat, bytes: seq<Byte>)
    requires AllYoung(l, st) && st.started && id in st.peers && k <= |st.peers[id].Of(c).queue|
    ensures AllYoung(l, Accept(st, id, c, k, Packet(st.now, bytes)).state)
    ensures forall e :: e in Accept(st, id, c, k, Packet(st.now, bytes)).events ==> e.fate.Accepted? || e.fate.Evicted?
  {
    hide QueueBytes;
    var queue := st.peers[id].Of(c).queue;
    assert Young(queue[k..] + [Packet(st.now, bytes)], st.now, l.maxQueueAgeMs);
  }

  /** Whole runs: under timely use the 32-bit scheduler decides as the one with the true clock does. */
  lemma {:induction false} RunWrapped(l: Limits, st: State, ops: seq<Op>)
    requires Valid(l, st) && AllYoung(l, st) && TimelyRun(l, st, ops) && Valid(l, WrapState(st))
    ensures Run(Wrapping, l, WrapState(st), WrapOps(ops)).state == WrapState(Run(Unbounded, l, st, ops).state)
    ensures Run(Wrapping, l, WrapState(st), WrapOps(ops)).events == WrapEvents(Run(Unbounded, l, st, ops).events)
    ensures AllYoung(l, Run(Unbounded, l, st, ops).state)
    decreases |ops|
  {
    hide Valid, Indexed, AllYoung, Timely, WrapState, WrapEvents, Step;
    if ops == [] {
      WrapNoEvents();
    } else {
      ValidIsIndexed(l, st);
      ValidIsIndexed(l, WrapState(st));
      var first := Step(Unbounded, l, st, ops[0]);
      StepKeeps(Unbounded, l, st, ops[0]);
      StepWrapped(l, st, ops[0]);
      StepYoung(l, st, ops[0]);
      StepKeeps(Wrapping, l, WrapState(st), WrapOp(ops[0]));
      assert WrapOps(ops)[1..] == WrapOps(ops[1..]);
      RunWrapped(l, first.state, ops[1..]);
      WrapEventsAppend(first.events, Run(Unbounded, l, first.state, ops[1..]).events);
    }
  }

  /** The whole life of a scheduler that is used in time, from its start. */
  lemma RunFromStart(l: Limits, ops: seq<Op>)
    requires ValidLimits(l) && Valid(l, EMPTY) && TimelyRun(l, EMPTY, ops)
    ensures Run(Wrapping, l, EMPTY, WrapOps(ops)).state == WrapState(Run(Unbounded, l, EMPTY, ops).state)
    ensures Run(Wrapping, l, EMPTY, WrapOps(ops)).events == WrapEvents(Run(Unbounded, l, EMPTY, ops).events)
    ensures AllYoung(l, Run(Unbounded, l, EMPTY, ops).state)
  {
    assert WrapState(EMPTY) == EMPTY by { assert WrapPeers(map[]) == map[]; }
    RunWrapped(l, EMPTY, ops);
  }
}
