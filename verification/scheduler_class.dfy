/** The scheduler object: its methods realise the transitions of SchedulerModel in place. */
module DatagramScheduling {
  import opened Common
  import opened DatagramKinds
  import opened SchedulerModel

  class DatagramScheduler {
    const limits: Limits
    var ids: seq<nat>
    var peers: map<nat, Peer>
    var nextPeer: nat
    var now: nat
    var started: bool
    var tokens: int
    /** What happened to packets so far; the `Carried` entries are the calls of the carrier. */
    var history: seq<Event>

    ghost function View(): State
      reads this
    {
      State(ids, peers, nextPeer, now, started, tokens)
    }

    ghost predicate Ready()
      reads this
    {
      Valid(limits, View()) && Indexed(View()) && now < CLOCK
    }

    constructor (limits: Limits)
      requires ValidLimits(limits)
      ensures Ready() && this.limits == limits
      ensures View() == EMPTY && history == []
    {
      this.limits := limits;
      ids, peers, nextPeer, now, started, tokens := [], map[], 0, 0, false, BURST_MILLI;
      history := [];
    }

    /** An invalid budget is refused. */
    static method Make(limits: Limits) returns (r: Option<DatagramScheduler>)
      ensures r.Some? <==> ValidLimits(limits)
      ensures r.Some? ==> fresh(r.value) && r.value.Ready() && r.value.limits == limits && r.value.View() == EMPTY
    {
      if limits.perPeerBytesPerSecond == 0 || limits.totalBytesPerSecond == 0 ||
         limits.queuedBytesPerClass < 2048 || limits.maxQueueAgeMs == 0 || limits.maxQueueAgeMs >= CLOCK {
        return None;
      }
      var s := new DatagramScheduler(limits);
      return Some(s);
    }

    method AddPeer(id: nat) returns (ok: bool)
      requires Ready()
      modifies this
      ensures Ready() && history == old(history)
      ensures ok == (|old(ids)| < MAX_PEERS && id !in old(peers))
      ensures View() == SchedulerModel.AddPeer(old(View()), id).state
    {
      hide Valid, Indexed, LowerBound, Inserted;
      AddKeeps(limits, View(), id);
      ValidIsIndexed(limits, SchedulerModel.AddPeer(View(), id).state);
      if |ids| >= MAX_PEERS || id in peers { return false; }
      var i := LowerBound(ids, id);
      ids := Inserted(ids, i, id);
      peers := peers[id := NEW_PEER];
      return true;
    }

    method RemovePeer(id: nat)
      requires Ready()
      modifies this
      ensures Ready()
      ensures View() == SchedulerModel.RemovePeer(old(View()), id).state
      ensures history == old(history) + SchedulerModel.RemovePeer(old(View()), id).events
    {
      hide Valid, Indexed, LowerBound, Deleted, Mark;
      RemoveKeeps(limits, View(), id);
      ValidIsIndexed(limits, SchedulerModel.RemovePeer(View(), id).state);
      if id !in peers { return; }
      var i := LowerBound(ids, id);
      history := history + (Mark(Removed, id, Realtime, peers[id].realtime.queue) +
                            Mark(Removed, id, Reliable, peers[id].reliable.queue));
      ids := Deleted(ids, i);
      peers := peers - {id};
    }

    lemma LaneBytes(lane: Lane)
      requires LaneOk(limits, lane)
      ensures lane.bytes == QueueBytes(lane.queue)
      ensures forall p :: p in lane.queue ==> |p.bytes| > 0
      ensures QueueBytes([]) == 0
    {}

    lemma OneMoreOut(queue: seq<Packet>, k: nat)
      requires k < |queue|
      ensures QueueBytes(queue[..k + 1]) == QueueBytes(queue[..k]) + |queue[k].bytes|
      ensures QueueBytes(queue[k..]) == |queue[k].bytes| + QueueBytes(queue[k + 1..])
      ensures queue[k..][1..] == queue[k + 1..]
    {
      QueueBytesAppend(queue[..k], [queue[k]]);
      assert queue[..k + 1] == queue[..k] + [queue[k]];
    }

    lemma MarkPush(fate: Fate, id: nat, c: Class, queue: seq<Packet>, k: nat)
      requires k < |queue|
      ensures Mark(fate, id, c, queue[..k + 1]) == Mark(fate, id, c, queue[..k]) + [Event(fate, id, c, queue[k])]
      ensures Mark(fate, id, c, queue[..0]) == []
    {}

    lemma EvictOne(queue: seq<Packet>, n: nat, limit: nat)
      ensures EvictCount(queue, n, limit) ==
              if queue == [] || n + QueueBytes(queue) <= limit then 0 else 1 + EvictCount(queue[1..], n, limit)
    {}

    /** Evicts from the front of a lane until `n` more bytes fit. */
    method MakeRoom(id: nat, c: Class, lane0: Lane, n: nat) returns (lane: Lane)
      requires LaneOk(limits, lane0)
      modifies this`history
      ensures var k := EvictCount(lane0.queue, n, limits.queuedBytesPerClass);
              && lane == DropFront(lane0, k)
              && history == old(history) + Mark(Evicted, id, c, lane0.queue[..k])
    {
      hide LaneOk, QueueBytes, Mark, EvictCount;
      LaneBytes(lane0);
      lane := lane0;
      ghost var k := 0;
      ghost var queue := lane.queue;
      assert queue[0..] == queue && queue[..0] == [];
      while lane.queue != [] && n > limits.queuedBytesPerClass - lane.bytes
        invariant k <= |queue| && lane.queue == queue[k..]
        invariant lane.bytes == lane0.bytes - QueueBytes(queue[..k])
        invariant lane.bytes == QueueBytes(lane.queue)
        invariant k + EvictCount(lane.queue, n, limits.queuedBytesPerClass) ==
                  EvictCount(queue, n, limits.queuedBytesPerClass)
        invariant history == old(history) + Mark(Evicted, id, c, queue[..k])
        decreases |lane.queue|
      {
        OneMoreOut(queue, k);
        MarkPush(Evicted, id, c, queue, k);
        EvictOne(lane.queue, n, limits.queuedBytesPerClass);
        history := history + [Event(Evicted, id, c, lane.queue[0])];
        lane := Lane(lane.queue[1..], lane.bytes - |lane.queue[0].bytes|);
        k := k + 1;
      }
      EvictOne(lane.queue, n, limits.queuedBytesPerClass);
    }

    /** Queues a packet behind what is left of a lane. */
    method Enqueue(id: nat, c: Class, ghost k: nat, lane: Lane, packet: Packet)
      requires id in peers && k <= |peers[id].Of(c).queue| && lane == DropFront(peers[id].Of(c), k)
      modifies this`peers, this`history
      ensures View() == Accept(old(View()), id, c, k, packet).state
      ensures Accept(old(View()), id, c, k, packet).ok
      ensures Accept(old(View()), id, c, k, packet).events ==
              Mark(Evicted, id, c, old(peers[id]).Of(c).queue[..k]) + [Event(Accepted, id, c, packet)]
      ensures history == old(history) + [Event(Accepted, id, c, packet)]
    {
      hide DropFront;
      peers := peers[id := peers[id].With(c, Lane(lane.queue + [packet], lane.bytes + |packet.bytes|))];
      history := history + [Event(Accepted, id, c, packet)];
    }

    method Send(id: nat, bytes: seq<Byte>) returns (ok: bool)
      requires Ready()
      modifies this
      ensures Ready()
      ensures ok == SchedulerModel.Send(limits, old(View()), id, bytes).ok
      ensures View() == SchedulerModel.Send(limits, old(View()), id, bytes).state
      ensures history == old(history) + SchedulerModel.Send(limits, old(View()), id, bytes).events
    {
      hide Valid, Indexed, PeerOk, DropFront, Push, LaneOk, ClassOf, EvictCount, Accept, Mark, QueueBytes;
      SendKeeps(limits, View(), id, bytes);
      ValidIsIndexed(limits, SchedulerModel.Send(limits, View(), id, bytes).state);
      var kind := ClassOf(bytes);
      if id !in peers || kind.None? { return false; }
      var c := kind.value;
      var lane := peers[id].Of(c);
      LanesOk(limits, View(), id, c);
      DropNone(id, c, lane);
      if |bytes| > limits.queuedBytesPerClass - lane.bytes {
        if c == Reliable { return false; }
        ghost var k := EvictCount(lane.queue, |bytes|, limits.queuedBytesPerClass);
        ghost var evicted := Mark(Evicted, id, c, lane.queue[..k]);
        lane := MakeRoom(id, c, lane, |bytes|);
        Enqueue(id, c, k, lane, Packet(now, bytes));
        assert old(history) + evicted + [Event(Accepted, id, c, Packet(now, bytes))] ==
               old(history) + (evicted + [Event(Accepted, id, c, Packet(now, bytes))]);
        return true;
      }
      Enqueue(id, c, 0, lane, Packet(now, bytes));
      return true;
    }

    /** Drops the packets at the front of a lane that are too old. */
    method Prune(id: nat, c: Class, lane0: Lane, milliseconds: nat) returns (lane: Lane)
      requires LaneOk(limits, lane0)
      modifies this`history
      ensures lane == PruneLane(Wrapping, limits, lane0, milliseconds)
      ensures history == old(history) + Mark(Expired, id, c, Pruned(Wrapping, limits, lane0, milliseconds))
    {
      hide LaneOk, QueueBytes, Mark;
      LaneBytes(lane0);
      lane := lane0;
      ghost var k := 0;
      ghost var queue := lane.queue;
      assert queue[0..] == queue && queue[..0] == [];
      while lane.queue != [] && Subtract32(milliseconds, lane.queue[0].queuedAt) > limits.maxQueueAgeMs
        invariant k <= |queue| && lane.queue == queue[k..]
        invariant lane.bytes == lane0.bytes - QueueBytes(queue[..k])
        invariant k + ExpireCount(Wrapping, lane.queue, milliseconds, limits.maxQueueAgeMs) ==
                  ExpireCount(Wrapping, queue, milliseconds, limits.maxQueueAgeMs)
        invariant history == old(history) + Mark(Expired, id, c, queue[..k])
        decreases |lane.queue|
      {
        OneMoreOut(queue, k);
        MarkPush(Expired, id, c, queue, k);
        history := history + [Event(Expired, id, c, lane.queue[0])];
        lane := Lane(lane.queue[1..], lane.bytes - |lane.queue[0].bytes|);
        k := k + 1;
      }
    }

    /** Refills one peer's bucket and drops what is too old in both its lanes. */
    method RefreshOne(id: nat, elapsed: nat, milliseconds: nat)
      requires id in peers && PeerOk(limits, peers[id])
      modifies this`peers, this`history
      ensures peers == old(peers)[id := RefreshPeer(Wrapping, limits, old(peers[id]), elapsed, milliseconds)]
      ensures history == old(history) + ExpiredOf(Wrapping, limits, id, old(peers[id]), milliseconds)
    {
      var peer := peers[id];
      var realtime := Prune(id, Realtime, peer.realtime, milliseconds);
      var reliable := Prune(id, Reliable, peer.reliable, milliseconds);
      peers := peers[id := Peer(realtime, reliable, peer.nextClass,
                                Refill(peer.tokens, elapsed, limits.perPeerBytesPerSecond))];
    }

    /** The peers' part of an update, in the order of their ids. */
    method RefreshPeers(elapsed: nat, milliseconds: nat)
      requires Ready()
      modifies this`peers, this`history
      ensures peers == RefreshedPeers(Wrapping, limits, old(peers), elapsed, milliseconds)
      ensures history == old(history) + ExpiredBefore(Wrapping, limits, old(View()), |ids|, milliseconds)
    {
      hide Valid, Indexed, PeerOk, RefreshPeer, ExpiredOf, RefreshedPeers, RefreshedUpTo;
      ghost var st := View();
      RefreshedNone(Wrapping, limits, st, elapsed, milliseconds);
      var i := 0;
      while i < |ids|
        invariant i <= |ids| && Indexed(st) && RefreshedUpTo(Wrapping, limits, st, i, peers, elapsed, milliseconds)
        invariant history == old(history) + ExpiredBefore(Wrapping, limits, st, i, milliseconds)
      {
        RefreshedNext(Wrapping, limits, st, i, peers, elapsed, milliseconds);
        RefreshOne(ids[i], elapsed, milliseconds);
        i := i + 1;
      }
      RefreshedAll(Wrapping, limits, st, peers, elapsed, milliseconds);
    }

    /** Refills every bucket and drops what is too old. */
    method RefillAndPrune(milliseconds: nat)
      requires Ready() && milliseconds < CLOCK
      modifies this
      ensures Ready()
      ensures View() == Refresh(Wrapping, limits, old(View()), milliseconds)
      ensures history == old(history) + ExpiredBefore(Wrapping, limits, old(View()), |old(ids)|, milliseconds)
    {
      hide Valid, Indexed, Refill, RefreshedPeers, ExpiredBefore, Subtract32;
      RefreshKeeps(Wrapping, limits, View(), milliseconds);
      ValidIsIndexed(limits, Refresh(Wrapping, limits, View(), milliseconds));
      var elapsed := if started then Subtract32(milliseconds, now) else 0;
      RefreshPeers(elapsed, milliseconds);
      started := true;
      now := milliseconds;
      tokens := Refill(tokens, elapsed, limits.totalBytesPerSecond);
    }

    /** Serves the peer at position `it` from the class whose turn it is, else from the other. */
    method ServePeer(it: nat) returns (sent: bool)
      requires Indexed(View()) && it < |ids|
      modifies this`peers, this`tokens, this`history
      ensures sent == !Stuck(old(View()), ids[it])
      ensures !sent ==> unchanged(this)
      ensures sent ==>
                var c := PickClass(old(View()), ids[it]);
                && View() == Serve(old(View()), it, c).(nextPeer := old(nextPeer))
                && history == old(history) + [Event(Carried, ids[it], c, Head(old(View()), ids[it], c))]
    {
      var id := ids[it];
      sent := false;
      var attempt := 0;
      while attempt < 2
        invariant attempt <= 2 && unchanged(this) && !sent
        invariant attempt > 0 ==> !Payable(View(), id, peers[id].nextClass)
        invariant attempt > 1 ==> Stuck(View(), id)
      {
        var peer := peers[id];
        var c := if attempt == 0 then peer.nextClass else peer.nextClass.Other();
        var lane := peer.Of(c);
        if lane.queue != [] {
          var cost := |lane.queue[0].bytes| + OVERHEAD;
          if 1000 * cost <= peer.tokens && 1000 * cost <= tokens {
            history := history + [Event(Carried, id, c, lane.queue[0])];
            lane := Lane(lane.queue[1..], lane.bytes - |lane.queue[0].bytes|);
            peers := peers[id := peer.With(c, lane).(tokens := peer.tokens - 1000 * cost, nextClass := c.Other())];
            tokens := tokens - 1000 * cost;
            sent := true;
            break;
          }
        }
        attempt := attempt + 1;
      }
    }

    /** One pass of the rotation: one packet of the first peer that can pay, if there is one. */
    method ServeOne() returns (sent: bool)
      requires Indexed(View()) && ids != []
      modifies this`peers, this`tokens, this`history, this`nextPeer
      ensures sent == SomePayable(old(View()))
      ensures !sent ==> unchanged(this)
      ensures sent ==> View() == Pass(old(View())) && history == old(history) + [PassEvent(old(View()))]
    {
      hide Indexed, Stuck, Head, PickClass, Skipped, Serve, Payable;
      ghost var was := View();
      sent := false;
      var it := LowerBound(ids, nextPeer);
      if it == |ids| { it := 0; }
      var visited := 0;
      SkipOne(was, Start(was), 0);
      while visited < |ids|
        invariant visited <= |ids| && unchanged(this) && View() == was && !sent
        invariant it == if visited < |ids| then Around(Start(was), visited, |ids|) else Start(was)
        invariant Skipped(was, Start(was), visited) == Skipped(was, Start(was), 0)
        decreases |ids| - visited
      {
        ghost var here := it;
        SkipOne(was, Start(was), visited);
        sent := ServePeer(it);
        it := it + 1;
        if it == |ids| { it := 0; }
        if sent {
          assert here == Turn(was);
          PickPays(was, here);
          ServeMovesOn(was, here, PickClass(was, was.ids[here]));
          nextPeer := ids[it];
          break;
        }
        visited := visited + 1;
      }
    }

    lemma PickPays(st: State, i: nat)
      requires Indexed(st) && i < |st.ids| && !Stuck(st, st.ids[i])
      ensures st.ids[i] in st.peers && Payable(st, st.ids[i], PickClass(st, st.ids[i]))
    {
      hide Payable, Sorted;
    }

    /** A pass takes one step of the drain and costs at least the overhead. */
    method DrainPass() returns (sent: bool)
      requires Ready() && ids != []
      modifies this
      ensures Ready()
      ensures sent == SomePayable(old(View()))
      ensures !sent ==> unchanged(this)
      ensures sent ==> tokens <= old(tokens) - 1000 * OVERHEAD
      ensures Drain(View()).state == Drain(old(View())).state
      ensures history + Drain(View()).events == old(history) + Drain(old(View())).events
    {
      hide Valid, Drain, SomePayable, Pass, PassEvent;
      sent := ServeOne();
      if sent {
        PassSpends(limits, old(View()));
        assert old(history) + ([PassEvent(old(View()))] + Drain(View()).events) == history + Drain(View()).events;
      }
    }

    /** The bound of 4096 passes never stops the loop. */
    method DrainQueues()
      requires Ready()
      modifies this
      ensures Ready()
      ensures View() == Drain(old(View())).state
      ensures history == old(history) + Drain(old(View())).events
      ensures !SomePayable(View())
    {
      hide Valid, Drain, SomePayable, Indexed;
      TokensBounded(limits, View());
      var pass := 0;
      while pass < 4096 && ids != []
        invariant Ready() && pass <= 66
        invariant tokens <= BURST_MILLI - 1000 * OVERHEAD * pass
        invariant Drain(View()).state == old(Drain(View()).state)
        invariant history + Drain(View()).events == old(history + Drain(View()).events)
        decreases 4096 - pass
      {
        var sent := DrainPass();
        TokensBounded(limits, View());
        if !sent { break; }
        pass := pass + 1;
      }
      if ids == [] { NoPeers(View()); }
      DrainDone(View());
    }

    /** At the end nobody can pay. */
    method Update(milliseconds: nat)
      requires Ready() && milliseconds < CLOCK
      modifies this
      ensures Ready()
      ensures View() == SchedulerModel.Update(Wrapping, limits, old(View()), milliseconds).state
      ensures history == old(history) + SchedulerModel.Update(Wrapping, limits, old(View()), milliseconds).events
      ensures forall id :: id in peers ==> Stuck(View(), id)
    {
      hide Valid, Drain, Refresh, Indexed, SomePayable, ExpiredBefore;
      RefillAndPrune(milliseconds);
      DrainQueues();
      forall id | id in peers ensures Stuck(View(), id) {
        NobodyPays(View(), id);
      }
    }
  }
}
