/** State and transitions of the datagram scheduler, as values. */
module SchedulerModel {
  import opened Common
  import opened DatagramKinds

  const OVERHEAD := 64
  const BURST := 2 * (2048 + OVERHEAD)
  /** Tokens are kept exactly, in thousandths of a byte. */
  const BURST_MILLI := 1000 * BURST
  /** Milliseconds are a 32-bit counter. */
  const CLOCK := 0x1_0000_0000
  const MAX_PEERS := 4096

  datatype Packet = Packet(queuedAt: nat, bytes: seq<Byte>)

  datatype Lane = Lane(queue: seq<Packet>, bytes: int)

  datatype Peer = Peer(realtime: Lane, reliable: Lane, nextClass: Class, tokens: int) {
    function Of(c: Class): Lane { if c.Realtime? then realtime else reliable }
    function With(c: Class, lane: Lane): Peer {
      if c.Realtime? then this.(realtime := lane) else this.(reliable := lane)
    }
  }

  datatype Limits = Limits(perPeerBytesPerSecond: nat, totalBytesPerSecond: nat,
                           queuedBytesPerClass: nat, maxQueueAgeMs: nat)

  /** What the constructor demands of its budget. */
  predicate ValidLimits(l: Limits) {
    && l.perPeerBytesPerSecond != 0
    && l.totalBytesPerSecond != 0
    && l.queuedBytesPerClass >= 2048
    && 0 < l.maxQueueAgeMs < CLOCK
  }

  /** `ids` is the ordered key sequence of `peers`; iteration follows it. */
  datatype State = State(ids: seq<nat>, peers: map<nat, Peer>, nextPeer: nat,
                         now: nat, started: bool, tokens: int)

  /** What became of a packet; `Carried` is a call of the carrier. */
  datatype Fate = Accepted | Carried | Evicted | Expired | Removed
  datatype Event = Event(fate: Fate, peer: nat, class_: Class, packet: Packet)

  datatype Outcome = Outcome(state: State, ok: bool, events: seq<Event>)

  /** The device subtracts 32-bit clocks; `Unbounded` is the ideal it approximates. */
  datatype Clock = Wrapping | Unbounded

  function Subtract32(a: nat, b: nat): (r: nat)
    ensures r < CLOCK
  {
    (a - b) % CLOCK
  }

  function Since(clock: Clock, later: nat, earlier: nat): (ms: nat)
    ensures clock.Wrapping? ==> ms < CLOCK
  {
    if clock.Wrapping? then Subtract32(later, earlier)
    else if later < earlier then 0 else later - earlier
  }

  function Min(a: int, b: int): int { if a < b then a else b }

  // ---- queues ----

  function QueueBytes(queue: seq<Packet>): nat {
    if queue == [] then 0 else |queue[0].bytes| + QueueBytes(queue[1..])
  }

  lemma {:induction false} QueueBytesAppend(a: seq<Packet>, b: seq<Packet>)
    ensures QueueBytes(a + b) == QueueBytes(a) + QueueBytes(b)
  {
    if a == [] {
      assert a + b == b;
    } else {
      QueueBytesAppend(a[1..], b);
      assert (a + b)[1..] == a[1..] + b;
    }
  }

  lemma QueueBytesSplit(queue: seq<Packet>, k: nat)
    requires k <= |queue|
    ensures QueueBytes(queue) == QueueBytes(queue[..k]) + QueueBytes(queue[k..])
  {
    QueueBytesAppend(queue[..k], queue[k..]);
    assert queue == queue[..k] + queue[k..];
  }

  /** A lane without its first `k` packets. */
  function DropFront(lane: Lane, k: nat): Lane
    requires k <= |lane.queue|
  {
    Lane(lane.queue[k..], lane.bytes - QueueBytes(lane.queue[..k]))
  }

  function Push(lane: Lane, packet: Packet): Lane {
    Lane(lane.queue + [packet], lane.bytes + |packet.bytes|)
  }

  /** How many packets leave the front to make room for `n` more bytes. */
  function EvictCount(queue: seq<Packet>, n: nat, limit: nat): (k: nat)
    ensures k <= |queue|
  {
    if queue == [] || n + QueueBytes(queue) <= limit then 0
    else 1 + EvictCount(queue[1..], n, limit)
  }

  /** It is the fewest that make room; a datagram no longer than the limit always finds room. */
  lemma {:induction false} EvictFewest(queue: seq<Packet>, n: nat, limit: nat)
    ensures var k := EvictCount(queue, n, limit);
            && (n <= limit ==> n + QueueBytes(queue[k..]) <= limit)
            && (forall j :: 0 <= j < k ==> n + QueueBytes(queue[j..]) > limit)
  {
    var k := EvictCount(queue, n, limit);
    assert queue[0..] == queue;
    if k != 0 {
      EvictFewest(queue[1..], n, limit);
      assert queue[1..][k - 1..] == queue[k..];
      forall j | 0 <= j < k ensures n + QueueBytes(queue[j..]) > limit {
        if j > 0 { assert queue[1..][j - 1..] == queue[j..]; }
      }
    }
  }

  /** How many packets at the front are older than `maxAge`. */
  function ExpireCount(clock: Clock, queue: seq<Packet>, now: nat, maxAge: nat): (k: nat)
    ensures k <= |queue|
  {
    if queue == [] || Since(clock, now, queue[0].queuedAt) <= maxAge then 0
    else 1 + ExpireCount(clock, queue[1..], now, maxAge)
  }

  function Mark(fate: Fate, id: nat, c: Class, packets: seq<Packet>): (events: seq<Event>)
    ensures |events| == |packets|
  {
    seq(|packets|, i requires 0 <= i < |packets| => Event(fate, id, c, packets[i]))
  }

  // ---- invariant ----

  predicate Sorted(ids: seq<nat>) {
    forall i, j :: 0 <= i < j < |ids| ==> ids[i] < ids[j]
  }

  predicate Indexed(st: State) {
    && Sorted(st.ids)
    && (forall i :: 0 <= i < |st.ids| ==> st.ids[i] in st.peers)
    && (forall id :: id in st.peers ==> id in st.ids)
  }

  lemma IndexOf(st: State, id: nat) returns (i: nat)
    requires Indexed(st) && id in st.peers
    ensures i < |st.ids| && st.ids[i] == id
  {
    i :| 0 <= i < |st.ids| && st.ids[i] == id;
  }

  predicate LaneOk(l: Limits, lane: Lane) {
    && lane.bytes == QueueBytes(lane.queue)
    && lane.bytes <= l.queuedBytesPerClass
    && (forall p :: p in lane.queue ==> 38 <= |p.bytes| <= 2048)
  }

  predicate PeerOk(l: Limits, peer: Peer) {
    && LaneOk(l, peer.realtime)
    && LaneOk(l, peer.reliable)
    && 0 <= peer.tokens <= BURST_MILLI
  }

  predicate Valid(l: Limits, st: State) {
    && ValidLimits(l)
    && Indexed(st)
    && |st.ids| <= MAX_PEERS
    && 0 <= st.tokens <= BURST_MILLI
    && (forall id :: id in st.peers ==> PeerOk(l, st.peers[id]))
  }

  // ---- membership ----

  const NEW_PEER := Peer(Lane([], 0), Lane([], 0), Realtime, BURST_MILLI)
  const EMPTY := State([], map[], 0, 0, false, BURST_MILLI)

  /** First position whose id is not below `id`: `std::map::lower_bound`. */
  function LowerBound(ids: seq<nat>, id: nat): (i: nat)
    ensures i <= |ids|
  {
    if ids == [] || id <= ids[0] then 0
    else 1 + LowerBound(ids[1..], id)
  }

  lemma {:induction false} LowerBoundSplits(ids: seq<nat>, id: nat)
    requires Sorted(ids)
    ensures var i := LowerBound(ids, id);
            && (forall j :: 0 <= j < i ==> ids[j] < id)
            && (forall j :: i <= j < |ids| ==> id <= ids[j])
  {
    if ids != [] && id > ids[0] { LowerBoundSplits(ids[1..], id); }
  }

  function Inserted(ids: seq<nat>, i: nat, id: nat): (ids': seq<nat>)
    requires i <= |ids|
    ensures |ids'| == |ids| + 1
    ensures forall j :: 0 <= j < |ids'| ==> ids'[j] == if j < i then ids[j] else if j == i then id else ids[j - 1]
  {
    ids[..i] + [id] + ids[i..]
  }

  function AddPeer(st: State, id: nat): Outcome
  {
    if |st.ids| >= MAX_PEERS || id in st.peers then Outcome(st, false, [])
    else
      var i := LowerBound(st.ids, id);
      Outcome(st.(ids := Inserted(st.ids, i, id), peers := st.peers[id := NEW_PEER]), true, [])
  }

  function Deleted(ids: seq<nat>, i: nat): (ids': seq<nat>)
    requires i < |ids|
    ensures |ids'| == |ids| - 1
  {
    ids[..i] + ids[i + 1..]
  }

  function RemovePeer(st: State, id: nat): Outcome
  {
    var i := LowerBound(st.ids, id);
    if id !in st.peers || i >= |st.ids| then Outcome(st, true, [])
    else
      var peer := st.peers[id];
      Outcome(st.(ids := Deleted(st.ids, i), peers := st.peers - {id}), true,
              Mark(Removed, id, Realtime, peer.realtime.queue) + Mark(Removed, id, Reliable, peer.reliable.queue))
  }

  // ---- producers ----

  /** The first `k` packets of a lane make way for a new one at its end. */
  function Accept(st: State, id: nat, c: Class, k: nat, packet: Packet): Outcome
    requires id in st.peers && k <= |st.peers[id].Of(c).queue|
  {
    var lane := st.peers[id].Of(c);
    Outcome(st.(peers := st.peers[id := st.peers[id].With(c, Push(DropFront(lane, k), packet))]), true,
            Mark(Evicted, id, c, lane.queue[..k]) + [Event(Accepted, id, c, packet)])
  }

  function Send(l: Limits, st: State, id: nat, bytes: seq<Byte>): Outcome
  {
    var kind := ClassOf(bytes);
    if id !in st.peers || kind.None? then Outcome(st, false, [])
    else
      var c := kind.value;
      var lane := st.peers[id].Of(c);
      if |bytes| <= l.queuedBytesPerClass - lane.bytes then
        Accept(st, id, c, 0, Packet(st.now, bytes))
      else if c.Reliable? then Outcome(st, false, [])
      else
        Accept(st, id, c, EvictCount(lane.queue, |bytes|, l.queuedBytesPerClass), Packet(st.now, bytes))
  }

  // ---- the update: refill and prune ----

  /** A bucket after `elapsed` milliseconds, which never holds more than the burst. */
  function Refill(tokens: int, elapsed: nat, bytesPerSecond: nat): int {
    Min(BURST_MILLI, tokens + elapsed * bytesPerSecond)
  }

  function Elapsed(clock: Clock, st: State, ms: nat): nat {
    if st.started then Since(clock, ms, st.now) else 0
  }

  function PruneLane(clock: Clock, l: Limits, lane: Lane, ms: nat): Lane
  {
    DropFront(lane, ExpireCount(clock, lane.queue, ms, l.maxQueueAgeMs))
  }

  function Pruned(clock: Clock, l: Limits, lane: Lane, ms: nat): seq<Packet>
  {
    lane.queue[..ExpireCount(clock, lane.queue, ms, l.maxQueueAgeMs)]
  }

  function RefreshPeer(clock: Clock, l: Limits, peer: Peer, elapsed: nat, ms: nat): Peer
  {
    Peer(PruneLane(clock, l, peer.realtime, ms), PruneLane(clock, l, peer.reliable, ms), peer.nextClass,
         Refill(peer.tokens, elapsed, l.perPeerBytesPerSecond))
  }

  function RefreshedPeers(clock: Clock, l: Limits, peers: map<nat, Peer>, elapsed: nat, ms: nat): map<nat, Peer>
  {
    map id | id in peers :: RefreshPeer(clock, l, peers[id], elapsed, ms)
  }

  /** The peers when the first `i` of them have been refreshed. */
  ghost predicate RefreshedUpTo(clock: Clock, l: Limits, st: State, i: nat, peers: map<nat, Peer>, elapsed: nat,
                                ms: nat)
    requires Indexed(st)
  {
    && i <= |st.ids|
    && st.peers.Keys == peers.Keys
    && (forall j :: 0 <= j < i ==> peers[st.ids[j]] == RefreshPeer(clock, l, st.peers[st.ids[j]], elapsed, ms))
    && (forall j :: i <= j < |st.ids| ==> peers[st.ids[j]] == st.peers[st.ids[j]])
  }

  lemma RefreshedNone(clock: Clock, l: Limits, st: State, elapsed: nat, ms: nat)
    requires Indexed(st)
    ensures RefreshedUpTo(clock, l, st, 0, st.peers, elapsed, ms)
  {}

  lemma RefreshedNext(clock: Clock, l: Limits, st: State, i: nat, peers: map<nat, Peer>, elapsed: nat, ms: nat)
    requires Valid(l, st) && Indexed(st) && RefreshedUpTo(clock, l, st, i, peers, elapsed, ms) && i < |st.ids|
    ensures var id := st.ids[i];
            && id in st.peers && id in peers && peers[id] == st.peers[id] && PeerOk(l, peers[id])
            && RefreshedUpTo(clock, l, st, i + 1, peers[id := RefreshPeer(clock, l, st.peers[id], elapsed, ms)],
                             elapsed, ms)
  {
    hide RefreshPeer, PeerOk;
  }

  lemma RefreshedAll(clock: Clock, l: Limits, st: State, peers: map<nat, Peer>, elapsed: nat, ms: nat)
    requires Indexed(st) && RefreshedUpTo(clock, l, st, |st.ids|, peers, elapsed, ms)
    ensures peers == RefreshedPeers(clock, l, st.peers, elapsed, ms)
  {
    hide RefreshPeer;
    forall id | id in st.peers ensures peers[id] == RefreshPeer(clock, l, st.peers[id], elapsed, ms) {
      var j := IndexOf(st, id);
    }
  }

  function Refresh(clock: Clock, l: Limits, st: State, ms: nat): State
  {
    var elapsed := Elapsed(clock, st, ms);
    st.(peers := RefreshedPeers(clock, l, st.peers, elapsed, ms),
        now := ms, started := true,
        tokens := Refill(st.tokens, elapsed, l.totalBytesPerSecond))
  }

  function ExpiredOf(clock: Clock, l: Limits, id: nat, peer: Peer, ms: nat): seq<Event> {
    Mark(Expired, id, Realtime, Pruned(clock, l, peer.realtime, ms)) +
    Mark(Expired, id, Reliable, Pruned(clock, l, peer.reliable, ms))
  }

  /** What expires at the first `i` peers, in the order of their ids. */
  function ExpiredBefore(clock: Clock, l: Limits, st: State, i: nat, ms: nat): seq<Event>
    requires Indexed(st) && i <= |st.ids|
  {
    if i == 0 then []
    else
      var id := st.ids[i - 1];
      ExpiredBefore(clock, l, st, i - 1, ms) + ExpiredOf(clock, l, id, st.peers[id], ms)
  }

  // ---- the update: hand packets to the carrier ----

  function Cost(p: Packet): nat { |p.bytes| + OVERHEAD }

  predicate Payable(st: State, id: nat, c: Class)
    requires id in st.peers
  {
    var queue := st.peers[id].Of(c).queue;
    queue != [] && 1000 * Cost(queue[0]) <= st.peers[id].tokens && 1000 * Cost(queue[0]) <= st.tokens
  }

  predicate Stuck(st: State, id: nat)
    requires id in st.peers
  {
    !Payable(st, id, Realtime) && !Payable(st, id, Reliable)
  }

  function PickClass(st: State, id: nat): Class
    requires id in st.peers
  {
    var first := st.peers[id].nextClass;
    if Payable(st, id, first) then first else first.Other()
  }

  /** Where the rotation starts: the first peer at or after `nextPeer`, cyclically. */
  function Start(st: State): (i: nat)
    requires st.ids != []
    ensures i < |st.ids|
  {
    var i := LowerBound(st.ids, st.nextPeer);
    if i == |st.ids| then 0 else i
  }

  /** The position reached after `k` steps around a circle of `n`. */
  function Around(start: nat, k: nat, n: nat): (i: nat)
    requires start < n && k < n
    ensures i < n
  {
    if start + k < n then start + k else start + k - n
  }

  /** The first step of the rotation, from the `k`-th, at which a peer can pay; `n` if there is none. */
  function Skipped(st: State, start: nat, k: nat): (r: nat)
    requires Indexed(st) && start < |st.ids| && k <= |st.ids|
    ensures k <= r <= |st.ids|
    decreases |st.ids| - k
  {
    if k == |st.ids| || !Stuck(st, st.ids[Around(start, k, |st.ids|)]) then k
    else Skipped(st, start, k + 1)
  }

  lemma {:induction false} SkippedStuck(st: State, start: nat, k: nat)
    requires Indexed(st) && start < |st.ids| && k <= |st.ids|
    ensures var r := Skipped(st, start, k);
            && (forall j :: k <= j < r ==> Stuck(st, st.ids[Around(start, j, |st.ids|)]))
            && (r < |st.ids| ==> !Stuck(st, st.ids[Around(start, r, |st.ids|)]))
    decreases |st.ids| - k
  {
    hide Stuck, Sorted;
    if k != |st.ids| && Stuck(st, st.ids[Around(start, k, |st.ids|)]) { SkippedStuck(st, start, k + 1); }
  }

  lemma SkipOne(st: State, start: nat, k: nat)
    requires Indexed(st) && start < |st.ids| && k < |st.ids|
    ensures Skipped(st, start, k) ==
            if Stuck(st, st.ids[Around(start, k, |st.ids|)]) then Skipped(st, start, k + 1) else k
    ensures Skipped(st, start, |st.ids|) == |st.ids|
  {
    hide Stuck, Sorted;
  }

  predicate SomePayable(st: State)
    requires Indexed(st)
  {
    st.ids != [] && Skipped(st, Start(st), 0) < |st.ids|
  }

  /** Position of the peer the next pass serves. */
  function Turn(st: State): (i: nat)
    requires Indexed(st) && SomePayable(st)
    ensures i < |st.ids| && !Stuck(st, st.ids[i])
  {
    SkippedStuck(st, Start(st), 0);
    Around(Start(st), Skipped(st, Start(st), 0), |st.ids|)
  }

  function Head(st: State, id: nat, c: Class): Packet
    requires id in st.peers && Payable(st, id, c)
  {
    st.peers[id].Of(c).queue[0]
  }

  /** Peer at position `i` pays for the head of class `c`; the rotation moves to its successor. */
  function Serve(st: State, i: nat, c: Class): State
    requires Indexed(st) && i < |st.ids| && Payable(st, st.ids[i], c)
  {
    var id := st.ids[i];
    var peer := st.peers[id];
    var lane := peer.Of(c);
    var cost := 1000 * Cost(lane.queue[0]);
    var paid := peer.With(c, Lane(lane.queue[1..], lane.bytes - |lane.queue[0].bytes|));
    st.(peers := st.peers[id := paid.(tokens := peer.tokens - cost, nextClass := c.Other())],
        tokens := st.tokens - cost,
        nextPeer := st.ids[Around(i, if |st.ids| == 1 then 0 else 1, |st.ids|)])
  }

  lemma ServeMovesOn(st: State, i: nat, c: Class)
    requires Indexed(st) && i < |st.ids| && Payable(st, st.ids[i], c)
    ensures Serve(st, i, c).nextPeer == st.ids[if i + 1 == |st.ids| then 0 else i + 1]
    ensures Serve(st, i, c).ids == st.ids
  {}

  function Pass(st: State): State
    requires Indexed(st) && SomePayable(st)
  {
    Serve(st, Turn(st), PickClass(st, st.ids[Turn(st)]))
  }

  function PassEvent(st: State): Event
    requires Indexed(st) && SomePayable(st)
  {
    var id := st.ids[Turn(st)];
    Event(Carried, id, PickClass(st, id), Head(st, id, PickClass(st, id)))
  }

  /** Passes until nobody can pay. There is no bound on their number here. */
  function Drain(st: State): (o: Outcome)
    requires Indexed(st)
    decreases if st.tokens < 0 then 0 else st.tokens
  {
    if !SomePayable(st) then Outcome(st, true, [])
    else
      var rest := Drain(Pass(st));
      Outcome(rest.state, true, [PassEvent(st)] + rest.events)
  }

  function Update(clock: Clock, l: Limits, st: State, ms: nat): Outcome
    requires Indexed(st)
  {
    var drained := Drain(Refresh(clock, l, st, ms));
    Outcome(drained.state, true, ExpiredBefore(clock, l, st, |st.ids|, ms) + drained.events)
  }

  // ---- runs ----

  datatype Op = Add(id: nat) | Remove(id: nat) | Produce(id: nat, bytes: seq<Byte>) | Tick(ms: nat)

  function Step(clock: Clock, l: Limits, st: State, op: Op): Outcome
    requires Indexed(st)
  {
    match op
    case Add(id) => AddPeer(st, id)
    case Remove(id) => RemovePeer(st, id)
    case Produce(id, bytes) => Send(l, st, id, bytes)
    case Tick(ms) => Update(clock, l, st, ms)
  }

  // ---- every operation keeps the invariant ----

  lemma PruneKeeps(clock: Clock, l: Limits, lane: Lane, ms: nat)
    requires LaneOk(l, lane)
    ensures LaneOk(l, PruneLane(clock, l, lane, ms))
  {
    QueueBytesSplit(lane.queue, ExpireCount(clock, lane.queue, ms, l.maxQueueAgeMs));
  }

  lemma RefreshPeerKeeps(clock: Clock, l: Limits, peer: Peer, elapsed: nat, ms: nat)
    requires PeerOk(l, peer)
    ensures PeerOk(l, RefreshPeer(clock, l, peer, elapsed, ms))
  {
    hide PruneLane, LaneOk;
    PruneKeeps(clock, l, peer.realtime, ms);
    PruneKeeps(clock, l, peer.reliable, ms);
  }

  lemma RefreshKeeps(clock: Clock, l: Limits, st: State, ms: nat)
    requires Valid(l, st)
    ensures Valid(l, Refresh(clock, l, st, ms))
  {
    hide PeerOk, RefreshPeer;
    forall id | id in st.peers
      ensures PeerOk(l, Refresh(clock, l, st, ms).peers[id])
    {
      RefreshPeerKeeps(clock, l, st.peers[id], Elapsed(clock, st, ms), ms);
    }
  }

  lemma WithPeerKeeps(l: Limits, st: State, id: nat, peer: Peer)
    requires Valid(l, st) && id in st.peers && PeerOk(l, peer)
    ensures Valid(l, st.(peers := st.peers[id := peer]))
  {
    hide PeerOk;
  }

  lemma ServeKeeps(l: Limits, st: State, i: nat, c: Class)
    requires Valid(l, st) && i < |st.ids| && Payable(st, st.ids[i], c)
    ensures Valid(l, Serve(st, i, c))
  {
    var id := st.ids[i];
    var lane := st.peers[id].Of(c);
    assert LaneOk(l, Lane(lane.queue[1..], lane.bytes - |lane.queue[0].bytes|));
    assert PeerOk(l, Serve(st, i, c).peers[id]);
    WithPeerKeeps(l, st, id, Serve(st, i, c).peers[id]);
  }

  /** A pass keeps the invariant and the membership and costs at least the overhead. */
  lemma PassSpends(l: Limits, st: State)
    requires Valid(l, st) && SomePayable(st)
    ensures Valid(l, Pass(st)) && Pass(st).ids == st.ids
    ensures Pass(st).now == st.now
    ensures Pass(st).tokens <= st.tokens - 1000 * OVERHEAD
    ensures Drain(st).state == Drain(Pass(st)).state
    ensures Drain(st).events == [PassEvent(st)] + Drain(Pass(st)).events
  {
    ServeKeeps(l, st, Turn(st), PickClass(st, st.ids[Turn(st)]));
  }

  lemma ValidIsIndexed(l: Limits, st: State)
    requires Valid(l, st)
    ensures Indexed(st)
  {}

  lemma LanesOk(l: Limits, st: State, id: nat, c: Class)
    requires Valid(l, st) && id in st.peers
    ensures LaneOk(l, st.peers[id].Of(c))
  {}

  lemma DropNone(id: nat, c: Class, lane: Lane)
    ensures DropFront(lane, 0) == lane
    ensures Mark(Evicted, id, c, lane.queue[..0]) == []
  {}

  lemma TokensBounded(l: Limits, st: State)
    requires Valid(l, st)
    ensures 0 <= st.tokens <= BURST_MILLI
  {}

  lemma {:induction false} ExpiredOnly(clock: Clock, l: Limits, st: State, i: nat, ms: nat)
    requires Indexed(st) && i <= |st.ids|
    ensures forall e :: e in ExpiredBefore(clock, l, st, i, ms) ==> e.fate.Expired?
  {
    hide ExpireCount, Sorted;
    if i != 0 { ExpiredOnly(clock, l, st, i - 1, ms); }
  }

  lemma NoPeers(st: State)
    requires Indexed(st) && st.ids == []
    ensures !SomePayable(st)
  {}

  lemma DrainDone(st: State)
    requires Indexed(st) && !SomePayable(st)
    ensures Drain(st).state == st && Drain(st).events == []
  {}

  lemma NobodyPays(st: State, id: nat)
    requires Indexed(st) && !SomePayable(st) && id in st.peers
    ensures Stuck(st, id)
  {
    var i := IndexOf(st, id);
    var start := Start(st);
    var k := if i >= start then i - start else i + |st.ids| - start;
    SkippedStuck(st, start, 0);
    assert Around(start, k, |st.ids|) == i;
  }

  lemma {:induction false} DrainKeeps(l: Limits, st: State)
    requires Valid(l, st)
    ensures Valid(l, Drain(st).state)
    decreases st.tokens
  {
    if SomePayable(st) {
      PassSpends(l, st);
      DrainKeeps(l, Pass(st));
    }
  }

  lemma LaneAccepts(l: Limits, lane: Lane, k: nat, packet: Packet)
    requires ValidLimits(l) && LaneOk(l, lane) && k <= |lane.queue|
    requires 38 <= |packet.bytes| <= 2048
    requires |packet.bytes| + QueueBytes(lane.queue[k..]) <= l.queuedBytesPerClass
    ensures LaneOk(l, Push(DropFront(lane, k), packet))
  {
    QueueBytesSplit(lane.queue, k);
    QueueBytesAppend(lane.queue[k..], [packet]);
    forall p | p in lane.queue[k..] + [packet] ensures 38 <= |p.bytes| <= 2048 {
      assert p in lane.queue || p == packet;
    }
  }

  lemma AcceptKeeps(l: Limits, st: State, id: nat, c: Class, k: nat, packet: Packet)
    requires Valid(l, st) && id in st.peers && k <= |st.peers[id].Of(c).queue|
    requires 38 <= |packet.bytes| <= 2048
    requires |packet.bytes| + QueueBytes(st.peers[id].Of(c).queue[k..]) <= l.queuedBytesPerClass
    ensures Valid(l, Accept(st, id, c, k, packet).state)
  {
    hide LaneOk, Push, DropFront, QueueBytes;
    LaneAccepts(l, st.peers[id].Of(c), k, packet);
    var st' := Accept(st, id, c, k, packet).state;
    assert PeerOk(l, st'.peers[id]);
    WithPeerKeeps(l, st, id, st'.peers[id]);
  }

  lemma SendKeeps(l: Limits, st: State, id: nat, bytes: seq<Byte>)
    requires Valid(l, st)
    ensures Valid(l, Send(l, st, id, bytes).state)
  {
    hide Accept, ClassOf, EvictCount;
    var kind := ClassOf(bytes);
    if id in st.peers && kind.Some? {
      var lane := st.peers[id].Of(kind.value);
      assert LaneOk(l, lane);
      if |bytes| <= l.queuedBytesPerClass - lane.bytes {
        assert lane.queue[0..] == lane.queue;
        AcceptKeeps(l, st, id, kind.value, 0, Packet(st.now, bytes));
      } else if kind.value.Realtime? {
        EvictFewest(lane.queue, |bytes|, l.queuedBytesPerClass);
        AcceptKeeps(l, st, id, kind.value, EvictCount(lane.queue, |bytes|, l.queuedBytesPerClass),
                    Packet(st.now, bytes));
      }
    }
  }

  lemma InsertKeeps(ids: seq<nat>, id: nat)
    requires Sorted(ids) && id !in ids
    ensures Sorted(Inserted(ids, LowerBound(ids, id), id))
  {
    hide LowerBound;
    LowerBoundSplits(ids, id);
    var i := LowerBound(ids, id);
    if i < |ids| { assert ids[i] in ids; }
  }

  lemma InsertHolds(ids: seq<nat>, i: nat, id: nat)
    requires i <= |ids|
    ensures forall x :: x in Inserted(ids, i, id) <==> x in ids || x == id
  {
    assert ids == ids[..i] + ids[i..];
    assert Inserted(ids, i, id) == ids[..i] + [id] + ids[i..];
  }

  lemma AddKeeps(l: Limits, st: State, id: nat)
    requires Valid(l, st)
    ensures Valid(l, AddPeer(st, id).state)
  {
    hide PeerOk, LowerBound, Inserted, Sorted;
    assert PeerOk(l, NEW_PEER) by { NewPeerOk(l); }
    if |st.ids| < MAX_PEERS && id !in st.peers {
      var i := LowerBound(st.ids, id);
      var ids := Inserted(st.ids, i, id);
      InsertHolds(st.ids, i, id);
      InsertKeeps(st.ids, id);
      forall j | 0 <= j < |ids| ensures ids[j] in st.peers || ids[j] == id {
        assert ids[j] in ids;
      }
    }
  }

  lemma NewPeerOk(l: Limits)
    ensures PeerOk(l, NEW_PEER)
  {}

  lemma {:induction false} Located(ids: seq<nat>, i: nat)
    requires Sorted(ids) && i < |ids|
    ensures LowerBound(ids, ids[i]) == i
  {
    if i != 0 {
      Located(ids[1..], i - 1);
      assert ids[0] < ids[i];
    }
  }

  lemma DeleteKeeps(ids: seq<nat>, i: nat)
    requires Sorted(ids) && i < |ids|
    ensures Sorted(Deleted(ids, i))
    ensures forall x :: x in Deleted(ids, i) <==> x in ids && x != ids[i]
  {
    var ids' := Deleted(ids, i);
    assert forall j :: 0 <= j < |ids'| ==> ids'[j] == if j < i then ids[j] else ids[j + 1];
    forall x | x in ids && x != ids[i] ensures x in ids' {
      var j :| 0 <= j < |ids| && ids[j] == x;
      assert x == if j < i then ids'[j] else ids'[j - 1];
    }
  }

  lemma RemoveKeeps(l: Limits, st: State, id: nat)
    requires Valid(l, st)
    ensures Valid(l, RemovePeer(st, id).state)
    ensures id !in RemovePeer(st, id).state.peers
    ensures id in st.peers ==> LowerBound(st.ids, id) < |st.ids|
  {
    hide PeerOk, LowerBound, Sorted, Deleted, Mark;
    if id in st.peers {
      var i := IndexOf(st, id);
      var ids := Deleted(st.ids, i);
      Located(st.ids, i);
      DeleteKeeps(st.ids, i);
      forall j | 0 <= j < |ids| ensures ids[j] in st.peers - {id} {
        assert ids[j] in ids;
      }
    }
  }

  lemma StepKeeps(clock: Clock, l: Limits, st: State, op: Op)
    requires Valid(l, st)
    ensures Valid(l, Step(clock, l, st, op).state)
  {
    hide Valid, Send, AddPeer, RemovePeer, Refresh, Drain;
    match op
    case Add(id) => AddKeeps(l, st, id);
    case Remove(id) => RemoveKeeps(l, st, id);
    case Produce(id, bytes) => SendKeeps(l, st, id, bytes);
    case Tick(ms) =>
      RefreshKeeps(clock, l, st, ms);
      DrainKeeps(l, Refresh(clock, l, st, ms));
  }

  /** A run from a valid state: its last state and everything that happened to packets. */
  function Run(clock: Clock, l: Limits, st: State, ops: seq<Op>): (o: Outcome)
    requires Valid(l, st)
    ensures Valid(l, o.state)
    decreases |ops|
  {
    if ops == [] then Outcome(st, true, [])
    else
      StepKeeps(clock, l, st, ops[0]);
      var first := Step(clock, l, st, ops[0]);
      var rest := Run(clock, l, first.state, ops[1..]);
      Outcome(rest.state, true, first.events + rest.events)
  }
}
