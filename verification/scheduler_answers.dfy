/** What a caller gets from each operation of the scheduler. */
module SchedulerAnswers {
  import opened Common
  import opened DatagramKinds
  import opened SchedulerModel
  import opened SchedulerHistory

  // ---- kinds of datagrams ----

  /** A datagram of a class without any envelope. */
  predicate Direct(bytes: seq<Byte>, kind: Class) {
    match kind
    case Realtime => 58 <= |bytes| <= 2048 && bytes[..4] == DMPU
    case Reliable => 38 <= |bytes| <= 1164 && bytes[..4] == DUR1
  }

  /** A realtime datagram for one to seven peers, whose 64-bit numbers follow the count. */
  predicate FansOut(bytes: seq<Byte>) {
    && 79 <= |bytes| <= 1227
    && bytes[..4] == DPG1
    && 1 <= bytes[12] <= 7
    && var payload := bytes[13 + 8 * bytes[12]..];
       58 <= |payload| <= 1158 && payload[..4] == DMPU
  }

  /** A datagram that is not in an envelope for one peer. */
  predicate Bare(bytes: seq<Byte>, kind: Class) { Direct(bytes, kind) || (kind.Realtime? && FansOut(bytes)) }

  const EIGHT_ZEROS: seq<Byte> := [0, 0, 0, 0, 0, 0, 0, 0]

  /** A datagram in an envelope for one peer: the magic, the numbers of sender and receiver, neither of them zero, and
      1 to 1200 bytes. */
  predicate Enveloped(bytes: seq<Byte>) {
    21 <= |bytes| <= 1220 && bytes[..4] == DPF1 && bytes[4..12] != EIGHT_ZEROS && bytes[12..20] != EIGHT_ZEROS
  }

  lemma EnvelopedExactly(bytes: seq<Byte>)
    ensures IsPeerTunnel(bytes) <==> Enveloped(bytes)
  {
    if |bytes| > 20 {
      NotAllZero(bytes, 4);
      NotAllZero(bytes, 12);
    }
  }

  lemma NotAllZero(bytes: seq<Byte>, from: nat)
    requires from + 8 <= |bytes|
    ensures bytes[from..from + 8] != EIGHT_ZEROS <==> exists i :: from <= i < from + 8 && bytes[i] != 0
  {
    var part := bytes[from..from + 8];
    if i :| from <= i < from + 8 && bytes[i] != 0 {
      assert part[i - from] != 0;
    } else {
      assert forall j :: 0 <= j < 8 ==> part[j] == 0;
      assert part == EIGHT_ZEROS;
    }
  }

  /** An envelope for one peer has the class of what is in it, and there is at most one. */
  lemma KindExactly(bytes: seq<Byte>, kind: Class)
    ensures ClassOf(bytes) == Some(kind) <==>
            Bare(bytes, kind) || (Enveloped(bytes) && Bare(bytes[20..], kind))
  {
    EnvelopedExactly(bytes);
    if !IsPeerTunnel(bytes) {
      BareKind(bytes, kind);
    } else {
      OneMagic(bytes, kind);
      if IsPeerTunnel(bytes[20..]) { OneMagic(bytes[20..], kind); } else { BareKind(bytes[20..], kind); }
    }
  }

  lemma BareKind(bytes: seq<Byte>, kind: Class)
    requires !IsPeerTunnel(bytes)
    ensures ClassOf(bytes) == Some(kind) <==> Bare(bytes, kind)
  {
    hide IsPeerTunnel;
    GroupFansOut(bytes);
  }

  lemma GroupFansOut(bytes: seq<Byte>)
    ensures FansOut(bytes) <==>
            PeerGroupHeader(bytes) != 0 && bytes[PeerGroupHeader(bytes)..][..4] == DMPU
    ensures PeerGroupHeader(bytes) != 0 ==> !Direct(bytes, Realtime) && !Direct(bytes, Reliable)
  {
    assert DPG1 != DMPU && DPG1 != DUR1;
  }

  /** The magics exclude each other. */
  lemma OneMagic(bytes: seq<Byte>, kind: Class)
    requires IsPeerTunnel(bytes)
    ensures !Bare(bytes, kind) && PeerGroupHeader(bytes) == 0
  {
    assert DPF1 != DMPU && DPF1 != DUR1 && DPF1 != DPG1;
  }

  // ---- producers ----

  /** The state but for one queue. */
  ghost predicate OnlyQueueChanged(st: State, st': State, id: nat, c: Class) {
    && st'.ids == st.ids && st'.nextPeer == st.nextPeer && st'.now == st.now && st'.started == st.started
    && st'.tokens == st.tokens
    && st'.peers - {id} == st.peers - {id}
    && id in st.peers && id in st'.peers
    && st'.peers[id].Of(c.Other()) == st.peers[id].Of(c.Other())
    && st'.peers[id].nextClass == st.peers[id].nextClass && st'.peers[id].tokens == st.peers[id].tokens
  }

  /** A datagram with a class is accepted for a registered peer if it is realtime or fits behind what is queued; it
      then stands at the end of its queue with the time of the last update, behind all that was there if it fits, else
      behind the longest rest that leaves room for it. Otherwise nothing happens. */
  lemma SendAccepts(l: Limits, st: State, id: nat, bytes: seq<Byte>)
    requires Valid(l, st)
    ensures var o := Send(l, st, id, bytes);
            var kind := ClassOf(bytes);
            var packet := Packet(st.now, bytes);
            && (o.ok <==>
                  && id in st.peers && kind.Some?
                  && (kind.value.Realtime? ||
                      QueueBytes(QueueOf(st, id, kind.value)) + |bytes| <= l.queuedBytesPerClass))
            && (!o.ok ==> o.state == st && o.events == [])
            && (o.ok ==> OnlyQueueChanged(st, o.state, id, kind.value) &&
                         MadeRoom(l, QueueOf(st, id, kind.value), packet, QueueOf(o.state, id, kind.value)))
  {
    hide ClassOf, EvictCount, QueueBytes, Valid, Accept, MadeRoom, OnlyQueueChanged;
    var kind := ClassOf(bytes);
    if id in st.peers && kind.Some? {
      var c := kind.value;
      var queue := QueueOf(st, id, c);
      LaneCounts(l, st, id, c);
      EvictFewest(queue, |bytes|, l.queuedBytesPerClass);
      assert queue[0..] == queue;
      var k := if |bytes| <= l.queuedBytesPerClass - QueueBytes(queue) then 0
               else EvictCount(queue, |bytes|, l.queuedBytesPerClass);
      AcceptChanges(st, id, c, k, Packet(st.now, bytes));
      if Send(l, st, id, bytes).ok { Rest(l, queue, Packet(st.now, bytes), k); }
    }
  }

  lemma LaneCounts(l: Limits, st: State, id: nat, c: Class)
    requires Valid(l, st) && id in st.peers
    ensures st.peers[id].Of(c).bytes == QueueBytes(QueueOf(st, id, c))
    ensures forall bytes: seq<Byte> :: ClassOf(bytes).Some? ==> |bytes| <= 2048 <= l.queuedBytesPerClass
  {
    hide ClassOf, QueueBytes;
    LanesOk(l, st, id, c);
  }

  lemma AcceptChanges(st: State, id: nat, c: Class, k: nat, packet: Packet)
    requires id in st.peers && k <= |QueueOf(st, id, c)|
    ensures var o := Accept(st, id, c, k, packet);
            OnlyQueueChanged(st, o.state, id, c) && QueueOf(o.state, id, c) == QueueOf(st, id, c)[k..] + [packet]
    ensures Accept(st, id, c, k, packet).ok
  {
    hide QueueBytes, Mark;
  }

  /** The packet follows the rest of the queue from some `k`, the first that leaves room for it. */
  ghost predicate MadeRoom(l: Limits, queue: seq<Packet>, packet: Packet, after: seq<Packet>) {
    exists k :: 0 <= k <= |queue| && after == queue[k..] + [packet] && FirstFit(l, queue, |packet.bytes|, k)
  }

  ghost predicate FirstFit(l: Limits, queue: seq<Packet>, n: nat, k: nat)
    requires k <= |queue|
  {
    && n + QueueBytes(queue[k..]) <= l.queuedBytesPerClass
    && (forall j :: 0 <= j < k ==> n + QueueBytes(queue[j..]) > l.queuedBytesPerClass)
  }

  lemma Rest(l: Limits, queue: seq<Packet>, packet: Packet, k: nat)
    requires k <= |queue| && FirstFit(l, queue, |packet.bytes|, k)
    ensures MadeRoom(l, queue, packet, queue[k..] + [packet])
  {}

  /** Realtime datagrams are never refused to a registered peer. */
  lemma RealtimeIsAccepted(l: Limits, st: State, id: nat, bytes: seq<Byte>)
    requires Valid(l, st) && id in st.peers
    requires Bare(bytes, Realtime) || (Enveloped(bytes) && Bare(bytes[20..], Realtime))
    ensures Send(l, st, id, bytes).ok
  {
    hide Send, ClassOf;
    KindExactly(bytes, Realtime);
    SendAccepts(l, st, id, bytes);
  }

  // ---- membership ----

  /** A peer is taken in unless it is there already or there are 4096; it starts with empty queues, a full bucket and
      realtime first, and nobody else notices. */
  lemma Joins(l: Limits, st: State, id: nat)
    requires Valid(l, st)
    ensures var o := AddPeer(st, id);
            && (o.ok <==> id !in st.peers && |st.ids| < 4096)
            && (!o.ok ==> o.state == st)
            && (o.ok ==>
                  && o.state.peers.Keys == st.peers.Keys + {id}
                  && o.state.peers - {id} == st.peers
                  && QueueOf(o.state, id, Realtime) == QueueOf(o.state, id, Reliable) == []
                  && o.state.peers[id].tokens == BURST_MILLI && o.state.peers[id].nextClass == Realtime
                  && multiset(o.state.ids) == multiset(st.ids) + multiset{id}
                  && o.state == st.(ids := o.state.ids, peers := o.state.peers))
  {
    hide LowerBound, PeerOk, Indexed;
    var i := LowerBound(st.ids, id);
    assert st.ids == st.ids[..i] + st.ids[i..];
  }

  /** A removed peer is gone with its queues, and nobody else notices. */
  lemma Leaves(l: Limits, st: State, id: nat)
    requires Valid(l, st)
    ensures var o := RemovePeer(st, id);
            && o.state.peers == st.peers - {id}
            && o.state == st.(ids := o.state.ids, peers := o.state.peers)
            && multiset(o.state.ids) == multiset(st.ids) - multiset{id}
  {
    hide PeerOk, LowerBound, Sorted, Mark;
    ValidIsIndexed(l, st);
    if id in st.peers {
      var i := IndexOf(st, id);
      Located(st.ids, i);
      assert st.ids == st.ids[..i] + [id] + st.ids[i + 1..];
    } else {
      assert id !in st.ids;
    }
  }
}
