/** Max life when only the order of each sender's updates is kept. */
module MaxLifeFifo {
  import opened Common
  import opened MaxLife
  import opened MaxLifeSync

  /** An update arrives after all earlier updates of its sender. */
  predicate InOrder(w: World, move: Move) {
    && Possible(w, move)
    && (move.Arrive? ==>
          forall x :: x in w.sent && x.sender == move.id.sender && x.sequence < move.id.sequence ==>
            x in w.replicas[move.who].seen)
  }

  ghost predicate ReachesInOrder(start: int, moves: seq<Move>, w: World)
    decreases |moves|
  {
    if moves == [] then Initial(w, start)
    else
      var n := |moves| - 1;
      exists before: World ::
        ReachesInOrder(start, moves[..n], before) && InOrder(before, moves[n]) && w == Next(before, moves[n])
  }

  // ---- two peers ----

  ghost predicate OnlyTwo(w: World, a: PeerId, b: PeerId) { w.replicas.Keys == {a, b} }

  /** Between two peers, order per sender is causal order: all a sender had taken in is its own or the receiver's. */
  lemma OrderIsCausalForTwo(start: int, w: World, a: PeerId, b: PeerId, move: Move)
    requires Inv(start, w) && OnlyTwo(w, a, b) && InOrder(w, move)
    ensures Enabled(w, move)
  {
    hide LifeOf;
    if move.Arrive? {
      var p := w.sent[move.id];
      assert PublishedOk(start, w, move.id);
      forall x | x in p.seen ensures x in w.replicas[move.who].seen {
        assert PublishedOk(start, w, x);
        if x.sender == move.id.sender { assert x == Id(move.id.sender, x.sequence); }
      }
    }
  }

  lemma SamePeers(w: World, move: Move)
    requires Possible(w, move)
    ensures Next(w, move).replicas.Keys == w.replicas.Keys
  {
    hide Consume, Notify;
  }

  /** So every run of two peers that keeps the order per sender is a causal run. */
  lemma {:induction false} TwoPeers(start: int, moves: seq<Move>, w: World, a: PeerId, b: PeerId)
    requires 0 <= start && ReachesInOrder(start, moves, w) && OnlyTwo(w, a, b)
    ensures Reaches(start, moves, w)
    decreases |moves|
  {
    hide Enabled, Next;
    if moves != [] {
      var n := |moves| - 1;
      var before: World :|
        ReachesInOrder(start, moves[..n], before) && InOrder(before, moves[n]) && w == Next(before, moves[n]);
      InOrderIsPossible(before, moves[n]);
      SamePeers(before, moves[n]);
      TwoPeers(start, moves[..n], before, a, b);
      ReachableInv(start, moves[..n], before);
      OrderIsCausalForTwo(start, before, a, b, moves[n]);
    }
  }

  lemma InOrderIsPossible(w: World, move: Move)
    requires InOrder(w, move)
    ensures Possible(w, move)
  {}

  /** Two peers with order per sender: each first arrival adds exactly its gain, and at rest both hold the start plus
      all gains, up to the full gauge. */
  lemma TwoPeersAgree(start: int, moves: seq<Move>, w: World, a: PeerId, b: PeerId)
    requires 0 <= start && ReachesInOrder(start, moves, w) && OnlyTwo(w, a, b)
    ensures forall who, id :: InOrder(w, Arrive(who, id)) && id !in w.replicas[who].seen ==>
              Next(w, Arrive(who, id)).replicas[who].adapter.life ==
              Min(w.replicas[who].adapter.life + Gain(w.sent[id]), FULL)
    ensures forall who :: who in w.replicas && w.replicas[who].seen == w.sent.Keys ==>
              w.replicas[who].adapter.life == Min(FULL, start + Sum(w.sent.Keys, w.sent))
  {
    hide Next, Reaches, ReachesInOrder, Sum, OnlyTwo, Inv;
    TwoPeers(start, moves, w, a, b);
    ReachableInv(start, moves, w);
    forall who, id | InOrder(w, Arrive(who, id)) && id !in w.replicas[who].seen
      ensures Possible(w, Arrive(who, id)) && who in Next(w, Arrive(who, id)).replicas
      ensures Next(w, Arrive(who, id)).replicas[who].adapter.life ==
              Min(w.replicas[who].adapter.life + Gain(w.sent[id]), FULL)
    {
      SamePeers(w, Arrive(who, id));
      OrderIsCausalForTwo(start, w, a, b, Arrive(who, id));
      EveryArrivalAddsItsGain(start, moves, w, who, id);
    }
    forall who | who in w.replicas && w.replicas[who].seen == w.sent.Keys
      ensures w.replicas[who].adapter.life == Min(FULL, start + Sum(w.sent.Keys, w.sent))
    {
      AllAgreeAtRest(start, moves, w, who);
    }
  }

  // ---- three peers ----

  const NEW_REPLICA := Replica(Adapter(15, map[], 0, None), {})
  const FIRST := Published(Update(15, 20, 1), {})
  const SECOND := Published(Update(20, 25, 1), {Id(1, 1)})

  // Peer 1 goes from 15 to 20; peer 2 hears of it and goes on to 25; peer 3 hears peer 2 first.
  const MOVES := [Pickup(1, 20), Arrive(2, Id(1, 1)), Pickup(2, 25), Arrive(3, Id(2, 1)), Arrive(3, Id(1, 1))]

  const WORLD_0 := World(map[1 := NEW_REPLICA, 2 := NEW_REPLICA, 3 := NEW_REPLICA], map[])
  const WORLD_1 := World(WORLD_0.replicas[1 := Replica(Adapter(20, map[], 1, None), {Id(1, 1)})],
                         map[Id(1, 1) := FIRST])
  const WORLD_2 := World(WORLD_1.replicas[2 := Replica(Adapter(20, map[1 := 1], 0, None), {Id(1, 1)})], WORLD_1.sent)
  const WORLD_3 := World(WORLD_2.replicas[2 := Replica(Adapter(25, map[1 := 1], 1, None), {Id(1, 1), Id(2, 1)})],
                         WORLD_2.sent[Id(2, 1) := SECOND])
  const WORLD_4 := World(WORLD_3.replicas[3 := Replica(Adapter(25, map[2 := 1], 0, None), {Id(2, 1)})], WORLD_3.sent)
  const BOTH := Replica(Adapter(30, map[2 := 1, 1 := 1], 0, None), {Id(2, 1), Id(1, 1)})
  const WORLD_5 := World(WORLD_4.replicas[3 := BOTH], WORLD_4.sent)

  lemma GoesOn(moves: seq<Move>, before: World, move: Move, after: World)
    requires ReachesInOrder(15, moves, before) && InOrder(before, move) && after == Next(before, move)
    ensures ReachesInOrder(15, moves + [move], after)
  {
    hide InOrder, Next;
    InOrderIsPossible(before, move);
    assert (moves + [move])[..|moves|] == moves;
  }

  lemma FirstSteps()
    ensures InOrder(WORLD_0, MOVES[0]) && Next(WORLD_0, MOVES[0]) == WORLD_1
    ensures InOrder(WORLD_1, MOVES[1]) && Next(WORLD_1, MOVES[1]) == WORLD_2
    ensures InOrder(WORLD_2, MOVES[2]) && Next(WORLD_2, MOVES[2]) == WORLD_3
  {
    assert {} + {Id(1, 1)} == {Id(1, 1)};
    assert {Id(1, 1)} + {Id(2, 1)} == {Id(1, 1), Id(2, 1)};
  }

  lemma LastSteps()
    ensures InOrder(WORLD_3, MOVES[3]) && Next(WORLD_3, MOVES[3]) == WORLD_4
    ensures InOrder(WORLD_4, MOVES[4]) && Next(WORLD_4, MOVES[4]) == WORLD_5
  {
    assert {} + {Id(2, 1)} == {Id(2, 1)};
    assert {Id(2, 1)} + {Id(1, 1)} == {Id(2, 1), Id(1, 1)};
  }

  lemma GainsOfTheRun()
    ensures Sum(WORLD_5.sent.Keys, WORLD_5.sent) == 10
  {
    var none: set<Id> := {};
    SumAdd(none, WORLD_5.sent, Id(1, 1));
    SumAdd(none + {Id(1, 1)}, WORLD_5.sent, Id(2, 1));
    assert none + {Id(1, 1)} + {Id(2, 1)} == WORLD_5.sent.Keys;
  }

  /** With three peers order per sender is not enough: here is a run that keeps it, in which peer 3 has everything and
      holds 30, where the start and all gains make 25. */
  lemma SenderOrderIsNotEnough()
    ensures ReachesInOrder(15, MOVES, WORLD_5)
    ensures WORLD_5.replicas[3].seen == WORLD_5.sent.Keys
    ensures WORLD_5.replicas[3].adapter.life == 30
    ensures Min(FULL, 15 + Sum(WORLD_5.sent.Keys, WORLD_5.sent)) == 25
  {
    hide InOrder, Next, Sum;
    FirstSteps();
    LastSteps();
    GainsOfTheRun();
    assert ReachesInOrder(15, [], WORLD_0);
    GoesOn([], WORLD_0, MOVES[0], WORLD_1);
    GoesOn([] + [MOVES[0]], WORLD_1, MOVES[1], WORLD_2);
    GoesOn([] + [MOVES[0]] + [MOVES[1]], WORLD_2, MOVES[2], WORLD_3);
    GoesOn([] + [MOVES[0]] + [MOVES[1]] + [MOVES[2]], WORLD_3, MOVES[3], WORLD_4);
    GoesOn([] + [MOVES[0]] + [MOVES[1]] + [MOVES[2]] + [MOVES[3]], WORLD_4, MOVES[4], WORLD_5);
    assert [] + [MOVES[0]] + [MOVES[1]] + [MOVES[2]] + [MOVES[3]] + [MOVES[4]] == MOVES;
    assert WORLD_5.replicas[3].seen == WORLD_5.sent.Keys;
  }
}
