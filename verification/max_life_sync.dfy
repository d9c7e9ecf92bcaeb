/** Max life as a replicated, saturating counter. */
module MaxLifeSync {
  import opened Common
  import opened MaxLife

  /** A published update is known by its sender and number. */
  datatype Id = Id(sender: PeerId, sequence: nat)

  /** `seen`: what the sender had taken in, its own updates included, when it published this one. */
  datatype Published = Published(update: Update, seen: set<Id>)

  datatype Replica = Replica(adapter: Adapter, seen: set<Id>)

  datatype World = World(replicas: map<PeerId, Replica>, sent: map<Id, Published>)

  /** A pickup of the game at `who` up to `value`; another numbered event that shares the sequence;
      or the arrival of a published update, perhaps not for the first time. */
  datatype Move = Pickup(who: PeerId, value: int) | OtherEvent(who: PeerId) | Arrive(who: PeerId, id: Id)

  /** What can happen at all: sequences do not wrap, and nobody is sent an own update. */
  predicate Possible(w: World, move: Move) {
    && move.who in w.replicas
    && var r := w.replicas[move.who];
       match move
       case Pickup(_, value) => r.adapter.life < value <= FULL && r.adapter.localSequence + 1 < UINT32
       case OtherEvent(_) => r.adapter.localSequence + 1 < UINT32
       case Arrive(_, id) => id in w.sent && id.sender != move.who
  }

  /** Causal delivery: an update arrives after everything its sender had taken in. */
  predicate Enabled(w: World, move: Move) {
    Possible(w, move) && (move.Arrive? ==> w.sent[move.id].seen <= w.replicas[move.who].seen)
  }

  function Next(w: World, move: Move): World
    requires Possible(w, move)
  {
    var r := w.replicas[move.who];
    match move
    case Pickup(who, value) =>
      var (adapter, update) := Notify(r.adapter.(life := value), r.adapter.life, value, false);
      if update.None? then w.(replicas := w.replicas[who := r.(adapter := adapter)])
      else
        var id := Id(who, update.value.sequence);
        World(w.replicas[who := Replica(adapter, r.seen + {id})], w.sent[id := Published(update.value, r.seen)])
    case OtherEvent(who) =>
      w.(replicas := w.replicas[who := r.(adapter := r.adapter.(localSequence :=
            NextSequence(r.adapter.localSequence)))])
    case Arrive(who, id) =>
      var adapter := Consume(r.adapter, id.sender, w.sent[id].update, false, 0).0;
      w.(replicas := w.replicas[who := Replica(adapter, r.seen + {id})])
  }

  ghost predicate Initial(w: World, start: int) {
    && start <= FULL
    && w.sent == map[]
    && forall p :: p in w.replicas ==> w.replicas[p] == Replica(Adapter(start, map[], 0, None), {})
  }

  ghost predicate Reaches(start: int, moves: seq<Move>, w: World)
    decreases |moves|
  {
    if moves == [] then Initial(w, start)
    else
      var n := |moves| - 1;
      exists before: World ::
        Reaches(start, moves[..n], before) && Enabled(before, moves[n]) && w == Next(before, moves[n])
  }

  // ---- sums of gains ----

  function Gain(p: Published): int { p.update.value - p.update.previous }

  ghost function Sum(ids: set<Id>, sent: map<Id, Published>): int
    requires ids <= sent.Keys
  {
    if ids == {} then 0
    else
      var id :| id in ids;
      Gain(sent[id]) + Sum(ids - {id}, sent)
  }

  lemma {:induction false} SumRemove(ids: set<Id>, sent: map<Id, Published>, x: Id)
    requires ids <= sent.Keys && x in ids
    ensures Sum(ids, sent) == Gain(sent[x]) + Sum(ids - {x}, sent)
    decreases |ids|
  {
    var y :| y in ids && Sum(ids, sent) == Gain(sent[y]) + Sum(ids - {y}, sent);
    if y != x {
      SumRemove(ids - {y}, sent, x);
      SumRemove(ids - {x}, sent, y);
      assert ids - {y} - {x} == ids - {x} - {y};
    }
  }

  lemma SumAdd(ids: set<Id>, sent: map<Id, Published>, x: Id)
    requires ids <= sent.Keys && x in sent && x !in ids
    ensures Sum(ids + {x}, sent) == Sum(ids, sent) + Gain(sent[x])
  {
    SumRemove(ids + {x}, sent, x);
    assert ids + {x} - {x} == ids;
  }

  lemma {:induction false} SumMonotone(a: set<Id>, b: set<Id>, sent: map<Id, Published>)
    requires a <= b <= sent.Keys && forall id :: id in sent ==> Gain(sent[id]) > 0
    ensures Sum(a, sent) <= Sum(b, sent)
    decreases |b - a|
  {
    if b - a != {} {
      var x :| x in b - a;
      assert b - a - {x} == b - (a + {x});
      SumMonotone(a + {x}, b, sent);
      SumAdd(a, sent, x);
    } else {
      assert a == b;
    }
  }

  lemma {:induction false} SumFrame(ids: set<Id>, sent: map<Id, Published>, more: map<Id, Published>)
    requires ids <= sent.Keys && ids <= more.Keys && forall id :: id in ids ==> sent[id] == more[id]
    ensures Sum(ids, sent) == Sum(ids, more)
    decreases |ids|
  {
    if ids != {} {
      var x :| x in ids;
      SumRemove(ids, sent, x);
      SumRemove(ids, more, x);
      SumFrame(ids - {x}, sent, more);
    }
  }

  // ---- invariant ----

  /** The life that a set of gains makes of the common start. */
  ghost function LifeOf(start: int, ids: set<Id>, sent: map<Id, Published>): (life: int)
    requires ids <= sent.Keys
    ensures life <= FULL
  {
    Min(FULL, start + Sum(ids, sent))
  }

  ghost predicate PublishedOk(start: int, w: World, id: Id) {
    && id in w.sent
    && var p := w.sent[id];
       && id.sender in w.replicas
       && id in w.replicas[id.sender].seen
       && p.update.sequence == id.sequence
       && 0 < id.sequence <= w.replicas[id.sender].adapter.localSequence
       && 0 <= p.update.previous < p.update.value <= FULL
       && p.seen <= w.sent.Keys
       && p.update.previous == LifeOf(start, p.seen, w.sent)
       && (forall s: nat :: Id(id.sender, s) in w.sent && s < id.sequence ==> Id(id.sender, s) in p.seen)
       && (forall s: nat :: Id(id.sender, s) in p.seen ==> s < id.sequence)
  }

  ghost predicate ReplicaOk(start: int, w: World, who: PeerId) {
    && who in w.replicas
    && var r := w.replicas[who];
       && r.adapter.suppress == None
       && r.seen <= w.sent.Keys
       && r.adapter.life == LifeOf(start, r.seen, w.sent)
       && (forall id :: id in r.seen ==> id in w.sent && w.sent[id].seen <= r.seen)
       && (forall id :: id in r.seen && id.sender != who ==> id.sequence <= LastOf(r.adapter, id.sender))
       && (forall p :: p in r.adapter.last && r.adapter.last[p] != 0 ==> Id(p, r.adapter.last[p]) in r.seen)
  }

  ghost predicate Inv(start: int, w: World) {
    && 0 <= start <= FULL
    && (forall id :: id in w.sent ==> PublishedOk(start, w, id))
    && (forall who :: who in w.replicas ==> ReplicaOk(start, w, who))
  }

  lemma GainsPositive(start: int, w: World)
    requires Inv(start, w)
    ensures forall id :: id in w.sent ==> Gain(w.sent[id]) > 0
  {
    forall id | id in w.sent ensures Gain(w.sent[id]) > 0 { assert PublishedOk(start, w, id); }
  }

  /** Whoever has a later update of a sender has all the earlier ones. */
  lemma EarlierFirst(start: int, w: World, who: PeerId, id: Id, later: nat)
    requires Inv(start, w) && who in w.replicas && id in w.sent && id !in w.replicas[who].seen
    requires Id(id.sender, later) in w.replicas[who].seen
    ensures later < id.sequence
  {
    hide LifeOf;
    var newest := Id(id.sender, later);
    assert ReplicaOk(start, w, who);
    assert PublishedOk(start, w, newest);
    assert id == Id(id.sender, id.sequence);
  }

  /** At its first arrival an update is new to the receiver, who holds at least what the sender held before it. */
  lemma FirstArrival(start: int, w: World, who: PeerId, id: Id)
    requires Inv(start, w) && Enabled(w, Arrive(who, id)) && id !in w.replicas[who].seen
    ensures NewPickup(w.replicas[who].adapter, id.sender, w.sent[id].update)
    ensures w.replicas[who].adapter.life >= w.sent[id].update.previous
  {
    var r := w.replicas[who];
    assert PublishedOk(start, w, id) && ReplicaOk(start, w, who);
    var last := LastOf(r.adapter, id.sender);
    if last != 0 { EarlierFirst(start, w, who, id, last); }
    GainsPositive(start, w);
    SumMonotone(w.sent[id].seen, r.seen, w.sent);
  }

  /** A repeated arrival changes nothing. */
  lemma RepeatedArrival(start: int, w: World, who: PeerId, id: Id)
    requires Inv(start, w) && Enabled(w, Arrive(who, id)) && id in w.replicas[who].seen
    ensures Next(w, Arrive(who, id)) == w
  {
    hide LifeOf, Consume;
    var r := w.replicas[who];
    assert PublishedOk(start, w, id) && ReplicaOk(start, w, who);
    OldIsIgnored(r.adapter, id.sender, w.sent[id].update);
    assert r.seen + {id} == r.seen;
    assert w.replicas[who := r] == w.replicas;
  }

  lemma LifeWith(start: int, seen: set<Id>, sent: map<Id, Published>, id: Id)
    requires seen <= sent.Keys && id in sent && id !in seen && Gain(sent[id]) >= 0
    ensures LifeOf(start, seen + {id}, sent) == Min(LifeOf(start, seen, sent) + Gain(sent[id]), FULL)
  {
    hide Sum;
    SumAdd(seen, sent, id);
  }

  lemma NewIsTakenIn(a: Adapter, sender: PeerId, m: Update)
    requires NewPickup(a, sender, m) && m.previous <= a.life <= FULL && m.value <= FULL
    ensures Consume(a, sender, m, false, 0).0 ==
            a.(last := a.last[sender := m.sequence], life := Min(a.life + (m.value - m.previous), FULL))
  {}

  lemma OldIsIgnored(a: Adapter, sender: PeerId, m: Update)
    requires m.sequence != 0 && !NewPickup(a, sender, m)
    ensures Consume(a, sender, m, false, 0).0 == a
  {}

  /** The receiver of a first arrival. */
  lemma ReceiverKeeps(start: int, w: World, who: PeerId, id: Id)
    requires Inv(start, w) && Enabled(w, Arrive(who, id)) && id !in w.replicas[who].seen
    ensures ReplicaOk(start, Next(w, Arrive(who, id)), who)
  {
    hide LifeOf, Consume, NewPickup, Inv;
    var r := w.replicas[who];
    FirstArrival(start, w, who, id);
    InvAt(start, w, who, id);
    LifeWith(start, r.seen, w.sent, id);
    NewIsTakenIn(r.adapter, id.sender, w.sent[id].update);
    NewIsLatest(r.adapter, id.sender, w.sent[id].update);
    ReceiverAfter(start, w, who, id, Next(w, Arrive(who, id)));
  }

  lemma InvAt(start: int, w: World, who: PeerId, id: Id)
    requires Inv(start, w) && who in w.replicas && id in w.sent
    ensures PublishedOk(start, w, id) && ReplicaOk(start, w, who)
  {
    hide LifeOf;
    assert PublishedOk(start, w, id) && ReplicaOk(start, w, who);
  }

  lemma ReceiverAfter(start: int, w: World, who: PeerId, id: Id, w': World)
    requires ReplicaOk(start, w, who) && id in w.sent && w.sent[id].seen <= w.replicas[who].seen
    requires id.sender != who && LastOf(w.replicas[who].adapter, id.sender) < id.sequence
    requires w.replicas[who].seen + {id} <= w.sent.Keys
    requires var r := w.replicas[who];
             var life := LifeOf(start, r.seen + {id}, w.sent);
             var adapter := r.adapter.(last := r.adapter.last[id.sender := id.sequence], life := life);
             w' == w.(replicas := w.replicas[who := Replica(adapter, r.seen + {id})])
    ensures ReplicaOk(start, w', who)
  {
    hide LifeOf;
  }

  lemma NewIsLatest(a: Adapter, sender: PeerId, m: Update)
    requires NewPickup(a, sender, m)
    ensures LastOf(a, sender) < m.sequence
  {}

  lemma BystanderKeeps(start: int, w: World, w': World, who: PeerId)
    requires ReplicaOk(start, w, who)
    requires w'.sent == w.sent && who in w'.replicas && w'.replicas[who] == w.replicas[who]
    ensures ReplicaOk(start, w', who)
  {}

  lemma ArriveKeeps(start: int, w: World, who: PeerId, id: Id)
    requires Inv(start, w) && Enabled(w, Arrive(who, id)) && id !in w.replicas[who].seen
    ensures Inv(start, Next(w, Arrive(who, id)))
  {
    hide LifeOf, ReplicaOk, PublishedOk;
    var w' := Next(w, Arrive(who, id));
    ReceiverKeeps(start, w, who, id);
    forall other | other in w'.sent ensures PublishedOk(start, w', other) {
      ArrivalKeepsPublished(start, w, who, id, other);
    }
    forall p | p in w'.replicas ensures ReplicaOk(start, w', p) {
      if p != who { BystanderKeeps(start, w, w', p); }
    }
  }

  lemma ArrivalKeepsPublished(start: int, w: World, who: PeerId, id: Id, other: Id)
    requires Enabled(w, Arrive(who, id)) && PublishedOk(start, w, other)
    ensures PublishedOk(start, Next(w, Arrive(who, id)), other)
  {
    hide LifeOf;
  }

  /** A pickup publishes the next number with the gain and everything seen before. */
  lemma PickupPublishes(start: int, w: World, who: PeerId, value: int) returns (id: Id)
    requires Inv(start, w) && Enabled(w, Pickup(who, value))
    ensures var r := w.replicas[who];
            && id == Id(who, r.adapter.localSequence + 1) && id !in w.sent
            && Next(w, Pickup(who, value)) ==
               World(w.replicas[who := Replica(r.adapter.(life := value, localSequence := id.sequence), r.seen + {id})],
                     w.sent[id := Published(Update(r.adapter.life, value, id.sequence), r.seen)])
  {
    hide LifeOf;
    assert ReplicaOk(start, w, who);
    id := Id(who, w.replicas[who].adapter.localSequence + 1);
    assert forall other :: other in w.sent ==> PublishedOk(start, w, other);
  }

  lemma PublishKeeps(start: int, w: World, who: PeerId, value: int, id: Id, w': World)
    requires Inv(start, w) && who in w.replicas && w.replicas[who].adapter.life < value <= FULL
    requires id == Id(who, w.replicas[who].adapter.localSequence + 1) && id !in w.sent
    requires var r := w.replicas[who];
             w' == World(
               w.replicas[who := Replica(r.adapter.(life := value, localSequence := id.sequence), r.seen + {id})],
               w.sent[id := Published(Update(r.adapter.life, value, id.sequence), r.seen)])
    ensures Inv(start, w')
  {
    hide LifeOf, ReplicaOk, PublishedOk;
    LifeNotNegative(start, w, who);
    forall ids: set<Id> | ids <= w.sent.Keys ensures LifeOf(start, ids, w'.sent) == LifeOf(start, ids, w.sent) {
      SumFrame(ids, w.sent, w'.sent);
      LifeFrame(start, ids, w.sent, w'.sent);
    }
    assert ReplicaOk(start, w, who);
    LifeAfter(start, w, who, w'.sent, id);
    OwnSeen(start, w, who);
    forall other | other in w'.sent ensures PublishedOk(start, w', other) {
      if other != id { assert PublishedOk(start, w, other); }
      PublishedKept(start, w, who, value, id, w', other);
    }
    forall p | p in w'.replicas ensures ReplicaOk(start, w', p) {
      assert ReplicaOk(start, w, p);
      ReplicaKept(start, w, who, value, id, w', p);
    }
  }

  lemma OwnSeen(start: int, w: World, who: PeerId)
    requires Inv(start, w) && who in w.replicas
    ensures forall s: nat :: Id(who, s) in w.sent <==> Id(who, s) in w.replicas[who].seen
    ensures forall s: nat :: Id(who, s) in w.sent ==> s <= w.replicas[who].adapter.localSequence
  {
    hide LifeOf;
    assert ReplicaOk(start, w, who);
    forall s: nat | Id(who, s) in w.sent
      ensures Id(who, s) in w.replicas[who].seen && s <= w.replicas[who].adapter.localSequence
    {
      assert PublishedOk(start, w, Id(who, s));
    }
  }

  lemma LifeFrame(start: int, ids: set<Id>, sent: map<Id, Published>, more: map<Id, Published>)
    requires ids <= sent.Keys && ids <= more.Keys && Sum(ids, sent) == Sum(ids, more)
    ensures LifeOf(start, ids, sent) == LifeOf(start, ids, more)
  {}

  lemma LifeAfter(start: int, w: World, who: PeerId, sent: map<Id, Published>, id: Id)
    requires ReplicaOk(start, w, who) && id !in w.sent && w.sent.Keys + {id} == sent.Keys
    requires forall other :: other in w.sent ==> sent[other] == w.sent[other]
    requires sent[id].update.previous == w.replicas[who].adapter.life < sent[id].update.value <= FULL
    ensures sent[id].update.value == LifeOf(start, w.replicas[who].seen + {id}, sent)
  {
    hide Sum;
    var seen := w.replicas[who].seen;
    SumFrame(seen, w.sent, sent);
    SumAdd(seen, sent, id);
  }

  ghost predicate PublishStep(start: int, w: World, who: PeerId, value: int, id: Id, w': World) {
    && who in w.replicas && id == Id(who, w.replicas[who].adapter.localSequence + 1) && id !in w.sent
    && var r := w.replicas[who];
       && 0 <= r.adapter.life < value <= FULL
       && w' == World(
            w.replicas[who := Replica(r.adapter.(life := value, localSequence := id.sequence), r.seen + {id})],
            w.sent[id := Published(Update(r.adapter.life, value, id.sequence), r.seen)])
       && ReplicaOk(start, w, who)
       && (forall ids: set<Id> :: ids <= w.sent.Keys ==> LifeOf(start, ids, w'.sent) == LifeOf(start, ids, w.sent))
       && value == LifeOf(start, r.seen + {id}, w'.sent)
  }

  lemma PublishedKept(start: int, w: World, who: PeerId, value: int, id: Id, w': World, other: Id)
    requires PublishStep(start, w, who, value, id, w') && other in w'.sent
    requires other != id ==> PublishedOk(start, w, other)
    requires forall s: nat :: Id(who, s) in w.sent <==> Id(who, s) in w.replicas[who].seen
    requires forall s: nat :: Id(who, s) in w.sent ==> s <= w.replicas[who].adapter.localSequence
    ensures PublishedOk(start, w', other)
  {
    hide LifeOf;
  }

  lemma ReplicaKept(start: int, w: World, who: PeerId, value: int, id: Id, w': World, p: PeerId)
    requires PublishStep(start, w, who, value, id, w') && p in w'.replicas && ReplicaOk(start, w, p)
    ensures ReplicaOk(start, w', p)
  {
    hide LifeOf;
  }

  lemma PickupKeeps(start: int, w: World, who: PeerId, value: int)
    requires Inv(start, w) && Enabled(w, Pickup(who, value))
    ensures Inv(start, Next(w, Pickup(who, value)))
  {
    hide Inv, Next;
    var id := PickupPublishes(start, w, who, value);
    PublishKeeps(start, w, who, value, id, Next(w, Pickup(who, value)));
  }

  lemma LifeNotNegative(start: int, w: World, who: PeerId)
    requires Inv(start, w) && who in w.replicas
    ensures w.replicas[who].adapter.life >= 0
  {
    assert ReplicaOk(start, w, who);
    GainsPositive(start, w);
    SumMonotone({}, w.replicas[who].seen, w.sent);
    assert Sum({}, w.sent) == 0;
  }

  lemma OtherKeeps(start: int, w: World, who: PeerId)
    requires Inv(start, w) && Enabled(w, OtherEvent(who))
    ensures Inv(start, Next(w, OtherEvent(who)))
  {
    hide LifeOf, PublishedOk, ReplicaOk;
    var w' := Next(w, OtherEvent(who));
    forall other | other in w'.sent ensures PublishedOk(start, w', other) { OtherKeepsPublished(start, w, who, other); }
    forall p | p in w'.replicas ensures ReplicaOk(start, w', p) { OtherKeepsReplica(start, w, who, p); }
  }

  lemma OtherKeepsPublished(start: int, w: World, who: PeerId, other: Id)
    requires Enabled(w, OtherEvent(who)) && PublishedOk(start, w, other)
    ensures PublishedOk(start, Next(w, OtherEvent(who)), other)
  {
    hide LifeOf;
  }

  lemma OtherKeepsReplica(start: int, w: World, who: PeerId, p: PeerId)
    requires Enabled(w, OtherEvent(who)) && ReplicaOk(start, w, p)
    ensures ReplicaOk(start, Next(w, OtherEvent(who)), p)
  {
    hide LifeOf;
  }

  lemma {:induction false} ReachableInv(start: int, moves: seq<Move>, w: World)
    requires 0 <= start && Reaches(start, moves, w)
    ensures Inv(start, w)
    decreases |moves|
  {
    hide PublishedOk, ReplicaOk, Next;
    if moves == [] {
      InitialInv(start, w);
    } else {
      var n := |moves| - 1;
      var before: World :|
        Reaches(start, moves[..n], before) && Enabled(before, moves[n]) && w == Next(before, moves[n]);
      ReachableInv(start, moves[..n], before);
      match moves[n]
      case Pickup(who, value) => PickupKeeps(start, before, who, value);
      case OtherEvent(who) => OtherKeeps(start, before, who);
      case Arrive(who, id) =>
        if id in before.replicas[who].seen {
          RepeatedArrival(start, before, who, id);
        } else {
          ArriveKeeps(start, before, who, id);
        }
    }
  }

  lemma InitialInv(start: int, w: World)
    requires 0 <= start && Initial(w, start)
    ensures Inv(start, w)
  {
    assert Sum({}, w.sent) == 0;
  }

  lemma ArrivalLife(w: World, who: PeerId, id: Id)
    requires Possible(w, Arrive(who, id))
    ensures Next(w, Arrive(who, id)).replicas[who].adapter.life ==
            Consume(w.replicas[who].adapter, id.sender, w.sent[id].update, false, 0).0.life
  {
    hide Consume;
  }

  lemma WithinFull(start: int, w: World, who: PeerId, id: Id)
    requires Inv(start, w) && who in w.replicas && id in w.sent
    ensures w.sent[id].update.value <= FULL && w.replicas[who].adapter.life <= FULL
  {
    hide LifeOf;
    assert PublishedOk(start, w, id) && ReplicaOk(start, w, who);
  }

  /** In every run, an update that arrives for the first time adds exactly its gain, up to the full gauge. */
  lemma EveryArrivalAddsItsGain(start: int, moves: seq<Move>, w: World, who: PeerId, id: Id)
    requires 0 <= start && Reaches(start, moves, w) && Enabled(w, Arrive(who, id)) && id !in w.replicas[who].seen
    ensures w.replicas[who].adapter.life >= w.sent[id].update.previous
    ensures Next(w, Arrive(who, id)).replicas[who].adapter.life ==
            Min(w.replicas[who].adapter.life + Gain(w.sent[id]), FULL)
  {
    hide Next, Consume, Reaches, Inv, NewPickup;
    ReachableInv(start, moves, w);
    FirstArrival(start, w, who, id);
    WithinFull(start, w, who, id);
    ArrivalLife(w, who, id);
    AddsExactlyItsGain(w.replicas[who].adapter, id.sender, w.sent[id].update);
  }

  /** When everything published has arrived everywhere, every peer holds the start plus all gains, up to the
      full gauge, whatever the interleaving was. */
  lemma AllAgreeAtRest(start: int, moves: seq<Move>, w: World, who: PeerId)
    requires 0 <= start && Reaches(start, moves, w) && who in w.replicas && w.replicas[who].seen == w.sent.Keys
    ensures w.replicas[who].adapter.life == Min(FULL, start + Sum(w.sent.Keys, w.sent))
  {
    hide Sum, Reaches, PublishedOk;
    ReachableInv(start, moves, w);
    assert ReplicaOk(start, w, who);
  }
}
