/** How much the scheduler hands to the carrier over any stretch of a run. */
module SchedulerBudget {
  import opened Common
  import opened DatagramKinds
  import opened SchedulerModel

  /** A budget is that of one peer, or with `None` that of all of them. */
  type Account = Option<nat>

  function Charged(events: seq<Event>, who: Account): nat {
    if events == [] then 0
    else
      var e := events[|events| - 1];
      Charged(events[..|events| - 1], who) +
      if e.fate.Carried? && (who.None? || who.value == e.peer) then 1000 * Cost(e.packet) else 0
  }

  function Balance(st: State, who: Account): int {
    if who.None? then st.tokens
    else if who.value in st.peers then st.peers[who.value].tokens
    else BURST_MILLI
  }

  function Rate(l: Limits, who: Account): nat {
    if who.None? then l.totalBytesPerSecond else l.perPeerBytesPerSecond
  }

  /** The milliseconds the updates of a run see pass. */
  function ElapsedOver(clock: Clock, l: Limits, st: State, ops: seq<Op>): nat
    requires Valid(l, st)
    decreases |ops|
  {
    if ops == [] then 0
    else
      StepKeeps(clock, l, st, ops[0]);
      (if ops[0].Tick? then Elapsed(clock, st, ops[0].ms) else 0) +
      ElapsedOver(clock, l, Step(clock, l, st, ops[0]).state, ops[1..])
  }

  /** The peer of the account stays registered: nobody removes it. */
  predicate Registered(ops: seq<Op>, who: Account) {
    who.Some? ==> Remove(who.value) !in ops
  }

  lemma {:induction false} ChargedAppend(a: seq<Event>, b: seq<Event>, who: Account)
    ensures Charged(a + b, who) == Charged(a, who) + Charged(b, who)
    decreases |b|
  {
    if b == [] {
      assert a + b == a;
    } else {
      ChargedAppend(a, b[..|b| - 1], who);
      assert (a + b)[..|a + b| - 1] == a + b[..|b| - 1];
    }
  }

  lemma {:induction false} NothingCharged(events: seq<Event>, who: Account)
    requires forall e :: e in events ==> !e.fate.Carried?
    ensures Charged(events, who) == 0
  {
    if events != [] { NothingCharged(events[..|events| - 1], who); }
  }

  lemma PassCharges(l: Limits, st: State, who: Account)
    requires Valid(l, st) && SomePayable(st)
    ensures Charged([PassEvent(st)], who) + Balance(Pass(st), who) == Balance(st, who)
  {
    assert [PassEvent(st)][..0] == [];
  }

  /** What is handed over is exactly what leaves the accounts. */
  lemma {:induction false} DrainCharges(l: Limits, st: State, who: Account)
    requires Valid(l, st)
    ensures Charged(Drain(st).events, who) + Balance(Drain(st).state, who) == Balance(st, who)
    decreases st.tokens
  {
    hide Pass, PassEvent, Drain, Balance, Valid, SomePayable, Indexed;
    ValidIsIndexed(l, st);
    TokensBounded(l, st);
    if SomePayable(st) {
      PassSpends(l, st);
      PassCharges(l, st, who);
      DrainCharges(l, Pass(st), who);
      ChargedAppend([PassEvent(st)], Drain(Pass(st)).events, who);
    } else {
      DrainDone(st);
    }
  }

  lemma RefreshCredits(clock: Clock, l: Limits, st: State, ms: nat, who: Account)
    requires Valid(l, st)
    ensures Balance(Refresh(clock, l, st, ms), who) ==
            Min(BURST_MILLI, Balance(st, who) + Elapsed(clock, st, ms) * Rate(l, who))
  {
    hide PruneLane;
    assert Elapsed(clock, st, ms) * Rate(l, who) >= 0;
  }

  lemma StepCharges(clock: Clock, l: Limits, st: State, op: Op, who: Account)
    requires Valid(l, st) && Registered([op], who)
    ensures var o := Step(clock, l, st, op);
            var credit := if op.Tick? then Elapsed(clock, st, op.ms) * Rate(l, who) else 0;
            && Charged(o.events, who) + Balance(o.state, who) <= Balance(st, who) + credit
            && (op.Tick? ==> Charged(o.events, who) + Balance(o.state, who) <= BURST_MILLI)
  {
    hide Valid, Indexed, Balance, Charged, Elapsed, Rate, Update, AddPeer, RemovePeer, Send;
    ValidIsIndexed(l, st);
    if op.Tick? {
      TickCharges(clock, l, st, op.ms, who);
    } else {
      if op.Remove? { assert who != Some(op.id) by { assert op in [op]; } }
      QuietEvents(clock, l, st, op);
      QuietBalance(clock, l, st, op, who);
      NothingCharged(Step(clock, l, st, op).events, who);
    }
  }

  lemma QuietEvents(clock: Clock, l: Limits, st: State, op: Op)
    requires Valid(l, st) && !op.Tick?
    ensures forall e :: e in Step(clock, l, st, op).events ==> !e.fate.Carried?
  {
    hide Valid, LowerBound, EvictCount, ClassOf, DropFront, Push;
    ValidIsIndexed(l, st);
  }

  lemma QuietBalance(clock: Clock, l: Limits, st: State, op: Op, who: Account)
    requires Valid(l, st) && !op.Tick? && (op.Remove? ==> who != Some(op.id))
    ensures Balance(Step(clock, l, st, op).state, who) == Balance(st, who)
  {
    hide Valid, LowerBound, EvictCount, ClassOf, DropFront, Push, Mark;
    ValidIsIndexed(l, st);
  }

  /** An update adds the rate times what has elapsed to every account, up to the burst; and what it then hands over
      it takes off again. */
  lemma TickCharges(clock: Clock, l: Limits, st: State, ms: nat, who: Account)
    requires Valid(l, st)
    ensures var o := Update(clock, l, st, ms);
            Charged(o.events, who) + Balance(o.state, who) ==
            Min(BURST_MILLI, Balance(st, who) + Elapsed(clock, st, ms) * Rate(l, who))
  {
    hide Refresh, Balance, Valid, Indexed, Drain, ExpiredBefore, Charged, Elapsed, Rate;
    ValidIsIndexed(l, st);
    RefreshCredits(clock, l, st, ms, who);
    RefreshKeeps(clock, l, st, ms);
    ValidIsIndexed(l, Refresh(clock, l, st, ms));
    DrainCharges(l, Refresh(clock, l, st, ms), who);
    ExpiredOnly(clock, l, st, |st.ids|, ms);
    NothingCharged(ExpiredBefore(clock, l, st, |st.ids|, ms), who);
    ChargedAppend(ExpiredBefore(clock, l, st, |st.ids|, ms), Drain(Refresh(clock, l, st, ms)).events, who);
  }

  /** Over a whole run: charges and final balance are covered by the initial balance and the refills. */
  lemma {:induction false} RunCharges(clock: Clock, l: Limits, st: State, ops: seq<Op>, who: Account)
    requires Valid(l, st) && Registered(ops, who)
    ensures var o := Run(clock, l, st, ops);
            Charged(o.events, who) + Balance(o.state, who) <=
            Balance(st, who) + ElapsedOver(clock, l, st, ops) * Rate(l, who)
    decreases |ops|
  {
    hide Step, Valid, Indexed, Balance, Charged, Elapsed, Rate, Registered;
    if ops != [] {
      ValidIsIndexed(l, st);
      var first := Step(clock, l, st, ops[0]);
      StepKeeps(clock, l, st, ops[0]);
      RegisteredParts(ops, who);
      StepCharges(clock, l, st, ops[0], who);
      RunCharges(clock, l, first.state, ops[1..], who);
      ChargedAppend(first.events, Run(clock, l, first.state, ops[1..]).events, who);
      var e0 := if ops[0].Tick? then Elapsed(clock, st, ops[0].ms) else 0;
      Distribute(e0, ElapsedOver(clock, l, first.state, ops[1..]), Rate(l, who));
    } else {
      NothingCharged([], who);
    }
  }

  lemma RegisteredParts(ops: seq<Op>, who: Account)
    requires ops != [] && Registered(ops, who)
    ensures Registered([ops[0]], who) && Registered(ops[1..], who)
  {}

  lemma Distribute(a: int, b: int, c: int)
    ensures (a + b) * c == a * c + b * c
  {}

  /** The rate bound over a window that opens with an update: a burst plus the rate times what elapses after it. */
  lemma WindowBound(clock: Clock, l: Limits, st: State, ops: seq<Op>, who: Account)
    requires Valid(l, st) && Registered(ops, who) && ops != [] && ops[0].Tick?
    ensures Valid(l, Step(clock, l, st, ops[0]).state)
    ensures Charged(Run(clock, l, st, ops).events, who) <=
            BURST_MILLI + ElapsedOver(clock, l, Step(clock, l, st, ops[0]).state, ops[1..]) * Rate(l, who)
  {
    var first := Step(clock, l, st, ops[0]);
    StepKeeps(clock, l, st, ops[0]);
    StepCharges(clock, l, st, ops[0], who);
    RunCharges(clock, l, first.state, ops[1..], who);
    ChargedAppend(first.events, Run(clock, l, first.state, ops[1..]).events, who);
    var last := Run(clock, l, first.state, ops[1..]).state;
    assert 0 <= Balance(last, who);
  }

  /** An update hands over at most 66 packets, far below its bound of 4096 passes, and leaves nobody who can pay. */
  lemma {:induction false} DrainIsShort(l: Limits, st: State)
    requires Valid(l, st)
    ensures 1000 * OVERHEAD * |Drain(st).events| <= st.tokens
    ensures |Drain(st).events| <= 66
    ensures forall id :: id in st.peers ==> id in Drain(st).state.peers && Stuck(Drain(st).state, id)
    decreases st.tokens
  {
    if SomePayable(st) {
      PassSpends(l, st);
      DrainIsShort(l, Pass(st));
    } else {
      forall id | id in st.peers ensures Stuck(st, id) { NobodyPays(st, id); }
    }
  }
}
