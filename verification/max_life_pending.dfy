/** Max-life updates that meet a gain the game has still to apply, and what each call does in general. */
module MaxLifePending {
  import opened Common
  import opened MaxLife

  /** The game applies a waiting gain to the gauge, which runs from 15 to 100. */
  function Projected(life: int, pending: int): int {
    if life + pending < 15 then 15 else if life + pending > 100 then 100 else life + pending
  }

  /** The update raises the gauge and is later than every numbered one so far from its sender. */
  predicate Newer(a: Adapter, sender: PeerId, m: Update) {
    0 <= m.previous < m.value && m.sequence > (if sender in a.last then a.last[sender] else 0)
  }

  /** An update without a number is always looked at, one with a number only if it is newer. */
  predicate LookedAt(a: Adapter, sender: PeerId, m: Update) { m.sequence == 0 || Newer(a, sender, m) }

  /** The update says what the game is about to do itself. */
  predicate Anticipated(a: Adapter, m: Update, pending: int) { pending != 0 && m.value == Projected(a.life, pending) }

  /** Each outcome of an arrival, and what it leaves. Life never falls and never passes the full gauge. */
  lemma ArrivalOutcome(a: Adapter, sender: PeerId, m: Update, randomizer: bool, pending: int)
    requires a.life <= 100
    ensures var (after, r) := Consume(a, sender, m, randomizer, pending);
            var inRange := 0 <= m.value <= 100;
            && (r == Rejected <==> !randomizer && !inRange)
            && (r == Applied <==> !randomizer && inRange && LookedAt(a, sender, m) && !Anticipated(a, m, pending))
            && (r != Applied ==> after.life == a.life)
            && (r == Applied ==> a.life <= after.life <= 100 && m.value <= after.life)
            && after.localSequence == a.localSequence
            && after.suppress ==
               if !randomizer && inRange && LookedAt(a, sender, m) && Anticipated(a, m, pending) then Some(m.value)
               else a.suppress
  {}

  /** The newest number of a sender goes up with each new pickup that is looked at, even one that is anticipated, and
      the numbers of other senders stay. */
  lemma ArrivalNotes(a: Adapter, sender: PeerId, m: Update, randomizer: bool, pending: int, other: PeerId)
    ensures var after := Consume(a, sender, m, randomizer, pending).0;
            LastOf(after, other) ==
            if other == sender && !randomizer && m.value <= 100 && Newer(a, sender, m) then m.sequence
            else LastOf(a, other)
  {}

  /** An update without a number raises life to its value and no further. */
  lemma UnnumberedRaises(a: Adapter, sender: PeerId, m: Update, pending: int)
    requires m.sequence == 0 && 0 <= m.value <= 100 && !Anticipated(a, m, pending)
    ensures Consume(a, sender, m, false, pending) == (a.(life := if m.value > a.life then m.value else a.life), Applied)
  {}

  /** A raise is published exactly when it is one, nothing keeps it quiet, and it is not the one to suppress. It takes
      the next nonzero 32-bit number. Whatever the raise, nothing is left to suppress. */
  lemma Publishes(a: Adapter, previous: int, value: int, quiet: bool)
    requires a.localSequence < UINT32
    ensures var (after, published) := Notify(a, previous, value, quiet);
            && (published.Some? <==> a.suppress != Some(value) && !quiet && value > previous)
            && (published.Some? ==> published.value == Update(previous, value, after.localSequence))
            && after == a.(suppress := None, localSequence := after.localSequence)
            && (published.None? ==> after.localSequence == a.localSequence)
            && (published.Some? ==>
                  after.localSequence == if a.localSequence == UINT32 - 1 then 1 else a.localSequence + 1)
  {}

  /** Whether the game's raises from `raises[0]` on are published. */
  function Published(a: Adapter, raises: seq<(int, int)>): seq<bool>
    decreases |raises|
  {
    if raises == [] then []
    else
      var (after, published) := Notify(a, raises[0].0, raises[0].1, false);
      [published.Some?] + Published(after, raises[1..])
  }

  /** With nothing to suppress every raise is published. */
  lemma {:induction false} AllPublished(a: Adapter, raises: seq<(int, int)>)
    requires a.suppress.None? && forall i :: 0 <= i < |raises| ==> raises[i].1 > raises[i].0
    ensures |Published(a, raises)| == |raises| && forall i :: 0 <= i < |raises| ==> Published(a, raises)[i]
    decreases |raises|
  {
    if raises != [] { AllPublished(Notify(a, raises[0].0, raises[0].1, false).0, raises[1..]); }
  }

  /** An update that says what the game is about to do is not added to the gauge, and of the raises that the game then
      reports exactly the first is kept quiet, if it is the one foreseen: the gain is counted once here and not sent
      back. All later ones are published, and so is the first if it is another. */
  lemma AnticipatedCountsOnce(a: Adapter, sender: PeerId, m: Update, pending: int, raises: seq<(int, int)>)
    requires 0 <= m.value <= 100 && LookedAt(a, sender, m) && Anticipated(a, m, pending)
    requires forall i :: 0 <= i < |raises| ==> raises[i].1 > raises[i].0
    ensures var (after, r) := Consume(a, sender, m, false, pending);
            && r == Ignored && after.life == a.life
            && Projected(after.life, pending) == m.value
            && |Published(after, raises)| == |raises|
            && forall i :: 0 <= i < |raises| ==>
                 (Published(after, raises)[i] <==> !(i == 0 && raises[0].1 == Projected(a.life, pending)))
  {
    hide Anticipated, LookedAt;
    var after := Consume(a, sender, m, false, pending).0;
    Foreseen(a, sender, m, pending);
    if raises != [] { AllPublished(Notify(after, raises[0].0, raises[0].1, false).0, raises[1..]); }
  }

  lemma Foreseen(a: Adapter, sender: PeerId, m: Update, pending: int)
    requires 0 <= m.value <= 100 && LookedAt(a, sender, m) && Anticipated(a, m, pending)
    ensures var (after, r) := Consume(a, sender, m, false, pending);
            && r == Ignored && after.life == a.life && after.suppress == Some(m.value)
            && m.value == Projected(a.life, pending)
  {}
}
