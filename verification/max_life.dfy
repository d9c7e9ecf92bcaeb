/** Merging of max-life gains between peers. */
module MaxLife {
  import opened Common

  type PeerId = nat
  const UINT32 := 0x1_0000_0000
  const FULL := 100

  /** The update as read from JSON: absent numbers read as -1, an absent sequence as 0. */
  datatype Update = Update(previous: int, value: int, sequence: nat)

  datatype Result = Applied | Ignored | Rejected

  /** `last` holds the newest sequence taken from each sender. */
  datatype Adapter = Adapter(life: int, last: map<PeerId, nat>, localSequence: nat, suppress: Option<int>)

  function Min(a: int, b: int): int { if a < b then a else b }
  function Max(a: int, b: int): int { if a > b then a else b }
  function Clamp(v: int, low: int, high: int): int { if v < low then low else if v > high then high else v }

  function LastOf(a: Adapter, sender: PeerId): nat { if sender in a.last then a.last[sender] else 0 }

  /** The sender numbers its update, gives a gain, and has not been heard with this number or a later one. */
  predicate NewPickup(a: Adapter, sender: PeerId, m: Update) {
    m.sequence != 0 && m.previous >= 0 && m.value > m.previous && m.sequence > LastOf(a, sender)
  }

  function Merged(current: int, m: Update, newPickup: bool): int {
    if newPickup && current > m.previous then Min(current + (m.value - m.previous), FULL) else Max(current, m.value)
  }

  function Consume(a: Adapter, sender: PeerId, m: Update, randomizer: bool, pending: int): (Adapter, Result) {
    if randomizer then (a, Ignored)
    else if m.value < 0 || m.value > FULL then (a, Rejected)
    else
      var fresh_ := NewPickup(a, sender, m);
      var noted := if fresh_ then a.(last := a.last[sender := m.sequence]) else a;
      if m.sequence != 0 && !fresh_ then (a, Ignored)
      else if pending != 0 && m.value == Clamp(a.life + pending, 15, FULL) then
        (noted.(suppress := Some(m.value)), Ignored)
      else (noted.(life := Max(a.life, Merged(a.life, m, fresh_))), Applied)
  }

  function NextSequence(s: nat): nat {
    if (s + 1) % UINT32 == 0 then 1 else (s + 1) % UINT32
  }

  /** The game has raised max life from `previous` to `value`. */
  function Notify(a: Adapter, previous: int, value: int, quiet: bool): (Adapter, Option<Update>) {
    var heard := a.(suppress := None);
    if a.suppress == Some(value) then (heard, None)
    else if quiet || value <= previous then (heard, None)
    else
      var s := NextSequence(a.localSequence);
      (heard.(localSequence := s), Some(Update(previous, value, s)))
  }

  class GameAdapter {
    var life: int
    var last: map<PeerId, nat>
    var localSequence: nat
    var suppress: Option<int>

    ghost function View(): Adapter
      reads this
    {
      Adapter(life, last, localSequence, suppress)
    }

    constructor (life: int)
      ensures View() == Adapter(life, map[], 0, None)
    {
      this.life, last, localSequence, suppress := life, map[], 0, None;
    }

    method NotifyLocalMaxLife(previous: int, value: int, applyingRemote: bool, syncFlags: bool, welcomed: bool,
                              randomizer: bool)
      returns (published: Option<Update>)
      modifies this
      ensures (View(), published) ==
              Notify(old(View()), previous, value, applyingRemote || !syncFlags || !welcomed || randomizer)
    {
      published := None;
      if suppress.Some? {
        var matches := suppress.value == value;
        suppress := None;
        if matches { return; }
      }
      if applyingRemote || !syncFlags || !welcomed || randomizer || value <= previous { return; }
      localSequence := (localSequence + 1) % UINT32;
      if localSequence == 0 { localSequence := 1; }
      published := Some(Update(previous, value, localSequence));
    }

    method ConsumeMaxLifeUpdate(sender: PeerId, m: Update, randomizer: bool, pending: int) returns (r: Result)
      modifies this
      ensures (View(), r) == Consume(old(View()), sender, m, randomizer, pending)
    {
      if randomizer { return Ignored; }
      if m.value < 0 || m.value > FULL { return Rejected; }
      var newPickup := false;
      if m.sequence != 0 && m.previous >= 0 && m.value > m.previous {
        var newest := if sender in last then last[sender] else 0;
        if m.sequence > newest {
          last := last[sender := m.sequence];
          newPickup := true;
        }
      }
      if m.sequence != 0 && !newPickup { return Ignored; }
      var projected := Clamp(life + pending, 15, FULL);
      if pending != 0 && m.value == projected {
        suppress := Some(m.value);
        return Ignored;
      }
      var current := life;
      var merged := Max(current, m.value);
      if newPickup && current > m.previous {
        merged := Min(current + (m.value - m.previous), FULL);
      }
      if merged > current { life := merged; }
      return Applied;
    }
  }

  /** A new pickup adds exactly its gain, up to the full gauge, if and only if the receiver
      already holds at least what the sender held before it. */
  lemma AddsExactlyItsGain(a: Adapter, sender: PeerId, m: Update)
    requires NewPickup(a, sender, m) && m.value <= FULL && a.life <= FULL
    ensures Consume(a, sender, m, false, 0).1 == Applied
    ensures Consume(a, sender, m, false, 0).0.life == Min(a.life + (m.value - m.previous), FULL) <==>
            a.life >= m.previous
  {}
}
