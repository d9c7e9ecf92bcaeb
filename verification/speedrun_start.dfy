/** The start protocol's promise for a whole lobby, with the participants of a request pinned down by its id. */
module SpeedrunStart {
  import opened SpeedrunModel
  import opened SpeedrunLobby
  import opened SpeedrunRequests
  import Safety = SpeedrunSafety

  /** What the host did, out of everything that was done. */
  function HostEffects(log: seq<Entry>): seq<Effect> {
    if log == [] then []
    else
      var n := |log| - 1;
      HostEffects(log[..n]) + if log[n].who == HOST then [log[n].effect] else []
  }

  lemma HostEffectsPush(log: seq<Entry>, e: Entry)
    ensures HostEffects(log + [e]) == HostEffects(log) + if e.who == HOST then [e.effect] else []
  {
    assert (log + [e])[..|log|] == log;
  }

  lemma {:induction false} HostEffectsGrow(log: seq<Entry>, who: PeerId, effects: seq<Effect>)
    ensures HostEffects(Grow(log, who, effects)) == HostEffects(log) + if who == HOST then effects else []
    decreases |effects|
  {
    hide HostEffects;
    if effects == [] {
      assert Grow(log, who, effects) == log && HostEffects(log) + [] == HostEffects(log);
    } else {
      var n := |effects| - 1;
      HostEffectsGrow(log, who, effects[..n]);
      HostEffectsPush(Grow(log, who, effects[..n]), Entry(who, effects[n]));
      assert Grow(log, who, effects) == Grow(log, who, effects[..n]) + [Entry(who, effects[n])];
      assert effects == effects[..n] + [effects[n]];
    }
  }

  lemma {:induction false} HostDid(log: seq<Entry>, e: Effect) returns (k: nat)
    requires Did(log, HOST, e)
    ensures k < |HostEffects(log)| && HostEffects(log)[k] == e
  {
    var n := |log| - 1;
    if log[n] == Entry(HOST, e) {
      k := |HostEffects(log[..n])|;
    } else {
      assert log == log[..n] + [log[n]];
      k := HostDid(log[..n], e);
    }
  }

  /** The host side of a lobby is a run of the host: ids increase and each request ends at most once. */
  lemma {:induction false} HostEndsOnce(moves: seq<Move>, s: Lobby, id: nat)
    requires Reaches(moves, s) && id != 0
    ensures HOST in s.nodes
    ensures var n := s.nodes[HOST];
            var done := HostEffects(s.log);
            && Latest(n, done)
            && EndCount(done, id) + One(n.requestId == id) <= 1
            && (id > n.sequence ==> EndCount(done, id) + One(n.requestId == id) == 0)
    decreases |moves|
  {
    hide Do, PressFits, Sent, EndCount, HostEffects, Latest;
    if moves == [] {
      NothingDone(s.nodes[HOST], s.log, id);
    } else {
      var k := |moves| - 1;
      var move := moves[k];
      var before: Lobby :| Reaches(moves[..k], before) && Enabled(before, move) && s == Next(before, move);
      HostEndsOnce(moves[..k], before, id);
      var done := HostEffects(before.log);
      var effects := Do(before.nodes[move.who], move.call).effects;
      HostEffectsGrow(before.log, move.who, effects);
      if move.who == HOST {
        StepEndsOnce(Reply(before.nodes[HOST], done), move.call, id);
        EndCountAppend(done, effects, id);
      } else {
        assert done + [] == done;
      }
    }
  }

  lemma NothingDone(n: Node, log: seq<Entry>, id: nat)
    requires n == IDLE_NODE && log == [] && id != 0
    ensures Latest(n, HostEffects(log)) && EndCount(HostEffects(log), id) == 0
  {}

  /** An id stands for one set of participants. */
  lemma OneOpening(moves: seq<Move>, s: Lobby, id: nat, p: set<PeerId>, q: set<PeerId>)
    requires Reaches(moves, s) && Did(s.log, HOST, Opened(id, p)) && Did(s.log, HOST, Opened(id, q))
    ensures p == q && id != 0
  {
    HostEndsOnce(moves, s, 1);
    var i := HostDid(s.log, Opened(id, p));
    var j := HostDid(s.log, Opened(id, q));
    assert i == j;
  }

  // ---- the holds behind a start ----

  /** What one node was called with. */
  function CallsOf(moves: seq<Move>, who: PeerId): seq<Call> {
    if moves == [] then []
    else
      var k := |moves| - 1;
      CallsOf(moves[..k], who) + if moves[k].who == who then [moves[k].call] else []
  }

  lemma RunPush(calls: seq<Call>, call: Call)
    ensures RunFrom(IDLE_NODE, calls + [call]).node == Do(RunFrom(IDLE_NODE, calls).node, call).node
  {
    hide Do;
    assert (calls + [call])[..|calls|] == calls;
  }

  /** Each side of a lobby is a run of that node on its own. */
  lemma {:induction false} SideIsARun(moves: seq<Move>, s: Lobby, who: PeerId)
    requires Reaches(moves, s) && who in s.nodes
    ensures s.nodes[who] == RunFrom(IDLE_NODE, CallsOf(moves, who)).node
    decreases |moves|
  {
    hide Do, RunFrom, Sent, PressFits;
    if moves == [] {
      RunOfNothing();
    } else {
      var k := |moves| - 1;
      var before: Lobby :| Reaches(moves[..k], before) && Enabled(before, moves[k]) && s == Next(before, moves[k]);
      SideIsARun(moves[..k], before, who);
      RunPush(CallsOf(moves[..k], who), moves[k].call);
      assert CallsOf(moves[..k], who) + [] == CallsOf(moves[..k], who);
    }
  }

  lemma RunOfNothing()
    ensures RunFrom(IDLE_NODE, []).node == IDLE_NODE
  {}

  /** For at least a second Down was held at every frame, all within request `id`. */
  ghost predicate HeldThrough(calls: seq<Call>, id: nat) {
    exists j, k :: 0 <= j < k < |calls| && HeldBetween(calls, j, k, id)
  }

  ghost predicate HeldBetween(calls: seq<Call>, j: nat, k: nat, id: nat)
    requires j < k < |calls|
  {
    && calls[j].Frame? && calls[k].Frame? && calls[j].env.now + SECOND <= calls[k].env.now
    && forall i :: j <= i <= k && calls[i].Frame? ==> SawDown(NodeAt(calls, i), id)
  }

  lemma HeldAt(calls: seq<Call>, k: nat, id: nat)
    requires k < |calls| && HeldDown(id) in Do(NodeAt(calls, k), calls[k]).effects
    ensures HeldThrough(calls, id)
  {
    hide Do, NodeAt, SawDown;
    HeldDownAtFrame(NodeAt(calls, k), calls[k], id);
    HeldForASecond(calls, k, id);
    var j :| 0 <= j < k && calls[j].Frame? && calls[j].env.now + SECOND <= calls[k].env.now &&
      forall i :: j <= i <= k && calls[i].Frame? ==> SawDown(NodeAt(calls, i), id);
    assert HeldBetween(calls, j, k, id);
  }

  lemma HeldStays(calls: seq<Call>, more: seq<Call>, id: nat)
    requires HeldThrough(calls, id)
    ensures HeldThrough(calls + more, id)
  {
    hide RunFrom, SawDown;
    var j, k :| 0 <= j < k < |calls| && HeldBetween(calls, j, k, id);
    forall i | j <= i <= k && (calls + more)[i].Frame? ensures SawDown(NodeAt(calls + more, i), id) {
      assert (calls + more)[..i] == calls[..i];
      assert SawDown(NodeAt(calls, i), id);
    }
    assert HeldBetween(calls + more, j, k, id);
  }

  /** Whoever is on record as having held Down did hold it through. */
  lemma {:induction false} RecordedHold(moves: seq<Move>, s: Lobby, who: PeerId, id: nat)
    requires Reaches(moves, s) && Did(s.log, who, HeldDown(id))
    ensures HeldThrough(CallsOf(moves, who), id)
    decreases |moves|
  {
    hide Do, RunFrom, Sent, PressFits, HeldThrough;
    if moves != [] {
      var k := |moves| - 1;
      var move := moves[k];
      var before: Lobby :| Reaches(moves[..k], before) && Enabled(before, move) && s == Next(before, move);
      var calls := CallsOf(moves[..k], who);
      assert calls + [] == calls;
      if Did(before.log, who, HeldDown(id)) {
        RecordedHold(moves[..k], before, who, id);
        HeldStays(calls, [move.call], id);
      } else {
        DidJustNow(before, move, who, HeldDown(id));
        SideIsARun(moves[..k], before, who);
        assert (calls + [move.call])[..|calls|] == calls;
        HeldAt(calls + [move.call], |calls|, id);
      }
    }
  }

  lemma DidJustNow(before: Lobby, move: Move, who: PeerId, e: Effect)
    requires move.who in before.nodes && !Did(before.log, who, e) && Did(Next(before, move).log, who, e)
    ensures move.who == who && e in Do(before.nodes[who], move.call).effects
  {
    hide Do;
    var effects := Do(before.nodes[move.who], move.call).effects;
    var log := Grow(before.log, move.who, effects);
    var i :| 0 <= i < |log| && log[i] == Entry(who, e);
    assert forall x :: 0 <= x < |before.log| ==> log[x] == before.log[x];
    assert log[i] == Entries(move.who, effects)[i - |before.log|];
  }

  /** When the host commits or a guest starts request `id`, the request had been opened for one set of participants;
      each of them and the host had had a clear save probe for `id` and had held Down for it, at every frame of at
      least a second; and the host had tried to announce the start. */
  lemma EverybodyWasReady(moves: seq<Move>, s: Lobby, who: PeerId, id: nat) returns (participants: set<PeerId>)
    requires Reaches(moves, s) && Did(s.log, who, Ran(id))
    ensures Did(s.log, HOST, Opened(id, participants)) && AllReady(s.log, id, participants)
    ensures forall p :: p == HOST || p in participants ==> HeldThrough(CallsOf(moves, p), id)
    ensures forall q :: Did(s.log, HOST, Opened(id, q)) ==> q == participants
    ensures Safety.Announced(s.log, id)
  {
    hide Reaches, Did, HeldThrough;
    Safety.NobodyStartsEarly(moves, s, who, id);
    Safety.GuestsFollowHost(moves, s, who, id);
    participants :| Did(s.log, HOST, Opened(id, participants)) && AllReady(s.log, id, participants);
    forall p | p == HOST || p in participants ensures HeldThrough(CallsOf(moves, p), id) {
      RecordedHold(moves, s, p, id);
    }
    forall q | Did(s.log, HOST, Opened(id, q)) ensures q == participants {
      OneOpening(moves, s, id, q, participants);
    }
  }
}
