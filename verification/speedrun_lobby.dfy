/** A lobby: one fixed host, its guests, and everything that was ever done. The network may lose, delay, reorder
    and duplicate messages, and even deliver one whose send was reported as failed; it does not forge any. */
module SpeedrunLobby {
  import opened Common
  import opened SpeedrunModel

  const HOST: PeerId := 0

  datatype Entry = Entry(who: PeerId, effect: Effect)
  datatype Lobby = Lobby(nodes: map<PeerId, Node>, log: seq<Entry>)
  datatype Move = Move(who: PeerId, call: Call)

  function RoleOf(who: PeerId): Role { if who == HOST then Host else Guest(HOST) }

  function EnvOf(call: Call): Option<Env> {
    match call
    case Press(env) => Some(env)
    case PressReset(env) => Some(env)
    case Frame(env) => Some(env)
    case Deliver(_, _, env) => Some(env)
    case Left(_, env) => Some(env)
    case Joined(env) => Some(env)
    case Input(_) => None
    case NewOwner => None
    case Dropped => None
  }

  /** The message was handed to the transport by `sender` for `who`, at some time. */
  predicate Sent(log: seq<Entry>, sender: PeerId, who: PeerId, m: Message) {
    exists i :: 0 <= i < |log| && log[i].who == sender && log[i].effect.Tried? && log[i].effect.message == m &&
      (log[i].effect.to == Everyone || log[i].effect.to == Only(who))
  }

  /** The 64-bit request counter does not overflow, and the peers fit a 32-bit count. */
  predicate PressFits(n: Node, env: Env) {
    (if n.sequence == 0 then env.seed else n.sequence) + 1 < UINT64 && |env.peers| + 1 < UINT32
  }

  /** What can happen next; the owner of the lobby does not change. */
  predicate Enabled(s: Lobby, move: Move) {
    && move.who in s.nodes
    && !move.call.NewOwner?
    && (EnvOf(move.call).Some? ==> EnvOf(move.call).value.role == RoleOf(move.who))
    && (move.call.Press? ==> PressFits(s.nodes[move.who], move.call.env))
    && (move.call.Deliver? ==> Sent(s.log, move.call.sender, move.who, move.call.message))
  }

  function Entries(who: PeerId, effects: seq<Effect>): (r: seq<Entry>)
    ensures |r| == |effects|
    ensures forall i :: 0 <= i < |effects| ==> r[i] == Entry(who, effects[i])
  {
    seq(|effects|, i requires 0 <= i < |effects| => Entry(who, effects[i]))
  }

  function Grow(log: seq<Entry>, who: PeerId, effects: seq<Effect>): seq<Entry> { log + Entries(who, effects) }

  function Next(s: Lobby, move: Move): Lobby
    requires move.who in s.nodes
  {
    var r := Do(s.nodes[move.who], move.call);
    Lobby(s.nodes[move.who := r.node], Grow(s.log, move.who, r.effects))
  }

  /** `s` is reached by `moves` from a lobby of fresh nodes. */
  ghost predicate Reaches(moves: seq<Move>, s: Lobby)
    decreases |moves|
  {
    if moves == [] then
      HOST in s.nodes && s.log == [] && forall who :: who in s.nodes ==> s.nodes[who] == IDLE_NODE
    else
      var n := |moves| - 1;
      exists before: Lobby :: Reaches(moves[..n], before) && Enabled(before, moves[n]) && s == Next(before, moves[n])
  }

  predicate Did(log: seq<Entry>, who: PeerId, effect: Effect) { Entry(who, effect) in log }

  /** Host and participants have all had a clear probe for `id` and held Down for it. */
  ghost predicate AllReady(log: seq<Entry>, id: nat, participants: set<PeerId>) {
    && Did(log, HOST, ProbedClear(id)) && Did(log, HOST, HeldDown(id))
    && forall p :: p in participants ==> Did(log, p, ProbedClear(id)) && Did(log, p, HeldDown(id))
  }

  /** Request `id` was opened for participants who were then all ready. */
  ghost predicate Backed(log: seq<Entry>, id: nat) {
    exists participants: set<PeerId> :: Did(log, HOST, Opened(id, participants)) && AllReady(log, id, participants)
  }

  lemma DidNow(log: seq<Entry>, who: PeerId, effects: seq<Effect>, k: nat)
    requires k < |effects|
    ensures Did(Grow(log, who, effects), who, effects[k])
  {
    assert Entries(who, effects)[k] == Entry(who, effects[k]);
  }

  lemma BackedGrows(log: seq<Entry>, more: seq<Entry>, id: nat)
    requires Backed(log, id)
    ensures Backed(log + more, id)
  {
    var participants: set<PeerId> :| Did(log, HOST, Opened(id, participants)) && AllReady(log, id, participants);
    assert Did(log + more, HOST, Opened(id, participants)) && AllReady(log + more, id, participants);
  }

  lemma GrowAppend(log: seq<Entry>, who: PeerId, a: seq<Effect>, b: seq<Effect>)
    ensures Grow(Grow(log, who, a), who, b) == Grow(log, who, a + b)
  {
    assert Entries(who, a) + Entries(who, b) == Entries(who, a + b);
  }
}
