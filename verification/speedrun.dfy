/** One player's side of the speedrun start protocol, as values: a node and what each call does to it. */
module SpeedrunModel {
  import opened Common

  type PeerId = nat
  const UINT32 := 0x1_0000_0000
  const UINT64 := 0x1_0000_0000_0000_0000
  const SECOND := 1000

  datatype Phase = Idle | CheckingSaves | WaitingReady | Countdown

  datatype Kind = Check | Ready | Prompt | PlayerReady | ReadyCount | CountdownStarts | Cancel | Start | Reset

  /** A JSON message: absent and mistyped fields read as `None`. */
  datatype Message = Message(kind: Kind, id: Option<nat>, ready: Option<bool>,
                             readyCount: Option<nat>, playerCount: Option<nat>)

  datatype Destination = Everyone | Only(peer: PeerId)

  datatype Probe = Pending | Clear | Occupied | Error

  /** `Guest(owner)` hears the lobby owner as `owner`; `Other` is a node without a usable lobby. */
  datatype Role = Host | Guest(owner: PeerId) | Other

  /** What a call finds in its surroundings: the clock, the lobby, the game, and which sends the transport refuses. */
  datatype Env = Env(now: nat, role: Role, peers: set<PeerId>, reliable: set<PeerId>, modeActive: bool,
                     canStart: bool, probe: Probe, seed: nat, refused: set<Kind>, refusedChecks: set<PeerId>)

  /** Times are milliseconds; 0 is the unset time point. */
  datatype Node = Node(phase: Phase, sequence: nat, requestId: nat, peerRequestId: nat,
                       waiting: set<PeerId>, participants: set<PeerId>, readyPeers: set<PeerId>,
                       localReady: bool, peerReady: bool, localPlayerReady: bool, downHeld: bool,
                       readyCount: nat, readyTotal: nat, checksSent: bool,
                       deadline: nat, holdStart: nat, countdownAt: nat, resetAt: nat)

  const IDLE_NODE := Node(Idle, 0, 0, 0, {}, {}, {}, false, false, false, false, 0, 0, false, 0, 0, 0, 0)

  /** What a call leaves behind: sends and whether they were accepted, a request opened for some participants,
      a clear save probe, a completed hold of the Down button, a run of the game started. */
  datatype Effect =
    | Tried(to: Destination, message: Message, ok: bool)
    | Opened(id: nat, participants: set<PeerId>)
    | ProbedClear(id: nat)
    | HeldDown(id: nat)
    | Ran(id: nat)

  datatype Reply = Reply(node: Node, effects: seq<Effect>)

  function Plain(kind: Kind, id: nat): Message { Message(kind, Some(id), None, None, None) }

  function Counts(id: nat, count: nat, total: nat): Message {
    Message(ReadyCount, Some(id), None, Some(count), Some(total))
  }

  function Asked(id: nat, total: nat): Message { Message(Prompt, Some(id), None, None, Some(total)) }

  function Answer(kind: Kind, id: nat, ready: bool): Message { Message(kind, Some(id), Some(ready), None, None) }

  function Broadcast(env: Env, m: Message): Effect { Tried(Everyone, m, m.kind !in env.refused) }

  /** A guest's message to the owner of the lobby. */
  function ToOwner(env: Env, m: Message): Effect {
    Tried(Only(if env.role.Guest? then env.role.owner else 0), m, m.kind !in env.refused)
  }

  function Cleared(n: Node): Node {
    IDLE_NODE.(sequence := n.sequence, resetAt := n.resetAt)
  }

  function CancelStart(n: Node, env: Env): Reply {
    Reply(Cleared(n), if n.requestId != 0 then [Broadcast(env, Plain(Cancel, n.requestId))] else [])
  }

  /** `a` followed by what `r` does. */
  function After(a: seq<Effect>, r: Reply): Reply { Reply(r.node, a + r.effects) }

  function BeginReady(n: Node, env: Env): Reply {
    if n.requestId == 0 || n.phase != CheckingSaves || !n.localReady || n.waiting != {} then Reply(n, [])
    else
      var total := (|n.participants| + 1) % UINT32;
      var asked := n.(readyTotal := total, readyCount := 0);
      var sent := Broadcast(env, Asked(n.requestId, total));
      if !sent.ok then After([sent], CancelStart(asked, env))
      else Reply(asked.(phase := WaitingReady), [sent])
  }

  function BeginCountdown(n: Node, env: Env): Reply {
    if n.requestId == 0 || n.phase != WaitingReady || n.readyCount != n.readyTotal then Reply(n, [])
    else
      var sent := Broadcast(env, Plain(CountdownStarts, n.requestId));
      if !sent.ok then After([sent], CancelStart(n, env))
      else Reply(n.(phase := Countdown, countdownAt := env.now + 3 * SECOND), [sent])
  }

  /** The host tells everybody how many are ready and, when all are, starts the countdown. */
  function AnnounceCount(n: Node, env: Env): Reply {
    var sent := Broadcast(env, Counts(n.requestId, n.readyCount, n.readyTotal));
    if !sent.ok then After([sent], CancelStart(n, env))
    else After([sent], BeginCountdown(n, env))
  }

  function NextId(n: Node, env: Env): nat {
    ((if n.sequence == 0 then env.seed else n.sequence) + 1) % UINT64
  }

  function StartPressed(n: Node, env: Env): Reply {
    if !env.modeActive || !env.role.Host? || !env.canStart || n.requestId != 0 then Reply(n, [])
    else if !(env.peers <= env.reliable) then Reply(n, [])
    else
      var id := NextId(n, env);
      Reply(Cleared(n).(sequence := id, requestId := id, phase := CheckingSaves, deadline := env.now + 10 * SECOND,
                        participants := env.peers, waiting := env.peers),
            [Opened(id, env.peers)])
  }

  function ResetPressed(n: Node, env: Env): Reply {
    if !env.modeActive || !env.role.Host? || !(env.peers <= env.reliable) then Reply(n, [])
    else
      var sent := Broadcast(env, Message(Reset, None, None, None, None));
      if !sent.ok then Reply(n, [sent])
      else Reply(Cleared(n).(resetAt := env.now + 500), [sent])
  }

  /** What the pad handler stores before each frame. */
  function ReadInput(n: Node, down: bool): Node {
    n.(downHeld := n.phase == WaitingReady && !n.localPlayerReady && down)
  }

  function Commit(n: Node, env: Env): Reply {
    if n.phase != Countdown || !n.localReady || !n.localPlayerReady || n.readyCount != n.readyTotal ||
       n.waiting != {} || !env.modeActive || !env.canStart || |n.participants| != |env.peers|
    then CancelStart(n, env)
    else
      var sent := Broadcast(env, Plain(Start, n.requestId));
      if !sent.ok then After([sent], CancelStart(n, env))
      else Reply(Cleared(n), [sent, Ran(n.requestId)])
  }

  predicate CheckAccepted(env: Env, p: PeerId) {
    p in env.reliable && p !in env.refusedChecks
  }

  /** Checks go out in the order of peer ids until one cannot be sent. */
  function Checks(rest: set<PeerId>, id: nat, env: Env): seq<Effect>
    decreases |rest|
  {
    if rest == {} then []
    else
      var p := Smallest(rest);
      if p !in env.reliable then []
      else if p in env.refusedChecks then [Tried(Only(p), Plain(Check, id), false)]
      else [Tried(Only(p), Plain(Check, id), true)] + Checks(rest - {p}, id, env)
  }

  /** Sends the checks unless they are out already, and opens the prompt when nobody is waited for. */
  function CheckPeers(n: Node, env: Env): Reply {
    if n.checksSent then
      if n.waiting == {} then BeginReady(n, env) else Reply(n, [])
    else
      var checks := Checks(n.participants, n.requestId, env);
      if exists p :: p in n.participants && !CheckAccepted(env, p) then After(checks, CancelStart(n, env))
      else
        var sent := n.(checksSent := true);
        After(checks, if n.waiting == {} then BeginReady(sent, env) else Reply(sent, []))
  }

  /** The host's save check: its own probe first, then everybody else's. */
  function TickHostCheck(n: Node, env: Env): Reply {
    if n.localReady then CheckPeers(n, env)
    else if env.probe.Pending? then Reply(n, [])
    else if !env.probe.Clear? then CancelStart(n, env)
    else After([ProbedClear(n.requestId)], CheckPeers(n.(localReady := true), env))
  }

  /** A guest answers the save check once its probe is done. */
  function TickGuestCheck(n: Node, env: Env): Reply {
    if n.peerRequestId == 0 || n.peerReady || env.probe.Pending? then Reply(n, [])
    else
      var ready := env.probe.Clear?;
      var probed := if ready then [ProbedClear(n.peerRequestId)] else [];
      var sent := ToOwner(env, Answer(Ready, n.peerRequestId, ready));
      if !sent.ok || !ready then Reply(Cleared(n), probed + [sent])
      else Reply(n.(peerReady := true), probed + [sent])
  }

  function CurrentId(n: Node): nat { if n.requestId != 0 then n.requestId else n.peerRequestId }

  /** Down has to be seen at every tick for a second. */
  function TickHold(n: Node, env: Env): Reply {
    if n.localPlayerReady then Reply(n, [])
    else if !n.downHeld then Reply(n.(holdStart := 0), [])
    else
      var held := if n.holdStart == 0 then n.(holdStart := env.now) else n;
      if env.now < held.holdStart + SECOND then Reply(held, [])
      else
        TellReady(held.(localPlayerReady := true, holdStart := 0), env)
  }

  /** The hold is complete: the host counts itself in, a guest tells the host. */
  function TellReady(n: Node, env: Env): Reply {
    if n.requestId != 0 then
      After([HeldDown(n.requestId)], AnnounceCount(n.(readyCount := (|n.readyPeers| + 1) % UINT32), env))
    else
      var sent := ToOwner(env, Plain(PlayerReady, n.peerRequestId));
      Reply(if sent.ok then n else Cleared(n), [HeldDown(n.peerRequestId), sent])
  }

  function Tick(n: Node, env: Env): Reply {
    if n.resetAt != 0 then Reply(if env.now >= n.resetAt then n.(resetAt := 0) else n, [])
    else if n.phase == Idle then Reply(n, [])
    else if !env.modeActive then CancelStart(n, env)
    else if n.phase == Countdown then
      if n.requestId != 0 && env.now >= n.countdownAt then Commit(n, env)
      else if n.peerRequestId != 0 && env.now >= n.countdownAt + 10 * SECOND then Reply(Cleared(n), [])
      else Reply(n, [])
    else if n.phase == WaitingReady then TickHold(n, env)
    else if env.now > n.deadline then CancelStart(n, env)
    else if n.requestId != 0 then TickHostCheck(n, env)
    else TickGuestCheck(n, env)
  }

  function Hear(n: Node, sender: PeerId, m: Message, env: Env): Reply {
    var fromOwner := env.role.Guest? && sender == env.role.owner;
    if m.kind == Reset then
      if fromOwner && env.modeActive then Reply(Cleared(n).(resetAt := env.now + 500), []) else Reply(n, [])
    else if m.id.None? || m.id.value == 0 then Reply(n, [])
    else if m.kind == Check then HearCheck(n, fromOwner, m.id.value, env)
    else if m.kind == Ready then HearReady(n, sender, m, env)
    else if m.kind == PlayerReady then HearPlayerReady(n, sender, m, env)
    else if !fromOwner || m.id.value != n.peerRequestId then Reply(n, [])
    else HearOwner(n, m, env)
  }

  /** A message of the owner about the request this node takes part in. */
  function HearOwner(n: Node, m: Message, env: Env): Reply
    requires m.id.Some?
  {
    match m.kind
    case Prompt => HearPrompt(n, m, env)
    case ReadyCount =>
      if n.phase != WaitingReady || m.readyCount.None? || m.playerCount.None? ||
         m.playerCount.value % UINT32 != n.readyTotal || m.readyCount.value % UINT32 > n.readyTotal
      then Reply(n, [])
      else Reply(n.(readyCount := m.readyCount.value % UINT32), [])
    case CountdownStarts =>
      if n.phase != WaitingReady || !n.localPlayerReady then Reply(n, [])
      else Reply(n.(readyCount := n.readyTotal, phase := Countdown, countdownAt := env.now + 3 * SECOND), [])
    case Cancel => Reply(Cleared(n), [])
    case Start =>
      if !n.peerReady || n.phase != Countdown || !n.localPlayerReady then Reply(n, [])
      else Reply(Cleared(n), [Ran(m.id.value)])
    case _ => Reply(n, [])
  }

  function HearCheck(n: Node, fromOwner: bool, id: nat, env: Env): Reply {
    if !fromOwner || n.requestId != 0 then Reply(n, [])
    else Reply(Cleared(n).(peerRequestId := id, phase := CheckingSaves, deadline := env.now + 15 * SECOND), [])
  }

  function HearReady(n: Node, sender: PeerId, m: Message, env: Env): Reply
    requires m.id.Some?
  {
    if !env.role.Host? || m.id.value != n.requestId || sender !in n.waiting || m.ready.None? then Reply(n, [])
    else if !m.ready.value then CancelStart(n, env)
    else
      var fewer := n.(waiting := n.waiting - {sender});
      if fewer.localReady && fewer.waiting == {} then BeginReady(fewer, env) else Reply(fewer, [])
  }

  function HearPlayerReady(n: Node, sender: PeerId, m: Message, env: Env): Reply
    requires m.id.Some?
  {
    if !env.role.Host? || m.id.value != n.requestId || n.phase != WaitingReady || sender !in n.participants
    then Reply(n, [])
    else if m.ready == Some(false) then CancelStart(n, env)
    else if sender in n.readyPeers then Reply(n, [])
    else
      var more := n.readyPeers + {sender};
      AnnounceCount(n.(readyPeers := more,
                       readyCount := (|more| + if n.localPlayerReady then 1 else 0) % UINT32), env)
  }

  function HearPrompt(n: Node, m: Message, env: Env): Reply
    requires m.id.Some?
  {
    if n.phase != CheckingSaves || !n.peerReady || m.playerCount.None? ||
       m.playerCount.value % UINT32 < 1 || m.playerCount.value % UINT32 > 8
    then Reply(n, [])
    else if !env.modeActive || !env.canStart then
      Reply(Cleared(n), [ToOwner(env, Answer(PlayerReady, m.id.value, false))])
    else Reply(n.(readyTotal := m.playerCount.value % UINT32, readyCount := 0, phase := WaitingReady), [])
  }

  function PeerLeft(n: Node, p: PeerId, env: Env): Reply {
    if n.requestId != 0 && p in n.participants then CancelStart(n, env) else Reply(n, [])
  }

  function PeerJoined(n: Node, env: Env): Reply {
    if n.requestId != 0 then CancelStart(n, env) else Reply(n, [])
  }

  function OwnerChanged(n: Node): Node { if n.phase != Idle then Cleared(n) else n }

  function Disconnected(n: Node): Node { Cleared(n).(resetAt := 0) }

  // ---- calls ----

  datatype Call =
    | Press(env: Env)
    | PressReset(env: Env)
    | Input(down: bool)
    | Frame(env: Env)
    | Deliver(sender: PeerId, message: Message, env: Env)
    | Left(peer: PeerId, env: Env)
    | Joined(env: Env)
    | NewOwner
    | Dropped

  function Do(n: Node, call: Call): Reply {
    match call
    case Press(env) => StartPressed(n, env)
    case PressReset(env) => ResetPressed(n, env)
    case Input(down) => Reply(ReadInput(n, down), [])
    case Frame(env) => Tick(n, env)
    case Deliver(sender, m, env) => Hear(n, sender, m, env)
    case Left(p, env) => PeerLeft(n, p, env)
    case Joined(env) => PeerJoined(n, env)
    case NewOwner => Reply(OwnerChanged(n), [])
    case Dropped => Reply(Disconnected(n), [])
  }
}
