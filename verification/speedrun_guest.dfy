/** When a guest's request ends, when each part of it changes, and what the guest does, over all calls at once; and the
    same for a node without a request. */
module SpeedrunGuest {
  import opened Common
  import opened SpeedrunModel
  import opened SpeedrunLobby
  import opened SpeedrunCancel
  import opened SpeedrunHost

  // ---- a guest with a request ----

  predicate TakesPart(n: Node, call: Call) {
    && n.requestId == 0 && n.peerRequestId != 0 && n.phase != Idle
    && (EnvOf(call).Some? ==> EnvOf(call).value.role.Guest?)
  }

  /** The owner of the lobby says something. */
  predicate OwnerSays(call: Call, kind: Kind) {
    call.Deliver? && call.message.kind == kind && call.env.role == Guest(call.sender)
  }

  /** And about the request this node takes part in. */
  predicate OwnerTells(n: Node, call: Call, kind: Kind) {
    OwnerSays(call, kind) && call.message.id == Some(n.peerRequestId)
  }

  /** The save check is done. */
  predicate CheckDone(n: Node, call: Call) {
    Attends(n, call, CheckingSaves) && call.env.now <= n.deadline && !n.peerReady && !call.env.probe.Pending?
  }

  predicate IsFree(n: Node, call: Call) { CheckDone(n, call) && call.env.probe.Clear? }

  /** Ten seconds after the countdown no start has come. */
  predicate CountdownLost(n: Node, call: Call) { Attends(n, call, Countdown) && call.env.now >= n.countdownAt + 10000 }

  predicate StartHeard(n: Node, call: Call) {
    OwnerTells(n, call, Start) && n.peerReady && n.phase == Countdown && n.localPlayerReady
  }

  /** A prompt for one to eight players. */
  predicate Prompted(n: Node, call: Call) {
    && OwnerTells(n, call, Prompt) && n.phase == CheckingSaves && n.peerReady
    && call.message.playerCount.Some? && 1 <= call.message.playerCount.value % UINT32 <= 8
  }

  predicate Declines(n: Node, call: Call) { Prompted(n, call) && (!call.env.modeActive || !call.env.canStart) }

  predicate Accepts(n: Node, call: Call) { Prompted(n, call) && call.env.modeActive && call.env.canStart }

  predicate CountShown(n: Node, call: Call) {
    && OwnerTells(n, call, ReadyCount) && n.phase == WaitingReady
    && call.message.readyCount.Some? && call.message.playerCount.Some?
    && call.message.playerCount.value % UINT32 == n.readyTotal
    && call.message.readyCount.value % UINT32 <= n.readyTotal
  }

  predicate CountsDown(n: Node, call: Call) {
    OwnerTells(n, call, CountdownStarts) && n.phase == WaitingReady && n.localPlayerReady
  }

  predicate ChecksAnew(call: Call) { OwnerSays(call, Check) && call.message.id.Some? && call.message.id.value != 0 }

  predicate ResetHeard(call: Call) { OwnerSays(call, Reset) && call.env.modeActive }

  /** The request ends, and nothing of it is left. */
  predicate GuestEnds(n: Node, call: Call) {
    || TimesOut(n, call) || (CheckDone(n, call) && (!call.env.probe.Clear? || Refused(call, Ready)))
    || (HoldDone(n, call) && Refused(call, PlayerReady)) || CountdownLost(n, call)
    || OwnerTells(n, call, Cancel) || StartHeard(n, call) || Declines(n, call) || ResetHeard(call)
    || call.NewOwner? || call.Dropped?
  }

  predicate GuestOver(n: Node, call: Call, n': Node) {
    && Free(n') && n'.sequence == n.sequence
    && n'.resetAt == (if ResetHeard(call) then call.env.now + 500 else if call.Dropped? then 0 else n.resetAt)
  }

  /** A new request takes the place of what was there. */
  predicate TakenUp(n: Node, call: Call, n': Node) {
    && ChecksAnew(call)
    && n' == IDLE_NODE.(sequence := n.sequence, resetAt := n.resetAt, peerRequestId := call.message.id.value,
                        phase := CheckingSaves, deadline := call.env.now + 15000)
  }

  /** While the request goes on, each part of it changes exactly at these calls. */
  predicate GuestGoesOn(n: Node, call: Call, n': Node) {
    && n'.requestId == 0 && n'.peerRequestId == n.peerRequestId && n'.sequence == n.sequence
    && n'.participants == n.participants && n'.waiting == n.waiting && n'.readyPeers == n.readyPeers
    && n'.localReady == n.localReady && n'.checksSent == n.checksSent && n'.deadline == n.deadline
    && n'.peerReady == (n.peerReady || IsFree(n, call))
    && n'.localPlayerReady == (n.localPlayerReady || HoldDone(n, call))
    && n'.phase == (if Accepts(n, call) then WaitingReady else if CountsDown(n, call) then Countdown else n.phase)
    && n'.readyTotal == (if Accepts(n, call) then call.message.playerCount.value % UINT32 else n.readyTotal)
    && n'.readyCount == (if Accepts(n, call) then 0
                         else if CountShown(n, call) then call.message.readyCount.value % UINT32
                         else if CountsDown(n, call) then n.readyTotal else n.readyCount)
    && n'.countdownAt == (if CountsDown(n, call) then call.env.now + 3000 else n.countdownAt)
    && n'.downHeld == (if call.Input? then call.down && n.phase == WaitingReady && !n.localPlayerReady else n.downHeld)
    && n'.resetAt == (if call.Frame? && n.resetAt <= call.env.now then 0 else n.resetAt)
  }

  predicate GuestAsSaid(n: Node, call: Call, n': Node) {
    if GuestEnds(n, call) then GuestOver(n, call, n')
    else if ChecksAnew(call) then TakenUp(n, call, n') else GuestGoesOn(n, call, n')
  }

  function ToHost(call: Call, m: Message): Effect
    requires EnvOf(call).Some?
  {
    var env := EnvOf(call).value;
    Tried(Only(if env.role.Guest? then env.role.owner else 0), m, !Refused(call, m.kind))
  }

  /** What a guest does at a call, in order. */
  function GuestSays(n: Node, call: Call): seq<Effect> {
    var id := n.peerRequestId;
    If(IsFree(n, call), ProbedClear(id)) +
    (if CheckDone(n, call) then [ToHost(call, Message(Ready, Some(id), Some(IsFree(n, call)), None, None))] else []) +
    (if HoldDone(n, call) then [HeldDown(id), ToHost(call, Tells(PlayerReady, id))] else []) +
    (if Declines(n, call) then [ToHost(call, Message(PlayerReady, Some(id), Some(false), None, None))] else []) +
    If(StartHeard(n, call), Ran(id))
  }

  lemma AtCheck(n: Node, env: Env)
    requires TakesPart(n, Frame(env)) && n.resetAt == 0 && env.modeActive && n.phase == CheckingSaves
    requires env.now <= n.deadline
    ensures GuestAsSaid(n, Frame(env), TickGuestCheck(n, env).node)
    ensures TickGuestCheck(n, env).effects == GuestSays(n, Frame(env))
  {}

  lemma AtHold(n: Node, env: Env)
    requires TakesPart(n, Frame(env)) && n.resetAt == 0 && env.modeActive && n.phase == WaitingReady
    ensures GuestAsSaid(n, Frame(env), TickHold(n, env).node)
    ensures TickHold(n, env).effects == GuestSays(n, Frame(env))
  {
    hide AnnounceCount;
  }

  lemma AtFrame(n: Node, env: Env)
    requires TakesPart(n, Frame(env))
    ensures GuestAsSaid(n, Frame(env), Tick(n, env).node) && Tick(n, env).effects == GuestSays(n, Frame(env))
  {
    hide TickHostCheck, TickGuestCheck, TickHold, Commit;
    if n.resetAt == 0 && env.modeActive {
      if n.phase == CheckingSaves && env.now <= n.deadline { AtCheck(n, env); }
      if n.phase == WaitingReady { AtHold(n, env); }
    }
  }

  /** At a delivery the frame's business rests. */
  lemma OfMessage(n: Node, call: Call)
    requires call.Deliver?
    ensures !TimesOut(n, call) && !CheckDone(n, call) && !IsFree(n, call)
    ensures !HoldDone(n, call) && !CountdownLost(n, call)
    ensures GuestEnds(n, call) <==>
            OwnerTells(n, call, Cancel) || StartHeard(n, call) || Declines(n, call) || ResetHeard(call)
    ensures GuestSays(n, call) ==
            (if Declines(n, call) then
               [ToHost(call, Message(PlayerReady, Some(n.peerRequestId), Some(false), None, None))] else []) +
            If(StartHeard(n, call), Ran(n.peerRequestId))
  {
    hide StartHeard, Declines, ResetHeard, OwnerTells;
  }

  lemma AtPrompt(n: Node, m: Message, env: Env)
    requires env.role.Guest? && TakesPart(n, Deliver(env.role.owner, m, env))
    requires m.id == Some(n.peerRequestId) && m.kind == Prompt
    ensures GuestAsSaid(n, Deliver(env.role.owner, m, env), HearPrompt(n, m, env).node)
    ensures HearPrompt(n, m, env).effects == GuestSays(n, Deliver(env.role.owner, m, env))
  {
    hide TimesOut, CheckDone, IsFree, HoldDone, CountdownLost, GuestEnds, GuestSays;
    OfMessage(n, Deliver(env.role.owner, m, env));
  }

  lemma AtEnd(n: Node, m: Message, env: Env)
    requires env.role.Guest? && TakesPart(n, Deliver(env.role.owner, m, env)) && m.id == Some(n.peerRequestId)
    requires m.kind == Cancel || m.kind == Start
    ensures GuestAsSaid(n, Deliver(env.role.owner, m, env), HearOwner(n, m, env).node)
    ensures HearOwner(n, m, env).effects == GuestSays(n, Deliver(env.role.owner, m, env))
  {
    hide TimesOut, CheckDone, IsFree, HoldDone, CountdownLost, GuestEnds, GuestSays, HearPrompt;
    OfMessage(n, Deliver(env.role.owner, m, env));
  }

  lemma AtCount(n: Node, m: Message, env: Env)
    requires env.role.Guest? && TakesPart(n, Deliver(env.role.owner, m, env)) && m.id == Some(n.peerRequestId)
    requires m.kind == ReadyCount || m.kind == CountdownStarts
    ensures GuestAsSaid(n, Deliver(env.role.owner, m, env), HearOwner(n, m, env).node)
    ensures HearOwner(n, m, env).effects == GuestSays(n, Deliver(env.role.owner, m, env))
  {
    hide TimesOut, CheckDone, IsFree, HoldDone, CountdownLost, GuestEnds, GuestSays, HearPrompt, Cleared;
    OfMessage(n, Deliver(env.role.owner, m, env));
  }

  lemma AtOthers(n: Node, sender: PeerId, m: Message, env: Env)
    requires TakesPart(n, Deliver(sender, m, env))
    requires sender != env.role.owner || m.id != Some(n.peerRequestId) || m.kind == Check || m.kind == Ready ||
             m.kind == PlayerReady || m.kind == Reset
    ensures GuestAsSaid(n, Deliver(sender, m, env), Hear(n, sender, m, env).node)
    ensures Hear(n, sender, m, env).effects == GuestSays(n, Deliver(sender, m, env))
  {
    hide HearReady, HearPlayerReady, HearOwner, TimesOut, CheckDone, IsFree, HoldDone, CountdownLost, GuestEnds,
         GuestSays;
    OfMessage(n, Deliver(sender, m, env));
    if m.id.Some? { Ignores(n, sender, m, env); }
  }

  lemma Ignores(n: Node, sender: PeerId, m: Message, env: Env)
    requires env.role.Guest? && m.id.Some?
    ensures HearReady(n, sender, m, env) == HearPlayerReady(n, sender, m, env) == Reply(n, [])
  {}

  lemma FromTheOwner(n: Node, m: Message, env: Env)
    requires env.role.Guest? && m.id.Some? && m.id.value == n.peerRequestId != 0
    requires m.kind != Check && m.kind != Ready && m.kind != PlayerReady && m.kind != Reset
    ensures Hear(n, env.role.owner, m, env) == HearOwner(n, m, env)
    ensures m.kind == Prompt ==> HearOwner(n, m, env) == HearPrompt(n, m, env)
  {}

  lemma AtDelivery(n: Node, sender: PeerId, m: Message, env: Env)
    requires TakesPart(n, Deliver(sender, m, env))
    ensures GuestAsSaid(n, Deliver(sender, m, env), Hear(n, sender, m, env).node)
    ensures Hear(n, sender, m, env).effects == GuestSays(n, Deliver(sender, m, env))
  {
    hide Hear, HearOwner, HearPrompt, GuestAsSaid, GuestSays;
    if sender != env.role.owner || m.id != Some(n.peerRequestId) || m.kind == Check || m.kind == Ready ||
       m.kind == PlayerReady || m.kind == Reset {
      AtOthers(n, sender, m, env);
    } else {
      FromTheOwner(n, m, env);
      if m.kind == Prompt {
        AtPrompt(n, m, env);
      } else if m.kind == Cancel || m.kind == Start {
        AtEnd(n, m, env);
      } else {
        AtCount(n, m, env);
      }
    }
  }

  /** The request of a guest ends exactly if it times out, fails, is cancelled, declined, reset, started or dropped with
      the lobby, and then nothing of it is left; until then each part of it changes exactly at the calls above. */
  lemma GuestExactly(n: Node, call: Call)
    requires TakesPart(n, call)
    ensures GuestAsSaid(n, call, Do(n, call).node)
    ensures Do(n, call).effects == GuestSays(n, call)
  {
    hide Tick, Hear;
    match call
    case Frame(env) => AtFrame(n, env);
    case Deliver(sender, m, env) => AtDelivery(n, sender, m, env);
    case _ =>
  }

  // ---- a node without a request ----

  predicate Opens(call: Call) {
    call.Press? && call.env.modeActive && call.env.role == Host && call.env.canStart &&
    call.env.peers <= call.env.reliable
  }

  predicate HostResets(call: Call) { ResetsAll(call) && call.env.role == Host }

  /** A node without a request opens one, takes one up, or is reset; otherwise only the time of the reset runs out. */
  lemma FreeExactly(n: Node, call: Call)
    requires Free(n)
    ensures var r := Do(n, call);
            if Opens(call) then
              var id := ((if n.sequence == 0 then call.env.seed else n.sequence) + 1) % UINT64;
              && r.effects == [Opened(id, call.env.peers)]
              && r.node == n.(sequence := id, requestId := id, phase := CheckingSaves, deadline := call.env.now + 10000,
                              participants := call.env.peers, waiting := call.env.peers)
            else if ChecksAnew(call) then TakenUp(n, call, r.node) && r.effects == []
            else
              && r.effects == If(HostResets(call), ToAll(call, Message(Reset, None, None, None, None)))
              && r.node == n.(resetAt :=
                   if (HostResets(call) && !Refused(call, Reset)) || ResetHeard(call) then EnvOf(call).value.now + 500
                   else if call.Dropped? || (call.Frame? && n.resetAt <= call.env.now) then 0 else n.resetAt)
  {}
}
