/** A cancelled request stays cancelled, for the guests that hear of it and for the whole lobby. */
module SpeedrunCancel {
  import opened Common
  import opened SpeedrunModel
  import opened SpeedrunLobby
  import opened SpeedrunRequests
  import opened SpeedrunStart
  import opened SpeedrunSafety

  /** The node holds no request and nothing of one. */
  predicate Free(n: Node) {
    n == IDLE_NODE.(sequence := n.sequence, resetAt := n.resetAt)
  }

  // ---- a guest that hears the cancel ----

  /** The owner's message of a kind about request `id` is delivered. */
  predicate Hears(call: Call, kind: Kind, id: nat) {
    call.Deliver? && call.sender == HOST && call.message.kind == kind && call.message.id == Some(id)
  }

  /** A guest that hears the owner's cancel of its request holds no request afterwards; a cancel of another request
      changes nothing. */
  lemma CancelFrees(n: Node, call: Call, id: nat)
    requires Hears(call, Cancel, id) && id != 0 && call.env.role == Guest(HOST)
    ensures var r := Do(n, call);
            r.effects == [] && if n.peerRequestId == id then Free(r.node) else r.node == n
  {}

  /** The calls of a guest of this lobby. */
  predicate Guesting(call: Call) {
    !call.NewOwner? && (EnvOf(call).Some? ==> EnvOf(call).value.role == Guest(HOST))
  }

  ghost predicate AllGuesting(calls: seq<Call>) { forall i :: 0 <= i < |calls| ==> Guesting(calls[i]) }

  lemma {:induction false} GuestsGuest(moves: seq<Move>, s: Lobby, who: PeerId)
    requires Reaches(moves, s) && who != HOST
    ensures AllGuesting(CallsOf(moves, who))
    decreases |moves|
  {
    hide Do, Sent, PressFits;
    if moves != [] {
      var k := |moves| - 1;
      var before: Lobby :| Reaches(moves[..k], before) && Enabled(before, moves[k]) && s == Next(before, moves[k]);
      GuestsGuest(moves[..k], before, who);
    }
  }

  /** Without a check for it a guest does not take a request up. */
  lemma NotTakenUp(n: Node, call: Call, id: nat)
    requires n.requestId == 0 && Guesting(call) && id != 0 && n.peerRequestId != id && !Hears(call, Check, id)
    ensures Do(n, call).node.requestId == 0 && Do(n, call).node.peerRequestId != id
  {
    hide Tick, HearReady, HearPlayerReady, HearOwner, Broadcast;
    match call
    case Frame(env) => FrameSteady(n, env);
    case Deliver(sender, m, env) =>
      if m.id.Some? {
        HearReadySteady(n, sender, m, env);
        HearPlayerReadySteady(n, sender, m, env);
        HearOwnerSteady(n, m, env);
      }
    case _ =>
  }

  lemma GuestHasNoHostRequest(n: Node, call: Call)
    requires n.requestId == 0 && Guesting(call)
    ensures Do(n, call).node.requestId == 0
  {
    hide Tick, Hear, Broadcast;
    match call
    case Frame(env) => FrameSteady(n, env);
    case Deliver(sender, m, env) => HearSteady(n, sender, m, env);
    case _ =>
  }

  lemma NextNode(calls: seq<Call>, i: nat)
    requires i < |calls|
    ensures NodeAt(calls, i + 1) == Do(NodeAt(calls, i), calls[i]).node
    ensures NodeAt(calls, 0) == IDLE_NODE
  {
    hide Do;
    RunPush(calls[..i], calls[i]);
    assert calls[..i + 1] == calls[..i] + [calls[i]];
  }

  lemma {:induction false} NeverHosts(calls: seq<Call>, i: nat)
    requires AllGuesting(calls) && i <= |calls|
    ensures NodeAt(calls, i).requestId == 0
  {
    hide Do, NodeAt, Guesting;
    if i == 0 {
      assert NodeAt(calls, 0) == IDLE_NODE by { FreshAt(calls); }
    } else {
      NeverHosts(calls, i - 1);
      NextNode(calls, i - 1);
      GuestHasNoHostRequest(NodeAt(calls, i - 1), calls[i - 1]);
    }
  }

  lemma FreshAt(calls: seq<Call>)
    ensures NodeAt(calls, 0) == IDLE_NODE
  {}

  lemma {:induction false} StaysGone(calls: seq<Call>, j: nat, k: nat, id: nat)
    requires AllGuesting(calls) && j < k <= |calls| && id != 0 && Hears(calls[j], Cancel, id)
    requires forall i :: j < i < k ==> !Hears(calls[i], Check, id)
    ensures NodeAt(calls, k).peerRequestId != id
    decreases k
  {
    hide Do, NodeAt, Guesting, Hears;
    NextNode(calls, k - 1);
    NeverHosts(calls, k - 1);
    assert Guesting(calls[k - 1]);
    if k == j + 1 {
      CancelDrops(NodeAt(calls, j), calls[j], id);
    } else {
      StaysGone(calls, j, k - 1, id);
      NotTakenUp(NodeAt(calls, k - 1), calls[k - 1], id);
    }
  }

  lemma CancelDrops(n: Node, call: Call, id: nat)
    requires Hears(call, Cancel, id) && id != 0 && Guesting(call)
    ensures Do(n, call).node.peerRequestId != id
  {
    hide Do;
    CancelFrees(n, call, id);
  }

  lemma RunNeedsRequest(n: Node, call: Call, id: nat)
    requires n.requestId == 0 && id != 0 && Guesting(call) && Ran(id) in Do(n, call).effects
    ensures n.peerRequestId == id
  {
    hide Do;
    RunIsAnnounced(n, call, id);
    if e :| e in Do(n, call).effects && StartsRequest(e, id) { StartEndsRequest(n, call, e, id); }
    if n.peerRequestId != id { OtherStartIgnored(n, call, id); }
  }

  lemma OtherStartIgnored(n: Node, call: Call, id: nat)
    requires call.Deliver? && call.message.kind == Start && call.message.id == Some(id) && n.peerRequestId != id
    ensures Do(n, call) == Reply(n, [])
  {}

  /** In a lobby run: a guest that has heard the cancel of a request does not start that request later, however late the
      start arrives, unless a check for it reaches the guest in between. */
  lemma CancelIsFinal(moves: seq<Move>, s: Lobby, who: PeerId, j: nat, k: nat, id: nat)
    requires Reaches(moves, s) && who != HOST && id != 0 && j < k < |CallsOf(moves, who)|
    requires Hears(CallsOf(moves, who)[j], Cancel, id)
    requires Ran(id) in Do(NodeAt(CallsOf(moves, who), k), CallsOf(moves, who)[k]).effects
    ensures exists i :: j < i < k && Hears(CallsOf(moves, who)[i], Check, id)
  {
    hide Do, NodeAt, Guesting, Hears, Reaches;
    var calls := CallsOf(moves, who);
    GuestsGuest(moves, s, who);
    assert Guesting(calls[k]);
    NeverHosts(calls, k);
    RunNeedsRequest(NodeAt(calls, k), calls[k], id);
    if forall i :: j < i < k ==> !Hears(calls[i], Check, id) { StaysGone(calls, j, k, id); }
  }

  // ---- the host that is refused ----

  /** A waited-for peer refuses the save check, or a participant refuses while players are awaited. */
  predicate Refuses(n: Node, call: Call, id: nat) {
    && call.Deliver? && call.env.role.Host? && id != 0 && n.requestId == id && call.message.id == Some(id)
    && call.message.ready == Some(false)
    && ((call.message.kind == Ready && call.sender in n.waiting) ||
        (call.message.kind == PlayerReady && call.sender in n.participants && n.phase == WaitingReady))
  }

  /** A refusal ends the host's request and tries to tell everybody, and does nothing else. */
  lemma RefusalCancels(n: Node, call: Call, id: nat)
    requires Refuses(n, call, id)
    ensures var r := Do(n, call);
            Free(r.node) && r.effects == [Tried(Everyone, Plain(Cancel, id), Cancel !in call.env.refused)]
  {}

  /** The call tries to cancel request `id` without having tried to start it. */
  ghost predicate Cancels(effects: seq<Effect>, id: nat) {
    && (exists e :: e in effects && e.Tried? && e.message == Plain(Cancel, id))
    && (forall e :: e in effects ==> !StartsRequest(e, id))
  }

  /** Request `id` was opened, is over, and its start was never tried. */
  ghost predicate GivenUp(s: Lobby, id: nat) {
    HOST in s.nodes && s.nodes[HOST].requestId != id && id <= s.nodes[HOST].sequence && !Announced(s.log, id)
  }

  lemma StartEndsRequest(n: Node, call: Call, e: Effect, id: nat)
    requires e in Do(n, call).effects && StartsRequest(e, id)
    ensures n.requestId == id && Do(n, call).node.requestId == 0
  {
    hide CancelStart, TickHold, TickHostCheck, TickGuestCheck, HearReady, HearPlayerReady;
    if EnvOf(call).Some? { CancelStartsNothing(n, EnvOf(call).value, id); }
    if call.Frame? {
      FrameStartsNothing(n, call.env, id);
      CommitEnds(n, call.env);
    } else if call.Deliver? && call.message.id.Some? {
      HearStartsNothing(n, call.sender, call.message, call.env, id);
    }
  }

  predicate StartsNothing(effects: seq<Effect>, id: nat) { forall e :: e in effects ==> !StartsRequest(e, id) }

  lemma CancelStartsNothing(n: Node, env: Env, id: nat)
    ensures StartsNothing(CancelStart(n, env).effects, id)
  {}

  lemma CommitEnds(n: Node, env: Env)
    ensures Commit(n, env).node.requestId == 0
  {}

  lemma BeginStartsNothing(n: Node, env: Env, id: nat)
    ensures StartsNothing(BeginReady(n, env).effects, id) && StartsNothing(AnnounceCount(n, env).effects, id)
  {}

  lemma FrameStartsNothing(n: Node, env: Env, id: nat)
    ensures StartsNothing(TickHold(n, env).effects, id) && StartsNothing(TickHostCheck(n, env).effects, id)
    ensures StartsNothing(TickGuestCheck(n, env).effects, id)
  {
    hide Checks, CheckAccepted, BeginReady, AnnounceCount, CancelStart;
    CheckStartsNothing(n, env, id);
    CheckStartsNothing(n.(localReady := true), env, id);
    CancelStartsNothing(n, env, id);
    BeginStartsNothing(n.(localPlayerReady := true, holdStart := 0, readyCount := (|n.readyPeers| + 1) % UINT32), env,
                       id);
  }

  lemma CheckStartsNothing(n: Node, env: Env, id: nat)
    ensures StartsNothing(CheckPeers(n, env).effects, id)
  {
    hide Checks, CheckAccepted, BeginReady, CancelStart;
    BeginStartsNothing(n, env, id);
    BeginStartsNothing(n.(checksSent := true), env, id);
    CancelStartsNothing(n, env, id);
    ChecksAreChecks(n.participants, n.requestId, env);
  }

  lemma {:induction false} ChecksAreChecks(rest: set<PeerId>, request: nat, env: Env)
    ensures forall e :: e in Checks(rest, request, env) ==> e.Tried? && e.message == Plain(Check, request)
    decreases |rest|
  {
    if rest != {} { ChecksAreChecks(rest - {Smallest(rest)}, request, env); }
  }

  lemma HearStartsNothing(n: Node, sender: PeerId, m: Message, env: Env, id: nat)
    requires m.id.Some?
    ensures StartsNothing(HearReady(n, sender, m, env).effects, id)
    ensures StartsNothing(HearPlayerReady(n, sender, m, env).effects, id)
  {
    hide BeginReady, AnnounceCount, CancelStart;
    var more := n.readyPeers + {sender};
    CancelStartsNothing(n, env, id);
    BeginStartsNothing(n.(waiting := n.waiting - {sender}), env, id);
    BeginStartsNothing(n.(readyPeers := more, readyCount := (|more| + if n.localPlayerReady then 1 else 0) % UINT32),
                       env, id);
  }

  /** A tried cancel is that of the request held before, and none is held afterwards. */
  ghost predicate DropsWhatItCancels(n: Node, r: Reply) {
    forall e :: e in r.effects && e.Tried? && e.message.kind == Cancel ==>
      e.message == Plain(Cancel, n.requestId) && n.requestId != 0 && r.node.requestId == 0
  }

  lemma DropsAfter(n: Node, a: seq<Effect>, n': Node, r: Reply)
    requires DropsWhatItCancels(n', r) && n'.requestId == n.requestId
    requires forall e :: e in a && e.Tried? ==> e.message.kind != Cancel
    ensures DropsWhatItCancels(n, After(a, r))
  {}

  lemma BeginDrops(n: Node, env: Env)
    ensures DropsWhatItCancels(n, CancelStart(n, env)) && DropsWhatItCancels(n, BeginReady(n, env))
    ensures DropsWhatItCancels(n, AnnounceCount(n, env)) && DropsWhatItCancels(n, Commit(n, env))
  {}

  lemma CheckDrops(n: Node, env: Env)
    ensures DropsWhatItCancels(n, CheckPeers(n, env))
  {
    hide Checks, CheckAccepted, BeginReady, CancelStart, DropsWhatItCancels;
    var checks := Checks(n.participants, n.requestId, env);
    var sent := n.(checksSent := true);
    ChecksAreChecks(n.participants, n.requestId, env);
    BeginDrops(n, env);
    BeginDrops(sent, env);
    DropsAfter(n, checks, n, CancelStart(n, env));
    DropsAfter(n, checks, sent, BeginReady(sent, env));
    NothingDrops(n, n);
    NothingDrops(sent, sent);
    DropsAfter(n, checks, sent, Reply(sent, []));
  }

  lemma NothingDrops(n: Node, n': Node)
    ensures DropsWhatItCancels(n, Reply(n', []))
  {}

  lemma FrameDrops(n: Node, env: Env)
    ensures DropsWhatItCancels(n, Tick(n, env))
  {
    hide CheckPeers, BeginReady, AnnounceCount, CancelStart, Commit;
    var clear := n.(localReady := true);
    var told := n.(localPlayerReady := true, holdStart := 0, readyCount := (|n.readyPeers| + 1) % UINT32);
    BeginDrops(n, env);
    BeginDrops(told, env);
    CheckDrops(n, env);
    CheckDrops(clear, env);
    DropsAfter(n, [ProbedClear(n.requestId)], clear, CheckPeers(clear, env));
    DropsAfter(n, [HeldDown(n.requestId)], told, AnnounceCount(told, env));
  }

  lemma HearDrops(n: Node, sender: PeerId, m: Message, env: Env)
    ensures DropsWhatItCancels(n, Hear(n, sender, m, env))
  {
    hide BeginReady, AnnounceCount, CancelStart;
    var more := n.readyPeers + {sender};
    BeginDrops(n, env);
    BeginDrops(n.(waiting := n.waiting - {sender}), env);
    BeginDrops(n.(readyPeers := more, readyCount := (|more| + if n.localPlayerReady then 1 else 0) % UINT32), env);
  }

  lemma CallDrops(n: Node, call: Call)
    ensures DropsWhatItCancels(n, Do(n, call))
  {
    hide Tick, Hear, CancelStart;
    if EnvOf(call).Some? { BeginDrops(n, EnvOf(call).value); }
    match call
    case Frame(env) => FrameDrops(n, env);
    case Deliver(sender, m, env) => HearDrops(n, sender, m, env);
    case _ =>
  }

  // ---- over a run of the lobby ----

  /** The counter of the host never goes back, and an id it takes up is new. */
  lemma HostMovesOn(n: Node, call: Call)
    requires Fits(n, call)
    ensures var n' := Do(n, call).node;
            n'.sequence >= n.sequence &&
            (n'.requestId == n.requestId || n'.requestId == 0 || n'.requestId > n.sequence)
  {
    hide Do, PressFits;
    if call.Press? && Do(n, call).effects != [] {
      FitsOpens(n, call.env);
    } else {
      SequenceKept(n, call);
      StillOrNone(n, call);
    }
  }

  lemma AnnouncedNow(s: Lobby, move: Move, id: nat)
    requires move.who in s.nodes && !Announced(s.log, id) && Announced(Next(s, move).log, id)
    ensures move.who == HOST && exists e :: e in Do(s.nodes[HOST], move.call).effects && StartsRequest(e, id)
  {
    hide Do;
    var effects := Do(s.nodes[move.who], move.call).effects;
    var log := Grow(s.log, move.who, effects);
    assert forall x :: 0 <= x < |s.log| ==> log[x] == s.log[x];
    var i :| 0 <= i < |log| && log[i].who == HOST && StartsRequest(log[i].effect, id);
    assert log[i] == Entry(move.who, effects[i - |s.log|]);
  }

  /** Once the host has tried to start a request it has done with it. */
  lemma {:induction false} StartedIsOver(moves: seq<Move>, s: Lobby, id: nat)
    requires Reaches(moves, s) && id != 0 && Announced(s.log, id)
    ensures HOST in s.nodes && s.nodes[HOST].requestId != id && id <= s.nodes[HOST].sequence
    decreases |moves|
  {
    hide Do, Sent, PressFits, Announced, Inv;
    if moves == [] {
      NothingAnnounced(s.log, id);
    } else {
      var k := |moves| - 1;
      var move := moves[k];
      var before: Lobby :| Reaches(moves[..k], before) && Enabled(before, move) && s == Next(before, move);
      ReachableInv(moves[..k], before);
      HostIn(before);
      var n := before.nodes[HOST];
      HostEndsOnce(moves[..k], before, id);
      if Announced(before.log, id) {
        StartedIsOver(moves[..k], before, id);
        if move.who == HOST { HostMovesOn(n, move.call); }
      } else {
        AnnouncedNow(before, move, id);
        var e :| e in Do(n, move.call).effects && StartsRequest(e, id);
        StartEndsRequest(n, move.call, e, id);
        HostMovesOn(n, move.call);
      }
    }
  }

  lemma NothingAnnounced(log: seq<Entry>, id: nat)
    requires log == []
    ensures !Announced(log, id)
  {}

  lemma HostIn(s: Lobby)
    requires Inv(s)
    ensures HOST in s.nodes && s.nodes[HOST].peerRequestId == 0
  {}

  lemma GivenUpStays(s: Lobby, move: Move, id: nat)
    requires Inv(s) && Enabled(s, move) && id != 0 && GivenUp(s, id)
    ensures GivenUp(Next(s, move), id)
  {
    hide Do, Sent, PressFits, Announced, Inv;
    HostIn(s);
    var n := s.nodes[HOST];
    if move.who == HOST { HostMovesOn(n, move.call); }
    if Announced(Next(s, move).log, id) {
      AnnouncedNow(s, move, id);
      var e :| e in Do(n, move.call).effects && StartsRequest(e, id);
      StartEndsRequest(n, move.call, e, id);
    }
  }

  lemma CancelGivesUp(moves: seq<Move>, s: Lobby, move: Move, id: nat)
    requires Reaches(moves, s) && Enabled(s, move) && id != 0 && move.who == HOST
    requires Cancels(Do(s.nodes[HOST], move.call).effects, id)
    ensures GivenUp(Next(s, move), id)
  {
    hide Do, Sent, PressFits, Announced, Reaches, Latest;
    var n := s.nodes[HOST];
    CallDrops(n, move.call);
    HostEndsOnce(moves, s, id);
    OpenIsLatest(n, HostEffects(s.log));
    if Announced(s.log, id) { StartedIsOver(moves, s, id); }
    HostMovesOn(n, move.call);
    if Announced(Next(s, move).log, id) { AnnouncedNow(s, move, id); }
  }

  lemma OpenIsLatest(n: Node, effects: seq<Effect>)
    requires Latest(n, effects)
    ensures n.requestId == 0 || n.requestId == n.sequence
  {}

  /** The host as it is before move `i`. */
  function HostBefore(moves: seq<Move>, i: nat): Node
    requires i <= |moves|
  {
    RunFrom(IDLE_NODE, CallsOf(moves[..i], HOST)).node
  }

  lemma {:induction false} CancelledIsGivenUp(moves: seq<Move>, s: Lobby, i: nat, id: nat)
    requires Reaches(moves, s) && i < |moves| && moves[i].who == HOST && id != 0
    requires Cancels(Do(HostBefore(moves, i), moves[i].call).effects, id)
    ensures GivenUp(s, id)
    decreases |moves|
  {
    hide Do, Sent, PressFits, Inv, GivenUp, Cancels, RunFrom;
    var k := |moves| - 1;
    var before: Lobby :| Reaches(moves[..k], before) && Enabled(before, moves[k]) && s == Next(before, moves[k]);
    assert moves[..k][..i] == moves[..i];
    if i == k {
      SideIsARun(moves[..k], before, HOST);
      CancelGivesUp(moves[..k], before, moves[k], id);
    } else {
      CancelledIsGivenUp(moves[..k], before, i, id);
      ReachableInv(moves[..k], before);
      GivenUpStays(before, moves[k], id);
    }
  }

  /** In a lobby run: when the host has tried to cancel a request whose start it did not try in the same call, then
      nobody ever starts that request, neither before nor after. */
  lemma CancelledNeverRuns(moves: seq<Move>, s: Lobby, i: nat, who: PeerId, id: nat)
    requires Reaches(moves, s) && i < |moves| && moves[i].who == HOST && id != 0
    requires Cancels(Do(HostBefore(moves, i), moves[i].call).effects, id)
    ensures !Did(s.log, who, Ran(id))
  {
    hide Do, Reaches, Cancels, HostBefore, Did;
    CancelledIsGivenUp(moves, s, i, id);
    if Did(s.log, who, Ran(id)) { GuestsFollowHost(moves, s, who, id); }
  }

  /** In a lobby run: a request that a waited-for peer or a participant has refused is never started by anybody. */
  lemma RefusedNeverRuns(moves: seq<Move>, s: Lobby, i: nat, who: PeerId, id: nat)
    requires Reaches(moves, s) && i < |moves| && moves[i].who == HOST
    requires Refuses(HostBefore(moves, i), moves[i].call, id)
    ensures !Did(s.log, who, Ran(id))
  {
    hide Do, Reaches, HostBefore, Did;
    RefusalCancels(HostBefore(moves, i), moves[i].call, id);
    CancelledNeverRuns(moves, s, i, who, id);
  }
}
