/** Request ids, how requests end, membership, and the hold of the Down button, over whole runs. */
module SpeedrunRequests {
  import opened Common
  import opened SpeedrunModel
  import opened SpeedrunLobby
  import SpeedrunSafety

  /** The calls of a node one after the other, in whatever roles and surroundings. */
  function RunFrom(n: Node, calls: seq<Call>): Reply
    decreases |calls|
  {
    if calls == [] then Reply(n, [])
    else
      var k := |calls| - 1;
      var before := RunFrom(n, calls[..k]);
      var last := Do(before.node, calls[k]);
      Reply(last.node, before.effects + last.effects)
  }

  // ---- one id at a time ----

  /** A node never holds a host request and a guest request at once. */
  predicate Exclusive(n: Node) { n.requestId == 0 || n.peerRequestId == 0 }

  /** The open requests stay as they are or are dropped; nothing is opened. */
  ghost predicate Steady(n: Node, r: Reply) {
    && r.node.sequence == n.sequence
    && (r.node.requestId == n.requestId || r.node.requestId == 0)
    && (r.node.peerRequestId == n.peerRequestId || r.node.peerRequestId == 0)
    && (r.node.requestId != 0 ==> r.node.participants == n.participants)
    && (forall e :: e in r.effects ==> !e.Opened?)
  }

  lemma SteadyAfter(n: Node, a: seq<Effect>, n': Node, r: Reply)
    requires Steady(n', r) && Steady(n, Reply(n', a))
    ensures Steady(n, After(a, r))
  {}

  lemma CancelSteady(n: Node, env: Env)
    ensures Steady(n, CancelStart(n, env))
  {}

  lemma BeginSteady(n: Node, env: Env)
    ensures Steady(n, BeginReady(n, env)) && Steady(n, BeginCountdown(n, env)) && Steady(n, AnnounceCount(n, env))
  {}

  lemma {:induction false} ChecksAreTried(rest: set<PeerId>, request: nat, env: Env)
    ensures forall e :: e in Checks(rest, request, env) ==> e.Tried?
    decreases |rest|
  {
    if rest != {} { ChecksAreTried(rest - {Smallest(rest)}, request, env); }
  }

  lemma CheckPeersSteady(n: Node, env: Env)
    ensures Steady(n, CheckPeers(n, env))
  {
    hide CancelStart, BeginReady, Checks, Steady;
    var checks := Checks(n.participants, n.requestId, env);
    var sent := n.(checksSent := true);
    StillSteady(n, sent, checks, env);
    CancelSteady(n, env);
    BeginSteady(n, env);
    BeginSteady(sent, env);
    SteadyAfter(n, checks, n, CancelStart(n, env));
    SteadyAfter(n, checks, sent, BeginReady(sent, env));
    SteadyAfter(n, checks, sent, Reply(sent, []));
  }

  lemma StillSteady(n: Node, sent: Node, checks: seq<Effect>, env: Env)
    requires sent == n.(checksSent := true) && checks == Checks(n.participants, n.requestId, env)
    ensures Steady(n, Reply(n, [])) && Steady(sent, Reply(sent, []))
    ensures Steady(n, Reply(n, checks)) && Steady(n, Reply(sent, checks))
  {
    hide Checks;
    ChecksAreTried(n.participants, n.requestId, env);
  }

  lemma HostCheckSteady(n: Node, env: Env)
    ensures Steady(n, TickHostCheck(n, env))
  {
    hide CancelStart, CheckPeers;
    var clear := n.(localReady := true);
    CancelSteady(n, env);
    CheckPeersSteady(n, env);
    CheckPeersSteady(clear, env);
    SteadyAfter(n, [ProbedClear(n.requestId)], clear, CheckPeers(clear, env));
  }

  lemma GuestCheckSteady(n: Node, env: Env)
    ensures Steady(n, TickGuestCheck(n, env))
  {}

  lemma HoldSteady(n: Node, env: Env)
    ensures Steady(n, TickHold(n, env))
  {
    hide TellReady;
    TellSteady(n.(localPlayerReady := true, holdStart := 0), env);
  }

  lemma TellSteady(n: Node, env: Env)
    ensures Steady(n, TellReady(n, env))
  {
    hide AnnounceCount;
    var counted := n.(readyCount := (|n.readyPeers| + 1) % UINT32);
    BeginSteady(counted, env);
    SteadyAfter(n, [HeldDown(n.requestId)], counted, AnnounceCount(counted, env));
  }

  lemma CommitSteady(n: Node, env: Env)
    ensures Steady(n, Commit(n, env))
  {}

  lemma FrameSteady(n: Node, env: Env)
    ensures Steady(n, Tick(n, env))
  {
    hide CancelStart, TickHold, TickHostCheck, TickGuestCheck, Commit;
    CancelSteady(n, env);
    CommitSteady(n, env);
    HostCheckSteady(n, env);
    GuestCheckSteady(n, env);
    HoldSteady(n, env);
  }

  lemma HearReadySteady(n: Node, sender: PeerId, m: Message, env: Env)
    requires m.id.Some?
    ensures Steady(n, HearReady(n, sender, m, env))
  {
    hide CancelStart, BeginReady;
    var fewer := n.(waiting := n.waiting - {sender});
    CancelSteady(n, env);
    BeginSteady(fewer, env);
  }

  lemma HearPlayerReadySteady(n: Node, sender: PeerId, m: Message, env: Env)
    requires m.id.Some?
    ensures Steady(n, HearPlayerReady(n, sender, m, env))
  {
    hide CancelStart, AnnounceCount;
    var more := n.readyPeers + {sender};
    CancelSteady(n, env);
    BeginSteady(n.(readyPeers := more, readyCount := (|more| + if n.localPlayerReady then 1 else 0) % UINT32), env);
  }

  lemma HearOwnerSteady(n: Node, m: Message, env: Env)
    requires m.id.Some?
    ensures Steady(n, HearOwner(n, m, env))
  {
    hide HearPrompt;
    PromptSteady(n, m, env);
  }

  lemma PromptSteady(n: Node, m: Message, env: Env)
    requires m.id.Some?
    ensures Steady(n, HearPrompt(n, m, env))
  {}

  /** A message leaves the open requests as they are, drops them, or is a check that a node without a host request
      takes up. */
  lemma HearSteady(n: Node, sender: PeerId, m: Message, env: Env)
    ensures var r := Hear(n, sender, m, env);
            Steady(n, r) || (n.requestId == 0 == r.node.requestId && r.node.sequence == n.sequence && r.effects == [])
  {
    hide HearReady, HearPlayerReady, HearOwner;
    if m.id.Some? {
      HearReadySteady(n, sender, m, env);
      HearPlayerReadySteady(n, sender, m, env);
      HearOwnerSteady(n, m, env);
    }
  }

  lemma CallExclusive(n: Node, call: Call)
    requires Exclusive(n)
    ensures Exclusive(Do(n, call).node)
  {
    hide Tick, Hear, Broadcast;
    match call
    case Frame(env) => FrameSteady(n, env);
    case Deliver(sender, m, env) => HearSteady(n, sender, m, env);
    case _ =>
  }

  lemma {:induction false} RunExclusive(calls: seq<Call>)
    ensures Exclusive(RunFrom(IDLE_NODE, calls).node)
    decreases |calls|
  {
    hide Do, Exclusive;
    if calls == [] {
      assert Exclusive(IDLE_NODE) by { FreshExclusive(); }
    } else {
      RunExclusive(calls[..|calls| - 1]);
      CallExclusive(RunFrom(IDLE_NODE, calls[..|calls| - 1]).node, calls[|calls| - 1]);
    }
  }

  lemma FreshExclusive()
    ensures Exclusive(IDLE_NODE)
  {}

  // ---- how often a request ends ----

  /** An accepted announcement that request `id` is over: its start or its cancellation. */
  predicate Ends(e: Effect, id: nat) {
    e.Tried? && e.ok && (e.message.kind == Start || e.message.kind == Cancel) && e.message.id == Some(id)
  }

  function EndCount(effects: seq<Effect>, id: nat): nat {
    if effects == [] then 0
    else EndCount(effects[..|effects| - 1], id) + if Ends(effects[|effects| - 1], id) then 1 else 0
  }

  lemma {:induction false} EndCountAppend(a: seq<Effect>, b: seq<Effect>, id: nat)
    ensures EndCount(a + b, id) == EndCount(a, id) + EndCount(b, id)
    decreases |b|
  {
    if b == [] {
      assert a + b == a;
    } else {
      EndCountAppend(a, b[..|b| - 1], id);
      assert (a + b)[..|a + b| - 1] == a + b[..|b| - 1];
    }
  }

  lemma {:induction false} NoEnds(effects: seq<Effect>, id: nat)
    requires forall e :: e in effects ==> !Ends(e, id)
    ensures EndCount(effects, id) == 0
  {
    if effects != [] { NoEnds(effects[..|effects| - 1], id); }
  }

  function One(b: bool): nat { if b then 1 else 0 }

  /** Ending a request takes the right to it away: announcements made plus the right kept do not exceed the right
      held. */
  predicate Spends(n: Node, r: Reply, id: nat) {
    EndCount(r.effects, id) + One(r.node.requestId == id) <= One(n.requestId == id)
  }

  /** A reply that neither opens nor ends anything. */
  predicate Quiet(n: Node, r: Reply) {
    r.node.requestId == n.requestId || r.node.requestId == 0
  }

  lemma SpendsNothing(n: Node, r: Reply, id: nat)
    requires id != 0 && Quiet(n, r) && forall e :: e in r.effects ==> !Ends(e, id)
    ensures Spends(n, r, id)
  {
    NoEnds(r.effects, id);
  }

  lemma SpendsAfter(n: Node, a: seq<Effect>, n': Node, r: Reply, id: nat)
    requires id != 0 && n'.requestId == n.requestId && Spends(n', r, id) && forall e :: e in a ==> !Ends(e, id)
    ensures Spends(n, After(a, r), id)
  {
    NoEnds(a, id);
    EndCountAppend(a, r.effects, id);
  }

  lemma CancelSpends(n: Node, env: Env, id: nat)
    requires id != 0
    ensures Spends(n, CancelStart(n, env), id)
  {
    if n.requestId != 0 {
      var e := Broadcast(env, Plain(Cancel, n.requestId));
      assert [e][..0] == [];
    }
  }

  lemma BeginReadySpends(n: Node, env: Env, id: nat)
    requires id != 0
    ensures Spends(n, BeginReady(n, env), id)
  {
    hide CancelStart, Spends;
    var total := (|n.participants| + 1) % UINT32;
    var asked := n.(readyTotal := total, readyCount := 0);
    CancelSpends(asked, env, id);
    SpendsAfter(n, [Broadcast(env, Asked(n.requestId, total))], asked, CancelStart(asked, env), id);
    SpendsNothing(n, Reply(asked.(phase := WaitingReady), [Broadcast(env, Asked(n.requestId, total))]), id);
    SpendsNothing(n, Reply(n, []), id);
  }

  lemma BeginCountdownSpends(n: Node, env: Env, id: nat)
    requires id != 0
    ensures Spends(n, BeginCountdown(n, env), id)
  {
    hide CancelStart, Spends;
    var sent := Broadcast(env, Plain(CountdownStarts, n.requestId));
    CancelSpends(n, env, id);
    SpendsAfter(n, [sent], n, CancelStart(n, env), id);
    SpendsNothing(n, Reply(n.(phase := Countdown, countdownAt := env.now + 3 * SECOND), [sent]), id);
    SpendsNothing(n, Reply(n, []), id);
  }

  lemma AnnounceSpends(n: Node, env: Env, id: nat)
    requires id != 0
    ensures Spends(n, AnnounceCount(n, env), id)
  {
    hide CancelStart, BeginCountdown, Spends;
    var sent := Broadcast(env, Counts(n.requestId, n.readyCount, n.readyTotal));
    CancelSpends(n, env, id);
    SpendsAfter(n, [sent], n, CancelStart(n, env), id);
    BeginCountdownSpends(n, env, id);
    SpendsAfter(n, [sent], n, BeginCountdown(n, env), id);
  }

  lemma CommitSpends(n: Node, env: Env, id: nat)
    requires id != 0
    ensures Spends(n, Commit(n, env), id)
  {
    hide CancelStart;
    var sent := Broadcast(env, Plain(Start, n.requestId));
    CancelSpends(n, env, id);
    if sent.ok {
      var ran := [Ran(n.requestId)];
      NoEnds(ran, id);
      EndCountAppend([sent], ran, id);
      assert [sent] + ran == [sent, Ran(n.requestId)] && [sent][..0] == [];
    } else {
      SpendsAfter(n, [sent], n, CancelStart(n, env), id);
    }
  }

  lemma {:induction false} ChecksEndNothing(rest: set<PeerId>, request: nat, env: Env, id: nat)
    ensures forall e :: e in Checks(rest, request, env) ==> !Ends(e, id)
    decreases |rest|
  {
    if rest != {} { ChecksEndNothing(rest - {Smallest(rest)}, request, env, id); }
  }

  lemma CheckPeersSpends(n: Node, env: Env, id: nat)
    requires id != 0
    ensures Spends(n, CheckPeers(n, env), id)
  {
    hide CancelStart, BeginReady, Spends, Checks;
    var checks := Checks(n.participants, n.requestId, env);
    var sent := n.(checksSent := true);
    ChecksEndNothing(n.participants, n.requestId, env, id);
    CancelSpends(n, env, id);
    SpendsAfter(n, checks, n, CancelStart(n, env), id);
    BeginReadySpends(sent, env, id);
    SpendsAfter(n, checks, sent, BeginReady(sent, env), id);
    SpendsNothing(sent, Reply(sent, []), id);
    SpendsAfter(n, checks, sent, Reply(sent, []), id);
    BeginReadySpends(n, env, id);
    SpendsNothing(n, Reply(n, []), id);
  }

  lemma HostCheckSpends(n: Node, env: Env, id: nat)
    requires id != 0
    ensures Spends(n, TickHostCheck(n, env), id)
  {
    hide CancelStart, CheckPeers, Spends;
    CheckPeersSpends(n, env, id);
    CancelSpends(n, env, id);
    SpendsNothing(n, Reply(n, []), id);
    var clear := n.(localReady := true);
    CheckPeersSpends(clear, env, id);
    SpendsAfter(n, [ProbedClear(n.requestId)], clear, CheckPeers(clear, env), id);
  }

  lemma HoldSpends(n: Node, env: Env, id: nat)
    requires id != 0
    ensures Spends(n, TickHold(n, env), id)
  {
    hide AnnounceCount, Spends;
    var r := TickHold(n, env);
    if n.requestId != 0 && !n.localPlayerReady && n.downHeld && n.holdStart != 0 && env.now >= n.holdStart + SECOND {
      var done := n.(localPlayerReady := true, holdStart := 0, readyCount := (|n.readyPeers| + 1) % UINT32);
      AnnounceSpends(done, env, id);
      SpendsAfter(n, [HeldDown(n.requestId)], done, AnnounceCount(done, env), id);
    } else {
      SpendsNothing(n, r, id);
    }
  }

  lemma FrameSpends(n: Node, env: Env, id: nat)
    requires id != 0
    ensures Spends(n, Tick(n, env), id)
  {
    hide CancelStart, Commit, TickHold, TickHostCheck, TickGuestCheck, Spends;
    CancelSpends(n, env, id);
    CommitSpends(n, env, id);
    HoldSpends(n, env, id);
    HostCheckSpends(n, env, id);
    GuestCheckQuiet(n, env, id);
    SpendsNothing(n, TickGuestCheck(n, env), id);
    SpendsNothing(n, Reply(n, []), id);
    SpendsNothing(n, Reply(n.(resetAt := 0), []), id);
    SpendsNothing(n, Reply(Cleared(n), []), id);
  }

  lemma GuestCheckQuiet(n: Node, env: Env, id: nat)
    ensures Quiet(n, TickGuestCheck(n, env))
    ensures forall e :: e in TickGuestCheck(n, env).effects ==> !Ends(e, id)
  {}

  lemma HearSpends(n: Node, sender: PeerId, m: Message, env: Env, id: nat)
    requires id != 0
    ensures Spends(n, Hear(n, sender, m, env), id)
  {
    hide CancelStart, BeginReady, AnnounceCount, Spends;
    var r := Hear(n, sender, m, env);
    CancelSpends(n, env, id);
    if m.kind == Ready {
      BeginReadySpends(n.(waiting := n.waiting - {sender}), env, id);
      SpendsSame(n, n.(waiting := n.waiting - {sender}), BeginReady(n.(waiting := n.waiting - {sender}), env), id);
      SpendsNothing(n, Reply(n.(waiting := n.waiting - {sender}), []), id);
      SpendsNothing(n, Reply(n, []), id);
    } else if m.kind == PlayerReady {
      var more := n.readyPeers + {sender};
      var n' := n.(readyPeers := more, readyCount := (|more| + if n.localPlayerReady then 1 else 0) % UINT32);
      AnnounceSpends(n', env, id);
      SpendsSame(n, n', AnnounceCount(n', env), id);
      SpendsNothing(n, Reply(n, []), id);
    } else {
      SpendsNothing(n, r, id);
    }
  }

  lemma SpendsSame(n: Node, n': Node, r: Reply, id: nat)
    requires n'.requestId == n.requestId && Spends(n', r, id)
    ensures Spends(n, r, id)
  {}

  /** Every call but a successful press of the start button only spends. */
  lemma CallSpends(n: Node, call: Call, id: nat)
    requires id != 0 && (call.Press? ==> Do(n, call).effects == [])
    ensures Spends(n, Do(n, call), id)
  {
    hide CancelStart, Tick, Hear, Spends;
    SpendsNothing(n, Reply(n, []), id);
    match call
    case Press(env) =>
    case PressReset(env) => SpendsNothing(n, Do(n, call), id);
    case Input(down) => SpendsNothing(n, Reply(ReadInput(n, down), []), id);
    case Frame(env) => FrameSpends(n, env, id);
    case Deliver(sender, m, env) => HearSpends(n, sender, m, env, id);
    case Left(p, env) => CancelSpends(n, env, id);
    case Joined(env) => CancelSpends(n, env, id);
    case NewOwner => SpendsNothing(n, Reply(OwnerChanged(n), []), id);
    case Dropped => SpendsNothing(n, Reply(Disconnected(n), []), id);
  }

  // ---- opening ----

  /** A press that opens a request gives it a new id, larger than all before, if and only if
      the 64-bit counter does not overflow. */
  lemma PressOpens(n: Node, env: Env)
    requires n.sequence < UINT64 && env.seed < UINT64 && Do(n, Press(env)).effects != []
    ensures var r := Do(n, Press(env));
            && r.effects == [Opened(r.node.requestId, env.peers)]
            && r.node.requestId == r.node.sequence
            && (r.node.sequence > n.sequence <==> (if n.sequence == 0 then env.seed else n.sequence) + 1 < UINT64)
  {}

  predicate Fits(n: Node, call: Call) { call.Press? ==> PressFits(n, call.env) }

  /** No press of the run overflows the counter. */
  predicate RunFits(n: Node, calls: seq<Call>)
    decreases |calls|
  {
    calls == [] ||
    (RunFits(n, calls[..|calls| - 1]) && Fits(RunFrom(n, calls[..|calls| - 1]).node, calls[|calls| - 1]))
  }

  lemma SequenceKept(n: Node, call: Call)
    requires call.Press? ==> Do(n, call).effects == []
    ensures Do(n, call).node.sequence == n.sequence
    ensures forall e :: e in Do(n, call).effects ==> !e.Opened?
  {
    hide Tick, Hear, Broadcast;
    BroadcastTries();
    match call
    case Frame(env) => FrameSteady(n, env);
    case Deliver(sender, m, env) => HearSteady(n, sender, m, env);
    case _ =>
  }

  lemma BroadcastTries()
    ensures forall env: Env, m: Message :: Broadcast(env, m).Tried? && ToOwner(env, m).Tried?
  {}

  /** The open request, if any, is the latest; later ids are untouched. */
  predicate Latest(n: Node, effects: seq<Effect>) {
    && (n.requestId == 0 || n.requestId == n.sequence)
    && (forall i :: 0 <= i < |effects| && effects[i].Opened? ==> 0 < effects[i].id <= n.sequence)
    && (forall i, j :: 0 <= i < j < |effects| && effects[i].Opened? && effects[j].Opened? ==>
          effects[i].id < effects[j].id)
  }

  /** Over every run: ids strictly increase, and each id is ended at most once, and never while it is still open. */
  lemma {:induction false} RequestsEndOnce(calls: seq<Call>, id: nat)
    requires RunFits(IDLE_NODE, calls) && id != 0
    ensures var r := RunFrom(IDLE_NODE, calls);
            && Latest(r.node, r.effects)
            && EndCount(r.effects, id) + One(r.node.requestId == id) <= 1
            && (id > r.node.sequence ==> EndCount(r.effects, id) + One(r.node.requestId == id) == 0)
    decreases |calls|
  {
    hide Do, PressFits, EndCount;
    if calls == [] {
      NoEnds([], id);
    } else {
      var before := RunFrom(IDLE_NODE, calls[..|calls| - 1]);
      var call := calls[|calls| - 1];
      var last := Do(before.node, call);
      RequestsEndOnce(calls[..|calls| - 1], id);
      EndCountAppend(before.effects, last.effects, id);
      StepEndsOnce(before, call, id);
    }
  }

  lemma StepEndsOnce(before: Reply, call: Call, id: nat)
    requires Fits(before.node, call) && id != 0 && Latest(before.node, before.effects)
    requires EndCount(before.effects, id) + One(before.node.requestId == id) <= 1
    requires id > before.node.sequence ==> EndCount(before.effects, id) + One(before.node.requestId == id) == 0
    ensures var last := Do(before.node, call);
            && Latest(last.node, before.effects + last.effects)
            && EndCount(before.effects, id) + EndCount(last.effects, id) + One(last.node.requestId == id) <= 1
            && (id > last.node.sequence ==>
                  EndCount(before.effects, id) + EndCount(last.effects, id) + One(last.node.requestId == id) == 0)
  {
    hide Do, EndCount;
    var last := Do(before.node, call);
    if call.Press? && last.effects != [] {
      FitsOpens(before.node, call.env);
      NoEnds(last.effects, id);
    } else {
      SequenceKept(before.node, call);
      CallSpends(before.node, call, id);
      assert last.node.requestId == before.node.requestId || last.node.requestId == 0 by {
        StillOrNone(before.node, call);
      }
    }
  }

  lemma FitsOpens(n: Node, env: Env)
    requires PressFits(n, env) && Do(n, Press(env)).effects != []
    ensures var r := Do(n, Press(env));
            && r.effects == [Opened(r.node.requestId, env.peers)]
            && n.requestId == 0 && r.node.requestId == r.node.sequence > n.sequence
  {}

  lemma StillOrNone(n: Node, call: Call)
    requires call.Press? ==> Do(n, call).effects == []
    ensures Quiet(n, Do(n, call))
  {
    hide Do, Quiet;
    if Do(n, call).node.requestId != 0 { CallSpends(n, call, Do(n, call).node.requestId); }
    OneIsRight(n, call);
  }

  lemma OneIsRight(n: Node, call: Call)
    requires Do(n, call).node.requestId != 0 ==> Spends(n, Do(n, call), Do(n, call).node.requestId)
    ensures Quiet(n, Do(n, call))
  {
    hide Do, EndCount;
  }

  // ---- once a request is over ----

  /** The host takes no notice of a message that carries any other id than that of its open request. */
  lemma OtherIdsIgnored(n: Node, sender: PeerId, m: Message, env: Env)
    requires env.role.Host? && m.kind != Reset && m.id != Some(n.requestId)
    ensures Hear(n, sender, m, env) == Reply(n, [])
  {}

  lemma OverStaysOver(n: Node, call: Call, id: nat)
    requires Fits(n, call) && id != 0 && id <= n.sequence && n.requestId != id
    ensures id <= Do(n, call).node.sequence && Do(n, call).node.requestId != id
  {
    hide Do, PressFits;
    if call.Press? && Do(n, call).effects != [] {
      FitsOpens(n, call.env);
    } else {
      SequenceKept(n, call);
      StillOrNone(n, call);
    }
  }

  /** After a request is over, whatever else happens, no later message carrying its id changes the host. */
  lemma {:induction false} OverForGood(n: Node, calls: seq<Call>, id: nat, sender: PeerId, m: Message, env: Env)
    requires RunFits(n, calls) && id != 0 && id <= n.sequence && n.requestId != id
    requires env.role.Host? && m.kind != Reset && m.id == Some(id)
    ensures var later := RunFrom(n, calls).node;
            && id <= later.sequence && later.requestId != id
            && Hear(later, sender, m, env) == Reply(later, [])
    decreases |calls|
  {
    hide Do, Hear, Fits;
    if calls != [] {
      OverForGood(n, calls[..|calls| - 1], id, sender, m, env);
      OverStaysOver(RunFrom(n, calls[..|calls| - 1]).node, calls[|calls| - 1], id);
    }
    OtherIdsIgnored(RunFrom(n, calls).node, sender, m, env);
  }

  // ---- membership ----

  datatype Happening = Called(call: Call) | PeerLeaves(peer: PeerId, env: Env) | PeerJoins(peer: PeerId, env: Env)

  datatype Watched = Watched(node: Node, peers: set<PeerId>)

  /** A membership change reaches the node as an event; ticks and presses find the peers the events told of. */
  function Happens(w: Watched, h: Happening): Watched {
    match h
    case Called(call) => Watched(Do(w.node, call).node, w.peers)
    case PeerLeaves(p, env) => Watched(Do(w.node, Left(p, env)).node, w.peers - {p})
    case PeerJoins(p, env) => Watched(Do(w.node, Joined(env)).node, w.peers + {p})
  }

  predicate InStep(w: Watched, h: Happening) {
    h.Called? ==>
      && !h.call.Left? && !h.call.Joined?
      && (h.call.Press? ==> h.call.env.peers == w.peers)
      && (h.call.Frame? ==> h.call.env.peers == w.peers)
  }

  function Watch(w: Watched, hs: seq<Happening>): Watched
    decreases |hs|
  {
    if hs == [] then w else Happens(Watch(w, hs[..|hs| - 1]), hs[|hs| - 1])
  }

  predicate AllInStep(w: Watched, hs: seq<Happening>)
    decreases |hs|
  {
    hs == [] || (AllInStep(w, hs[..|hs| - 1]) && InStep(Watch(w, hs[..|hs| - 1]), hs[|hs| - 1]))
  }

  predicate Tracks(w: Watched) { w.node.requestId != 0 ==> w.node.participants == w.peers }

  lemma ParticipantsKept(n: Node, call: Call)
    requires call.Press? ==> Do(n, call).effects == []
    ensures Do(n, call).node.requestId != 0 ==> Do(n, call).node.participants == n.participants
    ensures Quiet(n, Do(n, call))
  {
    hide Tick, Hear, Broadcast;
    StillOrNone(n, call);
    match call
    case Frame(env) => FrameSteady(n, env);
    case Deliver(sender, m, env) => HearSteady(n, sender, m, env);
    case _ =>
  }

  lemma HappensTracks(w: Watched, h: Happening)
    requires Tracks(w) && InStep(w, h)
    ensures Tracks(Happens(w, h))
  {
    hide Tick, Hear, CancelStart;
    match h
    case Called(call) =>
      if !(call.Press? && Do(w.node, call).effects != []) { ParticipantsKept(w.node, call); }
    case PeerLeaves(p, env) => CancelLeavesNone(w.node, env);
    case PeerJoins(p, env) => CancelLeavesNone(w.node, env);
  }

  lemma CancelLeavesNone(n: Node, env: Env)
    ensures CancelStart(n, env).node.requestId == 0
  {}

  lemma {:induction false} WatchTracks(hs: seq<Happening>, peers: set<PeerId>)
    requires AllInStep(Watched(IDLE_NODE, peers), hs)
    ensures Tracks(Watch(Watched(IDLE_NODE, peers), hs))
    decreases |hs|
  {
    hide Happens, InStep;
    if hs != [] {
      WatchTracks(hs[..|hs| - 1], peers);
      HappensTracks(Watch(Watched(IDLE_NODE, peers), hs[..|hs| - 1]), hs[|hs| - 1]);
    }
  }

  /** The frame commits: it announces the start and begins the run. */
  predicate Commits(n: Node, env: Env) { n.requestId != 0 && Ran(n.requestId) in Tick(n, env).effects }

  lemma CommitsMeans(n: Node, env: Env)
    requires Commits(n, env)
    ensures n.phase == Countdown && |n.participants| == |env.peers|
  {
    hide CancelStart, TickHold, TickHostCheck, TickGuestCheck, Broadcast;
    SpeedrunSafety.CancelRunsNothing(n, env);
    SpeedrunSafety.FrameRunsNothing(n, env, n.requestId);
    BroadcastTries();
  }

  /** When membership changes arrive as events before the next frame, a commit's participants are the current peers. */
  lemma CommitHasEverybody(hs: seq<Happening>, peers: set<PeerId>, env: Env)
    requires AllInStep(Watched(IDLE_NODE, peers), hs)
    requires var w := Watch(Watched(IDLE_NODE, peers), hs);
             env.peers == w.peers && Commits(w.node, env)
    ensures Watch(Watched(IDLE_NODE, peers), hs).node.participants == env.peers
  {
    WatchTracks(hs, peers);
  }

  /** The guard of the commit only compares sizes. So without that timing a commit has the right participants
      if and only if none of them is missing from the current peers. */
  lemma CommitComparesSizes(n: Node, env: Env)
    requires Commits(n, env)
    ensures n.participants == env.peers <==> n.participants <= env.peers
  {
    CommitsMeans(n, env);
    if n.participants <= env.peers {
      assert |env.peers - n.participants| == |env.peers| - |n.participants|;
    }
  }

  // ---- the hold ----

  function NodeAt(calls: seq<Call>, i: nat): Node
    requires i <= |calls|
  {
    RunFrom(IDLE_NODE, calls[..i]).node
  }

  /** A frame of request `id` that saw Down held while waiting for players. */
  predicate SawDown(n: Node, id: nat) {
    n.downHeld && n.phase == WaitingReady && CurrentId(n) == id
  }

  /** From the frame at `j`, which read the clock as `t`, every frame before `k` saw Down held. */
  ghost predicate HeldSince(calls: seq<Call>, j: nat, k: nat, t: nat, id: nat)
    requires k <= |calls|
  {
    && j < k && calls[j].Frame? && calls[j].env.now == t
    && forall i :: j <= i < k && calls[i].Frame? ==> SawDown(NodeAt(calls, i), id)
  }

  /** A hold is only going on while players are awaited or counted down, and not after it is complete. */
  predicate HoldOk(n: Node) {
    n.holdStart != 0 ==>
      n.resetAt == 0 && !n.localPlayerReady && (n.phase == WaitingReady || n.phase == Countdown)
  }

  /** The hold is dropped, or it stays as it is within the same request. */
  predicate KeepsHold(n: Node, n': Node) {
    || n'.holdStart == 0
    || (&& n'.holdStart == n.holdStart && n'.resetAt == n.resetAt
        && n'.requestId == n.requestId && n'.peerRequestId == n.peerRequestId
        && n'.localPlayerReady == n.localPlayerReady
        && (n'.phase == n.phase || n'.phase == Countdown || n.phase == CheckingSaves))
  }

  lemma BeginKeepsHold(n: Node, env: Env)
    ensures CancelStart(n, env).node.holdStart == 0 && KeepsHold(n, BeginReady(n, env).node)
    ensures KeepsHold(n, BeginCountdown(n, env).node) && KeepsHold(n, AnnounceCount(n, env).node)
  {}

  lemma CheckPeersKeepsHold(n: Node, env: Env)
    ensures KeepsHold(n, CheckPeers(n, env).node)
  {
    hide CancelStart, BeginReady, Checks, CheckAccepted;
    BeginKeepsHold(n, env);
    BeginKeepsHold(n.(checksSent := true), env);
  }

  lemma CheckKeepsHold(n: Node, env: Env)
    ensures KeepsHold(n, TickHostCheck(n, env).node) && KeepsHold(n, TickGuestCheck(n, env).node)
  {
    hide CancelStart, CheckPeers, ToOwner;
    BeginKeepsHold(n, env);
    CheckPeersKeepsHold(n, env);
    CheckPeersKeepsHold(n.(localReady := true), env);
  }

  lemma CommitKeepsHold(n: Node, env: Env)
    ensures KeepsHold(n, Commit(n, env).node)
  {
    hide Broadcast;
  }

  lemma HearKeepsHold(n: Node, sender: PeerId, m: Message, env: Env)
    ensures KeepsHold(n, Hear(n, sender, m, env).node)
  {
    hide HearReady, HearPlayerReady, HearOwner;
    if m.id.Some? {
      HearReadyKeepsHold(n, sender, m, env);
      HearPlayerReadyKeepsHold(n, sender, m, env);
      HearOwnerKeepsHold(n, m, env);
    }
  }

  lemma HearReadyKeepsHold(n: Node, sender: PeerId, m: Message, env: Env)
    requires m.id.Some?
    ensures KeepsHold(n, HearReady(n, sender, m, env).node)
  {
    hide CancelStart, BeginReady;
    BeginKeepsHold(n, env);
    BeginKeepsHold(n.(waiting := n.waiting - {sender}), env);
  }

  lemma HearPlayerReadyKeepsHold(n: Node, sender: PeerId, m: Message, env: Env)
    requires m.id.Some?
    ensures KeepsHold(n, HearPlayerReady(n, sender, m, env).node)
  {
    hide CancelStart, AnnounceCount;
    var more := n.readyPeers + {sender};
    BeginKeepsHold(n, env);
    BeginKeepsHold(n.(readyPeers := more, readyCount := (|more| + if n.localPlayerReady then 1 else 0) % UINT32), env);
  }

  lemma HearOwnerKeepsHold(n: Node, m: Message, env: Env)
    requires m.id.Some?
    ensures KeepsHold(n, HearOwner(n, m, env).node)
  {
    hide ToOwner;
  }

  /** At a hold frame the hold goes on from before, starts now, or is dropped. */
  lemma TickHoldHolds(n: Node, env: Env)
    requires HoldOk(n) && n.phase == WaitingReady && n.resetAt == 0
    ensures var n' := TickHold(n, env).node;
            n'.holdStart != 0 && n'.phase == WaitingReady && !n.localPlayerReady ==>
              SawDown(n, CurrentId(n')) && (n'.holdStart == n.holdStart || n'.holdStart == env.now)
    ensures HoldOk(TickHold(n, env).node)
    ensures n.localPlayerReady ==> TickHold(n, env) == Reply(n, [])
  {
    hide TellReady;
    TellDropsHold(n.(localPlayerReady := true, holdStart := 0), env);
  }

  lemma TellDropsHold(n: Node, env: Env)
    requires n.holdStart == 0
    ensures TellReady(n, env).node.holdStart == 0
  {}

  /** Where a started hold comes from: it goes on, or this frame starts it. */
  lemma HoldComesFrom(n: Node, call: Call)
    requires HoldOk(n)
    ensures HoldOk(Do(n, call).node)
    ensures var n' := Do(n, call).node;
            n'.holdStart != 0 && n'.phase == WaitingReady ==>
              if call.Frame? then
                SawDown(n, CurrentId(n')) && (n'.holdStart == n.holdStart || n'.holdStart == call.env.now)
              else
                n.holdStart == n'.holdStart && n.phase == WaitingReady && CurrentId(n) == CurrentId(n')
  {
    hide Tick, Hear, Broadcast, CancelStart;
    match call
    case Frame(env) => FrameHold(n, env);
    case Deliver(sender, m, env) => HearKeepsHold(n, sender, m, env);
    case Left(p, env) => BeginKeepsHold(n, env);
    case Joined(env) => BeginKeepsHold(n, env);
    case _ =>
  }

  lemma FrameHold(n: Node, env: Env)
    requires HoldOk(n)
    ensures HoldOk(Tick(n, env).node)
    ensures var n' := Tick(n, env).node;
            n'.holdStart != 0 && n'.phase == WaitingReady ==>
              SawDown(n, CurrentId(n')) && (n'.holdStart == n.holdStart || n'.holdStart == env.now)
  {
    hide CancelStart, Commit, TickHold, TickHostCheck, TickGuestCheck;
    BeginKeepsHold(n, env);
    CommitKeepsHold(n, env);
    CheckKeepsHold(n, env);
    if n.phase == WaitingReady && n.resetAt == 0 { TickHoldHolds(n, env); }
  }

  lemma {:induction false} HoldHasStart(calls: seq<Call>, k: nat) returns (j: nat)
    requires k <= |calls|
    ensures var n := NodeAt(calls, k);
            && HoldOk(n)
            && (n.holdStart != 0 && n.phase == WaitingReady ==> HeldSince(calls, j, k, n.holdStart, CurrentId(n)))
    decreases k
  {
    hide Do, SawDown;
    j := 0;
    if k != 0 {
      assert calls[..k][..k - 1] == calls[..k - 1];
      j := HoldHasStart(calls, k - 1);
      HoldComesFrom(NodeAt(calls, k - 1), calls[k - 1]);
      var n := NodeAt(calls, k - 1);
      var n' := NodeAt(calls, k);
      if n'.holdStart != 0 && n'.phase == WaitingReady && calls[k - 1].Frame? && n'.holdStart != n.holdStart {
        j := k - 1;
      }
      if n'.holdStart != 0 && n'.phase == WaitingReady && calls[k - 1].Frame? { SawDownMeans(n, CurrentId(n')); }
    }
  }

  lemma SawDownMeans(n: Node, id: nat)
    requires SawDown(n, id)
    ensures n.phase == WaitingReady && CurrentId(n) == id
  {}

  lemma HeldDownMeans(n: Node, env: Env, id: nat)
    requires HeldDown(id) in Tick(n, env).effects
    ensures SawDown(n, id) && n.holdStart != 0 && n.holdStart + SECOND <= env.now
  {
    hide TickHold, TickHostCheck, TickGuestCheck, Commit, CancelStart, Broadcast;
    OthersHoldNothing(n, env, id);
    if HeldDown(id) in TickHold(n, env).effects { TickHoldMeans(n, env, id); }
  }

  lemma CancelHoldsNothing(n: Node, env: Env, id: nat)
    ensures HeldDown(id) !in CancelStart(n, env).effects && HeldDown(id) !in BeginReady(n, env).effects
    ensures HeldDown(id) !in Commit(n, env).effects && HeldDown(id) !in TickGuestCheck(n, env).effects
  {}

  lemma CheckPeersHoldsNothing(n: Node, env: Env, id: nat)
    ensures HeldDown(id) !in CheckPeers(n, env).effects
  {
    hide CancelStart, BeginReady, Checks, CheckAccepted;
    ChecksAreTried(n.participants, n.requestId, env);
    assert HeldDown(id) !in Checks(n.participants, n.requestId, env);
    CancelHoldsNothing(n, env, id);
    CancelHoldsNothing(n.(checksSent := true), env, id);
  }

  lemma OthersHoldNothing(n: Node, env: Env, id: nat)
    ensures HeldDown(id) !in TickHostCheck(n, env).effects && HeldDown(id) !in TickGuestCheck(n, env).effects
    ensures HeldDown(id) !in Commit(n, env).effects && HeldDown(id) !in CancelStart(n, env).effects
  {
    hide CheckPeers, CancelStart, Commit, TickGuestCheck;
    CancelHoldsNothing(n, env, id);
    CheckPeersHoldsNothing(n, env, id);
    CheckPeersHoldsNothing(n.(localReady := true), env, id);
  }

  lemma TickHoldMeans(n: Node, env: Env, id: nat)
    requires HeldDown(id) in TickHold(n, env).effects && n.phase == WaitingReady
    ensures SawDown(n, id) && n.holdStart != 0 && n.holdStart + SECOND <= env.now
  {}

  /** A hold is completed at a frame and at no other time. */
  lemma HeldDownAtFrame(n: Node, call: Call, id: nat)
    requires HeldDown(id) in Do(n, call).effects
    ensures call.Frame?
  {
    hide Tick, Hear, CancelStart, Broadcast;
    BroadcastTries();
    if EnvOf(call).Some? { OthersHoldNothing(n, EnvOf(call).value, id); }
    if call.Deliver? { HearHoldsNothing(n, call.sender, call.message, call.env, id); }
  }

  lemma HearHoldsNothing(n: Node, sender: PeerId, m: Message, env: Env, id: nat)
    ensures HeldDown(id) !in Hear(n, sender, m, env).effects
  {
    hide CancelStart, BeginReady, AnnounceCount, ToOwner;
    BroadcastTries();
    var more := n.readyPeers + {sender};
    var counted := n.(readyPeers := more, readyCount := (|more| + if n.localPlayerReady then 1 else 0) % UINT32);
    OthersHoldNothing(n, env, id);
    BeginHoldsNothing(n.(waiting := n.waiting - {sender}), env, id);
    BeginHoldsNothing(counted, env, id);
  }

  lemma BeginHoldsNothing(n: Node, env: Env, id: nat)
    ensures HeldDown(id) !in BeginReady(n, env).effects && HeldDown(id) !in AnnounceCount(n, env).effects
  {}

  /** Who is counted as having held Down did so at every frame of at least a second, within one and the same request. */
  lemma HeldForASecond(calls: seq<Call>, k: nat, id: nat)
    requires k < |calls| && calls[k].Frame? && HeldDown(id) in Do(NodeAt(calls, k), calls[k]).effects
    ensures exists j :: 0 <= j < k && calls[j].Frame? && calls[j].env.now + SECOND <= calls[k].env.now &&
              forall i :: j <= i <= k && calls[i].Frame? ==> SawDown(NodeAt(calls, i), id)
  {
    HeldDownMeans(NodeAt(calls, k), calls[k].env, id);
    var j := HoldHasStart(calls, k);
    SawDownMeans(NodeAt(calls, k), id);
    assert calls[j].Frame?;
  }

  // ---- what a node can always promise ----

  /** Ids increase, and request `id`, for each of them, has ended at most once, and not while it is open. */
  ghost predicate Accounted(n: Node, effects: seq<Effect>) {
    Latest(n, effects) && forall id: nat :: id != 0 ==> EndedOnce(n, effects, id)
  }

  ghost predicate EndedOnce(n: Node, effects: seq<Effect>, id: nat) {
    && EndCount(effects, id) + One(n.requestId == id) <= 1
    && (id > n.sequence ==> EndCount(effects, id) + One(n.requestId == id) == 0)
  }

  /** `fits`: no press so far has overflowed the counter. */
  ghost predicate Sound(n: Node, effects: seq<Effect>, fits: bool) {
    Exclusive(n) && HoldOk(n) && (fits ==> Accounted(n, effects))
  }

  lemma AccountedAfter(n: Node, effects: seq<Effect>, call: Call)
    requires Accounted(n, effects) && Fits(n, call)
    ensures Accounted(Do(n, call).node, effects + Do(n, call).effects)
  {
    hide Do, Latest, Fits, EndCount;
    var last := Do(n, call);
    StepLatest(n, effects, call);
    forall id: nat | id != 0 ensures EndedOnce(last.node, effects + last.effects, id) {
      assert EndedOnce(n, effects, id);
      StepEndsOnce(Reply(n, effects), call, id);
      EndCountAppend(effects, last.effects, id);
    }
  }

  lemma StepLatest(n: Node, effects: seq<Effect>, call: Call)
    requires Accounted(n, effects) && Fits(n, call)
    ensures Latest(Do(n, call).node, effects + Do(n, call).effects)
  {
    hide Do, Latest, Fits, EndCount;
    assert EndedOnce(n, effects, 1);
    StepEndsOnce(Reply(n, effects), call, 1);
  }

  /** Every call keeps the promise. */
  lemma CallKeepsSound(n: Node, effects: seq<Effect>, fits: bool, call: Call)
    requires Sound(n, effects, fits)
    ensures Sound(Do(n, call).node, effects + Do(n, call).effects, fits && Fits(n, call))
  {
    hide Do, Exclusive, HoldOk, Accounted, Fits;
    CallExclusive(n, call);
    HoldComesFrom(n, call);
    if fits && Fits(n, call) { AccountedAfter(n, effects, call); }
  }

  lemma IdleIsSound()
    ensures Sound(IDLE_NODE, [], true)
  {}
}
