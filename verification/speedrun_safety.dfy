/** Nobody starts the run before everybody is ready. */
module SpeedrunSafety {
  import opened Common
  import opened SpeedrunModel
  import opened SpeedrunLobby

  // ---- invariant ----

  /** What the host's fields say about the past, for the request it has open. */
  ghost predicate HostOpen(n: Node, log: seq<Entry>) {
    var id := n.requestId;
    && n.phase != Idle
    && |n.participants| + 1 < UINT32
    && n.waiting <= n.participants
    && n.readyPeers <= n.participants
    && Did(log, HOST, Opened(id, n.participants))
    && (n.localReady ==> Did(log, HOST, ProbedClear(id)))
    && (n.localPlayerReady ==> Did(log, HOST, HeldDown(id)))
    && (forall p :: p in n.participants && p !in n.waiting ==> Did(log, p, ProbedClear(id)))
    && (forall p :: p in n.readyPeers ==> Did(log, p, HeldDown(id)))
    && (n.phase == CheckingSaves ==> n.readyPeers == {} && !n.localPlayerReady)
    && (n.phase != CheckingSaves ==> n.localReady && n.waiting == {})
    && (n.phase != CheckingSaves ==> n.readyTotal == |n.participants| + 1)
    && (n.phase != CheckingSaves ==> n.readyCount == |n.readyPeers| + if n.localPlayerReady then 1 else 0)
    && (n.phase == Countdown ==> n.readyCount == n.readyTotal)
  }

  ghost predicate HostOk(n: Node, log: seq<Entry>) {
    && n.peerRequestId == 0
    && (n.requestId == 0 ==> n.phase == Idle)
    && (n.requestId != 0 ==> HostOpen(n, log))
  }

  ghost predicate GuestOk(who: PeerId, n: Node, log: seq<Entry>) {
    && n.requestId == 0
    && (n.peerRequestId == 0 ==> n.phase == Idle && !n.localPlayerReady)
    && (n.peerReady ==> Did(log, who, ProbedClear(n.peerRequestId)))
    && (n.localPlayerReady ==> Did(log, who, HeldDown(n.peerRequestId)))
  }

  ghost predicate MessageOk(who: PeerId, m: Message, log: seq<Entry>) {
    && (m.kind == Ready && m.ready == Some(true) ==> m.id.Some? && Did(log, who, ProbedClear(m.id.value)))
    && (m.kind == PlayerReady && m.ready != Some(false) ==> m.id.Some? && Did(log, who, HeldDown(m.id.value)))
    && (m.kind == Start ==> who == HOST && m.id.Some? && Backed(log, m.id.value))
  }

  ghost predicate EntryOk(e: Entry, log: seq<Entry>) {
    && (e.effect.Tried? ==> MessageOk(e.who, e.effect.message, log))
    && (e.effect.Ran? ==> Backed(log, e.effect.id))
  }

  ghost predicate LogOk(log: seq<Entry>) { forall i :: 0 <= i < |log| ==> EntryOk(log[i], log) }

  ghost predicate NodeOk(who: PeerId, n: Node, log: seq<Entry>) {
    if who == HOST then HostOk(n, log) else GuestOk(who, n, log)
  }

  ghost predicate Inv(s: Lobby) {
    && HOST in s.nodes
    && (forall who :: who in s.nodes ==> NodeOk(who, s.nodes[who], s.log))
    && LogOk(s.log)
  }

  // ---- the past only grows ----

  lemma EntryGrows(e: Entry, log: seq<Entry>, more: seq<Entry>)
    requires EntryOk(e, log)
    ensures EntryOk(e, log + more)
  {
    hide Backed;
    forall id | Backed(log, id) ensures Backed(log + more, id) { BackedGrows(log, more, id); }
  }

  lemma NodeGrows(who: PeerId, n: Node, log: seq<Entry>, more: seq<Entry>)
    requires NodeOk(who, n, log)
    ensures NodeOk(who, n, log + more)
  {}

  /** `r` leaves its node and everything it did in order. */
  ghost predicate Good(who: PeerId, log: seq<Entry>, r: Reply) {
    && NodeOk(who, r.node, Grow(log, who, r.effects))
    && Justified(who, log, r.effects)
  }

  ghost predicate Justified(who: PeerId, log: seq<Entry>, effects: seq<Effect>) {
    forall i :: 0 <= i < |effects| ==> EntryOk(Entry(who, effects[i]), Grow(log, who, effects))
  }

  lemma GoodNothing(who: PeerId, log: seq<Entry>, n: Node)
    requires NodeOk(who, n, log)
    ensures Good(who, log, Reply(n, []))
  {
    assert Grow(log, who, []) == log;
  }

  lemma GoodAfter(who: PeerId, log: seq<Entry>, a: seq<Effect>, r: Reply)
    requires Justified(who, log, a) && Good(who, Grow(log, who, a), r)
    ensures Good(who, log, After(a, r))
  {
    hide EntryOk, NodeOk;
    GrowAppend(log, who, a, r.effects);
    forall i | 0 <= i < |a| ensures EntryOk(Entry(who, (a + r.effects)[i]), Grow(log, who, a + r.effects)) {
      EntryGrows(Entry(who, a[i]), Grow(log, who, a), Entries(who, r.effects));
    }
  }

  /** Effects that say nothing about readiness need no justification. */
  predicate Harmless(e: Effect) {
    && (e.Tried? ==> e.message.kind != Ready && e.message.kind != PlayerReady && e.message.kind != Start)
    && !e.Ran?
  }

  lemma HarmlessJustified(who: PeerId, log: seq<Entry>, effects: seq<Effect>)
    requires forall e :: e in effects ==> Harmless(e)
    ensures Justified(who, log, effects)
  {
    forall i | 0 <= i < |effects| ensures EntryOk(Entry(who, effects[i]), Grow(log, who, effects)) {
      assert Harmless(effects[i]);
    }
  }

  lemma HarmlessThen(who: PeerId, log: seq<Entry>, e: Effect, n: Node)
    requires Harmless(e) && NodeOk(who, n, Grow(log, who, [e]))
    ensures Good(who, log, Reply(n, [e]))
  {
    HarmlessJustified(who, log, [e]);
  }

  // ---- the host ----

  lemma CancelGood(n: Node, env: Env, log: seq<Entry>)
    ensures Good(HOST, log, CancelStart(n, env))
  {
    hide HostOpen, Backed;
    if n.requestId != 0 {
      HarmlessThen(HOST, log, Broadcast(env, Plain(Cancel, n.requestId)), Cleared(n));
    } else {
      GoodNothing(HOST, log, Cleared(n));
    }
  }

  lemma SubsetOfSameSize(a: set<PeerId>, b: set<PeerId>)
    requires a <= b && |a| == |b|
    ensures a == b
  {
    assert |b - a| == |b| - |a|;
  }

  /** The cached counts stand for sets: when they agree, everybody is ready. */
  lemma CountsMeanEverybody(n: Node, log: seq<Entry>)
    requires HostOpen(n, log) && n.phase != CheckingSaves && n.readyCount == n.readyTotal
    ensures n.localPlayerReady && n.readyPeers == n.participants
    ensures Backed(log, n.requestId)
  {
    CardinalityOfSubset(n.readyPeers, n.participants);
    SubsetOfSameSize(n.readyPeers, n.participants);
    assert AllReady(log, n.requestId, n.participants);
  }

  lemma CardinalityOfSubset(a: set<PeerId>, b: set<PeerId>)
    requires a <= b
    ensures |a| <= |b|
  {
    assert |b - a| == |b| - |a|;
  }

  lemma BeginReadyGood(n: Node, env: Env, log: seq<Entry>)
    requires HostOk(n, log)
    ensures Good(HOST, log, BeginReady(n, env))
  {
    hide CancelStart, Good, Backed, Did;
    if n.requestId == 0 || n.phase != CheckingSaves || !n.localReady || n.waiting != {} {
      GoodNothing(HOST, log, n);
    } else {
      var total := |n.participants| + 1;
      var asked := n.(readyTotal := total, readyCount := 0);
      var sent := Broadcast(env, Asked(n.requestId, total));
      if sent.ok {
        NodeGrows(HOST, asked.(phase := WaitingReady), log, Entries(HOST, [sent]));
        HarmlessThen(HOST, log, sent, asked.(phase := WaitingReady));
      } else {
        CancelGood(asked, env, Grow(log, HOST, [sent]));
        HarmlessJustified(HOST, log, [sent]);
        GoodAfter(HOST, log, [sent], CancelStart(asked, env));
      }
    }
  }

  lemma BeginCountdownGood(n: Node, env: Env, log: seq<Entry>)
    requires HostOk(n, log)
    ensures Good(HOST, log, BeginCountdown(n, env))
  {
    hide CancelStart, Good, Backed, Did;
    if n.requestId == 0 || n.phase != WaitingReady || n.readyCount != n.readyTotal {
      GoodNothing(HOST, log, n);
    } else {
      var sent := Broadcast(env, Plain(CountdownStarts, n.requestId));
      if sent.ok {
        var n' := n.(phase := Countdown, countdownAt := env.now + 3 * SECOND);
        NodeGrows(HOST, n', log, Entries(HOST, [sent]));
        HarmlessThen(HOST, log, sent, n');
      } else {
        CancelGood(n, env, Grow(log, HOST, [sent]));
        HarmlessJustified(HOST, log, [sent]);
        GoodAfter(HOST, log, [sent], CancelStart(n, env));
      }
    }
  }

  lemma AnnounceGood(n: Node, env: Env, log: seq<Entry>)
    requires HostOk(n, log)
    ensures Good(HOST, log, AnnounceCount(n, env))
  {
    hide CancelStart, BeginCountdown, Good, HostOk;
    var sent := Broadcast(env, Counts(n.requestId, n.readyCount, n.readyTotal));
    var log' := Grow(log, HOST, [sent]);
    HarmlessJustified(HOST, log, [sent]);
    if sent.ok {
      NodeGrows(HOST, n, log, Entries(HOST, [sent]));
      BeginCountdownGood(n, env, log');
      GoodAfter(HOST, log, [sent], BeginCountdown(n, env));
    } else {
      CancelGood(n, env, log');
      GoodAfter(HOST, log, [sent], CancelStart(n, env));
    }
  }

  lemma PressGood(n: Node, env: Env, log: seq<Entry>)
    requires HostOk(n, log) && PressFits(n, env)
    ensures Good(HOST, log, StartPressed(n, env))
  {
    hide HostOpen, Backed, Good;
    var r := StartPressed(n, env);
    if r.effects == [] {
      GoodNothing(HOST, log, n);
    } else {
      DidNow(log, HOST, r.effects, 0);
      OpenedOk(r.node, env, Grow(log, HOST, r.effects));
      HarmlessThen(HOST, log, r.effects[0], r.node);
    }
  }

  lemma OpenedOk(n: Node, env: Env, log: seq<Entry>)
    requires n.requestId != 0 && n.phase == CheckingSaves && n.participants == n.waiting && n.readyPeers == {}
    requires !n.localReady && !n.localPlayerReady && |n.participants| + 1 < UINT32
    requires Did(log, HOST, Opened(n.requestId, n.participants))
    ensures HostOpen(n, log)
  {}

  lemma CommitGood(n: Node, env: Env, log: seq<Entry>)
    requires HostOk(n, log)
    ensures Good(HOST, log, Commit(n, env))
  {
    hide CancelStart, Good, Backed, Did;
    if n.phase != Countdown || !n.localReady || !n.localPlayerReady || n.readyCount != n.readyTotal ||
       n.waiting != {} || !env.modeActive || !env.canStart || |n.participants| != |env.peers| {
      CancelGood(n, env, log);
    } else {
      var sent := Broadcast(env, Plain(Start, n.requestId));
      CountsMeanEverybody(n, log);
      StartJustified(log, sent, n.requestId);
      if sent.ok {
        CommittedGood(n, log, sent);
      } else {
        CancelGood(n, env, Grow(log, HOST, [sent]));
        GoodAfter(HOST, log, [sent], CancelStart(n, env));
      }
    }
  }

  lemma StartJustified(log: seq<Entry>, sent: Effect, id: nat)
    requires Backed(log, id) && sent.Tried? && sent.message == Plain(Start, id)
    ensures Justified(HOST, log, [sent])
  {
    hide Backed;
    BackedGrows(log, Entries(HOST, [sent]), id);
  }

  lemma CommittedGood(n: Node, log: seq<Entry>, sent: Effect)
    requires Backed(log, n.requestId) && sent.Tried? && sent.message == Plain(Start, n.requestId)
    ensures Good(HOST, log, Reply(Cleared(n), [sent, Ran(n.requestId)]))
  {
    hide Backed, HostOpen;
    BackedGrows(log, Entries(HOST, [sent, Ran(n.requestId)]), n.requestId);
  }

  lemma {:induction false} ChecksHarmless(rest: set<PeerId>, id: nat, env: Env)
    ensures forall e :: e in Checks(rest, id, env) ==> Harmless(e)
    decreases |rest|
  {
    if rest != {} { ChecksHarmless(rest - {Smallest(rest)}, id, env); }
  }

  lemma CheckPeersGood(n: Node, env: Env, log: seq<Entry>)
    requires HostOk(n, log)
    ensures Good(HOST, log, CheckPeers(n, env))
  {
    hide CancelStart, BeginReady, Good, HostOpen, Checks;
    if n.checksSent {
      if n.waiting == {} { BeginReadyGood(n, env, log); } else { GoodNothing(HOST, log, n); }
    } else {
      var checks := Checks(n.participants, n.requestId, env);
      var log' := Grow(log, HOST, checks);
      ChecksHarmless(n.participants, n.requestId, env);
      HarmlessJustified(HOST, log, checks);
      if exists p :: p in n.participants && !CheckAccepted(env, p) {
        CancelGood(n, env, log');
        GoodAfter(HOST, log, checks, CancelStart(n, env));
      } else {
        var sent := n.(checksSent := true);
        NodeGrows(HOST, n, log, Entries(HOST, checks));
        SentStillOk(n, log');
        if n.waiting == {} {
          BeginReadyGood(sent, env, log');
          GoodAfter(HOST, log, checks, BeginReady(sent, env));
        } else {
          GoodNothing(HOST, log', sent);
          GoodAfter(HOST, log, checks, Reply(sent, []));
        }
      }
    }
  }

  lemma SentStillOk(n: Node, log: seq<Entry>)
    requires HostOk(n, log)
    ensures HostOk(n.(checksSent := true), log)
  {}

  lemma HostCheckGood(n: Node, env: Env, log: seq<Entry>)
    requires HostOk(n, log) && n.requestId != 0
    ensures Good(HOST, log, TickHostCheck(n, env))
  {
    hide CancelStart, CheckPeers, Good, HostOpen;
    if n.localReady {
      CheckPeersGood(n, env, log);
    } else if env.probe.Pending? {
      GoodNothing(HOST, log, n);
    } else if !env.probe.Clear? {
      CancelGood(n, env, log);
    } else {
      var a := [ProbedClear(n.requestId)];
      HarmlessJustified(HOST, log, a);
      HostProbed(n, log);
      CheckPeersGood(n.(localReady := true), env, Grow(log, HOST, a));
      GoodAfter(HOST, log, a, CheckPeers(n.(localReady := true), env));
    }
  }

  lemma HostProbed(n: Node, log: seq<Entry>)
    requires HostOk(n, log) && n.requestId != 0
    ensures HostOk(n.(localReady := true), Grow(log, HOST, [ProbedClear(n.requestId)]))
  {
    NodeGrows(HOST, n, log, Entries(HOST, [ProbedClear(n.requestId)]));
    DidNow(log, HOST, [ProbedClear(n.requestId)], 0);
  }

  lemma HostHoldGood(n: Node, env: Env, log: seq<Entry>)
    requires HostOk(n, log) && n.requestId != 0 && n.phase == WaitingReady
    ensures Good(HOST, log, TickHold(n, env))
  {
    hide Good, AnnounceCount, HostOpen;
    if n.localPlayerReady {
      GoodNothing(HOST, log, n);
    } else if !n.downHeld {
      HoldStartFree(n, 0, log);
      GoodNothing(HOST, log, n.(holdStart := 0));
    } else {
      var held := if n.holdStart == 0 then n.(holdStart := env.now) else n;
      HoldStartFree(n, env.now, log);
      if env.now < held.holdStart + SECOND {
        GoodNothing(HOST, log, held);
      } else {
        var a := [HeldDown(n.requestId)];
        HarmlessJustified(HOST, log, a);
        var done := held.(localPlayerReady := true, holdStart := 0, readyCount := (|n.readyPeers| + 1) % UINT32);
        HostHeld(n, log, done);
        AnnounceGood(done, env, Grow(log, HOST, a));
        GoodAfter(HOST, log, a, AnnounceCount(done, env));
      }
    }
  }

  lemma HoldStartFree(n: Node, t: nat, log: seq<Entry>)
    requires HostOk(n, log)
    ensures HostOk(n.(holdStart := t), log)
  {}

  lemma HostHeld(n: Node, log: seq<Entry>, done: Node)
    requires HostOk(n, log) && n.requestId != 0 && n.phase == WaitingReady && !n.localPlayerReady
    requires done == n.(localPlayerReady := true, holdStart := 0, readyCount := (|n.readyPeers| + 1) % UINT32)
    ensures HostOk(done, Grow(log, HOST, [HeldDown(n.requestId)]))
  {
    NodeGrows(HOST, n, log, Entries(HOST, [HeldDown(n.requestId)]));
    CardinalityOfSubset(n.readyPeers, n.participants);
    DidNow(log, HOST, [HeldDown(n.requestId)], 0);
  }

  lemma HostFrameGood(n: Node, env: Env, log: seq<Entry>)
    requires HostOk(n, log)
    ensures Good(HOST, log, Tick(n, env))
  {
    hide Good, CancelStart, Commit, TickHold, TickHostCheck, Did;
    if n.resetAt != 0 {
      ResetAtFree(n, 0, log);
      GoodNothing(HOST, log, n.(resetAt := 0));
      GoodNothing(HOST, log, n);
    } else if n.phase == Idle {
      GoodNothing(HOST, log, n);
    } else if !env.modeActive {
      CancelGood(n, env, log);
    } else if n.phase == Countdown {
      if env.now >= n.countdownAt { CommitGood(n, env, log); } else { GoodNothing(HOST, log, n); }
    } else if n.phase == WaitingReady {
      HostHoldGood(n, env, log);
    } else if env.now > n.deadline {
      CancelGood(n, env, log);
    } else {
      HostCheckGood(n, env, log);
    }
  }

  lemma ResetAtFree(n: Node, t: nat, log: seq<Entry>)
    requires HostOk(n, log)
    ensures HostOk(n.(resetAt := t), log)
  {}

  /** What the host may believe of a message it hears. */
  lemma HeardIsTrue(log: seq<Entry>, sender: PeerId, who: PeerId, m: Message)
    requires LogOk(log) && Sent(log, sender, who, m)
    ensures MessageOk(sender, m, log)
  {
    var i :| 0 <= i < |log| && log[i].who == sender && log[i].effect.Tried? && log[i].effect.message == m;
    assert EntryOk(log[i], log);
  }

  lemma HostReadyGood(n: Node, sender: PeerId, m: Message, env: Env, log: seq<Entry>)
    requires HostOk(n, log) && MessageOk(sender, m, log) && m.kind == Ready && m.id.Some? && m.id.value != 0
    ensures Good(HOST, log, HearReady(n, sender, m, env))
  {
    hide Good, CancelStart, BeginReady, Backed, Did;
    if !env.role.Host? || m.id.value != n.requestId || sender !in n.waiting || m.ready.None? {
      GoodNothing(HOST, log, n);
    } else if !m.ready.value {
      CancelGood(n, env, log);
    } else {
      var fewer := n.(waiting := n.waiting - {sender});
      assert HostOk(fewer, log);
      if fewer.localReady && fewer.waiting == {} {
        BeginReadyGood(fewer, env, log);
      } else {
        GoodNothing(HOST, log, fewer);
      }
    }
  }

  lemma HostPlayerReadyGood(n: Node, sender: PeerId, m: Message, env: Env, log: seq<Entry>)
    requires HostOk(n, log) && MessageOk(sender, m, log) && m.kind == PlayerReady && m.id.Some? && m.id.value != 0
    ensures Good(HOST, log, HearPlayerReady(n, sender, m, env))
  {
    hide Good, CancelStart, AnnounceCount, Backed, Did;
    if !env.role.Host? || m.id.value != n.requestId || n.phase != WaitingReady || sender !in n.participants {
      GoodNothing(HOST, log, n);
    } else if m.ready == Some(false) {
      CancelGood(n, env, log);
    } else if sender in n.readyPeers {
      GoodNothing(HOST, log, n);
    } else {
      var more := n.readyPeers + {sender};
      CardinalityOfSubset(more, n.participants);
      var n' := n.(readyPeers := more, readyCount := (|more| + if n.localPlayerReady then 1 else 0) % UINT32);
      assert |more| == |n.readyPeers| + 1;
      assert HostOk(n', log);
      AnnounceGood(n', env, log);
    }
  }

  lemma HostHearGood(n: Node, sender: PeerId, m: Message, env: Env, log: seq<Entry>)
    requires HostOk(n, log) && MessageOk(sender, m, log) && env.role.Host?
    ensures Good(HOST, log, Hear(n, sender, m, env))
  {
    hide Good, HearReady, HearPlayerReady, HostOk, MessageOk;
    if m.kind != Reset && m.id.Some? && m.id.value != 0 && m.kind == Ready {
      HostReadyGood(n, sender, m, env, log);
    } else if m.kind != Reset && m.id.Some? && m.id.value != 0 && m.kind == PlayerReady {
      HostPlayerReadyGood(n, sender, m, env, log);
    } else {
      GoodNothing(HOST, log, n);
    }
  }

  lemma HostGood(n: Node, call: Call, log: seq<Entry>)
    requires HostOk(n, log) && !call.NewOwner?
    requires EnvOf(call).Some? ==> EnvOf(call).value.role == Host
    requires call.Press? ==> PressFits(n, call.env)
    requires call.Deliver? ==> MessageOk(call.sender, call.message, log)
    ensures Good(HOST, log, Do(n, call))
  {
    hide Good, StartPressed, Tick, Hear, CancelStart, HostOpen, MessageOk, Backed;
    match call
    case Press(env) => PressGood(n, env, log);
    case PressReset(env) =>
      GoodNothing(HOST, log, n);
      var sent := Broadcast(env, Message(Reset, None, None, None, None));
      NodeGrows(HOST, n, log, Entries(HOST, [sent]));
      HarmlessThen(HOST, log, sent, n);
      HarmlessThen(HOST, log, sent, Cleared(n).(resetAt := env.now + 500));
    case Input(down) =>
      InputFree(n, down, log);
      GoodNothing(HOST, log, ReadInput(n, down));
    case Frame(env) => HostFrameGood(n, env, log);
    case Deliver(sender, m, env) => HostHearGood(n, sender, m, env, log);
    case Left(p, env) =>
      CancelGood(n, env, log);
      GoodNothing(HOST, log, n);
    case Joined(env) =>
      CancelGood(n, env, log);
      GoodNothing(HOST, log, n);
    case Dropped => GoodNothing(HOST, log, Disconnected(n));
  }

  lemma InputFree(n: Node, down: bool, log: seq<Entry>)
    requires HostOk(n, log)
    ensures HostOk(ReadInput(n, down), log)
  {}

  // ---- a guest ----

  lemma GuestCancelGood(who: PeerId, n: Node, env: Env, log: seq<Entry>)
    requires who != HOST && n.requestId == 0
    ensures Good(who, log, CancelStart(n, env))
  {
    GoodNothing(who, log, Cleared(n));
  }

  lemma GuestCheckGood(who: PeerId, n: Node, env: Env, log: seq<Entry>)
    requires who != HOST && GuestOk(who, n, log)
    ensures Good(who, log, TickGuestCheck(n, env))
  {
    hide Backed;
    var r := TickGuestCheck(n, env);
    if r.effects == [] {
      GoodNothing(who, log, n);
    } else if env.probe.Clear? {
      DidNow(log, who, r.effects, 0);
      NodeGrows(who, n, log, Entries(who, r.effects));
    }
  }

  lemma GuestHoldGood(who: PeerId, n: Node, env: Env, log: seq<Entry>)
    requires who != HOST && GuestOk(who, n, log) && n.peerRequestId != 0
    ensures Good(who, log, TickHold(n, env))
  {
    hide Backed;
    var r := TickHold(n, env);
    if r.effects == [] {
      GoodNothing(who, log, r.node);
    } else {
      DidNow(log, who, r.effects, 0);
      NodeGrows(who, n, log, Entries(who, r.effects));
    }
  }

  lemma GuestFrameGood(who: PeerId, n: Node, env: Env, log: seq<Entry>)
    requires who != HOST && GuestOk(who, n, log)
    ensures Good(who, log, Tick(n, env))
  {
    hide Good, CancelStart, Commit, TickHold, TickGuestCheck, TickHostCheck, Did;
    GoodNothing(who, log, n);
    GuestCancelGood(who, n, env, log);
    if n.resetAt != 0 {
      assert GuestOk(who, n.(resetAt := 0), log);
      GoodNothing(who, log, n.(resetAt := 0));
    } else if n.phase == Countdown {
      assert GuestOk(who, Cleared(n), log);
      GoodNothing(who, log, Cleared(n));
    } else if n.phase == WaitingReady {
      GuestHoldGood(who, n, env, log);
    } else if n.phase == CheckingSaves {
      GuestCheckGood(who, n, env, log);
    }
  }

  lemma GuestHearGood(who: PeerId, n: Node, sender: PeerId, m: Message, env: Env, log: seq<Entry>)
    requires who != HOST && GuestOk(who, n, log) && MessageOk(sender, m, log) && env.role == Guest(HOST)
    ensures Good(who, log, Hear(n, sender, m, env))
  {
    hide Backed, AllReady, Did;
    var r := Hear(n, sender, m, env);
    NodeGrows(who, n, log, Entries(who, r.effects));
    if r.effects == [] {
      assert GuestOk(who, r.node, log);
      GoodNothing(who, log, r.node);
    } else if m.kind == Start {
      BackedGrows(log, Entries(who, r.effects), m.id.value);
    }
  }

  lemma GuestGood(who: PeerId, n: Node, call: Call, log: seq<Entry>)
    requires who != HOST && GuestOk(who, n, log) && !call.NewOwner?
    requires EnvOf(call).Some? ==> EnvOf(call).value.role == Guest(HOST)
    requires call.Deliver? ==> MessageOk(call.sender, call.message, log)
    ensures Good(who, log, Do(n, call))
  {
    hide Good, Tick, Hear, MessageOk, Did;
    GoodNothing(who, log, n);
    match call
    case Press(env) =>
    case PressReset(env) =>
    case Input(down) => GoodNothing(who, log, ReadInput(n, down));
    case Frame(env) => GuestFrameGood(who, n, env, log);
    case Deliver(sender, m, env) => GuestHearGood(who, n, sender, m, env, log);
    case Left(p, env) =>
    case Joined(env) =>
    case Dropped => GoodNothing(who, log, Disconnected(n));
  }

  // ---- runs ----

  lemma MoveKeeps(s: Lobby, move: Move)
    requires Inv(s) && Enabled(s, move)
    ensures Inv(Next(s, move))
  {
    hide HostOk, GuestOk, EntryOk, MessageOk, Do, Sent, PressFits;
    var who := move.who;
    var r := Do(s.nodes[who], move.call);
    if move.call.Deliver? { HeardIsTrue(s.log, move.call.sender, who, move.call.message); }
    if who == HOST {
      HostGood(s.nodes[who], move.call, s.log);
    } else {
      GuestGood(who, s.nodes[who], move.call, s.log);
    }
    var s' := Next(s, move);
    forall other | other in s'.nodes ensures NodeOk(other, s'.nodes[other], s'.log) {
      if other != who { NodeGrows(other, s.nodes[other], s.log, Entries(who, r.effects)); }
    }
    forall i | 0 <= i < |s'.log| ensures EntryOk(s'.log[i], s'.log) {
      if i < |s.log| {
        EntryGrows(s.log[i], s.log, Entries(who, r.effects));
      } else {
        assert s'.log[i] == Entry(who, r.effects[i - |s.log|]);
      }
    }
  }

  lemma {:induction false} ReachableInv(moves: seq<Move>, s: Lobby)
    requires Reaches(moves, s)
    ensures Inv(s)
    decreases |moves|
  {
    hide Next, EntryOk, Did, Backed;
    if moves != [] {
      var n := |moves| - 1;
      var before: Lobby :| Reaches(moves[..n], before) && Enabled(before, moves[n]) && s == Next(before, moves[n]);
      ReachableInv(moves[..n], before);
      MoveKeeps(before, moves[n]);
    }
  }

  /** Whoever has started the run for a request, it had been opened for participants who, with the host,
      had all had a clear save probe and held Down for that very request. */
  lemma NobodyStartsEarly(moves: seq<Move>, s: Lobby, who: PeerId, id: nat)
    requires Reaches(moves, s) && Did(s.log, who, Ran(id))
    ensures Backed(s.log, id)
  {
    ReachableInv(moves, s);
    var i :| 0 <= i < |s.log| && s.log[i] == Entry(who, Ran(id));
    assert EntryOk(s.log[i], s.log);
  }

  // ---- guests follow the host ----

  predicate StartsRequest(e: Effect, id: nat) {
    e.Tried? && e.message.kind == Start && e.message.id == Some(id)
  }

  /** The host tried to announce the start of request `id`. */
  predicate Announced(log: seq<Entry>, id: nat) {
    exists i :: 0 <= i < |log| && log[i].who == HOST && StartsRequest(log[i].effect, id)
  }

  /** A node begins the run only when it announces that itself or hears it from the owner. */
  lemma RunIsAnnounced(n: Node, call: Call, id: nat)
    requires Ran(id) in Do(n, call).effects
    ensures (exists e :: e in Do(n, call).effects && StartsRequest(e, id)) ||
            (call.Deliver? && call.env.role == Guest(call.sender) && call.message.kind == Start &&
                  call.message.id == Some(id))
    ensures call.Frame? ==> n.requestId == id && n.phase == Countdown
    ensures call.Frame? || call.Deliver?
  {
    hide CancelStart, TickHold, TickHostCheck, TickGuestCheck, HearReady, HearPlayerReady;
    CancelRunsNothing(n, CallEnv(call));
    if call.Frame? {
      FrameRunsNothing(n, call.env, id);
      if n.phase == Countdown && Ran(id) in Commit(n, call.env).effects { CommitStarts(n, call.env, id); }
    } else if call.Deliver? && call.message.id.Some? {
      ReadyRunsNothing(n, call.sender, call.message, call.env, id);
    }
  }

  function CallEnv(call: Call): Env {
    if EnvOf(call).Some? then EnvOf(call).value else Env(0, Other, {}, {}, false, false, Pending, 0, {}, {})
  }

  lemma CancelRunsNothing(n: Node, env: Env)
    ensures forall e :: e in CancelStart(n, env).effects ==> e.Tried?
  {}

  lemma CommitStarts(n: Node, env: Env, id: nat)
    requires Ran(id) in Commit(n, env).effects
    ensures id == n.requestId && exists e :: e in Commit(n, env).effects && StartsRequest(e, id)
  {
    assert StartsRequest(Commit(n, env).effects[0], id);
  }

  lemma BeginRunsNothing(n: Node, env: Env, id: nat)
    ensures Ran(id) !in BeginReady(n, env).effects && Ran(id) !in AnnounceCount(n, env).effects
  {}

  lemma FrameRunsNothing(n: Node, env: Env, id: nat)
    ensures Ran(id) !in TickHold(n, env).effects && Ran(id) !in TickHostCheck(n, env).effects
    ensures Ran(id) !in TickGuestCheck(n, env).effects
  {
    hide Checks, CheckAccepted, BeginReady, AnnounceCount;
    var clear := n.(localReady := true);
    BeginRunsNothing(n, env, id);
    BeginRunsNothing(n.(checksSent := true), env, id);
    BeginRunsNothing(clear, env, id);
    BeginRunsNothing(clear.(checksSent := true), env, id);
    BeginRunsNothing(n.(localPlayerReady := true, holdStart := 0, readyCount := (|n.readyPeers| + 1) % UINT32), env,
                     id);
    ChecksHarmless(n.participants, n.requestId, env);
    assert Ran(id) !in Checks(n.participants, n.requestId, env) by { assert !Harmless(Ran(id)); }
  }

  lemma ReadyRunsNothing(n: Node, sender: PeerId, m: Message, env: Env, id: nat)
    requires m.id.Some?
    ensures Ran(id) !in HearReady(n, sender, m, env).effects && Ran(id) !in HearPlayerReady(n, sender, m, env).effects
  {}

  lemma AnnouncedGrows(log: seq<Entry>, more: seq<Entry>, id: nat)
    requires Announced(log, id)
    ensures Announced(log + more, id)
  {
    var i :| 0 <= i < |log| && log[i].who == HOST && StartsRequest(log[i].effect, id);
    assert (log + more)[i] == log[i];
  }

  lemma MoveAnnounces(s: Lobby, move: Move, id: nat)
    requires Inv(s) && Enabled(s, move) && Ran(id) in Do(s.nodes[move.who], move.call).effects
    ensures Announced(Next(s, move).log, id)
  {
    hide Do, HostOk, GuestOk, EntryOk, PressFits;
    var n := s.nodes[move.who];
    var effects := Do(n, move.call).effects;
    RunIsAnnounced(n, move.call, id);
    if e :| e in effects && StartsRequest(e, id) {
      var k :| 0 <= k < |effects| && effects[k] == e;
      assert Next(s, move).log[|s.log| + k] == Entry(move.who, e);
      assert EntryOk(Entry(move.who, e), Next(s, move).log) by {
        MoveKeeps(s, move);
        LogHas(Next(s, move).log, |s.log| + k);
      }
      OnlyHostStarts(Entry(move.who, e), Next(s, move).log, id);
    } else {
      var i :| 0 <= i < |s.log| && s.log[i].who == move.call.sender && s.log[i].effect.Tried? &&
        s.log[i].effect.message == move.call.message;
      assert StartsRequest(s.log[i].effect, id);
      AnnouncedGrows(s.log, Entries(move.who, effects), id);
    }
  }

  lemma LogHas(log: seq<Entry>, i: nat)
    requires LogOk(log) && i < |log|
    ensures EntryOk(log[i], log)
  {}

  lemma OnlyHostStarts(e: Entry, log: seq<Entry>, id: nat)
    requires EntryOk(e, log) && StartsRequest(e.effect, id)
    ensures e.who == HOST
  {}

  /** Nobody runs a request whose start the host did not try to announce. */
  lemma {:induction false} GuestsFollowHost(moves: seq<Move>, s: Lobby, who: PeerId, id: nat)
    requires Reaches(moves, s) && Did(s.log, who, Ran(id))
    ensures Announced(s.log, id)
    decreases |moves|
  {
    hide Do, Inv, Announced;
    if moves != [] {
      var n := |moves| - 1;
      var before: Lobby :| Reaches(moves[..n], before) && Enabled(before, moves[n]) && s == Next(before, moves[n]);
      ReachableInv(moves[..n], before);
      var effects := Do(before.nodes[moves[n].who], moves[n].call).effects;
      if Did(before.log, who, Ran(id)) {
        GuestsFollowHost(moves[..n], before, who, id);
        AnnouncedGrows(before.log, Entries(moves[n].who, effects), id);
      } else {
        assert Ran(id) in effects;
        MoveAnnounces(before, moves[n], id);
      }
    }
  }
}
