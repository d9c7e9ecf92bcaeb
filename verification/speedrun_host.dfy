/** When the request of a host ends, when each part of it changes, and what the host does, over all calls at once. */
module SpeedrunHost {
  import opened Common
  import opened SpeedrunModel
  import opened SpeedrunLobby
  import opened SpeedrunCancel

  /** A frame at which the node attends to its request. */
  predicate Attends(n: Node, call: Call, phase: Phase) {
    call.Frame? && n.resetAt == 0 && call.env.modeActive && n.phase == phase
  }

  /** Down has been held for a second. */
  predicate HoldDone(n: Node, call: Call) {
    && Attends(n, call, WaitingReady) && !n.localPlayerReady && n.downHeld
    && n.holdStart != 0 && n.holdStart + 1000 <= call.env.now
  }

  /** The mode was left, or the save check has taken too long. */
  predicate TimesOut(n: Node, call: Call) {
    call.Frame? && n.resetAt == 0 &&
    (!call.env.modeActive || (n.phase == CheckingSaves && call.env.now > n.deadline))
  }

  function Tells(kind: Kind, id: nat): Message { Message(kind, Some(id), None, None, None) }

  // ---- a host with a request ----

  predicate Hosting(n: Node, call: Call) {
    && n.requestId != 0 && n.peerRequestId == 0 && n.phase != Idle
    && (EnvOf(call).Some? ==> EnvOf(call).value.role == Host)
  }

  predicate Probing(n: Node, call: Call) { Attends(n, call, CheckingSaves) && call.env.now <= n.deadline }

  /** The host's own save is found free, or was before. */
  predicate SaveFree(n: Node, call: Call) { Probing(n, call) && (n.localReady || call.env.probe.Clear?) }

  predicate SaveTaken(n: Node, call: Call) {
    Probing(n, call) && !n.localReady && (call.env.probe.Occupied? || call.env.probe.Error?)
  }

  predicate Reached(env: Env, p: PeerId) { p in env.reliable && p !in env.refusedChecks }

  /** The checks go out now, but not to everybody. */
  ghost predicate MissesSome(n: Node, call: Call) {
    SaveFree(n, call) && !n.checksSent && exists p :: p in n.participants && !Reached(call.env, p)
  }

  /** A peer that is waited for has a free save. */
  predicate Answers(n: Node, call: Call) {
    && call.Deliver? && call.message.kind == Ready && call.message.id == Some(n.requestId)
    && call.message.ready == Some(true) && call.sender in n.waiting
  }

  /** The host asks everybody to hold Down. */
  ghost predicate Prompts(n: Node, call: Call) {
    || (SaveFree(n, call) && !MissesSome(n, call) && n.waiting == {})
    || (Answers(n, call) && n.phase == CheckingSaves && n.localReady && n.waiting == {call.sender})
  }

  /** A participant is counted in. */
  predicate CountsIn(n: Node, call: Call) {
    && call.Deliver? && call.message.kind == PlayerReady && call.message.id == Some(n.requestId)
    && call.message.ready != Some(false)
    && n.phase == WaitingReady && call.sender in n.participants && call.sender !in n.readyPeers
  }

  predicate Announces(n: Node, call: Call) { HoldDone(n, call) || CountsIn(n, call) }

  /** How many are ready after an announcement. */
  function Ready32(n: Node, call: Call): nat {
    (|n.readyPeers| + 1 + if CountsIn(n, call) && n.localPlayerReady then 1 else 0) % UINT32
  }

  predicate Complete(n: Node, call: Call) { Announces(n, call) && Ready32(n, call) == n.readyTotal }

  predicate CommitDue(n: Node, call: Call) { Attends(n, call, Countdown) && call.env.now >= n.countdownAt }

  /** The countdown is over and everything is still as it has to be. */
  predicate StartsNow(n: Node, call: Call) {
    && CommitDue(n, call) && call.env.canStart
    && n.localReady && n.localPlayerReady && n.readyCount == n.readyTotal && n.waiting == {}
    && |n.participants| == |call.env.peers|
  }

  /** The membership has changed under the request. */
  predicate PeopleChange(n: Node, call: Call) { call.Joined? || (call.Left? && call.peer in n.participants) }

  predicate ResetsAll(call: Call) {
    call.PressReset? && call.env.modeActive && call.env.peers <= call.env.reliable
  }

  predicate Refused(call: Call, kind: Kind) { EnvOf(call).Some? && kind in EnvOf(call).value.refused }

  /** A message that cannot be sent. */
  ghost predicate SendFails(n: Node, call: Call) {
    || MissesSome(n, call)
    || (Prompts(n, call) && Refused(call, Prompt))
    || (Announces(n, call) && Refused(call, ReadyCount))
    || (Complete(n, call) && Refused(call, CountdownStarts))
  }

  /** The host calls its request off. */
  ghost predicate CallsOff(n: Node, call: Call) {
    || TimesOut(n, call) || SaveTaken(n, call) || SendFails(n, call)
    || (CommitDue(n, call) && (!StartsNow(n, call) || Refused(call, Start)))
    || Refuses(n, call, n.requestId) || PeopleChange(n, call)
  }

  /** The request is over, and nothing of it is left. */
  ghost predicate Over(n: Node, call: Call, n': Node) {
    && Free(n') && n'.sequence == n.sequence
    && n'.resetAt == (if call.PressReset? then call.env.now + 500 else if call.Dropped? then 0 else n.resetAt)
  }

  ghost predicate HostEnds(n: Node, call: Call) {
    || CallsOff(n, call) || StartsNow(n, call) || call.NewOwner? || call.Dropped?
    || (ResetsAll(call) && !Refused(call, Reset))
  }

  /** While the request goes on, each part of it changes exactly at these calls. */
  ghost predicate GoesOn(n: Node, call: Call, n': Node) {
    && n'.requestId == n.requestId && n'.peerRequestId == 0 && n'.sequence == n.sequence
    && n'.participants == n.participants && n'.deadline == n.deadline && n'.peerReady == n.peerReady
    && n'.waiting == (if Answers(n, call) then n.waiting - {call.sender} else n.waiting)
    && n'.localReady == (n.localReady || SaveFree(n, call))
    && n'.checksSent == (n.checksSent || SaveFree(n, call))
    && n'.readyPeers == (if CountsIn(n, call) then n.readyPeers + {call.sender} else n.readyPeers)
    && n'.localPlayerReady == (n.localPlayerReady || HoldDone(n, call))
    && n'.readyTotal == (if Prompts(n, call) then (|n.participants| + 1) % UINT32 else n.readyTotal)
    && n'.readyCount == (if Prompts(n, call) then 0
                         else if Announces(n, call) then Ready32(n, call) else n.readyCount)
    && n'.phase == (if Prompts(n, call) then WaitingReady else if Complete(n, call) then Countdown else n.phase)
    && n'.countdownAt == (if Complete(n, call) then EnvOf(call).value.now + 3000 else n.countdownAt)
    && n'.downHeld == (if call.Input? then call.down && n.phase == WaitingReady && !n.localPlayerReady else n.downHeld)
    && n'.resetAt == (if call.Frame? && n.resetAt <= call.env.now then 0 else n.resetAt)
  }

  ghost predicate AsSaid(n: Node, call: Call, n': Node) {
    if HostEnds(n, call) then Over(n, call, n') else GoesOn(n, call, n')
  }

  lemma HostChecks(n: Node, env: Env)
    requires Hosting(n, Frame(env)) && n.resetAt == 0 && env.modeActive && n.phase == CheckingSaves
    requires env.now <= n.deadline && (n.localReady || env.probe.Clear?)
    ensures AsSaid(n, Frame(env), CheckPeers(n.(localReady := true), env).node)
  {
    hide Checks, BeginReady, Refuses, Answers, CountsIn, Announces, HostEnds;
    var call := Frame(env);
    OfFrame(n, call);
    if n.waiting == {} { PromptTold(n.(localReady := true, checksSent := true), env); }
    assert n.checksSent ==> n.(localReady := true, checksSent := true) == n.(localReady := true);
    assert MissesSome(n, call) <==> !n.checksSent && exists p :: p in n.participants && !CheckAccepted(env, p);
  }

  lemma HostProbes(n: Node, env: Env)
    requires Hosting(n, Frame(env)) && n.resetAt == 0 && env.modeActive && n.phase == CheckingSaves
    requires env.now <= n.deadline
    ensures AsSaid(n, Frame(env), TickHostCheck(n, env).node)
  {
    hide CheckPeers;
    if n.localReady || env.probe.Clear? {
      HostChecks(n, env);
      assert n.localReady ==> n.(localReady := true) == n;
    }
  }

  lemma OfDelivery(n: Node, call: Call)
    requires call.Deliver?
    ensures !HoldDone(n, call) && !SaveFree(n, call) && !MissesSome(n, call) && !StartsNow(n, call)
    ensures Announces(n, call) <==> CountsIn(n, call)
    ensures CallsOff(n, call) <==> SendFails(n, call) || Refuses(n, call, n.requestId)
    ensures HostEnds(n, call) <==> CallsOff(n, call)
    ensures Prompts(n, call) <==>
            Answers(n, call) && n.phase == CheckingSaves && n.localReady && n.waiting == {call.sender}
    ensures call.message.kind != Ready ==> !Answers(n, call)
    ensures call.message.kind != PlayerReady ==> !CountsIn(n, call)
  {}

  lemma OfFrame(n: Node, call: Call)
    requires call.Frame?
    ensures !Answers(n, call) && !CountsIn(n, call) && !Refuses(n, call, n.requestId)
    ensures Announces(n, call) <==> HoldDone(n, call)
    ensures HostEnds(n, call) <==> CallsOff(n, call) || StartsNow(n, call)
    ensures Prompts(n, call) <==> SaveFree(n, call) && !MissesSome(n, call) && n.waiting == {}
  {}

  /** What is left of a request whose count is announced. */
  lemma CountTold(n: Node, env: Env)
    requires n.requestId != 0 && n.phase == WaitingReady
    ensures AnnounceCount(n, env).node ==
            if ReadyCount in env.refused then Cleared(n)
            else if n.readyCount != n.readyTotal then n
            else if CountdownStarts in env.refused then Cleared(n)
            else n.(phase := Countdown, countdownAt := env.now + 3000)
  {}

  /** And of one whose players are prompted. */
  lemma PromptTold(n: Node, env: Env)
    requires n.requestId != 0 && n.phase == CheckingSaves && n.localReady && n.waiting == {}
    ensures BeginReady(n, env).node ==
            if Prompt in env.refused then Cleared(n)
            else n.(readyTotal := (|n.participants| + 1) % UINT32, readyCount := 0, phase := WaitingReady)
  {}

  lemma HostHolds(n: Node, env: Env)
    requires Hosting(n, Frame(env)) && n.resetAt == 0 && env.modeActive && n.phase == WaitingReady
    ensures AsSaid(n, Frame(env), TickHold(n, env).node)
  {
    hide AnnounceCount, Broadcast, Refuses, Answers, CountsIn, Prompts, Announces, HostEnds;
    OfFrame(n, Frame(env));
    CountTold(n.(localPlayerReady := true, holdStart := 0, readyCount := (|n.readyPeers| + 1) % UINT32), env);
  }

  lemma HostCommits(n: Node, env: Env)
    requires Hosting(n, Frame(env)) && n.resetAt == 0 && env.modeActive && n.phase == Countdown
    requires env.now >= n.countdownAt
    ensures AsSaid(n, Frame(env), Commit(n, env).node)
  {}

  lemma HostFrame(n: Node, env: Env)
    requires Hosting(n, Frame(env))
    ensures AsSaid(n, Frame(env), Tick(n, env).node)
  {
    hide TickHostCheck, TickHold, Commit, Refuses, Answers, CountsIn, Announces, Prompts;
    OfFrame(n, Frame(env));
    if n.resetAt == 0 && env.modeActive {
      if n.phase == CheckingSaves && env.now <= n.deadline { HostProbes(n, env); }
      if n.phase == WaitingReady { HostHolds(n, env); }
      if n.phase == Countdown && env.now >= n.countdownAt { HostCommits(n, env); }
    }
  }

  lemma HostHears(n: Node, sender: PeerId, m: Message, env: Env)
    requires Hosting(n, Deliver(sender, m, env))
    ensures AsSaid(n, Deliver(sender, m, env), Hear(n, sender, m, env).node)
  {
    hide HearReady, HearPlayerReady, HearOwner, HoldDone, SaveFree, MissesSome, StartsNow, Announces, CallsOff,
         HostEnds, Prompts;
    OfDelivery(n, Deliver(sender, m, env));
    if m.id.Some? && m.id.value != 0 && m.kind == Ready { HostHearsReady(n, sender, m, env); }
    if m.id.Some? && m.id.value != 0 && m.kind == PlayerReady { HostHearsPlayer(n, sender, m, env); }
  }

  /** A message that means nothing to the host. */
  lemma HostIgnores(n: Node, call: Call)
    requires Hosting(n, call) && call.Deliver?
    requires !Answers(n, call) && !CountsIn(n, call) && !Refuses(n, call, n.requestId)
    ensures AsSaid(n, call, n)
  {
    hide Answers, CountsIn, Refuses;
    OfDelivery(n, call);
  }

  lemma HostIsRefused(n: Node, call: Call)
    requires Hosting(n, call) && Refuses(n, call, n.requestId)
    ensures AsSaid(n, call, Cleared(n))
  {
    hide GoesOn;
  }

  lemma HostIsAnswered(n: Node, call: Call)
    requires Hosting(n, call) && Answers(n, call)
    ensures var fewer := n.(waiting := n.waiting - {call.sender});
            AsSaid(n, call, if n.localReady && fewer.waiting == {} then BeginReady(fewer, call.env).node else fewer)
  {
    hide BeginReady, HoldDone, SaveFree, MissesSome, StartsNow, Announces, CallsOff, HostEnds, Prompts, Answers;
    OfAnswer(n, call);
    OfDelivery(n, call);
    var fewer := n.(waiting := n.waiting - {call.sender});
    if n.phase == CheckingSaves && n.localReady && fewer.waiting == {} { PromptTold(fewer, call.env); }
    if n.phase != CheckingSaves { NoPrompt(fewer, call.env); }
  }

  lemma OfAnswer(n: Node, call: Call)
    requires Answers(n, call)
    ensures call.Deliver? && !CountsIn(n, call) && !Refuses(n, call, n.requestId) && !Complete(n, call)
    ensures n.waiting - {call.sender} == {} <==> n.waiting == {call.sender}
  {}

  lemma HostHearsReady(n: Node, sender: PeerId, m: Message, env: Env)
    requires Hosting(n, Deliver(sender, m, env)) && m.kind == Ready && m.id.Some? && m.id.value != 0
    ensures AsSaid(n, Deliver(sender, m, env), HearReady(n, sender, m, env).node)
  {
    hide BeginReady, AsSaid;
    var call := Deliver(sender, m, env);
    if Answers(n, call) {
      HostIsAnswered(n, call);
    } else if Refuses(n, call, n.requestId) {
      HostIsRefused(n, call);
    } else {
      HostIgnores(n, call);
    }
  }

  lemma NoPrompt(n: Node, env: Env)
    requires n.phase != CheckingSaves
    ensures BeginReady(n, env) == Reply(n, [])
  {}

  lemma HostCounts(n: Node, call: Call)
    requires Hosting(n, call) && CountsIn(n, call)
    ensures var counted := n.(readyPeers := n.readyPeers + {call.sender}, readyCount := Ready32(n, call));
            AsSaid(n, call, AnnounceCount(counted, call.env).node)
  {
    hide AnnounceCount, HoldDone, SaveFree, MissesSome, StartsNow, Announces, CallsOff, HostEnds, Prompts, Ready32;
    OfDelivery(n, call);
    CountTold(n.(readyPeers := n.readyPeers + {call.sender}, readyCount := Ready32(n, call)), call.env);
  }

  lemma CountedIn(n: Node, call: Call)
    requires CountsIn(n, call)
    ensures |n.readyPeers + {call.sender}| == |n.readyPeers| + 1
  {}

  lemma HostHearsPlayer(n: Node, sender: PeerId, m: Message, env: Env)
    requires Hosting(n, Deliver(sender, m, env)) && m.kind == PlayerReady && m.id.Some? && m.id.value != 0
    ensures AsSaid(n, Deliver(sender, m, env), HearPlayerReady(n, sender, m, env).node)
  {
    hide AnnounceCount, AsSaid;
    var call := Deliver(sender, m, env);
    if CountsIn(n, call) {
      CountedIn(n, call);
      HostCounts(n, call);
    } else if Refuses(n, call, n.requestId) {
      HostIsRefused(n, call);
    } else {
      HostIgnores(n, call);
    }
  }

  lemma CallAsSaid(n: Node, call: Call)
    requires Hosting(n, call)
    ensures AsSaid(n, call, Do(n, call).node)
  {
    hide Tick, Hear, AsSaid;
    match call
    case Frame(env) => HostFrame(n, env);
    case Deliver(sender, m, env) => HostHears(n, sender, m, env);
    case Press(env) => PressAsSaid(n, env);
    case PressReset(env) => PressAsSaid(n, env);
    case _ => OtherAsSaid(n, call);
  }

  lemma PressAsSaid(n: Node, env: Env)
    requires Hosting(n, Press(env))
    ensures AsSaid(n, Press(env), StartPressed(n, env).node)
    ensures AsSaid(n, PressReset(env), ResetPressed(n, env).node)
  {}

  lemma OtherAsSaid(n: Node, call: Call)
    requires Hosting(n, call) && !call.Frame? && !call.Deliver? && !call.Press? && !call.PressReset?
    ensures AsSaid(n, call, Do(n, call).node)
  {
    hide Tick, Hear, StartPressed, ResetPressed;
  }

  /** The request of a host ends exactly if it is called off, started, or dropped with the lobby or by a reset, and then
      nothing of it is left; until then each part of it changes exactly at the calls above. */
  lemma HostExactly(n: Node, call: Call)
    requires Hosting(n, call)
    ensures AsSaid(n, call, Do(n, call).node)
    ensures Do(n, call).node.requestId == 0 <==> HostEnds(n, call)
  {
    hide Do, HostEnds;
    CallAsSaid(n, call);
  }

  /** The clock of a hold starts at the first frame that sees Down, and is dropped when Down is let go and when the hold
      is complete. */
  lemma HoldClock(n: Node, call: Call)
    requires Attends(n, call, WaitingReady) && !n.localPlayerReady
    ensures var n' := Do(n, call).node;
            n'.holdStart ==
            if !n.downHeld || HoldDone(n, call) then 0 else if n.holdStart == 0 then call.env.now else n.holdStart
  {}

  // ---- what a host with a request does ----

  function If(when: bool, e: Effect): seq<Effect> { if when then [e] else [] }

  /** A message to everybody, sent if the transport takes it. */
  function ToAll(call: Call, m: Message): Effect { Tried(Everyone, m, !Refused(call, m.kind)) }

  function PromptText(n: Node): Message {
    Message(Prompt, Some(n.requestId), None, None, Some((|n.participants| + 1) % UINT32))
  }

  function CountText(n: Node, call: Call): Message {
    Message(ReadyCount, Some(n.requestId), None, Some(Ready32(n, call)), Some(n.readyTotal))
  }

  /** Each message is tried, and everything else done, exactly at these calls and in this order. */
  ghost function HostSays(n: Node, call: Call): seq<Effect> {
    var id := n.requestId;
    If(SaveFree(n, call) && !n.localReady, ProbedClear(id)) +
    (if SaveFree(n, call) && !n.checksSent then Checks(n.participants, id, call.env) else []) +
    If(Prompts(n, call), ToAll(call, PromptText(n))) +
    If(HoldDone(n, call), HeldDown(id)) +
    If(Announces(n, call), ToAll(call, CountText(n, call))) +
    If(Complete(n, call) && !Refused(call, ReadyCount), ToAll(call, Tells(CountdownStarts, id))) +
    If(StartsNow(n, call), ToAll(call, Tells(Start, id))) +
    If(StartsNow(n, call) && !Refused(call, Start), Ran(id)) +
    If(CallsOff(n, call), ToAll(call, Tells(Cancel, id))) +
    If(ResetsAll(call), ToAll(call, Message(Reset, None, None, None, None)))
  }

  lemma CountSaid(n: Node, env: Env)
    requires n.requestId != 0 && n.phase == WaitingReady
    ensures var told := Tried(Everyone, Message(ReadyCount, Some(n.requestId), None, Some(n.readyCount),
                                                Some(n.readyTotal)), ReadyCount !in env.refused);
            var starts := Tried(Everyone, Tells(CountdownStarts, n.requestId), CountdownStarts !in env.refused);
            var cancel := Tried(Everyone, Tells(Cancel, n.requestId), Cancel !in env.refused);
            AnnounceCount(n, env).effects ==
            if !told.ok then [told, cancel]
            else if n.readyCount != n.readyTotal then [told]
            else if !starts.ok then [told, starts, cancel] else [told, starts]
  {}

  lemma PromptSaid(n: Node, env: Env)
    requires n.requestId != 0 && n.phase == CheckingSaves && n.localReady && n.waiting == {}
    ensures var prompt := Tried(Everyone, PromptText(n), Prompt !in env.refused);
            var cancel := Tried(Everyone, Tells(Cancel, n.requestId), Cancel !in env.refused);
            BeginReady(n, env).effects == if prompt.ok then [prompt] else [prompt, cancel]
  {}

  lemma SaysOfDelivery(n: Node, call: Call)
    requires call.Deliver?
    ensures HostSays(n, call) ==
            If(Prompts(n, call), ToAll(call, PromptText(n))) +
            If(CountsIn(n, call), ToAll(call, CountText(n, call))) +
            If(Complete(n, call) && !Refused(call, ReadyCount), ToAll(call, Tells(CountdownStarts, n.requestId))) +
            If(CallsOff(n, call), ToAll(call, Tells(Cancel, n.requestId)))
  {
    hide Prompts, CountsIn, Complete, CallsOff, Refused, CountText, PromptText;
    OfDelivery(n, call);
  }

  lemma SaysOfProbing(n: Node, call: Call)
    requires call.Frame? && n.phase == CheckingSaves
    ensures HostSays(n, call) ==
            If(SaveFree(n, call) && !n.localReady, ProbedClear(n.requestId)) +
            (if SaveFree(n, call) && !n.checksSent then Checks(n.participants, n.requestId, call.env) else []) +
            If(Prompts(n, call), ToAll(call, PromptText(n))) +
            If(CallsOff(n, call), ToAll(call, Tells(Cancel, n.requestId)))
  {
    hide Prompts, CallsOff, PromptText, SaveFree, CountsIn, Checks;
    OfFrame(n, call);
  }

  lemma SaysOfWaiting(n: Node, call: Call)
    requires call.Frame? && n.phase == WaitingReady && !TimesOut(n, call)
    ensures HostSays(n, call) ==
            If(HoldDone(n, call), HeldDown(n.requestId)) +
            If(HoldDone(n, call), ToAll(call, CountText(n, call))) +
            If(Complete(n, call) && !Refused(call, ReadyCount), ToAll(call, Tells(CountdownStarts, n.requestId))) +
            If(HoldDone(n, call) && SendFails(n, call), ToAll(call, Tells(Cancel, n.requestId)))
  {
    hide HoldDone, CountsIn, Refuses, Answers, Ready32;
    OfFrame(n, call);
  }

  lemma SaysAtTell(n: Node, env: Env)
    requires Hosting(n, Frame(env)) && HoldDone(n, Frame(env))
    ensures var told := n.(localPlayerReady := true, holdStart := 0, readyCount := (|n.readyPeers| + 1) % UINT32);
            [HeldDown(n.requestId)] + AnnounceCount(told, env).effects == HostSays(n, Frame(env))
  {
    hide AnnounceCount, Broadcast, Refuses, Answers, CountsIn, HostEnds, HostSays, Free, Prompts, MissesSome;
    var call := Frame(env);
    OfFrame(n, call);
    SaysOfWaiting(n, call);
    NothingMissed(n, call);
    CountSaid(n.(localPlayerReady := true, holdStart := 0, readyCount := (|n.readyPeers| + 1) % UINT32), env);
  }

  lemma NothingMissed(n: Node, call: Call)
    requires call.Frame? && n.phase == WaitingReady
    ensures !MissesSome(n, call) && !Prompts(n, call)
  {}

  lemma SaysAtHold(n: Node, env: Env)
    requires Hosting(n, Frame(env)) && n.resetAt == 0 && env.modeActive && n.phase == WaitingReady
    ensures TickHold(n, env).effects == HostSays(n, Frame(env))
  {
    hide AnnounceCount, Broadcast, Refuses, Answers, CountsIn, HostEnds, HostSays, Free, Prompts, MissesSome;
    var call := Frame(env);
    if HoldDone(n, call) {
      SaysAtTell(n, env);
    } else {
      OfFrame(n, call);
      SaysOfWaiting(n, call);
    }
  }

  lemma SaysAtCount(n: Node, call: Call)
    requires Hosting(n, call) && CountsIn(n, call)
    ensures var more := n.readyPeers + {call.sender};
            var counted := n.(readyPeers := more, readyCount := Ready32(n, call));
            AnnounceCount(counted, call.env).effects == HostSays(n, call)
  {
    hide AnnounceCount, Broadcast, HoldDone, SaveFree, MissesSome, StartsNow, Announces, CallsOff, HostEnds, Prompts,
         Answers, CancelStart, HostSays, Ready32;
    OfDelivery(n, call);
    SaysOfDelivery(n, call);
    CountSaid(n.(readyPeers := n.readyPeers + {call.sender}, readyCount := Ready32(n, call)), call.env);
  }

  lemma SaysAtPlayer(n: Node, sender: PeerId, m: Message, env: Env)
    requires Hosting(n, Deliver(sender, m, env)) && m.kind == PlayerReady && m.id.Some? && m.id.value != 0
    ensures HearPlayerReady(n, sender, m, env).effects == HostSays(n, Deliver(sender, m, env))
  {
    hide AnnounceCount, Broadcast, HoldDone, SaveFree, MissesSome, StartsNow, Announces, CallsOff, HostEnds, Prompts,
         Answers, CancelStart, HostSays;
    var call := Deliver(sender, m, env);
    if CountsIn(n, call) {
      CountedIn(n, call);
      SaysAtCount(n, call);
    } else {
      OfDelivery(n, call);
      SaysOfDelivery(n, call);
      CancelSaid(n, env);
    }
  }

  lemma CancelSaid(n: Node, env: Env)
    requires n.requestId != 0
    ensures CancelStart(n, env).effects == [Tried(Everyone, Tells(Cancel, n.requestId), Cancel !in env.refused)]
  {}

  lemma SaysAtReady(n: Node, sender: PeerId, m: Message, env: Env)
    requires Hosting(n, Deliver(sender, m, env)) && m.kind == Ready && m.id.Some? && m.id.value != 0
    ensures HearReady(n, sender, m, env).effects == HostSays(n, Deliver(sender, m, env))
  {
    hide BeginReady, Broadcast, HoldDone, SaveFree, MissesSome, StartsNow, Announces, CallsOff, HostEnds, Prompts,
         CountsIn, CancelStart, HostSays;
    OfDelivery(n, Deliver(sender, m, env));
    SaysOfDelivery(n, Deliver(sender, m, env));
    CancelSaid(n, env);
    var fewer := n.(waiting := n.waiting - {sender});
    if n.phase == CheckingSaves && n.localReady && fewer.waiting == {} { PromptSaid(fewer, env); }
    if n.phase != CheckingSaves { NoPrompt(fewer, env); }
    assert n.waiting - {sender} == {} <==> n.waiting == {} || n.waiting == {sender};
  }

  lemma SaysAtCommit(n: Node, env: Env)
    requires Hosting(n, Frame(env)) && n.resetAt == 0 && env.modeActive && n.phase == Countdown
    requires env.now >= n.countdownAt
    ensures Commit(n, env).effects == HostSays(n, Frame(env))
  {
    hide Refuses, Answers, CountsIn, Announces, Prompts;
    OfFrame(n, Frame(env));
  }

  /** Behind the host's own probe. */
  lemma PeersSaid(n: Node, call: Call)
    requires Hosting(n, call) && SaveFree(n, call)
    ensures CheckPeers(n.(localReady := true), call.env).effects ==
            (if n.checksSent then [] else Checks(n.participants, n.requestId, call.env)) +
            If(Prompts(n, call), ToAll(call, PromptText(n))) +
            If(CallsOff(n, call), ToAll(call, Tells(Cancel, n.requestId)))
  {
    hide Checks, BeginReady, CancelStart, Refuses, Answers, CountsIn, Announces, Free;
    OfFrame(n, call);
    CancelSaid(n.(localReady := true), call.env);
    if n.waiting == {} { PromptSaid(n.(localReady := true, checksSent := true), call.env); }
    assert n.checksSent ==> n.(localReady := true, checksSent := true) == n.(localReady := true);
    assert MissesSome(n, call) <==> !n.checksSent && exists p :: p in n.participants && !CheckAccepted(call.env, p);
  }

  lemma SaysAtChecks(n: Node, call: Call)
    requires Hosting(n, call) && SaveFree(n, call)
    ensures If(!n.localReady, ProbedClear(n.requestId)) + CheckPeers(n.(localReady := true), call.env).effects ==
            HostSays(n, call)
  {
    hide Checks, CheckPeers, HostSays, Prompts, CallsOff;
    PeersSaid(n, call);
    SaysOfProbing(n, call);
    var a := If(!n.localReady, ProbedClear(n.requestId));
    var b := if n.checksSent then [] else Checks(n.participants, n.requestId, call.env);
    var c := If(Prompts(n, call), ToAll(call, PromptText(n)));
    var d := If(CallsOff(n, call), ToAll(call, Tells(Cancel, n.requestId)));
    assert a + (b + c + d) == a + b + c + d;
  }

  lemma SaysAtProbe(n: Node, env: Env)
    requires Hosting(n, Frame(env)) && n.resetAt == 0 && env.modeActive && n.phase == CheckingSaves
    requires env.now <= n.deadline
    ensures TickHostCheck(n, env).effects == HostSays(n, Frame(env))
  {
    hide CheckPeers, Refuses, Answers, CountsIn, Announces, CancelStart;
    OfFrame(n, Frame(env));
    CancelSaid(n, env);
    if n.localReady || env.probe.Clear? {
      SaysAtChecks(n, Frame(env));
      assert n.localReady ==> n.(localReady := true) == n;
    }
  }

  lemma SaysAtFrame(n: Node, env: Env)
    requires Hosting(n, Frame(env))
    ensures Tick(n, env).effects == HostSays(n, Frame(env))
  {
    hide TickHostCheck, TickHold, Commit, Refuses, Answers, CountsIn, Announces, Prompts, CancelStart;
    OfFrame(n, Frame(env));
    CancelSaid(n, env);
    if n.resetAt == 0 && env.modeActive {
      if n.phase == CheckingSaves && env.now <= n.deadline { SaysAtProbe(n, env); }
      if n.phase == WaitingReady { SaysAtHold(n, env); }
      if n.phase == Countdown && env.now >= n.countdownAt { SaysAtCommit(n, env); }
    }
  }

  lemma SaysAtDelivery(n: Node, sender: PeerId, m: Message, env: Env)
    requires Hosting(n, Deliver(sender, m, env))
    ensures Hear(n, sender, m, env).effects == HostSays(n, Deliver(sender, m, env))
  {
    hide HearReady, HearPlayerReady, HearOwner, HoldDone, SaveFree, MissesSome, StartsNow, Announces, CallsOff,
         HostEnds, Prompts;
    OfDelivery(n, Deliver(sender, m, env));
    if m.id.Some? && m.id.value != 0 && m.kind == Ready { SaysAtReady(n, sender, m, env); }
    if m.id.Some? && m.id.value != 0 && m.kind == PlayerReady { SaysAtPlayer(n, sender, m, env); }
  }

  /** What a host with a request does at a call, in order. */
  lemma HostSaysExactly(n: Node, call: Call)
    requires Hosting(n, call)
    ensures Do(n, call).effects == HostSays(n, call)
  {
    hide Tick, Hear;
    match call
    case Frame(env) => SaysAtFrame(n, env);
    case Deliver(sender, m, env) => SaysAtDelivery(n, sender, m, env);
    case _ =>
  }

  /** A participant gets a check if it can be reached and all before it take theirs; the first that refuses its check
      is the last to be asked. */
  lemma {:induction false} ChecksReach(rest: set<PeerId>, id: nat, env: Env, p: PeerId)
    ensures Tried(Only(p), Tells(Check, id), p !in env.refusedChecks) in Checks(rest, id, env) <==>
            p in rest && p in env.reliable && forall q :: q in rest && q < p ==> Reached(env, q)
    decreases |rest|
  {
    if rest != {} {
      var first := Smallest(rest);
      assert IsLeast(first, rest);
      if Reached(env, first) {
        ChecksReach(rest - {first}, id, env, p);
        assert forall q :: q in rest <==> q == first || q in rest - {first};
      } else if p in rest && p != first {
        assert first < p;
      }
    }
  }

  predicate IsCheck(e: Effect, rest: set<PeerId>, id: nat, env: Env) {
    && e.Tried? && e.to.Only? && e.to.peer in rest && e.message == Tells(Check, id)
    && e.ok == (e.to.peer !in env.refusedChecks)
  }

  /** Nothing else goes out with them, and they go out in the order of the ids. */
  ghost predicate InIdOrder(checks: seq<Effect>, rest: set<PeerId>, id: nat, env: Env) {
    && (forall i :: 0 <= i < |checks| ==> IsCheck(checks[i], rest, id, env))
    && (forall i, j :: 0 <= i < j < |checks| ==> checks[i].to.peer < checks[j].to.peer)
  }

  lemma {:induction false} ChecksInOrder(rest: set<PeerId>, id: nat, env: Env)
    ensures InIdOrder(Checks(rest, id, env), rest, id, env)
    decreases |rest|
  {
    hide InIdOrder;
    NoneInOrder(rest, id, env);
    if rest != {} {
      var first := Smallest(rest);
      assert IsLeast(first, rest);
      ChecksInOrder(rest - {first}, id, env);
      if first !in env.refusedChecks { OneMoreInOrder(first, Checks(rest - {first}, id, env), rest, id, env); }
    }
  }

  lemma NoneInOrder(rest: set<PeerId>, id: nat, env: Env)
    ensures InIdOrder([], rest, id, env)
    ensures forall p :: p in rest ==>
              InIdOrder([Tried(Only(p), Tells(Check, id), p !in env.refusedChecks)], rest, id, env)
  {}

  lemma OneMoreInOrder(first: PeerId, more: seq<Effect>, rest: set<PeerId>, id: nat, env: Env)
    requires first in rest && IsLeast(first, rest) && first !in env.refusedChecks
    requires InIdOrder(more, rest - {first}, id, env)
    ensures InIdOrder([Tried(Only(first), Tells(Check, id), true)] + more, rest, id, env)
  {
    var all := [Tried(Only(first), Tells(Check, id), true)] + more;
    forall i | 0 < i < |all| ensures IsCheck(all[i], rest, id, env) && first < all[i].to.peer {
      assert all[i] == more[i - 1] && IsCheck(more[i - 1], rest - {first}, id, env);
    }
  }
}
