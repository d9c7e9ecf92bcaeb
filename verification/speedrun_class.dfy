/** The application object that holds one player's side of the start protocol and updates it in place. */
module SpeedrunApp {
  import opened Common
  import opened SpeedrunLobby
  import opened SpeedrunModel
  import opened SpeedrunRequests

  class OnlineApp {
    var phase: Phase
    var sequence: nat
    var requestId: nat
    var peerRequestId: nat
    var waitingPeers: set<PeerId>
    var participants: set<PeerId>
    var readyPeers: set<PeerId>
    var localReady: bool
    var peerReady: bool
    var localPlayerReady: bool
    var downHeld: bool
    var readyCount: nat
    var readyTotal: nat
    var checksSent: bool
    var deadline: nat
    var holdStart: nat
    var countdownAt: nat
    var resetAt: nat
    /** Everything the calls so far did to the outside. */
    var done: seq<Effect>
    /** No press of the start button so far has overflowed the 64-bit counter. */
    ghost var fits: bool

    ghost function View(): Node
      reads this
    {
      Node(phase, sequence, requestId, peerRequestId, waitingPeers, participants, readyPeers, localReady, peerReady,
           localPlayerReady, downHeld, readyCount, readyTotal, checksSent, deadline, holdStart, countdownAt, resetAt)
    }

    /** The object is what `r` leaves behind, starting from the effects `before`. */
    ghost predicate Is(r: Reply, before: seq<Effect>)
      reads this
    {
      View() == r.node && done == before + r.effects
    }

    /** Between calls: no host request beside a guest request, a hold only while players are awaited or counted
        down, and, while the counter has not overflowed, increasing ids and at most one end for each of them. */
    ghost predicate Valid()
      reads this
    {
      Sound(View(), done, fits)
    }

    constructor ()
      ensures Valid() && View() == IDLE_NODE && done == [] && fits
    {
      phase, sequence, requestId, peerRequestId := Idle, 0, 0, 0;
      waitingPeers, participants, readyPeers := {}, {}, {};
      localReady, peerReady, localPlayerReady, downHeld := false, false, false, false;
      readyCount, readyTotal, checksSent := 0, 0, false;
      deadline, holdStart, countdownAt, resetAt := 0, 0, 0, 0;
      done, fits := [], true;
      new;
      IdleIsSound();
    }

    // ---- parts of the calls ----

    method ClearPeers()
      modifies this`waitingPeers, this`participants, this`readyPeers
      ensures waitingPeers == {} && participants == {} && readyPeers == {}
    {
      waitingPeers, participants, readyPeers := {}, {}, {};
    }

    method ClearFlags()
      modifies this`localReady, this`peerReady, this`localPlayerReady, this`downHeld, this`checksSent
      ensures !localReady && !peerReady && !localPlayerReady && !downHeld && !checksSent
    {
      localReady, peerReady, localPlayerReady, downHeld, checksSent := false, false, false, false, false;
    }

    method ClearNumbers()
      modifies this`requestId, this`peerRequestId, this`readyCount, this`readyTotal
      modifies this`deadline, this`holdStart, this`countdownAt
      ensures requestId == 0 && peerRequestId == 0 && readyCount == 0 && readyTotal == 0
      ensures deadline == 0 && holdStart == 0 && countdownAt == 0
    {
      requestId, peerRequestId, readyCount, readyTotal := 0, 0, 0, 0;
      deadline, holdStart, countdownAt := 0, 0, 0;
    }

    method ClearRequest()
      modifies this
      ensures fits == old(fits)
      ensures View() == Cleared(old(View())) && done == old(done)
    {
      ClearPeers();
      phase := Idle;
      ClearNumbers();
      ClearFlags();
    }

    method Send(env: Env, m: Message) returns (ok: bool)
      modifies this`done
      ensures done == old(done) + [Broadcast(env, m)] && ok == Broadcast(env, m).ok
    {
      ok := m.kind !in env.refused;
      done := done + [Tried(Everyone, m, ok)];
    }

    method SendToOwner(env: Env, m: Message) returns (ok: bool)
      modifies this`done
      ensures done == old(done) + [ToOwner(env, m)] && ok == ToOwner(env, m).ok
    {
      ok := m.kind !in env.refused;
      done := done + [Tried(Only(if env.role.Guest? then env.role.owner else 0), m, ok)];
    }

    method CancelStart(env: Env)
      modifies this
      ensures fits == old(fits)
      ensures Is(SpeedrunModel.CancelStart(old(View()), env), old(done))
    {
      if requestId != 0 {
        var _ := Send(env, Plain(Cancel, requestId));
      }
      ClearRequest();
    }

    method BeginReady(env: Env)
      modifies this
      ensures fits == old(fits)
      ensures Is(SpeedrunModel.BeginReady(old(View()), env), old(done))
    {
      hide SpeedrunModel.CancelStart, Cleared, Broadcast;
      if requestId == 0 || phase != CheckingSaves || !localReady || waitingPeers != {} { return; }
      readyTotal, readyCount := (|participants| + 1) % UINT32, 0;
      var ok := Send(env, Asked(requestId, readyTotal));
      if ok { phase := WaitingReady; } else { CancelStart(env); }
    }

    method BeginCountdown(env: Env)
      modifies this
      ensures fits == old(fits)
      ensures Is(SpeedrunModel.BeginCountdown(old(View()), env), old(done))
    {
      hide SpeedrunModel.CancelStart;
      if requestId == 0 || phase != WaitingReady || readyCount != readyTotal { return; }
      var ok := Send(env, Plain(CountdownStarts, requestId));
      if !ok {
        CancelStart(env);
        return;
      }
      phase := Countdown;
      countdownAt := env.now + 3 * SECOND;
    }

    method AnnounceCount(env: Env)
      modifies this
      ensures fits == old(fits)
      ensures Is(SpeedrunModel.AnnounceCount(old(View()), env), old(done))
    {
      hide SpeedrunModel.CancelStart, SpeedrunModel.BeginCountdown;
      var ok := Send(env, Counts(requestId, readyCount, readyTotal));
      if !ok {
        CancelStart(env);
        return;
      }
      BeginCountdown(env);
    }

    method TryStart(env: Env)
      modifies this
      ensures fits == old(fits)
      ensures Is(SpeedrunModel.StartPressed(old(View()), env), old(done))
    {
      if !env.modeActive || !env.role.Host? || !env.canStart || requestId != 0 { return; }
      if !(env.peers <= env.reliable) { return; }
      ClearRequest();
      OpenRequest(env);
    }

    method OpenRequest(env: Env)
      modifies this`sequence, this`requestId, this`phase, this`deadline, this`participants, this`waitingPeers, this`done
      ensures sequence == requestId == ((if old(sequence) == 0 then env.seed else old(sequence)) + 1) % UINT64
      ensures phase == CheckingSaves && deadline == env.now + 10 * SECOND
      ensures participants == env.peers && waitingPeers == env.peers
      ensures done == old(done) + [Opened(requestId, env.peers)]
    {
      if sequence == 0 { sequence := env.seed; }
      sequence := (sequence + 1) % UINT64;
      requestId := sequence;
      phase := CheckingSaves;
      deadline := env.now + 10 * SECOND;
      participants := env.peers;
      waitingPeers := participants;
      done := done + [Opened(requestId, participants)];
    }

    method StartPressed(env: Env)
      requires Valid()
      modifies this
      ensures Is(SpeedrunModel.StartPressed(old(View()), env), old(done))
      ensures Valid() && fits == (old(fits) && PressFits(old(View()), env))
    {
      hide Sound, PressFits, SpeedrunModel.StartPressed;
      CallKeepsSound(View(), done, fits, Press(env));
      ghost var small := PressFits(View(), env);
      TryStart(env);
      fits := fits && small;
    }

    method ResetPressed(env: Env)
      requires Valid()
      modifies this
      ensures Is(SpeedrunModel.ResetPressed(old(View()), env), old(done))
      ensures Valid() && fits == old(fits)
    {
      hide Sound;
      CallKeepsSound(View(), done, fits, PressReset(env));
      if !env.modeActive || !env.role.Host? || !(env.peers <= env.reliable) { return; }
      var ok := Send(env, Message(Reset, None, None, None, None));
      if !ok { return; }
      ClearRequest();
      resetAt := env.now + 500;
    }

    method ReadInput(down: bool)
      requires Valid()
      modifies this
      ensures Is(Reply(SpeedrunModel.ReadInput(old(View()), down), []), old(done))
      ensures Valid() && fits == old(fits)
    {
      hide Sound;
      CallKeepsSound(View(), done, fits, Input(down));
      downHeld := false;
      if phase == WaitingReady && !localPlayerReady { downHeld := down; }
    }

    method Commit(env: Env)
      modifies this
      ensures fits == old(fits)
      ensures Is(SpeedrunModel.Commit(old(View()), env), old(done))
    {
      hide SpeedrunModel.CancelStart;
      if phase != Countdown || !localReady || !localPlayerReady || readyCount != readyTotal || waitingPeers != {} ||
         !env.modeActive || !env.canStart || |participants| != |env.peers| {
        CancelStart(env);
        return;
      }
      var id := requestId;
      var ok := Send(env, Plain(Start, id));
      if !ok {
        CancelStart(env);
        return;
      }
      ClearRequest();
      done := done + [Ran(id)];
    }

    /** Sends the save checks in the order of peer ids; gives up at the first that cannot be sent. */
    method SendChecks(env: Env) returns (ok: bool)
      modifies this`done
      ensures done == old(done) + Checks(participants, requestId, env)
      ensures ok <==> forall p :: p in participants ==> CheckAccepted(env, p)
    {
      var rest := participants;
      while rest != {}
        invariant rest <= participants
        invariant forall p :: p in participants - rest ==> CheckAccepted(env, p)
        invariant done + Checks(rest, requestId, env) == old(done) + Checks(participants, requestId, env)
        decreases |rest|
      {
        var p := Smallest(rest);
        if p !in env.reliable { return false; }
        var sent := p !in env.refusedChecks;
        ghost var before := done;
        done := done + [Tried(Only(p), Plain(Check, requestId), sent)];
        if !sent { return false; }
        assert before + ([Tried(Only(p), Plain(Check, requestId), true)] + Checks(rest - {p}, requestId, env)) ==
               done + Checks(rest - {p}, requestId, env);
        rest := rest - {p};
      }
      ok := true;
    }

    /** Sends the checks unless they are out already, and opens the prompt when nobody is waited for. */
    method CheckPeers(env: Env)
      modifies this
      ensures fits == old(fits)
      ensures Is(SpeedrunModel.CheckPeers(old(View()), env), old(done))
    {
      hide SpeedrunModel.CancelStart, SpeedrunModel.BeginReady, Checks;
      if !checksSent {
        var ok := SendChecks(env);
        if !ok {
          CancelStart(env);
          return;
        }
        checksSent := true;
      }
      if waitingPeers == {} { BeginReady(env); }
    }

    method TickHostCheck(env: Env)
      modifies this
      ensures fits == old(fits)
      ensures Is(SpeedrunModel.TickHostCheck(old(View()), env), old(done))
    {
      hide SpeedrunModel.CheckPeers, SpeedrunModel.CancelStart;
      if !localReady {
        if env.probe.Pending? { return; }
        if !env.probe.Clear? {
          CancelStart(env);
          return;
        }
        localReady := true;
        done := done + [ProbedClear(requestId)];
      }
      CheckPeers(env);
    }

    method TickGuestCheck(env: Env)
      modifies this
      ensures fits == old(fits)
      ensures Is(SpeedrunModel.TickGuestCheck(old(View()), env), old(done))
    {
      if peerRequestId != 0 && !peerReady {
        if env.probe.Pending? { return; }
        peerReady := env.probe.Clear?;
        if peerReady { done := done + [ProbedClear(peerRequestId)]; }
        var ok := SendToOwner(env, Answer(Ready, peerRequestId, peerReady));
        if !ok || !peerReady { ClearRequest(); }
      }
    }

    method TickHold(env: Env)
      modifies this
      ensures fits == old(fits)
      ensures Is(SpeedrunModel.TickHold(old(View()), env), old(done))
    {
      hide SpeedrunModel.TellReady;
      if localPlayerReady { return; }
      if !downHeld {
        holdStart := 0;
        return;
      }
      if holdStart == 0 { holdStart := env.now; }
      if env.now < holdStart + SECOND { return; }
      localPlayerReady := true;
      holdStart := 0;
      TellReady(env);
    }

    method TellReady(env: Env)
      modifies this
      ensures fits == old(fits)
      ensures Is(SpeedrunModel.TellReady(old(View()), env), old(done))
    {
      hide SpeedrunModel.AnnounceCount;
      if requestId != 0 {
        done := done + [HeldDown(requestId)];
        readyCount := (|readyPeers| + 1) % UINT32;
        AnnounceCount(env);
      } else {
        done := done + [HeldDown(peerRequestId)];
        var ok := SendToOwner(env, Plain(PlayerReady, peerRequestId));
        if !ok { ClearRequest(); }
      }
    }

    method Tick(env: Env)
      requires Valid()
      modifies this
      ensures Is(SpeedrunModel.Tick(old(View()), env), old(done))
      ensures Valid() && fits == old(fits)
    {
      hide Sound, SpeedrunModel.Commit, SpeedrunModel.TickHold, SpeedrunModel.TickHostCheck,
           SpeedrunModel.TickGuestCheck;
      CallKeepsSound(View(), done, fits, Frame(env));
      if resetAt != 0 {
        if env.now >= resetAt { resetAt := 0; }
        return;
      }
      if phase == Idle { return; }
      if !env.modeActive {
        if requestId != 0 { CancelStart(env); } else { ClearRequest(); }
        return;
      }
      if phase == Countdown {
        if requestId != 0 && env.now >= countdownAt {
          Commit(env);
        } else if peerRequestId != 0 && env.now >= countdownAt + 10 * SECOND {
          ClearRequest();
        }
        return;
      }
      if phase == WaitingReady {
        TickHold(env);
        return;
      }
      if env.now > deadline {
        if requestId != 0 { CancelStart(env); } else { ClearRequest(); }
        return;
      }
      if requestId != 0 {
        TickHostCheck(env);
        return;
      }
      TickGuestCheck(env);
    }

    method HearReady(sender: PeerId, m: Message, env: Env)
      requires m.id.Some?
      modifies this
      ensures fits == old(fits)
      ensures Is(SpeedrunModel.HearReady(old(View()), sender, m, env), old(done))
    {
      hide SpeedrunModel.CancelStart, SpeedrunModel.BeginReady;
      if !env.role.Host? || m.id.value != requestId || sender !in waitingPeers || m.ready.None? { return; }
      if !m.ready.value {
        CancelStart(env);
        return;
      }
      waitingPeers := waitingPeers - {sender};
      if localReady && waitingPeers == {} { BeginReady(env); }
    }

    method HearPlayerReady(sender: PeerId, m: Message, env: Env)
      requires m.id.Some?
      modifies this
      ensures fits == old(fits)
      ensures Is(SpeedrunModel.HearPlayerReady(old(View()), sender, m, env), old(done))
    {
      hide SpeedrunModel.CancelStart, SpeedrunModel.AnnounceCount;
      if !env.role.Host? || m.id.value != requestId || phase != WaitingReady || sender !in participants { return; }
      if m.ready == Some(false) {
        CancelStart(env);
        return;
      }
      if sender in readyPeers { return; }
      readyPeers := readyPeers + {sender};
      readyCount := (|readyPeers| + if localPlayerReady then 1 else 0) % UINT32;
      AnnounceCount(env);
    }

    method HearPrompt(m: Message, env: Env)
      requires m.id.Some?
      modifies this
      ensures fits == old(fits)
      ensures Is(SpeedrunModel.HearPrompt(old(View()), m, env), old(done))
    {
      if phase != CheckingSaves || !peerReady || m.playerCount.None? { return; }
      var count := m.playerCount.value % UINT32;
      if count < 1 || count > 8 { return; }
      if !env.modeActive || !env.canStart {
        var _ := SendToOwner(env, Answer(PlayerReady, m.id.value, false));
        ClearRequest();
        return;
      }
      readyTotal, readyCount := count, 0;
      phase := WaitingReady;
    }

    method Hear(sender: PeerId, m: Message, env: Env)
      requires Valid()
      modifies this
      ensures Is(SpeedrunModel.Hear(old(View()), sender, m, env), old(done))
      ensures Valid() && fits == old(fits)
    {
      hide Sound, SpeedrunModel.HearCheck, SpeedrunModel.HearReady, SpeedrunModel.HearPlayerReady,
           SpeedrunModel.HearOwner;
      CallKeepsSound(View(), done, fits, Deliver(sender, m, env));
      var fromOwner := env.role.Guest? && sender == env.role.owner;
      if m.kind == Reset {
        if fromOwner && env.modeActive {
          ClearRequest();
          resetAt := env.now + 500;
        }
        return;
      }
      if m.id.None? || m.id.value == 0 { return; }
      if m.kind == Check {
        HearCheck(fromOwner, m.id.value, env);
      } else if m.kind == Ready {
        HearReady(sender, m, env);
      } else if m.kind == PlayerReady {
        HearPlayerReady(sender, m, env);
      } else if fromOwner && m.id.value == peerRequestId {
        HearOwner(m, env);
      }
    }

    method HearCheck(fromOwner: bool, id: nat, env: Env)
      modifies this
      ensures fits == old(fits)
      ensures Is(SpeedrunModel.HearCheck(old(View()), fromOwner, id, env), old(done))
    {
      if !fromOwner || requestId != 0 { return; }
      ClearRequest();
      peerRequestId := id;
      phase := CheckingSaves;
      deadline := env.now + 15 * SECOND;
    }

    /** A message of the owner about the request this node takes part in. */
    method HearOwner(m: Message, env: Env)
      requires m.id.Some?
      modifies this
      ensures fits == old(fits)
      ensures Is(SpeedrunModel.HearOwner(old(View()), m, env), old(done))
    {
      hide SpeedrunModel.HearPrompt;
      match m.kind {
        case Prompt => HearPrompt(m, env);
        case ReadyCount =>
          if phase != WaitingReady || m.readyCount.None? || m.playerCount.None? ||
             m.playerCount.value % UINT32 != readyTotal || m.readyCount.value % UINT32 > readyTotal { return; }
          readyCount := m.readyCount.value % UINT32;
        case CountdownStarts =>
          if phase != WaitingReady || !localPlayerReady { return; }
          readyCount := readyTotal;
          phase := Countdown;
          countdownAt := env.now + 3 * SECOND;
        case Cancel => ClearRequest();
        case Start =>
          if !peerReady || phase != Countdown || !localPlayerReady { return; }
          ClearRequest();
          done := done + [Ran(m.id.value)];
        case _ =>
      }
    }

    /** A peer-left event. */
    method PeerLeft(peer: PeerId, env: Env)
      requires Valid()
      modifies this
      ensures Is(SpeedrunModel.PeerLeft(old(View()), peer, env), old(done))
      ensures Valid() && fits == old(fits)
    {
      hide Sound;
      CallKeepsSound(View(), done, fits, Left(peer, env));
      if requestId != 0 && peer in participants { CancelStart(env); }
    }

    /** A peer-joined event. */
    method PeerJoined(env: Env)
      requires Valid()
      modifies this
      ensures Is(SpeedrunModel.PeerJoined(old(View()), env), old(done))
      ensures Valid() && fits == old(fits)
    {
      hide Sound;
      CallKeepsSound(View(), done, fits, Joined(env));
      if requestId != 0 { CancelStart(env); }
    }

    method OwnerChanged()
      requires Valid()
      modifies this
      ensures Is(Reply(SpeedrunModel.OwnerChanged(old(View())), []), old(done))
      ensures Valid() && fits == old(fits)
    {
      hide Sound;
      CallKeepsSound(View(), done, fits, NewOwner);
      if phase != Idle { ClearRequest(); }
    }

    method Disconnected()
      requires Valid()
      modifies this
      ensures Is(Reply(SpeedrunModel.Disconnected(old(View())), []), old(done))
      ensures Valid() && fits == old(fits)
    {
      hide Sound;
      CallKeepsSound(View(), done, fits, Dropped);
      ClearRequest();
      resetAt := 0;
    }
  }
}
