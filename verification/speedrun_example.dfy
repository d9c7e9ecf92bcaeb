/** A whole start of a host with one guest, step by step: the promises about starts are not empty. */
module SpeedrunExample {
  import opened Common
  import opened SpeedrunModel
  import opened SpeedrunLobby
  import opened SpeedrunRequests

  const GUEST: PeerId := 1
  const HOST_ENV := Env(1, Host, {1}, {1}, true, true, Clear, 1, {}, {})
  const GUEST_ENV := Env(1, Guest(0), {0}, {0}, true, true, Clear, 1, {}, {})

  const H_OPEN := IDLE_NODE.(phase := CheckingSaves, requestId := 2, sequence := 2, participants := {1}, waiting := {1},
                             deadline := 10001)
  const H_CHECKED := H_OPEN.(localReady := true, checksSent := true)
  const H_PROMPTED := H_CHECKED.(waiting := {}, readyTotal := 2, phase := WaitingReady)
  const H_COUNTED := H_PROMPTED.(readyPeers := {1}, readyCount := 1)
  const H_DOWN := H_COUNTED.(downHeld := true)
  const H_HOLDING := H_DOWN.(holdStart := 1)
  const H_COUNTING := H_HOLDING.(holdStart := 0, localPlayerReady := true, readyCount := 2, phase := Countdown,
                                 countdownAt := 4001)
  const H_OVER := IDLE_NODE.(sequence := 2)

  const G_CHECKING := IDLE_NODE.(peerRequestId := 2, phase := CheckingSaves, deadline := 15001)
  const G_READY := G_CHECKING.(peerReady := true)
  const G_PROMPTED := G_READY.(readyTotal := 2, phase := WaitingReady)
  const G_DOWN := G_PROMPTED.(downHeld := true)
  const G_HOLDING := G_DOWN.(holdStart := 1)
  const G_HELD := G_HOLDING.(holdStart := 0, localPlayerReady := true)
  const G_COUNTING := G_HELD.(readyCount := 2, phase := Countdown, countdownAt := 3001)

  // ---- what each call does ----

  lemma HostOpens()
    ensures Do(IDLE_NODE, Press(HOST_ENV)).node == H_OPEN
  {}

  lemma OneCheck(env: Env)
    requires 1 in env.reliable && env.refusedChecks == {}
    ensures Checks({1}, 2, env) == [Tried(Only(1), Plain(Check, 2), true)]
    ensures !exists p :: p in {1} && !CheckAccepted(env, p)
  {
    assert {1} - {1} == {};
  }

  lemma HostChecks()
    ensures Do(H_OPEN, Frame(HOST_ENV)).node == H_CHECKED
    ensures Tried(Only(1), Plain(Check, 2), true) in Do(H_OPEN, Frame(HOST_ENV)).effects
  {
    OneCheck(HOST_ENV);
    assert H_OPEN.(localReady := true, checksSent := true).waiting != {};
  }

  lemma GuestChecks()
    ensures Do(IDLE_NODE, Deliver(0, Plain(Check, 2), GUEST_ENV)).node == G_CHECKING
    ensures Do(G_CHECKING, Frame(GUEST_ENV)) ==
            Reply(G_READY, [ProbedClear(2), Tried(Only(0), Answer(Ready, 2, true), true)])
  {}

  lemma HostPrompts()
    ensures Do(H_CHECKED, Deliver(1, Answer(Ready, 2, true), HOST_ENV)) ==
            Reply(H_PROMPTED, [Tried(Everyone, Asked(2, 2), true)])
  {
    assert {1} - {1} == {};
  }

  lemma GuestHolds()
    ensures Do(G_READY, Deliver(0, Asked(2, 2), GUEST_ENV)).node == G_PROMPTED
    ensures Do(G_PROMPTED, Input(true)).node == G_DOWN
    ensures Do(G_DOWN, Frame(GUEST_ENV)).node == G_HOLDING
    ensures Do(G_HOLDING, Frame(GUEST_ENV.(now := 1001))) ==
            Reply(G_HELD, [HeldDown(2), Tried(Only(0), Plain(PlayerReady, 2), true)])
  {}

  lemma HostCounts()
    ensures Do(H_PROMPTED, Deliver(1, Plain(PlayerReady, 2), HOST_ENV)).node == H_COUNTED
    ensures Do(H_COUNTED, Input(true)).node == H_DOWN
    ensures Do(H_DOWN, Frame(HOST_ENV)).node == H_HOLDING
  {
    assert {} + {1} == {1};
  }

  lemma HostHolds()
    ensures Do(H_HOLDING, Frame(HOST_ENV.(now := 1001))).node == H_COUNTING
    ensures Tried(Everyone, Plain(CountdownStarts, 2), true) in Do(H_HOLDING, Frame(HOST_ENV.(now := 1001))).effects
  {
    var r := Do(H_HOLDING, Frame(HOST_ENV.(now := 1001)));
    assert r.effects[2] == Tried(Everyone, Plain(CountdownStarts, 2), true);
  }

  lemma BothStart()
    ensures Do(G_HELD, Deliver(0, Plain(CountdownStarts, 2), GUEST_ENV)).node == G_COUNTING
    ensures Do(H_COUNTING, Frame(HOST_ENV.(now := 4001))) ==
            Reply(H_OVER, [Tried(Everyone, Plain(Start, 2), true), Ran(2)])
    ensures Do(G_COUNTING, Deliver(0, Plain(Start, 2), GUEST_ENV)) == Reply(IDLE_NODE, [Ran(2)])
  {}

  // ---- the run ----

  datatype Sides = Sides(host: Node, guest: Node)

  /** A lobby of the two that some moves reach. */
  ghost predicate At(s: Lobby, sides: Sides) {
    s.nodes == map[0 := sides.host, 1 := sides.guest] && exists moves: seq<Move> :: Reaches(moves, s)
  }

  function NodeOf(sides: Sides, who: PeerId): Node { if who == HOST then sides.host else sides.guest }

  function With(sides: Sides, who: PeerId, n: Node): Sides {
    if who == HOST then sides.(host := n) else sides.(guest := n)
  }

  predicate CanCall(sides: Sides, who: PeerId, call: Call) {
    && who <= 1 && !call.NewOwner?
    && (EnvOf(call).Some? ==> EnvOf(call).value.role == RoleOf(who))
    && (call.Press? ==> PressFits(NodeOf(sides, who), call.env))
  }

  /** One more call, to a known state. */
  lemma Play(s: Lobby, sides: Sides, who: PeerId, call: Call, node: Node) returns (s': Lobby)
    requires At(s, sides) && CanCall(sides, who, call)
    requires call.Deliver? ==> Sent(s.log, call.sender, who, call.message)
    requires Do(NodeOf(sides, who), call).node == node
    ensures At(s', With(sides, who, node))
    ensures forall e :: e in Do(NodeOf(sides, who), call).effects ==> Did(s'.log, who, e)
    ensures forall p, x :: Did(s.log, p, x) ==> Did(s'.log, p, x)
  {
    hide Do, Reaches, Enabled, Sent, PressFits;
    var move := Move(who, call);
    MayMove(s, sides, who, call);
    s' := Next(s, move);
    var moves: seq<Move> :| Reaches(moves, s);
    Extends(moves, s, move);
    var effects := Do(NodeOf(sides, who), call).effects;
    forall e | e in effects ensures Did(s'.log, who, e) {
      var k :| 0 <= k < |effects| && effects[k] == e;
      DidNow(s.log, who, effects, k);
    }
  }

  lemma MayMove(s: Lobby, sides: Sides, who: PeerId, call: Call)
    requires At(s, sides) && CanCall(sides, who, call)
    requires call.Deliver? ==> Sent(s.log, call.sender, who, call.message)
    ensures Enabled(s, Move(who, call)) && s.nodes[who] == NodeOf(sides, who)
  {
    hide Sent, PressFits, Reaches;
  }

  lemma Extends(moves: seq<Move>, s: Lobby, move: Move)
    requires Reaches(moves, s) && Enabled(s, move)
    ensures Reaches(moves + [move], Next(s, move))
  {
    hide Do, Enabled, Next;
    MoverIsThere(s, move);
    assert (moves + [move])[..|moves|] == moves;
  }

  lemma MoverIsThere(s: Lobby, move: Move)
    requires Enabled(s, move)
    ensures move.who in s.nodes
  {}

  lemma MaySend(log: seq<Entry>, sender: PeerId, who: PeerId, to: Destination, m: Message)
    requires Did(log, sender, Tried(to, m, true)) && (to == Everyone || to == Only(who))
    ensures Sent(log, sender, who, m)
  {}

  lemma Begin() returns (s: Lobby)
    ensures At(s, Sides(IDLE_NODE, IDLE_NODE))
  {
    s := Lobby(map[0 := IDLE_NODE, 1 := IDLE_NODE], []);
    assert Reaches([], s);
  }

  /** The host opens the request and both check their saves. */
  lemma Checked() returns (s: Lobby)
    ensures At(s, Sides(H_CHECKED, G_READY)) && Did(s.log, 1, Tried(Only(0), Answer(Ready, 2, true), true))
  {
    hide Do, Sent, Did, At;
    HostOpens();
    HostChecks();
    GuestChecks();
    s := Begin();
    s := Play(s, Sides(IDLE_NODE, IDLE_NODE), 0, Press(HOST_ENV), H_OPEN);
    var check := Tried(Only(1), Plain(Check, 2), true);
    s := Play(s, Sides(H_OPEN, IDLE_NODE), 0, Frame(HOST_ENV), H_CHECKED);
    MaySend(s.log, 0, 1, Only(1), Plain(Check, 2));
    s := Play(s, Sides(H_CHECKED, IDLE_NODE), 1, Deliver(0, Plain(Check, 2), GUEST_ENV), G_CHECKING);
    var answer := Tried(Only(0), Answer(Ready, 2, true), true);
    assert answer in [ProbedClear(2), answer];
    s := Play(s, Sides(H_CHECKED, G_CHECKING), 1, Frame(GUEST_ENV), G_READY);
  }

  /** The prompt opens and the guest holds Down. */
  lemma GuestIn() returns (s: Lobby)
    ensures At(s, Sides(H_PROMPTED, G_HELD)) && Did(s.log, 1, Tried(Only(0), Plain(PlayerReady, 2), true))
  {
    hide Do, Sent, Did, At;
    HostPrompts();
    GuestHolds();
    s := Checked();
    MaySend(s.log, 1, 0, Only(0), Answer(Ready, 2, true));
    var prompt := Tried(Everyone, Asked(2, 2), true);
    assert prompt in [prompt];
    s := Play(s, Sides(H_CHECKED, G_READY), 0, Deliver(1, Answer(Ready, 2, true), HOST_ENV), H_PROMPTED);
    MaySend(s.log, 0, 1, Everyone, Asked(2, 2));
    s := Play(s, Sides(H_PROMPTED, G_READY), 1, Deliver(0, Asked(2, 2), GUEST_ENV), G_PROMPTED);
    s := Play(s, Sides(H_PROMPTED, G_PROMPTED), 1, Input(true), G_DOWN);
    s := Play(s, Sides(H_PROMPTED, G_DOWN), 1, Frame(GUEST_ENV), G_HOLDING);
    var ready := Tried(Only(0), Plain(PlayerReady, 2), true);
    assert ready in [HeldDown(2), ready];
    s := Play(s, Sides(H_PROMPTED, G_HOLDING), 1, Frame(GUEST_ENV.(now := 1001)), G_HELD);
  }

  /** The host counts the guest, holds Down itself and announces the countdown. */
  lemma HostIn() returns (s: Lobby)
    ensures At(s, Sides(H_COUNTING, G_HELD)) && Did(s.log, 0, Tried(Everyone, Plain(CountdownStarts, 2), true))
  {
    hide Do, Sent, Did, At;
    HostCounts();
    HostHolds();
    s := GuestIn();
    MaySend(s.log, 1, 0, Only(0), Plain(PlayerReady, 2));
    s := Play(s, Sides(H_PROMPTED, G_HELD), 0, Deliver(1, Plain(PlayerReady, 2), HOST_ENV), H_COUNTED);
    s := Play(s, Sides(H_COUNTED, G_HELD), 0, Input(true), H_DOWN);
    s := Play(s, Sides(H_DOWN, G_HELD), 0, Frame(HOST_ENV), H_HOLDING);
    var countdown := Tried(Everyone, Plain(CountdownStarts, 2), true);
    s := Play(s, Sides(H_HOLDING, G_HELD), 0, Frame(HOST_ENV.(now := 1001)), H_COUNTING);
  }

  /** Host and guest both start request 2: nothing in the protocol stands in the way of a start. */
  lemma BothRun() returns (moves: seq<Move>, s: Lobby)
    ensures Reaches(moves, s) && s.nodes.Keys == {HOST, GUEST}
    ensures Did(s.log, HOST, Ran(2)) && Did(s.log, GUEST, Ran(2))
  {
    hide Do, Sent, Did, Reaches;
    BothStart();
    s := HostIn();
    MaySend(s.log, 0, 1, Everyone, Plain(CountdownStarts, 2));
    s := Play(s, Sides(H_COUNTING, G_HELD), 1, Deliver(0, Plain(CountdownStarts, 2), GUEST_ENV), G_COUNTING);
    var sides := Sides(H_COUNTING, G_COUNTING);
    var start := Tried(Everyone, Plain(Start, 2), true);
    assert start in [start, Ran(2)] && Ran(2) in [start, Ran(2)] && Ran(2) in [Ran(2)];
    s := Play(s, sides, 0, Frame(HOST_ENV.(now := 4001)), H_OVER);
    MaySend(s.log, 0, 1, Everyone, Plain(Start, 2));
    s := Play(s, Sides(H_OVER, G_COUNTING), 1, Deliver(0, Plain(Start, 2), GUEST_ENV), IDLE_NODE);
    moves :| Reaches(moves, s);
  }

  /** The guard of the commit can be passed wrongly. Everybody has counted in; now player 1 has left and player 2 has
      joined, no event has told of it yet, and the host starts the run with participant 1 and peer 2. */
  lemma CommitWithAStranger() returns (moves: seq<Move>, s: Lobby)
    ensures Reaches(moves, s) && s.nodes.Keys == {HOST, GUEST}
    ensures var env := HOST_ENV.(now := 4001, peers := {2});
            Commits(s.nodes[HOST], env) && s.nodes[HOST].participants != env.peers
  {
    s := HostIn();
    moves :| Reaches(moves, s);
    var env := HOST_ENV.(now := 4001, peers := {2});
    assert s.nodes[HOST] == H_COUNTING;
    assert Tick(H_COUNTING, env).effects == [Broadcast(env, Plain(Start, 2)), Ran(2)];
    assert 1 in H_COUNTING.participants && 1 !in env.peers;
  }
}
