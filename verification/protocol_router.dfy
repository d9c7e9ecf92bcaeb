/** Routing of gameplay messages: gates, the bounded deferral queue and its flush, as functions on a state. */
module RouterModel {
  import opened Common

  const MAX_PENDING_MESSAGES := 512
  const MAX_PENDING_BYTES := 2 * 1024 * 1024

  datatype Domain = Session | Membership | Presence | Chat | Progression | Visual | Interaction | Ganondorf |
                    OptionalRandomizer | Unknown

  datatype Spec = Spec(domain: Domain, stageDependent: bool, syncControlled: bool)

  /** A classified message. `ingressSync` is the sync setting at its place in the receive stream; `encoded` is the
      length of its sender and text, if it can be written out. */
  datatype Message = Message(id: nat, spec: Spec, ingressSync: bool, encoded: Option<nat>)

  datatype Result = Applied | Deferred | Retained | IgnoredByPolicy | Unsupported | Rejected

  /** A consumer call gives a value or throws a JSON exception. */
  datatype Reply<+T> = Value(value: T) | Throws

  /** What the consumer would say in one attempt at a message. */
  datatype Answers = Answers(retain: Reply<bool>, discard: Reply<bool>, ready: bool, allow: Reply<bool>,
                             consume: Reply<Result>)

  datatype Question = Retain | Discard | Allow | Consume

  /** A call that passes a message to the consumer: in which attempt, from the queue or not, under which flag. */
  datatype Call = Call(question: Question, message: Message, answers: Answers, queued: bool, flag: bool)

  datatype Error = NoError | NotAnObject | NoType | UnsupportedType | MalformedMessage | MalformedUdp |
                   NotRetainable | LimitReached

  datatype Counts = Counts(applied: nat, deferred: nat, ignored: nat, unsupported: nat, rejected: nat)

  function Recorded(c: Counts, r: Result): Counts {
    match r
    case Applied => c.(applied := c.applied + 1)
    case Deferred => c.(deferred := c.deferred + 1)
    case Retained => c.(deferred := c.deferred + 1)
    case IgnoredByPolicy => c.(ignored := c.ignored + 1)
    case Unsupported => c.(unsupported := c.unsupported + 1)
    case Rejected => c.(rejected := c.rejected + 1)
  }

  // ---- one attempt ----

  /** The result before any queueing, the error it leaves if any, the calls made, and whether it is counted. */
  datatype Attempt = Attempt(result: Result, error: Option<Error>, calls: seq<Call>, counted: bool)

  function Judge(m: Message, queued: bool, flag: bool, a: Answers): (j: Attempt)
    ensures !j.counted ==> j.result.Deferred? && j.error.None?
  {
    if m.spec.domain.Unknown? then Attempt(Unsupported, Some(UnsupportedType), [], true)
    else if m.spec.syncControlled && !flag then Attempt(IgnoredByPolicy, None, [], true)
    else if !m.spec.domain.Progression? then JudgeStage(m, queued, flag, a, [])
    else
      var calls := [Call(Retain, m, a, queued, flag)];
      if a.retain.Throws? then Attempt(Rejected, Some(MalformedMessage), calls, true)
      else if a.retain.value then Attempt(Retained, None, calls, true)
      else JudgeStage(m, queued, flag, a, calls)
  }

  function JudgeStage(m: Message, queued: bool, flag: bool, a: Answers, before: seq<Call>): (j: Attempt)
    ensures !j.counted ==> j.result.Deferred? && j.error.None?
  {
    if !m.spec.stageDependent then JudgeConsume(m, queued, flag, a, before)
    else
      var calls := before + [Call(Discard, m, a, queued, flag)];
      if a.discard.Throws? then Attempt(Rejected, Some(MalformedMessage), calls, true)
      else if a.discard.value then Attempt(IgnoredByPolicy, None, calls, true)
      else if a.ready then JudgeConsume(m, queued, flag, a, calls)
      else
        var calls := calls + [Call(Allow, m, a, queued, flag)];
        if a.allow.Throws? then Attempt(Rejected, Some(MalformedMessage), calls, true)
        else if !a.allow.value then Attempt(Deferred, None, calls, false)
        else JudgeConsume(m, queued, flag, a, calls)
  }

  function JudgeConsume(m: Message, queued: bool, flag: bool, a: Answers, before: seq<Call>): (j: Attempt)
    ensures !j.counted ==> j.result.Deferred? && j.error.None?
  {
    var calls := before + [Call(Consume, m, a, queued, flag)];
    if a.consume.Throws? then Attempt(Rejected, Some(MalformedMessage), calls, true)
    else Attempt(a.consume.value, None, calls, true)
  }

  // ---- the router ----

  datatype Pending = Pending(message: Message, bytes: nat)

  /** `log`, `queued` and `gone` are the history: every call, every message put into the queue, and every message
      that left it for good. */
  datatype State = State(pending: seq<Pending>, pendingBytes: nat, counts: Counts, lastError: Error, fatal: bool,
                         log: seq<Call>, queued: seq<Message>, gone: seq<Message>)

  const IDLE := State([], 0, Counts(0, 0, 0, 0, 0), NoError, false, [], [], [])

  function Record(s: State, r: Result, error: Option<Error>): State {
    s.(counts := Recorded(s.counts, r), lastError := if error.Some? then error.value else s.lastError)
  }

  /** Arithmetic on 64-bit sizes. */
  function Wrapped(n: int): nat { n % 0x1_0000_0000_0000_0000 }

  function Enqueue(s: State, m: Message): (State, Result) {
    if m.encoded.None? then (Record(s, Rejected, Some(NotRetainable)), Rejected)
    else if |s.pending| >= MAX_PENDING_MESSAGES || m.encoded.value > MAX_PENDING_BYTES ||
            s.pendingBytes > MAX_PENDING_BYTES - m.encoded.value then
      (Record(s, Rejected, Some(LimitReached)).(fatal := true), Rejected)
    else
      (Record(s, Deferred, None).(pending := s.pending + [Pending(m, m.encoded.value)],
                                  pendingBytes := Wrapped(s.pendingBytes + m.encoded.value),
                                  queued := s.queued + [m]), Deferred)
  }

  /** What follows from a verdict. A message on its first attempt may be queued; one from the queue is not counted
      when it has to wait for the stage. */
  function Finished(s: State, m: Message, allowQueue: bool, j: Attempt): (State, Result) {
    if j.result.Deferred? && allowQueue then Enqueue(s, m)
    else if j.counted then (Record(s, j.result, j.error), j.result)
    else (s, Deferred)
  }

  /** One attempt under a flag. */
  function Attempted(s: State, m: Message, flag: bool, allowQueue: bool, a: Answers): (State, Result) {
    var j := Judge(m, !allowQueue, flag, a);
    Finished(s.(log := s.log + j.calls), m, allowQueue, j)
  }

  /** A further attempt at a queued message does not touch the queue. */
  lemma RetryLeavesQueue(s: State, m: Message, flag: bool, a: Answers)
    ensures var s' := Attempted(s, m, flag, false, a).0;
            s' == s.(counts := s'.counts, lastError := s'.lastError, log := s.log + Judge(m, true, flag, a).calls)
    ensures Attempted(s, m, flag, false, a).1 == Judge(m, true, flag, a).result
  {}

  /** A message as it comes in: the flag is the one it carries. */
  function RouteMessage(s: State, m: Message, a: Answers): (State, Result) {
    Attempted(s, m, m.ingressSync, true, a)
  }

  datatype Event = PeerJoined | PeerLeft | Udp(reply: Reply<Result>) | NonObject | Untyped |
                   Text(message: Message, answers: Answers) | Other

  function Route(s: State, e: Event): (State, Result) {
    match e
    case PeerJoined => (Record(s, Applied, None), Applied)
    case PeerLeft => (Record(s, Applied, None), Applied)
    case Udp(reply) =>
      if reply.Throws? then (Record(s, Rejected, Some(MalformedUdp)), Rejected)
      else (Record(s, reply.value, None), reply.value)
    case NonObject => (Record(s, Rejected, Some(NotAnObject)), Rejected)
    case Untyped => (Record(s, Rejected, Some(NoType)), Rejected)
    case Text(m, a) => RouteMessage(s, m, a)
    case Other => (s, IgnoredByPolicy)
  }

  /** One turn of the flush: the front message is tried, and goes to the back if it must still wait. */
  function Turn(s: State, flag: bool, a: Answers): State {
    if s.pending == [] then s
    else
      var p := s.pending[0];
      var popped := s.(pending := s.pending[1..], pendingBytes := Wrapped(s.pendingBytes - p.bytes));
      var (s', r) := Attempted(popped, p.message, flag, false, a);
      if r.Deferred? then s'.(pending := s'.pending + [p], pendingBytes := Wrapped(s'.pendingBytes + p.bytes))
      else s'.(gone := s'.gone + [p.message])
  }

  function Turns(s: State, flag: bool, answers: nat -> Answers, n: nat): State {
    if n == 0 then s else Turn(Turns(s, flag, answers, n - 1), flag, answers(n - 1))
  }

  lemma TurnsUnfold(s: State, flag: bool, answers: nat -> Answers, n: nat)
    ensures Turns(s, flag, answers, 0) == s
    ensures Turns(s, flag, answers, n + 1) == Turn(Turns(s, flag, answers, n), flag, answers(n))
  {}

  function Flush(s: State, flag: bool, answers: nat -> Answers): State { Turns(s, flag, answers, |s.pending|) }

  function Messages(ps: seq<Pending>): (ms: seq<Message>)
    ensures |ms| == |ps|
  {
    seq(|ps|, i requires 0 <= i < |ps| => ps[i].message)
  }

  function Clear(s: State): State {
    s.(pending := [], pendingBytes := 0, lastError := NoError, fatal := false, gone := s.gone + Messages(s.pending))
  }

  // ---- the flush as a filter ----

  predicate Waits(p: Pending, flag: bool, a: Answers) { Judge(p.message, true, flag, a).result.Deferred? }

  /** Those of the queue that must still wait, in order. */
  function Kept(ps: seq<Pending>, flag: bool, answers: nat -> Answers): seq<Pending> {
    if ps == [] then []
    else
      var n := |ps| - 1;
      Kept(ps[..n], flag, answers) + if Waits(ps[n], flag, answers(n)) then [ps[n]] else []
  }

  /** Those of the queue that are settled, in order. */
  function Settled(ps: seq<Pending>, flag: bool, answers: nat -> Answers): seq<Message> {
    if ps == [] then []
    else
      var n := |ps| - 1;
      Settled(ps[..n], flag, answers) + if Waits(ps[n], flag, answers(n)) then [] else [ps[n].message]
  }

  /** The calls of trying each once, in order. */
  function Calls(ps: seq<Pending>, flag: bool, answers: nat -> Answers): seq<Call> {
    if ps == [] then []
    else
      var n := |ps| - 1;
      Calls(ps[..n], flag, answers) + Judge(ps[n].message, true, flag, answers(n)).calls
  }

  function Total(ps: seq<Pending>): nat {
    if ps == [] then 0 else Total(ps[..|ps| - 1]) + ps[|ps| - 1].bytes
  }

  lemma {:induction false} TotalOfFront(ps: seq<Pending>)
    requires ps != []
    ensures Total(ps) == ps[0].bytes + Total(ps[1..])
  {
    if |ps| > 1 {
      TotalOfFront(ps[..|ps| - 1]);
      assert ps[..|ps| - 1][1..] == ps[1..][..|ps| - 2];
    }
  }

  lemma TotalPush(ps: seq<Pending>, p: Pending)
    ensures Total(ps + [p]) == Total(ps) + p.bytes
  {
    assert (ps + [p])[..|ps|] == ps;
  }

  lemma TurnTries(s: State, flag: bool, a: Answers)
    requires s.pending != [] && s.pendingBytes == Total(s.pending) <= MAX_PENDING_BYTES
    ensures var s' := Turn(s, flag, a);
            var p := s.pending[0];
            && s'.pending == s.pending[1..] + (if Waits(p, flag, a) then [p] else [])
            && s'.pendingBytes == Total(s'.pending) <= MAX_PENDING_BYTES
            && s'.gone == s.gone + (if Waits(p, flag, a) then [] else [p.message])
            && s'.log == s.log + Judge(p.message, true, flag, a).calls
            && s'.queued == s.queued && s'.fatal == s.fatal
  {
    hide Judge, Total;
    TotalOfFront(s.pending);
    TotalPush(s.pending[1..], s.pending[0]);
    assert s.pending[1..] + [] == s.pending[1..];
  }

  lemma NothingTried(flag: bool, answers: nat -> Answers)
    ensures Kept([], flag, answers) == [] && Settled([], flag, answers) == [] && Calls([], flag, answers) == []
  {}

  lemma LastTried(ps: seq<Pending>, flag: bool, answers: nat -> Answers)
    requires ps != []
    ensures var n := |ps| - 1;
            var waits := Waits(ps[n], flag, answers(n));
            && Kept(ps, flag, answers) == Kept(ps[..n], flag, answers) + (if waits then [ps[n]] else [])
            && Settled(ps, flag, answers) == Settled(ps[..n], flag, answers) + (if waits then [] else [ps[n].message])
            && Calls(ps, flag, answers) ==
               Calls(ps[..n], flag, answers) + Judge(ps[n].message, true, flag, answers(n)).calls
  {
    hide Judge, Waits;
  }

  lemma {:induction false} TurnsRotate(s: State, flag: bool, answers: nat -> Answers, n: nat)
    requires n <= |s.pending| && s.pendingBytes == Total(s.pending) <= MAX_PENDING_BYTES
    ensures var s' := Turns(s, flag, answers, n);
            && s'.pending == s.pending[n..] + Kept(s.pending[..n], flag, answers)
            && s'.pendingBytes == Total(s'.pending) <= MAX_PENDING_BYTES
            && s'.gone == s.gone + Settled(s.pending[..n], flag, answers)
            && s'.log == s.log + Calls(s.pending[..n], flag, answers)
            && s'.queued == s.queued && s'.fatal == s.fatal
  {
    hide Judge, Turn, Waits, Total, Turns, Kept, Settled, Calls;
    TurnsUnfold(s, flag, answers, if n == 0 then 0 else n - 1);
    var front := s.pending[..n];
    if n == 0 {
      NothingTried(flag, answers);
      assert s.pending[..0] == [];
    } else {
      LastTried(front, flag, answers);
      TurnsRotate(s, flag, answers, n - 1);
      var t := Turns(s, flag, answers, n - 1);
      assert front[..n - 1] == s.pending[..n - 1] && front[n - 1] == s.pending[n - 1];
      assert t.pending[0] == s.pending[n - 1];
      assert t.pending[1..] == s.pending[n..] + Kept(front[..n - 1], flag, answers);
      TurnTries(t, flag, answers(n - 1));
    }
  }

  /** The rotating flush tries every queued message once, in order, and leaves exactly those that must still wait,
      in their old order. */
  lemma FlushFilters(s: State, flag: bool, answers: nat -> Answers)
    requires s.pendingBytes == Total(s.pending) <= MAX_PENDING_BYTES
    ensures var s' := Flush(s, flag, answers);
            && s'.pending == Kept(s.pending, flag, answers)
            && s'.pendingBytes == Total(s'.pending) <= MAX_PENDING_BYTES
            && s'.gone == s.gone + Settled(s.pending, flag, answers)
            && s'.log == s.log + Calls(s.pending, flag, answers)
            && s'.queued == s.queued && s'.fatal == s.fatal
  {
    TurnsRotate(s, flag, answers, |s.pending|);
    assert s.pending[..|s.pending|] == s.pending;
  }

  /** A flush with sync switched off leaves nothing that sync controls. */
  lemma {:induction false} SyncOffDrops(ps: seq<Pending>, answers: nat -> Answers, p: Pending)
    requires p in Kept(ps, false, answers)
    ensures !p.message.spec.syncControlled
  {
    if ps != [] {
      var n := |ps| - 1;
      if p in Kept(ps[..n], false, answers) { SyncOffDrops(ps[..n], answers, p); }
    }
  }

  /** A message waits in the queue exactly when the router says so; nothing else changes the queue. */
  lemma DeferredIsQueued(s: State, m: Message, a: Answers)
    ensures var (s', r) := RouteMessage(s, m, a);
            if r.Deferred? then m.encoded.Some? && s'.pending == s.pending + [Pending(m, m.encoded.value)]
            else s'.pending == s.pending && s'.pendingBytes == s.pendingBytes && s'.queued == s.queued
  {
    hide Judge;
  }
}
