/** Which messages reach the consumer, which wait, and what is reported of each. */
module RouterGates {
  import opened Common
  import opened RouterModel
  import opened RouterRuns

  /** The message is of a known type and sync lets it in. */
  predicate LetIn(m: Message, flag: bool) { !m.spec.domain.Unknown? && (m.spec.syncControlled ==> flag) }

  /** It is neither kept for the save, nor discarded for the stage, nor malformed in either answer. */
  predicate Wanted(m: Message, a: Answers) {
    && (m.spec.domain.Progression? ==> a.retain == Value(false))
    && (m.spec.stageDependent ==> a.discard == Value(false))
  }

  predicate StageOpen(m: Message, a: Answers) { m.spec.stageDependent ==> a.ready || a.allow == Value(true) }

  predicate StageShut(m: Message, a: Answers) { m.spec.stageDependent && !a.ready && a.allow == Value(false) }

  /** The message is for the consumer. */
  predicate Passes(m: Message, flag: bool, a: Answers) { LetIn(m, flag) && Wanted(m, a) && StageOpen(m, a) }

  /** The message can only wait: for its stage, or because the consumer says so. */
  predicate MustWait(m: Message, flag: bool, a: Answers) {
    || (LetIn(m, flag) && Wanted(m, a) && StageShut(m, a))
    || (Passes(m, flag, a) && a.consume == Value(Deferred))
  }

  /** The queue has room for the message. */
  predicate Fits(s: State, m: Message) {
    m.encoded.Some? && |s.pending| < 512 && s.pendingBytes + m.encoded.value <= 2 * 1024 * 1024
  }

  /** An answer that was asked for is an exception. */
  predicate Malformed(m: Message, flag: bool, a: Answers) {
    LetIn(m, flag) &&
    if m.spec.domain.Progression? && a.retain != Value(false) then a.retain.Throws?
    else if m.spec.stageDependent && a.discard != Value(false) then a.discard.Throws?
    else if m.spec.stageDependent && !a.ready && a.allow != Value(true) then a.allow.Throws?
    else a.consume.Throws?
  }

  // ---- one attempt ----

  function Rank(q: Question): nat { match q case Retain => 0 case Discard => 1 case Allow => 2 case Consume => 3 }

  /** The calls are about this attempt, in the order of their ranks, which are below `rank`. */
  ghost predicate Asked(calls: seq<Call>, m: Message, queued: bool, flag: bool, a: Answers, rank: nat) {
    && (forall i :: 0 <= i < |calls| ==>
          calls[i] == Call(calls[i].question, m, a, queued, flag) && Rank(calls[i].question) < rank)
    && (forall i, j :: 0 <= i < j < |calls| ==> Rank(calls[i].question) < Rank(calls[j].question))
  }

  lemma Ask(calls: seq<Call>, q: Question, m: Message, queued: bool, flag: bool, a: Answers, rank: nat)
    requires Asked(calls, m, queued, flag, a, rank) && rank <= Rank(q)
    ensures Asked(calls + [Call(q, m, a, queued, flag)], m, queued, flag, a, Rank(q) + 1)
    ensures forall c :: c in calls + [Call(q, m, a, queued, flag)] <==> c in calls || c == Call(q, m, a, queued, flag)
  {}

  lemma NotYetAsked(calls: seq<Call>, m: Message, queued: bool, flag: bool, a: Answers, rank: nat)
    requires Asked(calls, m, queued, flag, a, rank) && rank <= 3
    ensures Asked(calls, m, queued, flag, a, 4)
    ensures Call(Consume, m, a, queued, flag) !in calls
  {}

  /** What an attempt asks is about its message, in the order retain, discard, allow, consume, each at most once; and
      exactly the messages that pass are put to the consumer. */
  lemma AskedExactly(m: Message, queued: bool, flag: bool, a: Answers)
    ensures var calls := Judge(m, queued, flag, a).calls;
            && Asked(calls, m, queued, flag, a, 4)
            && (Call(Consume, m, a, queued, flag) in calls <==> Passes(m, flag, a))
            && (Call(Retain, m, a, queued, flag) in calls <==> LetIn(m, flag) && m.spec.domain.Progression?)
  {
    hide JudgeStage, Asked, StageOpen;
    FirstAsked(m, queued, flag, a);
    StageAsks(m, queued, flag, a,
              if m.spec.domain.Progression? then [Call(Retain, m, a, queued, flag)] else []);
  }

  lemma FirstAsked(m: Message, queued: bool, flag: bool, a: Answers)
    ensures Asked([], m, queued, flag, a, 1) && Asked([], m, queued, flag, a, 4)
    ensures Asked([Call(Retain, m, a, queued, flag)], m, queued, flag, a, 1)
    ensures Asked([Call(Retain, m, a, queued, flag)], m, queued, flag, a, 4)
  {}

  lemma StageAsks(m: Message, queued: bool, flag: bool, a: Answers, before: seq<Call>)
    requires Asked(before, m, queued, flag, a, 1)
    ensures var calls := JudgeStage(m, queued, flag, a, before).calls;
            && Asked(calls, m, queued, flag, a, 4)
            && (Call(Consume, m, a, queued, flag) in calls <==>
                  (m.spec.stageDependent ==> a.discard == Value(false)) && StageOpen(m, a))
            && (Call(Retain, m, a, queued, flag) in calls <==> Call(Retain, m, a, queued, flag) in before)
  {
    hide Asked;
    var discarded := before + [Call(Discard, m, a, queued, flag)];
    var allowed := discarded + [Call(Allow, m, a, queued, flag)];
    Ask(before, Discard, m, queued, flag, a, 1);
    Ask(discarded, Allow, m, queued, flag, a, 2);
    Ask(before, Consume, m, queued, flag, a, 1);
    Ask(discarded, Consume, m, queued, flag, a, 2);
    Ask(allowed, Consume, m, queued, flag, a, 3);
    NotYetAsked(discarded, m, queued, flag, a, 2);
    NotYetAsked(allowed, m, queued, flag, a, 3);
  }

  /** The verdict on an attempt. */
  lemma Verdict(m: Message, queued: bool, flag: bool, a: Answers)
    ensures var j := Judge(m, queued, flag, a);
            && (MustWait(m, flag, a) <==> j.result.Deferred?)
            && (m.spec.domain.Unknown? ==> j.result.Unsupported? && j.error == Some(UnsupportedType))
            && (Malformed(m, flag, a) ==> j.result.Rejected? && j.error == Some(MalformedMessage))
            && (!m.spec.domain.Unknown? && !Malformed(m, flag, a) ==> j.error.None?)
            && (Passes(m, flag, a) && a.consume.Value? ==> j.result == a.consume.value)
            && (j.result.Retained? && !Passes(m, flag, a) <==>
                  LetIn(m, flag) && m.spec.domain.Progression? && a.retain == Value(true))
            && (j.result.IgnoredByPolicy? && !Passes(m, flag, a) <==>
                  && !m.spec.domain.Unknown?
                  && (LetIn(m, flag) ==> (m.spec.domain.Progression? ==> a.retain == Value(false)) &&
                                         m.spec.stageDependent && a.discard == Value(true)))
            && (j.counted <==> !(LetIn(m, flag) && Wanted(m, a) && StageShut(m, a)))
  {}

  // ---- a message that comes in ----

  /** A message that comes in is put to the consumer exactly if it passes under the sync setting it carries, and goes
      to the end of the queue exactly if it must wait and fits. If it must wait and does not fit it is rejected, and
      that is fatal unless it cannot be written out at all. */
  lemma RoutedExactly(s: State, m: Message, a: Answers)
    requires WithinLimits(s)
    ensures var (s', r) := RouteMessage(s, m, a);
            && s.log <= s'.log
            && (Call(Consume, m, a, false, m.ingressSync) in s'.log[|s.log|..] <==> Passes(m, m.ingressSync, a))
            && (r.Deferred? <==> MustWait(m, m.ingressSync, a) && Fits(s, m))
            && s'.pending == (if r.Deferred? then s.pending + [Pending(m, m.encoded.value)] else s.pending)
            && s'.queued == (if r.Deferred? then s.queued + [m] else s.queued)
            && s'.gone == s.gone
            && (MustWait(m, m.ingressSync, a) && !Fits(s, m) ==>
                  r.Rejected? && s'.lastError == if m.encoded.None? then NotRetainable else LimitReached)
            && (s'.fatal <==> s.fatal || (MustWait(m, m.ingressSync, a) && m.encoded.Some? && !Fits(s, m)))
            && (!MustWait(m, m.ingressSync, a) ==>
                  var j := Judge(m, false, m.ingressSync, a);
                  r == j.result && s'.lastError == if j.error.Some? then j.error.value else s.lastError)
  {
    hide Judge, MustWait, Passes, Recorded;
    var j := Judge(m, false, m.ingressSync, a);
    Verdict(m, false, m.ingressSync, a);
    AskedExactly(m, false, m.ingressSync, a);
    Uncounted(m, m.ingressSync, a);
    assert (s.log + j.calls)[|s.log|..] == j.calls;
  }

  lemma Uncounted(m: Message, flag: bool, a: Answers)
    ensures var j := Judge(m, false, flag, a); !j.counted ==> j.result.Deferred?
  {}

  /** The events without a message of their own: each result, its error, and nothing else but the counters. */
  lemma OtherEvents(s: State, e: Event)
    requires !e.Text?
    ensures var (s', r) := Route(s, e);
            && s' == s.(counts := s'.counts, lastError := s'.lastError)
            && (e.PeerJoined? || e.PeerLeft? ==> r.Applied?)
            && (e.Udp? && e.reply.Value? ==> r == e.reply.value)
            && (e.NonObject? || e.Untyped? || (e.Udp? && e.reply.Throws?) ==> r.Rejected? && s'.lastError != NoError)
            && (e.NonObject? ==> s'.lastError == NotAnObject)
            && (e.Untyped? ==> s'.lastError == NoType)
            && (e.Udp? && e.reply.Throws? ==> s'.lastError == MalformedUdp)
            && (e.Other? ==> r.IgnoredByPolicy? && s' == s)
            && (!r.Rejected? ==> s'.lastError == s.lastError)
  {}

  // ---- a message of the queue ----

  /** Those of the queue that must still wait, in order; and the others. */
  function StillWaiting(ps: seq<Pending>, flag: bool, answers: nat -> Answers): seq<Pending> {
    if ps == [] then []
    else
      var n := |ps| - 1;
      StillWaiting(ps[..n], flag, answers) + if MustWait(ps[n].message, flag, answers(n)) then [ps[n]] else []
  }

  function Finally(ps: seq<Pending>, flag: bool, answers: nat -> Answers): seq<Message> {
    if ps == [] then []
    else
      var n := |ps| - 1;
      Finally(ps[..n], flag, answers) + if MustWait(ps[n].message, flag, answers(n)) then [] else [ps[n].message]
  }

  /** The flush puts to the consumer exactly the messages of the queue that pass under its setting, and leaves exactly
      those that must still wait, in their order; the others are gone. */
  lemma FlushedExactly(s: State, flag: bool, answers: nat -> Answers)
    requires WithinLimits(s)
    ensures var s' := Flush(s, flag, answers);
            && s.log <= s'.log
            && (forall c: Call :: c.question.Consume? ==>
                  (c in s'.log[|s.log|..] <==> IsConsumed(s.pending, flag, answers, c)))
            && s'.pending == StillWaiting(s.pending, flag, answers)
            && s'.gone == s.gone + Finally(s.pending, flag, answers)
            && s'.queued == s.queued && s'.fatal == s.fatal
  {
    hide Judge, MustWait, Passes, Flush, Total, Kept, Settled, Calls, IsConsumed, Finally, StillWaiting;
    FlushFilters(s, flag, answers);
    WaitingExactly(s.pending, flag, answers);
    var s' := Flush(s, flag, answers);
    var calls := Calls(s.pending, flag, answers);
    assert s'.log[|s.log|..] == calls;
    forall c: Call | c.question.Consume? ensures c in calls <==> IsConsumed(s.pending, flag, answers, c) {
      ConsumedExactly(s.pending, flag, answers, c);
    }
  }

  /** The call puts a message of the queue that passes to the consumer. */
  ghost predicate IsConsumed(ps: seq<Pending>, flag: bool, answers: nat -> Answers, c: Call) {
    exists n :: 0 <= n < |ps| && Consumes(ps[n], flag, answers(n), c)
  }

  predicate Consumes(p: Pending, flag: bool, a: Answers, c: Call) {
    c == Call(Consume, p.message, a, true, flag) && Passes(p.message, flag, a)
  }

  lemma {:induction false} WaitingExactly(ps: seq<Pending>, flag: bool, answers: nat -> Answers)
    ensures Kept(ps, flag, answers) == StillWaiting(ps, flag, answers)
    ensures Settled(ps, flag, answers) == Finally(ps, flag, answers)
  {
    hide Judge, MustWait;
    if ps != [] {
      var n := |ps| - 1;
      WaitingExactly(ps[..n], flag, answers);
      Verdict(ps[n].message, true, flag, answers(n));
    }
  }

  lemma {:induction false} ConsumedExactly(ps: seq<Pending>, flag: bool, answers: nat -> Answers, c: Call)
    requires c.question.Consume?
    ensures c in Calls(ps, flag, answers) <==> IsConsumed(ps, flag, answers, c)
    decreases |ps|
  {
    hide Judge, Calls, Consumes;
    if ps == [] {
      NothingTried(flag, answers);
    } else {
      var n := |ps| - 1;
      LastTried(ps, flag, answers);
      ConsumedExactly(ps[..n], flag, answers, c);
      LastConsumed(ps[n], flag, answers(n), c);
      if IsConsumed(ps[..n], flag, answers, c) {
        var k :| 0 <= k < n && Consumes(ps[..n][k], flag, answers(k), c);
        assert ps[..n][k] == ps[k];
      }
      if IsConsumed(ps, flag, answers, c) && !Consumes(ps[n], flag, answers(n), c) {
        var k :| 0 <= k < |ps| && Consumes(ps[k], flag, answers(k), c);
        assert ps[..n][k] == ps[k];
      }
    }
  }

  lemma LastConsumed(p: Pending, flag: bool, a: Answers, c: Call)
    requires c.question.Consume?
    ensures c in Judge(p.message, true, flag, a).calls <==> Consumes(p, flag, a, c)
  {
    hide Judge, Passes;
    AskedExactly(p.message, true, flag, a);
  }

  lemma TurnReports(s: State, flag: bool, a: Answers)
    requires s.pending != [] && !s.pending[0].message.spec.domain.Unknown?
    ensures Turn(s, flag, a).lastError ==
            if Malformed(s.pending[0].message, flag, a) then MalformedMessage else s.lastError
  {
    hide Judge, Malformed, Recorded;
    Verdict(s.pending[0].message, true, flag, a);
  }

  predicate SomeMalformed(ps: seq<Pending>, flag: bool, answers: nat -> Answers) {
    ps != [] &&
    var n := |ps| - 1;
    SomeMalformed(ps[..n], flag, answers) || Malformed(ps[n].message, flag, answers(n))
  }

  lemma {:induction false} TurnsReport(s: State, flag: bool, answers: nat -> Answers, n: nat)
    requires n <= |s.pending| && s.pendingBytes == Total(s.pending) <= MAX_PENDING_BYTES && AllWaiting(s.pending)
    ensures Turns(s, flag, answers, n).lastError ==
            if SomeMalformed(s.pending[..n], flag, answers) then MalformedMessage else s.lastError
    decreases n
  {
    hide Judge, Malformed, Turn, Total, Kept;
    if n != 0 {
      TurnsReport(s, flag, answers, n - 1);
      TurnsRotate(s, flag, answers, n - 1);
      assert Waiting(s.pending[n - 1]);
      TurnReports(Turns(s, flag, answers, n - 1), flag, answers(n - 1));
      assert s.pending[..n][..n - 1] == s.pending[..n - 1] && s.pending[..n][n - 1] == s.pending[n - 1];
    }
  }

  /** In every run: after a flush the last error is that of a malformed message if there was one, else what it was. */
  lemma FlushReports(steps: seq<Step>, flag: bool, answers: nat -> Answers)
    ensures var s := Run(steps);
            Flush(s, flag, answers).lastError ==
            if SomeMalformed(s.pending, flag, answers) then MalformedMessage else s.lastError
  {
    hide Run, Turns, Malformed;
    RunInv(steps);
    var s := Run(steps);
    TurnsReport(s, flag, answers, |s.pending|);
    assert s.pending[..|s.pending|] == s.pending;
  }

  /** Clearing starts afresh, but for the counters and the history. */
  lemma StartsAfresh(s: State)
    ensures Clear(s) ==
            IDLE.(counts := s.counts, log := s.log, queued := s.queued, gone := s.gone + Messages(s.pending))
  {}
}
