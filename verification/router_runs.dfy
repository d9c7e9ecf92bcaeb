/** Runs of the router: the limits, the gates, and what happens to queued messages. */
module RouterRuns {
  import opened Common
  import opened RouterModel

  datatype Step = Routing(event: Event) | Flushing(flag: bool, answers: nat -> Answers) | Clearing

  function Do(s: State, step: Step): State {
    match step
    case Routing(e) => Route(s, e).0
    case Flushing(flag, answers) => Flush(s, flag, answers)
    case Clearing => Clear(s)
  }

  function Run(steps: seq<Step>): State {
    if steps == [] then IDLE else Do(Run(steps[..|steps| - 1]), steps[|steps| - 1])
  }

  /** The size on record is the size of the queue, and both limits hold. */
  ghost predicate WithinLimits(s: State) {
    s.pendingBytes == Total(s.pending) <= MAX_PENDING_BYTES && |s.pending| <= MAX_PENDING_MESSAGES
  }

  ghost predicate Waiting(p: Pending) {
    && !p.message.spec.domain.Unknown?
    && (p.message.spec.syncControlled ==> p.message.ingressSync)
    && p.message.encoded == Some(p.bytes)
  }

  /** What every call to the consumer went through. */
  ghost predicate Gated(c: Call) {
    && !c.message.spec.domain.Unknown?
    && (c.message.spec.syncControlled ==> c.message.ingressSync && c.flag)
    && (c.question.Consume? ==>
          && (c.message.spec.domain.Progression? ==> c.answers.retain == Value(false))
          && (c.message.spec.stageDependent ==>
                c.answers.discard == Value(false) && (c.answers.ready || c.answers.allow == Value(true))))
  }

  ghost predicate AllGated(log: seq<Call>) { forall i :: 0 <= i < |log| ==> Gated(log[i]) }

  ghost predicate AllWaiting(ps: seq<Pending>) { forall i :: 0 <= i < |ps| ==> Waiting(ps[i]) }

  /** Each message that was queued is either still waiting or has left, once. */
  ghost predicate Conserved(s: State) {
    multiset(s.queued) == multiset(s.gone) + multiset(Messages(s.pending))
  }

  ghost predicate Inv(s: State) {
    && WithinLimits(s)
    && AllWaiting(s.pending)
    && AllGated(s.log)
    && Conserved(s)
    && Subsequence(Messages(s.pending), s.queued)
  }

  lemma AllGatedPlus(a: seq<Call>, b: seq<Call>)
    requires AllGated(a) && AllGated(b)
    ensures AllGated(a + b)
  {}

  lemma AllGatedPush(a: seq<Call>, c: Call)
    requires AllGated(a) && Gated(c)
    ensures AllGated(a + [c])
  {}

  lemma ConsumeGates(m: Message, queued: bool, flag: bool, a: Answers, before: seq<Call>)
    requires AllGated(before) && Gated(Call(Consume, m, a, queued, flag))
    ensures AllGated(JudgeConsume(m, queued, flag, a, before).calls)
  {
    hide AllGated, Gated;
    AllGatedPush(before, Call(Consume, m, a, queued, flag));
  }

  lemma StageGates(m: Message, queued: bool, flag: bool, a: Answers, before: seq<Call>)
    requires AllGated(before) && Gated(Call(Allow, m, a, queued, flag))
    requires m.spec.domain.Progression? ==> a.retain == Value(false)
    ensures AllGated(JudgeStage(m, queued, flag, a, before).calls)
  {
    hide AllGated, JudgeConsume;
    var calls := before;
    if m.spec.stageDependent {
      AllGatedPush(before, Call(Discard, m, a, queued, flag));
      calls := before + [Call(Discard, m, a, queued, flag)];
      AllGatedPush(calls, Call(Allow, m, a, queued, flag));
      if !a.ready { calls := calls + [Call(Allow, m, a, queued, flag)]; }
    }
    if Gated(Call(Consume, m, a, queued, flag)) { ConsumeGates(m, queued, flag, a, calls); }
  }

  lemma JudgeGates(m: Message, queued: bool, flag: bool, a: Answers)
    requires m.spec.syncControlled && flag ==> m.ingressSync
    ensures AllGated(Judge(m, queued, flag, a).calls)
    ensures Judge(m, queued, flag, a).result.Deferred? ==>
              !m.spec.domain.Unknown? && (m.spec.syncControlled ==> m.ingressSync)
  {
    hide JudgeStage;
    if Gated(Call(Allow, m, a, queued, flag)) {
      if m.spec.domain.Progression? {
        assert AllGated([Call(Retain, m, a, queued, flag)]);
        if a.retain == Value(false) { StageGates(m, queued, flag, a, [Call(Retain, m, a, queued, flag)]); }
      } else {
        StageGates(m, queued, flag, a, []);
      }
    }
  }

  lemma WaitingPush(ps: seq<Pending>, p: Pending)
    requires AllWaiting(ps) && Waiting(p)
    ensures AllWaiting(ps + [p])
  {}

  lemma MessagesPush(ps: seq<Pending>, p: Pending)
    ensures Messages(ps + [p]) == Messages(ps) + [p.message]
  {}

  lemma MessagesLast(ps: seq<Pending>)
    requires ps != []
    ensures Messages(ps) == Messages(ps[..|ps| - 1]) + [ps[|ps| - 1].message]
  {}

  lemma ConservedPush(s: State, s': State, p: Pending)
    requires Conserved(s)
    requires s'.pending == s.pending + [p] && s'.queued == s.queued + [p.message] && s'.gone == s.gone
    ensures Conserved(s')
  {
    hide Messages;
    MessagesPush(s.pending, p);
  }

  lemma ConservedSame(s: State, s': State)
    requires Conserved(s) && s'.pending == s.pending && s'.queued == s.queued && s'.gone == s.gone
    ensures Conserved(s')
  {}

  lemma EnqueueKeeps(s: State, m: Message)
    requires Inv(s) && !m.spec.domain.Unknown? && (m.spec.syncControlled ==> m.ingressSync)
    ensures Inv(Enqueue(s, m).0)
  {
    hide Messages, Total, Recorded, Subsequence, AllGated, AllWaiting, Conserved;
    var s' := Enqueue(s, m).0;
    if s'.pending != s.pending {
      var p := Pending(m, m.encoded.value);
      TotalPush(s.pending, p);
      MessagesPush(s.pending, p);
      WaitingPush(s.pending, p);
      ConservedPush(s, s', p);
      SubsequencePush(Messages(s.pending), s.queued, m);
    } else {
      ConservedSame(s, s');
    }
  }

  lemma RouteKeeps(s: State, e: Event)
    requires Inv(s)
    ensures Inv(Route(s, e).0)
  {
    hide Messages, Total, Recorded, Judge, Enqueue, AllGated, AllWaiting;
    if e.Text? {
      var j := Judge(e.message, false, e.message.ingressSync, e.answers);
      JudgeGates(e.message, false, e.message.ingressSync, e.answers);
      AllGatedPlus(s.log, j.calls);
      var s' := s.(log := s.log + j.calls);
      if j.result.Deferred? { EnqueueKeeps(s', e.message); }
    }
  }

  lemma {:induction false} KeptConserves(ps: seq<Pending>, flag: bool, answers: nat -> Answers)
    ensures multiset(Messages(ps)) ==
            multiset(Settled(ps, flag, answers)) + multiset(Messages(Kept(ps, flag, answers)))
  {
    hide Messages, Waits;
    if ps == [] {
      NoMessages();
    } else {
      var n := |ps| - 1;
      KeptConserves(ps[..n], flag, answers);
      MessagesLast(ps);
      var kept := Kept(ps[..n], flag, answers);
      MessagesPush(kept, ps[n]);
      assert kept + [] == kept;
    }
  }

  lemma {:induction false} KeptInOrder(ps: seq<Pending>, flag: bool, answers: nat -> Answers)
    ensures Subsequence(Messages(Kept(ps, flag, answers)), Messages(ps))
    ensures |Kept(ps, flag, answers)| <= |ps|
  {
    hide Messages, Waits, Subsequence;
    if ps == [] {
      NoMessages();
      NothingInNothing();
    } else {
      var n := |ps| - 1;
      var front := ps[..n];
      KeptInOrder(front, flag, answers);
      MessagesLast(ps);
      var kept := Kept(front, flag, answers);
      if Waits(ps[n], flag, answers(n)) {
        MessagesPush(kept, ps[n]);
        SubsequencePush(Messages(kept), Messages(front), ps[n].message);
      } else {
        assert kept + [] == kept;
        SubsequenceExtends(Messages(kept), Messages(front), [ps[n].message]);
      }
    }
  }

  lemma NothingInNothing()
    ensures Subsequence<Message>([], [])
  {}

  lemma {:induction false} KeptWaits(ps: seq<Pending>, flag: bool, answers: nat -> Answers)
    requires AllWaiting(ps)
    ensures AllWaiting(Kept(ps, flag, answers)) && AllGated(Calls(ps, flag, answers))
  {
    hide Judge, Waiting, Gated, Waits;
    if ps != [] {
      var n := |ps| - 1;
      KeptWaits(ps[..n], flag, answers);
      LastGated(ps, flag, answers(n));
    }
  }

  lemma NoMessages()
    ensures Messages([]) == []
  {}

  lemma LastGated(ps: seq<Pending>, flag: bool, a: Answers)
    requires ps != [] && AllWaiting(ps)
    ensures AllGated(Judge(ps[|ps| - 1].message, true, flag, a).calls)
  {
    assert Waiting(ps[|ps| - 1]);
    JudgeGates(ps[|ps| - 1].message, true, flag, a);
  }

  lemma FlushKeeps(s: State, flag: bool, answers: nat -> Answers)
    requires Inv(s)
    ensures Inv(Flush(s, flag, answers))
  {
    hide Messages, Total, Flush, AllGated, AllWaiting, Subsequence;
    FlushFilters(s, flag, answers);
    KeptWaits(s.pending, flag, answers);
    KeptConserves(s.pending, flag, answers);
    KeptInOrder(s.pending, flag, answers);
    AllGatedPlus(s.log, Calls(s.pending, flag, answers));
    SubsequenceTransitive(Messages(Kept(s.pending, flag, answers)), Messages(s.pending), s.queued);
  }

  lemma ClearKeeps(s: State)
    requires Inv(s)
    ensures Inv(Clear(s))
  {
    NoMessages();
  }

  lemma {:induction false} RunInv(steps: seq<Step>)
    ensures Inv(Run(steps))
  {
    hide Inv, Do;
    if steps == [] {
      IdleInv();
    } else {
      var front, last := steps[..|steps| - 1], steps[|steps| - 1];
      RunInv(front);
      StepKeeps(Run(front), last);
    }
  }

  lemma IdleInv()
    ensures Inv(IDLE)
  {
    NoMessages();
  }

  lemma StepKeeps(s: State, step: Step)
    requires Inv(s)
    ensures Inv(Do(s, step))
  {
    hide Inv, Route, Flush, Clear;
    match step
    case Routing(e) => RouteKeeps(s, e);
    case Flushing(flag, answers) => FlushKeeps(s, flag, answers);
    case Clearing => ClearKeeps(s);
  }

  /** In every run the recorded size is the sum of the queued sizes, and neither limit is passed. */
  lemma QueueIsBounded(steps: seq<Step>)
    ensures var s := Run(steps);
            s.pendingBytes == Total(s.pending) <= MAX_PENDING_BYTES && |s.pending| <= MAX_PENDING_MESSAGES
  {
    hide Run;
    RunInv(steps);
  }

  /** In every run, whatever reaches the consumer passed the sync gate where it came in and again when it was
      tried; and what is applied was neither retained nor discarded, with the stage ready or the exception granted. */
  lemma GatesHold(steps: seq<Step>, c: Call)
    requires c in Run(steps).log
    ensures Gated(c)
  {
    hide Run, Gated;
    RunInv(steps);
    var i :| 0 <= i < |Run(steps).log| && Run(steps).log[i] == c;
  }

  /** In every run the messages that were queued are those that left and those that wait, each as often; and those
      that wait are in the order they came in. */
  lemma NothingIsLost(steps: seq<Step>)
    ensures var s := Run(steps);
            && multiset(s.queued) == multiset(s.gone) + multiset(Messages(s.pending))
            && Subsequence(Messages(s.pending), s.queued)
  {
    hide Run;
    RunInv(steps);
  }

  // ---- the counters ----

  /** The counters say how often each result was recorded; retained messages count as deferred. */
  ghost predicate Tallies(c: Counts, results: seq<Result>) {
    var m := multiset(results);
    && c.applied == m[Applied] && c.deferred == m[Deferred] + m[Retained] && c.ignored == m[IgnoredByPolicy]
    && c.unsupported == m[Unsupported] && c.rejected == m[Rejected]
  }

  /** What the flush records: the result of each attempt, but nothing for a message that waits for its stage. */
  function FlushResults(ps: seq<Pending>, flag: bool, answers: nat -> Answers): seq<Result> {
    if ps == [] then []
    else
      var n := |ps| - 1;
      var j := Judge(ps[n].message, true, flag, answers(n));
      FlushResults(ps[..n], flag, answers) + if j.counted then [j.result] else []
  }

  /** One result for every event but those of no concern, and those of the flushes. */
  function Results(steps: seq<Step>): seq<Result> {
    if steps == [] then []
    else
      var front := steps[..|steps| - 1];
      Results(front) +
      match steps[|steps| - 1]
      case Routing(e) => if e.Other? then [] else [Route(Run(front), e).1]
      case Flushing(flag, answers) => FlushResults(Run(front).pending, flag, answers)
      case Clearing => []
  }

  lemma RecordTallies(c: Counts, results: seq<Result>, r: Result)
    requires Tallies(c, results)
    ensures Tallies(Recorded(c, r), results + [r])
  {}

  lemma RouteTallies(s: State, e: Event, results: seq<Result>)
    requires Tallies(s.counts, results)
    ensures Tallies(Route(s, e).0.counts, results + if e.Other? then [] else [Route(s, e).1])
  {
    hide Judge, Tallies, Recorded;
    if e.Other? {
      assert results + [] == results;
    } else {
      RecordTallies(s.counts, results, Route(s, e).1);
    }
  }

  lemma TurnTallies(s: State, flag: bool, a: Answers, results: seq<Result>)
    requires Tallies(s.counts, results) && s.pending != []
    ensures var j := Judge(s.pending[0].message, true, flag, a);
            Tallies(Turn(s, flag, a).counts, results + if j.counted then [j.result] else [])
  {
    hide Judge, Tallies, Recorded;
    RecordTallies(s.counts, results, Judge(s.pending[0].message, true, flag, a).result);
    assert results + [] == results;
  }

  lemma {:induction false} TurnsTally(s: State, flag: bool, answers: nat -> Answers, n: nat, results: seq<Result>)
    requires Tallies(s.counts, results) && n <= |s.pending|
    requires s.pendingBytes == Total(s.pending) <= MAX_PENDING_BYTES
    ensures Tallies(Turns(s, flag, answers, n).counts, results + FlushResults(s.pending[..n], flag, answers))
    decreases n
  {
    hide Judge, Tallies, Turn, Total, Kept;
    var front := s.pending[..n];
    if n == 0 {
      assert results + [] == results;
    } else {
      TurnsTally(s, flag, answers, n - 1, results);
      TurnsRotate(s, flag, answers, n - 1);
      var t := Turns(s, flag, answers, n - 1);
      assert front[..n - 1] == s.pending[..n - 1] && t.pending[0] == front[n - 1];
      var before := FlushResults(front[..n - 1], flag, answers);
      TurnTallies(t, flag, answers(n - 1), results + before);
      var j := Judge(front[n - 1].message, true, flag, answers(n - 1));
      var last := if j.counted then [j.result] else [];
      assert (results + before) + last == results + (before + last);
    }
  }

  /** In every run each counter is the number of its results: nothing is counted twice, under another head, or left
      out. */
  lemma {:induction false} CountersTally(steps: seq<Step>)
    ensures Tallies(Run(steps).counts, Results(steps))
  {
    hide Tallies, Route, Turns, FlushResults;
    if steps == [] {
      NothingTallies();
    } else {
      var front := steps[..|steps| - 1];
      var s := Run(front);
      CountersTally(front);
      match steps[|steps| - 1]
      case Routing(e) => RouteTallies(s, e, Results(front));
      case Flushing(flag, answers) =>
        QueueIsBounded(front);
        TurnsTally(s, flag, answers, |s.pending|, Results(front));
        assert s.pending[..|s.pending|] == s.pending;
      case Clearing => assert Results(front) + [] == Results(front);
    }
  }

  lemma NothingTallies()
    ensures Tallies(IDLE.counts, [])
  {}
}
