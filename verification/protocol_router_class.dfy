/** The router object. */
module ProtocolRouting {
  import opened RouterModel

  class ProtocolRouter {
    var pending: seq<Pending>
    var pendingBytes: nat
    var counts: Counts
    var lastError: Error
    var fatalError: bool
    ghost var log: seq<Call>
    ghost var queued: seq<Message>
    ghost var gone: seq<Message>

    ghost function View(): State
      reads this
    {
      State(pending, pendingBytes, counts, lastError, fatalError, log, queued, gone)
    }

    /** The queue is within its limits and its size in bytes is the recorded one. */
    ghost predicate Valid()
      reads this
    {
      pendingBytes == Total(pending) <= MAX_PENDING_BYTES && |pending| <= MAX_PENDING_MESSAGES
    }

    constructor ()
      ensures Valid() && View() == IDLE
    {
      pending, pendingBytes, counts := [], 0, Counts(0, 0, 0, 0, 0);
      lastError, fatalError := NoError, false;
      log, queued, gone := [], [], [];
    }

    method Count(r: Result)
      modifies this`counts
      ensures counts == Recorded(old(counts), r)
    {
      match r
      case Applied => counts := counts.(applied := counts.applied + 1);
      case Deferred => counts := counts.(deferred := counts.deferred + 1);
      case Retained => counts := counts.(deferred := counts.deferred + 1);
      case IgnoredByPolicy => counts := counts.(ignored := counts.ignored + 1);
      case Unsupported => counts := counts.(unsupported := counts.unsupported + 1);
      case Rejected => counts := counts.(rejected := counts.rejected + 1);
    }

    method Route(e: Event) returns (r: Result)
      requires Valid()
      modifies this
      ensures Valid() && (View(), r) == RouterModel.Route(old(View()), e)
    {
      match e
      case PeerJoined =>
        r := Applied;
        Count(r);
      case PeerLeft =>
        r := Applied;
        Count(r);
      case Udp(reply) =>
        match reply {
          case Value(result) => r := result;
          case Throws =>
            lastError := MalformedUdp;
            r := Rejected;
        }
        Count(r);
      case NonObject =>
        lastError := NotAnObject;
        r := Rejected;
        Count(r);
      case Untyped =>
        lastError := NoType;
        r := Rejected;
        Count(r);
      case Text(m, a) => r := RouteMessage(m, m.ingressSync, true, a);
      case Other => r := IgnoredByPolicy;
    }

    /** Notes a call in the log, which is what it was before this attempt and then the attempt's calls. */
    ghost method Ask(call: Call, was: seq<Call>, before: seq<Call>) returns (after: seq<Call>)
      requires log == was + before
      modifies this`log
      ensures after == before + [call] && log == was + after
    {
      after := before + [call];
      log := log + [call];
    }

    method Refuse(error: Error) returns (r: Result)
      modifies this`lastError, this`counts
      ensures r == Rejected && lastError == error && counts == Recorded(old(counts), Rejected)
    {
      lastError := error;
      r := Rejected;
      Count(r);
    }

    method RouteMessage(m: Message, flag: bool, allowQueue: bool, a: Answers) returns (r: Result)
      requires Valid()
      modifies this
      ensures Valid() && (View(), r) == Attempted(old(View()), m, flag, allowQueue, a)
    {
      hide Recorded, Total, RouterModel.Enqueue;
      ghost var was, calls: seq<Call> := log, [];
      assert log == was + calls;
      if m.spec.domain.Unknown? {
        lastError := UnsupportedType;
        Count(Unsupported);
        return Unsupported;
      }
      if m.spec.syncControlled && !flag {
        Count(IgnoredByPolicy);
        return IgnoredByPolicy;
      }
      if m.spec.domain.Progression? {
        calls := Ask(Call(Retain, m, a, !allowQueue, flag), was, calls);
        assert calls == [Call(Retain, m, a, !allowQueue, flag)];
        if a.retain.Throws? {
          r := Refuse(MalformedMessage);
          return;
        }
        if a.retain.value {
          Count(Retained);
          return Retained;
        }
      }
      r := RouteStage(m, flag, allowQueue, a, was, calls);
    }

    /** The stage gate. */
    method RouteStage(m: Message, flag: bool, allowQueue: bool, a: Answers, ghost was: seq<Call>,
                      ghost before: seq<Call>)
      returns (r: Result)
      requires Valid() && log == was + before
      modifies this
      ensures var j := JudgeStage(m, !allowQueue, flag, a, before);
              Valid() && (View(), r) == Finished(old(View()).(log := was + j.calls), m, allowQueue, j)
    {
      hide Recorded, Total, RouterModel.Enqueue;
      ghost var calls := before;
      if m.spec.stageDependent {
        calls := Ask(Call(Discard, m, a, !allowQueue, flag), was, calls);
        if a.discard.Throws? {
          r := Refuse(MalformedMessage);
          return;
        }
        if a.discard.value {
          Count(IgnoredByPolicy);
          return IgnoredByPolicy;
        }
        if !a.ready {
          calls := Ask(Call(Allow, m, a, !allowQueue, flag), was, calls);
          if a.allow.Throws? {
            r := Refuse(MalformedMessage);
            return;
          }
          if !a.allow.value {
            if !allowQueue { return Deferred; }
            r := Enqueue(m);
            return;
          }
        }
      }
      r := Deliver(m, flag, allowQueue, a, was, calls);
    }

    /** The consumer itself. */
    method Deliver(m: Message, flag: bool, allowQueue: bool, a: Answers, ghost was: seq<Call>, ghost before: seq<Call>)
      returns (r: Result)
      requires Valid() && log == was + before
      modifies this
      ensures var j := JudgeConsume(m, !allowQueue, flag, a, before);
              Valid() && (View(), r) == Finished(old(View()).(log := was + j.calls), m, allowQueue, j)
    {
      hide Recorded, Total, RouterModel.Enqueue;
      ghost var calls := before;
      calls := Ask(Call(Consume, m, a, !allowQueue, flag), was, calls);
      if a.consume.Throws? {
        r := Refuse(MalformedMessage);
        return;
      }
      if a.consume.value.Deferred? && allowQueue {
        r := Enqueue(m);
        return;
      }
      r := a.consume.value;
      Count(r);
    }

    /** No size wraps round: the difference and the sum stay within the limit. */
    method Enqueue(m: Message) returns (r: Result)
      requires Valid()
      modifies this
      ensures Valid() && (View(), r) == RouterModel.Enqueue(old(View()), m)
    {
      hide Recorded, Total;
      if m.encoded.None? {
        r := Refuse(NotRetainable);
        return;
      }
      var bytes := m.encoded.value;
      if |pending| >= MAX_PENDING_MESSAGES || bytes > MAX_PENDING_BYTES || pendingBytes > MAX_PENDING_BYTES - bytes {
        fatalError := true;
        r := Refuse(LimitReached);
        return;
      }
      TotalPush(pending, Pending(m, bytes));
      pendingBytes := pendingBytes + bytes;
      pending := pending + [Pending(m, bytes)];
      queued := queued + [m];
      Count(Deferred);
      r := Deferred;
    }

    method FlushOne(flag: bool, a: Answers)
      requires Valid() && pending != []
      modifies this
      ensures Valid() && View() == Turn(old(View()), flag, a)
      ensures |pending| >= |old(pending)| - 1
    {
      hide Attempted, Total, Recorded;
      ghost var was := View();
      var p := pending[0];
      TotalOfFront(pending);
      pending := pending[1..];
      pendingBytes := pendingBytes - p.bytes;
      assert View() == was.(pending := was.pending[1..], pendingBytes := Wrapped(was.pendingBytes - p.bytes));
      RetryLeavesQueue(View(), p.message, flag, a);
      var r := RouteMessage(p.message, flag, false, a);
      if r.Deferred? {
        TotalPush(pending, p);
        pendingBytes := pendingBytes + p.bytes;
        pending := pending + [p];
      } else {
        gone := gone + [p.message];
      }
    }

    method Flush(flag: bool, answers: nat -> Answers)
      requires Valid()
      modifies this
      ensures Valid() && View() == RouterModel.Flush(old(View()), flag, answers)
    {
      hide Turn, Total, Turns;
      if pending == [] {
        TurnsUnfold(View(), flag, answers, 0);
        return;
      }
      var attempts := |pending|;
      ghost var was := View();
      TurnsUnfold(was, flag, answers, 0);
      var index: nat := 0;
      while index < attempts && pending != []
        invariant index <= attempts && Valid()
        invariant View() == Turns(was, flag, answers, index)
        invariant |pending| >= attempts - index
      {
        TurnsUnfold(was, flag, answers, index);
        FlushOne(flag, answers(index));
        index := index + 1;
      }
    }

    method Clear()
      modifies this
      ensures Valid() && View() == RouterModel.Clear(old(View()))
    {
      gone := gone + Messages(pending);
      pending, pendingBytes, lastError, fatalError := [], 0, NoError, false;
    }
  }
}
