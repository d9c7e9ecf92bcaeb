/** Fairness of the rotation within one update. */
module SchedulerFairness {
  import opened SchedulerModel

  lemma PassIndexed(st: State)
    requires Indexed(st) && SomePayable(st)
    ensures Indexed(Pass(st)) && Pass(st).ids == st.ids
  {}

  /** The state after `m` passes of an update, or at its end if that comes first. */
  function After(st: State, m: nat): (r: State)
    requires Indexed(st)
    ensures Indexed(r) && r.ids == st.ids
    decreases m
  {
    if m == 0 || !SomePayable(st) then st
    else
      PassIndexed(st);
      After(Pass(st), m - 1)
  }

  lemma AfterNone(st: State, m: nat)
    requires Indexed(st) && (m == 0 || !SomePayable(st))
    ensures After(st, m) == st
  {}

  lemma AfterNext(st: State, m: nat)
    requires Indexed(st) && SomePayable(st)
    ensures Indexed(Pass(st)) && Pass(st).ids == st.ids
    ensures After(st, m + 1) == After(Pass(st), m)
  {
    PassIndexed(st);
  }

  lemma {:induction false} AfterAfter(st: State, a: nat, b: nat)
    requires Indexed(st)
    ensures After(After(st, a), b) == After(st, a + b)
    decreases a
  {
    hide Pass, Indexed, SomePayable;
    if a != 0 && SomePayable(st) {
      PassIndexed(st);
      AfterAfter(Pass(st), a - 1, b);
    } else if !SomePayable(st) {
      assert After(st, a) == st;
    }
  }

  /** The pass from `st` serves `id`. */
  predicate Served(st: State, id: nat)
    requires Indexed(st)
  {
    SomePayable(st) && st.ids[Turn(st)] == id
  }

  /** `id` can pay from neither class. */
  predicate StuckAt(st: State, id: nat) {
    id in st.peers && Stuck(st, id)
  }

  /** `id` can pay from neither class from the `c`-th pass until the update ends. */
  ghost predicate StuckFrom(st: State, c: nat, id: nat)
    requires Indexed(st)
  {
    forall d :: d >= c ==> StuckAt(After(st, d), id)
  }

  /** The carrier sees exactly the passes: the m-th call is the one from the m-th state. */
  lemma {:induction false} PassesAreCalls(st: State, m: nat)
    requires Indexed(st)
    ensures SomePayable(After(st, m)) <==> m < |Drain(st).events|
    ensures m < |Drain(st).events| ==> Drain(st).events[m] == PassEvent(After(st, m))
    ensures m >= |Drain(st).events| ==> After(st, m) == Drain(st).state
    decreases m
  {
    hide Pass, Indexed, SomePayable, PassEvent;
    if SomePayable(st) {
      PassIndexed(st);
      assert Drain(st).events == [PassEvent(st)] + Drain(Pass(st)).events;
      if m != 0 { PassesAreCalls(Pass(st), m - 1); }
    }
  }

  lemma ServedPays(st: State, id: nat)
    requires Indexed(st) && Served(st, id)
    ensures SomePayable(st) && st.ids[Turn(st)] == id
  {}

  lemma TurnServes(st: State)
    requires Indexed(st) && SomePayable(st)
    ensures Served(st, st.ids[Turn(st)])
  {}

  lemma SamePlace(st: State, i: nat, j: nat)
    requires Indexed(st) && i < |st.ids| && j < |st.ids| && st.ids[i] == st.ids[j]
    ensures i == j
  {
    Located(st.ids, i);
    Located(st.ids, j);
  }

  /** Steps from the start of the rotation to position `i`. */
  function Distance(st: State, i: nat): (d: nat)
    requires i < |st.ids|
    ensures d < |st.ids| && Around(Start(st), d, |st.ids|) == i
  {
    var s := Start(st);
    if i >= s then i - s else i + |st.ids| - s
  }

  function Successor(i: nat, n: nat): (j: nat)
    requires i < n
    ensures j < n
  {
    Around(i, if n == 1 then 0 else 1, n)
  }

  /** The rotation starts right behind the served peer. */
  lemma StartsBehind(st: State)
    requires Indexed(st) && SomePayable(st)
    ensures Pass(st).ids == st.ids && Start(Pass(st)) == Successor(Turn(st), |st.ids|)
  {
    var next := Successor(Turn(st), |st.ids|);
    assert Pass(st).nextPeer == st.ids[next];
    Located(st.ids, next);
  }

  /** Everybody before the served peer is stuck; whoever comes after it moves up. */
  lemma PassAdvances(st: State, i: nat)
    requires Indexed(st) && SomePayable(st) && i < |st.ids|
    ensures Indexed(Pass(st)) && Pass(st).ids == st.ids
    ensures Distance(st, i) < Distance(st, Turn(st)) ==> StuckAt(st, st.ids[i])
    ensures Distance(st, i) > Distance(st, Turn(st)) ==>
              Distance(Pass(st), i) == Distance(st, i) - Distance(st, Turn(st)) - 1
    ensures Distance(st, i) == Distance(st, Turn(st)) ==> i == Turn(st)
    ensures i == Turn(st) ==> Distance(Pass(st), i) == |st.ids| - 1
  {
    hide Pass, Stuck, Skipped;
    PassIndexed(st);
    StartsBehind(st);
    SkippedStuck(st, Start(st), 0);
    assert Distance(st, Turn(st)) == Skipped(st, Start(st), 0);
  }

  /** Within an update a peer that cannot pay stays so. */
  lemma StuckStays(st: State, id: nat)
    requires Indexed(st) && SomePayable(st) && StuckAt(st, id)
    ensures StuckAt(Pass(st), id)
  {
    assert st.ids[Turn(st)] != id;
    assert Pass(st).peers[id] == st.peers[id] && Pass(st).tokens <= st.tokens;
  }

  lemma {:induction false} StuckToTheEnd(st: State, id: nat, d: nat)
    requires Indexed(st) && StuckAt(st, id)
    ensures StuckAt(After(st, d), id)
    decreases d
  {
    hide Pass, Indexed, SomePayable, StuckAt;
    if d != 0 && SomePayable(st) {
      PassIndexed(st);
      StuckStays(st, id);
      StuckToTheEnd(Pass(st), id, d - 1);
    }
  }

  /** If the rotation reaches `q` before `p`, then by the time `p` is served `q` has been served or found stuck. */
  lemma {:induction false} ReachedFirst(st: State, m: nat, p: nat, q: nat) returns (c: nat)
    requires Indexed(st) && p < |st.ids| && q < |st.ids|
    requires Distance(st, q) < Distance(st, p)
    requires SomePayable(After(st, m)) && Turn(After(st, m)) == p
    ensures c <= m
    ensures (c < m && Served(After(st, c), st.ids[q])) || StuckAt(After(st, c), st.ids[q])
    decreases m
  {
    hide Pass, Indexed, SomePayable, StuckAt, Served, Turn, Distance, After;
    if !SomePayable(st) { AfterNone(st, m); }
    PassAdvances(st, q);
    PassAdvances(st, p);
    AfterNone(st, 0);
    if m != 0 { AfterNext(st, m - 1); }
    if Distance(st, q) < Distance(st, Turn(st)) {
      c := 0;
    } else if Distance(st, q) == Distance(st, Turn(st)) {
      c := 0;
      assert Served(st, st.ids[q]) by { TurnServes(st); }
    } else {
      c := ReachedFirst(Pass(st), m - 1, p, q);
      AfterNext(st, c);
      c := c + 1;
    }
  }

  /** If `p` is served twice, any other peer `q` is served in between, or from when it was
      passed over it can pay from neither class until the update ends. */
  lemma RotationIsFair(st: State, a: nat, b: nat, p: nat, q: nat)
    requires Indexed(st) && q in st.ids && p != q && a < b
    requires Served(After(st, a), p) && Served(After(st, b), p)
    ensures || (exists c :: a < c < b && Served(After(st, c), q))
            || (exists c :: a < c <= b && StuckFrom(st, c, q))
  {
    hide Served, StuckAt, Indexed, Pass, After, SomePayable;
    var iq :| 0 <= iq < |st.ids| && st.ids[iq] == q;
    var c := ServedAgain(st, a, b, p, iq);
    if !(c < b && Served(After(st, c), q)) {
      forall d | d >= c ensures StuckAt(After(st, d), q) {
        AfterAfter(st, c, d - c);
        StuckToTheEnd(After(st, c), q, d - c);
      }
      assert StuckFrom(st, c, q);
    }
  }

  lemma ServedAgain(st: State, a: nat, b: nat, p: nat, iq: nat) returns (c: nat)
    requires Indexed(st) && iq < |st.ids| && p != st.ids[iq] && a < b
    requires Served(After(st, a), p) && Served(After(st, b), p)
    ensures a < c <= b
    ensures (c < b && Served(After(st, c), st.ids[iq])) || StuckAt(After(st, c), st.ids[iq])
  {
    hide Turn, Pass, SomePayable, After, Indexed, Start, Distance, Served, StuckAt;
    var before := After(st, a);
    ServedPays(before, p);
    ServedPays(After(st, b), p);
    var ip := Turn(before);
    SamePlace(st, ip, Turn(After(st, b)));
    AfterAfter(st, a, 1);
    AfterNext(before, 0);
    PassAdvances(before, ip);
    var after := After(st, a + 1);
    AfterNone(Pass(before), 0);
    assert Distance(after, iq) != Distance(after, ip);
    assert iq != ip;
    AfterAfter(st, a + 1, b - a - 1);
    var c0 := ReachedFirst(after, b - a - 1, ip, iq);
    c := a + 1 + c0;
    AfterAfter(st, a + 1, c0);
  }

  lemma NextClassKept(st: State, id: nat)
    requires Indexed(st) && SomePayable(st) && id in st.peers
    ensures id in Pass(st).peers
    ensures Pass(st).peers[id].nextClass ==
            if Served(st, id) then PickClass(st, id).Other() else st.peers[id].nextClass
  {}

  lemma {:induction false} NextClassStays(st: State, m: nat, id: nat)
    requires Indexed(st) && id in st.peers
    requires forall c :: 0 <= c < m ==> !Served(After(st, c), id)
    ensures id in After(st, m).peers && After(st, m).peers[id].nextClass == st.peers[id].nextClass
    decreases m
  {
    hide Pass, Indexed, SomePayable;
    if m != 0 && SomePayable(st) {
      assert !Served(After(st, 0), id);
      PassIndexed(st);
      NextClassKept(st, id);
      forall c | 0 <= c < m - 1 ensures !Served(After(Pass(st), c), id) {
        assert After(Pass(st), c) == After(st, c + 1);
      }
      NextClassStays(Pass(st), m - 1, id);
    }
  }

  /** Between two services of a peer the turn passes to the other class, which is served if its head can be paid. */
  lemma ClassesAlternate(st: State, a: nat, b: nat, id: nat)
    requires Indexed(st) && a < b && id in After(st, a).peers && id in After(st, b).peers
    requires Served(After(st, a), id) && Served(After(st, b), id)
    requires forall c :: a < c < b ==> !Served(After(st, c), id)
    ensures var other := PickClass(After(st, a), id).Other();
            Payable(After(st, b), id, other) ==> PickClass(After(st, b), id) == other
  {
    hide Pass, Indexed, SomePayable, Served, PickClass;
    AfterAfter(st, a, 1);
    assert SomePayable(After(st, a)) by { ServedPays(After(st, a), id); }
    NextClassKept(After(st, a), id);
    var after := After(st, a + 1);
    forall c | 0 <= c < b - a - 1 ensures !Served(After(after, c), id) {
      AfterAfter(st, a + 1, c);
    }
    NextClassStays(after, b - a - 1, id);
    AfterAfter(st, a + 1, b - a - 1);
    if Payable(After(st, b), id, After(st, b).peers[id].nextClass) { PickedFirst(After(st, b), id); }
  }

  lemma PickedFirst(st: State, id: nat)
    requires id in st.peers && Payable(st, id, st.peers[id].nextClass)
    ensures PickClass(st, id) == st.peers[id].nextClass
  {}
}
