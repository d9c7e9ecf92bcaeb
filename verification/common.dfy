/** Types shared by the models of the individual components. */
module Common {

  type Byte = b: int | 0 <= b < 256

  datatype Option<+T> = None | Some(value: T)

  /** Whether `a` can be got from `b` by leaving elements out. */
  ghost predicate Subsequence<T>(a: seq<T>, b: seq<T>)
  {
    || a == []
    || (b != [] && a[|a| - 1] == b[|b| - 1] && Subsequence(a[..|a| - 1], b[..|b| - 1]))
    || (b != [] && Subsequence(a, b[..|b| - 1]))
  }

  lemma {:induction false} SubsequenceExtends<T>(a: seq<T>, b: seq<T>, c: seq<T>)
    requires Subsequence(a, b)
    ensures Subsequence(a, b + c)
    decreases |c|
  {
    if c == [] {
      assert b + c == b;
    } else {
      SubsequenceExtends(a, b, c[..|c| - 1]);
      assert (b + c)[..|b + c| - 1] == b + c[..|c| - 1];
    }
  }

  lemma {:induction false} SubsequencePush<T>(a: seq<T>, b: seq<T>, x: T)
    requires Subsequence(a, b)
    ensures Subsequence(a + [x], b + [x])
  {
    assert (a + [x])[..|a|] == a && (b + [x])[..|b|] == b;
  }

  lemma {:induction false} SubsequenceTransitive<T>(a: seq<T>, b: seq<T>, c: seq<T>)
    requires Subsequence(a, b) && Subsequence(b, c)
    ensures Subsequence(a, c)
    decreases |b| + |c|
  {
    if a != [] {
      var a', b', c' := a[..|a| - 1], b[..|b| - 1], c[..|c| - 1];
      if Subsequence(b, c') {
        SubsequenceTransitive(a, b, c');
      } else if Subsequence(a, b') {
        SubsequenceTransitive(a, b', c');
      } else {
        SubsequenceTransitive(a', b', c');
      }
    }
  }

  /** The smallest number of a set: where an ordered container begins. */
  function Smallest(s: set<nat>): (m: nat)
    requires s != {}
    ensures m in s
  {
    SmallestExists(s);
    var m :| m in s && IsLeast(m, s);
    m
  }

  predicate IsLeast(m: nat, s: set<nat>) { forall x :: x in s ==> m <= x }

  lemma {:induction false} SmallestExists(s: set<nat>)
    requires s != {}
    ensures exists m :: m in s && IsLeast(m, s)
    decreases |s|
  {
    var y :| y in s;
    var rest := s - {y};
    if rest == {} {
      assert forall x :: x in s ==> x == y || x in rest;
      assert IsLeast(y, s);
    } else {
      SmallestExists(rest);
      var m :| m in rest && IsLeast(m, rest);
      var least := if y < m then y else m;
      assert forall x :: x in s ==> x == y || x in rest;
      assert IsLeast(least, s);
    }
  }
}
