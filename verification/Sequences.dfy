/** Facts about concatenation that proofs name where the solver would otherwise search. */
module Sequences {

  lemma Reassociate<T>(a: seq<T>, b: seq<T>, c: seq<T>)
    ensures (a + b) + c == a + (b + c)
  {}

  lemma MoveOver<T>(done: seq<T>, next: seq<T>, rest: seq<T>, all: seq<T>)
    requires done + (next + rest) == all
    ensures (done + next) + rest == all
  {
    Reassociate(done, next, rest);
  }

  lemma CancelPrefix<T>(p: seq<T>, a: seq<T>, b: seq<T>)
    requires p + a == p + b
    ensures a == b
  {
    assert a == (p + a)[|p|..] && b == (p + b)[|p|..];
  }

  lemma Cancel<T>(p: seq<T>, a: seq<T>, restA: seq<T>, b: seq<T>, restB: seq<T>)
    requires |a| == |b| && p + a + restA == p + b + restB
    ensures a == b && restA == restB
  {
    var x, y := p + a + restA, p + b + restB;
    assert a == x[|p|..|p| + |a|] && b == y[|p|..|p| + |b|];
    assert restA == x[|p| + |a|..] && restB == y[|p| + |b|..];
  }

  /** The elements of `all` are those of `a` and of `b`, with their multiplicities. */
  ghost predicate Splits<T>(all: seq<T>, a: seq<T>, b: seq<T>) { multiset(all) == multiset(a) + multiset(b) }

  /** A split goes on when the same element is added to the whole and to one of the parts. */
  lemma SplitGrows<T>(all: seq<T>, a: seq<T>, b: seq<T>, x: T)
    requires Splits(all, a, b)
    ensures Splits(all + [x], a + [x], b) && Splits(all + [x], a, b + [x])
  {
    assert multiset(all + [x]) == multiset(all) + multiset{x};
    assert multiset(a + [x]) == multiset(a) + multiset{x};
    assert multiset(b + [x]) == multiset(b) + multiset{x};
  }

  lemma SameBagTails<T>(a: seq<T>, b: seq<T>)
    requires a != [] && b != [] && a[0] == b[0] && multiset(a) == multiset(b)
    ensures multiset(a[1..]) == multiset(b[1..])
  {
    assert a == [a[0]] + a[1..] && b == [b[0]] + b[1..];
    assert multiset(a) == multiset{a[0]} + multiset(a[1..]);
    assert multiset(b) == multiset{b[0]} + multiset(b[1..]);
    assert multiset(a[1..]) == multiset(a) - multiset{a[0]};
    assert multiset(b[1..]) == multiset(b) - multiset{b[0]};
  }

  lemma SameBagLength<T>(a: seq<T>, b: seq<T>)
    requires multiset(a) == multiset(b)
    ensures |a| == |b|
  {
    assert |multiset(a)| == |a| && |multiset(b)| == |b|;
  }

  lemma DropThenTake<T>(s: seq<T>, n: nat, i: nat)
    requires n <= i <= |s|
    ensures s[..i][n..] == s[n..][..i - n] && s[n..][i - n..] == s[i..]
  {
    var a, b := s[..i][n..], s[n..][..i - n];
    forall k | 0 <= k < |a| ensures a[k] == b[k] {
      assert a[k] == s[n + k];
    }
  }
}
