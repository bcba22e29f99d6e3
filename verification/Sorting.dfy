/** What `sort.Slice` and `sort.Strings` promise, and one procedure that delivers it. Results about
    sorted output are stated for every output the promise allows. */
module Sorting {
  import Sequences

  ghost predicate TotalPreorder<T(!new)>(le: (T, T) -> bool) {
    (forall x, y :: le(x, y) || le(y, x)) && (forall x, y, z :: le(x, y) && le(y, z) ==> le(x, z))
  }

  ghost predicate Ordered<T>(le: (T, T) -> bool, s: seq<T>) {
    forall i, j | 0 <= i < j < |s| :: le(s[i], s[j])
  }

  /** `output` is the elements of `input` in an order `le` accepts; ties may come in any order. */
  ghost predicate IsSortOf<T>(le: (T, T) -> bool, input: seq<T>, output: seq<T>) {
    multiset(output) == multiset(input) && Ordered(le, output)
  }

  method Insert<T(!new)>(le: (T, T) -> bool, s: seq<T>, x: T) returns (r: seq<T>)
    requires TotalPreorder(le) && Ordered(le, s)
    ensures IsSortOf(le, s + [x], r)
  {
    var i := 0;
    while i < |s| && le(s[i], x)
      invariant 0 <= i <= |s|
      invariant forall j | 0 <= j < i :: le(s[j], x)
    {
      i := i + 1;
    }
    r := s[..i] + [x] + s[i..];
    assert s == s[..i] + s[i..];
    InsertedInOrder(le, s, i, x);
  }

  lemma InsertedInOrder<T(!new)>(le: (T, T) -> bool, s: seq<T>, i: nat, x: T)
    requires TotalPreorder(le) && Ordered(le, s) && i <= |s|
    requires forall j | 0 <= j < i :: le(s[j], x)
    requires i < |s| ==> !le(s[i], x)
    ensures Ordered(le, s[..i] + [x] + s[i..])
  {
    var r := s[..i] + [x] + s[i..];
    forall j | i <= j < |s| ensures le(x, s[j]) {
      assert le(x, s[i]);
      if j > i { assert le(s[i], s[j]); }
    }
    forall a, b | 0 <= a < b < |r| ensures le(r[a], r[b]) {
      assert r[a] == if a < i then s[a] else if a == i then x else s[a - 1];
      assert r[b] == if b < i then s[b] else if b == i then x else s[b - 1];
    }
  }

  method Sort<T(!new)>(le: (T, T) -> bool, s: seq<T>) returns (r: seq<T>)
    requires TotalPreorder(le)
    ensures IsSortOf(le, s, r)
  {
    r := [];
    for i := 0 to |s|
      invariant IsSortOf(le, s[..i], r)
    {
      assert s[..i + 1] == s[..i] + [s[i]];
      r := Insert(le, r, s[i]);
    }
    assert s[..|s|] == s;
  }

  /** With no ties the sorted order is unique. */
  lemma {:induction false} SortUnique<T(!new)>(le: (T, T) -> bool, a: seq<T>, b: seq<T>)
    requires multiset(a) == multiset(b) && Ordered(le, a) && Ordered(le, b)
    requires forall x, y | le(x, y) && le(y, x) :: x == y
    ensures a == b
    decreases |a|
  {
    Sequences.SameBagLength(a, b);
    if a != [] {
      SameHead(le, a, b);
      Sequences.SameBagTails(a, b);
      SortUnique(le, a[1..], b[1..]);
      assert a == [a[0]] + a[1..] && b == [b[0]] + b[1..];
    }
  }

  lemma SameHead<T(!new)>(le: (T, T) -> bool, a: seq<T>, b: seq<T>)
    requires multiset(a) == multiset(b) && Ordered(le, a) && Ordered(le, b) && a != [] && b != []
    requires forall x, y | le(x, y) && le(y, x) :: x == y
    ensures a[0] == b[0]
  {
    assert a[0] in multiset(a) && b[0] in multiset(b);
    assert a[0] in b && b[0] in a;
    var i :| 0 <= i < |b| && b[i] == a[0];
    var j :| 0 <= j < |a| && a[j] == b[0];
    if i != 0 && j != 0 {
      assert le(b[0], b[i]) && le(a[0], a[j]);
    }
  }
}
