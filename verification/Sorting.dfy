/** golang.org/x/exp/slices.SortFunc, as the repository uses it: always with a
    comparison of integer ranks, and with no promise about ties. */
module Sorting {
  import opened Common

  ghost predicate SortedBy<T(!new)>(s: seq<T>, rank: T -> int) {
    forall i, j :: 0 <= i < j < |s| ==> rank(s[i]) <= rank(s[j])
  }

  /** Ties can only be between equal elements. */
  ghost predicate RankSeparates<T(!new)>(s: seq<T>, rank: T -> int) {
    forall i, j :: 0 <= i < |s| && 0 <= j < |s| && rank(s[i]) == rank(s[j]) ==> s[i] == s[j]
  }

  /** The place for `x` after the first `i` elements of a sorted sequence. */
  function InsertAt<T>(s: seq<T>, i: nat, x: T): (r: seq<T>)
    requires i <= |s|
    ensures multiset(r) == multiset(s) + multiset{x}
  {
    assert s == s[..i] + s[i..];
    s[..i] + [x] + s[i..]
  }

  lemma InsertAtSorted<T(!new)>(s: seq<T>, i: nat, x: T, rank: T -> int)
    requires SortedBy(s, rank) && i <= |s|
    requires i > 0 ==> rank(s[i - 1]) <= rank(x)
    requires i < |s| ==> rank(x) <= rank(s[i])
    ensures SortedBy(InsertAt(s, i, x), rank)
  {
    assert forall j :: 0 <= j < i ==> rank(s[j]) <= rank(s[i - 1]);
    assert forall j :: i <= j < |s| ==> rank(s[i]) <= rank(s[j]);
  }

  method SortFunc<T(!new)>(s: seq<T>, rank: T -> int) returns (r: seq<T>)
    ensures SortedBy(r, rank)
    ensures multiset(r) == multiset(s)
  {
    r := [];
    for n := 0 to |s|
      invariant SortedBy(r, rank)
      invariant multiset(r) == multiset(s[..n])
    {
      var i := |r|;
      while i > 0 && rank(s[n]) < rank(r[i - 1])
        invariant 0 <= i <= |r|
        invariant i < |r| ==> rank(s[n]) < rank(r[i])
      {
        i := i - 1;
      }
      assert s[..n + 1] == s[..n] + [s[n]];
      InsertAtSorted(r, i, s[n], rank);
      r := InsertAt(r, i, s[n]);
    }
    assert s[..|s|] == s;
  }

  lemma MaxIsLast<T(!new)>(a: seq<T>, b: seq<T>, rank: T -> int)
    requires SortedBy(b, rank) && multiset(a) == multiset(b) && a != []
    ensures |b| == |a| && rank(a[|a| - 1]) <= rank(b[|a| - 1])
  {
    assert |a| == |multiset(a)| == |b|;
    var x := a[|a| - 1];
    assert x in multiset(a);
    assert x in b;
    var j :| 0 <= j < |b| && b[j] == x;
  }

  /** A sorted arrangement of a multiset is unique once ties are only between
      equal elements, whatever order the elements were handed over in. */
  lemma {:induction false} SortedArrangementUnique<T(!new)>(a: seq<T>, b: seq<T>, rank: T -> int)
    requires SortedBy(a, rank) && SortedBy(b, rank)
    requires multiset(a) == multiset(b)
    requires RankSeparates(a, rank)
    ensures a == b
  {
    if a == [] {
      assert |b| == |multiset(b)| == |multiset(a)| == 0;
    } else {
      var n := |a| - 1;
      MaxIsLast(a, b, rank);
      MaxIsLast(b, a, rank);
      var j := LastFound(a, b);
      assert rank(a[n]) == rank(a[j]);
      DropLast(a, b);
      SortedArrangementUnique(a[..n], b[..n], rank);
    }
  }

  lemma DropLast<T>(a: seq<T>, b: seq<T>)
    requires multiset(a) == multiset(b) && |a| == |b| > 0 && a[|a| - 1] == b[|b| - 1]
    ensures multiset(a[..|a| - 1]) == multiset(b[..|b| - 1])
  {
    var n := |a| - 1;
    assert a == a[..n] + [a[n]] && b == b[..n] + [b[n]];
    assert multiset(a) == multiset(a[..n]) + multiset{a[n]};
    assert multiset(b) == multiset(b[..n]) + multiset{b[n]};
    assert multiset(a[..n]) == multiset(a) - multiset{a[n]};
    assert multiset(b[..n]) == multiset(b) - multiset{b[n]};
  }

  lemma LastFound<T>(a: seq<T>, b: seq<T>) returns (j: nat)
    requires multiset(a) == multiset(b) && |a| == |b| > 0
    ensures j < |a| && a[j] == b[|b| - 1]
  {
    assert b[|b| - 1] in multiset(b);
    assert b[|b| - 1] in a;
    j :| j < |a| && a[j] == b[|b| - 1];
  }

  /** Insertion sort, the witness that a sorted arrangement exists. */
  function Arrange<T(!new)>(s: seq<T>, rank: T -> int): (r: seq<T>)
    ensures SortedBy(r, rank)
    ensures multiset(r) == multiset(s)
  {
    if s == [] then []
    else
      assert s == s[..|s| - 1] + [s[|s| - 1]];
      var r, x := Arrange(s[..|s| - 1], rank), s[|s| - 1];
      var i := PlaceFor(r, x, rank, |r|);
      InsertAtSorted(r, i, x, rank);
      InsertAt(r, i, x)
  }

  function PlaceFor<T(!new)>(s: seq<T>, x: T, rank: T -> int, n: nat): (i: nat)
    requires n <= |s| && (n < |s| ==> rank(x) <= rank(s[n]))
    ensures i <= n
    ensures i > 0 ==> rank(s[i - 1]) <= rank(x)
    ensures i < |s| ==> rank(x) <= rank(s[i])
  {
    if n == 0 || rank(s[n - 1]) <= rank(x) then n else PlaceFor(s, x, rank, n - 1)
  }

  // ----- permutations -----

  function Image<A, B>(f: A -> B, s: seq<A>): (r: seq<B>)
    ensures |r| == |s|
  {
    seq(|s|, i requires 0 <= i < |s| => f(s[i]))
  }

  lemma ImageAt<A, B>(f: A -> B, s: seq<A>, i: nat)
    requires i < |s|
    ensures Image(f, s)[i] == f(s[i])
  {
  }

  function Without<A>(s: seq<A>, i: nat): (r: seq<A>)
    requires i < |s|
    ensures multiset(r) == multiset(s) - multiset{s[i]}
  {
    assert s == s[..i] + [s[i]] + s[i + 1..];
    s[..i] + s[i + 1..]
  }

  /** Mapping a permutation gives a permutation. */
  lemma {:induction false} ImageOfPermutation<A, B>(f: A -> B, a: seq<A>, b: seq<A>)
    requires multiset(a) == multiset(b)
    ensures multiset(Image(f, a)) == multiset(Image(f, b))
    decreases |a|
  {
    assert |a| == |multiset(a)| == |b|;
    if a != [] {
      var n := |a| - 1;
      assert a[n] in multiset(b);
      var j :| 0 <= j < |b| && b[j] == a[n];
      ImageOfPermutation(f, Without(a, n), Without(b, j));
      assert Image(f, Without(a, n)) == Without(Image(f, a), n);
      assert Image(f, Without(b, j)) == Without(Image(f, b), j);
      PutBack(Image(f, a), n, Image(f, b), j);
    }
  }

  lemma PutBack<B>(s: seq<B>, i: nat, t: seq<B>, j: nat)
    requires i < |s| && j < |t| && s[i] == t[j] && multiset(Without(s, i)) == multiset(Without(t, j))
    ensures multiset(s) == multiset(t)
  {
    assert s[i] in multiset(s) && t[j] in multiset(t);
    assert multiset(s) == multiset(Without(s, i)) + multiset{s[i]};
    assert multiset(t) == multiset(Without(t, j)) + multiset{t[j]};
  }

  /** Two listings of one set, without repetition, are permutations of each other. */
  lemma ListingsOfOneSet<A(!new)>(a: seq<A>, b: seq<A>)
    requires NoDuplicates(a) && NoDuplicates(b)
    requires forall x :: x in a <==> x in b
    ensures multiset(a) == multiset(b)
  {
    forall x
      ensures multiset(a)[x] == multiset(b)[x]
    {
      OccursOnce(a, x);
      OccursOnce(b, x);
    }
  }

  lemma {:induction false} OccursOnce<A>(a: seq<A>, x: A)
    requires NoDuplicates(a)
    ensures multiset(a)[x] == if x in a then 1 else 0
  {
    if a != [] {
      var n := |a| - 1;
      assert a == a[..n] + [a[n]];
      OccursOnce(a[..n], x);
    }
  }

  lemma OccursTwice<A>(s: seq<A>, i: nat, j: nat)
    requires i < j < |s| && s[i] == s[j]
    ensures multiset(s)[s[i]] >= 2
  {
    assert s == s[..j] + [s[j]] + s[j + 1..];
    assert s[i] in s[..j];
    assert multiset(s) == multiset(s[..j]) + multiset{s[j]} + multiset(s[j + 1..]);
  }

  /** Arranging a listing without repetition gives one without repetition. */
  lemma ArrangedOnce<A(!new)>(a: seq<A>, b: seq<A>)
    requires NoDuplicates(a) && multiset(b) == multiset(a)
    ensures NoDuplicates(b)
  {
    forall i, j | 0 <= i < j < |b|
      ensures b[i] != b[j]
    {
      OccursOnce(a, b[i]);
      if b[i] == b[j] {
        OccursTwice(b, i, j);
      }
    }
  }
}
