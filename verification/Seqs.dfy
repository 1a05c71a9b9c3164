/** Facts about sequences that the proofs by induction use at each step. */
module Seqs {

  ghost predicate Distinct<T(!new)>(s: seq<T>) { forall i, j :: 0 <= i < j < |s| ==> s[i] != s[j] }

  lemma ConsTail<T>(x: T, s: seq<T>)
    ensures ([x] + s)[0] == x && ([x] + s)[1..] == s
  {
  }

  lemma AppendTail<T>(a: seq<T>, b: seq<T>)
    requires a != []
    ensures (a + b)[0] == a[0] && (a + b)[1..] == a[1..] + b
  {
  }

  lemma AppendNothing<T>(a: seq<T>)
    ensures a + [] == a && [] + a == a
  {
  }

  lemma Associative<T>(a: seq<T>, b: seq<T>, c: seq<T>)
    ensures (a + b) + c == a + (b + c)
  {
  }

  // The first element of b moves from b to a.
  lemma Shift<T>(a: seq<T>, b: seq<T>, n: nat)
    requires n < |b|
    ensures a + b[..n + 1] == (a + [b[0]]) + b[1..][..n] && b[1..][n..] == b[n + 1..]
  {
  }

  lemma Uncons<T>(s: seq<T>)
    requires s != []
    ensures s == [s[0]] + s[1..]
  {
  }

  lemma MultisetCons<T>(x: T, s: seq<T>)
    ensures multiset([x] + s) == multiset{x} + multiset(s)
    ensures forall y :: y in [x] + s <==> y == x || y in s
  {
  }

  lemma MultisetAppend<T>(a: seq<T>, b: seq<T>)
    ensures multiset(a + b) == multiset(a) + multiset(b)
  {
  }
}
