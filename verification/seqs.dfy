/** Sequence helpers standing in for Java lists: the set of a list's elements
    and the absence of duplicates. */
module Seqs {

  function Elems<T(==,!new)>(s: seq<T>): (r: set<T>)
    ensures forall x :: x in r <==> x in s
  {
    set x | x in s
  }

  predicate NoDup<T(==)>(s: seq<T>) {
    forall i, j :: 0 <= i < j < |s| ==> s[i] != s[j]
  }

  /** A list without duplicates has as many elements as its set. */
  lemma {:induction false} NoDupCard<T(!new)>(s: seq<T>)
    requires NoDup(s)
    ensures |Elems(s)| == |s|
  {
    if s != [] {
      NoDupCard(s[1..]);
      assert Elems(s) == Elems(s[1..]) + {s[0]};
      assert s[0] !in Elems(s[1..]);
    }
  }

  lemma NoDupConcat<T(!new)>(a: seq<T>, b: seq<T>)
    requires NoDup(a) && NoDup(b) && Elems(a) !! Elems(b)
    ensures NoDup(a + b)
  {
    forall i, j | 0 <= i < j < |a + b|
      ensures (a + b)[i] != (a + b)[j]
    {
      if i < |a| && j >= |a| {
        assert (a + b)[i] in Elems(a) && (a + b)[j] in Elems(b);
      }
    }
  }
}
