/** Facts about any sequence, kept apart so that they are proved without unfolding anything else. */
module Sequences {

  lemma TailOfPlus<T>(a: seq<T>, b: seq<T>)
    requires a != []
    ensures (a + b)[0] == a[0] && (a + b)[1..] == a[1..] + b
  {}

  lemma PlusIsAssociative<T>(a: seq<T>, b: seq<T>, c: seq<T>)
    ensures a + (b + c) == (a + b) + c
  {}

  lemma PlusEmpty<T>(a: seq<T>)
    ensures a + [] == a && [] + a == a
  {}

  lemma HeadPlusTail<T>(a: seq<T>)
    requires a != []
    ensures [a[0]] + a[1..] == a
  {}

  lemma ConsTail<T>(x: T, a: seq<T>)
    ensures ([x] + a)[0] == x && ([x] + a)[1..] == a
  {}

  lemma SlicePlus<T>(a: seq<T>, b: seq<T>, i: nat)
    requires i < |a|
    ensures (a + b)[..i] == a[..i] && (a + b)[i] == a[i] && (a + b)[i + 1..] == a[i + 1..] + b
  {}

  lemma NoMembers<T>(a: seq<T>)
    ensures (forall x :: x !in a) ==> a == []
  {
    if a != [] {
      assert a[0] in a;
    }
  }

  lemma Slices<T>(a: seq<T>, i: nat)
    requires i <= |a|
    ensures forall x :: x in a[..i] ==> x in a
    ensures forall x :: x in a[i..] ==> x in a
  {}
}
