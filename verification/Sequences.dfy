/** Slices and concatenations of sequences */
module Sequences {

  lemma SliceOfSlice<T>(s: seq<T>, from: nat, to: nat, i: nat, j: nat)
    requires from <= to <= |s| && i <= j <= to - from
    ensures s[from..to][i..j] == s[from + i..from + j]
  {
    var slice := s[from..to];
    assert forall k :: i <= k < j ==> slice[k] == s[from + k];
  }

  lemma Associative<T>(a: seq<T>, b: seq<T>, c: seq<T>)
    ensures a + b + c == a + (b + c)
  {
  }

  lemma ThreeParts<T>(a: seq<T>, b: seq<T>, c: seq<T>)
    ensures var s := a + b + c;
            && s[..|a|] == a
            && s[|a|..|a| + |b|] == b
            && s[|a| + |b|..] == c
  {
  }

  lemma TailIsPart<T>(s: seq<T>)
    requires s != []
    ensures s[0] in s && forall x :: x in s[1..] ==> x in s
    ensures s == [s[0]] + s[1..]
  {
  }
}
