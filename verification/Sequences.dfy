/** Facts about any sequences. */
module Sequences {
  lemma Regroup<T>(a: seq<T>, b: seq<T>, c: seq<T>)
    ensures a + (b + c) == a + b + c
  {
  }

  lemma OneMore<T>(s: seq<T>, a: nat, b: nat)
    requires a <= b < |s|
    ensures s[a..b + 1] == s[a..b] + [s[b]]
  {
  }

  /** Exactly the positions between the two indices have changed, to the given contents. */
  ghost predicate Filled<T>(before: seq<T>, after: seq<T>, from: nat, to: nat, contents: seq<T>) {
    && |before| == |after| == |contents| && from <= to <= |after|
    && forall i :: 0 <= i < |after| ==> after[i] == if from <= i < to then contents[i] else before[i]
  }

  lemma NoneFilled<T>(s: seq<T>, at: nat, contents: seq<T>)
    requires at <= |s| == |contents|
    ensures Filled(s, s, at, at, contents)
  {
  }

  lemma OneFilled<T>(s: seq<T>, at: nat, contents: seq<T>)
    requires at < |s| == |contents|
    ensures Filled(s, s[at := contents[at]], at, at + 1, contents)
  {
  }

  lemma FilledJoin<T>(s0: seq<T>, s1: seq<T>, s2: seq<T>, a: nat, b: nat, c: nat, contents: seq<T>)
    requires Filled(s0, s1, a, b, contents) && Filled(s1, s2, b, c, contents)
    ensures Filled(s0, s2, a, c, contents)
  {
  }

  lemma AllFilled<T>(before: seq<T>, after: seq<T>, to: nat, contents: seq<T>)
    requires Filled(before, after, 0, to, contents) && to == |contents|
    ensures after == contents
  {
  }
}
