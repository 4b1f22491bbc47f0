/** Sequences of sequences, folds and rising sequences. */
module Sequences {

  function Flatten<T>(ss: seq<seq<T>>): seq<T> {
    if ss == [] then [] else Flatten(ss[..|ss| - 1]) + ss[|ss| - 1]
  }

  lemma FlattenPush<T>(ss: seq<seq<T>>, s: seq<T>)
    ensures Flatten(ss + [s]) == Flatten(ss) + s
  {
    assert (ss + [s])[..|ss|] == ss;
  }

  lemma {:induction false} FlattenPop<T>(ss: seq<seq<T>>)
    requires ss != []
    ensures Flatten(ss) == ss[0] + Flatten(ss[1..])
  {
    if |ss| == 1 {
      assert ss[..0] == [];
    } else {
      var n := |ss| - 1;
      FlattenPop(ss[..n]);
      assert ss[..n][1..] == ss[1..][..n - 1];
      assert Flatten(ss) == ss[0] + (Flatten(ss[..n][1..]) + ss[n]);
    }
  }

  function Fold<S, T>(f: (S, T) -> S, s: S, ts: seq<T>): S {
    if ts == [] then s else f(Fold(f, s, ts[..|ts| - 1]), ts[|ts| - 1])
  }

  lemma {:induction false} FoldSplit<S, T>(f: (S, T) -> S, s: S, a: seq<T>, b: seq<T>)
    ensures Fold(f, s, a + b) == Fold(f, Fold(f, s, a), b)
    decreases |b|
  {
    if b == [] {
      assert a + b == a;
    } else {
      var n := |b| - 1;
      FoldSplit(f, s, a, b[..n]);
      assert (a + b)[..|a + b| - 1] == a + b[..n];
    }
  }

  ghost predicate Distinct<K(!new)>(keys: seq<K>) {
    forall i, j :: 0 <= i < j < |keys| ==> keys[i] != keys[j]
  }

  ghost predicate StrictlyIncreasing(s: seq<nat>) {
    forall i, j :: 0 <= i < j < |s| ==> s[i] < s[j]
  }

  /** `s` rises strictly and stays at or below `top`. */
  ghost predicate RisesTo(s: seq<nat>, top: nat) {
    StrictlyIncreasing(s) && forall k :: 0 <= k < |s| ==> s[k] <= top
  }

  lemma RisePush(s: seq<nat>, top: nat, v: nat)
    requires RisesTo(s, top) && top < v
    ensures RisesTo(s + [v], v)
  {
  }

  lemma RisePop(s: seq<nat>, top: nat)
    requires RisesTo(s, top) && s != []
    ensures RisesTo(s[1..], top)
  {
  }
}
