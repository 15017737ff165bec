/** Sums of a natural-valued measure over a sequence. */
module Sums {

  function SumBy<T>(f: T -> nat, s: seq<T>): nat {
    if s == [] then 0 else SumBy(f, s[..|s| - 1]) + f(s[|s| - 1])
  }

  lemma SumAppend<T>(f: T -> nat, s: seq<T>, x: T)
    ensures SumBy(f, s + [x]) == SumBy(f, s) + f(x)
  {
    assert (s + [x])[..|s|] == s;
  }

  lemma {:induction false} SumUpdate<T>(f: T -> nat, s: seq<T>, i: nat, x: T)
    requires i < |s|
    ensures SumBy(f, s[i := x]) + f(s[i]) == SumBy(f, s) + f(x)
    decreases |s|
  {
    var rest := s[..|s| - 1];
    if i == |s| - 1 {
      assert s[i := x][..|s| - 1] == rest;
    } else {
      assert s[i := x][..|s| - 1] == rest[i := x];
      SumUpdate(f, rest, i, x);
    }
  }

  lemma {:induction false} SumHolds<T>(f: T -> nat, s: seq<T>, i: nat)
    requires i < |s|
    ensures f(s[i]) <= SumBy(f, s)
    decreases |s|
  {
    if i < |s| - 1 {
      SumHolds(f, s[..|s| - 1], i);
    }
  }

  lemma {:induction false} SumSame<T>(f: T -> nat, s: seq<T>, t: seq<T>)
    requires |s| == |t| && forall i :: 0 <= i < |s| ==> f(s[i]) == f(t[i])
    ensures SumBy(f, s) == SumBy(f, t)
    decreases |s|
  {
    if s != [] {
      SumSame(f, s[..|s| - 1], t[..|t| - 1]);
    }
  }
}
