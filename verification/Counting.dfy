/** Counting, and taking an entry out of a list by moving the last one into its place. */
module Counting {

  function One(b: bool): nat {
    if b then 1 else 0
  }

  /** Taking out entry i: the last entry takes its place. */
  function SwapOut<T>(s: seq<T>, i: nat): seq<T>
    requires i < |s|
  {
    s[i := s[|s| - 1]][..|s| - 1]
  }

  lemma MovedInto<T>(a: seq<T>, x: T, b: seq<T>, y: T)
    ensures multiset(a + [y] + b) + multiset{x} == multiset(a + [x] + b + [y])
  {
    assert multiset(a + [y] + b) == multiset(a) + multiset{y} + multiset(b);
    assert multiset(a + [x] + b + [y]) == multiset(a) + multiset{x} + multiset(b) + multiset{y};
  }

  /** Only entry i is gone. */
  lemma SwapOutCounts<T>(s: seq<T>, i: nat)
    requires i < |s|
    ensures multiset(SwapOut(s, i)) + multiset{s[i]} == multiset(s)
  {
    var n := |s| - 1;
    if i == n {
      assert s == s[..n] + [s[n]];
      assert SwapOut(s, i) == s[..n];
    } else {
      var a, b := s[..i], s[i + 1..n];
      assert s == a + [s[i]] + b + [s[n]];
      assert SwapOut(s, i) == a + [s[n]] + b;
      MovedInto(a, s[i], b, s[n]);
    }
  }

  // ---------- sums over a list ----------

  function Total<T>(weigh: T -> nat, s: seq<T>): nat {
    if s == [] then 0 else Total(weigh, s[..|s| - 1]) + weigh(s[|s| - 1])
  }

  lemma {:induction false} TotalUpdated<T>(weigh: T -> nat, s: seq<T>, i: nat, x: T)
    requires i < |s|
    ensures Total(weigh, s[i := x]) + weigh(s[i]) == Total(weigh, s) + weigh(x)
    decreases |s|
  {
    var n := |s| - 1;
    if i == n {
      assert s[i := x][..n] == s[..n];
    } else {
      TotalUpdated(weigh, s[..n], i, x);
      assert s[i := x][..n] == s[..n][i := x];
    }
  }
}
