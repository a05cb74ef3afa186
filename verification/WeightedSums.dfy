/** Adding up counts over blocks, each block counted as often as a multiset says. */
module WeightedSums {
  import opened Schedules
  import opened Counting

  /** v added up k times. */
  function Times(k: nat, v: nat): nat {
    if k == 0 then 0 else Times(k - 1, v) + v
  }

  lemma {:induction false} TimesAdd(a: nat, b: nat, v: nat)
    ensures Times(a + b, v) == Times(a, v) + Times(b, v)
  {
    if a > 0 { TimesAdd(a - 1, b, v); }
  }

  /** The values of the blocks below n, block a counted weight[a] times. */
  ghost function Weighted(weight: multiset<int>, value: int -> nat, n: nat): nat {
    if n == 0 then 0 else Weighted(weight, value, n - 1) + Times(weight[n - 1], value(n - 1))
  }

  lemma {:induction false} WeightedAdd(v: multiset<int>, w: multiset<int>, value: int -> nat, n: nat)
    ensures Weighted(v + w, value, n) == Weighted(v, value, n) + Weighted(w, value, n)
  {
    if n > 0 {
      WeightedAdd(v, w, value, n - 1);
      TimesAdd(v[n - 1], w[n - 1], value(n - 1));
    }
  }

  lemma {:induction false} WeightedNone(value: int -> nat, n: nat)
    ensures Weighted(multiset{}, value, n) == 0
  {
    if n > 0 { WeightedNone(value, n - 1); }
  }

  lemma {:induction false} WeightedOne(g: int, value: int -> nat, n: nat)
    ensures Weighted(multiset{g}, value, n) == if 0 <= g < n then value(g) else 0
  {
    if n > 0 {
      WeightedOne(g, value, n - 1);
      assert Times(1, value(n - 1)) == Times(0, value(n - 1)) + value(n - 1);
    }
  }

  /** The values of the blocks of a list. */
  function SumFrom(value: int -> nat, from: seq<int>): nat {
    if from == [] then 0 else value(from[0]) + SumFrom(value, from[1..])
  }

  /** Adding up weighted sums over a list gives the weighted sum of what the list gathers. */
  lemma {:induction false} SumFromIsGather(sums: int -> nat, held: int -> multiset<int>, from: seq<int>,
          value: int -> nat, n: nat)
    requires forall k :: 0 <= k < |from| ==> sums(from[k]) == Weighted(held(from[k]), value, n)
    ensures SumFrom(sums, from) == Weighted(Gather(held, from), value, n)
  {
    if from == [] {
      WeightedNone(value, n);
    } else {
      SumFromIsGather(sums, held, from[1..], value, n);
      WeightedAdd(held(from[0]), Gather(held, from[1..]), value, n);
    }
  }

  /** The values of the blocks below n that are inside. */
  ghost function SumWhere(inside: int -> bool, value: int -> nat, n: nat): nat {
    if n == 0 then 0 else SumWhere(inside, value, n - 1) + if inside(n - 1) then value(n - 1) else 0
  }

  lemma {:induction false} WeightedIsSumWhere(inside: int -> bool, weight: multiset<int>, value: int -> nat, n: nat)
    requires forall a :: 0 <= a < n ==> weight[a] == One(inside(a))
    ensures Weighted(weight, value, n) == SumWhere(inside, value, n)
  {
    if n > 0 {
      WeightedIsSumWhere(inside, weight, value, n - 1);
      assert Times(1, value(n - 1)) == Times(0, value(n - 1)) + value(n - 1);
    }
  }

  lemma {:induction false} SumWhereSame(f: int -> bool, g: int -> bool, value: int -> nat, other: int -> nat, n: nat)
    requires forall a :: 0 <= a < n ==> f(a) == g(a) && (f(a) ==> value(a) == other(a))
    ensures SumWhere(f, value, n) == SumWhere(g, other, n)
  {
    if n > 0 { SumWhereSame(f, g, value, other, n - 1); }
  }
}
