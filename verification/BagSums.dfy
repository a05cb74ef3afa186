/** The sum of the multisets that a list of owners hold. */
module BagSums {

  function Sum<T>(bags: seq<multiset<T>>): multiset<T> {
    if bags == [] then multiset{} else bags[0] + Sum(bags[1..])
  }

  lemma {:induction false} SumUpdate<T>(bags: seq<multiset<T>>, p: nat, b: multiset<T>)
    requires p < |bags|
    ensures Sum(bags[p := b]) + bags[p] == Sum(bags) + b
  {
    if p == 0 {
      assert bags[0 := b][1..] == bags[1..];
    } else {
      assert bags[p := b][1..] == bags[1..][p - 1 := b];
      SumUpdate(bags[1..], p - 1, b);
      assert bags[p := b][0] == bags[0];
      assert Sum(bags[p := b]) + bags[p] == bags[0] + (Sum(bags[1..][p - 1 := b]) + bags[1..][p - 1]);
    }
  }

  lemma {:induction false} EmptySum<T>(bags: seq<multiset<T>>)
    requires forall p :: 0 <= p < |bags| ==> bags[p] == multiset{}
    ensures Sum(bags) == multiset{}
  {
    if bags != [] {
      EmptySum(bags[1..]);
    }
  }
}
