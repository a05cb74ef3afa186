/** The multiset of everything that a set of blocks holds. */
module Pools {

  ghost function Pool<B, T>(held: B -> seq<T>, blocks: set<B>): multiset<T> {
    if blocks == {} then multiset{} else
    var a :| a in blocks;
    multiset(held(a)) + Pool(held, blocks - {a})
  }

  lemma {:induction false} PoolTake<B, T>(held: B -> seq<T>, blocks: set<B>, a: B)
    requires a in blocks
    ensures Pool(held, blocks) == multiset(held(a)) + Pool(held, blocks - {a})
    decreases |blocks|
  {
    var b :| b in blocks && Pool(held, blocks) == multiset(held(b)) + Pool(held, blocks - {b});
    if a != b {
      PoolTake(held, blocks - {b}, a);
      PoolTake(held, blocks - {a}, b);
      assert blocks - {b} - {a} == blocks - {a} - {b};
    }
  }

  /** The blocks come in pairs, and each pair holds the same things together. */
  ghost predicate PairsTrade<B, T>(held: B -> seq<T>, held': B -> seq<T>, partner: B -> B, blocks: set<B>) {
    forall a :: a in blocks ==>
      && partner(a) in blocks && partner(a) != a && partner(partner(a)) == a
      && multiset(held(a)) + multiset(held(partner(a))) == multiset(held'(a)) + multiset(held'(partner(a)))
  }

  /** Trading within pairs keeps the pool. */
  lemma {:induction false} TradingKeepsPool<B, T>(held: B -> seq<T>, held': B -> seq<T>,
                                                 partner: B -> B, blocks: set<B>)
    requires PairsTrade(held, held', partner, blocks)
    ensures Pool(held, blocks) == Pool(held', blocks)
    decreases |blocks|
  {
    if blocks != {} {
      var a :| a in blocks;
      var s := partner(a);
      var rest := blocks - {a} - {s};
      TradingKeepsPool(held, held', partner, rest);
      PoolTake(held, blocks, a);
      PoolTake(held, blocks - {a}, s);
      PoolTake(held', blocks, a);
      PoolTake(held', blocks - {a}, s);
      Regroup(multiset(held(a)), multiset(held(s)), Pool(held, rest), multiset(held'(a)), multiset(held'(s)));
    }
  }

  lemma Regroup<T>(a: multiset<T>, b: multiset<T>, rest: multiset<T>, a': multiset<T>, b': multiset<T>)
    requires a + b == a' + b'
    ensures a + (b + rest) == a' + (b' + rest)
  {
    assert a + (b + rest) == (a + b) + rest;
    assert a' + (b' + rest) == (a' + b') + rest;
  }

  /** Appending to one of two parts appends to the whole. */
  lemma TwoWays<T>(s: seq<T>, low: seq<T>, high: seq<T>, goesLow: bool, low': seq<T>, high': seq<T>)
    requires s != [] && multiset(low) + multiset(high) == multiset(s[..|s| - 1])
    requires low' == low + (if goesLow then [s[|s| - 1]] else [])
        && high' == high + (if goesLow then [] else [s[|s| - 1]])
    ensures multiset(low') + multiset(high') == multiset(s)
  {
    assert s == s[..|s| - 1] + [s[|s| - 1]];
  }
}
