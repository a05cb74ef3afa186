/** Sequences under a strict weak order: sorted permutations agree up to equivalence, and lower_bound. */
module SortedOrder {

  type Less = (int, int) -> bool

  ghost predicate StrictWeak(less: Less) {
    && (forall x :: !less(x, x))
    && (forall x, y, z :: less(x, y) && less(y, z) ==> less(x, z))
    && (forall x, y, z :: less(x, z) ==> less(x, y) || less(y, z))
  }

  /** `!less` is transitive. */
  lemma NotLessChain(x: int, y: int, z: int, less: Less)
    requires StrictWeak(less) && !less(x, y) && !less(y, z)
    ensures !less(x, z)
  {
    assert less(x, z) ==> less(x, y) || less(y, z);
  }

  ghost predicate Sorted(s: seq<int>, less: Less) {
    forall i, j :: 0 <= i < j < |s| ==> !less(s[j], s[i])
  }

  predicate Equivalent(x: int, y: int, less: Less) {
    !less(x, y) && !less(y, x)
  }

  /** Equal length and equivalent position by position. */
  ghost predicate Alike(s: seq<int>, t: seq<int>, less: Less) {
    |s| == |t| && forall i :: 0 <= i < |s| ==> Equivalent(s[i], t[i], less)
  }

  // ---------- counting ----------

  function CountLess(s: seq<int>, v: int, less: Less): nat {
    if s == [] then 0 else CountLess(s[1..], v, less) + if less(s[0], v) then 1 else 0
  }

  lemma {:induction false} CountSplit(a: seq<int>, b: seq<int>, v: int, less: Less)
    ensures CountLess(a + b, v, less) == CountLess(a, v, less) + CountLess(b, v, less)
  {
    if a == [] {
      assert a + b == b;
    } else {
      assert (a + b)[1..] == a[1..] + b;
      CountSplit(a[1..], b, v, less);
    }
  }

  lemma Cancel<T>(a: multiset<T>, b: multiset<T>, c: multiset<T>)
    requires c + a == b + c
    ensures a == b
  {
    assert forall x :: (c + a)[x] == c[x] + a[x] && (b + c)[x] == b[x] + c[x];
  }

  lemma Removed(s: seq<int>, t: seq<int>, i: nat)
    requires multiset(s) == multiset(t) && s != [] && i < |t| && t[i] == s[0]
    ensures multiset(s[1..]) == multiset(t[..i] + t[i + 1..])
  {
    assert s == [s[0]] + s[1..] && t == t[..i] + [t[i]] + t[i + 1..];
    assert multiset(s) == multiset{s[0]} + multiset(s[1..]);
    assert multiset(t) == multiset(t[..i] + t[i + 1..]) + multiset{t[i]};
    Cancel(multiset(s[1..]), multiset(t[..i] + t[i + 1..]), multiset{s[0]});
  }

  /** The count does not depend on the order of the elements. */
  lemma {:induction false} CountPermuted(s: seq<int>, t: seq<int>, v: int, less: Less)
    requires multiset(s) == multiset(t)
    ensures CountLess(s, v, less) == CountLess(t, v, less)
    decreases |s|
  {
    if s == [] {
      assert |t| == |multiset(t)| == 0;
    } else {
      assert s[0] in multiset(t);
      var i :| 0 <= i < |t| && t[i] == s[0];
      var rest := t[..i] + t[i + 1..];
      assert t == t[..i] + ([t[i]] + t[i + 1..]);
      assert s == [s[0]] + s[1..];
      Removed(s, t, i);
      CountPermuted(s[1..], rest, v, less);
      CountSplit(t[..i], [t[i]] + t[i + 1..], v, less);
      CountSplit([t[i]], t[i + 1..], v, less);
      CountSplit(t[..i], t[i + 1..], v, less);
      assert [t[i]][1..] == [];
    }
  }

  lemma {:induction false} CountAll(s: seq<int>, v: int, less: Less)
    requires forall i :: 0 <= i < |s| ==> less(s[i], v)
    ensures CountLess(s, v, less) == |s|
  {
    if s != [] { CountAll(s[1..], v, less); }
  }

  lemma {:induction false} CountNone(s: seq<int>, v: int, less: Less)
    requires forall i :: 0 <= i < |s| ==> !less(s[i], v)
    ensures CountLess(s, v, less) == 0
  {
    if s != [] { CountNone(s[1..], v, less); }
  }

  lemma CountLow(s: seq<int>, i: nat, v: int, less: Less)
    requires StrictWeak(less) && Sorted(s, less) && i < |s| && less(s[i], v)
    ensures CountLess(s, v, less) >= i + 1
  {
    var low, high := s[..i + 1], s[i + 1..];
    assert s == low + high;
    CountSplit(low, high, v, less);
    forall j | 0 <= j < |low| ensures less(low[j], v) {
      if !less(s[j], v) && j < i { NotLessChain(s[i], s[j], v, less); }
    }
    CountAll(low, v, less);
  }

  lemma CountHigh(t: seq<int>, i: nat, less: Less)
    requires StrictWeak(less) && Sorted(t, less) && i < |t|
    ensures CountLess(t, t[i], less) <= i
  {
    var low, high := t[..i], t[i..];
    assert t == low + high;
    CountSplit(low, high, t[i], less);
    forall j | 0 <= j < |high| ensures !less(high[j], t[i]) {
      assert high[j] == t[i + j];
    }
    CountNone(high, t[i], less);
    CountAtMost(low, t[i], less);
  }

  lemma NotBelow(s: seq<int>, t: seq<int>, i: nat, less: Less)
    requires StrictWeak(less) && Sorted(s, less) && Sorted(t, less) && multiset(s) == multiset(t) && i < |s| == |t|
    ensures !less(s[i], t[i])
  {
    CountPermuted(s, t, t[i], less);
    CountHigh(t, i, less);
    if less(s[i], t[i]) {
      CountLow(s, i, t[i], less);
    }
  }

  lemma {:induction false} CountAtMost(s: seq<int>, v: int, less: Less)
    ensures CountLess(s, v, less) <= |s|
  {
    if s != [] { CountAtMost(s[1..], v, less); }
  }

  /** Sorting the same elements in any two ways gives equivalent elements at every position. */
  lemma SortedAlike(s: seq<int>, t: seq<int>, less: Less)
    requires StrictWeak(less) && Sorted(s, less) && Sorted(t, less) && multiset(s) == multiset(t)
    ensures Alike(s, t, less)
  {
    assert |s| == |multiset(s)| == |multiset(t)| == |t|;
    forall i | 0 <= i < |s| ensures Equivalent(s[i], t[i], less) {
      NotBelow(s, t, i, less);
      NotBelow(t, s, i, less);
    }
  }

  // ---------- sort and lower_bound ----------

  /** `std::sort`; which of several equivalent elements comes first is not relied upon. */
  method Sort(s: seq<int>, less: Less) returns (t: seq<int>)
    requires StrictWeak(less)
    ensures Sorted(t, less) && multiset(t) == multiset(s)
  {
    t := [];
    for n := 0 to |s|
      invariant Sorted(t, less) && multiset(t) == multiset(s[..n])
    {
      var i := |t|;
      while i > 0 && less(s[n], t[i - 1])
        invariant 0 <= i <= |t|
        invariant forall j :: i <= j < |t| ==> less(s[n], t[j])
      {
        i := i - 1;
      }
      InsertSorted(t, i, s[n], less);
      InsertCounts(t, i, s[n]);
      assert s[..n + 1] == s[..n] + [s[n]];
      t := t[..i] + [s[n]] + t[i..];
    }
    assert s[..|s|] == s;
  }

  lemma InsertSorted(t: seq<int>, i: nat, x: int, less: Less)
    requires StrictWeak(less) && Sorted(t, less) && i <= |t|
    requires i > 0 ==> !less(x, t[i - 1])
    requires forall j :: i <= j < |t| ==> less(x, t[j])
    ensures Sorted(t[..i] + [x] + t[i..], less)
  {
    var u := t[..i] + [x] + t[i..];
    forall a, b | 0 <= a < b < |u| ensures !less(u[b], u[a]) {
      if b == i {
        assert u[a] == t[a];
        if a < i - 1 { NotLessChain(x, t[i - 1], t[a], less); }
      } else if a == i {
        assert u[b] == t[b - 1] && less(x, t[b - 1]);
      } else {
        assert u[a] == t[if a < i then a else a - 1] && u[b] == t[if b < i then b else b - 1];
      }
    }
  }

  lemma InsertCounts(t: seq<int>, i: nat, x: int)
    requires i <= |t|
    ensures multiset(t[..i] + [x] + t[i..]) == multiset(t) + multiset{x}
  {
    assert t == t[..i] + t[i..];
  }

  /** The position of the first element that is not less than v, or the length. */
  function FirstNotLess(s: seq<int>, v: int, less: Less): (i: nat)
    ensures i <= |s|
  {
    if s == [] || !less(s[0], v) then 0 else 1 + FirstNotLess(s[1..], v, less)
  }

  lemma {:induction false} FirstNotLessIs(s: seq<int>, v: int, less: Less, i: nat)
    requires i <= |s| && (forall j :: 0 <= j < i ==> less(s[j], v)) && (i < |s| ==> !less(s[i], v))
    ensures FirstNotLess(s, v, less) == i
  {
    if i > 0 { FirstNotLessIs(s[1..], v, less, i - 1); }
  }

  lemma {:induction false} FirstNotLessSpec(s: seq<int>, v: int, less: Less)
    ensures var i := FirstNotLess(s, v, less);
        (forall j :: 0 <= j < i ==> less(s[j], v)) && (i < |s| ==> !less(s[i], v))
  {
    if s != [] && less(s[0], v) {
      FirstNotLessSpec(s[1..], v, less);
      var i := FirstNotLess(s[1..], v, less);
      forall j | 0 <= j < i + 1 ensures less(s[j], v) {
        if j > 0 { assert s[j] == s[1..][j - 1]; }
      }
    }
  }

  /** `std::lower_bound`: binary search in a sorted sequence. */
  method LowerBound(s: seq<int>, v: int, less: Less) returns (first: nat)
    requires StrictWeak(less) && Sorted(s, less)
    ensures first == FirstNotLess(s, v, less)
  {
    first := 0;
    var count := |s|;
    while count > 0
      invariant 0 <= first && 0 <= count && first + count <= |s|
      invariant forall j :: 0 <= j < first ==> less(s[j], v)
      invariant forall j :: first + count <= j < |s| ==> !less(s[j], v)
    {
      var step := count / 2;
      var it := first + step;
      if less(s[it], v) {
        forall j | 0 <= j < it ensures less(s[j], v) {
          if !less(s[j], v) { NotLessChain(s[it], s[j], v, less); }
        }
        first := it + 1;
        count := count - (step + 1);
      } else {
        forall j | it < j < |s| ensures !less(s[j], v) {
          NotLessChain(s[j], s[it], v, less);
        }
        count := step;
      }
    }
    FirstNotLessIs(s, v, less, first);
  }

  /** Equivalent dividers route alike. */
  lemma {:induction false} AlikeRoutes(s: seq<int>, t: seq<int>, v: int, less: Less)
    requires StrictWeak(less) && Alike(s, t, less)
    ensures FirstNotLess(s, v, less) == FirstNotLess(t, v, less)
  {
    if s != [] {
      assert Equivalent(s[0], t[0], less);
      if less(s[0], v) {
        forall i | 0 <= i < |s[1..]| ensures Equivalent(s[1..][i], t[1..][i], less) {
          assert Equivalent(s[i + 1], t[i + 1], less);
        }
        AlikeRoutes(s[1..], t[1..], v, less);
      }
    }
  }
}
