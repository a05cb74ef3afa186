/** RegularPartners: every block has one digit per round, its position in that round's group; the
    digits identify the block, and the group of a round is reached by varying one digit. */
module Groups {
  import opened Arith
  import opened Coordinates
  import opened Factoring

  datatype Partners = Partners(divs: seq<nat>, kvs: seq<DimK>, contiguous: bool, steps: seq<nat>) {
    ghost predicate Valid() {
      && Tiles(divs, kvs)
      && |steps| == |kvs| && forall r :: 0 <= r < |kvs| ==> steps[r] == Stride(kvs, contiguous, r)
    }

    function Rounds(): nat {
      |kvs|
    }

    predicate Block(gid: int) {
      0 <= gid < Volume(divs)
    }
  }

  /** The constructor that factors the grid itself. */
  method FromDivisions(divisions: seq<nat>, k: nat, contiguous: bool) returns (p: Partners)
    requires k >= 2 && forall d :: 0 <= d < |divisions| ==> divisions[d] > 0
    ensures p.Valid() && p.divs == divisions && p.contiguous == contiguous
    ensures p.kvs == Interleave(AllFactors(k, divisions), 0)
    ensures forall r :: 0 <= r < |p.kvs| ==> p.kvs[r].size >= 2
  {
    var kvs := FactorAll(k, divisions);
    FactoringTiles(k, divisions);
    var steps := FillSteps(divisions, kvs, contiguous);
    p := Partners(divisions, kvs, contiguous, steps);
  }

  function GroupPosition(c: int, step: nat, size: nat): int
    requires step > 0 && size > 0
  {
    c / step % size
  }

  // ---------- strides form a divisibility chain ----------

  lemma {:induction false} BeforeMultiple(kvs: seq<DimK>, r: nat, t: nat, d: nat) returns (m: nat)
    requires r <= t <= |kvs| && forall i :: 0 <= i < |kvs| ==> kvs[i].size > 0
    ensures m > 0 && Before(kvs, t, d) == m * Before(kvs, r, d)
  {
    if r == t {
      m := 1;
    } else {
      m := BeforeMultiple(kvs, r, t - 1, d);
      if kvs[t - 1].dim == d {
        var b, k := Before(kvs, r, d), kvs[t - 1].size;
        MulAssoc(m, b, k);
        MulAssoc(m, k, b);
        assert b * k == k * b;
        MulPos(m, k);
        m := m * k;
      }
    }
  }

  lemma {:induction false} AfterMultiple(kvs: seq<DimK>, r: nat, t: nat, d: nat) returns (m: nat)
    requires r <= t <= |kvs| && forall i :: 0 <= i < |kvs| ==> kvs[i].size > 0
    ensures m > 0 && After(kvs, r, d) == m * After(kvs, t, d)
    decreases t - r
  {
    if r == t {
      m := 1;
    } else {
      m := AfterMultiple(kvs, r + 1, t, d);
      if kvs[r].dim == d {
        var a, k := After(kvs, t, d), kvs[r].size;
        MulAssoc(k, m, a);
        MulPos(k, m);
        m := k * m;
      }
    }
  }

  lemma StepPositive(p: Partners, r: nat)
    requires p.Valid() && r < p.Rounds()
    ensures p.steps[r] > 0 && p.kvs[r].size > 0 && p.kvs[r].dim < |p.divs|
  {
    StridesPositive(p.divs, p.kvs, r, p.kvs[r].dim);
    StridesPositive(p.divs, p.kvs, r + 1, p.kvs[r].dim);
  }

  lemma StepsChain(p: Partners, r: nat, t: nat) returns (m: nat)
    requires p.Valid() && r < t < p.Rounds() && p.kvs[r].dim == p.kvs[t].dim
    ensures m > 0
    ensures if p.contiguous then p.steps[t] == m * (p.steps[r] * p.kvs[r].size)
        else p.steps[r] == m * (p.steps[t] * p.kvs[t].size)
  {
    var d := p.kvs[r].dim;
    if p.contiguous {
      m := BeforeMultiple(p.kvs, r + 1, t, d);
    } else {
      m := AfterMultiple(p.kvs, r + 1, t, d);
    }
  }

  lemma StepInDivision(p: Partners, r: nat) returns (m: nat)
    requires p.Valid() && r < p.Rounds()
    ensures m > 0 && p.kvs[r].dim < |p.divs| && p.divs[p.kvs[r].dim] == m * (p.steps[r] * p.kvs[r].size)
  {
    var d := p.kvs[r].dim;
    if p.contiguous {
      m := BeforeMultiple(p.kvs, r + 1, |p.kvs|, d);
      BeforeTimesAfter(p.kvs, |p.kvs|, d);
    } else {
      m := AfterMultiple(p.kvs, 0, r, d);
    }
  }

  // ---------- digits of a coordinate vector ----------

  function DigitOf(p: Partners, r: nat, coords: seq<int>): int
    requires r < p.Rounds() && |p.steps| == |p.kvs| && p.kvs[r].dim < |coords|
    requires p.steps[r] > 0 && p.kvs[r].size > 0
  {
    GroupPosition(coords[p.kvs[r].dim], p.steps[r], p.kvs[r].size)
  }

  function WithDigit(p: Partners, r: nat, coords: seq<int>, v: int): seq<int>
    requires r < p.Rounds() && |p.steps| == |p.kvs| && p.kvs[r].dim < |coords|
    requires p.steps[r] > 0 && p.kvs[r].size > 0
  {
    var d := p.kvs[r].dim;
    coords[d := SetDigit(coords[d], p.steps[r], p.kvs[r].size, v)]
  }

  lemma WithDigitSpec(p: Partners, r: nat, coords: seq<int>, v: nat)
    requires p.Valid() && r < p.Rounds() && InRange(coords, p.divs) && v < p.kvs[r].size
    ensures p.steps[r] > 0 && p.kvs[r].dim < |p.divs|
    ensures InRange(WithDigit(p, r, coords, v), p.divs)
    ensures DigitOf(p, r, WithDigit(p, r, coords, v)) == v
  {
    StepPositive(p, r);
    var d := p.kvs[r].dim;
    var m := StepInDivision(p, r);
    SetDigitSpec(coords[d], p.steps[r], p.kvs[r].size, v);
    SetDigitRange(coords[d], p.steps[r], p.kvs[r].size, v, p.divs[d], m);
  }

  lemma WithDigitOther(p: Partners, r: nat, t: nat, coords: seq<int>, v: nat)
    requires p.Valid() && r < p.Rounds() && t < p.Rounds() && r != t
    requires InRange(coords, p.divs) && v < p.kvs[r].size
    ensures p.steps[r] > 0 && p.steps[t] > 0 && p.kvs[r].dim < |p.divs| && p.kvs[t].dim < |p.divs| && p.kvs[t].size > 0
    ensures DigitOf(p, t, WithDigit(p, r, coords, v)) == DigitOf(p, t, coords)
  {
    StepPositive(p, r);
    StepPositive(p, t);
    var d := p.kvs[r].dim;
    if d == p.kvs[t].dim {
      var m: nat;
      if r < t { m := StepsChain(p, r, t); } else { m := StepsChain(p, t, r); }
      SetDigitOther(coords[d], p.steps[r], p.kvs[r].size, v, p.steps[t], p.kvs[t].size, m);
    }
  }

  // ---------- the digits identify the coordinate ----------

  ghost predicate SameDigits(p: Partners, a: seq<int>, b: seq<int>) {
    && |a| == |b| == |p.divs| && |p.steps| == |p.kvs|
    && forall r :: 0 <= r < |p.kvs| ==>
      p.kvs[r].dim < |p.divs| && p.steps[r] > 0 && p.kvs[r].size > 0 && DigitOf(p, r, a) == DigitOf(p, r, b)
  }

  lemma {:induction false} LowDigitsFix(p: Partners, a: seq<int>, b: seq<int>, d: nat, r: nat)
    requires p.Valid() && p.contiguous && InRange(a, p.divs) && InRange(b, p.divs) && SameDigits(p, a, b)
    requires d < |p.divs| && r <= p.Rounds()
    ensures Before(p.kvs, r, d) > 0
    ensures a[d] % Before(p.kvs, r, d) == b[d] % Before(p.kvs, r, d)
  {
    StridesPositive(p.divs, p.kvs, r, d);
    if r > 0 {
      LowDigitsFix(p, a, b, d, r - 1);
      if p.kvs[r - 1].dim == d {
        assert DigitOf(p, r - 1, a) == DigitOf(p, r - 1, b);
        AgreeBelowDigit(a[d], b[d], p.steps[r - 1], p.kvs[r - 1].size);
      }
    }
  }

  lemma {:induction false} HighDigitsFix(p: Partners, a: seq<int>, b: seq<int>, d: nat, r: nat)
    requires p.Valid() && !p.contiguous && InRange(a, p.divs) && InRange(b, p.divs) && SameDigits(p, a, b)
    requires d < |p.divs| && r <= p.Rounds()
    ensures After(p.kvs, r, d) > 0
    ensures a[d] / After(p.kvs, r, d) == b[d] / After(p.kvs, r, d)
  {
    StridesPositive(p.divs, p.kvs, r, d);
    if r == 0 {
      DivUnique(a[d], p.divs[d], 0, a[d]);
      DivUnique(b[d], p.divs[d], 0, b[d]);
    } else {
      HighDigitsFix(p, a, b, d, r - 1);
      if p.kvs[r - 1].dim == d {
        assert DigitOf(p, r - 1, a) == DigitOf(p, r - 1, b);
        AgreeAtDigit(a[d], b[d], p.steps[r - 1], p.kvs[r - 1].size);
      }
    }
  }

  lemma LowDigitsDecide(p: Partners, a: seq<int>, b: seq<int>, d: nat)
    requires p.Valid() && p.contiguous && InRange(a, p.divs) && InRange(b, p.divs) && SameDigits(p, a, b)
        && d < |p.divs|
    ensures a[d] == b[d]
  {
    LowDigitsFix(p, a, b, d, p.Rounds());
    BeforeTimesAfter(p.kvs, p.Rounds(), d);
    DivUnique(a[d], p.divs[d], 0, a[d]);
    DivUnique(b[d], p.divs[d], 0, b[d]);
  }

  lemma ByOne(x: int, m: int)
    requires m == 1
    ensures x / m == x
  {
  }

  lemma HighDigitsDecide(p: Partners, a: seq<int>, b: seq<int>, d: nat)
    requires p.Valid() && !p.contiguous && InRange(a, p.divs) && InRange(b, p.divs) && SameDigits(p, a, b)
        && d < |p.divs|
    ensures a[d] == b[d]
  {
    HighDigitsFix(p, a, b, d, p.Rounds());
    ByOne(a[d], After(p.kvs, p.Rounds(), d));
    ByOne(b[d], After(p.kvs, p.Rounds(), d));
  }

  lemma SameDigitsSameCoordinate(p: Partners, a: seq<int>, b: seq<int>, d: nat)
    requires p.Valid() && InRange(a, p.divs) && InRange(b, p.divs) && SameDigits(p, a, b) && d < |p.divs|
    ensures a[d] == b[d]
  {
    if p.contiguous {
      LowDigitsDecide(p, a, b, d);
    } else {
      HighDigitsDecide(p, a, b, d);
    }
  }

  lemma SameDigitsSameCoords(p: Partners, a: seq<int>, b: seq<int>)
    requires p.Valid() && InRange(a, p.divs) && InRange(b, p.divs) && SameDigits(p, a, b)
    ensures a == b
  {
    forall d | 0 <= d < |p.divs| ensures a[d] == b[d] {
      SameDigitsSameCoordinate(p, a, b, d);
    }
  }

  // ---------- the same for block ids ----------

  /** The position of block gid in its group of round r. */
  ghost function Digit(p: Partners, r: nat, gid: int): int
    requires p.Valid() && r < p.Rounds() && p.Block(gid)
  {
    StepPositive(p, r);
    DigitOf(p, r, Coords(gid, p.divs))
  }

  /** The group of gid in round r, in order of position. */
  ghost function Group(p: Partners, r: nat, gid: int): seq<int>
    requires p.Valid() && r < p.Rounds() && p.Block(gid)
  {
    StepPositive(p, r);
    seq(p.kvs[r].size, v requires 0 <= v < p.kvs[r].size => Gid(WithDigit(p, r, Coords(gid, p.divs), v), p.divs))
  }

  lemma DigitRange(p: Partners, r: nat, gid: int)
    requires p.Valid() && r < p.Rounds() && p.Block(gid)
    ensures 0 <= Digit(p, r, gid) < p.kvs[r].size
  {
    StepPositive(p, r);
    GidOfCoords(gid, p.divs);
    DivNonneg(Coords(gid, p.divs)[p.kvs[r].dim], p.steps[r]);
  }

  /** Member v of the group is a block whose digit of round r is v and whose other digits are gid's. */
  lemma GroupMember(p: Partners, r: nat, gid: int, v: nat)
    requires p.Valid() && r < p.Rounds() && p.Block(gid) && v < p.kvs[r].size
    ensures |Group(p, r, gid)| == p.kvs[r].size
    ensures p.Block(Group(p, r, gid)[v])
    ensures Digit(p, r, Group(p, r, gid)[v]) == v
    ensures forall t :: 0 <= t < p.Rounds() && t != r ==> Digit(p, t, Group(p, r, gid)[v]) == Digit(p, t, gid)
  {
    StepPositive(p, r);
    GidOfCoords(gid, p.divs);
    var c := Coords(gid, p.divs);
    WithDigitSpec(p, r, c, v);
    CoordsOfGid(WithDigit(p, r, c, v), p.divs);
    forall t | 0 <= t < p.Rounds() && t != r ensures Digit(p, t, Group(p, r, gid)[v]) == Digit(p, t, gid) {
      WithDigitOther(p, r, t, c, v);
    }
  }

  /** Blocks with the same digits are the same block. */
  lemma DigitsIdentify(p: Partners, a: int, b: int)
    requires p.Valid() && p.Block(a) && p.Block(b)
    requires forall t :: 0 <= t < p.Rounds() ==> Digit(p, t, a) == Digit(p, t, b)
    ensures a == b
  {
    GidOfCoords(a, p.divs);
    GidOfCoords(b, p.divs);
    forall t | 0 <= t < p.Rounds()
      ensures p.kvs[t].dim < |p.divs| && p.steps[t] > 0
          && DigitOf(p, t, Coords(a, p.divs)) == DigitOf(p, t, Coords(b, p.divs))
    {
      StepPositive(p, t);
      assert Digit(p, t, a) == Digit(p, t, b);
    }
    SameDigitsSameCoords(p, Coords(a, p.divs), Coords(b, p.divs));
  }

  /** The group of round r is exactly the set of blocks that differ from gid in that one digit at most. */
  lemma InGroup(p: Partners, r: nat, gid: int, h: int)
    requires p.Valid() && r < p.Rounds() && p.Block(gid) && p.Block(h)
    ensures |Group(p, r, gid)| == p.kvs[r].size && 0 <= Digit(p, r, h) < p.kvs[r].size
    ensures h in Group(p, r, gid) <==> forall t :: 0 <= t < p.Rounds() && t != r ==> Digit(p, t, h) == Digit(p, t, gid)
    ensures h in Group(p, r, gid) ==> Group(p, r, gid)[Digit(p, r, h)] == h
  {
    DigitRange(p, r, h);
    var g := Group(p, r, gid);
    if h in g {
      var v :| 0 <= v < |g| && g[v] == h;
      GroupMember(p, r, gid, v);
    }
    if forall t :: 0 <= t < p.Rounds() && t != r ==> Digit(p, t, h) == Digit(p, t, gid) {
      var v := Digit(p, r, h);
      GroupMember(p, r, gid, v);
      DigitsIdentify(p, g[v], h);
    }
  }

  /** `fill`: appends the group of gid in the given round to the caller's list. */
  method Fill(p: Partners, round: nat, gid: int, partners: seq<int>) returns (partners': seq<int>)
    requires p.Valid() && round < p.Rounds() && p.Block(gid)
    ensures partners' == partners + Group(p, round, gid)
  {
    StepPositive(p, round);
    GidOfCoords(gid, p.divs);
    var kv := p.kvs[round];
    var step := p.steps[round];
    var coords := GidToCoords(gid, p.divs);
    ghost var start := coords;
    ghost var group := Group(p, round, gid);
    var c := coords[kv.dim];
    var pos := GroupPosition(c, step, kv.size);
    var partner := c - pos * step;
    coords := coords[kv.dim := partner];
    assert coords == WithDigit(p, round, start, 0);
    var partnerGid := CoordsToGid(coords, p.divs);
    partners' := partners + [partnerGid];
    for k := 1 to kv.size
      invariant |coords| == |start| && coords == start[kv.dim := partner]
      invariant partner == SetDigit(c, step, kv.size, k - 1)
      invariant partners' == partners + group[..k]
    {
      assert group[..k + 1] == group[..k] + [group[k]];
      MulDistr(k - 1, 1, step);
      partner := partner + step;
      assert partner == SetDigit(c, step, kv.size, k);
      coords := coords[kv.dim := partner];
      assert coords == WithDigit(p, round, start, k);
      partnerGid := CoordsToGid(coords, p.divs);
      partners' := partners' + [partnerGid];
    }
  }
}
