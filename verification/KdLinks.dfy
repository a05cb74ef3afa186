/** update_links: after a split every block rebuilds its link from its old link, the splits its
    neighbors sent, and its own old and new bounds. */
module KdLinks {
  import opened Arith
  import opened Coordinates
  import opened Factoring
  import opened Groups
  import opened KdGeometry

  function Pow2(n: nat): nat {
    if n == 0 then 1 else 2 * Pow2(n - 1)
  }

  lemma {:induction false} Pow2Positive(n: nat)
    ensures Pow2(n) > 0
  {
    if n > 0 { Pow2Positive(n - 1); }
  }

  /** `gid & (1 << b)` is zero. */
  predicate BitClear(gid: nat, b: nat) {
    Pow2Positive(b);
    gid / Pow2(b) % 2 == 0
  }

  /** Clears (`gid & ~(1 << b)`) or sets (`gid | (1 << b)`) bit b = rounds - 1 - round. */
  function DivideGid(gid: nat, lower: bool, round: nat, rounds: nat): int
    requires round < rounds
  {
    Pow2Positive(rounds - 1 - round);
    SetDigit(gid, Pow2(rounds - 1 - round), 2, if lower then 0 else 1)
  }

  // ---------- the partners of the kd-tree's swap rounds ----------

  /** One dimension of 2^R blocks, halved R times. */
  ghost predicate Halving(p: Partners) {
    && p.Valid() && !p.contiguous && |p.divs| == 1
    && forall r :: 0 <= r < p.Rounds() ==> p.kvs[r] == DimK(0, 2)
  }

  lemma {:induction false} SpanIsPow2(p: Partners, r: nat)
    requires Halving(p) && r <= p.Rounds()
    ensures After(p.kvs, r, 0) == Pow2(p.Rounds() - r)
    decreases p.Rounds() - r
  {
    if r < p.Rounds() {
      SpanIsPow2(p, r + 1);
    }
  }

  lemma HalvingShape(p: Partners, r: nat)
    requires Halving(p) && r < p.Rounds()
    ensures p.steps[r] == Pow2(p.Rounds() - 1 - r) > 0 && Volume(p.divs) == Pow2(p.Rounds())
  {
    SpanIsPow2(p, 0);
    SpanIsPow2(p, r + 1);
    Pow2Positive(p.Rounds() - 1 - r);
    assert Volume(p.divs[1..]) == 1;
  }

  lemma HalvingBlocks(p: Partners)
    requires Halving(p)
    ensures Volume(p.divs) == Pow2(p.Rounds())
  {
    SpanIsPow2(p, 0);
    assert Volume(p.divs[1..]) == 1;
  }

  lemma GidOfOne(c: int, divs: seq<nat>)
    requires |divs| == 1
    ensures Gid([c], divs) == c
  {
    assert Gid([c][1..], divs[1..]) == 0;
  }

  lemma CoordsOfOne(gid: nat, divs: seq<nat>)
    requires |divs| == 1 && divs[0] > 0 && gid < divs[0]
    ensures Coords(gid, divs) == [gid]
  {
    DivUnique(gid, divs[0], 0, gid);
  }

  /** Round `round` of the swap looks at one bit of the gid: its digit is that bit, and divide_gid picks
      the member of the group with the wanted bit. */
  lemma DivideIsGroup(p: Partners, gid: int, lower: bool, round: nat)
    requires Halving(p) && round < p.Rounds() && p.Block(gid)
    ensures BitClear(gid, p.Rounds() - 1 - round) <==> Digit(p, round, gid) == 0
    ensures |Group(p, round, gid)| == 2
    ensures DivideGid(gid, lower, round, p.Rounds()) == Group(p, round, gid)[if lower then 0 else 1]
  {
    HalvingShape(p, round);
    assert Volume(p.divs[1..]) == 1;
    CoordsOfOne(gid, p.divs);
    var v := if lower then 0 else 1;
    var c := SetDigit(gid, p.steps[round], 2, v);
    GidOfOne(c, p.divs);
    assert WithDigit(p, round, Coords(gid, p.divs), v) == [c];
  }

  lemma DivideSpec(p: Partners, gid: int, lower: bool, round: nat)
    requires Halving(p) && round < p.Rounds() && p.Block(gid)
    ensures var h := DivideGid(gid, lower, round, p.Rounds());
            && p.Block(h) && Digit(p, round, h) == (if lower then 0 else 1)
            && forall t :: 0 <= t < p.Rounds() && t != round ==> Digit(p, t, h) == Digit(p, t, gid)
  {
    DivideIsGroup(p, gid, lower, round);
    GroupMember(p, round, gid, if lower then 0 else 1);
  }

  // ---------- update_links, second half ----------

  /** What an old entry becomes: nothing, one half of that neighbor, or both. */
  function Kept(e: Entry, split: real, core: Box, lower: bool, dim: nat, round: nat, rounds: nat): seq<Entry>
    requires e.gid >= 0 && round < rounds
    requires dim < |e.dir| && dim < |e.bounds.min| && dim < |e.bounds.max| && dim < |core.min| && dim < |core.max|
  {
    if e.dir[dim] != 0 then
      if (e.dir[dim] < 0 && lower) || (e.dir[dim] > 0 && !lower) then
        [Entry(DivideGid(e.gid, !lower, round, rounds), e.dir, Half(e.bounds, split, dim, !lower))]
      else []
    else
      KeptHalf(e, split, core, true, dim, round, rounds) + KeptHalf(e, split, core, false, dim, round, rounds)
  }

  function KeptHalf(e: Entry, split: real, core: Box, low: bool, dim: nat, round: nat, rounds: nat): seq<Entry>
    requires e.gid >= 0 && round < rounds
    requires dim < |e.dir| && dim < |e.bounds.min| && dim < |e.bounds.max| && dim < |core.min| && dim < |core.max|
  {
    var bounds := Half(e.bounds, split, dim, low);
    if Intersects(bounds, core, dim) then [Entry(DivideGid(e.gid, low, round, rounds), e.dir, bounds)] else []
  }

  ghost predicate Shaped(link: seq<Entry>, dims: nat) {
    forall i :: 0 <= i < |link| ==>
      link[i].gid >= 0 && |link[i].dir| == |link[i].bounds.min| == |link[i].bounds.max| == dims
  }

  ghost function KeptAll(link: seq<Entry>, splits: seq<real>, core: Box, lower: bool, dim: nat, round: nat,
          rounds: nat, dims: nat): seq<Entry>
    requires |splits| == |link| && Shaped(link, dims) && round < rounds && dim < dims
    requires |core.min| == |core.max| == dims
  {
    if link == [] then [] else
    var n := |link| - 1;
    KeptAll(link[..n], splits[..n], core, lower, dim, round, rounds, dims)
      + Kept(link[n], splits[n], core, lower, dim, round, rounds)
  }

  /** The entry for the block on the other side of the new face. */
  function Dual(gid: nat, core: Box, parent: Box, lower: bool, dim: nat, round: nat, rounds: nat, dims: nat): Entry
    requires round < rounds && dim < dims && |core.min| == |core.max| == |parent.min| == |parent.max| == dims
  {
    Entry(DivideGid(gid, !lower, round, rounds), Unit(dims, dim, if lower then 1 else -1),
          Half(parent, SplitOf(core, parent, 0), dim, !lower))
  }

  method UpdateLinks(gid: nat, link: seq<Entry>, splits: seq<real>, core: Box, parent: Box,
                     dim: nat, round: nat, rounds: nat, dims: nat)
    returns (newLink: seq<Entry>)
    requires |splits| == |link| && Shaped(link, dims) && round < rounds && dim < dims
    requires |core.min| == |core.max| == |parent.min| == |parent.max| == dims
    ensures var lower := BitClear(gid, rounds - 1 - round);
            newLink == KeptAll(link, splits, core, lower, dim, round, rounds, dims)
                       + [Dual(gid, core, parent, lower, dim, round, rounds, dims)]
  {
    newLink := [];
    var lower := BitClear(gid, rounds - 1 - round);
    for i := 0 to |link|
      invariant newLink == KeptAll(link[..i], splits[..i], core, lower, dim, round, rounds, dims)
    {
      assert link[..i + 1][..i] == link[..i] && splits[..i + 1][..i] == splits[..i];
      ghost var before := newLink;
      var dir := link[i].dir;
      if dir[dim] != 0 {
        if (dir[dim] < 0 && lower) || (dir[dim] > 0 && !lower) {
          var nbrGid := DivideGid(link[i].gid, !lower, round, rounds);
          var bounds := Half(link[i].bounds, splits[i], dim, !lower);
          newLink := newLink + [Entry(nbrGid, dir, bounds)];
        }
      } else {
        for j := 0 to 2
          invariant newLink == before
                                + (if j >= 1 then KeptHalf(link[i], splits[i], core, true, dim, round, rounds) else [])
                                + (if j == 2 then KeptHalf(link[i], splits[i], core, false, dim, round, rounds) else [])
        {
          var nbrGid := DivideGid(link[i].gid, j == 0, round, rounds);
          var bounds := Half(link[i].bounds, splits[i], dim, j == 0);
          if Intersects(bounds, core, dim) {
            newLink := newLink + [Entry(nbrGid, dir, bounds)];
          }
        }
      }
      assert newLink == before + Kept(link[i], splits[i], core, lower, dim, round, rounds);
    }
    assert link[..|link|] == link && splits[..|link|] == splits;
    var split := FindSplit(core, parent, dims);
    newLink := newLink + [Entry(DivideGid(gid, !lower, round, rounds), Unit(dims, dim, if lower then 1 else -1),
                                Half(parent, split, dim, !lower))];
  }
}
