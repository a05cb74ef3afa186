/** Block ids as positions in a regular grid of blocks, lowest dimension fastest. */
module Coordinates {
  import opened Arith

  function Volume(divs: seq<nat>): nat {
    if divs == [] then 1 else divs[0] * Volume(divs[1..])
  }

  predicate Positive(divs: seq<nat>) {
    forall i :: 0 <= i < |divs| ==> divs[i] > 0
  }

  predicate InRange(coords: seq<int>, divs: seq<nat>) {
    |coords| == |divs| && forall i :: 0 <= i < |divs| ==> 0 <= coords[i] < divs[i]
  }

  function Coords(gid: nat, divs: seq<nat>): (coords: seq<int>)
    requires Positive(divs)
    ensures |coords| == |divs|
    decreases |divs|
  {
    if divs == [] then [] else
    DivNonneg(gid, divs[0]);
    [gid % divs[0]] + Coords(gid / divs[0], divs[1..])
  }

  function Gid(coords: seq<int>, divs: seq<nat>): int
    requires |coords| == |divs|
    decreases |divs|
  {
    if divs == [] then 0 else coords[0] + divs[0] * Gid(coords[1..], divs[1..])
  }

  lemma {:induction false} GidOfCoords(gid: nat, divs: seq<nat>)
    requires Positive(divs) && gid < Volume(divs)
    ensures InRange(Coords(gid, divs), divs)
    ensures Gid(Coords(gid, divs), divs) == gid
    decreases |divs|
  {
    if divs != [] {
      DivNonneg(gid, divs[0]);
      assert divs[0] * Volume(divs[1..]) == Volume(divs[1..]) * divs[0];
      QuotientBound(gid, divs[0], Volume(divs[1..]));
      GidOfCoords(gid / divs[0], divs[1..]);
    }
  }

  lemma {:induction false} CoordsOfGid(coords: seq<int>, divs: seq<nat>)
    requires Positive(divs) && InRange(coords, divs)
    ensures 0 <= Gid(coords, divs) < Volume(divs)
    ensures Coords(Gid(coords, divs), divs) == coords
    decreases |divs|
  {
    if divs != [] {
      CoordsOfGid(coords[1..], divs[1..]);
      var g := Gid(coords[1..], divs[1..]);
      assert divs[0] * g == g * divs[0] && divs[0] * Volume(divs[1..]) == Volume(divs[1..]) * divs[0];
      assert 0 <= g * divs[0] by { MulMono(0, g, divs[0]); }
      DivUnique(Gid(coords, divs), divs[0], g, coords[0]);
      QuotientBound(Gid(coords, divs), divs[0], Volume(divs[1..]));
    }
  }

  /** One further along dimension d are as many gids as there are blocks in the dimensions below it. */
  lemma {:induction false} GidStride(coords: seq<int>, divs: seq<nat>, d: nat)
    requires |coords| == |divs| && d < |divs|
    ensures Gid(coords[d := coords[d] + 1], divs) == Gid(coords, divs) + Volume(divs[..d])
    decreases d
  {
    var more := coords[d := coords[d] + 1];
    if d == 0 {
      assert more[1..] == coords[1..];
    } else {
      GidStride(coords[1..], divs[1..], d - 1);
      assert more[1..] == coords[1..][d - 1 := coords[d] + 1];
      assert divs[..d][1..] == divs[1..][..d - 1];
      MulDistr(Gid(coords[1..], divs[1..]), Volume(divs[1..][..d - 1]), divs[0]);
    }
  }

  /** The block at the origin is block 0. */
  lemma {:induction false} GidOfOrigin(coords: seq<int>, divs: seq<nat>)
    requires |coords| == |divs| && forall d :: 0 <= d < |coords| ==> coords[d] == 0
    ensures Gid(coords, divs) == 0
    decreases |divs|
  {
    if divs != [] { GidOfOrigin(coords[1..], divs[1..]); }
  }

  method GidToCoords(gid: nat, divs: seq<nat>) returns (coords: seq<int>)
    requires Positive(divs)
    ensures coords == Coords(gid, divs)
  {
    coords := [];
    var g := gid;
    for i := 0 to |divs|
      invariant g >= 0
      invariant coords + Coords(g, divs[i..]) == Coords(gid, divs)
    {
      assert divs[i..][1..] == divs[i + 1..];
      DivNonneg(g, divs[i]);
      coords := coords + [g % divs[i]];
      g := g / divs[i];
    }
  }

  method CoordsToGid(coords: seq<int>, divs: seq<nat>) returns (gid: int)
    requires |coords| == |divs|
    ensures gid == Gid(coords, divs)
  {
    gid := 0;
    for i := |coords| downto 0
      invariant gid == Gid(coords[i..], divs[i..])
    {
      assert coords[i..][1..] == coords[i + 1..] && divs[i..][1..] == divs[i + 1..];
      gid := gid * divs[i];
      gid := gid + coords[i];
    }
  }
}
