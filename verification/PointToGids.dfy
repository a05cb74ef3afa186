/** point_to_gids: from per-axis ranges to the list of all blocks whose ghosted bounds hold a point. */
module PointToGids {
  import opened Arith
  import opened Coordinates
  import opened GridAxis

  // ---------- the odometer ----------

  /** All digits in range, the last one possibly one past its end. */
  ghost predicate Turning(location: seq<int>, sizes: seq<nat>) {
    && |location| == |sizes| > 0
    && (forall i :: 0 <= i < |sizes| - 1 ==> 0 <= location[i] < sizes[i])
    && 0 <= location[|sizes| - 1] <= sizes[|sizes| - 1]
  }

  lemma GidBump(l: seq<int>, sizes: seq<nat>)
    requires |l| == |sizes| > 0
    ensures Gid(l[0 := l[0] + 1], sizes) == Gid(l, sizes) + 1
  {
    assert l[0 := l[0] + 1][1..] == l[1..];
  }

  /** A carry does not change the number the digits stand for. */
  lemma {:induction false} GidCarry(l: seq<int>, sizes: seq<nat>, i: nat)
    requires |l| == |sizes| && i + 1 < |l| && l[i] == sizes[i]
    ensures Gid(l[i := 0][i + 1 := l[i + 1] + 1], sizes) == Gid(l, sizes)
    decreases i
  {
    var m := l[i := 0][i + 1 := l[i + 1] + 1];
    if i == 0 {
      assert m[1..] == l[1..][0 := l[1..][0] + 1];
      GidBump(l[1..], sizes[1..]);
      var g := Gid(l[1..], sizes[1..]);
      assert sizes[0] * (g + 1) == sizes[0] * g + sizes[0];
    } else {
      assert m[1..] == l[1..][i - 1 := 0][i := l[1..][i] + 1];
      GidCarry(l[1..], sizes[1..], i - 1);
    }
  }

  /** The odometer's turn: the next number. */
  method Turn(location: seq<int>, sizes: seq<nat>) returns (next: seq<int>)
    requires Positive(sizes) && InRange(location, sizes) && |sizes| > 0
    ensures Turning(next, sizes) && Gid(next, sizes) == Gid(location, sizes) + 1
  {
    GidBump(location, sizes);
    next := location[0 := location[0] + 1];
    var i := 0;
    while i < |sizes| - 1 && next[i] == sizes[i]
      invariant 0 <= i < |sizes| && |next| == |sizes|
      invariant forall k :: 0 <= k < |sizes| && k != i ==> 0 <= next[k] < sizes[k]
      invariant 0 <= next[i] <= sizes[i]
      invariant Gid(next, sizes) == Gid(location, sizes) + 1
    {
      GidCarry(next, sizes, i);
      next := next[i := 0];
      i := i + 1;
      next := next[i := next[i] + 1];
    }
  }

  /** When the last digit is past its end, all numbers have been gone through. */
  lemma {:induction false} AtEnd(location: seq<int>, sizes: seq<nat>)
    requires Turning(location, sizes) && location[|sizes| - 1] == sizes[|sizes| - 1]
    ensures Gid(location, sizes) >= Volume(sizes)
    decreases |sizes|
  {
    if |sizes| == 1 {
      assert Gid(location[1..], sizes[1..]) == 0 && Volume(sizes[1..]) == 1;
    } else {
      AtEnd(location[1..], sizes[1..]);
      var g, v := Gid(location[1..], sizes[1..]), Volume(sizes[1..]);
      MulMono(v, g, sizes[0]);
      assert sizes[0] * g == g * sizes[0] && sizes[0] * v == v * sizes[0];
    }
  }

  lemma {:induction false} ZeroGid(location: seq<int>, sizes: seq<nat>)
    requires |location| == |sizes| && forall i :: 0 <= i < |location| ==> location[i] == 0
    ensures Gid(location, sizes) == 0
    decreases |sizes|
  {
    if sizes != [] { ZeroGid(location[1..], sizes[1..]); }
  }

  // ---------- all combinations ----------

  function Divisions(axes: seq<Axis>): seq<nat> {
    seq(|axes|, i requires 0 <= i < |axes| => axes[i].n)
  }

  ghost predicate ValidAxes(axes: seq<Axis>) {
    |axes| > 0 && forall i :: 0 <= i < |axes| ==> axes[i].Valid()
  }

  /** The point lies, on every axis, within the block's ghosted bounds. */
  ghost predicate HeldBy(axes: seq<Axis>, coords: seq<int>, p: seq<int>)
    requires ValidAxes(axes) && |coords| == |p| == |axes|
  {
    forall i :: 0 <= i < |axes| ==> Holds(axes[i], coords[i], p[i])
  }

  ghost predicate RangesOk(axes: seq<Axis>, p: seq<int>, bottoms: seq<int>, sizes: seq<nat>)
    requires ValidAxes(axes)
  {
    && |p| == |bottoms| == |sizes| == |axes|
    && forall i :: 0 <= i < |axes| ==> sizes[i] > 0 && RangeOk(axes[i], p[i], bottoms[i], bottoms[i] + sizes[i])
  }

  function PlaceAll(axes: seq<Axis>, bottoms: seq<int>, location: seq<int>): seq<int>
    requires |bottoms| == |location| == |axes| && forall i :: 0 <= i < |axes| ==> axes[i].n > 0
  {
    seq(|axes|, i requires 0 <= i < |axes| => Place(axes[i], bottoms[i] + location[i]))
  }

  lemma PlaceInRange(axes: seq<Axis>, p: seq<int>, bottoms: seq<int>, sizes: seq<nat>, location: seq<int>)
    requires ValidAxes(axes) && RangesOk(axes, p, bottoms, sizes) && InRange(location, sizes)
    ensures InRange(PlaceAll(axes, bottoms, location), Divisions(axes)) && Positive(Divisions(axes))
    ensures HeldBy(axes, PlaceAll(axes, bottoms, location), p)
  {
    forall i | 0 <= i < |axes|
      ensures 0 <= Place(axes[i], bottoms[i] + location[i]) < axes[i].n
      ensures Holds(axes[i], Place(axes[i], bottoms[i] + location[i]), p[i])
    {
      PlaceHolds(axes[i], p[i], bottoms[i], bottoms[i] + sizes[i], bottoms[i] + location[i]);
    }
  }

  lemma PlaceHolds(a: Axis, x: int, bottom: int, top: int, j: int)
    requires a.Valid() && RangeOk(a, x, bottom, top) && bottom <= j < top
    ensures 0 <= Place(a, j) < a.n && Holds(a, Place(a, j), x)
  {
    assert Ranged(a, bottom, top, Place(a, j));
  }

  /** The gid that combination number k stands for. */
  ghost function ComboGid(axes: seq<Axis>, bottoms: seq<int>, sizes: seq<nat>, k: nat): int
    requires |bottoms| == |sizes| == |axes| && Positive(sizes) && forall i :: 0 <= i < |axes| ==> axes[i].n > 0
  {
    Gid(PlaceAll(axes, bottoms, Coords(k, sizes)), Divisions(axes))
  }

  lemma ComboHeld(axes: seq<Axis>, p: seq<int>, bottoms: seq<int>, sizes: seq<nat>, k: nat)
    requires ValidAxes(axes) && RangesOk(axes, p, bottoms, sizes) && k < Volume(sizes)
    ensures Positive(sizes) && Positive(Divisions(axes))
        && 0 <= ComboGid(axes, bottoms, sizes, k) < Volume(Divisions(axes))
    ensures Coords(ComboGid(axes, bottoms, sizes, k), Divisions(axes)) == PlaceAll(axes, bottoms, Coords(k, sizes))
    ensures HeldBy(axes, Coords(ComboGid(axes, bottoms, sizes, k), Divisions(axes)), p)
  {
    GidOfCoords(k, sizes);
    PlaceInRange(axes, p, bottoms, sizes, Coords(k, sizes));
    CoordsOfGid(PlaceAll(axes, bottoms, Coords(k, sizes)), Divisions(axes));
  }

  lemma SamePlaces(axes: seq<Axis>, p: seq<int>, bottoms: seq<int>, sizes: seq<nat>, c: seq<int>, d: seq<int>)
    requires ValidAxes(axes) && RangesOk(axes, p, bottoms, sizes) && InRange(c, sizes) && InRange(d, sizes)
    requires PlaceAll(axes, bottoms, c) == PlaceAll(axes, bottoms, d)
    ensures c == d
  {
    forall i | 0 <= i < |axes| ensures c[i] == d[i] {
      assert PlaceAll(axes, bottoms, c)[i] == PlaceAll(axes, bottoms, d)[i];
      SamePlace(axes[i], p[i], bottoms[i], bottoms[i] + sizes[i], bottoms[i] + c[i], bottoms[i] + d[i]);
    }
  }

  /** Different combinations are different blocks. */
  lemma CombosDiffer(axes: seq<Axis>, p: seq<int>, bottoms: seq<int>, sizes: seq<nat>, j: nat, k: nat)
    requires ValidAxes(axes) && RangesOk(axes, p, bottoms, sizes) && j < k < Volume(sizes)
    ensures Positive(sizes) && ComboGid(axes, bottoms, sizes, j) != ComboGid(axes, bottoms, sizes, k)
  {
    ComboHeld(axes, p, bottoms, sizes, j);
    ComboHeld(axes, p, bottoms, sizes, k);
    GidOfCoords(j, sizes);
    GidOfCoords(k, sizes);
    if ComboGid(axes, bottoms, sizes, j) == ComboGid(axes, bottoms, sizes, k) {
      SamePlaces(axes, p, bottoms, sizes, Coords(j, sizes), Coords(k, sizes));
    }
  }

  lemma SamePlace(a: Axis, x: int, bottom: int, top: int, i: int, j: int)
    requires a.Valid() && RangeOk(a, x, bottom, top) && bottom <= i < top && bottom <= j < top
        && Place(a, i) == Place(a, j)
    ensures i == j
  {
    if i < j { PlacesDiffer(a, x, bottom, top, i, j); }
    if j < i { PlacesDiffer(a, x, bottom, top, j, i); }
  }

  ghost function LocationOf(axes: seq<Axis>, p: seq<int>, bottoms: seq<int>, sizes: seq<nat>,
          coords: seq<int>): seq<int>
    requires ValidAxes(axes) && RangesOk(axes, p, bottoms, sizes) && InRange(coords, Divisions(axes))
        && HeldBy(axes, coords, p)
  {
    seq(|axes|, i requires 0 <= i < |axes| => Offset(axes[i], p[i], bottoms[i], bottoms[i] + sizes[i], coords[i]))
  }

  ghost function Offset(a: Axis, x: int, bottom: int, top: int, c: int): (o: int)
    requires a.Valid() && RangeOk(a, x, bottom, top) && 0 <= c < a.n && Holds(a, c, x)
    ensures 0 <= o < top - bottom && Place(a, bottom + o) == c
  {
    assert Ranged(a, bottom, top, c);
    var j :| bottom <= j < top && Place(a, j) == c;
    j - bottom
  }

  /** Every block that holds the point is some combination. */
  lemma ComboFor(axes: seq<Axis>, p: seq<int>, bottoms: seq<int>, sizes: seq<nat>, gid: nat) returns (k: nat)
    requires ValidAxes(axes) && RangesOk(axes, p, bottoms, sizes) && Positive(Divisions(axes))
        && gid < Volume(Divisions(axes))
    requires HeldBy(axes, Coords(gid, Divisions(axes)), p)
    ensures Positive(sizes) && k < Volume(sizes) && ComboGid(axes, bottoms, sizes, k) == gid
  {
    GidOfCoords(gid, Divisions(axes));
    var coords := Coords(gid, Divisions(axes));
    var location := LocationOf(axes, p, bottoms, sizes, coords);
    assert InRange(location, sizes);
    CoordsOfGid(location, sizes);
    k := Gid(location, sizes);
    assert PlaceAll(axes, bottoms, location) == coords;
  }

  // ---------- the method ----------

  /** The gids are, each once, the blocks that hold the point. */
  ghost predicate Exactly(axes: seq<Axis>, p: seq<int>, gids: seq<int>)
    requires ValidAxes(axes) && |p| == |axes| && Positive(Divisions(axes))
  {
    && (forall i, j :: 0 <= i < j < |gids| ==> gids[i] != gids[j])
    && (forall i :: 0 <= i < |gids| ==> 0 <= gids[i] < Volume(Divisions(axes)))
    && forall gid: nat :: gid < Volume(Divisions(axes)) ==>
        (gid in gids <==> HeldBy(axes, Coords(gid, Divisions(axes)), p))
  }

  lemma CombosAreExact(axes: seq<Axis>, p: seq<int>, bottoms: seq<int>, sizes: seq<nat>, gids: seq<int>)
    requires ValidAxes(axes) && RangesOk(axes, p, bottoms, sizes) && Positive(sizes) && Positive(Divisions(axes))
    requires |gids| == Volume(sizes) && forall k :: 0 <= k < |gids| ==> gids[k] == ComboGid(axes, bottoms, sizes, k)
    ensures Exactly(axes, p, gids)
  {
    forall i, j | 0 <= i < j < |gids| ensures gids[i] != gids[j] {
      CombosDiffer(axes, p, bottoms, sizes, i, j);
    }
    forall i | 0 <= i < |gids| ensures 0 <= gids[i] < Volume(Divisions(axes)) {
      ComboHeld(axes, p, bottoms, sizes, i);
    }
    forall gid: nat | gid < Volume(Divisions(axes))
      ensures gid in gids <==> HeldBy(axes, Coords(gid, Divisions(axes)), p)
    {
      if gid in gids {
        var k :| 0 <= k < |gids| && gids[k] == gid;
        ComboHeld(axes, p, bottoms, sizes, k);
      }
      if HeldBy(axes, Coords(gid, Divisions(axes)), p) {
        var k := ComboFor(axes, p, bottoms, sizes, gid);
        assert gids[k] == gid;
      }
    }
  }

  method PlaceLocation(axes: seq<Axis>, bottoms: seq<int>, location: seq<int>) returns (coords: seq<int>)
    requires |bottoms| == |location| == |axes| && forall i :: 0 <= i < |axes| ==> axes[i].n > 0
    ensures coords == PlaceAll(axes, bottoms, location)
  {
    coords := [];
    for i := 0 to |axes|
      invariant coords == PlaceAll(axes, bottoms, location)[..i]
    {
      var c := bottoms[i] + location[i];
      if axes[i].wrap {
        c := NormalizeCoord(c, axes[i].n);
      }
      coords := coords + [c];
    }
  }

  method Ranges(axes: seq<Axis>, p: seq<int>) returns (empty: bool, bottoms: seq<int>, sizes: seq<nat>)
    requires ValidAxes(axes) && |p| == |axes| && Positive(Divisions(axes))
    ensures empty ==> Exactly(axes, p, [])
    ensures !empty ==> RangesOk(axes, p, bottoms, sizes) && Positive(sizes)
  {
    bottoms, sizes := [], [];
    for i := 0 to |axes|
      invariant |bottoms| == |sizes| == i
      invariant forall k :: 0 <= k < i ==> sizes[k] > 0 && RangeOk(axes[k], p[k], bottoms[k], bottoms[k] + sizes[k])
    {
      var top, bottom := TopBottom(axes[i], p[i]);
      if top <= bottom {
        NobodyHolds(axes, p, i, bottom, top);
        return true, bottoms, sizes;
      }
      bottoms := bottoms + [bottom];
      sizes := sizes + [top - bottom];
    }
    empty := false;
  }

  lemma NobodyHolds(axes: seq<Axis>, p: seq<int>, i: nat, bottom: int, top: int)
    requires ValidAxes(axes) && |p| == |axes| && Positive(Divisions(axes)) && i < |axes|
    requires RangeOk(axes[i], p[i], bottom, top) && top <= bottom
    ensures Exactly(axes, p, [])
  {
    forall gid: nat | gid < Volume(Divisions(axes)) ensures !HeldBy(axes, Coords(gid, Divisions(axes)), p) {
      GidOfCoords(gid, Divisions(axes));
      var c := Coords(gid, Divisions(axes))[i];
      assert !Ranged(axes[i], bottom, top, c);
      assert !Holds(axes[i], c, p[i]);
    }
  }

  /** point_to_gids, for any dimension, ghosts, shared faces and periodic axes. */
  method GidsOfPoint(axes: seq<Axis>, p: seq<int>) returns (gids: seq<int>)
    requires ValidAxes(axes) && |p| == |axes|
    ensures Positive(Divisions(axes)) && Exactly(axes, p, gids)
  {
    gids := [];
    var empty, bottoms, sizes := Ranges(axes, p);
    if empty {
      return;
    }
    gids := Combine(axes, bottoms, sizes);
    CombosAreExact(axes, p, bottoms, sizes, gids);
  }

  method Combine(axes: seq<Axis>, bottoms: seq<int>, sizes: seq<nat>) returns (gids: seq<int>)
    requires |bottoms| == |sizes| == |axes| > 0 && Positive(sizes) && forall i :: 0 <= i < |axes| ==> axes[i].n > 0
    ensures |gids| == Volume(sizes) && forall k :: 0 <= k < |gids| ==> gids[k] == ComboGid(axes, bottoms, sizes, k)
  {
    gids := [];
    var location: seq<int> := seq(|axes|, _ => 0);
    ZeroGid(location, sizes);
    CoordsOfGid(location, sizes);
    while location[|axes| - 1] < sizes[|axes| - 1]
      invariant Turning(location, sizes) && Gid(location, sizes) == |gids| <= Volume(sizes)
      invariant forall k :: 0 <= k < |gids| ==> gids[k] == ComboGid(axes, bottoms, sizes, k)
      decreases Volume(sizes) - |gids|
    {
      CoordsOfGid(location, sizes);
      var coords := PlaceLocation(axes, bottoms, location);
      var gid := CoordsToGid(coords, Divisions(axes));
      gids := gids + [gid];
      location := Turn(location, sizes);
    }
    AtEnd(location, sizes);
  }

  // ---------- one owner ----------

  /** Along the axis, x lies in block i without ghosts. */
  ghost predicate InCore(a: Axis, i: int, x: int)
    requires a.n > 0
  {
    a.From(i) <= x <= a.To(i)
  }

  /** Where a point counts: moved into the domain on a periodic axis. */
  function Moved(a: Axis, x: int): int
    requires a.Valid()
  {
    if a.wrap then a.min + (x - a.min) % a.Period() else x
  }

  lemma LowerIsOwner(a: Axis, x: int)
    requires a.Valid() && a.min <= x <= a.max
    ensures 0 <= LowerIndex(a, x) < a.n && InCore(a, LowerIndex(a, x), x)
    ensures forall j :: 0 <= j < LowerIndex(a, x) ==> !InCore(a, j, x)
  {
    LowerSpec(a, x, 0);
    var i := LowerIndex(a, x);
    LowerSpec(a, x, i);
    WidthSpec(a);
    if i > 0 {
      LowerSpec(a, x, i - 1);
    }
    forall j | 0 <= j < i ensures !InCore(a, j, x) {
      LowerSpec(a, x, j);
    }
  }

  ghost predicate OutsideDomain(axes: seq<Axis>, p: seq<int>)
    requires |p| == |axes|
  {
    exists i :: 0 <= i < |axes| && !axes[i].wrap && (p[i] < axes[i].min || p[i] > axes[i].max)
  }

  /** The core of block i holds x, and that of no block before it does. */
  ghost predicate Owns(a: Axis, i: int, x: int)
    requires a.Valid()
  {
    && 0 <= i < a.n && InCore(a, i, Moved(a, x)) && (a.wrap || a.min <= x <= a.max)
    && forall j :: 0 <= j < i ==> !InCore(a, j, Moved(a, x))
  }

  method OwnerAlong(a: Axis, p: int) returns (inside: bool, bottom: int)
    requires a.Valid()
    ensures inside <==> a.wrap || a.min <= p <= a.max
    ensures inside ==> Owns(a, bottom, p)
  {
    var x := p;
    if a.wrap {
      x := NormalizeWrap(a, p);
    } else if x < a.min || x > a.max {
      return false, 0;
    }
    LowerIsOwner(a, x);
    bottom := Lower(a, x);
    bottom := if a.n - 1 < bottom then a.n - 1 else bottom;
    bottom := if bottom > 0 then bottom else 0;
    inside := true;
  }

  /** point_to_gid: -1 exactly for points outside the domain, else the first block whose core holds the point. */
  method OwnerOfPoint(axes: seq<Axis>, p: seq<int>) returns (gid: int, ghost coords: seq<int>)
    requires ValidAxes(axes) && |p| == |axes|
    ensures OutsideDomain(axes, p) ==> gid == -1
    ensures !OutsideDomain(axes, p) ==>
              && |coords| == |axes| && gid == Gid(coords, Divisions(axes))
              && forall i :: 0 <= i < |axes| ==> Owns(axes[i], coords[i], p[i])
  {
    gid, coords := 0, [];
    for axis := |axes| downto 0
      invariant |coords| == |axes| - axis && gid == Gid(coords, Divisions(axes)[axis..])
      invariant forall i :: axis <= i < |axes| ==> Owns(axes[i], coords[i - axis], p[i])
    {
      var inside, bottom := OwnerAlong(axes[axis], p[axis]);
      if !inside {
        return -1, coords;
      }
      PrependDigit(bottom, coords, Divisions(axes), axis);
      gid := gid * axes[axis].n;
      gid := gid + bottom;
      coords := [bottom] + coords;
    }
    assert Divisions(axes)[0..] == Divisions(axes);
  }

  lemma PrependDigit(c: int, coords: seq<int>, divs: seq<nat>, axis: nat)
    requires axis < |divs| && |coords| == |divs| - axis - 1
    ensures Gid([c] + coords, divs[axis..]) == Gid(coords, divs[axis + 1..]) * divs[axis] + c
  {
    assert divs[axis..][1..] == divs[axis + 1..] && ([c] + coords)[1..] == coords;
  }
}
