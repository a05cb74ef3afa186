/** The global invariant of the kd-tree's links: within each class of blocks that share their remaining
    digits, links are exactly the adjacency of the tiling, with opposite directions at the two ends. */
module KdAdjacency {
  import opened Coordinates
  import opened Factoring
  import opened Groups
  import opened Schedules
  import opened KdGeometry
  import opened KdLinks

  /** The core and the link of every block. */
  datatype Forest = Forest(cores: seq<Box>, links: seq<seq<Entry>>)

  ghost predicate Shape(p: Partners, f: Forest, dims: nat) {
    && |f.cores| == |f.links| == Volume(p.divs)
    && forall a :: 0 <= a < |f.cores| ==> Proper(f.cores[a], dims)
  }

  /** Blocks that agree on the first r digits still stand for the same node of the tree. */
  ghost predicate SameCores(p: Partners, f: Forest, r: nat)
    requires p.Valid() && r <= p.Rounds() && |f.cores| == Volume(p.divs)
  {
    forall a, b :: p.Block(a) && p.Block(b) && AgreeBelow(p, r, a, b) ==> f.cores[a] == f.cores[b]
  }

  /** A link entry names another block of the class, knows its true bounds, and its direction, along one
      dimension, tells which faces coincide. */
  ghost predicate EntryOk(p: Partners, f: Forest, r: nat, dims: nat, a: int, e: Entry)
    requires p.Valid() && Shape(p, f, dims) && p.Block(a)
  {
    && p.Block(e.gid) && e.gid != a && AgreeFrom(p, r, e.gid, a)
    && e.bounds == f.cores[e.gid] && |e.dir| == dims
    && Touch(f.cores[a], f.cores[e.gid])
    && OneWay(e.dir) && Faces(e.dir, f.cores[a], f.cores[e.gid], dims)
  }

  /** A step of one along a single dimension. */
  ghost predicate StepAlong(dir: Dir, d: int) {
    0 <= d < |dir| && (dir[d] == 1 || dir[d] == -1) && forall k :: 0 <= k < |dir| && k != d ==> dir[k] == 0
  }

  ghost predicate OneWay(dir: Dir) {
    exists d :: StepAlong(dir, d)
  }

  ghost predicate Faces(dir: Dir, a: Box, b: Box, dims: nat)
    requires |dir| == |a.min| == |a.max| == |b.min| == |b.max| == dims
  {
    forall d :: 0 <= d < dims ==> (dir[d] < 0 ==> b.max[d] == a.min[d]) && (dir[d] > 0 ==> b.min[d] == a.max[d])
  }

  ghost predicate HasEntry(link: seq<Entry>, gid: int, dir: Dir) {
    exists e :: e in link && e.gid == gid && e.dir == dir
  }

  ghost predicate Names(link: seq<Entry>, gid: int) {
    exists e :: e in link && e.gid == gid
  }

  ghost predicate LinksOk(p: Partners, f: Forest, r: nat, dims: nat)
    requires p.Valid() && Shape(p, f, dims)
  {
    && (forall a, e :: p.Block(a) && e in f.links[a] ==> EntryOk(p, f, r, dims, a, e))
    && (forall a :: p.Block(a) ==> DistinctGids(f.links[a]))
  }

  /** Every other block of the class whose closed box touches is named. */
  ghost predicate Complete(p: Partners, f: Forest, r: nat, dims: nat)
    requires p.Valid() && Shape(p, f, dims)
  {
    forall a, b :: p.Block(a) && p.Block(b) && a != b && AgreeFrom(p, r, b, a) && Touch(f.cores[a], f.cores[b])
      ==> Names(f.links[a], b)
  }

  /** Directions depend on the two tree nodes only, not on the class. */
  ghost predicate NodeDirections(p: Partners, f: Forest, r: nat)
    requires p.Valid() && r <= p.Rounds() && |f.links| == Volume(p.divs)
  {
    forall a, b, e, e' :: p.Block(a) && p.Block(b) && e in f.links[a] && e' in f.links[b] ==>
        SameDirection(p, r, a, b, e, e')
  }

  ghost predicate SameDirection(p: Partners, r: nat, a: int, b: int, e: Entry, e': Entry)
    requires p.Valid() && r <= p.Rounds() && p.Block(a) && p.Block(b)
  {
    p.Block(e.gid) && p.Block(e'.gid) && AgreeBelow(p, r, a, b) && AgreeBelow(p, r, e.gid, e'.gid) ==> e.dir == e'.dir
  }

  /** Links are symmetric with opposite directions. */
  ghost predicate Symmetric(p: Partners, f: Forest)
    requires p.Valid() && |f.links| == Volume(p.divs)
  {
    forall a, e :: p.Block(a) && e in f.links[a] ==> p.Block(e.gid) && HasEntry(f.links[e.gid], a, Neg(e.dir))
  }

  ghost predicate Inv(p: Partners, f: Forest, r: nat, dims: nat)
    requires p.Valid() && r <= p.Rounds()
  {
    && Shape(p, f, dims) && SameCores(p, f, r) && LinksOk(p, f, r, dims)
    && Complete(p, f, r, dims) && NodeDirections(p, f, r) && Symmetric(p, f)
  }

  // ---------- one outer iteration ----------

  /** The splits of an iteration: one per node, strictly inside its box. */
  ghost predicate SplitsOk(p: Partners, f: Forest, r: nat, dim: nat, dims: nat, splits: seq<real>)
    requires p.Valid() && r <= p.Rounds() && Shape(p, f, dims) && dim < dims
  {
    && |splits| == Volume(p.divs)
    && (forall a, b :: p.Block(a) && p.Block(b) && AgreeBelow(p, r, a, b) ==> splits[a] == splits[b])
    && (forall a :: p.Block(a) ==> f.cores[a].min[dim] < splits[a] < f.cores[a].max[dim])
  }

  /** An iteration about to be made: cores and entries are as they should be and the splits are chosen. */
  ghost predicate Ready(p: Partners, f: Forest, r: nat, dim: nat, dims: nat, splits: seq<real>) {
    && Halving(p) && r < p.Rounds() && dim < dims
    && Shape(p, f, dims) && SameCores(p, f, r) && LinksOk(p, f, r, dims) && SplitsOk(p, f, r, dim, dims, splits)
  }

  ghost predicate Lower(p: Partners, r: nat, a: int)
    requires Halving(p) && r < p.Rounds() && p.Block(a)
  {
    Digit(p, r, a) == 0
  }

  /** The half of its box a block keeps. */
  ghost function NewCore(p: Partners, f: Forest, r: nat, dim: nat, dims: nat, splits: seq<real>, a: int): Box
    requires Ready(p, f, r, dim, dims, splits) && p.Block(a)
  {
    Half(f.cores[a], splits[a], dim, Lower(p, r, a))
  }

  /** The splits block a hears from the neighbors in its link. */
  ghost function Heard(p: Partners, f: Forest, r: nat, dim: nat, dims: nat, splits: seq<real>, a: int): seq<real>
    requires Ready(p, f, r, dim, dims, splits) && p.Block(a)
  {
    var link := f.links[a];
    seq(|link|, i requires 0 <= i < |link| => (assert EntryOk(p, f, r, dims, a, link[i]); splits[link[i].gid]))
  }

  ghost function NewLink(p: Partners, f: Forest, r: nat, dim: nat, dims: nat, splits: seq<real>, a: int): seq<Entry>
    requires Ready(p, f, r, dim, dims, splits) && p.Block(a)
  {
    assert forall i :: 0 <= i < |f.links[a]| ==> EntryOk(p, f, r, dims, a, f.links[a][i]);
    KeptAll(f.links[a], Heard(p, f, r, dim, dims, splits, a), NewCore(p, f, r, dim, dims, splits, a),
            Lower(p, r, a), dim, r, p.Rounds(), dims)
      + [DualEntry(p, f, r, dim, dims, splits, a)]
  }

  ghost function DualEntry(p: Partners, f: Forest, r: nat, dim: nat, dims: nat, splits: seq<real>, a: int): Entry
    requires Ready(p, f, r, dim, dims, splits) && p.Block(a)
  {
    Dual(a, NewCore(p, f, r, dim, dims, splits, a), f.cores[a], Lower(p, r, a), dim, r, p.Rounds(), dims)
  }

  ghost function KeptOf(p: Partners, f: Forest, r: nat, dim: nat, dims: nat, splits: seq<real>, a: int,
          e: Entry): seq<Entry>
    requires Ready(p, f, r, dim, dims, splits) && p.Block(a) && e in f.links[a]
  {
    assert EntryOk(p, f, r, dims, a, e);
    Kept(e, splits[e.gid], NewCore(p, f, r, dim, dims, splits, a), Lower(p, r, a), dim, r, p.Rounds())
  }

  lemma {:induction false} KeptAllMembers(link: seq<Entry>, splits: seq<real>, core: Box, lower: bool,
                                          dim: nat, round: nat, rounds: nat, dims: nat, x: Entry)
    requires |splits| == |link| && Shaped(link, dims) && round < rounds && dim < dims
    requires |core.min| == |core.max| == dims
    ensures x in KeptAll(link, splits, core, lower, dim, round, rounds, dims)
       <==> exists i :: 0 <= i < |link| && x in Kept(link[i], splits[i], core, lower, dim, round, rounds)
  {
    if link != [] {
      var n := |link| - 1;
      KeptAllMembers(link[..n], splits[..n], core, lower, dim, round, rounds, dims, x);
    }
  }

  lemma KeptOfIndex(p: Partners, f: Forest, r: nat, dim: nat, dims: nat, splits: seq<real>, a: int, i: nat)
    requires Ready(p, f, r, dim, dims, splits) && p.Block(a) && i < |f.links[a]|
    ensures f.links[a][i].gid >= 0 && Shaped(f.links[a], dims)
    ensures KeptOf(p, f, r, dim, dims, splits, a, f.links[a][i])
         == Kept(f.links[a][i], Heard(p, f, r, dim, dims, splits, a)[i], NewCore(p, f, r, dim, dims, splits, a),
             Lower(p, r, a), dim, r, p.Rounds())
  {
    assert forall j :: 0 <= j < |f.links[a]| ==> EntryOk(p, f, r, dims, a, f.links[a][j]);
  }

  /** The entries of a new link: the one for the sibling, and what the old entries became. */
  lemma NewLinkOrigin(p: Partners, f: Forest, r: nat, dim: nat, dims: nat, splits: seq<real>, a: int, x: Entry)
    returns (e: Entry)
    requires Ready(p, f, r, dim, dims, splits) && p.Block(a) && x in NewLink(p, f, r, dim, dims, splits, a)
    ensures x == DualEntry(p, f, r, dim, dims, splits, a)
        || (e in f.links[a] && x in KeptOf(p, f, r, dim, dims, splits, a, e))
  {
    var link, heard := f.links[a], Heard(p, f, r, dim, dims, splits, a);
    assert forall i :: 0 <= i < |link| ==> EntryOk(p, f, r, dims, a, link[i]);
    KeptAllMembers(link, heard, NewCore(p, f, r, dim, dims, splits, a), Lower(p, r, a), dim, r, p.Rounds(), dims, x);
    e := x;
    if x != DualEntry(p, f, r, dim, dims, splits, a) {
      var i :| 0 <= i < |link| && x in Kept(link[i], heard[i], NewCore(p, f, r, dim, dims, splits, a),
          Lower(p, r, a), dim, r, p.Rounds());
      KeptOfIndex(p, f, r, dim, dims, splits, a, i);
      e := link[i];
    }
  }

  lemma NewLinkContains(p: Partners, f: Forest, r: nat, dim: nat, dims: nat, splits: seq<real>, a: int, e: Entry,
          x: Entry)
    requires Ready(p, f, r, dim, dims, splits) && p.Block(a) && e in f.links[a]
        && x in KeptOf(p, f, r, dim, dims, splits, a, e)
    ensures x in NewLink(p, f, r, dim, dims, splits, a)
  {
    var link, heard := f.links[a], Heard(p, f, r, dim, dims, splits, a);
    var i :| 0 <= i < |link| && link[i] == e;
    KeptOfIndex(p, f, r, dim, dims, splits, a, i);
    KeptAllMembers(link, heard, NewCore(p, f, r, dim, dims, splits, a), Lower(p, r, a), dim, r, p.Rounds(), dims, x);
  }

  // ---------- which old block a new neighbor was part of ----------

  /** b as its class-mate of the old, larger class: b with a's digit of round r. */
  ghost function OldSelf(p: Partners, r: nat, a: int, b: int): int
    requires Halving(p) && r < p.Rounds() && p.Block(a) && p.Block(b)
  {
    DivideGid(b, Lower(p, r, a), r, p.Rounds())
  }

  lemma OldSelfSpec(p: Partners, r: nat, a: int, b: int)
    requires Halving(p) && r < p.Rounds() && p.Block(a) && p.Block(b)
    ensures p.Block(OldSelf(p, r, a, b)) && AgreeBelow(p, r, OldSelf(p, r, a, b), b)
    ensures AgreeFrom(p, r + 1, b, a) ==> AgreeFrom(p, r, OldSelf(p, r, a, b), a)
    ensures forall e :: p.Block(e) && AgreeFrom(p, r, e, a) && AgreeBelow(p, r, e, b) && AgreeFrom(p, r + 1, b, a) ==>
              e == OldSelf(p, r, a, b)
  {
    DivideSpec(p, b, Lower(p, r, a), r);
    DigitRange(p, r, a);
    var c := OldSelf(p, r, a, b);
    if AgreeFrom(p, r + 1, b, a) {
      forall t | r <= t < p.Rounds() ensures Digit(p, t, c) == Digit(p, t, a) {
        if t > r { assert Digit(p, t, b) == Digit(p, t, a); }
      }
      forall e | p.Block(e) && AgreeFrom(p, r, e, a) && AgreeBelow(p, r, e, b) ensures e == c {
        forall t | 0 <= t < p.Rounds() ensures Digit(p, t, e) == Digit(p, t, c) {
          if t < r {
            assert Digit(p, t, e) == Digit(p, t, b);
          } else {
            assert Digit(p, t, e) == Digit(p, t, a) && Digit(p, t, c) == Digit(p, t, a);
          }
        }
        DigitsIdentify(p, e, c);
      }
    }
  }

  /** The sibling of a: the block that keeps the other half of a's box. */
  ghost function Sibling(p: Partners, r: nat, a: int): int
    requires Halving(p) && r < p.Rounds() && p.Block(a)
  {
    DivideGid(a, !Lower(p, r, a), r, p.Rounds())
  }

  lemma SiblingSpec(p: Partners, r: nat, a: int)
    requires Halving(p) && r < p.Rounds() && p.Block(a)
    ensures var s := Sibling(p, r, a);
            && p.Block(s) && s != a && AgreeFrom(p, r + 1, s, a) && AgreeBelow(p, r, s, a)
            && (Lower(p, r, s) <==> !Lower(p, r, a))
    ensures forall b :: p.Block(b) && b != a && AgreeFrom(p, r + 1, b, a) && AgreeBelow(p, r, b, a) ==>
        b == Sibling(p, r, a)
  {
    DivideSpec(p, a, !Lower(p, r, a), r);
    DigitRange(p, r, a);
    var s := Sibling(p, r, a);
    forall b | p.Block(b) && b != a && AgreeFrom(p, r + 1, b, a) && AgreeBelow(p, r, b, a) ensures b == s {
      DigitRange(p, r, b);
      if Digit(p, r, b) == Digit(p, r, a) {
        assert forall t :: 0 <= t < p.Rounds() ==> Digit(p, t, b) == Digit(p, t, a);
        DigitsIdentify(p, b, a);
      } else {
        forall t | 0 <= t < p.Rounds() ensures Digit(p, t, b) == Digit(p, t, s) {
        }
        DigitsIdentify(p, b, s);
      }
    }
  }

  // ---------- entries of the new link ----------

  /** The entry an old entry e becomes for the new block b. */
  ghost function Derived(p: Partners, f: Forest, r: nat, dim: nat, dims: nat, splits: seq<real>, b: int,
          e: Entry): Entry
    requires Ready(p, f, r, dim, dims, splits) && p.Block(b)
  {
    Entry(b, e.dir, NewCore(p, f, r, dim, dims, splits, b))
  }

  /** An old entry only turns into entries for the two halves of its block, with their true new bounds. */
  lemma KeptOnly(p: Partners, f: Forest, r: nat, dim: nat, dims: nat, splits: seq<real>, a: int, e: Entry, x: Entry)
    requires Ready(p, f, r, dim, dims, splits) && p.Block(a) && e in f.links[a]
    requires x in KeptOf(p, f, r, dim, dims, splits, a, e)
    ensures p.Block(x.gid) && AgreeFrom(p, r + 1, x.gid, a) && OldSelf(p, r, a, x.gid) == e.gid
    ensures AgreeBelow(p, r, x.gid, e.gid)
    ensures x == Derived(p, f, r, dim, dims, splits, x.gid, e)
  {
    assert EntryOk(p, f, r, dims, a, e);
    var low: bool :| x == Entry(DivideGid(e.gid, low, r, p.Rounds()), e.dir, Half(e.bounds, splits[e.gid], dim, low));
    DivideSpec(p, e.gid, low, r);
    forall t | r + 1 <= t < p.Rounds() ensures Digit(p, t, x.gid) == Digit(p, t, a) {
      assert Digit(p, t, e.gid) == Digit(p, t, a);
    }
    OldSelfSpec(p, r, a, x.gid);
    assert AgreeBelow(p, r, e.gid, x.gid);
    assert f.cores[e.gid] == f.cores[x.gid] && splits[e.gid] == splits[x.gid];
  }

  /** Old and new boxes: the faces along the split dimension move inwards, the others stay. */
  lemma NewCoreSpec(p: Partners, f: Forest, r: nat, dim: nat, dims: nat, splits: seq<real>, a: int)
    requires Ready(p, f, r, dim, dims, splits) && p.Block(a)
    ensures var n, c := NewCore(p, f, r, dim, dims, splits, a), f.cores[a];
            && Proper(n, dims) && Proper(c, dims)
            && (forall d :: 0 <= d < dims && d != dim ==> n.min[d] == c.min[d] && n.max[d] == c.max[d])
            && c.min[dim] < splits[a] < c.max[dim]
            && (if Lower(p, r, a) then n.min[dim] == c.min[dim] && n.max[dim] == splits[a]
                else n.min[dim] == splits[a] && n.max[dim] == c.max[dim])
  {
    assert Proper(f.cores[a], dims);
  }

  /** Among the halves of a neighbor, exactly those that still touch are kept. */
  lemma KeptIffTouch(p: Partners, f: Forest, r: nat, dim: nat, dims: nat, splits: seq<real>, a: int, b: int, e: Entry)
    requires Ready(p, f, r, dim, dims, splits) && p.Block(a) && p.Block(b) && e in f.links[a]
    requires AgreeFrom(p, r + 1, b, a) && e.gid == OldSelf(p, r, a, b)
    ensures var n, m := NewCore(p, f, r, dim, dims, splits, a), NewCore(p, f, r, dim, dims, splits, b);
            && |n.min| == |n.max| == |m.min| == |m.max| == dims
            && (Derived(p, f, r, dim, dims, splits, b, e) in KeptOf(p, f, r, dim, dims, splits, a, e) <==> Touch(n, m))
            && (Touch(n, m) ==> |e.dir| == dims && Faces(e.dir, n, m, dims))
  {
    assert EntryOk(p, f, r, dims, a, e);
    OldSelfSpec(p, r, a, b);
    assert f.cores[e.gid] == f.cores[b] && splits[e.gid] == splits[b];
    NewCoreSpec(p, f, r, dim, dims, splits, a);
    NewCoreSpec(p, f, r, dim, dims, splits, b);
    HalfOf(p, r, a, b, e.gid);
    var n, m := NewCore(p, f, r, dim, dims, splits, a), NewCore(p, f, r, dim, dims, splits, b);
    assert Touch(n, m) <==> n.min[dim] <= m.max[dim] && m.min[dim] <= n.max[dim] by {
      assert forall d :: 0 <= d < dims && d != dim ==> n.min[d] <= m.max[d] && m.min[d] <= n.max[d];
    }
    var x := Derived(p, f, r, dim, dims, splits, b, e);
    var low := Lower(p, r, b);
    assert x == Entry(DivideGid(e.gid, low, r, p.Rounds()), e.dir, Half(e.bounds, splits[e.gid], dim, low));
    KeptMember(e, splits[e.gid], n, Lower(p, r, a), low, dim, r, p.Rounds(), x);
  }

  lemma HalfOf(p: Partners, r: nat, a: int, b: int, c: int)
    requires Halving(p) && r < p.Rounds() && p.Block(a) && p.Block(b) && c == OldSelf(p, r, a, b)
    ensures p.Block(c) && DivideGid(c, Lower(p, r, b), r, p.Rounds()) == b
    ensures DivideGid(c, !Lower(p, r, b), r, p.Rounds()) != b
  {
    OldSelfSpec(p, r, a, b);
    DivideSpec(p, b, Lower(p, r, a), r);
    DivideSpec(p, c, Lower(p, r, b), r);
    DivideSpec(p, c, !Lower(p, r, b), r);
    DigitRange(p, r, b);
    DigitsIdentify(p, DivideGid(c, Lower(p, r, b), r, p.Rounds()), b);
  }

  /** When the entry for one half of e's block is kept. */
  lemma KeptMember(e: Entry, split: real, core: Box, lower: bool, low: bool, dim: nat, round: nat, rounds: nat,
          x: Entry)
    requires e.gid >= 0 && round < rounds
    requires dim < |e.dir| && dim < |e.bounds.min| && dim < |e.bounds.max| && dim < |core.min| && dim < |core.max|
    requires x == Entry(DivideGid(e.gid, low, round, rounds), e.dir, Half(e.bounds, split, dim, low))
    requires DivideGid(e.gid, low, round, rounds) != DivideGid(e.gid, !low, round, rounds)
    ensures x in Kept(e, split, core, lower, dim, round, rounds) <==>
              if e.dir[dim] != 0 then ((e.dir[dim] < 0 && lower) || (e.dir[dim] > 0 && !lower)) && low == !lower
              else Intersects(Half(e.bounds, split, dim, low), core, dim)
  {
  }
}
