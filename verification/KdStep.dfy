/** One outer iteration of the kd-tree keeps the adjacency invariant, in classes one digit larger. */
module KdStep {
  import opened Coordinates
  import opened Factoring
  import opened Groups
  import opened Schedules
  import opened KdGeometry
  import opened KdLinks
  import opened KdAdjacency

  /** g is f after one iteration. */
  ghost predicate Stepped(p: Partners, f: Forest, r: nat, dim: nat, dims: nat, splits: seq<real>, g: Forest) {
    && Ready(p, f, r, dim, dims, splits)
    && |g.cores| == |g.links| == Volume(p.divs)
    && forall a :: p.Block(a) ==>
         g.cores[a] == NewCore(p, f, r, dim, dims, splits, a) && g.links[a] == NewLink(p, f, r, dim, dims, splits, a)
  }

  // ---------- digits ----------

  lemma AgreeBelowTrans(p: Partners, r: nat, a: int, b: int, c: int)
    requires p.Valid() && r <= p.Rounds() && p.Block(a) && p.Block(b) && p.Block(c)
    requires AgreeBelow(p, r, a, b) && AgreeBelow(p, r, b, c)
    ensures AgreeBelow(p, r, a, c)
  {
    forall t | 0 <= t < r ensures Digit(p, t, a) == Digit(p, t, c) {
      assert Digit(p, t, a) == Digit(p, t, b) && Digit(p, t, b) == Digit(p, t, c);
    }
  }

  lemma AgreeBelowSym(p: Partners, r: nat, a: int, b: int)
    requires p.Valid() && r <= p.Rounds() && p.Block(a) && p.Block(b) && AgreeBelow(p, r, a, b)
    ensures AgreeBelow(p, r, b, a)
  {
  }

  lemma AgreeBelowLess(p: Partners, r: nat, a: int, b: int)
    requires p.Valid() && r < p.Rounds() && p.Block(a) && p.Block(b) && AgreeBelow(p, r + 1, a, b)
    ensures AgreeBelow(p, r, a, b) && Digit(p, r, a) == Digit(p, r, b)
  {
  }

  lemma SameBlock(p: Partners, r: nat, a: int, b: int)
    requires p.Valid() && r <= p.Rounds() && p.Block(a) && p.Block(b) && AgreeBelow(p, r, a, b) && AgreeFrom(p, r, a, b)
    ensures a == b
  {
    forall t | 0 <= t < p.Rounds() ensures Digit(p, t, a) == Digit(p, t, b) {
    }
    DigitsIdentify(p, a, b);
  }

  /** A new class-mate b whose old self is a is a itself or a's sibling. */
  lemma OldSelfIsSelf(p: Partners, r: nat, a: int, b: int)
    requires Halving(p) && r < p.Rounds() && p.Block(a) && p.Block(b) && AgreeFrom(p, r + 1, b, a)
    ensures OldSelf(p, r, a, b) == a <==> b == a || b == Sibling(p, r, a)
  {
    OldSelfSpec(p, r, a, b);
    SiblingSpec(p, r, a);
    if OldSelf(p, r, a, b) == a {
      AgreeBelowSym(p, r, a, b);
    }
  }

  // ---------- cores ----------

  lemma ShapeStep(p: Partners, f: Forest, r: nat, dim: nat, dims: nat, splits: seq<real>, g: Forest)
    requires Stepped(p, f, r, dim, dims, splits, g)
    ensures Shape(p, g, dims)
  {
    forall a | 0 <= a < |g.cores| ensures Proper(g.cores[a], dims) {
      assert p.Block(a);
      NewCoreSpec(p, f, r, dim, dims, splits, a);
    }
  }

  lemma SameCoresStep(p: Partners, f: Forest, r: nat, dim: nat, dims: nat, splits: seq<real>, g: Forest)
    requires Stepped(p, f, r, dim, dims, splits, g)
    ensures SameCores(p, g, r + 1)
  {
    forall a, b | p.Block(a) && p.Block(b) && AgreeBelow(p, r + 1, a, b) ensures g.cores[a] == g.cores[b] {
      AgreeBelowLess(p, r, a, b);
    }
  }

  lemma TouchSym(a: Box, b: Box)
    requires |a.min| == |a.max| == |b.min| == |b.max|
    ensures Touch(a, b) <==> Touch(b, a)
  {
  }

  /** New boxes lie inside the old ones, so touching now means having touched before. */
  lemma TouchBefore(p: Partners, f: Forest, r: nat, dim: nat, dims: nat, splits: seq<real>, a: int, b: int)
    requires Ready(p, f, r, dim, dims, splits) && p.Block(a) && p.Block(b)
    ensures var n, m := NewCore(p, f, r, dim, dims, splits, a), NewCore(p, f, r, dim, dims, splits, b);
            |n.min| == |n.max| == |m.min| == |m.max| == |f.cores[a].min| == |f.cores[a].max| == |f.cores[b].min|
                == |f.cores[b].max|
            && (Touch(n, m) ==> Touch(f.cores[a], f.cores[b]))
  {
    NewCoreSpec(p, f, r, dim, dims, splits, a);
    NewCoreSpec(p, f, r, dim, dims, splits, b);
    var n, m := NewCore(p, f, r, dim, dims, splits, a), NewCore(p, f, r, dim, dims, splits, b);
    if Touch(n, m) {
      forall d | 0 <= d < dims
        ensures f.cores[a].min[d] <= f.cores[b].max[d] && f.cores[b].min[d] <= f.cores[a].max[d]
      {
        assert n.min[d] <= m.max[d] && m.min[d] <= n.max[d];
      }
    }
  }

  // ---------- the entry for the sibling ----------

  lemma DualSpec(p: Partners, f: Forest, r: nat, dim: nat, dims: nat, splits: seq<real>, a: int)
    requires Ready(p, f, r, dim, dims, splits) && p.Block(a)
    ensures var s, x := Sibling(p, r, a), DualEntry(p, f, r, dim, dims, splits, a);
            && p.Block(s) && x == Entry(s, Unit(dims, dim, if Lower(p, r, a) then 1 else -1),
                NewCore(p, f, r, dim, dims, splits, s))
            && var n, m := NewCore(p, f, r, dim, dims, splits, a), NewCore(p, f, r, dim, dims, splits, s);
            |n.min| == |n.max| == |m.min| == |m.max| == dims && Touch(n, m) && Faces(x.dir, n, m, dims)
            && OneWay(x.dir)
  {
    SiblingSpec(p, r, a);
    var s := Sibling(p, r, a);
    assert f.cores[s] == f.cores[a] && splits[s] == splits[a];
    NewCoreSpec(p, f, r, dim, dims, splits, a);
    NewCoreSpec(p, f, r, dim, dims, splits, s);
    SplitRecovered(f.cores[a], splits[a], dim, Lower(p, r, a), 0);
    assert StepAlong(DualEntry(p, f, r, dim, dims, splits, a).dir, dim);
  }

  // ---------- entries ----------

  lemma NewEntryOk(p: Partners, f: Forest, r: nat, dim: nat, dims: nat, splits: seq<real>, g: Forest, a: int, x: Entry)
    requires Stepped(p, f, r, dim, dims, splits, g) && Shape(p, g, dims) && p.Block(a) && x in g.links[a]
    ensures EntryOk(p, g, r + 1, dims, a, x)
  {
    var e := NewLinkOrigin(p, f, r, dim, dims, splits, a, x);
    if x == DualEntry(p, f, r, dim, dims, splits, a) {
      DualSpec(p, f, r, dim, dims, splits, a);
      SiblingSpec(p, r, a);
    } else {
      KeptOnly(p, f, r, dim, dims, splits, a, e, x);
      KeptIffTouch(p, f, r, dim, dims, splits, a, x.gid, e);
      OldSelfIsSelf(p, r, a, x.gid);
      assert EntryOk(p, f, r, dims, a, e);
    }
  }

  lemma KeptDistinct(p: Partners, f: Forest, r: nat, dim: nat, dims: nat, splits: seq<real>, a: int, e: Entry)
    requires Ready(p, f, r, dim, dims, splits) && p.Block(a) && e in f.links[a]
    ensures DistinctGids(KeptOf(p, f, r, dim, dims, splits, a, e))
  {
    assert EntryOk(p, f, r, dims, a, e);
    DivideSpec(p, e.gid, true, r);
    DivideSpec(p, e.gid, false, r);
  }

  lemma DistinctConcat(xs: seq<Entry>, ys: seq<Entry>)
    requires DistinctGids(xs) && DistinctGids(ys)
    requires forall x, y :: x in xs && y in ys ==> x.gid != y.gid
    ensures DistinctGids(xs + ys)
  {
    var zs := xs + ys;
    forall i, j | 0 <= i < j < |zs| ensures zs[i].gid != zs[j].gid {
      if i < |xs| <= j {
        assert zs[i] in xs && zs[j] in ys;
      }
    }
  }

  /** What the first n entries of the old link become. */
  ghost function KeptPrefix(p: Partners, f: Forest, r: nat, dim: nat, dims: nat, splits: seq<real>, a: int,
          n: nat): seq<Entry>
    requires Ready(p, f, r, dim, dims, splits) && p.Block(a) && n <= |f.links[a]|
  {
    if n == 0 then [] else
    KeptPrefix(p, f, r, dim, dims, splits, a, n - 1) + KeptOf(p, f, r, dim, dims, splits, a, f.links[a][n - 1])
  }

  lemma {:induction false} KeptPrefixIs(p: Partners, f: Forest, r: nat, dim: nat, dims: nat, splits: seq<real>,
          a: int, n: nat)
    requires Ready(p, f, r, dim, dims, splits) && p.Block(a) && n <= |f.links[a]|
    ensures Shaped(f.links[a][..n], dims)
    ensures KeptPrefix(p, f, r, dim, dims, splits, a, n)
         == KeptAll(f.links[a][..n], Heard(p, f, r, dim, dims, splits, a)[..n], NewCore(p, f, r, dim, dims, splits, a),
                    Lower(p, r, a), dim, r, p.Rounds(), dims)
  {
    if n > 0 {
      KeptPrefixIs(p, f, r, dim, dims, splits, a, n - 1);
      KeptOfIndex(p, f, r, dim, dims, splits, a, n - 1);
      var link, heard := f.links[a], Heard(p, f, r, dim, dims, splits, a);
      assert link[..n][..n - 1] == link[..n - 1] && heard[..n][..n - 1] == heard[..n - 1];
    }
  }

  lemma KeptComesFrom(p: Partners, f: Forest, r: nat, dim: nat, dims: nat, splits: seq<real>, a: int, i: nat,
          more: seq<Entry>)
    requires Ready(p, f, r, dim, dims, splits) && p.Block(a) && i < |f.links[a]|
    requires more == KeptOf(p, f, r, dim, dims, splits, a, f.links[a][i])
    ensures forall y :: y in more ==> p.Block(y.gid) && f.links[a][i].gid == OldSelf(p, r, a, y.gid)
  {
    forall y | y in more ensures p.Block(y.gid) && f.links[a][i].gid == OldSelf(p, r, a, y.gid) {
      KeptOnly(p, f, r, dim, dims, splits, a, f.links[a][i], y);
    }
  }

  lemma {:induction false} KeptPrefixDistinct(p: Partners, f: Forest, r: nat, dim: nat, dims: nat, splits: seq<real>,
          a: int, n: nat)
    requires Ready(p, f, r, dim, dims, splits) && p.Block(a) && n <= |f.links[a]|
    ensures DistinctGids(KeptPrefix(p, f, r, dim, dims, splits, a, n))
    ensures forall x :: x in KeptPrefix(p, f, r, dim, dims, splits, a, n) ==>
              p.Block(x.gid) && exists i :: 0 <= i < n && f.links[a][i].gid == OldSelf(p, r, a, x.gid)
  {
    if n > 0 {
      KeptPrefixDistinct(p, f, r, dim, dims, splits, a, n - 1);
      var e := f.links[a][n - 1];
      KeptDistinct(p, f, r, dim, dims, splits, a, e);
      var less, more := KeptPrefix(p, f, r, dim, dims, splits, a, n - 1), KeptOf(p, f, r, dim, dims, splits, a, e);
      KeptComesFrom(p, f, r, dim, dims, splits, a, n - 1, more);
      DistinctConcat(less, more);
    }
  }

  lemma NewLinkDistinct(p: Partners, f: Forest, r: nat, dim: nat, dims: nat, splits: seq<real>, a: int)
    requires Ready(p, f, r, dim, dims, splits) && p.Block(a)
    ensures DistinctGids(NewLink(p, f, r, dim, dims, splits, a))
  {
    var n := |f.links[a]|;
    KeptPrefixIs(p, f, r, dim, dims, splits, a, n);
    KeptPrefixDistinct(p, f, r, dim, dims, splits, a, n);
    assert f.links[a][..n] == f.links[a]
        && Heard(p, f, r, dim, dims, splits, a)[..n] == Heard(p, f, r, dim, dims, splits, a);
    DualSpec(p, f, r, dim, dims, splits, a);
    SiblingSpec(p, r, a);
    var s := Sibling(p, r, a);
    OldSelfIsSelf(p, r, a, s);
    var kept := KeptPrefix(p, f, r, dim, dims, splits, a, n);
    forall x | x in kept ensures x.gid != s {
      var i :| 0 <= i < n && f.links[a][i].gid == OldSelf(p, r, a, x.gid);
      assert EntryOk(p, f, r, dims, a, f.links[a][i]);
    }
    DistinctConcat(kept, [DualEntry(p, f, r, dim, dims, splits, a)]);
  }

  lemma LinksOkStep(p: Partners, f: Forest, r: nat, dim: nat, dims: nat, splits: seq<real>, g: Forest)
    requires Stepped(p, f, r, dim, dims, splits, g) && Shape(p, g, dims)
    ensures LinksOk(p, g, r + 1, dims)
  {
    forall a, x | p.Block(a) && x in g.links[a] ensures EntryOk(p, g, r + 1, dims, a, x) {
      NewEntryOk(p, f, r, dim, dims, splits, g, a, x);
    }
    forall a | p.Block(a) ensures DistinctGids(g.links[a]) {
      NewLinkDistinct(p, f, r, dim, dims, splits, a);
    }
  }

  // ---------- completeness ----------

  lemma NamesNewNeighbor(p: Partners, f: Forest, r: nat, dim: nat, dims: nat, splits: seq<real>, a: int, b: int)
    requires Ready(p, f, r, dim, dims, splits) && Complete(p, f, r, dims)
    requires p.Block(a) && p.Block(b) && a != b && AgreeFrom(p, r + 1, b, a)
    requires var n, m := NewCore(p, f, r, dim, dims, splits, a), NewCore(p, f, r, dim, dims, splits, b);
             |n.min| == |n.max| == |m.min| == |m.max| && Touch(n, m)
    ensures Names(NewLink(p, f, r, dim, dims, splits, a), b)
  {
    var c := OldSelf(p, r, a, b);
    OldSelfSpec(p, r, a, b);
    OldSelfIsSelf(p, r, a, b);
    if c == a {
      DualSpec(p, f, r, dim, dims, splits, a);
      assert DualEntry(p, f, r, dim, dims, splits, a) in NewLink(p, f, r, dim, dims, splits, a);
    } else {
      TouchBefore(p, f, r, dim, dims, splits, a, b);
      assert f.cores[c] == f.cores[b];
      assert Names(f.links[a], c);
      var e :| e in f.links[a] && e.gid == c;
      KeptIffTouch(p, f, r, dim, dims, splits, a, b, e);
      NewLinkContains(p, f, r, dim, dims, splits, a, e, Derived(p, f, r, dim, dims, splits, b, e));
    }
  }

  lemma CompleteStep(p: Partners, f: Forest, r: nat, dim: nat, dims: nat, splits: seq<real>, g: Forest)
    requires Stepped(p, f, r, dim, dims, splits, g) && Shape(p, g, dims) && Complete(p, f, r, dims)
    ensures Complete(p, g, r + 1, dims)
  {
    forall a, b | p.Block(a) && p.Block(b) && a != b && AgreeFrom(p, r + 1, b, a) && Touch(g.cores[a], g.cores[b])
      ensures Names(g.links[a], b)
    {
      NamesNewNeighbor(p, f, r, dim, dims, splits, a, b);
    }
  }

  // ---------- directions ----------

  /** A kept entry never stands for the same pair of nodes as the entry for the sibling. */
  lemma KeptIsNotDual(p: Partners, f: Forest, r: nat, dim: nat, dims: nat, splits: seq<real>, a: int, e: Entry,
          x: Entry)
    requires Ready(p, f, r, dim, dims, splits) && p.Block(a) && e in f.links[a]
    requires x in KeptOf(p, f, r, dim, dims, splits, a, e)
    ensures p.Block(x.gid) && !AgreeBelow(p, r, x.gid, a)
  {
    KeptOnly(p, f, r, dim, dims, splits, a, e, x);
    assert EntryOk(p, f, r, dims, a, e);
    if AgreeBelow(p, r, x.gid, a) {
      AgreeBelowSym(p, r, x.gid, e.gid);
      AgreeBelowTrans(p, r, e.gid, x.gid, a);
      SameBlock(p, r, e.gid, a);
    }
  }

  lemma DualIsNear(p: Partners, f: Forest, r: nat, dim: nat, dims: nat, splits: seq<real>, a: int)
    requires Ready(p, f, r, dim, dims, splits) && p.Block(a)
    ensures p.Block(DualEntry(p, f, r, dim, dims, splits, a).gid)
    ensures AgreeBelow(p, r, DualEntry(p, f, r, dim, dims, splits, a).gid, a)
  {
    DualSpec(p, f, r, dim, dims, splits, a);
    SiblingSpec(p, r, a);
  }

  lemma SameDirectionStep(p: Partners, f: Forest, r: nat, dim: nat, dims: nat, splits: seq<real>, a: int, b: int,
          x: Entry, y: Entry)
    requires Ready(p, f, r, dim, dims, splits) && NodeDirections(p, f, r)
    requires p.Block(a) && p.Block(b) && p.Block(x.gid) && p.Block(y.gid)
    requires x in NewLink(p, f, r, dim, dims, splits, a) && y in NewLink(p, f, r, dim, dims, splits, b)
    requires AgreeBelow(p, r + 1, a, b) && AgreeBelow(p, r + 1, x.gid, y.gid)
    ensures x.dir == y.dir
  {
    AgreeBelowLess(p, r, a, b);
    AgreeBelowLess(p, r, x.gid, y.gid);
    AgreeBelowSym(p, r, a, b);
    AgreeBelowSym(p, r, x.gid, y.gid);
    var e := NewLinkOrigin(p, f, r, dim, dims, splits, a, x);
    var h := NewLinkOrigin(p, f, r, dim, dims, splits, b, y);
    var xDual := x == DualEntry(p, f, r, dim, dims, splits, a);
    var yDual := y == DualEntry(p, f, r, dim, dims, splits, b);
    if xDual && !yDual {
      DualIsNear(p, f, r, dim, dims, splits, a);
      KeptIsNotDual(p, f, r, dim, dims, splits, b, h, y);
      AgreeBelowTrans(p, r, y.gid, x.gid, a);
      AgreeBelowTrans(p, r, y.gid, a, b);
    } else if !xDual && yDual {
      DualIsNear(p, f, r, dim, dims, splits, b);
      KeptIsNotDual(p, f, r, dim, dims, splits, a, e, x);
      AgreeBelowTrans(p, r, x.gid, y.gid, b);
      AgreeBelowTrans(p, r, x.gid, b, a);
    } else if xDual && yDual {
      DualSpec(p, f, r, dim, dims, splits, a);
      DualSpec(p, f, r, dim, dims, splits, b);
    } else {
      KeptOnly(p, f, r, dim, dims, splits, a, e, x);
      KeptOnly(p, f, r, dim, dims, splits, b, h, y);
      AgreeBelowSym(p, r, x.gid, e.gid);
      AgreeBelowTrans(p, r, e.gid, x.gid, y.gid);
      AgreeBelowTrans(p, r, e.gid, y.gid, h.gid);
      assert SameDirection(p, r, a, b, e, h);
    }
  }

  lemma NodeDirectionsStep(p: Partners, f: Forest, r: nat, dim: nat, dims: nat, splits: seq<real>, g: Forest)
    requires Stepped(p, f, r, dim, dims, splits, g) && NodeDirections(p, f, r)
    ensures NodeDirections(p, g, r + 1)
  {
    forall a, b, x, y | p.Block(a) && p.Block(b) && x in g.links[a] && y in g.links[b]
      ensures SameDirection(p, r + 1, a, b, x, y)
    {
      if p.Block(x.gid) && p.Block(y.gid) && AgreeBelow(p, r + 1, a, b) && AgreeBelow(p, r + 1, x.gid, y.gid) {
        SameDirectionStep(p, f, r, dim, dims, splits, a, b, x, y);
      }
    }
  }

  // ---------- symmetry ----------

  lemma SiblingOfSibling(p: Partners, r: nat, a: int)
    requires Halving(p) && r < p.Rounds() && p.Block(a)
    ensures p.Block(Sibling(p, r, a)) && Sibling(p, r, Sibling(p, r, a)) == a
  {
    SiblingSpec(p, r, a);
    var s := Sibling(p, r, a);
    SiblingSpec(p, r, s);
    AgreeBelowSym(p, r, s, a);
    assert AgreeFrom(p, r + 1, a, s);
  }

  /** The old entry at the other end: b's old link names a's old self there, in the opposite direction. */
  lemma OppositeEntry(p: Partners, f: Forest, r: nat, dim: nat, dims: nat, splits: seq<real>, a: int, b: int,
          e: Entry) returns (h: Entry)
    requires Ready(p, f, r, dim, dims, splits) && Complete(p, f, r, dims) && NodeDirections(p, f, r) && Symmetric(p, f)
    requires p.Block(a) && p.Block(b) && a != b && AgreeFrom(p, r + 1, b, a) && e in f.links[a]
        && e.gid == OldSelf(p, r, a, b)
    ensures AgreeFrom(p, r + 1, a, b)
    ensures h in f.links[b] && h.gid == OldSelf(p, r, b, a) && h.dir == Neg(e.dir)
  {
    assert EntryOk(p, f, r, dims, a, e);
    var c, d := e.gid, OldSelf(p, r, b, a);
    OldSelfSpec(p, r, a, b);
    assert AgreeFrom(p, r + 1, a, b);
    OldSelfSpec(p, r, b, a);
    OldSelfIsSelf(p, r, a, b);
    OldSelfIsSelf(p, r, b, a);
    SiblingOfSibling(p, r, b);
    assert d != b;
    assert f.cores[c] == f.cores[b] && f.cores[d] == f.cores[a];
    TouchSym(f.cores[a], f.cores[c]);
    assert Names(f.links[b], d);
    h :| h in f.links[b] && h.gid == d;
    assert HasEntry(f.links[c], a, Neg(e.dir));
    var e' :| e' in f.links[c] && e'.gid == a && e'.dir == Neg(e.dir);
    AgreeBelowSym(p, r, d, a);
    assert SameDirection(p, r, c, b, e', h);
  }

  lemma NegUnit(dims: nat, dim: nat, sign: int)
    ensures Unit(dims, dim, -sign) == Neg(Unit(dims, dim, sign))
  {
  }

  lemma SymmetricDual(p: Partners, f: Forest, r: nat, dim: nat, dims: nat, splits: seq<real>, a: int)
    requires Ready(p, f, r, dim, dims, splits) && p.Block(a)
    ensures var x := DualEntry(p, f, r, dim, dims, splits, a);
            p.Block(x.gid) && HasEntry(NewLink(p, f, r, dim, dims, splits, x.gid), a, Neg(x.dir))
  {
    var x := DualEntry(p, f, r, dim, dims, splits, a);
    DualSpec(p, f, r, dim, dims, splits, a);
    SiblingSpec(p, r, a);
    SiblingOfSibling(p, r, a);
    DualSpec(p, f, r, dim, dims, splits, x.gid);
    NegUnit(dims, dim, if Lower(p, r, a) then 1 else -1);
    var y := DualEntry(p, f, r, dim, dims, splits, x.gid);
    assert y in NewLink(p, f, r, dim, dims, splits, x.gid) && y.gid == a && y.dir == Neg(x.dir);
  }

  lemma SymmetricKept(p: Partners, f: Forest, r: nat, dim: nat, dims: nat, splits: seq<real>, a: int, e: Entry,
          x: Entry)
    requires Ready(p, f, r, dim, dims, splits) && Complete(p, f, r, dims) && NodeDirections(p, f, r) && Symmetric(p, f)
    requires p.Block(a) && e in f.links[a] && x in KeptOf(p, f, r, dim, dims, splits, a, e)
    ensures p.Block(x.gid) && HasEntry(NewLink(p, f, r, dim, dims, splits, x.gid), a, Neg(x.dir))
  {
    KeptOnly(p, f, r, dim, dims, splits, a, e, x);
    KeptIffTouch(p, f, r, dim, dims, splits, a, x.gid, e);
    OldSelfIsSelf(p, r, a, x.gid);
    assert EntryOk(p, f, r, dims, a, e);
    var h := OppositeEntry(p, f, r, dim, dims, splits, a, x.gid, e);
    KeptIffTouch(p, f, r, dim, dims, splits, x.gid, a, h);
    TouchSym(NewCore(p, f, r, dim, dims, splits, a), NewCore(p, f, r, dim, dims, splits, x.gid));
    NewLinkContains(p, f, r, dim, dims, splits, x.gid, h, Derived(p, f, r, dim, dims, splits, a, h));
  }

  lemma SymmetricEntry(p: Partners, f: Forest, r: nat, dim: nat, dims: nat, splits: seq<real>, a: int, x: Entry)
    requires Ready(p, f, r, dim, dims, splits) && Complete(p, f, r, dims) && NodeDirections(p, f, r) && Symmetric(p, f)
    requires p.Block(a) && x in NewLink(p, f, r, dim, dims, splits, a)
    ensures p.Block(x.gid) && HasEntry(NewLink(p, f, r, dim, dims, splits, x.gid), a, Neg(x.dir))
  {
    var e := NewLinkOrigin(p, f, r, dim, dims, splits, a, x);
    if x == DualEntry(p, f, r, dim, dims, splits, a) {
      SymmetricDual(p, f, r, dim, dims, splits, a);
    } else {
      SymmetricKept(p, f, r, dim, dims, splits, a, e, x);
    }
  }

  lemma SymmetricStep(p: Partners, f: Forest, r: nat, dim: nat, dims: nat, splits: seq<real>, g: Forest)
    requires Stepped(p, f, r, dim, dims, splits, g)
    requires Complete(p, f, r, dims) && NodeDirections(p, f, r) && Symmetric(p, f)
    ensures Symmetric(p, g)
  {
    forall a, x | p.Block(a) && x in g.links[a] ensures p.Block(x.gid) && HasEntry(g.links[x.gid], a, Neg(x.dir)) {
      SymmetricEntry(p, f, r, dim, dims, splits, a, x);
    }
  }

  // ---------- the iteration as a whole ----------

  /** After an outer iteration, links within each class one digit larger are symmetric with opposite
      directions, store the neighbors' true bounds, and name exactly the blocks whose boxes touch. */
  lemma IterationKeepsInv(p: Partners, f: Forest, r: nat, dim: nat, dims: nat, splits: seq<real>, g: Forest)
    requires Stepped(p, f, r, dim, dims, splits, g) && Inv(p, f, r, dims)
    ensures Inv(p, g, r + 1, dims)
  {
    ShapeStep(p, f, r, dim, dims, splits, g);
    SameCoresStep(p, f, r, dim, dims, splits, g);
    LinksOkStep(p, f, r, dim, dims, splits, g);
    CompleteStep(p, f, r, dim, dims, splits, g);
    NodeDirectionsStep(p, f, r, dim, dims, splits, g);
    SymmetricStep(p, f, r, dim, dims, splits, g);
  }

  /** With every digit used up, the class is the whole domain: a link names a block iff it is another
      block whose closed box touches. */
  lemma FinalLinks(p: Partners, f: Forest, dims: nat, a: int, b: int)
    requires p.Valid() && Inv(p, f, p.Rounds(), dims) && p.Block(a) && p.Block(b)
    ensures |f.cores[a].min| == |f.cores[a].max| == |f.cores[b].min| == |f.cores[b].max| == dims
    ensures Names(f.links[a], b) <==> a != b && Touch(f.cores[a], f.cores[b])
    ensures Names(f.links[a], b) ==> exists dir :: HasEntry(f.links[a], b, dir) && HasEntry(f.links[b], a, Neg(dir))
  {
    assert Proper(f.cores[a], dims) && Proper(f.cores[b], dims);
    assert AgreeFrom(p, p.Rounds(), b, a);
    if Names(f.links[a], b) {
      var e :| e in f.links[a] && e.gid == b;
      assert EntryOk(p, f, p.Rounds(), dims, a, e);
      assert HasEntry(f.links[a], b, e.dir) && HasEntry(f.links[b], a, Neg(e.dir));
    }
  }
}
