/** Axis-aligned boxes of the kd-tree and how a block's link is rewritten after a split. */
module KdGeometry {

  datatype Box = Box(min: seq<real>, max: seq<real>)

  type Dir = seq<int>

  /** One neighbor of a block: its gid, the direction it lies in, and its bounds as far as the block knows. */
  datatype Entry = Entry(gid: int, dir: Dir, bounds: Box)

  ghost predicate Proper(b: Box, dims: nat) {
    |b.min| == |b.max| == dims && forall d :: 0 <= d < dims ==> b.min[d] < b.max[d]
  }

  /** The closed boxes share a point. */
  ghost predicate Touch(a: Box, b: Box)
    requires |a.min| == |a.max| == |b.min| == |b.max|
  {
    forall d :: 0 <= d < |a.min| ==> a.min[d] <= b.max[d] && b.min[d] <= a.max[d]
  }

  /** `update_neighbor_bounds`: the half of a box on one side of a split. */
  function Half(b: Box, split: real, dim: nat, lower: bool): Box
    requires dim < |b.min| && dim < |b.max|
  {
    if lower then b.(max := b.max[dim := split]) else b.(min := b.min[dim := split])
  }

  /** `intersects` without periodic boundaries: overlap along one dimension. */
  predicate Intersects(x: Box, y: Box, dim: nat)
    requires dim < |x.min| && dim < |x.max| && dim < |y.min| && dim < |y.max|
  {
    x.min[dim] <= y.max[dim] && y.min[dim] <= x.max[dim]
  }

  function Neg(d: Dir): Dir {
    seq(|d|, i requires 0 <= i < |d| => -d[i])
  }

  function Unit(dims: nat, dim: nat, sign: int): Dir {
    seq(dims, i => if i == dim then sign else 0)
  }

  /** The first coordinate, scanning dimensions upwards, in which the changed box differs. */
  function SplitOf(changed: Box, original: Box, i: nat): real
    requires |changed.min| == |changed.max| == |original.min| == |original.max|
    decreases |changed.min| - i
  {
    if i >= |changed.min| then -1.0
    else if changed.min[i] != original.min[i] then changed.min[i]
    else if changed.max[i] != original.max[i] then changed.max[i]
    else SplitOf(changed, original, i + 1)
  }

  method FindSplit(changed: Box, original: Box, dims: nat) returns (split: real)
    requires |changed.min| == |changed.max| == |original.min| == |original.max| == dims
    ensures split == SplitOf(changed, original, 0)
  {
    for i := 0 to dims
      invariant SplitOf(changed, original, 0) == SplitOf(changed, original, i)
    {
      if changed.min[i] != original.min[i] {
        return changed.min[i];
      }
      if changed.max[i] != original.max[i] {
        return changed.max[i];
      }
    }
    return -1.0;
  }

  /** A strictly interior split is recovered from the box before and after. */
  lemma {:induction false} SplitRecovered(parent: Box, split: real, dim: nat, lower: bool, i: nat)
    requires Proper(parent, |parent.min|) && dim < |parent.min| && parent.min[dim] < split < parent.max[dim] && i <= dim
    ensures SplitOf(Half(parent, split, dim, lower), parent, i) == split
    decreases dim - i
  {
    if i < dim {
      SplitRecovered(parent, split, dim, lower, i + 1);
    }
  }

  // ---------- the messages of a link round ----------

  type Message = (real, Dir)

  /** What a block sends to neighbor g: its split and, for each entry naming g, the entry's direction. */
  function MessagesTo(link: seq<Entry>, split: real, g: int): seq<Message> {
    if link == [] then []
    else MessagesTo(link[..|link| - 1], split, g)
         + if link[|link| - 1].gid == g then [(split, link[|link| - 1].dir)] else []
  }

  method SplitToNeighbors(link: seq<Entry>, core: Box, bounds: Box, dims: nat)
    returns (outgoing: map<int, seq<Message>>)
    requires |core.min| == |core.max| == |bounds.min| == |bounds.max| == dims
    ensures forall i :: 0 <= i < |link| ==> link[i].gid in outgoing
    ensures forall g :: g in outgoing ==> outgoing[g] == MessagesTo(link, SplitOf(core, bounds, 0), g)
  {
    var split := FindSplit(core, bounds, dims);
    outgoing := map[];
    for i := 0 to |link|
      invariant forall g :: g in outgoing <==> exists j :: 0 <= j < i && link[j].gid == g
      invariant forall g :: g in outgoing ==> outgoing[g] == MessagesTo(link[..i], split, g)
    {
      var g := link[i].gid;
      assert link[..i + 1][..i] == link[..i];
      if g !in outgoing {
        NoMessages(link[..i], split, g);
      }
      outgoing := outgoing[g := (if g in outgoing then outgoing[g] else []) + [(split, link[i].dir)]];
    }
    assert link[..|link|] == link;
  }

  lemma {:induction false} NoMessages(link: seq<Entry>, split: real, g: int)
    requires forall j :: 0 <= j < |link| ==> link[j].gid != g
    ensures MessagesTo(link, split, g) == []
  {
    if link != [] {
      NoMessages(link[..|link| - 1], split, g);
    }
  }

  ghost predicate DistinctGids(link: seq<Entry>) {
    forall i, j :: 0 <= i < j < |link| ==> link[i].gid != link[j].gid
  }

  /** A block with one entry for g sends it one message. */
  lemma {:induction false} OneMessage(link: seq<Entry>, split: real, i: nat)
    requires DistinctGids(link) && i < |link|
    ensures MessagesTo(link, split, link[i].gid) == [(split, link[i].dir)]
  {
    var n := |link| - 1;
    if i == n {
      NoMessages(link[..n], split, link[i].gid);
    } else {
      OneMessage(link[..n], split, i);
    }
  }

  // ---------- update_links, first half: matching messages to link entries ----------

  /** Reads one split per neighbor: each message's direction is reversed and looked up in the link. */
  method ReadSplits(link: seq<Entry>, incoming: map<int, seq<Message>>, ghost sent: seq<real>)
    returns (splits: seq<real>)
    requires DistinctGids(link) && |sent| == |link|
    requires forall i :: 0 <= i < |link| ==>
      link[i].gid in incoming && incoming[link[i].gid] == [(sent[i], Neg(link[i].dir))]
    ensures splits == sent
  {
    var linkMap: map<(int, Dir), nat> := map[];
    for i := 0 to |link|
      invariant forall j :: 0 <= j < i ==>
          (link[j].gid, link[j].dir) in linkMap && linkMap[(link[j].gid, link[j].dir)] == j
    {
      linkMap := linkMap[(link[i].gid, link[i].dir) := i];
    }
    splits := seq(|link|, _ => 0.0);
    for i := 0 to |link|
      invariant |splits| == |link| && forall j :: 0 <= j < i ==> splits[j] == sent[j]
    {
      var inGid := link[i].gid;
      var queue := incoming[inGid];
      ghost var whole := queue;
      while queue != []
        invariant queue == whole || queue == []
        invariant |splits| == |link| && forall j :: 0 <= j < i ==> splits[j] == sent[j]
        invariant queue == [] ==> splits[i] == sent[i]
        decreases |queue|
      {
        var split, dir := queue[0].0, Neg(queue[0].1);
        assert dir == link[i].dir;
        var k := linkMap[(inGid, dir)];
        splits := splits[k := split];
        queue := queue[1..];
      }
    }
  }
}
