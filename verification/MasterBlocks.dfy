/** The blocks of a master: a collection that moves them in and out of memory, and the parallel arrays
    and maps the master keeps about them. */
module MasterBlocks {
  import opened Options
  import opened Counting

  /** A block's serialized state; loading gives back what was saved. */
  type Block = seq<int>

  /** The (gid, proc) pairs of a link. */
  type Link = seq<(int, int)>

  function CountLoaded(elements: seq<Option<Block>>): nat {
    if elements == [] then 0
    else CountLoaded(elements[..|elements| - 1]) + if elements[|elements| - 1].Some? then 1 else 0
  }

  lemma CountLoadedAppend(elements: seq<Option<Block>>, e: Option<Block>)
    ensures CountLoaded(elements + [e]) == CountLoaded(elements) + if e.Some? then 1 else 0
  {
    assert (elements + [e])[..|elements|] == elements;
  }

  lemma {:induction false} CountLoadedUpdate(elements: seq<Option<Block>>, i: nat, e: Option<Block>)
    requires i < |elements|
    ensures CountLoaded(elements[i := e]) + (if elements[i].Some? then 1 else 0)
        == CountLoaded(elements) + if e.Some? then 1 else 0
    decreases |elements|
  {
    var n := |elements| - 1;
    if i == n {
      assert elements[i := e][..n] == elements[..n];
    } else {
      CountLoadedUpdate(elements[..n], i, e);
      assert elements[i := e][..n] == elements[..n][i := e];
    }
  }

  ghost function ContentsOf(elements: seq<Option<Block>>, external: seq<int>, storage: map<int, Block>): seq<Block>
    requires |external| == |elements| && forall i :: 0 <= i < |elements| && elements[i].None? ==> external[i] in storage
  {
    seq(|elements|, i requires 0 <= i < |elements| => if elements[i].Some? then elements[i].value
        else storage[external[i]])
  }

  class Collection {
    var elements: seq<Option<Block>>
    var external: seq<int>
    var inMemory: int
    var storage: map<int, Block>
    var nextId: int

    ghost predicate Valid()
      reads this
    {
      && |external| == |elements| && inMemory == CountLoaded(elements)
      && (forall i :: 0 <= i < |elements| ==> (elements[i].Some? <==> external[i] == -1))
      && (forall i :: 0 <= i < |elements| && elements[i].None? ==> external[i] in storage)
      && (forall i, j :: 0 <= i < j < |elements| && elements[i].None? && elements[j].None? ==>
          external[i] != external[j])
      && (forall k :: k in storage ==> 0 <= k < nextId) && nextId >= 0
    }

    /** Every block's state, wherever it is. */
    ghost function Contents(): seq<Block>
      requires Valid()
      reads this
    {
      ContentsOf(elements, external, storage)
    }

    constructor ()
      ensures Valid() && elements == [] && inMemory == 0
    {
      elements, external, inMemory, storage, nextId := [], [], 0, map[], 0;
    }

    method Add(e: Block) returns (i: nat)
      requires Valid()
      modifies this
      ensures Valid() && i == |old(elements)| && Contents() == old(Contents()) + [e]
      ensures inMemory == old(inMemory) + 1 && elements == old(elements) + [Some(e)]
    {
      CountLoadedAppend(elements, Some(e));
      elements := elements + [Some(e)];
      external := external + [-1];
      inMemory := inMemory + 1;
      i := |elements| - 1;
    }

    /** Whatever `unload` writes, `load` reads back. */
    method Unload(i: nat)
      requires Valid() && i < |elements| && elements[i].Some?
      modifies this
      ensures Valid() && Contents() == old(Contents()) && inMemory == old(inMemory) - 1
      ensures elements == old(elements)[i := None]
    {
      CountLoadedUpdate(elements, i, None);
      storage := storage[nextId := elements[i].value];
      external := external[i := nextId];
      nextId := nextId + 1;
      elements := elements[i := None];
      inMemory := inMemory - 1;
    }

    method Load(i: nat)
      requires Valid() && i < |elements| && elements[i].None?
      modifies this
      ensures Valid() && Contents() == old(Contents()) && inMemory == old(inMemory) + 1
      ensures elements == old(elements)[i := Some(old(Contents())[i])]
    {
      var e := storage[external[i]];
      CountLoadedUpdate(elements, i, Some(e));
      storage := storage - {external[i]};
      elements := elements[i := Some(e)];
      external := external[i := -1];
      inMemory := inMemory + 1;
    }

    method Get(i: nat) returns (e: Block)
      requires Valid() && i < |elements|
      modifies this
      ensures Valid() && Contents() == old(Contents()) && e == Contents()[i]
      ensures elements == old(elements)[i := Some(e)]
      ensures inMemory == old(inMemory) + if old(elements)[i].None? then 1 else 0
    {
      if elements[i].None? {
        Load(i);
      }
      e := elements[i].value;
    }

    /** Loads the block if need be, hands it out, and lets the last block take its index. */
    method Release(i: nat) returns (e: Block)
      requires Valid() && i < |elements|
      modifies this
      ensures Valid() && e == old(Contents())[i] && Contents() == SwapOut(old(Contents()), i)
      ensures |elements| == |old(elements)| - 1
      ensures inMemory == old(inMemory) - if old(elements)[i].Some? then 1 else 0
    {
      e := Get(i);
      SwapPop(i);
    }

    method SwapPop(i: nat)
      requires Valid() && i < |elements| && elements[i].Some?
      modifies this
      ensures Valid() && Contents() == SwapOut(old(Contents()), i) && |elements| == |old(elements)| - 1
      ensures inMemory == old(inMemory) - 1
    {
      var n := |elements| - 1;
      CountLoadedUpdate(elements, i, elements[n]);
      assert elements[i := elements[n]] == elements[i := elements[n]][..n] + [elements[n]];
      CountLoadedAppend(elements[i := elements[n]][..n], elements[n]);
      elements := elements[i := elements[n]][..n];
      external := external[i := external[n]][..n];
      inMemory := inMemory - 1;
    }
  }

  // ---------- links ----------

  /** `size_unique`: how many different blocks a link names. */
  function Unique(link: Link): set<(int, int)> {
    set x | x in link
  }

  method SizeUnique(link: Link) returns (n: nat)
    ensures n == |Unique(link)|
  {
    var seen: set<(int, int)> := {};
    for i := 0 to |link|
      invariant seen == Unique(link[..i])
    {
      assert link[..i + 1] == link[..i] + [link[i]];
      seen := seen + {link[i]};
    }
    assert link[..|link|] == link;
    n := |seen|;
  }

  function SumUnique(links: seq<Link>): nat {
    if links == [] then 0 else SumUnique(links[..|links| - 1]) + |Unique(links[|links| - 1])|
  }

  lemma SumUniqueAppend(links: seq<Link>, l: Link)
    ensures SumUnique(links + [l]) == SumUnique(links) + |Unique(l)|
  {
    assert (links + [l])[..|links|] == links;
  }

  lemma {:induction false} SumUniqueUpdate(links: seq<Link>, i: nat, l: Link)
    requires i < |links|
    ensures SumUnique(links[i := l]) + |Unique(links[i])| == SumUnique(links) + |Unique(l)|
    decreases |links|
  {
    var n := |links| - 1;
    if i == n {
      assert links[i := l][..n] == links[..n];
    } else {
      SumUniqueUpdate(links[..n], i, l);
      assert links[i := l][..n] == links[..n][i := l];
    }
  }

  lemma SumUniqueSwapOut(links: seq<Link>, i: nat)
    requires i < |links|
    ensures SumUnique(SwapOut(links, i)) == SumUnique(links) - |Unique(links[i])|
  {
    var n := |links| - 1;
    SumUniqueUpdate(links, i, links[n]);
    assert links[i := links[n]][n] == links[n];
  }

  // ---------- the master ----------

  /** `lids` is the inverse of `gids`. */
  ghost predicate Inverse(gids: seq<int>, lids: map<int, int>) {
    && (forall i :: 0 <= i < |gids| ==> gids[i] in lids && lids[gids[i]] == i)
    && (forall g :: g in lids ==> 0 <= lids[g] < |gids| && gids[lids[g]] == g)
  }

  lemma InverseAppend(gids: seq<int>, lids: map<int, int>, g: int)
    requires Inverse(gids, lids) && g !in lids
    ensures Inverse(gids + [g], lids[g := |gids|])
  {
  }

  /** release: the last gid moves to the freed lid. */
  lemma InverseSwapOut(gids: seq<int>, lids: map<int, int>, g: int)
    requires Inverse(gids, lids) && g in lids
    ensures Inverse(SwapOut(gids, lids[g]), lids[gids[|gids| - 1] := lids[g]] - {g})
  {
    var lid, n := lids[g], |gids| - 1;
    var gids', lids' := SwapOut(gids, lid), lids[gids[n] := lid] - {g};
    forall i | 0 <= i < |gids'| ensures gids'[i] in lids' && lids'[gids'[i]] == i {
      assert gids'[i] == if i == lid then gids[n] else gids[i];
    }
  }

  /** The gids determine the map. */
  lemma InverseUnique(gids: seq<int>, a: map<int, int>, b: map<int, int>)
    requires Inverse(gids, a) && Inverse(gids, b)
    ensures a == b
  {
    forall g | g in a ensures g in b && a[g] == b[g] {
      assert gids[a[g]] == g;
    }
    forall g | g in b ensures g in a {
      assert gids[b[g]] == g;
    }
  }

  class Master {
    const blocks: Collection
    const limit: int
    var links: seq<Link>
    var gids: seq<int>
    var lids: map<int, int>
    var expected: int

    ghost predicate Valid()
      reads this, blocks
    {
      && blocks.Valid() && |links| == |gids| == |blocks.elements|
      && Inverse(gids, lids) && expected == SumUnique(links)
    }

    constructor (limit: int)
      ensures Valid() && gids == [] && this.limit == limit && fresh(blocks)
    {
      blocks := new Collection();
      this.limit, links, gids, lids, expected := limit, [], [], map[], 0;
    }

    method UnloadAll()
      requires Valid()
      modifies blocks
      ensures Valid() && blocks.Contents() == old(blocks.Contents()) && blocks.inMemory == 0
    {
      for i := 0 to |gids|
        invariant Valid() && blocks.Contents() == old(blocks.Contents())
        invariant forall j :: 0 <= j < i ==> blocks.elements[j].None?
      {
        if blocks.elements[i].Some? {
          blocks.Unload(i);
        }
      }
      NoneLoaded(blocks.elements);
    }

    /** Makes room when the limit is reached, then appends to all the parallel arrays. */
    method Add(gid: int, b: Block, l: Link) returns (lid: nat)
      requires Valid() && gid !in lids
      modifies this, blocks
      ensures Valid() && lid == |old(gids)|
      ensures gids == old(gids) + [gid] && lids == old(lids)[gid := lid] && links == old(links) + [l]
      ensures blocks.Contents() == old(blocks.Contents()) + [b]
      ensures blocks.inMemory == (if old(blocks.inMemory) == limit then 0 else old(blocks.inMemory)) + 1
      ensures limit > 0 && old(blocks.inMemory) <= limit ==> blocks.inMemory <= limit
    {
      if blocks.inMemory == limit {
        UnloadAll();
      }
      InverseAppend(gids, lids, gid);
      SumUniqueAppend(links, l);
      var at := blocks.Add(b);
      links := links + [l];
      gids := gids + [gid];
      lid := |gids| - 1;
      lids := lids[gid := lid];
      var n := SizeUnique(l);
      expected := expected + n;
    }

    method Release(gid: int) returns (b: Block)
      requires Valid() && gid in lids
      modifies this, blocks
      ensures Valid() && b == old(blocks.Contents())[old(lids)[gid]]
      ensures var lid := old(lids)[gid];
              && gids == SwapOut(old(gids), lid) && links == SwapOut(old(links), lid)
              && blocks.Contents() == SwapOut(old(blocks.Contents()), lid)
              && lids.Keys == old(lids).Keys - {gid}
    {
      var lid := lids[gid];
      InverseSwapOut(gids, lids, gid);
      SumUniqueSwapOut(links, lid);
      b := blocks.Release(lid);
      var n := SizeUnique(links[lid]);
      expected := expected - n;
      var last := |links| - 1;
      links := links[lid := links[last]][..last];
      var swappedGid := gids[last];
      gids := gids[lid := gids[last]][..last];
      lids := lids[swappedGid := lid];
      lids := lids - {gid};
    }

    method ReplaceLink(i: nat, l: Link)
      requires Valid() && i < |links|
      modifies this`links, this`expected
      ensures Valid() && links == old(links)[i := l]
    {
      SumUniqueUpdate(links, i, l);
      var before := SizeUnique(links[i]);
      expected := expected - before;
      links := links[i := l];
      var after := SizeUnique(links[i]);
      expected := expected + after;
    }

    method Load(i: nat)
      requires Valid() && i < |gids| && blocks.elements[i].None?
      modifies blocks
      ensures Valid() && blocks.Contents() == old(blocks.Contents()) && blocks.inMemory == old(blocks.inMemory) + 1
    {
      blocks.Load(i);
    }

    method Unload(i: nat)
      requires Valid() && i < |gids| && blocks.elements[i].Some?
      modifies blocks
      ensures Valid() && blocks.Contents() == old(blocks.Contents()) && blocks.inMemory == old(blocks.inMemory) - 1
    {
      blocks.Unload(i);
    }
  }

  lemma {:induction false} NoneLoaded(elements: seq<Option<Block>>)
    requires forall i :: 0 <= i < |elements| ==> elements[i].None?
    ensures CountLoaded(elements) == 0
  {
    if elements != [] { NoneLoaded(elements[..|elements| - 1]); }
  }

  /** Adding a block and releasing it again gives back the block and leaves everything as it was. */
  method AddThenRelease(m: Master, gid: int, b: Block, l: Link) returns (b': Block)
    requires m.Valid() && gid !in m.lids
    modifies m, m.blocks
    ensures m.Valid() && b' == b
    ensures m.gids == old(m.gids) && m.links == old(m.links) && m.blocks.Contents() == old(m.blocks.Contents())
    ensures m.lids == old(m.lids) && m.expected == old(m.expected)
  {
    var lid := m.Add(gid, b, l);
    b' := m.Release(gid);
    assert m.gids == old(m.gids) && m.links == old(m.links);
    InverseUnique(m.gids, m.lids, old(m.lids));
  }
}
