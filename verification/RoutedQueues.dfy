/** What one block does in a round of all_to_all: its queues travel as a range followed by
    (from, to), size, bytes records in one serialization buffer per partner. */
module RoutedQueues {
  import opened Arith

  /** One serialized value: a pair of ints, a size, or a byte. */
  datatype Token = Pair(first: int, second: int) | Size(n: nat) | Byte(b: int)

  datatype Item = Item(from: int, to: int, bytes: seq<int>)

  /** The content of a buffer: the targets lo..hi its items may go to, and the items. */
  datatype Frame = Frame(lo: int, hi: int, items: seq<Item>)

  function Bytes(bytes: seq<int>): seq<Token> {
    seq(|bytes|, i requires 0 <= i < |bytes| => Byte(bytes[i]))
  }

  function EncodeItem(x: Item): seq<Token> {
    [Pair(x.from, x.to), Size(|x.bytes|)] + Bytes(x.bytes)
  }

  function EncodeItems(items: seq<Item>): seq<Token> {
    if items == [] then [] else EncodeItem(items[0]) + EncodeItems(items[1..])
  }

  function Encode(f: Frame): seq<Token> {
    [Pair(f.lo, f.hi)] + EncodeItems(f.items)
  }

  lemma {:induction false} EncodeConcat(a: seq<Item>, b: seq<Item>)
    ensures EncodeItems(a + b) == EncodeItems(a) + EncodeItems(b)
  {
    if a == [] {
      assert a + b == b;
    } else {
      assert (a + b)[1..] == a[1..] + b;
      EncodeConcat(a[1..], b);
      assert EncodeItem(a[0]) + (EncodeItems(a[1..]) + EncodeItems(b))
          == EncodeItem(a[0]) + EncodeItems(a[1..]) + EncodeItems(b);
    }
  }

  lemma EncodeOne(x: Item)
    ensures EncodeItems([x]) == EncodeItem(x)
  {
    assert EncodeItems([x]) == EncodeItem(x) + EncodeItems([]);
  }

  /** A reader at `pos`, with items c.. still ahead. */
  ghost predicate ReaderAt(buf: seq<Token>, pos: nat, items: seq<Item>, c: nat) {
    pos <= |buf| && c <= |items| && buf[pos..] == EncodeItems(items[c..])
  }

  /** What the reader finds there. */
  lemma ReadItem(buf: seq<Token>, pos: nat, items: seq<Item>, c: nat)
    requires ReaderAt(buf, pos, items, c)
    ensures pos < |buf| <==> c < |items|
    ensures c < |items| ==>
              var x := items[c];
              && pos + 2 + |x.bytes| <= |buf|
              && buf[pos] == Pair(x.from, x.to) && buf[pos + 1] == Size(|x.bytes|)
              && buf[pos + 2..pos + 2 + |x.bytes|] == Bytes(x.bytes)
              && ReaderAt(buf, pos + 2 + |x.bytes|, items, c + 1)
  {
    if c < |items| {
      var x := items[c];
      var rest := EncodeItems(items[c + 1..]);
      assert items[c..][1..] == items[c + 1..];
      var tail := buf[pos..];
      assert tail == EncodeItem(x) + rest;
      assert |EncodeItem(x)| == 2 + |x.bytes|;
      assert tail[0] == Pair(x.from, x.to) && tail[1] == Size(|x.bytes|);
      assert tail[2..2 + |x.bytes|] == Bytes(x.bytes);
      assert tail[2 + |x.bytes|..] == rest;
      assert buf[pos + 2 + |x.bytes|..] == tail[2 + |x.bytes|..];
      assert buf[pos + 2..pos + 2 + |x.bytes|] == tail[2..2 + |x.bytes|];
    }
  }

  lemma ReaderAtStart(f: Frame)
    ensures ReaderAt(Encode(f), 1, f.items, 0)
  {
    assert Encode(f)[1..] == EncodeItems(f.items);
    assert f.items[0..] == f.items;
  }

  // ---------- serialized length ----------

  /** sizeof(std::pair<int,int>), sizeof(size_t) and one char. */
  function Width(t: Token): nat {
    match t
    case Pair(_, _) => 8
    case Size(_) => 8
    case Byte(_) => 1
  }

  function Length(buf: seq<Token>): nat {
    if buf == [] then 0 else Width(buf[0]) + Length(buf[1..])
  }

  lemma {:induction false} LengthConcat(a: seq<Token>, b: seq<Token>)
    ensures Length(a + b) == Length(a) + Length(b)
  {
    if a == [] {
      assert a + b == b;
    } else {
      assert (a + b)[1..] == a[1..] + b;
      LengthConcat(a[1..], b);
    }
  }

  lemma {:induction false} LengthBytes(bytes: seq<int>)
    ensures Length(Bytes(bytes)) == |bytes|
  {
    if bytes != [] {
      assert Bytes(bytes)[1..] == Bytes(bytes[1..]);
      LengthBytes(bytes[1..]);
    }
  }

  lemma LengthItem(x: Item)
    ensures Length(EncodeItem(x)) == 16 + |x.bytes|
  {
    var head := [Pair(x.from, x.to), Size(|x.bytes|)];
    LengthConcat(head, Bytes(x.bytes));
    LengthBytes(x.bytes);
    assert Length(head) == Width(head[0]) + Length(head[1..]);
    assert Length(head[1..]) == Width(head[1]) + Length(head[1..][1..]);
  }

  // ---------- routing ----------

  /** The items that go to partner j when the targets from lo on are dealt out in runs of `group`. */
  function Select(items: seq<Item>, lo: int, group: nat, j: int): seq<Item>
    requires group > 0
  {
    if items == [] then []
    else if (items[0].to - lo) / group == j then [items[0]] + Select(items[1..], lo, group, j)
    else Select(items[1..], lo, group, j)
  }

  lemma {:induction false} SelectConcat(a: seq<Item>, b: seq<Item>, lo: int, group: nat, j: int)
    requires group > 0
    ensures Select(a + b, lo, group, j) == Select(a, lo, group, j) + Select(b, lo, group, j)
  {
    if a == [] {
      assert a + b == b;
    } else {
      assert (a + b)[1..] == a[1..] + b;
      SelectConcat(a[1..], b, lo, group, j);
    }
  }

  function AllItems(frames: seq<Frame>): seq<Item> {
    if frames == [] then [] else AllItems(frames[..|frames| - 1]) + frames[|frames| - 1].items
  }

  /** The buffers a block sends on: partner j gets its share of the targets and of the items, in order. */
  function NextFrame(items: seq<Item>, lo: int, group: nat, j: int): Frame
    requires group > 0
  {
    Frame(lo + group * j, lo + group * (j + 1), Select(items, lo, group, j))
  }

  /** Every incoming buffer covers the same targets and holds items for those targets only. */
  ghost predicate WellRouted(frames: seq<Frame>, lo: int, hi: int) {
    forall i :: 0 <= i < |frames| ==>
      frames[i].lo == lo && frames[i].hi == hi &&
      forall c :: 0 <= c < |frames[i].items| ==> lo <= frames[i].items[c].to < hi
  }

  /** Serializes the block's own queues for targets lo..hi. */
  method OwnBuffer(gid: int, queues: seq<seq<int>>, lo: nat, hi: nat) returns (out: seq<Token>)
    requires lo <= hi <= |queues|
    ensures out == Encode(Frame(lo, hi, OwnItems(gid, queues, lo, hi)))
  {
    out := [Pair(lo, hi)];
    for t := lo to hi
      invariant out == Encode(Frame(lo, hi, OwnItems(gid, queues, lo, t)))
    {
      OwnNext(gid, queues, lo, hi, t);
      var record := [Pair(gid, t)] + ([Size(|queues[t]|)] + Bytes(queues[t]));
      assert record == EncodeItem(Item(gid, t, queues[t]));
      out := out + record;
    }
  }

  lemma OwnNext(gid: int, queues: seq<seq<int>>, lo: nat, hi: nat, t: nat)
    requires lo <= t < hi <= |queues|
    ensures Encode(Frame(lo, hi, OwnItems(gid, queues, lo, t + 1)))
         == Encode(Frame(lo, hi, OwnItems(gid, queues, lo, t))) + EncodeItem(Item(gid, t, queues[t]))
  {
    var item := Item(gid, t, queues[t]);
    EncodeMore(lo, hi, OwnItems(gid, queues, lo, t), [item]);
    EncodeOne(item);
  }

  lemma RunBounds(i: nat, k: nat, group: nat)
    requires i < k
    ensures 0 <= i * group <= (i + 1) * group <= k * group
  {
    MulMono(0, i, group);
    MulMono(i, i + 1, group);
    MulMono(i + 1, k, group);
  }

  /** The initial round: `queues[t]` is what the block enqueued for target t. */
  method FirstRound(gid: int, queues: seq<seq<int>>, kOut: nat, group: nat) returns (outs: seq<seq<Token>>)
    requires |queues| == kOut * group
    ensures |outs| == kOut
    ensures forall i :: 0 <= i < kOut ==>
        (i + 1) * group <= |queues| && outs[i] == Encode(FirstFrame(gid, queues, group, i))
  {
    outs := [];
    for i := 0 to kOut
      invariant |outs| == i
      invariant forall h :: 0 <= h < i ==>
          (h + 1) * group <= |queues| && outs[h] == Encode(FirstFrame(gid, queues, group, h))
    {
      RunBounds(i, kOut, group);
      var out := OwnBuffer(gid, queues, i * group, (i + 1) * group);
      outs := outs + [out];
    }
  }

  /** The block's own items for targets lo..hi. */
  function OwnItems(gid: int, queues: seq<seq<int>>, lo: nat, hi: nat): seq<Item>
    requires hi <= |queues|
    decreases hi - lo
  {
    if hi <= lo then [] else OwnItems(gid, queues, lo, hi - 1) + [Item(gid, hi - 1, queues[hi - 1])]
  }

  function FirstFrame(gid: int, queues: seq<seq<int>>, group: nat, i: nat): Frame
    requires (i + 1) * group <= |queues|
  {
    RunBounds(i, i + 1, group);
    Frame(i * group, (i + 1) * group, OwnItems(gid, queues, i * group, (i + 1) * group))
  }

  lemma AllItemsPrefix(frames: seq<Frame>, i: nat)
    requires i < |frames|
    ensures AllItems(frames[..i + 1]) == AllItems(frames[..i]) + frames[i].items
  {
    assert frames[..i + 1][..i] == frames[..i];
  }

  lemma EncodeMore(lo: int, hi: int, a: seq<Item>, b: seq<Item>)
    ensures Encode(Frame(lo, hi, a + b)) == Encode(Frame(lo, hi, a)) + EncodeItems(b)
  {
    EncodeConcat(a, b);
    Prepend([Pair(lo, hi)], EncodeItems(a), EncodeItems(b));
  }

  lemma Prepend(head: seq<Token>, a: seq<Token>, b: seq<Token>)
    ensures head + (a + b) == head + a + b
  {
  }

  lemma SelectOne(x: Item, lo: int, group: nat, j: int)
    requires group > 0
    ensures Select([x], lo, group, j) == if (x.to - lo) / group == j then [x] else []
  {
    assert [x][1..] == [];
    assert Select([], lo, group, j) == [];
  }

  lemma EncodeNext(done: seq<Item>, x: Item, lo: int, group: nat, j: int)
    requires group > 0
    ensures Encode(NextFrame(done + [x], lo, group, j))
         == Encode(NextFrame(done, lo, group, j)) + (if (x.to - lo) / group == j then EncodeItem(x) else [])
  {
    SelectConcat(done, [x], lo, group, j);
    SelectOne(x, lo, group, j);
    EncodeMore(lo + group * j, lo + group * (j + 1), Select(done, lo, group, j), Select([x], lo, group, j));
    EncodeOne(x);
  }

  /** The outgoing buffers once the items of `done` have been dealt out. */
  ghost predicate Dealt(outs: seq<seq<Token>>, done: seq<Item>, kOut: nat, lo: int, group: nat)
    requires group > 0
  {
    |outs| == kOut && forall j :: 0 <= j < kOut ==> outs[j] == Encode(NextFrame(done, lo, group, j))
  }

  ghost predicate DealtSizes(sizes: seq<nat>, done: seq<Item>, kOut: nat, lo: int, group: nat)
    requires group > 0
  {
    |sizes| == kOut && forall j :: 0 <= j < kOut ==> sizes[j] == Length(Encode(NextFrame(done, lo, group, j)))
  }

  lemma DealNext(outs: seq<seq<Token>>, done: seq<Item>, x: Item, kOut: nat, lo: int, group: nat, j: int)
    requires group > 0 && Dealt(outs, done, kOut, lo, group) && 0 <= j < kOut && (x.to - lo) / group == j
    ensures Dealt(outs[j := outs[j] + EncodeItem(x)], done + [x], kOut, lo, group)
  {
    forall h | 0 <= h < kOut
      ensures outs[j := outs[j] + EncodeItem(x)][h] == Encode(NextFrame(done + [x], lo, group, h))
    {
      EncodeNext(done, x, lo, group, h);
      if h != j {
        assert outs[h] + [] == outs[h];
      }
    }
  }

  lemma DealNextSize(sizes: seq<nat>, done: seq<Item>, x: Item, kOut: nat, lo: int, group: nat, j: int)
    requires group > 0 && DealtSizes(sizes, done, kOut, lo, group) && 0 <= j < kOut && (x.to - lo) / group == j
    ensures DealtSizes(sizes[j := sizes[j] + |x.bytes| + 16], done + [x], kOut, lo, group)
  {
    LengthItem(x);
    forall h | 0 <= h < kOut
      ensures sizes[j := sizes[j] + |x.bytes| + 16][h] == Length(Encode(NextFrame(done + [x], lo, group, h)))
    {
      EncodeNext(done, x, lo, group, h);
      LengthConcat(Encode(NextFrame(done, lo, group, h)), if h == j then EncodeItem(x) else []);
    }
  }

  lemma PartnerInRange(to: int, lo: int, group: nat, kOut: nat)
    requires group > 0 && lo <= to < lo + kOut * group
    ensures 0 <= (to - lo) / group < kOut
  {
    DivNonneg(to - lo, group);
    QuotientBound(to - lo, group, kOut);
  }

  method SizesOfBuffer(buf: seq<Token>, ghost f: Frame, ghost done: seq<Item>, kOut: nat, lo: int, group: nat,
          before: seq<nat>)
    returns (sizes: seq<nat>)
    requires buf == Encode(f) && group > 0 && DealtSizes(before, done, kOut, lo, group)
    requires forall c :: 0 <= c < |f.items| ==> lo <= f.items[c].to < lo + kOut * group
    ensures DealtSizes(sizes, done + f.items, kOut, lo, group)
  {
    ReaderAtStart(f);
    sizes := before;
    var pos := 1;
    ghost var c, seen := 0, done;
    while pos < |buf|
      invariant ReaderAt(buf, pos, f.items, c)
      invariant seen == done + f.items[..c] && DealtSizes(sizes, seen, kOut, lo, group)
      decreases |buf| - pos
    {
      ReadItem(buf, pos, f.items, c);
      ghost var x := f.items[c];
      PartnerInRange(x.to, lo, group, kOut);
      var j := (buf[pos].second - lo) / group;
      var s := buf[pos + 1].n;
      DealNextSize(sizes, seen, x, kOut, lo, group, j);
      sizes := sizes[j := sizes[j] + s + 16];
      seen := seen + [x];
      pos := pos + 2 + s;
      c := c + 1;
    }
    ReadItem(buf, pos, f.items, c);
    assert f.items[..c] == f.items;
  }

  /** First pass of an intermediate round: adds up the sizes of the outgoing buffers. */
  method OutgoingSizes(ins: seq<seq<Token>>, ghost frames: seq<Frame>, kOut: nat, lo: int, group: nat)
    returns (sizes: seq<nat>)
    requires |ins| == |frames| && (forall i :: 0 <= i < |ins| ==> ins[i] == Encode(frames[i]))
    requires group > 0 && WellRouted(frames, lo, lo + kOut * group)
    ensures DealtSizes(sizes, AllItems(frames), kOut, lo, group)
  {
    sizes := seq(kOut, _ => 8);
    forall j | 0 <= j < kOut ensures Length(Encode(NextFrame([], lo, group, j))) == 8 {
      assert Encode(NextFrame([], lo, group, j))[1..] == [];
    }
    for i := 0 to |ins|
      invariant DealtSizes(sizes, AllItems(frames[..i]), kOut, lo, group)
    {
      AllItemsPrefix(frames, i);
      sizes := SizesOfBuffer(ins[i], frames[i], AllItems(frames[..i]), kOut, lo, group, sizes);
    }
    assert frames[..|ins|] == frames;
  }

  method RedirectBuffer(buf: seq<Token>, ghost f: Frame, ghost done: seq<Item>, kOut: nat, lo: int, group: nat,
          before: seq<seq<Token>>)
    returns (outs: seq<seq<Token>>)
    requires buf == Encode(f) && group > 0 && Dealt(before, done, kOut, lo, group)
    requires forall c :: 0 <= c < |f.items| ==> lo <= f.items[c].to < lo + kOut * group
    ensures Dealt(outs, done + f.items, kOut, lo, group)
  {
    ReaderAtStart(f);
    outs := before;
    var pos := 1;
    ghost var c, seen := 0, done;
    while pos < |buf|
      invariant ReaderAt(buf, pos, f.items, c)
      invariant seen == done + f.items[..c] && Dealt(outs, seen, kOut, lo, group)
      decreases |buf| - pos
    {
      ReadItem(buf, pos, f.items, c);
      ghost var x := f.items[c];
      PartnerInRange(x.to, lo, group, kOut);
      var j := (buf[pos].second - lo) / group;
      var s := buf[pos + 1].n;
      var copied := [buf[pos]] + buf[pos + 1..pos + 2 + s];
      CopiedItem(buf, pos, x);
      DealNext(outs, seen, x, kOut, lo, group, j);
      outs := outs[j := outs[j] + copied];
      seen := seen + [x];
      pos := pos + 2 + s;
      c := c + 1;
    }
    ReadItem(buf, pos, f.items, c);
    assert f.items[..c] == f.items;
  }

  /** Copying a queue together with its size word copies its whole record. */
  lemma CopiedItem(buf: seq<Token>, pos: nat, x: Item)
    requires pos + 2 + |x.bytes| <= |buf| && buf[pos] == Pair(x.from, x.to) && buf[pos + 1] == Size(|x.bytes|)
    requires buf[pos + 2..pos + 2 + |x.bytes|] == Bytes(x.bytes)
    ensures [buf[pos]] + buf[pos + 1..pos + 2 + |x.bytes|] == EncodeItem(x)
  {
    assert buf[pos + 1..pos + 2 + |x.bytes|] == [buf[pos + 1]] + buf[pos + 2..pos + 2 + |x.bytes|];
  }

  /** Second pass: copies every incoming item, bytes and all, to the buffer of its next partner. */
  method Redirect(ins: seq<seq<Token>>, ghost frames: seq<Frame>, kOut: nat, lo: int, group: nat)
    returns (outs: seq<seq<Token>>)
    requires |ins| == |frames| && (forall i :: 0 <= i < |ins| ==> ins[i] == Encode(frames[i]))
    requires group > 0 && WellRouted(frames, lo, lo + kOut * group)
    ensures Dealt(outs, AllItems(frames), kOut, lo, group)
  {
    outs := [];
    for i := 0 to kOut
      invariant |outs| == i
      invariant forall j :: 0 <= j < i ==> outs[j] == Encode(NextFrame([], lo, group, j))
    {
      outs := outs + [[Pair(lo + group * i, lo + group * (i + 1))]];
    }
    for i := 0 to |ins|
      invariant Dealt(outs, AllItems(frames[..i]), kOut, lo, group)
    {
      AllItemsPrefix(frames, i);
      outs := RedirectBuffer(ins[i], frames[i], AllItems(frames[..i]), kOut, lo, group, outs);
    }
    assert frames[..|ins|] == frames;
  }

  /** An intermediate round; the sizes reserved in the first pass are exact. */
  method IntermediateRound(ins: seq<seq<Token>>, ghost frames: seq<Frame>, kOut: nat)
    returns (outs: seq<seq<Token>>, reserved: seq<nat>)
    requires |ins| == |frames| > 0 && (forall i :: 0 <= i < |ins| ==> ins[i] == Encode(frames[i]))
    requires WellRouted(frames, frames[0].lo, frames[0].hi)
    requires kOut > 0 && frames[0].hi > frames[0].lo && (frames[0].hi - frames[0].lo) % kOut == 0
    ensures var group := (frames[0].hi - frames[0].lo) / kOut;
            group > 0 && Dealt(outs, AllItems(frames), kOut, frames[0].lo, group)
    ensures |reserved| == |outs| && forall j :: 0 <= j < |outs| ==> reserved[j] == Length(outs[j])
  {
    var last := |ins| - 1;
    assert ins[last][0] == Pair(frames[last].lo, frames[last].hi);
    var lo, hi := ins[last][0].first, ins[last][0].second;
    var group := (hi - lo) / kOut;
    ExactQuotient(hi - lo, kOut);
    reserved := OutgoingSizes(ins, frames, kOut, lo, group);
    outs := Redirect(ins, frames, kOut, lo, group);
  }

  /** Later items for the same source replace earlier ones. */
  function Deliver(items: seq<Item>): map<int, seq<int>> {
    if items == [] then map[] else
    var n := |items| - 1;
    Deliver(items[..n])[items[n].from := items[n].bytes]
  }

  function FromBytes(tokens: seq<Token>): seq<int>
    requires forall i :: 0 <= i < |tokens| ==> tokens[i].Byte?
  {
    seq(|tokens|, i requires 0 <= i < |tokens| => tokens[i].b)
  }

  lemma DeliverNext(done: seq<Item>, x: Item)
    ensures Deliver(done + [x]) == Deliver(done)[x.from := x.bytes]
  {
    assert (done + [x])[..|done|] == done;
  }

  method UnpackBuffer(buf: seq<Token>, ghost f: Frame, ghost done: seq<Item>, before: map<int, seq<int>>)
    returns (incoming: map<int, seq<int>>)
    requires buf == Encode(f) && before == Deliver(done)
    ensures incoming == Deliver(done + f.items)
  {
    ReaderAtStart(f);
    incoming := before;
    var pos := 1;
    ghost var c, seen := 0, done;
    while pos < |buf|
      invariant ReaderAt(buf, pos, f.items, c)
      invariant seen == done + f.items[..c] && incoming == Deliver(seen)
      decreases |buf| - pos
    {
      ReadItem(buf, pos, f.items, c);
      ghost var x := f.items[c];
      var from, s := buf[pos].first, buf[pos + 1].n;
      var payload := buf[pos + 2..pos + 2 + s];
      assert payload == Bytes(x.bytes);
      DecodeBytes(x.bytes);
      DeliverNext(seen, x);
      incoming := incoming[from := FromBytes(payload)];
      seen := seen + [x];
      pos := pos + 2 + s;
      c := c + 1;
    }
    ReadItem(buf, pos, f.items, c);
    assert f.items[..c] == f.items;
  }

  lemma DecodeBytes(bytes: seq<int>)
    ensures FromBytes(Bytes(bytes)) == bytes
  {
  }

  /** The final round: unpacks every item into the incoming queue of its source. */
  method FinalRound(ins: seq<seq<Token>>, ghost frames: seq<Frame>) returns (incoming: map<int, seq<int>>)
    requires |ins| == |frames| && forall i :: 0 <= i < |ins| ==> ins[i] == Encode(frames[i])
    ensures incoming == Deliver(AllItems(frames))
  {
    incoming := map[];
    for i := 0 to |ins|
      invariant incoming == Deliver(AllItems(frames[..i]))
    {
      AllItemsPrefix(frames, i);
      incoming := UnpackBuffer(ins[i], frames[i], AllItems(frames[..i]), incoming);
    }
    assert frames[..|ins|] == frames;
  }
}
