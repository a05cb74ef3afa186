/** How a queue travels to another process: one message, or a head, pieces and blobs; and how the
    receiver puts it together again. */
module Framing {
  import opened Arith
  import opened Options

  // ---------- bytes ----------

  type Bytes = seq<int>

  datatype Info = Info(from: int, to: int, nparts: int, round: int, nblobs: int)

  const INFO := 20
  const SIZE := 8

  /** An int takes four bytes; only that it can be read back matters here. */
  function IntBytes(v: int): Bytes {
    [v, 0, 0, 0]
  }

  function SizeBytes(v: int): Bytes {
    [v, 0, 0, 0, 0, 0, 0, 0]
  }

  function EncodeInfo(i: Info): (s: Bytes)
    ensures |s| == INFO
  {
    IntBytes(i.from) + IntBytes(i.to) + IntBytes(i.nparts) + IntBytes(i.round) + IntBytes(i.nblobs)
  }

  function DecodeInfo(s: Bytes): Info
    requires |s| == INFO
  {
    Info(s[0], s[4], s[8], s[12], s[16])
  }

  lemma InfoRoundTrip(i: Info)
    ensures DecodeInfo(EncodeInfo(i)) == i
  {
  }

  // ---------- MemoryBuffer ----------

  /** `save_binary`: writes at the position, growing the buffer when it reaches past the end. */
  function SaveAt(buffer: Bytes, position: nat, x: Bytes): (s: Bytes)
    requires position <= |buffer|
  {
    buffer[..position] + x + (if position + |x| <= |buffer| then buffer[position + |x|..] else [])
  }

  class MemoryBuffer {
    var buffer: Bytes
    var position: nat

    ghost predicate Valid()
      reads this
    {
      position <= |buffer|
    }

    constructor (bytes: Bytes, pos: nat)
      requires pos <= |bytes|
      ensures Valid() && buffer == bytes && position == pos
    {
      buffer, position := bytes, pos;
    }

    method SaveBinary(x: Bytes)
      requires Valid()
      modifies this
      ensures Valid() && buffer == SaveAt(old(buffer), old(position), x) && position == old(position) + |x|
    {
      var count := |x|;
      if position + count > |buffer| {
        buffer := buffer + seq(position + count - |buffer|, _ => 0);
      }
      buffer := buffer[..position] + x + buffer[position + count..];
      position := position + count;
    }

    method LoadBinary(count: nat) returns (x: Bytes)
      requires Valid() && position + count <= |buffer|
      modifies this`position
      ensures Valid() && position == old(position) + count && x == buffer[old(position)..position]
    {
      x := buffer[position..position + count];
      position := position + count;
    }

    /** Takes the bytes off the back; the position is left alone. */
    method LoadBinaryBack(count: nat) returns (x: Bytes)
      requires count <= |buffer|
      modifies this`buffer
      ensures old(buffer) == buffer + x && |x| == count
    {
      x := buffer[|buffer| - count..];
      buffer := buffer[..|buffer| - count];
    }
  }

  /** Saving the info and taking it off the back again gives back info and bytes exactly when the
      position was at the end of the buffer. */
  lemma FramedBack(buffer: Bytes, position: nat, info: Bytes)
    requires position <= |buffer| && |info| > 0
    ensures |SaveAt(buffer, position, info)| >= |info|
    ensures var s := SaveAt(buffer, position, info);
            (s[..|s| - |info|] == buffer && s[|s| - |info|..] == info) <==> position == |buffer|
  {
    var s := SaveAt(buffer, position, info);
    if position == |buffer| {
      assert s == buffer + info;
    } else {
      assert |s[..|s| - |info|]| < |buffer|;
    }
  }

  /** One byte, saved into a buffer of two at its beginning, is not at the back. */
  lemma NotFramedBack(s: Bytes)
    requires s == SaveAt([7, 8], 0, [9])
    ensures s == [9, 8] && s[..1] != [7, 8] && s[1..] != [9]
  {
    assert s[0] == 9 && s[1] == 8;
  }

  // ---------- sending ----------

  /** A queue with its blobs, as the sender's proxy left it: the position is at the end. */
  datatype Queue = Queue(from: int, to: int, round: int, bytes: Bytes, blobs: seq<Bytes>)

  function Pieces(bytes: Bytes, max: nat): seq<Bytes>
    requires max > 0
  {
    if bytes == [] then []
    else if |bytes| <= max then [bytes]
    else [bytes[..max]] + Pieces(bytes[max..], max)
  }

  lemma {:induction false} PieceCount(bytes: Bytes, max: nat)
    requires max > 0
    ensures |Pieces(bytes, max)| == (|bytes| + max - 1) / max
  {
    var n := |bytes|;
    if n == 0 {
      DivUnique(max - 1, max, 0, max - 1);
    } else if n <= max {
      DivUnique(n + max - 1, max, 1, n - 1);
    } else {
      PieceCount(bytes[max..], max);
      DivNonneg(n - 1, max);
      DivUnique(n + max - 1, max, (n - 1) / max + 1, (n - 1) % max);
    }
  }

  /** The messages a queue is sent as, for a limit of max bytes per message. */
  function Frames(q: Queue, max: nat): seq<Bytes>
    requires max > 0
  {
    if SIZE + |q.bytes| + INFO <= max then
      [q.bytes + EncodeInfo(Info(q.from, q.to, 1, q.round, |q.blobs|))] + q.blobs
    else
      var pieces := Pieces(q.bytes, max);
      [SizeBytes(|q.bytes|) + EncodeInfo(Info(q.from, q.to, 1 + |pieces|, q.round, |q.blobs|))] + pieces + q.blobs
  }

  lemma NextPiece(bytes: Bytes, at: nat, max: nat, count: nat, pieces: seq<Bytes>)
    requires max > 0 && at < |bytes| && count == if max < |bytes| - at then max else |bytes| - at
    ensures pieces + Pieces(bytes[at..], max) == pieces + [bytes[at..at + count]] + Pieces(bytes[at + count..], max)
  {
    var rest := bytes[at..];
    assert bytes[at..at + count] == rest[..count] && bytes[at + count..] == rest[count..];
    if |rest| <= max {
      assert rest[..count] == rest && rest[count..] == [];
      assert Pieces(rest, max) == [rest] + Pieces([], max);
    }
  }

  /** The loop that cuts a large buffer up. */
  method CutUp(bytes: Bytes, max: nat) returns (pieces: seq<Bytes>)
    requires max > 0
    ensures pieces == Pieces(bytes, max)
  {
    PieceCount(bytes, max);
    var npieces := (|bytes| + max - 1) / max;
    pieces := [];
    var at := 0;
    for i := 0 to npieces
      invariant 0 <= at <= |bytes| && |pieces| == i
      invariant pieces + Pieces(bytes[at..], max) == Pieces(bytes, max)
      invariant |pieces| + |Pieces(bytes[at..], max)| == npieces
    {
      var count := if max < |bytes| - at then max else |bytes| - at;
      NextPiece(bytes, at, max, count, pieces);
      pieces := pieces + [bytes[at..at + count]];
      at := at + count;
    }
    assert Pieces(bytes[at..], max) == [];
  }

  method SendDifferentRank(from: int, to: int, round: int, buffer: MemoryBuffer, blobs: seq<Bytes>, max: nat)
    returns (messages: seq<Bytes>)
    requires buffer.position == |buffer.buffer| && max > 0
    modifies buffer
    ensures messages == Frames(Queue(from, to, round, old(buffer.buffer), blobs), max)
  {
    var info := Info(from, to, 1, round, |blobs|);
    if SIZE + buffer.position + INFO <= max {
      buffer.SaveBinary(EncodeInfo(info));
      assert buffer.buffer == old(buffer.buffer) + EncodeInfo(info);
      messages := [buffer.buffer];
    } else {
      var pieces := CutUp(buffer.buffer, max);
      info := info.(nparts := info.nparts + |pieces|);
      var head := new MemoryBuffer([], 0);
      head.SaveBinary(SizeBytes(|buffer.buffer|));
      head.SaveBinary(EncodeInfo(info));
      assert head.buffer == SizeBytes(|buffer.buffer|) + EncodeInfo(info);
      messages := [head.buffer] + pieces;
    }
    assert blobs[0..] == blobs;
    assert messages + blobs == Frames(Queue(from, to, round, old(buffer.buffer), blobs), max);
    for i := 0 to |blobs|
      invariant messages + blobs[i..] == Frames(Queue(from, to, round, old(buffer.buffer), blobs), max)
    {
      assert blobs[i..] == [blobs[i]] + blobs[i + 1..];
      messages := messages + [blobs[i]];
    }
  }

  lemma {:induction false} PiecesFit(bytes: Bytes, max: nat)
    requires max > 0
    ensures forall i :: 0 <= i < |Pieces(bytes, max)| ==> 0 < |Pieces(bytes, max)[i]| <= max
  {
    if |bytes| > max { PiecesFit(bytes[max..], max); }
  }

  /** No message but a blob exceeds the limit. */
  lemma FramesFit(q: Queue, max: nat)
    requires max >= SIZE + INFO
    ensures forall i :: 0 <= i < |Frames(q, max)| - |q.blobs| ==> |Frames(q, max)[i]| <= max
  {
    PiecesFit(q.bytes, max);
  }

  /** A queue that fits with its header is one message, a larger one a head and as many pieces as it takes. */
  lemma FrameCount(q: Queue, max: nat)
    requires max > 0
    ensures |Frames(q, max)| - |q.blobs|
         == if SIZE + |q.bytes| + INFO <= max then 1 else 1 + (|q.bytes| + max - 1) / max
  {
    PieceCount(q.bytes, max);
  }

  // ---------- receiving ----------

  datatype InFlight = InFlight(message: Bytes, blobs: seq<Bytes>, info: Info, done: bool)

  const FRESH := InFlight([], [], Info(-1, -1, -1, -1, -1), false)

  function Finish(r: InFlight): InFlight {
    r.(done := r.done || (r.info.nparts == 0 && r.info.nblobs == 0))
  }

  /** One `recv`: the first message of a queue ends with the info; pieces and blobs come bare. */
  function RecvStep(r: InFlight, frame: Bytes): InFlight {
    if r.info.from == -1 then
      if |frame| < INFO then r else
      var info := DecodeInfo(frame[|frame| - INFO..]);
      var left := info.(nparts := info.nparts - 1);
      Finish(r.(info := left, message := if left.nparts > 0 then r.message else frame[..|frame| - INFO]))
    else if r.info.nparts > 0 then
      Finish(r.(message := r.message + frame, info := r.info.(nparts := r.info.nparts - 1)))
    else if r.info.nblobs > 0 then
      Finish(r.(blobs := r.blobs + [frame], info := r.info.(nblobs := r.info.nblobs - 1)))
    else Finish(r)
  }

  /** What `place` files, once the queue is complete. */
  function Placed(r: InFlight): Queue {
    Queue(r.info.from, r.info.to, r.info.round, r.message, r.blobs)
  }

  class InFlightRecv {
    var message: Bytes
    var blobs: seq<Bytes>
    var info: Info
    var done: bool

    ghost function View(): InFlight
      reads this
    {
      InFlight(message, blobs, info, done)
    }

    constructor ()
      ensures View() == FRESH
    {
      message, blobs, info, done := [], [], Info(-1, -1, -1, -1, -1), false;
    }

    /** Returns whether this was the first message of its queue. */
    method Recv(bb: MemoryBuffer) returns (first: bool)
      requires this.info.from == -1 ==> |bb.buffer| >= INFO
      modifies this, bb
      ensures View() == RecvStep(old(View()), old(bb.buffer))
      ensures first == (old(info).from == -1)
    {
      first := false;
      if info.from == -1 {
        var x := bb.LoadBinaryBack(INFO);
        assert old(bb.buffer)[|old(bb.buffer)| - INFO..] == x && old(bb.buffer)[..|old(bb.buffer)| - INFO] == bb.buffer;
        info := DecodeInfo(x);
        info := info.(nparts := info.nparts - 1);
        if info.nparts <= 0 {
          message := bb.buffer;
        }
        first := true;
      } else if info.nparts > 0 {
        message := message + bb.buffer;
        info := info.(nparts := info.nparts - 1);
      } else if info.nblobs > 0 {
        blobs := blobs + [bb.buffer];
        info := info.(nblobs := info.nblobs - 1);
      }
      if info.nparts == 0 && info.nblobs == 0 {
        done := true;
      }
    }

    method Reset()
      modifies this
      ensures View() == FRESH
    {
      message, blobs, info, done := [], [], Info(-1, -1, -1, -1, -1), false;
    }

    /** One message of check_incoming_queues: a completed queue is placed and the state reset. */
    method Check(bb: MemoryBuffer) returns (placed: Option<Queue>, first: bool)
      requires this.info.from == -1 ==> |bb.buffer| >= INFO
      modifies this, bb
      ensures (View(), placed) == Advance(old(View()), old(bb.buffer))
      ensures first == (old(info).from == -1)
    {
      placed := None;
      first := Recv(bb);
      if done {
        placed := Some(Queue(info.from, info.to, info.round, message, blobs));
        Reset();
      }
    }
  }

  function Advance(r: InFlight, frame: Bytes): (InFlight, Option<Queue>) {
    var s := RecvStep(r, frame);
    if s.done then (FRESH, Some(Placed(s))) else (s, None)
  }

  /** Everything received from one source, message by message in order. */
  function Receive(r: InFlight, frames: seq<Bytes>): (InFlight, seq<Queue>)
    decreases |frames|
  {
    if frames == [] then (r, []) else
    var (s, placed) := Advance(r, frames[0]);
    var (t, more) := Receive(s, frames[1..]);
    if placed.Some? then (t, [placed.value] + more) else (t, more)
  }

  lemma {:induction false} ReceiveConcat(r: InFlight, a: seq<Bytes>, b: seq<Bytes>)
    ensures Receive(r, a + b).0 == Receive(Receive(r, a).0, b).0
    ensures Receive(r, a + b).1 == Receive(r, a).1 + Receive(Receive(r, a).0, b).1
    decreases |a|
  {
    if a == [] {
      assert a + b == b;
    } else {
      assert (a + b)[1..] == a[1..] + b;
      ReceiveConcat(Advance(r, a[0]).0, a[1..], b);
    }
  }

  /** The last message of a queue leaves the receiver idle. */
  lemma LastMessage(r: InFlight, frame: Bytes)
    requires RecvStep(r, frame).done
    ensures Receive(r, [frame]) == (FRESH, [Placed(RecvStep(r, frame))])
  {
    assert [frame][1..] == [];
    var queue := Placed(RecvStep(r, frame));
    assert Receive(FRESH, []) == (FRESH, []);
    assert [queue] + [] == [queue];
  }

  lemma NotLast(r: InFlight, frame: Bytes, rest: seq<Bytes>)
    requires !RecvStep(r, frame).done
    ensures Receive(r, [frame] + rest) == Receive(RecvStep(r, frame), rest)
  {
    assert ([frame] + rest)[1..] == rest;
  }

  /** The state in the middle of queue q: so many pieces and blobs still to come. */
  ghost predicate Midway(r: InFlight, q: Queue, nparts: nat, nblobs: nat) {
    r.info == Info(q.from, q.to, nparts, q.round, nblobs) && !r.done && nparts + nblobs > 0
  }

  /** Bare blobs complete the queue. */
  lemma {:induction false} BlobsComplete(r: InFlight, q: Queue, blobs: seq<Bytes>)
    requires q.from != -1 && |blobs| > 0 && Midway(r, q, 0, |blobs|)
    ensures Receive(r, blobs) == (FRESH, [q.(bytes := r.message, blobs := r.blobs + blobs)])
    decreases |blobs|
  {
    var s := RecvStep(r, blobs[0]);
    assert blobs == [blobs[0]] + blobs[1..];
    assert r.blobs + blobs == s.blobs + blobs[1..];
    if |blobs| == 1 {
      LastMessage(r, blobs[0]);
      assert blobs == [blobs[0]];
    } else {
      NotLast(r, blobs[0], blobs[1..]);
      BlobsComplete(s, q, blobs[1..]);
    }
  }

  lemma {:induction false} Flatten(pieces: seq<Bytes>, bytes: Bytes, max: nat)
    requires max > 0 && pieces == Pieces(bytes, max)
    ensures Joined(pieces) == bytes
  {
    if |bytes| > max {
      Flatten(Pieces(bytes[max..], max), bytes[max..], max);
      assert bytes == bytes[..max] + bytes[max..];
    }
  }

  function Joined(pieces: seq<Bytes>): Bytes {
    if pieces == [] then [] else pieces[0] + Joined(pieces[1..])
  }

  /** Pieces, then blobs, complete the queue. */
  lemma {:induction false} PiecesComplete(r: InFlight, q: Queue, pieces: seq<Bytes>, blobs: seq<Bytes>)
    requires q.from != -1 && |pieces| > 0 && Midway(r, q, |pieces|, |blobs|)
    ensures Receive(r, pieces + blobs) == (FRESH, [q.(bytes := r.message + Joined(pieces), blobs := r.blobs + blobs)])
    decreases |pieces|
  {
    var s := RecvStep(r, pieces[0]);
    var rest := pieces[1..] + blobs;
    assert pieces + blobs == [pieces[0]] + rest;
    assert r.message + Joined(pieces) == s.message + Joined(pieces[1..]);
    if |pieces| > 1 {
      NotLast(r, pieces[0], rest);
      PiecesComplete(s, q, pieces[1..], blobs);
    } else if blobs != [] {
      assert rest == blobs;
      NotLast(r, pieces[0], blobs);
      BlobsComplete(s, q, blobs);
      assert Joined(pieces[1..]) == [] && s.message + [] == s.message;
    } else {
      assert pieces + blobs == [pieces[0]];
      LastMessage(r, pieces[0]);
      assert Joined(pieces[1..]) == [] && s.message + [] == s.message && r.blobs + blobs == r.blobs;
    }
  }

  /** The messages of one queue, arriving in order at an idle receiver, give back exactly that queue. */
  lemma OneQueue(q: Queue, max: nat)
    requires q.from != -1 && max >= SIZE + INFO
    ensures Receive(FRESH, Frames(q, max)) == (FRESH, [q])
  {
    if SIZE + |q.bytes| + INFO <= max {
      SmallQueue(q);
    } else {
      LargeQueue(q, Pieces(q.bytes, max), max);
    }
  }

  lemma SmallQueue(q: Queue)
    requires q.from != -1
    ensures Receive(FRESH, [q.bytes + EncodeInfo(Info(q.from, q.to, 1, q.round, |q.blobs|))] + q.blobs) == (FRESH, [q])
  {
    var info := Info(q.from, q.to, 1, q.round, |q.blobs|);
    var head := q.bytes + EncodeInfo(info);
    HeadIs(q.bytes, info);
    if q.blobs == [] {
      LastMessage(FRESH, head);
      assert [head] + q.blobs == [head];
    } else {
      NotLast(FRESH, head, q.blobs);
      BlobsComplete(RecvStep(FRESH, head), q, q.blobs);
      assert [] + q.blobs == q.blobs;
    }
  }

  lemma LargeQueue(q: Queue, pieces: seq<Bytes>, max: nat)
    requires q.from != -1 && max > 0 && pieces == Pieces(q.bytes, max) && q.bytes != []
    ensures var info := Info(q.from, q.to, 1 + |pieces|, q.round, |q.blobs|);
            Receive(FRESH, [SizeBytes(|q.bytes|) + EncodeInfo(info)] + pieces + q.blobs) == (FRESH, [q])
  {
    var info := Info(q.from, q.to, 1 + |pieces|, q.round, |q.blobs|);
    var head := SizeBytes(|q.bytes|) + EncodeInfo(info);
    HeadIs(SizeBytes(|q.bytes|), info);
    Flatten(pieces, q.bytes, max);
    assert [head] + pieces + q.blobs == [head] + (pieces + q.blobs);
    NotLast(FRESH, head, pieces + q.blobs);
    PiecesComplete(RecvStep(FRESH, head), q, pieces, q.blobs);
    assert [] + q.bytes == q.bytes && [] + q.blobs == q.blobs;
  }

  lemma HeadIs(bytes: Bytes, info: Info)
    ensures var frame := bytes + EncodeInfo(info);
            frame[..|frame| - INFO] == bytes && DecodeInfo(frame[|frame| - INFO..]) == info
  {
    var frame := bytes + EncodeInfo(info);
    assert frame[|frame| - INFO..] == EncodeInfo(info);
    InfoRoundTrip(info);
  }

  /** The state after the first n messages of a queue, the last not among them: as many are to come as the
      receiver's counts say. */
  ghost predicate Awaiting(r: InFlight, q: Queue, max: nat, n: nat)
    requires max > 0
  {
    && !r.done && (n == 0 ==> r == FRESH)
    && (n > 0 ==> r.info.from == q.from && r.info.nparts >= 0 && r.info.nblobs >= 0
                  && r.info.nparts + r.info.nblobs == |Frames(q, max)| - n)
  }

  lemma FirstFrame(q: Queue, max: nat)
    requires q.from != -1 && max >= SIZE + INFO
    ensures |Frames(q, max)| > 0
    ensures var r := RecvStep(FRESH, Frames(q, max)[0]);
            && r.info.from == q.from && r.info.nparts >= 0 && r.info.nblobs >= 0
            && r.info.nparts + r.info.nblobs == |Frames(q, max)| - 1 && (r.done <==> |Frames(q, max)| == 1)
  {
    if SIZE + |q.bytes| + INFO <= max {
      HeadIs(q.bytes, Info(q.from, q.to, 1, q.round, |q.blobs|));
    } else {
      var pieces := Pieces(q.bytes, max);
      HeadIs(SizeBytes(|q.bytes|), Info(q.from, q.to, 1 + |pieces|, q.round, |q.blobs|));
    }
  }

  /** One more message: the count of those to come goes down, and reaches zero with the last. */
  lemma CountsDown(r: InFlight, q: Queue, max: nat, n: nat)
    requires q.from != -1 && max >= SIZE + INFO && n < |Frames(q, max)| && Awaiting(r, q, max, n)
    ensures var s := RecvStep(r, Frames(q, max)[n]);
            (s.done <==> n + 1 == |Frames(q, max)|) && (!s.done ==> Awaiting(s, q, max, n + 1))
  {
    if n == 0 { FirstFrame(q, max); }
  }

  /** Before its last message a queue is not placed. */
  lemma {:induction false} Countdown(q: Queue, max: nat, n: nat)
    requires q.from != -1 && max >= SIZE + INFO && n < |Frames(q, max)|
    ensures var (r, placed) := Receive(FRESH, Frames(q, max)[..n]);
            placed == [] && Awaiting(r, q, max, n)
  {
    var frames := Frames(q, max);
    if n == 0 {
      assert frames[..0] == [];
    } else {
      Countdown(q, max, n - 1);
      var r := Receive(FRESH, frames[..n - 1]).0;
      CountsDown(r, q, max, n - 1);
      assert frames[..n] == frames[..n - 1] + [frames[n - 1]];
      ReceiveConcat(FRESH, frames[..n - 1], [frames[n - 1]]);
      OneMessage(r, frames[n - 1]);
    }
  }

  lemma OneMessage(r: InFlight, frame: Bytes)
    ensures Receive(r, [frame]).0 == Advance(r, frame).0
    ensures Advance(r, frame).1.Some? ==> Receive(r, [frame]).1 == [Advance(r, frame).1.value]
    ensures Advance(r, frame).1.None? ==> Receive(r, [frame]).1 == []
  {
    assert [frame][1..] == [];
    var s := Advance(r, frame).0;
    assert Receive(s, []) == (s, []);
  }

  /** The next message of a queue at a receiver that has taken in the ones before it. */
  lemma NextFrame(q: Queue, max: nat, n: nat)
    requires q.from != -1 && max >= SIZE + INFO && n < |Frames(q, max)|
    ensures Advance(Receive(FRESH, Frames(q, max)[..n]).0, Frames(q, max)[n])
         == if n + 1 == |Frames(q, max)| then (FRESH, Some(q)) else (Receive(FRESH, Frames(q, max)[..n + 1]).0, None)
  {
    var frames := Frames(q, max);
    var r := Receive(FRESH, frames[..n]).0;
    Countdown(q, max, n);
    CountsDown(r, q, max, n);
    assert frames[..n + 1] == frames[..n] + [frames[n]];
    ReceiveConcat(FRESH, frames[..n], [frames[n]]);
    OneMessage(r, frames[n]);
    if n + 1 == |frames| {
      assert frames[..n + 1] == frames;
      OneQueue(q, max);
      assert ([] + [Advance(r, frames[n]).1.value])[0] == [q][0];
    }
  }

  function AllFrames(queues: seq<Queue>, max: nat): seq<Bytes>
    requires max > 0
  {
    if queues == [] then [] else Frames(queues[0], max) + AllFrames(queues[1..], max)
  }

  lemma PairIs<A, B>(p: (A, B), a: A, b: B)
    requires p.0 == a && p.1 == b
    ensures p == (a, b)
  {
  }

  /** Over a channel that keeps the order, any sequence of queues arrives as exactly that sequence, for
      every limit that fits a head. */
  lemma {:induction false} RoundTrip(queues: seq<Queue>, max: nat)
    requires max >= SIZE + INFO && forall i :: 0 <= i < |queues| ==> queues[i].from != -1
    ensures Receive(FRESH, AllFrames(queues, max)) == (FRESH, queues)
  {
    if queues != [] {
      var first, rest := Frames(queues[0], max), AllFrames(queues[1..], max);
      OneQueue(queues[0], max);
      RoundTrip(queues[1..], max);
      ReceiveConcat(FRESH, first, rest);
      assert [queues[0]] + queues[1..] == queues;
      PairIs(Receive(FRESH, first + rest), FRESH, queues);
    }
  }
}
