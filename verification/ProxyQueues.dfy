/** A proxy lends a callback one queue per neighbor and takes back what the callback enqueued. */
module ProxyQueues {

  type Buffer = seq<int>
  type Target = (int, int)

  /** The master's queues of one block, and the work counter of iexchange. */
  class Queues {
    var incoming: map<int, seq<Buffer>>
    var outgoing: map<Target, seq<Buffer>>
    var work: int

    constructor (incoming: map<int, seq<Buffer>>, outgoing: map<Target, seq<Buffer>>, work: int)
      ensures this.incoming == incoming && this.outgoing == outgoing && this.work == work
    {
      this.incoming, this.outgoing, this.work := incoming, outgoing, work;
    }
  }

  function Fronts(queues: map<int, seq<Buffer>>): map<int, Buffer> {
    map from | from in queues && queues[from] != [] :: queues[from][0]
  }

  function WithoutFronts(queues: map<int, seq<Buffer>>): map<int, seq<Buffer>> {
    map from | from in queues :: if queues[from] == [] then [] else queues[from][1..]
  }

  function Backs(queues: map<Target, seq<Buffer>>): map<Target, Buffer> {
    map to | to in queues && queues[to] != [] :: queues[to][|queues[to]| - 1]
  }

  function WithoutBacks(queues: map<Target, seq<Buffer>>): map<Target, seq<Buffer>> {
    map to | to in queues :: if queues[to] == [] then [] else queues[to][..|queues[to]| - 1]
  }

  /** Each lent queue goes back to the front of where it came from. */
  function WithFronts(queues: map<int, seq<Buffer>>, lent: map<int, Buffer>): map<int, seq<Buffer>> {
    map from | from in queues.Keys + lent.Keys ::
      (if from in lent then [lent[from]] else []) + (if from in queues then queues[from] else [])
  }

  /** Each enqueued buffer is appended to its target's queue. */
  function WithBacks(queues: map<Target, seq<Buffer>>, sent: map<Target, Buffer>): map<Target, seq<Buffer>> {
    map to | to in queues.Keys + sent.Keys ::
      (if to in queues then queues[to] else []) + (if to in sent then [sent[to]] else [])
  }

  /** Something serialized for a target. */
  type Item = (Target, Buffer)

  function Appended(sofar: map<Target, Buffer>, to: Target, x: Buffer): map<Target, Buffer> {
    sofar[to := (if to in sofar then sofar[to] else []) + x]
  }

  function AllAppended(sofar: map<Target, Buffer>, items: seq<Item>): map<Target, Buffer> {
    if items == [] then sofar
    else Appended(AllAppended(sofar, items[..|items| - 1]), items[|items| - 1].0, items[|items| - 1].1)
  }

  /** At most one queue per target: what flush sends when it sends only the front. */
  ghost predicate AtMostOne(queues: map<Target, seq<Buffer>>) {
    forall to :: to in queues ==> |queues[to]| <= 1
  }

  class Proxy {
    const master: Queues
    const iexchange: bool
    var incoming: map<int, Buffer>
    var outgoing: map<Target, Buffer>

    /** Outside iexchange, what earlier callbacks of the same round enqueued is taken back in. */
    constructor (master: Queues, iexchange: bool)
      modifies master
      ensures this.master == master && this.iexchange == iexchange
      ensures incoming == Fronts(old(master.incoming)) && master.incoming == WithoutFronts(old(master.incoming))
      ensures outgoing == (if iexchange then map[] else Backs(old(master.outgoing)))
      ensures master.outgoing == (if iexchange then old(master.outgoing) else WithoutBacks(old(master.outgoing)))
      ensures master.work == old(master.work) - if iexchange then |Fronts(old(master.incoming))| else 0
    {
      this.master, this.iexchange := master, iexchange;
      incoming, outgoing := map[], map[];
      new;
      var any := FillIncoming();
      if !iexchange {
        outgoing := Backs(master.outgoing);
        master.outgoing := WithoutBacks(master.outgoing);
      }
    }

    /** Takes the front of every nonempty incoming queue; each costs one unit of work. */
    method FillIncoming() returns (any: bool)
      modifies this`incoming, master`incoming, master`work
      ensures incoming == Fronts(old(master.incoming)) && master.incoming == WithoutFronts(old(master.incoming))
      ensures any <==> exists from :: from in old(master.incoming) && old(master.incoming)[from] != []
      ensures master.work == old(master.work) - if iexchange then |incoming| else 0
    {
      incoming := Fronts(master.incoming);
      any := exists from | from in master.incoming :: master.incoming[from] != [];
      master.incoming := WithoutFronts(master.incoming);
      if iexchange {
        master.work := master.work - |incoming|;
      }
    }

    /** Appends what was serialized to the buffer of the target, which it creates if need be. */
    method Enqueue(to: Target, x: Buffer)
      modifies this`outgoing
      ensures outgoing == Appended(old(outgoing), to, x)
    {
      outgoing := outgoing[to := (if to in outgoing then outgoing[to] else []) + x];
    }

    method EnqueueAll(items: seq<Item>)
      modifies this`outgoing
      ensures outgoing == AllAppended(old(outgoing), items)
    {
      for i := 0 to |items|
        invariant outgoing == AllAppended(old(outgoing), items[..i])
      {
        assert items[..i + 1][..i] == items[..i];
        Enqueue(items[i].0, items[i].1);
      }
      assert items[..|items|] == items;
    }

    /** The destructor: copies out what was enqueued, one unit of work each under iexchange; otherwise
        the incoming queues go back for the next callback of the round. */
    method Close()
      modifies master
      ensures master.outgoing == WithBacks(old(master.outgoing), outgoing)
      ensures master.incoming == (if iexchange then old(master.incoming)
          else WithFronts(old(master.incoming), incoming))
      ensures master.work == old(master.work) + if iexchange then |outgoing| else 0
    {
      master.outgoing := WithBacks(master.outgoing, outgoing);
      if iexchange {
        master.work := master.work + |outgoing|;
      } else {
        master.incoming := WithFronts(master.incoming, incoming);
      }
    }
  }

  // ---------- what that means ----------

  lemma FrontsGoBack(queues: map<int, seq<Buffer>>)
    ensures WithFronts(WithoutFronts(queues), Fronts(queues)) == queues
  {
    forall from | from in queues ensures WithFronts(WithoutFronts(queues), Fronts(queues))[from] == queues[from] {
      if queues[from] != [] {
        assert queues[from] == [queues[from][0]] + queues[from][1..];
      }
    }
  }

  lemma BackAgain(queues: map<Target, seq<Buffer>>, to: Target)
    requires to in queues
    ensures to in WithBacks(WithoutBacks(queues), Backs(queues))
    ensures WithBacks(WithoutBacks(queues), Backs(queues))[to] == queues[to]
  {
    if queues[to] != [] {
      assert queues[to] == queues[to][..|queues[to]| - 1] + [queues[to][|queues[to]| - 1]];
    }
  }

  lemma BacksGoBack(queues: map<Target, seq<Buffer>>)
    ensures WithBacks(WithoutBacks(queues), Backs(queues)) == queues
  {
    var again := WithBacks(WithoutBacks(queues), Backs(queues));
    assert again.Keys == queues.Keys;
    forall to | to in queues ensures again[to] == queues[to] {
      BackAgain(queues, to);
    }
  }

  /** Outside iexchange a callback that touches nothing leaves all queues exactly as they were. */
  method OpenAndClose(master: Queues)
    modifies master
    ensures master.incoming == old(master.incoming) && master.outgoing == old(master.outgoing)
        && master.work == old(master.work)
  {
    var proxy := new Proxy(master, false);
    FrontsGoBack(old(master.incoming));
    BacksGoBack(old(master.outgoing));
    proxy.Close();
  }

  // ---------- any number of callbacks ----------

  /** The bytes enqueued for a target, in order. */
  function BytesTo(items: seq<Item>, to: Target): Buffer {
    if items == [] then [] else
    var n := |items| - 1;
    BytesTo(items[..n], to) + (if items[n].0 == to then items[n].1 else [])
  }

  function Targets(items: seq<Item>): set<Target> {
    if items == [] then {} else Targets(items[..|items| - 1]) + {items[|items| - 1].0}
  }

  lemma {:induction false} NoBytes(items: seq<Item>, to: Target)
    requires to !in Targets(items)
    ensures BytesTo(items, to) == []
    decreases |items|
  {
    if items != [] { NoBytes(items[..|items| - 1], to); }
  }

  lemma {:induction false} AppendedKeys(sofar: map<Target, Buffer>, items: seq<Item>)
    ensures AllAppended(sofar, items).Keys == sofar.Keys + Targets(items)
    decreases |items|
  {
    if items != [] {
      AppendedKeys(sofar, items[..|items| - 1]);
    }
  }

  /** What the proxy holds for a target is what it held before, then all that was enqueued for it. */
  lemma {:induction false} AppendedBytes(sofar: map<Target, Buffer>, items: seq<Item>, to: Target)
    requires to in AllAppended(sofar, items)
    ensures AllAppended(sofar, items)[to] == (if to in sofar then sofar[to] else []) + BytesTo(items, to)
    decreases |items|
  {
    if items != [] {
      var less := items[..|items| - 1];
      if to in AllAppended(sofar, less) {
        AppendedBytes(sofar, less, to);
      } else {
        AppendedKeys(sofar, less);
        NoBytes(less, to);
      }
    }
  }

  // ---------- queues with at most one buffer per target ----------

  /** The bytes waiting for a target when there is at most one queue for it. */
  function Waiting(queues: map<Target, seq<Buffer>>, to: Target): Buffer {
    if to in queues && queues[to] != [] then queues[to][0] else []
  }

  predicate HasQueue(queues: map<Target, seq<Buffer>>, to: Target) {
    to in queues && queues[to] != []
  }

  /** For this target, what was enqueued has joined what was waiting. */
  predicate AddsFor(before: map<Target, seq<Buffer>>, after: map<Target, seq<Buffer>>, items: seq<Item>, to: Target) {
    && Waiting(after, to) == Waiting(before, to) + BytesTo(items, to)
    && (HasQueue(after, to) <==> HasQueue(before, to) || to in Targets(items))
  }

  /** At most one queue per target, holding the bytes that waited there and all that was enqueued, in order. */
  ghost predicate Adds(before: map<Target, seq<Buffer>>, after: map<Target, seq<Buffer>>, items: seq<Item>) {
    AtMostOne(after) && forall to :: AddsFor(before, after, items, to)
  }

  /** The queues after taking them back, enqueuing the items and copying out again. */
  function Touched(queues: map<Target, seq<Buffer>>, items: seq<Item>): map<Target, seq<Buffer>> {
    WithBacks(WithoutBacks(queues), AllAppended(Backs(queues), items))
  }

  lemma TouchedAt(queues: map<Target, seq<Buffer>>, items: seq<Item>, to: Target)
    requires AtMostOne(queues)
    ensures to in Touched(queues, items) ==> |Touched(queues, items)[to]| <= 1
    ensures AddsFor(queues, Touched(queues, items), items, to)
  {
    var lent := Backs(queues);
    AppendedKeys(lent, items);
    if to in AllAppended(lent, items) {
      AppendedBytes(lent, items, to);
    } else {
      NoBytes(items, to);
    }
  }

  lemma TouchedAdds(queues: map<Target, seq<Buffer>>, items: seq<Item>)
    requires AtMostOne(queues)
    ensures Adds(queues, Touched(queues, items), items)
  {
    forall to ensures AddsFor(queues, Touched(queues, items), items, to) {
      TouchedAt(queues, items, to);
    }
    forall to | to in Touched(queues, items) ensures |Touched(queues, items)[to]| <= 1 {
      TouchedAt(queues, items, to);
    }
  }

  lemma {:induction false} BytesConcat(a: seq<Item>, b: seq<Item>, to: Target)
    ensures BytesTo(a + b, to) == BytesTo(a, to) + BytesTo(b, to)
    ensures Targets(a + b) == Targets(a) + Targets(b)
    decreases |b|
  {
    if b == [] {
      assert a + b == a;
    } else {
      var n := |b| - 1;
      assert (a + b)[..|a + b| - 1] == a + b[..n];
      BytesConcat(a, b[..n], to);
    }
  }

  lemma AddsMore(a: map<Target, seq<Buffer>>, b: map<Target, seq<Buffer>>, c: map<Target, seq<Buffer>>,
                 x: seq<Item>, y: seq<Item>)
    requires Adds(a, b, x) && Adds(b, c, y)
    ensures Adds(a, c, x + y)
  {
    forall to ensures AddsFor(a, c, x + y, to) {
      assert AddsFor(a, b, x, to) && AddsFor(b, c, y, to);
      AddsMoreFor(a, b, c, x, y, to);
    }
  }

  lemma AddsMoreFor(a: map<Target, seq<Buffer>>, b: map<Target, seq<Buffer>>, c: map<Target, seq<Buffer>>,
                    x: seq<Item>, y: seq<Item>, to: Target)
    requires AddsFor(a, b, x, to) && AddsFor(b, c, y, to)
    ensures AddsFor(a, c, x + y, to)
  {
    BytesConcat(x, y, to);
  }

  lemma AddsNothing(queues: map<Target, seq<Buffer>>)
    requires AtMostOne(queues)
    ensures Adds(queues, queues, [])
  {
    forall to ensures AddsFor(queues, queues, [], to) {
      assert Waiting(queues, to) + [] == Waiting(queues, to);
    }
  }

  /** Outside iexchange, a callback that enqueues anything for any targets. */
  method Callback(master: Queues, items: seq<Item>)
    requires AtMostOne(master.outgoing)
    modifies master
    ensures Adds(old(master.outgoing), master.outgoing, items)
    ensures master.incoming == old(master.incoming) && master.work == old(master.work)
  {
    var proxy := new Proxy(master, false);
    FrontsGoBack(old(master.incoming));
    TouchedAdds(old(master.outgoing), items);
    proxy.EnqueueAll(items);
    proxy.Close();
    assert master.outgoing == Touched(old(master.outgoing), items);
  }

  /** The items of all callbacks, in order. */
  function Together(calls: seq<seq<Item>>): seq<Item> {
    if calls == [] then [] else Together(calls[..|calls| - 1]) + calls[|calls| - 1]
  }

  /** All callbacks of a round over one block, each with a proxy of its own: for every target there is still
      one queue, with all bytes enqueued for it in order, and the incoming queues are as they were. */
  method Round(master: Queues, calls: seq<seq<Item>>)
    requires AtMostOne(master.outgoing)
    modifies master
    ensures Adds(old(master.outgoing), master.outgoing, Together(calls))
    ensures master.incoming == old(master.incoming) && master.work == old(master.work)
  {
    AddsNothing(master.outgoing);
    for k := 0 to |calls|
      invariant Adds(old(master.outgoing), master.outgoing, Together(calls[..k]))
      invariant master.incoming == old(master.incoming) && master.work == old(master.work)
    {
      ghost var before := master.outgoing;
      Callback(master, calls[k]);
      assert calls[..k + 1][..k] == calls[..k];
      AddsMore(old(master.outgoing), before, master.outgoing, Together(calls[..k]), calls[k]);
    }
    assert calls[..|calls|] == calls;
  }

  // ---------- under iexchange ----------

  function QueuesFor(queues: map<Target, seq<Buffer>>, to: Target): seq<Buffer> {
    if to in queues then queues[to] else []
  }

  /** What the callbacks leave for a target: a queue for each callback that wrote to it. */
  function LeftFor(calls: seq<seq<Item>>, to: Target): seq<Buffer> {
    if calls == [] then [] else
    var n := |calls| - 1;
    LeftFor(calls[..n], to) + (if to in Targets(calls[n]) then [BytesTo(calls[n], to)] else [])
  }

  predicate LeavesFor(before: map<Target, seq<Buffer>>, after: map<Target, seq<Buffer>>, calls: seq<seq<Item>>,
                      to: Target)
  {
    QueuesFor(after, to) == QueuesFor(before, to) + LeftFor(calls, to)
  }

  ghost predicate Leaves(before: map<Target, seq<Buffer>>, after: map<Target, seq<Buffer>>, calls: seq<seq<Item>>) {
    forall to :: LeavesFor(before, after, calls, to)
  }

  lemma OneCall(items: seq<Item>, to: Target)
    ensures LeftFor([items], to) == if to in Targets(items) then [BytesTo(items, to)] else []
  {
    assert [items][..0] == [] && LeftFor([], to) == [];
  }

  lemma SentFor(queues: map<Target, seq<Buffer>>, sent: map<Target, Buffer>, items: seq<Item>, to: Target)
    requires sent.Keys == Targets(items) && (to in sent ==> sent[to] == BytesTo(items, to))
    ensures LeavesFor(queues, WithBacks(queues, sent), [items], to)
  {
    OneCall(items, to);
  }

  /** A fresh proxy after the items: one buffer for each target, with the bytes for it. */
  lemma FreshBytes(items: seq<Item>)
    ensures AllAppended(map[], items).Keys == Targets(items) && |AllAppended(map[], items)| == |Targets(items)|
    ensures forall to :: to in AllAppended(map[], items) ==> AllAppended(map[], items)[to] == BytesTo(items, to)
  {
    var sent := AllAppended(map[], items);
    AppendedKeys(map[], items);
    assert sent.Keys == Targets(items) && |sent| == |sent.Keys|;
    forall to | to in sent ensures sent[to] == BytesTo(items, to) {
      AppendedBytes(map[], items, to);
    }
  }

  lemma SentLeaves(queues: map<Target, seq<Buffer>>, items: seq<Item>)
    ensures |AllAppended(map[], items)| == |Targets(items)|
    ensures Leaves(queues, WithBacks(queues, AllAppended(map[], items)), [items])
  {
    var sent := AllAppended(map[], items);
    FreshBytes(items);
    forall to ensures LeavesFor(queues, WithBacks(queues, sent), [items], to) {
      SentFor(queues, sent, items, to);
    }
  }

  lemma LeavesMore(a: map<Target, seq<Buffer>>, b: map<Target, seq<Buffer>>, c: map<Target, seq<Buffer>>,
                   calls: seq<seq<Item>>, items: seq<Item>)
    requires Leaves(a, b, calls) && Leaves(b, c, [items])
    ensures Leaves(a, c, calls + [items])
  {
    forall to ensures LeavesFor(a, c, calls + [items], to) {
      assert LeavesFor(a, b, calls, to) && LeavesFor(b, c, [items], to);
      OneCall(items, to);
      assert (calls + [items])[..|calls|] == calls;
    }
  }

  lemma LeavesNothing(queues: map<Target, seq<Buffer>>)
    ensures Leaves(queues, queues, [])
  {
    forall to ensures LeavesFor(queues, queues, [], to) {
      assert QueuesFor(queues, to) + [] == QueuesFor(queues, to);
    }
  }

  /** Under iexchange every callback leaves a queue of its own for each target, and the counter moves by
      the queues taken in and the targets written. */
  method IExchangeCallback(master: Queues, items: seq<Item>)
    modifies master
    ensures master.work == old(master.work) - |Fronts(old(master.incoming))| + |Targets(items)|
    ensures master.incoming == WithoutFronts(old(master.incoming))
    ensures Leaves(old(master.outgoing), master.outgoing, [items])
  {
    var proxy := new Proxy(master, true);
    SentLeaves(old(master.outgoing), items);
    proxy.EnqueueAll(items);
    proxy.Close();
  }

  /** The incoming queues after k callbacks, if none come in between, and how many have been taken. */
  function LeftAfter(queues: map<int, seq<Buffer>>, k: nat): map<int, seq<Buffer>> {
    if k == 0 then queues else WithoutFronts(LeftAfter(queues, k - 1))
  }

  function TakenBy(queues: map<int, seq<Buffer>>, k: nat): nat {
    if k == 0 then 0 else TakenBy(queues, k - 1) + |Fronts(LeftAfter(queues, k - 1))|
  }

  function Written(calls: seq<seq<Item>>): nat {
    if calls == [] then 0 else Written(calls[..|calls| - 1]) + |Targets(calls[|calls| - 1])|
  }

  /** The counter and the queues after some callbacks. */
  ghost predicate After(incoming: map<int, seq<Buffer>>, outgoing: map<Target, seq<Buffer>>, work: int,
                        incoming': map<int, seq<Buffer>>, outgoing': map<Target, seq<Buffer>>, work': int,
                        calls: seq<seq<Item>>)
  {
    && work' == work - TakenBy(incoming, |calls|) + Written(calls)
    && incoming' == LeftAfter(incoming, |calls|) && Leaves(outgoing, outgoing', calls)
  }

  lemma AfterOneMore(incoming: map<int, seq<Buffer>>, outgoing: map<Target, seq<Buffer>>, work: int,
                     incoming': map<int, seq<Buffer>>, outgoing': map<Target, seq<Buffer>>, work': int,
                     calls: seq<seq<Item>>, items: seq<Item>, last: map<Target, seq<Buffer>>)
    requires After(incoming, outgoing, work, incoming', outgoing', work', calls) && Leaves(outgoing', last, [items])
    ensures After(incoming, outgoing, work, WithoutFronts(incoming'), last,
                  work' - |Fronts(incoming')| + |Targets(items)|, calls + [items])
  {
    assert (calls + [items])[..|calls|] == calls;
    LeavesMore(outgoing, outgoing', last, calls, items);
  }

  /** One more callback. */
  method IExchangeNext(master: Queues, ghost calls: seq<seq<Item>>, items: seq<Item>,
                       ghost incoming: map<int, seq<Buffer>>, ghost outgoing: map<Target, seq<Buffer>>, ghost work: int)
    requires After(incoming, outgoing, work, master.incoming, master.outgoing, master.work, calls)
    modifies master
    ensures After(incoming, outgoing, work, master.incoming, master.outgoing, master.work, calls + [items])
  {
    ghost var i, o, w := master.incoming, master.outgoing, master.work;
    IExchangeCallback(master, items);
    AfterOneMore(incoming, outgoing, work, i, o, w, calls, items, master.outgoing);
  }

  lemma AfterNone(incoming: map<int, seq<Buffer>>, outgoing: map<Target, seq<Buffer>>, work: int)
    ensures After(incoming, outgoing, work, incoming, outgoing, work, [])
  {
    LeavesNothing(outgoing);
  }

  lemma OneMore<A>(s: seq<A>, k: nat)
    requires k < |s|
    ensures s[..k] + [s[k]] == s[..k + 1]
  {
  }

  /** Any number of callbacks, with nothing received in between. */
  method IExchangeRound(master: Queues, calls: seq<seq<Item>>)
    modifies master
    ensures After(old(master.incoming), old(master.outgoing), old(master.work),
                  master.incoming, master.outgoing, master.work, calls)
  {
    ghost var i, o, w := master.incoming, master.outgoing, master.work;
    AfterNone(i, o, w);
    ghost var sofar := [];
    for k := 0 to |calls|
      invariant sofar == calls[..k]
      invariant After(i, o, w, master.incoming, master.outgoing, master.work, sofar)
    {
      IExchangeNext(master, sofar, calls[k], i, o, w);
      OneMore(calls, k);
      sofar := sofar + [calls[k]];
    }
    assert sofar == calls;
  }
}
