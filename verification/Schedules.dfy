/** Merge, swap, broadcast and all-reduce over RegularPartners: who is active, who sends to whom, and
    whose contributions a block holds after each round. */
module Schedules {
  import opened Coordinates
  import opened Factoring
  import opened Groups
  import opened Counting

  datatype Kind = Merge | Swap | Broadcast | AllReduce

  function TotalRounds(kind: Kind, p: Partners): nat {
    if kind.AllReduce? then 2 * p.Rounds() else p.Rounds()
  }

  /** The round of the underlying merge that a round of the pattern maps to. */
  function ParentRound(kind: Kind, p: Partners, round: nat): (r: nat)
    requires round <= TotalRounds(kind, p)
    ensures r <= p.Rounds()
  {
    match kind
    case Merge => round
    case Swap => round
    case Broadcast => p.Rounds() - round
    case AllReduce => if round < p.Rounds() then round else 2 * p.Rounds() - round
  }

  /** Still in the merge at round r: at position 0 of its group in every earlier round. */
  ghost predicate MergeActive(p: Partners, r: nat, gid: int)
    requires p.Valid() && p.Block(gid) && r <= p.Rounds()
  {
    forall t :: 0 <= t < r ==> Digit(p, t, gid) == 0
  }

  ghost predicate Active(kind: Kind, p: Partners, round: nat, gid: int)
    requires p.Valid() && p.Block(gid) && round <= TotalRounds(kind, p)
  {
    kind.Swap? || MergeActive(p, ParentRound(kind, p, round), gid)
  }

  ghost function Root(p: Partners, r: nat, gid: int): seq<int>
    requires p.Valid() && p.Block(gid) && r < p.Rounds()
  {
    StepPositive(p, r);
    [Group(p, r, gid)[0]]
  }

  ghost function Incoming(kind: Kind, p: Partners, round: nat, gid: int): seq<int>
    requires p.Valid() && p.Block(gid) && 0 < round <= TotalRounds(kind, p)
  {
    match kind
    case Merge => Group(p, round - 1, gid)
    case Swap => Group(p, round - 1, gid)
    case Broadcast => Root(p, p.Rounds() - round, gid)
    case AllReduce => if round <= p.Rounds() then Group(p, round - 1, gid) else Root(p, 2 * p.Rounds() - round, gid)
  }

  ghost function Outgoing(kind: Kind, p: Partners, round: nat, gid: int): seq<int>
    requires p.Valid() && p.Block(gid) && round < TotalRounds(kind, p)
  {
    match kind
    case Merge => Root(p, round, gid)
    case Swap => Group(p, round, gid)
    case Broadcast => Group(p, p.Rounds() - round - 1, gid)
    case AllReduce => if round < p.Rounds() then Root(p, round, gid) else Group(p, 2 * p.Rounds() - round - 1, gid)
  }

  // ---------- the methods that compute them ----------

  method IsMergeActive(p: Partners, round: nat, gid: int) returns (active: bool)
    requires p.Valid() && p.Block(gid) && round <= p.Rounds()
    ensures active == MergeActive(p, round, gid)
  {
    var coords := GidToCoords(gid, p.divs);
    for r := 0 to round
      invariant MergeActive(p, r, gid)
    {
      StepPositive(p, r);
      if GroupPosition(coords[p.kvs[r].dim], p.steps[r], p.kvs[r].size) != 0 {
        assert Digit(p, r, gid) != 0;
        return false;
      }
    }
    return true;
  }

  method IsActive(kind: Kind, p: Partners, round: nat, gid: int) returns (active: bool)
    requires p.Valid() && p.Block(gid) && round <= TotalRounds(kind, p)
    ensures active == Active(kind, p, round, gid)
  {
    if kind.Swap? {
      return true;
    }
    active := IsMergeActive(p, ParentRound(kind, p, round), gid);
  }

  method MergeOutgoing(p: Partners, round: nat, gid: int, partners: seq<int>) returns (partners': seq<int>)
    requires p.Valid() && p.Block(gid) && round < p.Rounds()
    ensures partners' == partners + Root(p, round, gid)
  {
    StepPositive(p, round);
    var tmp := Fill(p, round, gid, []);
    partners' := partners + [tmp[0]];
  }

  method FillIncoming(kind: Kind, p: Partners, round: nat, gid: int, partners: seq<int>) returns (partners': seq<int>)
    requires p.Valid() && p.Block(gid) && 0 < round <= TotalRounds(kind, p)
    ensures partners' == partners + Incoming(kind, p, round, gid)
  {
    if kind.Broadcast? || (kind.AllReduce? && round > p.Rounds()) {
      partners' := MergeOutgoing(p, ParentRound(kind, p, round), gid, partners);
    } else {
      partners' := Fill(p, round - 1, gid, partners);
    }
  }

  method FillOutgoing(kind: Kind, p: Partners, round: nat, gid: int, partners: seq<int>) returns (partners': seq<int>)
    requires p.Valid() && p.Block(gid) && round < TotalRounds(kind, p)
    ensures partners' == partners + Outgoing(kind, p, round, gid)
  {
    if kind.Merge? || (kind.AllReduce? && round < p.Rounds()) {
      partners' := MergeOutgoing(p, round, gid, partners);
    } else if kind.Swap? {
      partners' := Fill(p, round, gid, partners);
    } else {
      partners' := Fill(p, ParentRound(kind, p, round) - 1, gid, partners);
    }
  }

  // ---------- duality ----------

  lemma RootSpec(p: Partners, r: nat, gid: int)
    requires p.Valid() && p.Block(gid) && r < p.Rounds()
    ensures p.Block(Root(p, r, gid)[0]) && Digit(p, r, Root(p, r, gid)[0]) == 0
    ensures forall t :: 0 <= t < p.Rounds() && t != r ==> Digit(p, t, Root(p, r, gid)[0]) == Digit(p, t, gid)
  {
    StepPositive(p, r);
    GroupMember(p, r, gid, 0);
  }

  /** Merging up and broadcasting down one round are each other's mirror image: b survives round r and
      collects from a exactly when a is in round r and b is the block it reports to. */
  lemma MergeDuality(p: Partners, r: nat, a: int, b: int)
    requires p.Valid() && p.Block(a) && p.Block(b) && r < p.Rounds()
    ensures (MergeActive(p, r + 1, b) && a in Group(p, r, b)) <==> (MergeActive(p, r, a) && b in Root(p, r, a))
  {
    InGroup(p, r, b, a);
    RootSpec(p, r, a);
    var root := Root(p, r, a)[0];
    if MergeActive(p, r + 1, b) && a in Group(p, r, b) {
      forall t | 0 <= t < p.Rounds() ensures Digit(p, t, root) == Digit(p, t, b) {
        assert Digit(p, r, b) == 0;
      }
      DigitsIdentify(p, root, b);
      forall t | 0 <= t < r ensures Digit(p, t, a) == 0 {
        assert Digit(p, t, b) == 0;
      }
    }
    if MergeActive(p, r, a) && b == root {
      forall t | 0 <= t < r + 1 ensures Digit(p, t, b) == 0 {
        if t < r { assert Digit(p, t, a) == 0; }
      }
    }
  }

  lemma GroupSymmetric(p: Partners, r: nat, a: int, b: int)
    requires p.Valid() && p.Block(a) && p.Block(b) && r < p.Rounds()
    ensures a in Group(p, r, b) <==> b in Group(p, r, a)
  {
    InGroup(p, r, b, a);
    InGroup(p, r, a, b);
  }

  /** `reduce` expects exactly what is sent: block b is active at round r+1 and lists a as incoming iff
      block a is active at round r and lists b as outgoing. */
  lemma Duality(kind: Kind, p: Partners, r: nat, a: int, b: int)
    requires p.Valid() && p.Block(a) && p.Block(b) && r < TotalRounds(kind, p)
    ensures (Active(kind, p, r + 1, b) && a in Incoming(kind, p, r + 1, b))
        <==> (Active(kind, p, r, a) && b in Outgoing(kind, p, r, a))
  {
    if kind.Swap? {
      GroupSymmetric(p, r, a, b);
    } else if kind.Merge? || (kind.AllReduce? && r < p.Rounds()) {
      GoingUpDuality(kind, p, r, a, b);
    } else {
      GoingDownDuality(kind, p, r, a, b);
    }
  }

  lemma GoingUpDuality(kind: Kind, p: Partners, r: nat, a: int, b: int)
    requires p.Valid() && p.Block(a) && p.Block(b) && r < p.Rounds() && (kind.Merge? || kind.AllReduce?)
    ensures (Active(kind, p, r + 1, b) && a in Incoming(kind, p, r + 1, b))
        <==> (Active(kind, p, r, a) && b in Outgoing(kind, p, r, a))
  {
    assert Incoming(kind, p, r + 1, b) == Group(p, r, b) && Outgoing(kind, p, r, a) == Root(p, r, a);
    MergeDuality(p, r, a, b);
  }

  lemma GoingDownDuality(kind: Kind, p: Partners, r: nat, a: int, b: int)
    requires p.Valid() && p.Block(a) && p.Block(b) && r < TotalRounds(kind, p)
    requires kind.Broadcast? || (kind.AllReduce? && p.Rounds() <= r)
    ensures (Active(kind, p, r + 1, b) && a in Incoming(kind, p, r + 1, b))
        <==> (Active(kind, p, r, a) && b in Outgoing(kind, p, r, a))
  {
    var t := TotalRounds(kind, p) - r - 1;
    ListsGoingDown(kind, p, r, a, b, t);
    MergeDuality(p, t, b, a);
  }

  lemma ListsGoingDown(kind: Kind, p: Partners, r: nat, a: int, b: int, t: nat)
    requires p.Valid() && p.Block(a) && p.Block(b) && r < TotalRounds(kind, p) && t == TotalRounds(kind, p) - r - 1
    requires kind.Broadcast? || (kind.AllReduce? && p.Rounds() <= r)
    ensures t < p.Rounds() && Incoming(kind, p, r + 1, b) == Root(p, t, b) && Outgoing(kind, p, r, a) == Group(p, t, a)
    ensures Active(kind, p, r + 1, b) <==> MergeActive(p, t, b)
    ensures Active(kind, p, r, a) <==> MergeActive(p, t + 1, a)
  {
    assert ParentRound(kind, p, r + 1) == t && ParentRound(kind, p, r) == t + 1;
  }

  ghost predicate Distinct(s: seq<int>) {
    forall i, j :: 0 <= i < j < |s| ==> s[i] != s[j]
  }

  lemma GroupDistinct(p: Partners, r: nat, gid: int)
    requires p.Valid() && p.Block(gid) && r < p.Rounds()
    ensures Distinct(Group(p, r, gid)) && forall a :: a in Group(p, r, gid) ==> p.Block(a)
  {
    var g := Group(p, r, gid);
    forall v | 0 <= v < |g| ensures p.Block(g[v]) && Digit(p, r, g[v]) == v {
      GroupMember(p, r, gid, v);
    }
  }

  /** Every partner list names existing blocks, each once. */
  lemma IncomingDistinct(kind: Kind, p: Partners, round: nat, gid: int)
    requires p.Valid() && p.Block(gid) && 0 < round <= TotalRounds(kind, p)
    ensures Distinct(Incoming(kind, p, round, gid))
    ensures forall a :: a in Incoming(kind, p, round, gid) ==> p.Block(a)
  {
    if kind.Broadcast? || (kind.AllReduce? && round > p.Rounds()) {
      RootSpec(p, ParentRound(kind, p, round), gid);
    } else {
      GroupDistinct(p, round - 1, gid);
    }
  }

  // ---------- the expected count of the reduce driver ----------

  /** The edges into `local`, as (from, to) pairs. */
  ghost function EdgesInto(edge: (int, int) -> bool, blocks: nat, local: seq<int>): set<(int, int)> {
    set a, b | 0 <= a < blocks && b in local && edge(a, b) :: (a, b)
  }

  lemma {:induction false} PairsWith(s: seq<int>, b: int)
    requires Distinct(s)
    ensures |set a | a in s :: (a, b)| == |s|
  {
    if s == [] {
      assert (set a | a in s :: (a, b)) == {};
    } else {
      var n := |s| - 1;
      PairsWith(s[..n], b);
      var less := set a | a in s[..n] :: (a, b);
      assert (set a | a in s :: (a, b)) == less + {(s[n], b)} by {
        assert s == s[..n] + [s[n]];
      }
      assert (s[n], b) !in less;
    }
  }

  /** `senders` lists the blocks with an edge to b, each once. */
  ghost predicate SenderList(edge: (int, int) -> bool, blocks: nat, b: int, senders: seq<int>) {
    Distinct(senders) && forall a :: a in senders <==> 0 <= a < blocks && edge(a, b)
  }

  lemma OneMoreBlock(edge: (int, int) -> bool, blocks: nat, local: seq<int>, b: int, senders: seq<int>)
    requires b !in local && SenderList(edge, blocks, b, senders)
    ensures |EdgesInto(edge, blocks, local + [b])| == |EdgesInto(edge, blocks, local)| + |senders|
  {
    PairsWith(senders, b);
    var extra := set a | a in senders :: (a, b);
    assert EdgesInto(edge, blocks, local + [b]) == EdgesInto(edge, blocks, local) + extra;
    assert EdgesInto(edge, blocks, local) !! extra;
  }

  ghost predicate Sends(kind: Kind, p: Partners, r: nat, a: int, b: int)
    requires p.Valid() && r < TotalRounds(kind, p)
  {
    p.Block(a) && p.Block(b) && Active(kind, p, r, a) && b in Outgoing(kind, p, r, a)
  }

  ghost function Edges(kind: Kind, p: Partners, r: nat): (int, int) -> bool
    requires p.Valid() && r < TotalRounds(kind, p)
  {
    (a, b) => Sends(kind, p, r, a, b)
  }

  /** The queues that reach the blocks of `local` in round r. */
  ghost function SentTo(kind: Kind, p: Partners, r: nat, local: seq<int>): set<(int, int)>
    requires p.Valid() && r < TotalRounds(kind, p)
  {
    EdgesInto(Edges(kind, p, r), Volume(p.divs), local)
  }

  ghost function IncomingIfActive(kind: Kind, p: Partners, r: nat, b: int): seq<int>
    requires p.Valid() && p.Block(b) && 0 < r <= TotalRounds(kind, p)
  {
    if Active(kind, p, r, b) then Incoming(kind, p, r, b) else []
  }

  lemma SendersOf(kind: Kind, p: Partners, r: nat, b: int)
    requires p.Valid() && r < TotalRounds(kind, p) && p.Block(b)
    ensures SenderList(Edges(kind, p, r), Volume(p.divs), b, IncomingIfActive(kind, p, r + 1, b))
  {
    IncomingDistinct(kind, p, r + 1, b);
    forall a | 0 <= a < Volume(p.divs)
      ensures Edges(kind, p, r)(a, b) <==> a in IncomingIfActive(kind, p, r + 1, b)
    {
      Duality(kind, p, r, a, b);
    }
  }

  method CountIncoming(kind: Kind, p: Partners, round: nat, gid: int) returns (n: nat)
    requires p.Valid() && p.Block(gid) && 0 < round <= TotalRounds(kind, p)
    ensures n == |IncomingIfActive(kind, p, round, gid)|
  {
    n := 0;
    var active := IsActive(kind, p, round, gid);
    if active {
      var incoming := FillIncoming(kind, p, round, gid, []);
      n := |incoming|;
    }
  }

  lemma OneMoreGid(kind: Kind, p: Partners, r: nat, gids: seq<int>, i: nat)
    requires p.Valid() && r < TotalRounds(kind, p) && i < |gids| && Distinct(gids) && p.Block(gids[i])
    ensures |SentTo(kind, p, r, gids[..i + 1])|
        == |SentTo(kind, p, r, gids[..i])| + |IncomingIfActive(kind, p, r + 1, gids[i])|
  {
    assert gids[..i + 1] == gids[..i] + [gids[i]];
    assert gids[i] !in gids[..i];
    SendersOf(kind, p, r, gids[i]);
    OneMoreBlock(Edges(kind, p, r), Volume(p.divs), gids[..i], gids[i], IncomingIfActive(kind, p, r + 1, gids[i]));
  }

  /** The loop of `reduce` that sets `expected`: it counts exactly the queues other blocks send here. */
  method ExpectedQueues(kind: Kind, p: Partners, round: nat, gids: seq<int>) returns (expected: nat)
    requires p.Valid() && round < TotalRounds(kind, p)
    requires Distinct(gids) && forall b :: b in gids ==> p.Block(b)
    ensures expected == |SentTo(kind, p, round, gids)|
  {
    expected := 0;
    assert SentTo(kind, p, round, []) == {};
    for i := 0 to |gids|
      invariant expected == |SentTo(kind, p, round, gids[..i])|
    {
      OneMoreGid(kind, p, round, gids, i);
      var more := CountIncoming(kind, p, round + 1, gids[i]);
      expected := expected + more;
    }
    assert gids[..|gids|] == gids;
  }

  // ---------- whose contributions a block holds ----------

  /** The contributions collected from the blocks of a list. */
  ghost function Gather<T>(held: int -> multiset<T>, from: seq<int>): multiset<T> {
    if from == [] then multiset{} else held(from[0]) + Gather(held, from[1..])
  }

  lemma {:induction false} GatherSame<T>(f: int -> multiset<T>, g: int -> multiset<T>, from: seq<int>)
    requires forall k :: 0 <= k < |from| ==> f(from[k]) == g(from[k])
    ensures Gather(f, from) == Gather(g, from)
  {
    if from != [] {
      GatherSame(f, g, from[1..]);
    }
  }

  /** sources(m, c) lists the blocks that block c hears from at the start of round m. */
  type Sources = (int, int) -> seq<int>

  /** What c holds at the start of round m, every block having started with its own contribution. */
  ghost function Collect(sources: Sources, m: nat, c: int): multiset<int> {
    if m == 0 then multiset{c} else Gather(b => Collect(sources, m - 1, b), sources(m, c))
  }

  ghost function CollectIn(sources: Sources, m: nat): int -> multiset<int> {
    b => Collect(sources, m, b)
  }

  lemma CollectStep(sources: Sources, m: nat, c: int)
    requires m > 0
    ensures Collect(sources, m, c) == Gather(CollectIn(sources, m - 1), sources(m, c))
  {
    GatherSame(b => Collect(sources, m - 1, b), CollectIn(sources, m - 1), sources(m, c));
  }

  ghost function SourcesOf(kind: Kind, p: Partners): Sources
    requires p.Valid()
  {
    (m, c) => if p.Block(c) && 0 < m <= TotalRounds(kind, p) then Incoming(kind, p, m, c) else []
  }

  /** What gid holds when round `round` of a pattern begins. */
  ghost function Held(kind: Kind, p: Partners, round: nat, gid: int): multiset<int>
    requires p.Valid() && p.Block(gid) && round <= TotalRounds(kind, p)
  {
    Collect(SourcesOf(kind, p), round, gid)
  }

  /** a and b have the same digits from round m on. */
  ghost predicate AgreeFrom(p: Partners, m: nat, a: int, b: int)
    requires p.Valid()
  {
    p.Block(a) && p.Block(b) && forall t :: m <= t < p.Rounds() ==> Digit(p, t, a) == Digit(p, t, b)
  }

  /** a and b have the same digits before round m. */
  ghost predicate AgreeBelow(p: Partners, m: nat, a: int, b: int)
    requires p.Valid() && m <= p.Rounds() && p.Block(a) && p.Block(b)
  {
    forall t :: 0 <= t < m ==> Digit(p, t, a) == Digit(p, t, b)
  }

  /** One digit at a time: if every member c of a group holds x once when x's origin f agrees with c
      from round r on, the group together holds x once when f agrees with gid from round r+1 on. */
  lemma GatherGroup<T>(p: Partners, r: nat, gid: int, held: int -> multiset<T>, x: T, f: int, ok: bool)
    requires p.Valid() && p.Block(gid) && r < p.Rounds()
    requires forall c :: c in Group(p, r, gid) ==> held(c)[x] == One(ok && AgreeFrom(p, r, f, c))
    ensures Gather(held, Group(p, r, gid))[x] == One(ok && AgreeFrom(p, r + 1, f, gid))
  {
    GatherSuffix(p, r, gid, held, x, f, ok, 0);
    assert Group(p, r, gid)[0..] == Group(p, r, gid);
    if p.Block(f) { DigitRange(p, r, f); }
  }

  lemma {:induction false} GatherSuffix<T>(p: Partners, r: nat, gid: int, held: int -> multiset<T>, x: T, f: int,
          ok: bool, v: nat)
    requires p.Valid() && p.Block(gid) && r < p.Rounds() && v <= |Group(p, r, gid)|
    requires forall c :: c in Group(p, r, gid) ==> held(c)[x] == One(ok && AgreeFrom(p, r, f, c))
    ensures Gather(held, Group(p, r, gid)[v..])[x] == One(ok && AgreeFrom(p, r + 1, f, gid) && v <= Digit(p, r, f))
    decreases |Group(p, r, gid)| - v
  {
    var g := Group(p, r, gid);
    if v == |g| {
      if p.Block(f) { DigitRange(p, r, f); }
    } else {
      GatherSuffix(p, r, gid, held, x, f, ok, v + 1);
      assert g[v..][1..] == g[v + 1..];
      MemberAgrees(p, r, gid, f, v);
    }
  }

  lemma MemberAgrees(p: Partners, r: nat, gid: int, a: int, v: nat)
    requires p.Valid() && p.Block(gid) && r < p.Rounds() && v < |Group(p, r, gid)|
    ensures p.Block(Group(p, r, gid)[v])
    ensures AgreeFrom(p, r, a, Group(p, r, gid)[v]) <==> AgreeFrom(p, r + 1, a, gid) && Digit(p, r, a) == v
  {
    GroupMember(p, r, gid, v);
    var c := Group(p, r, gid)[v];
    if AgreeFrom(p, r + 1, a, gid) && Digit(p, r, a) == v {
      forall t | r <= t < p.Rounds() ensures Digit(p, t, a) == Digit(p, t, c) {
        if t != r { assert Digit(p, t, a) == Digit(p, t, gid); }
      }
    }
    if AgreeFrom(p, r, a, c) {
      forall t | r + 1 <= t < p.Rounds() ensures Digit(p, t, a) == Digit(p, t, gid) {
        assert Digit(p, t, a) == Digit(p, t, c);
      }
    }
  }

  lemma AgreeFromZero(p: Partners, a: int, gid: int)
    requires p.Valid() && p.Block(gid)
    ensures multiset{gid}[a] == One(AgreeFrom(p, 0, a, gid))
  {
    if AgreeFrom(p, 0, a, gid) {
      DigitsIdentify(p, a, gid);
    }
  }

  // ---------- going up and coming down ----------

  ghost predicate GathersUp(h: Partners, top: nat, sources: Sources)
    requires h.Valid() && top <= h.Rounds()
  {
    forall m, c :: 0 < m <= top && h.Block(c) ==> sources(m, c) == Group(h, m - 1, c)
  }

  ghost predicate CopiesDown(h: Partners, top: nat, sources: Sources)
    requires h.Valid() && top <= h.Rounds()
  {
    forall m, c :: top < m <= 2 * top && h.Block(c) ==> sources(m, c) == Root(h, 2 * top - m, c)
  }

  lemma {:induction false} GoingUp(h: Partners, top: nat, sources: Sources, m: nat, gid: int, a: int)
    requires h.Valid() && h.Block(gid) && m <= top <= h.Rounds() && GathersUp(h, top, sources)
    ensures Collect(sources, m, gid)[a] == One(AgreeFrom(h, m, a, gid))
  {
    if m == 0 {
      AgreeFromZero(h, a, gid);
    } else {
      var before := CollectIn(sources, m - 1);
      GroupDistinct(h, m - 1, gid);
      forall c | c in Group(h, m - 1, gid) ensures before(c)[a] == One(true && AgreeFrom(h, m - 1, a, c)) {
        GoingUp(h, top, sources, m - 1, c, a);
      }
      GatherGroup(h, m - 1, gid, before, a, a, true);
      CollectStep(sources, m, gid);
    }
  }

  ghost predicate SameFrom(h: Partners, m: nat, a: int, b: int)
    requires h.Valid() && h.Block(a) && h.Block(b)
  {
    forall s :: m <= s < h.Rounds() ==> Digit(h, s, a) == Digit(h, s, b)
  }

  lemma SameFromRoot(h: Partners, m: nat, a: int, t: nat, gid: int)
    requires h.Valid() && h.Block(a) && h.Block(gid) && t < m <= h.Rounds() && h.Block(Root(h, t, gid)[0])
    requires SameFrom(h, m, a, Root(h, t, gid)[0])
    ensures SameFrom(h, m, a, gid)
  {
    RootSpec(h, t, gid);
    forall s | m <= s < h.Rounds() ensures Digit(h, s, a) == Digit(h, s, gid) {
      assert Digit(h, s, a) == Digit(h, s, Root(h, t, gid)[0]);
    }
  }

  /** A block with one source copies what that one holds. */
  lemma CollectOne(sources: Sources, m: nat, c: int, from: int)
    requires m > 0 && sources(m, c) == [from]
    ensures Collect(sources, m, c) == Collect(sources, m - 1, from)
  {
    CollectStep(sources, m, c);
    GatherOne(CollectIn(sources, m - 1), from);
  }

  lemma GatherOne(held: int -> multiset<int>, a: int)
    ensures Gather(held, [a]) == held(a)
  {
    assert Gather(held, []) == multiset{};
  }

  /** Coming back down, a block's value is that of the block it descends from at the turning point. */
  lemma {:induction false} ComingDown(h: Partners, top: nat, sources: Sources, m: nat, gid: int) returns (source: int)
    requires h.Valid() && h.Block(gid) && top <= m <= 2 * top && top <= h.Rounds() && CopiesDown(h, top, sources)
    ensures h.Block(source) && SameFrom(h, top, source, gid)
        && Collect(sources, m, gid) == Collect(sources, top, source)
    decreases m
  {
    if m == top {
      source := gid;
    } else {
      var t := 2 * top - m;
      RootSpec(h, t, gid);
      CollectOne(sources, m, gid, Root(h, t, gid)[0]);
      source := ComingDown(h, top, sources, m - 1, Root(h, t, gid)[0]);
      SameFromRoot(h, top, source, t, gid);
    }
  }

  // ---------- the four patterns ----------

  lemma SourcesGoUp(kind: Kind, p: Partners)
    requires p.Valid() && !kind.Broadcast?
    ensures GathersUp(p, p.Rounds(), SourcesOf(kind, p))
  {
  }

  lemma SourcesGoDown(p: Partners)
    requires p.Valid()
    ensures CopiesDown(p, p.Rounds(), SourcesOf(AllReduce, p))
  {
  }

  /** After r rounds of merging or swapping, a block holds exactly the blocks it shares digits r.. with,
      each exactly once. */
  lemma HeldGoingUp(kind: Kind, p: Partners, r: nat, gid: int, a: int)
    requires p.Valid() && p.Block(gid) && r <= p.Rounds() && !kind.Broadcast?
    ensures Held(kind, p, r, gid)[a] == One(AgreeFrom(p, r, a, gid))
  {
    SourcesGoUp(kind, p);
    GoingUp(p, p.Rounds(), SourcesOf(kind, p), r, gid, a);
  }

  /** Block 0 sits at position 0 of all its groups. */
  lemma ZeroDigits(p: Partners, t: nat)
    requires p.Valid() && t < p.Rounds() && p.Block(0)
    ensures Digit(p, t, 0) == 0
  {
    StepPositive(p, t);
    ZeroCoords(p.divs);
    assert 0 / p.steps[t] % p.kvs[t].size == 0;
  }

  lemma {:induction false} ZeroCoords(divs: seq<nat>)
    requires Positive(divs)
    ensures forall d :: 0 <= d < |divs| ==> Coords(0, divs)[d] == 0
    decreases |divs|
  {
    if divs != [] {
      assert 0 / divs[0] == 0 && 0 % divs[0] == 0;
      ZeroCoords(divs[1..]);
    }
  }

  /** Only block 0 is still active after the last merge round. */
  lemma OnlyZeroSurvives(p: Partners, gid: int)
    requires p.Valid() && p.Block(gid)
    ensures MergeActive(p, p.Rounds(), gid) <==> gid == 0
  {
    forall t | 0 <= t < p.Rounds() ensures Digit(p, t, 0) == 0 {
      ZeroDigits(p, t);
    }
    if MergeActive(p, p.Rounds(), gid) {
      DigitsIdentify(p, gid, 0);
    }
  }

  /** Merge: in the end only block 0 is active and it holds every block's contribution exactly once. */
  lemma MergeTotal(p: Partners, gid: int, a: int)
    requires p.Valid() && p.Block(gid)
    ensures Active(Merge, p, p.Rounds(), gid) <==> gid == 0
    ensures Held(Merge, p, p.Rounds(), gid)[a] == One(p.Block(a))
  {
    OnlyZeroSurvives(p, gid);
    HeldGoingUp(Merge, p, p.Rounds(), gid, a);
  }

  /** Swap used as an all-gather: every block ends with every contribution exactly once. */
  lemma SwapTotal(p: Partners, gid: int, a: int)
    requires p.Valid() && p.Block(gid)
    ensures Held(Swap, p, p.Rounds(), gid)[a] == One(p.Block(a))
  {
    HeldGoingUp(Swap, p, p.Rounds(), gid, a);
  }

  /** All-reduce: every block ends with every contribution exactly once. */
  lemma AllReduceTotal(p: Partners, round: nat, gid: int, a: int)
    requires p.Valid() && p.Block(gid) && p.Rounds() <= round <= 2 * p.Rounds()
    ensures Held(AllReduce, p, round, gid)[a] == One(p.Block(a))
  {
    var sources := SourcesOf(AllReduce, p);
    SourcesGoDown(p);
    var source := ComingDown(p, p.Rounds(), sources, round, gid);
    SourcesGoUp(AllReduce, p);
    GoingUp(p, p.Rounds(), sources, p.Rounds(), source, a);
  }

  lemma RootActive(p: Partners, r: nat, gid: int)
    requires p.Valid() && p.Block(gid) && r < p.Rounds() && MergeActive(p, r, gid)
    ensures p.Block(Root(p, r, gid)[0]) && MergeActive(p, r + 1, Root(p, r, gid)[0])
  {
    RootSpec(p, r, gid);
    forall t | 0 <= t < r + 1 ensures Digit(p, t, Root(p, r, gid)[0]) == 0 {
      if t < r { assert Digit(p, t, gid) == 0; }
    }
  }

  ghost predicate Broadcasts(p: Partners, sources: Sources)
    requires p.Valid()
  {
    forall m, c :: 0 < m <= p.Rounds() && p.Block(c) ==> sources(m, c) == Root(p, p.Rounds() - m, c)
  }

  lemma SourcesBroadcast(p: Partners)
    requires p.Valid()
    ensures Broadcasts(p, SourcesOf(Broadcast, p))
  {
  }

  lemma {:induction false} FromZero(p: Partners, sources: Sources, m: nat, gid: int)
    requires p.Valid() && p.Block(gid) && m <= p.Rounds() && MergeActive(p, p.Rounds() - m, gid)
        && Broadcasts(p, sources)
    ensures Collect(sources, m, gid) == multiset{0}
  {
    if m == 0 {
      OnlyZeroSurvives(p, gid);
    } else {
      var root := Root(p, p.Rounds() - m, gid)[0];
      RootActive(p, p.Rounds() - m, gid);
      CollectOne(sources, m, gid, root);
      FromZero(p, sources, m - 1, root);
    }
  }

  /** Broadcast: whenever a block is active it holds exactly block 0's value; at the end all are. */
  lemma BroadcastTotal(p: Partners, round: nat, gid: int)
    requires p.Valid() && p.Block(gid) && round <= p.Rounds() && Active(Broadcast, p, round, gid)
    ensures Held(Broadcast, p, round, gid) == multiset{0}
    ensures Active(Broadcast, p, p.Rounds(), gid)
  {
    SourcesBroadcast(p);
    FromZero(p, SourcesOf(Broadcast, p), round, gid);
  }
}
