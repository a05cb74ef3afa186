/** One axis of a regular discrete decomposition: the blocks' bounds, and which blocks a point with
    ghosts falls into, on plain and on periodic axes. */
module GridAxis {
  import opened Arith

  // ---------- division as the source has it ----------

  /** Truncating division and remainder. */
  function TruncDiv(x: int, y: int): int
    requires y > 0
  {
    if x >= 0 then x / y else -((-x) / y)
  }

  function TruncMod(x: int, y: int): int
    requires y > 0
  {
    x - TruncDiv(x, y) * y
  }

  /** `floor_div`, for the positive divisors it is used with. */
  method FloorDiv(x: int, y: int) returns (q: int)
    requires y > 0
    ensures q == x / y
  {
    q := TruncDiv(x, y);
    var r := TruncMod(x, y);
    TruncSpec(x, y);
    if r != 0 && r < 0 {
      q := q - 1;
    }
  }

  lemma TruncSpec(x: int, y: int)
    requires y > 0
    ensures x == TruncDiv(x, y) * y + TruncMod(x, y) && -y < TruncMod(x, y) < y
    ensures x / y == if TruncMod(x, y) < 0 then TruncDiv(x, y) - 1 else TruncDiv(x, y)
    ensures x % y == if TruncMod(x, y) < 0 then TruncMod(x, y) + y else TruncMod(x, y)
  {
    var q, r := TruncDiv(x, y), TruncMod(x, y);
    if x >= 0 {
      DivNonneg(x, y);
    } else {
      DivNonneg(-x, y);
      var p := (-x) / y;
      assert r == x + p * y == -((-x) % y);
      MulDistr(-p, 1, y);
      if r < 0 {
        DivUnique(x, y, -p - 1, r + y);
      } else {
        DivUnique(x, y, -p, 0);
      }
    }
  }

  // ---------- an axis ----------

  /** The domain along the axis, the number of blocks, and how the axis is treated. */
  datatype Axis = Axis(min: int, max: int, n: nat, shared: bool, wrap: bool, ghosts: nat) {
    /** Every block is at least one wide. */
    ghost predicate Valid() {
      n > 0 && max - min + 1 >= n
    }

    function Width(): int
      requires n > 0
    {
      (max - min + 1) / n
    }

    function Period(): int {
      max - min + 1
    }

    function From(i: int): int
      requires n > 0
    {
      min + Width() * i
    }

    function To(i: int): int
      requires n > 0
    {
      if i == n - 1 then max else From(i + 1) - (if shared then 0 else 1)
    }
  }

  lemma WidthSpec(a: Axis)
    requires a.Valid()
    ensures a.Width() >= 1 && a.From(0) == a.min && a.From(a.n) <= a.max + 1
  {
    var p, w := a.Period(), a.Width();
    DivNonneg(p, a.n);
    if w < 1 {
      MulMono(w, 0, a.n);
    }
    assert w * a.n == a.n * w;
  }

  // ---------- how the domain is divided ----------

  /** All blocks but the last are equally wide, and the last is wider by fewer cells than there are blocks. */
  lemma EvenBlocks(a: Axis, i: int)
    requires a.Valid()
    ensures a.From(0) == a.min && a.From(i + 1) - a.From(i) == a.From(1) - a.From(0) >= 1
    ensures a.From(a.n) <= a.max + 1 < a.From(a.n) + a.n
    ensures a.To(a.n - 1) == a.max
  {
    WidthSpec(a);
    var w := a.Width();
    assert w * (i + 1) == w * i + w;
    DivNonneg(a.Period(), a.n);
    assert w * a.n == a.n * w;
  }

  /** Neighboring blocks share exactly a face, or nothing and leave no gap. */
  lemma NextBlock(a: Axis, i: int)
    requires a.Valid() && 0 <= i < a.n - 1
    ensures a.From(i + 1) == if a.shared then a.To(i) else a.To(i) + 1
  {
  }

  lemma {:induction false} CoveredFrom(a: Axis, x: int, n: nat) returns (i: int)
    requires a.Valid() && 0 < n <= a.n && a.From(a.n - n) <= x <= a.max
    ensures 0 <= i < a.n && a.From(i) <= x <= a.To(i)
    decreases n
  {
    var first := a.n - n;
    if n == 1 || x <= a.To(first) {
      EvenBlocks(a, 0);
      i := first;
    } else {
      NextBlock(a, first);
      i := CoveredFrom(a, x, n - 1);
    }
  }

  /** The blocks cover just the domain. */
  lemma CoresCover(a: Axis, x: int)
    requires a.Valid()
    ensures a.min <= x <= a.max <==> exists i :: 0 <= i < a.n && a.From(i) <= x <= a.To(i)
  {
    if a.min <= x <= a.max {
      EvenBlocks(a, 0);
      var i := CoveredFrom(a, x, a.n);
    }
    forall i | 0 <= i < a.n && a.From(i) <= x <= a.To(i) ensures a.min <= x <= a.max {
      BlockInDomain(a, i);
    }
  }

  /** A cell of two blocks is the face they share, and they are neighbors. */
  lemma CoresApart(a: Axis, x: int, i: int, j: int)
    requires a.Valid() && 0 <= i < j < a.n && x <= a.To(i) && a.From(j) <= x
    ensures a.shared && j == i + 1 && x == a.To(i) == a.From(j)
  {
    WidthSpec(a);
    var w := a.Width();
    MulMono(i + 1, j, w);
    assert w * (i + 1) == (i + 1) * w && w * j == j * w && (i + 2) * w == (i + 1) * w + w;
    if i + 2 <= j { MulMono(i + 2, j, w); }
  }

  /** A coordinate is at or past block i's first cell exactly when its quotient is at least i. */
  lemma FromQuotient(a: Axis, x: int, i: int)
    requires a.Valid()
    ensures a.Width() >= 1 && (a.From(i) <= x <==> i <= (x - a.min) / a.Width())
  {
    WidthSpec(a);
    var w, q := a.Width(), (x - a.min) / a.Width();
    var r := (x - a.min) % w;
    assert x - a.min == q * w + r;
    if i <= q {
      MulMono(i, q, w);
    } else {
      MulMono(q + 1, i, w);
      MulDistr(q, 1, w);
    }
    assert w * i == i * w;
  }

  // ---------- lower and upper ----------

  method Lower(a: Axis, x: int) returns (res: int)
    requires a.Valid()
    ensures res == LowerIndex(a, x)
  {
    WidthSpec(a);
    var width := a.Width();
    res := FloorDiv(x - a.min, width);
    if res >= a.n && x <= a.max {
      res := a.n - 1;
    }
    if res > 0 && a.shared && x == a.From(res) {
      res := res - 1;
    }
  }

  method Upper(a: Axis, x: int) returns (res: int)
    requires a.Valid()
    ensures res == UpperIndex(a, x)
  {
    WidthSpec(a);
    var width := a.Width();
    res := FloorDiv(x - a.min, width);
    res := res + 1;
    if res > a.n && x <= a.max {
      res := a.n;
    }
    if res < a.n && a.shared && x == a.From(res) {
      res := res + 1;
    }
  }

  ghost function LowerIndex(a: Axis, x: int): int
    requires a.Valid()
  {
    WidthSpec(a);
    var q := (x - a.min) / a.Width();
    var res := if q >= a.n && x <= a.max then a.n - 1 else q;
    if res > 0 && a.shared && x == a.From(res) then res - 1 else res
  }

  ghost function UpperIndex(a: Axis, x: int): int
    requires a.Valid()
  {
    WidthSpec(a);
    var q := (x - a.min) / a.Width() + 1;
    var res := if q > a.n && x <= a.max then a.n else q;
    if res < a.n && a.shared && x == a.From(res) then res + 1 else res
  }

  /** `lower`, cut off at 0: the blocks from there on are the ones that end at x or later. */
  lemma LowerSpec(a: Axis, x: int, i: int)
    requires a.Valid() && x <= a.max && 0 <= i < a.n
    ensures a.To(i) >= x <==> i >= LowerIndex(a, x)
    ensures LowerIndex(a, x) < a.n
    ensures x >= a.min ==> LowerIndex(a, x) >= 0
  {
    WidthSpec(a);
    FromQuotient(a, x, i + 1);
    FromQuotient(a, x, i);
    FromQuotient(a, x, 0);
    FromQuotient(a, x, 1);
    var q, w := (x - a.min) / a.Width(), a.Width();
    FromQuotient(a, x, q);
    FromQuotient(a, x, q + 1);
    assert w * (i + 1) == w * i + w && w * (q + 1) == w * q + w;
    if a.shared && i < a.n - 1 {
      SharedEnd(a, x, i);
    }
  }

  /** With shared faces, a block that ends at x starts one width before it. */
  lemma SharedEnd(a: Axis, x: int, i: int)
    requires a.Valid() && a.shared && 0 <= i < a.n - 1
    ensures a.Width() >= 1
    ensures a.From(i + 1) >= x <==>
              i + 1 > (x - a.min) / a.Width() || (i + 1 == (x - a.min) / a.Width() && x == a.From(i + 1))
  {
    FromQuotient(a, x, i + 1);
    FromQuotient(a, x, i + 2);
    var w := a.Width();
    assert w * (i + 2) == w * (i + 1) + w;
  }

  /** `upper`, cut off at n: the blocks before it are the ones that start at x or earlier. The clause for
      shared faces never applies. */
  lemma UpperSpec(a: Axis, x: int, i: int)
    requires a.Valid() && x >= a.min && 0 <= i < a.n
    ensures a.From(i) <= x <==> i < UpperIndex(a, x)
    ensures UpperIndex(a, x) >= 1
    ensures x <= a.max ==> UpperIndex(a, x) <= a.n
  {
    FromQuotient(a, x, i);
    FromQuotient(a, x, 0);
    FromQuotient(a, x, (x - a.min) / a.Width() + 1);
  }

  // ---------- periodic axes ----------

  method NormalizeWrap(a: Axis, x: int) returns (y: int)
    requires a.Valid()
    ensures y == a.min + (x - a.min) % a.Period()
  {
    var size := a.Period();
    TruncSpec(x - a.min, size);
    var offset := TruncMod(x - a.min, size);
    if offset < 0 {
      offset := offset + size;
    }
    y := a.min + offset;
  }

  method WrapShift(a: Axis, x: int) returns (q: int)
    requires a.Valid()
    ensures q == (x - a.min) / a.Period()
  {
    q := FloorDiv(x - a.min, a.Period());
  }

  method NormalizeCoord(coord: int, size: int) returns (c: int)
    requires size > 0
    ensures c == coord % size
  {
    TruncSpec(coord, size);
    c := TruncMod(coord, size);
    if c < 0 {
      c := c + size;
    }
  }

  /** x moved by whole periods into the domain. */
  lemma Unwrapped(a: Axis, x: int)
    requires a.Valid()
    ensures var s := (x - a.min) / a.Period(); a.min <= x - s * a.Period() <= a.max
    ensures a.min + (x - a.min) % a.Period() == x - ((x - a.min) / a.Period()) * a.Period()
  {
  }

  // ---------- which blocks hold a point ----------

  /** The bounds of block i with ghosts, as fill_bounds gives them. */
  function GhostMin(a: Axis, i: int): int
    requires a.n > 0
  {
    if a.wrap then a.From(i) - a.ghosts else if a.From(i) - a.ghosts < a.min then a.min else a.From(i) - a.ghosts
  }

  function GhostMax(a: Axis, i: int): int
    requires a.n > 0
  {
    if a.wrap then a.To(i) + a.ghosts else if a.To(i) + a.ghosts > a.max then a.max else a.To(i) + a.ghosts
  }

  /** y is a cell of block i, at most so many cells away from x. */
  predicate Near(a: Axis, i: int, x: int, y: int)
    requires a.n > 0
  {
    a.From(i) <= y <= a.To(i) && x - a.ghosts <= y <= x + a.ghosts
  }

  /** The ghosted bounds hold the cells that are so near to one of the block, cut off at the domain unless the
      axis is periodic. */
  lemma GhostsAround(a: Axis, i: int, x: int)
    requires a.Valid() && 0 <= i < a.n
    ensures GhostMin(a, i) <= x <= GhostMax(a, i)
       <==> (a.wrap || a.min <= x <= a.max) && exists y :: Near(a, i, x, y)
  {
    BlockInDomain(a, i);
    var y := if x < a.From(i) then a.From(i) else if x > a.To(i) then a.To(i) else x;
    if a.From(i) - a.ghosts <= x <= a.To(i) + a.ghosts {
      assert Near(a, i, x, y);
    }
  }

  ghost predicate Within(a: Axis, i: int, x: int)
    requires a.n > 0
  {
    GhostMin(a, i) <= x <= GhostMax(a, i)
  }

  /** x, or on a periodic axis some copy of x, lies within block i's ghosted bounds. */
  ghost predicate Holds(a: Axis, i: int, x: int)
    requires a.n > 0
  {
    if a.wrap then exists k: int :: Within(a, i, x + k * a.Period()) else Within(a, i, x)
  }

  function Place(a: Axis, j: int): int
    requires a.n > 0
  {
    if a.wrap then j % a.n else j
  }

  ghost predicate Ranged(a: Axis, bottom: int, top: int, i: int)
    requires a.n > 0
  {
    exists j :: bottom <= j < top && Place(a, j) == i
  }

  /** The range bottom..top stands, each once, for the blocks that hold x. */
  ghost predicate RangeOk(a: Axis, x: int, bottom: int, top: int)
    requires a.n > 0
  {
    && top - bottom <= a.n && (!a.wrap && bottom < top ==> 0 <= bottom && top <= a.n)
    && forall i :: 0 <= i < a.n ==> (Holds(a, i, x) <==> Ranged(a, bottom, top, i))
  }

  lemma BlockInDomain(a: Axis, i: int)
    requires a.Valid() && 0 <= i < a.n
    ensures a.min <= a.From(i) <= a.To(i) <= a.max
  {
    WidthSpec(a);
    var w := a.Width();
    MulMono(0, i, w);
    MulMono(i + 1, a.n, w);
    if i < a.n - 1 { MulMono(i + 2, a.n, w); }
    assert w * i == i * w && w * (i + 1) == (i + 1) * w && (i + 1) * w == i * w + w && w * a.n == a.n * w;
    assert (i + 2) * w == (i + 1) * w + w;
  }

  lemma PlainRange(a: Axis, x: int, bottom: int, top: int)
    requires a.Valid() && !a.wrap && a.min <= x <= a.max
    requires var t, b := UpperIndex(a, x + a.ghosts), LowerIndex(a, x - a.ghosts);
             top == (if a.n < t then a.n else t) && bottom == (if b > 0 then b else 0)
    ensures RangeOk(a, x, bottom, top)
  {
    forall i | 0 <= i < a.n ensures Holds(a, i, x) <==> Ranged(a, bottom, top, i) {
      LowerSpec(a, x - a.ghosts, i);
      UpperSpec(a, x + a.ghosts, i);
      BlockInDomain(a, i);
      assert Ranged(a, bottom, top, i) <==> bottom <= i < top by {
        if bottom <= i < top { assert Place(a, i) == i; }
      }
    }
  }

  lemma OutsideRange(a: Axis, x: int)
    requires a.Valid() && !a.wrap && (x < a.min || x > a.max)
    ensures RangeOk(a, x, 0, 0)
  {
  }

  /** Comparing two numbers by quotient and remainder. */
  lemma Lexicographic(q: int, i: int, p: int, b: int, n: int)
    requires n > 0 && 0 <= i < n && 0 <= b <= n
    ensures q * n + i >= p * n + b <==> q > p || (q == p && i >= b) || (b == n && q > p)
  {
    if q > p {
      MulMono(p + 1, q, n);
      MulDistr(p, 1, n);
    } else if q < p {
      MulMono(q + 1, p, n);
      MulDistr(q, 1, n);
    }
  }

  /** Copy q of block i ends at l or later exactly when its running number reaches `bottom`. */
  lemma CopyEnds(a: Axis, l: int, q: int, i: int)
    requires a.Valid() && 0 <= i < a.n
    ensures var s := (l - a.min) / a.Period();
            a.To(i) + q * a.Period() >= l <==> q * a.n + i >= s * a.n + LowerIndex(a, l - s * a.Period())
  {
    var p := a.Period();
    var s := (l - a.min) / p;
    var inside := l - s * p;
    Unwrapped(a, l);
    BlockInDomain(a, i);
    LowerSpec(a, inside, i);
    Lexicographic(q, i, s, LowerIndex(a, inside), a.n);
    if q > s {
      MulMono(s + 1, q, p);
      MulDistr(s, 1, p);
    } else if q < s {
      MulMono(q + 1, s, p);
      MulDistr(q, 1, p);
    }
  }

  lemma CopyStarts(a: Axis, r: int, q: int, i: int)
    requires a.Valid() && 0 <= i < a.n
    ensures var s := (r - a.min) / a.Period();
            a.From(i) + q * a.Period() <= r <==> q * a.n + i < s * a.n + UpperIndex(a, r - s * a.Period())
  {
    var p := a.Period();
    var s := (r - a.min) / p;
    var inside := r - s * p;
    Unwrapped(a, r);
    BlockInDomain(a, i);
    UpperSpec(a, inside, i);
    Lexicographic(q, i, s, UpperIndex(a, inside), a.n);
    if q > s {
      MulMono(s + 1, q, p);
      MulDistr(s, 1, p);
    } else if q < s {
      MulMono(q + 1, s, p);
      MulDistr(q, 1, p);
    }
  }

  /** Copy q of block i, with ghosts, contains y. */
  ghost predicate CopyHolds(a: Axis, y: int, q: int, i: int)
    requires a.n > 0
  {
    a.From(i) + q * a.Period() <= y + a.ghosts && a.To(i) + q * a.Period() >= y - a.ghosts
  }

  /** The range of running numbers before it is cut to one period. */
  ghost predicate FullRange(a: Axis, y: int, bottom: int, top: int)
    requires a.Valid()
  {
    var l, r := y - a.ghosts, y + a.ghosts;
    var s, t := (l - a.min) / a.Period(), (r - a.min) / a.Period();
    bottom == s * a.n + LowerIndex(a, l - s * a.Period()) && top == t * a.n + UpperIndex(a, r - t * a.Period())
  }

  lemma CopyRanged(a: Axis, y: int, bottom: int, top: int, q: int, i: int)
    requires a.Valid() && FullRange(a, y, bottom, top) && 0 <= i < a.n
    ensures CopyHolds(a, y, q, i) <==> bottom <= q * a.n + i < top
  {
    CopyEnds(a, y - a.ghosts, q, i);
    CopyStarts(a, y + a.ghosts, q, i);
  }

  /** Moving the point by k periods is moving the block the other way. */
  lemma CopyWithin(a: Axis, x: int, t: int, k: int, i: int)
    requires a.n > 0 && a.wrap
    ensures Within(a, i, x + k * a.Period()) <==> CopyHolds(a, x - t * a.Period(), -k - t, i)
  {
    var p := a.Period();
    MulDistr(-k, t, p);
    assert (-k - t) * p == -(k * p) - t * p;
  }

  lemma RunningNumber(a: Axis, q: int, i: int)
    requires a.n > 0 && a.wrap && 0 <= i < a.n
    ensures Place(a, q * a.n + i) == i
  {
    DivUnique(q * a.n + i, a.n, q, i);
  }

  /** Block i holds x exactly when one of its copies has a running number in the full range. */
  lemma WrapHolds(a: Axis, x: int, bottom: int, top: int, i: int)
    requires a.Valid() && a.wrap && 0 <= i < a.n && FullRange(a, a.min + (x - a.min) % a.Period(), bottom, top)
    ensures Holds(a, i, x) <==> Ranged(a, bottom, top, i)
  {
    var t, y := (x - a.min) / a.Period(), a.min + (x - a.min) % a.Period();
    Unwrapped(a, x);
    if Holds(a, i, x) {
      var k :| Within(a, i, x + k * a.Period());
      CopyWithin(a, x, t, k, i);
      CopyRanged(a, y, bottom, top, -k - t, i);
      RunningNumber(a, -k - t, i);
    }
    if Ranged(a, bottom, top, i) {
      var j :| bottom <= j < top && Place(a, j) == i;
      SplitNumber(j, a.n);
      CopyRanged(a, y, bottom, top, j / a.n, i);
      HeldFrom(a, x, t, j / a.n, i);
    }
  }

  lemma SplitNumber(j: int, n: int)
    requires n > 0
    ensures j == (j / n) * n + j % n && 0 <= j % n < n
  {
  }

  lemma HeldFrom(a: Axis, x: int, t: int, q: int, i: int)
    requires a.n > 0 && a.wrap && CopyHolds(a, x - t * a.Period(), q, i)
    ensures Holds(a, i, x)
  {
    var k := -q - t;
    CopyWithin(a, x, t, k, i);
    assert Within(a, i, x + k * a.Period());
  }

  /** n running numbers in a row stand for all blocks. */
  lemma AllResidues(a: Axis, bottom: int, top: int, i: int)
    requires a.n > 0 && a.wrap && top - bottom >= a.n && 0 <= i < a.n
    ensures Ranged(a, bottom, top, i)
  {
    var n := a.n;
    var j := bottom + (i - bottom) % n;
    var m := (i - bottom) / n;
    assert i - bottom == m * n + (i - bottom) % n;
    assert j == (-m) * n + i;
    DivUnique(j, n, -m, i);
    assert Place(a, j) == i;
  }

  /** `top_bottom`: the blocks whose ghosted bounds contain the point, as a range. */
  method TopBottom(a: Axis, p: int) returns (top: int, bottom: int)
    requires a.Valid()
    ensures RangeOk(a, p, bottom, top)
  {
    var x := p;
    if a.wrap {
      x := NormalizeWrap(a, p);
    } else if x < a.min || x > a.max {
      bottom, top := 0, 0;
      OutsideRange(a, p);
      return;
    }
    var l, r := x - a.ghosts, x + a.ghosts;
    if a.wrap {
      bottom, top := WrapTopBottom(a, l, r);
      assert FullRange(a, x, bottom, top);
      forall i | 0 <= i < a.n ensures Holds(a, i, p) <==> Ranged(a, bottom, top, i) {
        WrapHolds(a, p, bottom, top, i);
      }
      if top - bottom > a.n {
        forall i | 0 <= i < a.n ensures Holds(a, i, p) && Ranged(a, 0, a.n, i) {
          AllResidues(a, bottom, top, i);
          AllResidues(a, 0, a.n, i);
        }
        bottom, top := 0, a.n;
      }
    } else {
      top := Upper(a, r);
      bottom := Lower(a, l);
      bottom := if bottom > 0 then bottom else 0;
      top := if a.n < top then a.n else top;
      PlainRange(a, p, bottom, top);
    }
  }

  method WrapTopBottom(a: Axis, l: int, r: int) returns (bottom: int, top: int)
    requires a.Valid() && a.wrap
    ensures var s := (l - a.min) / a.Period(); bottom == s * a.n + LowerIndex(a, l - s * a.Period())
    ensures var s := (r - a.min) / a.Period(); top == s * a.n + UpperIndex(a, r - s * a.Period())
  {
    var period := a.Period();
    var lShift := WrapShift(a, l);
    var rShift := WrapShift(a, r);
    var lWrapped, rWrapped := l - lShift * period, r - rShift * period;
    var lower := Lower(a, lWrapped);
    var upper := Upper(a, rWrapped);
    bottom := lShift * a.n + lower;
    top := rShift * a.n + upper;
  }

  /** Different numbers of a range stand for different blocks. */
  lemma PlacesDiffer(a: Axis, x: int, bottom: int, top: int, i: int, j: int)
    requires a.Valid() && RangeOk(a, x, bottom, top) && bottom <= i < j < top
    ensures Place(a, i) != Place(a, j) && 0 <= Place(a, i) < a.n && 0 <= Place(a, j) < a.n
  {
    if a.wrap && i % a.n == j % a.n {
      var d := j / a.n - i / a.n;
      MulDistr(j / a.n, i / a.n, a.n);
      assert d * a.n == j - i;
      SmallMultiple(d, a.n);
    }
  }
}
