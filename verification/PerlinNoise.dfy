/** Two-dimensional gradient noise over exact reals: bounded by 1, and seamless across cell edges. */
module PerlinNoise {
  const TABLE_SIZE := 256

  function Fade(t: real): real {
    t * t * t * (t * (t * 6.0 - 15.0) + 10.0)
  }

  function Lerp(a: real, b: real, t: real): real {
    a + t * (b - a)
  }

  /** The dot product with one of four diagonal gradients, chosen by the two low bits of the hash. */
  function Grad(hash: nat, x: real, y: real): real {
    match hash % 4
    case 0 => x + y
    case 1 => -x + y
    case 2 => x - y
    case _ => -x - y
  }

  /** The table lists every number below 256 once. */
  ghost predicate IsPermutation(table: seq<int>) {
    && |table| == TABLE_SIZE
    && (forall i :: 0 <= i < TABLE_SIZE ==> 0 <= table[i] < TABLE_SIZE)
    && (forall i, j :: 0 <= i < j < TABLE_SIZE ==> table[i] != table[j])
  }

  /** A table of indices followed by itself. */
  predicate Doubled(perm: seq<int>) {
    && |perm| == 2 * TABLE_SIZE
    && (forall i :: 0 <= i < 2 * TABLE_SIZE ==> 0 <= perm[i] < TABLE_SIZE)
    && (forall i :: 0 <= i < TABLE_SIZE ==> perm[i + TABLE_SIZE] == perm[i])
  }

  /** The hash of the corner `(dx, dy)` of the cell `(xi, yi)`.  Every lookup stays inside the doubled table. */
  function CornerHash(perm: seq<int>, xi: int, yi: int, dx: int, dy: int): nat
    requires Doubled(perm) && 0 <= xi < TABLE_SIZE && 0 <= yi < TABLE_SIZE && 0 <= dx <= 1 && 0 <= dy <= 1
  {
    perm[perm[xi + dx] + yi + dy]
  }

  /** Fade-weighted blend of the four corner contributions at the point `(xf, yf)` of a unit cell. */
  function Blend(aa: nat, ba: nat, ab: nat, bb: nat, xf: real, yf: real): real {
    var u, v := Fade(xf), Fade(yf);
    var x1 := Lerp(Grad(aa, xf, yf), Grad(ba, xf - 1.0, yf), u);
    var x2 := Lerp(Grad(ab, xf, yf - 1.0), Grad(bb, xf - 1.0, yf - 1.0), u);
    Lerp(x1, x2, v)
  }

  function CellValue(perm: seq<int>, xi: int, yi: int, xf: real, yf: real): real
    requires Doubled(perm) && 0 <= xi < TABLE_SIZE && 0 <= yi < TABLE_SIZE
  {
    Blend(CornerHash(perm, xi, yi, 0, 0), CornerHash(perm, xi, yi, 1, 0),
          CornerHash(perm, xi, yi, 0, 1), CornerHash(perm, xi, yi, 1, 1), xf, yf)
  }

  class PerlinNoise {
    const perm: array<int>

    ghost predicate Valid()
      reads perm
    {
      Doubled(perm[..])
    }

    /** `base` is the seeded shuffle of the numbers below 256. */
    constructor (base: seq<int>)
      requires IsPermutation(base)
      ensures Valid() && fresh(perm) && perm[..] == base + base
    {
      var table := new int[2 * TABLE_SIZE];
      for i := 0 to TABLE_SIZE
        invariant table[..i] == base[..i]
        invariant table[TABLE_SIZE..TABLE_SIZE + i] == base[..i]
      {
        table[i] := base[i];
        table[i + TABLE_SIZE] := base[i];
      }
      assert base[..TABLE_SIZE] == base;
      assert table[..] == table[..TABLE_SIZE] + table[TABLE_SIZE..TABLE_SIZE + TABLE_SIZE];
      perm := table;
      new;
      assert perm[..] == base + base;
      assert forall i :: 0 <= i < 2 * TABLE_SIZE ==> perm[..][i] == base[if i < TABLE_SIZE then i else i - TABLE_SIZE];
    }

    function Sample(x: real, y: real): (r: real)
      requires Valid()
      reads perm
      ensures -1.0 <= r <= 1.0
    {
      var xf, yf := x - x.Floor as real, y - y.Floor as real;
      CellValueIsBounded(perm[..], x.Floor % TABLE_SIZE, y.Floor % TABLE_SIZE, xf, yf);
      CellValue(perm[..], x.Floor % TABLE_SIZE, y.Floor % TABLE_SIZE, xf, yf)
    }

    /** The noise repeats every 256 units along either axis. */
    lemma SampleIsPeriodic(x: real, y: real)
      requires Valid()
      ensures Sample(x + 256.0, y) == Sample(x, y) == Sample(x, y + 256.0)
    {
      hide CellValue, Doubled;
      NextPeriod(x);
      NextPeriod(y);
    }

    /** No seams: the formula of a cell gives the noise on the whole closed cell, its far edges included,
        although the far edges are computed from the next cells. */
    lemma ClosedCellFormula(x: real, y: real, cx: int, cy: int)
      requires Valid() && cx as real <= x <= cx as real + 1.0 && cy as real <= y <= cy as real + 1.0
      ensures Sample(x, y) == CellValue(perm[..], cx % TABLE_SIZE, cy % TABLE_SIZE, x - cx as real, y - cy as real)
    {
      hide CellValue, Doubled;
      FloorInCell(x, cx);
      FloorInCell(y, cy);
      var xf, yf, table := x - cx as real, y - cy as real, perm[..];
      if x.Floor == cx + 1 {
        EdgesAgree(table, cx, y.Floor, y - y.Floor as real);
      }
      if y.Floor == cy + 1 {
        EdgesAgree(table, cx, cy, xf);
      }
    }
  }

  /** A point of a closed cell is in the half-open cell, or on its far edge and in the next one. */
  lemma FloorInCell(x: real, cx: int)
    requires cx as real <= x <= cx as real + 1.0
    ensures (x.Floor == cx && x - x.Floor as real == x - cx as real)
            || (x.Floor == cx + 1 && x - x.Floor as real == 0.0 && x - cx as real == 1.0)
  {
  }

  lemma NextPeriod(x: real)
    ensures (x + 256.0).Floor % TABLE_SIZE == x.Floor % TABLE_SIZE
    ensures x + 256.0 - (x + 256.0).Floor as real == x - x.Floor as real
  {
    assert (x + 256.0).Floor == x.Floor + 256;
  }

  /** The fade curve starts as flat as a cube does, so the noise has no visible creases where cells meet. */
  lemma FadeIsFlat(t: real)
    requires 0.0 <= t <= 1.0
    ensures Fade(t) <= 10.0 * (t * t * t)
  {
    var cube, rest := t * t * t, t * (t * 6.0 - 15.0);
    NonNegativeProduct(t, t);
    NonNegativeProduct(t * t, t);
    NonNegativeProduct(t, 15.0 - t * 6.0);
    NonNegativeProduct(cube, -rest);
    assert Fade(t) == cube * (rest + 10.0) == cube * rest + cube * 10.0;
  }

  // ---- Bound --------------------------------------------------------------------------

  /** Distributes a factor over a sum of three scaled terms. */
  lemma Spread(k: real, x: real, a: real, y: real, b: real, z: real, c: real)
    ensures k * (x * a + y * b + z * c) == x * (k * a) + y * (k * b) + z * (k * c)
  {
    assert k * (x * a) == x * (k * a);
    assert k * (y * b) == y * (k * b);
    assert k * (z * c) == z * (k * c);
  }

  /** The curve in powers of `s == 2 t - 1`: only odd powers remain. */
  lemma FadeExpanded(t: real, s: real)
    requires s == 2.0 * t - 1.0
    ensures 16.0 * (Fade(t) - 0.5) == s * (15.0 - 10.0 * (s * s) + 3.0 * ((s * s) * (s * s)))
  {
    var q := s * s;
    var c := s * q;
    assert t == (s + 1.0) / 2.0;
    var tail := t * (t * 6.0 - 15.0) + 10.0;
    assert tail == (3.0 * q - 9.0 * s + 8.0) / 2.0 by {
      TailInS(t, s);
    }
    assert t * t * t == (1.0 + 3.0 * s + 3.0 * q + c) / 8.0 by {
      CubeInS(t, s);
    }
    assert Fade(t) == t * t * t * tail;
    ProductInS(s, q, c);
    HalvesMultiply(1.0 + 3.0 * s + 3.0 * q + c, 3.0 * q - 9.0 * s + 8.0);
    Spread(s, 15.0, 1.0, -10.0, q, 3.0, q * q);
    assert s * (q * q) == q * c;
  }

  lemma HalvesMultiply(a: real, b: real)
    ensures (a / 8.0) * (b / 2.0) == (a * b) / 16.0
  {
  }

  lemma TailInS(t: real, s: real)
    requires t == (s + 1.0) / 2.0
    ensures t * (t * 6.0 - 15.0) + 10.0 == (3.0 * (s * s) - 9.0 * s + 8.0) / 2.0
  {
    assert 4.0 * (t * t) == s * s + 2.0 * s + 1.0;
    Spread(t, 6.0, t, -15.0, 1.0, 0.0, 0.0);
  }

  lemma CubeInS(t: real, s: real)
    requires t == (s + 1.0) / 2.0
    ensures t * t * t == (1.0 + 3.0 * s + 3.0 * (s * s) + s * (s * s)) / 8.0
  {
    var q := s * s;
    assert t * t == (q + 2.0 * s + 1.0) / 4.0;
    Spread(s, 0.25, q, 0.5, s, 0.25, 1.0);
    assert t * t * t == (t * t) * s / 2.0 + (t * t) / 2.0;
  }

  lemma ProductInS(s: real, q: real, c: real)
    requires q == s * s && c == s * q
    ensures (1.0 + 3.0 * s + 3.0 * q + c) * (3.0 * q - 9.0 * s + 8.0) == 8.0 + 15.0 * s - 10.0 * c + 3.0 * (q * c)
  {
    var p := 3.0 * q - 9.0 * s + 8.0;
    Spread(s, 3.0, q, -9.0, s, 8.0, 1.0);
    Spread(q, 3.0, q, -9.0, s, 8.0, 1.0);
    Spread(c, 3.0, q, -9.0, s, 8.0, 1.0);
    assert q * s == c && c * s == q * q && c * q == q * c;
    assert (1.0 + 3.0 * s + 3.0 * q + c) * p == p + 3.0 * (s * p) + 3.0 * (q * p) + c * p by {
      Spread(p, 3.0, s, 3.0, q, 1.0, 1.0 + c);
      assert p * (1.0 + c) == p + c * p;
    }
  }

  lemma NonNegativeProduct(a: real, b: real)
    requires a >= 0.0 && b >= 0.0
    ensures a * b >= 0.0
  {
  }

  lemma SquareWithin(s: real)
    requires -1.0 <= s <= 1.0
    ensures 0.0 <= s * s <= 1.0
  {
    if s >= 0.0 {
      NonNegativeProduct(s, 1.0 - s);
    } else {
      NonNegativeProduct(-s, 1.0 + s);
    }
  }

  /** Seen from the middle of the cell the curve leans the same way as the position. */
  lemma FadeCentred(t: real)
    requires 0.0 <= t <= 1.0
    ensures (2.0 * t - 1.0) * (Fade(t) - 0.5) >= 0.0
  {
    hide Fade;
    var s := 2.0 * t - 1.0;
    FadeExpanded(t, s);
    SquareWithin(s);
    var q := s * s;
    NonNegativeProduct(q, q);
    var w := 15.0 - 10.0 * q + 3.0 * (q * q);
    NonNegativeProduct(q, w);
    assert s * (s * w) == q * w;
    assert s * (16.0 * (Fade(t) - 0.5)) == q * w;
  }

  lemma TailIsPositive(s: real)
    requires -1.0 <= s <= 1.0
    ensures 3.0 * (s * s) - 9.0 * s + 8.0 >= 2.0
  {
    NonNegativeProduct(1.0 - s, 2.0 - s);
    Spread(1.0 - s, 2.0, 1.0, -1.0, s, 0.0, 0.0);
    assert (1.0 - s) * s == s - s * s;
  }

  lemma FadeNonNegative(t: real)
    requires 0.0 <= t <= 1.0
    ensures 0.0 <= Fade(t)
  {
    TailInS(t, 2.0 * t - 1.0);
    TailIsPositive(2.0 * t - 1.0);
    NonNegativeProduct(t, t);
    NonNegativeProduct(t * t, t);
    NonNegativeProduct(t * t * t, t * (t * 6.0 - 15.0) + 10.0);
  }

  lemma FadeIsAWeight(t: real)
    requires 0.0 <= t <= 1.0
    ensures 0.0 <= Fade(t) <= 1.0
  {
    hide Fade;
    var s := 2.0 * t - 1.0;
    FadeExpanded(t, s);
    FadeExpanded(1.0 - t, -s);
    assert (-s) * (-s) == s * s;
    var odd := 15.0 - 10.0 * (s * s) + 3.0 * ((s * s) * (s * s));
    assert (-s) * odd == -(s * odd);
    FadeNonNegative(t);
    FadeNonNegative(1.0 - t);
  }

  /** The weighted distance to the two ends of a unit interval: at most one half. */
  function Reach(t: real): real {
    t + Fade(t) * (1.0 - 2.0 * t)
  }

  lemma ReachIsAtMostHalf(t: real)
    requires 0.0 <= t <= 1.0
    ensures Reach(t) <= 0.5
  {
    hide Fade;
    FadeCentred(t);
    var s, f := 2.0 * t - 1.0, Fade(t) - 0.5;
    assert Reach(t) == 0.5 - s * f by {
      assert Fade(t) * (1.0 - 2.0 * t) == -(Fade(t) * s);
      assert s * f == Fade(t) * s - 0.5 * s;
    }
  }

  function Size(x: real): real {
    if x < 0.0 then -x else x
  }

  lemma GradIsBounded(hash: nat, x: real, y: real)
    ensures Size(Grad(hash, x, y)) <= Size(x) + Size(y)
  {
  }

  lemma LerpIsBounded(a: real, b: real, t: real, ca: real, cb: real)
    requires 0.0 <= t <= 1.0 && Size(a) <= ca && Size(b) <= cb
    ensures Size(Lerp(a, b, t)) <= Lerp(ca, cb, t)
  {
    hide Lerp, Times;
    ScaleBounded(1.0 - t, a, ca);
    ScaleBounded(t, b, cb);
    LerpIsAverage(a, b, t);
    LerpIsAverage(ca, cb, t);
  }

  function Times(x: real, y: real): real {
    x * y
  }

  lemma LerpIsAverage(a: real, b: real, t: real)
    ensures Lerp(a, b, t) == Times(1.0 - t, a) + Times(t, b)
  {
    assert t * (b - a) == t * b - t * a;
    assert (1.0 - t) * a == a - t * a;
  }

  lemma ScaleBounded(k: real, a: real, c: real)
    requires k >= 0.0 && Size(a) <= c
    ensures -Times(k, c) <= Times(k, a) <= Times(k, c)
  {
    NonNegativeProduct(k, c - a);
    NonNegativeProduct(k, c + a);
    assert k * (c - a) == k * c - k * a && k * (c + a) == k * c + k * a;
  }

  /** Blending the distances to the two ends, on top of a common amount. */
  lemma LerpOfDistances(t: real, c: real)
    ensures Lerp(t + c, 1.0 - t + c, Fade(t)) == Reach(t) + c
  {
    hide Fade;
  }

  /** Whatever the hashes, the blend is at most the two reaches together. */
  lemma BlendIsBounded(aa: nat, ba: nat, ab: nat, bb: nat, x: real, y: real)
    requires 0.0 <= x <= 1.0 && 0.0 <= y <= 1.0
    ensures -1.0 <= Blend(aa, ba, ab, bb, x, y) <= 1.0
  {
    hide Fade, Grad, Lerp, Reach;
    var u, v := Fade(x), Fade(y);
    FadeIsAWeight(x);
    FadeIsAWeight(y);
    GradIsBounded(aa, x, y);
    GradIsBounded(ba, x - 1.0, y);
    GradIsBounded(ab, x, y - 1.0);
    GradIsBounded(bb, x - 1.0, y - 1.0);
    var x1 := Lerp(Grad(aa, x, y), Grad(ba, x - 1.0, y), u);
    var x2 := Lerp(Grad(ab, x, y - 1.0), Grad(bb, x - 1.0, y - 1.0), u);
    LerpIsBounded(Grad(aa, x, y), Grad(ba, x - 1.0, y), u, x + y, 1.0 - x + y);
    LerpIsBounded(Grad(ab, x, y - 1.0), Grad(bb, x - 1.0, y - 1.0), u, x + (1.0 - y), 1.0 - x + (1.0 - y));
    LerpOfDistances(x, y);
    LerpOfDistances(x, 1.0 - y);
    LerpIsBounded(x1, x2, v, y + Reach(x), 1.0 - y + Reach(x));
    LerpOfDistances(y, Reach(x));
    ReachIsAtMostHalf(x);
    ReachIsAtMostHalf(y);
  }

  lemma CellValueIsBounded(perm: seq<int>, xi: int, yi: int, xf: real, yf: real)
    requires Doubled(perm) && 0 <= xi < TABLE_SIZE && 0 <= yi < TABLE_SIZE
    requires 0.0 <= xf <= 1.0 && 0.0 <= yf <= 1.0
    ensures -1.0 <= CellValue(perm, xi, yi, xf, yf) <= 1.0
  {
    hide Blend;
    BlendIsBounded(CornerHash(perm, xi, yi, 0, 0), CornerHash(perm, xi, yi, 1, 0),
                   CornerHash(perm, xi, yi, 0, 1), CornerHash(perm, xi, yi, 1, 1), xf, yf);
  }

  /** The bound is attained: in the middle of a cell whose four gradients point at it. */
  lemma BoundIsAttained()
    ensures Blend(0, 1, 2, 3, 0.5, 0.5) == 1.0
  {
    hide Fade, Lerp;
    FadeExpanded(0.5, 0.0);
    assert Grad(0, 0.5, 0.5) == 1.0 && Grad(1, 0.5 - 1.0, 0.5) == 1.0;
    assert Grad(2, 0.5, 0.5 - 1.0) == 1.0 && Grad(3, 0.5 - 1.0, 0.5 - 1.0) == 1.0;
    LerpOfEqual(1.0, Fade(0.5));
  }

  /** The numbers below 256 in order, but for 1 and 2. */
  function SwappedTable(): seq<int> {
    seq(TABLE_SIZE, i => if i == 1 then 2 else if i == 2 then 1 else i)
  }

  /** So the noise itself can reach 1: with that shuffle it does in the middle of the first cell. */
  lemma SampleReachesOne(noise: PerlinNoise)
    requires noise.Valid() && noise.perm[..] == SwappedTable() + SwappedTable()
    ensures IsPermutation(SwappedTable())
    ensures noise.Sample(0.5, 0.5) == 1.0
  {
    hide Blend, CornerHash, Doubled;
    SwappedCorners(noise.perm[..]);
    assert (0.5).Floor == 0;
    BoundIsAttained();
  }

  lemma SwappedCorners(perm: seq<int>)
    requires Doubled(perm) && perm == SwappedTable() + SwappedTable()
    ensures IsPermutation(SwappedTable())
    ensures CornerHash(perm, 0, 0, 0, 0) == 0 && CornerHash(perm, 0, 0, 1, 0) == 1
    ensures CornerHash(perm, 0, 0, 0, 1) == 2 && CornerHash(perm, 0, 0, 1, 1) == 3
  {
    assert perm[0] == 0 && perm[1] == 2 && perm[2] == 1 && perm[3] == 3;
  }

  lemma LerpOfEqual(a: real, t: real)
    ensures Lerp(a, a, t) == a
  {
  }

  // ---- Seams --------------------------------------------------------------------------

  lemma FadeAtEnds()
    ensures Fade(0.0) == 0.0 && Fade(1.0) == 1.0
  {
  }

  /** On the edge `x == 1` only the two right corners count, and on `x == 0` only the two left ones. */
  lemma BlendOnVerticalEdge(aa: nat, ba: nat, ab: nat, bb: nat, y: real)
    ensures Blend(aa, ba, ab, bb, 1.0, y) == Lerp(Grad(ba, 0.0, y), Grad(bb, 0.0, y - 1.0), Fade(y))
    ensures Blend(aa, ba, ab, bb, 0.0, y) == Lerp(Grad(aa, 0.0, y), Grad(ab, 0.0, y - 1.0), Fade(y))
  {
    hide Fade, Grad;
    FadeAtEnds();
  }

  lemma BlendOnHorizontalEdge(aa: nat, ba: nat, ab: nat, bb: nat, x: real)
    ensures Blend(aa, ba, ab, bb, x, 1.0) == Lerp(Grad(ab, x, 0.0), Grad(bb, x - 1.0, 0.0), Fade(x))
    ensures Blend(aa, ba, ab, bb, x, 0.0) == Lerp(Grad(aa, x, 0.0), Grad(ba, x - 1.0, 0.0), Fade(x))
  {
    hide Fade, Grad;
    FadeAtEnds();
  }

  /** The doubled table makes neighbouring cells hash their common corners alike, also from cell 255 to cell 0. */
  lemma CornersAreShared(perm: seq<int>, cx: int, cy: int, d: int)
    requires Doubled(perm) && 0 <= d <= 1
    ensures var xi, yi := cx % TABLE_SIZE, cy % TABLE_SIZE;
            && CornerHash(perm, xi, yi, 1, d) == CornerHash(perm, (cx + 1) % TABLE_SIZE, yi, 0, d)
            && CornerHash(perm, xi, yi, d, 1) == CornerHash(perm, xi, (cy + 1) % TABLE_SIZE, d, 0)
  {
    var xi, yi := cx % TABLE_SIZE, cy % TABLE_SIZE;
    NextModulo(cx);
    NextModulo(cy);
    assert perm[xi + 1] == perm[(cx + 1) % TABLE_SIZE];
    var p := perm[xi + d];
    assert perm[p + yi + 1] == perm[p + (cy + 1) % TABLE_SIZE];
  }

  lemma NextModulo(c: int)
    ensures (c + 1) % TABLE_SIZE == if c % TABLE_SIZE == TABLE_SIZE - 1 then 0 else c % TABLE_SIZE + 1
  {
  }

  /** Two cells sharing an edge give the same value everywhere on it: the noise has no seams. */
  lemma EdgesAgree(perm: seq<int>, cx: int, cy: int, t: real)
    requires Doubled(perm)
    ensures CellValue(perm, cx % TABLE_SIZE, cy % TABLE_SIZE, 1.0, t)
            == CellValue(perm, (cx + 1) % TABLE_SIZE, cy % TABLE_SIZE, 0.0, t)
    ensures CellValue(perm, cx % TABLE_SIZE, cy % TABLE_SIZE, t, 1.0)
            == CellValue(perm, cx % TABLE_SIZE, (cy + 1) % TABLE_SIZE, t, 0.0)
  {
    hide Blend, CornerHash, Grad, Lerp, Fade;
    var xi, yi := cx % TABLE_SIZE, cy % TABLE_SIZE;
    var xn, yn := (cx + 1) % TABLE_SIZE, (cy + 1) % TABLE_SIZE;
    CornersAreShared(perm, cx, cy, 0);
    CornersAreShared(perm, cx, cy, 1);
    BlendOnVerticalEdge(CornerHash(perm, xi, yi, 0, 0), CornerHash(perm, xi, yi, 1, 0),
                        CornerHash(perm, xi, yi, 0, 1), CornerHash(perm, xi, yi, 1, 1), t);
    BlendOnVerticalEdge(CornerHash(perm, xn, yi, 0, 0), CornerHash(perm, xn, yi, 1, 0),
                        CornerHash(perm, xn, yi, 0, 1), CornerHash(perm, xn, yi, 1, 1), t);
    BlendOnHorizontalEdge(CornerHash(perm, xi, yi, 0, 0), CornerHash(perm, xi, yi, 1, 0),
                          CornerHash(perm, xi, yi, 0, 1), CornerHash(perm, xi, yi, 1, 1), t);
    BlendOnHorizontalEdge(CornerHash(perm, xi, yn, 0, 0), CornerHash(perm, xi, yn, 1, 0),
                          CornerHash(perm, xi, yn, 0, 1), CornerHash(perm, xi, yn, 1, 1), t);
  }

  /** The noise is zero at every corner of every cell. */
  lemma ZeroAtCorners(perm: seq<int>, xi: int, yi: int)
    requires Doubled(perm) && 0 <= xi < TABLE_SIZE && 0 <= yi < TABLE_SIZE
    ensures CellValue(perm, xi, yi, 0.0, 0.0) == 0.0
  {
    hide CornerHash;
    FadeAtEnds();
    BlendOnVerticalEdge(CornerHash(perm, xi, yi, 0, 0), CornerHash(perm, xi, yi, 1, 0),
                        CornerHash(perm, xi, yi, 0, 1), CornerHash(perm, xi, yi, 1, 1), 0.0);
  }
}
