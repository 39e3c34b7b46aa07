/** When the integer solver of the stable curve settles (engine/src/pool_cache.rs). */
module StableSolver {
  import opened Arithmetic
  import opened Words
  import opened StableCurve

  // ── Sizes: no overflow anywhere ─────────────────────────────────────────────────

  /** Ten billion whole tokens in the solver's 18 decimals. */
  const LIMIT: nat := 10_000_000_000_000_000_000_000_000_000

  /** Balances for which the solver settles: at least two whole tokens on the input side
      after the swap, and nothing so large that a product leaves 256 bits. */
  predicate Sized(x0: nat, y: nat) {
    2 * ONE <= x0 <= LIMIT && y <= LIMIT
  }

  /** What a square, a cube and a product of cube and balance come to at most. */
  const SQ: nat := 100_000_000_000_000_000_000_000_000_000_000_000_000
  const CU: nat := 1_000_000_000_000_000_000_000_000_000_000_000_000_000_000_000_000
  const QU: nat := 10_000_000_000_000_000_000_000_000_000_000_000_000_000_000_000_000_000_000_000

  /** All that is needed of the sizes; elsewhere they are hidden. */
  lemma SquareSize()
    ensures LIMIT * LIMIT == SQ * ONE < TWO_256
  {
  }

  lemma CubeSize()
    ensures SQ * LIMIT == CU * ONE < TWO_256
  {
  }

  lemma LevelSizes()
    ensures CU * LIMIT == LIMIT * CU == QU * ONE < TWO_256
  {
  }

  lemma LevelRoom()
    ensures 2 * QU * ONE < TWO_256 && 2 * QU < TWO_256
  {
  }

  lemma TopSizes()
    ensures SQ * (2 * SQ) < TWO_256 && LIMIT < TWO_128
  {
  }

  lemma RiseSizes()
    ensures 3 * LIMIT < TWO_256 && 3 * LIMIT * SQ == 3 * CU * ONE < TWO_256 && 4 * CU < TWO_256
  {
  }

  lemma MulOneExact(a: nat, b: nat, la: nat, lb: nat, lq: nat)
    requires a <= la && b <= lb && la * lb == lq * ONE < TWO_256
    ensures MulOne(Some(a), b) == Some(Quotient(a * b, ONE)) && Quotient(a * b, ONE) <= lq
  {
    hide Quotient, ONE, TWO_256, Product;
    ProductIs(a, b);
    Unit();
    DivBracket(a * b, ONE);
    MulLe(a, la, b);
    MulLe(b, lb, la);
    CancelLe(Quotient(a * b, ONE), lq, ONE);
  }

  /** Square and cube of a sized balance, as the code computes them. */
  lemma CubeExact(v: nat)
    requires v <= LIMIT
    ensures var sq := Quotient(v * v, ONE);
            && MulOne(Some(v), v) == Some(sq) && sq <= SQ
            && Cube(v) == Quotient(sq * v, ONE) && Cube(v) <= CU
  {
    hide MulOne, Quotient, LIMIT, SQ, CU, ONE, TWO_256;
    SquareSize();
    CubeSize();
    MulOneExact(v, v, LIMIT, LIMIT, SQ);
    MulOneExact(Quotient(v * v, ONE), v, SQ, LIMIT, CU);
  }

  /** `a·e <= m < (a+1)·e`: what a floor by `e` loses. */
  predicate Floors(a: nat, m: nat, e: nat) {
    a * e <= m < a * e + e
  }

  lemma QuotientFloors(m: nat, e: nat)
    requires e > 0
    ensures Floors(Quotient(m, e), m, e)
  {
    DivBracket(m, e);
    Distribute(Quotient(m, e), 1, e);
  }

  /** Two floors in a row lose less than `v·e + e²`. */
  lemma TwoFloors(c: nat, sq: nat, p: nat, v: nat, e: nat)
    requires Floors(sq, p, e) && Floors(c, sq * v, e)
    ensures c * e * e <= p * v <= c * e * e + v * e + e * e
  {
    MulLe(sq * e, p, v);
    MulLe(p, sq * e + e, v);
    Distribute(sq * e, e, v);
    MulAssoc(sq, e, v);
    MulAssoc(sq, v, e);
    MulLe(c * e, sq * v, e);
    MulLe(sq * v, c * e + e, e);
    Distribute(c * e, e, e);
  }

  lemma CubeBracket(v: nat)
    requires v <= LIMIT
    ensures Cube(v) * ONE * ONE <= v * v * v <= Cube(v) * ONE * ONE + v * ONE + ONE * ONE
  {
    hide Cube, MulOne, LIMIT, SQ, CU, ONE, TWO_256, Floors, Quotient;
    Unit();
    CubeExact(v);
    QuotientFloors(v * v, ONE);
    QuotientFloors(Quotient(v * v, ONE) * v, ONE);
    TwoFloors(Cube(v), Quotient(v * v, ONE), v * v, v, ONE);
  }

  // ── The smooth function behind the floored one ──────────────────────────────────

  /** The curve the solver really walks, with its own floored cube as a constant. */
  ghost function Level(w: nat, x: nat, y: nat): nat {
    Product(w, y) + Product(x, Product(y, y * y))
  }

  lemma LevelIs(w: nat, x: nat, y: nat)
    ensures Level(w, x, y) == w * y + x * (y * y * y)
  {
    hide Product;
    ProductIs(w, y);
    ProductIs(y, y * y);
    ProductIs(x, Product(y, y * y));
    MulAssoc(y, y, y);
  }

  ghost function Rise(w: nat, x: nat, y: nat): nat {
    w + 3 * x * (y * y)
  }

  ghost function Weight(x: nat): nat {
    Cube(x) * ONE * ONE
  }

  /** What the floors of one evaluation can lose, of the level and of the slope. */
  ghost function LevelNoise(x: nat, y: nat, e: nat): nat {
    x * y * e + x * e * e + 2 * (e * e * e)
  }

  ghost function RiseNoise(x: nat, e: nat): nat {
    3 * x * e + e * e
  }

  lemma LevelBracket(x: nat, y: nat)
    requires Sized(x, y)
    ensures var g := StableF(x, y);
            g * ONE * ONE * ONE <= Level(Weight(x), x, y) <= g * ONE * ONE * ONE + LevelNoise(x, y, ONE)
    ensures StableF(x, y) * ONE < TWO_256
  {
    hide Cube, LIMIT, SQ, CU, QU, ONE, TWO_256, StableF, Floors;
    var a, b := LevelFloors(x, y);
    CubeBracket(y);
    LevelAlgebra(a, b, Cube(x), Cube(y), x, y, ONE);
  }

  lemma LevelProducts(x: nat, y: nat)
    requires x <= LIMIT && y <= LIMIT
    ensures var a, b := Quotient(Cube(x) * y, ONE), Quotient(x * Cube(y), ONE);
            MulOne(Some(Cube(x)), y) == Some(a) && a <= QU && MulOne(Some(x), Cube(y)) == Some(b) && b <= QU
  {
    hide Cube, MulOne, Quotient, LIMIT, SQ, CU, QU, ONE, TWO_256;
    LevelSizes();
    CubeExact(x);
    CubeExact(y);
    MulOneExact(Cube(x), y, CU, LIMIT, QU);
    MulOneExact(x, Cube(y), LIMIT, CU, QU);
  }

  /** Without overflow, the level is a sum of two floors. */
  lemma LevelFloors(x: nat, y: nat) returns (a: nat, b: nat)
    requires x <= LIMIT && y <= LIMIT
    ensures Floors(a, Cube(x) * y, ONE) && Floors(b, x * Cube(y), ONE)
    ensures StableF(x, y) == a + b && StableF(x, y) * ONE < TWO_256
  {
    hide Cube, MulOne, Quotient, Floors, LIMIT, QU, ONE, TWO_256;
    Unit();
    LevelRoom();
    LevelProducts(x, y);
    a, b := Quotient(Cube(x) * y, ONE), Quotient(x * Cube(y), ONE);
    QuotientFloors(Cube(x) * y, ONE);
    QuotientFloors(x * Cube(y), ONE);
    assert StableF(x, y) == a + b;
    MulLe(StableF(x, y), 2 * QU, ONE);
  }

  lemma LevelAlgebra(a: nat, b: nat, cx: nat, cy: nat, x: nat, y: nat, e: nat)
    requires Floors(a, cx * y, e) && Floors(b, x * cy, e)
    requires cy * e * e <= y * y * y <= cy * e * e + y * e + e * e
    ensures var l := Level(cx * e * e, x, y);
            (a + b) * e * e * e <= l <= (a + b) * e * e * e + LevelNoise(x, y, e)
  {
    hide Level, Floors;
    LevelIs(cx * e * e, x, y);
    ScaleFloor(a, cx * y, e);
    MoveFactor(cx, y, e);
    CubicPart(b, cy, x, y * y * y, y, e);
    SumCubed(a, b, e);
  }

  lemma SumCubed(a: nat, b: nat, e: nat)
    ensures (a + b) * e * e * e == a * e * e * e + b * e * e * e && e * e * e == e * (e * e)
  {
    Distribute(a, b, e);
    Distribute(a * e, b * e, e);
    Distribute(a * e * e, b * e * e, e);
  }

  lemma MoveFactor(a: nat, b: nat, e: nat)
    ensures a * e * e * b == a * b * e * e && b * (a * e * e) == a * b * e * e
  {
    MulAssoc(a, e, b);
    MulAssoc(a * e, e, b);
    MulAssoc(a, b, e);
  }

  lemma CubicPart(b: nat, c: nat, x: nat, y3: nat, y: nat, e: nat)
    requires Floors(b, x * c, e)
    requires c * e * e <= y3 <= c * e * e + y * e + e * e
    ensures b * e * e * e <= x * y3 <= b * e * e * e + e * e * e + x * y * e + x * e * e
  {
    hide Floors;
    ScaleFloor(b, x * c, e);
    MoveFactor(c, x, e);
    MulLe(c * e * e, y3, x);
    MulLe(y3, c * e * e + y * e + e * e, x);
    Distribute(c * e * e + y * e, e * e, x);
    Distribute(c * e * e, y * e, x);
    MulAssoc(x, y, e);
    MulAssoc(x, e, e);
  }

  lemma ScaleFloor(a: nat, m: nat, e: nat)
    requires Floors(a, m, e)
    ensures a * e * e * e <= m * e * e <= a * e * e * e + e * e * e
  {
    MulLe(a * e, m, e);
    MulLe(a * e * e, m * e, e);
    MulLe(m, a * e + e, e);
    Distribute(a * e, e, e);
    MulLe(m * e, a * e * e + e * e, e);
    Distribute(a * e * e, e * e, e);
  }

  lemma RiseBracket(x: nat, y: nat)
    requires Sized(x, y)
    ensures var d := StableD(x, y);
            d * ONE * ONE <= Rise(Weight(x), x, y) <= d * ONE * ONE + RiseNoise(x, ONE)
    ensures StableD(x, y) >= Cube(x)
  {
    hide Cube, LIMIT, SQ, CU, ONE, TWO_256, StableD, Floors;
    var y2, t := RiseFloors(x, y);
    RiseAlgebra(Cube(x), t, y2, x, y, ONE);
  }

  lemma RiseAlgebra(c: nat, t: nat, y2: nat, x: nat, y: nat, e: nat)
    requires Floors(y2, y * y, e) && Floors(t, 3 * x * y2, e)
    ensures (c + t) * e * e <= c * e * e + 3 * x * (y * y) <= (c + t) * e * e + 3 * x * e + e * e
  {
    hide Floors;
    TwoFloors(t, y2, y * y, 3 * x, e) by {
      assert y2 * (3 * x) == 3 * x * y2;
    }
    assert y * y * (3 * x) == 3 * x * (y * y);
    Distribute(c, t, e);
    Distribute(c * e, t * e, e);
  }

  /** And so is the slope, the second of them of a floored square. */
  lemma RiseFloors(x: nat, y: nat) returns (y2: nat, t: nat)
    requires x <= LIMIT && y <= LIMIT
    ensures Floors(y2, y * y, ONE) && Floors(t, 3 * x * y2, ONE) && StableD(x, y) == Cube(x) + t
  {
    hide Cube, MulOne, LIMIT, SQ, CU, ONE, TWO_256, Quotient, Floors;
    Unit();
    RiseSizes();
    CubeExact(x);
    CubeExact(y);
    y2 := Quotient(y * y, ONE);
    MulOneExact(3 * x, y2, 3 * LIMIT, SQ, 3 * CU);
    t := Quotient(3 * x * y2, ONE);
    QuotientFloors(y * y, ONE);
    QuotientFloors(3 * x * y2, ONE);
  }

  // ── Polynomial facts ────────────────────────────────────────────────────────────

  /** A unit that is not tiny, an input balance of at least two units, and a weight that is
      the cube up to two floors. */
  predicate Scaled(w: nat, x: nat, e: nat) {
    1000 <= e && 2 * e <= x && w <= x * x * x <= w + x * e + e * e
  }

  lemma ScaledFacts(w: nat, x: nat, e: nat)
    requires Scaled(w, x, e)
    ensures 2 * (e * e) <= x * e && 2 * (e * e * e) <= x * e * e && 1000 * (x * e) <= x * e * e
    ensures 2 * (x * x * e) <= x * x * x && 2 * (x * e * e) <= x * x * e && 1000 * (x * e) <= x * x * e
    ensures 2 * RiseNoise(x, e) <= 7 * (x * e)
  {
    Doubles(x, e, e);
    Doubles(x, e, e * e);
    Doubles(x, e, x * x);
    Doubles(x, e, x * e);
    MulLe(1000, e, x * e);
    MulAssoc(x, e, x);
    MulAssoc(x, e, e);
    MulAssoc(x, x, e);
    MulAssoc(e, e, e);
    MulAssoc(x, x, x);
  }

  lemma Doubles(x: nat, e: nat, c: nat)
    requires x >= 2 * e
    ensures 2 * (e * c) <= x * c
  {
    MulLe(2 * e, x, c);
    MulAssoc(2, e, c);
  }

  lemma WeightFloor(w: nat, x: nat, e: nat)
    requires Scaled(w, x, e)
    ensures w >= 3 * (x * e * e)
  {
    hide RiseNoise;
    ScaledFacts(w, x, e);
  }

  /** With two units on the input side, what the floors lose is less than one slope. */
  lemma NoiseBelowSlope(w: nat, x: nat, y: nat, e: nat)
    requires Scaled(w, x, e)
    ensures LevelNoise(x, y, e) + 2 * RiseNoise(x, e) < Rise(w, x, y)
  {
    hide Scaled, RiseNoise, LevelNoise, Rise;
    NoiseUpper(w, x, y, e);
    RiseLower(w, x, y, e);
    Outweighs(LevelNoise(x, y, e), RiseNoise(x, e), Rise(w, x, y), x * y * y, x * e * e, x * e);
  }

  lemma Outweighs(level: nat, noise: nat, rise: nat, a: nat, b: nat, c: nat)
    requires 4 * level + 8 * noise <= 4 * a + 9 * b + 28 * c && rise >= 3 * b + 3 * a && 1000 * c <= b && c > 0
    ensures level + 2 * noise < rise
  {
  }

  lemma NoiseUpper(w: nat, x: nat, y: nat, e: nat)
    requires Scaled(w, x, e)
    ensures 4 * LevelNoise(x, y, e) + 8 * RiseNoise(x, e) <= 4 * (x * y * y) + 9 * (x * e * e) + 28 * (x * e)
  {
    hide Scaled, RiseNoise;
    ScaledFacts(w, x, e);
    CrossTerm(x, y, e);
  }

  lemma RiseLower(w: nat, x: nat, y: nat, e: nat)
    requires Scaled(w, x, e)
    ensures Rise(w, x, y) >= 3 * (x * e * e) + 3 * (x * y * y)
    ensures 1000 * (x * e) <= x * e * e && x * e > 0
  {
    hide RiseNoise;
    WeightFloor(w, x, e);
    ScaledFacts(w, x, e);
    MulPositive(x, e);
    MulAssoc(3, x, y * y);
    MulAssoc(x, y, y);
  }

  lemma CrossTerm(x: nat, y: nat, e: nat)
    ensures 4 * (x * y * e) <= 4 * (x * y * y) + x * e * e
  {
    var t := 2 * y - e;
    assert t * t == 4 * (y * y) - 4 * (y * e) + e * e;
    assert 0 <= t * t;
    MulLe(0, t * t, x);
    assert x * (t * t) == 4 * (x * y * y) - 4 * (x * y * e) + x * e * e;
  }

  /** The curve is convex: it never falls faster than its slope. */
  lemma Convex(w: nat, x: nat, y: nat, m: nat)
    ensures Level(w, x, y) <= Level(w, x, SaturatingSub(y, m)) + m * Rise(w, x, y)
  {
    hide Level;
    LevelIs(w, x, y);
    LevelIs(w, x, SaturatingSub(y, m));
    if m <= y {
      var z := y - m;
      CubeDrop(z, m);
      Distribute(z, m, w);
      MulLe(y * y * y, z * z * z + 3 * (m * (y * y)), x);
      Distribute(z * z * z, 3 * (m * (y * y)), x);
      assert m * (3 * x * (y * y)) == x * (3 * (m * (y * y)));
      Distribute(w, 3 * x * (y * y), m);
    } else {
      MulLe(y, m, Rise(w, x, y));
      LevelBelowSlope(w, x, y);
    }
  }

  lemma CubeDrop(z: nat, m: nat)
    ensures var y := z + m; y * y * y <= z * z * z + 3 * (m * (y * y))
  {
    var y := z + m;
    assert z * z * z + 3 * (m * (y * y)) - y * y * y == 3 * (z * m * m) + 2 * (m * m * m);
  }

  lemma LevelBelowSlope(w: nat, x: nat, y: nat)
    ensures Level(w, x, y) <= y * Rise(w, x, y) <= 3 * Level(w, x, y)
  {
    hide Level;
    LevelIs(w, x, y);
    Distribute(w, 3 * x * (y * y), y);
    assert y * (3 * x * (y * y)) == 3 * (x * (y * y * y));
  }

  /** Above, a step covers at least a third of the way: the chord is at least a third of the
      slope at its upper end. */
  lemma ChordIsThird(w: nat, x: nat, z: nat, y: nat)
    requires z <= y
    ensures (y - z) * Rise(w, x, y) <= 3 * (Level(w, x, y) - Level(w, x, z))
  {
    hide Level;
    LevelIs(w, x, y);
    LevelIs(w, x, z);
    var h := y - z;
    CubeChord(z, h);
    Distribute(z, h, w);
    MulLe(z * z * z + h * (y * y), y * y * y, x);
    Distribute(z * z * z, h * (y * y), x);
    assert h * (3 * x * (y * y)) == 3 * (x * (h * (y * y)));
    Distribute(w, 3 * x * (y * y), h);
    MulAssoc(h, w, 1);
  }

  lemma CubeChord(z: nat, h: nat)
    ensures var y := z + h; z * z * z + h * (y * y) <= y * y * y
  {
    var y := z + h;
    assert y * y * y - h * (y * y) == z * (y * y);
    MulLe(z, y, z);
    MulLe(z, y, y);
    MulLe(z * z, y * y, z);
  }

  lemma LevelMonotone(w: nat, x: nat, a: nat, b: nat)
    requires a <= b
    ensures Level(w, x, a) <= Level(w, x, b)
  {
    hide Level;
    LevelIs(w, x, a);
    LevelIs(w, x, b);
    MulLe(a, b, w);
    MulLe(a, b, a);
    MulLe(a, b, b);
    MulLe(a * a, b * b, a);
    MulLe(a, b, b * b);
    MulLe(a * a * a, b * b * b, x);
  }

  // ── One step down ───────────────────────────────────────────────────────────────

  /** From above, a step is at most about half of the larger balance. */
  lemma HalfStep(w: nat, x: nat, y: nat, m: nat, e: nat)
    requires Scaled(w, x, e)
    requires m * Rise(w, x, y) <= Level(w, x, y) + m * RiseNoise(x, e)
    ensures 2 * m <= if y <= x then x + 3 else y
  {
    hide Scaled, Rise, Level, RiseNoise;
    if y <= x && 2 * m >= x + 4 {
      NetSlope(w, x, y, m, x + 4, e);
      LinearRegime(w, x, y, e);
      assert false;
    } else if y > x && 2 * m >= y + 1 {
      NetSlope(w, x, y, m, y + 1, e);
      CubicRegime(w, x, y, e);
      assert false;
    }
  }

  lemma NetSlope(w: nat, x: nat, y: nat, m: nat, n: nat, e: nat)
    requires Scaled(w, x, e) && 2 * m >= n
    requires m * Rise(w, x, y) <= Level(w, x, y) + m * RiseNoise(x, e)
    ensures n * Rise(w, x, y) - n * RiseNoise(x, e) <= 2 * Level(w, x, y)
  {
    hide Rise, Level, RiseNoise, LevelNoise, Scaled;
    NoiseBelowSlope(w, x, y, e);
    var net := Rise(w, x, y) - RiseNoise(x, e);
    MulLe(n, 2 * m, net);
    assert 2 * m * net == 2 * (m * Rise(w, x, y)) - 2 * (m * RiseNoise(x, e));
    assert n * net == n * Rise(w, x, y) - n * RiseNoise(x, e);
  }

  lemma LinearRegime(w: nat, x: nat, y: nat, e: nat)
    requires Scaled(w, x, e) && y <= x
    ensures (x + 4) * Rise(w, x, y) - (x + 4) * RiseNoise(x, e) > 2 * Level(w, x, y)
  {
    hide Rise, Level, RiseNoise;
    ScaledFacts(w, x, e);
    Quartic(x, y);
    WeightShift(w, x, y, e);
    LinearExpansion(w, x, y);
    NoiseTimes(x, x + 4, e);
    Distribute(x, 4, x * e);
    MulAssoc(x, x, e);
    MulLe(0, x * y, y);
  }

  lemma LinearExpansion(w: nat, x: nat, y: nat)
    ensures (x + 4) * Rise(w, x, y) - 2 * Level(w, x, y)
         == w * (x - 2 * y) + 3 * (x * x * y * y) - 2 * (x * y * y * y) + 4 * w + 12 * (x * y * y)
  {
    hide Level, Rise;
    LevelIs(w, x, y);
    var p := x * y * y;
    assert Rise(w, x, y) == w + 3 * p by {
      LinearRise(w, x, y);
    }
    LinearLevel(w, x, y);
    Distribute(x, 4, w + 3 * p);
    Distribute(w, 3 * p, x);
    LinearCubic(x, y);
  }

  lemma LinearRise(w: nat, x: nat, y: nat)
    ensures Rise(w, x, y) == w + 3 * (x * y * y)
  {
    MulAssoc(x, y, y);
    MulAssoc(3, x, y * y);
  }

  lemma LinearLevel(w: nat, x: nat, y: nat)
    ensures x * (y * y * y) == x * y * y * y
    ensures w * (x - 2 * y) == x * w - 2 * (w * y)
  {
  }

  lemma LinearCubic(x: nat, y: nat)
    ensures x * (3 * (x * y * y)) == 3 * (x * x * y * y)
  {
  }

  lemma WeightShift(w: nat, x: nat, y: nat, e: nat)
    requires Scaled(w, x, e) && y <= x
    ensures 2 * (w * (x - 2 * y)) >= 2 * (x * x * x * (x - 2 * y)) - 3 * (x * x * e)
  {
    hide Scaled;
    WeightGap(w, x, e);
    var c := x * x * x;
    var eta := c - w;
    MulLe(2 * eta, 3 * (x * e), x);
    MulLe(0, eta, y);
    ShiftFactor(w, c, eta, x, y);
    MulAssoc(2, eta, x);
    MulAssoc(3, x * e, x);
    MulAssoc(x, e, x);
    MulAssoc(x, x, e);
  }

  lemma WeightGap(w: nat, x: nat, e: nat)
    requires Scaled(w, x, e)
    ensures w <= x * x * x && 2 * (x * x * x - w) <= 3 * (x * e)
  {
    Doubles(x, e, e);
  }

  lemma ShiftFactor(w: nat, c: nat, eta: nat, x: nat, y: nat)
    requires c == w + eta
    ensures w * (x - 2 * y) == c * (x - 2 * y) - eta * x + 2 * (eta * y)
  {
    Distribute(w, eta, x - 2 * y);
    assert eta * (x - 2 * y) == eta * x - 2 * (eta * y);
  }

  lemma NoiseTimes(x: nat, c: nat, e: nat)
    requires 2 * RiseNoise(x, e) <= 7 * (x * e)
    ensures 2 * (c * RiseNoise(x, e)) <= 7 * (c * (x * e))
  {
    hide RiseNoise;
    MulLe(2 * RiseNoise(x, e), 7 * (x * e), c);
    MulAssoc(c, 2, RiseNoise(x, e));
    MulAssoc(c, 7, x * e);
  }

  lemma Quartic(x: nat, y: nat)
    requires y <= x
    ensures x * x * x * (x - 2 * y) + 3 * (x * x * y * y) - 2 * (x * y * y * y) >= 0
  {
    var q := x * x - x * y + 2 * (y * y);
    MulLe(y, x, x);
    assert q >= 0;
    var p := x * (x - y);
    assert p >= 0;
    assert p * q >= 0;
    assert p * q == x * x * x * (x - 2 * y) + 3 * (x * x * y * y) - 2 * (x * y * y * y);
  }

  lemma CubicRegime(w: nat, x: nat, y: nat, e: nat)
    requires Scaled(w, x, e) && y > x
    ensures (y + 1) * Rise(w, x, y) - (y + 1) * RiseNoise(x, e) > 2 * Level(w, x, y)
  {
    hide Rise, Level, RiseNoise, Scaled;
    ScaledFacts(w, x, e);
    CubicExpansion(w, x, y);
    CubicWeight(w, x, y, e);
    CubicSizes(w, x, y, e);
    NoiseTimes(x, y + 1, e);
    Distribute(y, 1, x * e);
    var p := x * (y * y);
    assert (y + 1) * Rise(w, x, y) - 2 * Level(w, x, y) >= 3 * p;
  }

  lemma CubicWeight(w: nat, x: nat, y: nat, e: nat)
    requires Scaled(w, x, e) && y > x
    ensures w * y <= x * (y * y) * y
  {
    MulLe(x, y, x);
    MulLe(x, y, y);
    MulLe(x * x, y * y, x);
    MulAssoc(x, x, x);
    MulLe(w, x * (y * y), y);
  }

  lemma CubicSizes(w: nat, x: nat, y: nat, e: nat)
    requires Scaled(w, x, e) && y > x
    ensures x * (y * y) >= 2 * (y * (x * e)) && y * (x * e) >= 2000 * (x * e) && x * e > 0
  {
    MulPositive(x, e);
    Doubles(y, e, x * y);
    CubicAtoms(x, y, e);
    MulLe(2000, y, x * e);
  }

  lemma CubicExpansion(w: nat, x: nat, y: nat)
    ensures (y + 1) * Rise(w, x, y) - 2 * Level(w, x, y) == x * (y * y) * y - w * y + w + 3 * (x * (y * y))
  {
    hide Level;
    LevelIs(w, x, y);
    var p := x * (y * y);
    Distribute(y, 1, w + 3 * p);
    Distribute(w, 3 * p, y);
    assert 3 * x * (y * y) == 3 * p && x * (y * y * y) == p * y && y * (3 * p) == 3 * (p * y);
  }

  lemma CubicAtoms(x: nat, y: nat, e: nat)
    ensures e * (x * y) == y * (x * e) && y * (x * y) == x * (y * y) && x * x * x == x * (x * x)
    ensures 2 * e * (x * e) == 2 * (x * e * e)
  {
    MulAssoc(e, x, y);
    MulAssoc(x, y, e);
    MulAssoc(x, y, y);
    MulAssoc(x, e, e);
  }

  /** What a step can lose to the floored slope is at most one slope at its lower end. */
  lemma Undershoot(w: nat, x: nat, y: nat, m: nat, e: nat)
    requires Scaled(w, x, e)
    requires m * Rise(w, x, y) <= Level(w, x, y) + m * RiseNoise(x, e)
    ensures m * RiseNoise(x, e) <= Rise(w, x, SaturatingSub(y, m))
  {
    hide Level, RiseNoise, Rise, Scaled;
    HalfStep(w, x, y, m, e);
    ScaledFacts(w, x, e);
    NoiseTimes(x, m, e);
    MulAssoc(2, m, x * e);
    if y <= x {
      SmallUndershoot(w, x, m, e);
      SlopeAtLeastWeight(w, x, SaturatingSub(y, m));
    } else {
      LargeUndershoot(w, x, y, m, e);
    }
  }

  lemma SmallUndershoot(w: nat, x: nat, m: nat, e: nat)
    requires Scaled(w, x, e) && 2 * m <= x + 3
    ensures 7 * (m * (x * e)) <= 2 * w
  {
    hide RiseNoise;
    ScaledFacts(w, x, e);
    MulLe(2 * m, x + 3, x * e);
    MulAssoc(2, m, x * e);
    Distribute(x, 3, x * e);
    MulAssoc(x, x, e);
  }

  lemma LargeUndershoot(w: nat, x: nat, y: nat, m: nat, e: nat)
    requires Scaled(w, x, e) && y > x && 2 * m <= y
    ensures 7 * (m * (x * e)) <= 2 * Rise(w, x, y - m)
  {
    hide Rise, Scaled;
    WeightFloor(w, x, e);
    MulLe(2 * m, y, x * e);
    MulAssoc(2, m, x * e);
    HalfSlope(w, x, y, y - m);
    TangentGapSquare(x, y, e);
    UndershootStep(m * (x * e), y * (x * e), x * (y * y), x * e * e, w, Rise(w, x, y - m));
  }

  lemma UndershootStep(u: nat, t: nat, p: nat, q: nat, w: nat, r: nat)
    requires 2 * u <= t && 7 * t <= 3 * p + 5 * q && w >= 3 * q && 4 * r >= 4 * w + 3 * p
    ensures 7 * u <= 2 * r
  {
  }

  lemma SlopeAtLeastWeight(w: nat, x: nat, y: nat)
    ensures Rise(w, x, y) >= w
  {
  }

  lemma HalfSlope(w: nat, x: nat, y: nat, z: nat)
    requires y <= 2 * z
    ensures 4 * Rise(w, x, z) >= 4 * w + 3 * (x * (y * y))
  {
    MulLe(y, 2 * z, y);
    MulLe(y, 2 * z, 2 * z);
    assert 2 * z * (2 * z) == 4 * (z * z);
    MulLe(y * y, 4 * (z * z), x);
    MulAssoc(3, x, z * z);
    MulAssoc(4, x, z * z);
    assert x * (4 * (z * z)) == 4 * (x * (z * z));
  }

  lemma TangentGapSquare(x: nat, y: nat, e: nat)
    ensures 7 * (y * (x * e)) <= 3 * (x * (y * y)) + 5 * (x * e * e)
  {
    var t := 6 * y - 7 * e;
    assert t * t == 36 * (y * y) - 84 * (y * e) + 49 * (e * e);
    MulLe(0, t * t, x);
    assert x * (t * t) == 36 * (x * (y * y)) - 84 * (y * (x * e)) + 49 * (x * e * e);
    assert 0 <= x * e * e;
  }

  // ── The solver itself ───────────────────────────────────────────────────────────

  /** On or above the level, as the code evaluates it. */
  predicate Above(x0: nat, k: nat, y: nat) {
    StableF(x0, y) >= k
  }

  predicate Stopped(x0: nat, k: nat, y: nat) {
    NewtonStep(x0, k, y) == Stop
  }

  ghost function Target(k: nat): nat {
    k * ONE * ONE * ONE
  }

  lemma SizedIsScaled(x0: nat, y: nat)
    requires Sized(x0, y)
    ensures Scaled(Weight(x0), x0, ONE)
  {
    hide Cube, LIMIT, ONE;
    Unit();
    CubeBracket(x0);
  }

  /** Less than two slopes below the level, the next pass stops. */
  lemma NearlyThere(x0: nat, k: nat, y: nat)
    requires Sized(x0, y)
    ensures !Above(x0, k, y) && Target(k) <= Level(Weight(x0), x0, y) + Rise(Weight(x0), x0, y) ==> Stopped(x0, k, y)
  {
    hide StableF, StableD, Level, Rise, LevelNoise, RiseNoise, Scaled, Weight, Sized, Quotient;
    if !Above(x0, k, y) && Target(k) <= Level(Weight(x0), x0, y) + Rise(Weight(x0), x0, y) {
      LevelBracket(x0, y);
      RiseBracket(x0, y);
      SizedIsScaled(x0, y);
      NoiseBelowSlope(Weight(x0), x0, y, ONE);
      var gap, d := k - StableF(x0, y), StableD(x0, y);
      Gap3(k, StableF(x0, y), ONE);
      assert gap * ONE * ONE * ONE < 2 * (d * ONE * ONE);
      SmallStep(gap, d);
    }
  }

  lemma Gap3(k: nat, g: nat, e: nat)
    ensures k * e * e * e - g * e * e * e == (k - g) * e * e * e
  {
  }

  lemma SmallStep(gap: nat, d: nat)
    requires gap * ONE * ONE * ONE < 2 * (d * ONE * ONE)
    ensures d > 0 && Quotient(gap * ONE, d) <= 1
  {
    hide Quotient;
    assert gap * ONE < 2 * d;
    DivBracket(gap * ONE, d);
    CancelLt(Quotient(gap * ONE, d), 2, d);
  }

  /** A pass from above that does not stop goes down by at least two, by the floored ratio of
      level and slope. */
  lemma PassFromAbove(x0: nat, k: nat, y: nat) returns (m: nat)
    requires Sized(x0, y) && Above(x0, k, y) && !Stopped(x0, k, y)
    ensures m >= 2 && NewtonStep(x0, k, y) == Move(SaturatingSub(y, m))
    ensures m * StableD(x0, y) <= (StableF(x0, y) - k) * ONE < (m + 1) * StableD(x0, y)
  {
    hide StableF, StableD, Sized, Level, Weight, LevelNoise, Quotient;
    LevelBracket(x0, y);
    m := Quotient((StableF(x0, y) - k) * ONE, StableD(x0, y));
    DivBracket((StableF(x0, y) - k) * ONE, StableD(x0, y));
  }

  /** In terms of the smooth curve: the step times the slope, against the way down. */
  lemma StepOnCurve(x0: nat, k: nat, y: nat, m: nat)
    requires Sized(x0, y) && Above(x0, k, y)
    requires m * StableD(x0, y) <= (StableF(x0, y) - k) * ONE < (m + 1) * StableD(x0, y)
    ensures var w, x, n := Weight(x0), x0, RiseNoise(x0, ONE);
            && m * Rise(w, x, y) + Target(k) <= Level(w, x, y) + m * n
            && Level(w, x, y) <= Target(k) + (m + 1) * Rise(w, x, y) + LevelNoise(x, y, ONE)
  {
    hide StableF, StableD, Sized, Level, Rise, Weight, LevelNoise, RiseNoise;
    LevelBracket(x0, y);
    RiseBracket(x0, y);
    Gap3(StableF(x0, y), k, ONE);
    StepBracket(m, StableD(x0, y), StableF(x0, y) - k, Rise(Weight(x0), x0, y), RiseNoise(x0, ONE));
  }

  lemma StepBracket(m: nat, d: nat, gap: nat, rise: nat, noise: nat)
    requires m * d <= gap * ONE < (m + 1) * d && d * ONE * ONE <= rise <= d * ONE * ONE + noise
    ensures m * rise <= gap * ONE * ONE * ONE + m * noise && gap * ONE * ONE * ONE <= (m + 1) * rise
  {
    MulLe(rise, d * ONE * ONE + noise, m);
    Distribute(d * ONE * ONE, noise, m);
    MulLe(d * ONE * ONE, rise, m + 1);
    ScaleStep(m, d, ONE);
    ScaleStep(m + 1, d, ONE);
  }

  lemma ScaleStep(m: nat, d: nat, e: nat)
    ensures m * (d * e * e) == m * d * e * e
  {
    MulAssoc(m, d, e);
    MulAssoc(m, d * e, e);
  }

  /** A pass from above lands above again, or so close that the next pass stops. */
  lemma LandsNear(x0: nat, k: nat, y: nat, m: nat)
    requires Sized(x0, y) && Above(x0, k, y)
    requires m * StableD(x0, y) <= (StableF(x0, y) - k) * ONE < (m + 1) * StableD(x0, y)
    ensures Above(x0, k, SaturatingSub(y, m)) || Stopped(x0, k, SaturatingSub(y, m))
  {
    hide StableF, StableD, Level, Rise, Weight, LevelNoise, RiseNoise, Scaled, Stopped;
    var w, z := Weight(x0), SaturatingSub(y, m);
    SizedIsScaled(x0, y);
    StepOnCurve(x0, k, y, m);
    Undershoot(w, x0, y, m, ONE);
    Convex(w, x0, y, m);
    if !Above(x0, k, z) {
      NearlyThere(x0, k, z);
    }
  }

  /** The largest balance on or below the level. */
  ghost predicate IsRoot(x0: nat, k: nat, r: nat) {
    forall y: nat :: Level(Weight(x0), x0, y) <= Target(k) <==> y <= r
  }

  lemma RootExists(x0: nat, k: nat, y: nat) returns (r: nat)
    requires Target(k) < Level(Weight(x0), x0, y + 1)
    ensures IsRoot(x0, k, r) && r <= y
  {
    hide Weight, Target, Level;
    r := LastBelow(x0, k, y);
    forall z: nat ensures Level(Weight(x0), x0, z) <= Target(k) <==> z <= r {
      if z <= r {
        LevelMonotone(Weight(x0), x0, z, r);
      } else {
        LevelMonotone(Weight(x0), x0, r + 1, z);
      }
    }
  }

  lemma {:induction false} LastBelow(x0: nat, k: nat, y: nat) returns (r: nat)
    requires Target(k) < Level(Weight(x0), x0, y + 1)
    ensures Level(Weight(x0), x0, r) <= Target(k) < Level(Weight(x0), x0, r + 1) && r <= y
  {
    hide Weight, Target;
    if Level(Weight(x0), x0, y) <= Target(k) {
      r := y;
    } else {
      assert y > 0;
      r := LastBelow(x0, k, y - 1);
    }
  }

  /** From above the distance to the root shrinks to two thirds and two. */
  lemma Contracts(x0: nat, k: nat, y: nat, m: nat, r: nat)
    requires Sized(x0, y) && Above(x0, k, y) && IsRoot(x0, k, r)
    requires m * StableD(x0, y) <= (StableF(x0, y) - k) * ONE < (m + 1) * StableD(x0, y)
    ensures y - r <= 3 * m + 6
  {
    hide StableF, StableD, Level, Rise, Weight, LevelNoise, RiseNoise, Scaled, Above, Sized, Target;
    if y > r {
      var w := Weight(x0);
      SizedIsScaled(x0, y);
      StepOnCurve(x0, k, y, m);
      NoiseBelowSlope(w, x0, y, ONE);
      ChordIsThird(w, x0, r + 1, y);
      Thirds(Level(w, x0, r + 1), Level(w, x0, y), Target(k), Rise(w, x0, y), LevelNoise(x0, y, ONE), m, y - (r + 1));
    }
  }

  /** Where the solver stops on or above its level, the root is at most nine units below. */
  lemma StopsNearRoot(x0: nat, k: nat, y: nat, r: nat)
    requires Sized(x0, y) && Above(x0, k, y) && Stopped(x0, k, y) && IsRoot(x0, k, r)
    ensures y <= r + 9
  {
    hide Sized, Above, Stopped, IsRoot;
    var m := LastStep(x0, k, y);
    Contracts(x0, k, y, m, r);
  }

  lemma LastStep(x0: nat, k: nat, y: nat) returns (m: nat)
    requires Sized(x0, y) && Above(x0, k, y) && Stopped(x0, k, y)
    ensures m <= 1 && StableF(x0, y) >= k
    ensures m * StableD(x0, y) <= (StableF(x0, y) - k) * ONE < (m + 1) * StableD(x0, y)
  {
    hide StableF, StableD, Sized, Level, Weight, LevelNoise, Quotient, ONE, TWO_256;
    LevelBracket(x0, y);
    UsableSlope(x0, y);
    m := Quotient((StableF(x0, y) - k) * ONE, StableD(x0, y));
    DivBracket((StableF(x0, y) - k) * ONE, StableD(x0, y));
    MulLe(StableF(x0, y) - k, StableF(x0, y), ONE);
  }

  /** And below its level it is at most three below, by what the floors lose. */
  lemma BelowIsNearRoot(x0: nat, k: nat, y: nat, r: nat)
    requires Sized(x0, y) && !Above(x0, k, y) && IsRoot(x0, k, r)
    ensures y <= r + 3
  {
    hide StableF, Level, Rise, Weight, LevelNoise, RiseNoise, Scaled, Sized, ONE;
    if y > r {
      var w := Weight(x0);
      SizedIsScaled(x0, y);
      LevelBracket(x0, y);
      MulLe(StableF(x0, y), k, ONE);
      MulLe(StableF(x0, y) * ONE, k * ONE, ONE);
      MulLe(StableF(x0, y) * ONE * ONE, k * ONE * ONE, ONE);
      NoiseBelowSlope(w, x0, y, ONE);
      ChordIsThird(w, x0, r + 1, y);
      WithinThree(Level(w, x0, r + 1), Level(w, x0, y), Target(k), Rise(w, x0, y), LevelNoise(x0, y, ONE), y - (r + 1));
    }
  }

  lemma WithinThree(low: int, top: int, target: int, rise: int, noise: int, dist: int)
    requires dist * rise <= 3 * (top - low) && target < low && top <= target + noise && 0 <= noise < rise
    ensures dist < 3
  {
    CancelLt(dist, 3, rise);
  }

  lemma Thirds(low: int, top: int, target: int, rise: int, noise: int, m: nat, dist: int)
    requires dist * rise <= 3 * (top - low) && target < low && 0 <= noise < rise
    requires top <= target + (m + 1) * rise + noise
    ensures dist < 3 * m + 6
  {
    Distribute(m + 1, 1, rise);
    MulAssoc(3, m + 2, rise);
    CancelLt(dist, 3 * m + 6, rise);
  }

  lemma AboveIsOverRoot(x0: nat, k: nat, y: nat, r: nat)
    requires Sized(x0, y) && Above(x0, k, y) && IsRoot(x0, k, r)
    ensures r <= y
  {
    hide StableF, Sized, Level, Weight, LevelNoise, Scaled, ONE;
    LevelBracket(x0, y);
    SizedIsScaled(x0, y);
    MulLe(k, StableF(x0, y), ONE);
    MulLe(k * ONE, StableF(x0, y) * ONE, ONE);
    MulLe(k * ONE * ONE, StableF(x0, y) * ONE * ONE, ONE);
    LevelStrict(Weight(x0), x0, y, ONE);
  }

  lemma LevelStrict(w: nat, x: nat, y: nat, e: nat)
    requires Scaled(w, x, e)
    ensures Level(w, x, y) < Level(w, x, y + 1)
  {
    hide Level, RiseNoise;
    LevelIs(w, x, y);
    LevelIs(w, x, y + 1);
    ScaledFacts(w, x, e);
    MulPositive(x, e);
    Distribute(y, 1, w);
    CubeChord(y, 1);
    MulLe(y * y * y, (y + 1) * (y + 1) * (y + 1), x);
  }

  // ── All the passes ──────────────────────────────────────────────────────────────

  /** Where the loop ends after at most n passes is a place where it would stop. */
  predicate SettledAfter(x0: nat, k: nat, y: nat, n: nat) {
    Stopped(x0, k, Iterate(Newton(x0, k), y, n)) && Iterate(Newton(x0, k), y, n) <= y
  }

  lemma StopsAtOnce(x0: nat, k: nat, y: nat, n: nat)
    requires Stopped(x0, k, y)
    ensures SettledAfter(x0, k, y, n)
  {
    hide NewtonStep;
  }

  lemma OnePass(x0: nat, k: nat, y: nat, m: nat, n: nat)
    requires NewtonStep(x0, k, y) == Move(SaturatingSub(y, m)) && SettledAfter(x0, k, SaturatingSub(y, m), n)
    ensures SettledAfter(x0, k, y, n + 1)
  {
    hide NewtonStep;
  }

  /** Near the root every pass takes at least two units. */
  lemma {:induction false} LastPasses(x0: nat, k: nat, y: nat, r: nat, n: nat)
    requires Sized(x0, y) && Above(x0, k, y) && IsRoot(x0, k, r) && y - r < 2 * n
    ensures SettledAfter(x0, k, y, n)
    decreases n
  {
    hide Sized, Above, Stopped, IsRoot, SettledAfter, NewtonStep, StableF, StableD;
    AboveIsOverRoot(x0, k, y, r);
    if Stopped(x0, k, y) {
      StopsAtOnce(x0, k, y, n);
    } else {
      var m := PassFromAbove(x0, k, y);
      var z := SaturatingSub(y, m);
      SizedBelow(x0, y, z);
      LandsNear(x0, k, y, m);
      if z == 0 && Above(x0, k, z) {
        EmptyStops(x0, k);
        StopsAtOnce(x0, k, z, n - 1);
      } else if Above(x0, k, z) {
        AboveIsOverRoot(x0, k, z, r);
        LastPasses(x0, k, z, r, n - 1);
      } else {
        StopsAtOnce(x0, k, z, n - 1);
      }
      OnePass(x0, k, y, m, n - 1);
    }
  }

  lemma EmptyStops(x0: nat, k: nat)
    requires Above(x0, k, 0)
    ensures Stopped(x0, k, 0)
  {
    assert StableF(x0, 0) == 0;
  }

  lemma SizedBelow(x0: nat, y: nat, z: nat)
    requires Sized(x0, y) && z <= y
    ensures Sized(x0, z)
  {
  }

  /** Distances from which n passes reach a distance of nine. */
  function Reach(n: nat): (d: nat)
    ensures d >= 9
  {
    if n == 0 then 9 else (3 * Reach(n - 1) - 4) / 2
  }

  lemma {:induction false} SettlesFromAbove(x0: nat, k: nat, y: nat, r: nat, n: nat, rest: nat)
    requires Sized(x0, y) && Above(x0, k, y) && IsRoot(x0, k, r) && y - r <= Reach(n) && rest >= 5
    ensures SettledAfter(x0, k, y, n + rest)
    decreases n
  {
    hide Sized, Above, Stopped, IsRoot, SettledAfter, NewtonStep, StableF, StableD;
    if Stopped(x0, k, y) {
      StopsAtOnce(x0, k, y, n + rest);
    } else if n == 0 {
      LastPasses(x0, k, y, r, rest);
    } else {
      var m := PassFromAbove(x0, k, y);
      var z := SaturatingSub(y, m);
      SizedBelow(x0, y, z);
      LandsNear(x0, k, y, m);
      Contracts(x0, k, y, m, r);
      if Above(x0, k, z) {
        AboveIsOverRoot(x0, k, z, r);
        SettlesFromAbove(x0, k, z, r, n - 1, rest);
      } else {
        StopsAtOnce(x0, k, z, n - 1 + rest);
      }
      OnePass(x0, k, y, m, n - 1 + rest);
    }
  }

  lemma ReachTenfold(n: nat)
    ensures Reach(n + 10) - 5 >= 57 * (Reach(n) - 5)
  {
    hide Reach;
    ReachStep(n);
    ReachStep(n + 1);
    ReachStep(n + 2);
    ReachStep(n + 3);
    ReachStep(n + 4);
    ReachStep(n + 5);
    ReachStep(n + 6);
    ReachStep(n + 7);
    ReachStep(n + 8);
    ReachStep(n + 9);
  }

  lemma ReachStep(n: nat)
    ensures 2 * (Reach(n + 1) - 5) >= 3 * (Reach(n) - 5)
  {
  }

  function Pow57(j: nat): nat {
    if j == 0 then 1 else 57 * Pow57(j - 1)
  }

  lemma {:induction false} ReachGrows(j: nat)
    ensures Reach(10 * j) - 5 >= 4 * Pow57(j)
  {
    hide Reach;
    if j > 0 {
      ReachGrows(j - 1);
      ReachTenfold(10 * (j - 1));
    }
  }

  lemma ReachesLimit()
    ensures Reach(160) >= LIMIT
  {
    hide Reach;
    ReachGrows(16);
    assert Pow57(4) == 10_556_001;
    assert Pow57(8) == 111_429_157_112_001;
  }

  /** For sized balances the loop settles within its 255 passes, without ever going up, for
      every level on or below its start. */
  lemma SolverSettles(x0: nat, k: nat, y: nat)
    requires Sized(x0, y) && (Above(x0, k, y) || Stopped(x0, k, y))
    ensures SettledAfter(x0, k, y, 255)
  {
    hide Sized, Above, Stopped, SettledAfter, IsRoot;
    if Stopped(x0, k, y) {
      StopsAtOnce(x0, k, y, 255);
    } else {
      LevelOverTarget(x0, k, y);
      var r := RootExists(x0, k, y);
      ReachesLimit();
      SizedLimit(x0, y);
      SettlesFromAbove(x0, k, y, r, 160, 95);
    }
  }

  lemma SizedLimit(x0: nat, y: nat)
    requires Sized(x0, y)
    ensures x0 <= LIMIT && y <= LIMIT
  {
  }

  lemma LevelOverTarget(x0: nat, k: nat, y: nat)
    requires Sized(x0, y) && Above(x0, k, y)
    ensures Target(k) < Level(Weight(x0), x0, y + 1)
  {
    hide StableF, Sized, Level, Weight, LevelNoise, Scaled;
    LevelBracket(x0, y);
    SizedIsScaled(x0, y);
    MulLe(k, StableF(x0, y), ONE * ONE * ONE);
    LevelStrict(Weight(x0), x0, y, ONE);
  }

  // ── Quotes ──────────────────────────────────────────────────────────────────────

  /** A solver that starts at the reserve, with at least the reserve's input on the other side,
      starts above its level or where it stops at once. */
  lemma QuoteStart(x: nat, x0: nat, y: nat)
    requires x <= x0 && Sized(x0, y)
    ensures Above(x0, StableK(x, y), y) || Stopped(x0, StableK(x, y), y)
  {
    hide StableK, StableF, F, Level, Rise, Scaled, Sized, Cube, Stopped;
    var k := StableK(x, y);
    LevelBelowCurve(x, y);
    CurveInX(x, x0, y);
    SizedIsScaled(x0, y);
    SizedLimit(x0, y);
    CubeBracket(x0);
    CurveNearLevel(Weight(x0), x0, y, ONE);
    if !Above(x0, k, y) {
      NearlyThere(x0, k, y);
    }
  }

  lemma CurveInX(x: nat, x0: nat, y: nat)
    requires x <= x0
    ensures F(x, y) <= F(x0, y)
  {
    MulLe(x, x0, x);
    MulLe(x, x0, x0);
    MulLe(x * x, x0 * x0, x);
    MulLe(x, x0, x0 * x0);
    MulLe(x * x * x, x0 * x0 * x0, y);
    MulLe(x, x0, y * y * y);
  }

  lemma CurveNearLevel(w: nat, x: nat, y: nat, e: nat)
    requires Scaled(w, x, e)
    ensures F(x, y) <= Level(w, x, y) + Rise(w, x, y)
  {
    hide F, Level, Rise;
    CurveExpansion(w, x, y, e);
    SlopeCoversWeight(w, x, y, e);
    Doubles(x, e, e * y);
    MulAssoc(e, e, y);
    MulAssoc(x, e, y);
  }

  lemma CurveExpansion(w: nat, x: nat, y: nat, e: nat)
    requires Scaled(w, x, e)
    ensures F(x, y) <= Level(w, x, y) + x * e * y + e * e * y
  {
    hide Level;
    LevelIs(w, x, y);
    MulLe(x * x * x, w + x * e + e * e, y);
    Distribute(w + x * e, e * e, y);
    Distribute(w, x * e, y);
  }

  lemma SlopeCoversWeight(w: nat, x: nat, y: nat, e: nat)
    requires Scaled(w, x, e)
    ensures 2 * Rise(w, x, y) >= 3 * (x * e * y)
  {
    hide Scaled, Rise;
    WeightFloor(w, x, e);
    TangentGapSquare(x, y, e);
    RiseIs(w, x, y);
    MulAssoc(x, e, y);
    MulAssoc(y, x, e);
    CoverStep(w, x * (y * y), x * e * e, y * (x * e));
  }

  lemma RiseIs(w: nat, x: nat, y: nat)
    ensures Rise(w, x, y) == w + 3 * (x * (y * y))
  {
    MulAssoc(3, x, y * y);
  }

  lemma CoverStep(w: nat, p: nat, q: nat, t: nat)
    requires 7 * t <= 3 * p + 5 * q && w >= 3 * q
    ensures 2 * (w + 3 * p) >= 3 * t
  {
  }

  /** On every quote of sized balances the solver settles, at or below its start, with a usable
      slope and a gap that fits. */
  lemma StableQuoteSettles(amountIn: nat, reserveIn: nat, reserveOut: nat, decIn: nat, decOut: nat, feeNum: nat)
    requires var s := SolveFor(amountIn, reserveIn, reserveOut, decIn, decOut, feeNum); Sized(s.xAfter, s.y)
    ensures var s := SolveFor(amountIn, reserveIn, reserveOut, decIn, decOut, feeNum);
            && Stopped(s.xAfter, s.k, s.yAfter) && s.yAfter <= s.y
            && StableD(s.xAfter, s.yAfter) > 0 && GapFits(s.xAfter, s.k, s.yAfter) && LevelFits(s.x, s.y)
  {
    hide SolveFor, Sized, Iterate, StableK, Stopped, Above, StableD, GapFits, LevelFits;
    SolveShape(amountIn, reserveIn, reserveOut, decIn, decOut, feeNum);
    var s := SolveFor(amountIn, reserveIn, reserveOut, decIn, decOut, feeNum);
    QuoteStart(s.x, s.xAfter, s.y);
    SolverSettles(s.xAfter, s.k, s.y);
    SizedBelow(s.xAfter, s.y, s.yAfter);
    UsableSlope(s.xAfter, s.yAfter);
    SizedFits(s.x, s.xAfter, s.y, s.yAfter);
  }

  /** Nor does such a quote withhold much: what is left beyond the root is at most nine units,
      and what the de-normalising floor keeps back. */
  lemma PayoutNearRoot(amountIn: nat, reserveIn: nat, reserveOut: nat, decIn: nat, decOut: nat, feeNum: nat, r: nat)
    requires var s := SolveFor(amountIn, reserveIn, reserveOut, decIn, decOut, feeNum);
             Sized(s.xAfter, s.y) && IsRoot(s.xAfter, s.k, r)
    ensures var s := SolveFor(amountIn, reserveIn, reserveOut, decIn, decOut, feeNum);
            var quote := AmountOutStable(amountIn, reserveIn, reserveOut, decIn, decOut, feeNum);
            s.y < r + OrZero(quote) * ScaleOf(decOut) + 9 + ScaleOf(decOut)
  {
    hide SolveFor, Sized, Stopped, Above, IsRoot, StableD, GapFits, LevelFits, ScaleOf, Quotient;
    StableQuoteSettles(amountIn, reserveIn, reserveOut, decIn, decOut, feeNum);
    var s := SolveFor(amountIn, reserveIn, reserveOut, decIn, decOut, feeNum);
    SizedBelow(s.xAfter, s.y, s.yAfter);
    if Above(s.xAfter, s.k, s.yAfter) {
      StopsNearRoot(s.xAfter, s.k, s.yAfter, r);
    } else {
      BelowIsNearRoot(s.xAfter, s.k, s.yAfter, r);
    }
    DivBracket(s.y - s.yAfter, ScaleOf(decOut));
    Distribute(Quotient(s.y - s.yAfter, ScaleOf(decOut)), 1, ScaleOf(decOut));
  }

  lemma UsableSlope(x0: nat, y: nat)
    requires Sized(x0, y)
    ensures StableD(x0, y) > 0
  {
    hide StableD, Rise, RiseNoise, LevelNoise, Weight, Scaled, Sized;
    RiseBracket(x0, y);
    SizedIsScaled(x0, y);
    NoiseBelowSlope(Weight(x0), x0, y, ONE);
  }

  lemma SizedFits(x: nat, x0: nat, y: nat, z: nat)
    requires x <= x0 && Sized(x0, y) && z <= y
    ensures GapFits(x0, StableK(x, y), z) && LevelFits(x, y)
  {
    hide LevelFits, StableF, StableK, LIMIT, ONE, TWO_256, Level, LevelNoise, Weight;
    LevelBracket(x0, z);
    LimitFits(x, y);
    LevelScaled(x, y);
    if StableF(x0, z) < StableK(x, y) {
      MulLe(StableK(x, y) - StableF(x0, z), StableK(x, y), ONE);
    } else {
      MulLe(StableF(x0, z) - StableK(x, y), StableF(x0, z), ONE);
    }
  }

  lemma LimitFits(x: nat, y: nat)
    requires x <= LIMIT && y <= LIMIT
    ensures LevelFits(x, y)
  {
    hide Quotient, LIMIT, SQ, ONE, TWO_128, TWO_256;
    TopSizes();
    SquareBelow(x, x);
    SquareBelow(y, y);
    SquareBelow(x, y);
    TopBelow(Quotient(x * y, ONE), Quotient(x * x, ONE), Quotient(y * y, ONE), SQ);
  }

  lemma SquareBelow(a: nat, b: nat)
    requires a <= LIMIT && b <= LIMIT
    ensures Quotient(a * b, ONE) <= SQ
  {
    hide Quotient, LIMIT, SQ, ONE, TWO_256;
    SquareSize();
    MulOneExact(a, b, LIMIT, LIMIT, SQ);
  }

  lemma TopBelow(p: nat, q: nat, r: nat, bound: nat)
    requires p <= bound && q <= bound && r <= bound
    ensures p * (q + r) <= bound * (2 * bound)
  {
    MulLe(p, bound, q + r);
    MulLe(q + r, 2 * bound, bound);
  }

  /** The level itself leaves room for one more scaling. */
  lemma LevelScaled(x: nat, y: nat)
    requires LevelFits(x, y)
    ensures StableK(x, y) * ONE < TWO_256
  {
    hide Quotient, LevelTop, StableK, ONE, TWO_128, TWO_256;
    LevelIsProduct(x, y);
    Unit();
    DivBracket(LevelTop(x, y), ONE);
  }

  /** Sized amounts of a pool do not saturate. */
  lemma SizedSolve(amountIn: nat, reserveIn: nat, reserveOut: nat, decIn: nat, decOut: nat, feeNum: nat)
    requires Sized(Units(reserveIn + NetInput(amountIn, feeNum), decIn),
                   Units(reserveOut, decOut))
    ensures var s := SolveFor(amountIn, reserveIn, reserveOut, decIn, decOut, feeNum);
            && s.x == Units(reserveIn, decIn)
            && s.xAfter == Units(reserveIn + NetInput(amountIn, feeNum), decIn)
            && s.y == Units(reserveOut, decOut)
  {
    hide Pow10, Units, SolveFor, Sized, LIMIT, ONE, TWO_256;
    var dx := NetInput(amountIn, feeNum);
    SizedLimit(Units(reserveIn + dx, decIn), Units(reserveOut, decOut));
    UnitsAdd(reserveIn + dx, 0, decIn);
    SmallInput(amountIn * feeNum, dx);
    SolveIs(amountIn, reserveIn, reserveOut, decIn, decOut, feeNum);
  }

  lemma SmallInput(n: nat, dx: nat)
    requires dx == n / 10_000 && dx <= LIMIT
    ensures n < TWO_256 && LIMIT < TWO_256
  {
  }

  /** For balances of at least two whole tokens on the input side and at most ten billion on
      either, whatever the trade, in the pool's own amounts: after the input less the fee is paid
      in and the quote is paid out, the pool with two more units of 1e-18 is on or above the curve
      it was on before the swap, up to the loss of the level's floors. */
  lemma StableQuoteKeepsCurve(amountIn: nat, reserveIn: nat, reserveOut: nat, decIn: nat, decOut: nat, feeNum: nat,
                              out: nat)
    requires Sized(Units(reserveIn + NetInput(amountIn, feeNum), decIn),
                   Units(reserveOut, decOut))
    requires AmountOutStable(amountIn, reserveIn, reserveOut, decIn, decOut, feeNum) == Some(out)
    ensures var x := Units(reserveIn, decIn);
            var x' := Units(reserveIn + NetInput(amountIn, feeNum), decIn);
            var y := Units(reserveOut, decOut);
            && out <= reserveOut
            && F(x', Units(reserveOut - out, decOut) + 2) + LevelLoss(x, y) >= F(x, y)
  {
    hide SolveFor, Sized, AmountOutStable, Pow10, Units, NetInput, StableD, GapFits, LevelFits, LevelLoss, F,
         NewtonStep;
    SizedSolve(amountIn, reserveIn, reserveOut, decIn, decOut, feeNum);
    StableQuoteSettles(amountIn, reserveIn, reserveOut, decIn, decOut, feeNum);
    SettledPayout(amountIn, reserveIn, reserveOut, decIn, decOut, feeNum);
    LeftAfter(reserveOut, out, decOut);
  }

  /** And the quote is not below what the curve allows by more than a little: with one more unit of
      the output token and nine of 1e-18 gone, the pool is on or below the curve it was on before,
      up to the loss of the floored cube of the input side. */
  lemma StableQuoteNearRoot(amountIn: nat, reserveIn: nat, reserveOut: nat, decIn: nat, decOut: nat, feeNum: nat)
    requires Sized(Units(reserveIn + NetInput(amountIn, feeNum), decIn),
                   Units(reserveOut, decOut))
    ensures var quote := AmountOutStable(amountIn, reserveIn, reserveOut, decIn, decOut, feeNum);
            var x := Units(reserveIn, decIn);
            var x' := Units(reserveIn + NetInput(amountIn, feeNum), decIn);
            var y := Units(reserveOut, decOut);
            var left := y - Units(OrZero(quote) + 1, decOut) - 9;
            left >= 0 ==> F(x', left) <= F(x, y) + (x' * ONE + ONE * ONE) * y
  {
    hide SolveFor, Sized, AmountOutStable, Pow10, Units, NetInput, F, OrZero, ONE, IsRoot, StableK, Iterate, ScaleOf;
    SizedSolve(amountIn, reserveIn, reserveOut, decIn, decOut, feeNum);
    SolveShape(amountIn, reserveIn, reserveOut, decIn, decOut, feeNum);
    var s := SolveFor(amountIn, reserveIn, reserveOut, decIn, decOut, feeNum);
    var r := SomeRoot(s.xAfter, s.k, s.y);
    PayoutNearRoot(amountIn, reserveIn, reserveOut, decIn, decOut, feeNum, r);
    var out := OrZero(AmountOutStable(amountIn, reserveIn, reserveOut, decIn, decOut, feeNum));
    OneMore(out, decOut);
    var left := s.y - Units(out + 1, decOut) - 9;
    if left >= 0 {
      RootBelowCurve(s.x, s.xAfter, s.y, r, left);
    }
  }

  lemma OneMore(out: nat, decimals: nat)
    ensures Units(out + 1, decimals) == out * ScaleOf(decimals) + ScaleOf(decimals)
  {
    hide Pow10;
    Distribute(out, 1, ScaleOf(decimals));
  }

  lemma SomeRoot(x0: nat, k: nat, y: nat) returns (r: nat)
    requires Sized(x0, y)
    ensures IsRoot(x0, k, r)
  {
    hide Level, Sized, IsRoot, Weight, Target, ONE;
    SizedIsScaled(x0, y);
    WeightPositive(Weight(x0), x0, ONE);
    LevelAtLeast(Weight(x0), x0, Target(k) + 1);
    r := RootExists(x0, k, Target(k));
  }

  lemma LevelAtLeast(w: nat, x: nat, y: nat)
    requires w >= 1
    ensures Level(w, x, y) >= y
  {
    hide Level;
    LevelIs(w, x, y);
    MulLe(1, w, y);
  }

  lemma WeightPositive(w: nat, x: nat, e: nat)
    requires Scaled(w, x, e)
    ensures w >= 1
  {
    WeightFloor(w, x, e);
    MulPositive(x, e);
    MulPositive(x * e, e);
  }

  /** Below the root, the true curve is below the level's, up to the floored cube. */
  lemma RootBelowCurve(x: nat, x0: nat, y: nat, r: nat, left: nat)
    requires Sized(x0, y) && IsRoot(x0, StableK(x, y), r) && left <= r && left <= y
    ensures F(x0, left) <= F(x, y) + (x0 * ONE + ONE * ONE) * y
  {
    hide Sized, StableK, F, Level, Weight, Scaled, ONE;
    SizedIsScaled(x0, y);
    LevelBelowCurve(x, y);
    CurveExpansion(Weight(x0), x0, left, ONE);
    Distribute(x0 * ONE, ONE * ONE, left);
    MulLe(left, y, x0 * ONE + ONE * ONE);
  }
}
