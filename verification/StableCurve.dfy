/** The Solidly stable curve x³y + xy³ = k and its Newton solver
    (engine/src/pool_cache.rs). */
module StableCurve {
  import opened Arithmetic
  import opened Words

  // ── The curve in exact arithmetic ───────────────────────────────────────────────

  ghost function Curve(x: real, y: real): real {
    x * x * x * y + x * y * y * y
  }

  /** Derivative of the curve in y. */
  ghost function Slope(x: real, y: real): real {
    x * x * x + 3.0 * (x * y * y)
  }

  /** What the chord from `a` to `b` exceeds the tangent by. */
  lemma TangentGap(x: real, a: real, b: real)
    ensures Curve(x, b) - Curve(x, a) - Slope(x, a) * (b - a)
         == (x * ((b - a) * (b - a))) * (b + 2.0 * a)
  {
  }

  /** Convexity: the curve lies on or above each of its tangents. */
  lemma AboveTangent(x: real, a: real, b: real)
    requires 0.0 <= x && 0.0 <= a && 0.0 <= b
    ensures Curve(x, b) >= Curve(x, a) + Slope(x, a) * (b - a)
  {
    TangentGap(x, a, b);
    SquareNonNegative(b - a);
    RealMulNonNegative(x, (b - a) * (b - a));
    RealMulNonNegative(x * ((b - a) * (b - a)), b + 2.0 * a);
  }

  lemma SquareNonNegative(t: real)
    ensures 0.0 <= t * t
  {
  }

  lemma CurveMonotoneInY(x: real, a: real, b: real)
    requires 0.0 < x && 0.0 <= a < b
    ensures Curve(x, a) < Curve(x, b)
  {
    AboveTangent(x, a, b);
    SlopePositive(x, a);
    RealMulPositive(Slope(x, a), b - a);
  }

  lemma CurveMonotoneInX(x: real, x': real, y: real)
    requires 0.0 <= x <= x' && 0.0 <= y
    ensures Curve(x, y) <= Curve(x', y)
  {
    CurveSymmetric(x, y);
    CurveSymmetric(x', y);
    AboveTangent(y, x, x');
    SquareNonNegative(y);
    SquareNonNegative(x);
    RealMulNonNegative(y * y, y);
    RealMulNonNegative(y, x * x);
    RealMulNonNegative(Slope(y, x), x' - x);
  }

  lemma CurveSymmetric(x: real, y: real)
    ensures Curve(x, y) == Curve(y, x)
  {
  }

  // ── Newton never passes the root ────────────────────────────────────────────────

  /** A downward move from `y` to `y'` of at most the exact Newton step. */
  ghost predicate NewtonMove(x: real, k: real, y: real, y': real) {
    y' <= y && (y - y') * Slope(x, y) <= Curve(x, y) - k
  }

  /** On or above the level k, a Newton move stays there, so it cannot pass the root. */
  lemma MoveStaysAbove(x: real, k: real, y: real, y': real)
    requires 0.0 < x && 0.0 <= k && 0.0 <= y && Curve(x, y) >= k
    requires NewtonMove(x, k, y, y')
    ensures 0.0 <= y' && Curve(x, y') >= k
  {
    if y' < 0.0 {
      // A step past zero would need slope·y < curve(y), but slope·y = curve(y) + 2xy³.
      SlopePositive(x, y);
      SquareNonNegative(y);
      RealMulNonNegative(x, y * y);
      RealMulNonNegative(x * (y * y), y);
      SlopeTimesY(x, y);
      RealMulPositive(-y', Slope(x, y));
      RealDistribute(y, -y', Slope(x, y));
      assert false;
    }
    AboveTangent(x, y, y');
    assert Slope(x, y) * (y' - y) == -((y - y') * Slope(x, y));
  }

  lemma SlopeTimesY(x: real, y: real)
    ensures y * Slope(x, y) == Curve(x, y) + 2.0 * (x * (y * y) * y)
  {
  }

  /** Any run of such moves, each exact or cut short by a floor. */
  ghost predicate NewtonRun(x: real, k: real, ys: seq<real>) {
    forall i {:trigger ys[i]} :: 0 <= i < |ys| - 1 ==> NewtonMove(x, k, ys[i], ys[i + 1])
  }

  /** Started on or above the level, every iterate of a run stays there, the iterates fall,
      and none is below any root. */
  lemma {:induction false} RunNeverPassesRoot(x: real, k: real, ys: seq<real>, root: real)
    requires |ys| > 0 && 0.0 < x && 0.0 <= k && 0.0 <= ys[0] && Curve(x, ys[0]) >= k
    requires NewtonRun(x, k, ys)
    requires 0.0 <= root && Curve(x, root) == k
    ensures Curve(x, ys[|ys| - 1]) >= k && root <= ys[|ys| - 1] <= ys[0]
  {
    if |ys| > 1 {
      var rest := ys[1..];
      assert NewtonMove(x, k, ys[0], ys[1]);
      MoveStaysAbove(x, k, ys[0], ys[1]);
      assert forall i {:trigger rest[i]} :: 0 <= i < |rest| ==> rest[i] == ys[i + 1];
      RunNeverPassesRoot(x, k, rest, root);
    } else if ys[0] < root {
      CurveMonotoneInY(x, ys[0], root);
      assert false;
    }
  }

  /** The solver's loop over an exact curve, with its floored step and its stopping rule. */
  method NewtonIdeal(x0: real, k: real, yInit: nat) returns (y: nat)
    requires 0.0 < x0 && 0.0 <= k && Curve(x0, yInit as real) >= k
    ensures y <= yInit && Curve(x0, y as real) >= k
    ensures forall root: real :: 0.0 <= root && Curve(x0, root) == k ==> root <= y as real
  {
    y := yInit;
    for i := 0 to 255
      invariant y <= yInit && Curve(x0, y as real) >= k
    {
      SlopePositive(x0, y as real);
      var dy := (IdealCurve(x0, y as real) - k) / IdealSlope(x0, y as real);
      var step := dy.Floor;
      if step <= 1 { break; }
      FlooredMove(x0, k, y, step);
      y := y - step;
    }
    forall root: real | 0.0 <= root && Curve(x0, root) == k
      ensures root <= y as real
    {
      if (y as real) < root {
        CurveMonotoneInY(x0, y as real, root);
      }
    }
  }

  function IdealCurve(x: real, y: real): (r: real)
    ensures r == Curve(x, y)
  {
    x * x * x * y + x * y * y * y
  }

  function IdealSlope(x: real, y: real): (r: real)
    ensures r == Slope(x, y)
  {
    x * x * x + 3.0 * (x * y * y)
  }

  lemma Mul3Positive(a: real, b: real, c: real)
    requires 0.0 < a && 0.0 < b && 0.0 < c
    ensures 0.0 < a * b * c
  {
    RealMulPositive(a, b);
    RealMulPositive(a * b, c);
  }

  lemma SlopePositive(x: real, y: real)
    requires 0.0 < x
    ensures Slope(x, y) > 0.0
  {
    Mul3Positive(x, x, x);
    SquareNonNegative(y);
    RealMulNonNegative(x, y * y);
    RealAssoc(x, y, y);
  }

  lemma FlooredMove(x0: real, k: real, y: nat, step: int)
    requires 0.0 < x0 && 0.0 <= k && Curve(x0, y as real) >= k && 0 <= step
    requires Slope(x0, y as real) > 0.0
    requires step as real <= (Curve(x0, y as real) - k) / Slope(x0, y as real)
    ensures step <= y && Curve(x0, (y - step) as real) >= k
  {
    var s := Slope(x0, y as real);
    var gap := Curve(x0, y as real) - k;
    hide Curve, Slope;
    assert (gap / s) * s == gap;
    RealMulLe(step as real, gap / s, s);
    assert y as real - (y as real - step as real) == step as real;
    MoveStaysAbove(x0, k, y as real, y as real - step as real);
    assert (y - step) as real == y as real - step as real;
  }

  /** A whole quote over the exact curve: x³y + xy³ never falls, and the payout is at most
      the curve's true output `y - root`. */
  method IdealAmountOut(x: real, y: nat, dx: real) returns (out: nat)
    requires 0.0 < x && 0.0 <= dx
    ensures out <= y && Curve(x + dx, (y - out) as real) >= Curve(x, y as real)
    ensures forall root: real {:trigger Curve(x + dx, root)} ::
              0.0 <= root && Curve(x + dx, root) == Curve(x, y as real) ==> out as real <= y as real - root
  {
    CurveNonNegative(x, y as real);
    CurveMonotoneInX(x, x + dx, y as real);
    var yAfter := NewtonIdeal(x + dx, IdealCurve(x, y as real), y);
    out := y - yAfter;
  }

  lemma CurveNonNegative(x: real, y: real)
    requires 0.0 <= x && 0.0 <= y
    ensures Curve(x, y) >= 0.0
  {
    RealMulNonNegative(x, x);
    RealMulNonNegative(x * x, x);
    RealMulNonNegative(x * x * x, y);
    RealMulNonNegative(x, y);
    RealMulNonNegative(x * y, y);
    RealMulNonNegative(x * y * y, y);
  }

  // ── The integer code ────────────────────────────────────────────────────────────

  const ONE: nat := 1_000_000_000_000_000_000

  /** `checked_mul` chained with `/ one`; `None` after any overflow. */
  function MulOne(a: Option<nat>, b: nat): Option<nat> {
    if a.None? || Product(a.value, b) >= TWO_256 then None else Some(Quotient(Product(a.value, b), ONE))
  }

  function OrZero(a: Option<nat>): nat {
    if a.None? then 0 else a.value
  }

  function StableK(x: nat, y: nat): nat {
    var x2 := OrZero(MulOne(Some(x), x));
    var y2 := OrZero(MulOne(Some(y), y));
    var xy := OrZero(MulOne(Some(x), y));
    OrZero(MulOne(Some(xy), Saturate(x2 + y2)))
  }

  function Cube(v: nat): nat {
    OrZero(MulOne(MulOne(Some(v), v), v))
  }

  function StableF(x0: nat, y: nat): nat {
    Saturate(OrZero(MulOne(Some(Cube(x0)), y)) + OrZero(MulOne(Some(x0), Cube(y))))
  }

  function StableD(x0: nat, y: nat): nat {
    var y2 := OrZero(MulOne(Some(y), y));
    Saturate(Cube(x0) + OrZero(if 3 * x0 < TWO_256 then MulOne(Some(3 * x0), y2) else None))
  }

  datatype Step = Stop | Move(y: nat)

  /** One pass of the loop body. */
  function NewtonStep(x0: nat, k: nat, y: nat): Step {
    var k0 := StableF(x0, y);
    var d := StableD(x0, y);
    if d == 0 then Stop
    else
      var gap := if k0 < k then k - k0 else k0 - k;
      var dy := if gap * ONE < TWO_256 then Quotient(gap * ONE, d) else 0;
      if dy <= 1 then Stop
      else if k0 < k then Move(Saturate(y + dy))
      else Move(SaturatingSub(y, dy))
  }

  /** At most `n` passes of a loop body from `y`. */
  function Iterate(pass: nat -> Step, y: nat, n: nat): nat
    decreases n
  {
    if n == 0 then y
    else match pass(y)
      case Stop => y
      case Move(y') => Iterate(pass, y', n - 1)
  }

  function Newton(x0: nat, k: nat): nat -> Step {
    (y: nat) => NewtonStep(x0, k, y)
  }

  /** `stable_get_y`: at most 255 passes. */
  method StableGetY(x0: nat, k: nat, yInit: nat) returns (y: nat)
    ensures y == Iterate(Newton(x0, k), yInit, 255)
  {
    hide NewtonStep;
    y := yInit;
    var passes := 0;
    while passes < 255
      invariant passes <= 255
      invariant Iterate(Newton(x0, k), y, 255 - passes) == Iterate(Newton(x0, k), yInit, 255)
    {
      match NewtonStep(x0, k, y) {
        case Stop => break;
        case Move(y') => y := y';
      }
      passes := passes + 1;
    }
  }

  const SCALE_DIGITS: nat := 18

  function Pow10(n: nat): (r: nat)
    ensures r >= 1
  {
    if n == 0 then 1 else 10 * Pow10(n - 1)
  }

  /** The scales are the powers of ten the table of the code holds. */
  lemma Scales(a: nat, b: nat)
    ensures Pow10(0) == 1 && Pow10(6) == 1_000_000 && Pow10(18) == ONE
    ensures Pow10(a + b) == Pow10(a) * Pow10(b)
  {
    if a > 0 {
      Scales(a - 1, b);
      MulAssoc(10, Pow10(a - 1), Pow10(b));
    }
  }

  function ScaleOf(decimals: nat): (r: nat)
    ensures r >= 1
  {
    Pow10(SaturatingSub(SCALE_DIGITS, decimals))
  }

  /** What the solver is started with, and where it ends. */
  datatype Solve = Solve(x: nat, y: nat, xAfter: nat, k: nat, yAfter: nat)

  function Normalise(amount: nat, decimals: nat): nat {
    Saturate(Product(amount, ScaleOf(decimals)))
  }

  function SolveFor(amountIn: nat, reserveIn: nat, reserveOut: nat, decIn: nat, decOut: nat, feeNum: nat): Solve {
    var x := Normalise(reserveIn, decIn);
    var y := Normalise(reserveOut, decOut);
    var dx := Quotient(Saturate(Product(amountIn, feeNum)), 10_000);
    var xAfter := Saturate(x + Normalise(dx, decIn));
    var k := StableK(x, y);
    Solve(x, y, xAfter, k, Iterate(Newton(xAfter, k), y, 255))
  }

  /** De-normalised payout; none unless the solver moved the balance down. */
  function Payout(s: Solve, scale: nat): Option<nat> {
    if s.yAfter >= s.y then None else Some(Quotient(s.y - s.yAfter, scale))
  }

  function AmountOutStable(amountIn: nat, reserveIn: nat, reserveOut: nat, decIn: nat, decOut: nat, feeNum: nat)
    : Option<nat>
  {
    Payout(SolveFor(amountIn, reserveIn, reserveOut, decIn, decOut, feeNum), ScaleOf(decOut))
  }

  /** Saturated or not, a stable quote never exceeds the output reserve. */
  lemma StableQuoteWithinReserve(amountIn: nat, reserveIn: nat, reserveOut: nat, decIn: nat, decOut: nat, feeNum: nat)
    requires AmountOutStable(amountIn, reserveIn, reserveOut, decIn, decOut, feeNum).Some?
    ensures AmountOutStable(amountIn, reserveIn, reserveOut, decIn, decOut, feeNum).value <= reserveOut
  {
    hide SolveFor, Pow10;
    SolveStart(amountIn, reserveIn, reserveOut, decIn, decOut, feeNum);
    PayoutWithin(SolveFor(amountIn, reserveIn, reserveOut, decIn, decOut, feeNum), reserveOut, ScaleOf(decOut));
  }

  /** A product in units of 1e-18, floored, is there exactly when the plain product fits 256 bits. */
  lemma MulOneExactly(a: nat, b: nat)
    ensures var r := MulOne(Some(a), b);
            && (r.Some? <==> a * b < TWO_256)
            && (r.Some? ==> r.value * ONE <= a * b < (r.value + 1) * ONE)
  {
    hide Quotient, Product, TWO_256;
    ProductIs(a, b);
    DivBracket(a * b, ONE);
  }

  /** There is a quote exactly when the solver ends below the output balance, and it is what that
      frees in whole units of the output token. */
  lemma StableQuoteExactly(amountIn: nat, reserveIn: nat, reserveOut: nat, decIn: nat, decOut: nat, feeNum: nat)
    ensures var quote := AmountOutStable(amountIn, reserveIn, reserveOut, decIn, decOut, feeNum);
            var s := SolveFor(amountIn, reserveIn, reserveOut, decIn, decOut, feeNum);
            && (quote.Some? <==> s.yAfter < s.y)
            && (quote.Some? ==>
                  quote.value * ScaleOf(decOut) <= s.y - s.yAfter < (quote.value + 1) * ScaleOf(decOut))
  {
    hide SolveFor, Quotient, Pow10;
    var s := SolveFor(amountIn, reserveIn, reserveOut, decIn, decOut, feeNum);
    if s.yAfter < s.y {
      DivBracket(s.y - s.yAfter, ScaleOf(decOut));
    }
  }

  /** Without a slope, or with a gap too wide for 256 bits, a pass goes nowhere; on the first one the
      pool quotes nothing. */
  lemma UnusablePassQuotesNothing(amountIn: nat, reserveIn: nat, reserveOut: nat, decIn: nat, decOut: nat, feeNum: nat)
    requires var s := SolveFor(amountIn, reserveIn, reserveOut, decIn, decOut, feeNum);
             StableD(s.xAfter, s.y) == 0 || !GapFits(s.xAfter, s.k, s.y)
    ensures AmountOutStable(amountIn, reserveIn, reserveOut, decIn, decOut, feeNum) == None
  {
    hide StableD, StableF, StableK, Normalise, Quotient, Product, Pow10, TWO_256;
    var s := SolveFor(amountIn, reserveIn, reserveOut, decIn, decOut, feeNum);
    assert Newton(s.xAfter, s.k)(s.y) == Stop;
  }

  lemma SaturateBelow(n: nat)
    ensures Saturate(n) <= n
  {
  }

  lemma SolveStart(amountIn: nat, reserveIn: nat, reserveOut: nat, decIn: nat, decOut: nat, feeNum: nat)
    ensures SolveFor(amountIn, reserveIn, reserveOut, decIn, decOut, feeNum).y <= reserveOut * ScaleOf(decOut)
  {
    hide Product, StableK, Iterate, Pow10, Quotient, ScaleOf, Saturate, TWO_256;
    ProductIs(reserveOut, ScaleOf(decOut));
    SaturateBelow(Product(reserveOut, ScaleOf(decOut)));
  }

  lemma PayoutWithin(s: Solve, reserve: nat, scale: nat)
    requires scale > 0 && s.y <= reserve * scale && Payout(s, scale).Some?
    ensures Payout(s, scale).value <= reserve
  {
    hide Quotient;
    DivBracket(s.y - s.yAfter, scale);
    CancelLe(Quotient(s.y - s.yAfter, scale), reserve, scale);
  }

  // ── What a settled integer solve guarantees ─────────────────────────────────────

  /** The curve in integers, and its slope. */
  ghost function F(x: nat, y: nat): nat {
    x * x * x * y + x * (y * y * y)
  }

  ghost function FSlope(x: nat, y: nat): nat {
    x * x * x + 3 * x * (y * y)
  }

  /** The scaled gap to the level fits 256 bits, so that the last pass did compute a step. */
  predicate GapFits(x0: nat, k: nat, y: nat) {
    var k0 := StableF(x0, y);
    var gap := if k0 < k then k - k0 else k0 - k;
    gap * ONE < TWO_256
  }

  // The proofs below hide the unit and the width, so that what is multiplied has no known size;
  // these are the facts about them that are needed.
  lemma Unit()
    ensures ONE >= 1000
  {
  }

  lemma HalfWord()
    ensures TWO_128 * TWO_128 == TWO_256 && TWO_128 > 0
  {
  }

  /** Flooring loses, it never gains. */
  lemma MulOneBelow(a: nat, b: nat)
    ensures OrZero(MulOne(Some(a), b)) * ONE <= a * b
  {
    hide Quotient, ONE, TWO_256, Product;
    ProductIs(a, b);
    Unit();
    DivBracket(a * b, ONE);
  }

  lemma MulOneOfNone(b: nat)
    ensures MulOne(None, b) == None
  {
  }

  lemma CubeBelow(v: nat)
    ensures Cube(v) * ONE * ONE <= v * v * v
  {
    hide ONE, TWO_256, MulOne;
    var sq := MulOne(Some(v), v);
    if sq.Some? {
      MulOneBelow(v, v);
      MulOneBelow(sq.value, v);
      ScaleChain(Cube(v), sq.value, v * v, v, ONE);
    } else {
      MulOneOfNone(v);
    }
  }

  /** `a·e <= m·b` and `m·e <= n` give `a·e² <= n·b`. */
  lemma ScaleChain(a: nat, m: nat, n: nat, b: nat, e: nat)
    requires a * e <= m * b && m * e <= n
    ensures a * e * e <= n * b
  {
    MulLe(a * e, m * b, e);
    MulLe(m * e, n, b);
    MulAssoc(m, b, e);
    MulAssoc(m, e, b);
  }

  lemma ScaleChain3(a: nat, m: nat, n: nat, b: nat, e: nat)
    requires a * e <= m * b && m * e * e <= n
    ensures a * e * e * e <= n * b
  {
    ScaleChain(a * e, m * e, n, b, e) by {
      MulLe(a * e, m * b, e);
      MulAssoc(m, b, e);
      MulAssoc(m, e, b);
    }
  }

  lemma StableFBelow(x0: nat, y: nat)
    ensures StableF(x0, y) * ONE * ONE * ONE <= F(x0, y)
  {
    hide ONE, TWO_256, Cube, MulOne;
    var a := OrZero(MulOne(Some(Cube(x0)), y));
    var b := OrZero(MulOne(Some(x0), Cube(y)));
    MulOneBelow(Cube(x0), y);
    MulOneBelow(x0, Cube(y));
    CubeBelow(x0);
    CubeBelow(y);
    ScaleChain3(a, Cube(x0), x0 * x0 * x0, y, ONE);
    ScaleChain3(b, Cube(y), y * y * y, x0, ONE);
    SumScaled(StableF(x0, y), a, b, x0 * x0 * x0 * y, x0 * (y * y * y), ONE);
  }

  lemma SumScaled(s: nat, a: nat, b: nat, p: nat, q: nat, e: nat)
    requires s <= a + b && a * e * e * e <= p && b * e * e * e <= q
    ensures s * e * e * e <= p + q
  {
    MulLe(s, a + b, e);
    Distribute(a, b, e);
    MulLe(s * e, a * e + b * e, e);
    Distribute(a * e, b * e, e);
    MulLe(s * e * e, a * e * e + b * e * e, e);
    Distribute(a * e * e, b * e * e, e);
  }

  lemma StableDBelow(x0: nat, y: nat)
    ensures StableD(x0, y) * ONE * ONE <= FSlope(x0, y)
  {
    hide ONE, TWO_256, Cube, MulOne;
    var y2 := OrZero(MulOne(Some(y), y));
    var b := OrZero(if 3 * x0 < TWO_256 then MulOne(Some(3 * x0), y2) else None);
    MulOneBelow(y, y);
    MulOneBelow(3 * x0, y2);
    CubeBelow(x0);
    ScaleChain(b, y2, y * y, 3 * x0, ONE);
    SumScaled2(StableD(x0, y), Cube(x0), b, x0 * x0 * x0, 3 * x0 * (y * y), ONE);
  }

  lemma SumScaled2(s: nat, a: nat, b: nat, p: nat, q: nat, e: nat)
    requires s <= a + b && a * e * e <= p && b * e * e <= q
    ensures s * e * e <= p + q
  {
    MulLe(s, a + b, e);
    Distribute(a, b, e);
    MulLe(s * e, a * e + b * e, e);
    Distribute(a * e, b * e, e);
  }

  /** Two steps up the curve gain at least twice the slope. */
  lemma TwoStepsUp(x: nat, y: nat)
    ensures F(x, y + 2) >= F(x, y) + 2 * FSlope(x, y)
  {
    CubeOfSum(y);
    MulLe(y * y * y + 6 * (y * y), (y + 2) * (y + 2) * (y + 2), x);
    Distribute(y * y * y, 6 * (y * y), x);
    Distribute(y, 2, x * x * x);
    MulAssoc(x, 6, y * y);
    MulAssoc(3, x, y * y);
  }

  lemma CubeOfSum(y: nat)
    ensures (y + 2) * (y + 2) * (y + 2) >= y * y * y + 6 * (y * y)
  {
  }

  /** When the loop stopped on its own with a usable slope and a gap that fits, the balance it
      left behind is at most two units of 1e-18 short of the level it was given. */
  lemma SettledSolveHonoursCurve(x0: nat, k: nat, y: nat)
    requires NewtonStep(x0, k, y) == Stop && StableD(x0, y) > 0 && GapFits(x0, k, y)
    ensures F(x0, y + 2) >= k * ONE * ONE * ONE
  {
    hide ONE, TWO_256, StableF, StableD, Quotient, F, FSlope;
    var k0 := StableF(x0, y);
    var d := StableD(x0, y);
    StableFBelow(x0, y);
    StableDBelow(x0, y);
    TwoStepsUp(x0, y);
    if k0 < k {
      DivBracket((k - k0) * ONE, d);
      MulLe(Quotient((k - k0) * ONE, d) + 1, 2, d);
      SettledStep(k0, k, d, F(x0, y), FSlope(x0, y), ONE);
    } else {
      SumScaled(k, k0, 0, F(x0, y), 0, ONE);
    }
  }

  lemma SettledStep(k0: nat, k: nat, d: nat, f: nat, slope: nat, e: nat)
    requires k0 < k && (k - k0) * e < 2 * d
    requires k0 * e * e * e <= f && d * e * e <= slope
    ensures k * e * e * e <= f + 2 * slope
  {
    var g := k - k0;
    MulLe(g * e, 2 * d, e);
    MulAssoc(2, d, e);
    MulLe(g * e * e, 2 * (d * e), e);
    MulAssoc(2, d * e, e);
    SumScaled(k, k0, g, f, 2 * slope, e);
  }

  lemma FMonotone(x: nat, a: nat, b: nat)
    requires a <= b
    ensures F(x, a) <= F(x, b)
  {
    MulLe(a, b, x * x * x);
    MulLe(a, b, a);
    MulLe(a, b, b);
    MulLe(a * a, b * b, a);
    MulLe(a, b, b * b);
    MulLe(a * a * a, b * b * b, x);
  }

  /** The last product of the level. */
  function LevelTop(x: nat, y: nat): nat {
    Quotient(x * y, ONE) * (Quotient(x * x, ONE) + Quotient(y * y, ONE))
  }

  /** No product in the level overflows: neither of the squares, which keeps x · y below them
      too, nor the last one. */
  predicate LevelFits(x: nat, y: nat) {
    x < TWO_128 && y < TWO_128 && LevelTop(x, y) < TWO_256
  }

  /** What the level of a pool can fall short of its curve by, in the curve's own units. */
  ghost function LevelLoss(x: nat, y: nat): nat {
    (x + y) * (x + y) * ONE + ONE * ONE * ONE
  }

  /** The level is never above the pool's curve. */
  lemma LevelBelowCurve(x: nat, y: nat)
    ensures StableK(x, y) * ONE * ONE * ONE <= F(x, y)
  {
    hide ONE, TWO_256, F, MulOne, Saturate;
    var x2, y2, xy := OrZero(MulOne(Some(x), x)), OrZero(MulOne(Some(y), y)), OrZero(MulOne(Some(x), y));
    var q := Saturate(x2 + y2);
    MulOneBelow(x, x);
    MulOneBelow(y, y);
    MulOneBelow(x, y);
    MulOneBelow(xy, q);
    SaturateBelow(x2 + y2);
    MulLe(q, x2 + y2, ONE);
    Distribute(x2, y2, ONE);
    LevelProduct(StableK(x, y), xy, q, x, y, ONE);
  }

  lemma LevelProduct(k: nat, p: nat, q: nat, x: nat, y: nat, e: nat)
    requires k * e <= p * q && p * e <= x * y && q * e <= x * x + y * y
    ensures k * e * e * e <= F(x, y)
  {
    hide F;
    MulLe(k * e, p * q, e);
    MulLe(k * e * e, p * q * e, e);
    MulLe(p * e, x * y, q * e);
    MulLe(q * e, x * x + y * y, x * y);
    PairUnits(p, q, e);
    CurveFactors(x, y);
  }

  lemma PairUnits(p: nat, q: nat, e: nat)
    ensures p * q * e * e == p * e * (q * e)
  {
    MulAssoc(p * e, q, e);
    MulAssoc(p, q, e);
    MulAssoc(p, e, q);
  }

  lemma CurveFactors(x: nat, y: nat)
    ensures x * y * (x * x + y * y) == F(x, y)
  {
    Distribute(x * x, y * y, x * y);
    assert x * y * (x * x) == x * x * x * y && x * y * (y * y) == x * (y * y * y);
  }

  /** And unless a product overflows, it is below by no more than the loss of its floors. */
  lemma LevelAboveCurve(x: nat, y: nat)
    requires LevelFits(x, y)
    ensures F(x, y) <= StableK(x, y) * ONE * ONE * ONE + LevelLoss(x, y)
  {
    hide StableK, LevelFits, F, ONE, Quotient;
    LevelIsProduct(x, y);
    var x2, y2, p := Quotient(x * x, ONE), Quotient(y * y, ONE), Quotient(x * y, ONE);
    RoundedDown(x * x);
    RoundedDown(y * y);
    RoundedDown(x * y);
    RoundedDown(p * (x2 + y2));
    Distribute(x2, y2, ONE);
    LevelProductAbove(StableK(x, y), p, x2 + y2, x, y, ONE);
  }

  lemma RoundedDown(n: nat)
    ensures Quotient(n, ONE) * ONE <= n <= Quotient(n, ONE) * ONE + ONE
  {
    hide Quotient;
    DivBracket(n, ONE);
  }

  lemma LevelIsProduct(x: nat, y: nat)
    requires LevelFits(x, y)
    ensures StableK(x, y) == Quotient(LevelTop(x, y), ONE)
  {
    hide Quotient, MulOne, ONE, TWO_256;
    var x2, y2, p := Quotient(x * x, ONE), Quotient(y * y, ONE), Quotient(x * y, ONE);
    SquareFits(x, x);
    SquareFits(y, y);
    SquareFits(x, y);
    MulOneFits(p, x2 + y2);
    Unsaturated(x2, y2);
  }

  lemma MulOneFits(a: nat, b: nat)
    requires a * b < TWO_256
    ensures MulOne(Some(a), b) == Some(Quotient(a * b, ONE))
  {
    hide Quotient, ONE, TWO_256, Product;
    ProductIs(a, b);
  }

  lemma SquareFits(a: nat, b: nat)
    requires a < TWO_128 && b < TWO_128
    ensures MulOne(Some(a), b) == Some(Quotient(a * b, ONE)) && Quotient(a * b, ONE) * ONE < TWO_256
  {
    hide Quotient, MulOne, ONE, TWO_128, TWO_256;
    Unit();
    HalfWord();
    DivBracket(a * b, ONE);
    MulLe(a, TWO_128 - 1, b);
    MulLe(b, TWO_128, TWO_128 - 1);
    Distribute(TWO_128 - 1, 1, TWO_128);
    MulOneFits(a, b);
  }

  lemma Unsaturated(a: nat, b: nat)
    requires a * ONE < TWO_256 && b * ONE < TWO_256
    ensures Saturate(a + b) == a + b
  {
  }

  lemma LevelProductAbove(k: nat, p: nat, q: nat, x: nat, y: nat, e: nat)
    requires p * q <= k * e + e && p * e <= x * y <= p * e + e && x * x + y * y <= q * e + 2 * e
    ensures F(x, y) <= k * e * e * e + ((x + y) * (x + y) * e + e * e * e)
  {
    var s := x * x + y * y;
    MulLe(x * y, p * e + e, s);
    Distribute(p * e, e, s);
    MulLe(s, q * e + 2 * e, p * e);
    Distribute(q * e, 2 * e, p * e);
    MulLe(p * q, k * e + e, e);
    MulLe(p * q * e, (k * e + e) * e, e);
    MulLe(p * e, x * y, e);
    LossAtoms(k, p, q, x, y, e);
    CurveFactors(x, y);
  }

  lemma LossAtoms(k: nat, p: nat, q: nat, x: nat, y: nat, e: nat)
    ensures p * e * (q * e) == p * q * e * e && p * e * (2 * e) == 2 * (p * e * e)
    ensures (k * e + e) * e * e == k * e * e * e + e * e * e
    ensures (x + y) * (x + y) * e == e * (x * x + y * y) + 2 * (x * y * e)
  {
    assert p * e * (q * e) == p * q * e * e;
    Distribute(k * e, e, e);
    Distribute(k * e * e, e * e, e);
    assert (x + y) * (x + y) == x * x + y * y + 2 * (x * y);
  }

  lemma SolveShape(amountIn: nat, reserveIn: nat, reserveOut: nat, decIn: nat, decOut: nat, feeNum: nat)
    ensures var s := SolveFor(amountIn, reserveIn, reserveOut, decIn, decOut, feeNum);
            s.x <= s.xAfter && s.k == StableK(s.x, s.y) && s.yAfter == Iterate(Newton(s.xAfter, s.k), s.y, 255)
  {
    hide StableK, Iterate, Pow10;
  }

  /** An amount in units of 1e-18: scaled by its token's missing decimals. */
  function Units(amount: nat, decimals: nat): nat {
    amount * Pow10(SaturatingSub(18, decimals))
  }

  /** What the pool is credited with: the input less the fee. */
  function NetInput(amountIn: nat, feeNum: nat): nat {
    amountIn * feeNum / 10_000
  }

  lemma UnitsAdd(a: nat, b: nat, decimals: nat)
    ensures Units(a + b, decimals) == Units(a, decimals) + Units(b, decimals)
    ensures Units(a, decimals) >= a
  {
    hide Pow10;
    Distribute(a, b, Pow10(SaturatingSub(18, decimals)));
    MulLe(1, Pow10(SaturatingSub(18, decimals)), a);
  }

  /** Where nothing saturates, the solver starts from the pool itself, in units of 1e-18: each side
      scaled by its own token's decimals, and the input after the fee. */
  lemma SolveIs(amountIn: nat, reserveIn: nat, reserveOut: nat, decIn: nat, decOut: nat, feeNum: nat)
    requires amountIn * feeNum < TWO_256
    requires Units(reserveIn + NetInput(amountIn, feeNum), decIn) < TWO_256
    requires Units(reserveOut, decOut) < TWO_256
    ensures var s := SolveFor(amountIn, reserveIn, reserveOut, decIn, decOut, feeNum);
            && s.x == Units(reserveIn, decIn)
            && s.xAfter == Units(reserveIn + NetInput(amountIn, feeNum), decIn)
            && s.y == Units(reserveOut, decOut)
  {
    hide Product, Quotient, Pow10, Units, StableK, Iterate, Saturate, Normalise, TWO_256;
    var dx := NetInput(amountIn, feeNum);
    NetInputIs(amountIn, feeNum);
    UnitsAdd(reserveIn, dx, decIn);
    NormaliseIs(reserveIn, decIn);
    NormaliseIs(dx, decIn);
    NormaliseIs(reserveOut, decOut);
    SaturateFits(Units(reserveIn, decIn) + Units(dx, decIn));
  }

  lemma NetInputIs(amountIn: nat, feeNum: nat)
    requires amountIn * feeNum < TWO_256
    ensures Quotient(Saturate(Product(amountIn, feeNum)), 10_000) == NetInput(amountIn, feeNum)
  {
    hide Product, Quotient, Saturate, TWO_256;
    ProductIs(amountIn, feeNum);
    SaturateFits(amountIn * feeNum);
    QuotientIsDivision(amountIn * feeNum, 10_000);
  }

  lemma SaturateFits(n: nat)
    requires n < TWO_256
    ensures Saturate(n) == n
  {
  }

  lemma NormaliseIs(amount: nat, decimals: nat)
    requires Units(amount, decimals) < TWO_256
    ensures Normalise(amount, decimals) == Units(amount, decimals)
  {
    hide Product, Pow10, Saturate, TWO_256;
    ProductIs(amount, Pow10(SaturatingSub(18, decimals)));
    SaturateFits(amount * Pow10(SaturatingSub(18, decimals)));
  }

  /** What a payout out of a settled solve leaves, in normalised balances. */
  lemma SettledPayout(amountIn: nat, reserveIn: nat, reserveOut: nat, decIn: nat, decOut: nat, feeNum: nat)
    requires AmountOutStable(amountIn, reserveIn, reserveOut, decIn, decOut, feeNum).Some?
    requires var s := SolveFor(amountIn, reserveIn, reserveOut, decIn, decOut, feeNum);
             && NewtonStep(s.xAfter, s.k, s.yAfter) == Stop && StableD(s.xAfter, s.yAfter) > 0
             && GapFits(s.xAfter, s.k, s.yAfter) && LevelFits(s.x, s.y)
    ensures var s := SolveFor(amountIn, reserveIn, reserveOut, decIn, decOut, feeNum);
            var paid := AmountOutStable(amountIn, reserveIn, reserveOut, decIn, decOut, feeNum).value * ScaleOf(decOut);
            paid <= s.y && F(s.xAfter, s.y - paid + 2) + LevelLoss(s.x, s.y) >= F(s.x, s.y)
  {
    hide SolveFor, StableK, Iterate, Pow10, NewtonStep, StableD, GapFits, LevelFits, LevelLoss, F;
    var s := SolveFor(amountIn, reserveIn, reserveOut, decIn, decOut, feeNum);
    SolveShape(amountIn, reserveIn, reserveOut, decIn, decOut, feeNum);
    SettledSolveHonoursCurve(s.xAfter, s.k, s.yAfter);
    LevelAboveCurve(s.x, s.y);
    PayoutHonours(s, ScaleOf(decOut));
  }

  /** A whole quote whose solver stopped by itself, in the pool's own amounts: after the input less
      the fee is paid in and the quote is paid out, the pool with two more units of 1e-18 is on or
      above the curve it was on before the swap, up to the loss of the level's floors. */
  lemma StableQuoteHonoursCurve(amountIn: nat, reserveIn: nat, reserveOut: nat, decIn: nat, decOut: nat, feeNum: nat,
                                out: nat)
    requires AmountOutStable(amountIn, reserveIn, reserveOut, decIn, decOut, feeNum) == Some(out)
    requires amountIn * feeNum < TWO_256
    requires var x := Units(reserveIn, decIn);
             var x' := Units(reserveIn + NetInput(amountIn, feeNum), decIn);
             var y := Units(reserveOut, decOut);
             var y' := Iterate(Newton(x', StableK(x, y)), y, 255);
             && x' < TWO_256 && y < TWO_256 && LevelFits(x, y)
             && NewtonStep(x', StableK(x, y), y') == Stop && StableD(x', y') > 0 && GapFits(x', StableK(x, y), y')
    ensures var x := Units(reserveIn, decIn);
            var x' := Units(reserveIn + NetInput(amountIn, feeNum), decIn);
            var y := Units(reserveOut, decOut);
            && out <= reserveOut
            && F(x', Units(reserveOut - out, decOut) + 2) + LevelLoss(x, y) >= F(x, y)
  {
    hide AmountOutStable, SolveFor, Iterate, Newton, StableK, NewtonStep, StableD, GapFits, LevelFits, LevelLoss, F,
         Pow10, Units, NetInput, TWO_256;
    SolveIs(amountIn, reserveIn, reserveOut, decIn, decOut, feeNum);
    SolveShape(amountIn, reserveIn, reserveOut, decIn, decOut, feeNum);
    SettledPayout(amountIn, reserveIn, reserveOut, decIn, decOut, feeNum);
    LeftAfter(reserveOut, out, decOut);
  }

  lemma LeftAfter(reserve: nat, out: nat, decimals: nat)
    requires out * ScaleOf(decimals) <= Units(reserve, decimals)
    ensures out <= reserve && Units(reserve - out, decimals) == Units(reserve, decimals) - out * ScaleOf(decimals)
  {
    hide Pow10;
    CancelLe(out, reserve, ScaleOf(decimals));
    Distribute(reserve - out, out, ScaleOf(decimals));
  }

  lemma PayoutHonours(s: Solve, scale: nat)
    requires scale > 0 && Payout(s, scale).Some?
    ensures var paid := Payout(s, scale).value * scale;
            paid <= s.y && F(s.xAfter, s.y - paid + 2) >= F(s.xAfter, s.yAfter + 2)
  {
    hide F, Quotient;
    DivBracket(s.y - s.yAfter, scale);
    FMonotone(s.xAfter, s.yAfter + 2, s.y - Payout(s, scale).value * scale + 2);
  }

  /** The loss is real: a pool of 9.9e13 and 2e11 (18 decimals) has level zero, and one trade of
      7.2e13 takes all but 9 239 574 of the output side, to under 1/4000 of its curve, although
      the solver stops by itself and nothing overflows. */
  lemma ZeroLevelDrains()
    ensures var s := SolveFor(72_000_000_000_000, 99_000_000_000_000, 200_000_000_000, 18, 18, 10_000);
            && s == Solve(99_000_000_000_000, 200_000_000_000, 171_000_000_000_000, 0, 9_239_574)
            && NewtonStep(s.xAfter, s.k, s.yAfter) == Stop && StableD(s.xAfter, s.yAfter) > 0
            && GapFits(s.xAfter, s.k, s.yAfter) && LevelFits(s.x, s.y)
            && 4000 * F(s.xAfter, s.yAfter + 2) < F(s.x, s.y)
    ensures AmountOutStable(72_000_000_000_000, 99_000_000_000_000, 200_000_000_000, 18, 18, 10_000)
         == Some(200_000_000_000 - 9_239_574)
  {
    hide Cube, NewtonStep, SolveFor, StableD, StableF, StableK, F, LevelFits, Quotient;
    DrainSolve();
    DrainEnd();
    DrainCurve();
    DrainFits();
    assert ScaleOf(18) == 1;
    QuotientIs(200_000_000_000 - 9_239_574, 1, 200_000_000_000 - 9_239_574);
  }

  lemma DrainFits()
    ensures LevelFits(99_000_000_000_000, 200_000_000_000)
  {
    hide Quotient;
    QuotientIs(99_000_000_000_000 * 99_000_000_000_000, ONE, 9_801_000_000);
    QuotientIs(200_000_000_000 * 200_000_000_000, ONE, 40_000);
    QuotientIs(99_000_000_000_000 * 200_000_000_000, ONE, 19_800_000);
  }

  lemma DrainCurve()
    ensures 4000 * F(171_000_000_000_000, 9_239_576) < F(99_000_000_000_000, 200_000_000_000)
  {
  }

  lemma WholeTokens(amount: nat)
    requires amount < TWO_256
    ensures Normalise(amount, 18) == amount
  {
    hide Product;
    ProductIs(amount, 1);
  }

  lemma DrainSolve()
    ensures SolveFor(72_000_000_000_000, 99_000_000_000_000, 200_000_000_000, 18, 18, 10_000)
         == Solve(99_000_000_000_000, 200_000_000_000, 171_000_000_000_000, 0, 9_239_574)
  {
    hide StableK, Iterate, NewtonStep, Quotient, Product, Normalise;
    DrainRun();
    DrainLevel();
    ProductIs(72_000_000_000_000, 10_000);
    QuotientIs(72_000_000_000_000 * 10_000, 10_000, 72_000_000_000_000);
    WholeTokens(99_000_000_000_000);
    WholeTokens(200_000_000_000);
    WholeTokens(72_000_000_000_000);
  }

  /** The floor that a value of the code's arithmetic is. */
  lemma MulOneIs(a: nat, b: nat, q: nat)
    requires q * ONE <= a * b < q * ONE + ONE && a * b < TWO_256
    ensures MulOne(Some(a), b) == Some(q)
  {
    hide Quotient, Product;
    ProductIs(a, b);
    DivUnique(a * b, ONE, q);
  }

  lemma CubeIs(v: nat, sq: nat, c: nat)
    requires sq * ONE <= v * v < sq * ONE + ONE && v * v < TWO_256
    requires c * ONE <= sq * v < c * ONE + ONE && sq * v < TWO_256
    ensures Cube(v) == c
  {
    hide MulOne;
    MulOneIs(v, v, sq);
    MulOneIs(sq, v, c);
  }

  /** Level and slope out of the values of their products. */
  lemma ValuesAre(x0: nat, y: nat, cx: nat, cy: nat, a: nat, b: nat, y2: nat, t: nat)
    requires Cube(x0) == cx && Cube(y) == cy
    requires MulOne(Some(cx), y) == Some(a) && MulOne(Some(x0), cy) == Some(b)
    requires MulOne(Some(y), y) == Some(y2) && 3 * x0 < TWO_256 && MulOne(Some(3 * x0), y2) == Some(t)
    requires a + b < TWO_256 && cx + t < TWO_256
    ensures StableF(x0, y) == a + b && StableD(x0, y) == cx + t
  {
    hide Cube, MulOne, TWO_256;
  }

  lemma PassIs(x0: nat, k: nat, y: nat, k0: nat, d: nat, dy: nat)
    requires StableF(x0, y) == k0 && StableD(x0, y) == d && d > 0 && dy > 1
    requires var gap := if k0 < k then k - k0 else k0 - k; gap * ONE < TWO_256 && Quotient(gap * ONE, d) == dy
    ensures NewtonStep(x0, k, y) == if k0 < k then Move(Saturate(y + dy)) else Move(SaturatingSub(y, dy))
  {
    hide StableF, StableD, Quotient, ONE, TWO_256;
  }

  lemma DrainLevel()
    ensures StableK(99_000_000_000_000, 200_000_000_000) == 0
  {
    hide MulOne;
    MulOneIs(99_000_000_000_000, 99_000_000_000_000, 9_801_000_000);
    MulOneIs(200_000_000_000, 200_000_000_000, 40_000);
    MulOneIs(99_000_000_000_000, 200_000_000_000, 19_800_000);
    MulOneIs(19_800_000, 9_801_040_000, 0);
  }

  lemma DrainRun()
    ensures Iterate(Newton(171_000_000_000_000, 0), 200_000_000_000, 255) == 9_239_574
  {
    hide NewtonStep;
    DrainStart();
    DrainEnd();
    var pass := Newton(171_000_000_000_000, 0);
    MoveThenStop(pass, 200_000_000_000, 9_239_574, 253);
  }

  lemma MoveThenStop(pass: nat -> Step, y: nat, z: nat, n: nat)
    requires pass(y) == Move(z) && pass(z) == Stop
    ensures Iterate(pass, y, n + 2) == z
  {
    assert Iterate(pass, z, n + 1) == z;
  }

  lemma DrainStart()
    ensures NewtonStep(171_000_000_000_000, 0, 200_000_000_000) == Move(9_239_574)
  {
    hide Cube, MulOne, NewtonStep, StableF, StableD, Quotient;
    DrainCube();
    CubeIs(200_000_000_000, 40_000, 0);
    MulOneIs(200_000_000_000, 200_000_000_000, 40_000);
    MulOneIs(5_000_211, 200_000_000_000, 1);
    MulOneIs(171_000_000_000_000, 0, 0);
    MulOneIs(3 * 171_000_000_000_000, 40_000, 20);
    ValuesAre(171_000_000_000_000, 200_000_000_000, 5_000_211, 0, 1, 0, 40_000, 20);
    QuotientIs(1 * ONE, 5_000_231, 199_990_760_426);
    PassIs(171_000_000_000_000, 0, 200_000_000_000, 1, 5_000_231, 199_990_760_426);
  }

  lemma DrainCube()
    ensures Cube(171_000_000_000_000) == 5_000_211
  {
    CubeIs(171_000_000_000_000, 29_241_000_000, 5_000_211);
  }

  lemma DrainEnd()
    ensures NewtonStep(171_000_000_000_000, 0, 9_239_574) == Stop && StableD(171_000_000_000_000, 9_239_574) > 0
    ensures StableF(171_000_000_000_000, 9_239_574) == 0
  {
    hide Cube, MulOne, NewtonStep, StableF, StableD, Quotient;
    DrainCube();
    CubeIs(9_239_574, 0, 0);
    MulOneIs(9_239_574, 9_239_574, 0);
    MulOneIs(5_000_211, 9_239_574, 0);
    MulOneIs(171_000_000_000_000, 0, 0);
    MulOneIs(3 * 171_000_000_000_000, 0, 0);
    ValuesAre(171_000_000_000_000, 9_239_574, 5_000_211, 0, 0, 0, 0, 0);
    EmptyGapStops(171_000_000_000_000, 9_239_574);
  }

  lemma EmptyGapStops(x0: nat, y: nat)
    requires StableF(x0, y) == 0 && StableD(x0, y) > 0
    ensures NewtonStep(x0, 0, y) == Stop
  {
    hide StableF, StableD, Quotient;
    DivBracket(0, StableD(x0, y));
    CancelLt(Quotient(0, StableD(x0, y)), 1, StableD(x0, y));
  }

  // ── The integer loop need not settle ────────────────────────────────────────────

  lemma {:induction false} TwoCycle(pass: nat -> Step, p: nat, q: nat, n: nat)
    requires pass(p) == Move(q) && pass(q) == Move(p)
    ensures Iterate(pass, p, 2 * n) == p
  {
    if n > 0 {
      assert Iterate(pass, p, 2 * n) == Iterate(pass, q, 2 * n - 1) == Iterate(pass, p, 2 * (n - 1));
      TwoCycle(pass, p, q, n - 1);
    }
  }

  lemma CycleLevel()
    ensures StableK(2_600_000_000_000_000, 290_000_000_000_000) == 5_160_451
  {
    hide MulOne;
    MulOneIs(2_600_000_000_000_000, 2_600_000_000_000_000, 6_760_000_000_000);
    MulOneIs(290_000_000_000_000, 290_000_000_000_000, 84_100_000_000);
    MulOneIs(2_600_000_000_000_000, 290_000_000_000_000, 754_000_000_000);
    MulOneIs(754_000_000_000, 6_844_100_000_000, 5_160_451);
  }

  lemma CycleCube()
    ensures Cube(2_600_300_000_000_000) == 17_582_084_702
  {
    CubeIs(2_600_300_000_000_000, 6_761_560_090_000, 17_582_084_702);
  }

  lemma CycleStart()
    ensures NewtonStep(2_600_300_000_000_000, 5_160_451, 290_000_000_000_000) == Move(289_902_895_801_769)
  {
    hide Cube, MulOne, NewtonStep, StableF, StableD, Quotient;
    CycleCube();
    CubeIs(290_000_000_000_000, 84_100_000_000, 24_389_000);
    MulOneIs(290_000_000_000_000, 290_000_000_000_000, 84_100_000_000);
    MulOneIs(17_582_084_702, 290_000_000_000_000, 5_098_804);
    MulOneIs(2_600_300_000_000_000, 24_389_000, 63_418);
    MulOneIs(3 * 2_600_300_000_000_000, 84_100_000_000, 656_055_690);
    ValuesAre(2_600_300_000_000_000, 290_000_000_000_000, 17_582_084_702, 24_389_000,
              5_098_804, 63_418, 84_100_000_000, 656_055_690);
    QuotientIs(1_771 * ONE, 18_238_140_392, 97_104_198_231);
    PassIs(2_600_300_000_000_000, 5_160_451, 290_000_000_000_000, 5_162_222, 18_238_140_392, 97_104_198_231);
  }

  lemma CycleDown()
    ensures NewtonStep(2_600_300_000_000_000, 5_160_451, 289_902_895_801_769) == Move(289_902_840_970_297)
  {
    hide Cube, MulOne, NewtonStep, StableF, StableD, Quotient;
    CycleCube();
    CubeIs(289_902_895_801_769, 84_043_688_994, 24_364_508);
    MulOneIs(289_902_895_801_769, 289_902_895_801_769, 84_043_688_994);
    MulOneIs(17_582_084_702, 289_902_895_801_769, 5_097_097);
    MulOneIs(2_600_300_000_000_000, 24_364_508, 63_355);
    MulOneIs(3 * 2_600_300_000_000_000, 84_043_688_994, 655_616_413);
    ValuesAre(2_600_300_000_000_000, 289_902_895_801_769, 17_582_084_702, 24_364_508,
              5_097_097, 63_355, 84_043_688_994, 655_616_413);
    QuotientIs(1 * ONE, 18_237_701_115, 54_831_472);
    PassIs(2_600_300_000_000_000, 5_160_451, 289_902_895_801_769, 5_160_452, 18_237_701_115, 54_831_472);
  }

  lemma CycleUp()
    ensures NewtonStep(2_600_300_000_000_000, 5_160_451, 289_902_840_970_297) == Move(289_902_895_801_769)
  {
    hide Cube, MulOne, NewtonStep, StableF, StableD, Quotient;
    CycleCube();
    CubeIs(289_902_840_970_297, 84_043_657_202, 24_364_494);
    MulOneIs(289_902_840_970_297, 289_902_840_970_297, 84_043_657_202);
    MulOneIs(17_582_084_702, 289_902_840_970_297, 5_097_096);
    MulOneIs(2_600_300_000_000_000, 24_364_494, 63_354);
    MulOneIs(3 * 2_600_300_000_000_000, 84_043_657_202, 655_616_165);
    ValuesAre(2_600_300_000_000_000, 289_902_840_970_297, 17_582_084_702, 24_364_494,
              5_097_096, 63_354, 84_043_657_202, 655_616_165);
    QuotientIs(1 * ONE, 18_237_700_867, 54_831_472);
    PassIs(2_600_300_000_000_000, 5_160_451, 289_902_840_970_297, 5_160_450, 18_237_700_867, 54_831_472);
  }

  lemma CycleSolve()
    ensures SolveFor(300_000_000_000, 2_600_000_000_000_000, 290_000_000_000_000, 18, 18, 10_000)
         == Solve(2_600_000_000_000_000, 290_000_000_000_000, 2_600_300_000_000_000, 5_160_451,
                  Iterate(Newton(2_600_300_000_000_000, 5_160_451), 290_000_000_000_000, 255))
  {
    hide StableK, Iterate, NewtonStep, Quotient, Product, Normalise;
    CycleLevel();
    ProductIs(300_000_000_000, 10_000);
    QuotientIs(300_000_000_000 * 10_000, 10_000, 300_000_000_000);
    WholeTokens(2_600_000_000_000_000);
    WholeTokens(290_000_000_000_000);
    WholeTokens(300_000_000_000);
  }

  /** For small pools the floored slope makes Newton jump back and forth over the root until
      the 255 passes run out: reserves 2.6e15 / 2.9e14 (18 decimals), input 3e11, no fee. */
  lemma SolverCanCycle()
    ensures var s := SolveFor(300_000_000_000, 2_600_000_000_000_000, 290_000_000_000_000, 18, 18, 10_000);
            s.yAfter == 289_902_895_801_769 && NewtonStep(s.xAfter, s.k, s.yAfter) != Stop
  {
    hide NewtonStep, SolveFor;
    CycleSolve();
    CycleStart();
    CycleDown();
    CycleUp();
    var pass := Newton(2_600_300_000_000_000, 5_160_451);
    TwoCycle(pass, 289_902_895_801_769, 289_902_840_970_297, 127);
    assert Iterate(pass, 290_000_000_000_000, 255) == Iterate(pass, 289_902_895_801_769, 254);
  }
}
