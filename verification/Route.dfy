/** Local quotes of single legs and of whole routes (engine/src/pool_cache.rs). */
module Route {
  import opened Arithmetic
  import opened Words
  import opened ConstantProduct
  import opened Pools
  import opened StableCurve
  import opened StableSolver

  // ── Concentrated-liquidity quotes ───────────────────────────────────────────────

  /** Cap the quoted input at a fraction of the input-side virtual reserve; no cap when either
      the reserve or the cap itself is zero. */
  function CapSpotAmountIn(vrIn: nat, amountIn: nat, capBps: nat): nat {
    if vrIn == 0 then amountIn
    else
      var maxIn := Quotient(Saturate(vrIn * capBps), 10_000);
      if maxIn == 0 then amountIn else Min(amountIn, maxIn)
  }

  datatype SpotQuote = SpotQuote(out: nat, effectiveIn: nat)

  function QuoteSpot(vrIn: nat, vrOut: nat, feeNum: nat, amountIn: nat, capBps: nat): Option<SpotQuote> {
    if vrIn == 0 || vrOut == 0 then None
    else
      var effective := CapSpotAmountIn(vrIn, amountIn, capBps);
      match Checked(effective * feeNum)
      case None => None
      case Some(aiFee) =>
        match Checked(aiFee * vrOut)
        case None => None
        case Some(num) =>
          if vrIn * FEE_DENOM_V3 >= TWO_256 || vrIn * FEE_DENOM_V3 + aiFee >= TWO_256 then None
          else Some(SpotQuote(Quotient(num, vrIn * FEE_DENOM_V3 + aiFee), effective))
  }

  function QuoteMarginal(vrIn: nat, vrOut: nat, feeNum: nat, amountIn: nat): Option<nat> {
    if vrIn == 0 || vrOut == 0 then None
    else if amountIn * feeNum >= TWO_256 || amountIn * feeNum * vrOut >= TWO_256 then None
    else if vrIn * FEE_DENOM_V3 >= TWO_256 then None
    else Some(Quotient(amountIn * feeNum * vrOut, vrIn * FEE_DENOM_V3))
  }

  /** Where the cap allows any input at all, the capped input is the largest one within both
      the asked-for input and the fraction; otherwise there is no cap. */
  lemma CapIsTight(vrIn: nat, amountIn: nat, capBps: nat, q: nat)
    requires vrIn * capBps < TWO_256
    ensures var capped := CapSpotAmountIn(vrIn, amountIn, capBps);
            if vrIn * capBps < 10_000 then capped == amountIn
            else q <= capped <==> q <= amountIn && q * 10_000 <= vrIn * capBps
  {
    hide Quotient, TWO_256;
    if vrIn == 0 {
      assert vrIn * capBps == 0;
    } else {
      SaturateFits(vrIn * capBps);
      DivBracket(vrIn * capBps, 10_000);
    }
  }

  /** The capped spot quote is the exact constant-product output of a no larger input, and
      there is one exactly when both virtual reserves are there and nothing overflows. */
  lemma SpotIsOutput(vrIn: nat, vrOut: nat, feeNum: nat, amountIn: nat, capBps: nat)
    ensures var quote, e := QuoteSpot(vrIn, vrOut, feeNum, amountIn, capBps), CapSpotAmountIn(vrIn, amountIn, capBps);
            && (quote.Some? <==> vrIn > 0 && vrOut > 0 && e * feeNum * vrOut < TWO_256 && e * feeNum < TWO_256
                                 && vrIn * FEE_DENOM_V3 + e * feeNum < TWO_256)
            && (quote.Some? ==> quote.value.effectiveIn == e <= amountIn
                                && quote.value.out == Output(e, vrIn, vrOut, feeNum, FEE_DENOM_V3))
  {
    hide Quotient, TWO_256;
  }

  /** There is a marginal quote exactly when both virtual reserves are there and nothing overflows. */
  lemma MarginalIsFloor(vrIn: nat, vrOut: nat, feeNum: nat, amountIn: nat)
    ensures var quote := QuoteMarginal(vrIn, vrOut, feeNum, amountIn);
            && (quote.Some? <==> vrIn > 0 && vrOut > 0 && amountIn * feeNum < TWO_256
                                 && amountIn * feeNum * vrOut < TWO_256 && vrIn * FEE_DENOM_V3 < TWO_256)
            && (quote.Some? ==>
                  vrIn * FEE_DENOM_V3 > 0
                  && quote.value == amountIn * feeNum * vrOut / (vrIn * FEE_DENOM_V3))
  {
    hide Quotient;
    if vrIn > 0 {
      MulPositive(vrIn, FEE_DENOM_V3);
      QuotientIsDivision(amountIn * feeNum * vrOut, vrIn * FEE_DENOM_V3);
    }
  }

  /** Despite the cap, the spot quote never beats the marginal one. */
  lemma SpotNeverBeatsMarginal(vrIn: nat, vrOut: nat, feeNum: nat, amountIn: nat, capBps: nat)
    requires QuoteSpot(vrIn, vrOut, feeNum, amountIn, capBps).Some?
    requires QuoteMarginal(vrIn, vrOut, feeNum, amountIn).Some?
    ensures QuoteSpot(vrIn, vrOut, feeNum, amountIn, capBps).value.out
         <= QuoteMarginal(vrIn, vrOut, feeNum, amountIn).value
  {
    hide Quotient, CapSpotAmountIn, TWO_256;
    var q := QuoteSpot(vrIn, vrOut, feeNum, amountIn, capBps).value;
    SpotIsOutput(vrIn, vrOut, feeNum, amountIn, capBps);
    OutputMonotone(q.effectiveIn, amountIn, vrIn, vrOut, feeNum, FEE_DENOM_V3);
    var o := Output(amountIn, vrIn, vrOut, feeNum, FEE_DENOM_V3);
    MarginalBound(amountIn, vrIn, vrOut, feeNum, FEE_DENOM_V3);
    var m := Quotient(amountIn * feeNum * vrOut, vrIn * FEE_DENOM_V3);
    DivBracket(amountIn * feeNum * vrOut, vrIn * FEE_DENOM_V3);
    if m < o {
      MulLe(m + 1, o, vrIn * FEE_DENOM_V3);
      assert false;
    }
  }

  // ── Quotes of cached pools ──────────────────────────────────────────────────────

  /** `compute_amount_out`: which side is which, and which formula. */
  function ComputeAmountOut(info: PoolInfo, tokenIn: Address, amountIn: nat): Option<nat> {
    if tokenIn != info.token0 && tokenIn != info.token1 then None
    else
      var (x, y, decIn, decOut) :=
        if tokenIn == info.token0 then (info.reserve0, info.reserve1, info.decimals0, info.decimals1)
        else (info.reserve1, info.reserve0, info.decimals1, info.decimals0);
      if x == 0 || y == 0 then None
      else if info.isStable then AmountOutStable(amountIn, x, y, decIn, decOut, info.feeNum)
      else Some(AmountOutV2(amountIn, x, y, info.feeNum))
  }

  /** Reserves after taking the pool at its quote. */
  function Swapped(info: PoolInfo, tokenIn: Address, amountIn: nat, out: nat): (int, int) {
    if tokenIn == info.token0 then (info.reserve0 + amountIn, info.reserve1 - out)
    else (info.reserve0 - out, info.reserve1 + amountIn)
  }

  /** A cached pool quotes only its own tokens, pays out of the other side and never more than
      is there; a volatile pool is never drained and its product never falls. */
  lemma PoolQuoteKeepsPoolWhole(info: PoolInfo, tokenIn: Address, amountIn: nat)
    requires ComputeAmountOut(info, tokenIn, amountIn).Some? && info.feeNum == FeeNumV2(info.feeBps)
    requires !info.isStable ==> FitsV2(amountIn, info.reserve0, info.reserve1, info.feeNum)
                                && FitsV2(amountIn, info.reserve1, info.reserve0, info.feeNum)
    ensures tokenIn == info.token0 || tokenIn == info.token1
    ensures var (r0, r1) := Swapped(info, tokenIn, amountIn, ComputeAmountOut(info, tokenIn, amountIn).value);
            && r0 >= 0 && r1 >= 0
            && (!info.isStable ==> r0 > 0 && r1 > 0 && r0 * r1 >= info.reserve0 * info.reserve1)
  {
    hide AmountOutStable, AmountOutV2, FitsV2, Output;
    var (x, y, decIn, decOut) :=
      if tokenIn == info.token0 then (info.reserve0, info.reserve1, info.decimals0, info.decimals1)
      else (info.reserve1, info.reserve0, info.decimals1, info.decimals0);
    if info.isStable {
      StableQuoteWithinReserve(amountIn, x, y, decIn, decOut, info.feeNum);
    } else {
      AmountOutV2Exact(amountIn, x, y, info.feeNum);
      ProductNeverFalls(amountIn, x, y, info.feeNum, FEE_DENOM_V2);
      OutputBelowReserve(amountIn, x, y, info.feeNum, FEE_DENOM_V2);
      ProductCommutes(info.reserve0, info.reserve1);
    }
  }

  /** In its own fields: a cached volatile pool quotes for token0 exactly when both reserves are
      there, and the quote is the largest payout out of reserve1 that its curve affords when
      10 000 - feeBps in 10 000 of the input is credited to reserve0. */
  lemma VolatileQuoteIsLargest(info: PoolInfo, amountIn: nat, q: nat)
    requires !info.isStable && info.feeBps <= 10_000 && info.feeNum == FeeNumV2(info.feeBps)
    requires FitsV2(amountIn, info.reserve0, info.reserve1, info.feeNum)
    ensures var (quote, x, y) := (ComputeAmountOut(info, info.token0, amountIn), info.reserve0, info.reserve1);
            var credit := amountIn * (10_000 - info.feeBps);
            && (quote.Some? <==> x > 0 && y > 0)
            && (quote.Some? ==>
                  (q <= quote.value <==> q <= y && (x * 10_000 + credit) * (y - q) >= x * 10_000 * y))
  {
    hide AmountOutV2, FitsV2, Output;
    var x, y := info.reserve0, info.reserve1;
    if x > 0 && y > 0 {
      AmountOutV2Exact(amountIn, x, y, info.feeNum);
      MulPositive(x, FEE_DENOM_V2);
      OutputIsLargestAffordable(amountIn, x, y, info.feeNum, FEE_DENOM_V2, q);
    }
  }

  /** And a cached stable pool of at least two whole tokens on the input side and at most ten
      billion on either stays on its curve, floors and two units aside, each side in its own
      decimals and with 10 000 - feeBps in 10 000 of the input credited. */
  lemma StableQuoteOfPool(info: PoolInfo, amountIn: nat, out: nat)
    requires info.isStable && info.feeBps <= 10_000 && info.feeNum == FeeNumV2(info.feeBps)
    requires ComputeAmountOut(info, info.token0, amountIn) == Some(out)
    requires Sized(Units(info.reserve0 + NetInput(amountIn, 10_000 - info.feeBps), info.decimals0),
                   Units(info.reserve1, info.decimals1))
    ensures var x, y := Units(info.reserve0, info.decimals0), Units(info.reserve1, info.decimals1);
            var x' := Units(info.reserve0 + NetInput(amountIn, 10_000 - info.feeBps), info.decimals0);
            && out <= info.reserve1
            && F(x', Units(info.reserve1 - out, info.decimals1) + 2) + LevelLoss(x, y) >= F(x, y)
  {
    hide AmountOutStable, Sized, Units, NetInput, F, LevelLoss;
    StableQuoteKeepsCurve(amountIn, info.reserve0, info.reserve1, info.decimals0, info.decimals1, info.feeNum, out);
  }

  /** The same pool with its two sides exchanged. */
  function Turned(info: PoolInfo): PoolInfo {
    info.(token0 := info.token1, token1 := info.token0, reserve0 := info.reserve1, reserve1 := info.reserve0,
          decimals0 := info.decimals1, decimals1 := info.decimals0)
  }

  /** A quote knows tokens and their reserves, not sides: what holds for token0 holds for token1. */
  lemma QuoteIgnoresSides(info: PoolInfo, tokenIn: Address, amountIn: nat)
    requires info.token0 != info.token1
    ensures ComputeAmountOut(Turned(info), tokenIn, amountIn) == ComputeAmountOut(info, tokenIn, amountIn)
  {
    hide AmountOutV2, AmountOutStable;
  }

  lemma ProductCommutes(a: nat, b: nat)
    ensures a * b == b * a && forall p: int, q: int :: p * q == q * p
  {
  }

  /** Out in one direction and back in the other on a cached volatile pool never returns more
      than was put in. */
  lemma PoolOutAndBack(info: PoolInfo, amountIn: nat)
    requires !info.isStable && info.token0 != info.token1 && info.feeNum == FeeNumV2(info.feeBps)
    requires FitsV2(amountIn, info.reserve0, info.reserve1, info.feeNum)
    requires ComputeAmountOut(info, info.token0, amountIn).Some?
    requires var out := ComputeAmountOut(info, info.token0, amountIn).value;
             FitsV2(out, info.reserve1, info.reserve0, info.feeNum)
    ensures var out := ComputeAmountOut(info, info.token0, amountIn).value;
            ComputeAmountOut(info, info.token1, out).Some? && ComputeAmountOut(info, info.token1, out).value <= amountIn
  {
    hide AmountOutV2, FitsV2, Output;
    var x, y := info.reserve0, info.reserve1;
    AmountOutV2Exact(amountIn, x, y, info.feeNum);
    AmountOutV2Exact(AmountOutV2(amountIn, x, y, info.feeNum), y, x, info.feeNum);
    CachedRoundTripNeverPays(amountIn, x, y, info.feeNum, FEE_DENOM_V2);
  }

  /** Virtual reserves in the direction of travel. */
  function SidesIn(s: V3State, tokenIn: Address): (nat, nat) {
    if tokenIn == s.token0 then (s.vr0, s.vr1) else (s.vr1, s.vr0)
  }

  /** `quote_v3_spot_key` on the pool its key leads to. */
  function SpotOf(s: V3State, tokenIn: Address, amountIn: nat, capBps: nat): Option<SpotQuote> {
    var (x, y) := SidesIn(s, tokenIn);
    QuoteSpot(x, y, s.feeNumV3, amountIn, capBps)
  }

  /** `quote_v3_marginal` on the same pool. */
  function MarginalOf(s: V3State, tokenIn: Address, amountIn: nat): Option<nat> {
    var (x, y) := SidesIn(s, tokenIn);
    QuoteMarginal(x, y, s.feeNumV3, amountIn)
  }

  /** The stored virtual reserves bracket what the pool's price and liquidity make them: vr0 is
      L · 2^96 / sqrtPrice, floored; vr1 is L · sqrtPrice / 2^96, floored, if and only if that
      product fits 256 bits, and otherwise stays at 2^160 - 1. The stored fee is what a swap keeps
      of a million. */
  lemma RefreshedReserves(s: V3State)
    requires s == RefreshVr(s) && s.liquidity < TWO_128
    ensures s.sqrtPrice == 0 ==> s.vr0 == 0 && s.vr1 == 0
    ensures s.sqrtPrice > 0 ==> s.vr0 * s.sqrtPrice <= s.liquidity * TWO_96 < (s.vr0 + 1) * s.sqrtPrice
    ensures s.sqrtPrice > 0 ==>
              (s.vr1 * TWO_96 <= s.liquidity * s.sqrtPrice < (s.vr1 + 1) * TWO_96
               <==> s.liquidity * s.sqrtPrice < TWO_256)
    ensures s.liquidity * s.sqrtPrice >= TWO_256 ==> s.vr1 == TWO_160 - 1
    ensures s.swapFee <= 1_000_000 ==> s.feeNumV3 + s.swapFee == 1_000_000
  {
    hide Vr0, Vr1, TWO_96, TWO_128, TWO_160, TWO_256;
    FirstReserve(s.liquidity, s.sqrtPrice);
    SecondReserve(s.liquidity, s.sqrtPrice);
  }

  lemma FirstReserve(l: nat, s: nat)
    requires l < TWO_128
    ensures s == 0 ==> Vr0(l, s) == 0
    ensures s > 0 ==> Vr0(l, s) * s <= l * TWO_96 < (Vr0(l, s) + 1) * s
  {
    hide Quotient, TWO_96, TWO_128, TWO_256;
    PriceUnit(l);
    if l > 0 && s > 0 {
      DivBracket(l * TWO_96, s);
    }
  }

  lemma FittingReserves(s: V3State)
    requires s == RefreshVr(s) && 0 < s.sqrtPrice && s.liquidity < TWO_128 && s.liquidity * s.sqrtPrice < TWO_256
    ensures s.vr0 * s.sqrtPrice <= s.liquidity * TWO_96 < (s.vr0 + 1) * s.sqrtPrice
    ensures s.vr1 * TWO_96 <= s.liquidity * s.sqrtPrice < (s.vr1 + 1) * TWO_96
    ensures s.swapFee <= 1_000_000 ==> s.feeNumV3 + s.swapFee == 1_000_000
  {
    hide RefreshVr, TWO_96, TWO_128, TWO_160, TWO_256;
    RefreshedReserves(s);
  }

  lemma SecondReserve(l: nat, s: nat)
    ensures s == 0 ==> Vr1(l, s) == 0
    ensures s > 0 ==> (Vr1(l, s) * TWO_96 <= l * s < (Vr1(l, s) + 1) * TWO_96 <==> l * s < TWO_256)
    ensures l * s >= TWO_256 ==> Vr1(l, s) == TWO_160 - 1
  {
    hide Quotient, TWO_96, TWO_160, TWO_256;
    WideUnit();
    if l > 0 && s > 0 {
      var v, n := Vr1(l, s), Saturate(l * s);
      DivBracket(n, TWO_96);
      if l * s >= TWO_256 {
        CancelLt(v, TWO_160, TWO_96);
        CancelLe(TWO_160, v + 1, TWO_96);
      }
    }
  }

  lemma WideUnit()
    ensures TWO_96 > 0 && TWO_160 * TWO_96 == TWO_256 > 0
  {
  }

  lemma PriceUnit(liquidity: nat)
    ensures TWO_96 > 0 && (liquidity < TWO_128 ==> liquidity * TWO_96 < TWO_256)
  {
  }

  /** A floored output against the price s² / q² that two floored reserves of liquidity l stand for. */
  lemma PriceBracket(a: nat, d: nat, x: nat, y: nat, l: nat, s: nat, q: nat, out: nat)
    requires x > 0 && d > 0 && l > 0 && s > 0 && q > 0
    requires x * s <= l * q < (x + 1) * s && y * q <= l * s < (y + 1) * q
    requires out * (x * d) <= a * y < (out + 1) * (x * d)
    ensures out * d * x * (q * q) <= a * (x + 1) * (s * s)
    ensures (out + 1) * d * (y + 1) * (q * q) >= a * y * (s * s)
  {
    UpperPrice(a, d, x, y, l, s, q, out);
    LowerPrice(a, d, x, y, l, s, q, out);
  }

  lemma UpperPrice(a: nat, d: nat, x: nat, y: nat, l: nat, s: nat, q: nat, out: nat)
    requires l * q <= (x + 1) * s && y * q <= l * s && out * (x * d) <= a * y
    ensures out * d * x * (q * q) <= a * (x + 1) * (s * s)
  {
    Reorder(out, d, x);
    MulLe(out * (x * d), a * y, q * q);
    MulLe(y * q, l * s, a * q);
    MulLe(l * q, (x + 1) * s, a * s);
    Cross(a, y, q, q);
    Cross(a, q, l, s);
    Cross(a, s, x + 1, s);
  }

  lemma Reorder(out: nat, d: nat, x: nat)
    ensures out * (x * d) == out * d * x
  {
  }

  lemma Cross(a: nat, b: nat, c: nat, e: nat)
    ensures c * e * (a * b) == c * b * (a * e) == a * b * (c * e) == a * c * (b * e) == a * c * (e * b)
  {
    var ab, ac := a * b, a * c;
    assert c * e * ab == ac * (e * b) by {
      MulAssoc(c, e, ab);
      MulAssoc(e, a, b);
      MulAssoc(c, a, e * b);
    }
    assert c * b * (a * e) == ac * (b * e) by {
      MulAssoc(c, b, a * e);
      MulAssoc(b, a, e);
      MulAssoc(c, a, b * e);
    }
  }

  lemma LowerPrice(a: nat, d: nat, x: nat, y: nat, l: nat, s: nat, q: nat, out: nat)
    requires l > 0 && x * s <= l * q && l * s <= (y + 1) * q && a * y <= (out + 1) * (x * d)
    ensures (out + 1) * d * (y + 1) * (q * q) >= a * y * (s * s)
  {
    var o, b := (out + 1) * d, a * y;
    Reorder(out + 1, d, x);
    LowerChain(o, b, x, y + 1, l, s, q);
  }

  lemma LowerChain(o: nat, b: nat, x: nat, y: nat, l: nat, s: nat, q: nat)
    requires l > 0 && x * s <= l * q && l * s <= y * q && b <= o * x
    ensures o * y * (q * q) >= b * (s * s)
  {
    FirstLink(o, b, x, l, s);
    SecondLink(o, x * s, l * s, l * q);
    ThirdLink(o, y, l, s, q);
    CancelLe(b * (s * s), o * y * (q * q), l);
  }

  lemma FirstLink(o: nat, b: nat, x: nat, l: nat, s: nat)
    requires b <= o * x
    ensures b * (s * s) * l <= x * s * (o * (l * s))
  {
    MulLe(b, o * x, s * (l * s));
    Cross(o, x, s, l * s);
    PullSquare(b, s, l);
  }

  lemma SecondLink(o: nat, u: nat, v: nat, w: nat)
    requires u <= w
    ensures u * (o * v) <= v * (o * w)
  {
    MulLe(u, w, o * v);
    Rotate(o, v, w);
  }

  lemma ThirdLink(o: nat, y: nat, l: nat, s: nat, q: nat)
    requires l * s <= y * q
    ensures l * s * (o * (l * q)) <= o * y * (q * q) * l
  {
    MulLe(l * s, y * q, o * (l * q));
    PullOut(o, y, q, l);
  }

  lemma Rotate(o: nat, b: nat, c: nat)
    ensures o * b * c == o * c * b
  {
    MulAssoc(o, b, c);
    MulAssoc(o, c, b);
  }

  lemma PullOut(o: nat, y: nat, q: nat, l: nat)
    ensures y * q * (o * (l * q)) == o * y * (q * q) * l
  {
    var r := o * q;
    assert o * (l * q) == r * l by {
      MulAssoc(o, q, l);
    }
    MulAssoc(y * q, r, l);
    Cross(o, q, y, q);
  }

  lemma PullSquare(b: nat, s: nat, l: nat)
    ensures b * (s * (l * s)) == b * (s * s) * l
  {
    MulAssoc(s, l, s);
    MulAssoc(b, s * s, l);
  }

  /** What is left of an amount, in millionths, after a fee in millionths. */
  function LessFee(amountIn: nat, swapFee: nat): nat
    requires swapFee <= 1_000_000
  {
    amountIn * (1_000_000 - swapFee)
  }

  /** The marginal quote is the pool's price: for token0 the input less the fee times
      sqrtPrice² / 2^192, for token1 times its inverse, up to the floors of the two virtual
      reserves and of the quote itself. */
  lemma MarginalIsPrice(s: V3State, tokenIn: Address, amountIn: nat)
    requires s == RefreshVr(s) && 0 < s.sqrtPrice && s.liquidity < TWO_128 && s.liquidity * s.sqrtPrice < TWO_256
    requires s.swapFee <= 1_000_000 && s.token0 != s.token1 && (tokenIn == s.token0 || tokenIn == s.token1)
    requires MarginalOf(s, tokenIn, amountIn).Some?
    ensures var (out, net) := (MarginalOf(s, tokenIn, amountIn).value, LessFee(amountIn, s.swapFee));
            var p := s.sqrtPrice * s.sqrtPrice;
            if tokenIn == s.token0 then
              && Product(out * 1_000_000 * s.vr0, TWO_192) <= Product(net * (s.vr0 + 1), p)
              && Product((out + 1) * 1_000_000 * (s.vr1 + 1), TWO_192) >= Product(net * s.vr1, p)
            else
              && Product(out * 1_000_000 * s.vr1, p) <= Product(net * (s.vr1 + 1), TWO_192)
              && Product((out + 1) * 1_000_000 * (s.vr0 + 1), p) >= Product(net * s.vr0, TWO_192)
  {
    hide RefreshVr, MarginalOf, LessFee, Product, Quotient, TWO_96, TWO_128, TWO_192, TWO_256;
    FittingReserves(s);
    MarginalFloor(s, tokenIn, amountIn);
    var net, out := LessFee(amountIn, s.swapFee), MarginalOf(s, tokenIn, amountIn).value;
    if tokenIn == s.token0 {
      PriceThere(net, s.vr0, s.vr1, s.liquidity, s.sqrtPrice, out);
      CountedOut(out, s.vr0, s.vr1, net, TWO_192, s.sqrtPrice * s.sqrtPrice);
    } else {
      PriceBack(net, s.vr0, s.vr1, s.liquidity, s.sqrtPrice, out);
      CountedOut(out, s.vr1, s.vr0, net, s.sqrtPrice * s.sqrtPrice, TWO_192);
    }
  }

  lemma CountedOut(out: nat, x: nat, y: nat, net: nat, u: nat, p: nat)
    requires out * 1_000_000 * x * u <= net * (x + 1) * p
    requires (out + 1) * 1_000_000 * (y + 1) * u >= net * y * p
    ensures Product(out * 1_000_000 * x, u) <= Product(net * (x + 1), p)
    ensures Product((out + 1) * 1_000_000 * (y + 1), u) >= Product(net * y, p)
  {
    hide Product;
    Counted(out * 1_000_000, x, u, net, x + 1, p);
    Counted(net, y, p, (out + 1) * 1_000_000, y + 1, u);
  }

  lemma Counted(a: nat, b: nat, u: nat, c: nat, d: nat, p: nat)
    requires a * b * u <= c * d * p
    ensures Product(a * b, u) <= Product(c * d, p)
  {
    hide Product;
    var ab, cd := a * b, c * d;
    ProductIs(ab, u);
    ProductIs(cd, p);
  }

  lemma PriceThere(net: nat, v0: nat, v1: nat, l: nat, s: nat, out: nat)
    requires v0 > 0 && s > 0 && v0 * s <= l * TWO_96 < (v0 + 1) * s && v1 * TWO_96 <= l * s < (v1 + 1) * TWO_96
    requires out * (v0 * 1_000_000) <= net * v1 < (out + 1) * (v0 * 1_000_000)
    ensures out * 1_000_000 * v0 * TWO_192 <= net * (v0 + 1) * (s * s)
    ensures (out + 1) * 1_000_000 * (v1 + 1) * TWO_192 >= net * v1 * (s * s)
  {
    hide TWO_96, TWO_192;
    PriceUnit(l);
    SquareUnit();
    LiquidityNeeded(l, s, v0);
    PriceBracket(net, 1_000_000, v0, v1, l, s, TWO_96, out);
  }

  lemma PriceBack(net: nat, v0: nat, v1: nat, l: nat, s: nat, out: nat)
    requires v0 > 0 && v1 > 0 && s > 0
    requires v0 * s <= l * TWO_96 < (v0 + 1) * s && v1 * TWO_96 <= l * s < (v1 + 1) * TWO_96
    requires out * (v1 * 1_000_000) <= net * v0 < (out + 1) * (v1 * 1_000_000)
    ensures out * 1_000_000 * v1 * (s * s) <= net * (v1 + 1) * TWO_192
    ensures (out + 1) * 1_000_000 * (v0 + 1) * (s * s) >= net * v0 * TWO_192
  {
    hide TWO_96, TWO_192;
    PriceUnit(l);
    SquareUnit();
    LiquidityNeeded(l, s, v0);
    PriceBracket(net, 1_000_000, v1, v0, l, TWO_96, s, out);
  }

  lemma MarginalFloor(s: V3State, tokenIn: Address, amountIn: nat)
    requires MarginalOf(s, tokenIn, amountIn).Some? && s.feeNumV3 + s.swapFee == 1_000_000
    ensures var (out, net) := (MarginalOf(s, tokenIn, amountIn).value, LessFee(amountIn, s.swapFee));
            var (x, y) := SidesIn(s, tokenIn);
            x > 0 && y > 0 && out * (x * 1_000_000) <= net * y < (out + 1) * (x * 1_000_000)
  {
    hide Quotient, TWO_256;
    var (x, y) := SidesIn(s, tokenIn);
    MulPositive(x, FEE_DENOM_V3);
    DivBracket(amountIn * s.feeNumV3 * y, x * FEE_DENOM_V3);
  }

  lemma SquareUnit()
    ensures TWO_192 == TWO_96 * TWO_96
  {
  }

  lemma LiquidityNeeded(l: nat, s: nat, v: nat)
    requires v > 0 && s > 0 && v * s <= l * TWO_96
    ensures l > 0
  {
    hide TWO_96;
    MulPositive(v, s);
  }

  /** The spot quote for token0 in the state's own fields: the largest payout out of vr1 that the
      virtual curve affords when the capped input, less the fee, is credited to vr0. */
  lemma SpotIsLargest(s: V3State, amountIn: nat, capBps: nat, q: nat)
    requires s == RefreshVr(s) && s.swapFee <= 1_000_000
    requires SpotOf(s, s.token0, amountIn, capBps).Some?
    ensures var quote := SpotOf(s, s.token0, amountIn, capBps).value;
            var credit := quote.effectiveIn * (1_000_000 - s.swapFee);
            && quote.effectiveIn == CapSpotAmountIn(s.vr0, amountIn, capBps)
            && (q <= quote.out <==>
                  q <= s.vr1 && (s.vr0 * 1_000_000 + credit) * (s.vr1 - q) >= s.vr0 * 1_000_000 * s.vr1)
  {
    hide Quotient, QuoteSpot, CapSpotAmountIn, Vr0, Vr1, Output, TWO_256;
    SpotIsOutput(s.vr0, s.vr1, s.feeNumV3, amountIn, capBps);
    var e := SpotOf(s, s.token0, amountIn, capBps).value.effectiveIn;
    MulPositive(s.vr0, FEE_DENOM_V3);
    OutputIsLargestAffordable(e, s.vr0, s.vr1, s.feeNumV3, FEE_DENOM_V3, q);
  }

  /** The same state with its two sides exchanged. */
  function TurnedV3(s: V3State): V3State {
    s.(token0 := s.token1, token1 := s.token0, vr0 := s.vr1, vr1 := s.vr0)
  }

  lemma SpotIgnoresSides(s: V3State, tokenIn: Address, amountIn: nat, capBps: nat)
    requires s.token0 != s.token1 && (tokenIn == s.token0 || tokenIn == s.token1)
    ensures SpotOf(TurnedV3(s), tokenIn, amountIn, capBps) == SpotOf(s, tokenIn, amountIn, capBps)
    ensures MarginalOf(TurnedV3(s), tokenIn, amountIn) == MarginalOf(s, tokenIn, amountIn)
  {
    hide QuoteSpot, QuoteMarginal;
  }

  /** A spot quote leaves something of the other side's virtual reserve, never lowers the
      product of the two, and is at most the marginal quote. */
  lemma SpotKeepsVirtualPool(s: V3State, tokenIn: Address, amountIn: nat, capBps: nat)
    requires s == RefreshVr(s) && SpotOf(s, tokenIn, amountIn, capBps).Some?
    ensures var (q, (x, y)) := (SpotOf(s, tokenIn, amountIn, capBps).value, SidesIn(s, tokenIn));
            q.out < y && (x + q.effectiveIn) * (y - q.out) >= s.vr0 * s.vr1
    ensures MarginalOf(s, tokenIn, amountIn).Some? ==>
              SpotOf(s, tokenIn, amountIn, capBps).value.out <= MarginalOf(s, tokenIn, amountIn).value
  {
    var (x, y) := SidesIn(s, tokenIn);
    SpotIsOutput(x, y, s.feeNumV3, amountIn, capBps);
    var e := SpotOf(s, tokenIn, amountIn, capBps).value.effectiveIn;
    hide QuoteSpot, QuoteMarginal, Output, Vr0, Vr1;
    ProductNeverFalls(e, x, y, s.feeNumV3, FEE_DENOM_V3);
    OutputBelowReserve(e, x, y, s.feeNumV3, FEE_DENOM_V3);
    ProductCommutes(s.vr0, s.vr1);
    if MarginalOf(s, tokenIn, amountIn).Some? {
      SpotNeverBeatsMarginal(x, y, s.feeNumV3, amountIn, capBps);
    }
  }

  // ── Routes ──────────────────────────────────────────────────────────────────────

  /** One leg as the cache sees it in the direction of travel. */
  datatype Leg =
    | Volatile(x: nat, y: nat, feeNum: nat)
    | Concentrated(x: nat, y: nat, feeNum: nat, capBps: nat)
  {
    function Denom(): nat {
      if Volatile? then FEE_DENOM_V2 else FEE_DENOM_V3
    }

    /** The same cached pool in the other direction. */
    function Back(): Leg {
      if Volatile? then Volatile(y, x, feeNum) else Concentrated(y, x, feeNum, capBps)
    }

    function Quote(amountIn: nat): Option<nat> {
      match this
      case Volatile(_, _, _) =>
        if x == 0 || y == 0 then None else Some(AmountOutV2(amountIn, x, y, feeNum))
      case Concentrated(_, _, _, _) =>
        match QuoteSpot(x, y, feeNum, amountIn, capBps)
        case None => None
        case Some(q) => Some(q.out)
    }

    /** Fee-adjusted marginal price of the leg. */
    ghost function Price(): real {
      if x == 0 then 0.0 else (feeNum * y) as real / (x * Denom()) as real
    }

    /** Only the volatile form multiplies without an overflow check. */
    predicate Fits(amountIn: nat) {
      Volatile? ==> FitsV2(amountIn, x, y, feeNum)
    }
  }

  /** A leg quotes what the cached pool behind it quotes for token0, and the leg back what it quotes
      for token1. */
  lemma LegsQuoteTheirPools(info: PoolInfo, s: V3State, amountIn: nat, capBps: nat)
    requires !info.isStable && info.token0 != info.token1 && s.token0 != s.token1
    ensures var leg := Volatile(info.reserve0, info.reserve1, info.feeNum);
            && leg.Quote(amountIn) == ComputeAmountOut(info, info.token0, amountIn)
            && leg.Back().Quote(amountIn) == ComputeAmountOut(info, info.token1, amountIn)
    ensures var leg := Concentrated(s.vr0, s.vr1, s.feeNumV3, capBps);
            var there, back := SpotOf(s, s.token0, amountIn, capBps), SpotOf(s, s.token1, amountIn, capBps);
            && leg.Quote(amountIn) == (if there.Some? then Some(there.value.out) else None)
            && leg.Back().Quote(amountIn) == (if back.Some? then Some(back.value.out) else None)
  {
    hide AmountOutV2, QuoteSpot;
  }

  function QuoteRoute(legs: seq<Leg>, amountIn: nat): Option<nat> {
    if legs == [] then Some(amountIn)
    else match legs[0].Quote(amountIn)
      case None => None
      case Some(out) => QuoteRoute(legs[1..], out)
  }

  /** No leg wraps on the amount that reaches it. */
  predicate RouteFits(legs: seq<Leg>, amountIn: nat) {
    if legs == [] then true
    else
      && legs[0].Fits(amountIn)
      && (legs[0].Quote(amountIn).Some? ==> RouteFits(legs[1..], legs[0].Quote(amountIn).value))
  }

  ghost function RoutePrice(legs: seq<Leg>): real {
    if legs == [] then 1.0 else legs[0].Price() * RoutePrice(legs[1..])
  }

  lemma DivLe(n: nat, a: nat, p: nat, q: nat)
    requires q > 0 && n * q <= a * p
    ensures n as real <= a as real * (p as real / q as real)
  {
    var r := p as real / q as real;
    assert r * q as real == p as real;
    assert (n * q) as real == n as real * q as real;
    assert (a * p) as real == a as real * p as real;
    assert n as real * q as real <= (a as real * r) * q as real;
  }

  lemma OutputBound(a: nat, x: nat, y: nat, f: nat, d: nat, out: nat)
    requires x > 0 && d > 0 && out <= Output(a, x, y, f, d)
    ensures x * d > 0
    ensures out as real <= a as real * ((f * y) as real / (x * d) as real)
  {
    MulLe(1, x, d);
    MarginalBound(a, x, y, f, d);
    MulLe(out, Output(a, x, y, f, d), x * d);
    assert a * f * y == a * (f * y);
    DivLe(out, a, f * y, x * d);
  }

  lemma LegBound(leg: Leg, amountIn: nat)
    requires leg.Fits(amountIn) && leg.Quote(amountIn).Some?
    ensures leg.Quote(amountIn).value as real <= amountIn as real * leg.Price()
  {
    hide QuoteSpot, Output, AmountOutV2, FitsV2;
    var d := leg.Denom();
    var out := leg.Quote(amountIn).value;
    if leg.Volatile? {
      AmountOutV2Exact(amountIn, leg.x, leg.y, leg.feeNum);
    } else {
      SpotBelowOutput(leg.x, leg.y, leg.feeNum, amountIn, leg.capBps);
    }
    OutputBound(amountIn, leg.x, leg.y, leg.feeNum, d, out);
  }

  lemma SpotBelowOutput(vrIn: nat, vrOut: nat, feeNum: nat, amountIn: nat, capBps: nat)
    requires QuoteSpot(vrIn, vrOut, feeNum, amountIn, capBps).Some?
    ensures vrIn > 0
    ensures QuoteSpot(vrIn, vrOut, feeNum, amountIn, capBps).value.out
         <= Output(amountIn, vrIn, vrOut, feeNum, FEE_DENOM_V3)
  {
    var q := QuoteSpot(vrIn, vrOut, feeNum, amountIn, capBps).value;
    SpotIsOutput(vrIn, vrOut, feeNum, amountIn, capBps);
    OutputMonotone(q.effectiveIn, amountIn, vrIn, vrOut, feeNum, FEE_DENOM_V3);
  }

  lemma PriceNonNegative(leg: Leg)
    ensures leg.Price() >= 0.0
  {
    if leg.x > 0 {
      MulLe(1, leg.x, leg.Denom());
    }
  }

  lemma ChainLe(out: real, mid: real, input: real, price: real, rest: real)
    requires out <= mid * rest && mid <= input * price && 0.0 <= rest
    ensures out <= input * (price * rest)
  {
    RealMulLe(mid, input * price, rest);
    RealAssoc(input, price, rest);
  }

  lemma {:induction false} RoutePriceNonNegative(legs: seq<Leg>)
    ensures RoutePrice(legs) >= 0.0
  {
    if legs != [] {
      RoutePriceNonNegative(legs[1..]);
      PriceNonNegative(legs[0]);
    }
  }

  /** Any chain of local quotes returns at most its input times the product of the legs'
      marginal prices. */
  lemma {:induction false} RouteBound(legs: seq<Leg>, amountIn: nat)
    requires RouteFits(legs, amountIn) && QuoteRoute(legs, amountIn).Some?
    ensures QuoteRoute(legs, amountIn).value as real <= amountIn as real * RoutePrice(legs)
  {
    hide Leg.Quote, Leg.Fits, Leg.Price;
    if legs != [] {
      var mid := legs[0].Quote(amountIn).value;
      LegBound(legs[0], amountIn);
      RouteBound(legs[1..], mid);
      RoutePriceNonNegative(legs[1..]);
      ChainLe(QuoteRoute(legs, amountIn).value as real, mid as real, amountIn as real,
              legs[0].Price(), RoutePrice(legs[1..]));
    }
  }

  lemma AboveOne(out: real, input: real, price: real)
    requires out <= input * price && 0.0 <= input < out
    ensures price > 1.0
  {
    if price <= 1.0 {
      RealMulLe(price, 1.0, input);
    }
  }

  /** A closed route can only be quoted at a profit when its marginal prices multiply to more
      than one. */
  lemma ProfitNeedsPriceAboveOne(legs: seq<Leg>, amountIn: nat)
    requires RouteFits(legs, amountIn) && QuoteRoute(legs, amountIn).Some?
    requires QuoteRoute(legs, amountIn).value > amountIn
    ensures RoutePrice(legs) > 1.0
  {
    hide RouteFits, QuoteRoute, RoutePrice;
    RouteBound(legs, amountIn);
    AboveOne(QuoteRoute(legs, amountIn).value as real, amountIn as real, RoutePrice(legs));
  }

  /** The same pools walked back to the start. */
  function Return(legs: seq<Leg>): seq<Leg> {
    if legs == [] then [] else Return(legs[1..]) + [legs[0].Back()]
  }

  lemma {:induction false} RoutePriceAppend(a: seq<Leg>, b: seq<Leg>)
    ensures RoutePrice(a + b) == RoutePrice(a) * RoutePrice(b)
  {
    hide Leg.Price, RoutePrice;
    if a == [] {
      assert a + b == b;
      EmptyPrice();
    } else {
      RoutePriceAppend(a[1..], b);
      assert a == [a[0]] + a[1..];
      assert a + b == [a[0]] + (a[1..] + b);
      RoutePriceCons(a[0], a[1..]);
      RoutePriceCons(a[0], a[1..] + b);
      RealAssoc(a[0].Price(), RoutePrice(a[1..]), RoutePrice(b));
    }
  }

  lemma RoutePriceCons(head: Leg, tail: seq<Leg>)
    ensures RoutePrice([head] + tail) == head.Price() * RoutePrice(tail)
  {
    hide Leg.Price;
    assert ([head] + tail)[1..] == tail;
  }

  ghost predicate FeesBounded(legs: seq<Leg>) {
    forall i :: 0 <= i < |legs| ==> legs[i].feeNum <= legs[i].Denom()
  }

  lemma BackPrice(leg: Leg)
    requires leg.feeNum <= leg.Denom()
    ensures 0.0 <= leg.Price() * leg.Back().Price() <= 1.0
  {
    if leg.x > 0 && leg.y > 0 {
      BothWays(leg.feeNum, leg.x, leg.y, leg.Denom());
    } else {
      PriceNonNegative(leg);
      PriceNonNegative(leg.Back());
      assert leg.Price() == 0.0 || leg.Back().Price() == 0.0;
    }
  }

  lemma BothWays(f: nat, x: nat, y: nat, d: nat)
    requires f <= d && x > 0 && y > 0 && d > 0
    ensures x * d > 0 && y * d > 0
    ensures 0.0 <= ((f * y) as real / (x * d) as real) * ((f * x) as real / (y * d) as real) <= 1.0
  {
    ScaledRatio(f, y, x, d);
    ScaledRatio(f, x, y, d);
    var fee := f as real / d as real;
    FeeAtMostOne(f, d);
    Reciprocal(x as real, y as real);
    Interleave(fee, y as real / x as real, x as real / y as real);
    AtMostOne(fee, fee);
  }

  lemma FeeAtMostOne(f: nat, d: nat)
    requires f <= d && d > 0
    ensures 0.0 <= f as real / d as real <= 1.0
  {
  }

  lemma Interleave(a: real, b: real, c: real)
    requires b * c == 1.0
    ensures (a * b) * (a * c) == a * a
  {
    RealAssoc(a, b, a * c);
    RealAssoc(b, a, c);
    assert (a * b) * (a * c) == a * (b * (a * c));
    assert b * (a * c) == a * (b * c);
  }

  lemma ScaledRatio(f: nat, y: nat, x: nat, d: nat)
    requires x > 0 && d > 0
    ensures x * d > 0
    ensures (f * y) as real / (x * d) as real == (f as real / d as real) * (y as real / x as real)
  {
    MulLe(1, x, d);
    var a := f as real / d as real;
    var b := y as real / x as real;
    assert a * d as real == f as real && b * x as real == y as real;
    assert (a * b) * (x * d) as real == (f * y) as real by {
      assert (x * d) as real == x as real * d as real;
      assert (f * y) as real == f as real * y as real;
      assert (a * b) * (x as real * d as real) == (a * d as real) * (b * x as real);
    }
  }

  lemma {:induction false} ReturnPrice(legs: seq<Leg>)
    requires FeesBounded(legs)
    ensures RoutePrice(legs + Return(legs)) <= 1.0
  {
    hide RoutePrice;
    if legs == [] {
      assert legs + Return(legs) == [];
      EmptyPrice();
    } else {
      var inner := legs[1..] + Return(legs[1..]);
      assert forall i :: 0 <= i < |legs[1..]| ==> legs[1..][i] == legs[i + 1];
      ReturnPrice(legs[1..]);
      assert legs + Return(legs) == [legs[0]] + (inner + [legs[0].Back()]);
      EnclosedPrice(legs[0], inner);
    }
  }

  lemma EmptyPrice()
    ensures RoutePrice([]) == 1.0
  {
  }

  lemma EnclosedPrice(head: Leg, inner: seq<Leg>)
    requires head.feeNum <= head.Denom() && RoutePrice(inner) <= 1.0
    ensures RoutePrice([head] + (inner + [head.Back()])) <= 1.0
  {
    hide RoutePrice, Leg.Price, Leg.Back;
    RoutePriceAppend([head], inner + [head.Back()]);
    RoutePriceAppend(inner, [head.Back()]);
    Singleton(head);
    Singleton(head.Back());
    BackPrice(head);
    RoutePriceNonNegative(inner);
    SandwichLe(head.Price(), RoutePrice(inner), head.Back().Price());
  }

  lemma Singleton(leg: Leg)
    ensures RoutePrice([leg]) == leg.Price()
  {
    assert [leg][1..] == [];
  }

  lemma SandwichLe(a: real, m: real, b: real)
    requires 0.0 <= m <= 1.0 && 0.0 <= a * b <= 1.0
    ensures a * (m * b) <= 1.0
  {
    AtMostOne(m, a * b);
    assert a * (m * b) == m * (a * b);
  }

  /** Walking any route out and back over the same cached pools never quotes more than was put
      in, whatever its length. */
  lemma OutAndBackNeverPays(legs: seq<Leg>, amountIn: nat)
    requires FeesBounded(legs)
    requires RouteFits(legs + Return(legs), amountIn)
    requires QuoteRoute(legs + Return(legs), amountIn).Some?
    ensures QuoteRoute(legs + Return(legs), amountIn).value <= amountIn
  {
    ReturnPrice(legs);
    if QuoteRoute(legs + Return(legs), amountIn).value > amountIn {
      ProfitNeedsPriceAboveOne(legs + Return(legs), amountIn);
    }
  }
}
