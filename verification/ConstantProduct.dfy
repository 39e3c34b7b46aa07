/** The xy = k quote shared by V2, Aerodrome-volatile and concentrated-liquidity pools, in
    exact floor arithmetic (engine/src/pool_cache.rs).

    `a` is the input, `x` / `y` the input-side / output-side reserve, and `f / d` the part of
    the input left after the fee. */
module ConstantProduct {
  import opened Arithmetic
  import opened Words

  const FEE_DENOM_V2: nat := 10_000
  const FEE_DENOM_V3: nat := 1_000_000

  /** Floored output; zero when the denominator is zero. */
  function Output(a: nat, x: nat, y: nat, f: nat, d: nat): nat {
    Quotient(a * f * y, x * d + a * f)
  }

  /** Paying `q` out of `y` leaves the fee-adjusted pool on or above its curve. */
  ghost predicate Affordable(a: nat, x: nat, y: nat, f: nat, d: nat, q: nat) {
    q <= y && (x * d + a * f) * (y - q) >= x * d * y
  }

  // ── Arithmetic steps ────────────────────────────────────────────────────────────

  /** The defining bracket of the floor, with the reserve pulled out. */
  lemma OutputBracket(a: nat, x: nat, y: nat, f: nat, d: nat)
    requires x * d + a * f > 0
    ensures var den := x * d + a * f; var o := Output(a, x, y, f, d);
            o <= y && x * d * y <= den * (y - o) < x * d * y + den
  {
    var den := x * d + a * f;
    var num := a * f * y;
    var o := Quotient(num, den);
    DivBracket(num, den);
    hide Quotient;
    assert num == a * f * y;
    assert den * y == x * d * y + num by {
      assert den * y == (x * d) * y + (a * f) * y;
    }
    assert o * den <= y * den;
    CancelLe(o, y, den);
    assert den * (y - o) == den * y - o * den;
  }

  // ── What one quote means ────────────────────────────────────────────────────────

  /** A quote is exactly the largest payout the fee-adjusted curve can afford. */
  lemma OutputIsLargestAffordable(a: nat, x: nat, y: nat, f: nat, d: nat, q: nat)
    requires x * d + a * f > 0
    ensures Affordable(a, x, y, f, d, q) <==> q <= Output(a, x, y, f, d)
  {
    var den := x * d + a * f;
    var o := Output(a, x, y, f, d);
    OutputBracket(a, x, y, f, d);
    if q <= o {
      MulLe(y - o, y - q, den);
    } else if q <= y {
      MulLe(y - q, y - o - 1, den);
      assert den * (y - o - 1) == den * (y - o) - den;
    }
  }

  /** Never more than the reserve, and less than it exactly when the pool has an output
      reserve and either an input reserve or nothing is paid in. */
  lemma OutputBelowReserve(a: nat, x: nat, y: nat, f: nat, d: nat)
    requires d > 0
    ensures Output(a, x, y, f, d) <= y
    ensures Output(a, x, y, f, d) < y <==> y > 0 && (x > 0 || a * f == 0)
  {
    var den := x * d + a * f;
    if den > 0 {
      OutputBracket(a, x, y, f, d);
      var o := Output(a, x, y, f, d);
      if o == y {
        assert den * (y - o) == 0;
        if x > 0 && y > 0 {
          MulLe(1, x, d);
          assert x * d > 0;
          MulLe(1, y, x * d);
          assert false;
        }
      } else if x == 0 {
        assert x * d == 0;
        assert den * (y - o) < den;
        MulLe(1, y - o, den);
        assert false;
      }
    } else {
      assert x == 0 by {
        if x > 0 { MulLe(1, x, d); }
      }
    }
  }

  /** A swap never lowers the product of the real reserves. */
  lemma ProductNeverFalls(a: nat, x: nat, y: nat, f: nat, d: nat)
    requires 0 < d && f <= d
    ensures Output(a, x, y, f, d) <= y
    ensures (x + a) * (y - Output(a, x, y, f, d)) >= x * y
  {
    OutputBelowReserve(a, x, y, f, d);
    var o := Output(a, x, y, f, d);
    if x == 0 {
      assert x * y == 0;
    } else {
      MulPositive(x, d);
      OutputBracket(a, x, y, f, d);
      hide Output;
      ProductStep(a, x, y, y - o, f, d);
    }
  }

  lemma ProductStep(a: nat, x: nat, y: nat, left: nat, f: nat, d: nat)
    requires 0 < d && f <= d
    requires x * d * y <= (x * d + a * f) * left
    ensures x * y <= (x + a) * left
  {
    MulLe(f, d, a);
    Distribute(x, a, d);
    MulLe(x * d + a * f, (x + a) * d, left);
    Shuffle(x, d, y);
    Shuffle(x + a, d, left);
    CancelLe(x * y, (x + a) * left, d);
  }

  /** A larger input never returns less. */
  lemma OutputMonotone(a: nat, b: nat, x: nat, y: nat, f: nat, d: nat)
    requires a <= b
    ensures Output(a, x, y, f, d) <= Output(b, x, y, f, d)
  {
    MulLe(a, b, f);
    if x * d + a * f > 0 {
      var o := Output(a, x, y, f, d);
      OutputBracket(a, x, y, f, d);
      MulLe(x * d + a * f, x * d + b * f, y - o);
      OutputIsLargestAffordable(b, x, y, f, d, o);
    }
  }

  /** Splitting never pays: `a` and then `b` on the moved reserves return at most what
      `a + b` returns at once, floors included. */
  lemma SplittingNeverPays(a: nat, b: nat, x: nat, y: nat, f: nat, d: nat)
    requires 0 < d && f <= d
    ensures Output(a, x, y, f, d) <= y
    ensures var first := Output(a, x, y, f, d);
            first + Output(b, x + a, y - first, f, d) <= Output(a + b, x, y, f, d)
  {
    OutputBelowReserve(a, x, y, f, d);
    if x * d + a * f == 0 {
      assert x == 0 by {
        if x > 0 { MulLe(1, x, d); }
      }
      OutputAgainstEmptySide(a, b, y, f, d);
    } else {
      SplitLive(a, b, x, y, f, d);
    }
  }

  lemma SplitLive(a: nat, b: nat, x: nat, y: nat, f: nat, d: nat)
    requires 0 < d && f <= d && x * d + a * f > 0
    ensures Output(a, x, y, f, d) <= y
    ensures var first := Output(a, x, y, f, d);
            first + Output(b, x + a, y - first, f, d) <= Output(a + b, x, y, f, d)
  {
    hide Output;
    var o1 := Output(a, x, y, f, d);
    OutputBracket(a, x, y, f, d);
    var y1 := y - o1;
    MulLe(f, d, a);
    assert (x + a) * d == x * d + a * d;
    OutputBracket(b, x + a, y1, f, d);
    var o2 := Output(b, x + a, y1, f, d);
    assert (a + b) * f == a * f + b * f;
    SplitStep(x * d, a * f, (x + a) * d, b * f, y, y1, y1 - o2);
    OutputIsLargestAffordable(a + b, x, y, f, d, o1 + o2);
  }

  /** With no input reserve, everything comes out as soon as anything goes in. */
  lemma OutputAgainstEmptySide(a: nat, b: nat, y: nat, f: nat, d: nat)
    requires a * f == 0
    ensures Output(b, a, y, f, d) <= Output(a + b, 0, y, f, d)
  {
    assert (a + b) * f == b * f by { assert (a + b) * f == a * f + b * f; }
    if b * f > 0 {
      OutputBracket(a + b, 0, y, f, d);
      assert ((a + b) * f) * (y - Output(a + b, 0, y, f, d)) < (a + b) * f;
      if y - Output(a + b, 0, y, f, d) >= 1 {
        MulLe(1, y - Output(a + b, 0, y, f, d), (a + b) * f);
      }
      OutputBracket(b, a, y, f, d);
    } else if a * d + b * f > 0 {
      assert b * f * y == 0;
    }
  }

  /** The heart of splitting: with `s` the scaled input reserve, `p` / `q` the two fee-adjusted
      inputs and `t >= s + p` the scaled reserve after the first swap. */
  lemma SplitStep(s: nat, p: nat, t: nat, q: nat, y: nat, y1: nat, y2: nat)
    requires s + p > 0 && t >= s + p
    requires (s + p) * y1 >= s * y
    requires (t + q) * y2 >= t * y1
    ensures (s + p + q) * y2 >= s * y
  {
    var u := s + p;
    CrossRatio(u, t, q);
    SplitChain(u, s * y, t, q, y1, y2);
    CancelLe(s * y, (u + q) * y2, t + q);
  }

  /** `t / (t + q)` grows with `t`. */
  lemma CrossRatio(u: nat, t: nat, q: nat)
    requires u <= t
    ensures u * (t + q) <= t * (u + q)
  {
    Distribute(t, q, u);
    Distribute(u, q, t);
    MulLe(u, t, q);
  }

  lemma SplitChain(u: nat, k: nat, t: nat, q: nat, y1: nat, y2: nat)
    requires u * (t + q) <= t * (u + q)
    requires k <= u * y1 && t * y1 <= (t + q) * y2
    ensures k * (t + q) <= ((u + q) * y2) * (t + q)
  {
    MulLe(k, u * y1, t + q);
    Shuffle(u, y1, t + q);
    MulLe(u * (t + q), t * (u + q), y1);
    Shuffle(t, u + q, y1);
    MulLe(t * y1, (t + q) * y2, u + q);
    Shuffle(t + q, y2, u + q);
    Shuffle(u + q, y2, t + q);
  }

  lemma Shuffle(a: int, b: int, c: int)
    ensures (a * b) * c == (a * c) * b == (c * b) * a
  {
    MulAssoc(a, b, c);
    MulAssoc(a, c, b);
    MulAssoc(c, b, a);
  }

  /** Swapping the proceeds straight back on the moved reserves never recovers more than was
      put in. */
  lemma RoundTripNeverPays(a: nat, x: nat, y: nat, f: nat, d: nat)
    requires 0 < d && f <= d && x > 0
    ensures Output(a, x, y, f, d) <= y
    ensures var o := Output(a, x, y, f, d);
            Output(o, y - o, x + a, f, d) <= a
  {
    var o := Output(a, x, y, f, d);
    ProductNeverFalls(a, x, y, f, d);
    OutputBelowReserve(a, x, y, f, d);
    if y > 0 {
      OutputBack(a, x, y, o, f, d);
    } else {
      OutputBelowReserve(o, y - o, x + a, f, d);
    }
  }

  lemma OutputBack(a: nat, x: nat, y: nat, o: nat, f: nat, d: nat)
    requires 0 < d && f <= d && x > 0 && o < y
    requires (x + a) * (y - o) >= x * y
    ensures Output(o, y - o, x + a, f, d) <= a
  {
    var p := x + a;
    var den := (y - o) * d + o * f;
    MulLe(1, y - o, d);
    RoundTripStep(x, p, y, o, f, d);
    assert den * (p - (a + 1)) < (y - o) * d * p by { assert p - (a + 1) == x - 1; }
    OutputIsLargestAffordable(o, y - o, p, f, d, a + 1);
  }

  /** Paying one more than was put in would leave less than the pool started with. */
  lemma RoundTripStep(x: nat, p: nat, y: nat, o: nat, f: nat, d: nat)
    requires 0 < d && f <= d && x > 0 && 0 < y && o <= y
    requires p * (y - o) >= x * y
    ensures ((y - o) * d + o * f) * (x - 1) < (y - o) * d * p
  {
    var den := (y - o) * d + o * f;
    MulLe(f, d, o);
    assert (y - o) * d + o * d == y * d;
    calc {
      den * (x - 1);
    <= { MulLe(den, y * d, x - 1); }
      (y * d) * (x - 1);
    ==
      (x * y) * d - y * d;
    <  { MulLe(1, y, d); }
      (x * y) * d;
    <= { MulLe(x * y, p * (y - o), d); }
      (p * (y - o)) * d;
    ==
      (y - o) * d * p;
    }
  }

  /** Without moving the reserves, out and back on one cached pool never returns more than was
      put in. */
  lemma CachedRoundTripNeverPays(a: nat, x: nat, y: nat, f: nat, d: nat)
    requires 0 < d && f <= d && x > 0 && y > 0
    ensures Output(Output(a, x, y, f, d), y, x, f, d) <= a
  {
    var o := Output(a, x, y, f, d);
    var back := Output(o, y, x, f, d);
    MarginalBound(a, x, y, f, d);
    MarginalBound(o, y, x, f, d);
    hide Output;
    CachedStep(a, x, y, f, d, o, back);
  }

  lemma CachedStep(a: nat, x: nat, y: nat, f: nat, d: nat, o: nat, back: nat)
    requires 0 < d && f <= d && x > 0 && y > 0
    requires o * (x * d) <= a * f * y && back * (y * d) <= o * f * x
    ensures back <= a
  {
    MulLe(f, d, x);
    MulLe(f, d, y);
    MulLe(1, x, d);
    MulLe(1, y, d);
    assert o * f * x == o * (x * f) && a * f * y == a * (y * f);
    CrossCancel(back, o, a, x * d, y * d, x * f, y * f);
  }

  lemma CrossCancel(b: nat, o: nat, a: nat, p: nat, q: nat, p': nat, q': nat)
    requires p' <= p && q' <= q && p > 0 && q > 0
    requires b * q <= o * p' && o * p <= a * q'
    ensures b <= a
  {
    MulLe(p', p, o);
    MulLe(q', q, a);
    assert b * q <= o * p <= a * q;
    CancelLe(b, a, q);
  }

  /** The quote never beats the marginal price: `out·x·d <= a·f·y`. */
  lemma MarginalBound(a: nat, x: nat, y: nat, f: nat, d: nat)
    ensures Output(a, x, y, f, d) * (x * d) <= a * f * y
  {
    var den := x * d + a * f;
    if den > 0 {
      DivBracket(a * f * y, den);
      MulLe(x * d, den, Output(a, x, y, f, d));
    }
  }

  // ── The engine's 256-bit form ───────────────────────────────────────────────────

  /** `amount_out_v2` as it runs: every product and sum wraps at 256 bits. */
  function AmountOutV2(amountIn: nat, reserveIn: nat, reserveOut: nat, feeNum: nat): nat {
    var aiFee := Wrap(amountIn * feeNum);
    var num := Wrap(aiFee * reserveOut);
    var den := Wrap(Wrap(reserveIn * FEE_DENOM_V2) + aiFee);
    Quotient(num, den)
  }

  /** What the caller can check to rule every wrap out. */
  predicate FitsV2(amountIn: nat, reserveIn: nat, reserveOut: nat, feeNum: nat) {
    && amountIn * feeNum < TWO_256
    && amountIn * feeNum * reserveOut < TWO_256
    && reserveIn * FEE_DENOM_V2 + amountIn * feeNum < TWO_256
  }

  lemma AmountOutV2Exact(amountIn: nat, reserveIn: nat, reserveOut: nat, feeNum: nat)
    requires FitsV2(amountIn, reserveIn, reserveOut, feeNum)
    ensures AmountOutV2(amountIn, reserveIn, reserveOut, feeNum)
         == Output(amountIn, reserveIn, reserveOut, feeNum, FEE_DENOM_V2)
  {
    hide Quotient, Wrap, TWO_256;
    WrapSmall(amountIn * feeNum);
    WrapSmall(amountIn * feeNum * reserveOut);
    WrapSmall(reserveIn * FEE_DENOM_V2);
    WrapSmall(reserveIn * FEE_DENOM_V2 + amountIn * feeNum);
  }

  lemma WrapSmall(n: nat)
    requires n < TWO_256
    ensures Wrap(n) == n
  {
  }

  /** With a denominator that fits, the quote is exact if and only if the numerator fits too. */
  lemma AmountOutV2ExactIff(amountIn: nat, reserveIn: nat, reserveOut: nat, feeNum: nat)
    requires reserveIn * FEE_DENOM_V2 + amountIn * feeNum < TWO_256
    ensures AmountOutV2(amountIn, reserveIn, reserveOut, feeNum)
         == Output(amountIn, reserveIn, reserveOut, feeNum, FEE_DENOM_V2)
         <==> amountIn * feeNum * reserveOut < TWO_256
  {
    hide Quotient, Wrap, TWO_256;
    WrapSmall(amountIn * feeNum);
    WrapSmall(reserveIn * FEE_DENOM_V2);
    var num, den := amountIn * feeNum * reserveOut, reserveIn * FEE_DENOM_V2 + amountIn * feeNum;
    WrapSmall(den);
    assert den == 0 ==> num == 0;
    if num < TWO_256 {
      WrapSmall(num);
    } else {
      WrapLoses(num);
      WrapCosts(num, Wrap(num), den);
    }
  }

  lemma WrapLoses(n: nat)
    requires n >= TWO_256
    ensures Wrap(n) + TWO_256 <= n
  {
  }

  /** A numerator that lost more than the denominator has a smaller quotient. */
  lemma WrapCosts(num: nat, low: nat, den: nat)
    requires 0 < den && low + den <= num
    ensures Quotient(low, den) < Quotient(num, den)
  {
    DivBracket(low, den);
    DivBracket(num, den);
    hide Quotient;
    Distribute(Quotient(low, den), 1, den);
    CancelLt(Quotient(low, den) + 1, Quotient(num, den) + 1, den);
  }

  /** Pair reserves are uint112 and trade sizes stay below 2^128: nothing wraps. */
  lemma PairSizedInputsFit(amountIn: nat, reserveIn: nat, reserveOut: nat, feeNum: nat)
    requires amountIn < TWO_128 && reserveIn < TWO_112 && reserveOut < TWO_112
    requires feeNum <= FEE_DENOM_V2
    ensures FitsV2(amountIn, reserveIn, reserveOut, feeNum)
  {
    MulLe(feeNum, FEE_DENOM_V2, amountIn);
    MulLe(amountIn * feeNum, TWO_128 * FEE_DENOM_V2, reserveOut);
    MulLe(reserveOut, TWO_112, TWO_128 * FEE_DENOM_V2);
  }

  /** A Solidly Sync carries full 256-bit words, and with reserves of 2^192 a side the wrap is
      real: one whole token in, at 30 bps, is quoted at less than a thousandth of its output. */
  lemma WideReservesWrap()
    ensures AmountOutV2(1_000_000_000_000_000_000, TWO_192, TWO_192, 9_970) == 875_820_019_684_212
    ensures Output(1_000_000_000_000_000_000, TWO_192, TWO_192, 9_970, FEE_DENOM_V2) == 996_999_999_999_999_999
  {
    hide Quotient;
    var fee, low := 9_970_000_000_000_000_000_000,
                    0x798b_60ad_1488_0000_0000_0000_0000_0000_0000_0000_0000_0000_0000_0000_0000_0000;
    assert Wrap(fee) == fee && Wrap(fee * TWO_192) == low;
    QuotientIs(low, TWO_192 * FEE_DENOM_V2 + fee, 875_820_019_684_212);
    QuotientIs(fee * TWO_192, TWO_192 * FEE_DENOM_V2 + fee, 996_999_999_999_999_999);
  }
}
