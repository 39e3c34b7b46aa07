/** Virtual reserves, and inverted Uniswap V4 pools seen through the cache
    (engine/src/pool_cache.rs, engine/src/listener.rs). */
module V4Mirror {
  import opened Arithmetic
  import opened Feed
  import opened Pools
  import opened Words

  // ── Virtual reserves ────────────────────────────────────────────────────────────

  /** The virtual reserves bracket L²: floored, their product is at most L², and one unit more
      on each side exceeds it. */
  lemma VirtualReservesBracketLiquidity(liquidity: nat, sqrtPrice: nat)
    requires 0 < sqrtPrice && liquidity < TWO_128 && liquidity * sqrtPrice < TWO_256
    ensures var vr0, vr1 := Vr0(liquidity, sqrtPrice), Vr1(liquidity, sqrtPrice);
            vr0 * vr1 <= liquidity * liquidity < (vr0 + 1) * (vr1 + 1)
  {
    if liquidity > 0 {
      DivBracket(liquidity * TWO_96, sqrtPrice);
      DivBracket(liquidity * sqrtPrice, TWO_96);
      hide Quotient;
      BracketProduct(Vr0(liquidity, sqrtPrice), Vr1(liquidity, sqrtPrice), liquidity, sqrtPrice, TWO_96);
    }
  }

  lemma BracketProduct(a: nat, b: nat, l: nat, s: nat, q: nat)
    requires 0 < s && 0 < q
    requires a * s <= l * q < (a + 1) * s
    requires b * q <= l * s < (b + 1) * q
    ensures a * b <= l * l < (a + 1) * (b + 1)
  {
    MulPositive(s, q);
    MulBoth(a * s, l * q, b * q, l * s);
    Regroup(a, s, b, q);
    Regroup(l, q, l, s);
    CancelLe(a * b, l * l, s * q);
    MulBoth(l * q + 1, (a + 1) * s, l * s + 1, (b + 1) * q);
    Regroup(a + 1, s, b + 1, q);
    MulLe(0, l * q, 1);
    Expand(l * q, l * s);
    CancelLt(l * l, (a + 1) * (b + 1), s * q);
  }

  lemma MulBoth(a: nat, b: nat, c: nat, d: nat)
    requires a <= b && c <= d
    ensures a * c <= b * d
  {
    MulLe(a, b, c);
    MulLe(c, d, b);
  }

  lemma Regroup(a: int, s: int, b: int, q: int)
    ensures (a * s) * (b * q) == (a * b) * (s * q) == (a * b) * (q * s)
  {
  }

  lemma Expand(a: nat, b: nat)
    ensures (a + 1) * (b + 1) > a * b
  {
  }

  // ── Which pools are inverted ────────────────────────────────────────────────────

  /** The token under which the cache knows a currency: WETH for native ETH. */
  function Cached(currency: Address): Address {
    if currency == 0 then WETH else currency
  }

  /** A pool is inverted exactly when its two currencies sort the other way round in the cache. */
  lemma InvertedExactly(key: V4Key)
    requires key.currency0 < key.currency1
    ensures key.Inverted() <==> Cached(key.currency1) < Cached(key.currency0)
  {
  }

  // ── The inverted price ──────────────────────────────────────────────────────────

  /** The stored inverse brackets 2^192 / s. */
  lemma InversePriceBracket(key: V4Key, sqrtPrice: nat, tick: int)
    requires key.Inverted() && sqrtPrice > 0
    ensures var r := key.ToCachePrice(sqrtPrice, tick).0;
            r * sqrtPrice <= TWO_192 < (r + 1) * sqrtPrice
  {
    DivBracket(TWO_192, sqrtPrice);
  }

  /** Inverting twice gives the price back exactly for every pool price up to 1 (Q64.96), and
      the tick back always. */
  lemma InvertingTwice(key: V4Key, sqrtPrice: nat, tick: int)
    requires key.Inverted() && 0 < sqrtPrice <= TWO_96
    ensures var (r, t) := key.ToCachePrice(sqrtPrice, tick);
            key.ToCachePrice(r, t) == (sqrtPrice, tick)
  {
    var r := Quotient(TWO_192, sqrtPrice);
    DivBracket(TWO_192, sqrtPrice);
    hide Quotient;
    MulBoth(sqrtPrice, TWO_96, sqrtPrice, TWO_96);
    if r + 1 <= sqrtPrice {
      MulLe(r + 1, sqrtPrice, sqrtPrice);
    }
    assert r >= sqrtPrice;
    Distribute(sqrtPrice, 1, r);
    Distribute(r, 1, sqrtPrice);
    DivUnique(TWO_192, r, sqrtPrice);
  }

  /** Mirroring exchanges the two virtual reserves up to the floor: the mirrored pool's
      token0 side is never smaller than the original's token1 side, and its token1 side never
      larger than the original's token0 side. */
  lemma MirroredReserves(key: V4Key, liquidity: nat, sqrtPrice: nat, tick: int)
    requires key.Inverted() && 0 < sqrtPrice && liquidity < TWO_128
    requires key.ToCachePrice(sqrtPrice, tick).0 > 0
    requires liquidity * sqrtPrice < TWO_256
    requires liquidity * key.ToCachePrice(sqrtPrice, tick).0 < TWO_256
    ensures var r := key.ToCachePrice(sqrtPrice, tick).0;
            Vr0(liquidity, r) >= Vr1(liquidity, sqrtPrice)
            && Vr1(liquidity, r) <= Vr0(liquidity, sqrtPrice)
  {
    hide Quotient, TWO_96, TWO_128, TWO_192, TWO_256;
    if liquidity > 0 {
      var r := Quotient(TWO_192, sqrtPrice);
      PriceScale(liquidity);
      DivBracket(TWO_192, sqrtPrice);
      FloorCrossing(liquidity, sqrtPrice, r, TWO_96);
      FloorCrossing(liquidity, r, sqrtPrice, TWO_96);
    }
  }

  lemma PriceScale(liquidity: nat)
    ensures TWO_192 == TWO_96 * TWO_96 && TWO_96 > 0
    ensures liquidity < TWO_128 ==> liquidity * TWO_96 < TWO_256
  {
  }

  /** `⌊l·s/q⌋ <= ⌊l·q/r⌋` whenever `r·s <= q²`. */
  lemma FloorCrossing(l: nat, s: nat, r: nat, q: nat)
    requires 0 < q && 0 < r && r * s <= q * q
    ensures Quotient(l * s, q) <= Quotient(l * q, r)
  {
    var t := Quotient(l * s, q);
    DivBracket(l * s, q);
    DivBracket(l * q, r);
    hide Quotient;
    MulLe(t * q, l * s, r);
    MulLe(r * s, q * q, l);
    MulAssoc(t, q, r);
    MulAssoc(l, s, r);
    MulAssoc(q, t, r);
    MulAssoc(l, q, q);
    CancelLe(t * r, l * q, q);
    CancelLt(t, Quotient(l * q, r) + 1, r);
  }

  // ── Whole runs ──────────────────────────────────────────────────────────────────

  /** One of the pool's events, on the pool itself and in its own orientation. */
  function PoolStep(p: Spot, e: Event): Spot {
    match e
    case V4Swap(s, l, t) => Spot(s, l, t)
    case V4Modify(lower, upper, delta) =>
      if InRange(lower, upper, p.tick) && p.liquidity + delta >= 0 then p.(liquidity := p.liquidity + delta) else p
    case _ => p
  }

  /** What the pool contract itself enforces: an initialised price, and liquidity that stays a
      uint128 without ever going negative. */
  ghost predicate Possible(p: Spot, e: Event) {
    match e
    case V4Swap(s, l, t) => 0 < s && l < TWO_128
    case V4Modify(lower, upper, delta) => InRange(lower, upper, p.tick) ==> 0 <= p.liquidity + delta < TWO_128
    case _ => false
  }

  function PoolRun(p: Spot, logs: seq<Log>): Spot
    decreases |logs|
  {
    if logs == [] then p else PoolStep(PoolRun(p, logs[..|logs| - 1]), logs[|logs| - 1].event)
  }

  ghost predicate PossibleRun(p: Spot, logs: seq<Log>)
    decreases |logs|
  {
    logs == [] ||
    (PossibleRun(p, logs[..|logs| - 1]) && Possible(PoolRun(p, logs[..|logs| - 1]), logs[|logs| - 1].event))
  }

  /** The cached entry is the image of the pool. */
  ghost predicate Mirrors(p: Spot, v: View) {
    && p.sqrtPrice > 0 && v.key.Some? && v.spot.Some?
    && v.spot.value.liquidity == p.liquidity < TWO_128
    && (v.spot.value.sqrtPrice, v.spot.value.tick) == v.key.value.ToCachePrice(p.sqrtPrice, p.tick)
  }

  /** Range membership survives mirroring, for every tick and range. */
  lemma MirroredRange(key: V4Key, sqrtPrice: nat, tick: int, lower: int, upper: int)
    requires sqrtPrice > 0
    ensures var (lo, hi) := key.ToCacheRange(lower, upper);
            InRange(lo, hi, key.ToCachePrice(sqrtPrice, tick).1) <==> InRange(lower, upper, tick)
  {
  }

  /** Only an uninitialised price breaks it: the tick is mirrored exactly when the price is
      non-zero. */
  lemma TickMirroredIff(key: V4Key, sqrtPrice: nat, tick: int)
    requires key.Inverted()
    ensures key.ToCachePrice(sqrtPrice, tick).1 == -tick - 1 <==> sqrtPrice > 0
  {
  }

  lemma StepKeepsMirror(p: Spot, v: View, e: Event)
    requires Mirrors(p, v) && Possible(p, e)
    ensures Mirrors(PoolStep(p, e), Effect(v, e, false, true))
  {
    match e
    case V4Swap(_, _, _) =>
    case V4Modify(lower, upper, delta) =>
      MirroredRange(v.key.value, p.sqrtPrice, p.tick, lower, upper);
      hide V4Key.ToCachePrice;
  }

  lemma {:induction false} FoldKeepsMirror(p: Spot, v: View, canon: seq<Log>)
    requires Mirrors(p, v) && PossibleRun(p, canon)
    ensures Mirrors(PoolRun(p, canon), Fold(v, canon)) && Fold(v, canon).key == v.key
  {
    if canon != [] {
      var n := |canon| - 1;
      FoldKeepsMirror(p, v, canon[..n]);
      StepKeepsMirror(PoolRun(p, canon[..n]), Fold(v, canon[..n]), canon[n].event);
      EffectIgnoresPosition(Fold(v, canon[..n]), v.pos, canon[n].event, false, true);
    }
  }

  /** Refinement over whole runs: simulating an inverted pool in its own orientation, and
      delivering its mirrored logs to the cache through any feeds, agree on liquidity at every
      step; the cached tick is `-t - 1` and the cached price the floored inverse. */
  lemma InvertedPoolRefines(p: Spot, v: View, canon: seq<Log>, sched: seq<nat>)
    requires Mirrors(p, v) && v.key.value.Inverted() && PossibleRun(p, canon)
    requires Canonical(canon) && InOrder(sched) && Frontier(sched) == |canon|
    requires canon != [] ==> Before(v.pos, canon[0].pos.value)
    ensures forall j :: 0 <= j < |sched| ==> sched[j] < |canon|
    ensures var spot := DeliverAll(v, Deliveries(canon, sched)).spot;
            spot.Some?
            && spot.value.liquidity == PoolRun(p, canon).liquidity
            && spot.value.tick == -PoolRun(p, canon).tick - 1
            && spot.value.sqrtPrice == Quotient(TWO_192, PoolRun(p, canon).sqrtPrice)
  {
    FeedsConverge(v, canon, sched);
    assert canon[..|canon|] == canon;
    FoldKeepsMirror(p, v, canon);
  }
}
