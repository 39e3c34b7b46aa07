/** Pricing tokens through cached pools, and the depth floor (engine/src/pool_cache.rs).
    Money is `real`: f64 rounding is not modelled. */
module TokenPricing {
  import opened Pools
  import opened Words

  /** One pool as the pricing pass sees it: raw amounts of both tokens. */
  datatype Side = Side(pool: Address, t0: Address, r0: real, t1: Address, r1: real)

  /** Tokens priced from outside the cache: USD per whole token and decimals. */
  type Known = map<Address, (real, nat)>
  type Prices = map<Address, real>

  function TenTo(n: nat): (r: real)
    ensures r > 0.0
  {
    if n == 0 then 1.0 else 10.0 * TenTo(n - 1)
  }

  lemma TenToAdds(a: nat, b: nat)
    ensures TenTo(0) == 1.0 && TenTo(1) == 10.0 && TenTo(a + b) == TenTo(a) * TenTo(b)
  {
    if a > 0 {
      TenToAdds(a - 1, b);
    }
  }

  /** Configured decimals first, then those of the known token. */
  function DecimalsOf(t: Address, known: Known, decimals: map<Address, nat>): Option<nat> {
    if t in decimals then Some(decimals[t])
    else if t in known then Some(known[t].1)
    else None
  }

  /** USD worth of a raw amount. */
  function Worth(raw: real, decimals: nat, price: real): real {
    raw / TenTo(decimals) * price
  }

  /** USD depth of the priced side, and the price it implies for the other token. */
  datatype Offer = Offer(depth: real, price: real)

  /** What a pool offers for the unpriced `b` against the priced `a`. */
  function OfferOf(prices: Prices, known: Known, decimals: map<Address, nat>, a: Address, ra: real, b: Address,
                   rb: real)
    : Option<Offer>
  {
    if a !in prices || b in prices then None
    else match (DecimalsOf(a, known, decimals), DecimalsOf(b, known, decimals))
      case (Some(da), Some(db)) =>
        if ra <= 0.0 || rb <= 0.0 then None
        else
          var usd := Worth(ra, da, prices[a]);
          Some(Offer(usd, usd / (rb / TenTo(db))))
      case _ => None
  }

  /** A pool prices its second token exactly when the first has a price and the second none, both
      have decimals and both amounts are there; its offer's depth is what the first amount is worth. */
  lemma OffersExactly(prices: Prices, known: Known, decimals: map<Address, nat>, s: Side)
    requires s.t0 in decimals && s.t1 in decimals
    ensures var o := Direction(s, true).Offer(prices, known, decimals);
            && Direction(s, true).Target() == s.t1
            && (o.Some? <==> s.t0 in prices && s.t1 !in prices && s.r0 > 0.0 && s.r1 > 0.0)
            && (o.Some? ==> o.value.depth == s.r0 / TenTo(decimals[s.t0]) * prices[s.t0])
    ensures Direction(s, false).Offer(prices, known, decimals)
         == Direction(Side(s.pool, s.t1, s.r1, s.t0, s.r0), true).Offer(prices, known, decimals)
  {
    hide TenTo;
  }

  /** One pool in one of its two directions. */
  datatype Direction = Direction(side: Side, forward: bool) {
    function Target(): Address {
      if forward then side.t1 else side.t0
    }

    function Offer(prices: Prices, known: Known, decimals: map<Address, nat>): Option<Offer> {
      if forward then OfferOf(prices, known, decimals, side.t0, side.r0, side.t1, side.r1)
      else OfferOf(prices, known, decimals, side.t1, side.r1, side.t0, side.r0)
    }
  }

  /** Both directions of every pool. */
  ghost function BothWays(sides: set<Side>): set<Direction> {
    (set s | s in sides :: Direction(s, true)) + (set s | s in sides :: Direction(s, false))
  }

  /** `o` is offered for `b` by one of `directions`. */
  ghost predicate Offered(directions: set<Direction>, prices: Prices, known: Known, decimals: map<Address, nat>,
                          b: Address, o: Offer) {
    exists r :: r in directions && r.Target() == b && r.Offer(prices, known, decimals) == Some(o)
  }

  /** Each offered token with its deepest offer. */
  ghost predicate Deepest(directions: set<Direction>, prices: Prices, known: Known, decimals: map<Address, nat>,
                          best: map<Address, Offer>) {
    && (forall b :: b in best ==> Offered(directions, prices, known, decimals, b, best[b]))
    && (forall b, o :: Offered(directions, prices, known, decimals, b, o) ==> b in best && o.depth <= best[b].depth)
  }

  function Extend(prices: Prices, best: map<Address, Offer>): Prices {
    prices + map b | b in best :: best[b].price
  }

  /** One pricing pass, as a relation on the set of pools: no iteration order in it. */
  ghost predicate Pass(sides: set<Side>, prices: Prices, known: Known, decimals: map<Address, nat>, next: Prices) {
    exists best :: Deepest(BothWays(sides), prices, known, decimals, best) && next == Extend(prices, best)
  }

  function Start(known: Known): Prices {
    map t | t in known :: known[t].0
  }

  /** Two passes from the known prices. */
  ghost predicate Priced(sides: set<Side>, known: Known, decimals: map<Address, nat>, prices: Prices) {
    exists first ::
      Pass(sides, Start(known), known, decimals, first) && Pass(sides, first, known, decimals, prices)
  }

  ghost function SetOf(sides: seq<Side>): set<Side> {
    set s | s in sides
  }

  // ── The loops ───────────────────────────────────────────────────────────────────

  function Better(best: map<Address, Offer>, b: Address, o: Option<Offer>): map<Address, Offer> {
    if o.Some? && (b !in best || o.value.depth > best[b].depth) then best[b := o.value] else best
  }

  lemma BetterStep(done: set<Direction>, r: Direction, prices: Prices, known: Known, decimals: map<Address, nat>,
                   best: map<Address, Offer>)
    requires Deepest(done, prices, known, decimals, best)
    ensures Deepest(done + {r}, prices, known, decimals,
              Better(best, r.Target(), r.Offer(prices, known, decimals)))
  {
    hide Direction.Offer;
    var next := Better(best, r.Target(), r.Offer(prices, known, decimals));
    forall b | b in next
      ensures Offered(done + {r}, prices, known, decimals, b, next[b])
    {
      if b in best && next[b] == best[b] {
        assert Offered(done, prices, known, decimals, b, best[b]);
      }
    }
    forall b, o | Offered(done + {r}, prices, known, decimals, b, o)
      ensures b in next && o.depth <= next[b].depth
    {
      var r' :| r' in done + {r} && r'.Target() == b && r'.Offer(prices, known, decimals) == Some(o);
      if r' in done {
        assert Offered(done, prices, known, decimals, b, o);
      }
    }
  }

  /** The deepest offers of one pass, by a walk over the pools in whatever order they come. */
  method BestOffers(sides: seq<Side>, prices: Prices, known: Known, decimals: map<Address, nat>)
    returns (best: map<Address, Offer>)
    ensures Deepest(BothWays(SetOf(sides)), prices, known, decimals, best)
  {
    best := map[];
    for i := 0 to |sides|
      invariant Deepest(BothWays(SetOf(sides[..i])), prices, known, decimals, best)
    {
      hide Deepest, Direction.Offer, Direction.Target;
      var done := BothWays(SetOf(sides[..i]));
      var r, r' := Direction(sides[i], true), Direction(sides[i], false);
      BetterStep(done, r, prices, known, decimals, best);
      best := Better(best, r.Target(), r.Offer(prices, known, decimals));
      BetterStep(done + {r}, r', prices, known, decimals, best);
      best := Better(best, r'.Target(), r'.Offer(prices, known, decimals));
      assert SetOf(sides[..i + 1]) == SetOf(sides[..i]) + {sides[i]};
      assert BothWays(SetOf(sides[..i + 1])) == done + {r} + {r'};
    }
    assert sides[..|sides|] == sides;
  }

  lemma PassByOffers(sides: set<Side>, prices: Prices, known: Known, decimals: map<Address, nat>,
                     best: map<Address, Offer>)
    requires Deepest(BothWays(sides), prices, known, decimals, best)
    ensures Pass(sides, prices, known, decimals, Extend(prices, best))
    ensures best == map[] ==> Extend(prices, best) == prices
  {
    hide Deepest;
  }

  /** `price_tokens`. */
  method PriceTokens(sides: seq<Side>, known: Known, decimals: map<Address, nat>) returns (prices: Prices)
    ensures Priced(SetOf(sides), known, decimals, prices)
  {
    hide Pass, Extend, Deepest, SetOf, BothWays;
    ghost var all := SetOf(sides);
    prices := Start(known);
    ghost var first := prices;
    var pass := 0;
    while pass < 2
      invariant 0 <= pass <= 2
      invariant pass == 0 ==> prices == Start(known)
      invariant pass == 1 ==> prices == first
      invariant pass > 0 ==> Pass(all, Start(known), known, decimals, first)
      invariant pass == 2 ==> Pass(all, first, known, decimals, prices)
    {
      var best := BestOffers(sides, prices, known, decimals);
      PassByOffers(all, prices, known, decimals, best);
      if best == map[] {
        assert Pass(all, prices, known, decimals, prices);
        break;
      }
      prices := Extend(prices, best);
      if pass == 0 { first := prices; }
      pass := pass + 1;
    }
  }

  // ── What the prices mean ────────────────────────────────────────────────────────

  /** Pools of equal priced-side depth for a token agree on its price (distinct depths do). */
  ghost predicate NoTies(sides: set<Side>, prices: Prices, known: Known, decimals: map<Address, nat>) {
    forall b, o, o' ::
      && Offered(BothWays(sides), prices, known, decimals, b, o)
      && Offered(BothWays(sides), prices, known, decimals, b, o') ==>
        (o.depth == o'.depth ==> o.price == o'.price)
  }

  lemma DeepestUnique(sides: set<Side>, prices: Prices, known: Known, decimals: map<Address, nat>,
                      p: map<Address, Offer>, q: map<Address, Offer>, b: Address)
    requires NoTies(sides, prices, known, decimals)
    requires Deepest(BothWays(sides), prices, known, decimals, p)
    requires Deepest(BothWays(sides), prices, known, decimals, q)
    requires b in p
    ensures b in q && p[b].price == q[b].price
  {
    hide Offered, BothWays;
    assert Offered(BothWays(sides), prices, known, decimals, b, p[b]);
    assert Offered(BothWays(sides), prices, known, decimals, b, q[b]);
  }

  lemma PassUnique(sides: set<Side>, prices: Prices, known: Known, decimals: map<Address, nat>, p: Prices, q: Prices)
    requires NoTies(sides, prices, known, decimals)
    requires Pass(sides, prices, known, decimals, p) && Pass(sides, prices, known, decimals, q)
    ensures p == q
  {
    hide Deepest, NoTies, BothWays, Extend;
    var bp: map<Address, Offer> :| Deepest(BothWays(sides), prices, known, decimals, bp) && p == Extend(prices, bp);
    var bq: map<Address, Offer> :| Deepest(BothWays(sides), prices, known, decimals, bq) && q == Extend(prices, bq);
    forall b | b in bp
      ensures b in bq && bp[b].price == bq[b].price
    {
      DeepestUnique(sides, prices, known, decimals, bp, bq, b);
    }
    forall b | b in bq
      ensures b in bp
    {
      DeepestUnique(sides, prices, known, decimals, bq, bp, b);
    }
    ExtendSame(prices, bp, bq);
  }

  lemma ExtendSame(prices: Prices, p: map<Address, Offer>, q: map<Address, Offer>)
    requires forall b :: b in p ==> b in q && p[b].price == q[b].price
    requires forall b :: b in q ==> b in p
    ensures Extend(prices, p) == Extend(prices, q)
  {
    assert p.Keys == q.Keys;
  }

  /** Token prices are a function of the set of pools: no iteration order matters. */
  lemma PricesIgnoreOrder(sides: set<Side>, known: Known, decimals: map<Address, nat>, p: Prices, q: Prices)
    requires Priced(sides, known, decimals, p) && Priced(sides, known, decimals, q)
    requires NoTies(sides, Start(known), known, decimals)
    requires forall first :: Pass(sides, Start(known), known, decimals, first) ==> NoTies(sides, first, known, decimals)
    ensures p == q
  {
    hide Pass, NoTies;
    var p1 :| Pass(sides, Start(known), known, decimals, p1) && Pass(sides, p1, known, decimals, p);
    var q1 :| Pass(sides, Start(known), known, decimals, q1) && Pass(sides, q1, known, decimals, q);
    PassUnique(sides, Start(known), known, decimals, p1, q1);
    PassUnique(sides, p1, known, decimals, p, q);
  }

  lemma OffersAreNew(sides: set<Side>, prices: Prices, known: Known, decimals: map<Address, nat>, b: Address, o: Offer)
    requires Offered(BothWays(sides), prices, known, decimals, b, o)
    ensures b !in prices
  {
  }

  /** A pass never moves a price it was given, and every price it adds is the deepest offer's. */
  lemma PassKeepsPrices(sides: set<Side>, prices: Prices, known: Known, decimals: map<Address, nat>, next: Prices)
    requires Pass(sides, prices, known, decimals, next)
    ensures forall t :: t in prices ==> t in next && next[t] == prices[t]
    ensures forall t :: t in next && t !in prices ==>
              exists o :: Offered(BothWays(sides), prices, known, decimals, t, o) && next[t] == o.price
                          && forall o' :: Offered(BothWays(sides), prices, known, decimals, t, o') ==>
                                            o'.depth <= o.depth
  {
    var best: map<Address, Offer> :|
      Deepest(BothWays(sides), prices, known, decimals, best) && next == Extend(prices, best);
    forall b | b in best
      ensures b !in prices
    {
      OffersAreNew(sides, prices, known, decimals, b, best[b]);
    }
    hide Offered;
    forall t | t in next && t !in prices
      ensures exists o :: Offered(BothWays(sides), prices, known, decimals, t, o) && next[t] == o.price
                          && forall o' :: Offered(BothWays(sides), prices, known, decimals, t, o') ==>
                                            o'.depth <= o.depth
    {
      assert Offered(BothWays(sides), prices, known, decimals, t, best[t]) && next[t] == best[t].price;
    }
  }

  /** Known prices are never changed. */
  lemma KnownPricesStay(sides: set<Side>, known: Known, decimals: map<Address, nat>, prices: Prices, t: Address)
    requires Priced(sides, known, decimals, prices) && t in known
    ensures t in prices && prices[t] == known[t].0
  {
    hide Pass;
    var first :| Pass(sides, Start(known), known, decimals, first) && Pass(sides, first, known, decimals, prices);
    PassKeepsPrices(sides, Start(known), known, decimals, first);
    PassKeepsPrices(sides, first, known, decimals, prices);
  }

  // ── Depth ───────────────────────────────────────────────────────────────────────

  function Usd(prices: Prices, known: Known, decimals: map<Address, nat>, t: Address, raw: real): Option<real> {
    if t !in prices then None
    else match DecimalsOf(t, known, decimals)
      case None => None
      case Some(d) => Some(Worth(raw, d, prices[t]))
  }

  /** Both sides when both are priced, twice the priced one otherwise, unknown with neither. */
  function Depth(prices: Prices, known: Known, decimals: map<Address, nat>, s: Side): Option<real> {
    match (Usd(prices, known, decimals, s.t0, s.r0), Usd(prices, known, decimals, s.t1, s.r1))
    case (Some(a), Some(b)) => Some(a + b)
    case (Some(a), None) => Some(2.0 * a)
    case (None, Some(b)) => Some(2.0 * b)
    case (None, None) => None
  }

  predicate TooShallow(prices: Prices, known: Known, decimals: map<Address, nat>, s: Side, minUsd: real) {
    var d := Depth(prices, known, decimals, s);
    d.Some? && d.value < minUsd
  }

  /** A pool with no priced side is never hidden, whatever the floor. */
  lemma UnpricedNeverShallow(prices: Prices, known: Known, decimals: map<Address, nat>, s: Side, minUsd: real)
    requires s.t0 !in prices && s.t1 !in prices
    ensures !TooShallow(prices, known, decimals, s, minUsd)
  {
  }

  /** The price a pool offers makes its two sides worth the same: the depth it is judged by
      does not depend on whether its own offer was taken. */
  lemma OfferKeepsDepth(prices: Prices, known: Known, decimals: map<Address, nat>, d: Direction)
    requires d.side.t0 != d.side.t1 && d.Offer(prices, known, decimals).Some?
    ensures var o := d.Offer(prices, known, decimals).value;
            var taken := prices[d.Target() := o.price];
            && Depth(prices, known, decimals, d.side) == Some(2.0 * o.depth)
            && Depth(taken, known, decimals, d.side) == Some(2.0 * o.depth)
  {
    var o := d.Offer(prices, known, decimals).value;
    var b, rb := d.Target(), if d.forward then d.side.r1 else d.side.r0;
    PriceBalances(rb, DecimalsOf(b, known, decimals).value, o.depth);
    hide Worth, TenTo;
  }

  lemma PriceBalances(raw: real, decimals: nat, usd: real)
    requires raw > 0.0
    ensures raw / TenTo(decimals) > 0.0 && Worth(raw, decimals, usd / (raw / TenTo(decimals))) == usd
  {
  }
}
