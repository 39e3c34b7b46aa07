/** `apply_log_to_cache` on the live cache (engine/src/listener.rs). */
module Listener {
  import opened Arithmetic
  import opened Bytes
  import opened ConstantProduct
  import opened Feed
  import opened LastLogs
  import opened Pools
  import opened PoolCaching
  import opened Words

  datatype Magnitude = Normal | Large

  function ReservesView(pools: map<Address, PoolInfo>, p: Address): Option<(nat, nat)> {
    if p in pools then Some((pools[p].reserve0, pools[p].reserve1)) else None
  }

  function SpotView(pools: map<Address, V3State>, p: Address): Option<Spot> {
    if p in pools then Some(Spot(pools[p].sqrtPrice, pools[p].liquidity, pools[p].tick)) else None
  }

  function KeyView(keys: map<Address, V4Key>, p: Address): Option<V4Key> {
    if p in keys then Some(keys[p]) else None
  }

  /** The cached state of one pool, as the feed sees it. */
  ghost function ViewOf(c: PoolCache, p: Address): View
    reads c
  {
    View(ReservesView(c.byAddress, p), SpotView(c.v3ByAddress, p), KeyView(c.v4Keys, p), StoredPos(c.logPos, p))
  }

  /** `reserve_delta_bps` and `sqrtp_delta_bps`, products wrapping at 256 bits. */
  predicate DeltaBps(before: nat, after: nat, thresholdBps: nat) {
    if before == 0 || thresholdBps == 0 then false
    else
      var delta := if after > before then after - before else before - after;
      Wrap(delta * 10_000) >= Wrap(Product(before, thresholdBps))
  }

  function Size(large: bool): Magnitude {
    if large then Large else Normal
  }

  /** Magnitude of a recognised event against the state it lands on. */
  ghost function MagnitudeOf(v: View, e: Event, largeSwapBps: nat, largeV3Bps: nat): Magnitude {
    match e
    case Sync(r0, r1) => ReserveMagnitude(v, r0, r1, largeSwapBps)
    case SolidlySync(data) =>
      if |data| < 64 then Normal else ReserveMagnitude(v, FromBE(data[0..32]), FromBE(data[32..64]), largeSwapBps)
    case Swap(s, _, _) => PriceMagnitude(v, s, largeV3Bps)
    case V4Swap(s, _, t) =>
      if v.key.None? then Normal else PriceMagnitude(v, v.key.value.ToCachePrice(s, t).0, largeV3Bps)
    case _ => Normal
  }

  ghost function ReserveMagnitude(v: View, r0: nat, r1: nat, bps: nat): Magnitude {
    Size(v.reserves.Some? && (DeltaBps(v.reserves.value.0, r0, bps) || DeltaBps(v.reserves.value.1, r1, bps)))
  }

  ghost function PriceMagnitude(v: View, s: nat, bps: nat): Magnitude {
    Size(v.spot.Some? && DeltaBps(v.spot.value.sqrtPrice, s, bps))
  }

  /** Where no product wraps: a Sync is large exactly when one of the two reserves moved, up or
      down, by the threshold in parts of 10 000 of what it was. */
  lemma LargeSyncExactly(v: View, r0: nat, r1: nat, bps: nat)
    requires v.reserves.Some? && bps > 0
    requires var (a, b) := v.reserves.value; MovesFit(a, r0, bps) && MovesFit(b, r1, bps)
    ensures var (a, b) := v.reserves.value;
            ReserveMagnitude(v, r0, r1, bps) == Large <==> Moved(a, r0, bps) || Moved(b, r1, bps)
  {
    hide DeltaBps, Moved, MovesFit;
    DeltaIsMove(v.reserves.value.0, r0, bps);
    DeltaIsMove(v.reserves.value.1, r1, bps);
  }

  predicate MovesFit(before: nat, after: nat, bps: nat) {
    before * 10_000 < TWO_256 && after * 10_000 < TWO_256 && before * bps < TWO_256
  }

  predicate Moved(before: nat, after: nat, bps: nat) {
    before > 0 && (after * 10_000 >= before * (10_000 + bps) || after * 10_000 <= before * (10_000 - bps))
  }

  lemma LargeSwapExactly(v: View, s: nat, bps: nat)
    requires v.spot.Some? && bps > 0 && MovesFit(v.spot.value.sqrtPrice, s, bps)
    ensures PriceMagnitude(v, s, bps) == Large <==> Moved(v.spot.value.sqrtPrice, s, bps)
  {
    hide DeltaBps, Moved, MovesFit;
    DeltaIsMove(v.spot.value.sqrtPrice, s, bps);
  }

  lemma DeltaIsMove(before: nat, after: nat, bps: nat)
    requires MovesFit(before, after, bps) && bps > 0
    ensures DeltaBps(before, after, bps) <==> Moved(before, after, bps)
  {
    hide Wrap, Product, TWO_256;
    ProductIs(before, bps);
    Distribute(10_000, bps, before);
    Distribute(10_000 - bps, bps, before);
    WrapSmall(before * bps);
    WrapSmall((if after > before then after - before else before - after) * 10_000);
  }

  method ApplySync(cache: PoolCache, pool: Address, r0: nat, r1: nat, largeSwapBps: nat, now: nat)
    returns (magnitude: Magnitude)
    requires cache.Coherent()
    modifies cache`byAddress
    ensures cache.Coherent() && (old(cache.WatchExact()) ==> cache.WatchExact())
    ensures ViewOf(cache, pool) == SetReserves(old(ViewOf(cache, pool)), r0, r1)
    ensures forall q :: q != pool ==> ViewOf(cache, q) == old(ViewOf(cache, q))
    ensures cache.byAddress.Keys == old(cache.byAddress.Keys)
    ensures magnitude == ReserveMagnitude(old(ViewOf(cache, pool)), r0, r1, largeSwapBps)
    ensures pool in cache.byAddress ==>
              cache.byAddress[pool]
              == old(cache.byAddress)[pool].(reserve0 := r0, reserve1 := r1, lastSync := now)
  {
    hide DerivedV2, DerivedV3, KeysV2, KeysV3, OwnKeysV2, OwnKeysV3, WatchList, RefreshVr, V4Key.ToCachePrice, DeltaBps;
    magnitude := Normal;
    if pool in cache.byAddress {
      var before := cache.byAddress[pool];
      if DeltaBps(before.reserve0, r0, largeSwapBps) || DeltaBps(before.reserve1, r1, largeSwapBps) {
        magnitude := Large;
      }
    }
    cache.UpdateReserves(pool, r0, r1, now);
  }

  method ApplySwap(cache: PoolCache, pool: Address, s: nat, l: nat, t: int, largeV3Bps: nat, now: nat)
    returns (magnitude: Magnitude)
    requires cache.Coherent()
    modifies cache`v3ByAddress
    ensures cache.Coherent() && (old(cache.WatchExact()) ==> cache.WatchExact())
    ensures ViewOf(cache, pool) == SetSpot(old(ViewOf(cache, pool)), Spot(s, l, t))
    ensures forall q :: q != pool ==> ViewOf(cache, q) == old(ViewOf(cache, q))
    ensures cache.v3ByAddress.Keys == old(cache.v3ByAddress.Keys)
    ensures magnitude == PriceMagnitude(old(ViewOf(cache, pool)), s, largeV3Bps)
  {
    hide DerivedV2, DerivedV3, KeysV2, KeysV3, OwnKeysV2, OwnKeysV3, WatchList, Vr0, Vr1, V4Key.ToCachePrice, DeltaBps;
    magnitude := Normal;
    if pool in cache.v3ByAddress && DeltaBps(cache.v3ByAddress[pool].sqrtPrice, s, largeV3Bps) {
      magnitude := Large;
    }
    cache.UpdateV3State(pool, s, l, t, now);
  }

  method ApplyDelta(cache: PoolCache, pool: Address, lower: int, upper: int, amount: nat, add: bool, now: nat)
    requires cache.Coherent()
    modifies cache`v3ByAddress
    ensures cache.Coherent() && (old(cache.WatchExact()) ==> cache.WatchExact())
    ensures ViewOf(cache, pool) == ShiftView(old(ViewOf(cache, pool)), lower, upper, amount, add)
    ensures cache.v3ByAddress.Keys == old(cache.v3ByAddress.Keys)
    ensures forall q :: q != pool ==> ViewOf(cache, q) == old(ViewOf(cache, q))
  {
    hide DerivedV2, DerivedV3, KeysV2, KeysV3, OwnKeysV2, OwnKeysV3, WatchList, Vr0, Vr1, ShiftLiquidity;
    var _ := cache.ApplyV3LiquidityDelta(pool, lower, upper, amount, add, now);
  }

  /** The event of a log that is not behind the pool's position. */
  method ApplyEvent(cache: PoolCache, pool: Address, event: Event, repeat: bool, positioned: bool,
                    largeSwapBps: nat, largeV3Bps: nat, now: nat)
    returns (magnitude: Option<Magnitude>)
    requires cache.Coherent() && !event.NoTopic?
    modifies cache`byAddress, cache`v3ByAddress
    ensures cache.Coherent() && (old(cache.WatchExact()) ==> cache.WatchExact())
    ensures ViewOf(cache, pool) == Effect(old(ViewOf(cache, pool)), event, repeat, positioned)
    ensures forall q :: q != pool ==> ViewOf(cache, q) == old(ViewOf(cache, q))
    ensures magnitude.Some? <==> Recognised(old(ViewOf(cache, pool)), event) && !repeat
    ensures magnitude.Some? ==>
              magnitude.value == MagnitudeOf(old(ViewOf(cache, pool)), event, largeSwapBps, largeV3Bps)
    ensures cache.byAddress.Keys == old(cache.byAddress.Keys) && cache.v3ByAddress.Keys == old(cache.v3ByAddress.Keys)
  {
    hide DerivedV2, DerivedV3, KeysV2, KeysV3, OwnKeysV2, OwnKeysV3, WatchList, RefreshVr, V4Key.ToCachePrice,
         DeltaBps, FromBE,
         SetReserves, SetSpot, ShiftView, DeltaAmount, V4Key.ToCacheRange, ReserveMagnitude, PriceMagnitude;
    match event {
      case Sync(r0, r1) =>
        var m := ApplySync(cache, pool, r0, r1, largeSwapBps, now);
        return if repeat then None else Some(m);
      case SolidlySync(data) =>
        if |data| < 64 { return None; }
        var m := ApplySync(cache, pool, FromBE(data[0..32]), FromBE(data[32..64]), largeSwapBps, now);
        return if repeat then None else Some(m);
      case Swap(s, l, t) =>
        var m := ApplySwap(cache, pool, s, l, t, largeV3Bps, now);
        return if repeat then None else Some(m);
      case V4Swap(s, l, t) =>
        if pool !in cache.v4Keys { return None; }
        var (s', t') := cache.v4Keys[pool].ToCachePrice(s, t);
        var m := ApplySwap(cache, pool, s', l, t', largeV3Bps, now);
        return if repeat then None else Some(m);
      case V4Modify(lower, upper, delta) =>
        if !repeat && positioned && pool in cache.v4Keys {
          var (lo, hi) := cache.v4Keys[pool].ToCacheRange(lower, upper);
          ApplyDelta(cache, pool, lo, hi, DeltaAmount(delta), delta > 0, now);
        }
        return None;
      case Mint(lower, upper, amount) =>
        if !repeat && positioned { ApplyDelta(cache, pool, lower, upper, amount, true, now); }
        return None;
      case Burn(lower, upper, amount) =>
        if !repeat && positioned { ApplyDelta(cache, pool, lower, upper, amount, false, now); }
        return None;
      case Undecodable => return None;
    }
  }

  /** The log is neither removed nor behind the position stored for its pool. */
  predicate Heard(stored: Pos, log: Log) {
    !log.removed && !log.event.NoTopic? && (log.pos.Some? ==> !Before(log.pos.value, stored))
  }

  lemma TakenOver(v: View, log: Log)
    requires Heard(v.pos, log)
    ensures v.reserves.Some? && Reported(log.event).Some? ==> Deliver(v, log).reserves == Reported(log.event)
    ensures v.spot.Some? && log.event.Swap? ==>
              Deliver(v, log).spot == Some(Spot(log.event.sqrtPrice, log.event.liquidity, log.event.tick))
  {
    hide FromBE;
  }

  /** Apply one log: the pool's state becomes exactly `Deliver` of it, no other pool moves, and
      a magnitude comes back exactly when the event is recognised and new. */
  method ApplyLog(cache: PoolCache, log: Log, largeSwapBps: nat, largeV3Bps: nat, now: nat)
    returns (magnitude: Option<Magnitude>)
    requires cache.Coherent()
    modifies cache
    ensures cache.Coherent() && (old(cache.WatchExact()) ==> cache.WatchExact())
    ensures ViewOf(cache, log.pool) == Deliver(old(ViewOf(cache, log.pool)), log)
    ensures forall q :: q != log.pool ==> ViewOf(cache, q) == old(ViewOf(cache, q))
    ensures magnitude.Some? <==> Notifies(old(ViewOf(cache, log.pool)), log)
    ensures magnitude.Some? ==>
              magnitude.value == MagnitudeOf(old(ViewOf(cache, log.pool)), log.event, largeSwapBps, largeV3Bps)
    ensures Heard(old(StoredPos(cache.logPos, log.pool)), log) && Reported(log.event).Some?
            && log.pool in cache.byAddress ==>
              (cache.byAddress[log.pool].reserve0, cache.byAddress[log.pool].reserve1) == Reported(log.event).value
    ensures Heard(old(StoredPos(cache.logPos, log.pool)), log) && log.event.Swap? && log.pool in cache.v3ByAddress ==>
              var s := cache.v3ByAddress[log.pool];
              (s.sqrtPrice, s.liquidity, s.tick) == (log.event.sqrtPrice, log.event.liquidity, log.event.tick)
    ensures cache.lastLog == if log.removed || log.event.NoTopic? then old(cache.lastLog) else Some(now)
    ensures cache.byAddress.Keys == old(cache.byAddress.Keys) && cache.v3ByAddress.Keys == old(cache.v3ByAddress.Keys)
    ensures cache.v4Keys == old(cache.v4Keys)
    ensures cache.shallow == old(cache.shallow) && cache.disabled == old(cache.disabled)
  {
    hide DerivedV2, DerivedV3, KeysV2, KeysV3, OwnKeysV2, OwnKeysV3, WatchList, Effect, Reported;
    var pool := log.pool;
    ghost var before := ViewOf(cache, pool);
    if Heard(before.pos, log) { TakenOver(before, log); }
    if log.event.NoTopic? || log.removed { return None; }
    cache.lastLog := Some(now);
    var repeat := false;
    if log.pos.Some? {
      var isNew, isOld := cache.AdvanceLogPosition(pool, log.pos.value);
      if isOld { return None; }
      repeat := !isNew;
    }
    magnitude := ApplyEvent(cache, pool, log.event, repeat, log.pos.Some?, largeSwapBps, largeV3Bps, now);
  }
}
