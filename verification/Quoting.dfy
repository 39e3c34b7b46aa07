/** Quotes by directional key: the lookup, what it refuses, and whose quote it is
    (engine/src/pool_cache.rs). */
module Quoting {
  import opened Arithmetic
  import opened Pools
  import opened PoolCaching
  import opened Route
  import opened Words

  /** `get_amount_out_by_v2_key`: none for a pool below the depth floor or disabled, nor, where an
      age limit is given and the feed is silent, for one that went too long without a Sync. */
  function QuoteV2(c: PoolCache, key: V2Key, amountIn: nat, maxAge: Option<nat>, feedLive: bool, now: nat): Option<nat>
    reads c
  {
    if key !in c.byKey then None
    else
      var pool := c.byKey[key];
      if c.IsSkipped(pool) || pool !in c.byAddress then None
      else if maxAge.Some? && now > c.byAddress[pool].lastSync + maxAge.value && !feedLive then None
      else ComputeAmountOut(c.byAddress[pool], key.tokenIn, amountIn)
  }

  /** `quote_v3_spot_key`. */
  function QuoteV3(c: PoolCache, key: V3Key, amountIn: nat, capBps: nat): Option<SpotQuote>
    reads c
  {
    if key !in c.v3ByKey then None
    else
      var pool := c.v3ByKey[key];
      if c.IsSkipped(pool) || pool !in c.v3ByAddress then None
      else SpotOf(c.v3ByAddress[pool], key.tokenIn, amountIn, capBps)
  }

  /** The pool trades these two tokens, either way round. */
  predicate Trades(token0: Address, token1: Address, tokenIn: Address, tokenOut: Address) {
    (token0 == tokenIn && token1 == tokenOut) || (token0 == tokenOut && token1 == tokenIn)
  }

  /** A quote under a key is the quote of a cached pool of the key's router and two tokens, neither
      shallow nor disabled, and, under an age limit, synced within it or with the feed live. */
  lemma QuoteIsOfItsPool(c: PoolCache, key: V2Key, amountIn: nat, maxAge: Option<nat>, feedLive: bool, now: nat)
    requires c.Coherent() && c.KeysExact() && QuoteV2(c, key, amountIn, maxAge, feedLive, now).Some?
    ensures exists p :: p in c.byAddress && p !in c.shallow && p !in c.disabled
              && c.byAddress[p].routerId == key.routerId
              && Trades(c.byAddress[p].token0, c.byAddress[p].token1, key.tokenIn, key.tokenOut)
              && (maxAge.Some? && !feedLive ==> now - c.byAddress[p].lastSync <= maxAge.value)
              && QuoteV2(c, key, amountIn, maxAge, feedLive, now)
                 == ComputeAmountOut(c.byAddress[p], key.tokenIn, amountIn)
  {
    hide ComputeAmountOut, DerivedV2, DerivedV3, KeysV3, OwnKeysV3;
    var p := c.byKey[key];
    assert p in c.byAddress;
  }

  lemma SpotIsOfItsPool(c: PoolCache, key: V3Key, amountIn: nat, capBps: nat)
    requires c.Coherent() && c.KeysExact() && QuoteV3(c, key, amountIn, capBps).Some?
    ensures exists p :: p in c.v3ByAddress && p !in c.shallow && p !in c.disabled
              && c.v3ByAddress[p].routerId == key.routerId && c.v3ByAddress[p].fee == key.fee
              && Trades(c.v3ByAddress[p].token0, c.v3ByAddress[p].token1, key.tokenIn, key.tokenOut)
              && QuoteV3(c, key, amountIn, capBps) == SpotOf(c.v3ByAddress[p], key.tokenIn, amountIn, capBps)
  {
    hide SpotOf, DerivedV2, DerivedV3, KeysV2, OwnKeysV2;
    var p := c.v3ByKey[key];
    assert p in c.v3ByAddress;
  }

  /** While the feed is live the age of a pool is no reason to refuse it. */
  lemma LiveFeedIgnoresAge(c: PoolCache, key: V2Key, amountIn: nat, maxAge: Option<nat>, now: nat)
    ensures QuoteV2(c, key, amountIn, maxAge, true, now) == QuoteV2(c, key, amountIn, None, false, now)
  {
    hide ComputeAmountOut;
  }

  /** A pool just inserted is quoted under its router and tokens in both directions, unless it is
      skipped, with 10 000 - feeBps as its fee numerator. */
  method InsertThenQuote(c: PoolCache, pool: Address, info: PoolInfo, amountIn: nat)
    returns (there: Option<nat>, back: Option<nat>)
    requires c.Coherent() && info.feeBps <= 10_000
    modifies c`byAddress, c`byKey, c`watchDirty
    ensures var i := info.(feeNum := 10_000 - info.feeBps);
            if pool in c.shallow || pool in c.disabled then there == None && back == None
            else
              && there == ComputeAmountOut(i, info.token0, amountIn)
              && back == ComputeAmountOut(i, info.token1, amountIn)
  {
    hide ComputeAmountOut, DerivedV2, DerivedV3, KeysV2, KeysV3, OwnKeysV2, OwnKeysV3, WatchList;
    c.Insert(pool, info);
    there := QuoteV2(c, V2Key(info.routerId, info.token0, info.token1), amountIn, None, true, 0);
    back := QuoteV2(c, V2Key(info.routerId, info.token1, info.token0), amountIn, None, true, 0);
  }

  /** And so is a concentrated pool, under its fee as well. */
  method InsertThenQuoteV3(c: PoolCache, pool: Address, state: V3State, amountIn: nat, capBps: nat)
    returns (there: Option<SpotQuote>, back: Option<SpotQuote>)
    requires c.Coherent()
    modifies c`v3ByAddress, c`v3ByKey, c`watchDirty
    ensures var s := RefreshVr(state);
            if pool in c.shallow || pool in c.disabled then there == None && back == None
            else there == SpotOf(s, state.token0, amountIn, capBps) && back == SpotOf(s, state.token1, amountIn, capBps)
  {
    hide SpotOf, RefreshVr, DerivedV2, DerivedV3, KeysV2, KeysV3, OwnKeysV2, OwnKeysV3, WatchList;
    c.InsertV3(pool, state);
    there := QuoteV3(c, V3Key(state.routerId, state.token0, state.token1, state.fee), amountIn, capBps);
    back := QuoteV3(c, V3Key(state.routerId, state.token1, state.token0, state.fee), amountIn, capBps);
  }
}
