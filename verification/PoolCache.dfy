/** The pool cache (engine/src/pool_cache.rs), one operation at a time: each method is one
    atomic step, since concurrent-map interleavings are not modelled. */
module PoolCaching {
  import opened Feed
  import opened Pools
  import opened TokenPricing
  import opened Words

  datatype V2Key = V2Key(routerId: string, tokenIn: Address, tokenOut: Address) {
    function Flip(): V2Key {
      V2Key(routerId, tokenOut, tokenIn)
    }
  }

  datatype V3Key = V3Key(routerId: string, tokenIn: Address, tokenOut: Address, fee: nat) {
    function Flip(): V3Key {
      V3Key(routerId, tokenOut, tokenIn, fee)
    }
  }

  /** Stored position, (0, 0) before the first log. */
  function StoredPos(positions: map<Address, Pos>, pool: Address): Pos {
    if pool in positions then positions[pool] else (0, 0)
  }

  function KeyOf(info: PoolInfo): V2Key {
    V2Key(info.routerId, info.token0, info.token1)
  }

  function KeyOfV3(s: V3State): V3Key {
    V3Key(s.routerId, s.token0, s.token1, s.fee)
  }

  function SideOf(pool: Address, i: PoolInfo): Side {
    Side(pool, i.token0, i.reserve0 as real, i.token1, i.reserve1 as real)
  }

  function SideOfV3(pool: Address, s: V3State): Side {
    Side(pool, s.token0, s.vr0 as real, s.token1, s.vr1 as real)
  }

  /** The elements of a set, once each, in some order (a concurrent map's iteration). */
  method InSomeOrder<T(==)>(all: set<T>) returns (order: seq<T>)
    ensures forall x :: x in order <==> x in all
    ensures forall i, j :: 0 <= i < j < |order| ==> order[i] != order[j]
    ensures |order| == |all|
  {
    order := [];
    var left := all;
    while left != {}
      invariant left <= all
      invariant forall x :: x in order <==> x in all - left
      invariant forall i, j :: 0 <= i < j < |order| ==> order[i] != order[j]
      invariant |order| + |left| == |all|
      decreases left
    {
      var x :| x in left;
      order := order + [x];
      left := left - {x};
    }
  }

  // ── Coherence of the plain state, its derived fields and its indexes ──────────────

  ghost predicate DerivedV2(pools: map<Address, PoolInfo>) {
    forall p :: p in pools ==> pools[p].feeNum == FeeNumV2(pools[p].feeBps)
  }

  ghost predicate DerivedV3(pools: map<Address, V3State>) {
    forall p :: p in pools ==> pools[p] == RefreshVr(pools[p])
  }

  /** Both directional keys lead to the same existing pool, and every pool's key is there. */
  ghost predicate KeysV2(pools: map<Address, PoolInfo>, keys: map<V2Key, Address>) {
    && (forall k :: k in keys ==> keys[k] in pools)
    && (forall k {:trigger k.Flip()} :: k in keys ==> k.Flip() in keys && keys[k.Flip()] == keys[k])
    && (forall p :: p in pools ==> KeyOf(pools[p]) in keys)
  }

  ghost predicate KeysV3(pools: map<Address, V3State>, keys: map<V3Key, Address>) {
    && (forall k :: k in keys ==> keys[k] in pools)
    && (forall k {:trigger k.Flip()} :: k in keys ==> k.Flip() in keys && keys[k.Flip()] == keys[k])
    && (forall p :: p in pools ==> KeyOfV3(pools[p]) in keys)
  }

  /** Every key leads to a pool of its own router and tokens. */
  ghost predicate OwnKeysV2(pools: map<Address, PoolInfo>, keys: map<V2Key, Address>) {
    forall k :: k in keys ==> keys[k] in pools && (k == KeyOf(pools[keys[k]]) || k == KeyOf(pools[keys[k]]).Flip())
  }

  ghost predicate OwnKeysV3(pools: map<Address, V3State>, keys: map<V3Key, Address>) {
    forall k :: k in keys ==> keys[k] in pools && (k == KeyOfV3(pools[keys[k]]) || k == KeyOfV3(pools[keys[k]]).Flip())
  }

  /** A pool that was cached before keeps its router and tokens when it is inserted again. */
  lemma PutOwnV2(pools: map<Address, PoolInfo>, keys: map<V2Key, Address>, pool: Address, info: PoolInfo)
    requires OwnKeysV2(pools, keys)
    requires pool in pools ==> KeyOf(pools[pool]) == KeyOf(info) || KeyOf(pools[pool]) == KeyOf(info).Flip()
    ensures OwnKeysV2(pools[pool := info], keys[KeyOf(info) := pool][KeyOf(info).Flip() := pool])
  {
    assert KeyOf(info).Flip().Flip() == KeyOf(info);
  }

  lemma PutOwnV3(pools: map<Address, V3State>, keys: map<V3Key, Address>, pool: Address, s: V3State)
    requires OwnKeysV3(pools, keys)
    requires pool in pools ==> KeyOfV3(pools[pool]) == KeyOfV3(s) || KeyOfV3(pools[pool]) == KeyOfV3(s).Flip()
    ensures OwnKeysV3(pools[pool := s], keys[KeyOfV3(s) := pool][KeyOfV3(s).Flip() := pool])
  {
    assert KeyOfV3(s).Flip().Flip() == KeyOfV3(s);
  }

  lemma ChangeOwnV2(pools: map<Address, PoolInfo>, keys: map<V2Key, Address>, pool: Address, info: PoolInfo)
    requires pool in pools && KeyOf(info) == KeyOf(pools[pool])
    ensures OwnKeysV2(pools, keys) ==> OwnKeysV2(pools[pool := info], keys)
  {
  }

  lemma ChangeOwnV3(pools: map<Address, V3State>, keys: map<V3Key, Address>, pool: Address, s: V3State)
    requires pool in pools && KeyOfV3(s) == KeyOfV3(pools[pool])
    ensures OwnKeysV3(pools, keys) ==> OwnKeysV3(pools[pool := s], keys)
  {
  }

  lemma PutV2(pools: map<Address, PoolInfo>, keys: map<V2Key, Address>, pool: Address, info: PoolInfo)
    requires DerivedV2(pools) && KeysV2(pools, keys) && info.feeNum == FeeNumV2(info.feeBps)
    ensures DerivedV2(pools[pool := info])
    ensures KeysV2(pools[pool := info], keys[KeyOf(info) := pool][KeyOf(info).Flip() := pool])
  {
    var k := KeyOf(info);
    assert k.Flip().Flip() == k;
    var keys' := keys[k := pool][k.Flip() := pool];
    forall q | q in keys'
      ensures q.Flip() in keys' && keys'[q.Flip()] == keys'[q]
    {
      assert q.Flip().Flip() == q;
    }
  }

  lemma PutV3(pools: map<Address, V3State>, keys: map<V3Key, Address>, pool: Address, s: V3State)
    requires DerivedV3(pools) && KeysV3(pools, keys) && s == RefreshVr(s)
    ensures DerivedV3(pools[pool := s])
    ensures KeysV3(pools[pool := s], keys[KeyOfV3(s) := pool][KeyOfV3(s).Flip() := pool])
  {
    hide RefreshVr;
    var k := KeyOfV3(s);
    assert k.Flip().Flip() == k;
    var keys' := keys[k := pool][k.Flip() := pool];
    forall q | q in keys'
      ensures q.Flip() in keys' && keys'[q.Flip()] == keys'[q]
    {
      assert q.Flip().Flip() == q;
    }
  }

  /** Updating an entry without moving its key. */
  lemma ChangeV2(pools: map<Address, PoolInfo>, keys: map<V2Key, Address>, pool: Address, info: PoolInfo)
    requires DerivedV2(pools) && KeysV2(pools, keys) && info.feeNum == FeeNumV2(info.feeBps)
    requires pool in pools && KeyOf(info) == KeyOf(pools[pool])
    ensures DerivedV2(pools[pool := info]) && KeysV2(pools[pool := info], keys)
    ensures pools[pool := info].Keys == pools.Keys
  {
  }

  lemma ChangeV3(pools: map<Address, V3State>, keys: map<V3Key, Address>, pool: Address, s: V3State)
    requires DerivedV3(pools) && KeysV3(pools, keys)
    requires pool in pools && KeyOfV3(s) == KeyOfV3(pools[pool])
    ensures DerivedV3(pools[pool := RefreshVr(s)]) && KeysV3(pools[pool := RefreshVr(s)], keys)
    ensures pools[pool := RefreshVr(s)].Keys == pools.Keys
  {
    RefreshTwice(s);
    hide RefreshVr, KeysV3;
    ChangeKeysV3(pools, keys, pool, RefreshVr(s));
  }

  lemma ChangeKeysV3(pools: map<Address, V3State>, keys: map<V3Key, Address>, pool: Address, s: V3State)
    requires KeysV3(pools, keys) && pool in pools && KeyOfV3(s) == KeyOfV3(pools[pool])
    ensures KeysV3(pools[pool := s], keys)
  {
  }

  lemma RefreshTwice(s: V3State)
    ensures RefreshVr(RefreshVr(s)) == RefreshVr(s) && KeyOfV3(RefreshVr(s)) == KeyOfV3(s)
  {
    hide Vr0, Vr1;
  }

  /** In the pool's own fields: shallow exactly when what its reserves are worth together, twice the
      priced one's worth with one side unpriced, is below the floor. */
  lemma ShallowV2(pool: Address, i: PoolInfo, prices: Prices, known: Known, decimals: map<Address, nat>, minUsd: real)
    requires i.token0 in decimals && i.token1 in decimals
    ensures var usd0 := if i.token0 in prices then i.reserve0 as real / TenTo(decimals[i.token0]) * prices[i.token0]
                        else 0.0;
            var usd1 := if i.token1 in prices then i.reserve1 as real / TenTo(decimals[i.token1]) * prices[i.token1]
                        else 0.0;
            TooShallow(prices, known, decimals, SideOf(pool, i), minUsd)
            <==> if i.token0 in prices && i.token1 in prices then usd0 + usd1 < minUsd
                 else (i.token0 in prices || i.token1 in prices) && 2.0 * (usd0 + usd1) < minUsd
  {
    hide TenTo;
  }

  /** The same for the virtual reserves of a concentrated pool. */
  lemma ShallowV3(pool: Address, s: V3State, prices: Prices, known: Known, decimals: map<Address, nat>, minUsd: real)
    requires s.token0 in decimals && s.token1 in decimals
    ensures var usd0 := if s.token0 in prices then s.vr0 as real / TenTo(decimals[s.token0]) * prices[s.token0]
                        else 0.0;
            var usd1 := if s.token1 in prices then s.vr1 as real / TenTo(decimals[s.token1]) * prices[s.token1]
                        else 0.0;
            TooShallow(prices, known, decimals, SideOfV3(pool, s), minUsd)
            <==> if s.token0 in prices && s.token1 in prices then usd0 + usd1 < minUsd
                 else (s.token0 in prices || s.token1 in prices) && 2.0 * (usd0 + usd1) < minUsd
  {
    hide TenTo;
  }

  ghost predicate DistinctPools(sides: seq<Side>) {
    forall i, j :: 0 <= i < j < |sides| ==> sides[i].pool != sides[j].pool
  }

  function SidesV2(order: seq<Address>, pools: map<Address, PoolInfo>): (sides: seq<Side>)
    requires forall p :: p in order ==> p in pools
    ensures |sides| == |order|
    ensures forall i :: 0 <= i < |order| ==> sides[i] == SideOf(order[i], pools[order[i]])
  {
    seq(|order|, i requires 0 <= i < |order| => SideOf(order[i], pools[order[i]]))
  }

  function SidesV3(order: seq<Address>, pools: map<Address, V3State>): (sides: seq<Side>)
    requires forall p :: p in order ==> p in pools
    ensures |sides| == |order|
    ensures forall i :: 0 <= i < |order| ==> sides[i] == SideOfV3(order[i], pools[order[i]])
  {
    seq(|order|, i requires 0 <= i < |order| => SideOfV3(order[i], pools[order[i]]))
  }

  ghost function SideSetV2(pools: map<Address, PoolInfo>): set<Side> {
    set p | p in pools :: SideOf(p, pools[p])
  }

  ghost function SideSetV3(v3Pools: map<Address, V3State>): set<Side> {
    set p | p in v3Pools :: SideOfV3(p, v3Pools[p])
  }

  lemma AllSidesV2(order: seq<Address>, pools: map<Address, PoolInfo>)
    requires forall p :: p in order <==> p in pools
    requires forall i, j :: 0 <= i < j < |order| ==> order[i] != order[j]
    ensures SetOf(SidesV2(order, pools)) == SideSetV2(pools) && DistinctPools(SidesV2(order, pools))
  {
    var sides: seq<Side> := SidesV2(order, pools);
    hide SidesV2;
    forall s | s in SideSetV2(pools) ensures s in sides {
      var i :| 0 <= i < |order| && order[i] == s.pool;
      assert sides[i] == s;
    }
  }

  lemma AllSidesV3(order: seq<Address>, v3Pools: map<Address, V3State>)
    requires forall p :: p in order <==> p in v3Pools
    requires forall i, j :: 0 <= i < j < |order| ==> order[i] != order[j]
    ensures SetOf(SidesV3(order, v3Pools)) == SideSetV3(v3Pools) && DistinctPools(SidesV3(order, v3Pools))
  {
    var sides: seq<Side> := SidesV3(order, v3Pools);
    hide SidesV3;
    forall s | s in SideSetV3(v3Pools) ensures s in sides {
      var i :| 0 <= i < |order| && order[i] == s.pool;
      assert sides[i] == s;
    }
  }

  /** Every cached pool as a pricing side. */
  ghost function AllSides(pools: map<Address, PoolInfo>, v3Pools: map<Address, V3State>): set<Side> {
    SideSetV2(pools) + SideSetV3(v3Pools)
  }

  lemma SetOfNext(sides: seq<Side>, i: nat)
    requires i < |sides| && DistinctPools(sides)
    ensures SetOf(sides[..i + 1]) == SetOf(sides[..i]) + {sides[i]}
    ensures sides[i] !in SetOf(sides[..i]) && sides[i] in SetOf(sides)
  {
  }

  /** The sides of one kind belong to the pools of that kind. */
  lemma OnlyCached(v2: seq<Side>, v3: seq<Side>, pools: map<Address, PoolInfo>, v3Pools: map<Address, V3State>)
    requires SetOf(v2) == SideSetV2(pools) && SetOf(v3) == SideSetV3(v3Pools)
    ensures forall s :: s in v2 ==> s.pool in pools
    ensures forall s :: s in v3 ==> s.pool in v3Pools
  {
    forall s | s in v2 ensures s.pool in pools {
      assert s in SetOf(v2);
    }
    forall s | s in v3 ensures s.pool in v3Pools {
      assert s in SetOf(v3);
    }
  }

  ghost function ShallowOf(sides: set<Side>, prices: Prices, known: Known, decimals: map<Address, nat>,
                           minUsd: real): set<Side> {
    set s | s in sides && TooShallow(prices, known, decimals, s, minUsd)
  }

  lemma ShallowCount(done: set<Side>, s: Side, prices: Prices, known: Known, decimals: map<Address, nat>, minUsd: real)
    requires s !in done
    ensures |ShallowOf(done + {s}, prices, known, decimals, minUsd)|
         == |ShallowOf(done, prices, known, decimals, minUsd)|
            + (if TooShallow(prices, known, decimals, s, minUsd) then 1 else 0)
  {
    hide TooShallow;
    var prior := ShallowOf(done, prices, known, decimals, minUsd);
    var next := ShallowOf(done + {s}, prices, known, decimals, minUsd);
    if TooShallow(prices, known, decimals, s, minUsd) {
      assert next == prior + {s};
    } else {
      assert next == prior;
    }
  }

  /** V2 pools and the V3 pools that are not V4. */
  ghost function Watched(v2: set<Address>, v3: set<Address>, v4: set<Address>): set<Address> {
    v2 + (v3 - v4)
  }

  /** A list that is not dirty is the watched set. */
  ghost predicate WatchList(dirty: bool, list: seq<Address>, watched: set<Address>) {
    dirty || forall a :: a in list <==> a in watched
  }

  lemma FeeNumStored(pools: map<Address, PoolInfo>, pool: Address)
    requires DerivedV2(pools) && pool in pools
    ensures pools[pool].feeNum == FeeNumV2(pools[pool].feeBps)
  {
  }

  lemma ExactList(v2: seq<Address>, v3: seq<Address>, pools: set<Address>, v3Pools: set<Address>, v4: set<Address>)
    requires forall a :: a in v2 <==> a in pools
    requires forall a :: a in v3 <==> a in v3Pools - v4
    ensures WatchList(false, v2 + v3, Watched(pools, v3Pools, v4))
  {
  }

  lemma StillExact(dirty: bool, list: seq<Address>, watched: set<Address>)
    requires WatchList(dirty, list, watched) && !dirty
    ensures WatchList(false, list, watched)
  {
  }

  class PoolCache {
    var byAddress: map<Address, PoolInfo>
    var byKey: map<V2Key, Address>
    var v3ByAddress: map<Address, V3State>
    var v3ByKey: map<V3Key, Address>
    var v4Keys: map<Address, V4Key>
    var watchAddrs: seq<Address>
    var watchDirty: bool
    var logPos: map<Address, Pos>
    var lastLog: Option<nat>
    var shallow: set<Address>
    var disabled: set<Address>

    constructor ()
      ensures Coherent() && WatchExact() && KeysExact()
      ensures byAddress == map[] && v3ByAddress == map[] && v4Keys == map[] && logPos == map[]
      ensures shallow == {} && disabled == {} && lastLog == None
    {
      byAddress, byKey, v3ByAddress, v3ByKey, v4Keys := map[], map[], map[], map[], map[];
      watchAddrs, watchDirty := [], true;
      logPos, lastLog, shallow, disabled := map[], None, {}, {};
    }

    // ── Class invariant ───────────────────────────────────────────────────────────

    ghost predicate Coherent()
      reads this
    {
      && DerivedV2(byAddress) && KeysV2(byAddress, byKey)
      && DerivedV3(v3ByAddress) && KeysV3(v3ByAddress, v3ByKey)
    }

    /** Every key leads to a pool of its own router and tokens. */
    ghost predicate KeysExact()
      reads this
    {
      OwnKeysV2(byAddress, byKey) && OwnKeysV3(v3ByAddress, v3ByKey)
    }

    ghost predicate WatchExact()
      reads this
    {
      WatchList(watchDirty, watchAddrs, Watched(byAddress.Keys, v3ByAddress.Keys, v4Keys.Keys))
    }

    // ── V2 / Aerodrome pools ──────────────────────────────────────────────────────

    method Insert(pool: Address, info: PoolInfo)
      requires Coherent()
      modifies this`byAddress, this`byKey, this`watchDirty
      ensures Coherent() && WatchExact()
      ensures byAddress == old(byAddress)[pool := info.(feeNum := FeeNumV2(info.feeBps))]
      ensures byKey == old(byKey)[KeyOf(info) := pool][KeyOf(info).Flip() := pool]
      ensures old(KeysExact())
              && (pool in old(byAddress) ==> KeyOf(old(byAddress)[pool]) in {KeyOf(info), KeyOf(info).Flip()})
              ==> KeysExact()
    {
      hide DerivedV2, DerivedV3, KeysV2, KeysV3, OwnKeysV2, OwnKeysV3;
      var stored := info.(feeNum := SaturatingSub(10_000, info.feeBps));
      assert KeyOf(stored) == KeyOf(info);
      PutV2(byAddress, byKey, pool, stored);
      if KeysExact() && (pool in byAddress ==> KeyOf(byAddress[pool]) in {KeyOf(info), KeyOf(info).Flip()}) {
        PutOwnV2(byAddress, byKey, pool, stored);
      }
      byKey := byKey[KeyOf(info) := pool];
      byKey := byKey[KeyOf(info).Flip() := pool];
      byAddress := byAddress[pool := stored];
      watchDirty := true;
    }

    method UpdateReserves(pool: Address, reserve0: nat, reserve1: nat, now: nat)
      requires Coherent()
      modifies this`byAddress
      ensures Coherent() && (old(WatchExact()) ==> WatchExact()) && (old(KeysExact()) ==> KeysExact())
      ensures byAddress == if pool in old(byAddress)
                           then old(byAddress)[pool := old(byAddress)[pool].(
                                  reserve0 := reserve0, reserve1 := reserve1, lastSync := now)]
                           else old(byAddress)
    {
      hide DerivedV2, DerivedV3, KeysV2, KeysV3, OwnKeysV2, OwnKeysV3, WatchList;
      if pool in byAddress {
        FeeNumStored(byAddress, pool);
        var i := byAddress[pool].(reserve0 := reserve0, reserve1 := reserve1, lastSync := now);
        ChangeV2(byAddress, byKey, pool, i);
        ChangeOwnV2(byAddress, byKey, pool, i);
        byAddress := byAddress[pool := i];
      }
    }

    method SetV2FeeBps(pool: Address, feeBps: nat) returns (changed: bool)
      requires Coherent()
      modifies this`byAddress
      ensures Coherent() && (old(WatchExact()) ==> WatchExact()) && (old(KeysExact()) ==> KeysExact())
      ensures changed <==> pool in old(byAddress) && old(byAddress)[pool].feeBps != feeBps
      ensures !changed ==> byAddress == old(byAddress)
      ensures changed ==> byAddress == old(byAddress)[pool := old(byAddress)[pool].(
                feeBps := feeBps, feeNum := FeeNumV2(feeBps))]
    {
      hide DerivedV2, DerivedV3, KeysV2, KeysV3, OwnKeysV2, OwnKeysV3, WatchList;
      if pool !in byAddress { return false; }
      if byAddress[pool].feeBps == feeBps { return false; }
      ChangeV2(byAddress, byKey, pool, byAddress[pool].(feeBps := feeBps, feeNum := SaturatingSub(10_000, feeBps)));
      var i := byAddress[pool].(feeBps := feeBps);
      i := i.(feeNum := SaturatingSub(10_000, feeBps));
      ChangeOwnV2(byAddress, byKey, pool, i);
      byAddress := byAddress[pool := i];
      return true;
    }

    // ── Concentrated-liquidity pools ──────────────────────────────────────────────

    method InsertV3(pool: Address, state: V3State)
      requires Coherent()
      modifies this`v3ByAddress, this`v3ByKey, this`watchDirty
      ensures Coherent() && WatchExact()
      ensures v3ByAddress == old(v3ByAddress)[pool := RefreshVr(state)]
      ensures v3ByKey == old(v3ByKey)[KeyOfV3(state) := pool][KeyOfV3(state).Flip() := pool]
      ensures old(KeysExact())
              && (pool in old(v3ByAddress) ==>
                    KeyOfV3(old(v3ByAddress)[pool]) in {KeyOfV3(state), KeyOfV3(state).Flip()})
              ==> KeysExact()
    {
      hide DerivedV2, DerivedV3, KeysV2, KeysV3, OwnKeysV2, OwnKeysV3, RefreshVr;
      var stored := RefreshVr(state);
      RefreshTwice(state);
      PutV3(v3ByAddress, v3ByKey, pool, stored);
      if KeysExact()
         && (pool in v3ByAddress ==> KeyOfV3(v3ByAddress[pool]) in {KeyOfV3(state), KeyOfV3(state).Flip()})
      {
        PutOwnV3(v3ByAddress, v3ByKey, pool, stored);
      }
      v3ByKey := v3ByKey[KeyOfV3(state) := pool];
      v3ByKey := v3ByKey[KeyOfV3(state).Flip() := pool];
      v3ByAddress := v3ByAddress[pool := stored];
      watchDirty := true;
    }

    /** Registering a V4 key does not mark the list dirty: the list stays exact precisely when
        the key goes in before the pool (or the list was to be rebuilt anyway). */
    method InsertV4Key(pool: Address, key: V4Key)
      requires Coherent() && WatchExact()
      modifies this`v4Keys
      ensures Coherent() && v4Keys == old(v4Keys)[pool := key]
      ensures WatchExact() <==>
              (watchDirty || pool !in v3ByAddress || pool in old(v4Keys) || pool in byAddress)
    {
      hide DerivedV2, DerivedV3, KeysV2, KeysV3;
      ghost var before := Watched(byAddress.Keys, v3ByAddress.Keys, v4Keys.Keys);
      v4Keys := v4Keys[pool := key];
      ghost var after := Watched(byAddress.Keys, v3ByAddress.Keys, v4Keys.Keys);
      if pool in v3ByAddress && pool !in old(v4Keys) && pool !in byAddress {
        assert pool in before && pool !in after;
      } else {
        assert before == after;
      }
    }

    /** `refresh_vr` on the stored entry after one field changed. */
    method Refresh(pool: Address, state: V3State)
      requires pool in v3ByAddress && KeyOfV3(state) == KeyOfV3(v3ByAddress[pool])
      requires Coherent()
      modifies this`v3ByAddress
      ensures Coherent() && (old(WatchExact()) ==> WatchExact()) && (old(KeysExact()) ==> KeysExact())
      ensures v3ByAddress == old(v3ByAddress)[pool := RefreshVr(state)]
    {
      hide DerivedV2, DerivedV3, KeysV2, KeysV3, OwnKeysV2, OwnKeysV3, WatchList, RefreshVr;
      ChangeV3(v3ByAddress, v3ByKey, pool, state);
      ChangeOwnV3(v3ByAddress, v3ByKey, pool, RefreshVr(state)) by {
        RefreshTwice(state);
      }
      v3ByAddress := v3ByAddress[pool := RefreshVr(state)];
    }

    method UpdateV3State(pool: Address, sqrtPrice: nat, liquidity: nat, tick: int, now: nat)
      requires Coherent()
      modifies this`v3ByAddress
      ensures Coherent() && (old(WatchExact()) ==> WatchExact()) && (old(KeysExact()) ==> KeysExact())
      ensures v3ByAddress == if pool in old(v3ByAddress)
                             then old(v3ByAddress)[pool := RefreshVr(old(v3ByAddress)[pool].(
                                    sqrtPrice := sqrtPrice, liquidity := liquidity, tick := tick, lastUpdated := now))]
                             else old(v3ByAddress)
    {
      hide DerivedV2, DerivedV3, KeysV2, KeysV3, OwnKeysV2, OwnKeysV3, WatchList, RefreshVr;
      if pool in v3ByAddress {
        Refresh(pool, v3ByAddress[pool].(
                  sqrtPrice := sqrtPrice, liquidity := liquidity, tick := tick, lastUpdated := now));
      }
    }

    method ApplyV3LiquidityDelta(pool: Address, lower: int, upper: int, amount: nat, add: bool, now: nat)
      returns (changed: bool)
      requires Coherent()
      modifies this`v3ByAddress
      ensures Coherent() && (old(WatchExact()) ==> WatchExact()) && (old(KeysExact()) ==> KeysExact())
      ensures changed <==> pool in old(v3ByAddress) && amount > 0 && InRange(lower, upper, old(v3ByAddress)[pool].tick)
      ensures !changed ==> v3ByAddress == old(v3ByAddress)
      ensures changed ==> v3ByAddress == old(v3ByAddress)[pool := RefreshVr(old(v3ByAddress)[pool].(
                liquidity := ShiftLiquidity(old(v3ByAddress)[pool].liquidity, amount, add), lastUpdated := now))]
    {
      hide DerivedV2, DerivedV3, KeysV2, KeysV3, OwnKeysV2, OwnKeysV3, WatchList, RefreshVr;
      if pool !in v3ByAddress { return false; }
      var s := v3ByAddress[pool];
      if amount == 0 || !(lower <= s.tick && s.tick < upper) { return false; }
      Refresh(pool, s.(liquidity := ShiftLiquidity(s.liquidity, amount, add), lastUpdated := now));
      return true;
    }

    method SetV3SwapFee(pool: Address, swapFee: nat) returns (changed: bool)
      requires Coherent()
      modifies this`v3ByAddress
      ensures Coherent() && (old(WatchExact()) ==> WatchExact()) && (old(KeysExact()) ==> KeysExact())
      ensures changed <==> pool in old(v3ByAddress) && old(v3ByAddress)[pool].swapFee != swapFee
      ensures !changed ==> v3ByAddress == old(v3ByAddress)
      ensures changed ==> v3ByAddress == old(v3ByAddress)[pool := RefreshVr(old(v3ByAddress)[pool].(
                swapFee := swapFee))]
    {
      hide DerivedV2, DerivedV3, KeysV2, KeysV3, OwnKeysV2, OwnKeysV3, WatchList, RefreshVr;
      if pool !in v3ByAddress { return false; }
      if v3ByAddress[pool].swapFee == swapFee { return false; }
      Refresh(pool, v3ByAddress[pool].(swapFee := swapFee));
      return true;
    }

    // ── Watch list ────────────────────────────────────────────────────────────────

    method WatchAddresses() returns (addrs: seq<Address>)
      requires Coherent() && WatchExact()
      modifies this`watchAddrs, this`watchDirty
      ensures Coherent() && WatchExact() && !watchDirty
      ensures addrs == watchAddrs && WatchList(false, addrs, Watched(byAddress.Keys, v3ByAddress.Keys, v4Keys.Keys))
    {
      hide DerivedV2, DerivedV3, KeysV2, KeysV3, WatchList, Watched;
      if watchDirty {
        watchDirty := false;
        var v2 := InSomeOrder(byAddress.Keys);
        var v3 := InSomeOrder(v3ByAddress.Keys - v4Keys.Keys);
        watchAddrs := v2 + v3;
        ExactList(v2, v3, byAddress.Keys, v3ByAddress.Keys, v4Keys.Keys);
      }
      StillExact(watchDirty, watchAddrs, Watched(byAddress.Keys, v3ByAddress.Keys, v4Keys.Keys));
      return watchAddrs;
    }

    // ── Log positions ─────────────────────────────────────────────────────────────

    /** `advance_log_position`: new exactly when the log is after the stored position, which
        then moves to it; a stored position never falls. */
    method AdvanceLogPosition(pool: Address, pos: Pos) returns (isNew: bool, isOld: bool)
      modifies this`logPos
      ensures isNew <==> Before(old(StoredPos(logPos, pool)), pos)
      ensures isOld <==> Before(pos, old(StoredPos(logPos, pool)))
      ensures StoredPos(logPos, pool) == if isNew then pos else old(StoredPos(logPos, pool))
      ensures forall p :: p != pool ==> StoredPos(logPos, p) == old(StoredPos(logPos, p))
      ensures !isNew && !isOld ==> pos == StoredPos(logPos, pool)
      ensures pool !in old(logPos) ==> !isOld && (isNew <==> pos != (0, 0))
    {
      if pool !in logPos { logPos := logPos[pool := (0, 0)]; }
      isNew := Before(logPos[pool], pos);
      isOld := Before(pos, logPos[pool]);
      if isNew { logPos := logPos[pool := pos]; }
    }

    // ── Depth floor ───────────────────────────────────────────────────────────────

    /** `pool_sides`: the V2 pools, then the V3 pools. */
    method PoolSides() returns (v2: seq<Side>, v3: seq<Side>)
      ensures SetOf(v2) == SideSetV2(byAddress) && DistinctPools(v2)
      ensures SetOf(v3) == SideSetV3(v3ByAddress) && DistinctPools(v3)
    {
      var order2 := InSomeOrder(byAddress.Keys);
      var order3 := InSomeOrder(v3ByAddress.Keys);
      AllSidesV2(order2, byAddress);
      AllSidesV3(order3, v3ByAddress);
      v2, v3 := SidesV2(order2, byAddress), SidesV3(order3, v3ByAddress);
    }

    /** Afterwards the shallow set, restricted to cached pools, is exactly those whose depth at
        the pricing's prices is below the floor (for an address cached in both forms, its V3
        depth: those come last), and every shallow side is counted; a floor of zero or less
        clears the set. */
    method RecomputeShallow(known: Known, decimals: map<Address, nat>, minUsd: real)
      returns (hidden: nat, total: nat, ghost prices: Prices)
      modifies this`shallow
      ensures minUsd <= 0.0 ==> shallow == {} && hidden == 0
      ensures minUsd > 0.0 ==>
                && Priced(AllSides(byAddress, v3ByAddress), known, decimals, prices)
                && (forall s :: s in SideSetV3(v3ByAddress) ==>
                      (s.pool in shallow <==> TooShallow(prices, known, decimals, s, minUsd)))
                && (forall s :: s in SideSetV2(byAddress) && s.pool !in v3ByAddress ==>
                      (s.pool in shallow <==> TooShallow(prices, known, decimals, s, minUsd)))
                && (forall p :: p !in byAddress && p !in v3ByAddress ==> (p in shallow <==> p in old(shallow)))
                && hidden == |ShallowOf(SideSetV2(byAddress), prices, known, decimals, minUsd)|
                             + |ShallowOf(SideSetV3(v3ByAddress), prices, known, decimals, minUsd)|
    {
      hide TooShallow, Priced, ShallowOf;
      var v2, v3 := PoolSides();
      total, hidden, prices := |v2| + |v3|, 0, map[];
      if minUsd <= 0.0 {
        shallow := {};
        return;
      }
      var p := PriceTokens(v2 + v3, known, decimals);
      prices := p;
      assert SetOf(v2 + v3) == AllSides(byAddress, v3ByAddress);
      OnlyCached(v2, v3, byAddress, v3ByAddress);
      hidden := MarkShallow(v2, p, known, decimals, minUsd);
      label Second:
      var more := MarkShallow(v3, p, known, decimals, minUsd);
      hidden := hidden + more;
      assert forall a :: a !in v3ByAddress ==> (a in shallow <==> a in old@Second(shallow));
    }

    /** The marking loop of `recompute_shallow`. */
    method MarkShallow(sides: seq<Side>, prices: Prices, known: Known, decimals: map<Address, nat>, minUsd: real)
      returns (hidden: nat)
      requires DistinctPools(sides)
      modifies this`shallow
      ensures forall s :: s in SetOf(sides) ==> (s.pool in shallow <==> TooShallow(prices, known, decimals, s, minUsd))
      ensures forall a :: (forall s :: s in sides ==> s.pool != a) ==> (a in shallow <==> a in old(shallow))
      ensures hidden == |ShallowOf(SetOf(sides), prices, known, decimals, minUsd)|
    {
      hide TooShallow;
      hidden := 0;
      for i := 0 to |sides|
        invariant forall j :: 0 <= j < i ==>
                    (sides[j].pool in shallow <==> TooShallow(prices, known, decimals, sides[j], minUsd))
        invariant forall a :: (forall j :: 0 <= j < |sides| ==> sides[j].pool != a) ==>
                    (a in shallow <==> a in old(shallow))
        invariant hidden == |ShallowOf(SetOf(sides[..i]), prices, known, decimals, minUsd)|
      {
        hide ShallowOf, SetOf;
        var s := sides[i];
        SetOfNext(sides, i);
        ShallowCount(SetOf(sides[..i]), s, prices, known, decimals, minUsd);
        if TooShallow(prices, known, decimals, s, minUsd) {
          shallow := shallow + {s.pool};
          hidden := hidden + 1;
        } else {
          shallow := shallow - {s.pool};
        }
      }
      assert sides[..|sides|] == sides;
    }

    predicate IsSkipped(pool: Address)
      reads this
    {
      pool in shallow || pool in disabled
    }

    method DisablePool(pool: Address)
      modifies this`disabled
      ensures disabled == old(disabled) + {pool} && IsSkipped(pool)
    {
      disabled := disabled + {pool};
    }
  }
}
