/** Adopting rediscovered pools (engine/src/chain/maintain.rs). */
module Maintain {
  import opened Pools
  import opened PoolCaching

  ghost function ElementsOf(order: seq<Address>): set<Address> {
    set a | a in order
  }

  lemma NextElement(order: seq<Address>, i: nat)
    requires i < |order| && forall j, k :: 0 <= j < k < |order| ==> order[j] != order[k]
    ensures ElementsOf(order[..i + 1]) == ElementsOf(order[..i]) + {order[i]}
    ensures order[i] !in ElementsOf(order[..i])
  {
  }

  lemma NoElements(order: seq<Address>)
    ensures ElementsOf(order[..0]) == {}
  {
  }

  lemma AllElements(order: seq<Address>, all: set<Address>)
    requires forall x :: x in order <==> x in all
    ensures ElementsOf(order[..|order|]) == all
  {
    assert order[..|order|] == order;
  }

  /** `live` extended by those entries of `scratch` in `done` that it lacks. */
  ghost function Adopted<V>(live: map<Address, V>, scratch: map<Address, V>, done: set<Address>): map<Address, V> {
    (map p | p in done && p in scratch :: scratch[p]) + live
  }

  lemma AdoptedNext<V>(live: map<Address, V>, scratch: map<Address, V>, done: set<Address>, p: Address)
    requires p in scratch && p !in done
    ensures p in Adopted(live, scratch, done) <==> p in live
    ensures Adopted(live, scratch, done + {p})
         == if p in live then Adopted(live, scratch, done) else Adopted(live, scratch, done)[p := scratch[p]]
  {
    var before, after := Adopted(live, scratch, done), Adopted(live, scratch, done + {p});
    assert after.Keys == before.Keys + {p};
  }

  lemma CountNext(live: set<Address>, done: set<Address>, p: Address)
    requires p !in done
    ensures |(done + {p}) - live| == |done - live| + (if p in live then 0 else 1)
  {
    if p in live {
      assert (done + {p}) - live == done - live;
    } else {
      assert (done + {p}) - live == (done - live) + {p};
    }
  }

  lemma AdoptedAll<V>(live: map<Address, V>, scratch: map<Address, V>)
    ensures Adopted(live, scratch, scratch.Keys) == scratch + live
    ensures Adopted(live, scratch, {}) == live
  {
  }

  lemma StoredIsInserted(pools: map<Address, PoolInfo>, p: Address)
    requires DerivedV2(pools) && p in pools
    ensures pools[p].(feeNum := FeeNumV2(pools[p].feeBps)) == pools[p]
  {
  }

  lemma StoredIsInsertedV3(pools: map<Address, V3State>, p: Address)
    requires DerivedV3(pools) && p in pools
    ensures RefreshVr(pools[p]) == pools[p]
  {
  }

  method AdoptV2(cache: PoolCache, scratch: PoolCache) returns (added: nat)
    requires cache != scratch && cache.Coherent() && scratch.Coherent() && cache.WatchExact()
    modifies cache`byAddress, cache`byKey, cache`watchDirty
    ensures cache.Coherent() && cache.WatchExact()
    ensures cache.byAddress == scratch.byAddress + old(cache.byAddress)
    ensures added == |scratch.byAddress.Keys - old(cache.byAddress.Keys)|
  {
    hide DerivedV2, DerivedV3, KeysV2, KeysV3, OwnKeysV2, OwnKeysV3, WatchList, Watched, Adopted, ElementsOf;
    added := 0;
    ghost var live := cache.byAddress;
    var order := InSomeOrder(scratch.byAddress.Keys);
    AdoptedAll(live, scratch.byAddress);
    NoElements(order);
    for i := 0 to |order|
      invariant cache.Coherent() && cache.WatchExact()
      invariant cache.byAddress == Adopted(live, scratch.byAddress, ElementsOf(order[..i]))
      invariant added == |ElementsOf(order[..i]) - live.Keys|
    {
      var p := order[i];
      NextElement(order, i);
      AdoptedNext(live, scratch.byAddress, ElementsOf(order[..i]), p);
      CountNext(live.Keys, ElementsOf(order[..i]), p);
      if p !in cache.byAddress {
        StoredIsInserted(scratch.byAddress, p);
        cache.Insert(p, scratch.byAddress[p]);
        added := added + 1;
      }
    }
    AllElements(order, scratch.byAddress.Keys);
  }

  /** The V4 keys of those adopted pools that have one. */
  ghost function AdoptedKeys(live: map<Address, V3State>, keys: map<Address, V4Key>, scratch: map<Address, V4Key>,
                             done: set<Address>)
    : map<Address, V4Key>
  {
    keys + map p | p in done && p in scratch && p !in live :: scratch[p]
  }

  lemma AdoptedKeysNext(live: map<Address, V3State>, keys: map<Address, V4Key>, scratch: map<Address, V4Key>,
                        done: set<Address>, p: Address)
    requires p !in done
    ensures AdoptedKeys(live, keys, scratch, done + {p})
         == if p in scratch && p !in live then AdoptedKeys(live, keys, scratch, done)[p := scratch[p]]
            else AdoptedKeys(live, keys, scratch, done)
    ensures AdoptedKeys(live, keys, scratch, {}) == keys
  {
  }

  /** One scratch pool: a V4 pool's key first, so that it never shows up as a watch address. */
  method AdoptOneV3(cache: PoolCache, scratch: PoolCache, p: Address) returns (isNew: bool)
    requires cache != scratch && cache.Coherent() && scratch.Coherent() && cache.WatchExact()
    requires p in scratch.v3ByAddress
    modifies cache`v3ByAddress, cache`v3ByKey, cache`v4Keys, cache`watchDirty
    ensures cache.Coherent() && cache.WatchExact()
    ensures isNew == (p !in old(cache.v3ByAddress))
    ensures cache.v3ByAddress
         == if isNew then old(cache.v3ByAddress)[p := scratch.v3ByAddress[p]] else old(cache.v3ByAddress)
    ensures cache.v4Keys
         == if isNew && p in scratch.v4Keys then old(cache.v4Keys)[p := scratch.v4Keys[p]] else old(cache.v4Keys)
  {
    hide DerivedV2, DerivedV3, KeysV2, KeysV3, OwnKeysV2, OwnKeysV3, WatchList, Watched, RefreshVr;
    isNew := p !in cache.v3ByAddress;
    if isNew {
      if p in scratch.v4Keys {
        cache.InsertV4Key(p, scratch.v4Keys[p]);
      }
      StoredIsInsertedV3(scratch.v3ByAddress, p);
      cache.InsertV3(p, scratch.v3ByAddress[p]);
    }
  }

  method AdoptV3(cache: PoolCache, scratch: PoolCache) returns (added: nat)
    requires cache != scratch && cache.Coherent() && scratch.Coherent() && cache.WatchExact()
    modifies cache`v3ByAddress, cache`v3ByKey, cache`v4Keys, cache`watchDirty
    ensures cache.Coherent() && cache.WatchExact()
    ensures cache.v3ByAddress == scratch.v3ByAddress + old(cache.v3ByAddress)
    ensures cache.v4Keys
         == AdoptedKeys(old(cache.v3ByAddress), old(cache.v4Keys), scratch.v4Keys, scratch.v3ByAddress.Keys)
    ensures added == |scratch.v3ByAddress.Keys - old(cache.v3ByAddress.Keys)|
  {
    hide DerivedV2, DerivedV3, KeysV2, KeysV3, OwnKeysV2, OwnKeysV3, WatchList, Watched, Adopted, AdoptedKeys,
         RefreshVr, ElementsOf;
    added := 0;
    ghost var live, keys := cache.v3ByAddress, cache.v4Keys;
    var order := InSomeOrder(scratch.v3ByAddress.Keys);
    AdoptedAll(live, scratch.v3ByAddress);
    AdoptedKeysNext(live, keys, scratch.v4Keys, {}, 0);
    NoElements(order);
    for i := 0 to |order|
      invariant cache.Coherent() && cache.WatchExact()
      invariant cache.v3ByAddress == Adopted(live, scratch.v3ByAddress, ElementsOf(order[..i]))
      invariant cache.v4Keys == AdoptedKeys(live, keys, scratch.v4Keys, ElementsOf(order[..i]))
      invariant added == |ElementsOf(order[..i]) - live.Keys|
    {
      var p := order[i];
      NextElement(order, i);
      AdoptedNext(live, scratch.v3ByAddress, ElementsOf(order[..i]), p);
      CountNext(live.Keys, ElementsOf(order[..i]), p);
      AdoptedKeysNext(live, keys, scratch.v4Keys, ElementsOf(order[..i]), p);
      var isNew := AdoptOneV3(cache, scratch, p);
      if isNew { added := added + 1; }
    }
    AllElements(order, scratch.v3ByAddress.Keys);
  }

  /** `adopt_new_pools`: live pools keep their state, every scratch pool is there afterwards,
      the count is exact, and the watch list stays exact because a V4 key goes in first. */
  method AdoptNewPools(cache: PoolCache, scratch: PoolCache) returns (added: nat)
    requires cache != scratch && cache.Coherent() && scratch.Coherent() && cache.WatchExact()
    modifies cache`byAddress, cache`byKey, cache`v3ByAddress, cache`v3ByKey, cache`v4Keys, cache`watchDirty
    ensures cache.Coherent() && cache.WatchExact()
    ensures cache.byAddress == scratch.byAddress + old(cache.byAddress)
    ensures cache.v3ByAddress == scratch.v3ByAddress + old(cache.v3ByAddress)
    ensures cache.v4Keys
         == AdoptedKeys(old(cache.v3ByAddress), old(cache.v4Keys), scratch.v4Keys, scratch.v3ByAddress.Keys)
    ensures added == |scratch.byAddress.Keys - old(cache.byAddress.Keys)|
                     + |scratch.v3ByAddress.Keys - old(cache.v3ByAddress.Keys)|
  {
    hide DerivedV2, DerivedV3, KeysV2, KeysV3, OwnKeysV2, OwnKeysV3, WatchList, Watched, AdoptedKeys;
    var v2 := AdoptV2(cache, scratch);
    var v3 := AdoptV3(cache, scratch);
    return v2 + v3;
  }

  /** Adopting the same scratch cache again adds nothing and changes no pool. */
  method AdoptTwice(cache: PoolCache, scratch: PoolCache) returns (first: nat, second: nat)
    requires cache != scratch && cache.Coherent() && scratch.Coherent() && cache.WatchExact()
    modifies cache`byAddress, cache`byKey, cache`v3ByAddress, cache`v3ByKey, cache`v4Keys, cache`watchDirty
    ensures second == 0
    ensures cache.byAddress == scratch.byAddress + old(cache.byAddress)
    ensures cache.v3ByAddress == scratch.v3ByAddress + old(cache.v3ByAddress)
  {
    hide DerivedV2, DerivedV3, KeysV2, KeysV3, OwnKeysV2, OwnKeysV3, WatchList, AdoptedKeys;
    first := AdoptNewPools(cache, scratch);
    NothingLeft(scratch.byAddress, old(cache.byAddress));
    NothingLeft(scratch.v3ByAddress, old(cache.v3ByAddress));
    second := AdoptNewPools(cache, scratch);
  }

  lemma NothingLeft<V>(scratch: map<Address, V>, live: map<Address, V>)
    ensures |scratch.Keys - (scratch + live).Keys| == 0
    ensures scratch + (scratch + live) == scratch + live
  {
    assert scratch.Keys - (scratch + live).Keys == {};
  }
}
