/** Re-reading quiet pools before trading through them (engine/src/chain/scan.rs). */
module Recheck {
  import opened Pools
  import opened PoolCaching
  import opened Words

  type Reading = Option<(nat, nat)>

  /** Ages beyond which a pool counts as quiet (stable, volatile). */
  datatype Ages = Ages(stable: nat, volatile: nat)

  predicate IsQuiet(pools: map<Address, PoolInfo>, p: Address, ages: Ages, now: nat) {
    p in pools && now > pools[p].lastSync + (if pools[p].isStable then ages.stable else ages.volatile)
  }

  function QuietOn(pools: map<Address, PoolInfo>, route: seq<Address>, ages: Ages, now: nat): set<Address> {
    set p | p in route && IsQuiet(pools, p, ages, now)
  }

  /** Per route, its quiet pools. */
  function QuietOf(pools: map<Address, PoolInfo>, routes: seq<seq<Address>>, ages: Ages,
                   now: nat): (quiet: seq<set<Address>>)
    ensures |quiet| == |routes|
  {
    seq(|routes|, i requires 0 <= i < |routes| => QuietOn(pools, routes[i], ages, now))
  }

  /** Quiet pools of all candidates. */
  function AllQuiet(pools: map<Address, PoolInfo>, routes: seq<seq<Address>>, ages: Ages, now: nat): set<Address> {
    set i, p | 0 <= i < |routes| && p in QuietOn(pools, routes[i], ages, now) :: p
  }

  predicate OnSome(routes: seq<seq<Address>>, p: Address) {
    exists i :: 0 <= i < |routes| && p in routes[i]
  }

  /** A pool on a candidate's route is re-read when it has gone without a Sync for longer than its
      own kind may. */
  lemma QuietExactly(pools: map<Address, PoolInfo>, routes: seq<seq<Address>>, ages: Ages, now: nat, p: Address)
    ensures p in AllQuiet(pools, routes, ages, now)
            <==> OnSome(routes, p) && p in pools
                 && (if pools[p].isStable then now - pools[p].lastSync > ages.stable
                     else now - pools[p].lastSync > ages.volatile)
  {
    var quiet := AllQuiet(pools, routes, ages, now);
    if p in quiet {
      var i :| 0 <= i < |routes| && p in QuietOn(pools, routes[i], ages, now);
      assert p in routes[i];
    } else if OnSome(routes, p) {
      var i :| 0 <= i < |routes| && p in routes[i];
      assert p !in QuietOn(pools, routes[i], ages, now);
    }
  }

  /** What the chain says about a pool: the strategy's prefetch first, then this round's read;
      no answer counts as unreadable. */
  function ReadingOf(prefetched: map<Address, Reading>, fetched: map<Address, Reading>, p: Address): Reading {
    if p in prefetched then prefetched[p] else if p in fetched then fetched[p] else None
  }

  /** Unreadable, or not what the cache held. */
  predicate IsBad(pools: map<Address, PoolInfo>, r: Reading, p: Address) {
    r.None? || p !in pools || (pools[p].reserve0, pools[p].reserve1) != r.value
  }

  ghost function BadOf(pools: map<Address, PoolInfo>, quiet: set<Address>,
                       prefetched: map<Address, Reading>, fetched: map<Address, Reading>): set<Address> {
    set p | p in quiet && IsBad(pools, ReadingOf(prefetched, fetched, p), p)
  }

  ghost function Among(order: seq<Address>): set<Address> {
    set p | p in order
  }

  /** The routes with no bad quiet pool, in order. */
  function Kept(routes: seq<seq<Address>>, quiet: seq<set<Address>>, bad: set<Address>): (kept: seq<seq<Address>>)
    requires |routes| == |quiet|
    ensures |kept| <= |routes|
  {
    if routes == [] then []
    else if quiet[0] !! bad then [routes[0]] + Kept(routes[1..], quiet[1..], bad)
    else Kept(routes[1..], quiet[1..], bad)
  }

  /** The cache after every readable pool of `done` was stamped with its reading. */
  ghost predicate Stamped(before: map<Address, PoolInfo>, after: map<Address, PoolInfo>, done: set<Address>,
                          prefetched: map<Address, Reading>, fetched: map<Address, Reading>, now: nat) {
    && after.Keys == before.Keys
    && forall p :: p in before ==>
         var r := ReadingOf(prefetched, fetched, p);
         after[p] == if p in done && r.Some?
                     then before[p].(reserve0 := r.value.0, reserve1 := r.value.1, lastSync := now)
                     else before[p]
  }

  /** One pool stamped or found unreadable. */
  lemma StampStep(before: map<Address, PoolInfo>, after: map<Address, PoolInfo>, done: set<Address>, p: Address,
                  prefetched: map<Address, Reading>, fetched: map<Address, Reading>, now: nat)
    requires Stamped(before, after, done, prefetched, fetched, now) && p !in done
    ensures p in after <==> p in before
    ensures p in before ==> after[p] == before[p]
    ensures var r := ReadingOf(prefetched, fetched, p);
            var next := if p in after && r.Some?
                        then after[p := after[p].(reserve0 := r.value.0, reserve1 := r.value.1, lastSync := now)]
                        else after;
            Stamped(before, next, done + {p}, prefetched, fetched, now)
  {
    hide ReadingOf;
  }

  lemma BadStep(pools: map<Address, PoolInfo>, done: set<Address>, p: Address,
                prefetched: map<Address, Reading>, fetched: map<Address, Reading>)
    ensures BadOf(pools, done + {p}, prefetched, fetched)
         == BadOf(pools, done, prefetched, fetched)
            + (if IsBad(pools, ReadingOf(prefetched, fetched, p), p) then {p} else {})
  {
    hide ReadingOf, IsBad;
  }

  lemma AmongNext(order: seq<Address>, i: nat)
    requires i < |order| && forall j, k :: 0 <= j < k < |order| ==> order[j] != order[k]
    ensures Among(order[..i + 1]) == Among(order[..i]) + {order[i]} && order[i] !in Among(order[..i])
  {
  }

  /** The loop of `recheck_quiet_pools`. */
  method ConfirmPools(cache: PoolCache, quiet: set<Address>, now: nat,
                      prefetched: map<Address, Reading>, fetched: map<Address, Reading>)
    returns (bad: set<Address>)
    requires cache.Coherent()
    modifies cache`byAddress
    ensures cache.Coherent() && (old(cache.WatchExact()) ==> cache.WatchExact())
    ensures Stamped(old(cache.byAddress), cache.byAddress, quiet, prefetched, fetched, now)
    ensures bad == BadOf(old(cache.byAddress), quiet, prefetched, fetched)
  {
    hide DerivedV2, DerivedV3, KeysV2, KeysV3, OwnKeysV2, OwnKeysV3, WatchList, ReadingOf;
    ghost var before := cache.byAddress;
    var order := InSomeOrder(quiet);
    bad := {};
    assert order[..0] == [];
    for i := 0 to |order|
      invariant cache.Coherent() && (old(cache.WatchExact()) ==> cache.WatchExact())
      invariant Stamped(before, cache.byAddress, Among(order[..i]), prefetched, fetched, now)
      invariant bad == BadOf(before, Among(order[..i]), prefetched, fetched)
    {
      hide Stamped, BadOf, Among;
      var p := order[i];
      AmongNext(order, i);
      StampStep(before, cache.byAddress, Among(order[..i]), p, prefetched, fetched, now);
      BadStep(before, Among(order[..i]), p, prefetched, fetched);
      var r := ReadingOf(prefetched, fetched, p);
      if r.None? {
        bad := bad + {p};
      } else {
        if p !in cache.byAddress || (cache.byAddress[p].reserve0, cache.byAddress[p].reserve1) != r.value {
          bad := bad + {p};
        }
        cache.UpdateReserves(p, r.value.0, r.value.1, now);
      }
    }
    assert order[..|order|] == order;
    assert Among(order) == quiet;
  }

  /** What a re-read leaves of the cache: a pool on a candidate's route that went without a Sync for
      longer than its own kind may, and was readable, holds its reading from now on; nothing else
      changes. */
  ghost predicate Reread(before: map<Address, PoolInfo>, after: map<Address, PoolInfo>, routes: seq<seq<Address>>,
                         ages: Ages, now: nat, prefetched: map<Address, Reading>, fetched: map<Address, Reading>) {
    && after.Keys == before.Keys
    && forall p :: p in before ==>
         var i := before[p];
         var r := if p in prefetched then prefetched[p] else if p in fetched then fetched[p] else None;
         var due := if i.isStable then now - i.lastSync > ages.stable else now - i.lastSync > ages.volatile;
         after[p] == if OnSome(routes, p) && due && r.Some?
                     then i.(reserve0 := r.value.0, reserve1 := r.value.1, lastSync := now) else i
  }

  lemma StampedIsReread(before: map<Address, PoolInfo>, after: map<Address, PoolInfo>, routes: seq<seq<Address>>,
                        ages: Ages, now: nat, prefetched: map<Address, Reading>, fetched: map<Address, Reading>)
    requires Stamped(before, after, AllQuiet(before, routes, ages, now), prefetched, fetched, now)
    ensures Reread(before, after, routes, ages, now, prefetched, fetched)
  {
    hide AllQuiet, OnSome;
    forall p | p in before
      ensures p in AllQuiet(before, routes, ages, now)
              <==> OnSome(routes, p)
                   && (if before[p].isStable then now - before[p].lastSync > ages.stable
                       else now - before[p].lastSync > ages.volatile)
    {
      QuietExactly(before, routes, ages, now, p);
    }
  }

  /** `recheck_quiet_pools`, on the routes of the candidates: the kept ones are exactly those
      with no bad quiet pool, every readable quiet pool ends holding the on-chain reserves, and
      the drop counter grows by what was dropped. */
  method RecheckQuietPools(cache: PoolCache, routes: seq<seq<Address>>, feedLive: bool, ages: Ages, now: nat,
                           prefetched: map<Address, Reading>, fetched: map<Address, Reading>, drops: nat)
    returns (kept: seq<seq<Address>>, drops': nat)
    requires cache.Coherent()
    modifies cache`byAddress
    ensures cache.Coherent() && (old(cache.WatchExact()) ==> cache.WatchExact())
    ensures !feedLive ==> kept == routes && cache.byAddress == old(cache.byAddress)
    ensures feedLive ==>
              var before := old(cache.byAddress);
              var quiet := AllQuiet(before, routes, ages, now);
              && kept == Kept(routes, QuietOf(before, routes, ages, now), BadOf(before, quiet, prefetched, fetched))
              && Stamped(before, cache.byAddress, quiet, prefetched, fetched, now)
    ensures |kept| + (drops' - drops) == |routes| && drops' >= drops
    ensures feedLive ==> Reread(old(cache.byAddress), cache.byAddress, routes, ages, now, prefetched, fetched)
  {
    hide DerivedV2, DerivedV3, KeysV2, KeysV3, OwnKeysV2, OwnKeysV3, WatchList, Reread;
    drops' := drops;
    if !feedLive { return routes, drops; }
    ghost var before := cache.byAddress;
    var quietOf := QuietOf(cache.byAddress, routes, ages, now);
    var quiet := AllQuiet(cache.byAddress, routes, ages, now);
    if quiet == {} {
      assert BadOf(cache.byAddress, quiet, prefetched, fetched) == {};
      KeepAll(routes, quietOf, {});
      StampedIsReread(before, before, routes, ages, now, prefetched, fetched);
      return routes, drops;
    }
    hide QuietOf, AllQuiet, BadOf, Stamped;
    var bad := ConfirmPools(cache, quiet, now, prefetched, fetched);
    StampedIsReread(before, cache.byAddress, routes, ages, now, prefetched, fetched);
    kept := Kept(routes, quietOf, bad);
    drops' := drops + (|routes| - |kept|);
  }

  lemma {:induction false} KeepAll(routes: seq<seq<Address>>, quiet: seq<set<Address>>, bad: set<Address>)
    requires |routes| == |quiet| && forall i :: 0 <= i < |quiet| ==> quiet[i] !! bad
    ensures Kept(routes, quiet, bad) == routes
  {
    if routes != [] {
      KeepAll(routes[1..], quiet[1..], bad);
    }
  }

  /** Membership is decided route by route, and order is kept. */
  lemma {:induction false} KeptRouteByRoute(routes: seq<seq<Address>>, quiet: seq<set<Address>>, bad: set<Address>,
                                            i: nat)
    requires |routes| == |quiet| && i < |routes|
    ensures Kept(routes, quiet, bad)
         == Kept(routes[..i], quiet[..i], bad) + (if quiet[i] !! bad then [routes[i]] else [])
            + Kept(routes[i + 1..], quiet[i + 1..], bad)
  {
    if i > 0 {
      KeptRouteByRoute(routes[1..], quiet[1..], bad, i - 1);
      assert routes[1..][..i - 1] == routes[..i][1..] && quiet[1..][..i - 1] == quiet[..i][1..];
      assert routes[1..][i..] == routes[i + 1..] && quiet[1..][i..] == quiet[i + 1..];
    } else {
      assert routes[..0] == [] && quiet[..0] == [];
    }
  }

  /** A route is kept exactly when every quiet pool on it was readable and held what was read. */
  lemma RouteIsKeptIff(before: map<Address, PoolInfo>, routes: seq<seq<Address>>, ages: Ages, now: nat,
                       prefetched: map<Address, Reading>, fetched: map<Address, Reading>, i: nat)
    requires i < |routes|
    ensures QuietOf(before, routes, ages, now)[i]
              !! BadOf(before, AllQuiet(before, routes, ages, now), prefetched, fetched)
            <==> forall p :: p in routes[i] && p in before
                   && now - before[p].lastSync > (if before[p].isStable then ages.stable else ages.volatile)
                   ==> ReadingOf(prefetched, fetched, p) == Some((before[p].reserve0, before[p].reserve1))
    ensures forall p :: p in prefetched ==> ReadingOf(prefetched, fetched, p) == prefetched[p]
  {
    var quiet, bad := QuietOf(before, routes, ages, now)[i],
                      BadOf(before, AllQuiet(before, routes, ages, now), prefetched, fetched);
    assert quiet == QuietOn(before, routes[i], ages, now);
    assert forall p :: p in quiet ==> p in AllQuiet(before, routes, ages, now);
    assert forall p :: p in quiet ==> (p in bad <==> IsBad(before, ReadingOf(prefetched, fetched, p), p));
  }

  /** A surviving route trades only through quiet pools whose cached reserves the chain has
      just confirmed. */
  lemma SurvivorsAreConfirmed(before: map<Address, PoolInfo>, after: map<Address, PoolInfo>, quiet: set<Address>,
                              onRoute: set<Address>,
                              prefetched: map<Address, Reading>, fetched: map<Address, Reading>, now: nat, p: Address)
    requires Stamped(before, after, quiet, prefetched, fetched, now)
    requires onRoute <= quiet && onRoute !! BadOf(before, quiet, prefetched, fetched) && p in onRoute
    ensures p in before && p in after && ReadingOf(prefetched, fetched, p).Some?
    ensures (after[p].reserve0, after[p].reserve1) == ReadingOf(prefetched, fetched, p).value
         == (before[p].reserve0, before[p].reserve1)
  {
    assert p !in BadOf(before, quiet, prefetched, fetched);
  }
}
