/** What a pool's canonical logs leave behind, read off the logs themselves (engine/src/listener.rs):
    the last reserves, the last price, and the liquidity changes since. */
module LastLogs {
  import opened Arithmetic
  import opened Bytes
  import opened Feed
  import opened Pools
  import opened Words

  // ── Reserves ────────────────────────────────────────────────────────────────────

  /** The two amounts a log reports, first and second. */
  function Reported(e: Event): Option<(nat, nat)> {
    match e
    case Sync(first, second) => Some((first, second))
    case SolidlySync(data) => if |data| >= 64 then Some((FromBE(data[0..32]), FromBE(data[32..64]))) else None
    case _ => None
  }

  /** Those of the last log that reports any. */
  ghost function LastReserves(start: (nat, nat), logs: seq<Log>): (nat, nat)
    decreases |logs|
  {
    if logs == [] then start
    else
      var r := Reported(logs[|logs| - 1].event);
      if r.Some? then r.value else LastReserves(start, logs[..|logs| - 1])
  }

  // ── Price and liquidity ─────────────────────────────────────────────────────────

  /** Price and tick a log reports, in the cache's orientation: exchanged for an inverted pool. */
  function ReportedPrice(key: Option<V4Key>, e: Event): Option<(nat, int)> {
    match e
    case Swap(sqrtPrice, _, tick) => Some((sqrtPrice, tick))
    case V4Swap(sqrtPrice, _, tick) =>
      if key.None? then None
      else if key.value.Inverted() && sqrtPrice > 0 then Some((Quotient(TWO_192, sqrtPrice), -tick - 1))
      else Some((sqrtPrice, tick))
    case _ => None
  }

  ghost function LastPrice(start: (nat, int), key: Option<V4Key>, logs: seq<Log>): (nat, int)
    decreases |logs|
  {
    if logs == [] then start
    else
      var p := ReportedPrice(key, logs[|logs| - 1].event);
      if p.Some? then p.value else LastPrice(start, key, logs[..|logs| - 1])
  }

  /** The pool's own tick. */
  function PoolTick(key: V4Key, cached: int): int {
    if key.Inverted() then -cached - 1 else cached
  }

  /** The signed amount by which a log changes the liquidity active at the cached tick. */
  function ActiveChange(key: Option<V4Key>, e: Event, tick: int): int {
    match e
    case Mint(lower, upper, amount) => if lower <= tick < upper then amount else 0
    case Burn(lower, upper, amount) => if lower <= tick < upper then -(amount as int) else 0
    case V4Modify(lower, upper, delta) =>
      if key.Some? && lower <= PoolTick(key.value, tick) < upper then delta else 0
    case _ => 0
  }

  function Clamp(n: int): nat {
    if n < 0 then 0 else if n >= TWO_128 then TWO_128 - 1 else n
  }

  /** Liquidity of the last price report, and every change to the active liquidity since, each
      saturating at the width of u128. */
  ghost function LastLiquidity(start: Spot, key: Option<V4Key>, logs: seq<Log>): nat
    decreases |logs|
  {
    if logs == [] then start.liquidity
    else
      var (e, prior) := (logs[|logs| - 1].event, logs[..|logs| - 1]);
      if e.Swap? || (e.V4Swap? && key.Some?) then e.liquidity
      else
        var tick := LastPrice((start.sqrtPrice, start.tick), key, prior).1;
        Clamp(LastLiquidity(start, key, prior) + ActiveChange(key, e, tick))
  }

  /** Liquidity is a u128 wherever it is reported. */
  ghost predicate Narrow(logs: seq<Log>) {
    forall i {:trigger logs[i]} :: 0 <= i < |logs| ==>
      (logs[i].event.Swap? || logs[i].event.V4Swap? ==> logs[i].event.liquidity < TWO_128)
  }

  /** A state is what the logs leave behind. */
  ghost predicate LeftBy(start: View, logs: seq<Log>, end: View) {
    && end.reserves == (if start.reserves.None? then None else Some(LastReserves(start.reserves.value, logs)))
    && end.spot == (if start.spot.None? then None
                    else
                      var s := start.spot.value;
                      var p := LastPrice((s.sqrtPrice, s.tick), start.key, logs);
                      Some(Spot(p.0, LastLiquidity(s, start.key, logs), p.1)))
  }

  // ── The canonical fold leaves just that ─────────────────────────────────────────

  lemma {:induction false} FoldIsLast(start: View, logs: seq<Log>)
    requires Narrow(logs) && (start.spot.Some? ==> start.spot.value.liquidity < TWO_128)
    ensures LeftBy(start, logs, Fold(start, logs))
    ensures start.spot.Some? ==> LastLiquidity(start.spot.value, start.key, logs) < TWO_128
    decreases |logs|
  {
    if logs != [] {
      var n := |logs| - 1;
      FoldIsLast(start, logs[..n]);
      FoldKeeps(start, logs[..n]);
      var before, e := Fold(start, logs[..n]), logs[n].event;
      hide Fold;
      ReservesStep(before, e);
      if start.spot.Some? {
        SpotStep(before, e);
      } else {
        NoSpotStep(before, e);
      }
    }
  }

  lemma ReservesStep(v: View, e: Event)
    ensures Effect(v, e, false, true).reserves
         == if v.reserves.None? then None else if Reported(e).Some? then Reported(e) else v.reserves
  {
    hide FromBE, Shift, DeltaAmount, V4Key.ToCachePrice, V4Key.ToCacheRange;
  }

  lemma NoSpotStep(v: View, e: Event)
    requires v.spot.None?
    ensures Effect(v, e, false, true).spot == None
  {
  }

  lemma SpotStep(v: View, e: Event)
    requires v.spot.Some? && v.spot.value.liquidity < TWO_128
    ensures var s, p := v.spot.value, ReportedPrice(v.key, e);
            Effect(v, e, false, true).spot
            == if p.Some? then Some(Spot(p.value.0, e.liquidity, p.value.1))
               else Some(s.(liquidity := Clamp(s.liquidity + ActiveChange(v.key, e, s.tick))))
  {
    hide Quotient, FromBE;
  }

  /** A delivery triggers a scan exactly when it is new and reports reserves or a price. */
  lemma NotifiesOnReports(v: View, log: Log)
    ensures Notifies(v, log)
            <==> !log.removed && (log.pos.Some? ==> Before(v.pos, log.pos.value))
                 && (Reported(log.event).Some? || ReportedPrice(v.key, log.event).Some?)
  {
    hide FromBE, Quotient;
  }

  /** Whatever the interleaving of feeds, repeats and late copies: the cached reserves are those of
      the last log seen that reports any, price and tick those of the last that reports a price, and
      the liquidity that log's with every in-range change since added or taken off once. */
  lemma FeedsEndAtLastLogs(v: View, canon: seq<Log>, sched: seq<nat>)
    requires Canonical(canon) && InOrder(sched) && Frontier(sched) <= |canon|
    requires canon != [] ==> Before(v.pos, canon[0].pos.value)
    requires Narrow(canon) && (v.spot.Some? ==> v.spot.value.liquidity < TWO_128)
    ensures forall j :: 0 <= j < |sched| ==> sched[j] < |canon|
    ensures LeftBy(v, canon[..Frontier(sched)], DeliverAll(v, Deliveries(canon, sched)))
  {
    hide Fold, LastReserves, LastPrice, LastLiquidity;
    FeedsConverge(v, canon, sched);
    FoldIsLast(v, canon[..Frontier(sched)]);
  }

  /** And for a whole cache under any interleaving of the deliveries of many pools. */
  lemma WorldEndsAtLastLogs(w: Address -> View, logs: seq<Log>, p: Address, canon: seq<Log>, sched: seq<nat>)
    requires Canonical(canon) && InOrder(sched) && Frontier(sched) == |canon|
    requires canon != [] ==> Before(w(p).pos, canon[0].pos.value)
    requires forall j :: 0 <= j < |sched| ==> sched[j] < |canon|
    requires OfPool(logs, p) == Deliveries(canon, sched)
    requires Narrow(canon) && (w(p).spot.Some? ==> w(p).spot.value.liquidity < TWO_128)
    ensures LeftBy(w(p), canon, DeliverWorld(w, logs)(p))
  {
    hide Fold, LastReserves, LastPrice, LastLiquidity;
    WorldConverges(w, logs, p, canon, sched);
    FoldIsLast(w(p), canon);
  }
}
