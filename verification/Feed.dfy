/** Applying pool logs to one pool's cached state (engine/src/listener.rs), as a pure step.

    One call of `apply_log_to_cache` is one atomic step here: the code updates the stored log
    position and the pool state in two separate concurrent-map operations. */
module Feed {
  import opened Arithmetic
  import opened Bytes
  import opened Pools
  import opened Words

  /** Block number, log index. */
  type Pos = (nat, nat)

  predicate Before(a: Pos, b: Pos) {
    a.0 < b.0 || (a.0 == b.0 && a.1 < b.1)
  }

  /** The order of the chain: with fewer than m logs in a block, that of all logs counted through. */
  lemma BeforeIsChainOrder(a: Pos, b: Pos, m: nat)
    requires a.1 < m && b.1 < m
    ensures Before(a, b) <==> a.0 * m + a.1 < b.0 * m + b.1
  {
    if a.0 < b.0 {
      EarlierBlock(a.0, a.1, b.0, b.1, m);
    } else if b.0 < a.0 {
      EarlierBlock(b.0, b.1, a.0, a.1, m);
    }
  }

  lemma EarlierBlock(block: nat, index: nat, later: nat, i: nat, m: nat)
    requires block < later && index < m
    ensures block * m + index < later * m + i
  {
    MulLe(block + 1, later, m);
    Distribute(block, 1, m);
  }

  datatype Event =
    | Sync(reserve0: nat, reserve1: nat)
    | SolidlySync(data: seq<byte>)
    | Swap(sqrtPrice: nat, liquidity: nat, tick: int)
    | V4Swap(sqrtPrice: nat, liquidity: nat, tick: int)
    | V4Modify(lower: int, upper: int, delta: int)
    | Mint(lower: int, upper: int, amount: nat)
    | Burn(lower: int, upper: int, amount: nat)
    | Undecodable
    | NoTopic

  datatype Log = Log(pool: Address, removed: bool, pos: Option<Pos>, event: Event)

  /** Concentrated-liquidity part of a pool's state. */
  datatype Spot = Spot(sqrtPrice: nat, liquidity: nat, tick: int)

  /** Everything the logs of one pool can change, plus its V4 key. */
  datatype View = View(reserves: Option<(nat, nat)>, spot: Option<Spot>, key: Option<V4Key>, pos: Pos)

  /** Magnitude of a signed delta as the listener takes it. */
  function DeltaAmount(delta: int): nat {
    Min(if delta < 0 then -delta else delta, TWO_128 - 1)
  }

  /** A liquidity delta on a range: active liquidity moves only when the tick is inside. */
  function Shift(s: Spot, lower: int, upper: int, amount: nat, add: bool): Spot {
    if amount == 0 || !InRange(lower, upper, s.tick) then s
    else s.(liquidity := ShiftLiquidity(s.liquidity, amount, add))
  }

  function ShiftView(v: View, lower: int, upper: int, amount: nat, add: bool): View {
    match v.spot
    case None => v
    case Some(s) => v.(spot := Some(Shift(s, lower, upper, amount, add)))
  }

  function SetReserves(v: View, r0: nat, r1: nat): View {
    if v.reserves.None? then v else v.(reserves := Some((r0, r1)))
  }

  function SetSpot(v: View, s: Spot): View {
    if v.spot.None? then v else v.(spot := Some(s))
  }

  /** What a decoded log does to the state: absolute logs overwrite, deltas apply only when
      new and positioned. */
  function Effect(v: View, e: Event, repeat: bool, positioned: bool): View {
    match e
    case Sync(r0, r1) => SetReserves(v, r0, r1)
    case SolidlySync(data) =>
      if |data| < 64 then v else SetReserves(v, FromBE(data[0..32]), FromBE(data[32..64]))
    case Swap(s, l, t) => SetSpot(v, Spot(s, l, t))
    case V4Swap(s, l, t) =>
      (match v.key
       case None => v
       case Some(k) => SetSpot(v, Spot(k.ToCachePrice(s, t).0, l, k.ToCachePrice(s, t).1)))
    case V4Modify(lower, upper, delta) =>
      if repeat || !positioned || v.key.None? then v
      else
        var (lo, hi) := v.key.value.ToCacheRange(lower, upper);
        ShiftView(v, lo, hi, DeltaAmount(delta), delta > 0)
    case Mint(lower, upper, amount) =>
      if repeat || !positioned then v else ShiftView(v, lower, upper, amount, true)
    case Burn(lower, upper, amount) =>
      if repeat || !positioned then v else ShiftView(v, lower, upper, amount, false)
    case Undecodable => v
    case NoTopic => v
  }

  /** One log through `apply_log_to_cache`. */
  function Deliver(v: View, log: Log): View {
    if log.removed || log.event.NoTopic? then v
    else match log.pos
      case None => Effect(v, log.event, false, false)
      case Some(p) =>
        if Before(p, v.pos) then v
        else if p == v.pos then Effect(v, log.event, true, true)
        else Effect(v.(pos := p), log.event, false, true)
  }

  /** The event triggers a scan when it is recognised and new. */
  predicate Recognised(v: View, e: Event) {
    match e
    case Sync(_, _) => true
    case SolidlySync(data) => |data| >= 64
    case Swap(_, _, _) => true
    case V4Swap(_, _, _) => v.key.Some?
    case _ => false
  }

  /** Whether the call returns `Some`. */
  predicate Notifies(v: View, log: Log) {
    && !log.removed
    && Recognised(v, log.event)
    && (log.pos.Some? ==> Before(v.pos, log.pos.value))
  }

  function DeliverAll(v: View, logs: seq<Log>): View
    decreases |logs|
  {
    if logs == [] then v else Deliver(DeliverAll(v, logs[..|logs| - 1]), logs[|logs| - 1])
  }

  // ── The canonical fold ──────────────────────────────────────────────────────────

  /** Reference semantics: every log applied exactly once, in order, no positions involved. */
  function Fold(v: View, logs: seq<Log>): View
    decreases |logs|
  {
    if logs == [] then v else Effect(Fold(v, logs[..|logs| - 1]), logs[|logs| - 1].event, false, true)
  }

  /** One pool's canonical logs: positioned, not removed, in strictly increasing order. */
  ghost predicate Canonical(logs: seq<Log>) {
    && (forall i :: 0 <= i < |logs| ==> logs[i].pos.Some? && !logs[i].removed && !logs[i].event.NoTopic?)
    && (forall i, j :: 0 <= i < j < |logs| ==> Before(logs[i].pos.value, logs[j].pos.value))
  }

  /** Which canonical log each delivery is a copy of. */
  ghost function Deliveries(canon: seq<Log>, sched: seq<nat>): seq<Log>
    requires forall j :: 0 <= j < |sched| ==> sched[j] < |canon|
  {
    seq(|sched|, j requires 0 <= j < |sched| => canon[sched[j]])
  }

  /** How many distinct logs have arrived, when first copies come in order. */
  ghost function Frontier(sched: seq<nat>): nat
    decreases |sched|
  {
    if sched == [] then 0
    else
      var f := Frontier(sched[..|sched| - 1]);
      if sched[|sched| - 1] == f then f + 1 else f
  }

  /** Any feeds, repeats and late copies, as long as first copies come in canonical order. */
  ghost predicate InOrder(sched: seq<nat>)
    decreases |sched|
  {
    sched == [] ||
    (InOrder(sched[..|sched| - 1]) && sched[|sched| - 1] <= Frontier(sched[..|sched| - 1]))
  }

  lemma {:induction false} InOrderBelowFrontier(sched: seq<nat>)
    requires InOrder(sched)
    ensures forall j :: 0 <= j < |sched| ==> sched[j] < Frontier(sched)
  {
    if sched != [] {
      InOrderBelowFrontier(sched[..|sched| - 1]);
    }
  }

  // ── Convergence ─────────────────────────────────────────────────────────────────

  /** Positions play no part in what an event does. */
  lemma EffectIgnoresPosition(v: View, p: Pos, e: Event, repeat: bool, positioned: bool)
    ensures Effect(v.(pos := p), e, repeat, positioned) == Effect(v, e, repeat, positioned).(pos := p)
    ensures Effect(v, e, repeat, positioned).pos == v.pos && Effect(v, e, repeat, positioned).key == v.key
  {
  }

  /** Seeing the same log again changes nothing, absolute or relative. */
  lemma RepeatIsNoOp(v: View, e: Event)
    ensures Effect(Effect(v, e, false, true), e, true, true) == Effect(v, e, false, true)
  {
  }

  lemma {:induction false} FoldKeeps(v: View, logs: seq<Log>)
    ensures Fold(v, logs).pos == v.pos && Fold(v, logs).key == v.key
  {
    if logs != [] {
      FoldKeeps(v, logs[..|logs| - 1]);
      EffectIgnoresPosition(Fold(v, logs[..|logs| - 1]), v.pos, logs[|logs| - 1].event, false, true);
    }
  }

  /** Stored position after the first `f` canonical logs. */
  ghost function PosAfter(v: View, canon: seq<Log>, f: nat): Pos
    requires f <= |canon| && Canonical(canon)
  {
    if f == 0 then v.pos else canon[f - 1].pos.value
  }

  /** Whatever the interleaving of feeds, repeats and late copies, the cached state is the
      canonical fold of the logs seen so far, applied once each. */
  lemma {:induction false} FeedsConverge(v: View, canon: seq<Log>, sched: seq<nat>)
    requires Canonical(canon) && InOrder(sched) && Frontier(sched) <= |canon|
    requires canon != [] ==> Before(v.pos, canon[0].pos.value)
    ensures forall j :: 0 <= j < |sched| ==> sched[j] < |canon|
    ensures DeliverAll(v, Deliveries(canon, sched))
         == Fold(v, canon[..Frontier(sched)]).(pos := PosAfter(v, canon, Frontier(sched)))
  {
    InOrderBelowFrontier(sched);
    if sched == [] {
      assert Deliveries(canon, sched) == [];
      assert canon[..0] == [];
    } else {
      var prior := sched[..|sched| - 1];
      var f := Frontier(prior);
      var i := sched[|sched| - 1];
      FeedsConverge(v, canon, prior);
      var ds := Deliveries(canon, sched);
      assert ds[..|ds| - 1] == Deliveries(canon, prior);
      DeliverNext(v, canon, f, i);
    }
  }

  /** One delivery on top of the canonical state of the first `f` logs. */
  lemma DeliverNext(v: View, canon: seq<Log>, f: nat, i: nat)
    requires Canonical(canon) && f <= |canon| && i <= f && i < |canon|
    requires canon != [] ==> Before(v.pos, canon[0].pos.value)
    ensures var f' := if i == f then f + 1 else f;
            var before := Fold(v, canon[..f]).(pos := PosAfter(v, canon, f));
            Deliver(before, canon[i]) == Fold(v, canon[..f']).(pos := PosAfter(v, canon, f'))
  {
    var w := Fold(v, canon[..f]);
    var e := canon[i].event;
    FoldKeeps(v, canon[..f]);
    if i == f {
      assert canon[..f + 1][..f] == canon[..f];
      EffectIgnoresPosition(w, canon[i].pos.value, e, false, true);
    } else if i == f - 1 {
      assert canon[..f][..f - 1] == canon[..f - 1];
      RepeatIsNoOp(Fold(v, canon[..f - 1]), e);
      EffectIgnoresPosition(w, canon[i].pos.value, e, true, true);
    }
  }

  // ── All pools at once ───────────────────────────────────────────────────────────

  /** The whole cache: a log touches only its own pool. */
  ghost function DeliverWorld(w: Address -> View, logs: seq<Log>): Address -> View
    decreases |logs|
  {
    if logs == [] then w
    else
      var log := logs[|logs| - 1];
      var prior := DeliverWorld(w, logs[..|logs| - 1]);
      (p: Address) => if p == log.pool then Deliver(prior(p), log) else prior(p)
  }

  function OfPool(logs: seq<Log>, p: Address): seq<Log>
    decreases |logs|
  {
    if logs == [] then []
    else OfPool(logs[..|logs| - 1], p) + (if logs[|logs| - 1].pool == p then [logs[|logs| - 1]] else [])
  }

  lemma {:induction false} WorldIsPointwise(w: Address -> View, logs: seq<Log>, p: Address)
    ensures DeliverWorld(w, logs)(p) == DeliverAll(w(p), OfPool(logs, p))
  {
    if logs != [] {
      var last := logs[|logs| - 1];
      WorldIsPointwise(w, logs[..|logs| - 1], p);
      if last.pool == p {
        var own := OfPool(logs, p);
        assert own[..|own| - 1] == OfPool(logs[..|logs| - 1], p);
      } else {
        assert OfPool(logs, p) == OfPool(logs[..|logs| - 1], p);
      }
    }
  }

  /** Any interleaving of any number of feeds over any number of pools: each pool whose own
      deliveries are an in-order schedule of its canonical logs ends at its canonical fold. */
  lemma WorldConverges(w: Address -> View, logs: seq<Log>, p: Address, canon: seq<Log>, sched: seq<nat>)
    requires Canonical(canon) && InOrder(sched) && Frontier(sched) == |canon|
    requires canon != [] ==> Before(w(p).pos, canon[0].pos.value)
    requires forall j :: 0 <= j < |sched| ==> sched[j] < |canon|
    requires OfPool(logs, p) == Deliveries(canon, sched)
    ensures var end := DeliverWorld(w, logs)(p);
            end.reserves == Fold(w(p), canon).reserves && end.spot == Fold(w(p), canon).spot
  {
    WorldIsPointwise(w, logs, p);
    FeedsConverge(w(p), canon, sched);
    assert canon[..|canon|] == canon;
  }

  // ── Position (0, 0) ─────────────────────────────────────────────────────────────

  /** What a delta needs in order to move the active liquidity. */
  predicate Moves(spot: Option<Spot>, lower: int, upper: int, amount: nat, add: bool) {
    && spot.Some? && amount > 0 && lower <= spot.value.tick < upper
    && (if add then spot.value.liquidity != TWO_128 - 1 else spot.value.liquidity > 0)
  }

  /** The delta would move the liquidity: a cached price (and, on V4, a key), an amount, the tick
      in range, and room to move. */
  predicate MovingDelta(v: View, e: Event) {
    match e
    case Mint(lower, upper, amount) => Moves(v.spot, lower, upper, amount, true)
    case Burn(lower, upper, amount) => Moves(v.spot, lower, upper, amount, false)
    case V4Modify(lower, upper, delta) =>
      v.key.Some? && (if v.key.value.Inverted() then Moves(v.spot, -upper, -lower, DeltaAmount(delta), delta > 0)
                      else Moves(v.spot, lower, upper, DeltaAmount(delta), delta > 0))
    case _ => false
  }

  /** A fresh pool's stored position is (0, 0), so a log of exactly that position already counts
      as a repeat: its first delivery has its canonical effect exactly when it is not a delta
      that moves the liquidity. */
  lemma GenesisPositionIsARepeat(v: View, log: Log)
    requires v.pos == (0, 0) && log.pos == Some((0, 0)) && !log.removed && !log.event.NoTopic?
    ensures Deliver(v, log) == Effect(v, log.event, false, true) <==> !MovingDelta(v, log.event)
    ensures !Notifies(v, log)
  {
  }

  /** A mint in the very first log of the chain is lost. */
  lemma GenesisMintIsLost()
    ensures var v := View(None, Some(Spot(TWO_96, 1000, 0)), None, (0, 0));
            var log := Log(7, false, Some((0, 0)), Mint(-60, 60, 500));
            Deliver(v, log) == v && Effect(v, log.event, false, true).spot == Some(Spot(TWO_96, 1500, 0))
  {
  }

  // ── Notifications ───────────────────────────────────────────────────────────────

  lemma {:induction false} PositionNeverFalls(v: View, logs: seq<Log>)
    ensures !Before(DeliverAll(v, logs).pos, v.pos)
  {
    if logs != [] {
      PositionNeverFalls(v, logs[..|logs| - 1]);
      var w := DeliverAll(v, logs[..|logs| - 1]);
      var log := logs[|logs| - 1];
      EffectIgnoresPosition(w, w.pos, log.event, log.pos.Some?, log.pos.Some?);
      EffectIgnoresPosition(w, w.pos, log.event, false, false);
      if log.pos.Some? {
        EffectIgnoresPosition(w, log.pos.value, log.event, false, true);
      }
    }
  }

  lemma {:induction false} DeliverAllSplit(v: View, a: seq<Log>, b: seq<Log>)
    ensures DeliverAll(v, a + b) == DeliverAll(DeliverAll(v, a), b)
    decreases |b|
  {
    if b == [] {
      assert a + b == a;
    } else {
      DeliverAllSplit(v, a, b[..|b| - 1]);
      assert (a + b)[..|a + b| - 1] == a + b[..|b| - 1];
    }
  }

  /** In any run at all, no position of a pool triggers a scan twice. */
  lemma NotifiedOnce(v: View, before: seq<Log>, first: Log, between: seq<Log>, again: Log)
    requires first.pos.Some? && again.pos == first.pos
    requires Notifies(DeliverAll(v, before), first)
    ensures !Notifies(DeliverAll(v, before + [first] + between), again)
  {
    var w := DeliverAll(v, before);
    DeliverAllSplit(v, before + [first], between);
    DeliverAllSplit(v, before, [first]);
    assert [first][..0] == [];
    var w1 := Deliver(w, first);
    assert DeliverAll(w, [first]) == w1;
    EffectIgnoresPosition(w, first.pos.value, first.event, false, true);
    PositionNeverFalls(w1, between);
  }

  /** A position-less copy of a liquidity delta never moves liquidity. */
  lemma PositionlessDeltaIsNoOp(v: View, log: Log)
    requires log.pos.None? && (log.event.Mint? || log.event.Burn? || log.event.V4Modify?)
    ensures Deliver(v, log) == v
  {
  }

  // ── Resynchronisation ───────────────────────────────────────────────────────────

  predicate SetsSpot(v: View, e: Event) {
    e.Swap? || (e.V4Swap? && v.key.Some?)
  }

  lemma {:induction false} FoldSplit(v: View, a: seq<Log>, b: seq<Log>)
    ensures Fold(v, a + b) == Fold(Fold(v, a), b)
    decreases |b|
  {
    if b == [] {
      assert a + b == a;
    } else {
      FoldSplit(v, a, b[..|b| - 1]);
      assert (a + b)[..|a + b| - 1] == a + b[..|b| - 1];
    }
  }

  ghost predicate SameSpot(v: View, w: View) {
    v.spot == w.spot && v.key == w.key
  }

  lemma {:induction false} FoldSpotOnly(v: View, w: View, logs: seq<Log>)
    requires SameSpot(v, w)
    ensures SameSpot(Fold(v, logs), Fold(w, logs))
  {
    if logs != [] {
      FoldSpotOnly(v, w, logs[..|logs| - 1]);
    }
  }

  lemma {:induction false} FoldKeepsSpot(v: View, logs: seq<Log>)
    ensures Fold(v, logs).spot.Some? == v.spot.Some?
  {
    if logs != [] {
      FoldKeepsSpot(v, logs[..|logs| - 1]);
    }
  }

  /** However many earlier logs were missed, from the next new Swap on the pool's price, tick
      and liquidity are canonical again, for every later interleaving. */
  lemma SwapRestoresCanonicalState(start: View, v: View, canon: seq<Log>, j: nat, sched: seq<nat>)
    requires Canonical(canon) && j < |canon| && SetsSpot(v, canon[j].event)
    requires start.spot.Some? && v.spot.Some? && start.key == v.key
    requires Before(v.pos, canon[j].pos.value)
    requires InOrder(sched) && 0 < Frontier(sched) <= |canon| - j
    ensures forall i :: 0 <= i < |sched| ==> sched[i] < |canon[j..]|
    ensures DeliverAll(v, Deliveries(canon[j..], sched)).spot == Fold(start, canon[..j + Frontier(sched)]).spot
  {
    CanonicalSuffix(canon, j);
    hide Canonical, InOrder, Frontier, Deliveries, DeliverAll, Fold, PosAfter, SetsSpot;
    var rest, f := canon[j..], Frontier(sched);
    FeedsConverge(v, rest, sched);
    FoldKeeps(start, canon[..j]);
    FoldKeepsSpot(start, canon[..j]);
    FoldSplit(start, canon[..j], rest[..f]);
    SwapForgets(Fold(start, canon[..j]), v, canon[j], rest[1..f]);
    Pieces(canon, j, f);
  }

  lemma CanonicalSuffix(canon: seq<Log>, j: nat)
    requires Canonical(canon) && j < |canon|
    ensures Canonical(canon[j..]) && canon[j..][0] == canon[j]
  {
  }

  lemma Pieces(canon: seq<Log>, j: nat, f: nat)
    requires 0 < f && j + f <= |canon|
    ensures canon[..j] + canon[j..][..f] == canon[..j + f]
    ensures canon[j..][..f] == [canon[j]] + canon[j..][1..f]
  {
  }

  /** Whatever the states before a Swap, price, tick and liquidity agree from it on. */
  lemma SwapForgets(u: View, v: View, swap: Log, more: seq<Log>)
    requires SetsSpot(v, swap.event) && u.spot.Some? && v.spot.Some? && u.key == v.key
    ensures Fold(u, [swap] + more).spot == Fold(v, [swap] + more).spot
  {
    FoldSplit(u, [swap], more);
    FoldSplit(v, [swap], more);
    FoldOne(u, swap);
    FoldOne(v, swap);
    var e := swap.event;
    EffectIgnoresPosition(u, u.pos, e, false, true);
    EffectIgnoresPosition(v, v.pos, e, false, true);
    FoldSpotOnly(Effect(u, e, false, true), Effect(v, e, false, true), more);
    hide Fold;
  }

  lemma FoldOne(v: View, log: Log)
    ensures Fold(v, [log]) == Effect(v, log.event, false, true)
  {
    assert [log][..0] == [] && [log][1..] == [];
  }
}
