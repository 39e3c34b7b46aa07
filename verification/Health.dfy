/** RPC health: outages, holds and their escalation (engine/src/util.rs,
    engine/src/chain/mod.rs). */
module Health {
  import opened Words

  /** Configuration is refused unless base <= max. */
  datatype Tuning = Tuning(base: nat, max: nat, window: nat, logEvery: nat) {
    predicate Valid() {
      base <= max
    }
  }

  datatype State = State(degraded: Option<nat>, hold: nat, recovered: Option<nat>)

  const HEALTHY := State(None, 0, None)

  function Clamp(x: nat, lo: nat, hi: nat): nat {
    if x < lo then lo else if x > hi then hi else x
  }

  function NextHold(tn: Tuning, prev: nat, sinceRecovery: Option<nat>): nat {
    match sinceRecovery
    case Some(t) => if t < tn.window then Clamp(prev * 2, tn.base, tn.max) else tn.base
    case None => tn.base
  }

  function Elapsed(since: Option<nat>, now: nat): Option<nat> {
    match since
    case Some(t) => Some(SaturatingSub(now, t))
    case None => None
  }

  function Mark(tn: Tuning, s: State, now: nat): State {
    if s.degraded.Some? then s
    else State(Some(now), NextHold(tn, s.hold, Elapsed(s.recovered, now)), s.recovered)
  }

  function Recovered(s: State, now: nat): State {
    if s.degraded.None? then s else State(None, s.hold, Some(now))
  }

  predicate ProbeDue(s: State, now: nat) {
    s.degraded.Some? && SaturatingSub(now, s.degraded.value) >= s.hold
  }

  predicate ReportDue(tn: Tuning, last: Option<nat>, now: nat) {
    last.None? || SaturatingSub(now, last.value) >= tn.logEvery
  }

  /** The reports made when rate limits are met at these times. */
  function Reports(tn: Tuning, last: Option<nat>, times: seq<nat>): seq<nat>
    decreases |times|
  {
    if times == [] then []
    else if ReportDue(tn, last, times[0]) then [times[0]] + Reports(tn, Some(times[0]), times[1..])
    else Reports(tn, last, times[1..])
  }

  /** No report comes less than the interval after an earlier one or after the last before. */
  ghost predicate Spaced(tn: Tuning, last: Option<nat>, reports: seq<nat>) {
    && (forall i :: 0 <= i < |reports| && last.Some? ==> reports[i] >= last.value + tn.logEvery)
    && (forall i, j :: 0 <= i < j < |reports| ==> reports[j] >= reports[i] + tn.logEvery)
  }

  /** Two reports are at least the interval apart, they are made only on rate limits, and every
      rate limit that is not reported comes less than the interval after a report. */
  lemma {:induction false} ReportsApart(tn: Tuning, last: Option<nat>, times: seq<nat>)
    requires tn.logEvery > 0 && forall i, j :: 0 <= i < j < |times| ==> times[i] <= times[j]
    requires last.Some? && times != [] ==> last.value <= times[0]
    ensures var r := Reports(tn, last, times);
            && Spaced(tn, last, r)
            && (forall t :: t in r ==> t in times)
            && (forall t :: t in times ==> t in r || CoveredBy(tn, last, r, t))
    decreases |times|
  {
    if times != [] {
      var t0, later := times[0], times[1..];
      assert times == [t0] + later;
      if ReportDue(tn, last, t0) {
        ReportsApart(tn, Some(t0), later);
        var rest := Reports(tn, Some(t0), later);
        PrependSpaced(tn, last, t0, rest);
        hide Spaced;
        forall t | t in times ensures t in [t0] + rest || CoveredBy(tn, last, [t0] + rest, t) {
          if t in later && t !in rest {
            CoverGrows(tn, last, t0, rest, t);
          }
        }
      } else {
        ReportsApart(tn, last, later);
        hide Spaced;
      }
    }
  }

  lemma PrependSpaced(tn: Tuning, last: Option<nat>, t0: nat, rest: seq<nat>)
    requires Spaced(tn, Some(t0), rest) && ReportDue(tn, last, t0) && tn.logEvery > 0
    ensures Spaced(tn, last, [t0] + rest)
  {
    var r := [t0] + rest;
    assert forall i :: 0 < i < |r| ==> r[i] == rest[i - 1];
  }

  lemma CoverGrows(tn: Tuning, last: Option<nat>, t0: nat, rest: seq<nat>, t: nat)
    requires CoveredBy(tn, Some(t0), rest, t)
    ensures CoveredBy(tn, last, [t0] + rest, t)
  {
    var r := [t0] + rest;
    if t0 <= t < t0 + tn.logEvery {
      assert r[0] <= t < r[0] + tn.logEvery;
    } else {
      var i :| 0 <= i < |rest| && rest[i] <= t < rest[i] + tn.logEvery;
      assert r[i + 1] == rest[i];
    }
  }

  /** Less than the interval after a report. */
  predicate CoveredBy(tn: Tuning, last: Option<nat>, reports: seq<nat>, t: nat) {
    (last.Some? && last.value <= t < last.value + tn.logEvery)
    || exists i :: 0 <= i < |reports| && reports[i] <= t < reports[i] + tn.logEvery
  }

  class RpcHealth {
    var degradedSince: Option<nat>
    var hold: nat
    var lastRecovered: Option<nat>
    var rateLimitLogged: Option<nat>

    constructor ()
      ensures Snapshot() == HEALTHY && rateLimitLogged == None
    {
      degradedSince, hold, lastRecovered, rateLimitLogged := None, 0, None, None;
    }

    function Snapshot(): State
      reads this
    {
      State(degradedSince, hold, lastRecovered)
    }

    /** `Some(hold)` exactly when this starts a new degraded period. */
    method MarkOutage(tn: Tuning, now: nat) returns (started: Option<nat>)
      modifies this`degradedSince, this`hold
      ensures Snapshot() == Mark(tn, old(Snapshot()), now)
      ensures started == if old(degradedSince).Some? then None else Some(hold)
    {
      if degradedSince.Some? { return None; }
      hold := NextHold(tn, hold, Elapsed(lastRecovered, now));
      degradedSince := Some(now);
      return Some(hold);
    }

    /** How long the chain was degraded, if it still was. */
    method Recover(now: nat) returns (was: Option<nat>)
      modifies this`degradedSince, this`lastRecovered
      ensures Snapshot() == Recovered(old(Snapshot()), now)
      ensures was == Elapsed(old(degradedSince), now)
    {
      if degradedSince.None? { return None; }
      var since := degradedSince.value;
      degradedSince := None;
      lastRecovered := Some(now);
      return Some(SaturatingSub(now, since));
    }

    method Clear()
      modifies this`degradedSince, this`hold, this`lastRecovered
      ensures Snapshot() == HEALTHY
    {
      degradedSince, hold, lastRecovered := None, 0, None;
    }

    /** See `ReportsApart`. */
    method RateLimitLogDue(tn: Tuning, now: nat) returns (due: bool)
      modifies this`rateLimitLogged
      ensures due == ReportDue(tn, old(rateLimitLogged), now)
      ensures rateLimitLogged == if due then Some(now) else old(rateLimitLogged)
    {
      due := rateLimitLogged.None? || SaturatingSub(now, rateLimitLogged.value) >= tn.logEvery;
      if due { rateLimitLogged := Some(now); }
    }
  }

  // ── Runs ────────────────────────────────────────────────────────────────────────

  /** A scan or the executor reports an outage; the monitor's tick checks whether a probe is
      due and its answer comes back; the chain is paused. */
  datatype Event =
    | Outage(now: nat)
    | ProbeStart(now: nat)
    | ProbeEnd(now: nat, healthy: bool)
    | Cleared

  /** A degraded period began with this hold; it ended on the answer of a probe that had left
      when there were `probe` items; or it was dropped by a pause. */
  datatype Item = Began(at: nat, hold: nat) | Ended(at: nat, probe: nat) | Dropped

  /** `probe`: the number of items when the probe now on its way left. */
  datatype World = World(state: State, probe: Option<nat>, items: seq<Item>)

  /** The monitor is one loop: it starts no probe while one is out. */
  function Apply(tn: Tuning, w: World, e: Event): World {
    match e
    case Outage(now) =>
      var s := Mark(tn, w.state, now);
      World(s, w.probe, if w.state.degraded.Some? then w.items else w.items + [Began(now, s.hold)])
    case ProbeStart(now) =>
      if w.probe.None? && ProbeDue(w.state, now) then w.(probe := Some(|w.items|)) else w
    case ProbeEnd(now, healthy) =>
      if w.probe.None? || !healthy || w.state.degraded.None? then w.(probe := None)
      else World(Recovered(w.state, now), None, w.items + [Ended(now, w.probe.value)])
    case Cleared => World(HEALTHY, w.probe, w.items + [Dropped])
  }

  function Run(tn: Tuning, w: World, es: seq<Event>): World
    decreases |es|
  {
    if es == [] then w else Run(tn, Apply(tn, w, es[0]), es[1..])
  }

  const START := World(HEALTHY, None, [])

  function Last(items: seq<Item>): Option<Item> {
    if items == [] then None else Some(items[|items| - 1])
  }

  /** Relapses in a row up to the last period: each began within the window after the
      previous one ended, with no pause in between. */
  function Relapses(tn: Tuning, items: seq<Item>): nat {
    if items == [] then 0
    else
      var before := items[..|items| - 1];
      match items[|items| - 1]
      case Dropped => 0
      case Ended(_, _) => Relapses(tn, before)
      case Began(at, _) =>
        if Last(before).Some? && Last(before).value.Ended? && SaturatingSub(at, Last(before).value.at) < tn.window
        then Relapses(tn, before) + 1
        else 0
  }

  function Pow2(k: nat): nat {
    if k == 0 then 1 else 2 * Pow2(k - 1)
  }

  /** The hold after k relapses in a row. */
  function HoldAfter(tn: Tuning, k: nat): nat {
    Min(tn.base * Pow2(k), tn.max)
  }

  /** One more relapse doubles the hold up to the maximum. */
  lemma HoldDoubles(tn: Tuning, k: nat, t: nat)
    requires tn.Valid() && t < tn.window
    ensures NextHold(tn, HoldAfter(tn, k), Some(t)) == HoldAfter(tn, k + 1)
  {
    assert tn.base * Pow2(k + 1) == 2 * (tn.base * Pow2(k));
    var p := tn.base * Pow2(k);
    assert p >= tn.base by {
      PowPositive(tn.base, k);
    }
  }

  lemma PowPositive(base: nat, k: nat)
    ensures base * Pow2(k) >= base
  {
    if k > 0 {
      PowPositive(base, k - 1);
      assert base * Pow2(k) == 2 * (base * Pow2(k - 1));
    }
  }

  /** The state is what the items say: degraded since the last beginning, with the hold that
      its relapses give. */
  predicate Matches(tn: Tuning, s: State, items: seq<Item>) {
    match Last(items)
    case None => s == HEALTHY
    case Some(Dropped) => s == HEALTHY
    case Some(Ended(at, _)) => s == State(None, HoldAfter(tn, Relapses(tn, items)), Some(at))
    case Some(Began(at, hold)) => s.degraded == Some(at) && s.hold == hold == HoldAfter(tn, Relapses(tn, items))
  }

  /** Periods never begin twice in a row, and each begins with the hold of its relapses. */
  predicate Escalates(tn: Tuning, items: seq<Item>) {
    forall i :: 0 <= i < |items| && items[i].Began? ==>
      && items[i].hold == HoldAfter(tn, Relapses(tn, items[..i + 1]))
      && (i > 0 ==> !items[i - 1].Began?)
  }

  lemma AppendItem(tn: Tuning, items: seq<Item>, x: Item)
    requires Escalates(tn, items)
    requires x.Began? ==>
               && x.hold == HoldAfter(tn, Relapses(tn, items + [x]))
               && (items != [] ==> !items[|items| - 1].Began?)
    ensures Escalates(tn, items + [x])
  {
    hide Relapses, HoldAfter;
    var all := items + [x];
    forall i | 0 <= i < |all| && all[i].Began?
      ensures all[i].hold == HoldAfter(tn, Relapses(tn, all[..i + 1])) && (i > 0 ==> !all[i - 1].Began?)
    {
      if i < |items| {
        assert all[..i + 1] == items[..i + 1];
      } else {
        assert all[..i + 1] == all;
      }
    }
  }

  lemma RelapsesAppend(tn: Tuning, items: seq<Item>, x: Item)
    ensures Relapses(tn, items + [x]) ==
            match x
            case Dropped => 0
            case Ended(_, _) => Relapses(tn, items)
            case Began(at, _) =>
              if Last(items).Some? && Last(items).value.Ended? && SaturatingSub(at, Last(items).value.at) < tn.window
              then Relapses(tn, items) + 1 else 0
    ensures Last(items + [x]) == Some(x)
  {
    assert (items + [x])[..|items|] == items;
  }

  lemma OutageKeeps(tn: Tuning, w: World, now: nat)
    requires tn.Valid() && Matches(tn, w.state, w.items) && Escalates(tn, w.items)
    ensures var w' := Apply(tn, w, Outage(now)); Matches(tn, w'.state, w'.items) && Escalates(tn, w'.items)
  {
    if w.state.degraded.None? {
      var x := Began(now, Mark(tn, w.state, now).hold);
      RelapsesAppend(tn, w.items, x);
      var k := Relapses(tn, w.items);
      assert HoldAfter(tn, 0) == tn.base;
      hide Relapses, HoldAfter, Escalates;
      match Last(w.items)
      case Some(Ended(at, _)) =>
        if SaturatingSub(now, at) < tn.window {
          HoldDoubles(tn, k, SaturatingSub(now, at));
        }
        AppendItem(tn, w.items, x);
      case _ =>
        AppendItem(tn, w.items, x);
    }
  }

  lemma ApplyKeeps(tn: Tuning, w: World, e: Event)
    requires tn.Valid() && Matches(tn, w.state, w.items) && Escalates(tn, w.items)
    ensures var w' := Apply(tn, w, e); Matches(tn, w'.state, w'.items) && Escalates(tn, w'.items)
  {
    match e
    case Outage(now) => OutageKeeps(tn, w, now);
    case ProbeStart(_) =>
    case ProbeEnd(now, _) =>
      var x := Ended(now, if w.probe.Some? then w.probe.value else 0);
      RelapsesAppend(tn, w.items, x);
      AppendItem(tn, w.items, x);
      hide Relapses, HoldAfter, Escalates;
    case Cleared =>
      RelapsesAppend(tn, w.items, Dropped);
      AppendItem(tn, w.items, Dropped);
      hide Relapses, HoldAfter, Escalates;
  }

  lemma {:induction false} RunKeeps(tn: Tuning, w: World, es: seq<Event>)
    requires tn.Valid() && Matches(tn, w.state, w.items) && Escalates(tn, w.items)
    ensures var w' := Run(tn, w, es); Matches(tn, w'.state, w'.items) && Escalates(tn, w'.items)
    decreases |es|
  {
    hide Apply, Matches, Escalates;
    if es != [] {
      ApplyKeeps(tn, w, es[0]);
      RunKeeps(tn, Apply(tn, w, es[0]), es[1..]);
    }
  }

  /** Over every run: a degraded period that is the k-th relapse in a row holds for
      min(base·2^k, max), and an outage is reported once per period: between two periods
      that begin, the first has ended or was dropped by a pause. */
  lemma HoldsEscalate(tn: Tuning, es: seq<Event>)
    requires tn.Valid()
    ensures Escalates(tn, Run(tn, START, es).items)
  {
    hide Run;
    RunKeeps(tn, START, es);
  }

  // ── Does a period last as long as its hold? ─────────────────────────────────────

  /** Period j - 1 ended, at item j, before its hold had passed. */
  predicate EndsEarly(items: seq<Item>, j: int) {
    && 0 < j < |items| && items[j].Ended? && items[j - 1].Began?
    && items[j].at < items[j - 1].at + items[j - 1].hold
  }

  /** The probe whose answer ended the period had left before the period began. */
  predicate OutWhenItBegan(items: seq<Item>, j: int) {
    0 < j < |items| && items[j].Ended? && items[j].probe <= j - 1
  }

  predicate EventTimed(now: nat, e: Event) {
    e.Cleared? || now <= e.now
  }

  function TimeAfter(now: nat, e: Event): nat {
    if e.Cleared? then now else e.now
  }

  predicate Timed(now: nat, es: seq<Event>)
    decreases |es|
  {
    es == [] || (EventTimed(now, es[0]) && Timed(TimeAfter(now, es[0]), es[1..]))
  }

  /** Every end is the end of a period, and early only if the probe was out when it began. */
  ghost predicate EarlyOnlyIfOut(items: seq<Item>) {
    forall j :: 0 <= j < |items| && items[j].Ended? ==>
      j > 0 && items[j - 1].Began? && (EndsEarly(items, j) ==> OutWhenItBegan(items, j))
  }

  /** A probe that left during the period that is on was due then. */
  ghost predicate ProbeJustified(tn: Tuning, w: World, now: nat) {
    && Matches(tn, w.state, w.items)
    && (w.state.degraded.Some? ==> w.state.degraded.value <= now)
    && (w.probe.Some? ==> w.probe.value <= |w.items|)
    && (w.state.degraded.Some? && w.probe == Some(|w.items|) ==> now >= w.state.degraded.value + w.state.hold)
    && EarlyOnlyIfOut(w.items)
  }

  lemma EndAppend(items: seq<Item>, x: Item)
    requires EarlyOnlyIfOut(items)
    requires x.Ended? ==> items != [] && items[|items| - 1].Began?
    requires EndsEarly(items + [x], |items|) ==> OutWhenItBegan(items + [x], |items|)
    ensures EarlyOnlyIfOut(items + [x])
  {
    var all := items + [x];
    forall j | 0 <= j < |all| && all[j].Ended?
      ensures j > 0 && all[j - 1].Began? && (EndsEarly(all, j) ==> OutWhenItBegan(all, j))
    {
      if j < |items| {
        assert items[j].Ended? && all[j - 1] == items[j - 1];
        assert EndsEarly(all, j) ==> EndsEarly(items, j);
      }
    }
  }

  lemma ApplyKeepsJustified(tn: Tuning, w: World, e: Event, now: nat)
    requires tn.Valid() && Escalates(tn, w.items) && ProbeJustified(tn, w, now) && EventTimed(now, e)
    ensures ProbeJustified(tn, Apply(tn, w, e), TimeAfter(now, e))
  {
    ApplyKeeps(tn, w, e);
    hide Relapses, HoldAfter, Escalates, EarlyOnlyIfOut;
    match e
    case Outage(at) => EndAppend(w.items, Began(at, Mark(tn, w.state, at).hold));
    case ProbeStart(_) =>
    case ProbeEnd(at, healthy) =>
      if w.probe.Some? && healthy && w.state.degraded.Some? {
        AnswerKeepsJustified(tn, w, at, now);
      }
    case Cleared => EndAppend(w.items, Dropped);
  }

  lemma AnswerKeepsJustified(tn: Tuning, w: World, at: nat, now: nat)
    requires tn.Valid() && ProbeJustified(tn, w, now) && now <= at && w.probe.Some? && w.state.degraded.Some?
    ensures EarlyOnlyIfOut(w.items + [Ended(at, w.probe.value)])
  {
    hide Relapses, HoldAfter, Escalates, EarlyOnlyIfOut;
    EndAppend(w.items, Ended(at, w.probe.value));
  }

  lemma {:induction false} RunKeepsJustified(tn: Tuning, w: World, es: seq<Event>, now: nat)
    requires tn.Valid() && Escalates(tn, w.items) && ProbeJustified(tn, w, now) && Timed(now, es)
    ensures EarlyOnlyIfOut(Run(tn, w, es).items)
    decreases |es|
  {
    if es != [] {
      ApplyKeepsJustified(tn, w, es[0], now);
      ApplyKeeps(tn, w, es[0]);
      hide Apply, Matches, Escalates, EarlyOnlyIfOut;
      RunKeepsJustified(tn, Apply(tn, w, es[0]), es[1..], TimeAfter(now, es[0]));
    }
  }

  /** Over every run, a degraded period that ends before its hold has passed began while the
      probe that ended it was already out. */
  lemma EarlyEndsBeganInProbe(tn: Tuning, es: seq<Event>)
    requires tn.Valid() && Timed(0, es)
    ensures var items := Run(tn, START, es).items;
            forall j :: 0 <= j < |items| && items[j].Ended? ==>
              j > 0 && items[j - 1].Began? && (EndsEarly(items, j) ==> OutWhenItBegan(items, j))
  {
    hide Run, Timed;
    RunKeepsJustified(tn, START, es, 0);
  }

  /** A probe leaves when none is out and the hold of the period that is on has passed. */
  lemma ProbeLeavesWhenDue(tn: Tuning, w: World, now: nat)
    requires w.state.degraded.Some? ==> w.state.degraded.value <= now
    ensures var w' := Apply(tn, w, ProbeStart(now));
            && w'.state == w.state && w'.items == w.items
            && (w' != w <==> w.probe.None? && w.state.degraded.Some?
                             && now >= w.state.degraded.value + w.state.hold)
  {
  }

  /** Only a healthy answer ends a period. */
  lemma UnhealthyAnswerEndsNothing(tn: Tuning, w: World, now: nat)
    ensures Apply(tn, w, ProbeEnd(now, false)) == World(w.state, None, w.items)
  {
  }

  /** No period begins while a probe is out. */
  predicate NoneBeginsDuringProbe(tn: Tuning, w: World, es: seq<Event>)
    decreases |es|
  {
    es == []
    || (!(es[0].Outage? && w.probe.Some? && w.state.degraded.None?)
        && NoneBeginsDuringProbe(tn, Apply(tn, w, es[0]), es[1..]))
  }

  /** Read off the items: the last period did not begin after the probe now out had left. */
  ghost predicate InStep(w: World) {
    && (w.probe.Some? && w.state.degraded.Some? ==> w.probe.value == |w.items|)
    && (forall j :: !OutWhenItBegan(w.items, j))
  }

  lemma ApplyKeepsInStep(tn: Tuning, w: World, e: Event)
    requires InStep(w) && !(e.Outage? && w.probe.Some? && w.state.degraded.None?)
    ensures InStep(Apply(tn, w, e))
  {
    var items' := Apply(tn, w, e).items;
    forall j ensures !OutWhenItBegan(items', j) {
      if OutWhenItBegan(items', j) && j < |w.items| {
        assert OutWhenItBegan(w.items, j);
      }
    }
  }

  lemma {:induction false} RunKeepsInStep(tn: Tuning, w: World, es: seq<Event>)
    requires InStep(w) && NoneBeginsDuringProbe(tn, w, es)
    ensures InStep(Run(tn, w, es))
    decreases |es|
  {
    if es != [] {
      ApplyKeepsInStep(tn, w, es[0]);
      hide Apply, InStep;
      RunKeepsInStep(tn, Apply(tn, w, es[0]), es[1..]);
    }
  }

  /** So every period lasts its hold if none begins while a probe is out; a pause during a
      probe does no harm by itself. */
  lemma HoldsAreKept(tn: Tuning, es: seq<Event>)
    requires tn.Valid() && Timed(0, es) && NoneBeginsDuringProbe(tn, START, es)
    ensures forall j :: !EndsEarly(Run(tn, START, es).items, j)
  {
    hide Run, Timed, NoneBeginsDuringProbe;
    EarlyEndsBeganInProbe(tn, es);
    RunKeepsInStep(tn, START, es);
  }

  /** And none less will do: wherever a period may begin while a probe is out, the probe's
      answer can end it at once. */
  lemma ProbeAnswerCutsNewPeriod(tn: Tuning, w: World, t: nat)
    requires tn.Valid() && tn.base > 0 && w.probe.Some? && w.state.degraded.None?
    ensures EndsEarly(Run(tn, w, [Outage(t), ProbeEnd(t, true)]).items, |w.items| + 1)
  {
    var es := [Outage(t), ProbeEnd(t, true)];
    assert es[1..] == [ProbeEnd(t, true)] && es[1..][1..] == [];
    var w' := Apply(tn, Apply(tn, w, es[0]), es[1]);
    assert Run(tn, Apply(tn, w, es[0]), es[1..]) == w';
    assert Run(tn, w, es) == w';
  }

  /** Such a place is reached: a pause while a probe is out. */
  lemma PauseDuringProbeCutsHold(tn: Tuning, t: nat)
    requires tn.Valid() && tn.base > 0
    ensures var u := t + tn.base;
            var es := [Outage(t), ProbeStart(u), Cleared] + [Outage(u), ProbeEnd(u, true)];
            Timed(0, es) && EndsEarly(Run(tn, START, es).items, 3)
  {
    var after := [Outage(t + tn.base), ProbeEnd(t + tn.base, true)];
    var w1 := Apply(tn, START, Outage(t));
    var w2 := Apply(tn, w1, ProbeStart(t + tn.base));
    var w3 := Apply(tn, w2, Cleared);
    assert w3 == World(HEALTHY, Some(1), [Began(t, tn.base), Dropped]);
    RunOf3(tn, Outage(t), ProbeStart(t + tn.base), Cleared, after);
    ProbeAnswerCutsNewPeriod(tn, w3, t + tn.base);
    TimedOf(t, t + tn.base);
    hide Apply, EndsEarly, Timed;
  }

  lemma RunOf3(tn: Tuning, a: Event, b: Event, c: Event, es: seq<Event>)
    ensures Run(tn, START, [a, b, c] + es) == Run(tn, Apply(tn, Apply(tn, Apply(tn, START, a), b), c), es)
  {
    hide Apply;
    var all := [a, b, c] + es;
    var w1 := Apply(tn, START, a);
    var w2 := Apply(tn, w1, b);
    assert all[1..] == [b, c] + es && ([b, c] + es)[1..] == [c] + es && ([c] + es)[1..] == es;
    assert Run(tn, w2, [c] + es) == Run(tn, Apply(tn, w2, c), es);
    assert Run(tn, w1, [b, c] + es) == Run(tn, w2, [c] + es);
  }

  lemma TimedOf(t: nat, u: nat)
    requires t <= u
    ensures Timed(0, [Outage(t), ProbeStart(u), Cleared] + [Outage(u), ProbeEnd(u, true)])
  {
    var es := [Outage(t), ProbeStart(u), Cleared] + [Outage(u), ProbeEnd(u, true)];
    assert es[1..][1..][1..] == [Outage(u), ProbeEnd(u, true)];
    assert es[1..][1..][1..][1..] == [ProbeEnd(u, true)] && es[1..][1..][1..][1..][1..] == [];
    assert Timed(u, [ProbeEnd(u, true)]);
    assert Timed(u, [Outage(u), ProbeEnd(u, true)]);
    assert Timed(u, es[1..][1..]);
    assert Timed(t, es[1..]);
  }
}
