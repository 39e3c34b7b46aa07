/** What every scan, and every run of triggers, keeps
    (engine/src/chain/scan.rs, engine/src/chain/mod.rs). */
module ScanRuns {
  import opened Keys
  import opened Scan

  // ── Within one scan ─────────────────────────────────────────────────────────────

  /** The in-flight set is empty after every scan, so the in-flight check never fires. */
  lemma {:induction false} PendingEmptyAfterScan(cfg: Config, m: Mode, p: Progress, cs: seq<Candidate>)
    requires p.engine.pending == {}
    ensures Run(cfg, m, p, cs).engine.pending == {}
    decreases |cs|
  {
    hide Step;
    if cs != [] && !p.finished {
      StepLeavesNothingPending(cfg, m, p, cs[0]);
      PendingEmptyAfterScan(cfg, m, Step(cfg, m, p, cs[0]), cs[1..]);
    }
  }

  lemma StepLeavesNothingPending(cfg: Config, m: Mode, p: Progress, c: Candidate)
    requires p.engine.pending == {}
    ensures Step(cfg, m, p, c).engine.pending == {}
  {
    hide Opportunity.Fingerprint, Opportunity.PairId, Live, GasLogKey, OppCountKey, ActionFor, SimTimeouts,
         Error.Counts;
  }

  /** And over whole runs: nothing is ever in flight when a candidate is looked at. */
  lemma {:induction false} NothingInFlightBetweenScans(cfg: Config, w: World, es: seq<Happening>)
    requires w.engine.pending == {}
    ensures RunAll(cfg, w, es).engine.pending == {}
    decreases |es|
  {
    if es != [] {
      if es[0].Trigger? {
        var r := ResetOnResume(cfg, w);
        PendingEmptyAfterScan(cfg, es[0].mode, Start(r.engine, r.history), es[0].candidates);
      }
      hide Run, Untouched, Unexpired, ResetOnResume;
      NothingInFlightBetweenScans(cfg, Apply(cfg, w, es[0]), es[1..]);
    }
  }

  // ── Execution order ─────────────────────────────────────────────────────────────

  function SimTimeoutCount(items: seq<Item>): nat {
    if items == [] then 0
    else
      var last := items[|items| - 1];
      SimTimeoutCount(items[..|items| - 1])
      + (if last.Executed? && last.outcome.Failed? && last.outcome.error.SimTimeout() then 1 else 0)
  }

  /** A success, or a failure that takes the node for down or rate limited. */
  predicate Ends(item: Item) {
    item.Executed? && (item.outcome.Done? || item.outcome.error.HardStop())
  }

  /** May another candidate of the scan execute after these? */
  predicate MayExecuteAfter(before: seq<Item>) {
    SimTimeoutCount(before) < 2 && forall i :: 0 <= i < |before| ==> !Ends(before[i])
  }

  predicate Orderly(items: seq<Item>) {
    forall j :: 0 <= j < |items| && items[j].Executed? ==> MayExecuteAfter(items[..j])
  }

  predicate Ordered(p: Progress, n: nat) {
    && n <= |p.history|
    && Orderly(p.history[n..])
    && SimTimeoutCount(p.history[n..]) == p.simTimeouts
    && (MayExecuteAfter(p.history[n..]) || p.skip || p.action.stop || p.finished)
  }

  lemma OrderlyAppend(items: seq<Item>, x: Item)
    requires Orderly(items) && (x.Executed? ==> MayExecuteAfter(items))
    ensures Orderly(items + [x])
  {
    hide MayExecuteAfter;
    var all := items + [x];
    forall j | 0 <= j < |all| && all[j].Executed? ensures MayExecuteAfter(all[..j]) {
      if j < |items| {
        assert all[..j] == items[..j];
      } else {
        assert all[..j] == items;
      }
    }
  }

  lemma CountAppend(items: seq<Item>, x: Item)
    ensures SimTimeoutCount(items + [x])
         == SimTimeoutCount(items)
            + (if x.Executed? && x.outcome.Failed? && x.outcome.error.SimTimeout() then 1 else 0)
  {
    assert (items + [x])[..|items|] == items;
  }

  lemma MayAppend(items: seq<Item>, x: Item)
    requires MayExecuteAfter(items) && !Ends(x) && SimTimeoutCount(items + [x]) < 2
    ensures MayExecuteAfter(items + [x])
  {
  }

  /** A detection or a skipped candidate changes nothing about what may execute. */
  lemma OtherAppend(items: seq<Item>, x: Item)
    requires Orderly(items) && !x.Executed?
    ensures Orderly(items + [x]) && SimTimeoutCount(items + [x]) == SimTimeoutCount(items)
    ensures MayExecuteAfter(items) ==> MayExecuteAfter(items + [x])
  {
    OrderlyAppend(items, x);
    CountAppend(items, x);
    if MayExecuteAfter(items) {
      MayAppend(items, x);
    }
  }

  lemma ArriveKeepsOrder(cfg: Config, p: Progress, c: Candidate, n: nat)
    requires Ordered(p, n) && !p.finished
    ensures var q := Arrive(cfg, p, c); Ordered(q, n) && !q.finished && (q.action.stop ==> q.skip)
  {
    hide Opportunity.Fingerprint, Live, GasLogKey, OppCountKey, Orderly, MayExecuteAfter, SimTimeoutCount;
    var items, x := p.history[n..], Counted(c.opp, c.checked);
    OtherAppend(items, x);
    assert (p.history + [x])[n..] == items + [x];
  }

  lemma ShortKeepsOrder(cfg: Config, p: Progress, c: Candidate, n: nat)
    requires Ordered(p, n)
    ensures Ordered(RunShort(cfg, p, c), n)
  {
    hide Opportunity.Fingerprint, Orderly, MayExecuteAfter, SimTimeoutCount;
    var items, x := p.history[n..], Short(c.opp, c.checked, c.recorded);
    OtherAppend(items, x);
    assert (p.history + [x])[n..] == items + [x];
  }

  lemma SuccessKeepsOrder(cfg: Config, m: Mode, p: Progress, c: Candidate, n: nat)
    requires Ordered(p, n) && MayExecuteAfter(p.history[n..])
    ensures Ordered(Succeed(cfg, m, p, c), n)
  {
    hide Opportunity.Fingerprint, Opportunity.PairId;
    var items, x := p.history[n..], Executed(c.opp, m.dryRun, Done, c.checked, c.recorded, false);
    OrderlyAppend(items, x);
    CountAppend(items, x);
    hide Orderly, MayExecuteAfter, SimTimeoutCount;
    assert (p.history + [x])[n..] == items + [x];
  }

  lemma FailureKeepsOrder(cfg: Config, m: Mode, p: Progress, c: Candidate, n: nat)
    requires c.outcome.Failed? && Ordered(p, n) && MayExecuteAfter(p.history[n..])
    ensures Ordered(Fail(cfg, m, p, c), n)
  {
    hide Opportunity.Fingerprint, Opportunity.PairId, Live, GasLogKey, FailEngine;
    var q := Fail(cfg, m, p, c);
    var items, x := p.history[n..], q.history[|p.history|];
    OrderlyAppend(items, x);
    CountAppend(items, x);
    if !Ends(x) && SimTimeoutCount(items + [x]) < 2 {
      MayAppend(items, x);
    }
    StopsWhenItShould(c.outcome.error, q.simTimeouts);
    hide Orderly, MayExecuteAfter, SimTimeoutCount;
    assert (p.history + [x])[n..] == items + [x];
  }

  /** The merged action stops the scan on every hard stop and on a second simulation timeout. */
  lemma StopsWhenItShould(error: Error, sims: nat)
    ensures ActionFor(error, sims).stop <==> (error.HardStop() || (error.SimTimeout() && sims >= 2))
  {
  }

  /** In the error's own fields: the node is down, rate limiting, or hanging - on anything but a
      simulation at once, on simulations from the second one of the scan on. */
  predicate NodeTrouble(e: Error, sims: nat) {
    && !e.simReverted
    && (e.text == Unreachable || e.text == RateLimited || (e.text == Timeout && (!e.simFailure || sims >= 2)))
  }

  lemma StopsOnNodeTrouble(e: Error, sims: nat)
    ensures ActionFor(e, sims).stop <==> NodeTrouble(e, sims)
    ensures ActionFor(e, sims).outage <==> NodeTrouble(e, sims) && e.text != RateLimited
    ensures SimTimeouts(sims, e) == sims + (if e.simFailure && !e.simReverted && e.text == Timeout then 1 else 0)
  {
  }

  lemma ExecuteKeepsOrder(cfg: Config, m: Mode, p: Progress, c: Candidate, n: nat)
    requires Ordered(p, n) && MayExecuteAfter(p.history[n..])
    ensures Ordered(Execute(cfg, m, p, c), n)
  {
    hide Opportunity.Fingerprint, Succeed, Fail, MayExecuteAfter, Orderly, SimTimeoutCount;
    var q := p.(engine := p.engine.(pending := p.engine.pending + {c.opp.Fingerprint()}));
    if c.outcome.Done? {
      SuccessKeepsOrder(cfg, m, q, c, n);
    } else {
      FailureKeepsOrder(cfg, m, q, c, n);
    }
  }

  lemma StepKeepsOrder(cfg: Config, m: Mode, p: Progress, c: Candidate, n: nat)
    requires Ordered(p, n) && !p.finished
    ensures Ordered(Step(cfg, m, p, c), n)
  {
    hide Opportunity.Fingerprint, Opportunity.PairId, Arrive, Live, RunShort, Execute, MayExecuteAfter, Orderly,
         SimTimeoutCount;
    ArriveKeepsOrder(cfg, p, c, n);
    var q := Drop(Drop(Arrive(cfg, p, c), c.opp.Fingerprint()), c.opp.PairId());
    ShortKeepsOrder(cfg, q, c, n);
    if !q.skip {
      ExecuteKeepsOrder(cfg, m, q, c, n);
    }
  }

  lemma {:induction false} RunKeepsOrder(cfg: Config, m: Mode, p: Progress, cs: seq<Candidate>, n: nat)
    requires Ordered(p, n)
    ensures Ordered(Run(cfg, m, p, cs), n)
    decreases |cs|
  {
    hide Step, Ordered;
    if cs != [] && !p.finished {
      StepKeepsOrder(cfg, m, p, cs[0], n);
      RunKeepsOrder(cfg, m, Step(cfg, m, p, cs[0]), cs[1..], n);
    }
  }

  /** In one scan, whatever its candidates and their outcomes: nothing executes after a
      success (so at most one candidate succeeds), after an outage or a rate limit, or after
      a second simulation timeout. */
  lemma NothingExecutesAfterStop(cfg: Config, m: Mode, e: Engine, h: seq<Item>, cs: seq<Candidate>)
    ensures var h' := Run(cfg, m, Start(e, h), cs).history;
            && |h| <= |h'|
            && (forall i, j :: |h| <= i < j < |h'| && h'[j].Executed? ==> !Ends(h'[i]))
            && (forall j :: |h| <= j < |h'| && h'[j].Executed? ==> SimTimeoutCount(h'[|h|..j]) < 2)
  {
    hide Run;
    assert h[|h|..] == [];
    assert Ordered(Start(e, h), |h|);
    RunKeepsOrder(cfg, m, Start(e, h), cs, |h|);
    var h' := Run(cfg, m, Start(e, h), cs).history;
    var items := h'[|h|..];
    forall i, j | |h| <= i < j < |h'| && h'[j].Executed? ensures !Ends(h'[i]) {
      assert items[j - |h|] == h'[j] && items[..j - |h|][i - |h|] == h'[i];
    }
    forall j | |h| <= j < |h'| && h'[j].Executed? ensures SimTimeoutCount(h'[|h|..j]) < 2 {
      assert items[j - |h|] == h'[j] && items[..j - |h|] == h'[|h|..j];
    }
  }

  // ── What a scan reports ─────────────────────────────────────────────────────────

  /** An executed item whose failure is an outage, with that many simulation timeouts so far. */
  predicate Outage(x: Item, sims: nat) {
    x.Executed? && x.outcome.Failed? && NodeTrouble(x.outcome.error, sims) && x.outcome.error.text != RateLimited
  }

  predicate SawOutage(items: seq<Item>) {
    exists j :: 0 <= j < |items| && Outage(items[j], SimTimeoutCount(items[..j + 1]))
  }

  lemma SawAppend(items: seq<Item>, x: Item)
    ensures SawOutage(items + [x]) <==> SawOutage(items) || Outage(x, SimTimeoutCount(items + [x]))
  {
    hide SimTimeoutCount, Outage;
    var all := items + [x];
    assert all[..|items| + 1] == all;
    assert forall j :: 0 <= j < |items| ==> all[j] == items[j] && all[..j + 1] == items[..j + 1];
    if SawOutage(items) {
      var j :| 0 <= j < |items| && Outage(items[j], SimTimeoutCount(items[..j + 1]));
      assert Outage(all[j], SimTimeoutCount(all[..j + 1]));
    }
    if Outage(x, SimTimeoutCount(all)) {
      assert Outage(all[|items|], SimTimeoutCount(all[..|items| + 1]));
    }
  }

  predicate Reports(p: Progress, n: nat) {
    && n <= |p.history| && p.simTimeouts == SimTimeoutCount(p.history[n..])
    && (p.action.outage <==> SawOutage(p.history[n..]))
  }

  /** Whatever is noted, and whatever an executed item does to the action. */
  lemma ItemKeepsReports(p: Progress, q: Progress, n: nat, x: Item)
    requires Reports(p, n) && q.history == p.history + [x]
    requires q.simTimeouts == p.simTimeouts
             + (if x.Executed? && x.outcome.Failed? && x.outcome.error.SimTimeout() then 1 else 0)
    requires q.action.outage == (p.action.outage || Outage(x, q.simTimeouts))
    ensures Reports(q, n)
  {
    hide SimTimeoutCount, SawOutage, Outage;
    var items := p.history[n..];
    assert q.history[n..] == items + [x];
    CountAppend(items, x);
    SawAppend(items, x);
  }

  lemma StepKeepsReports(cfg: Config, m: Mode, p: Progress, c: Candidate, n: nat)
    requires Reports(p, n)
    ensures Reports(Step(cfg, m, p, c), n)
  {
    hide Opportunity.Fingerprint, Opportunity.PairId, Live, GasLogKey, OppCountKey, Reports, Attempt, Outage;
    var p1 := Arrive(cfg, p, c);
    ArriveKeepsReports(cfg, p, c, n);
    var p2 := Drop(Drop(p1, c.opp.Fingerprint()), c.opp.PairId());
    SameReports(p1, Drop(p1, c.opp.Fingerprint()), n);
    SameReports(p1, p2, n);
    AttemptKeepsReports(cfg, m, p2, c, n);
  }

  lemma SameReports(p: Progress, q: Progress, n: nat)
    requires Reports(p, n) && q.history == p.history && q.simTimeouts == p.simTimeouts && q.action == p.action
    ensures Reports(q, n)
  {
  }

  lemma ArriveKeepsReports(cfg: Config, p: Progress, c: Candidate, n: nat)
    requires Reports(p, n)
    ensures Reports(Arrive(cfg, p, c), n)
  {
    hide Opportunity.Fingerprint, Live, GasLogKey, OppCountKey, Reports;
    var q := Arrive(cfg, p, c);
    if q.history == p.history {
      SameReports(p, q, n);
    } else {
      ItemKeepsReports(p, q, n, Counted(c.opp, c.checked));
    }
  }

  lemma AttemptKeepsReports(cfg: Config, m: Mode, p: Progress, c: Candidate, n: nat)
    requires Reports(p, n)
    ensures Reports(Attempt(cfg, m, p, c), n)
  {
    hide Opportunity.Fingerprint, Opportunity.PairId, Live, GasLogKey, Reports, FailEngine;
    var q := Attempt(cfg, m, p, c);
    if q.history == p.history {
      SameReports(p, q, n);
    } else {
      var x := q.history[|p.history|];
      if x.Executed? && x.outcome.Failed? {
        StopsOnNodeTrouble(c.outcome.error, q.simTimeouts);
        StopsOnNodeTrouble(c.outcome.error, p.simTimeouts);
      }
      ItemKeepsReports(p, q, n, x);
    }
  }

  lemma {:induction false} RunKeepsReports(cfg: Config, m: Mode, p: Progress, cs: seq<Candidate>, n: nat)
    requires Reports(p, n)
    ensures Reports(Run(cfg, m, p, cs), n)
    decreases |cs|
  {
    hide Step, Reports;
    if cs != [] && !p.finished {
      StepKeepsReports(cfg, m, p, cs[0], n);
      RunKeepsReports(cfg, m, Step(cfg, m, p, cs[0]), cs[1..], n);
    }
  }

  /** A scan reports an outage exactly when one of its executions found the node down, or hanging
      on anything but a first simulation. */
  lemma OutageReportedIff(cfg: Config, m: Mode, e: Engine, h: seq<Item>, cs: seq<Candidate>)
    ensures var p := Run(cfg, m, Start(e, h), cs);
            |h| <= |p.history| && (p.action.outage <==> SawOutage(p.history[|h|..]))
  {
    hide Run;
    assert h[|h|..] == [];
    RunKeepsReports(cfg, m, Start(e, h), cs, |h|);
  }

  /** From p to q nothing was executed, and the breaker's books did not move. */
  predicate NoExecution(p: Progress, q: Progress) {
    && |p.history| <= |q.history|
    && (forall i :: |p.history| <= i < |q.history| ==> !q.history[i].Executed?)
    && (forall i :: 0 <= i < |p.history| ==> q.history[i] == p.history[i])
    && q.engine.failures == p.engine.failures && q.engine.paused == p.engine.paused
    && q.engine.attempts == p.engine.attempts && q.engine.execFailed == p.engine.execFailed
  }

  lemma NoExecutionTransitive(p: Progress, q: Progress, r: Progress)
    requires NoExecution(p, q) && NoExecution(q, r)
    ensures NoExecution(p, r)
  {
  }

  /** From the first candidate reached while the node is degraded (or after a stop) on, the
      scan executes nothing, whatever happens to the node later. */
  lemma {:induction false} DegradedScanExecutesNothing(cfg: Config, m: Mode, p: Progress, cs: seq<Candidate>)
    requires p.skip || p.action.stop || (cs != [] && cs[0].degraded)
    ensures NoExecution(p, Run(cfg, m, p, cs))
    decreases |cs|
  {
    hide Step, NoExecution;
    if cs != [] && !p.finished {
      var q := Step(cfg, m, p, cs[0]);
      DegradedStep(cfg, m, p, cs[0]);
      DegradedScanExecutesNothing(cfg, m, q, cs[1..]);
      NoExecutionTransitive(p, q, Run(cfg, m, q, cs[1..]));
    } else {
      NoExecutionRefl(p);
    }
  }

  /** A balance found too small is noted, and its route cools down, even in a scan that executes
      nothing any more. */
  lemma ShortIsNotedWhileSkipping(cfg: Config, m: Mode, p: Progress, c: Candidate)
    requires c.short && p.engine.pending == {} && (cfg.pendingOnly ==> m.tip)
    requires !Live(p.engine.cooldowns, c.opp.Fingerprint(), c.checked)
    requires !Live(p.engine.cooldowns, c.opp.PairId(), c.checked) && c.opp.BarFree()
    ensures var q := Step(cfg, m, p, c);
            && q.history != [] && q.history[|q.history| - 1] == Short(c.opp, c.checked, c.recorded)
            && c.opp.Fingerprint() in q.engine.cooldowns
            && q.engine.cooldowns[c.opp.Fingerprint()] == c.recorded + cfg.cooldown
  {
    hide Opportunity.Fingerprint, Opportunity.PairId, Opportunity.BarFree, GasLogKey, OppCountKey, Execute;
    CooldownKeysDisjoint(c.opp, c.opp);
  }

  lemma NoExecutionRefl(p: Progress)
    ensures NoExecution(p, p)
  {
  }

  lemma DegradedStep(cfg: Config, m: Mode, p: Progress, c: Candidate)
    requires p.skip || p.action.stop || c.degraded
    ensures var q := Step(cfg, m, p, c); q.skip && NoExecution(p, q)
  {
    hide Opportunity.Fingerprint, Opportunity.PairId, Live, GasLogKey, OppCountKey, Execute;
  }

  // ── Cooldown windows over whole runs ────────────────────────────────────────────

  /** Item `x` put a deadline `until` on `key`, having found `key` not cooling down at `from`. */
  predicate Opens(cfg: Config, x: Item, key: string, from: nat, until: nat) {
    match x
    case Counted(o, at) => key == OppCountKey(o.Fingerprint()) && from == at && until == at + cfg.cooldown
    case Short(o, checked, recorded) => key == o.Fingerprint() && from == checked && until == recorded + cfg.cooldown
    case Executed(o, dry, Done, checked, recorded, _) =>
      && (key == o.Fingerprint() || key == o.PairId()) && from == checked
      && until == recorded + (if dry then cfg.cooldown else cfg.sendCooldown)
    case Executed(o, dry, Failed(stage, error), checked, recorded, logged) =>
      if error.gasReject then
        logged && key == GasLogKey(o.Fingerprint()) && from == recorded && until == recorded + cfg.gasMute
      else
        && key == o.Fingerprint() && from == checked
        && until == recorded + (if dry || stage == Build then cfg.cooldown else cfg.sendCooldown)
    case Cleared(_) => false
    case Reset => false
  }

  /** Item `x` found `key` not cooling down at `from`: its route and its pair before anything
      else, the gas-reject log or the count when those were due; what is counted was not muted as a
      gas reject either. */
  predicate Checks(x: Item, key: string, from: nat) {
    match x
    case Counted(o, at) =>
      (key == OppCountKey(o.Fingerprint()) || key == GasLogKey(o.Fingerprint())) && from == at
    case Short(o, checked, _) => (key == o.Fingerprint() || key == o.PairId()) && from == checked
    case Executed(o, _, _, checked, recorded, logged) =>
      ((key == o.Fingerprint() || key == o.PairId()) && from == checked)
      || (logged && key == GasLogKey(o.Fingerprint()) && from == recorded)
    case Cleared(_) => false
    case Reset => false
  }

  /** A large swap between items i and j cleared `key`. */
  predicate ClearedBetween(h: seq<Item>, i: int, j: int, key: string) {
    exists k :: i < k < j && 0 <= k < |h| && h[k].Cleared? && Hits(h[k].ids, key)
  }

  /** Nothing gets past a key before the last deadline put on it has run out. */
  ghost predicate Apart(cfg: Config, h: seq<Item>) {
    forall i, j, key, f1: nat, u1: nat, f2: nat ::
      0 <= i < j < |h| && Opens(cfg, h[i], key, f1, u1) && Checks(h[j], key, f2) && !ClearedBetween(h, i, j, key)
      ==> u1 <= f2
  }

  /** The map still holds every deadline that has not run out and was not cleared. */
  ghost predicate Guarded(cfg: Config, h: seq<Item>, cooldowns: map<string, nat>, now: nat) {
    forall i, key, from: nat, until: nat ::
      0 <= i < |h| && Opens(cfg, h[i], key, from, until) && !ClearedBetween(h, i, |h|, key)
      ==> until <= now || (key in cooldowns && cooldowns[key] >= until)
  }

  /** Every deadline of `before` survives in `after`, has run out, or is on a key that was
      not cooling down from `now` on. */
  ghost predicate Carries(before: map<string, nat>, after: map<string, nat>, now: nat) {
    forall key :: key in before ==> before[key] <= now || (key in after && after[key] >= before[key])
  }

  ghost predicate Windows(cfg: Config, p: Progress, now: nat) {
    Apart(cfg, p.history) && Guarded(cfg, p.history, p.engine.cooldowns, now)
  }

  lemma GuardedLater(cfg: Config, h: seq<Item>, before: map<string, nat>, after: map<string, nat>, now: nat, later: nat)
    requires Guarded(cfg, h, before, now) && now <= later && Carries(before, after, later)
    ensures Guarded(cfg, h, after, later)
  {
    hide Opens, ClearedBetween;
  }

  /** Appending an item: what it opens was not cooling down, and is in the map afterwards. */
  lemma AppendOpening(cfg: Config, h: seq<Item>, before: map<string, nat>, after: map<string, nat>, now: nat,
                      later: nat, x: Item)
    requires Apart(cfg, h) && Guarded(cfg, h, before, now) && now <= later && Carries(before, after, later)
    requires !x.Cleared?
    requires forall key, from: nat :: Checks(x, key, from) ==> now <= from && !Live(before, key, from)
    requires forall key, from: nat, until: nat ::
               Opens(cfg, x, key, from, until) ==> key in after && after[key] >= until
    ensures Apart(cfg, h + [x]) && Guarded(cfg, h + [x], after, later)
  {
    hide Opens;
    GuardedLater(cfg, h, before, after, now, later);
    ClearedAppend(h, x);
    hide ClearedBetween;
  }

  lemma ClearedAppend(h: seq<Item>, x: Item)
    ensures forall i, j, key :: j <= |h| ==> ClearedBetween(h + [x], i, j, key) == ClearedBetween(h, i, j, key)
    ensures forall i, key :: ClearedBetween(h + [x], i, |h| + 1, key)
                             == (ClearedBetween(h, i, |h|, key) || (i < |h| && x.Cleared? && Hits(x.ids, key)))
  {
    forall i, j, key | j <= |h| ensures ClearedBetween(h + [x], i, j, key) == ClearedBetween(h, i, j, key) {
      ClearedPrefix(h, x, i, j, key);
    }
    forall i, key ensures ClearedBetween(h + [x], i, |h| + 1, key)
                          == (ClearedBetween(h, i, |h|, key) || (i < |h| && x.Cleared? && Hits(x.ids, key)))
    {
      ClearedPrefix(h, x, i, |h|, key);
      ClearedLast(h + [x], i, key);
    }
  }

  lemma ClearedPrefix(h: seq<Item>, x: Item, i: int, j: int, key: string)
    requires j <= |h|
    ensures ClearedBetween(h + [x], i, j, key) == ClearedBetween(h, i, j, key)
  {
    hide Hits;
    assert forall k :: 0 <= k < |h| ==> (h + [x])[k] == h[k];
  }

  lemma ClearedLast(h: seq<Item>, i: int, key: string)
    requires h != []
    ensures var n := |h| - 1;
            ClearedBetween(h, i, |h|, key)
            == (ClearedBetween(h, i, n, key) || (i < n && h[n].Cleared? && Hits(h[n].ids, key)))
  {
    hide Hits;
  }

  lemma DetectKeepsWindows(cfg: Config, p: Progress, o: Opportunity, now: nat, at: nat)
    requires Windows(cfg, p, now) && now <= at && !Live(p.engine.cooldowns, GasLogKey(o.Fingerprint()), at)
    ensures Windows(cfg, Detect(cfg, p, o, at), at)
  {
    hide Apart, Guarded, Opportunity.Fingerprint, Opportunity.PairId, OppCountKey, GasLogKey;
    var cd, q := p.engine.cooldowns, Detect(cfg, p, o, at);
    if Live(cd, OppCountKey(o.Fingerprint()), at) {
      GuardedLater(cfg, p.history, cd, cd, now, at);
    } else {
      AppendOpening(cfg, p.history, cd, q.engine.cooldowns, now, at, Counted(o, at));
    }
  }

  lemma ArriveKeepsWindows(cfg: Config, p: Progress, c: Candidate, now: nat)
    requires Windows(cfg, p, now) && now <= c.checked
    ensures Windows(cfg, Arrive(cfg, p, c), c.checked)
  {
    var q := p.(skip := p.skip || p.action.stop || c.degraded);
    if !Live(p.engine.cooldowns, GasLogKey(c.opp.Fingerprint()), c.checked) {
      DetectKeepsWindows(cfg, q, c.opp, now, c.checked);
    }
    hide Apart, Detect, Opportunity.Fingerprint, GasLogKey;
    GuardedLater(cfg, p.history, p.engine.cooldowns, p.engine.cooldowns, now, c.checked);
    hide Guarded;
  }

  lemma DropKeepsWindows(cfg: Config, p: Progress, key: string, now: nat)
    requires Windows(cfg, p, now) && !Live(p.engine.cooldowns, key, now)
    ensures Windows(cfg, Drop(p, key), now)
  {
    hide Apart;
    GuardedLater(cfg, p.history, p.engine.cooldowns, p.engine.cooldowns - {key}, now, now);
    hide Guarded;
  }

  lemma ShortKeepsWindows(cfg: Config, p: Progress, c: Candidate)
    requires Windows(cfg, p, c.checked) && c.checked <= c.recorded
    requires !Live(p.engine.cooldowns, c.opp.Fingerprint(), c.checked)
    requires !Live(p.engine.cooldowns, c.opp.PairId(), c.checked)
    ensures Windows(cfg, RunShort(cfg, p, c), c.recorded)
  {
    hide Apart, Guarded, Opportunity.Fingerprint, Opportunity.PairId;
    AppendOpening(cfg, p.history, p.engine.cooldowns, RunShort(cfg, p, c).engine.cooldowns, c.checked, c.recorded,
                  Short(c.opp, c.checked, c.recorded));
  }

  lemma SucceedKeepsWindows(cfg: Config, m: Mode, p: Progress, c: Candidate)
    requires Windows(cfg, p, c.checked) && c.checked <= c.recorded
    requires !Live(p.engine.cooldowns, c.opp.Fingerprint(), c.checked)
    requires !Live(p.engine.cooldowns, c.opp.PairId(), c.checked)
    ensures Windows(cfg, Succeed(cfg, m, p, c), c.recorded)
  {
    hide Apart, Guarded, Opportunity.Fingerprint, Opportunity.PairId;
    AppendOpening(cfg, p.history, p.engine.cooldowns, Succeed(cfg, m, p, c).engine.cooldowns, c.checked, c.recorded,
                  Executed(c.opp, m.dryRun, Done, c.checked, c.recorded, false));
  }

  lemma FailKeepsWindows(cfg: Config, m: Mode, p: Progress, c: Candidate)
    requires c.outcome.Failed?
    requires Windows(cfg, p, c.checked) && c.checked <= c.recorded
    requires !Live(p.engine.cooldowns, c.opp.Fingerprint(), c.checked)
    requires !Live(p.engine.cooldowns, c.opp.PairId(), c.checked)
    ensures Windows(cfg, Fail(cfg, m, p, c), c.recorded)
  {
    hide Apart, Guarded, Opportunity.Fingerprint, Opportunity.PairId, GasLogKey, ActionFor, SimTimeouts, Error.Counts;
    var q := Fail(cfg, m, p, c);
    AppendOpening(cfg, p.history, p.engine.cooldowns, q.engine.cooldowns, c.checked, c.recorded,
                  q.history[|p.history|]);
  }

  lemma AttemptKeepsWindows(cfg: Config, m: Mode, p: Progress, c: Candidate)
    requires Windows(cfg, p, c.checked) && c.checked <= c.recorded
    requires !Live(p.engine.cooldowns, c.opp.Fingerprint(), c.checked)
    requires !Live(p.engine.cooldowns, c.opp.PairId(), c.checked)
    ensures Windows(cfg, Attempt(cfg, m, p, c), c.recorded)
  {
    var q := p.(engine := p.engine.(pending := p.engine.pending + {c.opp.Fingerprint()}));
    GuardedLater(cfg, p.history, p.engine.cooldowns, p.engine.cooldowns, c.checked, c.recorded);
    hide Apart, Guarded, Opportunity.Fingerprint, Opportunity.PairId, Succeed, Fail, RunShort, Live;
    if c.short {
      ShortKeepsWindows(cfg, p, c);
    }
    if c.outcome.Done? {
      SucceedKeepsWindows(cfg, m, q, c);
    } else {
      FailKeepsWindows(cfg, m, q, c);
    }
  }

  lemma StepKeepsWindows(cfg: Config, m: Mode, p: Progress, c: Candidate, now: nat)
    requires Windows(cfg, p, now) && now <= c.checked <= c.recorded
    ensures Windows(cfg, Step(cfg, m, p, c), c.recorded)
  {
    var fp, id, p1 := c.opp.Fingerprint(), c.opp.PairId(), Arrive(cfg, p, c);
    ArriveKeepsWindows(cfg, p, c, now);
    WindowsLater(cfg, p1, c.checked, c.recorded);
    hide Apart, Guarded, Opportunity.Fingerprint, Opportunity.PairId, Attempt, Arrive, Windows;
    if !Live(p1.engine.cooldowns, fp, c.checked) {
      DropKeepsWindows(cfg, p1, fp, c.checked);
      var p2 := Drop(p1, fp);
      WindowsLater(cfg, p2, c.checked, c.recorded);
      if !Live(p2.engine.cooldowns, id, c.checked) {
        DropKeepsWindows(cfg, p2, id, c.checked);
        AttemptKeepsWindows(cfg, m, Drop(p2, id), c);
      }
    }
  }

  lemma WindowsLater(cfg: Config, p: Progress, now: nat, later: nat)
    requires Windows(cfg, p, now) && now <= later
    ensures Windows(cfg, p, later)
  {
    hide Apart, Opens, ClearedBetween;
  }

  // ── The clock ───────────────────────────────────────────────────────────────────

  /** Candidates are reached in order, at times that never run backwards. */
  predicate Timed(now: nat, cs: seq<Candidate>)
    decreases |cs|
  {
    cs == [] || (now <= cs[0].checked <= cs[0].recorded && Timed(cs[0].recorded, cs[1..]))
  }

  function TimeAfterScan(now: nat, cs: seq<Candidate>): nat
    decreases |cs|
  {
    if cs == [] then now else TimeAfterScan(cs[0].recorded, cs[1..])
  }

  predicate TimedHappening(now: nat, e: Happening) {
    match e
    case Prune(at) => now <= at
    case Trigger(_, _, cs) => Timed(now, cs)
    case _ => true
  }

  function TimeAfter(now: nat, e: Happening): nat {
    match e
    case Prune(at) => at
    case Trigger(_, _, cs) => TimeAfterScan(now, cs)
    case _ => now
  }

  predicate TimedRun(now: nat, es: seq<Happening>)
    decreases |es|
  {
    es == [] || (TimedHappening(now, es[0]) && TimedRun(TimeAfter(now, es[0]), es[1..]))
  }

  lemma {:induction false} ClockRuns(now: nat, cs: seq<Candidate>)
    requires Timed(now, cs)
    ensures now <= TimeAfterScan(now, cs)
    decreases |cs|
  {
    if cs != [] {
      ClockRuns(cs[0].recorded, cs[1..]);
    }
  }

  lemma {:induction false} RunKeepsWindows(cfg: Config, m: Mode, p: Progress, cs: seq<Candidate>, now: nat)
    requires Windows(cfg, p, now) && Timed(now, cs)
    ensures Windows(cfg, Run(cfg, m, p, cs), TimeAfterScan(now, cs))
    decreases |cs|
  {
    hide Step, Windows;
    if cs == [] {
    } else if p.finished {
      ClockRuns(now, cs);
      WindowsLater(cfg, p, now, TimeAfterScan(now, cs));
    } else {
      StepKeepsWindows(cfg, m, p, cs[0], now);
      RunKeepsWindows(cfg, m, Step(cfg, m, p, cs[0]), cs[1..], cs[0].recorded);
    }
  }

  ghost predicate WorldWindows(cfg: Config, w: World, now: nat) {
    Windows(cfg, Start(w.engine, w.history), now)
  }

  lemma PruneKeepsWindows(cfg: Config, w: World, now: nat, at: nat)
    requires WorldWindows(cfg, w, now) && now <= at
    ensures WorldWindows(cfg, Apply(cfg, w, Prune(at)), at)
  {
    hide Apart, Opens, ClearedBetween;
    GuardedLater(cfg, w.history, w.engine.cooldowns, Unexpired(w.engine.cooldowns, at), now, at);
    hide Guarded;
  }

  /** A large swap only drops deadlines of the keys it clears. */
  lemma ClearKeepsWindows(cfg: Config, w: World, now: nat, ids: set<string>)
    requires WorldWindows(cfg, w, now)
    ensures WorldWindows(cfg, Apply(cfg, w, LargeSwap(ids)), now)
  {
    ClearKeepsApart(cfg, w.history, ids);
    ClearKeepsGuarded(cfg, w.history, w.engine.cooldowns, now, ids);
    hide Apart, Guarded;
  }

  lemma ClearKeepsGuarded(cfg: Config, h: seq<Item>, cooldowns: map<string, nat>, now: nat, ids: set<string>)
    requires Guarded(cfg, h, cooldowns, now)
    ensures Guarded(cfg, h + [Cleared(ids)], Untouched(cooldowns, ids), now)
  {
    ClearedAppend(h, Cleared(ids));
    var h' := h + [Cleared(ids)];
    assert forall key, from: nat, until: nat :: !Opens(cfg, Cleared(ids), key, from, until);
    hide ClearedBetween, Hits, Opens;
    forall i, key, from: nat, until: nat
      | 0 <= i < |h'| && Opens(cfg, h'[i], key, from, until) && !ClearedBetween(h', i, |h'|, key)
      ensures until <= now || (key in Untouched(cooldowns, ids) && Untouched(cooldowns, ids)[key] >= until)
    {
      assert i < |h| && h'[i] == h[i];
      assert !ClearedBetween(h, i, |h|, key) && !Hits(ids, key);
    }
  }

  lemma ClearKeepsApart(cfg: Config, h: seq<Item>, ids: set<string>)
    requires Apart(cfg, h)
    ensures Apart(cfg, h + [Cleared(ids)])
  {
    ClearedAppend(h, Cleared(ids));
    hide ClearedBetween, Hits;
  }

  lemma ResetKeepsWindows(cfg: Config, w: World, now: nat)
    requires WorldWindows(cfg, w, now)
    ensures WorldWindows(cfg, ResetOnResume(cfg, w), now)
  {
    hide Apart, Guarded;
    AppendOpening(cfg, w.history, w.engine.cooldowns, w.engine.cooldowns, now, now, Reset);
  }

  lemma ApplyKeepsWindows(cfg: Config, w: World, e: Happening, now: nat)
    requires WorldWindows(cfg, w, now) && TimedHappening(now, e)
    ensures WorldWindows(cfg, Apply(cfg, w, e), TimeAfter(now, e))
  {
    match e
    case Prune(at) => PruneKeepsWindows(cfg, w, now, at);
    case LargeSwap(ids) => ClearKeepsWindows(cfg, w, now, ids);
    case SetPaused(_) =>
      hide Apart, Guarded;
    case Trigger(globalPaused, m, cs) =>
      ResetKeepsWindows(cfg, w, now);
      var r := ResetOnResume(cfg, w);
      hide Apart, Guarded, Run, ResetOnResume, Timed, TimeAfterScan;
      ClockRuns(now, cs);
      WindowsLater(cfg, Start(r.engine, r.history), now, TimeAfterScan(now, cs));
      RunKeepsWindows(cfg, m, Start(r.engine, r.history), cs, now);
  }

  lemma {:induction false} RunAllKeepsWindows(cfg: Config, w: World, es: seq<Happening>, now: nat)
    requires WorldWindows(cfg, w, now) && TimedRun(now, es)
    ensures Apart(cfg, RunAll(cfg, w, es).history)
    decreases |es|
  {
    hide Apply, Apart, Guarded, TimedHappening;
    if es != [] {
      ApplyKeepsWindows(cfg, w, es[0], now);
      RunAllKeepsWindows(cfg, Apply(cfg, w, es[0]), es[1..], TimeAfter(now, es[0]));
    }
  }

  /** Over every run of scans, prunes, large swaps, pauses and resumes: whenever a candidate
      gets past a cooldown (of its route or its pair, and of its gas-reject log or count when
      those are due), the deadline set on that key before has run out, unless a large swap
      cleared the key in between. */
  lemma WindowsNeverOverlap(cfg: Config, paused: bool, es: seq<Happening>)
    requires TimedRun(0, es)
    ensures Apart(cfg, RunAll(cfg, Fresh(paused), es).history)
  {
    assert WorldWindows(cfg, Fresh(paused), 0);
    hide Apply, Apart;
    RunAllKeepsWindows(cfg, Fresh(paused), es, 0);
  }

  /** After an acknowledged live send, nothing executes for its pair until the send cooldown is
      over, whatever the route and however the attempt ends, unless a large swap cleared the
      pair in between. */
  lemma LiveSendsApart(cfg: Config, paused: bool, es: seq<Happening>, i: nat, j: nat)
    requires TimedRun(0, es)
    requires var h := RunAll(cfg, Fresh(paused), es).history;
             i < j < |h| && LiveSend(h[i]) && h[j].Executed? && h[i].opp.PairId() == h[j].opp.PairId()
             && !ClearedBetween(h, i, j, h[i].opp.PairId())
    ensures var h := RunAll(cfg, Fresh(paused), es).history;
            h[j].checked >= h[i].recorded + cfg.sendCooldown
  {
    WindowsNeverOverlap(cfg, paused, es);
    hide RunAll, ClearedBetween;
    var h := RunAll(cfg, Fresh(paused), es).history;
    var id := h[i].opp.PairId();
    assert Opens(cfg, h[i], id, h[i].checked, h[i].recorded + cfg.sendCooldown);
    assert Checks(h[j], id, h[j].checked);
  }

  predicate LiveSend(x: Item) {
    x.Executed? && !x.dryRun && x.outcome.Done?
  }

  // ── A send that is not acknowledged does not space its pair ─────────────────────

  const FIFTEEN: Config := Config(15, 15, 60, 20, false)
  const ROUTE_A: Opportunity := TwoHop("ab", "r", 500, "s", 500, 1)
  const ROUTE_B: Opportunity := TwoHop("ab", "r", 3000, "s", 500, 1)

  /** The send times out, so that the transaction may still land. */
  const TIMED_OUT: Candidate :=
    Candidate(ROUTE_A, 1, 2, false, false, Failed(Send, Error(Timeout, false, false, false)))

  const SENT: Candidate := Candidate(ROUTE_B, 3, 4, false, false, Done)

  /** A first send of unknown outcome at second 2 and a second live send of the same pair, on
      another fee tier, at second 3, with a send cooldown of 15 seconds. */
  lemma UnknownSendDoesNotSpace()
    ensures var es := [Trigger(false, Mode(false, false), [TIMED_OUT]), Trigger(false, Mode(false, false), [SENT])];
            TimedRun(0, es)
            && RunAll(FIFTEEN, Fresh(false), es).history
            == [Counted(ROUTE_A, 1), Executed(ROUTE_A, false, TIMED_OUT.outcome, 1, 2, false),
                Counted(ROUTE_B, 3), Executed(ROUTE_B, false, Done, 3, 4, false)]
    ensures ROUTE_A.PairId() == ROUTE_B.PairId() && 3 < 2 + FIFTEEN.sendCooldown
  {
    var live := Mode(false, false);
    var e1, e2 := Trigger(false, live, [TIMED_OUT]), Trigger(false, live, [SENT]);
    FirstScan();
    SecondScan();
    var w1 := Apply(FIFTEEN, Fresh(false), e1);
    RunOfTwo(FIFTEEN, Fresh(false), e1, e2);
    TimedOfTwo(live);
  }

  /** The engine after the first send. */
  function AfterTimeout(): World {
    World(Engine({}, map[OppCountKey(ROUTE_A.Fingerprint()) := 16, ROUTE_A.Fingerprint() := 17], 0, false, 0, 0, 1),
          [Counted(ROUTE_A, 1), Executed(ROUTE_A, false, TIMED_OUT.outcome, 1, 2, false)])
  }

  lemma FirstScan()
    ensures Apply(FIFTEEN, Fresh(false), Trigger(false, Mode(false, false), [TIMED_OUT])) == AfterTimeout()
  {
    var live, p := Mode(false, false), Start(Fresh(false).engine, []);
    CooldownKeysDisjoint(ROUTE_A, ROUTE_A);
    hide Opportunity.Fingerprint, GasLogKey, OppCountKey;
    RunOfOne(FIFTEEN, live, p, TIMED_OUT);
    var q := Arrive(FIFTEEN, p, TIMED_OUT);
    assert q.engine.cooldowns == map[OppCountKey(ROUTE_A.Fingerprint()) := 16];
    assert Drop(Drop(q, ROUTE_A.Fingerprint()), ROUTE_A.PairId()).engine.cooldowns == q.engine.cooldowns;
    hide Run;
  }

  lemma SecondScan()
    ensures Apply(FIFTEEN, AfterTimeout(), Trigger(false, Mode(false, false), [SENT])).history
         == AfterTimeout().history + [Counted(ROUTE_B, 3), Executed(ROUTE_B, false, Done, 3, 4, false)]
  {
    var live, p := Mode(false, false), Start(AfterTimeout().engine, AfterTimeout().history);
    CooldownKeysDisjoint(ROUTE_A, ROUTE_B);
    CooldownKeysDisjoint(ROUTE_B, ROUTE_A);
    CooldownKeysDisjoint(ROUTE_B, ROUTE_B);
    LogKeysInjective(ROUTE_A.Fingerprint(), ROUTE_B.Fingerprint());
    if ROUTE_A.Fingerprint() == ROUTE_B.Fingerprint() {
      FingerprintInjective(ROUTE_A, ROUTE_B);
    }
    hide Opportunity.Fingerprint, GasLogKey, OppCountKey;
    RunOfOne(FIFTEEN, live, p, SENT);
    hide Run;
  }

  lemma RunOfOne(cfg: Config, m: Mode, p: Progress, c: Candidate)
    requires !p.finished
    ensures Run(cfg, m, p, [c]) == Step(cfg, m, p, c)
  {
    hide Step;
    assert [c][1..] == [];
  }

  lemma RunOfTwo(cfg: Config, w: World, a: Happening, b: Happening)
    ensures RunAll(cfg, w, [a, b]) == Apply(cfg, Apply(cfg, w, a), b)
  {
    hide Apply;
    assert [a, b][1..] == [b] && [b][1..] == [];
    assert RunAll(cfg, Apply(cfg, w, a), [b]) == Apply(cfg, Apply(cfg, w, a), b);
  }

  lemma TimedOfTwo(m: Mode)
    ensures TimedRun(0, [Trigger(false, m, [TIMED_OUT]), Trigger(false, m, [SENT])])
  {
    var a, b := Trigger(false, m, [TIMED_OUT]), Trigger(false, m, [SENT]);
    assert [a, b][1..] == [b] && [b][1..] == [];
    TimedOfOne(0, TIMED_OUT);
    TimedOfOne(2, SENT);
    assert TimedRun(2, [b]);
  }

  lemma TimedOfOne(now: nat, c: Candidate)
    requires now <= c.checked <= c.recorded
    ensures Timed(now, [c]) && TimeAfterScan(now, [c]) == c.recorded
  {
    assert [c][1..] == [];
    assert Timed(c.recorded, []) && TimeAfterScan(c.recorded, []) == c.recorded;
  }

  // ── Four uses of one map never interfere ────────────────────────────────────────

  /** Whose windows a key can belong to: a route's fingerprint is only ever held by that very
      route, its pair id only by a success on that pair, its gas-log and count keys only by
      its own gas rejects and detections. */
  lemma WindowOwner(cfg: Config, x: Item, o: Opportunity, key: string, from: nat, until: nat)
    requires Opens(cfg, x, key, from, until) && x.opp.BarFree() && o.BarFree()
    ensures key == o.Fingerprint() ==> x.opp == o && (x.Short? || (x.Executed? && !GasReject(x)))
    ensures key == o.PairId() ==> x.opp.PairId() == o.PairId() && x.Executed? && x.outcome.Done?
    ensures key == GasLogKey(o.Fingerprint()) ==> x.opp == o && GasReject(x)
    ensures key == OppCountKey(o.Fingerprint()) ==> x.opp == o && x.Counted?
  {
    var f, f' := o.Fingerprint(), x.opp.Fingerprint();
    CooldownKeysDisjoint(o, x.opp);
    CooldownKeysDisjoint(x.opp, o);
    LogKeysInjective(f, f');
    if f == f' {
      FingerprintInjective(o, x.opp);
    }
    hide Opportunity.Fingerprint, Opportunity.PairId, Opportunity.BarFree, GasLogKey, OppCountKey;
  }

  predicate GasReject(x: Item) {
    x.Executed? && x.outcome.Failed? && x.outcome.error.gasReject
  }

  /** A failed attempt, even a send that may still land, cools no pair down; a gas reject
      cools no route down either. */
  lemma FailureCoolsNoPair(cfg: Config, m: Mode, p: Progress, c: Candidate, o: Opportunity, now: nat)
    requires c.outcome.Failed? && c.opp.BarFree() && o.BarFree()
    ensures var after := Fail(cfg, m, p, c).engine.cooldowns;
            && Live(after, o.PairId(), now) == Live(p.engine.cooldowns, o.PairId(), now)
            && (c.outcome.error.gasReject || o != c.opp ==>
                  Live(after, o.Fingerprint(), now) == Live(p.engine.cooldowns, o.Fingerprint(), now))
  {
    hide Opportunity.Fingerprint, Opportunity.PairId, Opportunity.BarFree, GasLogKey, OppCountKey, Error.Counts,
         ActionFor, SimTimeouts;
    CooldownKeysDisjoint(o, c.opp);
    CooldownKeysDisjoint(c.opp, o);
    if o.Fingerprint() == c.opp.Fingerprint() {
      FingerprintInjective(o, c.opp);
    }
  }

  /** Counting a detection cools neither routes nor pairs down, and mutes no gas log. */
  lemma CountingCoolsNothing(cfg: Config, p: Progress, o: Opportunity, o': Opportunity, at: nat, now: nat)
    requires o.BarFree() && o'.BarFree()
    ensures var before, after := p.engine.cooldowns, Detect(cfg, p, o, at).engine.cooldowns;
            && Live(after, o'.PairId(), now) == Live(before, o'.PairId(), now)
            && Live(after, o'.Fingerprint(), now) == Live(before, o'.Fingerprint(), now)
            && Live(after, GasLogKey(o'.Fingerprint()), now) == Live(before, GasLogKey(o'.Fingerprint()), now)
  {
    hide Opportunity.Fingerprint, Opportunity.PairId, Opportunity.BarFree, GasLogKey, OppCountKey;
    CooldownKeysDisjoint(o, o');
    CooldownKeysDisjoint(o', o);
  }

  /** A large swap leaves a key live exactly when it was live and contains none of the ids, and
      frees all four keys of every route whose pair id contains one of them. */
  lemma LargeSwapFreesRoute(cfg: Config, w: World, ids: set<string>, o: Opportunity, key: string, now: nat)
    ensures var before, after := w.engine.cooldowns, Apply(cfg, w, LargeSwap(ids)).engine.cooldowns;
            Live(after, key, now) <==> Live(before, key, now) && forall id :: id in ids ==> !Contains(key, id)
    ensures var after, f := Apply(cfg, w, LargeSwap(ids)).engine.cooldowns, o.Fingerprint();
            (exists id :: id in ids && Contains(o.PairId(), id)) ==>
              !Live(after, o.PairId(), now) && !Live(after, f, now)
              && !Live(after, GasLogKey(f), now) && !Live(after, OppCountKey(f), now)
  {
    hide Opportunity.Fingerprint, Opportunity.PairId, GasLogKey, OppCountKey, Contains;
    if id :| id in ids && Contains(o.PairId(), id) {
      EveryKeyContainsPairId(o, id);
      var f := o.Fingerprint();
      assert Hits(ids, o.PairId()) && Hits(ids, f) && Hits(ids, GasLogKey(f)) && Hits(ids, OppCountKey(f));
    }
  }

  /** The match is by substring, so a large swap on one pair also lifts the send spacing of a
      pair whose id merely contains it; two of the configured pairs are so named. */
  lemma LargeSwapFreesLongerIds(cfg: Config, w: World, now: nat)
    ensures !Live(Apply(cfg, w, LargeSwap({"base-usdc-aero"})).engine.cooldowns, "base-usdc-aero2", now)
  {
    assert MatchesAt("base-usdc-aero2", "base-usdc-aero", 0);
    assert Contains("base-usdc-aero2", "base-usdc-aero");
    var hit := "base-usdc-aero" in {"base-usdc-aero"};
    hide Contains;
    assert Hits({"base-usdc-aero"}, "base-usdc-aero2");
  }

  // ── Pruning is invisible ────────────────────────────────────────────────────────

  /** No check from `now` on tells the two maps apart. */
  ghost predicate Alike(a: map<string, nat>, b: map<string, nat>, now: nat) {
    forall key, t: nat :: t >= now ==> Live(a, key, t) == Live(b, key, t)
  }

  lemma PrunedAlike(cooldowns: map<string, nat>, now: nat)
    ensures Alike(cooldowns, Unexpired(cooldowns, now), now)
  {
  }

  lemma SetAlike(a: map<string, nat>, b: map<string, nat>, key: string, until: nat, now: nat)
    requires Alike(a, b, now)
    ensures Alike(a[key := until], b[key := until], now)
  {
    var a', b' := a[key := until], b[key := until];
    forall k, t: nat | t >= now ensures Live(a', k, t) == Live(b', k, t) {
      assert Live(a, k, t) == Live(b, k, t);
    }
  }

  lemma DropAlike(a: map<string, nat>, b: map<string, nat>, key: string, now: nat)
    requires Alike(a, b, now)
    ensures Alike(a - {key}, b - {key}, now)
  {
    forall k, t: nat | t >= now ensures Live(a - {key}, k, t) == Live(b - {key}, k, t) {
      assert Live(a, k, t) == Live(b, k, t);
    }
  }

  /** p and q differ in their cooldown maps at most, and no later check tells. */
  ghost predicate Twins(p: Progress, q: Progress, now: nat) {
    q == p.(engine := p.engine.(cooldowns := q.engine.cooldowns))
    && Alike(p.engine.cooldowns, q.engine.cooldowns, now)
  }

  lemma ArriveTwins(cfg: Config, p: Progress, q: Progress, c: Candidate, now: nat)
    requires Twins(p, q, now) && now <= c.checked
    ensures Twins(Arrive(cfg, p, c), Arrive(cfg, q, c), now)
  {
    var gas, count := GasLogKey(c.opp.Fingerprint()), OppCountKey(c.opp.Fingerprint());
    assert Live(p.engine.cooldowns, gas, c.checked) == Live(q.engine.cooldowns, gas, c.checked);
    assert Live(p.engine.cooldowns, count, c.checked) == Live(q.engine.cooldowns, count, c.checked);
    SetAlike(p.engine.cooldowns, q.engine.cooldowns, count, c.checked + cfg.cooldown, now);
    hide Alike, Opportunity.Fingerprint, GasLogKey, OppCountKey, Live;
  }

  lemma DropTwins(p: Progress, q: Progress, key: string, now: nat)
    requires Twins(p, q, now)
    ensures Twins(Drop(p, key), Drop(q, key), now)
  {
    DropAlike(p.engine.cooldowns, q.engine.cooldowns, key, now);
    hide Alike;
  }

  lemma SucceedTwins(cfg: Config, m: Mode, p: Progress, q: Progress, c: Candidate, now: nat)
    requires Twins(p, q, now)
    ensures Twins(Succeed(cfg, m, p, c), Succeed(cfg, m, q, c), now)
  {
    var fp, until := c.opp.Fingerprint(), c.recorded + SuccessHold(cfg, m.dryRun);
    SetAlike(p.engine.cooldowns, q.engine.cooldowns, fp, until, now);
    SetAlike(p.engine.cooldowns[fp := until], q.engine.cooldowns[fp := until], c.opp.PairId(), until, now);
    hide Alike, Opportunity.Fingerprint, Opportunity.PairId;
  }

  /** The same of engines. */
  ghost predicate EngineTwins(e: Engine, f: Engine, now: nat) {
    f == e.(cooldowns := f.cooldowns) && Alike(e.cooldowns, f.cooldowns, now)
  }

  lemma FailEngineTwins(cfg: Config, e: Engine, f: Engine, fp: string, error: Error, hold: nat, at: nat, now: nat)
    requires EngineTwins(e, f, now) && now <= at
    ensures EngineTwins(FailEngine(cfg, e, fp, error, hold, at), FailEngine(cfg, f, fp, error, hold, at), now)
  {
    var gas := GasLogKey(fp);
    assert Live(e.cooldowns, gas, at) == Live(f.cooldowns, gas, at);
    SetAlike(e.cooldowns, f.cooldowns, gas, at + cfg.gasMute, now);
    SetAlike(e.cooldowns, f.cooldowns, fp, at + hold, now);
    hide Alike, GasLogKey, Live, Error.Counts;
  }

  lemma FailTwins(cfg: Config, m: Mode, p: Progress, q: Progress, c: Candidate, now: nat)
    requires Twins(p, q, now) && c.outcome.Failed? && now <= c.recorded
    ensures Twins(Fail(cfg, m, p, c), Fail(cfg, m, q, c), now)
  {
    var gas := GasLogKey(c.opp.Fingerprint());
    assert Live(p.engine.cooldowns, gas, c.recorded) == Live(q.engine.cooldowns, gas, c.recorded);
    hide Alike, Opportunity.Fingerprint, GasLogKey, Live, ActionFor, SimTimeouts, FailEngine, FailureHold;
    FailEngineTwins(cfg, p.engine, q.engine, c.opp.Fingerprint(), c.outcome.error,
                    FailureHold(cfg, m.dryRun, c.outcome.stage), c.recorded, now);
  }

  lemma ExecuteTwins(cfg: Config, m: Mode, p: Progress, q: Progress, c: Candidate, now: nat)
    requires Twins(p, q, now) && now <= c.recorded
    ensures Twins(Execute(cfg, m, p, c), Execute(cfg, m, q, c), now)
  {
    var fp := c.opp.Fingerprint();
    var p' := p.(engine := p.engine.(pending := p.engine.pending + {fp}));
    var q' := q.(engine := q.engine.(pending := q.engine.pending + {fp}));
    hide Alike, Opportunity.Fingerprint, Succeed, Fail;
    if c.outcome.Done? {
      SucceedTwins(cfg, m, p', q', c, now);
    } else {
      FailTwins(cfg, m, p', q', c, now);
    }
  }

  lemma AttemptTwins(cfg: Config, m: Mode, p: Progress, q: Progress, c: Candidate, now: nat)
    requires Twins(p, q, now) && now <= c.checked <= c.recorded
    ensures Twins(Attempt(cfg, m, p, c), Attempt(cfg, m, q, c), now)
  {
    SetAlike(p.engine.cooldowns, q.engine.cooldowns, c.opp.Fingerprint(), c.recorded + cfg.cooldown, now);
    ExecuteTwins(cfg, m, p, q, c, now);
    hide Alike, Opportunity.Fingerprint, Execute;
  }

  lemma StepTwins(cfg: Config, m: Mode, p: Progress, q: Progress, c: Candidate, now: nat)
    requires Twins(p, q, now) && now <= c.checked <= c.recorded
    ensures Twins(Step(cfg, m, p, c), Step(cfg, m, q, c), now)
  {
    var fp, id := c.opp.Fingerprint(), c.opp.PairId();
    var p1, q1 := Arrive(cfg, p, c), Arrive(cfg, q, c);
    var p2, q2 := Drop(p1, fp), Drop(q1, fp);
    ArriveTwins(cfg, p, q, c, now);
    DropTwins(p1, q1, fp, now);
    DropTwins(p2, q2, id, now);
    AttemptTwins(cfg, m, Drop(p2, id), Drop(q2, id), c, now);
    assert Live(p1.engine.cooldowns, fp, c.checked) == Live(q1.engine.cooldowns, fp, c.checked);
    assert Live(p2.engine.cooldowns, id, c.checked) == Live(q2.engine.cooldowns, id, c.checked);
    hide Alike, Opportunity.Fingerprint, Opportunity.PairId, Live, Arrive, Drop, Attempt, Twins;
  }

  lemma {:induction false} RunTwins(cfg: Config, m: Mode, p: Progress, q: Progress, cs: seq<Candidate>, now: nat)
    requires Twins(p, q, now) && Timed(now, cs)
    ensures Twins(Run(cfg, m, p, cs), Run(cfg, m, q, cs), now)
    decreases |cs|
  {
    assert p.finished == q.finished;
    if cs != [] && !p.finished {
      StepTwins(cfg, m, p, q, cs[0], now);
      hide Step, Twins;
      TimedEarlier(now, cs[0].recorded, cs[1..]);
      RunTwins(cfg, m, Step(cfg, m, p, cs[0]), Step(cfg, m, q, cs[0]), cs[1..], now);
    }
  }

  lemma TimedEarlier(now: nat, later: nat, cs: seq<Candidate>)
    requires Timed(later, cs) && now <= later
    ensures Timed(now, cs)
  {
  }

  /** Pruning before a scan changes nothing the scan does: the same candidates are counted,
      skipped and executed, and the engine ends the same but for deadlines that had run out. */
  lemma PruneChangesNoScan(cfg: Config, m: Mode, p: Progress, cs: seq<Candidate>, now: nat)
    requires Timed(now, cs)
    ensures var q := p.(engine := p.engine.(cooldowns := Unexpired(p.engine.cooldowns, now)));
            Twins(Run(cfg, m, p, cs), Run(cfg, m, q, cs), now)
  {
    PrunedAlike(p.engine.cooldowns, now);
    RunTwins(cfg, m, p, p.(engine := p.engine.(cooldowns := Unexpired(p.engine.cooldowns, now))), cs, now);
  }
}
