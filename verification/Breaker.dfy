/** The circuit breaker over whole runs (engine/src/chain/scan.rs, engine/src/chain/mod.rs). */
module Breaker {
  import opened Scan
  import opened Keys
  import opened ScanRuns

  // ── The books, read off the history ─────────────────────────────────────────────

  predicate Success(x: Item) {
    x.Executed? && x.outcome.Done?
  }

  predicate CountedFailure(x: Item) {
    x.Executed? && x.outcome.Failed? && StrategyFailure(x.outcome.error)
  }

  predicate Detection(x: Item) {
    x.Counted?
  }

  /** A success or a resume starts the breaker's count afresh. */
  predicate StartsAfresh(x: Item) {
    Success(x) || x.Reset?
  }

  function Count(h: seq<Item>, which: Item -> bool): nat {
    if h == [] then 0
    else Count(h[..|h| - 1], which) + (if which(h[|h| - 1]) then 1 else 0)
  }

  /** Counted failures since the last success or resume. */
  function Trailing(h: seq<Item>): nat {
    if h == [] then 0
    else
      var x := h[|h| - 1];
      if StartsAfresh(x) then 0
      else Trailing(h[..|h| - 1]) + (if CountedFailure(x) then 1 else 0)
  }

  lemma TallyAppend(h: seq<Item>, x: Item, which: Item -> bool)
    ensures Count(h + [x], which) == Count(h, which) + (if which(x) then 1 else 0)
  {
    assert (h + [x])[..|h|] == h;
  }

  lemma TrailingAppend(h: seq<Item>, x: Item)
    ensures Trailing(h + [x]) == if StartsAfresh(x) then 0 else Trailing(h) + (if CountedFailure(x) then 1 else 0)
  {
    assert (h + [x])[..|h|] == h;
  }

  /** `Trailing` is what it says: the counted failures of a suffix without successes or
      resumes that reaches back to the last of these, or to the start. */
  lemma {:induction false} TrailingIsSuffixCount(h: seq<Item>) returns (k: nat)
    ensures k <= |h| && Trailing(h) == Count(h[k..], CountedFailure)
    ensures forall i :: k <= i < |h| ==> !StartsAfresh(h[i])
    ensures k == 0 || StartsAfresh(h[k - 1])
    decreases |h|
  {
    if h == [] {
      k := 0;
    } else {
      var n := |h| - 1;
      if StartsAfresh(h[n]) {
        k := |h|;
      } else {
        k := TrailingIsSuffixCount(h[..n]);
        assert h[..n][k..] + [h[n]] == h[k..];
        TallyAppend(h[..n][k..], h[n], CountedFailure);
      }
    }
  }

  // ── The engine's fields match the books ─────────────────────────────────────────

  predicate Books(e: Engine, h: seq<Item>) {
    && e.failures == Trailing(h)
    && e.execFailed == Count(h, CountedFailure)
    && e.attempts == e.execFailed + Count(h, Success)
    && e.found == Count(h, Detection)
  }

  /** Item k is a counted failure that brings the count to the maximum. */
  predicate TripsAt(cfg: Config, h: seq<Item>, k: nat) {
    k < |h| && CountedFailure(h[k]) && Trailing(h[..k + 1]) >= cfg.maxFailures
  }

  /** The breaker tripped after the first n items. */
  predicate Tripped(cfg: Config, h: seq<Item>, n: nat) {
    exists k :: n <= k < |h| && TripsAt(cfg, h, k)
  }

  predicate Ledger(cfg: Config, e: Engine, h: seq<Item>, n: nat, pausedBefore: bool) {
    && n <= |h|
    && Books(e, h)
    && e.paused == (pausedBefore || Tripped(cfg, h, n))
  }

  lemma TripsAtAppend(cfg: Config, h: seq<Item>, x: Item, k: nat)
    ensures k < |h| ==> TripsAt(cfg, h + [x], k) == TripsAt(cfg, h, k)
    ensures TripsAt(cfg, h + [x], |h|) == (CountedFailure(x) && Trailing(h + [x]) >= cfg.maxFailures)
  {
    hide Trailing, CountedFailure;
    var h' := h + [x];
    assert h'[..|h| + 1] == h';
    if k < |h| {
      assert h'[..k + 1] == h[..k + 1];
    }
  }

  lemma TrippedAppend(cfg: Config, h: seq<Item>, x: Item, n: nat)
    requires n <= |h|
    ensures Tripped(cfg, h + [x], n)
            == (Tripped(cfg, h, n) || (CountedFailure(x) && Trailing(h + [x]) >= cfg.maxFailures))
  {
    hide TripsAt, Trailing, CountedFailure;
    forall k: nat ensures k < |h| ==> TripsAt(cfg, h + [x], k) == TripsAt(cfg, h, k) {
      TripsAtAppend(cfg, h, x, k);
    }
    TripsAtAppend(cfg, h, x, |h|);
  }

  /** What appending an item must do to the engine. */
  lemma LedgerAppend(cfg: Config, e: Engine, h: seq<Item>, e': Engine, x: Item, n: nat, pausedBefore: bool)
    requires Ledger(cfg, e, h, n, pausedBefore)
    requires e'.failures == if StartsAfresh(x) then 0 else e.failures + (if CountedFailure(x) then 1 else 0)
    requires e'.execFailed == e.execFailed + (if CountedFailure(x) then 1 else 0)
    requires e'.attempts == e.attempts + (if CountedFailure(x) || Success(x) then 1 else 0)
    requires e'.found == e.found + (if Detection(x) then 1 else 0)
    requires e'.paused == (e.paused || (CountedFailure(x) && e'.failures >= cfg.maxFailures))
    ensures Ledger(cfg, e', h + [x], n, pausedBefore)
  {
    TrippedAppend(cfg, h, x, n);
    TrailingAppend(h, x);
    TallyAppend(h, x, CountedFailure);
    TallyAppend(h, x, Success);
    TallyAppend(h, x, Detection);
    hide Tripped, Trailing, Count;
  }

  lemma ArriveKeepsLedger(cfg: Config, p: Progress, c: Candidate, n: nat, pausedBefore: bool)
    requires Ledger(cfg, p.engine, p.history, n, pausedBefore)
    ensures var q := Arrive(cfg, p, c); Ledger(cfg, q.engine, q.history, n, pausedBefore)
  {
    hide Tripped, Trailing, Count, Opportunity.Fingerprint, Live, GasLogKey, OppCountKey;
    var e' := Arrive(cfg, p, c).engine.(found := p.engine.found + 1);
    LedgerAppend(cfg, p.engine, p.history, e', Counted(c.opp, c.checked), n, pausedBefore);
  }

  lemma ShortKeepsLedger(cfg: Config, p: Progress, c: Candidate, n: nat, pausedBefore: bool)
    requires Ledger(cfg, p.engine, p.history, n, pausedBefore)
    ensures var q := RunShort(cfg, p, c); Ledger(cfg, q.engine, q.history, n, pausedBefore)
  {
    hide Ledger, Opportunity.Fingerprint;
    LedgerAppend(cfg, p.engine, p.history, RunShort(cfg, p, c).engine, Short(c.opp, c.checked, c.recorded), n,
                 pausedBefore);
  }

  lemma SucceedKeepsLedger(cfg: Config, m: Mode, p: Progress, c: Candidate, n: nat, pausedBefore: bool)
    requires Ledger(cfg, p.engine, p.history, n, pausedBefore)
    ensures var q := Succeed(cfg, m, p, c); Ledger(cfg, q.engine, q.history, n, pausedBefore)
  {
    hide Ledger, Opportunity.Fingerprint, Opportunity.PairId;
    LedgerAppend(cfg, p.engine, p.history, Succeed(cfg, m, p, c).engine,
                 Executed(c.opp, m.dryRun, Done, c.checked, c.recorded, false), n, pausedBefore);
  }

  lemma FailKeepsLedger(cfg: Config, m: Mode, p: Progress, c: Candidate, n: nat, pausedBefore: bool)
    requires c.outcome.Failed? && Ledger(cfg, p.engine, p.history, n, pausedBefore)
    ensures var q := Fail(cfg, m, p, c); Ledger(cfg, q.engine, q.history, n, pausedBefore)
  {
    hide Ledger, Opportunity.Fingerprint, Live, GasLogKey, ActionFor, SimTimeouts;
    var q := Fail(cfg, m, p, c);
    LedgerAppend(cfg, p.engine, p.history, q.engine, q.history[|p.history|], n, pausedBefore);
  }

  lemma StepKeepsLedger(cfg: Config, m: Mode, p: Progress, c: Candidate, n: nat, pausedBefore: bool)
    requires Ledger(cfg, p.engine, p.history, n, pausedBefore)
    ensures var q := Step(cfg, m, p, c); Ledger(cfg, q.engine, q.history, n, pausedBefore)
  {
    var q := Drop(Drop(Arrive(cfg, p, c), c.opp.Fingerprint()), c.opp.PairId());
    ArriveKeepsLedger(cfg, p, c, n, pausedBefore);
    hide Tripped, Trailing, Count, Opportunity.Fingerprint, Opportunity.PairId, Live, Arrive, RunShort, Succeed, Fail;
    ShortKeepsLedger(cfg, q, c, n, pausedBefore);
    var r := q.(engine := q.engine.(pending := q.engine.pending + {c.opp.Fingerprint()}));
    if c.outcome.Done? {
      SucceedKeepsLedger(cfg, m, r, c, n, pausedBefore);
    } else {
      FailKeepsLedger(cfg, m, r, c, n, pausedBefore);
    }
  }

  lemma {:induction false} RunKeepsLedger(cfg: Config, m: Mode, p: Progress, cs: seq<Candidate>, n: nat,
                                          pausedBefore: bool)
    requires Ledger(cfg, p.engine, p.history, n, pausedBefore)
    ensures var q := Run(cfg, m, p, cs); Ledger(cfg, q.engine, q.history, n, pausedBefore)
    decreases |cs|
  {
    hide Step, Ledger;
    if cs != [] && !p.finished {
      StepKeepsLedger(cfg, m, p, cs[0], n, pausedBefore);
      RunKeepsLedger(cfg, m, Step(cfg, m, p, cs[0]), cs[1..], n, pausedBefore);
    }
  }

  lemma ResetKeepsBooks(cfg: Config, w: World)
    requires Books(w.engine, w.history)
    ensures var r := ResetOnResume(cfg, w); Books(r.engine, r.history)
  {
    TrailingAppend(w.history, Reset);
    TallyAppend(w.history, Reset, CountedFailure);
    TallyAppend(w.history, Reset, Success);
    TallyAppend(w.history, Reset, Detection);
    hide Trailing, Count;
  }

  /** One trigger: the scan pauses the chain exactly when one of its counted failures brings
      the failures since the last success or resume to the maximum. */
  lemma ScanTripsIff(cfg: Config, w: World, globalPaused: bool, m: Mode, cs: seq<Candidate>)
    requires Books(w.engine, w.history) && !w.engine.paused && !globalPaused
    ensures var r, w' := ResetOnResume(cfg, w), Apply(cfg, w, Trigger(globalPaused, m, cs));
            w'.engine.paused <==> Tripped(cfg, w'.history, |r.history|)
  {
    ResetKeepsBooks(cfg, w);
    var r := ResetOnResume(cfg, w);
    hide Books, Run, ResetOnResume;
    assert Ledger(cfg, r.engine, r.history, |r.history|, false);
    RunKeepsLedger(cfg, m, Start(r.engine, r.history), cs, |r.history|, false);
  }

  lemma ApplyKeepsBooks(cfg: Config, w: World, e: Happening)
    requires Books(w.engine, w.history)
    ensures var w' := Apply(cfg, w, e); Books(w'.engine, w'.history)
  {
    match e
    case Prune(_) => hide Trailing, Count;
    case SetPaused(_) => hide Trailing, Count;
    case LargeSwap(ids) =>
      TrailingAppend(w.history, Cleared(ids));
      TallyAppend(w.history, Cleared(ids), CountedFailure);
      TallyAppend(w.history, Cleared(ids), Success);
      TallyAppend(w.history, Cleared(ids), Detection);
      hide Trailing, Count, Untouched;
    case Trigger(globalPaused, m, cs) =>
      ResetKeepsBooks(cfg, w);
      var r := ResetOnResume(cfg, w);
      hide Books, Run, ResetOnResume, Tripped;
      var before := r.engine.paused || Tripped(cfg, r.history, |r.history|);
      RunKeepsLedger(cfg, m, Start(r.engine, r.history), cs, |r.history|, before);
  }

  /** Over every run: the breaker's count is exactly the counted failures since the last
      success or resume, so gas rejects, rate limits, outages and simulation failures never
      move it; attempts less failed executions are exactly the successes; `opps` is exactly
      the detections counted. */
  lemma {:induction false} BooksBalance(cfg: Config, w: World, es: seq<Happening>)
    requires Books(w.engine, w.history)
    ensures var w' := RunAll(cfg, w, es); Books(w'.engine, w'.history)
    decreases |es|
  {
    hide Apply, Books;
    if es != [] {
      ApplyKeepsBooks(cfg, w, es[0]);
      BooksBalance(cfg, Apply(cfg, w, es[0]), es[1..]);
    }
  }

  // ── Tripping ────────────────────────────────────────────────────────────────────

  /** How far one scan can have moved the count, from f failures at its start. */
  predicate Moved(cfg: Config, before: Engine, e: Engine) {
    && before.execFailed <= e.execFailed
    && e.failures <= before.failures + (e.execFailed - before.execFailed)
    && (e.paused && !before.paused ==> cfg.maxFailures <= before.failures + (e.execFailed - before.execFailed))
    && (before.paused ==> e.paused)
    && (e.failures >= cfg.maxFailures ==> e.paused || e.failures == before.failures)
  }

  lemma StepMoves(cfg: Config, m: Mode, p: Progress, c: Candidate, before: Engine)
    requires cfg.maxFailures > 0 && Moved(cfg, before, p.engine) && !p.finished
    ensures Moved(cfg, before, Step(cfg, m, p, c).engine)
  {
    hide Opportunity.Fingerprint, Opportunity.PairId, Live, GasLogKey, OppCountKey, ActionFor, SimTimeouts,
         Error.Counts;
  }

  lemma {:induction false} RunMoves(cfg: Config, m: Mode, p: Progress, cs: seq<Candidate>, before: Engine)
    requires cfg.maxFailures > 0 && Moved(cfg, before, p.engine)
    ensures Moved(cfg, before, Run(cfg, m, p, cs).engine)
    decreases |cs|
  {
    hide Step, Moved;
    if cs != [] && !p.finished {
      StepMoves(cfg, m, p, cs[0], before);
      RunMoves(cfg, m, Step(cfg, m, p, cs[0]), cs[1..], before);
    }
  }

  /** What an unpaused trigger does to the breaker: the scan starts below the maximum; if it
      ends at the maximum the chain is paused; and it pauses the chain only after the failures
      still missing at its start, all of them when the chain was just resumed. */
  lemma TripNeedsFreshFailures(cfg: Config, w: World, m: Mode, cs: seq<Candidate>)
    requires cfg.maxFailures > 0 && !w.engine.paused
    ensures var r, w' := ResetOnResume(cfg, w), Apply(cfg, w, Trigger(false, m, cs));
            && r.engine.failures < cfg.maxFailures
            && (w.engine.failures >= cfg.maxFailures ==> r.engine.failures == 0)
            && (w'.engine.failures >= cfg.maxFailures ==> w'.engine.paused)
            && w.engine.execFailed <= w'.engine.execFailed
            && (w'.engine.paused ==> w'.engine.execFailed - w.engine.execFailed >= cfg.maxFailures - r.engine.failures)
  {
    hide Run;
    var r := ResetOnResume(cfg, w);
    RunMoves(cfg, m, Start(r.engine, r.history), cs, r.engine);
  }

  function WithPause(p: Progress, paused: bool): Progress {
    p.(engine := p.engine.(paused := paused))
  }

  /** The loop never reads the pause flag: a scan in which the breaker trips goes on exactly
      as if the chain were not paused. */
  lemma {:induction false} TripDoesNotStopTheScan(cfg: Config, m: Mode, p: Progress, cs: seq<Candidate>, paused: bool)
    ensures var q, q' := Run(cfg, m, p, cs), Run(cfg, m, WithPause(p, paused), cs);
            q' == WithPause(q, q'.engine.paused)
    decreases |cs|
  {
    hide Step;
    if cs != [] && !p.finished {
      var q := Step(cfg, m, p, cs[0]);
      StepIgnoresPause(cfg, m, p, cs[0], paused);
      TripDoesNotStopTheScan(cfg, m, q, cs[1..], Step(cfg, m, WithPause(p, paused), cs[0]).engine.paused);
    }
  }

  lemma StepIgnoresPause(cfg: Config, m: Mode, p: Progress, c: Candidate, paused: bool)
    ensures var q, q' := Step(cfg, m, p, c), Step(cfg, m, WithPause(p, paused), c);
            q' == WithPause(q, q'.engine.paused)
  {
    ArriveIgnoresPause(cfg, p, c, paused);
    hide Arrive, Attempt, Opportunity.Fingerprint, Opportunity.PairId, Live;
    AttemptIgnoresPause(cfg, m, Drop(Drop(Arrive(cfg, p, c), c.opp.Fingerprint()), c.opp.PairId()), c, paused);
  }

  lemma ArriveIgnoresPause(cfg: Config, p: Progress, c: Candidate, paused: bool)
    ensures Arrive(cfg, WithPause(p, paused), c) == WithPause(Arrive(cfg, p, c), paused)
  {
    hide Opportunity.Fingerprint, Live, GasLogKey, OppCountKey;
  }

  lemma AttemptIgnoresPause(cfg: Config, m: Mode, p: Progress, c: Candidate, paused: bool)
    ensures var q, q' := Attempt(cfg, m, p, c), Attempt(cfg, m, WithPause(p, paused), c);
            q' == WithPause(q, q'.engine.paused)
  {
    hide Opportunity.Fingerprint, Opportunity.PairId, Live, GasLogKey, ActionFor, SimTimeouts, Error.Counts;
  }

  /** A candidate that the loop will execute and count as a failure. */
  predicate WillFail(cfg: Config, m: Mode, p: Progress, c: Candidate) {
    && c.opp.BarFree() && !c.degraded && !c.short
    && c.outcome.Failed? && StrategyFailure(c.outcome.error)
    && !Live(p.engine.cooldowns, c.opp.Fingerprint(), c.checked)
    && !Live(p.engine.cooldowns, c.opp.PairId(), c.checked)
  }

  predicate Going(cfg: Config, m: Mode, p: Progress) {
    !p.skip && !p.action.stop && !p.finished && p.engine.pending == {} && (!cfg.pendingOnly || m.tip)
  }

  /** So the failures of one scan can pass the maximum by any number: every candidate of
      distinct routes that fails for a counted reason is executed and counted, paused or not. */
  lemma {:induction false} FailuresPassTheMaximum(cfg: Config, m: Mode, p: Progress, cs: seq<Candidate>)
    requires Going(cfg, m, p)
    requires forall i :: 0 <= i < |cs| ==> WillFail(cfg, m, p, cs[i])
    requires forall i, j :: 0 <= i < j < |cs| ==> cs[i].opp != cs[j].opp
    ensures Run(cfg, m, p, cs).engine.failures == p.engine.failures + |cs|
    decreases |cs|
  {
    if cs != [] {
      var q := Step(cfg, m, p, cs[0]);
      FailingStep(cfg, m, p, cs[0]);
      var rest := cs[1..];
      forall i | 0 <= i < |rest| ensures WillFail(cfg, m, q, rest[i]) {
        FailingStepKeepsOthers(cfg, m, p, cs[0], cs[i + 1]);
      }
      hide Step, WillFail, Going;
      FailuresPassTheMaximum(cfg, m, q, rest);
    }
  }

  lemma FailingStep(cfg: Config, m: Mode, p: Progress, c: Candidate)
    requires Going(cfg, m, p) && WillFail(cfg, m, p, c)
    ensures var q := Step(cfg, m, p, c); Going(cfg, m, q) && q.engine.failures == p.engine.failures + 1
  {
    CountingKeepsLive(cfg, p, c, c.opp, c.checked);
    CooldownKeysDisjoint(c.opp, c.opp);
    hide Opportunity.Fingerprint, Opportunity.PairId, Opportunity.BarFree, GasLogKey, OppCountKey, Arrive;
    ArriveOnlyCounts(cfg, p, c);
  }

  lemma ArriveOnlyCounts(cfg: Config, p: Progress, c: Candidate)
    ensures var q := Arrive(cfg, p, c);
            && q.skip == (p.skip || p.action.stop || c.degraded) && q.action == p.action && q.finished == p.finished
            && q.engine.pending == p.engine.pending && q.engine.failures == p.engine.failures
  {
  }

  lemma CountingKeepsLive(cfg: Config, p: Progress, c: Candidate, o: Opportunity, now: nat)
    requires c.opp.BarFree() && o.BarFree()
    ensures var before, after := p.engine.cooldowns, Arrive(cfg, p, c).engine.cooldowns;
            && Live(after, o.PairId(), now) == Live(before, o.PairId(), now)
            && Live(after, o.Fingerprint(), now) == Live(before, o.Fingerprint(), now)
  {
    CountingCoolsNothing(cfg, p, c.opp, o, c.checked, now);
    hide Opportunity.Fingerprint, Opportunity.PairId, Opportunity.BarFree, GasLogKey, OppCountKey, Live;
  }

  lemma FailingStepKeepsOthers(cfg: Config, m: Mode, p: Progress, c: Candidate, d: Candidate)
    requires Going(cfg, m, p) && WillFail(cfg, m, p, c) && WillFail(cfg, m, p, d) && c.opp != d.opp
    ensures WillFail(cfg, m, Step(cfg, m, p, c), d)
  {
    CountingKeepsLive(cfg, p, c, d.opp, d.checked);
    CountingKeepsLive(cfg, p, c, c.opp, c.checked);
    ArriveOnlyCounts(cfg, p, c);
    var q := Drop(Drop(Arrive(cfg, p, c), c.opp.Fingerprint()), c.opp.PairId());
    var r := q.(engine := q.engine.(pending := q.engine.pending + {c.opp.Fingerprint()}));
    FailureCoolsNoPair(cfg, m, r, c, d.opp, d.checked);
    CooldownKeysDisjoint(c.opp, c.opp);
    hide Opportunity.Fingerprint, Opportunity.PairId, Opportunity.BarFree, GasLogKey, OppCountKey, Arrive, Fail;
  }
}
