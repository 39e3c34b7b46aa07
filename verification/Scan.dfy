/** The candidate loop, its shared cooldown map and the circuit breaker
    (engine/src/chain/scan.rs, engine/src/chain/mod.rs). */
module Scan {
  import opened Keys

  // ── Inputs of a scan ────────────────────────────────────────────────────────────

  datatype Rpc = NoFailure | Timeout | Unreachable | RateLimited

  /** An execution error: what its text classifies as, whether the contract rejected a
      simulation, whether it came from a simulation or pre-flight, whether it is a gas reject. */
  datatype Error = Error(text: Rpc, simReverted: bool, simFailure: bool, gasReject: bool) {
    function Class(): Rpc {
      if simReverted then NoFailure else text
    }

    predicate SimTimeout() {
      simFailure && Class() == Timeout
    }

    /** The node is hanging, down or rate limiting, whatever else this scan has seen. */
    predicate HardStop() {
      Class() == Unreachable || Class() == RateLimited || (Class() == Timeout && !simFailure)
    }

    /** A strategy failure: not gas, not the node, not a simulation. */
    predicate Counts() {
      !gasReject && !simFailure && Class() == NoFailure
    }
  }

  /** In the error's own fields: neither a gas reject nor a simulation or pre-flight, and not the
      node's doing, which a rejection by the contract never is. */
  predicate StrategyFailure(e: Error) {
    !e.gasReject && !e.simFailure && (e.simReverted || e.text == NoFailure)
  }

  /** Where a failed attempt stopped. `Build` is the prepare step, or a dry run's simulation. */
  datatype Stage = Build | Preflight | Send

  datatype Outcome = Done | Failed(stage: Stage, error: Error)

  /** A candidate and what the world answers when the loop reaches it: the clock when its
      cooldowns are checked and when its result is recorded, the node's health, the balance
      guard, and the result of executing it. */
  datatype Candidate = Candidate(opp: Opportunity, checked: nat, recorded: nat,
                                 degraded: bool, short: bool, outcome: Outcome)

  datatype Config = Config(cooldown: nat, sendCooldown: nat, gasMute: nat, maxFailures: nat, pendingOnly: bool)

  datatype Mode = Mode(dryRun: bool, tip: bool)

  function SuccessHold(cfg: Config, dryRun: bool): nat {
    if dryRun then cfg.cooldown else cfg.sendCooldown
  }

  function FailureHold(cfg: Config, dryRun: bool, stage: Stage): nat {
    if dryRun || stage.Build? then cfg.cooldown else cfg.sendCooldown
  }

  // ── One candidate ───────────────────────────────────────────────────────────────

  /** What outlives a scan. */
  datatype Engine = Engine(pending: set<string>, cooldowns: map<string, nat>, failures: nat, paused: bool,
                           attempts: nat, execFailed: nat, found: nat)

  /** `FailureAction`. */
  datatype Action = Action(stop: bool, outage: bool)

  /** What happened, in order. */
  datatype Item =
    | Counted(opp: Opportunity, at: nat)
    | Short(opp: Opportunity, checked: nat, recorded: nat)
    | Executed(opp: Opportunity, dryRun: bool, outcome: Outcome, checked: nat, recorded: nat, logged: bool)
    | Cleared(ids: set<string>)
    | Reset

  /** The loop's state, with the history so far. */
  datatype Progress = Progress(engine: Engine, history: seq<Item>, skip: bool, action: Action,
                               simTimeouts: nat, finished: bool)

  predicate Live(cooldowns: map<string, nat>, key: string, now: nat) {
    key in cooldowns && cooldowns[key] > now
  }

  /** `first_detection_in_window`, and the count it guards. */
  function Detect(cfg: Config, p: Progress, o: Opportunity, now: nat): Progress {
    var key := OppCountKey(o.Fingerprint());
    if Live(p.engine.cooldowns, key, now) then p
    else p.(engine := p.engine.(cooldowns := p.engine.cooldowns[key := now + cfg.cooldown],
                                found := p.engine.found + 1),
            history := p.history + [Counted(o, now)])
  }

  function Arrive(cfg: Config, p: Progress, c: Candidate): Progress {
    var q := p.(skip := p.skip || p.action.stop || c.degraded);
    if Live(p.engine.cooldowns, GasLogKey(c.opp.Fingerprint()), c.checked) then q
    else Detect(cfg, q, c.opp, c.checked)
  }

  function Drop(p: Progress, key: string): Progress {
    p.(engine := p.engine.(cooldowns := p.engine.cooldowns - {key}))
  }

  function RunShort(cfg: Config, p: Progress, c: Candidate): Progress {
    p.(engine := p.engine.(cooldowns := p.engine.cooldowns[c.opp.Fingerprint() := c.recorded + cfg.cooldown]),
       history := p.history + [Short(c.opp, c.checked, c.recorded)])
  }

  /** `handle_execution_success`, with the two cooldowns set just before it. */
  function Succeed(cfg: Config, m: Mode, p: Progress, c: Candidate): Progress {
    var fp, until := c.opp.Fingerprint(), c.recorded + SuccessHold(cfg, m.dryRun);
    p.(engine := p.engine.(pending := p.engine.pending - {fp}, failures := 0, attempts := p.engine.attempts + 1,
                           cooldowns := p.engine.cooldowns[fp := until][c.opp.PairId() := until]),
       history := p.history + [Executed(c.opp, m.dryRun, Done, c.checked, c.recorded, false)],
       finished := true)
  }

  /** One more counted failure. */
  function CountFailure(cfg: Config, e: Engine): Engine {
    e.(failures := e.failures + 1, attempts := e.attempts + 1, execFailed := e.execFailed + 1,
       paused := e.paused || e.failures + 1 >= cfg.maxFailures)
  }

  /** `handle_execution_failure` on what outlives the scan. */
  function FailEngine(cfg: Config, e: Engine, fp: string, error: Error, hold: nat, now: nat): Engine {
    var freed := e.(pending := e.pending - {fp});
    if error.gasReject then
      if Live(e.cooldowns, GasLogKey(fp), now) then freed
      else freed.(cooldowns := e.cooldowns[GasLogKey(fp) := now + cfg.gasMute])
    else
      var cooled := freed.(cooldowns := e.cooldowns[fp := now + hold]);
      if error.Counts() then CountFailure(cfg, cooled) else cooled
  }

  function SimTimeouts(before: nat, error: Error): nat {
    before + (if error.SimTimeout() then 1 else 0)
  }

  /** What a failure calls for, given the simulation timeouts of this scan including its own. */
  function ActionFor(error: Error, simTimeouts: nat): Action {
    var outage := error.Class() == Unreachable
                  || (error.Class() == Timeout && (!error.simFailure || simTimeouts >= 2));
    Action(outage || error.Class() == RateLimited, outage)
  }

  function Merge(a: Action, b: Action): Action {
    Action(a.stop || b.stop, a.outage || b.outage)
  }

  function Fail(cfg: Config, m: Mode, p: Progress, c: Candidate): Progress
    requires c.outcome.Failed?
  {
    var fp, error := c.opp.Fingerprint(), c.outcome.error;
    var sims := SimTimeouts(p.simTimeouts, error);
    var logged := error.gasReject && !Live(p.engine.cooldowns, GasLogKey(fp), c.recorded);
    p.(engine := FailEngine(cfg, p.engine, fp, error, FailureHold(cfg, m.dryRun, c.outcome.stage), c.recorded),
       history := p.history + [Executed(c.opp, m.dryRun, c.outcome, c.checked, c.recorded, logged)],
       simTimeouts := sims,
       action := Merge(p.action, ActionFor(error, sims)))
  }

  function Execute(cfg: Config, m: Mode, p: Progress, c: Candidate): Progress {
    var q := p.(engine := p.engine.(pending := p.engine.pending + {c.opp.Fingerprint()}));
    if c.outcome.Done? then Succeed(cfg, m, q, c) else Fail(cfg, m, q, c)
  }

  /** The loop body once the route and its pair are known not to be cooling down. */
  function Attempt(cfg: Config, m: Mode, p: Progress, c: Candidate): Progress {
    if c.opp.Fingerprint() in p.engine.pending then p
    else if cfg.pendingOnly && !m.tip then p
    else if c.short then RunShort(cfg, p, c)
    else if p.skip then p
    else Execute(cfg, m, p, c)
  }

  /** The loop body. */
  function Step(cfg: Config, m: Mode, p: Progress, c: Candidate): Progress {
    var fp, id := c.opp.Fingerprint(), c.opp.PairId();
    var p1 := Arrive(cfg, p, c);
    if Live(p1.engine.cooldowns, fp, c.checked) then p1
    else
      var p2 := Drop(p1, fp);
      if Live(p2.engine.cooldowns, id, c.checked) then p2
      else Attempt(cfg, m, Drop(p2, id), c)
  }

  function Run(cfg: Config, m: Mode, p: Progress, cs: seq<Candidate>): Progress
    decreases |cs|
  {
    if cs == [] || p.finished then p else Run(cfg, m, Step(cfg, m, p, cs[0]), cs[1..])
  }

  function Start(e: Engine, h: seq<Item>): Progress {
    Progress(e, h, false, Action(false, false), 0, false)
  }

  // ── Between scans ───────────────────────────────────────────────────────────────

  /** What the select loop of a chain reacts to, and the pause flag set from outside it. */
  datatype Happening =
    | Prune(now: nat)
    | LargeSwap(ids: set<string>)
    | SetPaused(paused: bool)
    | Trigger(globalPaused: bool, mode: Mode, candidates: seq<Candidate>)

  datatype World = World(engine: Engine, history: seq<Item>)

  function Unexpired(cooldowns: map<string, nat>, now: nat): map<string, nat> {
    map key | key in cooldowns && cooldowns[key] > now :: cooldowns[key]
  }

  predicate Hits(ids: set<string>, key: string) {
    exists id :: id in ids && Contains(key, id)
  }

  function Untouched(cooldowns: map<string, nat>, ids: set<string>): map<string, nat> {
    map key | key in cooldowns && !Hits(ids, key) :: cooldowns[key]
  }

  /** `reset_breaker_on_resume`. */
  function ResetOnResume(cfg: Config, w: World): World {
    if !w.engine.paused && w.engine.failures >= cfg.maxFailures then
      World(w.engine.(failures := 0), w.history + [Reset])
    else w
  }

  function Apply(cfg: Config, w: World, e: Happening): World {
    match e
    case Prune(now) => w.(engine := w.engine.(cooldowns := Unexpired(w.engine.cooldowns, now)))
    case LargeSwap(ids) =>
      World(w.engine.(cooldowns := Untouched(w.engine.cooldowns, ids)), w.history + [Cleared(ids)])
    case SetPaused(b) => w.(engine := w.engine.(paused := b))
    case Trigger(globalPaused, m, cs) =>
      var r := ResetOnResume(cfg, w);
      if globalPaused || r.engine.paused then r
      else
        var p := Run(cfg, m, Start(r.engine, r.history), cs);
        World(p.engine, p.history)
  }

  function RunAll(cfg: Config, w: World, es: seq<Happening>): World
    decreases |es|
  {
    if es == [] then w else RunAll(cfg, Apply(cfg, w, es[0]), es[1..])
  }

  function Fresh(paused: bool): World {
    World(Engine({}, map[], 0, paused, 0, 0, 0), [])
  }

  // ── The loop itself ─────────────────────────────────────────────────────────────

  class Chain {
    var pending: set<string>
    var cooldowns: map<string, nat>
    var failures: nat
    var paused: bool
    var attempts: nat
    var execFailed: nat
    var found: nat

    constructor (paused: bool)
      ensures Snapshot() == Engine({}, map[], 0, paused, 0, 0, 0)
    {
      pending, cooldowns, failures := {}, map[], 0;
      this.paused, attempts, execFailed, found := paused, 0, 0, 0;
    }

    function Snapshot(): Engine
      reads this
    {
      Engine(pending, cooldowns, failures, paused, attempts, execFailed, found)
    }

    method FirstDetection(fp: string, now: nat, window: nat) returns (first: bool)
      modifies this`cooldowns
      ensures first == !Live(old(cooldowns), OppCountKey(fp), now)
      ensures cooldowns == if first then old(cooldowns)[OppCountKey(fp) := now + window] else old(cooldowns)
    {
      var key := OppCountKey(fp);
      if key in cooldowns && cooldowns[key] > now { return false; }
      cooldowns := cooldowns[key := now + window];
      return true;
    }

    method GasRejectLogDue(fp: string, now: nat, mute: nat) returns (due: bool)
      modifies this`cooldowns
      ensures due == !Live(old(cooldowns), GasLogKey(fp), now)
      ensures cooldowns == if due then old(cooldowns)[GasLogKey(fp) := now + mute] else old(cooldowns)
    {
      var key := GasLogKey(fp);
      if key in cooldowns && cooldowns[key] > now { return false; }
      cooldowns := cooldowns[key := now + mute];
      return true;
    }

    method HandleSuccess(fp: string)
      modifies this`failures, this`pending, this`attempts
      ensures failures == 0 && pending == old(pending) - {fp} && attempts == old(attempts) + 1
    {
      failures := 0;
      pending := pending - {fp};
      attempts := attempts + 1;
    }

    /** The early returns come in the source's order; `FailEngine` says what they amount to. */
    method HandleFailure(cfg: Config, error: Error, fp: string, hold: nat, now: nat, simsBefore: nat)
      returns (sims: nat, action: Action)
      modifies this
      ensures Snapshot() == FailEngine(cfg, old(Snapshot()), fp, error, hold, now)
      ensures sims == SimTimeouts(simsBefore, error) && action == ActionFor(error, sims)
      ensures failures == old(failures) + (if StrategyFailure(error) then 1 else 0)
      ensures paused == (old(paused) || (StrategyFailure(error) && failures >= cfg.maxFailures))
    {
      pending := pending - {fp};
      var rpc := error.Class();
      sims := simsBefore;
      if error.simFailure && rpc == Timeout { sims := sims + 1; }
      var outage := match rpc
        case Unreachable => true
        case Timeout => !error.simFailure || sims >= 2
        case RateLimited => false
        case NoFailure => false;
      action := Action(outage || rpc == RateLimited, outage);
      if error.gasReject {
        var due := GasRejectLogDue(fp, now, cfg.gasMute);
        return;
      }
      cooldowns := cooldowns[fp := now + hold];
      if rpc == RateLimited { return; }
      if rpc != NoFailure && !error.simFailure { return; }
      if error.simFailure { return; }
      failures := failures + 1;
      attempts := attempts + 1;
      execFailed := execFailed + 1;
      if failures >= cfg.maxFailures { paused := true; }
    }

    /** The loop body from the in-flight check on: each early return is a `continue` of the
        source, the success a `break`. */
    method TryExecution(cfg: Config, m: Mode, c: Candidate, skip: bool, action: Action, sims: nat, ghost h: seq<Item>)
      returns (action': Action, sims': nat, finished: bool, ghost h': seq<Item>)
      modifies this
      ensures Progress(Snapshot(), h', skip, action', sims', finished)
           == Attempt(cfg, m, Progress(old(Snapshot()), h, skip, action, sims, false), c)
    {
      hide Live, GasLogKey, OppCountKey, Opportunity.Fingerprint, Opportunity.PairId, ActionFor, FailEngine,
           SimTimeouts;
      action', sims', finished, h' := action, sims, false, h;
      var fp, id := c.opp.Fingerprint(), c.opp.PairId();
      if fp in pending { return; }
      if cfg.pendingOnly && !m.tip { return; }
      if c.short {
        cooldowns := cooldowns[fp := c.recorded + cfg.cooldown];
        h' := h + [Short(c.opp, c.checked, c.recorded)];
        return;
      }
      if skip { return; }
      pending := pending + {fp};
      if c.outcome.Done? {
        cooldowns := cooldowns[fp := c.recorded + SuccessHold(cfg, m.dryRun)];
        cooldowns := cooldowns[id := c.recorded + SuccessHold(cfg, m.dryRun)];
        HandleSuccess(fp);
        finished := true;
        h' := h + [Executed(c.opp, m.dryRun, Done, c.checked, c.recorded, false)];
      } else {
        ghost var logged := c.outcome.error.gasReject && !Live(cooldowns, GasLogKey(fp), c.recorded);
        var hold, more := FailureHold(cfg, m.dryRun, c.outcome.stage), Action(false, false);
        sims', more := HandleFailure(cfg, c.outcome.error, fp, hold, c.recorded, sims);
        action' := Merge(action, more);
        h' := h + [Executed(c.opp, m.dryRun, c.outcome, c.checked, c.recorded, logged)];
      }
    }

    /** The whole loop body. */
    method Try(cfg: Config, m: Mode, c: Candidate, skip: bool, action: Action, sims: nat, ghost h: seq<Item>)
      returns (skip': bool, action': Action, sims': nat, finished: bool, ghost h': seq<Item>)
      modifies this
      ensures Progress(Snapshot(), h', skip', action', sims', finished)
           == Step(cfg, m, Progress(old(Snapshot()), h, skip, action, sims, false), c)
    {
      hide Live, GasLogKey, OppCountKey, Opportunity.Fingerprint, Opportunity.PairId, Attempt;
      skip', action', sims', finished, h' := skip, action, sims, false, h;
      if !skip && (action.stop || c.degraded) { skip' := true; }
      var fp, id := c.opp.Fingerprint(), c.opp.PairId();
      if !Live(cooldowns, GasLogKey(fp), c.checked) {
        var first := FirstDetection(fp, c.checked, cfg.cooldown);
        if first {
          found := found + 1;
          h' := h' + [Counted(c.opp, c.checked)];
        }
      }
      if Live(cooldowns, fp, c.checked) { return; }
      cooldowns := cooldowns - {fp};
      if Live(cooldowns, id, c.checked) { return; }
      cooldowns := cooldowns - {id};
      action', sims', finished, h' := TryExecution(cfg, m, c, skip', action, sims, h');
    }

    /** The 'candidates loop: the chain ends as the fold of `Step` over the candidates, and
        reports whether the scan saw an outage. */
    method Evaluate(cfg: Config, m: Mode, cs: seq<Candidate>, ghost h: seq<Item>)
      returns (outage: bool, ghost h': seq<Item>)
      modifies this
      ensures var p := Run(cfg, m, Start(old(Snapshot()), h), cs);
              Snapshot() == p.engine && outage == p.action.outage && h' == p.history
    {
      hide Step;
      var skip, action, sims, finished := false, Action(false, false), 0, false;
      h' := h;
      ghost var start := Start(Snapshot(), h);
      var i := 0;
      while i < |cs| && !finished
        invariant 0 <= i <= |cs|
        invariant Run(cfg, m, start, cs)
               == Run(cfg, m, Progress(Snapshot(), h', skip, action, sims, finished), cs[i..])
      {
        assert cs[i..][1..] == cs[i + 1..];
        skip, action, sims, finished, h' := Try(cfg, m, cs[i], skip, action, sims, h');
        i := i + 1;
      }
      outage := action.outage;
    }

    method PruneExpired(now: nat)
      modifies this`cooldowns
      ensures cooldowns == Unexpired(old(cooldowns), now)
    {
      cooldowns := map key | key in cooldowns && cooldowns[key] > now :: cooldowns[key];
    }

    /** A large swap clears every key that contains one of its pair ids. */
    method ClearFor(ids: set<string>)
      modifies this`cooldowns
      ensures cooldowns == Untouched(old(cooldowns), ids)
    {
      cooldowns := map key | key in cooldowns && !Hits(ids, key) :: cooldowns[key];
    }

    /** A trigger arriving: the breaker is reset after a resume, and the scan runs unless
        the engine or the chain is paused. */
    method OnTrigger(cfg: Config, globalPaused: bool, m: Mode, cs: seq<Candidate>, ghost h: seq<Item>)
      returns (scanned: bool, outage: bool, ghost h': seq<Item>)
      modifies this
      ensures World(Snapshot(), h') == Apply(cfg, World(old(Snapshot()), h), Trigger(globalPaused, m, cs))
      ensures scanned == (!globalPaused && !old(paused)) && (!scanned ==> !outage)
    {
      hide Run;
      h', outage := h, false;
      if !paused && failures >= cfg.maxFailures {
        failures := 0;
        h' := h' + [Reset];
      }
      scanned := !globalPaused && !paused;
      if scanned {
        outage, h' := Evaluate(cfg, m, cs, h');
      }
    }
  }
}
