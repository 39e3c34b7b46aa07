/** Nonce allocation across prepare / send / record (engine/src/executor.rs,
    engine/src/chain/scan.rs, engine/src/util.rs). */
module Nonces {
  import opened Words

  // ── The executor ────────────────────────────────────────────────────────────────

  /** What stops a prepare before it needs a nonce. */
  datatype Gate = Passes | Paused | NoGasPrice | NegativeAfterGas | BadCalldata

  /** The nonce a prepare works with: the tracked one, else the fetched pending count. */
  function NonceFor(tracked: Option<nat>, fetched: Option<nat>): Option<nat> {
    if tracked.Some? then tracked else fetched
  }

  /** Handed-out nonce and tracked nonce after a prepare that gets as far as needing one. */
  function Take(tracked: Option<nat>, fetched: Option<nat>): (Option<nat>, Option<nat>) {
    var n := NonceFor(tracked, fetched);
    (n, if n.Some? then Some(n.value + 1) else tracked)
  }

  /** `record_failed`. */
  function AfterFailure(tracked: Option<nat>, consumed: bool): Option<nat> {
    if consumed then None
    else if tracked.Some? then Some(SaturatingSub(tracked.value, 1))
    else None
  }

  /** `prefetch_nonce`: an answer replaces what is tracked. */
  function AfterPrefetch(tracked: Option<nat>, fetched: Option<nat>): Option<nat> {
    if fetched.Some? then fetched else tracked
  }

  class Executor {
    var nonce: Option<nat>
    var totalAttempts: nat
    var totalSent: nat
    var totalFailed: nat

    constructor ()
      ensures nonce == None && totalAttempts == 0 && totalSent == 0 && totalFailed == 0
    {
      nonce, totalAttempts, totalSent, totalFailed := None, 0, 0, 0;
    }

    /** `prepare_2hop` / `prepare_triangular`: a failed prepare takes no nonce. `fetched` is
        the node's answer, asked for only when no nonce is tracked. */
    method Prepare(gate: Gate, fetched: Option<nat>) returns (prepared: Option<nat>)
      modifies this
      ensures gate.Passes? ==> (prepared, nonce) == Take(old(nonce), fetched)
      ensures gate.Passes? ==> prepared == if old(nonce).Some? then old(nonce) else fetched
      ensures prepared.Some? ==> nonce == Some(prepared.value + 1)
      ensures !gate.Passes? ==> prepared == None
      ensures prepared == None ==> nonce == old(nonce)
      ensures totalAttempts == old(totalAttempts) + (if gate.Passes? then 1 else 0)
      ensures totalSent == old(totalSent) && totalFailed == old(totalFailed)
    {
      if gate != Passes { return None; }
      totalAttempts := totalAttempts + 1;
      var n := nonce;
      if n.None? {
        if fetched.None? { return None; }
        n := fetched;
      }
      nonce := Some(n.value + 1);
      return n;
    }

    method RecordSent()
      modifies this`totalSent
      ensures totalSent == old(totalSent) + 1
    {
      totalSent := totalSent + 1;
    }

    method RecordFailed(consumed: bool)
      modifies this`nonce, this`totalFailed
      ensures nonce == AfterFailure(old(nonce), consumed)
      ensures totalFailed == old(totalFailed) + 1
    {
      if consumed {
        nonce := None;
      } else if nonce.Some? {
        nonce := Some(SaturatingSub(nonce.value, 1));
      }
      totalFailed := totalFailed + 1;
    }

    method ForgetNonce()
      modifies this`nonce
      ensures nonce == None
    {
      nonce := None;
    }

    method PrefetchNonce(fetched: Option<nat>)
      modifies this`nonce
      ensures nonce == AfterPrefetch(old(nonce), fetched)
    {
      if fetched.Some? { nonce := fetched; }
    }

    /** A prepared but unsent nonce is given back: the next prepare hands out the same one. */
    method ReclaimRoundTrip(fetched: Option<nat>, again: Option<nat>) returns (first: Option<nat>, second: Option<nat>)
      modifies this
      ensures first.Some? ==> second == first
    {
      first := Prepare(Passes, fetched);
      if first.Some? { RecordFailed(false); }
      second := Prepare(Passes, again);
    }

    /** A nonce the node may have taken is not: whatever was tracked, the next prepare hands out
        the node's own count, and none without an answer. */
    method ConsumedIsRefetched(fetched: Option<nat>) returns (next: Option<nat>)
      modifies this
      ensures next == fetched
      ensures nonce == if fetched.Some? then Some(fetched.value + 1) else None
    {
      RecordFailed(true);
      next := Prepare(Passes, fetched);
    }
  }

  // ── Executor and chain together ─────────────────────────────────────────────────

  datatype Phase = Idle | Prepared(nonce: nat)

  /** `live`: nonces of accepted transactions, mined or still in the mempool.  `limbo`: sends
      of unknown outcome that had not been accepted when they were recorded. */
  datatype State = State(tracked: Option<nat>, phase: Phase, live: set<nat>, limbo: set<nat>)

  /** Serial candidate steps; `Forget`, `Drop` and `LateArrival` can come in between at any
      time. */
  datatype Step =
    | PrepareFails
    | PrepareTracked
    | PrepareFetched(pending: nat)
    | PreflightFails
    | SendAccepted
    | SendRefused
    | SendUnknown(accepted: bool, prefetched: Option<nat>)
    | Prefetch(pending: nat)
    | Forget
    | Drop(nonce: nat)
    | LateArrival(nonce: nat)

  /** The pending count: the least nonce not taken. */
  ghost predicate IsPending(live: set<nat>, n: nat) {
    n !in live && forall k: nat :: k < n ==> k in live
  }

  function AfterTake(s: State, taken: (Option<nat>, Option<nat>)): State {
    if taken.0.None? then s else s.(tracked := taken.1, phase := Prepared(taken.0.value))
  }

  /** What the executor's operations do to the tracked nonce, and what the node accepts. */
  function Next(s: State, step: Step): State {
    match step
    case PrepareFails => s
    case PrepareTracked => AfterTake(s, Take(s.tracked, None))
    case PrepareFetched(n) => AfterTake(s, Take(s.tracked, Some(n)))
    case PreflightFails => s.(tracked := AfterFailure(s.tracked, false), phase := Idle)
    case SendAccepted =>
      if s.phase.Idle? then s else s.(phase := Idle, live := s.live + {s.phase.nonce})
    case SendRefused => s.(tracked := AfterFailure(s.tracked, false), phase := Idle)
    case SendUnknown(accepted, prefetched) =>
      if s.phase.Idle? then s
      else
        var n := s.phase.nonce;
        State(AfterPrefetch(AfterFailure(s.tracked, true), prefetched), Idle,
              if accepted then s.live + {n} else s.live, if accepted then s.limbo else s.limbo + {n})
    case Prefetch(n) => s.(tracked := AfterPrefetch(s.tracked, Some(n)))
    case Forget => s.(tracked := None)
    case Drop(n) => s.(live := s.live - {n})
    case LateArrival(n) => s.(live := s.live + {n}, limbo := s.limbo - {n})
  }

  /** The pending count a step reads, if it reads one. */
  function Fetched(step: Step): Option<nat> {
    match step
    case PrepareFetched(n) => Some(n)
    case SendUnknown(_, prefetched) => prefetched
    case Prefetch(n) => Some(n)
    case _ => None
  }

  /** The live set a fetch sees: a send's own acceptance precedes its prefetch. */
  function LiveAtFetch(s: State, step: Step): set<nat> {
    if step.SendUnknown? then Next(s, step).live else s.live
  }

  /** Steps possible in a state.  "Not consumed" is reported only for transactions the node did
      not accept, and every fetch returns the pending count. */
  ghost predicate Possible(s: State, step: Step) {
    && (Fetched(step).Some? ==> IsPending(LiveAtFetch(s, step), Fetched(step).value))
    && match step
       case PrepareFails => s.phase.Idle?
       case PrepareTracked => s.phase.Idle? && s.tracked.Some?
       case PrepareFetched(_) => s.phase.Idle? && s.tracked.None?
       case PreflightFails => s.phase.Prepared?
       case SendAccepted => s.phase.Prepared?
       case SendRefused => s.phase.Prepared?
       case SendUnknown(_, _) => s.phase.Prepared?
       case Prefetch(_) => s.phase.Idle?
       case Forget => true
       case Drop(n) => n in s.live
       case LateArrival(n) => n in s.limbo
  }

  /** The nonce a step hands out. */
  function HandedOut(s: State, step: Step): Option<nat> {
    match step
    case PrepareTracked => s.tracked
    case PrepareFetched(n) => Some(n)
    case _ => None
  }

  /** The handed-out nonce belongs to no accepted transaction. */
  predicate Fresh(s: State, step: Step) {
    HandedOut(s, step).Some? ==> HandedOut(s, step).value !in s.live
  }

  /** All accepted nonces are below `n`. */
  predicate Below(live: set<nat>, n: nat) {
    forall k :: k in live ==> k < n
  }

  /** The lowest nonce the tracking can hand out before it asks the node again. */
  function Base(s: State): nat
    requires s.tracked.Some?
  {
    match s.phase
    case Prepared(n) => n
    case Idle => s.tracked.value
  }

  /** The chain did nothing that defeats the tracking: no fetch saw a live nonce above the gap
      it returned, and no late arrival landed at or above what is tracked. */
  predicate Benign(s: State, step: Step) {
    && (Fetched(step).Some? ==> Below(LiveAtFetch(s, step), Fetched(step).value))
    && (step.LateArrival? && s.tracked.Some? ==> step.nonce < Base(s))
  }

  // ── Safety over whole runs ──────────────────────────────────────────────────────

  /** What the code itself keeps: the tracked nonce follows the prepared one. */
  predicate Shaped(s: State) {
    s.phase.Prepared? && s.tracked.Some? ==> s.tracked.value == s.phase.nonce + 1
  }

  ghost predicate Inv(s: State) {
    Shaped(s) && (s.tracked.Some? ==> Below(s.live, Base(s)))
  }

  lemma StepKeepsInv(s: State, step: Step)
    requires Inv(s) && Possible(s, step) && Benign(s, step)
    ensures Inv(Next(s, step)) && Fresh(s, step)
  {
  }

  ghost predicate PossibleRun(s: State, steps: seq<Step>)
    decreases |steps|
  {
    steps == [] || (Possible(s, steps[0]) && PossibleRun(Next(s, steps[0]), steps[1..]))
  }

  ghost predicate BenignRun(s: State, steps: seq<Step>)
    decreases |steps|
  {
    steps == [] || (Benign(s, steps[0]) && BenignRun(Next(s, steps[0]), steps[1..]))
  }

  predicate FreshRun(s: State, steps: seq<Step>)
    decreases |steps|
  {
    steps == [] || (Fresh(s, steps[0]) && FreshRun(Next(s, steps[0]), steps[1..]))
  }

  function Run(s: State, steps: seq<Step>): State
    decreases |steps|
  {
    if steps == [] then s else Run(Next(s, steps[0]), steps[1..])
  }

  /** A nonce whose transaction was not sent, or not taken, is the next one handed out. */
  lemma UnsentNonceIsReused(s: State, step: Step)
    requires Shaped(s) && s.phase.Prepared? && s.tracked.Some? && (step.PreflightFails? || step.SendRefused?)
    ensures Possible(Next(s, step), PrepareTracked)
    ensures HandedOut(Next(s, step), PrepareTracked) == Some(s.phase.nonce)
  {
  }

  /** In any benign run — drops, forgotten nonces, refused and unknown sends included — no
      nonce of an accepted transaction is handed out. */
  lemma {:induction false} NoncesStayFresh(s: State, steps: seq<Step>)
    requires Inv(s) && PossibleRun(s, steps) && BenignRun(s, steps)
    ensures FreshRun(s, steps)
    decreases |steps|
  {
    if steps != [] {
      StepKeepsInv(s, steps[0]);
      NoncesStayFresh(Next(s, steps[0]), steps[1..]);
    }
  }

  // ── Nothing dropped: contiguous, without conditions ─────────────────────────────

  /** Accepted nonces are exactly those below `c`. */
  ghost predicate Contiguous(live: set<nat>, c: nat) {
    forall k: nat :: k in live <==> k < c
  }

  /** No gap anywhere, and nothing underway that could leave one. */
  ghost predicate Gapless(s: State, c: nat) {
    && Contiguous(s.live, c) && Shaped(s)
    && (forall k :: k in s.limbo ==> k <= c)
    && match s.phase
       case Prepared(n) => n <= c
       case Idle => s.tracked.Some? ==> s.tracked.value <= c
  }

  function Advance(s: State, c: nat, step: Step): nat {
    if step.LateArrival? then (if step.nonce == c then c + 1 else c)
    else if (step.SendAccepted? || (step.SendUnknown? && step.accepted)) && s.phase == Prepared(c) then c + 1
    else c
  }

  lemma GaplessStep(s: State, c: nat, step: Step)
    requires Gapless(s, c) && Possible(s, step) && !step.Drop?
    ensures Gapless(Next(s, step), Advance(s, c, step))
    ensures Fetched(step).Some? ==> Below(LiveAtFetch(s, step), Fetched(step).value)
  {
    var c' := Advance(s, c, step);
    assert Contiguous(Next(s, step).live, c');
    if Fetched(step).Some? {
      PendingIsTop(LiveAtFetch(s, step), c', Fetched(step).value);
    }
  }

  lemma PendingIsTop(live: set<nat>, c: nat, n: nat)
    requires Contiguous(live, c) && IsPending(live, n)
    ensures n == c
  {
    var top, gap := n in live, c in live;
  }

  ghost predicate NoDrops(steps: seq<Step>) {
    forall i :: 0 <= i < |steps| ==> !steps[i].Drop?
  }

  /** When nothing is dropped, accepted nonces are contiguous in every reachable state, whatever
      is forgotten, refused, unknown or late. */
  lemma {:induction false} AcceptedNoncesContiguous(s: State, c: nat, steps: seq<Step>) returns (c': nat)
    requires Gapless(s, c) && PossibleRun(s, steps) && NoDrops(steps)
    ensures Gapless(Run(s, steps), c') && c' >= c
    decreases |steps|
  {
    c' := c;
    if steps != [] {
      GaplessStep(s, c, steps[0]);
      c' := AcceptedNoncesContiguous(Next(s, steps[0]), Advance(s, c, steps[0]), steps[1..]);
    }
  }

  /** No late arrival lands at or above what is tracked. */
  predicate ArrivalsBelow(s: State, steps: seq<Step>)
    decreases |steps|
  {
    steps == []
    || ((steps[0].LateArrival? && s.tracked.Some? ==> steps[0].nonce < Base(s))
        && ArrivalsBelow(Next(s, steps[0]), steps[1..]))
  }

  /** And then every hand-out is fresh as long as late arrivals stay below what is tracked: the
      fetches need no condition of their own. */
  lemma {:induction false} FreshWithoutDrops(s: State, c: nat, steps: seq<Step>)
    requires Gapless(s, c) && Inv(s) && PossibleRun(s, steps) && NoDrops(steps) && ArrivalsBelow(s, steps)
    ensures FreshRun(s, steps)
    decreases |steps|
  {
    if steps != [] {
      GaplessStep(s, c, steps[0]);
      StepKeepsInv(s, steps[0]);
      FreshWithoutDrops(Next(s, steps[0]), Advance(s, c, steps[0]), steps[1..]);
    }
  }

  /** After a drop and the forgetting it triggers, the next hand-out is the dropped nonce. */
  lemma DroppedNonceIsRefilled(s: State, c: nat, dropped: nat, step: Step)
    requires Contiguous(s.live, c) && s.phase.Idle? && dropped < c
    requires var s' := Next(Next(s, Drop(dropped)), Forget); Possible(s', step) && HandedOut(s', step).Some?
    ensures HandedOut(Next(Next(s, Drop(dropped)), Forget), step) == Some(dropped)
  {
    var live := Next(Next(s, Drop(dropped)), Forget).live;
    var taken, free := step.pending in live, dropped in live;
  }

  // ── Exactly when the tracking is defeated ───────────────────────────────────────

  /** Neither asks the node nor hears from it late. */
  predicate Quiet(step: Step) {
    Fetched(step).None? && !step.LateArrival?
  }

  ghost predicate QuietRun(steps: seq<Step>) {
    forall i :: 0 <= i < |steps| ==> Quiet(steps[i])
  }

  /** Whatever happens until the next fetch or late arrival, drops included, no accepted nonce
      is handed out. */
  ghost predicate Safe(s: State) {
    forall steps :: PossibleRun(s, steps) && QuietRun(steps) ==> FreshRun(s, steps)
  }

  lemma {:induction false} InvIsSafe(s: State, steps: seq<Step>)
    requires Inv(s) && PossibleRun(s, steps) && QuietRun(steps)
    ensures FreshRun(s, steps)
    decreases |steps|
  {
    if steps != [] {
      StepKeepsInv(s, steps[0]);
      InvIsSafe(Next(s, steps[0]), steps[1..]);
    }
  }

  /** A live nonce at or above what is tracked is reached by sending one transaction after the
      other. */
  lemma {:induction false} ReachesLive(s: State, k: nat) returns (steps: seq<Step>)
    requires Shaped(s) && s.tracked.Some? && k in s.live && k >= Base(s)
    ensures PossibleRun(s, steps) && QuietRun(steps) && !FreshRun(s, steps)
    decreases k - Base(s), s.phase.Prepared?
  {
    var b := Base(s);
    if s.phase.Idle? && b in s.live {
      steps := [PrepareTracked];
    } else {
      var step := if s.phase.Idle? then PrepareTracked else if b in s.live then PreflightFails else SendAccepted;
      if s.phase.Idle? {
        var sent := Next(Next(s, PrepareTracked), SendAccepted);
        var rest := ReachesLive(sent, k);
        steps := [PrepareTracked] + ([SendAccepted] + rest);
        RunCons(Next(s, PrepareTracked), SendAccepted, rest);
        RunCons(s, PrepareTracked, [SendAccepted] + rest);
      } else {
        var rest := ReachesLive(Next(s, step), k);
        steps := [step] + rest;
        RunCons(s, step, rest);
      }
    }
  }

  /** The invariant is exact: a state is safe if and only if no accepted nonce lies at or above
      what is tracked. */
  lemma SafeExactlyWhen(s: State)
    requires Shaped(s)
    ensures Safe(s) <==> (s.tracked.Some? ==> Below(s.live, Base(s)))
  {
    if s.tracked.Some? && !Below(s.live, Base(s)) {
      var k :| k in s.live && k >= Base(s);
      var steps := ReachesLive(s, k);
      assert !Safe(s);
    } else {
      forall steps | PossibleRun(s, steps) && QuietRun(steps) ensures FreshRun(s, steps) {
        InvIsSafe(s, steps);
      }
    }
  }

  /** A fetch leads to a safe state if and only if no accepted nonce lies above the pending
      count it returned. */
  lemma FetchIsSafeIff(s: State, pending: nat)
    requires Possible(s, PrepareFetched(pending))
    ensures Safe(Next(s, PrepareFetched(pending))) <==> Below(s.live, pending)
  {
    SafeExactlyWhen(Next(s, PrepareFetched(pending)));
    hide Safe;
  }

  /** And so does a prefetch, whatever was tracked before. */
  lemma PrefetchIsSafeIff(s: State, pending: nat)
    requires Possible(s, Prefetch(pending))
    ensures Safe(Next(s, Prefetch(pending))) <==> Below(s.live, pending)
  {
    SafeExactlyWhen(Next(s, Prefetch(pending)));
    hide Safe;
  }

  /** A late arrival leaves a safe state safe if and only if nothing is tracked or it lands
      below that. */
  lemma LateArrivalIsSafeIff(s: State, nonce: nat)
    requires Inv(s) && Possible(s, LateArrival(nonce))
    ensures Safe(Next(s, LateArrival(nonce))) <==> (s.tracked.Some? ==> nonce < Base(s))
  {
    SafeExactlyWhen(Next(s, LateArrival(nonce)));
    var there := nonce in Next(s, LateArrival(nonce)).live;
    hide Safe;
  }

  /** A drop under a live nonce: the gap is refilled, and the next nonce handed out belongs to
      a transaction still in the mempool. */
  lemma GapReusesLiveNonce()
    ensures var s := State(Some(2), Idle, {0, 1}, {});
            var steps := [Drop(1), PrepareTracked, SendAccepted, Forget, PrepareFetched(1), SendAccepted,
                          PrepareTracked];
            Inv(s) && Gapless(s, 2) && PossibleRun(s, steps) && !FreshRun(s, steps)
  {
    var s := State(Some(2), Idle, {0, 1}, {});
    var s1 := Next(s, Drop(1));
    var s2 := Next(s1, PrepareTracked);
    var s3 := Next(s2, SendAccepted);
    var s4 := Next(s3, Forget);
    assert IsPending(s4.live, 1);
    var s5 := Next(s4, PrepareFetched(1));
    var s6 := Next(s5, SendAccepted);
    assert s6.tracked == Some(2) && 2 in s6.live;
    RunOf7(s, Drop(1), PrepareTracked, SendAccepted, Forget, PrepareFetched(1), SendAccepted, PrepareTracked);
  }

  /** A timed-out send that reaches the node after all: its nonce is handed out again. */
  lemma LateArrivalReusesLiveNonce()
    ensures var s := State(Some(0), Idle, {}, {});
            var steps := [PrepareTracked, SendUnknown(false, None), PrepareFetched(0), PreflightFails]
                         + [LateArrival(0), PrepareTracked];
            Gapless(s, 0) && NoDrops(steps) && PossibleRun(s, steps) && !FreshRun(s, steps)
  {
    var s := State(Some(0), Idle, {}, {});
    var tail := [LateArrival(0), PrepareTracked];
    RunOf4(s, PrepareTracked, SendUnknown(false, None), PrepareFetched(0), PreflightFails, tail);
    ArrivesThenReused(State(Some(0), Idle, {}, {0}));
    hide PossibleRun, FreshRun;
  }

  lemma ArrivesThenReused(s: State)
    requires s == State(Some(0), Idle, {}, {0})
    ensures PossibleRun(s, [LateArrival(0), PrepareTracked]) && !FreshRun(s, [LateArrival(0), PrepareTracked])
  {
    var s' := Next(s, LateArrival(0));
    RunCons(s, LateArrival(0), [PrepareTracked]);
    RunCons(s', PrepareTracked, []);
    hide PossibleRun, FreshRun;
  }

  lemma RunOf7(s: State, a: Step, b: Step, c: Step, d: Step, e: Step, f: Step, g: Step)
    ensures var s1 := Next(s, a); var s2 := Next(s1, b); var s3 := Next(s2, c); var s4 := Next(s3, d);
            var s5 := Next(s4, e); var s6 := Next(s5, f);
            var steps := [a, b, c, d, e, f, g];
            && (PossibleRun(s, steps) <==>
                Possible(s, a) && Possible(s1, b) && Possible(s2, c) && Possible(s3, d) && Possible(s4, e)
                && Possible(s5, f) && Possible(s6, g))
            && (FreshRun(s, steps) <==>
                Fresh(s, a) && Fresh(s1, b) && Fresh(s2, c) && Fresh(s3, d) && Fresh(s4, e) && Fresh(s5, f)
                && Fresh(s6, g))
  {
    hide Next, Possible, Fresh, PossibleRun, FreshRun;
    var s4 := Next(Next(Next(Next(s, a), b), c), d);
    RunOf4(s, a, b, c, d, [e, f, g]);
    assert [a, b, c, d] + [e, f, g] == [a, b, c, d, e, f, g];
    RunOf3(s4, e, f, g);
  }

  lemma RunOf4(s: State, a: Step, b: Step, c: Step, d: Step, tail: seq<Step>)
    ensures var s1 := Next(s, a); var s2 := Next(s1, b); var s3 := Next(s2, c); var s4 := Next(s3, d);
            && (PossibleRun(s, [a, b, c, d] + tail) <==>
                Possible(s, a) && Possible(s1, b) && Possible(s2, c) && Possible(s3, d) && PossibleRun(s4, tail))
            && (FreshRun(s, [a, b, c, d] + tail) <==>
                Fresh(s, a) && Fresh(s1, b) && Fresh(s2, c) && Fresh(s3, d) && FreshRun(s4, tail))
  {
    hide Next, Possible, Fresh, PossibleRun, FreshRun;
    RunCons(s, a, [b, c, d] + tail);
    RunCons(Next(s, a), b, [c, d] + tail);
    RunCons(Next(Next(s, a), b), c, [d] + tail);
    RunCons(Next(Next(Next(s, a), b), c), d, tail);
    assert [a] + ([b, c, d] + tail) == [a, b, c, d] + tail;
    assert [b] + ([c, d] + tail) == [b, c, d] + tail;
    assert [c] + ([d] + tail) == [c, d] + tail;
  }

  lemma RunOf3(s: State, a: Step, b: Step, c: Step)
    ensures var s1 := Next(s, a); var s2 := Next(s1, b);
            && (PossibleRun(s, [a, b, c]) <==> Possible(s, a) && Possible(s1, b) && Possible(s2, c))
            && (FreshRun(s, [a, b, c]) <==> Fresh(s, a) && Fresh(s1, b) && Fresh(s2, c))
  {
    hide Next, Possible, Fresh, PossibleRun, FreshRun;
    RunCons(s, a, [b, c]);
    RunCons(Next(s, a), b, [c]);
    RunCons(Next(Next(s, a), b), c, []);
    RunNil(Next(Next(Next(s, a), b), c));
    assert [a] + [b, c] == [a, b, c] && [b] + [c] == [b, c] && [c] + [] == [c];
  }

  lemma RunCons(s: State, head: Step, tail: seq<Step>)
    ensures PossibleRun(s, [head] + tail) <==> Possible(s, head) && PossibleRun(Next(s, head), tail)
    ensures FreshRun(s, [head] + tail) <==> Fresh(s, head) && FreshRun(Next(s, head), tail)
  {
    hide Next, Possible, Fresh;
    assert ([head] + tail)[1..] == tail;
  }

  lemma RunNil(s: State)
    ensures PossibleRun(s, []) && FreshRun(s, [])
  {
  }
}
