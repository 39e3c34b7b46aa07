/** The chunked multicall of pool discovery (engine/src/chain/discover.rs). */
module Discover {
  import opened Words

  const DISCOVER_ATTEMPTS := 3
  const DISCOVER_RATE_LIMIT_WAITS := 5

  /** What the node makes of an aggregate3 request: an answer (None if it does not decode), a
      refusal, a rate limit, or a timeout or other failure. */
  datatype MultiReply<Bytes> = Answered(decoded: Option<seq<Option<Bytes>>>) | Rejected | RateLimited | Broken

  /** What it makes of a single call; a rate limit counts as `Gone` here. */
  datatype SingleReply<Bytes> = Returned(data: Bytes) | Reverted | Gone

  /** The node, as a function of the number of requests made so far and the request. */
  type Multi<!Call, Bytes> = (nat, seq<Call>) -> MultiReply<Bytes>
  type Single<!Call, Bytes> = (nat, Call) -> SingleReply<Bytes>

  /** Requests of one chunk: rate-limited multicalls, failed ones, the budget they ran under,
      single calls, and whether the chunk was lost. */
  datatype ChunkLog = ChunkLog(size: nat, limited: nat, failed: nat, attempts: nat, singles: nat, lost: bool) {
    function Multicalls(): nat {
      limited + failed + (if lost then 0 else 1)
    }

    predicate Within() {
      && limited <= DISCOVER_RATE_LIMIT_WAITS
      && failed <= attempts
      && (lost <==> failed == attempts)
      && singles <= size
      && (lost ==> singles == 0)
    }
  }

  /** The node made nothing of an aggregate3 request. */
  predicate Unanswered<Bytes>(r: MultiReply<Bytes>) {
    r.RateLimited? || r.Broken?
  }

  /** How many of the requests from t0 on, before t1, were rate limited. */
  ghost function RateLimits<Call, Bytes>(multi: Multi<Call, Bytes>, chunk: seq<Call>, t0: nat, t1: nat): nat
    decreases t1
  {
    if t1 <= t0 then 0
    else RateLimits(multi, chunk, t0, t1 - 1) + (if multi(t1 - 1, chunk).RateLimited? then 1 else 0)
  }

  /** What became of a chunk, in terms of the replies: every multicall before the last went
      unanswered, of which those rate limited, up to five, were waited out; a lost chunk's last one
      too; otherwise its calls have the answer's results, or, without a decodable one, those of one
      single call each, lost where the node gave none. */
  ghost predicate Explains<Call, Bytes>(multi: Multi<Call, Bytes>, single: Single<Call, Bytes>, chunk: seq<Call>,
                                        t0: nat, log: ChunkLog, missing: seq<bool>) {
    var last := t0 + log.Multicalls() - (if log.lost then 0 else 1);
    && |missing| == |chunk| == log.size && last >= 0
    && (forall u: nat :: t0 <= u < last ==> Unanswered(multi(u, chunk)))
    && log.limited == Min(RateLimits(multi, chunk, t0, last), 5)
    && if log.lost then log.failed == log.attempts && (forall i :: 0 <= i < |chunk| ==> missing[i])
       else
         && !Unanswered(multi(last, chunk))
         && if multi(last, chunk).Answered? && multi(last, chunk).decoded.Some? then
              log.singles == 0 && forall i :: 0 <= i < |chunk| ==> !missing[i]
            else
              log.singles == |chunk|
              && forall i :: 0 <= i < |chunk| ==> (missing[i] <==> single(last + 1 + i, chunk[i]).Gone?)
  }

  /** Whatever the node answers is right: one result per call in call order, the call's value. */
  ghost predicate Honest<Call(!new), Bytes(!new)>(multi: Multi<Call, Bytes>, single: Single<Call, Bytes>,
                                                  value: Call -> Option<Bytes>) {
    && (forall t: nat, chunk :: multi(t, chunk).Answered? && multi(t, chunk).decoded.Some? ==>
          multi(t, chunk).decoded.value == seq(|chunk|, i requires 0 <= i < |chunk| => value(chunk[i])))
    && (forall t: nat, call :: single(t, call).Returned? ==> value(call) == Some(single(t, call).data))
    && (forall t: nat, call :: single(t, call).Reverted? ==> value(call) == None)
  }

  function LostCount(missing: seq<bool>): nat {
    if missing == [] then 0
    else LostCount(missing[..|missing| - 1]) + (if missing[|missing| - 1] then 1 else 0)
  }

  /** Each result is its call's value, or None for a call that is counted as lost. */
  ghost predicate Faithful<Call, Bytes>(calls: seq<Call>, value: Call -> Option<Bytes>,
                                        results: seq<Option<Bytes>>, missing: seq<bool>) {
    && |results| == |missing| == |calls|
    && forall i :: 0 <= i < |calls| ==> results[i] == if missing[i] then None else value(calls[i])
  }

  /** Calls whose result is not their value. */
  ghost function Wrong<Call, Bytes>(calls: seq<Call>, value: Call -> Option<Bytes>, results: seq<Option<Bytes>>): nat
    requires |results| == |calls|
  {
    if calls == [] then 0
    else
      var n := |calls| - 1;
      Wrong(calls[..n], value, results[..n]) + (if results[n] != value(calls[n]) then 1 else 0)
  }

  /** What faithfulness means without naming the lost calls: a result is its call's value or
      None, and at least as many calls are counted lost as have a wrong result. */
  lemma {:induction false} LossesAreCounted<Call, Bytes>(calls: seq<Call>, value: Call -> Option<Bytes>,
                                                        results: seq<Option<Bytes>>, missing: seq<bool>)
    requires Faithful(calls, value, results, missing)
    ensures Wrong(calls, value, results) <= LostCount(missing) <= |calls|
    ensures forall i :: 0 <= i < |calls| ==> results[i] == value(calls[i]) || results[i] == None
    decreases |calls|
  {
    if calls != [] {
      var n := |calls| - 1;
      LossesAreCounted(calls[..n], value, results[..n], missing[..n]);
    }
  }

  lemma {:induction false} LostAppend(a: seq<bool>, b: seq<bool>)
    ensures LostCount(a + b) == LostCount(a) + LostCount(b)
    decreases |b|
  {
    if b == [] {
      assert a + b == a;
    } else {
      assert (a + b)[..|a + b| - 1] == a + b[..|b| - 1];
      LostAppend(a, b[..|b| - 1]);
    }
  }

  lemma {:induction false} LostAll(n: nat)
    ensures LostCount(seq(n, i => true)) == n && LostCount(seq(n, i => false)) == 0
  {
    if n > 0 {
      LostAll(n - 1);
      assert seq(n, i => true)[..n - 1] == seq(n - 1, i => true);
      assert seq(n, i => false)[..n - 1] == seq(n - 1, i => false);
    }
  }

  lemma FaithfulAppend<Call, Bytes>(calls: seq<Call>, more: seq<Call>, value: Call -> Option<Bytes>,
                                    results: seq<Option<Bytes>>, missing: seq<bool>,
                                    results': seq<Option<Bytes>>, missing': seq<bool>)
    requires Faithful(calls, value, results, missing) && Faithful(more, value, results', missing')
    ensures Faithful(calls + more, value, results + results', missing + missing')
  {
  }

  /** The retry loop of one chunk. Rate limits are waited out on their own budget first. */
  method AskChunk<Call, Bytes>(chunk: seq<Call>, attempts: nat, t0: nat, multi: Multi<Call, Bytes>)
    returns (answer: Option<MultiReply<Bytes>>, t: nat, ghost log: ChunkLog)
    requires attempts > 0
    ensures log.Within() && log.attempts == attempts && log.size == |chunk| && log.singles == 0
    ensures answer.None? <==> log.lost
    ensures t == t0 + log.Multicalls()
    ensures answer.Some? ==>
              && t > t0 && answer.value == multi(t - 1, chunk)
              && (answer.value.Answered? || answer.value.Rejected?)
    ensures var last := if answer.Some? then t - 1 else t;
            && (forall u: nat :: t0 <= u < last ==> Unanswered(multi(u, chunk)))
            && log.limited == Min(RateLimits(multi, chunk, t0, last), DISCOVER_RATE_LIMIT_WAITS)
  {
    answer, t := None, t0;
    var limited, attempt := 0, 1;
    while attempt <= attempts
      invariant 1 <= attempt <= attempts + 1 && limited <= DISCOVER_RATE_LIMIT_WAITS
      invariant t == t0 + limited + (attempt - 1)
      invariant forall u: nat :: t0 <= u < t ==> Unanswered(multi(u, chunk))
      invariant limited == Min(RateLimits(multi, chunk, t0, t), DISCOVER_RATE_LIMIT_WAITS)
      decreases attempts - attempt, DISCOVER_RATE_LIMIT_WAITS - limited
    {
      var reply := multi(t, chunk);
      t := t + 1;
      if reply.Answered? || reply.Rejected? {
        log := ChunkLog(|chunk|, limited, attempt - 1, attempts, 0, false);
        return Some(reply), t, log;
      }
      if reply.RateLimited? && limited < DISCOVER_RATE_LIMIT_WAITS {
        limited := limited + 1;
        continue;
      }
      attempt := attempt + 1;
    }
    log := ChunkLog(|chunk|, limited, attempts, attempts, 0, true);
  }

  /** The sequential fallback of one chunk. */
  method AskOneByOne<Call(!new), Bytes(!new)>(chunk: seq<Call>, t0: nat, multi: Multi<Call, Bytes>,
                                              single: Single<Call, Bytes>,
                                              ghost value: Call -> Option<Bytes>)
    returns (results: seq<Option<Bytes>>, lost: nat, t: nat, ghost missing: seq<bool>)
    requires Honest(multi, single, value)
    ensures Faithful(chunk, value, results, missing) && lost == LostCount(missing)
    ensures forall i :: 0 <= i < |chunk| ==> (missing[i] <==> single(t0 + i, chunk[i]).Gone?)
    ensures t == t0 + |chunk|
  {
    results, lost, t, missing := [], 0, t0, [];
    for i := 0 to |chunk|
      invariant Faithful(chunk[..i], value, results, missing) && lost == LostCount(missing)
      invariant forall j :: 0 <= j < i ==> (missing[j] <==> single(t0 + j, chunk[j]).Gone?)
      invariant t == t0 + i
    {
      var reply := single(t, chunk[i]);
      t := t + 1;
      match reply {
        case Returned(data) => results := results + [Some(data)];
        case Reverted => results := results + [None];
        case Gone =>
          results := results + [None];
          lost := lost + 1;
      }
      LostAppend(missing, [reply.Gone?]);
      missing := missing + [reply.Gone?];
      assert chunk[..i + 1] == chunk[..i] + [chunk[i]];
    }
    assert chunk[..|chunk|] == chunk;
  }

  /** One chunk: multicall with retries, then the fallback if the answer is a refusal or does
      not decode; nothing more if every attempt failed. */
  method DiscoverChunk<Call(!new), Bytes(!new)>(chunk: seq<Call>, attempts: nat, t0: nat,
                                                multi: Multi<Call, Bytes>, single: Single<Call, Bytes>,
                                                ghost value: Call -> Option<Bytes>)
    returns (results: seq<Option<Bytes>>, lost: nat, down: bool, t: nat, ghost missing: seq<bool>, ghost log: ChunkLog)
    requires attempts > 0 && Honest(multi, single, value)
    ensures Faithful(chunk, value, results, missing) && lost == LostCount(missing)
    ensures log.Within() && log.attempts == attempts && log.size == |chunk| && log.lost == down
    ensures t == t0 + log.Multicalls() + log.singles
    ensures down ==> lost == |chunk|
    ensures Explains(multi, single, chunk, t0, log, missing)
  {
    var answer;
    answer, t, log := AskChunk(chunk, attempts, t0, multi);
    down := answer.None?;
    if down {
      LostAll(|chunk|);
      missing := seq(|chunk|, i => true);
      return seq(|chunk|, i => None), |chunk|, true, t, missing, log;
    }
    if answer.value.Answered? && answer.value.decoded.Some? {
      LostAll(|chunk|);
      missing := seq(|chunk|, i => false);
      return answer.value.decoded.value, 0, false, t, missing, log;
    }
    results, lost, t, missing := AskOneByOne(chunk, t, multi, single, value);
    log := log.(singles := |chunk|);
  }

  predicate AnyLost(trace: seq<ChunkLog>) {
    exists j :: 0 <= j < |trace| && trace[j].lost
  }

  function Budget(before: seq<ChunkLog>): nat {
    if AnyLost(before) then 1 else DISCOVER_ATTEMPTS
  }

  /** The log of a run: every chunk but the last is full and every one keeps its budget, which
      from the first lost chunk on is a single attempt. */
  ghost predicate Disciplined(trace: seq<ChunkLog>, size: nat) {
    forall i :: 0 <= i < |trace| ==>
      && trace[i].Within()
      && trace[i].size <= size
      && (i < |trace| - 1 ==> trace[i].size == size)
      && trace[i].attempts == Budget(trace[..i])
  }

  lemma DisciplinedAppend(trace: seq<ChunkLog>, size: nat, log: ChunkLog)
    requires Disciplined(trace, size) && (trace != [] ==> trace[|trace| - 1].size == size)
    requires log.Within() && log.size <= size && log.attempts == Budget(trace)
    ensures Disciplined(trace + [log], size)
    ensures Budget(trace + [log]) == if log.lost then 1 else Budget(trace)
  {
    var all := trace + [log];
    assert all[|trace|] == log;
    hide Budget;
    forall i | 0 <= i < |all|
      ensures all[i].Within() && all[i].size <= size && (i < |all| - 1 ==> all[i].size == size)
              && all[i].attempts == Budget(all[..i])
    {
      if i < |trace| {
        assert all[..i] == trace[..i];
      } else {
        assert all[..i] == trace;
      }
    }
    BudgetAppend(trace, log);
  }

  lemma BudgetAppend(trace: seq<ChunkLog>, log: ChunkLog)
    ensures Budget(trace + [log]) == if log.lost then 1 else Budget(trace)
  {
    assert (trace + [log])[|trace|] == log;
    assert forall j :: 0 <= j < |trace| ==> (trace + [log])[j] == trace[j];
  }

  function Requests(trace: seq<ChunkLog>): nat {
    if trace == [] then 0
    else
      var last := trace[|trace| - 1];
      Requests(trace[..|trace| - 1]) + last.Multicalls() + last.singles
  }

  function TotalSize(trace: seq<ChunkLog>): nat {
    if trace == [] then 0 else TotalSize(trace[..|trace| - 1]) + trace[|trace| - 1].size
  }

  lemma TotalsAppend(trace: seq<ChunkLog>, log: ChunkLog)
    ensures Requests(trace + [log]) == Requests(trace) + log.Multicalls() + log.singles
    ensures TotalSize(trace + [log]) == TotalSize(trace) + log.size
  {
    assert (trace + [log])[..|trace|] == trace;
  }

  /** Every chunk of a run explained, in the order they were asked. */
  ghost predicate Explained<Call, Bytes>(multi: Multi<Call, Bytes>, single: Single<Call, Bytes>, calls: seq<Call>,
                                         missing: seq<bool>, trace: seq<ChunkLog>)
    decreases |trace|
  {
    if trace == [] then calls == [] && missing == []
    else
      var (last, before) := (trace[|trace| - 1], trace[..|trace| - 1]);
      && last.size <= |calls| == |missing|
      && Explained(multi, single, calls[..|calls| - last.size], missing[..|calls| - last.size], before)
      && Explains(multi, single, calls[|calls| - last.size..], Requests(before), last,
                  missing[|calls| - last.size..])
  }

  lemma ExplainedAppend<Call, Bytes>(multi: Multi<Call, Bytes>, single: Single<Call, Bytes>, calls: seq<Call>,
                                     missing: seq<bool>, trace: seq<ChunkLog>, more: seq<Call>, some: seq<bool>,
                                     log: ChunkLog)
    requires Explained(multi, single, calls, missing, trace) && |calls| == |missing|
    requires Explains(multi, single, more, Requests(trace), log, some)
    ensures Explained(multi, single, calls + more, missing + some, trace + [log])
  {
    hide Explains, Requests;
    assert |more| == |some| == log.size by { ExplainsSizes(multi, single, more, Requests(trace), log, some); }
    var all, lost, logs := calls + more, missing + some, trace + [log];
    assert logs[..|logs| - 1] == trace;
    assert all[..|all| - log.size] == calls && all[|all| - log.size..] == more;
    assert lost[..|all| - log.size] == missing && lost[|all| - log.size..] == some;
  }

  lemma ExplainsSizes<Call, Bytes>(multi: Multi<Call, Bytes>, single: Single<Call, Bytes>, chunk: seq<Call>,
                                   t0: nat, log: ChunkLog, missing: seq<bool>)
    requires Explains(multi, single, chunk, t0, log, missing)
    ensures |missing| == |chunk| == log.size
  {
  }

  /** A node that answers every multicall. */
  ghost predicate Healthy<Call(!new), Bytes(!new)>(multi: Multi<Call, Bytes>) {
    forall t: nat, chunk :: multi(t, chunk).Answered? && multi(t, chunk).decoded.Some?
  }

  /** Such a node loses nothing and is asked once a chunk. */
  lemma {:induction false} HealthyLosesNothing<Call(!new), Bytes(!new)>(
    multi: Multi<Call, Bytes>, single: Single<Call, Bytes>, calls: seq<Call>, missing: seq<bool>, trace: seq<ChunkLog>)
    requires Explained(multi, single, calls, missing, trace) && Healthy(multi)
    requires forall k :: 0 <= k < |trace| ==> trace[k].Within() && trace[k].attempts > 0
    ensures |missing| == |calls| && (forall i :: 0 <= i < |calls| ==> !missing[i]) && LostCount(missing) == 0
    ensures Requests(trace) == |trace|
    decreases |trace|
  {
    if trace != [] {
      var n, last := |calls| - trace[|trace| - 1].size, trace[|trace| - 1];
      HealthyLosesNothing(multi, single, calls[..n], missing[..n], trace[..|trace| - 1]);
      OneRequest(multi, single, calls[n..], Requests(trace[..|trace| - 1]), last, missing[n..]);
      assert missing == missing[..n] + missing[n..];
      NoneLost(missing);
    }
  }

  lemma {:induction false} NoneLost(missing: seq<bool>)
    requires forall i :: 0 <= i < |missing| ==> !missing[i]
    ensures LostCount(missing) == 0
  {
    if missing != [] {
      NoneLost(missing[..|missing| - 1]);
    }
  }

  lemma OneRequest<Call(!new), Bytes(!new)>(multi: Multi<Call, Bytes>, single: Single<Call, Bytes>, chunk: seq<Call>,
                                            t0: nat, log: ChunkLog, missing: seq<bool>)
    requires Explains(multi, single, chunk, t0, log, missing) && Healthy(multi) && log.Within() && log.attempts > 0
    ensures log.Multicalls() == 1 && log.singles == 0
    ensures |missing| == |chunk| && forall i :: 0 <= i < |chunk| ==> !missing[i]
  {
    assert multi(t0, chunk).Answered?;
  }

  /** A call was lost for want of an answer only: its own single call got none, or every multicall of
      its chunk went unanswered until the attempts ran out. */
  ghost predicate Refused<Call(!new), Bytes(!new)>(multi: Multi<Call, Bytes>, single: Single<Call, Bytes>, call: Call) {
    || (exists t: nat :: single(t, call).Gone?)
    || (exists t0: nat, chunk, log: ChunkLog {:trigger multi(t0, chunk), log.Multicalls()} ::
          call in chunk && log.lost && log.Within() && log.attempts > 0
          && forall u: nat :: t0 <= u < t0 + log.Multicalls() ==> Unanswered(multi(u, chunk)))
  }

  lemma {:induction false} LostWasRefused<Call(!new), Bytes(!new)>(
    multi: Multi<Call, Bytes>, single: Single<Call, Bytes>, calls: seq<Call>, missing: seq<bool>, trace: seq<ChunkLog>,
    i: nat)
    requires Explained(multi, single, calls, missing, trace)
    requires forall k :: 0 <= k < |trace| ==> trace[k].Within() && trace[k].attempts > 0
    requires i < |calls| == |missing| && missing[i]
    ensures Refused(multi, single, calls[i])
    decreases |trace|
  {
    hide Explains, Refused, Requests, ChunkLog.Within;
    var n, last := |calls| - trace[|trace| - 1].size, trace[|trace| - 1];
    if i < n {
      LostWasRefused(multi, single, calls[..n], missing[..n], trace[..|trace| - 1], i);
    } else {
      assert calls[i] == calls[n..][i - n] && missing[n..][i - n];
      LostOfChunk(multi, single, calls[n..], Requests(trace[..|trace| - 1]), last, missing[n..], i - n);
    }
  }

  lemma LostOfChunk<Call(!new), Bytes(!new)>(multi: Multi<Call, Bytes>, single: Single<Call, Bytes>, chunk: seq<Call>,
                                             t0: nat, log: ChunkLog, missing: seq<bool>, i: nat)
    requires Explains(multi, single, chunk, t0, log, missing) && log.Within() && log.attempts > 0
    requires i < |chunk| == |missing| && missing[i]
    ensures Refused(multi, single, chunk[i])
  {
    hide RateLimits, ChunkLog.Within;
    if log.lost {
      var first := multi(t0, chunk);
    } else {
      assert single(t0 + log.Multicalls() + i, chunk[i]).Gone?;
    }
  }

  /** Until a chunk is lost, one is given up only after three attempts besides the waits; from then
      on after one. */
  lemma GivesUpAfterThree(trace: seq<ChunkLog>, size: nat, k: nat)
    requires Disciplined(trace, size) && k < |trace| && trace[k].lost
    ensures trace[k].failed == if forall j :: 0 <= j < k ==> !trace[j].lost then 3 else 1
  {
    var before := trace[..k];
    assert forall j :: 0 <= j < k ==> before[j] == trace[j];
    assert trace[k].Within() && trace[k].attempts == Budget(before);
  }

  /** However badly the node behaves: at most attempts + 5 multicalls per chunk, so eight, and
      six from the first lost chunk on, plus one single call per call. */
  lemma {:induction false} RequestsBounded(trace: seq<ChunkLog>, size: nat, lostAt: nat)
    requires Disciplined(trace, size)
    requires lostAt <= |trace| && (lostAt < |trace| ==> trace[lostAt].lost)
    ensures Requests(trace) <= 8 * (if lostAt < |trace| then lostAt + 1 else |trace|)
                               + 6 * (if lostAt < |trace| then |trace| - lostAt - 1 else 0)
                               + TotalSize(trace)
    decreases |trace|
  {
    if trace != [] {
      var n := |trace| - 1;
      DisciplinedPrefix(trace, size);
      if lostAt < n {
        assert trace[..n][lostAt].lost;
      }
      ChunkBounded(trace[n]);
      RequestsBounded(trace[..n], size, Min(lostAt, n));
      hide ChunkLog.Within, ChunkLog.Multicalls, Disciplined;
    }
  }

  lemma ChunkBounded(log: ChunkLog)
    requires log.Within()
    ensures log.Multicalls() <= log.attempts + DISCOVER_RATE_LIMIT_WAITS && log.singles <= log.size
  {
  }

  lemma DisciplinedPrefix(trace: seq<ChunkLog>, size: nat)
    requires trace != [] && Disciplined(trace, size)
    ensures Disciplined(trace[..|trace| - 1], size)
    ensures trace[|trace| - 1].Within() && trace[|trace| - 1].attempts == Budget(trace[..|trace| - 1])
  {
    hide Budget, ChunkLog.Within;
    var n := |trace| - 1;
    forall i | 0 <= i < n ensures trace[..n][i] == trace[i] && trace[..n][..i] == trace[..i] {
    }
  }

  /** One result per call in call order; only calls without an answer are counted lost. It ends
      whatever the node does. */
  method DiscoverMc<Call(!new), Bytes(!new)>(calls: seq<Call>, chunkSize: nat,
                                             multi: Multi<Call, Bytes>, single: Single<Call, Bytes>,
                                             ghost value: Call -> Option<Bytes>)
    returns (results: seq<Option<Bytes>>, lost: nat, requests: nat, ghost missing: seq<bool>,
             ghost trace: seq<ChunkLog>)
    requires chunkSize > 0 && Honest(multi, single, value)
    ensures |results| == |calls| && Wrong(calls, value, results) <= lost <= |calls|
    ensures Faithful(calls, value, results, missing) && lost == LostCount(missing) && |missing| == |calls|
    ensures forall i :: 0 <= i < |calls| ==> results[i] == value(calls[i]) || results[i] == None
    ensures requests <= 9 * |calls|
    ensures Explained(multi, single, calls, missing, trace)
    ensures forall i :: 0 <= i < |calls| && missing[i] ==> Refused(multi, single, calls[i])
    ensures Healthy(multi) ==> lost == 0 && requests == |trace|
    ensures Healthy(multi) ==> forall i :: 0 <= i < |calls| ==> results[i] == value(calls[i])
    ensures Disciplined(trace, chunkSize) && requests == Requests(trace) && TotalSize(trace) == |calls|
  {
    hide Wrong, Faithful, Honest, LostCount, Disciplined, Budget, Requests, TotalSize, Explains, Explained, Healthy,
         Refused, ChunkLog.Within, ChunkLog.Multicalls;
    results, lost, requests, missing, trace := [], 0, 0, [], [];
    NothingYet<Call, Bytes>(value, chunkSize);
    NothingExplained(multi, single);
    LossesAreCounted(calls[..0], value, results, missing);
    assert calls[..0] == [];
    if calls == [] {
      SameLength(calls, value, results, missing);
      return;
    }
    var attempts, start := DISCOVER_ATTEMPTS, 0;
    while start < |calls|
      invariant start <= |calls|
      invariant Faithful(calls[..start], value, results, missing) && lost == LostCount(missing)
      invariant Disciplined(trace, chunkSize) && attempts == Budget(trace) && attempts > 0
      invariant requests == Requests(trace) && TotalSize(trace) == start
      invariant |trace| <= start
      invariant Explained(multi, single, calls[..start], missing, trace) && |missing| == start
      invariant start < |calls| && trace != [] ==> trace[|trace| - 1].size == chunkSize
    {
      var end := Min(|calls|, start + chunkSize);
      ghost var log, some;
      var more, gone, down;
      more, gone, down, requests, some, log := DiscoverChunk(calls[start..end], attempts, requests, multi, single,
                                                             value);
      FaithfulAppend(calls[..start], calls[start..end], value, results, missing, more, some);
      ExplainsSizes(multi, single, calls[start..end], requests - log.Multicalls() - log.singles, log, some);
      ExplainedAppend(multi, single, calls[..start], missing, trace, calls[start..end], some, log);
      LostAppend(missing, some);
      TotalsAppend(trace, log);
      DisciplinedAppend(trace, chunkSize, log);
      assert calls[..end] == calls[..start] + calls[start..end];
      results, lost := results + more, lost + gone;
      missing, trace := missing + some, trace + [log];
      if down { attempts := 1; }
      start := end;
    }
    assert calls[..|calls|] == calls;
    LossesAreCounted(calls, value, results, missing);
    RequestsBounded(trace, chunkSize, |trace|);
    SameLength(calls, value, results, missing);
    AllWithin(trace, chunkSize);
    forall i | 0 <= i < |calls| && missing[i] ensures Refused(multi, single, calls[i]) {
      LostWasRefused(multi, single, calls, missing, trace, i);
    }
    if Healthy(multi) {
      HealthyLosesNothing(multi, single, calls, missing, trace);
      NothingWrong(calls, value, results, missing);
    }
  }

  lemma AllWithin(trace: seq<ChunkLog>, size: nat)
    requires Disciplined(trace, size)
    ensures forall k :: 0 <= k < |trace| ==> trace[k].Within() && trace[k].attempts > 0
  {
  }

  lemma NothingWrong<Call, Bytes>(calls: seq<Call>, value: Call -> Option<Bytes>,
                                  results: seq<Option<Bytes>>, missing: seq<bool>)
    requires Faithful(calls, value, results, missing) && forall i :: 0 <= i < |calls| ==> !missing[i]
    ensures forall i :: 0 <= i < |calls| ==> results[i] == value(calls[i])
  {
  }

  lemma SameLength<Call, Bytes>(calls: seq<Call>, value: Call -> Option<Bytes>,
                                results: seq<Option<Bytes>>, missing: seq<bool>)
    requires Faithful(calls, value, results, missing)
    ensures |results| == |missing| == |calls|
  {
  }

  lemma NothingExplained<Call, Bytes>(multi: Multi<Call, Bytes>, single: Single<Call, Bytes>)
    ensures Explained(multi, single, [], [], [])
  {
  }

  lemma NothingYet<Call, Bytes>(value: Call -> Option<Bytes>, size: nat)
    ensures Faithful([], value, [], []) && LostCount([]) == 0
    ensures Disciplined([], size) && Budget([]) == DISCOVER_ATTEMPTS && Requests([]) == 0 && TotalSize([]) == 0
  {
  }
}
