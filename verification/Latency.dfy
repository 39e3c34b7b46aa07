/** Latency windows of the heartbeat and their percentiles (engine/src/util.rs). */
module Latency {
  import opened Arithmetic
  import opened Words

  const LATENCY_WINDOW_CAP := 4096

  // ── Nearest-rank percentiles ────────────────────────────────────────────────────

  predicate Ascending(s: seq<nat>) {
    forall i, j :: 0 <= i < j < |s| ==> s[i] <= s[j]
  }

  function InsertInto(x: nat, s: seq<nat>): seq<nat> {
    if s == [] || x <= s[0] then [x] + s else [s[0]] + InsertInto(x, s[1..])
  }

  /** The library sort. */
  function Sort(s: seq<nat>): seq<nat> {
    if s == [] then [] else InsertInto(s[0], Sort(s[1..]))
  }

  /** Samples at most v, or strictly below it. */
  function CountUpTo(s: seq<nat>, v: nat, strict: bool): nat {
    if s == [] then 0
    else (if s[0] < v || (s[0] == v && !strict) then 1 else 0) + CountUpTo(s[1..], v, strict)
  }

  /** ⌈len·p / 100⌉. */
  function RankOf(len: nat, p: nat): nat {
    (len * p + 99) / 100
  }

  function Rank(sorted: seq<nat>, p: nat): nat
    requires sorted != [] && p <= 100
  {
    RankAtMost(|sorted|, p);
    sorted[SaturatingSub(RankOf(|sorted|, p), 1)]
  }

  lemma RankAtMost(len: nat, p: nat)
    requires p <= 100
    ensures RankOf(len, p) <= len
  {
    MulLe(p, 100, len);
  }

  /** p50, p95 and maximum; None without samples. */
  function Percentiles(samples: seq<nat>): Option<(nat, nat, nat)> {
    var sorted := Sort(samples);
    if samples == [] then None
    else if sorted == [] then None
    else Some((Rank(sorted, 50), Rank(sorted, 95), sorted[|sorted| - 1]))
  }

  lemma {:induction false} InsertFacts(x: nat, s: seq<nat>, v: nat, strict: bool)
    requires Ascending(s)
    ensures var r := InsertInto(x, s);
            && |r| == |s| + 1 && Ascending(r) && (r[0] == x || (s != [] && r[0] == s[0]))
            && CountUpTo(r, v, strict) == CountUpTo([x] + s, v, strict)
  {
    if s == [] || x <= s[0] {
    } else {
      InsertFacts(x, s[1..], v, strict);
      var r := InsertInto(x, s[1..]);
      assert InsertInto(x, s)[1..] == r;
      assert ([x] + s)[1..] == s && ([x] + s[1..])[1..] == s[1..];
      assert forall i :: 0 <= i < |r| ==> s[0] <= r[i];
    }
  }

  /** Sorting keeps the length and every count. */
  lemma {:induction false} SortFacts(s: seq<nat>, v: nat, strict: bool)
    ensures |Sort(s)| == |s| && Ascending(Sort(s)) && CountUpTo(Sort(s), v, strict) == CountUpTo(s, v, strict)
  {
    if s != [] {
      SortFacts(s[1..], v, strict);
      InsertFacts(s[0], Sort(s[1..]), v, strict);
      assert ([s[0]] + Sort(s[1..]))[1..] == Sort(s[1..]);
    }
  }

  lemma {:induction false} CountPrefix(s: seq<nat>, k: nat, v: nat)
    requires k <= |s| && forall i :: 0 <= i < k ==> s[i] <= v
    ensures CountUpTo(s, v, false) >= k
  {
    if k > 0 {
      CountPrefix(s[1..], k - 1, v);
    }
  }

  lemma {:induction false} CountBelow(s: seq<nat>, k: nat, v: nat)
    requires k <= |s| && forall i :: k <= i < |s| ==> s[i] >= v
    ensures CountUpTo(s, v, true) <= k
  {
    if s != [] {
      CountBelow(s[1..], if k > 0 then k - 1 else 0, v);
    }
  }

  lemma RankBounds(len: nat, p: nat)
    requires len > 0 && 1 <= p <= 100
    ensures 1 <= RankOf(len, p) <= len
  {
    assert len * p <= len * 100 by {
      MulLe(p, 100, len);
    }
    assert len * p >= 1 by {
      MulLe(1, p, len);
    }
  }

  /** The nearest rank, said of the unsorted samples: at least ⌈p·len/100⌉ of them are at
      most the value, fewer are strictly below it. */
  lemma NearestRank(samples: seq<nat>, p: nat)
    requires samples != [] && 1 <= p <= 100
    ensures Sort(samples) != []
    ensures var v := Rank(Sort(samples), p);
            CountUpTo(samples, v, false) >= RankOf(|samples|, p) > CountUpTo(samples, v, true)
  {
    SortFacts(samples, 0, false);
    RankBounds(|samples|, p);
    hide RankOf, Sort, CountUpTo, Ascending;
    var sorted, r := Sort(samples), RankOf(|samples|, p);
    CountAround(sorted, r);
    SortFacts(samples, sorted[r - 1], false);
    SortFacts(samples, sorted[r - 1], true);
  }

  lemma CountAround(sorted: seq<nat>, r: nat)
    requires Ascending(sorted) && 1 <= r <= |sorted|
    ensures CountUpTo(sorted, sorted[r - 1], false) >= r > CountUpTo(sorted, sorted[r - 1], true)
  {
    hide CountUpTo;
    CountPrefix(sorted, r, sorted[r - 1]);
    CountBelow(sorted, r - 1, sorted[r - 1]);
  }

  /** Three values are the p50, the p95 and the maximum of these samples. */
  predicate Summarises(samples: seq<nat>, p: (nat, nat, nat)) {
    && CountUpTo(samples, p.0, false) >= RankOf(|samples|, 50) > CountUpTo(samples, p.0, true)
    && CountUpTo(samples, p.1, false) >= RankOf(|samples|, 95) > CountUpTo(samples, p.1, true)
    && CountUpTo(samples, p.2, false) == |samples| > CountUpTo(samples, p.2, true)
    && p.0 <= p.1 <= p.2
  }

  /** The three reported values, and that the maximum is a maximum. */
  lemma PercentilesAreRanks(samples: seq<nat>)
    ensures samples == [] <==> Percentiles(samples).None?
    ensures samples != [] ==> Summarises(samples, Percentiles(samples).value)
  {
    hide CountUpTo, Sort, Rank, RankOf;
    if samples != [] {
      NearestRank(samples, 50);
      NearestRank(samples, 95);
      MaximumIsMaximum(samples);
    }
  }

  lemma MaximumIsMaximum(samples: seq<nat>)
    requires samples != []
    ensures var sorted := Sort(samples);
            && |sorted| == |samples|
            && CountUpTo(samples, sorted[|sorted| - 1], false) == |samples|
            && CountUpTo(samples, sorted[|sorted| - 1], true) < |samples|
            && Rank(sorted, 50) <= Rank(sorted, 95) <= sorted[|sorted| - 1]
  {
    var n := |samples|;
    SortFacts(samples, 0, false);
    var v := Sort(samples)[n - 1];
    SortFacts(samples, v, false);
    SortFacts(samples, v, true);
    CountAround(Sort(samples), n);
    CountAtMost(samples, v);
    hide CountUpTo, Sort;
    assert 1 <= RankOf(n, 50) <= RankOf(n, 95) <= n;
  }

  lemma {:induction false} CountAtMost(s: seq<nat>, v: nat)
    ensures CountUpTo(s, v, false) <= |s|
  {
    if s != [] {
      CountAtMost(s[1..], v);
    }
  }

  // ── The ring buffer ─────────────────────────────────────────────────────────────

  /** The last `cap` samples of a history. */
  function Latest(history: seq<nat>, cap: nat): seq<nat> {
    if |history| <= cap then history else history[|history| - cap..]
  }

  /** n mod cap, the slot the (n+1)-th sample goes to. */
  function Slot(n: nat, cap: nat): (r: nat)
    requires cap > 0
    ensures r < cap && r <= n
    decreases n
  {
    if n < cap then n else Slot(n - cap, cap)
  }

  lemma {:induction false} SlotIsMod(n: nat)
    ensures Slot(n, LATENCY_WINDOW_CAP) == n % LATENCY_WINDOW_CAP
  {
    if n >= LATENCY_WINDOW_CAP {
      SlotIsMod(n - LATENCY_WINDOW_CAP);
    }
  }

  lemma {:induction false} SlotStep(n: nat, cap: nat)
    requires cap > 0
    ensures Slot(n + 1, cap) == if Slot(n, cap) + 1 == cap then 0 else Slot(n, cap) + 1
  {
    if n >= cap {
      SlotStep(n - cap, cap);
    }
  }

  /** How a round-robin buffer of size `cap` lays them out: rotated by the write position. */
  function Layout(history: seq<nat>, cap: nat): (s: seq<nat>)
    requires cap > 0
    ensures |s| == Min(|history|, cap)
  {
    var n := |history|;
    if n <= cap then history else Rotated(history[n - cap..], Slot(n, cap))
  }

  /** The last k elements first. */
  function Rotated(s: seq<nat>, k: nat): (r: seq<nat>)
    requires k <= |s|
    ensures |r| == |s|
  {
    s[|s| - k..] + s[..|s| - k]
  }

  /** Overwriting the oldest of a rotated stretch rotates the stretch one further on. */
  lemma RotatedStep(a: seq<nat>, x: nat, k: nat)
    requires k < |a|
    ensures Rotated(a, k)[k := x] == Rotated(a[1..] + [x], if k + 1 == |a| then 0 else k + 1)
  {
    var p, q := a[|a| - k..], a[1..|a| - k];
    assert a == [a[0]] + q + p;
    assert Rotated(a, k) == p + [a[0]] + q;
    assert a[1..] + [x] == q + (p + [x]);
    assert Rotated(q + (p + [x]), if q == [] then 0 else k + 1) == p + [x] + q;
  }

  lemma LayoutFull(history: seq<nat>, cap: nat)
    requires 0 < cap <= |history|
    ensures Layout(history, cap) == Rotated(history[|history| - cap..], Slot(|history|, cap))
  {
    if |history| == cap {
      assert Slot(cap, cap) == 0;
      assert history == Rotated(history, 0);
    }
  }

  lemma OverwriteStep(history: seq<nat>, x: nat, cap: nat)
    requires 0 < cap <= |history|
    ensures Layout(history + [x], cap) == Layout(history, cap)[Slot(|history|, cap) := x]
  {
    hide Layout, Slot, Rotated;
    var n, latest := |history|, history[|history| - cap..];
    LayoutFull(history, cap);
    LayoutFull(history + [x], cap);
    assert (history + [x])[n + 1 - cap..] == latest[1..] + [x];
    SlotStep(n, cap);
    RotatedStep(latest, x, Slot(n, cap));
  }

  /** Recording appends until the buffer is full and then overwrites slot n mod cap. */
  lemma LayoutStep(history: seq<nat>, x: nat, cap: nat)
    requires cap > 0
    ensures var n, s := |history|, Layout(history, cap);
            Layout(history + [x], cap) == if n < cap then s + [x] else s[Slot(n, cap) := x]
  {
    if |history| >= cap {
      OverwriteStep(history, x, cap);
    }
  }

  /** Rotation aside, the buffer holds exactly the latest samples. */
  lemma LayoutHoldsLatest(history: seq<nat>, cap: nat)
    requires cap > 0
    ensures multiset(Layout(history, cap)) == multiset(Latest(history, cap))
  {
    if |history| > cap {
      var a, b := LayoutHalves(history, cap);
      hide Layout, Latest;
      SwapHalves(a, b);
    }
  }

  /** The buffer and the latest samples are the same two stretches, in either order. */
  lemma LayoutHalves(history: seq<nat>, cap: nat) returns (a: seq<nat>, b: seq<nat>)
    requires cap > 0 && |history| > cap
    ensures Layout(history, cap) == b + a && Latest(history, cap) == a + b
  {
    hide Slot;
    var latest, k := Latest(history, cap), Slot(|history|, cap);
    a, b := latest[..|latest| - k], latest[|latest| - k..];
    assert latest == a + b;
  }

  lemma SwapHalves(a: seq<nat>, b: seq<nat>)
    ensures multiset(b + a) == multiset(a + b)
  {
  }

  lemma {:induction false} CountConcat(a: seq<nat>, b: seq<nat>, v: nat, strict: bool)
    ensures CountUpTo(a + b, v, strict) == CountUpTo(a, v, strict) + CountUpTo(b, v, strict)
  {
    if a == [] {
      assert a + b == b;
    } else {
      assert (a + b)[1..] == a[1..] + b;
      CountConcat(a[1..], b, v, strict);
    }
  }

  /** So a summary of the buffer is one of the latest samples. */
  lemma SummaryOfLatest(history: seq<nat>, cap: nat, p: (nat, nat, nat))
    requires cap > 0 && Summarises(Layout(history, cap), p)
    ensures Summarises(Latest(history, cap), p)
  {
    if |history| > cap {
      var a, b := LayoutHalves(history, cap);
      CountsSwap(a, b, p.0);
      CountsSwap(a, b, p.1);
      CountsSwap(a, b, p.2);
      hide Layout, Latest, CountUpTo, RankOf;
    }
  }

  lemma CountsSwap(a: seq<nat>, b: seq<nat>, v: nat)
    ensures CountUpTo(b + a, v, false) == CountUpTo(a + b, v, false)
    ensures CountUpTo(b + a, v, true) == CountUpTo(a + b, v, true)
  {
    CountConcat(a, b, v, false);
    CountConcat(b, a, v, false);
    CountConcat(a, b, v, true);
    CountConcat(b, a, v, true);
  }

  class LatencyWindow {
    var samples: seq<nat>
    var n: nat
    ghost var history: seq<nat>

    /** The buffer is the layout of everything recorded since the last summary. */
    ghost predicate Valid()
      reads this
    {
      n == |history| && samples == Layout(history, LATENCY_WINDOW_CAP)
    }

    constructor ()
      ensures Valid() && history == []
    {
      samples, n, history := [], 0, [];
    }

    method Record(ms: nat)
      requires Valid()
      modifies this
      ensures Valid() && history == old(history) + [ms]
      ensures multiset(samples) == multiset(Latest(history, LATENCY_WINDOW_CAP))
    {
      LayoutStep(history, ms, LATENCY_WINDOW_CAP);
      SlotIsMod(n);
      if |samples| < LATENCY_WINDOW_CAP {
        samples := samples + [ms];
      } else {
        samples := samples[n % LATENCY_WINDOW_CAP := ms];
      }
      n := n + 1;
      history := history + [ms];
      LayoutHoldsLatest(history, LATENCY_WINDOW_CAP);
      hide Layout, Latest;
    }

    /** Percentiles of the latest samples with the exact number recorded; clears the window. */
    method TakeSummary() returns (summary: Option<((nat, nat, nat), nat)>)
      requires Valid()
      modifies this
      ensures Valid() && history == []
      ensures summary.None? <==> old(history) == []
      ensures summary.Some? ==>
                && summary.value.1 == |old(history)|
                && Summarises(Latest(old(history), LATENCY_WINDOW_CAP), summary.value.0)
    {
      PercentilesAreRanks(samples);
      hide Percentiles, Summarises, Latest, Layout;
      var p, count := Percentiles(samples), n;
      if p.Some? {
        SummaryOfLatest(history, LATENCY_WINDOW_CAP, p.value);
        summary := Some((p.value, count));
      } else {
        summary := None;
      }
      EmptyLayout();
      samples, n, history := [], 0, [];
    }
  }

  lemma EmptyLayout()
    ensures Layout([], LATENCY_WINDOW_CAP) == []
  {
  }
}
