/** Opportunity fingerprints and the keys of the shared cooldown map
    (engine/src/types.rs, engine/src/chain/scan.rs). */
module Keys {

  datatype Opportunity =
    | TwoHop(pairId: string, routerA: string, feeA: nat, routerB: string, feeB: nat, amountIn: nat)
    | Triangular(tripletId: string, routerAB: string, feeAB: nat, routerBC: string, feeBC: nat,
                 routerCA: string, feeCA: nat, amountIn: nat)
  {
    /** Display id: the pair or triplet. */
    function PairId(): string {
      if TwoHop? then pairId else tripletId
    }

    function Fingerprint(): string {
      match this
      case TwoHop(p, a, fa, b, fb, amount) =>
        p + "|" + (Leg(a, fa) + "|" + (Leg(b, fb) + "|" + Decimal(amount)))
      case Triangular(p, a, fa, b, fb, c, fc, amount) =>
        p + "|" + (Leg(a, fa) + "|" + (Leg(b, fb) + "|" + (Leg(c, fc) + "|" + Decimal(amount))))
    }

    /** No id contains the separator; router ids may contain ':'. */
    predicate BarFree() {
      match this
      case TwoHop(p, a, _, b, _, _) => '|' !in p && '|' !in a && '|' !in b
      case Triangular(p, a, _, b, _, c, _, _) => '|' !in p && '|' !in a && '|' !in b && '|' !in c
    }
  }

  function GasLogKey(fingerprint: string): string {
    fingerprint + "|gaslog"
  }

  function OppCountKey(fingerprint: string): string {
    fingerprint + "|counted"
  }

  function Leg(router: string, fee: nat): string {
    router + ":" + Decimal(fee)
  }

  // ── Decimal rendering ───────────────────────────────────────────────────────────

  const DIGITS: string := "0123456789"

  function Decimal(n: nat): (s: string)
    ensures s != [] && forall i :: 0 <= i < |s| ==> s[i] in DIGITS
  {
    if n < 10 then [DIGITS[n]] else Decimal(n / 10) + [DIGITS[n % 10]]
  }

  function DigitValue(c: char): nat {
    if '0' <= c <= '9' then (c - '0') as nat else 0
  }

  /** Reading a decimal rendering back. */
  function ValueOf(s: string): nat {
    if s == [] then 0 else ValueOf(s[..|s| - 1]) * 10 + DigitValue(s[|s| - 1])
  }

  lemma {:induction false} DecimalRoundTrip(n: nat)
    ensures ValueOf(Decimal(n)) == n
  {
    var s := Decimal(n);
    if n < 10 {
      assert s[..0] == [];
    } else {
      DecimalRoundTrip(n / 10);
      assert s[..|s| - 1] == Decimal(n / 10);
    }
  }

  lemma DecimalInjective(a: nat, b: nat)
    requires Decimal(a) == Decimal(b)
    ensures a == b
  {
    DecimalRoundTrip(a);
    DecimalRoundTrip(b);
  }

  lemma DecimalPlain(n: nat)
    ensures '|' !in Decimal(n) && ':' !in Decimal(n)
  {
  }

  // ── Splitting at a separator ────────────────────────────────────────────────────

  function FirstIndex(s: string, c: char): nat {
    if s == [] || s[0] == c then 0 else 1 + FirstIndex(s[1..], c)
  }

  lemma {:induction false} FirstIndexAt(a: string, x: string, c: char)
    requires c !in a
    ensures FirstIndex(a + [c] + x, c) == |a|
  {
    if a != [] {
      FirstIndexAt(a[1..], x, c);
      assert (a + [c] + x)[1..] == a[1..] + [c] + x;
    }
  }

  /** Length of the part after the last separator. */
  function TailLength(s: string, c: char): nat {
    if s == [] || s[|s| - 1] == c then 0 else 1 + TailLength(s[..|s| - 1], c)
  }

  lemma {:induction false} TailLengthAt(a: string, x: string, c: char)
    requires c !in x
    ensures TailLength(a + [c] + x, c) == |x|
  {
    if x != [] {
      TailLengthAt(a, x[..|x| - 1], c);
      assert (a + [c] + x)[..|a| + |x|] == a + [c] + x[..|x| - 1];
    } else {
      assert a + [c] + x == a + [c];
    }
  }

  /** At the first separator. */
  lemma SplitFirst(a: string, x: string, b: string, y: string, c: char)
    requires a + [c] + x == b + [c] + y && c !in a && c !in b
    ensures a == b && x == y
  {
    FirstIndexAt(a, x, c);
    FirstIndexAt(b, y, c);
    SamePieces(a, x, b, y, c);
  }

  /** At the last separator. */
  lemma SplitLast(a: string, x: string, b: string, y: string, c: char)
    requires a + [c] + x == b + [c] + y && c !in x && c !in y
    ensures a == b && x == y
  {
    TailLengthAt(a, x, c);
    TailLengthAt(b, y, c);
    assert |a + [c] + x| == |b + [c] + y|;
    SamePieces(a, x, b, y, c);
  }

  lemma SamePieces(a: string, x: string, b: string, y: string, c: char)
    requires a + [c] + x == b + [c] + y && |a| == |b|
    ensures a == b && x == y
  {
    var s := a + [c] + x;
    assert a == s[..|a|] && x == s[|a| + 1..];
    assert b == (b + [c] + y)[..|b|] && y == (b + [c] + y)[|b| + 1..];
  }

  lemma LegInjective(a: string, fa: nat, b: string, fb: nat)
    requires Leg(a, fa) == Leg(b, fb)
    ensures a == b && fa == fb
  {
    DecimalPlain(fa);
    DecimalPlain(fb);
    SplitLast(a, Decimal(fa), b, Decimal(fb), ':');
    DecimalInjective(fa, fb);
  }

  lemma LegBarFree(router: string, fee: nat)
    requires '|' !in router
    ensures '|' !in Leg(router, fee)
  {
    DecimalPlain(fee);
  }

  // ── Fingerprints identify routes ────────────────────────────────────────────────

  lemma TwoHopInjective(o: Opportunity, o': Opportunity)
    requires o.TwoHop? && o'.TwoHop? && o.BarFree() && o'.BarFree()
    requires o.Fingerprint() == o'.Fingerprint()
    ensures o == o'
  {
    var tail1 := Leg(o.routerB, o.feeB) + "|" + Decimal(o.amountIn);
    var tail1' := Leg(o'.routerB, o'.feeB) + "|" + Decimal(o'.amountIn);
    LegBarFree(o.routerA, o.feeA);
    LegBarFree(o'.routerA, o'.feeA);
    LegBarFree(o.routerB, o.feeB);
    LegBarFree(o'.routerB, o'.feeB);
    hide Leg, Decimal;
    SplitFirst(o.pairId, Leg(o.routerA, o.feeA) + "|" + tail1, o'.pairId, Leg(o'.routerA, o'.feeA) + "|" + tail1', '|');
    SplitFirst(Leg(o.routerA, o.feeA), tail1, Leg(o'.routerA, o'.feeA), tail1', '|');
    SplitFirst(Leg(o.routerB, o.feeB), Decimal(o.amountIn), Leg(o'.routerB, o'.feeB), Decimal(o'.amountIn), '|');
    LegInjective(o.routerA, o.feeA, o'.routerA, o'.feeA);
    LegInjective(o.routerB, o.feeB, o'.routerB, o'.feeB);
    DecimalInjective(o.amountIn, o'.amountIn);
  }

  lemma TriangularInjective(o: Opportunity, o': Opportunity)
    requires o.Triangular? && o'.Triangular? && o.BarFree() && o'.BarFree()
    requires o.Fingerprint() == o'.Fingerprint()
    ensures o == o'
  {
    var l1, l2, l3 := Leg(o.routerAB, o.feeAB), Leg(o.routerBC, o.feeBC), Leg(o.routerCA, o.feeCA);
    var m1, m2, m3 := Leg(o'.routerAB, o'.feeAB), Leg(o'.routerBC, o'.feeBC), Leg(o'.routerCA, o'.feeCA);
    LegBarFree(o.routerAB, o.feeAB);
    LegBarFree(o'.routerAB, o'.feeAB);
    LegBarFree(o.routerBC, o.feeBC);
    LegBarFree(o'.routerBC, o'.feeBC);
    LegBarFree(o.routerCA, o.feeCA);
    LegBarFree(o'.routerCA, o'.feeCA);
    var a, a' := Decimal(o.amountIn), Decimal(o'.amountIn);
    hide Leg, Decimal;
    SplitFirst(o.tripletId, l1 + "|" + (l2 + "|" + (l3 + "|" + a)), o'.tripletId,
               m1 + "|" + (m2 + "|" + (m3 + "|" + a')), '|');
    SplitFirst(l1, l2 + "|" + (l3 + "|" + a), m1, m2 + "|" + (m3 + "|" + a'), '|');
    SplitFirst(l2, l3 + "|" + a, m2, m3 + "|" + a', '|');
    SplitFirst(l3, a, m3, a', '|');
    LegInjective(o.routerAB, o.feeAB, o'.routerAB, o'.feeAB);
    LegInjective(o.routerBC, o.feeBC, o'.routerBC, o'.feeBC);
    LegInjective(o.routerCA, o.feeCA, o'.routerCA, o'.feeCA);
    DecimalInjective(o.amountIn, o'.amountIn);
  }

  lemma KindsDiffer(o: Opportunity, o': Opportunity)
    requires o.TwoHop? && o'.Triangular? && o.BarFree() && o'.BarFree()
    ensures o.Fingerprint() != o'.Fingerprint()
  {
    if o.Fingerprint() == o'.Fingerprint() {
      var l1, l2, a := Leg(o.routerA, o.feeA), Leg(o.routerB, o.feeB), Decimal(o.amountIn);
      var m1, m2 := Leg(o'.routerAB, o'.feeAB), Leg(o'.routerBC, o'.feeBC);
      var rest := Leg(o'.routerCA, o'.feeCA) + "|" + Decimal(o'.amountIn);
      LegBarFree(o.routerA, o.feeA);
      LegBarFree(o'.routerAB, o'.feeAB);
      LegBarFree(o.routerB, o.feeB);
      LegBarFree(o'.routerBC, o'.feeBC);
      DecimalPlain(o.amountIn);
      assert rest[|Leg(o'.routerCA, o'.feeCA)|] == '|';
      hide Leg, Decimal;
      SplitFirst(o.pairId, l1 + "|" + (l2 + "|" + a), o'.tripletId, m1 + "|" + (m2 + "|" + rest), '|');
      SplitFirst(l1, l2 + "|" + a, m1, m2 + "|" + rest, '|');
      SplitFirst(l2, a, m2, rest, '|');
      assert false;
    }
  }

  /** Equal fingerprints mean the same kind, pair id, router ids, fees and amount. */
  lemma FingerprintInjective(o: Opportunity, o': Opportunity)
    requires o.BarFree() && o'.BarFree() && o.Fingerprint() == o'.Fingerprint()
    ensures o == o'
  {
    hide Opportunity.Fingerprint, Opportunity.BarFree;
    if o.TwoHop? && o'.TwoHop? {
      TwoHopInjective(o, o');
    } else if o.Triangular? && o'.Triangular? {
      TriangularInjective(o, o');
    } else if o.TwoHop? {
      KindsDiffer(o, o');
    } else {
      KindsDiffer(o', o);
    }
  }

  /** The separator must stay out of ids: with a bar in a pair id, a 2-hop and a triangular
      route share one fingerprint. */
  lemma BarInIdCollides()
    ensures var o := TwoHop("x|a:1", "b", 2, "c", 3, 4);
            var o' := Triangular("x", "a", 1, "b", 2, "c", 3, 4);
            o != o' && !o.BarFree() && o'.BarFree() && o.Fingerprint() == o'.Fingerprint()
  {
  }

  // ── Four uses of one map ────────────────────────────────────────────────────────

  lemma FingerprintShape(o: Opportunity)
    ensures var f := o.Fingerprint();
            |f| > |o.PairId()| && f[..|o.PairId()|] == o.PairId() && f[|o.PairId()|] == '|' && f[|f| - 1] in DIGITS
  {
  }

  /** A display id, a fingerprint, a gas-log key and a count key are never the same string,
      whatever routes they come from. */
  lemma CooldownKeysDisjoint(o: Opportunity, o': Opportunity)
    requires o.BarFree() && o'.BarFree()
    ensures o.PairId() != o'.Fingerprint()
    ensures o.PairId() != GasLogKey(o'.Fingerprint()) && o.PairId() != OppCountKey(o'.Fingerprint())
    ensures o.Fingerprint() != GasLogKey(o'.Fingerprint()) && o.Fingerprint() != OppCountKey(o'.Fingerprint())
    ensures GasLogKey(o.Fingerprint()) != OppCountKey(o'.Fingerprint())
  {
    FingerprintShape(o);
    FingerprintShape(o');
    hide Opportunity.Fingerprint;
    var f, f' := o.Fingerprint(), o'.Fingerprint();
    assert f'[|o'.PairId()|] == '|' && '|' in f';
    assert GasLogKey(f')[|f'|] == '|' && OppCountKey(f')[|f'|] == '|';
    assert '|' !in o.PairId();
    assert GasLogKey(f')[|GasLogKey(f')| - 1] == 'g' && OppCountKey(f')[|OppCountKey(f')| - 1] == 'd';
    assert GasLogKey(f)[|GasLogKey(f)| - 1] == 'g';
  }

  /** Within each use, the key identifies the route. */
  lemma LogKeysInjective(f: string, f': string)
    ensures GasLogKey(f) == GasLogKey(f') ==> f == f'
    ensures OppCountKey(f) == OppCountKey(f') ==> f == f'
  {
    if GasLogKey(f) == GasLogKey(f') {
      assert GasLogKey(f)[..|f|] == f && GasLogKey(f')[..|f'|] == f';
    }
    if OppCountKey(f) == OppCountKey(f') {
      assert OppCountKey(f)[..|f|] == f && OppCountKey(f')[..|f'|] == f';
    }
  }

  // ── Clearing after a large swap ─────────────────────────────────────────────────

  predicate MatchesAt(s: string, sub: string, i: nat) {
    i + |sub| <= |s| && s[i..i + |sub|] == sub
  }

  /** `str::contains`. */
  predicate Contains(s: string, sub: string) {
    exists i :: 0 <= i <= |s| && MatchesAt(s, sub, i)
  }

  lemma PrefixContained(s: string, sub: string)
    requires |sub| <= |s| && s[..|sub|] == sub
    ensures Contains(s, sub)
  {
    assert MatchesAt(s, sub, 0);
  }

  lemma ContainedInPrefix(s: string, prefix: string, sub: string)
    requires |prefix| <= |s| && s[..|prefix|] == prefix && Contains(prefix, sub)
    ensures Contains(s, sub)
  {
    var i :| 0 <= i <= |prefix| && MatchesAt(prefix, sub, i);
    assert s[i..i + |sub|] == prefix[i..i + |sub|];
    assert MatchesAt(s, sub, i);
  }

  /** All four keys of a route contain whatever its pair id contains, itself first, so clearing
      by pair id clears all four. */
  lemma EveryKeyContainsPairId(o: Opportunity, sub: string)
    ensures Contains(o.PairId(), o.PairId())
    ensures var f := o.Fingerprint();
            Contains(o.PairId(), sub) ==>
              Contains(f, sub) && Contains(GasLogKey(f), sub) && Contains(OppCountKey(f), sub)
  {
    FingerprintShape(o);
    hide Opportunity.Fingerprint;
    var f, id := o.Fingerprint(), o.PairId();
    PrefixContained(id, id);
    if Contains(id, sub) {
      assert GasLogKey(f)[..|id|] == id && OppCountKey(f)[..|id|] == id;
      ContainedInPrefix(f, id, sub);
      ContainedInPrefix(GasLogKey(f), id, sub);
      ContainedInPrefix(OppCountKey(f), id, sub);
    }
  }
}
