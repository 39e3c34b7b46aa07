/** What the parser makes of UniversalRouter calls from a standard encoder
    (engine/src/chain/pending.rs). */
module StandardCalls {
  import Arithmetic
  import opened Bytes
  import opened Calldata
  import opened CalldataCodec
  import opened Pools
  import opened Words

  // ── What the two commands read, field by field ──────────────────────────────────

  /** The swap of a packed path whose length word is at `at`. */
  function PathAt(w: seq<byte>, at: nat, amount: nat): Option<PendingSwap> {
    if at + 32 > |w| then None
    else
      var len := FromBE(w[at..at + 32]);
      if len < 43 || at + 32 + len > |w| then None
      else
        var tokenIn, tokenOut := FromBE(w[at + 32..at + 52]), FromBE(w[at + 12 + len..at + 32 + len]);
        if tokenIn == tokenOut then None else Some(PendingSwap(tokenIn, tokenOut, amount))
  }

  /** The swap of an `address[]` whose length word is at `at`. */
  function ArrayAt(w: seq<byte>, at: nat, amount: nat): Option<PendingSwap> {
    if at + 32 > |w| then None
    else
      var len := FromBE(w[at..at + 32]);
      if len < 2 || len > 100 || at + 32 + 32 * len > |w| then None
      else
        var tokenIn, tokenOut := FromBE(w[at + 44..at + 64]), FromBE(w[at + 32 * len + 12..at + 32 * len + 32]);
        if tokenIn == tokenOut then None else Some(PendingSwap(tokenIn, tokenOut, amount))
  }

  function Decode(command: byte, w: seq<byte>, at: nat, amount: nat): Option<PendingSwap> {
    if command == CMD_V3_SWAP_EXACT_IN then PathAt(w, at, amount)
    else if command == CMD_V2_SWAP_EXACT_IN then ArrayAt(w, at, amount)
    else None
  }

  lemma WordReads(w: seq<byte>, at: nat)
    requires |w| < TWO_64
    ensures WordAt(w, at) == if at + 32 > |w| then None else Some(w[at..at + 32])
  {
  }

  lemma UsizeReads(w: seq<byte>, at: nat)
    requires |w| < TWO_64
    ensures UsizeAt(w, at)
         == if at + 32 > |w| || FromBE(w[at..at + 32]) >= TWO_64 then None else Some(FromBE(w[at..at + 32]))
  {
    WordReads(w, at);
    hide WordAt, FromBE;
  }

  lemma PathReads(w: seq<byte>)
    requires 160 <= |w| && |w| < TWO_64
    ensures ParseInputV3(w) == PathAt(w, FromBE(w[96..128]), FromBE(w[32..64]))
  {
    hide UsizeAt, FromBE;
    var at := FromBE(w[96..128]);
    UsizeReads(w, 96);
    UsizeReads(w, at);
    assert w[32..64][..32] == w[32..64];
    if at + 32 <= |w| {
      PathEnds(w, at, FromBE(w[at..at + 32]));
    }
  }

  lemma PathEnds(w: seq<byte>, at: nat, len: nat)
    ensures len >= 43 && at + 32 + len <= |w| ==>
              var path := w[at + 32..at + 32 + len];
              path[0..20] == w[at + 32..at + 52] && path[len - 20..len] == w[at + 12 + len..at + 32 + len]
  {
  }

  lemma ArrayReads(w: seq<byte>)
    requires 160 <= |w| && |w| < TWO_64
    ensures ParseInputV2(w) == ArrayAt(w, FromBE(w[96..128]), FromBE(w[32..64]))
  {
    var at := FromBE(w[96..128]);
    UsizeReads(w, 96);
    UsizeReads(w, at);
    assert w[32..64][..32] == w[32..64];
    hide UsizeAt, FromBE, AddressArrayEnds;
    EndsRead(w, at);
  }

  lemma EndsRead(w: seq<byte>, at: nat)
    requires |w| < TWO_64
    ensures var s := ArrayAt(w, at, 0);
            AddressArrayEnds(w, at)
            == if at < TWO_64 && s.Some? then Some((s.value.tokenIn, s.value.tokenOut)) else None
  {
    UsizeReads(w, at);
    hide UsizeAt, FromBE, WordAt;
    if at + 32 <= |w| {
      var len := FromBE(w[at..at + 32]);
      if 2 <= len <= 100 {
        WordReads(w, at + 32);
        WordReads(w, at + 32 * len);
        if at + 32 + 32 * len <= |w| {
          assert w[at + 32..at + 64][12..32] == w[at + 44..at + 64];
          assert w[at + 32 * len..at + 32 * len + 32][12..32] == w[at + 32 * len + 12..at + 32 * len + 32];
        }
      }
    }
  }

  // ── Where the parser looks in a standard call ───────────────────────────────────

  /** What a standard call with several inputs is read as: the offset of the last input is taken
      for the length of the first, which is taken to start one word early; so of the bytes of
      the inputs, the third word, a swap's minimum output, is taken for the position of the
      path, and the first, its recipient, for the amount. */
  function Verdict(command: byte, size: nat, inputs: seq<byte>, last: nat): Option<PendingSwap> {
    if last < 160 || last > 32 + |inputs| then None
    else Decode(command, (Word(size) + inputs)[..last], FromBE(inputs[64..96]), FromBE(inputs[0..32]))
  }

  lemma DecodeReads(command: byte, size: nat, inputs: seq<byte>, last: nat)
    requires last <= 32 + |inputs| < TWO_64
    ensures ParseInput(command, (Word(size) + inputs)[..last]) == Verdict(command, size, inputs, last)
  {
    var w := (Word(size) + inputs)[..last];
    hide Word, FromBE, ParseInputV2, ParseInputV3, PathAt, ArrayAt;
    ShortInput(command, w);
    if last >= 160 {
      assert w[32..64] == inputs[0..32] && w[96..128] == inputs[64..96];
      PathReads(w);
      ArrayReads(w);
    }
  }

  /** The words of the inputs array that the parser reads at the standard offset. */
  lemma ArrayWordsRead(before: seq<byte>, block: seq<byte>, tail: seq<byte>, n: nat, last: nat)
    requires |before| == 164 && |block| == 32 * (n + 2) && n >= 2 && last < TWO_256
    requires |before| + |block| + |tail| < TWO_64
    requires Holds(block, 0, n) && Holds(block, 1, 32 * n) && Holds(block, n, last)
    ensures var data := before + block + tail;
            && UsizeAt(data, 164) == Some(n) && UsizeAt(data, 196) == Some(32 * n)
            && UsizeAt(data, 164 + 32 * n) == if last < TWO_64 then Some(last) else None
  {
    UsizeInside(before, block, tail, 0, n);
    UsizeInside(before, block, tail, 1, 32 * n);
    WordInside(before, block, tail, n, last);
    WordValue(last);
    hide Word, Holds, WordAt, FromBE;
  }

  lemma BytesAfterHeads(before: seq<byte>, block: seq<byte>, tail: seq<byte>, n: nat, size: nat)
    requires |before| == 164 && |block| == 32 * (n + 2) && Holds(block, n + 1, size)
    ensures (before + block + tail)[164 + 32 * (n + 1)..] == Word(size) + tail
  {
    assert block[32 * (n + 1)..] == Word(size) by {
      assert block[32 * (n + 1)..32 * (n + 1) + 32] == Word(size);
    }
    hide Word, Holds;
  }

  /** The first input, as the parser finds it at the standard offset. */
  lemma FirstInputShifted(before: seq<byte>, block: seq<byte>, input: seq<byte>, rest: seq<byte>, n: nat, last: nat)
    requires |before| == 164 && |block| == 32 * (n + 2) && n >= 2 && last < TWO_256
    requires |before| + |block| + |input| + |rest| < TWO_64
    requires Holds(block, 0, n) && Holds(block, 1, 32 * n) && Holds(block, n, last) && Holds(block, n + 1, |input|)
    ensures var data := before + block + input + rest;
            && UsizeAt(data, 164) == Some(n)
            && FirstInput(data, 164)
            == if last > 32 + |input| + |rest| then None else Some((Word(|input|) + input + rest)[..last])
  {
    hide Word, Holds, UsizeAt, FirstInput;
    var tail := input + rest;
    var data := before + block + tail;
    assert before + block + input + rest == data && Word(|input|) + input + rest == Word(|input|) + tail;
    ArrayWordsRead(before, block, tail, n, last);
    BytesAfterHeads(before, block, tail, n, |input|);
    FirstInputAt(data, n, last, Word(|input|) + tail);
  }

  lemma FirstInputAt(data: seq<byte>, n: nat, last: nat, found: seq<byte>)
    requires |data| == 164 + 32 * (n + 1) + |found| && |data| < TWO_64
    requires UsizeAt(data, 196) == Some(32 * n)
    requires UsizeAt(data, 164 + 32 * n) == if last < TWO_64 then Some(last) else None
    requires data[164 + 32 * (n + 1)..] == found
    ensures FirstInput(data, 164) == if last > |found| then None else Some(found[..last])
  {
    hide UsizeAt;
    if last <= |found| {
      var from := 164 + 32 * (n + 1);
      assert data[from..from + last] == data[from..][..last];
    }
  }

  /** Bytes of a standard `execute` call: the first of the offsets is 32 words per input. */
  function StandardCall(deadline: nat, commands: seq<byte>, pad: seq<byte>, others: seq<nat>,
                        input: seq<byte>, rest: seq<byte>): seq<byte> {
    EncodeUniversal(deadline, commands, pad, 32 * (|others| + 1), others, input, rest)
  }

  /** The words of a standard call that the parser reads. */
  lemma StandardWords(deadline: nat, count: nat, others: seq<nat>, size: nat)
    requires others != []
    ensures var heads := EncodeWords([96, 160, deadline, count]);
            && |heads| == 128 && Holds(heads, 0, 96) && Holds(heads, 1, 160) && Holds(heads, 3, count)
    ensures var n, block := 1 + |others|, EncodeWords([1 + |others|, 32 * (1 + |others|)] + others + [size]);
            && |block| == 32 * (n + 2) && Holds(block, 0, n) && Holds(block, 1, 32 * n)
            && Holds(block, n, others[|others| - 1]) && Holds(block, n + 1, size)
  {
    hide EncodeWords, Holds;
    var n := 1 + |others|;
    var heads, ws := [96, 160, deadline, count], [n, 32 * n] + others + [size];
    InputsWords(32 * n, others, size);
    ThreeWords(heads, 3, 96, 160, count);
    ThreeWords(ws, n + 1, n, 32 * n, size);
    ThreeWords(ws, n, n, 32 * n, others[|others| - 1]);
  }

  /** What is found is read by the verdict. */
  lemma FoundVerdict(command: byte, input: seq<byte>, rest: seq<byte>, last: nat)
    requires 32 + |input| + |rest| < TWO_64
    ensures var found := Word(|input|) + input + rest;
            ReadFirst(command, if last > |found| then None else Some(found[..last]))
            == Verdict(command, |input|, input + rest, last)
  {
    hide Word, Verdict, ParseInput;
    assert Word(|input|) + input + rest == Word(|input|) + (input + rest);
    if last <= 32 + |input| + |rest| {
      DecodeReads(command, |input|, input + rest, last);
    } else {
      OutOfReach(command, |input|, input + rest, last);
    }
  }

  /** Exactly what a standard UniversalRouter call with at least two inputs is read as. */
  lemma StandardCallIsRead(deadline: nat, commands: seq<byte>, pad: seq<byte>, others: seq<nat>,
                           input: seq<byte>, rest: seq<byte>, ethValue: nat)
    requires UniversalCall(commands, pad, others, input, rest)
    requires others != [] && others[|others| - 1] < TWO_256
    ensures ParseSwap(StandardCall(deadline, commands, pad, others, input, rest), ethValue)
         == Verdict(commands[0] % 64, |input|, input + rest, others[|others| - 1])
  {
    hide EncodeWords, Holds, ParseSwap, Verdict, ReadFirst, UniversalCall, Word, FirstInput, UsizeAt;
    var n, last := 1 + |others|, others[|others| - 1];
    var heads, block := EncodeWords([96, 160, deadline, |commands|]),
                        EncodeWords([n, 32 * n] + others + [|input|]);
    Sizes(commands, pad, others, input, rest);
    StandardWords(deadline, |commands|, others, |input|);
    FirstInputShifted(SEL_UNIVERSAL_ROUTER + heads + (commands + pad), block, input, rest, n, last);
    UniversalFound(heads, commands + pad, block, input, rest, |commands|, n, ethValue);
    FoundVerdict(commands[0] % 64, input, rest, last);
  }

  lemma Sizes(commands: seq<byte>, pad: seq<byte>, others: seq<nat>, input: seq<byte>, rest: seq<byte>)
    requires UniversalCall(commands, pad, others, input, rest)
    ensures |commands + pad| == 32 && 1 <= |commands| <= 16 && (commands + pad)[0] == commands[0]
    ensures 164 + 32 * (|others| + 3) + |input| + |rest| < TWO_64
  {
  }

  lemma OutOfReach(command: byte, size: nat, inputs: seq<byte>, last: nat)
    requires last > 32 + |inputs|
    ensures Verdict(command, size, inputs, last) == None
  {
  }

  /** The tokens that the bytes at `at` spell: for a V3 command the ends of a packed path of the
      length given there, for a V2 command the first and last of that many words. */
  predicate EndsAt(command: byte, w: seq<byte>, at: nat, tokenIn: Address, tokenOut: Address) {
    && at + 32 <= |w|
    && var len := FromBE(w[at..at + 32]);
       || (&& command == CMD_V3_SWAP_EXACT_IN && 43 <= len <= |w| - 32 - at
           && FromBE(w[at + 32..at + 52]) == tokenIn && FromBE(w[at + 12 + len..at + 32 + len]) == tokenOut)
       || (&& command == CMD_V2_SWAP_EXACT_IN && 2 <= len <= 100 && at + 32 + 32 * len <= |w|
           && FromBE(w[at + 44..at + 64]) == tokenIn
           && FromBE(w[at + 32 * len + 12..at + 32 * len + 32]) == tokenOut)
  }

  lemma VerdictSpells(command: byte, size: nat, inputs: seq<byte>, last: nat, s: PendingSwap)
    ensures Verdict(command, size, inputs, last) == Some(s)
            <==> && 160 <= last <= 32 + |inputs| && s.tokenIn != s.tokenOut && s.amountIn == FromBE(inputs[0..32])
                 && EndsAt(command, (Word(size) + inputs)[..last], FromBE(inputs[64..96]), s.tokenIn, s.tokenOut)
  {
    hide FromBE, Word;
  }

  /** When a standard call is read as a given swap, the right one or another: exactly if the last
      offset is a length the bytes have, the recipient, as a number, is the amount, and at the
      minimum output, as a position, the bytes spell the tokens.  So none with a minimum output
      of that offset or more is read at all. */
  lemma StandardCallVerdicts(deadline: nat, commands: seq<byte>, pad: seq<byte>, others: seq<nat>,
                             input: seq<byte>, rest: seq<byte>, ethValue: nat, s: PendingSwap)
    requires UniversalCall(commands, pad, others, input, rest)
    requires others != [] && others[|others| - 1] < TWO_256
    ensures var inputs, last := input + rest, others[|others| - 1];
            ParseSwap(StandardCall(deadline, commands, pad, others, input, rest), ethValue) == Some(s)
            <==> && 160 <= last <= 32 + |inputs| && s.tokenIn != s.tokenOut
                 && s.amountIn == FromBE(inputs[0..32])
                 && EndsAt(commands[0] % 64, (Word(|input|) + inputs)[..last], FromBE(inputs[64..96]),
                           s.tokenIn, s.tokenOut)
  {
    hide ParseSwap, StandardCall, Verdict, EndsAt, FromBE, Word, UniversalCall;
    StandardCallIsRead(deadline, commands, pad, others, input, rest, ethValue);
    Sizes(commands, pad, others, input, rest);
    VerdictSpells(commands[0] % 64, |input|, input + rest, others[|others| - 1], s);
  }

  // ── With a minimum output of zero ───────────────────────────────────────────────

  /** The first n - k bytes of an n-byte word are those of its quotient. */
  lemma {:induction false} HighBytes(v: nat, n: nat, k: nat)
    requires k <= n
    ensures ToBE(v, n)[..n - k] == ToBE(v / Pow256(k), n - k)
  {
    if k > 0 {
      HighBytes(v / 256, n - 1, k - 1);
      assert ToBE(v, n)[..n - 1] == ToBE(v / 256, n - 1);
      assert ToBE(v, n)[..n - k] == ToBE(v / 256, n - 1)[..n - k];
      assert (v / 256) / Pow256(k - 1) == v / Pow256(k) by {
        Nested(v, Pow256(k - 1));
      }
    } else {
      assert ToBE(v, n)[..n] == ToBE(v, n);
    }
  }

  lemma Nested(v: nat, p: nat)
    requires p > 0
    ensures (v / 256) / p == v / (256 * p)
  {
    hide Arithmetic.Quotient;
    var q := (v / 256) / p;
    assert q * p <= v / 256 < (q + 1) * p;
    assert q * (256 * p) <= v < (q + 1) * (256 * p) by {
      assert q * (256 * p) == 256 * (q * p) && (q + 1) * (256 * p) == 256 * ((q + 1) * p);
    }
    Arithmetic.DivUnique(v, 256 * p, q);
    Arithmetic.QuotientIsDivision(v, 256 * p);
  }

  lemma {:induction false} ZeroBytes(bs: seq<byte>)
    requires forall i :: 0 <= i < |bs| ==> bs[i] == 0
    ensures FromBE(bs) == 0
  {
    if bs != [] {
      ZeroBytes(bs[..|bs| - 1]);
    }
  }

  lemma Pow12()
    ensures Pow256(12) == TWO_96
  {
    assert Pow256(4) == 0x1_0000_0000 by {
      assert Pow256(3) == 0x100_0000;
    }
    Pow256Add(4, 4);
    Pow256Add(8, 4);
  }

  /** The top 20 bytes of an encoded recipient. */
  lemma RecipientHead(recipient: Address)
    requires recipient < TWO_160
    ensures FromBE(Word(recipient)[..20]) == recipient / TWO_96 && FromBE(Word(recipient)) == recipient
  {
    Pow12();
    PowWord();
    HighBytes(recipient, 32, 12);
    FromToBE(recipient / TWO_96, 20);
    WordValue(recipient);
    hide FromBE, ToBE, Pow256;
  }

  lemma {:induction false} FromBEConcat(a: seq<byte>, b: seq<byte>)
    ensures FromBE(a + b) == FromBE(a) * Pow256(|b|) + FromBE(b)
  {
    if b == [] {
      assert a + b == a;
    } else {
      var b' := b[..|b| - 1];
      assert (a + b)[..|a + b| - 1] == a + b';
      FromBEConcat(a, b');
      assert FromBE(a) * Pow256(|b|) == 256 * (FromBE(a) * Pow256(|b'|));
    }
  }

  /** An address followed by zeros, cut to its last 20 bytes, is the address shifted out by as
      many bytes. */
  function Shifted(token: Address, zeros: nat): Address {
    token * Pow256(zeros) % TWO_160
  }

  lemma TailIsShifted(token: Address, padding: seq<byte>)
    requires token < TWO_160 && forall i :: 0 <= i < |padding| ==> padding[i] == 0
    ensures FromBE((ToBE(token, 20) + padding)[|padding|..]) == Shifted(token, |padding|)
  {
    var all := ToBE(token, 20) + padding;
    PowWord();
    hide FromBE, ToBE, Pow256, TWO_160, TWO_256;
    FromToBE(token, 20);
    ZeroBytes(padding);
    FromBEConcat(ToBE(token, 20), padding);
    assert all == all[..|padding|] + all[|padding|..];
    FromBEConcat(all[..|padding|], all[|padding|..]);
    FromBEBounded(all[|padding|..]);
    LowPart(FromBE(all[..|padding|]), FromBE(all[|padding|..]), TWO_160);
  }

  lemma LowPart(high: nat, low: nat, m: nat)
    requires low < m
    ensures (high * m + low) % m == low
  {
    var n := high * m + low;
    assert n == (n / m) * m + n % m;
    Arithmetic.CancelLt(n / m, high + 1, m) by {
      Arithmetic.Distribute(high, 1, m);
    }
    Arithmetic.CancelLt(high, n / m + 1, m) by {
      Arithmetic.Distribute(n / m, 1, m);
    }
  }

  /** The fields of an encoded V3 input that the misreading uses. */
  lemma EncodedFields(recipient: Address, amountIn: nat, amountOutMin: nat, tokenIn: Address, middle: seq<byte>,
                      tokenOut: Address, payer: nat, padding: seq<byte>)
    ensures var input := EncodeInputV3(recipient, amountIn, amountOutMin, tokenIn, middle, tokenOut, payer, padding);
            && |input| == 232 + |middle| + |padding|
            && input[0..32] == Word(recipient) && input[64..96] == Word(amountOutMin)
            && input[|input| - 20..] == (ToBE(tokenOut, 20) + padding)[|padding|..]
  {
    var vs := [recipient, amountIn, amountOutMin, 160, payer, 40 + |middle|];
    EncodedWord(vs, 0);
    EncodedWord(vs, 2);
    hide EncodeWords, Word, ToBE;
    var input := EncodeInputV3(recipient, amountIn, amountOutMin, tokenIn, middle, tokenOut, payer, padding);
    assert input == EncodeWords(vs) + (ToBE(tokenIn, 20) + middle) + (ToBE(tokenOut, 20) + padding);
  }

  /** Where the first three fields of a misread input lie. */
  lemma WindowSlices(head: seq<byte>, input: seq<byte>, rest: seq<byte>, last: nat)
    requires |head| == 32 <= |input| && 32 + |input| <= last <= 32 + |input| + |rest|
    ensures var w := (head + (input + rest))[..last];
            && w[0..32] == head && w[32..52] == input[0..32][..20]
            && w[12 + |input|..32 + |input|] == input[|input| - 20..]
  {
    var w := (head + (input + rest))[..last];
    assert w[0..32] == head;
    assert w[32..52] == input[0..32][..20];
    assert w[12 + |input|..32 + |input|] == input[|input| - 20..];
  }

  lemma FirstFields(input: seq<byte>, rest: seq<byte>)
    requires |input| >= 96
    ensures (input + rest)[0..32] == input[0..32] && (input + rest)[64..96] == input[64..96]
  {
  }

  lemma ZeroMinimumVerdict(recipient: Address, amountIn: nat, tokenIn: Address, middle: seq<byte>,
                           tokenOut: Address, payer: nat, padding: seq<byte>, rest: seq<byte>, last: nat)
    requires recipient < TWO_160 && tokenOut < TWO_160 && forall i :: 0 <= i < |padding| ==> padding[i] == 0
    requires var size := 232 + |middle| + |padding|; 32 + size <= last <= 32 + size + |rest| && size < TWO_64
    ensures var input := EncodeInputV3(recipient, amountIn, 0, tokenIn, middle, tokenOut, payer, padding);
            var head, tail := recipient / TWO_96, Shifted(tokenOut, |padding|);
            Verdict(CMD_V3_SWAP_EXACT_IN, |input|, input + rest, last)
            == if head == tail then None else Some(PendingSwap(head, tail, recipient))
  {
    hide FromBE, Word, EncodeInputV3, Shifted, ToBE;
    EncodedFields(recipient, amountIn, 0, tokenIn, middle, tokenOut, payer, padding);
    RecipientHead(recipient);
    TailIsShifted(tokenOut, padding);
    var input := EncodeInputV3(recipient, amountIn, 0, tokenIn, middle, tokenOut, payer, padding);
    WordValue(0);
    WordValue(|input|);
    WindowSlices(Word(|input|), input, rest, last);
    FirstFields(input, rest);
  }

  /** A standard call with several inputs whose first is a V3 swap with a minimum output of zero,
      of any path and zero padding, and whose last input lies beyond it: it is recognised, unless
      the two happen to be equal, as a swap of the recipient as amount, from the recipient's own
      upper bytes to the path's last 20 bytes, padding included.  That is the wrong swap for
      every input token of 2^64 or more. */
  lemma ZeroMinimumIsMisread(deadline: nat, commands: seq<byte>, pad: seq<byte>, others: seq<nat>, recipient: Address,
                             amountIn: nat, tokenIn: Address, middle: seq<byte>, tokenOut: Address, payer: nat,
                             padding: seq<byte>, rest: seq<byte>, ethValue: nat)
    requires recipient < TWO_160 && tokenOut < TWO_160 && forall i :: 0 <= i < |padding| ==> padding[i] == 0
    requires var input := EncodeInputV3(recipient, amountIn, 0, tokenIn, middle, tokenOut, payer, padding);
             && UniversalCall(commands, pad, others, input, rest) && commands[0] % 64 == CMD_V3_SWAP_EXACT_IN
             && others != [] && 32 + |input| <= others[|others| - 1] <= 32 + |input| + |rest|
    ensures var input := EncodeInputV3(recipient, amountIn, 0, tokenIn, middle, tokenOut, payer, padding);
            var head, tail := recipient / TWO_96, Shifted(tokenOut, |padding|);
            ParseSwap(StandardCall(deadline, commands, pad, others, input, rest), ethValue)
            == if head == tail then None else Some(PendingSwap(head, tail, recipient))
    ensures recipient / TWO_96 < TWO_64
  {
    var input := EncodeInputV3(recipient, amountIn, 0, tokenIn, middle, tokenOut, payer, padding);
    EncodedFields(recipient, amountIn, 0, tokenIn, middle, tokenOut, payer, padding);
    Sizes(commands, pad, others, input, rest);
    hide EncodeInputV3, ParseSwap, StandardCall, Verdict, UniversalCall, Shifted, Word, ToBE;
    StandardCallIsRead(deadline, commands, pad, others, input, rest, ethValue);
    ZeroMinimumVerdict(recipient, amountIn, tokenIn, middle, tokenOut, payer, padding, rest, others[|others| - 1]);
  }

  lemma ZeroMinimumV2Verdict(recipient: Address, amountIn: nat, path: seq<Address>, payer: nat, rest: seq<byte>,
                             last: nat)
    requires SwapPath(path)
    ensures var input := EncodeInputV2(recipient, amountIn, 0, path, payer);
            Verdict(CMD_V2_SWAP_EXACT_IN, |input|, input + rest, last) == None
  {
    var vs := [recipient, amountIn, 0, 160, payer, |path|] + path;
    var input := EncodeInputV2(recipient, amountIn, 0, path, payer);
    EncodedWord(vs, 2);
    WordValue(0);
    WordValue(|input|);
    FirstFields(input, rest);
    hide FromBE, Word, EncodeWords;
    if 160 <= last <= 32 + |input| + |rest| {
      assert (Word(|input|) + (input + rest))[..last][0..32] == Word(|input|);
    }
  }

  /** And a first V2 swap with a minimum output of zero is never recognised. */
  lemma ZeroMinimumV2IsMissed(deadline: nat, commands: seq<byte>, pad: seq<byte>, others: seq<nat>,
                              recipient: Address, amountIn: nat, path: seq<Address>, payer: nat, rest: seq<byte>,
                              ethValue: nat)
    requires SwapPath(path)
    requires var input := EncodeInputV2(recipient, amountIn, 0, path, payer);
             && UniversalCall(commands, pad, others, input, rest) && commands[0] % 64 == CMD_V2_SWAP_EXACT_IN
             && others != [] && others[|others| - 1] < TWO_256
    ensures var input := EncodeInputV2(recipient, amountIn, 0, path, payer);
            ParseSwap(StandardCall(deadline, commands, pad, others, input, rest), ethValue) == None
  {
    var input := EncodeInputV2(recipient, amountIn, 0, path, payer);
    hide EncodeInputV2, ParseSwap, StandardCall, Verdict, SwapPath;
    StandardCallIsRead(deadline, commands, pad, others, input, rest, ethValue);
    ZeroMinimumV2Verdict(recipient, amountIn, path, payer, rest, others[|others| - 1]);
  }
}
