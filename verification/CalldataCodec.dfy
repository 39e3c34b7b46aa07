/** An independent ABI encoder, and the parser as its inverse. */
module CalldataCodec {
  import opened Bytes
  import opened Calldata
  import opened Pools
  import opened Words

  // ── Encoding ────────────────────────────────────────────────────────────────────

  function Word(v: nat): (w: seq<byte>)
    ensures |w| == 32
  {
    ToBE(v, 32)
  }

  function EncodeWords(vs: seq<nat>): (bs: seq<byte>)
    ensures |bs| == 32 * |vs|
  {
    if vs == [] then [] else Word(vs[0]) + EncodeWords(vs[1..])
  }

  function EncodeV2Tokens(amountIn: nat, amountOutMin: nat, path: seq<Address>, to: Address, deadline: nat): seq<byte> {
    SEL_V2_SWAP_EXACT_TOKENS + EncodeWords([amountIn, amountOutMin, 160, to, deadline, |path|] + path)
  }

  function EncodeV2Eth(amountOutMin: nat, path: seq<Address>, to: Address, deadline: nat): seq<byte> {
    SEL_V2_SWAP_EXACT_ETH + EncodeWords([amountOutMin, 128, to, deadline, |path|] + path)
  }

  function EncodeV3Single(tokenIn: Address, tokenOut: Address, fee: nat, recipient: Address,
                          amountIn: nat, amountOutMin: nat, limit: nat): seq<byte> {
    SEL_V3_EXACT_INPUT_SINGLE + EncodeWords([tokenIn, tokenOut, fee, recipient, amountIn, amountOutMin, limit])
  }

  /** Input of a V2_SWAP_EXACT_IN command. */
  function EncodeInputV2(recipient: Address, amountIn: nat, amountOutMin: nat, path: seq<Address>,
                         payer: nat): seq<byte> {
    EncodeWords([recipient, amountIn, amountOutMin, 160, payer, |path|] + path)
  }

  /** Input of a V3_SWAP_EXACT_IN command: the packed path, then its zero padding. */
  function EncodeInputV3(recipient: Address, amountIn: nat, amountOutMin: nat, tokenIn: Address, middle: seq<byte>,
                         tokenOut: Address, payer: nat, padding: seq<byte>): seq<byte> {
    EncodeWords([recipient, amountIn, amountOutMin, 160, payer, 40 + |middle|])
    + (ToBE(tokenIn, 20) + middle + ToBE(tokenOut, 20)) + padding
  }

  /** `execute(commands, inputs, deadline)`: `offset` is what the array's first offset word
      holds; the element itself follows the heads directly. */
  function EncodeUniversal(deadline: nat, commands: seq<byte>, pad: seq<byte>, offset: nat, others: seq<nat>,
                           input: seq<byte>, rest: seq<byte>): seq<byte> {
    SEL_UNIVERSAL_ROUTER
    + EncodeWords([96, 160, deadline, |commands|]) + (commands + pad)
    + EncodeWords([1 + |others|, offset] + others + [|input|]) + input + rest
  }

  // ── Words inside calldata ───────────────────────────────────────────────────────

  lemma {:induction false} EncodedWord(vs: seq<nat>, i: nat)
    requires i < |vs|
    ensures EncodeWords(vs)[32 * i..32 * i + 32] == Word(vs[i])
  {
    if i > 0 {
      EncodedWord(vs[1..], i - 1);
      var tail := EncodeWords(vs[1..]);
      assert EncodeWords(vs)[32 * i..32 * i + 32] == tail[32 * (i - 1)..32 * (i - 1) + 32];
    }
  }

  /** Block `block` holds `v` as its word `i`. */
  ghost predicate Holds(block: seq<byte>, i: nat, v: nat) {
    32 * i + 32 <= |block| && block[32 * i..32 * i + 32] == Word(v)
  }

  lemma EncodedHolds(vs: seq<nat>, i: nat)
    requires i < |vs|
    ensures Holds(EncodeWords(vs), i, vs[i])
  {
    EncodedWord(vs, i);
  }

  /** Reading word `i` of a block placed after `before`. */
  lemma WordInside(before: seq<byte>, block: seq<byte>, after: seq<byte>, i: nat, v: nat)
    requires |before| + |block| + |after| < TWO_64 && Holds(block, i, v)
    ensures WordAt(before + block + after, |before| + 32 * i) == Some(Word(v))
  {
    hide Word, WordAt;
    WordInBlock(before, block, after, 32 * i);
  }

  lemma UsizeInside(before: seq<byte>, block: seq<byte>, after: seq<byte>, i: nat, v: nat)
    requires |before| + |block| + |after| < TWO_64 && Holds(block, i, v) && v < TWO_64
    ensures UsizeAt(before + block + after, |before| + 32 * i) == Some(v)
  {
    WordInside(before, block, after, i, v);
    WordValue(v);
    hide Word, WordAt, FromBE, Holds;
  }

  lemma WordInBlock(before: seq<byte>, block: seq<byte>, after: seq<byte>, k: nat)
    requires k + 32 <= |block| && |before| + |block| + |after| < TWO_64
    ensures WordAt(before + block + after, |before| + k) == Some(block[k..k + 32])
  {
    var data := before + block + after;
    SliceInside(before, block, after, k, k + 32);
    WordIs(data, |before| + k);
  }

  lemma WordIs(data: seq<byte>, at: nat)
    requires at + 32 <= |data| < TWO_64
    ensures WordAt(data, at) == Some(data[at..at + 32])
  {
  }

  lemma SliceInside(a: seq<byte>, b: seq<byte>, c: seq<byte>, from: nat, to: nat)
    requires from <= to <= |b|
    ensures (a + b + c)[|a| + from..|a| + to] == b[from..to]
  {
  }

  lemma WordValue(v: nat)
    requires v < TWO_256
    ensures FromBE(Word(v)) == v
  {
    PowWord();
    hide FromBE, ToBE, Pow256;
    FromToBE(v, 32);
  }

  lemma {:induction false} LowBytes(v: nat, n: nat, k: nat)
    requires k <= n
    ensures ToBE(v, n)[n - k..] == ToBE(v, k)
  {
    if k > 0 {
      LowBytes(v / 256, n - 1, k - 1);
      assert ToBE(v, n)[n - k..] == ToBE(v / 256, n - 1)[n - k..] + [v % 256];
    } else {
      assert ToBE(v, n)[n..] == [];
    }
  }

  lemma AddressInWord(a: Address)
    requires a < TWO_160
    ensures ParseAddress(Word(a)) == Some(a)
  {
    LowBytes(a, 32, 20);
    PowWord();
    FromToBE(a, 20);
    assert Word(a)[12..32] == Word(a)[12..];
  }

  ghost predicate Addresses(path: seq<Address>) {
    forall i :: 0 <= i < |path| ==> path[i] < TWO_160
  }

  /** A path the engine accepts: 2 to 100 addresses with different ends. */
  ghost predicate SwapPath(path: seq<Address>) {
    2 <= |path| <= 100 && Addresses(path) && path[0] != path[|path| - 1]
  }

  /** The ends of an array encoded at word `h` of a block. */
  lemma ArrayEndsInside(before: seq<byte>, block: seq<byte>, after: seq<byte>, h: nat, path: seq<Address>)
    requires |before| + |block| + |after| < TWO_64 && SwapPath(path)
    requires HoldsArray(block, h, path)
    ensures AddressArrayEnds(before + block + after, |before| + 32 * h) == Some((path[0], path[|path| - 1]))
  {
    var n := |path|;
    hide WordAt, UsizeAt, ParseAddress, Word, AddressArrayEnds, Holds;
    UsizeInside(before, block, after, h, n);
    WordInside(before, block, after, h + 1, path[0]);
    WordInside(before, block, after, h + n, path[n - 1]);
    AddressInWord(path[0]);
    AddressInWord(path[n - 1]);
    EndsFromWords(before + block + after, |before| + 32 * h, n, path[0], path[n - 1]);
  }

  /** The length word and the two end words of a path. */
  ghost predicate HoldsArray(block: seq<byte>, h: nat, path: seq<Address>) {
    && |path| >= 2 && |block| < TWO_64 && 32 * (h + 1 + |path|) <= |block|
    && Holds(block, h, |path|) && Holds(block, h + 1, path[0]) && Holds(block, h + |path|, path[|path| - 1])
  }

  lemma ArrayWords(heads: seq<nat>, path: seq<Address>)
    requires |path| >= 2
    ensures var vs := heads + [|path|] + path;
            && |vs| == |heads| + 1 + |path| && vs[|heads|] == |path|
            && vs[|heads| + 1] == path[0] && vs[|heads| + |path|] == path[|path| - 1]
  {
  }

  lemma WordsHoldArray(vs: seq<nat>, h: nat, path: seq<Address>)
    requires |path| >= 2 && |vs| == h + 1 + |path| && 32 * |vs| < TWO_64
    requires vs[h] == |path| && vs[h + 1] == path[0] && vs[h + |path|] == path[|path| - 1]
    ensures HoldsArray(EncodeWords(vs), h, path)
  {
    hide Holds, EncodeWords;
    EncodedHolds(vs, h);
    EncodedHolds(vs, h + 1);
    EncodedHolds(vs, h + |path|);
  }

  lemma EndsFromWords(data: seq<byte>, at: nat, len: nat, first: Address, last: Address)
    requires 2 <= len <= 100 && at + 32 * len + 32 < TWO_64 && first != last
    requires UsizeAt(data, at) == Some(len)
    requires WordAt(data, at + 32).Some? && ParseAddress(WordAt(data, at + 32).value) == Some(first)
    requires WordAt(data, at + 32 * len).Some? && ParseAddress(WordAt(data, at + 32 * len).value) == Some(last)
    ensures AddressArrayEnds(data, at) == Some((first, last))
  {
    hide WordAt, UsizeAt, ParseAddress;
    assert at + 32 + (len - 1) * 32 == at + 32 * len;
  }

  // ── Round trips ─────────────────────────────────────────────────────────────────

  lemma V2TokensRoundTrip(amountIn: nat, amountOutMin: nat, path: seq<Address>, to: Address, deadline: nat,
                          ethValue: nat)
    requires amountIn < TWO_256 && SwapPath(path)
    ensures ParseSwap(EncodeV2Tokens(amountIn, amountOutMin, path, to, deadline), ethValue)
         == Some(PendingSwap(path[0], path[|path| - 1], amountIn))
  {
    var heads := [amountIn, amountOutMin, 160, to, deadline];
    var vs := heads + [|path|] + path;
    assert vs == [amountIn, amountOutMin, 160, to, deadline, |path|] + path;
    EncodedHolds(vs, 0);
    EncodedHolds(vs, 2);
    ArrayWords(heads, path);
    WordsHoldArray(vs, |heads|, path);
    hide EncodeWords;
    ParsesV2Tokens(EncodeWords(vs), amountIn, 5, path, ethValue);
  }

  /** Wherever the third word says the path is: six words are enough for any call. */
  lemma ParsesV2Tokens(block: seq<byte>, amountIn: nat, h: nat, path: seq<Address>, ethValue: nat)
    requires amountIn < TWO_256 && SwapPath(path) && 192 <= |block| < TWO_64 - 4
    requires Holds(block, 0, amountIn) && Holds(block, 2, 32 * h) && HoldsArray(block, h, path)
    ensures ParseSwap(SEL_V2_SWAP_EXACT_TOKENS + block, ethValue)
         == Some(PendingSwap(path[0], path[|path| - 1], amountIn))
  {
    var sel := SEL_V2_SWAP_EXACT_TOKENS;
    hide Word, Holds, WordAt, UsizeAt, AddressArrayEnds, FromBE;
    assert sel + block == sel + block + [];
    assert (sel + block)[..4] == sel;
    WordInside(sel, block, [], 0, amountIn);
    UsizeInside(sel, block, [], 2, 32 * h);
    ArrayEndsInside(sel, block, [], h, path);
    WordValue(amountIn);
    WholeWord(amountIn);
  }

  lemma WholeWord(v: nat)
    ensures Word(v)[..32] == Word(v) && ParseU256(Word(v)) == FromBE(Word(v))
  {
    hide FromBE, ToBE;
    assert Word(v)[..32] == Word(v);
  }

  lemma V2EthRoundTrip(amountOutMin: nat, path: seq<Address>, to: Address, deadline: nat, ethValue: nat)
    requires SwapPath(path)
    ensures ParseSwap(EncodeV2Eth(amountOutMin, path, to, deadline), ethValue)
         == Some(PendingSwap(path[0], path[|path| - 1], ethValue))
  {
    var heads := [amountOutMin, 128, to, deadline];
    var vs := heads + [|path|] + path;
    assert vs == [amountOutMin, 128, to, deadline, |path|] + path;
    EncodedHolds(vs, 1);
    ArrayWords(heads, path);
    WordsHoldArray(vs, |heads|, path);
    hide EncodeWords;
    ParsesV2Eth(EncodeWords(vs), 4, path, ethValue);
  }

  /** Wherever the second word says the path is. */
  lemma ParsesV2Eth(block: seq<byte>, h: nat, path: seq<Address>, ethValue: nat)
    requires SwapPath(path) && |block| + 4 < TWO_64
    requires Holds(block, 1, 32 * h) && HoldsArray(block, h, path)
    ensures ParseSwap(SEL_V2_SWAP_EXACT_ETH + block, ethValue)
         == Some(PendingSwap(path[0], path[|path| - 1], ethValue))
  {
    var sel := SEL_V2_SWAP_EXACT_ETH;
    hide Word, Holds, WordAt, UsizeAt, AddressArrayEnds, FromBE;
    assert sel + block == sel + block + [];
    assert (sel + block)[..4] == sel;
    UsizeInside(sel, block, [], 1, 32 * h);
    ArrayEndsInside(sel, block, [], h, path);
  }

  lemma V3SingleRoundTrip(tokenIn: Address, tokenOut: Address, fee: nat, recipient: Address,
                          amountIn: nat, amountOutMin: nat, limit: nat, ethValue: nat)
    requires tokenIn < TWO_160 && tokenOut < TWO_160 && tokenIn != tokenOut && amountIn < TWO_256
    ensures ParseSwap(EncodeV3Single(tokenIn, tokenOut, fee, recipient, amountIn, amountOutMin, limit), ethValue)
         == Some(PendingSwap(tokenIn, tokenOut, amountIn))
  {
    var vs := [tokenIn, tokenOut, fee, recipient, amountIn, amountOutMin, limit];
    EncodedHolds(vs, 0);
    EncodedHolds(vs, 1);
    EncodedHolds(vs, 4);
    hide EncodeWords;
    ParsesV3Single(EncodeWords(vs), tokenIn, tokenOut, amountIn, ethValue);
  }

  lemma ParsesV3Single(block: seq<byte>, tokenIn: Address, tokenOut: Address, amountIn: nat, ethValue: nat)
    requires tokenIn < TWO_160 && tokenOut < TWO_160 && tokenIn != tokenOut && amountIn < TWO_256
    requires Holds(block, 0, tokenIn) && Holds(block, 1, tokenOut) && Holds(block, 4, amountIn)
    ensures ParseSwap(SEL_V3_EXACT_INPUT_SINGLE + block, ethValue) == Some(PendingSwap(tokenIn, tokenOut, amountIn))
  {
    var sel := SEL_V3_EXACT_INPUT_SINGLE;
    var data := sel + block;
    assert data[..4] == sel;
    assert data[4..36] == block[0..32] && data[36..68] == block[32..64] && data[132..164] == block[128..160];
    AddressInWord(tokenIn);
    AddressInWord(tokenOut);
    WordValue(amountIn);
    WholeWord(amountIn);
    hide ParseAddress, ParseU256, Word, FromBE;
  }

  // ── UniversalRouter ─────────────────────────────────────────────────────────────

  /** Shape of a UniversalRouter call: 1 to 16 commands in one padded word, and calldata that
      fits a 64-bit address space. */
  ghost predicate UniversalCall(commands: seq<byte>, pad: seq<byte>, others: seq<nat>, input: seq<byte>,
                                rest: seq<byte>) {
    1 <= |commands| <= 16 && |commands| + |pad| == 32
    && 164 + 32 * (|others| + 3) + |input| + |rest| < TWO_64
  }

  /** A UniversalRouter call is read as its first command on what the parser takes for its first
      input. */
  function ReadFirst(command: byte, first: Option<seq<byte>>): Option<PendingSwap> {
    if first.None? then None else ParseInput(command, first.value)
  }

  /** The four blocks as the parser meets them. */
  lemma UniversalHeads(block: seq<byte>, cmds: seq<byte>, tail: seq<byte>, count: nat, ethValue: nat)
    requires |block| == 128 && |cmds| == 32 && |tail| >= 64 && 164 + |tail| < TWO_64
    requires Holds(block, 0, 96) && Holds(block, 1, 160) && Holds(block, 3, count) && 1 <= count <= 16
    requires UsizeAt(SEL_UNIVERSAL_ROUTER + block + cmds + tail, 164).Some?
    requires UsizeAt(SEL_UNIVERSAL_ROUTER + block + cmds + tail, 164).value > 0
    ensures var data := SEL_UNIVERSAL_ROUTER + block + cmds + tail;
            ParseSwap(data, ethValue) == ReadFirst(cmds[0] % 64, FirstInput(data, 164))
  {
    var sel := SEL_UNIVERSAL_ROUTER;
    var data := sel + block + cmds + tail;
    hide Word, Holds, UsizeAt, FirstInput, ParseInput;
    assert data == sel + block + (cmds + tail);
    assert data[..4] == sel && data[132] == cmds[0];
    UsizeInside(sel, block, cmds + tail, 0, 96);
    UsizeInside(sel, block, cmds + tail, 1, 160);
    UsizeInside(sel, block, cmds + tail, 3, count);
  }

  /** The inputs block: element count, first offset, and the first element where the code's
      convention puts it. */
  lemma InputsBlock(before: seq<byte>, block: seq<byte>, input: seq<byte>, rest: seq<byte>, offset: nat, n: nat)
    requires |before| + |block| + |input| + |rest| < TWO_64
    requires |block| == 32 * (n + 2) && n >= 1 && offset < TWO_64
    requires Holds(block, 0, n) && Holds(block, 1, offset) && Holds(block, n + 1, |input|)
    ensures var data := before + block + input + rest;
            && UsizeAt(data, |before|) == Some(n) && UsizeAt(data, |before| + 32) == Some(offset)
            && UsizeAt(data, |before| + 32 * (n + 1)) == Some(|input|)
            && Slice(data, |before| + |block|, |before| + |block| + |input|) == Some(input)
  {
    var data := before + block + input + rest;
    assert data == before + block + (input + rest);
    assert data[|before| + |block|..|before| + |block| + |input|] == input;
    hide Word, Holds, UsizeAt;
    UsizeInside(before, block, input + rest, 0, n);
    UsizeInside(before, block, input + rest, 1, offset);
    UsizeInside(before, block, input + rest, n + 1, |input|);
  }

  /** The whole call from its blocks: where the first input is found depends on the offset
      only. */
  lemma UniversalByBlocks(heads: seq<byte>, cmds: seq<byte>, block: seq<byte>, input: seq<byte>, rest: seq<byte>,
                          count: nat, offset: nat, n: nat, ethValue: nat)
    requires |heads| == 128 && |cmds| == 32 && |block| == 32 * (n + 2) && n >= 1
    requires 164 + |block| + |input| + |rest| < TWO_64 && offset < TWO_64
    requires Holds(heads, 0, 96) && Holds(heads, 1, 160) && Holds(heads, 3, count) && 1 <= count <= 16
    requires Holds(block, 0, n) && Holds(block, 1, offset) && Holds(block, n + 1, |input|)
    ensures var data := SEL_UNIVERSAL_ROUTER + heads + cmds + block + input + rest;
            && (offset == 32 * (n + 1) ==> ParseSwap(data, ethValue) == ParseInput(cmds[0] % 64, input))
            && (offset == 32 && n == 1 ==> ParseSwap(data, ethValue) == None)
  {
    hide Holds, UsizeAt, ParseSwap, Word, Slice, FirstInput, ParseInput;
    var before := SEL_UNIVERSAL_ROUTER + heads + cmds;
    var data := before + block + input + rest;
    InputsBlock(before, block, input, rest, offset, n);
    UniversalFound(heads, cmds, block, input, rest, count, n, ethValue);
    FirstInputFound(data, offset, n, |block|, input);
    if FirstInput(data, 164).Some? {
      ShortInput(cmds[0] % 64, FirstInput(data, 164).value);
    }
  }

  lemma UniversalFound(heads: seq<byte>, cmds: seq<byte>, block: seq<byte>, input: seq<byte>, rest: seq<byte>,
                       count: nat, n: nat, ethValue: nat)
    requires |heads| == 128 && |cmds| == 32 && |block| >= 64 && n >= 1
    requires 164 + |block| + |input| + |rest| < TWO_64
    requires Holds(heads, 0, 96) && Holds(heads, 1, 160) && Holds(heads, 3, count) && 1 <= count <= 16
    requires UsizeAt(SEL_UNIVERSAL_ROUTER + heads + cmds + block + input + rest, 164) == Some(n)
    ensures var data := SEL_UNIVERSAL_ROUTER + heads + cmds + block + input + rest;
            ParseSwap(data, ethValue) == ReadFirst(cmds[0] % 64, FirstInput(data, 164))
  {
    hide Holds, UsizeAt, ParseSwap, Word, FirstInput, ReadFirst;
    var tail := block + input + rest;
    assert SEL_UNIVERSAL_ROUTER + heads + cmds + block + input + rest == SEL_UNIVERSAL_ROUTER + heads + cmds + tail;
    UniversalHeads(heads, cmds, tail, count, ethValue);
  }

  lemma ShortInput(command: byte, input: seq<byte>)
    ensures |input| < 160 ==> ParseInput(command, input) == None
  {
  }

  lemma FirstInputFound(data: seq<byte>, offset: nat, n: nat, size: nat, input: seq<byte>)
    requires size == 32 * (n + 2) && 164 + size + |input| < TWO_64
    requires UsizeAt(data, 196) == Some(offset) && UsizeAt(data, 164 + 32 * (n + 1)) == Some(|input|)
    requires Slice(data, 164 + size, 164 + size + |input|) == Some(input)
    ensures offset == 32 * (n + 1) ==> FirstInput(data, 164) == Some(input)
    ensures offset == 32 && n == 1 ==> FirstInput(data, 164).Some? ==> |FirstInput(data, 164).value| == 32
  {
    hide UsizeAt;
  }

  /** Under the code's own element-offset convention, the call is read as its first command on
      its first input, however many commands follow. */
  lemma UniversalReadsFirstCommand(deadline: nat, commands: seq<byte>, pad: seq<byte>, others: seq<nat>,
                                   input: seq<byte>, rest: seq<byte>, ethValue: nat)
    requires UniversalCall(commands, pad, others, input, rest)
    ensures ParseSwap(EncodeUniversal(deadline, commands, pad, 32 * (|others| + 2), others, input, rest), ethValue)
         == ParseInput(commands[0] % 64, input)
  {
    var offset := 32 * (|others| + 2);
    var heads := [96, 160, deadline, |commands|];
    var ws := [1 + |others|, offset] + others + [|input|];
    InputsWords(offset, others, |input|);
    hide EncodeWords, Holds, ParseSwap, ParseInput;
    ThreeWords(heads, 3, 96, 160, |commands|);
    ThreeWords(ws, 2 + |others|, 1 + |others|, offset, |input|);
    UniversalByBlocks(EncodeWords(heads), commands + pad, EncodeWords(ws), input, rest,
                      |commands|, offset, 1 + |others|, ethValue);
  }

  lemma InputsWords(offset: nat, others: seq<nat>, len: nat)
    ensures var ws := [1 + |others|, offset] + others + [len];
            |ws| == |others| + 3 && ws[0] == 1 + |others| && ws[1] == offset && ws[2 + |others|] == len
  {
  }

  lemma ThreeWords(vs: seq<nat>, k: nat, v0: nat, v1: nat, vk: nat)
    requires 1 < |vs| && k < |vs| && vs[0] == v0 && vs[1] == v1 && vs[k] == vk
    ensures Holds(EncodeWords(vs), 0, v0) && Holds(EncodeWords(vs), 1, v1) && Holds(EncodeWords(vs), k, vk)
  {
    EncodedHolds(vs, 0);
    EncodedHolds(vs, 1);
    EncodedHolds(vs, k);
    hide EncodeWords, Holds;
  }

  /** Standard ABI calldata measures the offset from the word after the array length, so with
      one input it holds 0x20, and the parser never recognises such a call, whatever the
      command and the swap. Calls with more inputs are in `StandardCalls`. */
  lemma StandardSingleInputNeverParses(deadline: nat, commands: seq<byte>, pad: seq<byte>,
                                       input: seq<byte>, rest: seq<byte>, ethValue: nat)
    requires UniversalCall(commands, pad, [], input, rest)
    ensures ParseSwap(EncodeUniversal(deadline, commands, pad, 32, [], input, rest), ethValue) == None
  {
    var others: seq<nat> := [];
    var heads := [96, 160, deadline, |commands|];
    var ws := [1 + |others|, 32] + others + [|input|];
    InputsWords(32, others, |input|);
    hide EncodeWords, Holds, ParseSwap;
    ThreeWords(heads, 3, 96, 160, |commands|);
    ThreeWords(ws, 2, 1, 32, |input|);
    UniversalByBlocks(EncodeWords(heads), commands + pad, EncodeWords(ws), input, rest,
                      |commands|, 32, 1, ethValue);
  }

  lemma InputV2RoundTrip(recipient: Address, amountIn: nat, amountOutMin: nat, path: seq<Address>, payer: nat)
    requires amountIn < TWO_256 && SwapPath(path)
    ensures ParseInputV2(EncodeInputV2(recipient, amountIn, amountOutMin, path, payer))
         == Some(PendingSwap(path[0], path[|path| - 1], amountIn))
  {
    var heads := [recipient, amountIn, amountOutMin, 160, payer];
    var vs := heads + [|path|] + path;
    assert vs == [recipient, amountIn, amountOutMin, 160, payer, |path|] + path;
    EncodedHolds(vs, 1);
    EncodedHolds(vs, 3);
    ArrayWords(heads, path);
    WordsHoldArray(vs, |heads|, path);
    hide EncodeWords;
    ParsesInputV2(EncodeWords(vs), amountIn, path);
  }

  lemma ParsesInputV2(block: seq<byte>, amountIn: nat, path: seq<Address>)
    requires amountIn < TWO_256 && SwapPath(path) && |block| < TWO_64
    requires Holds(block, 1, amountIn) && Holds(block, 3, 160) && HoldsArray(block, 5, path)
    ensures ParseInputV2(block) == Some(PendingSwap(path[0], path[|path| - 1], amountIn))
  {
    assert block == [] + block + [];
    assert block[32..64] == Word(amountIn);
    hide Word, Holds, WordAt, UsizeAt, AddressArrayEnds, FromBE;
    UsizeInside([], block, [], 3, 160);
    ArrayEndsInside([], block, [], 5, path);
    WordValue(amountIn);
    WholeWord(amountIn);
  }

  lemma InputV3RoundTrip(recipient: Address, amountIn: nat, amountOutMin: nat, tokenIn: Address, middle: seq<byte>,
                         tokenOut: Address, payer: nat, padding: seq<byte>)
    requires amountIn < TWO_256 && tokenIn < TWO_160 && tokenOut < TWO_160 && tokenIn != tokenOut
    requires 3 <= |middle| && 232 + |middle| + |padding| < TWO_64
    ensures ParseInputV3(EncodeInputV3(recipient, amountIn, amountOutMin, tokenIn, middle, tokenOut, payer, padding))
         == Some(PendingSwap(tokenIn, tokenOut, amountIn))
  {
    var vs := [recipient, amountIn, amountOutMin, 160, payer, 40 + |middle|];
    EncodedHolds(vs, 1);
    EncodedHolds(vs, 3);
    EncodedHolds(vs, 5);
    hide EncodeWords;
    ParsesInputV3(EncodeWords(vs), amountIn, tokenIn, middle, tokenOut, padding);
  }

  lemma PackedPath(tokenIn: Address, middle: seq<byte>, tokenOut: Address)
    requires tokenIn < TWO_160 && tokenOut < TWO_160
    ensures var path := ToBE(tokenIn, 20) + middle + ToBE(tokenOut, 20);
            FromBE(path[0..20]) == tokenIn && FromBE(path[|path| - 20..|path|]) == tokenOut
  {
    PowWord();
    FromToBE(tokenIn, 20);
    FromToBE(tokenOut, 20);
    hide FromBE, ToBE;
    var path := ToBE(tokenIn, 20) + middle + ToBE(tokenOut, 20);
    assert path[0..20] == ToBE(tokenIn, 20) && path[|path| - 20..|path|] == ToBE(tokenOut, 20);
  }

  lemma ParsesInputV3(block: seq<byte>, amountIn: nat, tokenIn: Address, middle: seq<byte>, tokenOut: Address,
                      padding: seq<byte>)
    requires amountIn < TWO_256 && tokenIn < TWO_160 && tokenOut < TWO_160 && tokenIn != tokenOut
    requires 3 <= |middle| && 232 + |middle| + |padding| < TWO_64
    requires |block| == 192 && Holds(block, 1, amountIn) && Holds(block, 3, 160) && Holds(block, 5, 40 + |middle|)
    ensures ParseInputV3(block + (ToBE(tokenIn, 20) + middle + ToBE(tokenOut, 20)) + padding)
         == Some(PendingSwap(tokenIn, tokenOut, amountIn))
  {
    hide Holds, Word, FromBE, ToBE, ParseInputV3;
    PackedPath(tokenIn, middle, tokenOut);
    var path := ToBE(tokenIn, 20) + middle + ToBE(tokenOut, 20);
    PathRead(block, amountIn, path, padding);
  }

  lemma PathRead(block: seq<byte>, amountIn: nat, path: seq<byte>, padding: seq<byte>)
    requires amountIn < TWO_256 && |path| >= 43 && 192 + |path| + |padding| < TWO_64
    requires |block| == 192 && Holds(block, 1, amountIn) && Holds(block, 3, 160) && Holds(block, 5, |path|)
    ensures var tokenIn, tokenOut := FromBE(path[0..20]), FromBE(path[|path| - 20..|path|]);
            ParseInputV3(block + path + padding)
            == if tokenIn == tokenOut then None else Some(PendingSwap(tokenIn, tokenOut, amountIn))
  {
    var input := block + path + padding;
    assert input == [] + block + (path + padding);
    assert input[32..64] == block[32..64] == Word(amountIn);
    assert input[192..192 + |path|] == path;
    hide Word, Holds, WordAt, UsizeAt, FromBE;
    UsizeInside([], block, path + padding, 3, 160);
    UsizeInside([], block, path + padding, 5, |path|);
    WordValue(amountIn);
    WholeWord(amountIn);
    assert Slice(input, 192, 192 + |path|) == Some(path);
  }

  /** UniversalRouter swaps come back too, flag bits and further commands included, under the
      code's convention. */
  lemma UniversalRoundTrip(deadline: nat, commands: seq<byte>, pad: seq<byte>, others: seq<nat>, rest: seq<byte>,
                           recipient: Address, amountIn: nat, amountOutMin: nat, payer: nat, path: seq<Address>,
                           middle: seq<byte>, padding: seq<byte>, ethValue: nat)
    requires amountIn < TWO_256 && SwapPath(path) && 3 <= |middle| && 232 + |middle| + |padding| < TWO_64
    ensures var input := EncodeInputV2(recipient, amountIn, amountOutMin, path, payer);
            UniversalCall(commands, pad, others, input, rest) && commands[0] % 64 == CMD_V2_SWAP_EXACT_IN ==>
              ParseSwap(EncodeUniversal(deadline, commands, pad, 32 * (|others| + 2), others, input, rest), ethValue)
              == Some(PendingSwap(path[0], path[|path| - 1], amountIn))
    ensures var input := EncodeInputV3(recipient, amountIn, amountOutMin, path[0], middle, path[|path| - 1], payer,
                                       padding);
            UniversalCall(commands, pad, others, input, rest) && commands[0] % 64 == CMD_V3_SWAP_EXACT_IN ==>
              ParseSwap(EncodeUniversal(deadline, commands, pad, 32 * (|others| + 2), others, input, rest), ethValue)
              == Some(PendingSwap(path[0], path[|path| - 1], amountIn))
  {
    hide EncodeUniversal, EncodeInputV2, EncodeInputV3, ParseSwap, ParseInputV2, ParseInputV3;
    var v2 := EncodeInputV2(recipient, amountIn, amountOutMin, path, payer);
    var v3 := EncodeInputV3(recipient, amountIn, amountOutMin, path[0], middle, path[|path| - 1], payer, padding);
    if UniversalCall(commands, pad, others, v2, rest) {
      UniversalReadsFirstCommand(deadline, commands, pad, others, v2, rest, ethValue);
      InputV2RoundTrip(recipient, amountIn, amountOutMin, path, payer);
    }
    if UniversalCall(commands, pad, others, v3, rest) {
      UniversalReadsFirstCommand(deadline, commands, pad, others, v3, rest, ethValue);
      InputV3RoundTrip(recipient, amountIn, amountOutMin, path[0], middle, path[|path| - 1], payer, padding);
    }
  }

  // ── Any bytes at all ────────────────────────────────────────────────────────────

  lemma UsizeStable(data: seq<byte>, extra: seq<byte>, at: nat)
    requires WordAt(data, at).Some?
    ensures WordAt(data + extra, at) == WordAt(data, at) && UsizeAt(data + extra, at) == UsizeAt(data, at)
  {
    hide FromBE;
    assert (data + extra)[at..at + 32] == data[at..at + 32];
  }

  lemma EndsStable(data: seq<byte>, extra: seq<byte>, at: nat)
    requires AddressArrayEnds(data, at).Some?
    ensures AddressArrayEnds(data + extra, at) == AddressArrayEnds(data, at)
  {
    UsizeStable(data, extra, at);
    var len := UsizeAt(data, at).value;
    UsizeStable(data, extra, at + 32);
    UsizeStable(data, extra, at + 32 + (len - 1) * 32);
    hide WordAt, ParseAddress;
  }

  lemma FirstInputStable(data: seq<byte>, extra: seq<byte>, base: nat)
    requires FirstInput(data, base).Some?
    ensures FirstInput(data + extra, base) == FirstInput(data, base)
  {
    UsizeStable(data, extra, base + 32);
    var start := base + UsizeAt(data, base + 32).value;
    UsizeStable(data, extra, start);
    var len := UsizeAt(data, start).value;
    SliceStable(data, extra, start + 32, start + 32 + len);
    hide WordAt, UsizeAt, FromBE, Slice;
  }

  lemma SliceStable(data: seq<byte>, extra: seq<byte>, from: nat, to: nat)
    requires Slice(data, from, to).Some?
    ensures Slice(data + extra, from, to) == Slice(data, from, to)
  {
    assert (data + extra)[from..to] == data[from..to];
  }

  lemma SingleStable(data: seq<byte>, extra: seq<byte>)
    requires ParseV3Single(data).Some?
    ensures ParseV3Single(data + extra) == ParseV3Single(data)
  {
    var all := data + extra;
    assert all[4..36] == data[4..36] && all[36..68] == data[36..68] && all[132..164] == data[132..164];
    hide FromBE;
  }

  lemma TokensStable(data: seq<byte>, extra: seq<byte>)
    requires ParseV2Tokens(data).Some?
    ensures ParseV2Tokens(data + extra) == ParseV2Tokens(data)
  {
    UsizeStable(data, extra, 4);
    UsizeStable(data, extra, 68);
    EndsStable(data, extra, UsizeAt(data, 68).value + 4);
    hide WordAt, UsizeAt, AddressArrayEnds, FromBE;
  }

  lemma EthStable(data: seq<byte>, extra: seq<byte>, ethValue: nat)
    requires ParseV2Eth(data, ethValue).Some?
    ensures ParseV2Eth(data + extra, ethValue) == ParseV2Eth(data, ethValue)
  {
    UsizeStable(data, extra, 36);
    EndsStable(data, extra, UsizeAt(data, 36).value + 4);
    hide WordAt, UsizeAt, AddressArrayEnds, FromBE;
  }

  /** What the head of a call that reaches its first input holds: the offsets of the commands
      and of the inputs, and the two counts. */
  predicate Heads(data: seq<byte>, commands: nat, inputs: nat, count: nat, n: nat) {
    && |data| >= 100 && commands + 36 < |data|
    && UsizeAt(data, 4) == Some(commands) && CheckedAdd(commands, 4) == Some(commands + 4)
    && UsizeAt(data, 36) == Some(inputs) && CheckedAdd(inputs, 4) == Some(inputs + 4)
    && UsizeAt(data, commands + 4) == Some(count) && 0 < count <= 16
    && CheckedAdd(commands + 4, 32) == Some(commands + 36)
    && UsizeAt(data, inputs + 4) == Some(n) && n > 0
  }

  lemma HeadsOf(data: seq<byte>) returns (commands: nat, inputs: nat, count: nat, n: nat)
    requires ParseUniversal(data).Some?
    ensures Heads(data, commands, inputs, count, n) && FirstInput(data, inputs + 4).Some?
    ensures commands + 36 < |data|
  {
    hide UsizeAt, FirstInput, ParseInput;
    commands, inputs := UsizeAt(data, 4).value, UsizeAt(data, 36).value;
    count, n := UsizeAt(data, commands + 4).value, UsizeAt(data, inputs + 4).value;
  }

  lemma HeadsStable(data: seq<byte>, extra: seq<byte>, commands: nat, inputs: nat, count: nat, n: nat)
    requires Heads(data, commands, inputs, count, n)
    ensures Heads(data + extra, commands, inputs, count, n)
    ensures (data + extra)[commands + 36] == data[commands + 36]
  {
    assert WordAt(data, 4).Some? && WordAt(data, 36).Some?;
    assert WordAt(data, commands + 4).Some? && WordAt(data, inputs + 4).Some?;
    hide WordAt, UsizeAt;
    UsizeStable(data, extra, 4);
    UsizeStable(data, extra, 36);
    UsizeStable(data, extra, commands + 4);
    UsizeStable(data, extra, inputs + 4);
  }

  lemma HeadsRead(data: seq<byte>, commands: nat, inputs: nat, count: nat, n: nat)
    requires Heads(data, commands, inputs, count, n) && FirstInput(data, inputs + 4).Some?
    ensures ParseUniversal(data) == ParseInput(data[commands + 36] % 64, FirstInput(data, inputs + 4).value)
  {
    hide UsizeAt, FirstInput, ParseInput;
  }

  lemma UniversalStable(data: seq<byte>, extra: seq<byte>)
    requires ParseUniversal(data).Some?
    ensures ParseUniversal(data + extra) == ParseUniversal(data)
  {
    hide ParseUniversal, Heads, FirstInput, ParseInput;
    var commands, inputs, count, n := HeadsOf(data);
    FirstInputStable(data, extra, inputs + 4);
    HeadsStable(data, extra, commands, inputs, count, n);
    HeadsRead(data, commands, inputs, count, n);
    HeadsRead(data + extra, commands, inputs, count, n);
  }

  /** What is recognised is decided by the bytes the swap refers to: appending anything to
      recognised calldata changes nothing. */
  lemma TrailingBytesIgnored(data: seq<byte>, extra: seq<byte>, ethValue: nat)
    requires ParseSwap(data, ethValue).Some?
    ensures ParseSwap(data + extra, ethValue) == ParseSwap(data, ethValue)
  {
    hide ParseV3Single, ParseV2Tokens, ParseV2Eth, ParseUniversal;
    assert (data + extra)[..4] == data[..4];
    var sel := data[..4];
    if sel == SEL_V3_EXACT_INPUT_SINGLE {
      SingleStable(data, extra);
    } else if sel == SEL_V2_SWAP_EXACT_TOKENS {
      TokensStable(data, extra);
    } else if sel == SEL_V2_SWAP_EXACT_ETH {
      EthStable(data, extra, ethValue);
    } else {
      UniversalStable(data, extra);
    }
  }

  /** Whatever the bytes, a recognised swap names two different 160-bit tokens and a 256-bit
      amount (the ETH value in range). */
  lemma RecognisedSwapIsSane(data: seq<byte>, ethValue: nat)
    requires ethValue < TWO_256 && ParseSwap(data, ethValue).Some?
    ensures var s := ParseSwap(data, ethValue).value;
            s.tokenIn != s.tokenOut && s.tokenIn < TWO_160 && s.tokenOut < TWO_160 && s.amountIn < TWO_256
  {
    hide FromBE, WordAt, UsizeAt;
    var sel := data[..4];
    if sel == SEL_V3_EXACT_INPUT_SINGLE {
      Bounded20(data[4..36][12..32]);
      Bounded20(data[36..68][12..32]);
      Bounded32(data[132..164]);
    } else if sel == SEL_V2_SWAP_EXACT_TOKENS {
      EndsSane(data, UsizeAt(data, 68).value + 4);
      Bounded32(WordAt(data, 4).value);
      hide AddressArrayEnds;
    } else if sel == SEL_V2_SWAP_EXACT_ETH {
      EndsSane(data, UsizeAt(data, 36).value + 4);
      hide AddressArrayEnds;
    } else {
      var base := UsizeAt(data, 36).value + 4;
      InputSane(data[UsizeAt(data, 4).value + 36] % 64, FirstInput(data, base).value);
      hide FirstInput, ParseInput;
    }
  }

  lemma Bounded20(bs: seq<byte>)
    requires |bs| == 20
    ensures FromBE(bs) < TWO_160
  {
    PowWord();
    FromBEBounded(bs);
  }

  lemma Bounded32(bs: seq<byte>)
    ensures ParseU256(bs) < TWO_256
  {
    if |bs| >= 32 {
      PowWord();
      FromBEBounded(bs[..32]);
    }
  }

  lemma EndsSane(data: seq<byte>, at: nat)
    requires AddressArrayEnds(data, at).Some?
    ensures var ends := AddressArrayEnds(data, at).value; ends.0 != ends.1 && ends.0 < TWO_160 && ends.1 < TWO_160
  {
    hide FromBE, UsizeAt;
    var len := UsizeAt(data, at).value;
    Bounded20(WordAt(data, at + 32).value[12..32]);
    Bounded20(WordAt(data, at + 32 + (len - 1) * 32).value[12..32]);
  }

  lemma InputSane(command: byte, input: seq<byte>)
    requires ParseInput(command, input).Some?
    ensures var s := ParseInput(command, input).value;
            s.tokenIn != s.tokenOut && s.tokenIn < TWO_160 && s.tokenOut < TWO_160 && s.amountIn < TWO_256
  {
    hide FromBE, WordAt, UsizeAt;
    Bounded32(input[32..64]);
    if command == CMD_V3_SWAP_EXACT_IN {
      var off := UsizeAt(input, 96).value;
      var len := UsizeAt(input, off).value;
      var path := input[off + 32..off + 32 + len];
      Bounded20(path[0..20]);
      Bounded20(path[len - 20..len]);
    } else {
      EndsSane(input, UsizeAt(input, 96).value);
      hide AddressArrayEnds;
    }
  }
}
