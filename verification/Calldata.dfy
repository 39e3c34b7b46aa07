/** The pending-swap calldata parser (engine/src/chain/pending.rs): a byte-level decoder for
    the Solidity Contract ABI Specification, section "Formal Specification of the Encoding". */
module Calldata {
  import opened Bytes
  import opened Pools
  import opened Words

  const SEL_V3_EXACT_INPUT_SINGLE: seq<byte> := [0x04, 0xe4, 0x5a, 0xaf]
  const SEL_V2_SWAP_EXACT_TOKENS: seq<byte> := [0x38, 0xed, 0x17, 0x39]
  const SEL_V2_SWAP_EXACT_ETH: seq<byte> := [0x7f, 0xf3, 0x6a, 0xb5]
  const SEL_UNIVERSAL_ROUTER: seq<byte> := [0x35, 0x93, 0x56, 0x4c]
  const CMD_V3_SWAP_EXACT_IN: byte := 0x00
  const CMD_V2_SWAP_EXACT_IN: byte := 0x08

  datatype PendingSwap = PendingSwap(tokenIn: Address, tokenOut: Address, amountIn: nat)

  // ── Checked index arithmetic on 64-bit `usize` ──────────────────────────────────

  function CheckedAdd(a: nat, b: nat): Option<nat> {
    if a + b < TWO_64 then Some(a + b) else None
  }

  function CheckedMul(a: nat, b: nat): Option<nat> {
    if a * b < TWO_64 then Some(a * b) else None
  }

  /** `data.get(from..to)`. */
  function Slice(data: seq<byte>, from: nat, to: nat): Option<seq<byte>> {
    if from <= to <= |data| then Some(data[from..to]) else None
  }

  function WordAt(data: seq<byte>, at: nat): Option<seq<byte>> {
    var end :- CheckedAdd(at, 32);
    Slice(data, at, end)
  }

  /** A word used as an offset or a length: none when out of bounds or 2^64 and above. */
  function UsizeAt(data: seq<byte>, at: nat): Option<nat> {
    var w :- WordAt(data, at);
    var v := FromBE(w);
    if v < TWO_64 then Some(v) else None
  }

  function ParseAddress(word: seq<byte>): Option<Address> {
    if |word| < 32 then None else Some(FromBE(word[12..32]))
  }

  function ParseU256(word: seq<byte>): nat {
    if |word| < 32 then 0 else FromBE(word[..32])
  }

  /** First and last entry of an `address[]` of 2 to 100 entries whose length word is at `at`. */
  function AddressArrayEnds(data: seq<byte>, at: nat): Option<(Address, Address)> {
    var len :- UsizeAt(data, at);
    if !(2 <= len <= 100) then None
    else
      var start :- CheckedAdd(at, 32);
      var w0 :- WordAt(data, start);
      var first :- ParseAddress(w0);
      var span :- CheckedMul(len - 1, 32);
      var end :- CheckedAdd(start, span);
      var w1 :- WordAt(data, end);
      var last :- ParseAddress(w1);
      if first != last then Some((first, last)) else None
  }

  // ── The parser ──────────────────────────────────────────────────────────────────

  function ParseV3Single(data: seq<byte>): Option<PendingSwap> {
    if |data| < 164 then None
    else
      var tokenIn :- ParseAddress(data[4..36]);
      var tokenOut :- ParseAddress(data[36..68]);
      if tokenIn == tokenOut then None
      else Some(PendingSwap(tokenIn, tokenOut, ParseU256(data[132..164])))
  }

  function ParseV2Tokens(data: seq<byte>): Option<PendingSwap> {
    if |data| < 196 then None
    else
      var w :- WordAt(data, 4);
      var offset :- UsizeAt(data, 68);
      var at :- CheckedAdd(offset, 4);
      var ends :- AddressArrayEnds(data, at);
      Some(PendingSwap(ends.0, ends.1, ParseU256(w)))
  }

  function ParseV2Eth(data: seq<byte>, ethValue: nat): Option<PendingSwap> {
    if |data| < 100 then None
    else
      var offset :- UsizeAt(data, 36);
      var at :- CheckedAdd(offset, 4);
      var ends :- AddressArrayEnds(data, at);
      Some(PendingSwap(ends.0, ends.1, ethValue))
  }

  /** First input of a UniversalRouter call as the parser locates it: the element offset is
      added to the position of the array's length word. */
  function FirstInput(data: seq<byte>, base: nat): Option<seq<byte>> {
    var offsetAt :- CheckedAdd(base, 32);
    var offset :- UsizeAt(data, offsetAt);
    var start :- CheckedAdd(base, offset);
    var len :- UsizeAt(data, start);
    var from :- CheckedAdd(start, 32);
    var to :- CheckedAdd(from, len);
    Slice(data, from, to)
  }

  function ParseInputV3(input: seq<byte>): Option<PendingSwap> {
    if |input| < 160 then None
    else
      var pathOff :- UsizeAt(input, 96);
      var pathLen :- UsizeAt(input, pathOff);
      if pathLen < 43 then None
      else
        var ps :- CheckedAdd(pathOff, 32);
        var pe :- CheckedAdd(ps, pathLen);
        var path :- Slice(input, ps, pe);
        var tokenIn := FromBE(path[0..20]);
        var tokenOut := FromBE(path[pathLen - 20..pathLen]);
        if tokenIn == tokenOut then None
        else Some(PendingSwap(tokenIn, tokenOut, ParseU256(input[32..64])))
  }

  function ParseInputV2(input: seq<byte>): Option<PendingSwap> {
    if |input| < 160 then None
    else
      var at :- UsizeAt(input, 96);
      var ends :- AddressArrayEnds(input, at);
      Some(PendingSwap(ends.0, ends.1, ParseU256(input[32..64])))
  }

  function ParseInput(command: byte, input: seq<byte>): Option<PendingSwap> {
    if command == CMD_V3_SWAP_EXACT_IN then ParseInputV3(input)
    else if command == CMD_V2_SWAP_EXACT_IN then ParseInputV2(input)
    else None
  }

  function ParseUniversal(data: seq<byte>): Option<PendingSwap> {
    if |data| < 100 then None
    else
      var cmdOff :- UsizeAt(data, 4);
      var cmdStart :- CheckedAdd(cmdOff, 4);
      var inputsOff :- UsizeAt(data, 36);
      var base :- CheckedAdd(inputsOff, 4);
      var cmdLen :- UsizeAt(data, cmdStart);
      if cmdLen == 0 || cmdLen > 16 then None
      else
        var cmdAt :- CheckedAdd(cmdStart, 32);
        if cmdAt >= |data| then None
        else
          // `& 0x3f`: the top two bits are flags.
          var command := data[cmdAt] % 64;
          var n :- UsizeAt(data, base);
          if n == 0 then None
          else
            var input :- FirstInput(data, base);
            ParseInput(command, input)
  }

  /** `parse_swap_calldata`.  Total on any bytes: every slice is in bounds. */
  function ParseSwap(data: seq<byte>, ethValue: nat): Option<PendingSwap> {
    if |data| < 4 then None
    else
      var sel := data[..4];
      if sel == SEL_V3_EXACT_INPUT_SINGLE then ParseV3Single(data)
      else if sel == SEL_V2_SWAP_EXACT_TOKENS then ParseV2Tokens(data)
      else if sel == SEL_V2_SWAP_EXACT_ETH then ParseV2Eth(data, ethValue)
      else if sel == SEL_UNIVERSAL_ROUTER then ParseUniversal(data)
      else None
  }
}
