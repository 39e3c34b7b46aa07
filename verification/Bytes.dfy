/** Bytes and big-endian words. */
module Bytes {
  import opened Arithmetic
  import opened Words

  type byte = b: nat | b < 256

  /** Value of a big-endian byte string. */
  function FromBE(bs: seq<byte>): nat {
    if bs == [] then 0 else FromBE(bs[..|bs| - 1]) * 256 + bs[|bs| - 1]
  }

  /** The low `n` bytes of `v`, big-endian. */
  function ToBE(v: nat, n: nat): (bs: seq<byte>)
    ensures |bs| == n
  {
    if n == 0 then [] else ToBE(v / 256, n - 1) + [v % 256]
  }

  function Pow256(n: nat): (p: nat)
    ensures p > 0
  {
    if n == 0 then 1 else 256 * Pow256(n - 1)
  }

  lemma {:induction false} FromBEBounded(bs: seq<byte>)
    ensures FromBE(bs) < Pow256(|bs|)
  {
    if bs != [] {
      FromBEBounded(bs[..|bs| - 1]);
    }
  }

  lemma {:induction false} FromToBE(v: nat, n: nat)
    requires v < Pow256(n)
    ensures FromBE(ToBE(v, n)) == v
  {
    if n > 0 {
      FromToBE(v / 256, n - 1);
      var bs := ToBE(v, n);
      assert bs[..n - 1] == ToBE(v / 256, n - 1);
    }
  }

  lemma {:induction false} Pow256Add(a: nat, b: nat)
    ensures Pow256(a + b) == Pow256(a) * Pow256(b)
  {
    if a > 0 {
      Pow256Add(a - 1, b);
      MulAssoc(256, Pow256(a - 1), Pow256(b));
    }
  }

  lemma PowWord()
    ensures Pow256(32) == TWO_256 && Pow256(20) == TWO_160
  {
    assert Pow256(4) == 0x1_0000_0000 by {
      assert Pow256(3) == 0x100_0000;
    }
    Pow256Add(4, 4);
    Pow256Add(8, 8);
    Pow256Add(16, 4);
    Pow256Add(16, 16);
  }
}
