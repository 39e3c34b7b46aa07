/** 256-bit machine words as bounded naturals.

    The engine's U256 operators wrap, and its `saturating_*` / `checked_*` methods do what
    their names say.  Every width effect is written out with the functions below. */
module Words {
  const TWO_64: nat := 0x1_0000_0000_0000_0000
  const TWO_96: nat := 0x1_0000_0000_0000_0000_0000_0000
  const TWO_112: nat := 0x1_0000_0000_0000_0000_0000_0000_0000
  const TWO_128: nat := 0x1_0000_0000_0000_0000_0000_0000_0000_0000
  const TWO_160: nat := 0x1_0000_0000_0000_0000_0000_0000_0000_0000_0000_0000
  const TWO_192: nat := 0x1_0000_0000_0000_0000_0000_0000_0000_0000_0000_0000_0000_0000
  const TWO_256: nat :=
    0x1_0000_0000_0000_0000_0000_0000_0000_0000_0000_0000_0000_0000_0000_0000_0000_0000

  /** Optional values, usable with `:-` the way the engine uses `?`. */
  datatype Option<+T> = None | Some(value: T) {
    predicate IsFailure() {
      None?
    }

    function PropagateFailure<U>(): Option<U>
      requires None?
    {
      None
    }

    function Extract(): T
      requires Some?
    {
      value
    }
  }

  /** `U256` operator semantics: keep the low 256 bits. */
  function Wrap(n: nat): nat {
    n % TWO_256
  }

  function Min(a: nat, b: nat): nat {
    if a <= b then a else b
  }

  /** `saturating_add` / `saturating_mul` on the exact result. */
  function Saturate(n: nat): nat {
    Min(n, TWO_256 - 1)
  }

  function SaturatingSub(a: nat, b: nat): nat {
    if a >= b then a - b else 0
  }

  /** `checked_*` on the exact result. */
  function Checked(n: nat): Option<nat> {
    if n < TWO_256 then Some(n) else None
  }

  /** What the three kinds of operator leave of an exact result. */
  lemma WordOperators(n: nat, q: nat, a: nat, b: nat)
    ensures q <= Saturate(n) <==> q <= n && q < TWO_256
    ensures q <= SaturatingSub(a, b) <==> q == 0 || q + b <= a
    ensures Wrap(n) < TWO_256 && (n - Wrap(n)) % TWO_256 == 0
    ensures Checked(n).Some? <==> n < TWO_256
  {
  }
}
