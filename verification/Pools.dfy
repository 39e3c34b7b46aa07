/** Cached pool state and its pure updates (engine/src/pool_cache.rs). */
module Pools {
  import opened Arithmetic
  import opened Words

  type Address = nat

  /** OP Stack WETH predeploy: native ETH is cached under it. */
  const WETH: Address := 0x4200_0000_0000_0000_0000_0000_0000_0000_0000_0006

  datatype PoolInfo = PoolInfo(
    token0: Address, token1: Address, reserve0: nat, reserve1: nat, feeBps: nat,
    routerId: string, isStable: bool, decimals0: nat, decimals1: nat, lastSync: nat, feeNum: nat)

  datatype V3State = V3State(
    token0: Address, token1: Address, fee: nat, swapFee: nat, sqrtPrice: nat, liquidity: nat,
    tick: int, routerId: string, lastUpdated: nat, vr0: nat, vr1: nat, feeNumV3: nat)

  datatype V4Key = V4Key(currency0: Address, currency1: Address, fee: nat, tickSpacing: int) {
    /** A native ETH pool whose partner sorts below WETH is cached with its price inverted. */
    predicate Inverted() {
      currency0 == 0 && currency1 < WETH
    }

    function ToCachePrice(sqrtPrice: nat, tick: int): (nat, int) {
      if !Inverted() || sqrtPrice == 0 then (sqrtPrice, tick)
      else (Quotient(TWO_192, sqrtPrice), -tick - 1)
    }

    function ToCacheRange(lower: int, upper: int): (int, int) {
      if Inverted() then (-upper, -lower) else (lower, upper)
    }
  }

  function FeeNumV2(feeBps: nat): nat {
    SaturatingSub(10_000, feeBps)
  }

  function Vr0(liquidity: nat, sqrtPrice: nat): nat {
    if sqrtPrice == 0 || liquidity == 0 then 0 else Quotient(Saturate(liquidity * TWO_96), sqrtPrice)
  }

  function Vr1(liquidity: nat, sqrtPrice: nat): nat {
    if sqrtPrice == 0 || liquidity == 0 then 0 else Quotient(Saturate(liquidity * sqrtPrice), TWO_96)
  }

  /** `refresh_vr`. */
  function RefreshVr(s: V3State): V3State {
    s.(feeNumV3 := SaturatingSub(1_000_000, s.swapFee),
       vr0 := Vr0(s.liquidity, s.sqrtPrice),
       vr1 := Vr1(s.liquidity, s.sqrtPrice))
  }

  /** A liquidity change counts only inside the position's range. */
  predicate InRange(lower: int, upper: int, tick: int) {
    lower <= tick < upper
  }

  /** u128 saturating add / sub. */
  function ShiftLiquidity(liquidity: nat, amount: nat, add: bool): nat {
    if add then Min(liquidity + amount, TWO_128 - 1) else SaturatingSub(liquidity, amount)
  }
}
