# Verified model of the ArbitragePulse engine

ArbitragePulse watches pools on EVM chains, keeps a local cache of their state, looks for
cyclic trades that return more than they cost, and sends them. This project models the parts
of the engine whose correctness is decided by its own code, and proves what they promise.

* **Quotes** (`Words`, `Arithmetic`, `ConstantProduct`, `Route`, `StableCurve`, `StableSolver`,
  `Quoting`): floored constant-product arithmetic, spot and marginal quotes over virtual reserves,
  chains of quotes, the lookup of a quote by its directional key, and the Newton solver for x³y +
  xy³ = k, both over an exact curve and in the 256-bit integer form with its checked and
  saturating operators, with the balances for which it settles.
* **Pool cache and log feeds** (`Pools`, `PoolCaching`, `Feed`, `LastLogs`, `Listener`,
  `V4Mirror`, `Maintain`, `Recheck`, `TokenPricing`): the cache with its derived fields and
  indexes, the position-guarded application of logs that several feeds deliver repeatedly and late
  and what it must leave behind, the mirrored image of inverted Uniswap V4 pools, adoption of
  newly discovered pools, the re-read of quiet pools before a trade, and token pricing with the
  set of pools too shallow to trade.
* **Calldata** (`Bytes`, `Calldata`, `CalldataCodec`, `StandardCalls`): the byte-level parser of
  pending swaps, encoders it must invert, and what it makes of a standard encoder's calls
  (Contract ABI Specification, section "Formal Specification of the Encoding").
* **Execution** (`Keys`, `Scan`, `ScanRuns`, `Breaker`, `Nonces`): string keys of the shared
  cooldown map, the candidate loop of a scan, whole runs of scans, prunes, large swaps, pauses and
  resumes, the circuit breaker, and nonce allocation.
* **Network** (`Discover`, `Health`, `Latency`): the chunked multicall with its two retry budgets,
  the outage and hold machine with the monitor that probes it, and the latency window.

## How it is modelled

Objects the engine updates in place are classes whose methods state the whole new state as a pure
function of the old one; lemmas about those functions carry the results over every input and every
run. Loops of the engine are loops here. U256 values are naturals with every wrap, saturation and
overflow check written out (`Words`). The floor division of the quotes and the products of the
stable solver and of the marginal price are counted out (`Arithmetic.Quotient`,
`Arithmetic.Product`, equal to `/` and `*` by `Arithmetic.QuotientIsDivision` and
`Arithmetic.ProductIs`), and the proofs about the solver hide its unit and width, so that the
verifier never searches among nonlinear terms with wide constants. Money in floating point is
`real`; time is a natural number that never runs backwards; answers of nodes, and everything
another task does in between, are arbitrary inputs. One call of `apply_log_to_cache` is one atomic
step, although the stored position and the pool state are two map operations in the code.

## Where code and documentation part

The model follows the code. These are proved, each as a member of the table below.

* The parser's comment quotes the ABI for element offsets measured from the array's length
  word. The standard measures them from the word after it. A standard call with one input is
  therefore never recognised (`CalldataCodec.StandardSingleInputNeverParses`). A standard call
  with more inputs is read one word early: the offset of its last input is taken for the length
  of the first, the recipient for the amount and the minimum output for the position of the path
  (`StandardCalls.StandardCallIsRead`). It is read as a given swap exactly if the recipient, as a
  number, is the amount and the bytes at the minimum output, as a position before the last
  offset, spell the two tokens (`StandardCalls.StandardCallVerdicts`). A V3 swap with a minimum
  output of zero is recognised as a swap of the recipient
  (`StandardCalls.ZeroMinimumIsMisread`), a V2 swap never (`StandardCalls.ZeroMinimumV2IsMissed`).
* A comment says that multi-command calls return nothing. Under the parser's own convention the
  first command is read whatever follows it (`CalldataCodec.UniversalReadsFirstCommand`); under
  the standard one, more commands are what makes a misreading possible.
* `amount_out_v2` multiplies with wrap-around. As long as the denominator fits 256 bits, the quote
  is exact if and only if the numerator fits too (`ConstantProduct.AmountOutV2ExactIff`), as with
  uint112 reserves it does (`ConstantProduct.PairSizedInputsFit`); a Solidly Sync carries full
  words, and with reserves of 2^192 an ordinary trade is quoted at less than a thousandth of its
  output (`ConstantProduct.WideReservesWrap`).
* The stable solver is meant to converge within ten passes. With at least two whole tokens on
  the input side and at most ten billion on either side it settles within its 255 passes
  (`StableSolver.StableQuoteSettles`), and a quote keeps the pool on its curve up to the floors
  of the level (`StableSolver.StableQuoteKeepsCurve`), while one more unit of the output token and
  nine of 1e-18 would take it on or below the curve, up to the floored cube
  (`StableSolver.StableQuoteNearRoot`). A pool of 0.0026 tokens goes back and forth until the
  passes are used up (`StableCurve.SolverCanCycle`), and a level that is floored to zero lets one
  trade drain the pool (`StableCurve.ZeroLevelDrains`).
* Reading the pending count is said never to hand out a nonce that is still in the mempool.
  That holds if and only if no accepted transaction sits above the count
  (`Nonces.FetchIsSafeIff`); a dropped transaction below a live one breaks it
  (`Nonces.GapReusesLiveNonce`), and so does a timed-out send that arrives after all, if and only
  if it lands at or above what is tracked (`Nonces.LateArrivalIsSafeIff`,
  `Nonces.LateArrivalReusesLiveNonce`).
* The breaker pauses the chain, but the running scan never looks: its remaining candidates are
  still executed and counted (`Breaker.TripDoesNotStopTheScan`,
  `Breaker.FailuresPassTheMaximum`).
* The pair cooldown is there to keep two transactions for one pair apart. An acknowledged send
  does that (`ScanRuns.LiveSendsApart`); a send whose outcome is unknown cools its route down but
  not its pair (`ScanRuns.FailureCoolsNoPair`), and a second one can follow within a second
  (`ScanRuns.UnknownSendDoesNotSpace`).
* A large swap is said to clear the cooldowns of its own pairs. It clears by substring, so also
  those of longer ids (`ScanRuns.LargeSwapFreesLongerIds`).
* A degraded period can end before its hold has passed: only if it begins while a probe is out
  (`Health.EarlyEndsBeganInProbe`), and wherever one does (`Health.ProbeAnswerCutsNewPeriod`), as
  after a pause
  (`Health.PauseDuringProbeCutsHold`).

## Model

| member | source | states |
|---|---|---|
| ConstantProduct.OutputIsLargestAffordable | engine/src/pool_cache.rs:823-833 | a payout leaves the fee-adjusted pool on or above its curve if and only if it is at most the quote, so the quote is the largest payout the pool can afford |
| ConstantProduct.OutputBelowReserve | engine/src/pool_cache.rs:823-833 | never more than the output reserve, and less exactly when that reserve is not empty and the pool has an input reserve or nothing is paid in |
| ConstantProduct.ProductNeverFalls | engine/src/pool_cache.rs:823-833 | a swap at the quoted output never lowers the product of the reserves |
| ConstantProduct.OutputMonotone | engine/src/pool_cache.rs:823-833 | a larger input never returns less |
| ConstantProduct.SplittingNeverPays | engine/src/pool_cache.rs:823-833 | swapping a and then b on the moved reserves returns at most what a + b returns at once, floors included |
| ConstantProduct.RoundTripNeverPays | engine/src/pool_cache.rs:823-833 | swapping the proceeds back on the moved reserves never recovers more than was put in |
| ConstantProduct.CachedRoundTripNeverPays | engine/src/pool_cache.rs:823-833 | the same on unmoved, cached reserves |
| ConstantProduct.MarginalBound | engine/src/pool_cache.rs:823-833 | no output beats the fee-adjusted marginal price |
| ConstantProduct.AmountOutV2Exact | engine/src/pool_cache.rs:823-833 | when the widest product and the denominator fit 256 bits, the wrapping code returns the exact floor |
| ConstantProduct.AmountOutV2ExactIff | engine/src/pool_cache.rs:823-833 | whenever the denominator fits 256 bits, it does so if and only if the numerator fits too, for every input |
| ConstantProduct.PairSizedInputsFit | engine/src/pool_cache.rs:823-833 | they fit for uint112 reserves and inputs below 2^128 |
| ConstantProduct.WideReservesWrap | engine/src/pool_cache.rs:823-833 | with the full-word reserves a Solidly Sync can carry, a trade of one whole token is quoted at less than a thousandth of its exact output |
| Route.CapIsTight | engine/src/pool_cache.rs:220-230 | where the cap allows any input, the capped input is the largest one within both the input asked for and the fraction of the reserve; otherwise there is no cap |
| Route.SpotIsOutput | engine/src/pool_cache.rs:717-755 | there is a spot quote exactly when both virtual reserves are there and nothing overflows, and it is the exact output of the capped input |
| Route.MarginalIsFloor | engine/src/pool_cache.rs:757-781 | there is a marginal quote exactly when both virtual reserves are there and nothing overflows, and it is the floor of the input less the fee times their ratio |
| Route.RefreshedReserves | engine/src/pool_cache.rs:181-192 | the virtual reserve a refreshed state stores on side 0 brackets L·2^96 / sqrtPrice; that on side 1 brackets L·sqrtPrice / 2^96 if and only if L·sqrtPrice fits 256 bits, and is otherwise 2^160 - 1; the stored fee numerator is a million less the fee |
| Route.MarginalIsPrice | engine/src/pool_cache.rs:757-781 | the marginal quote of a cached pool is the input less the fee times sqrtPrice² / 2^192 for token0, and times its inverse for token1, up to the floors |
| Route.SpotIsLargest | engine/src/pool_cache.rs:717-755 | a cached pool's spot quote for token0 is the largest payout out of the virtual reserve of token1 that the curve affords when the capped input less the fee is added to that of token0 |
| Route.SpotIgnoresSides | engine/src/pool_cache.rs:717-781 | exchanging the two sides of a concentrated pool changes no spot and no marginal quote, so the same holds for token1 |
| Route.SpotKeepsVirtualPool | engine/src/pool_cache.rs:717-781 | in either direction a cached pool's spot quote leaves some of the other side's virtual reserve, never lowers their product and is at most the marginal quote |
| Route.PoolQuoteKeepsPoolWhole | engine/src/pool_cache.rs:800-817 | a cached pool quotes only its own tokens, pays out of the other side and never more than is there; a volatile pool is never drained and its product never falls |
| Route.VolatileQuoteIsLargest | engine/src/pool_cache.rs:800-833 | in its own fields, a cached volatile pool quotes for token0 the largest payout out of reserve1 its curve affords when 10 000 less the fee in 10 000 of the input is added to reserve0 |
| Route.StableQuoteOfPool | engine/src/pool_cache.rs:800-877 | in its own fields, a cached stable pool of two tokens to ten billion stays on its curve when it pays the quote for token0, each side in its own decimals and the input less its fee |
| Route.QuoteIgnoresSides | engine/src/pool_cache.rs:800-817 | exchanging the two sides of a pool changes no quote, so the same holds for token1 |
| Route.PoolOutAndBack | engine/src/pool_cache.rs:800-817 | out in one direction and back in the other on a cached volatile pool never returns more than was put in |
| Route.SpotNeverBeatsMarginal | engine/src/pool_cache.rs:717-781 | despite the cap, a spot quote is at most the marginal quote of the whole input |
| Route.LegsQuoteTheirPools | engine/src/pool_cache.rs:717-817 | a leg of such a chain quotes what the cached pool behind it quotes for token0, and the leg back what it quotes for token1 |
| Route.RouteBound | engine/src/pool_cache.rs:717-781 | a chain of local quotes of any length returns at most its input times the product of the legs' marginal prices |
| Route.ProfitNeedsPriceAboveOne | engine/src/pool_cache.rs:717-781 | a route can be quoted at a profit only if those prices multiply to more than one |
| Route.ReturnPrice | engine/src/pool_cache.rs:717-781 | the prices of any route followed by its way back multiply to at most one |
| Route.OutAndBackNeverPays | engine/src/pool_cache.rs:717-781 | so walking any route out and back over the same cached pools never quotes more than was put in |
| Quoting.QuoteIsOfItsPool | engine/src/pool_cache.rs:573-593 | a quote under a key is that of a cached pool of the key's router and two tokens, neither shallow nor disabled, and under an age limit synced within it or with the feed live |
| Quoting.SpotIsOfItsPool | engine/src/pool_cache.rs:717-755 | the same for concentrated pools, of the key's fee as well |
| Quoting.LiveFeedIgnoresAge | engine/src/pool_cache.rs:573-593 | while the feed is live an age limit refuses nothing |
| Quoting.InsertThenQuote | engine/src/pool_cache.rs:512-521 | a pool just inserted is quoted in both directions under its router and tokens unless it is skipped, with its own fee |
| Quoting.InsertThenQuoteV3 | engine/src/pool_cache.rs:649-663 | and so is a concentrated pool, under its fee as well |
| StableCurve.MoveStaysAbove | engine/src/pool_cache.rs:924-943 | by convexity, a downward move of at most the Newton step from a point on or above the level stays there |
| StableCurve.RunNeverPassesRoot | engine/src/pool_cache.rs:924-943 | any run of such moves, exact or floored, falls and never passes a root |
| StableCurve.NewtonIdeal | engine/src/pool_cache.rs:924-943 | over the exact curve the loop ends on or above the level, at or above every root, and not above its start |
| StableCurve.IdealAmountOut | engine/src/pool_cache.rs:841-877 | over the exact curve x³y + xy³ never falls, and the payout is at most the curve's true output |
| StableCurve.StableGetY | engine/src/pool_cache.rs:924-943 | the integer loop is at most 255 applications of its pass, whatever overflows |
| StableCurve.StableQuoteWithinReserve | engine/src/pool_cache.rs:841-877 | saturated or not, a stable quote is at most the output reserve |
| StableCurve.StableQuoteExactly | engine/src/pool_cache.rs:841-877 | there is a quote exactly when the solver ends below the output balance, and it is what that frees, floored to whole units of the output token |
| StableCurve.UnusablePassQuotesNothing | engine/src/pool_cache.rs:924-943 | a pool whose first pass has no slope, or a gap too wide for 256 bits, quotes nothing |
| StableCurve.MulOneExactly | engine/src/pool_cache.rs:881-888 | a product of the solver is there exactly when it fits 256 bits, and is then floored by 1e18 |
| StableCurve.LevelBelowCurve | engine/src/pool_cache.rs:881-888 | the integer level is never above x³y + xy³ |
| StableCurve.LevelAboveCurve | engine/src/pool_cache.rs:881-888 | unless a product overflows it is below by at most (x + y)² + 1 units of the last place |
| StableCurve.SettledSolveHonoursCurve | engine/src/pool_cache.rs:890-943 | when the solver stopped by itself with a usable slope and a gap that fits, two more units of 1e-18 put the balance on or above the level it was given |
| StableCurve.StableQuoteHonoursCurve | engine/src/pool_cache.rs:841-877 | so after such a quote, in the pool's own amounts (each side in its own token's decimals, the input less the fee in, the payout out), the pool with two more units of 1e-18 is on or above the curve it was on before, up to the loss of the level's floors |
| StableCurve.ZeroLevelDrains | engine/src/pool_cache.rs:841-888 | that loss is real: a concrete pool has level zero, and one trade takes it to under 1/4000 of its curve with the solver settled and nothing overflowing |
| StableCurve.SolverCanCycle | engine/src/pool_cache.rs:924-943 | a concrete pool below two tokens and an input on which the solver has not settled after 255 passes |
| StableSolver.LevelBracket | engine/src/pool_cache.rs:890-905 | the floored level function is below a smooth curve by at most an explicit noise |
| StableSolver.LandsNear | engine/src/pool_cache.rs:924-943 | with two tokens on the input side, a pass from above lands above again or where the next pass stops |
| StableSolver.Contracts | engine/src/pool_cache.rs:924-943 | a pass from above leaves at most two thirds of the distance to the root and two units |
| StableSolver.SolverSettles | engine/src/pool_cache.rs:924-943 | from at least two and at most ten billion whole tokens the loop settles within its 255 passes, never above its start, for every level on or below it |
| StableSolver.StableQuoteSettles | engine/src/pool_cache.rs:841-943 | so it settles on every quote of such balances, with a usable slope, a gap that fits and no overflow in the level |
| StableSolver.StableQuoteKeepsCurve | engine/src/pool_cache.rs:841-943 | and after any such quote of balances of that size, in the pool's own amounts, the pool with two more units of 1e-18 is on or above its curve before the swap, up to the loss of the level's floors |
| StableSolver.StopsNearRoot | engine/src/pool_cache.rs:924-943 | where the solver stops on or above its level, the largest balance on or below it is at most nine units away |
| StableSolver.StableQuoteNearRoot | engine/src/pool_cache.rs:841-943 | nor could it be much larger: with one more unit of the output token and nine of 1e-18 gone, the pool, in its own amounts, is on or below its curve before the swap, up to the floored cube of the input side |
| V4Mirror.VirtualReservesBracketLiquidity | engine/src/pool_cache.rs:181-192 | the product of the floored virtual reserves is at most L², and with one unit more on each side exceeds it |
| V4Mirror.InvertedExactly | engine/src/pool_cache.rs:43-46 | a pool is inverted exactly when its two currencies, with WETH for native ETH, sort the other way round in the cache |
| V4Mirror.InversePriceBracket | engine/src/pool_cache.rs:51-58 | the stored inverse r of a price s satisfies r·s ≤ 2^192 < (r + 1)·s |
| V4Mirror.InvertingTwice | engine/src/pool_cache.rs:51-58 | inverting twice gives price and tick back for every price up to one |
| V4Mirror.MirroredReserves | engine/src/pool_cache.rs:181-192 | mirroring exchanges the two virtual reserves up to the floor, never understating the first nor overstating the second |
| V4Mirror.MirroredRange | engine/src/pool_cache.rs:59-61 | a mirrored tick is in a mirrored range exactly when the tick is in the range |
| V4Mirror.TickMirroredIff | engine/src/pool_cache.rs:51-58 | the tick is mirrored if and only if the price is not zero |
| V4Mirror.StepKeepsMirror | engine/src/listener.rs:161-187 | one event on an inverted pool and its mirrored log on the cache keep the cache the image of the pool |
| V4Mirror.InvertedPoolRefines | engine/src/listener.rs:161-187 | over whole runs and any feeds, liquidity agrees with the pool simulated in its own orientation, the cached tick is −t − 1 and the cached price the floored inverse |
| Feed.FeedsConverge | engine/src/listener.rs:71-212 | for every delivery sequence whose first copies come in canonical order, with any repeats and late copies, the cached state is the fold of the canonical logs seen, once each; LastLogs.FeedsEndAtLastLogs says what that is |
| Feed.DeliverNext | engine/src/listener.rs:71-212 | one delivery, new or repeated, on a canonical state gives the canonical state of one log more or the same one |
| Feed.WorldConverges | engine/src/listener.rs:71-212 | the same for a whole cache under any interleaving of the deliveries of many pools |
| LastLogs.FoldIsLast | engine/src/listener.rs:71-212 | the canonical state, read off the logs: reserves of the last Sync, price and tick of the last Swap, and that Swap's liquidity with every change since that is in range at the current tick, each saturating at u128 |
| LastLogs.FeedsEndAtLastLogs | engine/src/listener.rs:71-212 | every such delivery sequence leaves exactly that in the cache |
| LastLogs.WorldEndsAtLastLogs | engine/src/listener.rs:71-212 | and so for every pool of a cache under any interleaving of the deliveries of many pools |
| LastLogs.NotifiesOnReports | engine/src/listener.rs:71-212 | a delivery triggers a scan exactly when it is not removed, not a repeat, and reports reserves or a price |
| Feed.BeforeIsChainOrder | engine/src/pool_cache.rs:496-507 | positions are ordered as the logs of the chain, counted through |
| Feed.NotifiedOnce | engine/src/pool_cache.rs:496-507 | in any run no position of a pool triggers a scan twice |
| Feed.PositionNeverFalls | engine/src/pool_cache.rs:496-507 | a stored position never falls |
| Feed.PositionlessDeltaIsNoOp | engine/src/listener.rs:161-212 | a liquidity delta without a position never changes the state |
| Feed.SwapRestoresCanonicalState | engine/src/listener.rs:71-212 | however many logs were missed, from the next new Swap on price, tick and liquidity are canonical again under every later interleaving |
| Feed.GenesisPositionIsARepeat | engine/src/pool_cache.rs:496-507 | a log at (0, 0) on a fresh pool has its canonical effect if and only if it is not a delta on a cached price (and key) with an amount, the tick in range and room to move; it never notifies |
| Feed.GenesisMintIsLost | engine/src/pool_cache.rs:496-507 | a concrete mint that is lost that way |
| Listener.ApplyLog | engine/src/listener.rs:71-212 | applying a log to the cache gives its pool exactly the state of one delivery, leaves every other pool alone, and returns a magnitude exactly when the event is recognised and new; in the cache's own fields, a log that is not behind leaves the first and second amount of a Sync as reserve0 and reserve1, and price, liquidity and tick of a Swap |
| Listener.ApplySync | engine/src/listener.rs:71-130 | the pool's reserve0 and reserve1 are the two amounts of the log, in that order, nothing else of it but the time changes, and the size is compared with the state before |
| Listener.LargeSyncExactly | engine/src/listener.rs:16-33 | where no product wraps, a Sync is large exactly when one of the two reserves moved, up or down, by the threshold or more |
| Listener.LargeSwapExactly | engine/src/listener.rs:16-33 | the same for the price of a Swap |
| PoolCaching.PoolCache.constructor | engine/src/pool_cache.rs:310-362 | an empty cache is coherent |
| PoolCaching.PoolCache.Insert | engine/src/pool_cache.rs:512-521 | the stored entry carries its recomputed fee numerator, both directional keys lead to it, the watch list will be rebuilt, and keys keep leading to pools of their own tokens unless the pool was cached under others |
| PoolCaching.PoolCache.UpdateReserves | engine/src/pool_cache.rs:523-529 | only the reserves and time of an existing pool change, and every index and derived field stays right |
| PoolCaching.PoolCache.SetV2FeeBps | engine/src/pool_cache.rs:397-403 | reports a change exactly when there was one, and the derived fee follows |
| PoolCaching.PoolCache.InsertV3 | engine/src/pool_cache.rs:649-663 | the stored state carries its recomputed virtual reserves (Route.RefreshedReserves says what they are), keyed in both directions |
| PoolCaching.PoolCache.InsertV4Key | engine/src/pool_cache.rs:310-335 | the watch list stays exact if and only if the key goes in before its pool, or the list was to be rebuilt anyway |
| PoolCaching.PoolCache.UpdateV3State | engine/src/pool_cache.rs:665-677 | price, liquidity and tick are replaced and the derived reserves follow (Route.RefreshedReserves) |
| PoolCaching.PoolCache.ApplyV3LiquidityDelta | engine/src/pool_cache.rs:679-700 | active liquidity moves exactly when the tick is inside the range, saturating at its width |
| PoolCaching.PoolCache.SetV3SwapFee | engine/src/pool_cache.rs:388-395 | reports a change exactly when there was one, and the derived fee follows |
| PoolCaching.PoolCache.WatchAddresses | engine/src/pool_cache.rs:466-494 | returns exactly the V2 pools and the V3 pools that are not V4 |
| PoolCaching.PoolCache.AdvanceLogPosition | engine/src/pool_cache.rs:496-507 | a position is new exactly when it is after the stored one, which then moves to it, and on a pool not heard of exactly when it is not (0, 0); no other pool's position changes |
| PoolCaching.PoolCache.RecomputeShallow | engine/src/pool_cache.rs:424-464 | afterwards a cached pool is in the shallow set exactly when its depth at a pricing of the whole cache is below the floor (its V3 depth when an address is cached in both forms), and the count is exact |
| PoolCaching.ShallowV2 | engine/src/pool_cache.rs:424-464 | a cached pool is too shallow exactly when what its two reserves are worth, or twice the worth of the only priced one, is below the floor |
| PoolCaching.ShallowV3 | engine/src/pool_cache.rs:424-464 | the same for the virtual reserves of a concentrated pool |
| PoolCaching.PutV2 | engine/src/pool_cache.rs:512-521 | inserting an entry with its two keys keeps derived fields and index right for every pool |
| PoolCaching.PutOwnV2 | engine/src/pool_cache.rs:512-521 | a re-insert that keeps the pool's router and tokens keeps every key leading to a pool of its own router and tokens |
| PoolCaching.PutV3 | engine/src/pool_cache.rs:649-663 | the same for V3 entries |
| TokenPricing.BestOffers | engine/src/pool_cache.rs:262-289 | walking the pools in any order finds, per unpriced token, the deepest offer of a pool with a priced side, and nothing else |
| TokenPricing.PriceTokens | engine/src/pool_cache.rs:262-289 | the loop computes two passes of the order-free pricing relation |
| TokenPricing.OffersExactly | engine/src/pool_cache.rs:262-289 | a pool offers a price for a token exactly when the other one alone is priced and both amounts are there, with the worth of the priced side as depth |
| TokenPricing.PricesIgnoreOrder | engine/src/pool_cache.rs:262-289 | when equally deep offers agree, the prices are a function of the set of pools |
| TokenPricing.PassKeepsPrices | engine/src/pool_cache.rs:262-289 | a pass changes no price, and each price it adds is that of the deepest offer |
| TokenPricing.KnownPricesStay | engine/src/pool_cache.rs:262-289 | known prices never change |
| TokenPricing.OfferKeepsDepth | engine/src/pool_cache.rs:262-289 | the price a pool offers makes its two sides worth the same, so its depth does not depend on whether its offer was taken |
| TokenPricing.UnpricedNeverShallow | engine/src/pool_cache.rs:424-452 | a pool with no priced side is never hidden |
| Maintain.AdoptNewPools | engine/src/chain/maintain.rs:106-125 | live pools keep their state, every scratch pool is present afterwards, the count is exact and the cache stays coherent with an exact watch list |
| Maintain.AdoptTwice | engine/src/chain/maintain.rs:106-125 | a second adoption of the same scratch cache adds nothing |
| Recheck.RecheckQuietPools | engine/src/chain/scan.rs:67-149 | the kept routes are those without a bad quiet pool, kept plus dropped is what came in, and in the cache's own fields exactly the pools on a route that went without a Sync for longer than their kind (stable or volatile) may, and were readable, end with the on-chain reserves and a new time |
| Recheck.KeptRouteByRoute | engine/src/chain/scan.rs:67-149 | a route is kept or dropped on its own quiet pools alone, and order is kept |
| Recheck.QuietExactly | engine/src/pool_cache.rs:379-384 | the pools to be re-read are those on a candidate's route whose time since the last Sync exceeds the stable age, for a stable pool, or the volatile one |
| Recheck.RouteIsKeptIff | engine/src/chain/scan.rs:67-149 | a route is kept if and only if every such pool on it was readable and held exactly what was read |
| Recheck.SurvivorsAreConfirmed | engine/src/chain/scan.rs:67-149 | every quiet pool of a kept route was readable and held exactly its on-chain reserves |
| CalldataCodec.V2TokensRoundTrip | engine/src/chain/pending.rs:56-261 | decoding an encoded V2 token swap returns the first token, the last token and the amount, for every amount and every path of 2 to 100 addresses with different ends |
| CalldataCodec.V2EthRoundTrip | engine/src/chain/pending.rs:56-261 | the same for a V2 swap of the transaction's own value |
| CalldataCodec.ParsesV2Tokens | engine/src/chain/pending.rs:56-261 | and wherever the call says its path is, from the least length the parser reads on |
| CalldataCodec.ParsesV2Eth | engine/src/chain/pending.rs:56-261 | the same for a swap of the transaction's own value |
| CalldataCodec.V3SingleRoundTrip | engine/src/chain/pending.rs:56-261 | the same for a V3 single-hop swap |
| CalldataCodec.UniversalRoundTrip | engine/src/chain/pending.rs:144-222 | the same for both swap commands of a UniversalRouter call under the code's element-offset convention, flag bits and further commands included |
| CalldataCodec.UniversalReadsFirstCommand | engine/src/chain/pending.rs:144-222 | such a call is read as its first command on its first input, however many commands follow |
| CalldataCodec.StandardSingleInputNeverParses | engine/src/chain/pending.rs:164-174 | with the offset a standard encoder writes for one input, nothing is recognised whatever the command |
| StandardCalls.StandardCallIsRead | engine/src/chain/pending.rs:144-222 | exactly what a standard call with two or more inputs is read as, for every command, input of whatever length, and last offset |
| StandardCalls.StandardCallVerdicts | engine/src/chain/pending.rs:144-222 | it is read as a given swap if and only if the last offset is a length its inputs have, their first word is the amount, and at the position in their third word the bytes spell the two tokens |
| StandardCalls.ZeroMinimumIsMisread | engine/src/chain/pending.rs:176-206 | a call whose first input is a V3 swap with minimum output zero, of any path and padding, is read as a swap of the recipient from the recipient's upper bytes to the path's last 20 bytes, or not at all if these are equal |
| StandardCalls.ZeroMinimumV2IsMissed | engine/src/chain/pending.rs:208-219 | a call whose first input is a V2 swap with minimum output zero is never recognised |
| CalldataCodec.TrailingBytesIgnored | engine/src/chain/pending.rs:56-261 | appending bytes to recognised calldata changes nothing |
| CalldataCodec.RecognisedSwapIsSane | engine/src/chain/pending.rs:56-261 | from arbitrary bytes, on all of which the parser is defined with every index in bounds, a recognised swap has two different 160-bit tokens and a 256-bit amount |
| Keys.FingerprintInjective | engine/src/types.rs:81-93 | for ids without a bar, equal fingerprints mean the same kind, pair id, router ids, fees and amount, colons in router ids included |
| Keys.BarInIdCollides | engine/src/types.rs:81-93 | with a bar in a pair id two different routes share a fingerprint |
| Keys.CooldownKeysDisjoint | engine/src/types.rs:71-122 | display ids, fingerprints, gas-log keys and count keys of any routes are never the same string |
| Keys.LogKeysInjective | engine/src/types.rs:113-122 | a gas-log or count key identifies its fingerprint |
| Keys.EveryKeyContainsPairId | engine/src/chain/mod.rs:1068-1074 | all four keys of a route contain its pair id and whatever that contains |
| Keys.DecimalRoundTrip | engine/src/types.rs:81-93 | a rendered number reads back as itself |
| Scan.Chain.Evaluate | engine/src/chain/scan.rs:547-1626 | the loop leaves the chain in the state of folding one step per candidate, and reports an outage exactly when the merged action holds one |
| Scan.Chain.Try | engine/src/chain/scan.rs:552-1619 | one pass of the loop body, early exits in the source's order, is one step |
| Scan.Chain.HandleFailure | engine/src/chain/scan.rs:1821-1958 | its early returns amount to: a gas reject only mutes its log, everything else cools the route down, and the count grows and can pause exactly for an error that is no gas reject, not of a simulation, and not of the node unless the contract itself rejected |
| Scan.Chain.FirstDetection | engine/src/chain/scan.rs:1806-1818 | true exactly when the route's count window has run out, which then starts again |
| Scan.Chain.GasRejectLogDue | engine/src/chain/scan.rs:1789-1801 | the same for the gas-reject log |
| Scan.Chain.OnTrigger | engine/src/chain/mod.rs:954-976 | a trigger resets the breaker after a resume and scans exactly when neither engine nor chain is paused |
| ScanRuns.PendingEmptyAfterScan | engine/src/chain/scan.rs:602-609 | the in-flight set is empty after every scan that starts with it empty |
| ScanRuns.NothingInFlightBetweenScans | engine/src/chain/scan.rs:602-609 | and over whole runs, so the in-flight check never fires |
| ScanRuns.NothingExecutesAfterStop | engine/src/chain/scan.rs:547-1626 | in one scan nothing executes after a success, so at most one candidate succeeds, nor after an outage, a rate limit or a second simulation timeout |
| ScanRuns.StopsWhenItShould | engine/src/chain/scan.rs:1849-1863 | a failure stops the scan if and only if it is a hard stop or the second simulation timeout |
| ScanRuns.StopsOnNodeTrouble | engine/src/chain/scan.rs:1849-1863 | in the error's own fields: a failure stops the scan exactly when the node is unreachable, rate limiting, or hanging, on a simulation only from the second of the scan on; all but rate limits are outages |
| ScanRuns.OutageReportedIff | engine/src/chain/scan.rs:547-1626 | a scan reports an outage exactly when one of its executions failed with one |
| ScanRuns.DegradedScanExecutesNothing | engine/src/chain/scan.rs:547-563 | from the first candidate reached while the node is degraded on, nothing executes and the breaker's books do not move |
| ScanRuns.ShortIsNotedWhileSkipping | engine/src/chain/scan.rs:690-710 | a balance found too small is noted and its route cooled down even in a scan that executes nothing any more |
| ScanRuns.WindowsNeverOverlap | engine/src/chain/scan.rs:565-600 | over every run, nothing gets past the cooldown of its route or pair, its gas-reject log or its count before the last deadline on that key has run out or a large swap cleared it; what is muted as a gas reject is not counted either |
| ScanRuns.LiveSendsApart | engine/src/chain/scan.rs:586-600 | after an acknowledged live send nothing executes for its pair until the send cooldown is over, whatever the route and however the attempt ends, unless a large swap cleared the pair in between |
| ScanRuns.UnknownSendDoesNotSpace | engine/src/chain/scan.rs:586-600 | a timed run in which a send of unknown outcome is followed by a live send of the same pair a second later, with a cooldown of 15 |
| ScanRuns.WindowOwner | engine/src/types.rs:71-122 | a deadline on a fingerprint, pair id, gas-log key or count key was put there by that very route (or a success on that pair) for that very purpose |
| ScanRuns.FailureCoolsNoPair | engine/src/chain/scan.rs:1821-1958 | a failed attempt leaves every pair's and every other route's cooldown as it was, and a gas reject its own route's too |
| ScanRuns.CountingCoolsNothing | engine/src/chain/scan.rs:1806-1818 | counting a detection affects no route's, pair's or gas log's deadline |
| ScanRuns.LargeSwapFreesRoute | engine/src/chain/mod.rs:1068-1074 | after a large swap a key is live exactly when it was and contains none of the ids, and all four keys of every route whose pair id contains one are free |
| ScanRuns.LargeSwapFreesLongerIds | engine/src/chain/mod.rs:1068-1074 | so a large swap on one pair frees a pair whose id merely contains it, as two configured pairs' ids do |
| ScanRuns.PruneChangesNoScan | engine/src/chain/mod.rs:688-692 | pruning changes nothing a later scan counts, skips, executes or books |
| Breaker.BooksBalance | engine/src/chain/scan.rs:1731-1746 | over every run the breaker's count is the counted failures since the last success or resume, attempts less failed executions are the successes, and `opps` the detections counted |
| Breaker.TrailingIsSuffixCount | engine/src/chain/scan.rs:1926-1936 | that count is the number of counted failures of the longest suffix without success or resume, so nothing else moves it |
| Breaker.ScanTripsIff | engine/src/chain/scan.rs:1926-1951 | a scan pauses the chain if and only if one of its counted failures brings that count to the maximum |
| Breaker.TripNeedsFreshFailures | engine/src/chain/mod.rs:1366-1373 | an unpaused trigger scans below the maximum, ends at it only paused, and after a resume needs the full number of fresh failures to trip |
| Breaker.TripDoesNotStopTheScan | engine/src/chain/scan.rs:547-1626 | the pause flag has no influence on the scan that sets it |
| Breaker.FailuresPassTheMaximum | engine/src/chain/scan.rs:547-1626 | every further candidate of a distinct route that fails for a counted reason is executed and counted, so the count can pass the maximum by any number |
| Nonces.Executor.Prepare | engine/src/executor.rs:467-516 | a failed prepare takes no nonce; a successful one hands out the tracked or fetched one and tracks the next |
| Nonces.Executor.RecordFailed | engine/src/executor.rs:638-647 | an unsent nonce is given back, a consumed one forgotten; Nonces.Executor.ReclaimRoundTrip and Nonces.Executor.ConsumedIsRefetched say what that does to the next prepare |
| Nonces.Executor.ReclaimRoundTrip | engine/src/chain/scan.rs:797-800 | after a failed pre-flight the next prepare hands out the same nonce |
| Nonces.Executor.ConsumedIsRefetched | engine/src/executor.rs:638-669 | after a failure that may have consumed the nonce, the next prepare hands out the node's pending count, whatever was tracked, and none without an answer |
| Nonces.UnsentNonceIsReused | engine/src/chain/scan.rs:797-800 | a nonce whose transaction was not sent or not taken is the next one handed out |
| Nonces.StepKeepsInv | engine/src/executor.rs:638-669 | every step that the chain's behaviour does not defeat keeps accepted nonces below the tracked one and hands out a fresh one |
| Nonces.NoncesStayFresh | engine/src/chain/scan.rs:1095-1115 | in every such run, with drops, forgotten nonces, refused sends, and unknown ones taken through the consumed branch and the prefetch, no nonce of an accepted transaction is handed out |
| Nonces.AcceptedNoncesContiguous | engine/src/chain/scan.rs:1095-1115 | when nothing is dropped, accepted nonces are contiguous in every reachable state, whatever is forgotten, refused, unknown or late |
| Nonces.FreshWithoutDrops | engine/src/chain/scan.rs:1095-1115 | and every nonce handed out is fresh as long as late arrivals stay below what is tracked |
| Nonces.DroppedNonceIsRefilled | engine/src/executor.rs:650-652 | after a drop and the forgetting that the missing receipt causes, the next nonce handed out is the dropped one |
| Nonces.SafeExactlyWhen | engine/src/executor.rs:638-669 | every continuation up to the next fetch or late arrival hands out fresh nonces if and only if no accepted nonce lies at or above what is tracked |
| Nonces.FetchIsSafeIff | engine/src/executor.rs:656-669 | so a fetch leads to such a safe state if and only if no accepted nonce lies above the count it returned |
| Nonces.PrefetchIsSafeIff | engine/src/executor.rs:656-669 | and the same for a prefetch, whatever was tracked |
| Nonces.LateArrivalIsSafeIff | engine/src/util.rs:441-454 | and a late arrival leaves a safe state safe if and only if nothing is tracked or it lands below that |
| Nonces.GapReusesLiveNonce | engine/src/executor.rs:650-652 | a run in which a drop under a live transaction makes the engine hand out that transaction's nonce |
| Nonces.LateArrivalReusesLiveNonce | engine/src/util.rs:441-454 | a run in which a timed-out send arrives late and its nonce is handed out again |
| Discover.DiscoverMc | engine/src/chain/discover.rs:593-701 | whatever the node does it ends, within nine requests per call, with one result per call in call order, each the call's value or None; a call is lost only if its single call got no answer or every multicall of its chunk went unanswered; a node that answers every multicall is asked once a chunk, loses nothing and gives every call its value |
| Discover.AskChunk | engine/src/chain/discover.rs:630-665 | every request before the last went unanswered, the last one too unless it is returned; of these the rate-limited ones, up to five, are waited out and all others are failed attempts; a chunk is lost exactly when the attempts run out |
| Discover.DiscoverChunk | engine/src/chain/discover.rs:666-697 | a lost chunk makes no single calls, any other none if its answer decodes and one per call if not, and then exactly the calls are lost whose single call got no answer |
| Discover.HealthyLosesNothing | engine/src/chain/discover.rs:593-701 | over the explained chunks of any run, a node that answers every multicall loses nothing and is asked once a chunk |
| Discover.LostWasRefused | engine/src/chain/discover.rs:593-701 | and every lost call was refused: its single call, or every multicall of its chunk until the attempts ran out |
| Discover.GivesUpAfterThree | engine/src/chain/discover.rs:593-701 | a chunk is given up after three failed attempts, and after one once a chunk was lost |
| Discover.RequestsBounded | engine/src/chain/discover.rs:593-701 | at most eight multicalls per chunk, six from the first lost chunk on, plus one single call per call |
| Health.RpcHealth.MarkOutage | engine/src/util.rs:327-335 | reports a hold exactly when it starts a degraded period |
| Health.RpcHealth.Recover | engine/src/util.rs:350-355 | ends a degraded period and says how long it was |
| Health.ReportsApart | engine/src/util.rs:363-370 | over any run of rate limits, two reports are at least the interval apart and every unreported one comes less than the interval after a report |
| Health.HoldDoubles | engine/src/util.rs:289-294 | one more relapse takes the hold from min(base·2^k, max) to min(base·2^(k+1), max) |
| Health.HoldsEscalate | engine/src/util.rs:287-360 | over every run the k-th relapse in a row holds min(base·2^k, max), and no two periods begin without an end or a pause between them |
| Health.EarlyEndsBeganInProbe | engine/src/chain/mod.rs:1306-1345 | over every run, a degraded period that ends before its hold has passed began while the probe that ended it was already out |
| Health.HoldsAreKept | engine/src/chain/mod.rs:1306-1345 | every period lasts its hold if none begins while a probe is out, pauses during a probe included |
| Health.ProbeLeavesWhenDue | engine/src/chain/mod.rs:1306-1345 | a probe leaves exactly when none is out and the hold of the current period has passed |
| Health.UnhealthyAnswerEndsNothing | engine/src/chain/mod.rs:1306-1345 | an unhealthy answer leaves the period as it was |
| Health.ProbeAnswerCutsNewPeriod | engine/src/chain/mod.rs:1306-1345 | wherever a period may begin while a probe is out, the answer can end it at once |
| Health.PauseDuringProbeCutsHold | engine/src/chain/mod.rs:1306-1345 | such a place is reached by a pause while a probe is out |
| Latency.LatencyWindow.Record | engine/src/util.rs:124-133 | after any run of records the window holds exactly the multiset of the last 4096 samples, or of all of them |
| Latency.LayoutStep | engine/src/util.rs:124-133 | overwriting at n mod 4096 keeps the buffer the rotation of the latest samples |
| Latency.LayoutHoldsLatest | engine/src/util.rs:109-133 | that rotation holds exactly the latest samples |
| Latency.LatencyWindow.TakeSummary | engine/src/util.rs:136-143 | reports p50, p95 and maximum of the latest samples with the exact number recorded, and clears the window |
| Latency.NearestRank | engine/src/util.rs:147-154 | for every percentile at least ⌈p·len/100⌉ samples are at most the value and fewer are strictly below it |
| Latency.PercentilesAreRanks | engine/src/util.rs:147-154 | p50 and p95 are such ranks, the third value is the maximum, and they are in order |

## Left out

- Strategy and size optimisation, the Solidity contract, configuration and token lists: opportunities are arbitrary inputs here.
- RPC providers, subscriptions, tasks, timeouts, HTTP handlers, databases, metrics and logging: their outcomes are inputs of the model.
- Rounding of floating-point money: depths and prices are real numbers.
- keccak, pool ids, event decoding and transaction signing: logs arrive decoded.
- Concurrency inside one call: each map operation sequence of a call is one atomic step, and API writes to the pause flag come between scans.
- Live execution through `execute()` outside the candidate loop, receipts and race analysis.
- `profit_share_tip`, `gas_cost_to_token_floor`, `pending_time_at`, `block_position_at`, `token_pairs`, `merge_swap_batch`: each is settled by reading one body.
- Feed.FeedsConverge: speaks of logs with a position after the stored one; logs without a position bypass the ordering by design, and position (0, 0), which no chain's transactions reach, is treated in Feed.GenesisPositionIsARepeat.
- ConstantProduct.SplittingNeverPays: exact arithmetic; the wrapping code meets it under the condition of ConstantProduct.AmountOutV2Exact.
- ConstantProduct.AmountOutV2ExactIff: says nothing of a denominator that wraps, where the two quotes can agree by accident, as with an empty output reserve.
- StableSolver.StableQuoteKeepsCurve: for balances of the size of StableSolver.SolverSettles; StableSolver.StableQuoteNearRoot too.
- StableCurve.StableQuoteHonoursCurve: assumes that the solver stopped by itself; StableSolver.StableQuoteSettles gives balances for which it does.
- StableSolver.SolverSettles: sufficient, not necessary. StableCurve.SolverCanCycle and StableCurve.ZeroLevelDrains are pools far below one token that fail in either way; between those and two tokens on the input side the question is open here. Far above ten billion tokens products overflow.
- Route.VolatileQuoteIsLargest: under the condition of ConstantProduct.AmountOutV2Exact, as the code wraps beyond it.
- Route.MarginalIsPrice: for liquidity times price below 2^256; above, the stored reserve saturates and no longer follows the price, as Route.RefreshedReserves says.
- LastLogs.FeedsEndAtLastLogs: for reported liquidities of 128 bits, as the logs carry them.
- V4Mirror.InvertedPoolRefines: prices above one lose precision in the floored inverse; the cached price is stated as that floor.
- TokenPricing.PricesIgnoreOrder: needs equally deep offers to agree, because the first one met wins a tie.
- PoolCaching.PoolCache.Insert: re-inserting a pool under another router or tokens leaves its old keys in the index, which still lead to it.
- Recheck.RecheckQuietPools: readings are inputs, and no log arrives between the read and the stamp.
- Nonces.NoncesStayFresh: runs in which a fetch sees a live nonce above a gap, or a late arrival lands at or above the tracked nonce, are excluded; Nonces.FetchIsSafeIff and Nonces.LateArrivalIsSafeIff show that nothing less will do.
- ScanRuns.LiveSendsApart: the first send is acknowledged, because only those cool their pair down; ScanRuns.UnknownSendDoesNotSpace shows it.
- Discover.DiscoverMc: assumes that aggregate3 answers one result per call; the waits between requests are left out.
- Health.EarlyEndsBeganInProbe: assumes the monitor is the only one to end a degraded period, as in the engine.
