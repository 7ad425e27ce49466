# Trade search and settlement, verified

A Dafny model of the core of the prop-AMM simulator: how a trade size is found, priced, executed and scored.
`dafny verify dfyconfig.toml` checks all of it. Amounts the simulator keeps as `f64` are `real` here; amounts it keeps
as `u64`, `u128` or bytes are integers and byte sequences with their width written out.

## What is modelled, and the main results

**Approximate maximisers** (`Golden`, `Search`, `ArbSearch`, `ArbLimits`, `PlannerLimits`, `SplitSearch`,
`SplitGuarantee`, `SearchEnds`). Both searches reuse one probe a turn and use a truncated golden fraction, so a reused
probe drifts. The drift is bounded by an explicit recurrence (`Golden.Drift`), every turn keeps the probes in order
and shrinks the width by 0.618033 to 0.618034, and nothing a turn discards beats the best probe so far by more than
2.62 times the noise of the scores. Objectives are concave functions *seen with an error*: `Observes(s, f, eps, a, b)`
says that the scores `s` lie at most `eps` below the concave `f`, which is what integer quotes are.

- The arbitrageur's search earns at least 99% of any profit in range when it starts at a size that earns something, or
  near the least size, at every size up to 33554432 times that start, and at every size where the 24-step cap does not
  fire; `CappedExactly` says when it does, and from a start of 550 it never does. The exact condition is `Short`: the
  lowest size a leftward search can probe, `(1 - c)^7` of the way up the bracket, is within a hundredth of the low
  end, which is a bracket up to about 9.515 times its low end. `SearchIsNinetyNineExactly` proves that the guarantee
  holds for every concave profit, and for every profit a pool could pay, if and only if the bracket from the least
  size to the start is `Short`. A start that earns something is always good enough. Counting the cap, every size in
  range is found if and only if 25 doublings of the start come within a hundredth of the largest
  (`SearchFindsAllExactly`). `PlannerKeepsHalf` is a pool on which a start that loses costs half the profit.
- The documentation says that the search stops once the trade size is within about 1%. Where that stop fires on an
  exact concave profit, the chosen size is within 1% of every best size or is one itself (`ChosenIsNearBest`), and
  after a doubling it always fires (`DoubledEndsNarrow`); otherwise the iteration cap can end the search first.
- The router's split finds at least 95% of the best score for every order above the least trade size, whichever of its
  stops fires. The floor `1e-12` in the relative-gap test never acts on pool quotes, which are whole nanos; for
  arbitrary real scores it is harmless from 0.64 of its own height up and harmful from 0.638 of it down.

**Integer constant product** (`ConstantProduct`, `Normalizer`, `NormalizerPool`, `Codec`, `Nano`). The floor-then-ceil
quote is exactly the largest output that keeps the product; splitting never helps; the product never falls over a run;
two equal net steps fall to within one nano. The 128-bit arithmetic of the three programs is modelled with its
overflow and shown exact. Storage reaches the program through the byte codec, which is proved invertible in both
directions.

**Pool, routing and run** (`PoolModel`, `TradeCalls`, `Amm`, `Arbitrage`, `Arbitrageur`, `StepChoice`, `Routing`,
`TradeFlows`, `OrderSizes`, `OrderRouter`, `Engine`, `EngineEdge`, `ProductRuns`, `NormalizerRuns`). The pool, the
arbitrageur and the loops are classes and methods that update their fields, each proved equal to a function of the old
state; the theorems are about those functions. A submission is any swap function and any after-swap hook. The hook is
told exactly the trade that was made (`BuyTellsHook`). A step takes the better of both sides, so on a pool that
follows a curve it makes 99% of any profit on either (`StepMakesBuys`, `StepMakesSells`). Every order moves both pools
by exactly its trades and takes at most its size. The edge of a run is mark-to-market profit net of holding profit,
and so is what the normalizer gains; after a step without orders nothing is left to arbitrage in the normalizer, and
its product never falls over a run from the usual reserves on.

**Closed form** (`ClosedForm`, `ClosedFormPlans`). On the real curve the planned size is optimal and the two sides are
never open together. On a pool with fractional reserves and integer quotes the plan is optimal up to a few nanos, and
after an unclamped trade neither planner finds another at the same price, provided the fee covers the quote noise. A
quote can exceed the curve of the real reserves, because the reserves are floored first; that case is included.

**End to end** (`CurveBand`, `PoolCurve`, `PoolGuarantee`, `ArbGuarantee`, `NormalizerRoutes`, `SmallOrders`). Integer
quotes are shown to be a concave curve seen with an error of one nano plus two nanos of input at the pool's price.
That feeds the search theorems: routed orders between constant-product pools deliver 95% of what any split is worth,
with every constant worked out, and plans earn 99% on any pool that follows a curve, with the noise worked out on
constant-product ones. An order of at most two least trades pays what one pool would pay for all of it, because one
leg of every split is too small to be quoted; between two pools alike that keeps the 95% exactly while the order is
small against the reserve (`TwinPoolsAndSmallBuys`).

**Shape checks** (`ShapeCheck`, `ShapeGuarantee`, `ShapeLines`, `ShapePools`, `ShapeDepth`, `ShapeDeep`,
`SampledShapes`, `Validator`, `ValidatedPrograms`, `ValidatorRejects`). The runtime check is proved to refine a
declarative specification and to depend only on the set of samples; the samples are all a search was decided by
(`SearchIsDecidedBySamples`), and for an order they are the submission's own quotes. Merged samples within the stated
uncertainty of a rising concave curve are never rejected. Merging itself can cause a rejection, because it keeps the
larger output at the smaller input: for samples near a straight line `LinesAcceptedExactly` gives the exact condition,
and samples exactly on a line are safe exactly up to slope one. A constant-product submission passes on the side it
prices at a half or less. At any price it passes while its pool is shallow (`SellsPassTheCheck`): at 30 basis points
the input reserve and each size together may come to 974 units, or 182 when sizes are so close that they merge, so 100
X against 10,000 Y is safe for separate sells up to 874 X. Beyond that depth it is stopped: every pool of 1050 units
or more at a price of a hundred, or 2010 or more at a price of ten, has three sells that are refused (`DeepAtPrice`,
`DeepSellsAreRefused`). The validator accepts the starter and both normalizers, and turns away every program that is
silent, fails, is flat between two tested sizes or bulges by two nanos over a step.

Where code and documentation differ the model follows the code. Findings: a losing start can cost the arbitrageur half
its profit; merging close samples bends steep lines; at 30 basis points flooring the net input makes every
constant-product pool beyond a thousand units or so, at prices of a hundred and up, look convex to the runtime check;
an order of at most two least trades gains nothing from a split; and the on-chain normalizer always charges 30 basis
points, so it agrees with the native one and with the planner exactly when the fee word reads as 30
(`AgreeExactlyAtThirty`).

## Model

| member | source | states |
|---|---|---|
| Golden.SlackIsTiny | crates/sim/src/arbitrageur.rs:420-459 | Over the 12 or 14 turns either search allows, the drift of a reused probe stays below a billionth of the bracket width |
| Golden.PlacedBounds | crates/sim/src/arbitrageur.rs:420-459 | After any allowed number of turns left < x1 < x2 < right, with both probes within 0.618033 to 0.618034 of the width from the far ends |
| Golden.ProbeSpacing | crates/sim/src/router.rs:232-285 | The outer gaps are at most 1.62 times the gap between the probes |
| Golden.Reuse | crates/sim/src/arbitrageur.rs:436-459 | The probe kept from the last turn sits in its golden place of the new bracket up to the next drift bound, although c² + c is not 1 |
| Golden.NarrowKeepsPlaced | crates/sim/src/router.rs:266-284 | A turn keeps both probes placed, stays inside the old bracket and leaves 0.618033 to 0.618034 of its width, whatever the scores |
| GoldenSearch.BestIsMaximum | crates/sim/src/arbitrageur.rs:410-433 | The best-so-far is one of the probes and no probe scores higher |
| GoldenSearch.BestIsFirst | crates/sim/src/router.rs:315-321 | Ties go to the earlier probe: everything before the best scores strictly less, everything after no more |
| GoldenSearch.DropIsSafe | crates/sim/src/arbitrageur.rs:437-449 | On the side a turn drops, a concave curve is at most the better inner probe's score plus 2.62 times the noise |
| GoldenSearch.StepKeepsDiscarded | crates/sim/src/router.rs:266-284 | No point outside the bracket beats the best probe so far by more than 2.62 times the noise, and a turn keeps that so |
| GoldenSearch.StepIsSound | crates/sim/src/arbitrageur.rs:435-459 | A turn keeps the whole search invariant: placed probes, all probes in range, ends and inner probes sampled, discarded points beaten |
| ArbSearch.GoldenSectionMax | crates/sim/src/arbitrageur.rs:396-473 | The loop over left, right, x1, x2 and the best-so-far pair samples exactly the probes of the search function, in order, and returns the first best of them with its score |
| ArbSearch.FindBracket | crates/sim/src/arbitrageur.rs:346-394 | The doubling loop returns the low and high end of the bracket function and samples exactly its probes |
| ArbSearch.RefineIsSound | crates/sim/src/arbitrageur.rs:435-469 | The loop ends with the invariant intact, by the width tolerance or after 12 turns, with the width shrunk accordingly |
| ArbSearch.RefineStaysOnPath | crates/sim/src/arbitrageur.rs:435-469 | Either the search never left the low end and its probes are exactly the lowest possible, or its left end is at least 0.6 widths above the low end |
| ArbSearch.ShortIsNineAndAHalf | crates/sim/src/arbitrageur.rs:9-13 | The exact condition of the 99% guarantee, in figures: every bracket up to 9.515 times its low end is short, none above 9.516 times is |
| ArbSearch.LastGaps | crates/sim/src/arbitrageur.rs:461-468 | The tolerance stop, and on short brackets the iteration cap, leave each probe within a hundredth of the one below it |
| ArbSearch.MiddleStretch | crates/sim/src/arbitrageur.rs:420-469 | Between two probes close together against a size that earns something further up, one end earns 99% of every point between them |
| ArbSearch.GoldenIsNinetyNine | crates/sim/src/arbitrageur.rs:396-473 | Golden-section search scores at least 99% of any point of a short bracket, or of any bracket up to twice a size that earns something, less 2.62 times the noise |
| ArbSearch.ChosenIsNearBest | crates/sim/src/arbitrageur.rs:461-468 | When the width tolerance fires on an exact concave profit the chosen size is a best one, or shares the last bracket with every best size and lies within 1% of the bracket's centre of each |
| ArbSearch.DoubledEndsNarrow | crates/sim/src/arbitrageur.rs:12-13 | On a bracket that doubled the search always ends within the width tolerance, never at its iteration cap alone |
| ArbSearch.BracketEnds | crates/sim/src/arbitrageur.rs:346-394 | How a bracket ends: at a first size that earns nothing or is the largest, or after sizes that each beat the one before, at a fall, the top, or the step cap |
| ArbSearch.BracketStaysInRange | crates/sim/src/arbitrageur.rs:356-394 | The least size <= lo <= hi <= the largest size always; a bracket that doubled has hi <= 4 lo and lo earns something |
| ArbSearch.CappedBracketClimbed | crates/sim/src/arbitrageur.rs:375-393 | A bracket stopped by its 24-step cap took 26 probes, each beating the one before it, and is still short of the largest size: the cap is all that stopped it |
| ArbSearch.CappedSizesDouble | crates/sim/src/arbitrageur.rs:375-393 | A capped bracket took exactly 26 sizes, each twice the one before it, and lies between 8388608 and 33554432 times the size it started at, short of the largest |
| ArbSearch.CappedExactly | crates/sim/src/arbitrageur.rs:375-393 | The cap fires if and only if the first size earns something, 33554432 times it stays short of the largest size, and each of the 25 doublings in between earns more than the one before |
| ArbSearch.BracketCovers | crates/sim/src/arbitrageur.rs:346-394 | For a concave profit through the origin the bracket holds a size as good as every size in range, up to the noise, unless the step cap cut it off |
| ArbSearch.BracketIsFit | crates/sim/src/arbitrageur.rs:359-394 | From a size that earns something the bracket is short or reaches at most twice a size that earns something |
| ArbSearch.ArbSearchIsNinetyNine | crates/sim/src/arbitrageur.rs:346-473 | A well started search scores at least 99% of any profit at a size up to 33554432 times its start, and at every size in range where the cap does not fire, less an explicit multiple of the noise |
| ArbSearchLimits.WideBracketCanMiss | crates/sim/src/arbitrageur.rs:396-473 | On every bracket that is not short there is a profit a pool could pay, with a rising concave quote and nothing at the high end, of which the search finds less than 99% |
| ArbSearchLimits.NinetyNineExactlyWhenShort | crates/sim/src/arbitrageur.rs:396-473 | The search finds 99% of every concave profit at every size of a bracket if and only if the bracket is short, and the same if and only if for the profits a pool could pay |
| ArbSearchLimits.DistantStartCanMiss | crates/sim/src/arbitrageur.rs:363-366 | From every start whose bracket down to the least size is not short, a profit a pool could pay defeats the whole search without reaching the step cap |
| ArbSearchLimits.SearchIsNinetyNineExactly | crates/sim/src/arbitrageur.rs:346-473 | Bracket and golden section together find 99% of every concave profit, and of every profit a pool could pay, at every size the step cap does not keep it from, if and only if the bracket from the least size to the start is short |
| ArbSearchLimits.SearchFindsAllExactly | crates/sim/src/arbitrageur.rs:346-473 | With no size excused for the cap, the search finds 99% of every concave profit at every size in range if and only if its first bracket is short and 33554432 times its start comes within a hundredth of the largest size |
| ArbSearchLimits.CappedRiseMisses | crates/sim/src/arbitrageur.rs:375-393 | From every other start a profit that rises one for one all the way is cut off more than a hundredth short |
| SearchEnds.GoldenEndsInTime | crates/sim/src/arbitrageur.rs:396-473 | Golden-section search scores five to sixteen sizes; it ends within a hundredth of the middle of its bracket, and no finer than 0.61% of the low end unless in its first turn, or after all sixteen with at most 0.311% of its first width |
| SearchEnds.SplitEndsNarrow | crates/sim/src/router.rs:215-293 | The split search scores at most 19 shares and ends by its amount test, its gap test or at most 0.119% wide, never below 0.06% and never much finer than the amount test asks |
| PlannerLimits.PlannerKeepsHalf | crates/sim/src/arbitrageur.rs:201-245 | At a concrete swap program and pool, price one and start 20, the planner promises at most half of what the size 0.02 would earn |
| SplitSearch.MaximizeSplit | crates/sim/src/router.rs:215-293 | The loop samples exactly the quotes of the search function's shares, in order, and returns the first quote with the highest score, the centre included |
| SplitGuarantee.NarrowBracketIsGood | crates/sim/src/router.rs:245-255 | On a bracket at most a hundredth of the order wide one end scores 97% of every share inside |
| SplitGuarantee.WorstScore | crates/sim/src/router.rs:257-292 | Two chord bounds, from the bracket end and from the centre, pull against each other: a share between a probe and the centre scores at most the limit that goes with the best score and the gap between the probes |
| SplitGuarantee.HundredthIsLimited | crates/sim/src/router.rs:306-312 | For a gap of a hundredth of the best and eta, that limit is 1.0515 times the best and 1.62 eta |
| SplitGuarantee.WidestIsLimited | crates/sim/src/router.rs:306-312 | A gap of up to 1.6448% of the best still has its limit within 5% of what the search returns |
| SplitGuarantee.CloseProbesAreGood | crates/sim/src/router.rs:257-292 | When two probes score within a gap of each other, no share anywhere in the bracket beats the limit that goes with that gap and the best of the probes and the centre |
| SplitGuarantee.GapOnCurve | crates/sim/src/router.rs:306-312 | What two scores that the gap test calls close say about the curve behind them |
| SplitGuarantee.StopsAreNarrow | crates/sim/src/router.rs:245-255 | For orders above the least trade size, the share tolerance, the amount tolerance and the 14-turn cap all leave a bracket at most 0.01 wide |
| SplitGuarantee.SplitRefineIsSound | crates/sim/src/router.rs:243-285 | The loop ends with the search invariant intact, at one of the three stops or after 14 turns |
| SplitGuarantee.SplitIsNinetyFive | crates/sim/src/router.rs:215-293 | For every order above the least trade size and every share, the best score is at least 95.1% of the score there, less three times the noise and twice what the floor of the gap test costs |
| SplitGuarantee.ExactSplitIsNinetyFive | crates/sim/src/router.rs:215-293 | With exact concave scores the best is at least 95% of every score from 0.64e-12 up, below two thirds of the floor of the gap test |
| SplitGuarantee.SubFloorScoresCanMiss | crates/sim/src/router.rs:306-312 | At every height up to 0.638e-12 a concave score exists whose search the floor stops at once, missing the peak by more than 5% |
| SplitGuarantee.FloorMattersBelowItself | crates/sim/src/router.rs:306-312 | The 95% holds of every concave score from a given height up when the height is at least 0.64e-12, and fails of some when it is at most 0.638e-12 |
| SplitGuarantee.FloorCostsLittle | crates/sim/src/router.rs:306-312 | On any real scores the floor lets two probes differ by at most 1e-14 more than a hundredth of the larger |
| SplitGuarantee.FloorIdlesOnNanos | crates/sim/src/router.rs:306-312 | On scores in whole nanos the floor of the gap test never changes its answer |
| ConstantProduct.CeilDivIsLeast | crates/shared/src/normalizer.rs:36 | The ceiling quotient is the least number that covers the product |
| ConstantProduct.OutputIsLargest | crates/shared/src/normalizer.rs:32-42 | An output is paid or exceeded exactly when it keeps the product of the reserves net of fee, so the quote is the largest such output; the saturating subtraction never saturates |
| ConstantProduct.OutputBelowReserve | crates/shared/src/normalizer.rs:32-42 | The output stays strictly below a nonempty reserve and keeps the product |
| ConstantProduct.QuoteGrows | crates/shared/src/normalizer.rs:32-42 | The quote is monotone in the input and antitone in the fee |
| ConstantProduct.TwoTradesAtMostOne | crates/shared/src/normalizer.rs:32-42 | Two same-side trades, the full first input added to the reserve, pay at most one trade of their sum, all rounding included |
| ConstantProduct.SplittingNeverHelps | crates/sim/src/amm.rs:161-172 | Any sequence of same-side trades pays at most one trade of the summed input |
| ConstantProduct.ProductNeverFalls | crates/sim/src/amm.rs:161-201 | Over any run of trades on either side the product of the reserves never falls below its start |
| ConstantProduct.NothingForNothing | crates/sim/src/amm.rs:161-201 | A run that ends with no more X than it started with ends with no less Y, and the other way round |
| ConstantProduct.StepsAlmostFall | crates/cli/src/commands/validate.rs:144-168 | Over two equal steps of net input the second pays at most one nano more than the first |
| ConstantProduct.StepsCanRise | crates/cli/src/commands/validate.rs:144-168 | The one nano of tolerance is needed: reserves and inputs where the second step pays exactly one more |
| Codec.EncodeSwapInstruction | crates/shared/src/instruction.rs:49-64 | Writing the fields slice by slice into a zeroed buffer yields the swap instruction, storage cut or zero-padded to 1024 bytes |
| Codec.EncodeAfterSwap | crates/shared/src/instruction.rs:66-86 | The same for the after-swap instruction with its tag, output and step |
| Codec.CopyFromSlice | crates/shared/src/instruction.rs:62 | A slice copy extends what has been written and leaves the rest of the buffer zero |
| Codec.FromLeOfToLe | crates/shared/src/instruction.rs:58-60 | Little-endian words of any width read back to the number written |
| Codec.ToLeOfFromLe | crates/shared/src/instruction.rs:43-45 | Little-endian bytes are determined by the number they read as |
| Codec.DecodeSwapInstruction | crates/shared/src/instruction.rs:41-64 | Decoding inverts encoding for every side, every 64-bit field and every storage |
| Codec.DecodeAfterSwapInstruction | crates/shared/src/instruction.rs:66-105 | Decoding inverts encoding for the after-swap instruction, storage included |
| Codec.EncodeDecodedInstruction | crates/shared/src/instruction.rs:41-64 | Encoding inverts decoding: an instruction of full size is the one encoding of its fields and storage |
| Codec.EncodeDecodedAfterSwap | crates/shared/src/instruction.rs:66-86 | Encoding inverts decoding for the after-swap instruction too |
| Nano.NanoRoundTrip | crates/shared/src/nano.rs:5-23 | A whole number of nanos survives the trip through a real |
| Nano.NanoTruncates | crates/shared/src/nano.rs:5-18 | Below saturation a conversion loses less than one nano and never gains |
| Nano.NanoGrows | crates/shared/src/nano.rs:5-18 | Conversion is monotone, saturation included |
| Normalizer.LegIsExact | crates/shared/src/normalizer.rs:30-42 | With a fee of at most the whole input no 128-bit step overflows or underflows and the cast to 64 bits loses nothing |
| Normalizer.CurveIsExact | programs/normalizer/src/lib.rs:50-70 | On every instruction of at least 25 bytes and every fee up to the whole input, empty reserves and unknown sides included, the curve returns the exact integer quote |
| Normalizer.NativeIsExact | crates/shared/src/normalizer.rs:3-45 | The native program returns the exact quote at its fee word up to 10000 basis points; above that it overflows on exactly the live instructions |
| Normalizer.StarterIsExact | programs/starter/src/lib.rs:55-87 | The starter program returns the exact quote at 950/1000 on every full-size instruction |
| Normalizer.SameNet | programs/starter/src/lib.rs:70-84 | A fee in parts of a thousand leaves exactly what ten times as many basis points leave, floor included |
| Normalizer.ThirtyAgrees | programs/normalizer/src/lib.rs:34-71 | Native and on-chain normalizer agree on every instruction whose fee word reads as 30, short ones included |
| Normalizer.OtherFeeDisagrees | programs/normalizer/src/lib.rs:34-71 | For every other fee word one fixed instruction tells the two apart |
| Normalizer.AgreeExactlyAtThirty | crates/shared/src/normalizer.rs:23-28 | The two programs agree on all instructions carrying a storage if and only if its fee word reads as 30 |
| NormalizerPool.QuoteIsCurve | crates/sim/src/arbitrageur.rs:186-199 | Through the codec, the native program charges exactly the fee the planner reads from the storage |
| NormalizerPool.QuoteBelowFloor | crates/shared/src/normalizer.rs:32-42 | A positive quote is strictly below the floored reserve it is paid from |
| NormalizerPool.NormalizerNeverRejects | crates/sim/src/amm.rs:152-207 | A positive normalizer quote is executed as quoted, and the storage stays as it was |
| NormalizerPool.FloorsKeepProduct | crates/sim/src/amm.rs:112-117 | Real reserves and input floored to nanos for the quote do not lower the real product once the fee on the floored input reserve is worth a nano |
| NormalizerPool.BuyKeepsProduct | crates/sim/src/amm.rs:152-178 | A normalizer buy never lowers the product of the real reserves, provided the fee times the floored Y reserve reaches 10000 and that reserve does not saturate |
| NormalizerPool.SellKeepsProduct | crates/sim/src/amm.rs:181-207 | The same for a sell and the X reserve |
| NormalizerPool.FeeIsWorthANano | crates/shared/src/normalizer.rs:23-28 | The fee is never zero, so ten thousand nanos of input reserve always satisfy that proviso |
| PoolModel.BuyReportsReserveChange | crates/sim/src/amm.rs:152-178 | A buy moves exactly what it reports, pays exactly its quote and keeps storage size and step; a rejected one changes nothing |
| PoolModel.SellReportsReserveChange | crates/sim/src/amm.rs:181-207 | The same for a sell |
| TradeCalls.QuotesAsk | crates/sim/src/amm.rs:51-59 | A nonzero quote is the program's answer to 1049 bytes that decode to the side, the input and both reserves in nanos with the storage behind them, and within the reserve it is paid from |
| TradeCalls.BuyGoesThrough | crates/sim/src/amm.rs:152-178 | A quote is nonzero exactly for a positive input on reserves above 1e-12 with a positive answer within the reserve, and a buy goes through exactly when that leaves more than 1e-12 |
| TradeCalls.SellGoesThrough | crates/sim/src/amm.rs:181-207 | The same for a sell |
| TradeCalls.BuyTellsHook | crates/sim/src/amm.rs:173-176 | After a buy the storage is what the hook makes of 1066 bytes that decode to side 0, what went in, what came out, the reserves the trade left, the step and the old storage; without a hook it is unchanged, and a rejected buy changes nothing |
| TradeCalls.SellTellsHook | crates/sim/src/amm.rs:202-205 | The same for a sell, on side 1 |
| TradeCalls.HookDataIsUnique | crates/shared/src/instruction.rs:66-86 | Those bytes are determined by what they tell |
| Amm.BpfAmm.constructor | crates/sim/src/amm.rs:22-48 | A new pool holds the given reserves, zeroed storage and step zero |
| Amm.BpfAmm.SetInitialStorage | crates/sim/src/amm.rs:221-224 | Overwrites a prefix of the storage, never beyond its size, and nothing else |
| Amm.BpfAmm.Reset | crates/sim/src/amm.rs:231-236 | Sets the reserves, zeroes the storage and the step |
| Amm.BpfAmm.CallAfterSwap | crates/sim/src/amm.rs:61-93 | Storage becomes what the hook makes of the encoded trade and the old storage, and stays without a hook |
| Amm.BpfAmm.QuoteBuyX | crates/sim/src/amm.rs:100-123 | Quoting reads the state and changes none of it |
| Amm.BpfAmm.QuoteSellX | crates/sim/src/amm.rs:126-149 | Quoting reads the state and changes none of it |
| Amm.BpfAmm.ExecuteBuyX | crates/sim/src/amm.rs:152-178 | New state and output are those of the buy function of the old state |
| Amm.BpfAmm.ExecuteSellX | crates/sim/src/amm.rs:181-207 | New state and output are those of the sell function of the old state |
| ShapeCheck.Filter | crates/sim/src/curve_checks.rs:29-38 | Keeps exactly the samples above the least input, both as reals and as nanos, with outputs not negative |
| ShapeCheck.SortSorts | crates/sim/src/curve_checks.rs:38 | Sorting orders by input and keeps the set of samples |
| ShapeCheck.SortIsStable | crates/sim/src/curve_checks.rs:38 | Sorting keeps samples of equal input in order and every sample as often as it was there |
| ShapeCheck.Merge | crates/sim/src/curve_checks.rs:40-51 | Kept inputs are more than 4 nanos apart, each is a sample's input, each output is the largest of its group, and every sample belongs to a group that dominates it |
| ShapeCheck.CheckMerged | crates/sim/src/curve_checks.rs:53-99 | Reports the first adjacent drop of more than 4 nanos, else the first pair of successive wide segments whose slack-adjusted slopes rise, and nothing exactly when there is neither |
| ShapeCheck.CheckSlopes | crates/sim/src/curve_checks.rs:68-99 | The pass that carries the last wide segment finds exactly the first rise between successive wide segments |
| ShapeCheck.CrossProductsFit | crates/sim/src/curve_checks.rs:82-83 | Both cross products of the slope test fit in 128 bits |
| ShapeCheck.MergesIsUnique | crates/sim/src/curve_checks.rs:40-51 | The merge groups and their outputs are determined by the set of samples |
| ShapeCheck.VerdictIsUnique | crates/sim/src/curve_checks.rs:53-101 | Merged samples have exactly one verdict |
| ShapeCheck.ShapeViolation | crates/sim/src/curve_checks.rs:27-101 | Filter, sort, merge and both passes together return the verdict of the specification |
| ShapeCheck.VerdictIgnoresOrder | crates/sim/src/curve_checks.rs:27-51 | Any reordering or repetition of the samples gets the same verdict, and no samples get two |
| ShapeCheck.ShapeAccepted | crates/sim/src/curve_checks.rs:12-25 | Only the pool named submission is held to its shape |
| ShapeGuarantee.SlopesFall | crates/sim/src/curve_checks.rs:68-97 | On a concave curve slopes fall from one segment to any later one, skipped segments in between included |
| ShapeGuarantee.BandIsAccepted | crates/sim/src/curve_checks.rs:3-10 | No false positives: merged samples at most 4 nanos below a rising concave curve are accepted, across skipped narrow segments |
| ShapeGuarantee.SeparateSamplesAreAccepted | crates/sim/src/curve_checks.rs:40-51 | Raw samples in that band are accepted when distinct inputs are more than 4 nanos apart |
| ShapeGuarantee.FlatSamplesAreAccepted | crates/sim/src/curve_checks.rs:40-51 | Raw samples however close are accepted on a curve so flat that 4 nanos of input buy no more than the uncertainty leaves |
| ShapeGuarantee.SteepLineIsRejected | crates/sim/src/curve_checks.rs:40-51 | An instance: four samples exactly on the line y = 100 x are always reported as not concave, because merging keeps the larger output at the smaller input |
| ShapeLines.LinesAcceptedExactly | crates/sim/src/curve_checks.rs:3-51 | For every whole slope m and loss, every set of samples at most the loss below any line of that slope is accepted if and only if 4 m + loss is at most the 4 nanos of uncertainty; exactly on a line, if and only if m <= 1 |
| ShapeLines.SteepLineIsRefused | crates/sim/src/curve_checks.rs:40-99 | Beyond that, five samples starting anywhere above the least input are refused, and as not concave when the loss is at most 4 |
| ShapePools.CheapSideIsAccepted | crates/sim/src/curve_checks.rs:27-101 | Samples of a constant-product quote whose price is at most a half are accepted at any fee, however close their inputs |
| ShapePools.BuysPassTheCheck | crates/sim/src/curve_checks.rs:12-25 | A constant-product submission passes on every curve of buys, whatever sizes were asked, once its floored Y reserve is twice its floored X reserve |
| ShapePools.DeepSellsAreStopped | crates/sim/src/curve_checks.rs:68-99 | An instance of the deep side: at reserves of a million X and a hundred million Y and 30 basis points, three samples of the integer quote itself are reported as not concave |
| ShapeDepth.SlopeKept | crates/sim/src/curve_checks.rs:68-97 | Between two wide segments of an integer constant-product quote, rounding included, slopes fall within the slack whenever the net steps fall in proportion to the far reserves |
| ShapeDepth.StepsInProportion | crates/sim/src/curve_checks.rs:3-10 | They do as soon as the reserve is small against the square of a wide net step, although every net step is off by what flooring and merging move it |
| ShapeDepth.SeparateShallowIsAccepted | crates/sim/src/curve_checks.rs:27-101 | Samples of a constant-product quote at any price and fee, equal or more than 4 nanos apart, are accepted while the input reserve and each input come to at most 9800 times the squared basis points kept: 974 units at 30 basis points |
| ShapeDepth.ShallowIsAccepted | crates/sim/src/curve_checks.rs:27-101 | However close the samples, merging included, they are accepted up to about a fifth of that depth: 182 units at 30 basis points |
| ShapeDeep.DeepAtPrice | crates/sim/src/curve_checks.rs:68-99 | The deep pools in figures: all with 1050 units or more at a price of a hundred or more, and all with 2010 units or more at a price of ten or more |
| ShapeDeep.FloorsWin | crates/sim/src/curve_checks.rs:68-99 | For any two steps of any constant-product reserve: where the curve bends less over them than five nanos a side, the second step pays more per input than the first, rounding and slack included |
| ShapeDeep.DeepIsJudged | crates/sim/src/curve_checks.rs:68-99 | The converse: on every deep pool at 30 basis points, from every whole thousand nanos up to a unit, three samples of the integer quote more than 4 nanos apart are judged not concave |
| ShapeDeep.SellsPassTheCheck | crates/sim/src/curve_checks.rs:12-25 | A constant-product submission at any price and fee is never stopped for a curve of sells whose sizes keep it shallow: up to 974 units of X and size at 30 basis points when sizes are apart, up to 182 for any sizes |
| ShapeDeep.ShallowBuysPassTheCheck | crates/sim/src/curve_checks.rs:12-25 | The same for a curve of buys, from the depth of its Y |
| ShapeDeep.DeepSellsAreRefused | crates/sim/src/curve_checks.rs:12-25 | Every deep constant-product submission at 30 basis points has three sizes, below one unit and above any least input up to 0.9, whose curve of sells has the one verdict not concave |
| Validator.CheckMonotone | crates/cli/src/commands/validate.rs:105-121 | The loop accepts exactly the executors that answer every size and pay strictly more than the last nonzero size |
| Validator.CheckConcave | crates/cli/src/commands/validate.rs:141-169 | The loop accepts exactly the executors whose second step pays at most one nano more than the first, at every size whose steps do not saturate |
| Validator.Validate | crates/cli/src/commands/validate.rs:75-197 | All behavioural checks together accept exactly the executors of the specification |
| Validator.StepAddsWholeUnits | crates/cli/src/commands/validate.rs:146-147 | A step of 1000000 nanos is a whole number of fee units, so it adds the same net input at every point |
| Validator.FamilyIsConcave | crates/cli/src/commands/validate.rs:144-196 | The concavity check never rejects a constant-product curve, for all reserves, inputs, sides and fees up to 10000 basis points, saturation included |
| Validator.FamilyIsMonotone | crates/cli/src/commands/validate.rs:101-139 | At the validator's reserves every such curve with a fee below the whole input passes the monotonicity check |
| Validator.FamilyIsAccepted | crates/cli/src/commands/validate.rs:75-197 | Every such curve passes every check |
| ValidatorRejects.FlatIsRejected | crates/cli/src/commands/validate.rs:101-139 | Rejected: paying something for a tested size and no more for a larger tested one, on either side |
| ValidatorRejects.ConstantIsRejected | crates/cli/src/commands/validate.rs:101-139 | Rejected: one positive answer for every size |
| ValidatorRejects.BulgeIsRejected | crates/cli/src/commands/validate.rs:141-197 | Rejected: a second step of a million nanos from a tested size that pays two more than the first |
| ValidatorRejects.SilenceIsRejected | crates/cli/src/commands/validate.rs:75-99 | Rejected: paying nothing or failing for ten Y or for one X |
| ValidatorRejects.FailureIsRejected | crates/cli/src/commands/validate.rs:101-197 | Rejected: failing on a tested size or on either step above it |
| ValidatedPrograms.StarterIsFamily | programs/starter/src/lib.rs:55-87 | Run through the codec at the validator's reserves with zeroed storage, the starter answers every side and input as the member of the family at 9500 does |
| ValidatedPrograms.OnChainIsFamily | programs/normalizer/src/lib.rs:34-71 | The on-chain normalizer answers as the member at 9970 |
| ValidatedPrograms.NativeIsFamily | crates/shared/src/normalizer.rs:3-45 | The native normalizer, whose zeroed fee word stands for 30 basis points, answers as the member at 9970 |
| ValidatedPrograms.ProgramsAreAccepted | crates/cli/src/commands/validate.rs:75-197 | All three programs pass every behavioural check |
| ClosedForm.PlannedIsOptimal | crates/sim/src/arbitrageur.rs:125-130 | The clamped closed-form size earns at least as much on the real curve as any other admissible size |
| ClosedForm.OpenIff | crates/sim/src/arbitrageur.rs:125-128 | The target lies above the input reserve exactly when the price after the fee beats the pool's |
| ClosedForm.ProfitableIff | crates/sim/src/arbitrageur.rs:125-128 | On the real curve some size earns something exactly when the target lies above the reserve |
| ClosedForm.NeverBothOpen | crates/sim/src/arbitrageur.rs:109-183 | The buy and the sell target never lie above their reserves together |
| ClosedForm.AfterTheTrade | crates/sim/src/arbitrageur.rs:109-183 | After the unclamped trade at the same price, whatever the pool paid short of the curve or beyond it: the same side is closed if and only if the shortfall is worth no more than the fee on the input, and the opposite side if and only if the excess is worth no more than the fee on the target and the reserve |
| ClosedFormPlans.BuyNearCurve | crates/sim/src/amm.rs:100-123 | The integer quote of a pool with fractional reserves lies at most 2 + 2 p nanos below the curve through its real reserves and p nanos above it, p being the price of the floored reserves |
| ClosedFormPlans.SellNearCurve | crates/sim/src/amm.rs:126-149 | The same for a sell |
| ClosedFormPlans.PlannedBuyIsNearlyOptimal | crates/sim/src/arbitrageur.rs:109-145 | With a true root, no admissible size earns more than the plan promises, or than the floor where the planner returns nothing, by more than 2 + 3 p nanos of output at the price |
| ClosedFormPlans.PlannedSellIsNearlyOptimal | crates/sim/src/arbitrageur.rs:147-183 | The same for a sell |
| ClosedFormPlans.NothingAfterBuy | crates/sim/src/arbitrageur.rs:109-183 | After an unclamped planned buy is executed both planners return nothing at the same price, whatever the floor, provided the fee on the least size and on the reserve covers the quote noise; excess over the curve included |
| ClosedFormPlans.NothingAfterSell | crates/sim/src/arbitrageur.rs:109-183 | The same after a sell |
| CurveBand.CurveIsConcave | crates/shared/src/normalizer.rs:32-42 | The real constant-product curve is concave and starts at zero |
| CurveBand.QuoteInBand | crates/shared/src/normalizer.rs:32-42 | The integer quote of a floored input lies at most 1 + 2b/a nanos below the curve through the floored reserves, and never above it |
| PoolCurve.BuyIsObserved | crates/sim/src/amm.rs:100-123 | A normalizer pool's real buy quotes are its curve seen with one nano plus two nanos of input at its price, on every input short of saturation |
| PoolCurve.SellIsObserved | crates/sim/src/amm.rs:126-149 | The same for sell quotes |
| Arbitrage.SellRangeIsProper | crates/sim/src/arbitrageur.rs:104-107 | The least sell never exceeds the largest input, so the planner's clamp cannot fail, at any price |
| Arbitrage.LeastSellIsWorth | crates/sim/src/arbitrageur.rs:100-107 | From a price of 1e-9 up the least sell is at least 0.001 X and worth at least 0.01 Y, one of the two exactly |
| Arbitrage.StartsAreWorthTheSame | crates/sim/src/arbitrageur.rs:78-86 | A buy starts at the drawn size clamped between 0.01 and the largest input, a sell at the X that start is worth at the price as far as its own range allows |
| Arbitrage.PlansAreHonest | crates/sim/src/arbitrageur.rs:109-292 | Each of the four planners promises exactly what the pool quotes for its size, and at least the profit floor |
| Arbitrage.BestCandidateWins | crates/sim/src/arbitrageur.rs:294-310 | The chosen candidate is one of the two, exists when either does, and none promises more |
| Arbitrage.HonestSettlesAsPlanned | crates/sim/src/arbitrageur.rs:312-344 | A candidate settles as planned or not at all: its edge is minus the planned profit, at most minus the floor, and equals the change of the pool's worth at the price |
| Arbitrageur.Arbitrageur.constructor | crates/sim/src/arbitrageur.rs:47-60 | A negative profit floor becomes zero |
| Arbitrageur.Arbitrageur.PlanArbBuyX | crates/sim/src/arbitrageur.rs:201-245 | The search, the shape check over every quote it took and the thresholds together give exactly the planned candidate, or stop the run exactly when the shape check does |
| Arbitrageur.Arbitrageur.PlanArbSellX | crates/sim/src/arbitrageur.rs:247-292 | The same for a sell |
| Arbitrageur.Arbitrageur.PlanNormalizerBuyX | crates/sim/src/arbitrageur.rs:109-145 | For the root function it is given, the method returns exactly the candidate of the closed-form plan, in every branch |
| Arbitrageur.Arbitrageur.PlanNormalizerSellX | crates/sim/src/arbitrageur.rs:147-183 | The same for a sell |
| Arbitrageur.Arbitrageur.ExecuteCandidate | crates/sim/src/arbitrageur.rs:312-344 | New pool state and result are those of the settlement function of the old state |
| Arbitrageur.Arbitrageur.ExecuteArb | crates/sim/src/arbitrageur.rs:62-93 | A step aborts exactly when a submission's sampled shape fails, then leaving the pool as it was, and otherwise takes exactly the better of the two candidates |
| ArbGuarantee.PlannedBuyIsNinetyNine | crates/sim/src/arbitrageur.rs:201-245 | On a pool whose quotes follow a concave curve, a search from a start that earns something plans a buy that promises 99% of any profit in reach of its step cap less the noise, whenever that clears the floor |
| ArbGuarantee.PlannedSellIsNinetyNine | crates/sim/src/arbitrageur.rs:247-292 | The same for a sell |
| ArbGuarantee.StartsInReach | crates/sim/src/arbitrageur.rs:375-393 | From a start of 550 the cap never fires up to the largest input, and from any start every size up to 33554432 times it is in reach |
| StepChoice.StepSettlesTheBetter | crates/sim/src/arbitrageur.rs:62-93 | A step settles, of the pool's own two plans, the one that promises more, the buy when they promise the same, and does nothing when there is neither: by closed form for the pool named normalizer, by search from the drawn starts for any other |
| StepChoice.StepMakesBothPlans | crates/sim/src/arbitrageur.rs:62-93 | A step that trades makes at least what either plan promised, and one whose plans the pool pays always trades unless there is no plan |
| StepChoice.StepMakesBuys | crates/sim/src/arbitrageur.rs:62-93 | On a pool whose buys follow a concave curve a step makes 99% of any profit there, less the noise, whenever that clears the floor, whatever the sells are worth |
| StepChoice.StepMakesSells | crates/sim/src/arbitrageur.rs:62-93 | The same on the sell side, whatever the buys are worth |
| StepChoice.StepBuysOnCurve | crates/sim/src/arbitrageur.rs:62-93 | The same against a constant-product submission with the noise worked out |
| StepChoice.StepSellsOnCurve | crates/sim/src/arbitrageur.rs:62-93 | The same for its sells |
| StepChoice.NormalizerStepIsNearlyOptimal | crates/sim/src/arbitrageur.rs:67-73 | Against the pool named normalizer no size on either side would have made more than the step did, or than the floor, but for the quote noise |
| Routing.SettlementEdgeIsWorth | crates/sim/src/engine.rs:53-61 | The edge of a settled split is the change of the submission pool's worth at the price |
| Routing.BestBeatsShare | crates/sim/src/router.rs:224-230 | The chosen split scores at least what sending the whole order to either pool would |
| Routing.RoutedBuyDelivers | crates/sim/src/router.rs:57-105 | When neither pool rejects the leg it is given, a routed buy pays exactly the best score, and at least either pool's quote for the whole order |
| Routing.RoutedSellDelivers | crates/sim/src/router.rs:107-155 | The same for a sell |
| OrderRouter.RouteBuy | crates/sim/src/router.rs:57-105 | Both legs and both pools' new states are those of the settlement function; it stops exactly when the shape check rejects what the submission was asked, then changing nothing |
| OrderRouter.RouteSell | crates/sim/src/router.rs:107-155 | The same for a sell |
| OrderRouter.RouteOrder | crates/sim/src/router.rs:42-55 | Buys are sized in Y, sells in X at the price, and routed accordingly |
| TradeFlows.SettlementMoves | crates/sim/src/router.rs:57-155 | Either way a split is settled, the X and Y of each pool change by exactly the signed amounts of the trades that carry its flag, and a pool without one is as it was |
| TradeFlows.OrderMoves | crates/sim/src/router.rs:42-155 | The same for an order |
| TradeFlows.OrdersMove | crates/sim/src/engine.rs:50-63 | The same over all orders of a step, each meeting both pools as the one before it left them |
| OrderSizes.OrderTakesItsSize | crates/sim/src/router.rs:42-155 | An order takes at most its size, a buy of Y and a sell of the X its size is worth, exactly that when both pools trade; it makes at most one trade a pool, all on its own side and above 0.001; and both pools together lose what it is paid |
| ProductRuns.OrderHolds | crates/sim/src/router.rs:57-155 | Over an order the product of neither constant-product pool falls, from a product of 184468 on, while reserves fit a word |
| SampledShapes.SearchIsDecidedBySamples | crates/sim/src/arbitrageur.rs:214-224 | Two pools that quote the same on what the search sampled of one get the same samples and the same size, which is among them: the shape check sees all the search was decided by |
| SampledShapes.SplitIsDecidedBySamples | crates/sim/src/router.rs:57-70 | The same for a split of an order |
| SampledShapes.AskedAreOwnQuotes | crates/sim/src/router.rs:57-75 | What the router has checked is the submission's own quote for every part of the order it was offered |
| SampledShapes.VerdictInFigures | crates/sim/src/curve_checks.rs:53-101 | Merged samples short of saturation are reported as not monotone if and only if an output falls by more than 4 nanos to the next, and otherwise as not concave if and only if the slope from one segment of a million nanos to the next such rises by more than 4 nanos on either side |
| SampledShapes.VerdictExists | crates/sim/src/curve_checks.rs:27-101 | Every set of samples has a verdict |
| SampledShapes.StepPassesExactly | crates/sim/src/arbitrageur.rs:201-292 | A step lets the submission pass if and only if no verdict on the sampled buys or on the sampled sells is a violation |
| SampledShapes.ShallowPoolPassesStep | crates/sim/src/curve_checks.rs:12-25 | A constant-product submission shallow for the sampled sizes is never stopped in a step |
| SampledShapes.ShallowPoolPassesOrder | crates/sim/src/curve_checks.rs:12-25 | One shallow for a whole order is never stopped by it, whatever the other pool |
| PoolGuarantee.SplitCurveIsConcave | crates/sim/src/router.rs:157-213 | The value of a split on two concave curves is concave in the share |
| PoolGuarantee.BuySplitIsScored | crates/sim/src/router.rs:157-184 | The router's scores, cut to zero at the least trade size, are that concave curve seen with the noise of both legs |
| PoolGuarantee.SellSplitIsScored | crates/sim/src/router.rs:186-213 | The same for a sell |
| PoolGuarantee.BuyScoresAreNanos | crates/sim/src/router.rs:295-312 | Scores of a buy are whole nanos, so the floor of the gap test costs nothing |
| PoolGuarantee.SellScoresAreNanos | crates/sim/src/router.rs:295-312 | The same for a sell |
| PoolGuarantee.RoutedBuyIsNinetyFive | crates/sim/src/router.rs:57-105 | On pools that follow concave curves and do not reject the chosen legs a routed buy delivers at least 95.1% of what any split is worth on the curves, less three times the noise of the legs |
| PoolGuarantee.RoutedSellIsNinetyFive | crates/sim/src/router.rs:107-155 | The same for a sell |
| NormalizerRoutes.BuysFollow | crates/sim/src/amm.rs:100-123 | A normalizer pool follows its rising concave curve on every input short of saturation |
| NormalizerRoutes.SellsFollow | crates/sim/src/amm.rs:126-149 | The same for sells |
| NormalizerRoutes.LegNoiseIsSmall | crates/sim/src/router.rs:167-176 | A leg's noise is at most a trade of the least size at the pool's price, and a nano |
| NormalizerRoutes.NormalizersRouteBuys | crates/sim/src/router.rs:57-105 | Between two constant-product pools a routed buy delivers at least 95.1% of what any split is worth, less 0.003 of a unit at each pool's price and ten nanos |
| NormalizerRoutes.NormalizersRouteSells | crates/sim/src/router.rs:107-155 | The same for a sell |
| SmallOrders.SmallBuysGoWhole | crates/sim/src/router.rs:57-105 | An order of at most two least trades is never worth splitting to the router: it pays what the better pool pays for the whole of it, from below to within the quote noise |
| SmallOrders.SmallSellsGoWhole | crates/sim/src/router.rs:107-155 | The same for a sell |
| SmallOrders.TwinPoolsAndSmallBuys | crates/sim/src/router.rs:157-184 | Between two constant-product pools alike such an order keeps its 95% up to the quote noise exactly when what the fee leaves of it is at most 49/451 of the reserve it is traded against; above that half and half would pay more than the router delivers by over 5% |
| SmallOrders.TwinPoolsAndSmallSells | crates/sim/src/router.rs:186-213 | The same for a sell |
| NormalizerRoutes.NormalizerBuyIsNinetyNine | crates/sim/src/arbitrageur.rs:201-245 | Against a constant-product pool a search from a start that earns something plans a buy that promises 99% of what any size in range earns on the curve, less (4 + t/lo) times the price times one nano plus two at the pool price, whenever that clears the floor |
| NormalizerRoutes.NormalizerSellIsNinetyNine | crates/sim/src/arbitrageur.rs:247-292 | The same for a sell, its noise one nano plus two at the pool price |
| Engine.RouteOrders | crates/sim/src/engine.rs:50-63 | The order loop leaves the pools and the edge in the world the orders determine, or stops at the first order the shape check rejects |
| Engine.AddEdges | crates/sim/src/engine.rs:53-62 | The trade loop adds exactly the edge of the submission's trades |
| Engine.RunStep | crates/sim/src/engine.rs:41-63 | A step sets the step counter of both pools, arbitrages both, counts only the submission's edge and routes the orders, as the step function says |
| Engine.RunSim | crates/sim/src/engine.rs:38-69 | A run completes exactly when every shape check passes, and then ends in the world its inputs determine |
| EngineEdge.ArbEdgeIsWorth | crates/sim/src/engine.rs:45-48 | An arbitrage step's edge is the change of the pool's worth at the price, and never above minus the profit floor |
| EngineEdge.StepEdgeIsWorth | crates/sim/src/engine.rs:41-63 | Within a step the edge gained is the worth the submission pool gained at the step's price |
| EngineEdge.EdgeIsMarkToMarket | crates/sim/src/engine.rs:38-64 | For any submission program and any run, the edge is the pool's worth at the last price less its worth at the first, less the X held times each price change |
| EngineEdge.RunKeepsFee | crates/sim/src/engine.rs:38-64 | In every state a run reaches, the normalizer's storage and so the fee its planner reads are those it was configured with |
| NormalizerRuns.PlansExclude | crates/sim/src/arbitrageur.rs:109-183 | At an exact root the normalizer never has a closed-form buy and a closed-form sell at once |
| NormalizerRuns.ArbSettlesBoth | crates/sim/src/engine.rs:41-48 | The arbitrage of a step settles the better plan against either pool, tells both the step and counts the submission's edge alone |
| NormalizerRuns.StepArbitragesThenRoutes | crates/sim/src/engine.rs:41-63 | A step is that arbitrage of both pools, then exactly the moves of its orders' trades; with no orders the arbitraged pools are left as they are |
| NormalizerRuns.NothingLeftAfterStep | crates/sim/src/engine.rs:45-48 | After a step without orders neither closed-form planner finds a trade in the normalizer at the step's price, where its trade was unclamped and the fee covers the quotes |
| NormalizerRuns.RunTellsSteps | crates/sim/src/engine.rs:41-42 | After a run both pools have been told the number of its last step |
| NormalizerRuns.NormalizerIsMarkToMarket | crates/sim/src/engine.rs:38-64 | Over any run, for any programs, what the normalizer's arbitrages and trades gained it is its worth at the last price less its worth at the first less the X held times each price change |
| NormalizerRuns.SubmissionEdgeIsPoolEdge | crates/sim/src/engine.rs:53-62 | The edge counted for the submission is what its own trades moved, at the price |
| ProductRuns.RunKeepsProduct | crates/sim/src/engine.rs:38-64 | Over any run the normalizer's product never falls, from a product of 184468 on, while its reserves fit a word |

## Left out

- IEEE-754 rounding, NaN and the infinities: amounts are reals, so the finiteness tests and `sanitize_score` have no counterpart, and the saturation bound `u64::MAX as f64` is 2^64.
- Random draws (price process, retail sizes, order arrival, configuration sampling): prices, starting sizes and orders are arbitrary inputs of a step. Prices are taken positive, as the price process makes them.
- The virtual machine, the loader and the foreign-function shims: a submission is an arbitrary deterministic swap function and after-swap hook. A failed execution, which the pool reads as a quote of zero, is a swap function returning zero.
- A swap function that keeps state of its own outside the storage it is given.
- The square root: the closed-form planners take a root function as a parameter, and every result about their plans is for a function whose squares are exact.
- The library sort is modelled by its result, insertion by input; the error texts of the shape check are modelled by the position they report.
- The storage of a pool is a sequence the methods reassign, so aliasing between the pool's storage and the hook's slice is not captured.
- Search counters, the parallel batch runner, the command line, compilation, source metadata and printing.
- Validator: the randomized storage loop only looks for failed executions, and the native and BPF parity run needs both backends.
- Deserialization in the starter program: an instruction shorter than its fixed size is rejected, and nothing else about the wire format is modelled.
- SplitSearch.MaximizeSplit: the three early stops are tested in one condition, which has the same effect because none of them changes anything.
- SplitGuarantee.FloorMattersBelowItself: for arbitrary real scores, heights between 0.638e-12 and 0.64e-12 are left undecided, where the answer turns on the digits the golden constant leaves out; pools quote whole nanos, on which the floor never acts.
- ShapeGuarantee.FlatSamplesAreAccepted: for curves in general the two conditions on raw samples are sufficient and not necessary; for straight lines the exact condition is proved.
- ShapeLines.LinesAcceptedExactly: slopes and losses are whole numbers, and two steps of the slope check must fit below saturation; steeper lines saturate before the check can compare two steps.
- ShapeDeep.DeepIsJudged: is for 30 basis points and prices above five; between the shallow bound and the deep one (974 to 1050 units at a price of a hundred) a pool is left undecided, as is one whose samples merging moves, between 182 units and that.
- NormalizerRoutes.NormalizersRouteBuys: charges every share for the least trade size, also shares whose legs both clear it, because the proof bounds every comparison of two probes by the noise of a cut-off leg; orders of at most two least trades are settled exactly by SmallBuysGoWhole.
- Validator.FamilyIsMonotone: strict growth is proved at the validator's fixed reserves; at tiny reserves a constant-product curve is flat between sizes.
- Normalizer.NativeIsExact: what an overflow does (a panic or a wrapped number, by build mode) is not modelled.
