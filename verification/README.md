# American option chain pricer — a Dafny model

This project models the two computational parts of a small C++ program.

- The first prices American calls and puts with a finite-difference grid in the spot price. It builds a tridiagonal Crank–Nicolson operator and steps the grid back through 100 time steps. At each step a projected Gauss-Seidel sweep (PSOR) keeps every node at or above its early-exercise value. The price at the spot is then read off by linear interpolation (`Price_American_PSOR.cpp`).
- The second builds an option chain for one underlying (`Option.h`, `Option.cpp`). It picks a strike step from the rounded spot's price bracket and, for cheap underlyings, shrinks the ladder so that no strike falls below 5. It generates the ladder of strikes, prices one call and one put per strike, and zips the three parallel chains into rows.

Every `double` (and the `float` step) is an exact `real`.

- C++ `int(x)` is `CMath.Trunc`, which truncates toward zero.
- Integer `a / 2` is `CMath.Half`.
- `nearbyint` is `CMath.NearbyInt`, which rounds halves to even.
- `exp` from the math library is a parameter `exp: real -> real`. The option takes it in its constructor.

Where the source changes state, the model is imperative:

- `initMatrix` fills an `array2` in place.
- `initPrev` fills an array in place.
- `computeSOR` sweeps an array in place.
- `priceAmericanPSOR` allocates its arrays and runs the backward time loop over `v`.
- `setStrikeStep` moves its by-reference counters in a `while` loop.
- The `Option` class keeps its three vectors as `seq` fields that `addStrike`, `addCall` and `addPut` append to.

Each method is proved against a reference definition, and the lemmas and function contracts state the properties of those definitions:

- `InitMatrix` against `OperatorEntry`, and `BuildOperator` against `Operator`.
- `InitPrev` against `Rhs`.
- `ComputeSor` against the recursive `Sor`, which is built on the recursive `SweepUpTo`.
- `InitLayers` against `Grid` and `TerminalLayer`.
- `BackwardSteps` against the recursive `AfterSteps`.
- `PriceAmericanPSOR` against `PriceSpec`.
- `SetStrikeStep` against `LadderFor`, whose lowest bracket uses the recursive `Shrink`.
- `SetStrikeChain` against `StrikeChain`.
- `SetCallChain` and `SetPutChain` against the recursive `ChainQuotes`.
- `GuardedPrice` against `QuoteSpec`.
- The `Option` constructor against `StrikeChain` for its strikes and `ChainQuotes` for its calls and puts.
- `AddStrike`, `AddCall`, `AddPut`, the getters and `GetOptionChain` state their results and new state directly.

Two details of the code that the model keeps:

- Strike offsets use the post-shrink `chainLength` (`Option.cpp:124`), not the ladder's original length of 51.
- `getOptionChain` rows are (put, strike, call), as pushed at `Option.cpp:41-43`, although the doc comment at `Option.cpp:28` says call comes first.

Quirks modelled as written:

- `w` is never updated after set-up, so every right-hand side is built from the terminal payoff.
- The operator is always built with volatility 0.2. `PriceSpec` has no volatility argument, so the price provably ignores `sig`.
- Row 0 of the sweep subtracts `M1(0,1)*v(0)`.
- The bottom boundary value is the discounted strike for calls and puts alike.
- The option passes `days_to_exp` straight through as `T`.

## Model

| member | source | states |
|---|---|---|
| CMath.Max | Price_American_PSOR.cpp:39 | `max` returns one of its arguments and is at least both |
| CMath.Trunc | Price_American_PSOR.cpp:113 | conversion to `int` truncates toward zero: the integer part of x, never farther from 0 than x |
| CMath.Half | Option.cpp:107 | integer halving truncates toward zero |
| CMath.NearbyInt | Option.cpp:117 | the result is within 1/2 of x, and an exact half rounds to the even neighbour |
| CMath.TruncMonotone | Option.cpp:107 | truncation is monotone |
| CMath.HalfMonotone | Option.cpp:107 | integer halving is monotone |
| CMath.DivMonotone | Price_American_PSOR.cpp:113 | dividing by a positive step preserves strict order in both directions |
| AmericanPsor.Payoff | Price_American_PSOR.cpp:36-45 | the payoff is non-negative, at least S-K (call) or K-S (put), and equal to 0 or to that exercise value |
| AmericanPsor.OperatorEntry | Price_American_PSOR.cpp:47-58 | the entry `initMatrix` leaves in a zero matrix: rows 0 and N are identity rows, every entry off the three central diagonals is 0, and the interior diagonal is negative when dt > 0 and r ≥ 0 |
| AmericanPsor.Operator | Price_American_PSOR.cpp:47-58 | the whole (N+1)×(N+1) operator `initMatrix` builds: square, tridiagonal, identity rows at both boundaries, and a negative interior diagonal when dt > 0 and r ≥ 0 |
| AmericanPsor.MainDiag | Price_American_PSOR.cpp:51 | b_i = -0.5(σ²i²+r) - 1/dt is negative, hence nonzero, when dt > 0 and r ≥ 0 |
| AmericanPsor.SuperDiag | Price_American_PSOR.cpp:50-52 | a_i + c_i = θσ²i² and c_i - a_i = θri: the off-diagonal pair splits the diffusion term evenly and the drift term with opposite signs |
| AmericanPsor.InitMatrix | Price_American_PSOR.cpp:47-58 | exactly the positions (0,0), (N,N) and i-1..i+1 of each interior row are written, with the operator's entries; all other entries keep their values |
| AmericanPsor.InitPrev | Price_American_PSOR.cpp:60-66 | d(0..N) becomes the right-hand side of step t; `w` and `M1` are values; the rest of d is unchanged |
| AmericanPsor.Rhs | Price_American_PSOR.cpp:60-66 | d(N) = 0, d(0) is the discounted strike, and in the interior d(i) plus row i of the operator applied to w equals -(2/dt)·w(i), the explicit half of the scheme |
| AmericanPsor.RhsIsExplicitHalf | Price_American_PSOR.cpp:63 | an interior entry is `-a_i w(i-1) - (b_i + 2/dt) w(i) - c_i w(i+1)` |
| AmericanPsor.GaussSeidelTarget | Price_American_PSOR.cpp:73-95 | the value computed for node i (lines 73, 84, 95) satisfies row i with the neighbours held fixed; row 0 is satisfied with v(0) standing in for its right neighbour, as written |
| AmericanPsor.NodeUpdate | Price_American_PSOR.cpp:84-93 | the new node value is the larger of the relaxed Gauss-Seidel value and the exercise value (not floored at 0): at least both, and equal to one of them |
| AmericanPsor.SweepUpTo | Price_American_PSOR.cpp:72-104 | a partial sweep keeps the layer's length; its meaning is given by the lemmas below |
| AmericanPsor.SweepFacts | Price_American_PSOR.cpp:72-104 | after k updates the error is a sum of squares (≥ 0), nodes ≥ k are untouched, nodes < k are at or above their exercise value |
| AmericanPsor.SweepKeepsPrefix | Price_American_PSOR.cpp:83-94 | a node keeps its value once it has been updated |
| AmericanPsor.SweepIsGaussSeidel | Price_American_PSOR.cpp:83-94 | node i's final value is computed from the already-updated nodes below it and the old nodes from i up |
| AmericanPsor.SweepStep | Price_American_PSOR.cpp:84-93 | unfolding: one more update writes node k and adds its squared change to the error |
| AmericanPsor.Sor | Price_American_PSOR.cpp:68-110 | the sweeps of `computeSOR` keep the layer's length; see SorFacts |
| AmericanPsor.SorFacts | Price_American_PSOR.cpp:70-109 | a sweep happens exactly when cnt < maxIter, at most maxIter sweeps happen, a stop before the cap only follows a sweep with error < err, and after any sweep the layer is projected |
| AmericanPsor.SorStep | Price_American_PSOR.cpp:105-108 | unfolding: after one sweep `computeSOR` stops if the error is below err, else continues with the next counter value |
| AmericanPsor.ComputeSor | Price_American_PSOR.cpp:68-110 | the array ends equal to the `Sor` run from counter 0 on its old contents; nothing but v changes |
| AmericanPsor.SorTopNode | Price_American_PSOR.cpp:95-104 | with the identity top row, a zero right-hand side there and weight 1, the top node ends at max(0, exercise value) |
| AmericanPsor.IdentityRow | Price_American_PSOR.cpp:73 | a boundary row with unit diagonal and zero off-diagonal solves to its right-hand side |
| AmericanPsor.PlainUpdate | Price_American_PSOR.cpp:84-91 | with weight 1 the update is the Gauss-Seidel value raised to the exercise value |
| AmericanPsor.FirstUpdate | Price_American_PSOR.cpp:73-82 | unfolding: node 0 is updated first, from the layer as it was |
| AmericanPsor.SweepBottomNode | Price_American_PSOR.cpp:73-82 | with weight 1 the bottom node ends a sweep at max(d(0), exercise value), for calls and puts alike |
| AmericanPsor.InterpPrice | Price_American_PSOR.cpp:112-118 | where the bracketing nodes are dS apart, the price is (1-λ)v(j) + λv(j+1) with j = int(S/dS) and λ = (S - S_i(j))/dS |
| AmericanPsor.InterpAtNode | Price_American_PSOR.cpp:112-118 | at S = j·dS the interpolation reads inside the layer and returns exactly v(j) |
| AmericanPsor.Grid | Price_American_PSOR.cpp:140-141 | the spot grid has N+1 nodes, starts at 0 and is evenly spaced by dS |
| AmericanPsor.InterpConvex | Price_American_PSOR.cpp:112-118 | between nodes the price is (1-λ)v(j) + λv(j+1) with λ = S/dS - j in [0, 1) |
| AmericanPsor.ConvexAboveLine | Price_American_PSOR.cpp:115-116 | a convex combination of values above the exercise line lies above it |
| AmericanPsor.InterpAboveIntrinsic | Price_American_PSOR.cpp:112-118 | interpolating a projected layer gives a price at or above S-K (call) or K-S (put) |
| AmericanPsor.TimeStep | Price_American_PSOR.cpp:131 | dt = T/M is nonzero exactly when T is, and positive when T is |
| AmericanPsor.OnGridIff | Price_American_PSOR.cpp:113 | for K > 0 and S ≥ 0, the index `int(S/dS)` lies in 0..N-1 exactly when S < 2K |
| AmericanPsor.WellPosedForPositiveInputs | Price_American_PSOR.cpp:131 | T > 0 and r ≥ 0 make dt and every interior diagonal entry nonzero |
| AmericanPsor.AfterSteps | Price_American_PSOR.cpp:146-152 | the backward loop keeps the layer's length; see the lemmas below |
| AmericanPsor.AfterStepsNext | Price_American_PSOR.cpp:146-152 | unfolding: each time step builds its right-hand side from `w` and runs `computeSOR` on the previous layer |
| AmericanPsor.AfterStepsProjected | Price_American_PSOR.cpp:146-152 | after at least one time step every node is at or above its exercise value |
| AmericanPsor.PricingOperator | Price_American_PSOR.cpp:134-135 | the operator built with N = 100, θ = 0.5 and volatility 0.2 has the full shape and a nonzero diagonal |
| AmericanPsor.SolvedLayer | Price_American_PSOR.cpp:146-152 | the layer after 100 steps from the terminal payoff has 101 nodes |
| AmericanPsor.SolvedLayerIs | Price_American_PSOR.cpp:120-152 | unfolding: the solved layer is exactly the 100 steps run on the arrays `priceAmericanPSOR` sets up |
| AmericanPsor.SolvedLayerProjected | Price_American_PSOR.cpp:146-152 | every node of the solved layer is at or above its exercise value |
| AmericanPsor.PriceSpec | Price_American_PSOR.cpp:120-156 | the price `priceAmericanPSOR` computes, with no volatility argument; for K > 0 and 0 ≤ S < 2K it is at least S-K (call) or K-S (put) |
| AmericanPsor.PriceSpecIs | Price_American_PSOR.cpp:154 | unfolding: on the solvable domain both nodes the interpolation reads exist, and the price is that interpolation |
| AmericanPsor.PriceAboveIntrinsic | Price_American_PSOR.cpp:146-154 | for K > 0 and 0 ≤ S < 2K the solved layer interpolates to at least S-K (call) or K-S (put) |
| AmericanPsor.SolvedTopNode | Price_American_PSOR.cpp:95-104 | for K > 0 the solved top node is exactly K for a call and 0 for a put |
| AmericanPsor.BuildOperator | Price_American_PSOR.cpp:134-135 | the zero matrix after `initMatrix` is the operator |
| AmericanPsor.InitLayers | Price_American_PSOR.cpp:137-144 | S_i(i) = i·dS, and w and v both hold the payoff at every node |
| AmericanPsor.TerminalLayer | Price_American_PSOR.cpp:140-144 | the layer at maturity has one node per grid point, each at least 0 and at least its exercise value, and equal to one of the two |
| AmericanPsor.BackwardSteps | Price_American_PSOR.cpp:146-152 | v ends as 100 backward steps from its old contents, each from the unchanged w |
| AmericanPsor.PriceAmericanPSOR | Price_American_PSOR.cpp:120-156 | the returned price is the interpolated solved layer; it does not depend on `sig` |
| AmericanPsor.QuoteSpec | Price_American_PSOR.cpp:112-118 | a quote is a price exactly on the solvable domain, and off-grid exactly when `int(S/dS)` is outside 0..N-1 |
| AmericanPsor.GuardedPrice | Price_American_PSOR.cpp:120-156 | `priceAmericanPSOR` behind the index guard its interpolation lacks |
| AmericanPsor.QuoteAboveIntrinsic | Price_American_PSOR.cpp:120-156 | every price quoted for K > 0 and S ≥ 0 is at or above the exercise value |
| AmericanPsor.QuotePricedIff | Price_American_PSOR.cpp:112-118 | for K, T > 0 and r, S ≥ 0 a quote is a price exactly when S < 2K |
| OptionChain.Rung | Option.cpp:124 | a rung is `currStrike + i*step - int((chainLength/2)*step)`, which lies within [0, 1) above the exact centred value currStrike + (i - chainLength/2)·step |
| OptionChain.RungNext | Option.cpp:123-124 | consecutive rungs differ by exactly the step |
| OptionChain.Rungs | Option.cpp:123-124 | the loop's strikes, one per index stepStart..chainLength: the first is rung stepStart, the last rung chainLength, and each lies one step above the one before |
| OptionChain.RungIncreasing | Option.cpp:123-124 | with a positive step, rungs strictly increase with their index |
| OptionChain.GapShrinks | Option.cpp:107 | the shrink loop's variant is non-negative while the loop runs and falls on each pass |
| OptionChain.ShrinkProgress | Option.cpp:106-111 | each pass raises the lowest rung by at least 0.5, so the loop terminates |
| OptionChain.Shrink | Option.cpp:106-111 | the shrink loop moves stepStart up and chainLength down by the same count, never lowers stepStart, and exits with the lowest rung ≥ 5 |
| OptionChain.ShrinkStopsFirst | Option.cpp:106-111 | the shrink loop stops at the first stepStart whose rung reaches 5: every stepStart it passed over had its rung below 5 |
| OptionChain.LadderFor | Option.cpp:92-114 | step 5.0 iff spot ≥ 135, 2.5 iff 72.5 ≤ spot < 135, 1.0 iff 35 ≤ spot < 72.5, 0.5 otherwise; the counters are unchanged unless the step is 0.5 and spot ≤ 17.5 |
| OptionChain.StartLadderCounters | Option.cpp:118-120 | from 51 and 1, stepStart + chainLength stays 52 and stepStart ≥ 1 |
| OptionChain.ChainLengthBound | Option.cpp:116-125 | a chain has exactly 51 strikes whenever the shrink loop left stepStart at 1, in particular whenever the rounded spot is above 17.5 |
| OptionChain.ChainIncreasing | Option.cpp:123-124 | consecutive strikes differ by the positive step, so the chain strictly increases |
| OptionChain.LowestStrikeAboveFloor | Option.cpp:97-113 | every bracket's lowest strike is at least 5 |
| OptionChain.LadderAboveFloor | Option.cpp:97-125 | every strike of the ladder around a rounded spot is at least 5 |
| OptionChain.StrikeChain | Option.cpp:116-125 | the strikes `setStrikeChain` generates: never more than 51, and none below 5 |
| OptionChain.ChainQuotes | Option.cpp:128-134 | one quote per strike |
| OptionChain.ChainQuoteAt | Option.cpp:128-134 | quote k is the pricer's quote at strike k with rate 0.05, in strike order |
| OptionChain.ChainAboveIntrinsic | Option.cpp:128-134 | every priced quote of a chain is at or above its strike's exercise value |
| OptionChain.ChainPricedIff | Option.cpp:128-134 | with T > 0 a strike of the chain is priced exactly when the spot is below twice the strike |
| OptionChain.OffGridStrike | Option.cpp:129 | at spot 199 the chain runs 79..329, and strike 79 puts the spot at index 125 of a 101-node layer, outside the pricer's domain |
| OptionChain.Option.constructor | Option.cpp:10-15 | the const inputs are fixed; the strikes, then the calls, then the puts are built, with one call and one put per strike |
| OptionChain.Option.GetSymbol | Option.cpp:52-54 | returns the fixed symbol and changes nothing |
| OptionChain.Option.GetStockPrice | Option.cpp:56-58 | returns the fixed spot and changes nothing |
| OptionChain.Option.GetDTE | Option.cpp:60-62 | returns the fixed days to expiry and changes nothing |
| OptionChain.Option.GetVolatility | Option.cpp:64-66 | returns the fixed volatility and changes nothing |
| OptionChain.Option.AddStrike | Option.cpp:68-70 | appends one strike; the other chains are unchanged |
| OptionChain.Option.AddCall | Option.cpp:72-74 | appends one call quote; the other chains are unchanged |
| OptionChain.Option.AddPut | Option.cpp:76-78 | appends one put quote; the other chains are unchanged |
| OptionChain.Option.GetStrikeChain | Option.cpp:80-82 | returns the strike chain and changes nothing |
| OptionChain.Option.GetCallChain | Option.cpp:84-86 | returns the call chain and changes nothing |
| OptionChain.Option.GetPutChain | Option.cpp:88-90 | returns the put chain and changes nothing |
| OptionChain.Option.SetStrikeStep | Option.cpp:92-114 | the step and by-reference counters are those of `LadderFor`; the loop terminates |
| OptionChain.Option.SetStrikeChain | Option.cpp:116-126 | appends exactly the ladder's strikes, in order; the quote chains are unchanged |
| OptionChain.Option.SetCallChain | Option.cpp:128-130 | appends one call quote per strike, in strike order; strikes and puts are unchanged |
| OptionChain.Option.SetPutChain | Option.cpp:132-134 | appends one put quote per strike, in strike order; strikes and calls are unchanged |
| OptionChain.Option.GetOptionChain | Option.cpp:31-50 | one (put, strike, call) row per strike, in order, built from the three chains; changes nothing |

## Left out

- Floating-point rounding: every `double` and `float` is an exact real, and `pow(x, 2)` is `x*x`.
- `exp`: the math library's exponential is a parameter of the pricer and of `Option`. Only d(0) uses it.
- `exportMatrixToCSV` (file and console output), the constructor's printing of the chain (`Option.cpp:16-24`, including the local copies made only for printing), and `main.cpp`.
- `Stock.h` / `Stock.cpp`: a record of inputs with no computation. `Price_American_PSOR.h` is only a prototype. Stock.cpp is not part of this model.
- `getCallAtStrike` / `getPutAtStrike` are declared in `Option.h:24-25` but never defined. The Greeks are commented out. Neither is modelled.
- OptionChain.Option.GetStrikeChain, OptionChain.Option.GetCallChain, OptionChain.Option.GetPutChain: return the chain's value, not a mutable reference. The aliasing of the returned vectors is not modelled.
- AmericanPsor.PriceAmericanPSOR: requires the spot to be on the grid (`int(S/dS)` in 0..N-1) and the system to be well posed. Outside that domain the source reads outside `v` (past its end, or before its start when S ≤ -dS) or divides by zero, which has no defined result.
- AmericanPsor.ComputeSor: its three blocks (node 0, nodes 1..N-1, node N) are one loop over 0..N with the same formulas and order, through `NodeUpdate`.
- AmericanPsor.PriceAmericanPSOR: its set-up and time loops are the helper methods `BuildOperator`, `InitLayers` and `BackwardSteps`. Eigen's `MatrixXd`/`VectorXd` are arrays, with by-value arguments as `seq` values.
- OptionChain.Option.SetCallChain, OptionChain.Option.SetPutChain: store a `Quote`, either a price or the reason the spot is outside the pricer's domain, instead of a bare double (see Findings).
- The C++ `int` counters and indices (`chainLength`, `stepStart`, `jStar`, the loop counters) are unbounded integers. 32-bit overflow would need a spot below about -10^9 or S/dS ≥ 2^31, which is off-grid anyway.
- AmericanPsor.PriceSpec: proves only the intrinsic lower bound, at least S-K for a call and at least K-S for a put. It does not promise a non-negative price, a call price at most S or a put price at most K, because the code does not deliver them:
  - The bottom boundary d(0) is the discounted strike for calls too (`Price_American_PSOR.cpp:61`).
  - With volatility 0.2 and r = 0.05, a_1 = 0.25·(0.04 - 0.05) is negative (line 50).
  - Since `w` is never updated, d(1) stays 0.
  - So the sweep at each time step can leave a call's node 1 below 0, which is below max(S-K, 0), and the interpolated price can inherit it.
- Convergence, accuracy and price monotonicity across strikes are not claims the code establishes, and are not modelled.

## Findings

| source | as written | input that shows it | evidently intended | confidence | as-written member | corrected member |
|---|---|---|---|---|---|---|
| Option.cpp:129 with Price_American_PSOR.cpp:113-116 | every strike of the chain is priced with a grid that ends at 2K, and `interpPrice` reads `v(int(S/dS))` and the node after it without a bound check | spot 199: the ladder is 79..329 in steps of 5, and for K = 79 the index is int(199/1.58) = 125 in a layer of 101 nodes | every quoted strike is read from inside the grid; a strike with S ≥ 2K is reported instead of read past the end | not executed | OptionChain.OffGridStrike | AmericanPsor.GuardedPrice |
