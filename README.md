# Deposition current integration and particle overlap, in Dafny

This project models two small numerical tools used around cluster deposition experiments:

- **`IntegrateCurrent`** (`CurrentIntegration/STM312currentintegration.py`) takes the
  time series of the deposition current (time in s, current in A) and a semicolon-separated
  `KEY=VALUE` parameter string. It integrates |current + leak current| over an optional
  time window into a number of deposited charges and converts that number into a surface
  coverage of the aperture (nanoparticle model `NP`). It then picks the next coverage
  target and estimates the time to reach it from the recent deposition rate.
- **The overlap simulation** (`ParticleOverlap/overlaparea.py`) places 2000 particles of
  diameter 3.8 nm and gives them integer heights of one. It sweeps over them seven times,
  lifting every particle that touches the one being processed onto it. It then charges each
  particle a lost area:
  - 8.4 per neighbour within 43,
  - plus 12 when the particle lies below height 5,
  - capped at the particle's own surface.

  The uncovered fraction of the total surface, averaged over trials, scales the
  theoretical charge of each loading.

Modules:

| file | module | contents |
|---|---|---|
| `realmath.dfy` | `RealMath` | pi, absolute value, squares, Python's truncating `int()`, sums and means |
| `wrappers.dfy` | `Wrappers` | `Option` and `Result` |
| `text.dfy` | `Text` | `str.split`, `str.strip`, ASCII `str.upper` |
| `parameters.dfy` | `Parameters` | `parse_bool_string` and the parameter parsing of `__init__`, as pure functions over a `Settings` record |
| `integration.dfy` | `CurrentIntegration` | `to_pmol`, the two conversions, window, integral, deposition rate, target choice, hour/minute/second split, and the class `IntegrateCurrent` whose methods update its fields |
| `stacking.dfy` | `Stacking` | the height sweep, as methods on an `array<int>` proved against step, sweep and relaxation functions |
| `losses.dfy` | `OverlapLoss` | loss accounting, ratio, trials, mean ratios and charge scaling |

Modelling choices:

- **Parsing and reals.** Python's `float()` is a parameter `toFloat: string -> Option<real>`, where `None` stands for the `ValueError`. Floating point numbers are exact reals.
- **Errors.** The exceptions the code raises become `Failure` values. This covers:
  - a missing attribute,
  - a pair without exactly one `=`,
  - an empty `DEBUG` value,
  - a one-element `TIME`,
  - a missing `TARGET`,
  - a `None` coverage compared with a target,
  - `int(nan)` when no sample rises above the noise floor.
- **Square roots.** No square root is taken:
  - a distance below 35 (or 43) is a squared distance below 1225 (or 1849);
  - `Z[g] = Z[g] + np.sqrt(v)` stores back into an integer array, so it adds the integer square root of `v` (`Stacking.FloorSqrt`). That square root is characterised exactly by `k*k <= v < (k+1)*(k+1)`.
- **Distances at the point of use.** `Distance1[g]` is either recomputed after `Z[g] = Z[i]` or was computed when the heights were already equal, so it is the planar distance. `Stacking.Step` keeps that vector as a local sequence and recomputes it exactly where the source does. Its loop invariant says every entry not yet visited is current.

Behaviours of the code that the model keeps as they are:

- The class docstring lists a `PLOT` key (CurrentIntegration/STM312currentintegration.py:30), but the key chain has no branch for it. It falls into the "not recognized" branch, which changes nothing.
- The same docstring gives `TARGET` a default of 0 (line 28), but `__init__` leaves the target `None` when the key is absent, and `integrate` then fails on iterating it (`NotIterable`).
- A malformed item (not exactly one `=`) raises from the tuple unpacking. Parsing stops there.
- A `MODEL` value other than `NP` or `SA` only prints a message. The model keeps its old value.
- "Already exceeded" needs the target count strictly below the integral. At equality the time estimate runs and reports a remaining time of zero when some reading is above the noise floor; otherwise `int(nan)` raises (`NaNTime`).
- The overlap heights live in an integer array, so adding a square root truncates it.

## Model

| member | source | states |
|---|---|---|
| `Parameters.ParseBool` | CurrentIntegration/STM312currentintegration.py:5-7 | fails exactly on the empty string; otherwise true iff the first character is T/t/Y/y or the whole string is ON in any case |
| `Parameters.DiscArea` | CurrentIntegration/STM312currentintegration.py:48-52 | the particle and aperture areas computed from a diameter are never negative |
| `Text.Split` | CurrentIntegration/STM312currentintegration.py:36 | `split(sep)` gives at least one part and no part contains the separator |
| `Text.SplitCount` | CurrentIntegration/STM312currentintegration.py:36 | `split(sep)` gives one more part than there are separators |
| `Text.JoinSplit` | CurrentIntegration/STM312currentintegration.py:36 | joining the parts of a split with the separator gives back the string |
| `Text.JoinSplitAtSeparator` | CurrentIntegration/STM312currentintegration.py:36 | the round trip survives a leading separator, which opens an empty first part |
| `Text.JoinSplitInsidePart` | CurrentIntegration/STM312currentintegration.py:36 | the round trip survives any other leading character, which joins the first part |
| `Text.SplitWithoutSeparator` | CurrentIntegration/STM312currentintegration.py:44 | a string without the separator splits into itself alone |
| `Text.LStrip` | CurrentIntegration/STM312currentintegration.py:36 | the result is a suffix not starting with a stripped character, and everything dropped is a stripped character |
| `Text.RStrip` | CurrentIntegration/STM312currentintegration.py:36 | the result is a prefix not ending with a stripped character, and everything dropped is a stripped character |
| `Text.Strip` | CurrentIntegration/STM312currentintegration.py:36 | `strip(chars)` as `rstrip` after `lstrip`; `Text.StripIsTrimmedSlice` states what it leaves, and `Text.StripIgnoresExtraFront`/`Text.StripIgnoresExtraBack` that extra stripped characters at the ends change nothing |
| `Text.TrimmedSlice` | CurrentIntegration/STM312currentintegration.py:67 | a prefix of a suffix, each cut only at stripped characters, is a slice cut only at stripped characters |
| `Text.StripIsTrimmedSlice` | CurrentIntegration/STM312currentintegration.py:67 | `strip` leaves a contiguous piece with no stripped character at either end and drops only stripped characters |
| `Text.StripIgnoresExtraFront` | CurrentIntegration/STM312currentintegration.py:36 | one more stripped character in front does not change the result |
| `Text.StripIgnoresExtraBack` | CurrentIntegration/STM312currentintegration.py:36 | one more stripped character at the back does not change the result |
| `Text.StripIgnoresExtraBackAfter` | CurrentIntegration/STM312currentintegration.py:36 | the same when the string keeps some character: `lstrip` stops before the end, `rstrip` drops the extra one |
| `Text.Upper` | CurrentIntegration/STM312currentintegration.py:7 | `upper()` on one character: the result is never a lower-case ASCII letter, and the character changes exactly when it is one |
| `Text.UpperIdempotent` | CurrentIntegration/STM312currentintegration.py:7 | upper-casing twice is upper-casing once |
| `Text.UpperString` | CurrentIntegration/STM312currentintegration.py:7 | upper-casing maps every character and keeps the length |
| `Parameters.SplitPair` | CurrentIntegration/STM312currentintegration.py:44 | `param, value = item.split('=')` succeeds iff the item holds exactly one `=`, and then `item == param + "=" + value` |
| `Parameters.SplitPairOfJoined` | CurrentIntegration/STM312currentintegration.py:44 | `key=value` with no `=` in either part splits back into `(key, value)` |
| `Parameters.KeyOf` | CurrentIntegration/STM312currentintegration.py:45-71 | the `if/elif` comparisons of `param`: a name falls into the "not recognized" branch iff it is none of the eight key names |
| `Parameters.ParseFloats` | CurrentIntegration/STM312currentintegration.py:69 | the list comprehension succeeds iff every part is a number, and then gives those numbers in order; otherwise it fails with `NotANumber` |
| `Parameters.ApplyParam` | CurrentIntegration/STM312currentintegration.py:45-71 | each key sets only its own attribute; an unrecognised key changes nothing |
| `Parameters.PerKeyRules` | CurrentIntegration/STM312currentintegration.py:45-71 | float keys fail iff `float` fails; `DEBUG` fails iff the value is empty; `MODEL` never fails and keeps the old model unless NP/SA; a `TARGET` that is not positive becomes the list 5…300; `TIME=[]` keeps the old window |
| `Parameters.PerKeyStores` | CurrentIntegration/STM312currentintegration.py:45-70 | on success LEAK_CURRENT and SA_DENSITY store the float, the diameters store pi·(d/2·unit)² with unit 1e-9 and 1e-3, DEBUG stores `parse_bool_string(value)`, `MODEL=NP`/`MODEL=SA` store that model and change nothing else, and a TIME value with something inside its brackets stores the floats of its comma-separated parts, failing exactly when one of them fails |
| `Parameters.ApplyParamKeepsSane` | CurrentIntegration/STM312currentintegration.py:45-71 | one assignment keeps targets non-empty and positive and areas non-negative |
| `Parameters.ApplyItemsKeepsSane` | CurrentIntegration/STM312currentintegration.py:43-71 | the same over the whole item loop |
| `Parameters.ParsedSettingsSane` | CurrentIntegration/STM312currentintegration.py:34-71 | every successfully parsed configuration has non-empty positive targets and non-negative areas |
| `Parameters.ParseIgnoresOuterSemicolons` | CurrentIntegration/STM312currentintegration.py:36 | a `;` added at either end of the parameter string does not change the result |
| `Parameters.EmptyParameterStringRejected` | CurrentIntegration/STM312currentintegration.py:36-44 | the empty parameter string raises on its single empty item |
| `Parameters.ApplyParamOverrides` | CurrentIntegration/STM312currentintegration.py:45-69 | assigning a recognised key twice gives what the second assignment alone gives |
| `Parameters.ApplyParamKeepsAgreement` | CurrentIntegration/STM312currentintegration.py:45-71 | whether an item raises never depends on the attributes, and settings that differ only in one key's attribute still differ only there after the item |
| `Parameters.ApplyItemsKeepsAgreement` | CurrentIntegration/STM312currentintegration.py:43-71 | the same for a whole run of items |
| `Parameters.ReplacingErasesDifference` | CurrentIntegration/STM312currentintegration.py:45-71 | an assignment that replaces its attribute outright gives the same settings from starts that differ only in that attribute |
| `Parameters.ApplyItemsAppend` | CurrentIntegration/STM312currentintegration.py:43-71 | the item loop over `xs + ys` runs `xs`, then `ys` from where it stopped, or raises what `xs` raises |
| `Parameters.ApplyOneItem` | CurrentIntegration/STM312currentintegration.py:44-71 | a single `key=value` item does what one branch of the key chain does |
| `Parameters.LaterDuplicateOverrides` | CurrentIntegration/STM312currentintegration.py:43-71 | a later `key=value` item overrides an earlier one for the same key, whatever items come between: the loop ends as if the earlier item were absent |
| `Parameters.ApplyItems` | CurrentIntegration/STM312currentintegration.py:43-71 | the item loop, left to right, stopping at the first raise; `Parameters.ApplyItemsAppend`, `Parameters.ApplyItemsKeepsSane`, `Parameters.ApplyItemsKeepsAgreement` and `Parameters.LaterDuplicateOverrides` state its properties |
| `Parameters.Items` | CurrentIntegration/STM312currentintegration.py:36 | `parameter_string.strip(';').split(';')`; `Parameters.ParseIgnoresOuterSemicolons` and `Parameters.EmptyParameterStringRejected` state its properties |
| `Parameters.Parse` | CurrentIntegration/STM312currentintegration.py:34-71 | the attributes `__init__` ends with, or what it raises; `Parameters.ParsedSettingsSane`, `Parameters.ParseIgnoresOuterSemicolons` and `Parameters.EmptyParameterStringRejected` state its properties |
| `CurrentIntegration.ToPmol` | CurrentIntegration/STM312currentintegration.py:9-11 | pmol · Avogadro = count · 1e12, sign preserved |
| `CurrentIntegration.CoverageToNumber` | CurrentIntegration/STM312currentintegration.py:78-88 | None unless the model is NP; under NP it succeeds iff both areas are set and the particle area is non-zero |
| `CurrentIntegration.NumberToCoverage` | CurrentIntegration/STM312currentintegration.py:90-100 | None unless the model is NP; under NP it succeeds iff both areas are set and the aperture area is non-zero |
| `CurrentIntegration.CoverageRoundTrip` | CurrentIntegration/STM312currentintegration.py:78-100 | with positive areas, coverage → number → coverage gives back the coverage |
| `CurrentIntegration.NumberRoundTrip` | CurrentIntegration/STM312currentintegration.py:78-100 | with positive areas, number → coverage → number gives back the number |
| `CurrentIntegration.TargetBelowCoverage` | CurrentIntegration/STM312currentintegration.py:122-132 | a target's count is below the integral iff the target is below the present coverage |
| `CurrentIntegration.AtOrAfter` | CurrentIntegration/STM312currentintegration.py:110 | the lower-bound filter never lengthens the data |
| `CurrentIntegration.AtOrBefore` | CurrentIntegration/STM312currentintegration.py:111 | the upper-bound filter never lengthens the data |
| `CurrentIntegration.AtOrAfterKeeps` | CurrentIntegration/STM312currentintegration.py:110 | a sample survives the lower-bound filter iff it is in the data and its time is at or after the bound |
| `CurrentIntegration.AtOrBeforeKeeps` | CurrentIntegration/STM312currentintegration.py:111 | a sample survives the upper-bound filter iff it is in the data and its time is at or before the bound |
| `CurrentIntegration.WindowKeepsExactly` | CurrentIntegration/STM312currentintegration.py:109-111 | with two bounds, the window keeps exactly the samples with time[0] ≤ t ≤ time[1] |
| `CurrentIntegration.SortedAtOrAfterIsSuffix` | CurrentIntegration/STM312currentintegration.py:110 | on time-ordered data the lower bound cuts off a prefix |
| `CurrentIntegration.SortedAtOrBeforeIsPrefix` | CurrentIntegration/STM312currentintegration.py:111 | on time-ordered data the upper bound cuts off a suffix |
| `CurrentIntegration.Windowed` | CurrentIntegration/STM312currentintegration.py:109-111 | the data left after the TIME filters: never longer than the data, and all of it without a window; `CurrentIntegration.WindowKeepsExactly` states which samples it keeps |
| `CurrentIntegration.NetCurrent` | CurrentIntegration/STM312currentintegration.py:115 | `abs(current + leak)` of one sample: non-negative, and equal to the sum or its negation |
| `CurrentIntegration.Charge` | CurrentIntegration/STM312currentintegration.py:116 | the left-difference sum in coulombs; `CurrentIntegration.ChargeNonNegative`, `CurrentIntegration.ConstantCurrentCharge`, `CurrentIntegration.ChargeOfSuffix` and `CurrentIntegration.ChargeOfPrefix` state its properties |
| `CurrentIntegration.Integral` | CurrentIntegration/STM312currentintegration.py:114-116 | the charge divided by e; `CurrentIntegration.IntegralNonNegative`, `CurrentIntegration.ConstantCurrentIntegral` and `CurrentIntegration.WindowNeverIncreasesIntegral` state its properties |
| `CurrentIntegration.ChargeNonNegative` | CurrentIntegration/STM312currentintegration.py:115-116 | the left-difference sum is non-negative over non-decreasing times |
| `CurrentIntegration.IntegralNonNegative` | CurrentIntegration/STM312currentintegration.py:114-116 | the integral is non-negative when times are non-decreasing |
| `CurrentIntegration.ConstantCurrentCharge` | CurrentIntegration/STM312currentintegration.py:115-116 | a constant current c at spacing dt gives abs(c + leak)·dt·(N−1) coulombs |
| `CurrentIntegration.ConstantCurrentIntegral` | CurrentIntegration/STM312currentintegration.py:114-116 | a constant current c at spacing dt gives abs(c + leak)·dt·(N−1)/e charges |
| `CurrentIntegration.ChargeOfSuffix` | CurrentIntegration/STM312currentintegration.py:116 | dropping leading samples of ordered data never increases the sum |
| `CurrentIntegration.ChargeOfPrefix` | CurrentIntegration/STM312currentintegration.py:116 | dropping trailing samples of ordered data never increases the sum |
| `CurrentIntegration.WindowNeverIncreasesIntegral` | CurrentIntegration/STM312currentintegration.py:109-116 | narrowing ordered data to the time window never increases the integral |
| `CurrentIntegration.NetCurrents` | CurrentIntegration/STM312currentintegration.py:115 | one abs(current + leak) per sample, in order |
| `CurrentIntegration.AboveNoise` | CurrentIntegration/STM312currentintegration.py:118 | keeps exactly the values above 1e-13; empty iff none is |
| `CurrentIntegration.AboveNoiseAppend` | CurrentIntegration/STM312currentintegration.py:118 | the selection is a filter: the selection of joined readings is the joined selections, so order and repetitions are kept |
| `CurrentIntegration.AboveNoiseSingle` | CurrentIntegration/STM312currentintegration.py:118 | one reading is kept iff it exceeds 1e-13 |
| `CurrentIntegration.NetCurrentsAppend` | CurrentIntegration/STM312currentintegration.py:115 | the net currents of joined data are the joined net currents |
| `CurrentIntegration.Latest` | CurrentIntegration/STM312currentintegration.py:118 | the last min(n, length) values |
| `CurrentIntegration.LatestOfLonger` | CurrentIntegration/STM312currentintegration.py:118 | `[-n:]` of a sequence whose tail already holds n values sees only that tail |
| `CurrentIntegration.DepositionRate` | CurrentIntegration/STM312currentintegration.py:118-119 | defined iff some net current exceeds 1e-13, and then above 1e-13/e |
| `CurrentIntegration.DepositionRateForgetsOlder` | CurrentIntegration/STM312currentintegration.py:118-119 | once the recent data holds 100 readings above the noise floor, earlier data never changes the rate |
| `CurrentIntegration.DepositionRateBounds` | CurrentIntegration/STM312currentintegration.py:118-119 | the rate is an average: net currents between lo and hi give a rate between lo/e and hi/e |
| `CurrentIntegration.SteadyCurrentRate` | CurrentIntegration/STM312currentintegration.py:118-119 | a steady net current c above the noise floor gives the rate c/e |
| `CurrentIntegration.TargetFor` | CurrentIntegration/STM312currentintegration.py:123-128 | a target is chosen iff the target list is non-empty |
| `CurrentIntegration.TargetForAt` | CurrentIntegration/STM312currentintegration.py:123-128 | entry `j` is chosen when every earlier entry is below the present coverage and `j` is at or above it or is the last entry |
| `CurrentIntegration.TargetForFirstMatch` | CurrentIntegration/STM312currentintegration.py:123-128 | the chosen target is the first entry ≥ the present coverage, or the last entry when none is |
| `CurrentIntegration.ChooseTarget` | CurrentIntegration/STM312currentintegration.py:123-128 | the `for`/`break` loop picks the target `TargetFor` describes |
| `CurrentIntegration.SplitSeconds` | CurrentIntegration/STM312currentintegration.py:142-144 | for time_left ≥ 0: hours ≥ 0, 0 ≤ min < 60, 0 ≤ sec < 60, and 3600·hr + 60·min + sec ≤ time_left < that + 1 |
| `CurrentIntegration.SecondsLeft` | CurrentIntegration/STM312currentintegration.py:139-141 | `remaining / dep_rate` for a positive rate: never negative when the remaining count is not |
| `CurrentIntegration.Projection` | CurrentIntegration/STM312currentintegration.py:130-145 | "already exceeded" iff the target count is below the integral; `NaNTime` iff the count is at or above it and no reading is above the noise floor; otherwise a rate exists and the reported 3600·hr + 60·min + sec is (target count − integral)/rate truncated to whole seconds, with hours ≥ 0 and minutes and seconds in [0, 60) |
| `CurrentIntegration.Estimate` | CurrentIntegration/STM312currentintegration.py:113-145 | integral, present coverage, target choice and projection on the windowed data, or what they raise; `CurrentIntegration.ExceededIffTargetBelowCoverage` states when it reports "already exceeded" |
| `CurrentIntegration.Outcome` | CurrentIntegration/STM312currentintegration.py:102-145 | all of `integrate`: the missing leak current and a TIME window with one bound raise, otherwise `Estimate` on the windowed data; `CurrentIntegration.TimeLeftBounded` and `CurrentIntegration.ExceededIffTargetBelowCoverage` state its properties |
| `CurrentIntegration.EstimateTimeLeft` | CurrentIntegration/STM312currentintegration.py:113-145 | the same as `TimeLeftBounded` for the estimate on already windowed data: bounded components whose 3600·hr + 60·min + sec is the chosen target's remaining count divided by the deposition rate, truncated to whole seconds |
| `CurrentIntegration.TimeLeftBounded` | CurrentIntegration/STM312currentintegration.py:130-145 | a reported time has hours ≥ 0 and minutes and seconds in [0, 60), and 3600·hr + 60·min + sec is the chosen target's count minus the integral of the windowed data, divided by the deposition rate, truncated to whole seconds |
| `CurrentIntegration.ExceededIffTargetBelowCoverage` | CurrentIntegration/STM312currentintegration.py:122-145 | "already exceeded" is reported iff the chosen target is below the present coverage, and always when every target is |
| `CurrentIntegration.IntegrateCurrent.constructor` | CurrentIntegration/STM312currentintegration.py:37-38 | the attributes start at their defaults, with the data stored and no rate or coverage |
| `CurrentIntegration.IntegrateCurrent.Assign` | CurrentIntegration/STM312currentintegration.py:45-71 | one branch of the key chain updates the object's attributes exactly as `ApplyParam` describes (so only the attribute of its key), or fails with its error and leaves every attribute unchanged; data, rate and coverage are untouched |
| `CurrentIntegration.Create` | CurrentIntegration/STM312currentintegration.py:34-76 | construction succeeds iff parsing does, and yields a fresh object whose attributes are the parsed settings and whose data is the given data |
| `CurrentIntegration.IntegrateCurrent.Integrate` | CurrentIntegration/STM312currentintegration.py:102-145 | the result is what `Outcome` describes for the old attributes and data; `self.data` becomes the windowed data |
| `CurrentIntegration.Evaluate` | CurrentIntegration/STM312currentintegration.py:113-145 | integral, coverage, target loop and time estimate as `Estimate` describes |
| `RealMath.Trunc` | CurrentIntegration/STM312currentintegration.py:142-144 | `int()` rounds toward zero: within one of its argument, never past it |
| `RealMath.Sum` | ParticleOverlap/overlaparea.py:164-176 | `np.sum` of a list of floats; `RealMath.SumBounds` and `RealMath.SumStrictlyAbove` state its bounds |
| `RealMath.Mean` | ParticleOverlap/overlaparea.py:183 | `np.mean` of a non-empty list; `RealMath.MeanBounds` states that it lies between the bounds of its elements |
| `RealMath.SumBounds` | ParticleOverlap/overlaparea.py:176 | a sum of n values in [lo, hi] lies in [n·lo, n·hi] |
| `RealMath.MeanBounds` | ParticleOverlap/overlaparea.py:183 | a mean lies between the bounds of its elements |
| `Stacking.Planar2` | ParticleOverlap/overlaparea.py:55 | squared planar distances are non-negative |
| `Stacking.Dist2` | ParticleOverlap/overlaparea.py:55 | the squared 3D distance is at least the planar one and equals it at equal heights |
| `Stacking.Distances` | ParticleOverlap/overlaparea.py:55 | `Distance1` holds one squared distance per particle |
| `Stacking.FloorSqrt` | ParticleOverlap/overlaparea.py:62 | the integer k with k² ≤ v < (k+1)²: truncated sqrt(v) |
| `Stacking.StackingArgumentPositive` | ParticleOverlap/overlaparea.py:56-62 | for a particle in contact, (Psize·10)² − d² > 219 > 0 |
| `Stacking.SquareOrder` | ParticleOverlap/overlaparea.py:62 | between non-negative integers a smaller square means a smaller root |
| `Stacking.Lift` | ParticleOverlap/overlaparea.py:62 | a lifted particle rises between 14 and 38 above the particle it lands on |
| `Stacking.Stepped` | ParticleOverlap/overlaparea.py:53-62 | processing i changes only the particles in contact with i at the start of its step; `Z[i]` is untouched; each contacted particle ends strictly above `Z[i]` |
| `Stacking.SteppedKeepsHeights` | ParticleOverlap/overlaparea.py:51-62 | one step keeps all heights ≥ 1 |
| `Stacking.Land` | ParticleOverlap/overlaparea.py:58-62 | one contacted particle ends exactly `Lift` above particle `i`, nothing else moves, and the returned distance vector is current for every particle not yet visited |
| `Stacking.Step` | ParticleOverlap/overlaparea.py:53-62 | the in-place neighbour loop with its `Distance1` recomputation produces exactly `Stepped` |
| `Stacking.SweptThrough` | ParticleOverlap/overlaparea.py:53-62 | processing the first n particles keeps the number of heights |
| `Stacking.SweptThroughKeepsHeights` | ParticleOverlap/overlaparea.py:53-62 | heights stay ≥ 1 through any prefix of a sweep |
| `Stacking.Sweep` | ParticleOverlap/overlaparea.py:53-62 | one sweep block over the array equals `Swept` of the old heights |
| `Stacking.Swept` | ParticleOverlap/overlaparea.py:53-62 | one sweep block over all particles in index order, keeping the number of heights; `Stacking.SweptThroughKeepsHeights` states that heights stay ≥ 1 |
| `Stacking.RelaxedKeepsHeights` | ParticleOverlap/overlaparea.py:51-132 | heights stay ≥ 1 through any number of sweeps |
| `Stacking.Relaxed` | ParticleOverlap/overlaparea.py:53-132 | the repeated sweep blocks, keeping the number of heights; `Stacking.RelaxedKeepsHeights` states that heights stay ≥ 1 |
| `Stacking.Relax` | ParticleOverlap/overlaparea.py:53-132 | the repeated sweep blocks over the array equal `Relaxed` of the old heights |
| `OverlapLoss.NeighbourCount` | ParticleOverlap/overlaparea.py:149-160 | counts exactly the other particles within 43 |
| `OverlapLoss.LowCount` | ParticleOverlap/overlaparea.py:151-152 | counts exactly the heights below 5 |
| `OverlapLoss.RawLoss` | ParticleOverlap/overlaparea.py:164-166 | 8.4 per near particle plus 12 below height 5, before the cap; `OverlapLoss.Loss`, `OverlapLoss.IsolatedParticleLoss` and `OverlapLoss.FewNeighboursUncapped` relate it to the capped loss |
| `OverlapLoss.Loss` | ParticleOverlap/overlaparea.py:144-168 | each particle's loss lies in [0, SApar] and never exceeds the uncapped loss |
| `OverlapLoss.IsolatedParticleLoss` | ParticleOverlap/overlaparea.py:151-168 | a particle without near particles loses 12 when low and 0 otherwise |
| `OverlapLoss.FewNeighboursUncapped` | ParticleOverlap/overlaparea.py:164-168 | with at most three near particles the cap does not apply |
| `OverlapLoss.Losses` | ParticleOverlap/overlaparea.py:144-171 | one capped loss per particle, in order |
| `OverlapLoss.AccountLosses` | ParticleOverlap/overlaparea.py:143-173 | the loss loop produces exactly `Losses`, and `base` counts exactly the particles below height 5 |
| `OverlapLoss.RatioInUnitInterval` | ParticleOverlap/overlaparea.py:176-178 | with N = 2000 losses in [0, SApar] and SAtotal = 2000·SApar, the ratio lies in [0, 1] |
| `OverlapLoss.Ratio` | ParticleOverlap/overlaparea.py:176-178 | the uncovered fraction (SAtotal − Area)/SAtotal; `OverlapLoss.RatioInUnitInterval` states that it lies in [0, 1] |
| `OverlapLoss.Ones` | ParticleOverlap/overlaparea.py:51 | N heights, all at least one |
| `OverlapLoss.TrialHeightsPositive` | ParticleOverlap/overlaparea.py:51-132 | the heights after the seven sweeps of a trial are all ≥ 1 |
| `OverlapLoss.TrialRatio` | ParticleOverlap/overlaparea.py:41-180 | a trial's ratio lies in [0, 1] |
| `OverlapLoss.Trial` | ParticleOverlap/overlaparea.py:41-180 | the in-place trial (fill, seven sweeps, loss pass, ratio) computes `TrialRatio` |
| `OverlapLoss.TrialRatios` | ParticleOverlap/overlaparea.py:39-180 | one ratio per trial, in order |
| `OverlapLoss.MeanRatio` | ParticleOverlap/overlaparea.py:39-183 | the mean ratio of a loading is the mean of its trial ratios and lies in [0, 1] |
| `OverlapLoss.MeanRatios` | ParticleOverlap/overlaparea.py:32-183 | one mean ratio per loading, each in [0, 1] |
| `OverlapLoss.SimulatedCharges` | ParticleOverlap/overlaparea.py:202-204 | each simulated charge is the theoretical charge times the mean ratio; where the theoretical charge is non-negative and the mean ratio lies in [0, 1] (which `OverlapLoss.MeanRatios` guarantees), it lies between 0 and the theoretical charge |

## Left out

- Data retrieval through `Cinfdata`, the `__main__` block and its catch-and-reraise (CurrentIntegration/STM312currentintegration.py:148-173): external I/O.
- All plotting: the `plot` argument and `matplotlib` import of `__init__`, the figures of both scripts. This is user interface.
- All `print` output, including the messages of the bad-model and unrecognised-key branches and the final report text. `integrate` returns a `Report` value holding the same numbers instead.
- `np.savetxt` and the `datetime` timing: file output and clock.
- Python's `float()` is a parameter, not a model of number syntax. IEEE rounding, infinities and NaN are not modelled; the model uses exact reals.
- `CurrentIntegration.CoverageToNumber` and `CurrentIntegration.NumberToCoverage`: a zero area is reported as `DivisionByZero`. With numpy scalars the source would instead give an infinite value and carry on.
- `Text.Upper`: upper-casing covers ASCII letters only, not Unicode case mapping.
- The single-atom model (`SA`) is only the stub the source has: both conversions give `None`.
- The overlap script's module preamble (ParticleOverlap/overlaparea.py:1-31):
  - the bare name `test`, which raises `NameError`;
  - the loading and charge constants. The theoretical charges are an input of `OverlapLoss.SimulatedCharges`.
- Random positions and the domain size derived from the coverage (ParticleOverlap/overlaparea.py:44-50): the positions of each trial are an input (`OverlapLoss.Layout`).
- `np.std` of the trial ratios and its scaled charges (ParticleOverlap/overlaparea.py:184, 204): floating-point statistics needing a square root.
- Dead bookkeeping of the loss loop: `counter`, `posx`/`posy`, the `olapsim`/`btomsim`/`Bases` lists and the `index2` distance printing (ParticleOverlap/overlaparea.py:136-173).
- Heights are unbounded integers. The source's 64-bit integer array cannot overflow at these sizes (at most 1 + 38·2000·7).
- The sum of `olap` is the exact product 8.4 times the neighbour count, not a floating-point running sum.
