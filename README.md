# Gerrymandering a simplex PDF, in Dafny

This project models the core of a small Java program that studies the
"gerrymandering" of a one-dimensional opinion distribution.

A `SimplexPDF` is a discrete probability distribution over points in [0, 1],
held in a `TreeMap<Double, Double>` from support point to mass. It computes:

- the median, which is the first point whose cumulative mass reaches one half;
- the head-to-head winner of two points, which is the one closer to the median;
- their social costs, Σ mass(x)·|x − p|;
- the distortion, the winner's cost over the loser's when the winner costs more;
- the expected distortion over all ordered pairs of support points.

It also generates random distributions in place. It draws distinct support
points, rescales them to span [0, 1], and then assigns masses, either as the
gaps between sorted uniform cut points or as normalised uniform weights.

A `Gerrymanderer` does three things:

- It draws a sorted list of distinct party points.
- It collapses a distribution onto them, moving each support point's mass to its nearest party.
- Over 100 random party lists it returns f itself, unless some collapse has strictly greater expected distortion than f; then it returns the first collapse that reaches the greatest value.

Layout:

| file | module | contents |
|---|---|---|
| `real_seqs.dfy` | `RealSeqs` | sums, orderings, insertion sort (`Collections.sort`), the existence of a value not yet drawn |
| `tree_maps.dfy` | `TreeMaps` | the `TreeMap` as a strictly increasing `seq<Entry>`: `Lookup` (get), `Put` (put), key sets, masses |
| `simplex.dfy` | `Simplex` | the values the `SimplexPDF` methods compute, as functions of the entry sequence, with their lemmas |
| `simplex_pdf.dfy` | `SimplexPdf` | class `SimplexPDF` with field `supports`, its query methods and the generation methods that update `supports` |
| `parties.dfy` | `Parties` | the nearest-party scan and `Collapse`, the value `gerrymander` computes, with the lemmas about where the mass goes |
| `gerrymanderer.dfy` | `Gerrymandering` | class `Gerrymanderer` with field `partyPoints`: `Solve`, `Gerrymander`, `GenerateRandomParties`, and the loops of `gerrymander` |

Modelling choices:

- **Numbers.** `double` is `real`.
- **The TreeMap.** A `TreeMap<Double, Double>` is a `seq<Entry>` whose points strictly increase. A traversal of `keySet()` is then a walk along the sequence.
- **`Math.random()`.** It is a nondeterministic choice (`:|`) of a value in its range. A `while` loop that redraws until a condition holds becomes one choice of a value that meets the condition. The lemma `RealSeqs.FreshPoint` proves that such a value exists.
- **Points where the code does something other than what its names suggest; the model follows the code:**
  - `getWinner` breaks ties toward p2, not toward p1.
  - `getDistortion` returns -100 for a point outside the support rather than failing.
  - `getMedian` returns -1 when no prefix of the masses reaches one half.
  - `gerrymander` fails on an empty party list only when the distribution has a support point, because `get(0)` runs only inside the loop over the support.

## Model

| member | source | states |
|---|---|---|
| SimplexPdf.SimplexPDF.constructor | src/SimplexPDF.java:15-17 | the new distribution is empty |
| SimplexPdf.SimplexPDF.FromArrays | src/SimplexPDF.java:24-29 | the map is the result of putting each pair in order, `FromPairs` |
| Simplex.FromPairsKeys | src/SimplexPDF.java:24-29 | the keys of the array constructor's map are exactly the given points |
| Simplex.FromPairsLookup | src/SimplexPDF.java:24-29 | a point maps to the probability at its last occurrence in the array |
| SimplexPdf.SimplexPDF.Random | src/SimplexPDF.java:19-22 | numSupports ≥ 2 points, the least at 0 and the greatest at 1, with positive masses that sum to 1 |
| SimplexPdf.SimplexPDF.Probability | src/SimplexPDF.java:35-37 | defined exactly for the keys, and the mass of the entry at that key |
| SimplexPdf.SimplexPDF.SupportSize | src/SimplexPDF.java:39-41 | the number of distinct keys |
| SimplexPdf.SimplexPDF.Median | src/SimplexPDF.java:56-65 | the loop that accumulates masses in key order returns `MedianOf` |
| Simplex.MedianIsFirstHalfPoint | src/SimplexPDF.java:56-65 | the median is the point at the first index whose cumulative mass reaches 0.5, and -1 when no index does (the empty map included) |
| Simplex.FirstHalf | src/SimplexPDF.java:58-64 | the index found reaches 0.5 and every earlier one stays below it |
| Simplex.MedianInSupport | src/SimplexPDF.java:56-65 | for a distribution whose masses sum to 1, the median is a support point |
| Simplex.WinnerOf | src/SimplexPDF.java:67-69 | the winner is p1 or p2 and at least as close to the median as both; it is p1 (with p1 ≠ p2) only when p1 is strictly closer; a tie gives p2 |
| SimplexPdf.SimplexPDF.Winner | src/SimplexPDF.java:67-69 | the method, which calls getMedian twice, returns `WinnerOf` |
| SimplexPdf.SimplexPDF.Cost | src/SimplexPDF.java:86-93 | each summing loop computes the social cost Σ mass·\|x − p\| |
| Simplex.SocialCostNonNegative | src/SimplexPDF.java:86-93 | with nonnegative masses a social cost is nonnegative |
| Simplex.ZeroCostMassAtPoint | src/SimplexPDF.java:86-93 | a zero social cost at p means every other point carries no mass |
| Simplex.ZeroCostIsMedian | src/SimplexPDF.java:56-65 | for nonnegative masses totalling at least 1/2, a key with zero social cost is the median |
| Simplex.LoserCostPositive | src/SimplexPDF.java:94-97 | for nonnegative masses totalling at least 1/2 and two keys, whenever a ratio is taken its divisor (the loser's cost) is positive, so no division by zero occurs |
| Simplex.DistortionOf | src/SimplexPDF.java:81-102 | -100 when p1 or p2 is not a key; otherwise at least 1; exactly 1 for getDistortion(p, p) |
| Simplex.DistortionIsCostRatio | src/SimplexPDF.java:85-100 | for two distinct keys: the winner's cost over the loser's exactly when the winner costs strictly more, otherwise 1 |
| SimplexPdf.SimplexPDF.Distortion | src/SimplexPDF.java:81-102 | the method returns `DistortionOf` |
| SimplexPdf.SimplexPDF.ExpectedDistortion | src/SimplexPDF.java:71-79 | the double loop returns the sum over all ordered pairs, the diagonal included, of mass·mass·distortion |
| Simplex.ExpectedDistortionAtLeastOne | src/SimplexPDF.java:71-79 | for nonnegative masses summing to 1 the expected distortion is at least 1 |
| Simplex.RowAtLeastMass | src/SimplexPDF.java:74-76 | the inner loop's total for sp1 is at least the mass of sp1 |
| Simplex.WeightedRowAtLeast | src/SimplexPDF.java:74-76 | with nonnegative masses and distortions ≥ 1, a row sums to at least its masses scaled by mass(sp1) |
| SimplexPdf.SimplexPDF.GenerateRandom | src/SimplexPDF.java:107-115 | numSupports points, the least at 0 and the greatest at 1, with positive masses that sum to 1 |
| SimplexPdf.SimplexPDF.GenerateSupports | src/SimplexPDF.java:120-129 | after the clear, exactly max(numSupports, 0) distinct keys in [0, 1), each with mass 0 |
| TreeMaps.PutFresh | src/SimplexPDF.java:124-127 | putting a key that is not present adds exactly one key |
| SimplexPdf.SimplexPDF.Normalize | src/SimplexPDF.java:134-146 | the map becomes `NormalizedOf` of the old map |
| Simplex.NormalizedSpansUnitInterval | src/SimplexPDF.java:134-146 | a normalised map keeps its masses and order, sends x to (x − min)/(max − min), and has least key 0 and greatest key 1 |
| Simplex.NormalizeIdempotent | src/SimplexPDF.java:137-139 | normalising again leaves the map unchanged |
| Simplex.MinKey | src/SimplexPDF.java:135 | Collections.min: a key no greater than any key |
| Simplex.MaxKey | src/SimplexPDF.java:136 | Collections.max: a key no less than any key |
| Simplex.RescaledIncreasing | src/SimplexPDF.java:140-143 | rescaling preserves the ascending key order |
| Simplex.RescaledPut | src/SimplexPDF.java:141-143 | each put of the rescaling loop appends an entry above all earlier ones |
| SimplexPdf.SimplexPDF.GenerateRandomNormal | src/SimplexPDF.java:151-166 | the keys are unchanged; every mass is its weight divided by the total of the weights in (0, 1); so masses are positive and sum to 1 |
| Simplex.SharesSumToOne | src/SimplexPDF.java:161-164 | positive weights divided by their total are positive and sum to 1 |
| SimplexPdf.SimplexPDF.DrawCuts | src/SimplexPDF.java:199-209 | the list holds 0, 1 and max(size − 1, 0) further points, all distinct and strictly inside (0, 1) |
| SimplexPdf.SimplexPDF.GenerateRandomUniformInterval | src/SimplexPDF.java:198-217 | the keys are unchanged; the i-th key gets the i-th gap between consecutive sorted cut points running from 0 to 1; masses are positive and sum to 1 |
| Simplex.SortedCutsSpanUnit | src/SimplexPDF.java:210 | the sorted cut list rises strictly from 0 to 1 |
| Simplex.GapsTelescope | src/SimplexPDF.java:212-215 | the gaps between consecutive cut points sum to the last minus the first |
| Simplex.GapMasses | src/SimplexPDF.java:212-215 | gap masses over cut points rising strictly from 0 to 1 are positive and sum to 1 |
| RealSeqs.SortSorted | src/Gerrymanderer.java:78 | Collections.sort yields an ordered list of the same length, strictly increasing when its elements are distinct |
| RealSeqs.Sort | src/SimplexPDF.java:210 | the sorted list is a permutation of its input |
| RealSeqs.FreshPoint | src/SimplexPDF.java:124-126 | a redraw loop can always end: whatever was drawn, an interval still holds a value not yet drawn |
| TreeMaps.Lookup | src/SimplexPDF.java:36 | TreeMap.get is defined exactly on the keys |
| TreeMaps.Put | src/SimplexPDF.java:127 | TreeMap.put keeps the keys ascending and adds only the new entry |
| TreeMaps.PutLookup | src/SimplexPDF.java:127 | after put(x, m), x maps to m, every other key keeps its value, and the key set gains x |
| TreeMaps.LookupAt | src/SimplexPDF.java:36 | get at the key of an entry returns that entry's mass |
| TreeMaps.PutAt | src/SimplexPDF.java:158 | put on an existing key replaces that entry in place |
| TreeMaps.KeysCount | src/SimplexPDF.java:40 | the TreeMap's size is the number of its keys |
| Gerrymandering.Gerrymanderer.constructor | src/Gerrymanderer.java:35-37 | the party list starts empty |
| Gerrymandering.Gerrymanderer.Gerrymander | src/Gerrymanderer.java:51-67 | a fresh distribution equal to `Collapse(f, partyPoints)`, whose key set is exactly the party points |
| Gerrymandering.PartyMapOf | src/Gerrymanderer.java:53-55 | the first loop builds the party map, every party point with mass 0 |
| Parties.PartyMap | src/Gerrymanderer.java:53-55 | its keys are the party points, and every mass is 0 |
| Gerrymandering.NearestOf | src/Gerrymanderer.java:57-63 | the scan returns `Nearest`, the party at the index `NearestIndex` |
| Parties.NearestIndexIsFirstNearest | src/Gerrymanderer.java:58-63 | the chosen party is at minimum distance, and every earlier party is strictly farther, so ties go to the earliest |
| Parties.NearestIsClosestParty | src/Gerrymanderer.java:58-63 | the chosen party is a party point at minimum absolute distance |
| Parties.NearestOwnPoint | src/Gerrymanderer.java:58-63 | with distinct parties, a support point standing at a party goes to that party |
| Gerrymandering.RouteSupports | src/Gerrymanderer.java:56-65 | the second loop turns the party map into `Collapse(f, partyPoints)` |
| Gerrymandering.RouteSupport | src/Gerrymanderer.java:57-64 | one round of that loop moves the collapse on by one support point |
| Gerrymandering.AddNearest | src/Gerrymanderer.java:64 | the get at the nearest party finds a value, and the put of it plus the mass is `Collapse` one point further |
| TreeMaps.AddAt | src/Gerrymanderer.java:64 | get and put of the sum at an existing key update that entry's mass in place |
| Parties.Collapse | src/Gerrymanderer.java:51-67 | the collapse keeps the keys ascending, and its key set is exactly the set of party points |
| Parties.CollapseStep | src/Gerrymanderer.java:64 | each support point adds its mass to the entry of its nearest party, and nothing else changes |
| Parties.CollapseRoutesMass | src/Gerrymanderer.java:56-65 | each party's mass is the total mass of the support points whose nearest party it is |
| Parties.PartyMass | src/Gerrymanderer.java:56-65 | the same, read through get: each party point maps to the mass routed to it |
| Parties.CollapseConservesMass | src/Gerrymanderer.java:51-66 | the result's masses sum to the sum of f's masses |
| Parties.CollapseNonNegative | src/Gerrymanderer.java:51-66 | nonnegative masses give nonnegative masses |
| Parties.CollapseKeepsDistribution | src/Gerrymanderer.java:51-66 | collapsing a distribution onto a nonempty party list gives a distribution |
| Parties.CollapseOntoOwnPrefix | src/Gerrymanderer.java:53-65 | support points standing at the first parties, one each and in order, fill those parties' masses in order and leave 0 on the rest |
| Parties.CollapseOntoOwnSupport | src/Gerrymanderer.java:53-65 | collapsing any map onto a party list equal to its own support points, in order, reproduces it exactly |
| Parties.FromPairsInOrder | src/Gerrymanderer.java:53-55 | putting strictly increasing keys one by one lists them in that order |
| Gerrymandering.Gerrymanderer.Solve | src/Gerrymanderer.java:39-49 | 100 rounds are run, and the ghost result lists each round's sorted list of numParties distinct parties in [0, 1); the result is a distribution whose expected distortion is at least f's and at least that of every round's collapse; it is f itself, or a fresh distribution that is the collapse of some round, strictly better than f and than the collapse of every earlier round (so ties keep the earlier incumbent); partyPoints is left at the last round's list |
| Gerrymandering.KeepsBestReplace | src/Gerrymanderer.java:44-46 | a round whose collapse is strictly better than the incumbent makes it the incumbent, keeping solve's running-best invariant |
| Gerrymandering.KeepsBestRetain | src/Gerrymanderer.java:44 | a round whose collapse is not strictly better keeps the incumbent and the invariant |
| Gerrymandering.Gerrymanderer.GenerateRandomParties | src/Gerrymanderer.java:69-80 | after the clear, the list holds exactly max(numParties, 0) values in [0, 1), strictly increasing, so pairwise distinct and sorted, and the same list is returned |

## Left out

- `Gerrymanderer.main` is an experiment driver that prints. It has no contract, so it is not modelled.
- `SimplexPDF.toString` is console formatting with `Math.round`, so it is not modelled.
- `getPDF` returns the map itself. The model reads and writes `supports` directly.
- `generateRandomHypercubeSampling` applies `-Math.log`, a transcendental floating-point function, so it is not modelled. Its divide-by-total step has the same shape as `generateRandomNormal`.
- `Math.random()` is a nondeterministic choice. The distribution of its samples is not modelled, including uniformity over the simplex.
- IEEE-754 rounding is not modelled. Sums to 1 are exact over `real`.
- The redraw `while` loops promise only the value they end with, so each is one choice of such a value. How many draws they take is not modelled.
- `SimplexPDF.Probability`: a missing key, which the Java code unboxes into a `NullPointerException`, is `None`.
- `SimplexPDF.Distortion` and `SimplexPDF.ExpectedDistortion` require a distribution: nonnegative masses summing to 1. When fewer than half of the mass is present, the median is -1 and a loser's cost can be 0, and Java would then divide by zero. That path is not modelled.
- `SimplexPDF.Normalize` requires at least two keys. `Collections.min` throws on an empty map, and a single key gives the NaN key 0/0. Hence `SimplexPDF.Random` and `SimplexPDF.GenerateRandom` require numSupports ≥ 2.
- The generation methods return `this` in Java. In the model they return nothing, or only the ghost draws they used.
- `SimplexPDF.Cost` is a helper for the two summing loops of `getDistortion`, which the method calls twice.
- `SimplexPDF.DrawCuts` and the module-level methods `Gerrymandering.PartyMapOf`, `Gerrymandering.RouteSupports`, `Gerrymandering.RouteSupport` and `Gerrymandering.NearestOf` are the loops of `generateRandomUniformInterval` and `gerrymander`, split into methods of their own.
- `Gerrymanderer.Gerrymander` requires a nonempty party list whenever f has a support point. It does not model the `IndexOutOfBoundsException` that `get(0)` throws otherwise.
- `SimplexPDF.FromArrays` requires at least as many probabilities as support points. The `ArrayIndexOutOfBoundsException` that SimplexPDF.java:27 throws when the probability array is shorter is not modelled.
- `Gerrymanderer.Solve` requires numParties ≥ 1, because of the `get(0)` in `gerrymander`. It also requires f to be a distribution, because of the divisions in `getExpectedDistortion`.
