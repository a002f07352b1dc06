# VLSIGR in Dafny

A model of the core of VLSIGR, a two-dimensional pattern-based global
router for benchmarks in the ISPD 2008 Global Routing Contest format, with
proofs about the model. It covers:

- **the benchmark record and its two readers.** The checked reader
  `parse_ispd` checks every tag and every read. The contest's unchecked
  reference reader `ISPDParser::parse` checks nothing. Both work over the
  text of the file, as `std::istream` reads it.
- **the routing grid.** The flat edge store `GridGraph` keeps vertical
  edges first and horizontal ones after them.
- **the `Edge` record and the congestion cost `calc_cost`.**
- **the shared cost boxes.** These are `BoxCost`, the `calcX`/`calcY`
  sweeps and `trace`.
- **the pattern routers.** These are `Lshape`, `Zshape` and `Monotonic`,
  plus the `HUM` box-expansion router.
- **the routing core `RoutingCore`.** It covers capacity setup, the
  pin-to-tile mapping with deduplication, the chain decomposition,
  `place`/`ripup`, the overflow scans and one rip-up-and-reroute pass.
- **the congestion-map drawer of `src/tools/draw.cpp`.**
- **the `GlobalRouter` front end and its compatibility wrapper.**

Every C++ operation is a pure function or method over immutable values.
Router state is passed in and returned explicitly. An exception the C++ code
throws becomes an `Err` carrying the thrown message. A random tie-break
(`randint`) becomes a parameter, so every contract holds whichever way the
draw goes.

Files, one module each, in dependency order:

- Shared building blocks:
  - `wrappers.dfy`: `Option` and `Result`.
  - `utils.dfy`: C++ integer division, `average`, `sign` and `randint`.
- The benchmark record and its readers:
  - `int_text.dfy`: decimal integer text.
  - `token_stream.dfy`: formatted stream extraction.
  - `ispd_types.dfy`: the record types.
  - `ispd_parser.dfy`: the checked reader.
  - `ispd_text.dfy`: the benchmark text and the round trip through the checked reader.
  - `ispd_reference.dfy`: the reference reader and its agreement with the checked one.
- The grid and its costs:
  - `grid_graph.dfy`: the edge store.
  - `cost_model.dfy`: `Edge` and the cost model.
- The routers:
  - `sweep.dfy`: cost boxes, sweeps and trace.
  - `patterns.dfy`: `Lshape` and `Zshape`.
  - `monotonic.dfy`: `Monotonic`.
  - `hum.dfy`: `HUM`.
  - `routing_core.dfy`: `RoutingCore`.
- The surrounding tools:
  - `draw.dfy`: the congestion-map drawer.
  - `api.dfy`: the front end.

## Model

| member | source | states |
|---|---|---|
| Utils.CDiv | src/router/utils.hpp:25 | C++ `int` division: zero stays zero, otherwise the magnitude is the floor of the magnitudes' quotient and the sign is the product of the operands' signs (truncation toward zero) |
| Utils.Average | src/router/utils.hpp:21-26 | `average` of a non-empty vector: the sum divided by the count with truncation toward zero; its sign follows the sum's |
| Utils.AverageExample | src/router/utils.hpp:21-26 | the mean of 1, 2, 3, 4 truncates to 2, not 2.5 |
| Utils.Sign | src/router/utils.hpp:11 | `sign(x)` is -1, 0 or 1 by the side of zero `x` lies on |
| Utils.RandInt | src/router/utils.hpp:15-16 | `randint(l, r)` draws a value in `[l, r]` |
| Utils.RandIntCoversRange | src/router/utils.hpp:15-16 | every value of `[l, r]` is some draw, so the model rules out no outcome of the generator |
| Utils.RandIntN | src/router/utils.hpp:18-19 | `randint(n)` draws from `[0, n - 1]` |
| Utils.CoinCovers | src/router/patterns.cpp:114 | a `randint<int>(0, 1)` tie-break can come out either way, so every boolean tie-break parameter of the model is some draw of the generator |
| IntText.ScanInt | src/router/ispd_data.cpp:26 | `is >> v` on an `int`: a successful read consumes input, yields a value in the 32-bit range, and stops before a digit can follow |
| IntText.ScanSigned | src/router/ispd_data.cpp:26 | after the white space, an optional sign and the digit run make the value; a success consumes input, lies in the 32-bit range and stops before any further digit |
| IntText.StoredInt | src/tools/draw.cpp:34 | the value `>>` leaves in an `int` when something is left to read: the number when the read succeeds, otherwise 0 or a clamp to `INT_MIN`/`INT_MAX`, always in the 32-bit range; nothing at the end of input |
| IntText.StoredIntNoDigits | src/tools/draw.cpp:34 | a read that meets neither a sign nor a digit fails and stores 0 |
| IntText.StoredIntTooLarge | src/tools/draw.cpp:34 | digits beyond `INT_MAX` fail the read and store `INT_MAX` |
| IntText.NatDigits | src/router/ispd_data.cpp:26 | the decimal digits of a natural number have no leading zero and denote that number |
| IntText.ScanShow | src/router/ispd_data.cpp:26 | every 32-bit integer printed in decimal reads back as itself, stopping right after its last digit |
| IntText.ScanAfterSpace | src/router/ispd_data.cpp:26 | white space in front of a number does not change what `>>` reads |
| IntText.ScanSpacedShow | src/router/ispd_data.cpp:26 | a space followed by a printed 32-bit integer reads back as that integer |
| TokenStream.ReadWord | src/router/ispd_data.cpp:88 | `is >> name` on a string: a non-empty run of non-space characters, followed by a space or the end of input; it fails exactly when only white space is left |
| TokenStream.ReadInt | src/router/ispd_data.cpp:26 | `is >> v` on an `int`: a success consumes input and lies in the 32-bit range |
| TokenStream.ReadInts | src/router/ispd_data.cpp:93 | `n` reads of `int` in a row yield `n` values, each in the 32-bit range, and consume input whenever `n > 0` |
| TokenStream.Ignore | src/router/ispd_data.cpp:30 | `is.ignore(max, '\n')` drops a prefix with no newline before its last character, which is the newline unless the whole rest was dropped |
| TokenStream.ReadSpacedInts | src/router/ispd_data.cpp:25-29 | numbers printed each after one space read back as the same list, leaving the text after them |
| TokenStream.ReadWordBack | src/router/ispd_data.cpp:88 | a word printed after white space and before a space reads back as that word |
| TokenStream.IgnoreNewline | src/router/ispd_data.cpp:30 | `ignore` at a newline drops exactly that newline |
| IspdTypes.DefaultPoint | src/router/ispd_data.hpp:10-12 | `Point()` is the origin on layer 0 |
| IspdTypes.Point2 | src/router/ispd_data.hpp:13 | `Point(x, y)` puts the point on layer 0 |
| IspdTypes.RPoint2 | src/router/ispd_data.hpp:20 | `RPoint(x, y, hori)` puts the edge on layer 0 with the given orientation |
| IspdTypes.NewTwoPin | src/router/ispd_data.hpp:24-29 | a fresh two-pin has no path, has never been rerouted and is not flagged |
| IspdTypes.NewNet | src/router/ispd_data.hpp:31-46 | a net as the readers build it: header fields and pins set, derived lists empty, statistics 0 |
| IspdTypes.EmptyIspd | src/router/ispd_data.hpp:54-75 | `IspdData{}` has every count and offset 0 and every list empty |
| IspdParser.IntsGood | src/router/ispd_data.cpp:88-89 | a read sequence followed by `expect(is.good())` succeeds exactly when every read succeeds and input is left after the last one |
| IspdParser.Tag | src/router/ispd_data.cpp:22-23 | `is >> keyword >> keyword` then the tag check: the second word equals the tag; the first is not checked; failure throws the section's message |
| IspdParser.Repeat | src/router/ispd_data.cpp:86-98 | a counted loop of item reads collects exactly `n` items, none when `n <= 0` |
| IspdParser.RepeatErr | src/router/ispd_data.cpp:86-98 | a loop of reads throws only what one of its items throws |
| IspdParser.RepeatChain | src/router/ispd_data.cpp:86-98 | when each item read leaves the text of the next one, the loop collects the items in order and leaves the text after the last |
| IspdParser.GoodInts | src/router/ispd_data.cpp:25-29 | the per-layer loop of `is >> v; expect(is.good())` yields exactly `numLayer` 32-bit values, none for a negative count, or throws that list's message |
| IspdParser.LayerList | src/router/ispd_data.cpp:21-30 | one per-layer line: the tag, then `numLayer` values, then the rest of the line dropped; only the tag message or the value message can be thrown |
| IspdParser.GridLine | src/router/ispd_data.cpp:17-19 | the first line yields three 32-bit numbers after the word `grid`; anything else throws "failed to read grid" |
| IspdParser.NumNet | src/router/ispd_data.cpp:80-82 | the `num net` count is a 32-bit number; a failure throws "failed to read num net" |
| IspdParser.Reserve | src/router/ispd_data.cpp:85 | `reserve` of an `int` count throws exactly when the count is negative |
| IspdParser.Pins | src/router/ispd_data.cpp:91-96 | the pin loop yields exactly `numPins` pins or throws "failed to read pin" |
| IspdParser.NetRecord | src/router/ispd_data.cpp:87-97 | one net: a fresh net whose pin count equals its announced count; only the header, reserve and pin errors can be thrown |
| IspdParser.Nets | src/router/ispd_data.cpp:84-98 | the net loop yields exactly `numNet` fresh nets |
| IspdParser.Adjs | src/router/ispd_data.cpp:105-110 | the adjustment loop yields exactly `numCapacityAdj` adjustments or throws "failed to read capacity adjustment" |
| IspdParser.LayerLines | src/router/ispd_data.cpp:21-74 | the five per-layer lines each yield `numLayer` values |
| IspdParser.Netlist | src/router/ispd_data.cpp:80-98 | the stored net count equals the number of nets read, and every net is fresh |
| IspdParser.Adjustments | src/router/ispd_data.cpp:100-110 | the stored adjustment count equals the number of adjustments read |
| IspdParser.Parse | src/router/ispd_data.cpp:13-113 | `parse_ispd`: a record it returns has one value per layer in each list, as many nets, pins and adjustments as announced, and fresh nets |
| IspdText.RenderRoundTrip | src/router/ispd_data.cpp:13-113 | every well-formed record, printed in the benchmark layout, is read back by `parse_ispd` as exactly that record |
| IspdText.LayersBack | src/router/ispd_data.cpp:21-74 | the five per-layer lines read back as the lists they were printed from |
| IspdText.NetsBack | src/router/ispd_data.cpp:84-98 | printed nets read back by the net loop as the same nets |
| IspdText.AdjsBack | src/router/ispd_data.cpp:105-110 | printed adjustments read back by the adjustment loop as the same adjustments |
| IspdText.SectionsBack | src/router/ispd_data.cpp:76-110 | the origin line, the net section and the adjustment section each read back as what was printed |
| IspdText.GridBack | src/router/ispd_data.cpp:17-19 | a printed `grid` line reads back as its three numbers |
| IspdReference.RefGrid | ispd_data.cpp:17 | the reference reader's first line yields three numbers, with no check of the keyword |
| IspdReference.RefList | ispd_data.cpp:19-26 | a per-layer block of the reference reader yields as many values as its loop runs, none for a negative count |
| IspdReference.RefNet | ispd_data.cpp:65-74 | a reference net holds as many pins as its loop runs |
| IspdReference.RefNetlist | ispd_data.cpp:61-75 | the reference net loop yields as many nets as it runs, each with its counted pins |
| IspdReference.RefAdjustments | ispd_data.cpp:77-84 | the reference adjustment loop yields as many adjustments as it runs |
| IspdReference.RefParse | ispd_data.cpp:14-86 | `ISPDParser::parse`: each list has as many entries as its count asks for, a negative count meaning none |
| IspdReference.RepeatAgree | ispd_data.cpp:64-75 | a loop with a lax item agrees with the strict loop wherever the strict loop succeeds |
| IspdReference.LayersAgree | ispd_data.cpp:19-58 | wherever the checked reader reads the per-layer lines, the reference reader reads the same lists |
| IspdReference.NetlistAgree | ispd_data.cpp:61-75 | wherever the checked reader reads the nets, the reference reader reads the same nets |
| IspdReference.AdjustmentsAgree | ispd_data.cpp:77-84 | wherever the checked reader reads the adjustments, the reference reader reads the same ones |
| IspdReference.RefAgrees | ispd_data.cpp:14-86 | on every input the checked `parse_ispd` accepts, the contest's reference reader builds exactly the same record |
| GridGraph.Init | src/router/grid_graph.hpp:31-39 | `init(w, h)` succeeds exactly when both sides are positive or both are 0 and the edge count is at most `max_size()` of `std::vector<Edge>` (`PTRDIFF_MAX / 32`), and then leaves a consistent grid of those sides; otherwise `reserve` throws, on a wrapped `size_t` size or on too many edges |
| GridGraph.InitTooLarge | src/router/grid_graph.hpp:31-39 | a 2^30 × 2^30 grid has more edges than `max_size()`, so `init` throws although both sides fit in an `int` |
| GridGraph.InitArith | src/router/grid_graph.hpp:33-36 | the `size_t` arithmetic of `init` is exact for a proper grid and wraps beyond the maximum size when exactly one side is 0 |
| GridGraph.Rp2Idx | src/router/grid_graph.hpp:18-22 | `rp2idx` is a valid `size_t` index |
| GridGraph.At | src/router/grid_graph.hpp:24-29 | `at` succeeds exactly when the flat index is inside the vector, and otherwise throws the range error |
| GridGraph.VerticalIndex | src/router/grid_graph.hpp:21 | a vertical edge is stored at `x + y * w`, inside the vertical block |
| GridGraph.HorizontalIndex | src/router/grid_graph.hpp:20 | a horizontal edge is stored at `x * h + y + vsz`, inside the horizontal block |
| GridGraph.Rp2IdxInjective | src/router/grid_graph.hpp:18-22 | two grid edges never share a slot |
| GridGraph.InitValues | src/router/grid_graph.hpp:31-39 | after `init`, every vertical edge holds `vInit` and every horizontal edge holds `hInit` |
| GridGraph.InitSizes | src/router/grid_graph.hpp:33-38 | for positive sides within `max_size()`, `init` allocates `w (h - 1) + (w - 1) h` edges |
| GridGraph.AtAliases | src/router/grid_graph.hpp:24-29 | as written, `at` on the 2 × 2 grid returns the horizontal edge (0, 0) for the off-grid vertical "edge" (0, 1) |
| GridGraph.Get | src/router/grid_graph.hpp:24-26 | the corrected `at` of the Findings row: it succeeds exactly for a grid edge, and then reads that edge's slot |
| GridGraph.SlotOf | src/router/grid_graph.hpp:18-22 | every slot of the edge vector belongs to some grid edge |
| GridGraph.Extensional | src/router/grid_graph.hpp:8-45 | two grids of the same shape that read alike on every edge are equal |
| GridGraph.Set | src/router/grid_graph.hpp:27-29 | the writable corrected `at` succeeds exactly for a grid edge and keeps the grid's shape |
| GridGraph.SetAt | src/router/grid_graph.hpp:27-29 | the writable `at` as written succeeds exactly when the flat index is inside the vector, writes that slot, and leaves every other slot and the shape alone |
| GridGraph.SetAtAgrees | src/router/grid_graph.hpp:18-29 | on a grid edge the `at` as written and the corrected one read and write the same slot |
| GridGraph.GetSet | src/router/grid_graph.hpp:27-29 | a write is seen by a read of the same edge and by no other edge |
| GridGraph.MapEdges | src/router/grid_graph.hpp:41-44 | an in-place pass over `begin()..end()` keeps the shape and applies the update to every edge |
| CostModel.NewEdge | src/router/cost_model.hpp:19-20 | `Edge(c)` has capacity `c`, no demand, history 1, no overflow count, cost 1, and overflows exactly when `c` is negative |
| CostModel.BuildCostPe | src/router/cost_model.cpp:5-22 | `build_cost_pe` picks the mild table for selector 0, the steeper one for 1 and the aggressive one for any other selector, each nondecreasing with 1024 entries |
| CostModel.SelectorsCover | src/router/cost_model.cpp:16-18 | `case 2:` and `default:` share a branch: every selector other than 0 and 1 builds selector 2's table, so selectors 0, 1 and 2 give every table there is |
| CostModel.NewModel | src/router/cost_model.hpp:28 | `CostModel(sel)` holds the selector and the table it picks |
| CostModel.SetSelcost | src/router/cost_model.hpp:30 | `set_selcost` stores the selector and rebuilds its table |
| CostModel.SetSelcostFresh | src/router/cost_model.hpp:28-30 | after `set_selcost(sel)` the model equals a freshly constructed `CostModel(sel)` |
| CostModel.PeIndex | src/router/cost_model.hpp:47-52 | `get_cost_pe` reads at `of + 256` clamped into `[0, 1023]` |
| CostModel.PeIndexMonotone | src/router/cost_model.hpp:47-52 | the clamped index never decreases with the overflow |
| CostModel.GetCostPeMonotone | src/router/cost_model.hpp:47-52 | the penalty never decreases with the overflow, clamping included |
| CostModel.GetCostPe | src/router/cost_model.hpp:47-52 | `get_cost_pe(of)` is the table entry at `of + 256`, the first entry below the table and the last above it, so it lies between those two on a nondecreasing table |
| CostModel.CalcCost | src/router/cost_model.cpp:24-38 | an edge without capacity costs `1e12` whatever its demand and history; any other edge costs at least 200 |
| CostModel.CostWithoutHistory | src/router/cost_model.cpp:27-37 | with selector 0 or 1 the cost is `10 pe + 200` at overflow `demand + 1 - cap`, and the history does not enter |
| CostModel.CostMonotoneInDemand | src/router/cost_model.cpp:24-38 | more demand on an edge never makes it cheaper |
| CostModel.CostMonotoneInHistory | src/router/cost_model.cpp:32-36 | with selector 2, more history never makes an edge cheaper |
| CostModel.FirstNetRaisesCost | src/router/cost_model.cpp:26-30 | on an edge of capacity 1, the first routed net raises the cost when the table rises from overflow 0 to 1 |
| CostModel.BuildCost | src/router/cost_model.hpp:36-40 | `build_cost` sets every edge's cost to `calc_cost` of that edge and changes nothing else |
| CostModel.GridCost | src/router/routing_core.cpp:87-89 | the cost functor handed to the searches: `calc_cost` of the edge on the grid, the blocked cost off it, and never below 200 |
| Sweep.Plus | src/router/patterns.cpp:61 | adding an edge cost to a path cost: the sum stays infinite exactly when the path cost was infinite |
| Sweep.MinCost | src/router/hum.cpp:151-152 | `std::min` of two costs is one of them and no greater than either |
| Sweep.BoxOf | src/router/patterns.cpp:14-19 | the bounding box of two pins holds both, and its sides are the pins' coordinate differences |
| Sweep.Fresh | src/router/patterns.cpp:21-28 | `BoxCost(box)` has one entry per point of the box, each at infinite cost without a pointer |
| Sweep.Put | src/router/patterns.cpp:29-33 | writing one point of the box changes that point only and keeps the box well formed |
| Sweep.Start | src/router/patterns.cpp:137-138 | the start of a search: the pin at cost 0 without a pointer, every other point infinite |
| Sweep.IdxInRange | src/router/patterns.cpp:29-33 | `operator()(x, y)` maps each point of the box to its own slot of the vector, inside the vector |
| Sweep.CellAtInBox | src/router/patterns.cpp:26-33 | every slot of the vector belongs to a point of the box, so the map of points stands for the vector |
| Sweep.SweepFrom | src/router/patterns.cpp:60-70 | the loop of `calcX`/`calcY` changes no box |
| Sweep.Sweep | src/router/patterns.cpp:56-88 | `calcX`/`calcY` keep the table well formed |
| Sweep.SweepLine | src/router/patterns.cpp:56-88 | a call of `calcX`/`calcY` over a line that fits the box keeps the table well formed over the same box |
| Sweep.CalcX | src/router/patterns.cpp:56-71 | `calcX` keeps the table well formed |
| Sweep.CalcY | src/router/patterns.cpp:73-88 | `calcY` keeps the table well formed |
| Sweep.StepFacts | src/router/patterns.cpp:61-69 | one turn of the loop changes at most the next point, never raises its cost, hands on its new cost, and rewrites it only as the route through the previous point |
| Sweep.SweepFromFrame | src/router/patterns.cpp:60-70 | a sweep touches only the points after its start on its own line |
| Sweep.SweepFromLowers | src/router/patterns.cpp:63-68 | a sweep never raises a cost |
| Sweep.SweepFromInf | src/router/patterns.cpp:59-70 | a sweep over a line of infinite points changes nothing |
| Sweep.SweepFromRelaxes | src/router/patterns.cpp:60-70 | after a sweep each point of the line costs no more than its predecessor plus the edge between them, and a rewritten point points at that predecessor with exactly that cost |
| Sweep.SweepFromSound | src/router/patterns.cpp:60-70 | a sweep keeps a table linked (finite points have pointers to finite points) and accounted (a point costs at least its pointer's cost plus the edge) |
| Sweep.SweepFromOriented | src/router/patterns.cpp:60-70 | a sweep walking away from the origin keeps every pointer one step closer to it |
| Sweep.SweepFromFin | src/router/patterns.cpp:60-70 | a sweep from a finite point reaches every later point of its line at finite cost |
| Sweep.UnitEdgeEnds | src/router/patterns.cpp:40-46 | the edge `trace` emits for a step joins the two points, lies on layer 0, and is the same whichever way the step is taken |
| Sweep.PathCostAppend | src/router/patterns.cpp:97-112 | the cost of two joined paths is the sum of their costs |
| Sweep.TraceIsWalk | src/router/patterns.cpp:34-49 | `trace` emits the edges between consecutive points of the walk along the pointers, and stops early only at a point with no pointer to a neighbour |
| Sweep.NoRepeatsBound | src/router/patterns.cpp:34-49 | a walk without repeated points in the box is no longer than the box, so the step bound never cuts a trace short |
| Sweep.WalkRanked | src/router/patterns.cpp:34-49 | along a linked table a walk from a finite point stays on finite points of the box, and any measure every pointer lowers falls strictly along it |
| Sweep.TraceReaches | src/router/patterns.cpp:34-49 | when every pointer names a neighbour and lowers a measure, the trace from a finite point reaches the origin without repeating a point |
| Sweep.WalkCloser | src/router/patterns.cpp:34-49 | in a table oriented towards the origin each step of the walk is one step closer to it |
| Sweep.TraceLength | src/router/patterns.cpp:34-49 | in an oriented, linked table the trace from a finite point ends at the origin after exactly the Manhattan distance in unit edges |
| Sweep.TraceCost | src/router/patterns.cpp:34-49 | in an accounted table the traced path costs at most the cost stored at its start |
| Sweep.StepsValues | src/router/patterns.cpp:145 | `for (p = a, x = p + d; x != e + d; ...)` with `d = sign(e - a)` visits every position after `a` up to and including `e`, in order |
| Sweep.RunAppend | src/router/patterns.cpp:144-152 | running two lists of sweeps one after the other is running their concatenation |
| Sweep.SweepLineLowers | src/router/patterns.cpp:63-68 | a call of `calcX`/`calcY` never raises a cost |
| Sweep.SweepLineSound | src/router/patterns.cpp:56-88 | a call keeps the table linked and accounted |
| Sweep.SweepLineOriented | src/router/patterns.cpp:56-88 | a call walking away from the origin keeps the table oriented |
| Sweep.SweepLineReaches | src/router/patterns.cpp:56-88 | a call from a finite first point reaches its whole line |
| Sweep.RunLowers | src/router/patterns.cpp:144-152 | a run of calls never raises a cost |
| Sweep.RunSound | src/router/patterns.cpp:144-152 | a run of calls keeps the table linked and accounted |
| Sweep.RunOriented | src/router/patterns.cpp:144-152 | a run of calls walking away from the origin keeps the table oriented |
| Sweep.RunKeepsFin | src/router/patterns.cpp:144-152 | a point reached at finite cost stays reached through any calls |
| Sweep.RunReaches | src/router/patterns.cpp:144-152 | a call whose first point is already finite reaches its whole line |
| Sweep.RunReachesVia | src/router/patterns.cpp:144-146 | when the first call reaches the start of a later call, that later call's line ends up reached |
| Sweep.SweepLineFrame | src/router/patterns.cpp:56-88 | a call leaves alone every point that is not after its first point on its line |
| Sweep.SweepLineFresh | src/router/patterns.cpp:60-70 | over points not reached before, a call sets each point to its predecessor's cost plus the edge, pointing back at it |
| Sweep.SweepLineSums | src/router/patterns.cpp:168-169 | a call from a reached first point over unreached points leaves the running sums along its line |
| Patterns.CostOf | src/router/patterns.cpp:52-54 | `edge_cost` uses the functor when one is given |
| Patterns.UnitPathCost | src/router/patterns.cpp:52-54 | without a functor every edge costs 1, so a path costs its length |
| Patterns.SegmentFacts | src/router/patterns.cpp:99-106 | a run from `lo` to `hi` emits `hi - lo` unit edges joining consecutive points of its line, and costs what the summing loop of `eval` adds up |
| Patterns.Lshape | src/router/patterns.cpp:92-128 | `Lshape` changes only the two-pin's path |
| Patterns.EmitLegs | src/router/patterns.cpp:96-127 | the path emitted for each bend is its two legs, and costs exactly what `eval` computes for that bend |
| Patterns.EmitLength | src/router/patterns.cpp:115-127 | either bend's path has Manhattan length |
| Patterns.LshapeChoice | src/router/patterns.cpp:113-127 | `Lshape` routes along one of the two bends in exactly `abs(dx) + abs(dy)` edges, costs no more than either bend, takes a strictly cheaper bend, and lets the draw decide a tie |
| Patterns.Normalize | src/router/patterns.cpp:133-134 | the two swaps leave the same pair of pins, in either order, with the first no further right than the second |
| Patterns.NormalizeDist | src/router/patterns.cpp:133-134 | swapping the pins keeps their Manhattan distance |
| Patterns.ZLinesFit | src/router/patterns.cpp:144-152 | every `calcX`/`calcY` call of `Zshape` stays in the pins' box |
| Patterns.ZLinesAway | src/router/patterns.cpp:144-152 | every call of `Zshape` walks away from the first pin |
| Patterns.ZLinesShape | src/router/patterns.cpp:145-151 | the middle calls of the two tables are the columns after `f.x` and the rows after `f.y`, in order |
| Patterns.ZStart | src/router/patterns.cpp:136-139 | both tables start as the pins' box with the first pin at cost 0 |
| Patterns.ZBoxH | src/router/patterns.cpp:144-147 | `boxH` after its calls is a well-formed table of the pins' box |
| Patterns.ZBoxV | src/router/patterns.cpp:149-152 | `boxV` after its calls is a well-formed table of the pins' box |
| Patterns.ZChosen | src/router/patterns.cpp:154 | the traced table is a well-formed table of the pins' box |
| Patterns.Zshape | src/router/patterns.cpp:130-157 | `Zshape` changes only the two-pin's path |
| Patterns.StartSound | src/router/patterns.cpp:137-138 | the start table is linked, accounted and oriented towards the first pin, which sits at cost 0 |
| Patterns.ZBoxesSound | src/router/patterns.cpp:144-152 | both tables stay linked, accounted and oriented towards the first pin |
| Patterns.ZReachesH | src/router/patterns.cpp:144-147 | with the pins in different columns, `boxH` reaches the second pin |
| Patterns.ZReachesV | src/router/patterns.cpp:149-152 | with the pins in different rows, `boxV` reaches the second pin |
| Patterns.ZChosenReaches | src/router/patterns.cpp:154 | the traced table reaches the second pin at a cost no higher than either table's |
| Patterns.ZChosenSound | src/router/patterns.cpp:154 | whichever table is chosen is linked, accounted and oriented |
| Patterns.ZChosenTrace | src/router/patterns.cpp:154-156 | the trace from the second pin runs back to the first in Manhattan-distance many unit edges and costs no more than either table's cost there |
| Patterns.ZshapeRoute | src/router/patterns.cpp:130-157 | `Zshape` emits exactly `abs(dx) + abs(dy)` unit edges, chained from the second normalised pin back to the first, at a cost no more than the cheaper table's cost at that pin |
| Monotonic.MCell | src/router/patterns.cpp:173-183 | one turn of the inner loop rewrites a single entry of the table and keeps its box |
| Monotonic.MEdges | src/router/patterns.cpp:168-169 | the first row and column sweeps keep the table well formed over the same box |
| Monotonic.MBoxOf | src/router/patterns.cpp:165 | the table's box, seen from its corner, is the box of the two normalised pins |
| Monotonic.CornerIsTarget | src/router/patterns.cpp:162-165 | the table's far corner is the second normalised pin |
| Monotonic.StepGood | src/router/patterns.cpp:168-169 | extending a cheapest entry by one edge along the first row or column gives a cheapest entry |
| Monotonic.StartSeeded | src/router/patterns.cpp:165-167 | the start table has only the first pin reached, at cost 0 with no predecessor |
| Monotonic.RowStep | src/router/patterns.cpp:168 | one step of `calcX` along the first row extends the row's running sum |
| Monotonic.ColStep | src/router/patterns.cpp:169 | one step of `calcY` along the first column extends the column's running sum |
| Monotonic.RowGood | src/router/patterns.cpp:168 | after `calcX` every entry of the first row holds its one monotone cost and points left |
| Monotonic.RowOrigin | src/router/patterns.cpp:166-168 | `calcX` leaves the first pin at cost 0 |
| Monotonic.RowSwept | src/router/patterns.cpp:168 | `calcX` over an otherwise unreached row writes the row's running sums |
| Monotonic.RowFromSums | src/router/patterns.cpp:168 | running sums along the first row make every entry of that row cheapest |
| Monotonic.ColGood | src/router/patterns.cpp:169 | after `calcY` every entry of the first column holds its one monotone cost and points back along the column |
| Monotonic.ColOrigin | src/router/patterns.cpp:166-169 | neither first sweep moves the first pin off cost 0 |
| Monotonic.ColSwept | src/router/patterns.cpp:169 | `calcY` writes the first column's running sums |
| Monotonic.ColFromSums | src/router/patterns.cpp:169 | running sums along the first column make every entry of that column cheapest |
| Monotonic.RowKept | src/router/patterns.cpp:168-169 | `calcY` does not disturb the row that `calcX` wrote |
| Monotonic.GoodKept | src/router/patterns.cpp:171-184 | whether an entry is cheapest depends only on that entry |
| Monotonic.StartDone | src/router/patterns.cpp:165-169 | before the loops the first row and first column are cheapest |
| Monotonic.MCellGood | src/router/patterns.cpp:173-182 | one turn of the inner loop writes the cheapest monotone cost and its predecessor whichever arrival wins, the tie draw included |
| Monotonic.MPtInjective | src/router/patterns.cpp:171-172 | distinct offsets of the table are distinct grid points |
| Monotonic.MCellDone | src/router/patterns.cpp:172-183 | one turn of the inner loop extends the set of cheapest entries by one and keeps the earlier ones |
| Monotonic.RowDone | src/router/patterns.cpp:171-184 | a finished row advances the outer loop |
| Monotonic.AllDone | src/router/patterns.cpp:171-184 | when the outer loop ends every entry of the table is cheapest |
| Monotonic.MCellValid | src/router/patterns.cpp:173-183 | a turn of the inner loop keeps the table well formed |
| Monotonic.StairLength | src/router/patterns.cpp:185-186 | a monotone route has one edge per column and row it crosses |
| Monotonic.DpMinimal | src/router/patterns.cpp:171-184 | no monotone route to an offset costs less than the dynamic program's value there |
| Monotonic.MPtDist | src/router/patterns.cpp:165 | offset `(i, j)` lies `i + j` steps from the first pin |
| Monotonic.StairCons | src/router/patterns.cpp:185-186 | an edge from the left or from below followed by a monotone route is a monotone route |
| Monotonic.TraceStep | src/router/patterns.cpp:185-186 | following one pointer adds that edge to the trace and its cost to the path's |
| Monotonic.TraceStair | src/router/patterns.cpp:185-186 | the trace from any entry of a finished table is a monotone route back to the first pin costing the optimum there |
| Monotonic.Offset | src/router/patterns.cpp:165 | every point of the box is at some offset inside it |
| Monotonic.TableLinked | src/router/patterns.cpp:165-184 | in a finished table every point is reached and every point but the first pin points at a reached neighbour |
| Monotonic.TableOriented | src/router/patterns.cpp:165-184 | in a finished table every pointer names a neighbour one step closer to the first pin |
| Monotonic.TableRoute | src/router/patterns.cpp:185-186 | the trace from the far corner is a monotone route that costs exactly the optimum |
| Monotonic.StairOptimal | src/router/patterns.cpp:171-186 | a monotone route costing the optimum is no dearer than any monotone route and has one edge per row and column |
| Monotonic.BuildTable | src/router/patterns.cpp:165-184 | the table ends well formed over the pins' box with every entry holding the cheapest monotone cost and the edge it is reached by |
| Monotonic.TracedOptimal | src/router/patterns.cpp:162-186 | the trace from the second pin is a monotone route of Manhattan length that no monotone route between the pins undercuts |
| Monotonic.StairRoute | src/router/patterns.cpp:162-186 | a monotone route of the normalised box at the optimum is a cheapest monotone route between the original pins, of Manhattan length |
| Monotonic.MonotoneIsStair | src/router/patterns.cpp:162-163 | a monotone route between the pins is the same whichever way round the swaps put them |
| Monotonic.Route | src/router/patterns.cpp:159-187 | `Monotonic` changes only the path, which is a monotone route of Manhattan length between the pins, and no monotone route costs less under the cost functor |
| Hum.OverflowCounts | src/router/hum.cpp:104-108 | the counting loop succeeds exactly when every path edge is in the grid, and counts at most one overflow per edge; otherwise it fails as `at` does |
| Hum.CountsZero | src/router/hum.cpp:104-108 | `cntV` is 0 exactly when no vertical path edge overflows, and `cntH` exactly when no horizontal one does |
| Hum.ExpandH | src/router/hum.cpp:109-114 | a box as tall as the grid always widens, one as wide as the grid (but not as tall) heightens, otherwise more vertical overflow widens and a tie goes by the parity of `reroute` |
| Hum.Expand | src/router/hum.cpp:116-122 | expansion touches only the sides of the chosen axis |
| Hum.ExpandBounds | src/router/hum.cpp:116-122 | a box inside the grid stays inside it, keeps what it covered, and grows by at most `BASE_EXPAND` on each side |
| Hum.ExpandProgress | src/router/hum.cpp:110-122 | until the box is the whole grid, expansion always moves some side |
| Hum.HumBox | src/router/hum.cpp:102-122 | the box is computed exactly when the overflow count succeeds |
| Hum.HumBoxFits | src/router/hum.cpp:102-122 | with both pins in the grid, the searched box holds both pins, lies in the grid, and keeps the pins' extent on one axis |
| Hum.SweepLineRelaxed | src/router/hum.cpp:58-92 | after a sweep no point of the line costs more than its predecessor plus the edge between them |
| Hum.SweepLineInf | src/router/hum.cpp:58-92 | a sweep over a line that is unreached everywhere changes nothing |
| Hum.SegmentCostSnoc | src/router/hum.cpp:64 | the cost of a straight run grows by its last edge |
| Hum.UpBound | src/router/hum.cpp:132 | after the upward sweep of the pin's line each later point costs at most the straight run from the pin |
| Hum.DownBound | src/router/hum.cpp:133 | after the downward sweep each earlier point costs at most the straight run from the pin |
| Hum.PinLineBound | src/router/hum.cpp:132-133 | after both sweeps of the pin's line every point on it costs at most the straight run from the pin |
| Hum.PinLineSound | src/router/hum.cpp:126-133 | the two sweeps of the pin's line keep the table linked back to the pin and accounted, and leave every point off that line unreached |
| Hum.PinLineRelaxed | src/router/hum.cpp:126-133 | the two sweeps relax the pin's line in both directions from a pin at cost 0, the second only lowering costs |
| Hum.OffLine | src/router/hum.cpp:134-135 | once only the pin's line is reached, sweeping any other parallel line changes nothing |
| Hum.PinTable | src/router/hum.cpp:124-139 | each of the four tables ends linked back to its pin, accounted, and no dearer on the pin's line than the straight run |
| Hum.PinLinePinned | src/router/hum.cpp:126-133 | the start and the two sweeps of the pin's line already give the table its final properties |
| Hum.SweepAbove | src/router/hum.cpp:134 | the sweeps of the lines after the pin's line keep the table's properties |
| Hum.SweepBelow | src/router/hum.cpp:135 | the sweeps of the lines before the pin's line keep the table's properties |
| Hum.Add | src/router/hum.cpp:155 | the sum of two costs is finite exactly when both are, and then is their sum |
| Hum.FirstMinUnique | src/router/hum.cpp:154-161 | at most one point is the first of least combined cost in scan order |
| Hum.Meet | src/router/hum.cpp:154-161 | the search returns a point of the box whose combined cost no point undercuts, and which no earlier point in scan order ties, since only a strictly smaller cost replaces the current one |
| Hum.WalkFollows | src/router/hum.cpp:37-51 | the edges a trace emits, followed from its start, end where the walk ends |
| Hum.CostRanked | src/router/hum.cpp:37-51 | under positive edge costs every pointer of an accounted table leads to a strictly cheaper point |
| Hum.TraceFollows | src/router/hum.cpp:37-51 | from a reached point of a linked, accounted table, the trace leads back to the pin and costs no more than the point's entry |
| Hum.BendsInBox | src/router/hum.cpp:102 | both L-shape bend points lie in any box that holds the two pins |
| Hum.LineBound | src/router/hum.cpp:132-139 | a point on the pin's line costs at most the straight run from the pin |
| Hum.EvalBends | src/router/patterns.cpp:97-112 | each L-shape's cost is its two straight runs |
| Hum.BendBound | src/router/hum.cpp:151-155 | at an L-shape's bend the combined cost is at most that L-shape's cost |
| Hum.MeetTrace | src/router/hum.cpp:166-171 | from the meeting point, the trace through the cheaper table leads back to its pin at no more than the meeting point's cost from that pin |
| Hum.MeetBound | src/router/hum.cpp:151-161 | the meeting point is reached from both pins, and its combined cost is at most the cost of either L-shape between the pins |
| Hum.BothBelow | src/router/hum.cpp:154-161 | the first point of least combined cost costs no more than any bound one point of the box meets |
| Hum.JoinTraces | src/router/hum.cpp:163-171 | the two traces appended form a path from the meeting point to `from` followed by one from the meeting point to `to` |
| Hum.Route | src/router/hum.cpp:96-176 | a new or ripped-up two-pin gets a path through the meeting point to both pins, costing no more than either L-shape, and fails exactly where `at` would throw; any other two-pin gets a monotone route of Manhattan length |
| RoutingCore.SetSelcost | src/router/routing_core.hpp:25 | the core and its cost model switch selector together; the model is a fresh one for that selector and the grid is untouched |
| RoutingCore.CountAppend | src/router/routing_core.cpp:63-66 | the passes of a joined path over an edge are the passes of its parts |
| RoutingCore.AddDemand | src/router/routing_core.cpp:63-66 | the demand loop, reading the grid through the corrected `at`, succeeds exactly when every path entry is a grid edge, keeps the grid's size, and otherwise fails with the edge error |
| RoutingCore.AddDemandAt | src/router/routing_core.cpp:63-66 | the demand loop as written, through the flat `at`, succeeds exactly when every path entry's flat index is inside the edge vector, and keeps the grid's shape |
| RoutingCore.AddDemandAtAgrees | src/router/routing_core.cpp:63-66 | on a path of grid edges the loop as written and the corrected loop leave the same grid |
| RoutingCore.PlaceAliases | src/router/routing_core.cpp:62-67 | as written, placing the off-grid vertical "edge" (0, 1) on the 2 × 2 grid adds its demand to the horizontal edge (0, 0); the corrected loop fails |
| RoutingCore.AddDemandEdges | src/router/routing_core.cpp:63-66 | each edge's demand moves by `d` once per pass of the path, and nothing else changes |
| RoutingCore.AddDemandEdge | src/router/routing_core.cpp:63-66 | the same for one edge |
| RoutingCore.Place | src/router/routing_core.cpp:62-67 | `place`, through the corrected `at`, succeeds exactly when every path entry is a grid edge, and then adds one demand per pass to each edge and changes nothing else |
| RoutingCore.Ripup | src/router/routing_core.cpp:69-76 | `ripup`, through the corrected `at`, succeeds exactly when every path entry is a grid edge, and then removes one demand per pass from each edge, counts one more reroute and clears the path |
| RoutingCore.PlaceRipup | src/router/routing_core.cpp:62-76 | ripping up a path just placed gives back the grid it was placed on |
| RoutingCore.RipupPlace | src/router/routing_core.cpp:62-76 | placing a path again after ripping it up restores the grid |
| RoutingCore.TwopinOverflow | src/router/routing_core.cpp:78-84 | the scan, through the corrected `at`, answers true at the first overflowed edge, fails at the first entry that is not a grid edge if that comes first, and answers false only when every entry is a grid edge and none overflows |
| RoutingCore.ShiftClear | src/router/routing_core.cpp:79-82 | a path whose first edge is on the grid and not overflowed is clear up to a point exactly when its tail is clear up to the point before |
| RoutingCore.OverflowIffSomeEdge | src/router/routing_core.cpp:78-84 | for a path on the grid, `twopin_overflow` is true exactly when some path edge overflows |
| RoutingCore.Settle | src/router/routing_core.cpp:96-101 | an edge that does not overflow is left alone; one that does gains history and has `of` cleared, its capacity, demand, use and cost kept |
| RoutingCore.CheckOverflow | src/router/routing_core.cpp:93-104 | `check_overflow` returns the summed excess demand over all edges and settles every edge |
| RoutingCore.TotalExcess | src/router/routing_core.cpp:96-101 | the summed excess is at least the excess of every single edge |
| RoutingCore.TotalExcessZero | src/router/routing_core.cpp:93-104 | the summed excess is 0 exactly when no edge of the list overflows |
| RoutingCore.CheckOverflowZero | src/router/routing_core.cpp:93-104 | `check_overflow` reports 0 exactly when no edge of the grid overflows |
| RoutingCore.RouteTwopin | src/router/routing_core.cpp:86-91 | `route_twopin` changes only the path, which is a monotone route of Manhattan length that no monotone route undercuts under the grid's edge costs |
| RoutingCore.TwopinLoadReplace | src/router/routing_core.cpp:108-116 | swapping one two-pin changes the load on an edge by the difference of the two paths' passes |
| RoutingCore.LoadReplace | src/router/routing_core.cpp:108-116 | swapping one net changes the load on an edge by the difference of the two nets' loads |
| RoutingCore.RerouteNet | src/router/routing_core.cpp:109-115 | the ghost `tested` holds one grid per two-pin, the first being the input grid; each two-pin comes back unchanged exactly when its path overflows nowhere on its tested grid, and otherwise with one more reroute and a cheapest monotone route of Manhattan length on that grid minus its old path; each next grid is the one before with the old path's passes swapped for the new one's; only demands change, and a grid without overflow is left alone; it succeeds whenever every two-pin's path and pins lie on the grid, and fails only with the edge error of the corrected `at` |
| RoutingCore.Revise | src/router/routing_core.cpp:110-114 | a two-pin whose path overflows nowhere is returned unchanged with the grid; one whose path meets an overflowed edge comes back with one more reroute and a cheapest monotone route on the grid minus its old path; each edge's demand loses the old path's passes and gains the new one's; it succeeds whenever the path and both pins lie on the grid |
| RoutingCore.Reroute | src/router/routing_core.cpp:62-91 | ripping up, routing and placing one two-pin keeps its pins, adds one reroute, and gives it a monotone route of Manhattan length that no monotone route undercuts on the costs of the grid without the old path; each edge's demand loses the old path's passes and gains the new one's; it succeeds whenever the old path and both pins lie on the grid |
| RoutingCore.OutcomeIff | src/router/routing_core.cpp:110-114 | a two-pin comes out of the loop body unchanged exactly when its path overflows nowhere on the grid it was tested against, and changed exactly when it meets an overflowed edge; a changed one keeps its pins and has one more reroute |
| RoutingCore.NetTurn | src/router/routing_core.cpp:109-115 | one turn of the loop over a net's two-pins extends the record of tested grids by the current grid and keeps the loop's invariant; on a grid without overflow it changes nothing |
| RoutingCore.TrailStep | src/router/routing_core.cpp:109-115 | one more tested two-pin extends the record of a loop over two-pins |
| RoutingCore.NetLoopStep | src/router/routing_core.cpp:109-115 | revising the next two-pin keeps the loop's invariant: the record, the demand moves, the revisions and the untouched rest |
| RoutingCore.StairOnGrid | src/router/patterns.cpp:115-127 | a staircase that starts and ends inside the grid, with its columns inside it, uses grid edges only |
| RoutingCore.MonotoneOnGrid | src/router/routing_core.cpp:86-91 | a monotone route between two pins of the grid uses grid edges only, so placing a rerouted path cannot fail |
| RoutingCore.DemandOnlyTrans | src/router/routing_core.cpp:106-118 | grids that differ in demand only compose |
| RoutingCore.RevisedStep | src/router/routing_core.cpp:111-112 | ripping up and rerouting is a revision of the two-pin |
| RoutingCore.MovedStep | src/router/routing_core.cpp:109-115 | revising one more two-pin extends the agreement between demand moves and paths |
| RoutingCore.RipupPlaceOnce | src/router/routing_core.cpp:106-118 | the ghost `starts` and `tested` record, net by net, the grid each two-pin was tested against: each two-pin comes back unchanged exactly when its path overflows nowhere on that grid, and otherwise with one more reroute and a cheapest monotone route on that grid minus its old path; the final grid is the last one with every cost rebuilt, so edges differ from the input only in demand and cost; demand still agrees with the nets' load, and a grid without overflow keeps its nets and only has its costs rebuilt; the pass succeeds whenever every two-pin's path and pins lie on the grid |
| RoutingCore.PassTurn | src/router/routing_core.cpp:108-116 | one turn of the loop over the nets extends the pass's record by one net's tested grids and keeps the loop's invariant; on a grid without overflow it changes nothing |
| RoutingCore.PassStep | src/router/routing_core.cpp:108-116 | one more net's record extends the record of the pass |
| RoutingCore.NetsRevisedStep | src/router/routing_core.cpp:108-116 | revising one more net keeps every net untouched or revised |
| RoutingCore.Rebuilt | src/router/routing_core.cpp:117 | rebuilding the costs of a grid that differs from the input in demand only keeps every field but demand and cost, and each cost is the one the edge's state calls for |
| RoutingCore.NetStep | src/router/routing_core.cpp:108-116 | demand agreeing with the nets' load survives revising one net |
| RoutingCore.SetEdges | src/router/grid_graph.hpp:24-29 | a write through `at` changes exactly the named edge |
| RoutingCore.InitGrid | src/router/routing_core.cpp:13-15 | the grid is built exactly when both counts are positive or both are 0 and the edge count is within `max_size()`; every horizontal edge then holds the summed horizontal capacity and every vertical edge the summed vertical capacity, with no demand |
| RoutingCore.InitEdges | src/router/grid_graph.hpp:31-39 | every edge of the fresh grid holds the initial edge of its orientation |
| RoutingCore.AdjEdgeEnds | src/router/routing_core.cpp:18-26 | an adjustment names an edge exactly when its points share a layer and are one step apart, and the edge joins those points |
| RoutingCore.LayerCap | src/router/routing_core.cpp:27 | the layer capacity is found exactly when the layer is in range of the list for the edge's direction |
| RoutingCore.Reduced | src/router/routing_core.cpp:28-30 | the capacity drops by the reduction but never below 0, and nothing else changes |
| RoutingCore.Adjust | src/router/routing_core.cpp:17-31 | a skipped adjustment leaves the grid alone; otherwise it succeeds exactly when the layer exists and the adjustment names a grid edge (the corrected `at`), and then reduces that edge's capacity and no other edge |
| RoutingCore.AdjustAll | src/router/routing_core.cpp:17-31 | the adjustments in input order keep the grid's size and fail only on a bad layer or on an adjustment naming no grid edge |
| RoutingCore.AdjustAllEdge | src/router/routing_core.cpp:17-31 | after the adjustments only capacities change; an edge no adjustment names is unchanged, and one that is named ends with capacity at least 0 |
| RoutingCore.Capacities | src/router/routing_core.cpp:13-31 | the built capacity grid has the data's dimensions |
| RoutingCore.CapacitiesEdge | src/router/routing_core.cpp:13-31 | every edge of the capacity grid carries no demand; it has the summed capacity of its direction unless an adjustment names it, and then a capacity of at least 0 |
| RoutingCore.TileSpan | src/router/routing_core.cpp:42-43 | truncating division of a non-negative offset gives the tile the offset falls in |
| RoutingCore.TileOf | src/router/routing_core.cpp:42-44 | a pin's tile index is its offset from the corner divided by the tile size truncated toward zero, its magnitude within one tile of the offset's, and its layer is made 0-based |
| RoutingCore.TileContains | src/router/routing_core.cpp:42-44 | a pin right of and above the lower-left corner lies inside the tile it is assigned to, with its layer made 0-based |
| RoutingCore.Tiles | src/router/routing_core.cpp:41-44 | one tile per pin, in pin order |
| RoutingCore.KeysSnoc | src/router/routing_core.cpp:45-47 | appending a point adds its `(x, y)` pair to the pairs seen |
| RoutingCore.Firsts | src/router/routing_core.cpp:40-48 | deduplication keeps the same set of `(x, y)` pairs, no pair twice, and only points of the input |
| RoutingCore.FirstsAreFirst | src/router/routing_core.cpp:45 | every point kept is the first of its pair in the input |
| RoutingCore.Find | src/router/routing_core.cpp:45 | `std::find` finds a key exactly when it is in the list |
| RoutingCore.SeenKeys | src/router/routing_core.cpp:40-47 | the `seen` list holds exactly the pairs of the points kept so far |
| RoutingCore.FirstsSnoc | src/router/routing_core.cpp:45-47 | one more tile is kept exactly when its `(x, y)` pair is not among those kept |
| RoutingCore.Pin2D | src/router/routing_core.cpp:39-48 | the `seen` loop keeps the first tile of each `(x, y)` pair, in order of appearance |
| RoutingCore.LinkFacts | src/router/routing_core.cpp:51-57 | every link of the chain joins kept point `i` to point `i + 1` along one of the two L bends in Manhattan length, never rerouted and not flagged |
| RoutingCore.Chain | src/router/routing_core.cpp:51-58 | the chain has one link fewer than the kept points, each link joining consecutive points, fresh, of Manhattan length |
| RoutingCore.SegmentOnGrid | src/router/patterns.cpp:115-127 | a straight run between grid points stays on the grid |
| RoutingCore.OnGridAppend | src/router/patterns.cpp:115-127 | two paths on the grid join into a path on the grid |
| RoutingCore.EmitOnGrid | src/router/patterns.cpp:115-127 | an L between grid points through a grid bend stays on the grid |
| RoutingCore.ChainOnGrid | src/router/routing_core.cpp:51-58 | a chain through grid points stays on the grid, whichever bends the draws choose |
| RoutingCore.PlaceableDims | src/router/routing_core.cpp:56 | whether paths can be placed depends on the grid's dimensions alone |
| RoutingCore.Decompose | src/router/routing_core.cpp:35-59 | a net with fewer than two pins only loses its two-pins; any other gets one kept tile per distinct `(x, y)` pair and a chain joining consecutive kept tiles |
| RoutingCore.DecomposeOnGrid | src/router/routing_core.cpp:35-59 | a net whose pins fall in tiles of the grid can be placed |
| RoutingCore.AddedStep | src/router/routing_core.cpp:56 | placing the next link succeeds exactly when every entry of its path is a grid edge, and extends the demand added so far; a failure means the chain cannot be placed |
| RoutingCore.PlaceChain | src/router/routing_core.cpp:51-58 | the inner loop succeeds exactly when every entry of the chain's paths is a grid edge, and then adds exactly the chain's demand |
| RoutingCore.PrerouteNet | src/router/routing_core.cpp:35-59 | one net succeeds exactly when it divides by the tile sizes and every entry of its chain is a grid edge, yields the decomposed net and adds exactly its demand |
| RoutingCore.RoutedStep | src/router/routing_core.cpp:56-57 | adding a net's demand to a grid in agreement with the nets keeps the agreement with the longer list |
| RoutingCore.FreshRouted | src/router/routing_core.cpp:32 | the costed capacity grid agrees with an empty list of nets |
| RoutingCore.NetUnplaceable | src/router/routing_core.cpp:35-59 | a net that cannot be decomposed or placed makes the whole data unplaceable |
| RoutingCore.NetPlaced | src/router/routing_core.cpp:35-59 | placing the next net extends every fact the loop keeps |
| RoutingCore.Preroute | src/router/routing_core.cpp:11-60 | `preroute` succeeds exactly when the capacity grid builds and every net decomposes into paths of grid edges; it then decomposes every net in order, changes the grid in demands only, and leaves demand in agreement with the nets' load |
| Draw.ReadChar | src/tools/draw.cpp:33 | `>> c` skips white space and takes one non-space character, failing only when nothing but white space is left |
| Draw.SepInt | src/tools/draw.cpp:33 | one separator and an integer consume input |
| Draw.ReadTriple | src/tools/draw.cpp:33 | a bracketed triple consumes input |
| Draw.ReadCharHead | src/tools/draw.cpp:33 | a non-space character at the head is the one read |
| Draw.SepIntText | src/tools/draw.cpp:33 | a separator followed by a 32-bit integer's text reads back that integer |
| Draw.ReadTripleText | src/tools/draw.cpp:33 | a triple of 32-bit integers written with any separators reads back |
| Draw.ReadSecondText | src/tools/draw.cpp:34-35 | the dash and the second triple read back |
| Draw.ReadLast | src/tools/draw.cpp:35 | the second triple is read as `ReadTriple` reads it when that succeeds, and its last coordinate is whatever that read stores |
| Draw.ReadLastText | src/tools/draw.cpp:35 | two printed coordinates and any text for the third read back as those two and the value stored for the third |
| Draw.ParseSegmentText | src/tools/draw.cpp:28-37 | `parse_segment` reads back any segment of 32-bit coordinates written with any non-space, non-digit separators |
| Draw.ParseSegmentPlain | src/tools/draw.cpp:28-37 | `parse_segment` reads back `(x1,y1,z1)-(x2,y2,z2)` |
| Draw.ParseSegment | src/tools/draw.cpp:28-37 | every coordinate `parse_segment` returns lies in the 32-bit range, a clamped last coordinate included |
| Draw.ParseSegmentLast | src/tools/draw.cpp:28-37 | the last coordinate of a line is whatever its read stores, so a non-number there gives 0 and a too-large number `INT_MIN` or `INT_MAX`; only a blank last coordinate fails |
| Draw.Avg | src/tools/draw.cpp:140-144 | `avg` is the mean truncated toward zero, with the sign of the sum, and 0 for an empty list |
| Draw.MinNet | src/tools/draw.cpp:145-146 | `min_net` is the sum of the two means, raised to 1 when that is not positive |
| Draw.SlotSet | src/tools/draw.cpp:149-150 | the slots the two arrays hold are exactly those in their bounds |
| Draw.ParsedShaped | src/tools/draw.cpp:131-160 | every record `parse_ispd_file` returns, a negative layer count included, has the capacity lists the drawer indexes |
| Draw.InitBoard | src/tools/draw.cpp:149-160 | the arrays exist exactly when both grid counts are positive and the layer count is not negative, and every slot then holds its layer's capacity in units of `min_net`, with no demand |
| Draw.AdjustBoard | src/tools/draw.cpp:162-179 | a skipped adjustment changes nothing; otherwise it succeeds exactly when the named slot exists and then lowers only that slot's capacity by the cut |
| Draw.AdjustBoardAll | src/tools/draw.cpp:162-179 | the adjustments in order keep the arrays' shape and fail only on a slot outside the arrays |
| Draw.AdjustBoardAllCells | src/tools/draw.cpp:162-179 | the adjustments succeed exactly when every slot they name exists, and each slot's capacity then drops by the cuts of all adjustments naming it |
| Draw.Bump | src/tools/draw.cpp:215 | `demand++` raises one slot's demand and changes nothing else |
| Draw.Run | src/tools/draw.cpp:212-225 | the inner loop adds one demand to each position of the run that the arrays hold, skips the rest, and changes nothing else |
| Draw.RunCount | src/tools/draw.cpp:213-225 | the count grows by at most the run's length, by exactly that when every position is held, and not at all when none is |
| Draw.AddTiles | src/tools/draw.cpp:204-226 | one segment keeps the arrays' shape and the net count |
| Draw.SpansRow | src/tools/draw.cpp:210-217 | a horizontal wire runs along exactly the slots of its row between its ends |
| Draw.SpansColumn | src/tools/draw.cpp:218-225 | a vertical wire runs along exactly the slots of its column between its ends |
| Draw.AddTilesCells | src/tools/draw.cpp:204-226 | a wire adds one demand to exactly the held slots it runs along; a via only counts |
| Draw.AddSegment | src/tools/draw.cpp:197-226 | a segment line goes through exactly when `parse_segment` stores all six coordinates and the tile sizes are not 0 |
| Draw.AddLines | src/tools/draw.cpp:194-227 | the lines in order keep the arrays' shape and the net count, and fail only on a line whose coordinates are not all stored or on a zero tile size |
| Draw.AddLinesOk | src/tools/draw.cpp:194-227 | the lines go through exactly when every one has all six coordinates stored and the tile sizes are not 0 |
| Draw.AddLinesCells | src/tools/draw.cpp:194-227 | every slot gains the number of segments running along it and keeps its capacity |
| Draw.LineLen | src/tools/draw.cpp:194 | the length found ends at the first newline or at the end of the text |
| Draw.GetLine | src/tools/draw.cpp:194 | `getline` consumes input |
| Draw.Body | src/tools/draw.cpp:194-196 | the lines kept for a net are neither empty nor the terminator |
| Draw.LineLenOf | src/tools/draw.cpp:194 | a line without newlines followed by one has its own length |
| Draw.GetLineOf | src/tools/draw.cpp:194 | `getline` gives back a line written with its newline |
| Draw.BodyText | src/tools/draw.cpp:194-196 | the `getline` loop reads back the lines of a net up to its `!` |
| Draw.OutNets | src/tools/draw.cpp:188-193 | the reader takes no more nets than there are characters, since every net header consumes input |
| Draw.OutNetsGood | src/tools/draw.cpp:194-196 | every line the reader keeps for a net is a non-empty single line other than `!` |
| Draw.OutNetsHead | src/tools/draw.cpp:188-193 | the reader takes the first net's header and lines off the text |
| Draw.OutNetsText | src/tools/draw.cpp:188-228 | the reader gives back the segment lines of every net the router wrote |
| Draw.Image | src/tools/draw.cpp:234-236 | the picture has `2Y - 1` rows of `2X - 1` pixels |
| Draw.EdgePixels | src/tools/draw.cpp:237-278 | every edge has its own pixel showing its demand and capacity summed over the layers, and every grid node its own node pixel, the y axis pointing up |
| Draw.EdgePixel | src/tools/draw.cpp:247-272 | the pixel of an edge shows its layer sums |
| Draw.Pixel | src/tools/draw.cpp:237-278 | every pixel is a node, a horizontal or vertical edge, or a filler, and nodes and fillers carry no demand or capacity |
| Draw.PixelKinds | src/tools/draw.cpp:237-278 | every pixel is a node, an edge or a filler according to the parity of its row and column, and an edge pixel shows its edge's sums |
| Draw.Color | src/tools/draw.cpp:69-104 | only an edge with capacity and demand takes the utilisation gradient, given by its demand and capacity; everything else is a grey level |
| Draw.ViaShade | src/tools/draw.cpp:100-103 | more vias never make a node lighter, and ten or more give black |
| Draw.ImageColours | src/tools/draw.cpp:69-104 | fillers are black, nodes light grey, and an edge pixel black, dark grey or the gradient according to its capacity and demand |
| Draw.PpmHeaderBack | src/tools/draw.cpp:68 | the header reads back as `P3`, the width, the height and 255 |
| Draw.Ppm | src/tools/draw.cpp:60-116 | `write_ppm`'s text starts with a header that reads back as `P3`, the picture's width and height, and 255 |
| Draw.CongestionMap | src/tools/draw.cpp:129-280 | the picture has `2Y - 1` rows of `2X - 1` pixels, one net is counted per net header, a grid count below 1 or a negative layer count fails as the vector constructors do, and the other failures are a slot outside the arrays, a segment line with an unset coordinate and the division by a zero tile size |
| Draw.LayerSumExpected | src/tools/draw.cpp:251-254 | the layer sums of an edge are the capacities less the cuts and the segments covering it |
| Draw.FinalBoard | src/tools/draw.cpp:149-227 | the painted arrays hold every slot's capacity less its cuts and its covering segments as demand |
| Draw.CongestionMapEdge | src/tools/draw.cpp:129-280 | every edge pixel of the finished picture shows, summed over the layers, the capacity less the cuts and the number of segments along that edge |
| Api.Init | src/api/vlsigr.cpp:21-25 | `init` takes the record; the router is loaded, its results point at that record, and settings and metrics are kept |
| Api.Results | src/api/vlsigr.hpp:42 | `getResults().data` points at a record exactly when the router's results are set, and then at the router's own record |
| Api.Load | src/api/vlsigr.cpp:15-19 | loading fails when the file cannot be opened or does not parse, with the parser's message, leaving the router as it was; otherwise the router is loaded with the parsed record, which its results point at |
| Api.Cleanup | src/api/vlsigr.cpp:39-44 | `cleanup` empties the record, unloads, nulls the results and resets every metric to its default, keeping the settings |
| Api.SetMode | src/api/vlsigr.cpp:27-29 | the setter changes the mode and nothing else |
| Api.EnableAdaptiveScoring | src/api/vlsigr.cpp:31-33 | the setter changes the adaptive-scoring switch and nothing else |
| Api.EnableHumOptimization | src/api/vlsigr.cpp:35-37 | the setter changes the HUM switch and nothing else |
| Api.CleanupIsFresh | src/api/vlsigr.cpp:39-44 | a reset router is a fresh one with the caller's settings, and resetting twice is resetting once |
| Api.Flagged | src/api/vlsigr.cpp:85 | no more two-pins are counted than there are |
| Api.PathEdges | src/api/vlsigr.cpp:83-84 | the path edges of a net are at least those of each of its two-pins |
| Api.Wirelength | src/api/vlsigr.cpp:80-88 | the wirelength is at least the path edges of each net |
| Api.OverflowCount | src/api/vlsigr.cpp:80-90 | no more two-pins are counted as overflowing than there are two-pins |
| Api.Lightweight | src/api/vlsigr.cpp:79-92 | the two nested loops sum every two-pin's path size and count the flagged two-pins |
| Api.FlaggedNone | src/api/vlsigr.cpp:85 | the count is 0 exactly when no two-pin is flagged |
| Api.OverflowCountNone | src/api/vlsigr.cpp:80-90 | the overflow metric is 0 exactly when no two-pin of any net is flagged, and never exceeds the number of two-pins |
| Api.WirelengthAppend | src/api/vlsigr.cpp:80-88 | the wirelength of two lists of nets together is the sum of their wirelengths |
| Api.WirelengthUnrouted | src/api/vlsigr.cpp:80-88 | nets without any routed path have wirelength 0 |
| Api.PathEdgesUnrouted | src/api/vlsigr.cpp:83-84 | two-pins without paths have no path edges |
| Api.Route | src/api/vlsigr.cpp:46-93 | `route` succeeds exactly when the router is loaded; it then holds the routed record, points its results at it and keeps its settings; with an output path the metrics are the layer assignment's, without one they are the 2D wirelength and flagged count with the rest unknown |
| Api.RouteNeedsLoad | src/api/vlsigr.cpp:47-49 | a fresh or reset router refuses to route, one given a record accepts |
| Api.RouteIgnoresSettings | src/api/vlsigr.cpp:53-55 | routers differing only in their settings route to the same record, results and metrics |
| Api.RouteMetricsClean | src/api/vlsigr.cpp:79-92 | the 2D metrics report no overflow exactly when no two-pin is flagged, and wirelength 0 when no path is routed |
| Api.RouteFile | src/api/vlsigr.cpp:95-100 | `route_ispd_file` reports metrics exactly when the file opens and parses, and they are the routed record's lightweight metrics |
| Api.CompatInit | src/api/vlsigr.cpp:118-121 | the wrapped router is loaded with the record and the wrapper's results point at the caller's record |
| Api.CompatRoute | src/api/vlsigr.cpp:135-139 | the wrapper routes exactly when its router is loaded, then copies the router's metrics and points its results at the routed record |
| Api.CompatCleanup | src/api/vlsigr.cpp:141-145 | the wrapped router and the wrapper's own results and metrics are reset |
| Api.MapSource | src/api/vlsigr.cpp:150-151 | the results' record is drawn when there is one, else the record passed in, and only when both are null is it an error |
| Api.GenerateMap | src/api/vlsigr.cpp:147-156 | the map is drawn from that record with default options writing `out_ppm` at scale 1 |
| Api.GenerateMapWith | src/api/vlsigr.cpp:158-168 | the caller's options are used, with `out_ppm` replacing their own path only when it is not empty |
| Api.MapAfterRoute | src/api/vlsigr.cpp:135-151 | after a route the map shows the routed record whatever record is passed; after a reset it needs the caller's record |

## Left out

- **Integer widths.** `int` arithmetic that could leave the 32-bit range is not modelled as wrapping. This covers the summed layer capacities, demands, the overflow total of `check_overflow`, the summed image demand and capacity, and the `long long` wirelength. Values are unbounded integers instead. The readers do model the 32-bit range of every number they read.
- **Grid counts.** `init` with a negative side wraps around in the `std::size_t` cast. `GridGraph.Init` models that wrap and the resulting `reserve` failure. `RoutingCore.InitGrid` states that failure as `Err(ERR_RESERVE)` and does not model which small vectors a wrapped size might still allocate.
- GridGraph.Init, RoutingCore.InitGrid: `max_size()` is modelled, but running out of memory is not. A grid within `max_size()` that the machine cannot hold makes `reserve` throw `std::bad_alloc` in C++, and the model returns `Ok` for it.
- Draw.InitBoard: running out of memory while the two arrays are built is not modelled. Every vector length the drawer asks for is below its `max_size()`.
- **State after an exception.** When `at`, `reserve` or a division throws part-way through a loop, the C++ object keeps its half-updated grid. The model returns only the error.
- **`std::vector::operator[]` out of range.** The layer index of a capacity adjustment is not checked in C++, so an out-of-range index reads past the vector. That case is modelled as `Err(ERR_LAYER)`.
- **Division by zero.** A zero tile width or height traps in C++. It is modelled as `Err(ERR_DIV)`.
- **Floating point.** Several `double` quantities are abstract in the model:
  - the sigmoid penalty tables of `build_cost_pe` are arbitrary nondecreasing tables of 1024 natural numbers;
  - the history scale `he^3.6 / 100` is an arbitrary function that is monotone for non-negative history;
  - path costs are sums of natural edge costs, or infinite.
  - Only the order of these values is modelled, not their rounding.
- **Draw.Color.** The green-yellow-red utilisation gradient of `write_ppm` is left abstract, as the `Heat` colour of an edge's demand and capacity. Its integer cases are modelled exactly.
- **Randomness.** Every tie-break `randint<int>(0, 1)` is a parameter of the member that draws it. `Utils.CoinCovers` and `Utils.RandIntCoversRange` show that such a parameter ranges over exactly the generator's outcomes. The random generator itself and its seeding are left out.
- **File I/O.** `parse_ispd_file` and `load_ispd_benchmark` take the file's text, or `None` when it cannot be opened. The drawer takes the benchmark record and the routing output's text. `write_map`, the `fopen`/`ofstream` handling, and the `render_from_data` functions of `src/tools/draw_api.hpp` are left out; the last are not part of this model. The drawer's counters are computed but not written to `stderr`.
- **Draw.InitBoard, Draw.AdjustBoard, Draw.CongestionMap.** These require per-layer capacity lists with one entry per layer, and none when the layer count is negative. That is what the checked reader guarantees (`IspdParser.Parse` ensures it). The drawer indexes those lists unchecked.
- Draw.AdjustBoard, Draw.AdjustBoardAll, Draw.AdjustBoardAllCells, Draw.CongestionMap: an adjustment naming a slot outside the arrays is indexed with the unchecked `operator[]` in C++, which is undefined behaviour and reports nothing. The model reports it as `Err(ERR_INDEX)`.
- **Api.Route.** `core.route(data_, false)` is not defined in the shown sources, so it is a function parameter. The elapsed time of the `steady_clock` is an `elapsed` parameter. `run_layer_assignment` is a parameter returning its statistics. `sec_since` itself is left out.
- **Hum.Route, RoutingCore.RouteTwopin, CostModel.GridCost.** The C++ cost functors read the grid through `at`. For a pin outside the grid, `at` may throw or alias another edge. The model reads only grid edges, through the corrected `at` of the finding below, and gives any other entry the blocked cost. Inside the grid the two agree.
- RoutingCore.AddDemand: reads the grid through the corrected `at` of the finding below, so an entry that is not a grid edge fails with `ERR_EDGE`, where the C++ `at` may hit another edge's slot instead. `RoutingCore.AddDemandAtAgrees` shows that the two agree on paths of grid edges.
- RoutingCore.Place: reads the grid through the corrected `at` of the finding below, so an entry that is not a grid edge fails with `ERR_EDGE`, where the C++ `at` may hit another edge's slot instead. `RoutingCore.AddDemandAtAgrees` shows that the two agree on paths of grid edges.
- RoutingCore.Ripup: reads the grid through the corrected `at` of the finding below, so an entry that is not a grid edge fails with `ERR_EDGE`, where the C++ `at` may hit another edge's slot instead. `RoutingCore.AddDemandAtAgrees` shows that the two agree on paths of grid edges.
- RoutingCore.TwopinOverflow: reads the grid through the corrected `at` of the finding below, so an entry that is not a grid edge fails with `ERR_EDGE`, where the C++ `at` may hit another edge's slot instead. `RoutingCore.AddDemandAtAgrees` shows that the two agree on paths of grid edges.
- RoutingCore.Adjust: reads the grid through the corrected `at` of the finding below, so an entry that is not a grid edge fails with `ERR_EDGE`, where the C++ `at` may hit another edge's slot instead. `RoutingCore.AddDemandAtAgrees` shows that the two agree on paths of grid edges.
- RoutingCore.AdjustAll: reads the grid through the corrected `at` of the finding below, so an entry that is not a grid edge fails with `ERR_EDGE`, where the C++ `at` may hit another edge's slot instead. `RoutingCore.AddDemandAtAgrees` shows that the two agree on paths of grid edges.
- RoutingCore.AddedStep: reads the grid through the corrected `at` of the finding below, so an entry that is not a grid edge fails with `ERR_EDGE`, where the C++ `at` may hit another edge's slot instead. `RoutingCore.AddDemandAtAgrees` shows that the two agree on paths of grid edges.
- RoutingCore.PlaceChain: reads the grid through the corrected `at` of the finding below, so an entry that is not a grid edge fails with `ERR_EDGE`, where the C++ `at` may hit another edge's slot instead. `RoutingCore.AddDemandAtAgrees` shows that the two agree on paths of grid edges.
- RoutingCore.PrerouteNet: reads the grid through the corrected `at` of the finding below, so an entry that is not a grid edge fails with `ERR_EDGE`, where the C++ `at` may hit another edge's slot instead. `RoutingCore.AddDemandAtAgrees` shows that the two agree on paths of grid edges.
- RoutingCore.Preroute: reads the grid through the corrected `at` of the finding below, so an entry that is not a grid edge fails with `ERR_EDGE`, where the C++ `at` may hit another edge's slot instead. `RoutingCore.AddDemandAtAgrees` shows that the two agree on paths of grid edges.
- RoutingCore.RerouteNet: reads the grid through the corrected `at` of the finding below, so an entry that is not a grid edge fails with `ERR_EDGE`, where the C++ `at` may hit another edge's slot instead. `RoutingCore.AddDemandAtAgrees` shows that the two agree on paths of grid edges.
- RoutingCore.Revise: reads the grid through the corrected `at` of the finding below, so an entry that is not a grid edge fails with `ERR_EDGE`, where the C++ `at` may hit another edge's slot instead. `RoutingCore.AddDemandAtAgrees` shows that the two agree on paths of grid edges.
- RoutingCore.Reroute: reads the grid through the corrected `at` of the finding below, so an entry that is not a grid edge fails with `ERR_EDGE`, where the C++ `at` may hit another edge's slot instead. `RoutingCore.AddDemandAtAgrees` shows that the two agree on paths of grid edges.
- RoutingCore.RipupPlaceOnce: reads the grid through the corrected `at` of the finding below, so an entry that is not a grid edge fails with `ERR_EDGE`, where the C++ `at` may hit another edge's slot instead. `RoutingCore.AddDemandAtAgrees` shows that the two agree on paths of grid edges.
- Draw.ParseSegment: when a read before the last coordinate of a segment line fails, the C++ leaves the later coordinates uninitialised and draws with whatever they hold. The model reports such a line as `ERR_SEGMENT`. A failed read of the last coordinate is modelled: it stores 0, `INT_MIN` or `INT_MAX`.
- Draw.AddSegment: when a read before the last coordinate of a segment line fails, the C++ leaves the later coordinates uninitialised and draws with whatever they hold. The model reports such a line as `ERR_SEGMENT`. A failed read of the last coordinate is modelled: it stores 0, `INT_MIN` or `INT_MAX`.
- Draw.AddLines: when a read before the last coordinate of a segment line fails, the C++ leaves the later coordinates uninitialised and draws with whatever they hold. The model reports such a line as `ERR_SEGMENT`. A failed read of the last coordinate is modelled: it stores 0, `INT_MIN` or `INT_MAX`.
- Draw.AddLinesOk: when a read before the last coordinate of a segment line fails, the C++ leaves the later coordinates uninitialised and draws with whatever they hold. The model reports such a line as `ERR_SEGMENT`. A failed read of the last coordinate is modelled: it stores 0, `INT_MIN` or `INT_MAX`.
- Draw.CongestionMap: when a read before the last coordinate of a segment line fails, the C++ leaves the later coordinates uninitialised and draws with whatever they hold. The model reports such a line as `ERR_SEGMENT`. A failed read of the last coordinate is modelled: it stores 0, `INT_MIN` or `INT_MAX`.
- **Hum.OverflowCounts.** This counts overflows with the coordinate-checked read, following the corrected `at` of the finding below. A path edge off the grid fails with `ERR_EDGE` instead of counting whatever slot the flat index hits.
- **Hum.Route.** The contract bounds the path cost by both L-shapes and states the shape of the path. It does not claim what `tests/hum_test.cpp` checks, that no edge of the path overflows in one concrete 3 × 3 scenario. That claim depends on the floating-point costs.
- **The reference reader.** `IspdReference.RefParse` returns `Err` when a read fails. The C++ reader then returns a record with indeterminate fields, and that record is not modelled.
- **Concrete parser examples.** The two benchmark snippets in `tests/parser_grid_utils_test.cpp` are not evaluated as concrete strings. They are instances of `IspdText.RenderRoundTrip`, which covers every record written in that layout.
- **Out of scope.** These parts are left out:
  - the Python bindings;
  - the layer assignment;
  - the thread pool;
  - the command-line driver;
  - the routing loop `core.route`, which the shown sources do not define.

## Findings

| source | as written | input that shows it | evidently intended | confidence | as-written member | corrected member |
|---|---|---|---|---|---|---|
| src/router/grid_graph.hpp:18-29 | `at` checks only the flat index against the vector, so an off-grid edge can read another edge's slot | on the 2 × 2 grid, the vertical "edge" (0, 1) has flat index 2, which is the slot of the horizontal edge (0, 0) | an off-grid edge fails, and every grid edge owns its own slot | not executed | GridGraph.AtAliases, RoutingCore.PlaceAliases | GridGraph.Get, RoutingCore.AddDemand |
