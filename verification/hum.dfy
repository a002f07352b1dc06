/** The HUM router (`HUM` in `src/router/hum.cpp`): for a two-pin that is
    new or has been ripped up, the pins' box is widened by up to three
    tracks on one axis, four cost tables are filled from the two pins with
    the same `calcX`/`calcY` sweeps as the pattern routers, the meeting
    point of least combined cost is found, and the path is traced from it
    back to both pins. Any other two-pin falls back to `Monotonic` with
    unit costs. */
module Hum {
  import opened Wrappers
  import opened Utils
  import opened IspdTypes
  import opened Sweep
  import opened Patterns
  import GridGraph
  import opened CostModel
  import Monotonic

  const BASE_EXPAND: int := 3

  // ---- the box ------------------------------------------------------------------

  /** The loop counting overflowed path edges: `(cntV, cntH)`. An edge
      that is not an edge of the grid makes `at` throw. */
  function OverflowCounts(g: GridGraph.Grid<Edge>, path: seq<RPoint>): (r: Result<(nat, nat)>)
    requires GridGraph.Valid(g)
    ensures r.Ok? <==> forall i :: 0 <= i < |path| ==> GridGraph.IsEdge(g, path[i].x, path[i].y, path[i].hori)
    ensures r.Ok? ==> r.value.0 + r.value.1 <= |path|
    ensures r.Err? ==> r.msg == GridGraph.ERR_EDGE
    decreases |path|
  {
    if path == [] then Ok((0, 0))
    else
      var e := GridGraph.Get(g, path[0].x, path[0].y, path[0].hori);
      var rest := OverflowCounts(g, path[1..]);
      if e.Err? then Err(e.msg)
      else if rest.Err? then rest
      else if !Overflow(e.value) then rest
      else if path[0].hori then Ok((rest.value.0, rest.value.1 + 1))
      else Ok((rest.value.0 + 1, rest.value.1))
  }

  /** Both counts are 0 exactly when no path edge overflows, and a count
      is positive exactly when some edge of its orientation does. */
  lemma {:induction false} CountsZero(g: GridGraph.Grid<Edge>, path: seq<RPoint>)
    requires GridGraph.Valid(g) && OverflowCounts(g, path).Ok?
    ensures OverflowCounts(g, path).value.0 == 0 <==> forall i :: 0 <= i < |path| && !path[i].hori ==> !Overflowed(g, path[i])
    ensures OverflowCounts(g, path).value.1 == 0 <==> forall i :: 0 <= i < |path| && path[i].hori ==> !Overflowed(g, path[i])
    decreases |path|
  {
    if path != [] {
      CountsZero(g, path[1..]);
      assert forall i :: 0 < i < |path| ==> path[i] == path[1..][i - 1];
    }
  }

  /** `expandH`: more vertical than horizontal overflow widens the box,
      a tie goes by the parity of `reroute`; a box as wide as the grid is
      heightened instead, and a box as tall as the grid is widened
      whatever else holds. */
  function ExpandH(cntV: nat, cntH: nat, reroute: int, b: Box, width: int, height: int): (r: bool)
    ensures b.U - b.B + 1 >= height ==> r
    ensures b.U - b.B + 1 < height && b.R - b.L + 1 >= width ==> !r
    ensures b.U - b.B + 1 < height && b.R - b.L + 1 < width ==>
      (r <==> if cntV != cntH then cntV > cntH else reroute % 2 != 0)
  {
    var byCount := if cntV != cntH then cntV > cntH else reroute % 2 != 0;
    var notWide := if b.R - b.L + 1 >= width then false else byCount;
    if b.U - b.B + 1 >= height then true else notWide
  }

  /** Widening moves `L` and `R` out by `BASE_EXPAND`, clamped to the
      grid; heightening does the same to `B` and `U`. */
  function Expand(b: Box, expandH: bool, width: int, height: int): (r: Box)
    ensures expandH ==> r.B == b.B && r.U == b.U
    ensures !expandH ==> r.L == b.L && r.R == b.R
  {
    if expandH then b.(L := Max(0, b.L - BASE_EXPAND), R := Min(width - 1, b.R + BASE_EXPAND))
    else b.(B := Max(0, b.B - BASE_EXPAND), U := Min(height - 1, b.U + BASE_EXPAND))
  }

  /** The box lies in the grid [0, width - 1] × [0, height - 1]. */
  predicate InGrid(b: Box, width: int, height: int) {
    0 <= b.L <= b.R < width && 0 <= b.B <= b.U < height
  }

  /** A box in the grid stays in the grid, keeps all it covered, and moves
      each side of the chosen axis out by at most `BASE_EXPAND`. */
  lemma ExpandBounds(b: Box, expandH: bool, width: int, height: int)
    requires InGrid(b, width, height)
    ensures var r := Expand(b, expandH, width, height);
      && InGrid(r, width, height)
      && r.L <= b.L && b.R <= r.R && r.B <= b.B && b.U <= r.U
      && b.L - r.L <= BASE_EXPAND && r.R - b.R <= BASE_EXPAND
      && b.B - r.B <= BASE_EXPAND && r.U - b.U <= BASE_EXPAND
  {
  }

  /** The axis choice never stalls: until the box is the whole grid, the
      expansion moves at least one side. */
  lemma ExpandProgress(cntV: nat, cntH: nat, reroute: int, b: Box, width: int, height: int)
    requires InGrid(b, width, height)
    requires b != Box(0, width - 1, 0, height - 1)
    ensures Expand(b, ExpandH(cntV, cntH, reroute, b, width, height), width, height) != b
  {
  }

  /** The box `HUM` searches: the pins' box expanded after counting the
      overflowed edges of the current path. */
  function HumBox(tp: TwoPin, g: GridGraph.Grid<Edge>, width: int, height: int): (r: Result<Box>)
    requires GridGraph.Valid(g)
    ensures r.Ok? <==> OverflowCounts(g, tp.path).Ok?
  {
    var counts :- OverflowCounts(g, tp.path);
    var b := BoxOf(tp.from, tp.to);
    Ok(Expand(b, ExpandH(counts.0, counts.1, tp.reroute, b, width, height), width, height))
  }

  /** With both pins in the grid, the searched box holds both pins, lies
      in the grid, and differs from the pins' box on one axis only. */
  lemma HumBoxFits(tp: TwoPin, g: GridGraph.Grid<Edge>, width: int, height: int)
    requires GridGraph.Valid(g) && HumBox(tp, g, width, height).Ok?
    requires 0 <= tp.from.x < width && 0 <= tp.to.x < width
    requires 0 <= tp.from.y < height && 0 <= tp.to.y < height
    ensures var b := HumBox(tp, g, width, height).value;
      && InGrid(b, width, height)
      && InBox(b, (tp.from.x, tp.from.y)) && InBox(b, (tp.to.x, tp.to.y))
      && ((b.L == Min(tp.from.x, tp.to.x) && b.R == Max(tp.from.x, tp.to.x)) ||
          (b.B == Min(tp.from.y, tp.to.y) && b.U == Max(tp.from.y, tp.to.y)))
  {
    var counts := OverflowCounts(g, tp.path).value;
    var b0 := BoxOf(tp.from, tp.to);
    ExpandBounds(b0, ExpandH(counts.0, counts.1, tp.reroute, b0, width, height), width, height);
  }

  // ---- the four tables ------------------------------------------------------------

  /** The positions along a line of orientation `hori` (`x` for a row). */
  function Lo(b: Box, hori: bool): int { if hori then b.L else b.B }
  function Hi(b: Box, hori: bool): int { if hori then b.R else b.U }

  /** The range of the fixed coordinate of such lines. */
  function FLo(b: Box, hori: bool): int { if hori then b.B else b.L }
  function FHi(b: Box, hori: bool): int { if hori then b.U else b.R }

  /** The fixed coordinate of the line through `p`: its `y` for a row. */
  function Fixed(hori: bool, p: Cell): int { if hori then p.1 else p.0 }

  /** The cost of the straight run between positions `a` and `k` of a
      line. */
  function RunCost(cost: CostFn, hori: bool, fixed: int, a: int, k: int): nat {
    SegmentCost(cost, hori, fixed, Min(a, k), Max(a, k))
  }

  /** A table filled from pin `p` by sweeps of orientation `hori` (`CostVF`
      and `CostVT` sweep rows, `CostHF` and `CostHT` columns): linked and
      accounted towards `p`; finite only on the pin's own line, and there no
      dearer than the straight run from the pin. */
  ghost predicate Pinned(bc: BoxCost, box: Box, p: Cell, hori: bool, cost: CostFn) {
    && Valid(bc) && bc.box == box
    && Linked(bc, p) && Accounted(bc, cost)
    && (forall c :: At(bc, c).cost.Fin? ==> InBox(box, c) && OnLine(hori, Fixed(hori, p), c))
    && (forall k :: Lo(box, hori) <= k <= Hi(box, hori) ==>
          Le(At(bc, LineCell(hori, Fixed(hori, p), k)).cost, Fin(RunCost(cost, hori, Fixed(hori, p), Pos(hori, p), k))))
  }

  /** Every point after the first, walking in direction `d`, is no dearer
      than its predecessor plus the edge between them. */
  ghost predicate Relaxed(bc: BoxCost, hori: bool, fixed: int, b: int, e: int, d: int, cost: CostFn) {
    forall k {:trigger After(b, e, d, k)} :: After(b, e, d, k) ==>
      Le(At(bc, LineCell(hori, fixed, k)).cost,
         Plus(At(bc, LineCell(hori, fixed, k - d)).cost, EdgeCost(cost, LineEdge(hori, fixed, k - d, k))))
  }

  /** Every sweep leaves its line relaxed. */
  lemma SweepLineRelaxed(bc: BoxCost, l: Line, cost: CostFn)
    requires Valid(bc) && Fits(bc.box, l)
    ensures Relaxed(SweepLine(bc, l, cost), l.hori, l.fixed, l.b, l.e, Sign(l.e - l.b), cost)
  {
    var d := Sign(l.e - l.b);
    if d != 0 {
      forall k | After(l.b, l.e, d, k)
        ensures Le(At(SweepLine(bc, l, cost), LineCell(l.hori, l.fixed, k)).cost,
                   Plus(At(SweepLine(bc, l, cost), LineCell(l.hori, l.fixed, k - d)).cost,
                        EdgeCost(cost, LineEdge(l.hori, l.fixed, k - d, k))))
      {
        SweepFromRelaxes(bc, l.hori, l.fixed, l.b, l.e, d, At(bc, LineCell(l.hori, l.fixed, l.b)).cost, cost, k);
      }
    }
  }

  /** A sweep over a line whose points are all at infinite cost, the first
      included, changes nothing: every candidate cost is infinite too. */
  lemma SweepLineInf(bc: BoxCost, l: Line, cost: CostFn)
    requires Valid(bc) && Fits(bc.box, l)
    requires forall k :: Min(l.b, l.e) <= k <= Max(l.b, l.e) ==> At(bc, LineCell(l.hori, l.fixed, k)).cost.Inf?
    ensures SweepLine(bc, l, cost) == bc
  {
    var d := Sign(l.e - l.b);
    if d != 0 {
      assert At(bc, LineCell(l.hori, l.fixed, l.b)).cost == Inf;
      SweepFromInf(bc, l.hori, l.fixed, l.b, l.e, d, cost);
    }
  }

  lemma {:induction false} SegmentCostSnoc(cost: CostFn, hori: bool, fixed: int, lo: int, hi: int)
    requires lo < hi
    ensures SegmentCost(cost, hori, fixed, lo, hi) ==
      SegmentCost(cost, hori, fixed, lo, hi - 1) + EdgeCost(cost, LineEdge(hori, fixed, hi - 1, hi))
    decreases hi - lo
  {
    if lo < hi - 1 {
      SegmentCostSnoc(cost, hori, fixed, lo + 1, hi);
    }
  }

  /** Relaxed upwards from a pin at cost 0: each point up the line is no
      dearer than the run from the pin. */
  lemma {:induction false} UpBound(bc: BoxCost, hori: bool, fixed: int, lo: int, hi: int, pk: int, cost: CostFn, k: int)
    requires Relaxed(bc, hori, fixed, lo, hi, 1, cost)
    requires lo <= pk <= k <= hi && Le(At(bc, LineCell(hori, fixed, pk)).cost, Fin(0))
    ensures Le(At(bc, LineCell(hori, fixed, k)).cost, Fin(SegmentCost(cost, hori, fixed, pk, k)))
    decreases k - pk
  {
    if k > pk {
      UpBound(bc, hori, fixed, lo, hi, pk, cost, k - 1);
      assert After(lo, hi, 1, k);
      SegmentCostSnoc(cost, hori, fixed, pk, k);
    }
  }

  /** The same downwards. */
  lemma {:induction false} DownBound(bc: BoxCost, hori: bool, fixed: int, lo: int, hi: int, pk: int, cost: CostFn, k: int)
    requires Relaxed(bc, hori, fixed, hi, lo, -1, cost)
    requires lo <= k <= pk <= hi && Le(At(bc, LineCell(hori, fixed, pk)).cost, Fin(0))
    ensures Le(At(bc, LineCell(hori, fixed, k)).cost, Fin(SegmentCost(cost, hori, fixed, k, pk)))
    decreases pk - k
  {
    if k < pk {
      DownBound(bc, hori, fixed, lo, hi, pk, cost, k + 1);
      assert After(hi, lo, -1, k);
    }
  }

  /** After the two sweeps of the pin's line, first away from `lo` and
      then back from `hi`, every point of the line is bounded by its run
      from the pin. */
  lemma PinLineBound(b1: BoxCost, b2: BoxCost, hori: bool, fixed: int, lo: int, hi: int, pk: int, cost: CostFn)
    requires Relaxed(b1, hori, fixed, lo, hi, Sign(hi - lo), cost) && Relaxed(b2, hori, fixed, hi, lo, Sign(lo - hi), cost)
    requires lo <= pk <= hi && Le(At(b1, LineCell(hori, fixed, pk)).cost, Fin(0))
    requires forall c :: Le(At(b2, c).cost, At(b1, c).cost)
    ensures forall k :: lo <= k <= hi ==>
      Le(At(b2, LineCell(hori, fixed, k)).cost, Fin(RunCost(cost, hori, fixed, pk, k)))
  {
    assert Le(At(b2, LineCell(hori, fixed, pk)).cost, Fin(0));
    forall k | lo <= k <= hi
      ensures Le(At(b2, LineCell(hori, fixed, k)).cost, Fin(RunCost(cost, hori, fixed, pk, k)))
    {
      if k >= pk {
        if lo < hi {
          UpBound(b1, hori, fixed, lo, hi, pk, cost, k);
        }
        assert Le(At(b2, LineCell(hori, fixed, k)).cost, At(b1, LineCell(hori, fixed, k)).cost);
      } else {
        DownBound(b2, hori, fixed, lo, hi, pk, cost, k);
      }
    }
  }

  /** The two sweeps of the pin's line keep the start's links and touch
      nothing off that line. */
  lemma PinLineSound(box: Box, p: Cell, hori: bool, cost: CostFn)
    requires Proper(box) && InBox(box, p)
    ensures var l1 := Line(hori, Fixed(hori, p), Lo(box, hori), Hi(box, hori));
      var l2 := Line(hori, Fixed(hori, p), Hi(box, hori), Lo(box, hori));
      var b1 := SweepLine(Start(box, p), l1, cost);
      var b2 := SweepLine(b1, l2, cost);
      && Linked(b2, p) && Accounted(b2, cost)
      && (forall c :: !OnLine(hori, Fixed(hori, p), c) ==> At(b2, c).cost.Inf?)
  {
    var l1 := Line(hori, Fixed(hori, p), Lo(box, hori), Hi(box, hori));
    var l2 := Line(hori, Fixed(hori, p), Hi(box, hori), Lo(box, hori));
    var b0 := Start(box, p);
    var b1 := SweepLine(b0, l1, cost);
    var b2 := SweepLine(b1, l2, cost);
    StartSound(box, p, cost);
    SweepLineSound(b0, l1, cost, p);
    SweepLineSound(b1, l2, cost, p);
    forall c | !OnLine(hori, Fixed(hori, p), c)
      ensures At(b2, c).cost.Inf?
    {
      SweepLineFrame(b0, l1, cost, c);
      SweepLineFrame(b1, l2, cost, c);
    }
  }

  /** The same two sweeps relax the line both ways, starting from the pin
      at cost 0, and only lower costs. */
  lemma PinLineRelaxed(box: Box, p: Cell, hori: bool, cost: CostFn)
    requires Proper(box) && InBox(box, p)
    ensures var fixed, lo, hi := Fixed(hori, p), Lo(box, hori), Hi(box, hori);
      var b1 := SweepLine(Start(box, p), Line(hori, fixed, lo, hi), cost);
      var b2 := SweepLine(b1, Line(hori, fixed, hi, lo), cost);
      && Relaxed(b1, hori, fixed, lo, hi, Sign(hi - lo), cost) && Relaxed(b2, hori, fixed, hi, lo, Sign(lo - hi), cost)
      && Le(At(b1, LineCell(hori, fixed, Pos(hori, p))).cost, Fin(0))
      && (forall c :: Le(At(b2, c).cost, At(b1, c).cost))
  {
    var fixed, lo, hi := Fixed(hori, p), Lo(box, hori), Hi(box, hori);
    var b0 := Start(box, p);
    var l1 := Line(hori, fixed, lo, hi);
    var b1 := SweepLine(b0, l1, cost);
    SweepLineRelaxed(b0, l1, cost);
    SweepLineRelaxed(b1, Line(hori, fixed, hi, lo), cost);
    assert LineCell(hori, fixed, Pos(hori, p)) == p;
    SweepLineLowers(b0, l1, cost, p);
    forall c
      ensures Le(At(SweepLine(b1, Line(hori, fixed, hi, lo), cost), c).cost, At(b1, c).cost)
    {
      SweepLineLowers(b1, Line(hori, fixed, hi, lo), cost, c);
    }
  }

  /** A table in which only the pin's line is finite: sweeping any other
      line changes nothing. */
  lemma OffLine(bc: BoxCost, box: Box, p: Cell, hori: bool, cost: CostFn, q: int)
    requires Pinned(bc, box, p, hori, cost)
    requires FLo(box, hori) <= q <= FHi(box, hori) && q != Fixed(hori, p)
    ensures Fits(bc.box, Line(hori, q, Lo(box, hori), Hi(box, hori)))
    ensures SweepLine(bc, Line(hori, q, Lo(box, hori), Hi(box, hori)), cost) == bc
  {
    var l := Line(hori, q, Lo(box, hori), Hi(box, hori));
    forall k | Min(l.b, l.e) <= k <= Max(l.b, l.e)
      ensures At(bc, LineCell(hori, q, k)).cost.Inf?
    {
      assert !OnLine(hori, Fixed(hori, p), LineCell(hori, q, k));
    }
    SweepLineInf(bc, l, cost);
  }

  /** One table of `HUM`: `box(p) = 0`, `calcX` over the pin's row from `L`
      to `R` and back, then over every row above it and every row below it
      (`calcY` over columns when `!hori`). The sweeps of the other lines
      start from infinite points and find only infinite points, so only the
      pin's line gets finite costs. */
  method PinTable(box: Box, p: Cell, hori: bool, cost: CostFn) returns (bc: BoxCost)
    requires Proper(box) && InBox(box, p)
    ensures Pinned(bc, box, p, hori, cost)
  {
    var fixed, lo, hi := Fixed(hori, p), Lo(box, hori), Hi(box, hori);
    var b1 := SweepLine(Start(box, p), Line(hori, fixed, lo, hi), cost);
    var b2 := SweepLine(b1, Line(hori, fixed, hi, lo), cost);
    PinLinePinned(box, p, hori, cost);
    var b3 := SweepAbove(b2, box, p, hori, cost);
    bc := SweepBelow(b3, box, p, hori, cost);
  }

  /** The two sweeps of the pin's line leave the table pinned. */
  lemma PinLinePinned(box: Box, p: Cell, hori: bool, cost: CostFn)
    requires Proper(box) && InBox(box, p)
    ensures var fixed, lo, hi := Fixed(hori, p), Lo(box, hori), Hi(box, hori);
      var b1 := SweepLine(Start(box, p), Line(hori, fixed, lo, hi), cost);
      Pinned(SweepLine(b1, Line(hori, fixed, hi, lo), cost), box, p, hori, cost)
  {
    var fixed, lo, hi := Fixed(hori, p), Lo(box, hori), Hi(box, hori);
    var b1 := SweepLine(Start(box, p), Line(hori, fixed, lo, hi), cost);
    var b2 := SweepLine(b1, Line(hori, fixed, hi, lo), cost);
    PinLineSound(box, p, hori, cost);
    PinLineRelaxed(box, p, hori, cost);
    PinLineBound(b1, b2, hori, fixed, lo, hi, Pos(hori, p), cost);
  }

  /** The sweeps of the lines after the pin's line, which keep the table. */
  method SweepAbove(b0: BoxCost, box: Box, p: Cell, hori: bool, cost: CostFn) returns (bc: BoxCost)
    requires InBox(box, p) && Pinned(b0, box, p, hori, cost)
    ensures Pinned(bc, box, p, hori, cost)
  {
    bc := b0;
    var q := Fixed(hori, p) + 1;
    while q <= FHi(box, hori)
      invariant Fixed(hori, p) + 1 <= q <= FHi(box, hori) + 1
      invariant Pinned(bc, box, p, hori, cost)
    {
      OffLine(bc, box, p, hori, cost, q);
      bc := SweepLine(bc, Line(hori, q, Lo(box, hori), Hi(box, hori)), cost);
      q := q + 1;
    }
  }

  /** The sweeps of the lines before the pin's line, which keep the table. */
  method SweepBelow(b0: BoxCost, box: Box, p: Cell, hori: bool, cost: CostFn) returns (bc: BoxCost)
    requires InBox(box, p) && Pinned(b0, box, p, hori, cost)
    ensures Pinned(bc, box, p, hori, cost)
  {
    bc := b0;
    var q := Fixed(hori, p) - 1;
    while q >= FLo(box, hori)
      invariant FLo(box, hori) - 1 <= q <= Fixed(hori, p) - 1
      invariant Pinned(bc, box, p, hori, cost)
    {
      OffLine(bc, box, p, hori, cost, q);
      bc := SweepLine(bc, Line(hori, q, Lo(box, hori), Hi(box, hori)), cost);
      q := q - 1;
    }
  }

  // ---- the meeting point --------------------------------------------------------

  /** The sum of two `double` costs. */
  function Add(a: Cost, b: Cost): (r: Cost)
    ensures r.Fin? <==> a.Fin? && b.Fin?
    ensures r.Fin? ==> r.n == a.n + b.n
  {
    if a.Fin? && b.Fin? then Fin(a.n + b.n) else Inf
  }

  /** The scan order of the search: by `x`, then by `y`. */
  predicate Before(a: Cell, b: Cell) {
    a.0 < b.0 || (a.0 == b.0 && a.1 < b.1)
  }

  /** `m` is the first point of the box, in scan order, of least cost. */
  ghost predicate FirstMin(box: Box, c: Cell -> Cost, m: Cell) {
    && InBox(box, m)
    && (forall q :: InBox(box, q) ==> Le(c(m), c(q)))
    && (forall q :: InBox(box, q) && Before(q, m) ==> Lt(c(m), c(q)))
  }

  /** At most one point is the first of least cost. */
  lemma FirstMinUnique(box: Box, c: Cell -> Cost, m1: Cell, m2: Cell)
    requires FirstMin(box, c, m1) && FirstMin(box, c, m2)
    ensures m1 == m2
  {
    if m1 != m2 {
    }
  }

  /** The search loops: start at `(L, B)`, then over `x` from `L` to `R`
      and `y` from `B` to `U`, moving only on a strictly smaller cost. */
  method Meet(box: Box, c: Cell -> Cost) returns (m: Cell)
    requires Proper(box)
    ensures FirstMin(box, c, m)
  {
    m := (box.L, box.B);
    var mc := c(m);
    var x := box.L;
    while x <= box.R
      invariant box.L <= x <= box.R + 1
      invariant InBox(box, m) && mc == c(m)
      invariant forall q :: InBox(box, q) && q.0 < x ==> Le(mc, c(q))
      invariant forall q :: InBox(box, q) && Before(q, m) ==> Lt(mc, c(q))
    {
      var y := box.B;
      while y <= box.U
        invariant box.B <= y <= box.U + 1
        invariant InBox(box, m) && mc == c(m)
        invariant forall q :: InBox(box, q) && (q.0 < x || (q.0 == x && q.1 < y)) ==> Le(mc, c(q))
        invariant forall q :: InBox(box, q) && Before(q, m) ==> Lt(mc, c(q))
      {
        var cq := c((x, y));
        if Lt(cq, mc) {
          mc := cq;
          m := (x, y);
        }
        y := y + 1;
      }
      x := x + 1;
    }
  }

  /** `cF(x, y) + cT(x, y)`: the cheaper table from each pin. */
  function Both(vf: BoxCost, hf: BoxCost, vt: BoxCost, ht: BoxCost, c: Cell): Cost {
    Add(MinCost(At(vf, c).cost, At(hf, c).cost), MinCost(At(vt, c).cost, At(ht, c).cost))
  }

  // ---- the traced path ----------------------------------------------------------

  /** Walking along `path` from `a`: each edge must touch the current point,
      and leads on to its other end. */
  function Follow(a: Cell, path: seq<RPoint>): Option<Cell>
    decreases |path|
  {
    if path == [] then Some(a)
    else
      var ends := Ends(path[0]);
      if ends.0 == a then Follow(ends.1, path[1..])
      else if ends.1 == a then Follow(ends.0, path[1..])
      else None
  }

  /** A path made of a run from `m` to `f` followed by a run from `m` to
      `t`. */
  ghost predicate Splits(path: seq<RPoint>, m: Cell, f: Cell, t: Cell) {
    exists k :: 0 <= k <= |path| && Follow(m, path[..k]) == Some(f) && Follow(m, path[k..]) == Some(t)
  }

  /** Following a trace from its start ends where the walk ends. */
  lemma {:induction false} WalkFollows(bc: BoxCost, p: Cell, fuel: nat)
    ensures Follow(p, Trace(bc, p, fuel)) == Some(Walk(bc, p, fuel)[|Walk(bc, p, fuel)| - 1])
    decreases fuel
  {
    if fuel > 0 && At(bc, p).from.Some? && Adjacent(At(bc, p).from.value, p) {
      var q := At(bc, p).from.value;
      UnitEdgeEnds(q, p);
      WalkFollows(bc, q, fuel - 1);
      var tr := Trace(bc, p, fuel);
      assert tr == [UnitEdge(q, p)] + Trace(bc, q, fuel - 1);
      assert tr[1..] == Trace(bc, q, fuel - 1);
      TraceIsWalk(bc, q, fuel - 1);
    }
  }

  /** Every edge costs something. */
  ghost predicate Positive(cost: CostFn) {
    forall x, y, hori :: cost(x, y, hori) >= 1
  }

  /** The entry of a point reached at finite cost, 0 otherwise. */
  function Rank(bc: BoxCost, c: Cell): nat {
    if At(bc, c).cost.Fin? then At(bc, c).cost.n else 0
  }

  /** Under positive costs every pointer of an accounted table leads to a
      strictly cheaper entry. */
  lemma CostRanked(bc: BoxCost, cost: CostFn)
    requires Accounted(bc, cost) && Positive(cost)
    ensures forall c :: At(bc, c).from.Some? && At(bc, c).cost.Fin? ==> Rank(bc, Prev(bc, c)) < Rank(bc, c)
  {
    forall c | At(bc, c).from.Some? && At(bc, c).cost.Fin?
      ensures Rank(bc, Prev(bc, c)) < Rank(bc, c)
    {
      var u := UnitEdge(Prev(bc, c), c);
      assert cost(u.x, u.y, u.hori) >= 1;
      assert At(bc, Prev(bc, c)).cost.Fin? && At(bc, Prev(bc, c)).cost.n + RCost(cost, u) <= At(bc, c).cost.n;
    }
  }

  /** In a linked, accounted table under positive costs, the trace from a
      point reached at finite cost leads back to the origin and costs no
      more than the point's entry. */
  lemma TraceFollows(bc: BoxCost, p: Cell, o: Cell, cost: CostFn)
    requires Valid(bc) && p in bc.cells && Linked(bc, o) && Accounted(bc, cost) && Positive(cost)
    requires At(bc, p).cost.Fin?
    ensures Follow(p, Trace(bc, p, |bc.cells|)) == Some(o)
    ensures PathCost(cost, Trace(bc, p, |bc.cells|)) <= At(bc, p).cost.n
  {
    CostRanked(bc, cost);
    TraceReaches(bc, p, o, c => Rank(bc, c));
    WalkFollows(bc, p, |bc.cells|);
    TraceCost(bc, p, |bc.cells|, cost);
  }

  /** The point `(x, y)` of a box holding `f` and `t` at the corners of an
      L through them. */
  lemma BendsInBox(box: Box, f: Cell, t: Cell)
    requires InBox(box, f) && InBox(box, t)
    ensures InBox(box, (t.0, f.1)) && InBox(box, (f.0, t.1))
  {
  }

  /** A point on the pin's line costs no more than the straight run to
      it. */
  lemma LineBound(bc: BoxCost, box: Box, p: Cell, hori: bool, cost: CostFn, c: Cell)
    requires Pinned(bc, box, p, hori, cost) && InBox(box, c) && OnLine(hori, Fixed(hori, p), c)
    ensures Le(At(bc, c).cost, Fin(RunCost(cost, hori, Fixed(hori, p), Pos(hori, p), Pos(hori, c))))
  {
    assert LineCell(hori, Fixed(hori, p), Pos(hori, c)) == c;
  }

  /** The cost `eval` finds for each bend, as two straight runs. */
  lemma EvalBends(cost: CostFn, f: Point, t: Point)
    ensures Eval(cost, f, Bend2(f, t), t) == RunCost(cost, true, f.y, f.x, t.x) + RunCost(cost, false, t.x, t.y, f.y)
    ensures Eval(cost, f, Bend1(f, t), t) == RunCost(cost, false, f.x, f.y, t.y) + RunCost(cost, true, t.y, t.x, f.x)
  {
    assert Min(f.x, t.x) == Min(t.x, f.x) && Max(f.x, t.x) == Max(t.x, f.x);
    assert Min(f.y, t.y) == Min(t.y, f.y) && Max(f.y, t.y) == Max(t.y, f.y);
  }

  /** At the bend `(x, y)` of an L-shape, the row table of one pin and the
      column table of the other bound the combined cost by the two runs of
      that L-shape. */
  lemma BendBound(box: Box, rowT: BoxCost, colT: BoxCost, other1: BoxCost, other2: BoxCost,
                  pr: Cell, pc: Cell, cost: CostFn)
    requires InBox(box, (pc.0, pr.1))
    requires Pinned(rowT, box, pr, true, cost) && Pinned(colT, box, pc, false, cost)
    ensures Le(Add(MinCost(At(rowT, (pc.0, pr.1)).cost, At(other1, (pc.0, pr.1)).cost),
                   MinCost(At(other2, (pc.0, pr.1)).cost, At(colT, (pc.0, pr.1)).cost)),
               Fin(RunCost(cost, true, pr.1, pr.0, pc.0) + RunCost(cost, false, pc.0, pc.1, pr.1)))
    ensures Le(Add(MinCost(At(other1, (pc.0, pr.1)).cost, At(colT, (pc.0, pr.1)).cost),
                   MinCost(At(rowT, (pc.0, pr.1)).cost, At(other2, (pc.0, pr.1)).cost)),
               Fin(RunCost(cost, true, pr.1, pr.0, pc.0) + RunCost(cost, false, pc.0, pc.1, pr.1)))
  {
    LineBound(rowT, box, pr, true, cost, (pc.0, pr.1));
    LineBound(colT, box, pc, false, cost, (pc.0, pr.1));
  }

  /** The traces from the meeting point: the table with the cheaper entry
      there (`CostH` on a tie) leads back to its pin, at no more than that
      entry. */
  lemma MeetTrace(box: Box, v: BoxCost, h: BoxCost, p: Cell, m: Cell, cost: CostFn)
    requires Pinned(v, box, p, true, cost) && Pinned(h, box, p, false, cost) && Positive(cost)
    requires InBox(box, m) && MinCost(At(v, m).cost, At(h, m).cost).Fin?
    ensures var bc := if Lt(At(v, m).cost, At(h, m).cost) then v else h;
      && Follow(m, Trace(bc, m, |bc.cells|)) == Some(p)
      && PathCost(cost, Trace(bc, m, |bc.cells|)) <= MinCost(At(v, m).cost, At(h, m).cost).n
  {
    var bc := if Lt(At(v, m).cost, At(h, m).cost) then v else h;
    TraceFollows(bc, m, p, cost);
  }

  /** The meeting point, being of least combined cost in a box that
      holds both bends, costs no more than either L-shape. */
  lemma MeetBound(box: Box, vf: BoxCost, hf: BoxCost, vt: BoxCost, ht: BoxCost, f: Point, t: Point, cost: CostFn, mt: Cell)
    requires InBox(box, (f.x, f.y)) && InBox(box, (t.x, t.y))
    requires Pinned(vf, box, (f.x, f.y), true, cost) && Pinned(hf, box, (f.x, f.y), false, cost)
    requires Pinned(vt, box, (t.x, t.y), true, cost) && Pinned(ht, box, (t.x, t.y), false, cost)
    requires FirstMin(box, c => Both(vf, hf, vt, ht, c), mt)
    ensures Both(vf, hf, vt, ht, mt).Fin?
    ensures Both(vf, hf, vt, ht, mt).n <= Eval(cost, f, Bend1(f, t), t)
    ensures Both(vf, hf, vt, ht, mt).n <= Eval(cost, f, Bend2(f, t), t)
  {
    BendsInBox(box, (f.x, f.y), (t.x, t.y));
    BendBound(box, vf, ht, hf, vt, (f.x, f.y), (t.x, t.y), cost);
    BendBound(box, vt, hf, vf, ht, (t.x, t.y), (f.x, f.y), cost);
    EvalBends(cost, f, t);
    BothBelow(box, vf, hf, vt, ht, mt, (t.x, f.y), Eval(cost, f, Bend2(f, t), t));
    BothBelow(box, vf, hf, vt, ht, mt, (f.x, t.y), Eval(cost, f, Bend1(f, t), t));
  }

  /** The first point of least combined cost costs no more than any
      bound on another point of the box. */
  lemma BothBelow(box: Box, vf: BoxCost, hf: BoxCost, vt: BoxCost, ht: BoxCost, mt: Cell, q: Cell, bound: nat)
    requires FirstMin(box, c => Both(vf, hf, vt, ht, c), mt) && InBox(box, q)
    requires Le(Both(vf, hf, vt, ht, q), Fin(bound))
    ensures Both(vf, hf, vt, ht, mt).Fin? && Both(vf, hf, vt, ht, mt).n <= bound
  {
    assert Le(Both(vf, hf, vt, ht, mt), Both(vf, hf, vt, ht, q));
  }

  /** Putting the two traces together. */
  lemma JoinTraces(m: Cell, f: Cell, t: Cell, pF: seq<RPoint>, pT: seq<RPoint>)
    requires Follow(m, pF) == Some(f) && Follow(m, pT) == Some(t)
    ensures Splits(pF + pT, m, f, t)
  {
    var path := pF + pT;
    assert path[..|pF|] == pF && path[|pF|..] == pT;
  }

  // ---- the router ---------------------------------------------------------------

  /** `HUM(tp, grid, cm, width, height)`. A new or ripped-up two-pin is
      routed in the expanded box under the grid's edge costs: the path
      leaves the meeting point for `from` and then again for `to`, and
      costs no more than either L-shape between the pins. It fails where
      `at` would throw: a counted edge past the end of the edge vector, or
      a pin outside the box (only possible for a pin outside the grid).
      Any other two-pin is rerouted by `Monotonic` with unit costs. */
  method Route(tp: TwoPin, g: GridGraph.Grid<Edge>, m: Model, width: nat, height: nat, coin: (int, int) -> bool)
    returns (r: Result<TwoPin>, ghost meet: Cell)
    requires ValidModel(m) && GridGraph.Valid(g)
    ensures !(tp.reroute > 0 || tp.path == []) ==>
      && r.Ok? && r.value == tp.(path := r.value.path)
      && Monotonic.MonotoneRoute(tp.from, tp.to, r.value.path)
      && |r.value.path| == CAbs(tp.to.x - tp.from.x) + CAbs(tp.to.y - tp.from.y)
    ensures tp.reroute > 0 || tp.path == [] ==>
      (r.Ok? <==> HumBox(tp, g, width, height).Ok?
                  && InBox(HumBox(tp, g, width, height).value, (tp.from.x, tp.from.y))
                  && InBox(HumBox(tp, g, width, height).value, (tp.to.x, tp.to.y)))
    ensures (tp.reroute > 0 || tp.path == []) && r.Ok? ==>
      && r.value == tp.(path := r.value.path)
      && InBox(HumBox(tp, g, width, height).value, meet)
      && Splits(r.value.path, meet, (tp.from.x, tp.from.y), (tp.to.x, tp.to.y))
      && PathCost(GridCost(m, g), r.value.path) <= Eval(GridCost(m, g), tp.from, Bend1(tp.from, tp.to), tp.to)
      && PathCost(GridCost(m, g), r.value.path) <= Eval(GridCost(m, g), tp.from, Bend2(tp.from, tp.to), tp.to)
  {
    meet := (0, 0);
    if tp.reroute > 0 || tp.path == [] {
      var hb := HumBox(tp, g, width, height);
      var f, t := (tp.from.x, tp.from.y), (tp.to.x, tp.to.y);
      if hb.Err? {
        r := Err(hb.msg);
        return;
      }
      var box := hb.value;
      if !InBox(box, f) || !InBox(box, t) {
        r := Err(GridGraph.ERR_RANGE);
        return;
      }
      var cost := GridCost(m, g);
      var vf := PinTable(box, f, true, cost);
      var hf := PinTable(box, f, false, cost);
      var vt := PinTable(box, t, true, cost);
      var ht := PinTable(box, t, false, cost);
      var mt := Meet(box, c => Both(vf, hf, vt, ht, c));
      meet := mt;
      var bF := if Lt(At(vf, mt).cost, At(hf, mt).cost) then vf else hf;
      var bT := if Lt(At(vt, mt).cost, At(ht, mt).cost) then vt else ht;
      var pF := Trace(bF, mt, |bF.cells|);
      var pT := Trace(bT, mt, |bT.cells|);
      r := Ok(tp.(path := pF + pT));
      MeetBound(box, vf, hf, vt, ht, tp.from, tp.to, cost, mt);
      MeetTrace(box, vf, hf, f, mt, cost);
      MeetTrace(box, vt, ht, t, mt, cost);
      JoinTraces(mt, f, t, pF, pT);
      PathCostAppend(cost, pF, pT);
    } else {
      var route := Monotonic.Route(tp, None, coin);
      r := Ok(route);
    }
  }
}
