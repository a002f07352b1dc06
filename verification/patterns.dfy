/** The L-shape and Z-shape pattern routers (`Lshape` and `Zshape` in
    `src/router/patterns.cpp`). Both read edge costs from an optional cost
    functor and write a fresh edge list into the two-pin's path; nothing
    else of the two-pin changes. */
module Patterns {
  import opened Wrappers
  import opened Utils
  import opened IspdTypes
  import opened Sweep

  /** `edge_cost(fn, x, y, hori)`: the functor's cost, 1 when no functor
      is given. */
  function CostOf(fn: Option<CostFn>): (cost: CostFn)
    ensures fn.Some? ==> cost == fn.value
  {
    match fn
    case None => (x: int, y: int, hori: bool) => 1
    case Some(c) => c
  }

  /** Without a functor every edge costs 1, so a path costs its length. */
  lemma {:induction false} UnitPathCost(path: seq<RPoint>)
    ensures PathCost(CostOf(None), path) == |path|
    decreases |path|
  {
    if path != [] {
      UnitPathCost(path[1..]);
    }
  }

  // ---- L-shape ---------------------------------------------------------------

  /** `for (k = lo; k < hi; k++)` over the edges of a row (`hori`, at
      `y = fixed`) or a column (at `x = fixed`), each edge at its lower
      end. */
  function Segment(hori: bool, fixed: int, lo: int, hi: int): seq<RPoint>
    decreases hi - lo
  {
    if lo >= hi then []
    else [if hori then RPoint2(lo, fixed, true) else RPoint2(fixed, lo, false)] + Segment(hori, fixed, lo + 1, hi)
  }

  /** The same loop summing the edge costs into `c`. */
  function SegmentCost(cost: CostFn, hori: bool, fixed: int, lo: int, hi: int): nat
    decreases hi - lo
  {
    if lo >= hi then 0
    else (if hori then cost(lo, fixed, true) else cost(fixed, lo, false)) + SegmentCost(cost, hori, fixed, lo + 1, hi)
  }

  /** A segment from `lo` to `hi` is `hi - lo` unit edges, the `i`-th joining
      the points at `lo + i` and `lo + i + 1` of its line, and costs what the
      summing loop adds up. */
  lemma {:induction false} SegmentFacts(cost: CostFn, hori: bool, fixed: int, lo: int, hi: int)
    requires lo <= hi
    ensures |Segment(hori, fixed, lo, hi)| == hi - lo
    ensures forall i :: 0 <= i < hi - lo ==>
      Segment(hori, fixed, lo, hi)[i] == UnitEdge(LineCell(hori, fixed, lo + i), LineCell(hori, fixed, lo + i + 1))
    ensures PathCost(cost, Segment(hori, fixed, lo, hi)) == SegmentCost(cost, hori, fixed, lo, hi)
    decreases hi - lo
  {
    if lo < hi {
      SegmentFacts(cost, hori, fixed, lo + 1, hi);
      var s := Segment(hori, fixed, lo, hi);
      assert s[1..] == Segment(hori, fixed, lo + 1, hi);
      forall i | 0 <= i < hi - lo
        ensures s[i] == UnitEdge(LineCell(hori, fixed, lo + i), LineCell(hori, fixed, lo + i + 1))
      {
        if i > 0 {
          assert s[i] == Segment(hori, fixed, lo + 1, hi)[i - 1];
        }
      }
    }
  }

  /** `lineX(y, L, R)`: the row edges between the two columns, after
      swapping them into order. */
  function LineX(y: int, a: int, b: int): seq<RPoint> {
    Segment(true, y, Min(a, b), Max(a, b))
  }

  /** `lineY(x, B, U)`. */
  function LineY(x: int, a: int, b: int): seq<RPoint> {
    Segment(false, x, Min(a, b), Max(a, b))
  }

  /** The edges `Lshape` emits for bend `m`: row `f.y` from `f.x` to `m.x`,
      column `m.x` from `f.y` to `m.y`, row `t.y` from `m.x` to `t.x`,
      column `m.x` from `m.y` to `t.y`. */
  function Emit(f: Point, m: Point, t: Point): seq<RPoint> {
    LineX(f.y, f.x, m.x) + LineY(m.x, f.y, m.y) + LineX(t.y, m.x, t.x) + LineY(m.x, m.y, t.y)
  }

  /** `eval(m)`: the summed cost of the same four runs, each skipped when
      its two ends coincide. */
  function Eval(cost: CostFn, f: Point, m: Point, t: Point): nat {
    (if f.x != m.x then SegmentCost(cost, true, f.y, Min(f.x, m.x), Max(f.x, m.x)) else 0)
    + (if f.y != m.y then SegmentCost(cost, false, m.x, Min(f.y, m.y), Max(f.y, m.y)) else 0)
    + (if m.x != t.x then SegmentCost(cost, true, t.y, Min(m.x, t.x), Max(m.x, t.x)) else 0)
    + (if m.y != t.y then SegmentCost(cost, false, m.x, Min(m.y, t.y), Max(m.y, t.y)) else 0)
  }

  /** The first bend `(f.x, t.y)`: up or down the column of `f`, then
      along the row of `t`. */
  function Bend1(f: Point, t: Point): Point {
    Point(f.x, t.y, f.z)
  }

  /** The second bend `(t.x, f.y)`: along the row of `f`, then the column
      of `t`. */
  function Bend2(f: Point, t: Point): Point {
    Point(t.x, f.y, f.z)
  }

  /** `Lshape(tp, cost_fn)`: the cheaper bend by `eval`, the `randint`
      draw `coin` deciding a tie. */
  function Lshape(tp: TwoPin, fn: Option<CostFn>, coin: bool): (r: TwoPin)
    ensures r == tp.(path := r.path)
  {
    var cost := CostOf(fn);
    var f, t := tp.from, tp.to;
    var c1, c2 := Eval(cost, f, Bend1(f, t), t), Eval(cost, f, Bend2(f, t), t);
    var m := if (if c1 != c2 then c1 < c2 else coin) then Bend1(f, t) else Bend2(f, t);
    tp.(path := Emit(f, m, t))
  }

  /** Each bend's emitted path is its two legs: for the first bend the
      column of `f` between the rows then the row of `t` between the
      columns; for the second the row of `f` then the column of `t`. Its
      cost is what `eval` computes for that bend. */
  lemma EmitLegs(cost: CostFn, f: Point, t: Point)
    ensures Emit(f, Bend1(f, t), t) == LineY(f.x, f.y, t.y) + LineX(t.y, f.x, t.x)
    ensures Emit(f, Bend2(f, t), t) == LineX(f.y, f.x, t.x) + LineY(t.x, f.y, t.y)
    ensures PathCost(cost, Emit(f, Bend1(f, t), t)) == Eval(cost, f, Bend1(f, t), t)
    ensures PathCost(cost, Emit(f, Bend2(f, t), t)) == Eval(cost, f, Bend2(f, t), t)
  {
    var m1, m2 := Bend1(f, t), Bend2(f, t);
    assert LineX(f.y, f.x, m1.x) == [] && LineY(m1.x, m1.y, t.y) == [];
    assert LineY(m2.x, f.y, m2.y) == [] && LineX(t.y, m2.x, t.x) == [];
    var vy, hx := LineY(f.x, f.y, t.y), LineX(t.y, f.x, t.x);
    var hy, vx := LineX(f.y, f.x, t.x), LineY(t.x, f.y, t.y);
    assert Emit(f, m1, t) == vy + hx;
    assert Emit(f, m2, t) == hy + vx;
    SegmentFacts(cost, false, f.x, Min(f.y, t.y), Max(f.y, t.y));
    SegmentFacts(cost, true, t.y, Min(f.x, t.x), Max(f.x, t.x));
    SegmentFacts(cost, true, f.y, Min(f.x, t.x), Max(f.x, t.x));
    SegmentFacts(cost, false, t.x, Min(f.y, t.y), Max(f.y, t.y));
    PathCostAppend(cost, vy, hx);
    PathCostAppend(cost, hy, vx);
  }

  /** Either bend has Manhattan length. */
  lemma EmitLength(f: Point, t: Point, m: Point)
    requires m == Bend1(f, t) || m == Bend2(f, t)
    ensures |Emit(f, m, t)| == CAbs(t.x - f.x) + CAbs(t.y - f.y)
  {
    var cost := CostOf(None);
    EmitLegs(cost, f, t);
    SegmentFacts(cost, false, f.x, Min(f.y, t.y), Max(f.y, t.y));
    SegmentFacts(cost, true, t.y, Min(f.x, t.x), Max(f.x, t.x));
    SegmentFacts(cost, true, f.y, Min(f.x, t.x), Max(f.x, t.x));
    SegmentFacts(cost, false, t.x, Min(f.y, t.y), Max(f.y, t.y));
  }

  /** `Lshape` routes along one of the two bends in exactly `|dx| + |dy|`
      edges; its path costs no more than either bend; a strictly cheaper
      bend is always taken, and on a tie the draw decides. */
  lemma LshapeChoice(tp: TwoPin, fn: Option<CostFn>, coin: bool)
    ensures var r := Lshape(tp, fn, coin);
      var f, t, cost := tp.from, tp.to, CostOf(fn);
      var p1, p2 := Emit(f, Bend1(f, t), t), Emit(f, Bend2(f, t), t);
      && |r.path| == CAbs(t.x - f.x) + CAbs(t.y - f.y)
      && (r.path == p1 || r.path == p2)
      && PathCost(cost, r.path) <= PathCost(cost, p1)
      && PathCost(cost, r.path) <= PathCost(cost, p2)
      && (PathCost(cost, p1) < PathCost(cost, p2) ==> r.path == p1)
      && (PathCost(cost, p2) < PathCost(cost, p1) ==> r.path == p2)
      && (PathCost(cost, p1) == PathCost(cost, p2) ==> (r.path == if coin then p1 else p2))
  {
    var f, t := tp.from, tp.to;
    EmitLegs(CostOf(fn), f, t);
    EmitLength(f, t, Bend1(f, t));
    EmitLength(f, t, Bend2(f, t));
  }

  // ---- Z-shape ---------------------------------------------------------------

  /** The two swaps at the top of `Zshape` and `Monotonic`: first by `y`,
      then by `x`. */
  function Normalize(f: Point, t: Point): (r: (Point, Point))
    ensures r == (f, t) || r == (t, f)
    ensures r.0.x <= r.1.x
  {
    var (f1, t1) := if f.y > t.y then (t, f) else (f, t);
    if f1.x > t1.x then (t1, f1) else (f1, t1)
  }

  /** Swapping the pins keeps their distance. */
  lemma NormalizeDist(a: Point, b: Point)
    ensures var (f, t) := Normalize(a, b);
      Dist((t.x, t.y), (f.x, f.y)) == CAbs(b.x - a.x) + CAbs(b.y - a.y)
  {
  }

  function Columns(xs: seq<int>, b: int, e: int): seq<Line> {
    seq(|xs|, i requires 0 <= i < |xs| => Line(false, xs[i], b, e))
  }

  function Rows(ys: seq<int>, b: int, e: int): seq<Line> {
    seq(|ys|, i requires 0 <= i < |ys| => Line(true, ys[i], b, e))
  }

  /** The calls that fill `boxH`: row `f.y`, then every column after `f.x`
      from `f.y` to `t.y`, then row `t.y`. */
  function LinesH(f: Point, t: Point): seq<Line> {
    [Line(true, f.y, f.x, t.x)] + Columns(Steps(f.x, t.x), f.y, t.y) + [Line(true, t.y, f.x, t.x)]
  }

  /** The calls that fill `boxV`: column `f.x`, every row after `f.y`, then
      column `t.x`. */
  function LinesV(f: Point, t: Point): seq<Line> {
    [Line(false, f.x, f.y, t.y)] + Rows(Steps(f.y, t.y), f.x, t.x) + [Line(false, t.x, f.y, t.y)]
  }

  /** Every call stays in the pins' box. */
  lemma ZLinesFit(f: Point, t: Point)
    requires f.x <= t.x
    ensures AllFit(BoxOf(f, t), LinesH(f, t)) && AllFit(BoxOf(f, t), LinesV(f, t))
  {
    ZLinesShape(f, t);
  }

  /** Every call walks away from `f`. */
  lemma ZLinesAway(f: Point, t: Point)
    requires f.x <= t.x
    ensures forall i :: 0 <= i < |LinesH(f, t)| ==> LineAway(LinesH(f, t)[i], (f.x, f.y))
    ensures forall i :: 0 <= i < |LinesV(f, t)| ==> LineAway(LinesV(f, t)[i], (f.x, f.y))
  {
    ZLinesShape(f, t);
  }

  /** The middle calls are the columns after `f.x` and the rows after
      `f.y`. */
  lemma ZLinesShape(f: Point, t: Point)
    ensures |LinesH(f, t)| == CAbs(t.x - f.x) + 2 && |LinesV(f, t)| == CAbs(t.y - f.y) + 2
    ensures forall i :: 0 < i < |LinesH(f, t)| - 1 ==>
      LinesH(f, t)[i] == Line(false, f.x + Sign(t.x - f.x) * i, f.y, t.y)
    ensures forall i :: 0 < i < |LinesV(f, t)| - 1 ==>
      LinesV(f, t)[i] == Line(true, f.y + Sign(t.y - f.y) * i, f.x, t.x)
  {
    StepsValues(f.x, t.x);
    StepsValues(f.y, t.y);
    var h, v := LinesH(f, t), LinesV(f, t);
    var xs, ys := Steps(f.x, t.x), Steps(f.y, t.y);
    forall i | 0 < i < |h| - 1
      ensures h[i] == Line(false, f.x + Sign(t.x - f.x) * i, f.y, t.y)
    {
      assert h[i] == Columns(xs, f.y, t.y)[i - 1];
    }
    forall i | 0 < i < |v| - 1
      ensures v[i] == Line(true, f.y + Sign(t.y - f.y) * i, f.x, t.x)
    {
      assert v[i] == Rows(ys, f.x, t.x)[i - 1];
    }
  }

  /** The box both tables start from: the pins' box with `f` at cost 0. */
  function ZStart(f: Point, t: Point): (bc: BoxCost)
    ensures Valid(bc) && bc.box == BoxOf(f, t)
  {
    Start(BoxOf(f, t), (f.x, f.y))
  }

  /** `boxH` after its calls. */
  function ZBoxH(f: Point, t: Point, cost: CostFn): (bc: BoxCost)
    requires f.x <= t.x
    ensures Valid(bc) && bc.box == BoxOf(f, t)
  {
    ZLinesFit(f, t);
    Run(ZStart(f, t), LinesH(f, t), cost)
  }

  /** `boxV` after its calls. */
  function ZBoxV(f: Point, t: Point, cost: CostFn): (bc: BoxCost)
    requires f.x <= t.x
    ensures Valid(bc) && bc.box == BoxOf(f, t)
  {
    ZLinesFit(f, t);
    Run(ZStart(f, t), LinesV(f, t), cost)
  }

  /** The table `Zshape` traces: `boxV` only when its cost at `t` is
      strictly lower. */
  function ZChosen(f: Point, t: Point, cost: CostFn): (bc: BoxCost)
    requires f.x <= t.x
    ensures Valid(bc) && bc.box == BoxOf(f, t)
  {
    var h, v := ZBoxH(f, t, cost), ZBoxV(f, t, cost);
    if Lt(At(v, (t.x, t.y)).cost, At(h, (t.x, t.y)).cost) then v else h
  }

  /** `Zshape(tp, cost_fn)`: the path traced back from the normalised `t`
      in the chosen table. */
  function Zshape(tp: TwoPin, fn: Option<CostFn>): (r: TwoPin)
    ensures r == tp.(path := r.path)
  {
    var (f, t) := Normalize(tp.from, tp.to);
    var bc := ZChosen(f, t, CostOf(fn));
    tp.(path := Trace(bc, (t.x, t.y), |bc.cells|))
  }

  /** The start table is linked, accounted and oriented towards `f`. */
  lemma StartSound(b: Box, o: Cell, cost: CostFn)
    requires Proper(b) && InBox(b, o)
    ensures Linked(Start(b, o), o) && Accounted(Start(b, o), cost) && Oriented(Start(b, o), o)
    ensures At(Start(b, o), o) == Data(Fin(0), None)
  {
    var bc := Start(b, o);
    forall c
      ensures At(bc, c) == (if c == o then Data(Fin(0), None) else Data(Inf, None))
    {
    }
  }

  /** Both tables stay linked, accounted and oriented towards `f`. */
  lemma ZBoxesSound(f: Point, t: Point, cost: CostFn)
    requires f.x <= t.x
    ensures Linked(ZBoxH(f, t, cost), (f.x, f.y)) && Accounted(ZBoxH(f, t, cost), cost)
    ensures Oriented(ZBoxH(f, t, cost), (f.x, f.y))
    ensures Linked(ZBoxV(f, t, cost), (f.x, f.y)) && Accounted(ZBoxV(f, t, cost), cost)
    ensures Oriented(ZBoxV(f, t, cost), (f.x, f.y))
  {
    var o := (f.x, f.y);
    ZLinesFit(f, t);
    ZLinesAway(f, t);
    StartSound(BoxOf(f, t), o, cost);
    RunSound(ZStart(f, t), LinesH(f, t), cost, o);
    RunOriented(ZStart(f, t), LinesH(f, t), cost, o);
    RunSound(ZStart(f, t), LinesV(f, t), cost, o);
    RunOriented(ZStart(f, t), LinesV(f, t), cost, o);
  }

  /** After row `f.y`, the last column `boxH` fills is the column of `t`. */
  lemma LastColumn(f: Point, t: Point)
    requires f.x < t.x
    ensures |LinesH(f, t)| == t.x - f.x + 2 && LinesH(f, t)[t.x - f.x] == Line(false, t.x, f.y, t.y)
  {
    var xs := Steps(f.x, t.x);
    StepsValues(f.x, t.x);
    var n := t.x - f.x;
    assert xs[n - 1] == t.x;
    assert Columns(xs, f.y, t.y)[n - 1] == Line(false, t.x, f.y, t.y);
    assert LinesH(f, t)[n] == Columns(xs, f.y, t.y)[n - 1];
  }

  /** After column `f.x`, the last row `boxV` fills is the row of `t`. */
  lemma LastRow(f: Point, t: Point)
    requires f.y != t.y
    ensures |LinesV(f, t)| == CAbs(t.y - f.y) + 2 && LinesV(f, t)[CAbs(t.y - f.y)] == Line(true, t.y, f.x, t.x)
  {
    var ys := Steps(f.y, t.y);
    StepsValues(f.y, t.y);
    var n := CAbs(t.y - f.y);
    assert ys[n - 1] == t.y;
    assert Rows(ys, f.x, t.x)[n - 1] == Line(true, t.y, f.x, t.x);
    assert LinesV(f, t)[n] == Rows(ys, f.x, t.x)[n - 1];
  }

  /** With the pins in different columns, `boxH` reaches `t`: row `f.y`
      reaches `(t.x, f.y)` and the last column runs from there to `t`. */
  lemma ZReachesH(f: Point, t: Point, cost: CostFn)
    requires f.x < t.x
    ensures At(ZBoxH(f, t, cost), (t.x, t.y)).cost.Fin?
  {
    ZLinesFit(f, t);
    LastColumn(f, t);
    RunReachesVia(ZStart(f, t), LinesH(f, t), cost, t.x - f.x, t.x, t.y);
  }

  /** With the pins in different rows, `boxV` reaches `t`: column `f.x`
      reaches `(f.x, t.y)` and the last row runs from there to `t`. */
  lemma ZReachesV(f: Point, t: Point, cost: CostFn)
    requires f.x <= t.x && f.y != t.y
    ensures At(ZBoxV(f, t, cost), (t.x, t.y)).cost.Fin?
  {
    ZLinesFit(f, t);
    LastRow(f, t);
    RunReachesVia(ZStart(f, t), LinesV(f, t), cost, CAbs(t.y - f.y), t.y, t.x);
  }

  /** `t` is reached in the table `Zshape` traces, at a cost no higher
      than either table's. */
  lemma ZChosenReaches(f: Point, t: Point, cost: CostFn)
    requires f.x <= t.x
    ensures At(ZChosen(f, t, cost), (t.x, t.y)).cost.Fin?
    ensures Le(At(ZChosen(f, t, cost), (t.x, t.y)).cost, At(ZBoxH(f, t, cost), (t.x, t.y)).cost)
    ensures Le(At(ZChosen(f, t, cost), (t.x, t.y)).cost, At(ZBoxV(f, t, cost), (t.x, t.y)).cost)
  {
    if f.x < t.x {
      ZReachesH(f, t, cost);
    } else if f.y != t.y {
      ZReachesV(f, t, cost);
    } else {
      ZLinesFit(f, t);
      RunKeepsFin(ZStart(f, t), LinesH(f, t), cost, (f.x, f.y));
    }
  }

  /** Whichever table is chosen is linked, accounted and oriented. */
  lemma ZChosenSound(f: Point, t: Point, cost: CostFn)
    requires f.x <= t.x
    ensures Linked(ZChosen(f, t, cost), (f.x, f.y)) && Accounted(ZChosen(f, t, cost), cost)
    ensures Oriented(ZChosen(f, t, cost), (f.x, f.y))
  {
    ZBoxesSound(f, t, cost);
    var h, v := ZBoxH(f, t, cost), ZBoxV(f, t, cost);
    if Lt(At(v, (t.x, t.y)).cost, At(h, (t.x, t.y)).cost) {
      assert ZChosen(f, t, cost) == v;
    } else {
      assert ZChosen(f, t, cost) == h;
    }
  }

  /** The trace from `t` in the chosen table runs back to `f` in
      `Dist(t, f)` unit edges and costs no more than either table's cost at
      `t`. */
  lemma ZChosenTrace(f: Point, t: Point, cost: CostFn)
    requires f.x <= t.x
    ensures var bc := ZChosen(f, t, cost);
      && |Trace(bc, (t.x, t.y), |bc.cells|)| == Dist((t.x, t.y), (f.x, f.y))
      && Walk(bc, (t.x, t.y), |bc.cells|)[|Walk(bc, (t.x, t.y), |bc.cells|)| - 1] == (f.x, f.y)
      && (At(ZBoxH(f, t, cost), (t.x, t.y)).cost.Fin? ==>
            PathCost(cost, Trace(bc, (t.x, t.y), |bc.cells|)) <= At(ZBoxH(f, t, cost), (t.x, t.y)).cost.n)
      && (At(ZBoxV(f, t, cost), (t.x, t.y)).cost.Fin? ==>
            PathCost(cost, Trace(bc, (t.x, t.y), |bc.cells|)) <= At(ZBoxV(f, t, cost), (t.x, t.y)).cost.n)
  {
    var bc := ZChosen(f, t, cost);
    ZChosenSound(f, t, cost);
    ZChosenReaches(f, t, cost);
    TraceLength(bc, (t.x, t.y), (f.x, f.y));
    TraceCost(bc, (t.x, t.y), |bc.cells|, cost);
  }

  /** `Zshape` emits exactly `|dx| + |dy|` unit edges, chained from the
      second pin of the normalised pair back to the first; the path costs
      no more than the cheaper of the two tables' costs at that pin. */
  lemma ZshapeRoute(tp: TwoPin, fn: Option<CostFn>)
    ensures |Zshape(tp, fn).path| == CAbs(tp.to.x - tp.from.x) + CAbs(tp.to.y - tp.from.y)
    ensures var f, t := Normalize(tp.from, tp.to).0, Normalize(tp.from, tp.to).1;
      var bc := ZChosen(f, t, CostOf(fn));
      && Zshape(tp, fn).path == Trace(bc, (t.x, t.y), |bc.cells|)
      && Walk(bc, (t.x, t.y), |bc.cells|)[|Walk(bc, (t.x, t.y), |bc.cells|)| - 1] == (f.x, f.y)
      && (At(ZBoxH(f, t, CostOf(fn)), (t.x, t.y)).cost.Fin? ==>
            PathCost(CostOf(fn), Zshape(tp, fn).path) <= At(ZBoxH(f, t, CostOf(fn)), (t.x, t.y)).cost.n)
      && (At(ZBoxV(f, t, CostOf(fn)), (t.x, t.y)).cost.Fin? ==>
            PathCost(CostOf(fn), Zshape(tp, fn).path) <= At(ZBoxV(f, t, CostOf(fn)), (t.x, t.y)).cost.n)
  {
    var (f, t) := Normalize(tp.from, tp.to);
    NormalizeDist(tp.from, tp.to);
    ZChosenTrace(f, t, CostOf(fn));
  }
}
