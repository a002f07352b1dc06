/** The monotonic router (`Monotonic` in `src/router/patterns.cpp`): a
    dynamic program over the pins' box that only ever moves away from the
    first pin, then a trace back from the second. Positions are named by
    their offset from the first pin: `i` columns to the right and `j` rows
    up (`up`) or down. */
module Monotonic {
  import opened Wrappers
  import opened Utils
  import opened IspdTypes
  import opened Sweep
  import opened Patterns

  /** The row `j` rows from `y0`, upwards when `up`. */
  function YAt(y0: int, up: bool, j: int): int {
    if up then y0 + j else y0 - j
  }

  /** The point at offset `(i, j)` from `o`. */
  function MPt(o: Cell, up: bool, i: int, j: int): Cell {
    (o.0 + i, YAt(o.1, up, j))
  }

  /** The cost of the edge from offset `(i, j)` to `(i + 1, j)`. */
  function HCost(cost: CostFn, o: Cell, up: bool, i: int, j: int): nat {
    cost(o.0 + i, YAt(o.1, up, j), true)
  }

  /** The cost of the edge from offset `(i, j)` to `(i, j + 1)`. */
  function VCost(cost: CostFn, o: Cell, up: bool, i: int, j: int): nat {
    cost(o.0 + i, Min(YAt(o.1, up, j), YAt(o.1, up, j + 1)), false)
  }

  function NMin(a: nat, b: nat): nat {
    if a < b then a else b
  }

  /** The cheapest monotone cost from `o` to offset `(i, j)`: along the
      first row and the first column there is one way, elsewhere the
      cheaper of arriving from below and from the left. */
  function Dp(cost: CostFn, o: Cell, up: bool, i: nat, j: nat): nat
    decreases i + j
  {
    if i == 0 && j == 0 then 0
    else if j == 0 then Dp(cost, o, up, i - 1, 0) + HCost(cost, o, up, i - 1, 0)
    else if i == 0 then Dp(cost, o, up, 0, j - 1) + VCost(cost, o, up, 0, j - 1)
    else NMin(Dp(cost, o, up, i, j - 1) + VCost(cost, o, up, i, j - 1),
              Dp(cost, o, up, i - 1, j) + HCost(cost, o, up, i - 1, j))
  }

  // ---- the router -------------------------------------------------------------

  /** One turn of the inner loop at `x = o.x + i` in row `y`, whose previous
      row is `py`: `cx` arrives from below (the previous row), `cy` from the
      left; the strictly cheaper wins and the draw `coin(x, y)` settles a
      tie. The point is overwritten either way. */
  function MCell(bc: BoxCost, o: Cell, up: bool, i: int, j: int, cost: CostFn, coin: (int, int) -> bool): (r: BoxCost)
    ensures r.box == bc.box
  {
    var x, y, py := o.0 + i, YAt(o.1, up, j), YAt(o.1, up, j - 1);
    var px := x - 1;
    var cx := Plus(At(bc, (x, py)).cost, cost(x, Min(y, py), false));
    var cy := Plus(At(bc, (px, y)).cost, cost(Min(x, px), y, true));
    var pickX := if cx != cy then Lt(cx, cy) else coin(x, y);
    Put(bc, (x, y), if pickX then Data(cx, Some((x, py))) else Data(cy, Some((px, y))))
  }

  /** The box of a table with `o` in a corner, `w` columns to the right
      and `h` rows up (`up`) or down. */
  function MBox(o: Cell, up: bool, w: nat, h: nat): Box {
    Box(o.0, o.0 + w, if up then o.1 else o.1 - h, if up then o.1 + h else o.1)
  }

  /** `calcX(box, o.y, o.x, o.x + w)`. */
  function RowLine(o: Cell, w: nat): Line {
    Line(true, o.1, o.0, o.0 + w)
  }

  /** `calcY(box, o.x, o.y, o.y ± h)`. */
  function ColLine(o: Cell, up: bool, h: nat): Line {
    Line(false, o.0, o.1, YAt(o.1, up, h))
  }

  /** The first row and the first column of the table, swept from `b0`. */
  function MEdges(b0: BoxCost, o: Cell, up: bool, w: nat, h: nat, cost: CostFn): (bc: BoxCost)
    requires Valid(b0) && b0.box == MBox(o, up, w, h)
    ensures Valid(bc) && bc.box == b0.box
  {
    SweepLine(SweepLine(b0, RowLine(o, w), cost), ColLine(o, up, h), cost)
  }

  /** The corner box is the box `BoxCost(f, t)` spans. */
  lemma MBoxOf(f: Point, t: Point)
    requires f.x <= t.x
    ensures BoxOf(f, t) == MBox((f.x, f.y), f.y <= t.y, t.x - f.x, CAbs(t.y - f.y))
  {
  }

  /** The far corner of the table is the second pin. */
  lemma CornerIsTarget(f: Point, t: Point)
    requires f.x <= t.x
    ensures MPt((f.x, f.y), f.y <= t.y, t.x - f.x, CAbs(t.y - f.y)) == (t.x, t.y)
  {
  }

  // ---- what the table holds ---------------------------------------------------

  /** The entry at offset `(i, j)` holds the cheapest monotone cost, and
      (except at `o`) points at the neighbour on the left or below through
      which that cost is reached. */
  ghost predicate Good(bc: BoxCost, o: Cell, up: bool, cost: CostFn, i: nat, j: nat) {
    var d := At(bc, MPt(o, up, i, j));
    && d.cost == Fin(Dp(cost, o, up, i, j))
    && (if i == 0 && j == 0 then d.from.None?
        else
          || (i > 0 && d.from == Some(MPt(o, up, i - 1, j))
              && Dp(cost, o, up, i, j) == Dp(cost, o, up, i - 1, j) + HCost(cost, o, up, i - 1, j))
          || (j > 0 && d.from == Some(MPt(o, up, i, j - 1))
              && Dp(cost, o, up, i, j) == Dp(cost, o, up, i, j - 1) + VCost(cost, o, up, i, j - 1)))
  }

  /** Every entry of the table is good. */
  ghost predicate AllGood(bc: BoxCost, o: Cell, up: bool, cost: CostFn, w: nat, h: nat) {
    forall i: nat, j: nat :: i <= w && j <= h ==> Good(bc, o, up, cost, i, j)
  }

  /** Every entry of rows before `j`, of row `j` before column `i`, and of
      the first column is good. */
  ghost predicate Done(bc: BoxCost, o: Cell, up: bool, cost: CostFn, w: nat, h: nat, j: int, i: int) {
    forall i': nat, j': nat :: i' <= w && j' <= h && (j' < j || (j' == j && i' < i) || i' == 0) ==>
      Good(bc, o, up, cost, i', j')
  }

  /** An entry that extends a good neighbour to the left (`hori`) or below
      by one edge is good when that is the cheapest way in. */
  lemma StepGood(bc: BoxCost, o: Cell, up: bool, cost: CostFn, i: nat, j: nat, hori: bool)
    requires hori ==> (i > 0 && j == 0 && Good(bc, o, up, cost, i - 1, j)
      && At(bc, MPt(o, up, i, j)) == Data(Plus(At(bc, MPt(o, up, i - 1, j)).cost, HCost(cost, o, up, i - 1, j)), Some(MPt(o, up, i - 1, j))))
    requires !hori ==> (j > 0 && i == 0 && Good(bc, o, up, cost, i, j - 1)
      && At(bc, MPt(o, up, i, j)) == Data(Plus(At(bc, MPt(o, up, i, j - 1)).cost, VCost(cost, o, up, i, j - 1)), Some(MPt(o, up, i, j - 1))))
    ensures Good(bc, o, up, cost, i, j)
  {
  }

  /** A table where only `o` is reached, at cost 0. */
  ghost predicate Seeded(b0: BoxCost, o: Cell, up: bool, w: nat, h: nat) {
    && Valid(b0) && b0.box == MBox(o, up, w, h)
    && At(b0, o) == Data(Fin(0), None)
    && forall c :: c != o ==> At(b0, c).cost.Inf?
  }

  lemma StartSeeded(o: Cell, up: bool, w: nat, h: nat)
    ensures Seeded(Start(MBox(o, up, w, h), o), o, up, w, h)
  {
  }

  /** A step of `calcX` along the first row, in the sweep's terms, is a
      step of the first row's running sum. */
  lemma RowStep(b1: BoxCost, o: Cell, up: bool, w: nat, cost: CostFn, i: nat)
    requires 0 < i && Good(b1, o, up, cost, i - 1, 0)
    requires At(b1, LineCell(RowLine(o, w).hori, RowLine(o, w).fixed, o.0 + i)) ==
      Data(Plus(At(b1, LineCell(RowLine(o, w).hori, RowLine(o, w).fixed, o.0 + i - 1)).cost,
                EdgeCost(cost, LineEdge(RowLine(o, w).hori, RowLine(o, w).fixed, o.0 + i - 1, o.0 + i))),
           Some(LineCell(RowLine(o, w).hori, RowLine(o, w).fixed, o.0 + i - 1)))
    ensures Good(b1, o, up, cost, i, 0)
  {
    StepGood(b1, o, up, cost, i, 0, true);
  }

  /** The same for `calcY` along the first column, walking in direction
      `d`. */
  lemma ColStep(b2: BoxCost, o: Cell, up: bool, h: nat, cost: CostFn, d: int, j: nat)
    requires 0 < j && Good(b2, o, up, cost, 0, j - 1) && d == (if up then 1 else -1)
    requires At(b2, LineCell(ColLine(o, up, h).hori, ColLine(o, up, h).fixed, YAt(o.1, up, j))) ==
      Data(Plus(At(b2, LineCell(ColLine(o, up, h).hori, ColLine(o, up, h).fixed, YAt(o.1, up, j) - d)).cost,
                EdgeCost(cost, LineEdge(ColLine(o, up, h).hori, ColLine(o, up, h).fixed, YAt(o.1, up, j) - d, YAt(o.1, up, j)))),
           Some(LineCell(ColLine(o, up, h).hori, ColLine(o, up, h).fixed, YAt(o.1, up, j) - d)))
    ensures Good(b2, o, up, cost, 0, j)
  {
    assert YAt(o.1, up, j) - d == YAt(o.1, up, j - 1);
    StepGood(b2, o, up, cost, 0, j, false);
  }

  /** `calcX` along the first row gives it its running sums. */
  lemma RowGood(b0: BoxCost, o: Cell, up: bool, w: nat, h: nat, cost: CostFn, i: nat)
    requires Seeded(b0, o, up, w, h) && i <= w
    ensures Good(SweepLine(b0, RowLine(o, w), cost), o, up, cost, i, 0)
  {
    RowSwept(b0, o, up, w, h, cost);
    RowOrigin(b0, o, up, w, h, cost);
    RowFromSums(SweepLine(b0, RowLine(o, w), cost), o, up, w, cost, i);
  }

  /** The row sweep leaves `o` at cost 0. */
  lemma RowOrigin(b0: BoxCost, o: Cell, up: bool, w: nat, h: nat, cost: CostFn)
    requires Seeded(b0, o, up, w, h)
    ensures Good(SweepLine(b0, RowLine(o, w), cost), o, up, cost, 0, 0)
  {
    SweepLineFrame(b0, RowLine(o, w), cost, o);
  }

  /** The row sweep runs over unreached points only. */
  lemma RowSwept(b0: BoxCost, o: Cell, up: bool, w: nat, h: nat, cost: CostFn)
    requires Seeded(b0, o, up, w, h)
    ensures Sums(SweepLine(b0, RowLine(o, w), cost), RowLine(o, w), Sign(w), cost)
  {
    var l := RowLine(o, w);
    forall k | After(l.b, l.e, Sign(w), k)
      ensures At(b0, LineCell(l.hori, l.fixed, k)).cost.Inf?
    {
    }
    SweepLineSums(b0, l, cost, Sign(w));
  }

  /** Running sums along the first row, from a good `o`, make the whole
      first row good. */
  lemma {:induction false} RowFromSums(b1: BoxCost, o: Cell, up: bool, w: nat, cost: CostFn, i: nat)
    requires Sums(b1, RowLine(o, w), Sign(w), cost) && Good(b1, o, up, cost, 0, 0) && i <= w
    ensures Good(b1, o, up, cost, i, 0)
  {
    if i > 0 {
      RowFromSums(b1, o, up, w, cost, i - 1);
      assert After(RowLine(o, w).b, RowLine(o, w).e, Sign(w), o.0 + i);
      RowStep(b1, o, up, w, cost, i);
    }
  }

  /** `calcY` along the first column gives it its running sums. */
  lemma ColGood(b0: BoxCost, o: Cell, up: bool, w: nat, h: nat, cost: CostFn, j: nat)
    requires Seeded(b0, o, up, w, h) && j <= h
    ensures Good(MEdges(b0, o, up, w, h, cost), o, up, cost, 0, j)
  {
    ColSwept(b0, o, up, w, h, cost);
    ColOrigin(b0, o, up, w, h, cost);
    ColFromSums(MEdges(b0, o, up, w, h, cost), o, up, h, cost, j);
  }

  /** Neither sweep moves `o`. */
  lemma ColOrigin(b0: BoxCost, o: Cell, up: bool, w: nat, h: nat, cost: CostFn)
    requires Seeded(b0, o, up, w, h)
    ensures Good(MEdges(b0, o, up, w, h, cost), o, up, cost, 0, 0)
  {
    var b1 := SweepLine(b0, RowLine(o, w), cost);
    RowOrigin(b0, o, up, w, h, cost);
    SweepLineFrame(b1, ColLine(o, up, h), cost, MPt(o, up, 0, 0));
    GoodKept(b1, SweepLine(b1, ColLine(o, up, h), cost), o, up, cost, 0, 0);
  }

  /** The column sweep runs over points the row sweep did not reach. */
  lemma ColSwept(b0: BoxCost, o: Cell, up: bool, w: nat, h: nat, cost: CostFn)
    requires Seeded(b0, o, up, w, h)
    ensures Sums(MEdges(b0, o, up, w, h, cost), ColLine(o, up, h), Sign(YAt(o.1, up, h) - o.1), cost)
  {
    var b1 := SweepLine(b0, RowLine(o, w), cost);
    var l := ColLine(o, up, h);
    var d := Sign(YAt(o.1, up, h) - o.1);
    RowOrigin(b0, o, up, w, h, cost);
    forall k | After(l.b, l.e, d, k)
      ensures At(b1, LineCell(l.hori, l.fixed, k)).cost.Inf?
    {
      SweepLineFrame(b0, RowLine(o, w), cost, (o.0, k));
    }
    SweepLineSums(b1, l, cost, d);
  }

  /** Running sums along the first column, from a good `o`, make the
      whole first column good. */
  lemma {:induction false} ColFromSums(b2: BoxCost, o: Cell, up: bool, h: nat, cost: CostFn, j: nat)
    requires Sums(b2, ColLine(o, up, h), Sign(YAt(o.1, up, h) - o.1), cost) && Good(b2, o, up, cost, 0, 0) && j <= h
    ensures Good(b2, o, up, cost, 0, j)
  {
    if j > 0 {
      var d := Sign(YAt(o.1, up, h) - o.1);
      ColFromSums(b2, o, up, h, cost, j - 1);
      assert d == (if up then 1 else -1);
      assert After(ColLine(o, up, h).b, ColLine(o, up, h).e, d, YAt(o.1, up, j));
      ColStep(b2, o, up, h, cost, d, j);
    }
  }

  /** The column sweep leaves the first row as the row sweep made it. */
  lemma RowKept(b0: BoxCost, o: Cell, up: bool, w: nat, h: nat, cost: CostFn, i: nat)
    requires Seeded(b0, o, up, w, h) && i <= w
    ensures Good(MEdges(b0, o, up, w, h, cost), o, up, cost, i, 0)
  {
    if i == 0 {
      ColGood(b0, o, up, w, h, cost, 0);
    } else {
      var b1 := SweepLine(b0, RowLine(o, w), cost);
      RowGood(b0, o, up, w, h, cost, i);
      SweepLineFrame(b1, ColLine(o, up, h), cost, MPt(o, up, i, 0));
      GoodKept(b1, SweepLine(b1, ColLine(o, up, h), cost), o, up, cost, i, 0);
    }
  }

  /** Goodness of an entry depends on that entry alone. */
  lemma GoodKept(b1: BoxCost, b2: BoxCost, o: Cell, up: bool, cost: CostFn, i: nat, j: nat)
    requires Good(b1, o, up, cost, i, j) && At(b2, MPt(o, up, i, j)) == At(b1, MPt(o, up, i, j))
    ensures Good(b2, o, up, cost, i, j)
  {
  }

  /** Before the loops, the first row and column are done. */
  lemma StartDone(b0: BoxCost, o: Cell, up: bool, w: nat, h: nat, cost: CostFn)
    requires Seeded(b0, o, up, w, h)
    ensures Done(MEdges(b0, o, up, w, h, cost), o, up, cost, w, h, 1, 1)
  {
    var bc := MEdges(b0, o, up, w, h, cost);
    forall i': nat, j': nat | i' <= w && j' <= h && (j' < 1 || (j' == 1 && i' < 1) || i' == 0)
      ensures Good(bc, o, up, cost, i', j')
    {
      if j' == 0 {
        RowKept(b0, o, up, w, h, cost, i');
      } else {
        ColGood(b0, o, up, w, h, cost, j');
      }
    }
  }

  /** One turn of the inner loop, from good neighbours below and to the
      left, writes a good entry: whichever way the comparison or the draw
      goes, the winner is the cheaper arrival. */
  lemma MCellGood(bc: BoxCost, o: Cell, up: bool, i: nat, j: nat, cost: CostFn, coin: (int, int) -> bool)
    requires 1 <= i && 1 <= j
    requires Good(bc, o, up, cost, i, j - 1) && Good(bc, o, up, cost, i - 1, j)
    ensures Good(MCell(bc, o, up, i, j, cost, coin), o, up, cost, i, j)
  {
    var y, py := YAt(o.1, up, j), YAt(o.1, up, j - 1);
    assert Min(y, py) == Min(py, y);
  }

  /** Distinct offsets are distinct points. */
  lemma MPtInjective(o: Cell, up: bool, i: int, j: int, i2: int, j2: int)
    requires MPt(o, up, i, j) == MPt(o, up, i2, j2)
    ensures i == i2 && j == j2
  {
  }

  lemma {:induction false} MCellDone(bc: BoxCost, o: Cell, up: bool, cost: CostFn, coin: (int, int) -> bool,
                                     w: nat, h: nat, i: nat, j: nat)
    requires Done(bc, o, up, cost, w, h, j, i) && 1 <= i <= w && 1 <= j <= h
    ensures Done(MCell(bc, o, up, i, j, cost, coin), o, up, cost, w, h, j, i + 1)
  {
    var r := MCell(bc, o, up, i, j, cost, coin);
    assert Good(bc, o, up, cost, i, j - 1);
    assert Good(bc, o, up, cost, i - 1, j);
    MCellGood(bc, o, up, i, j, cost, coin);
    forall i': nat, j': nat | i' <= w && j' <= h && (j' < j || (j' == j && i' < i + 1) || i' == 0)
      ensures Good(r, o, up, cost, i', j')
    {
      if i' != i || j' != j {
        if MPt(o, up, i', j') == MPt(o, up, i, j) {
          MPtInjective(o, up, i', j', i, j);
        }
        assert At(r, MPt(o, up, i', j')) == At(bc, MPt(o, up, i', j'));
        assert Good(bc, o, up, cost, i', j');
      }
    }
  }

  /** A finished row `j` makes the rows up to `j` done. */
  lemma RowDone(bc: BoxCost, o: Cell, up: bool, cost: CostFn, w: nat, h: nat, j: int)
    requires Done(bc, o, up, cost, w, h, j, w + 1)
    ensures Done(bc, o, up, cost, w, h, j + 1, 1)
  {
  }

  /** With every row done, every entry is good. */
  lemma AllDone(bc: BoxCost, o: Cell, up: bool, cost: CostFn, w: nat, h: nat)
    requires Done(bc, o, up, cost, w, h, h + 1, 1)
    ensures AllGood(bc, o, up, cost, w, h)
  {
  }

  lemma MCellValid(bc: BoxCost, o: Cell, up: bool, cost: CostFn, coin: (int, int) -> bool,
                   w: nat, h: nat, i: int, j: int)
    requires Valid(bc) && bc.box == MBox(o, up, w, h) && 1 <= i <= w && 1 <= j <= h
    ensures Valid(MCell(bc, o, up, i, j, cost, coin))
  {
  }

  // ---- monotone paths ---------------------------------------------------------

  /** The routing edge from offset `(i, j)` to `(i + 1, j)`. */
  function HEdge(o: Cell, up: bool, i: int, j: int): RPoint {
    RPoint2(o.0 + i, YAt(o.1, up, j), true)
  }

  /** The routing edge from offset `(i, j)` to `(i, j + 1)`. */
  function VEdge(o: Cell, up: bool, i: int, j: int): RPoint {
    RPoint2(o.0 + i, Min(YAt(o.1, up, j), YAt(o.1, up, j + 1)), false)
  }

  /** `path` leads from offset `(i, j)` back to `o`, each edge one column
      left or one row back towards `o`'s row: a monotone route, listed from
      its far end as `trace` lists it. */
  ghost predicate IsStair(o: Cell, up: bool, i: nat, j: nat, path: seq<RPoint>)
    decreases |path|
  {
    if i == 0 && j == 0 then path == []
    else
      && |path| > 0
      && ((i > 0 && path[0] == HEdge(o, up, i - 1, j) && IsStair(o, up, i - 1, j, path[1..]))
          || (j > 0 && path[0] == VEdge(o, up, i, j - 1) && IsStair(o, up, i, j - 1, path[1..])))
  }

  /** A monotone route has one edge per row and column it crosses. */
  lemma {:induction false} StairLength(o: Cell, up: bool, i: nat, j: nat, path: seq<RPoint>)
    requires IsStair(o, up, i, j, path)
    ensures |path| == i + j
    decreases |path|
  {
    if i != 0 || j != 0 {
      if i > 0 && path[0] == HEdge(o, up, i - 1, j) && IsStair(o, up, i - 1, j, path[1..]) {
        StairLength(o, up, i - 1, j, path[1..]);
      } else {
        StairLength(o, up, i, j - 1, path[1..]);
      }
    }
  }

  /** No monotone route from `o` to offset `(i, j)` is cheaper than
      `Dp`. */
  lemma {:induction false} DpMinimal(cost: CostFn, o: Cell, up: bool, i: nat, j: nat, path: seq<RPoint>)
    requires IsStair(o, up, i, j, path)
    ensures Dp(cost, o, up, i, j) <= PathCost(cost, path)
    decreases |path|
  {
    if i != 0 || j != 0 {
      assert PathCost(cost, path) == RCost(cost, path[0]) + PathCost(cost, path[1..]);
      if i > 0 && path[0] == HEdge(o, up, i - 1, j) && IsStair(o, up, i - 1, j, path[1..]) {
        DpMinimal(cost, o, up, i - 1, j, path[1..]);
        assert RCost(cost, path[0]) == HCost(cost, o, up, i - 1, j);
      } else {
        DpMinimal(cost, o, up, i, j - 1, path[1..]);
        assert RCost(cost, path[0]) == VCost(cost, o, up, i, j - 1);
      }
    }
  }

  /** Offset `(i, j)` is `i + j` steps from `o`. */
  lemma MPtDist(o: Cell, up: bool, i: nat, j: nat)
    ensures Dist(MPt(o, up, i, j), o) == i + j
  {
  }

  /** One step of a stair: an edge into offset `(i, j)` from the left or
      from below, then a stair from the offset it comes from. */
  lemma StairCons(o: Cell, up: bool, i: nat, j: nat, hori: bool, rest: seq<RPoint>)
    requires if hori then i > 0 && IsStair(o, up, i - 1, j, rest) else j > 0 && IsStair(o, up, i, j - 1, rest)
    ensures IsStair(o, up, i, j, [if hori then HEdge(o, up, i - 1, j) else VEdge(o, up, i, j - 1)] + rest)
  {
    var path := [if hori then HEdge(o, up, i - 1, j) else VEdge(o, up, i, j - 1)] + rest;
    assert path[1..] == rest;
  }

  /** Following one pointer of a good entry: the trace is the edge to the
      neighbour, then the neighbour's trace, and `Dp` grows by that edge. */
  lemma TraceStep(bc: BoxCost, o: Cell, up: bool, cost: CostFn, i: nat, j: nat, hori: bool, fuel: nat)
    requires fuel > 0
    requires if hori then i > 0 else j > 0
    requires var q := if hori then MPt(o, up, i - 1, j) else MPt(o, up, i, j - 1);
      At(bc, MPt(o, up, i, j)).from == Some(q)
    ensures var q, e := if hori then MPt(o, up, i - 1, j) else MPt(o, up, i, j - 1),
                        if hori then HEdge(o, up, i - 1, j) else VEdge(o, up, i, j - 1);
      && Trace(bc, MPt(o, up, i, j), fuel) == [e] + Trace(bc, q, fuel - 1)
      && RCost(cost, e) == (if hori then HCost(cost, o, up, i - 1, j) else VCost(cost, o, up, i, j - 1))
      && PathCost(cost, [e] + Trace(bc, q, fuel - 1)) == RCost(cost, e) + PathCost(cost, Trace(bc, q, fuel - 1))
  {
    var p, q := MPt(o, up, i, j), if hori then MPt(o, up, i - 1, j) else MPt(o, up, i, j - 1);
    assert Adjacent(q, p);
    var t := [UnitEdge(q, p)] + Trace(bc, q, fuel - 1);
    assert t[1..] == Trace(bc, q, fuel - 1);
  }

  /** The trace from offset `(i, j)` of a good table is a monotone route
      back to `o` whose cost is `Dp`, given fuel for its `i + j` steps. */
  lemma {:induction false} TraceStair(bc: BoxCost, o: Cell, up: bool, cost: CostFn, w: nat, h: nat,
                                      i: nat, j: nat, fuel: nat)
    requires AllGood(bc, o, up, cost, w, h) && i <= w && j <= h && i + j <= fuel
    ensures IsStair(o, up, i, j, Trace(bc, MPt(o, up, i, j), fuel))
    ensures PathCost(cost, Trace(bc, MPt(o, up, i, j), fuel)) == Dp(cost, o, up, i, j)
    decreases i + j
  {
    var p := MPt(o, up, i, j);
    assert Good(bc, o, up, cost, i, j);
    if i == 0 && j == 0 {
      assert Trace(bc, p, fuel) == [];
    } else {
      var hori := i > 0 && At(bc, p).from == Some(MPt(o, up, i - 1, j))
                  && Dp(cost, o, up, i, j) == Dp(cost, o, up, i - 1, j) + HCost(cost, o, up, i - 1, j);
      var i', j' := if hori then i - 1 else i, if hori then j else j - 1;
      TraceStair(bc, o, up, cost, w, h, i', j', fuel - 1);
      TraceStep(bc, o, up, cost, i, j, hori, fuel);
      StairCons(o, up, i, j, hori, Trace(bc, MPt(o, up, i', j'), fuel - 1));
    }
  }

  // ---- the table's pointers -----------------------------------------------------

  /** Every point of the box is at an offset inside it. */
  lemma Offset(o: Cell, up: bool, w: nat, h: nat, c: Cell) returns (i: nat, j: nat)
    requires InBox(MBox(o, up, w, h), c)
    ensures i <= w && j <= h && MPt(o, up, i, j) == c
  {
    i := c.0 - o.0;
    j := if up then c.1 - o.1 else o.1 - c.1;
  }

  /** In a good table every point of the box is reached, and every point
      but `o` points at a neighbour that is reached too. */
  lemma TableLinked(bc: BoxCost, o: Cell, up: bool, cost: CostFn, w: nat, h: nat)
    requires Valid(bc) && bc.box == MBox(o, up, w, h) && AllGood(bc, o, up, cost, w, h)
    ensures Linked(bc, o)
  {
    forall c | At(bc, c).cost.Fin? && c != o
      ensures At(bc, c).from.Some?
    {
      var i, j := Offset(o, up, w, h, c);
      assert Good(bc, o, up, cost, i, j);
    }
    forall c | At(bc, c).cost.Fin?
      ensures At(bc, Prev(bc, c)).cost.Fin?
    {
      var i, j := Offset(o, up, w, h, c);
      assert Good(bc, o, up, cost, i, j);
      if i > 0 && At(bc, c).from == Some(MPt(o, up, i - 1, j)) {
        assert Good(bc, o, up, cost, i - 1, j);
      } else if j > 0 && At(bc, c).from == Some(MPt(o, up, i, j - 1)) {
        assert Good(bc, o, up, cost, i, j - 1);
      }
    }
  }

  /** In a good table every pointer names a neighbour one step closer to
      `o`. */
  lemma TableOriented(bc: BoxCost, o: Cell, up: bool, cost: CostFn, w: nat, h: nat)
    requires Valid(bc) && bc.box == MBox(o, up, w, h) && AllGood(bc, o, up, cost, w, h)
    ensures Oriented(bc, o)
  {
    forall c | At(bc, c).from.Some?
      ensures Adjacent(At(bc, c).from.value, c) && Dist(At(bc, c).from.value, o) + 1 == Dist(c, o)
    {
      var i, j := Offset(o, up, w, h, c);
      assert Good(bc, o, up, cost, i, j);
      MPtDist(o, up, i, j);
      if i > 0 && At(bc, c).from == Some(MPt(o, up, i - 1, j)) {
        MPtDist(o, up, i - 1, j);
      } else {
        MPtDist(o, up, i, j - 1);
      }
    }
  }

  /** The trace from the far corner of a good table is a monotone route
      back to `o` that costs exactly `Dp`. */
  lemma TableRoute(bc: BoxCost, o: Cell, up: bool, w: nat, h: nat, cost: CostFn)
    requires Valid(bc) && bc.box == MBox(o, up, w, h) && AllGood(bc, o, up, cost, w, h)
    ensures IsStair(o, up, w, h, Trace(bc, MPt(o, up, w, h), |bc.cells|))
    ensures PathCost(cost, Trace(bc, MPt(o, up, w, h), |bc.cells|)) == Dp(cost, o, up, w, h)
  {
    var p := MPt(o, up, w, h);
    assert Good(bc, o, up, cost, w, h);
    TableLinked(bc, o, up, cost, w, h);
    TableOriented(bc, o, up, cost, w, h);
    TraceLength(bc, p, o);
    TraceIsWalk(bc, p, |bc.cells|);
    MPtDist(o, up, w, h);
    TraceStair(bc, o, up, cost, w, h, w, h, |bc.cells|);
  }

  /** A monotone route that costs `Dp` is a cheapest one, and it has one
      edge per row and column of the box. */
  lemma StairOptimal(cost: CostFn, o: Cell, up: bool, w: nat, h: nat, path: seq<RPoint>)
    requires IsStair(o, up, w, h, path) && PathCost(cost, path) == Dp(cost, o, up, w, h)
    ensures |path| == w + h
    ensures forall other :: IsStair(o, up, w, h, other) ==> PathCost(cost, path) <= PathCost(cost, other)
  {
    StairLength(o, up, w, h, path);
    forall other | IsStair(o, up, w, h, other)
      ensures PathCost(cost, path) <= PathCost(cost, other)
    {
      DpMinimal(cost, o, up, w, h, other);
    }
  }

  /** `path` is a monotone route between the normalised pins `a` and `b`. */
  ghost predicate MonotoneRoute(a: Point, b: Point, path: seq<RPoint>) {
    var (f, t) := Normalize(a, b);
    IsStair((f.x, f.y), f.y <= t.y, t.x - f.x, CAbs(t.y - f.y), path)
  }

  // ---- the router ---------------------------------------------------------------

  /** The table for the box with `o` in a corner: `box(o) = 0`, `calcX`
      along the first row, `calcY` along the first column, then the two
      loops, rows outside and columns inside. Every entry ends up holding
      the cheapest monotone cost and pointing the way it is reached. */
  method BuildTable(o: Cell, up: bool, w: nat, h: nat, cost: CostFn, coin: (int, int) -> bool)
    returns (bc: BoxCost)
    ensures Valid(bc) && bc.box == MBox(o, up, w, h)
    ensures AllGood(bc, o, up, cost, w, h)
  {
    var b0 := Start(MBox(o, up, w, h), o);
    StartSeeded(o, up, w, h);
    StartDone(b0, o, up, w, h, cost);
    bc := MEdges(b0, o, up, w, h, cost);
    var j := 1;
    while j <= h
      invariant 1 <= j <= h + 1
      invariant Valid(bc) && bc.box == MBox(o, up, w, h)
      invariant Done(bc, o, up, cost, w, h, j, 1)
    {
      var i := 1;
      while i <= w
        invariant 1 <= i <= w + 1
        invariant Valid(bc) && bc.box == MBox(o, up, w, h)
        invariant Done(bc, o, up, cost, w, h, j, i)
      {
        MCellDone(bc, o, up, cost, coin, w, h, i, j);
        MCellValid(bc, o, up, cost, coin, w, h, i, j);
        bc := MCell(bc, o, up, i, j, cost, coin);
        i := i + 1;
      }
      RowDone(bc, o, up, cost, w, h, j);
      j := j + 1;
    }
    AllDone(bc, o, up, cost, w, h);
  }

  /** The path traced back from `t` through a finished table of the box
      of the normalised pins is a monotone route of Manhattan length that
      no other monotone route undercuts. */
  lemma TracedOptimal(a: Point, b: Point, f: Point, t: Point, cost: CostFn, bc: BoxCost)
    requires (f, t) == Normalize(a, b)
    requires Valid(bc) && bc.box == MBox((f.x, f.y), f.y <= t.y, t.x - f.x, CAbs(t.y - f.y))
    requires AllGood(bc, (f.x, f.y), f.y <= t.y, cost, t.x - f.x, CAbs(t.y - f.y))
    ensures |Trace(bc, (t.x, t.y), |bc.cells|)| == CAbs(b.x - a.x) + CAbs(b.y - a.y)
    ensures MonotoneRoute(a, b, Trace(bc, (t.x, t.y), |bc.cells|))
    ensures forall other :: MonotoneRoute(a, b, other) ==>
      PathCost(cost, Trace(bc, (t.x, t.y), |bc.cells|)) <= PathCost(cost, other)
  {
    var o, up, w, h := (f.x, f.y), f.y <= t.y, t.x - f.x, CAbs(t.y - f.y);
    CornerIsTarget(f, t);
    TableRoute(bc, o, up, w, h, cost);
    var p := MPt(o, up, w, h);
    assert p == (t.x, t.y);
    StairRoute(a, b, f, t, cost, Trace(bc, p, |bc.cells|));
  }

  /** A stair of the normalised box whose cost is the table's optimum is a
      monotone route of Manhattan length that no monotone route undercuts. */
  lemma StairRoute(a: Point, b: Point, f: Point, t: Point, cost: CostFn, path: seq<RPoint>)
    requires (f, t) == Normalize(a, b)
    requires IsStair((f.x, f.y), f.y <= t.y, t.x - f.x, CAbs(t.y - f.y), path)
    requires PathCost(cost, path) == Dp(cost, (f.x, f.y), f.y <= t.y, t.x - f.x, CAbs(t.y - f.y))
    ensures |path| == CAbs(b.x - a.x) + CAbs(b.y - a.y)
    ensures MonotoneRoute(a, b, path)
    ensures forall other :: MonotoneRoute(a, b, other) ==> PathCost(cost, path) <= PathCost(cost, other)
  {
    var o, up, w, h := (f.x, f.y), f.y <= t.y, t.x - f.x, CAbs(t.y - f.y);
    StairOptimal(cost, o, up, w, h, path);
    NormalizeDist(a, b);
    MonotoneIsStair(a, b, f, t, path);
    forall other | MonotoneRoute(a, b, other)
      ensures PathCost(cost, path) <= PathCost(cost, other)
    {
      MonotoneIsStair(a, b, f, t, other);
    }
  }

  lemma MonotoneIsStair(a: Point, b: Point, f: Point, t: Point, path: seq<RPoint>)
    requires (f, t) == Normalize(a, b)
    ensures MonotoneRoute(a, b, path) <==> IsStair((f.x, f.y), f.y <= t.y, t.x - f.x, CAbs(t.y - f.y), path)
  {
  }

  /** `Monotonic(tp, cost_fn)`: the table of the box of the normalised
      pins `f` and `t` (`f` on the left), then the path traced back from
      `t`. The path is a monotone route between the pins of Manhattan
      length, and no monotone route costs less under the cost functor. */
  method Route(tp: TwoPin, fn: Option<CostFn>, coin: (int, int) -> bool) returns (r: TwoPin)
    ensures r == tp.(path := r.path)
    ensures |r.path| == CAbs(tp.to.x - tp.from.x) + CAbs(tp.to.y - tp.from.y)
    ensures MonotoneRoute(tp.from, tp.to, r.path)
    ensures forall path :: MonotoneRoute(tp.from, tp.to, path) ==> PathCost(CostOf(fn), r.path) <= PathCost(CostOf(fn), path)
  {
    var (f, t) := Normalize(tp.from, tp.to);
    var o, up, w, h := (f.x, f.y), f.y <= t.y, t.x - f.x, CAbs(t.y - f.y);
    var bc := BuildTable(o, up, w, h, CostOf(fn), coin);
    TracedOptimal(tp.from, tp.to, f, t, CostOf(fn), bc);
    r := tp.(path := Trace(bc, (t.x, t.y), |bc.cells|));
  }
}
