/** The cost boxes shared by the pattern routers (`BoxCost`, `calcX`,
    `calcY` and `trace` in `src/router/patterns.cpp`, repeated in
    `src/router/hum.cpp` with the grid's edge cost in place of the cost
    functor). A box covers the grid points [L, R] × [B, U];
    each point holds the cheapest cost found so far (initially infinite)
    and the neighbour it was reached from. */
module Sweep {
  import opened Wrappers
  import opened Utils
  import opened IspdTypes
  import GridGraph

  /** A `double` path cost: a sum of edge costs, or `INFINITY`. */
  datatype Cost = Fin(n: nat) | Inf

  /** Adding an edge cost; `INFINITY` absorbs it. */
  function Plus(c: Cost, e: nat): (r: Cost)
    ensures r.Inf? <==> c.Inf?
  {
    match c
    case Inf => Inf
    case Fin(n) => Fin(n + e)
  }

  /** `a <= b` on doubles, `INFINITY <= INFINITY` included. */
  predicate Le(a: Cost, b: Cost) {
    b.Inf? || (a.Fin? && a.n <= b.n)
  }

  /** `a < b` on doubles. */
  predicate Lt(a: Cost, b: Cost) {
    !Le(b, a)
  }

  /** `std::min(a, b)`: `b` only when it is strictly smaller. */
  function MinCost(a: Cost, b: Cost): (r: Cost)
    ensures Le(r, a) && Le(r, b) && (r == a || r == b)
  {
    if Lt(b, a) then b else a
  }

  /** The cost of edge (x, y, hori) under a router's cost functor. */
  type CostFn = (int, int, bool) -> nat

  /** A grid point (x, y); the layer of a `from` point is always 0. */
  type Cell = (int, int)

  datatype Data = Data(cost: Cost, from: Option<Cell>)

  datatype Box = Box(L: int, R: int, B: int, U: int)

  /** `Box(f, t)`: the bounding box of the two pins. */
  function BoxOf(f: Point, t: Point): (b: Box)
    ensures InBox(b, (f.x, f.y)) && InBox(b, (t.x, t.y))
    ensures b.R - b.L == CAbs(t.x - f.x) && b.U - b.B == CAbs(t.y - f.y)
  {
    Box(Min(f.x, t.x), Max(f.x, t.x), Min(f.y, t.y), Max(f.y, t.y))
  }

  function Min(a: int, b: int): int { if a < b then a else b }
  function Max(a: int, b: int): int { if a < b then b else a }

  predicate InBox(b: Box, c: Cell) {
    b.L <= c.0 <= b.R && b.B <= c.1 <= b.U
  }

  predicate Proper(b: Box) {
    b.L <= b.R && b.B <= b.U
  }

  datatype BoxCost = BoxCost(box: Box, cells: map<Cell, Data>)

  /** One entry per point of the box, and every `from` is a point of the
      box. */
  ghost predicate Valid(bc: BoxCost) {
    && Proper(bc.box)
    && (forall c :: c in bc.cells <==> InBox(bc.box, c))
    && (forall c :: c in bc.cells && bc.cells[c].from.Some? ==> bc.cells[c].from.value in bc.cells)
  }

  /** `BoxCost(box)`: every point at infinite cost and unreached. */
  function Fresh(b: Box): (bc: BoxCost)
    requires Proper(b)
    ensures Valid(bc) && bc.box == b
    ensures forall c :: c in bc.cells ==> bc.cells[c] == Data(Inf, None)
  {
    BoxCost(b, map x, y | b.L <= x <= b.R && b.B <= y <= b.U :: (x, y) := Data(Inf, None))
  }

  /** Reading one point; outside the box nothing is stored and the read
      sees an unreached point. */
  function At(bc: BoxCost, c: Cell): Data {
    if c in bc.cells then bc.cells[c] else Data(Inf, None)
  }

  /** Writing one point of the box. */
  function Put(bc: BoxCost, c: Cell, d: Data): (r: BoxCost)
    ensures r.box == bc.box
    ensures Valid(bc) && InBox(bc.box, c) && (d.from.Some? ==> InBox(bc.box, d.from.value)) ==> Valid(r)
    ensures At(r, c) == d && forall c2 :: c2 != c ==> At(r, c2) == At(bc, c2)
  {
    bc.(cells := bc.cells[c := d])
  }

  /** `box(p) = {cost 0, from nullopt}`: the start of a search. */
  function Start(b: Box, p: Cell): (bc: BoxCost)
    requires Proper(b) && InBox(b, p)
    ensures Valid(bc) && bc.box == b
    ensures bc.cells[p] == Data(Fin(0), None)
    ensures forall c :: c in bc.cells && c != p ==> bc.cells[c] == Data(Inf, None)
  {
    Put(Fresh(b), p, Data(Fin(0), None))
  }

  // ---- the flat vector behind a box ---------------------------------------

  function Height(b: Box): nat
    requires Proper(b)
  {
    b.U - b.B + 1
  }

  function Width(b: Box): nat
    requires Proper(b)
  {
    b.R - b.L + 1
  }

  /** `operator()(x, y)`: the slot `(x - L) * height + (y - B)`. */
  function Idx(b: Box, c: Cell): int
    requires Proper(b)
  {
    (c.0 - b.L) * Height(b) + (c.1 - b.B)
  }

  /** The point stored in slot `i`. */
  function CellAt(b: Box, i: int): Cell
    requires Proper(b)
  {
    (b.L + i / Height(b), b.B + i % Height(b))
  }

  /** Slot `q * h + r` of a column of height `h` holds digit `q` and
      remainder `r`. */
  lemma DivModOf(q: nat, r: nat, h: nat)
    requires r < h
    ensures (q * h + r) / h == q && (q * h + r) % h == r
  {
    var i := q * h + r;
    GridGraph.DigitsUnique(i % h, i / h, r, q, h);
  }

  /** Each point of the box has a slot in [0, width * height), and that
      slot holds the point. */
  lemma IdxInRange(b: Box, c: Cell)
    requires Proper(b) && InBox(b, c)
    ensures 0 <= Idx(b, c) < Width(b) * Height(b) && CellAt(b, Idx(b, c)) == c
  {
    var q, r := c.0 - b.L, c.1 - b.B;
    GridGraph.MulLe(q + 1, Height(b), Width(b), Height(b));
    DivModOf(q, r, Height(b));
  }

  /** Each slot in [0, width * height) holds a point of the box whose slot
      it is. */
  lemma CellAtInBox(b: Box, i: int)
    requires Proper(b) && 0 <= i < Width(b) * Height(b)
    ensures InBox(b, CellAt(b, i)) && Idx(b, CellAt(b, i)) == i
  {
    var h := Height(b);
    if i / h >= Width(b) {
      GridGraph.MulLe(Width(b), h, i / h, h);
    }
  }

  // ---- calcX / calcY -------------------------------------------------------

  /** Point `k` of a sweep line: column `k` of row `fixed` for `calcX`
      (`hori`), row `k` of column `fixed` for `calcY`. */
  function LineCell(hori: bool, fixed: int, k: int): Cell {
    if hori then (k, fixed) else (fixed, k)
  }

  /** Position of a point along a line of the given orientation. */
  function Pos(hori: bool, c: Cell): int {
    if hori then c.0 else c.1
  }

  predicate OnLine(hori: bool, fixed: int, c: Cell) {
    (if hori then c.1 else c.0) == fixed
  }

  /** The edge between line positions `p` and `k`: `(min, y, true)` in a
      row, `(x, min, false)` in a column. */
  function LineEdge(hori: bool, fixed: int, p: int, k: int): (int, int, bool) {
    if hori then (Min(p, k), fixed, true) else (fixed, Min(p, k), false)
  }

  function EdgeCost(cost: CostFn, e: (int, int, bool)): nat {
    cost(e.0, e.1, e.2)
  }

  /** Every point of the line between positions `a` and `b` is in the box. */
  predicate LineInBox(b: Box, hori: bool, fixed: int, a: int, e: int) {
    if hori then b.B <= fixed <= b.U && b.L <= a <= b.R && b.L <= e <= b.R
    else b.L <= fixed <= b.R && b.B <= a <= b.U && b.B <= e <= b.U
  }

  /** `k` lies after `p`, up to and including `e`, walking in direction `d`. */
  predicate After(p: int, e: int, d: int, k: int) {
    if d == 1 then p < k <= e else e <= k < p
  }

  predicate Towards(p: int, e: int, d: int) {
    (d == 1 && p <= e) || (d == -1 && e <= p)
  }

  /** Moving one position towards the end keeps the end ahead and shortens
      the rest of the line. */
  lemma TowardsStep(p: int, e: int, d: int)
    requires Towards(p, e, d) && p != e
    ensures Towards(p + d, e, d) && CAbs(e - (p + d)) < CAbs(e - p)
  {
  }

  /** One turn of the loop of `calcX`/`calcY`: the point after `p` is
      reached from `p` at `pc` plus the edge between them; when it is no
      cheaper that way it keeps its entry and its own cost is handed on as
      the next `pc`, otherwise it is rewritten. */
  function Step(bc: BoxCost, hori: bool, fixed: int, p: int, d: int, pc: Cost, cost: CostFn): (BoxCost, Cost) {
    var k := p + d;
    var c := LineCell(hori, fixed, k);
    var cc := Plus(pc, EdgeCost(cost, LineEdge(hori, fixed, p, k)));
    var cur := At(bc, c).cost;
    if Le(cur, cc) then (bc, cur) else (Put(bc, c, Data(cc, Some(LineCell(hori, fixed, p)))), cc)
  }

  /** The loop of `calcX`/`calcY` from position `p`, whose cost is `pc`,
      to `e` in direction `d`. */
  function SweepFrom(bc: BoxCost, hori: bool, fixed: int, p: int, e: int, d: int, pc: Cost, cost: CostFn)
    : (r: BoxCost)
    requires Towards(p, e, d)
    ensures r.box == bc.box
    decreases CAbs(e - p)
  {
    if p == e then bc
    else
      var s := Step(bc, hori, fixed, p, d, pc, cost);
      SweepFrom(s.0, hori, fixed, p + d, e, d, s.1, cost)
  }

  /** `calcX(box, y, bx, ex)` when `hori`, `calcY(box, x, by, ey)`
      otherwise: nothing when the two ends coincide, else the loop from
      `b` with the cost stored at `b`. */
  function Sweep(bc: BoxCost, hori: bool, fixed: int, b: int, e: int, cost: CostFn): (r: BoxCost)
    requires Valid(bc) && LineInBox(bc.box, hori, fixed, b, e)
    ensures Valid(r) && r.box == bc.box
  {
    var d := Sign(e - b);
    if d == 0 then bc
    else
      SweepFromValid(bc, hori, fixed, b, e, d, At(bc, LineCell(hori, fixed, b)).cost, cost);
      SweepFrom(bc, hori, fixed, b, e, d, At(bc, LineCell(hori, fixed, b)).cost, cost)
  }

  function CalcX(bc: BoxCost, y: int, bx: int, ex: int, cost: CostFn): (r: BoxCost)
    requires Valid(bc) && LineInBox(bc.box, true, y, bx, ex)
    ensures Valid(r) && r.box == bc.box
  {
    Sweep(bc, true, y, bx, ex, cost)
  }

  /** `calcY(box, x, by, ey)`. */
  function CalcY(bc: BoxCost, x: int, yb: int, ye: int, cost: CostFn): (r: BoxCost)
    requires Valid(bc) && LineInBox(bc.box, false, x, yb, ye)
    ensures Valid(r) && r.box == bc.box
  {
    Sweep(bc, false, x, yb, ye, cost)
  }

  // ---- what a sweep does ---------------------------------------------------

  /** One turn changes at most the point after `p`, never raises its cost,
      hands on that point's new cost, and rewrites it only to the route
      through `p`. */
  lemma StepFacts(bc: BoxCost, hori: bool, fixed: int, p: int, d: int, pc: Cost, cost: CostFn)
    ensures var s := Step(bc, hori, fixed, p, d, pc, cost);
      var lc := LineCell(hori, fixed, p + d);
      var via := Plus(pc, EdgeCost(cost, LineEdge(hori, fixed, p, p + d)));
      && s.0.box == bc.box
      && (forall c :: c != lc ==> At(s.0, c) == At(bc, c))
      && At(s.0, lc).cost == s.1
      && Le(s.1, via) && Le(s.1, At(bc, lc).cost)
      && (At(s.0, lc) != At(bc, lc) ==> At(s.0, lc) == Data(via, Some(LineCell(hori, fixed, p))))
      && (pc.Inf? && At(bc, lc).cost.Inf? ==> s == (bc, Inf))
  {
  }

  lemma StepValid(bc: BoxCost, hori: bool, fixed: int, p: int, e: int, d: int, pc: Cost, cost: CostFn)
    requires Valid(bc) && Towards(p, e, d) && p != e && LineInBox(bc.box, hori, fixed, p, e)
    ensures var s := Step(bc, hori, fixed, p, d, pc, cost);
      Valid(s.0) && s.0.box == bc.box && LineInBox(s.0.box, hori, fixed, p + d, e)
  {
    assert InBox(bc.box, LineCell(hori, fixed, p + d)) && InBox(bc.box, LineCell(hori, fixed, p));
  }

  lemma {:induction false} SweepFromValid(bc: BoxCost, hori: bool, fixed: int, p: int, e: int, d: int,
                                          pc: Cost, cost: CostFn)
    requires Valid(bc) && Towards(p, e, d) && LineInBox(bc.box, hori, fixed, p, e)
    ensures Valid(SweepFrom(bc, hori, fixed, p, e, d, pc, cost))
    decreases CAbs(e - p)
  {
    if p != e {
      TowardsStep(p, e, d);
      StepValid(bc, hori, fixed, p, e, d, pc, cost);
      var s := Step(bc, hori, fixed, p, d, pc, cost);
      SweepFromValid(s.0, hori, fixed, p + d, e, d, s.1, cost);
    }
  }

  /** A sweep touches only the points after its start on its own line. */
  lemma {:induction false} SweepFromFrame(bc: BoxCost, hori: bool, fixed: int, p: int, e: int, d: int,
                                          pc: Cost, cost: CostFn, c: Cell)
    requires Towards(p, e, d)
    requires !(OnLine(hori, fixed, c) && After(p, e, d, Pos(hori, c)))
    ensures At(SweepFrom(bc, hori, fixed, p, e, d, pc, cost), c) == At(bc, c)
    decreases CAbs(e - p)
  {
    if p != e {
      TowardsStep(p, e, d);
      StepFacts(bc, hori, fixed, p, d, pc, cost);
      var s := Step(bc, hori, fixed, p, d, pc, cost);
      assert c != LineCell(hori, fixed, p + d);
      SweepFromFrame(s.0, hori, fixed, p + d, e, d, s.1, cost, c);
    }
  }

  /** A sweep never raises a cost. */
  lemma {:induction false} SweepFromLowers(bc: BoxCost, hori: bool, fixed: int, p: int, e: int, d: int,
                                           pc: Cost, cost: CostFn, c: Cell)
    requires Towards(p, e, d)
    ensures Le(At(SweepFrom(bc, hori, fixed, p, e, d, pc, cost), c).cost, At(bc, c).cost)
    decreases CAbs(e - p)
  {
    if p != e {
      TowardsStep(p, e, d);
      StepFacts(bc, hori, fixed, p, d, pc, cost);
      var s := Step(bc, hori, fixed, p, d, pc, cost);
      SweepFromLowers(s.0, hori, fixed, p + d, e, d, s.1, cost, c);
    }
  }

  /** All points of the line infinite: `pc` stays infinite, every
      comparison keeps the stored entry, and nothing changes. */
  lemma {:induction false} SweepFromInf(bc: BoxCost, hori: bool, fixed: int, p: int, e: int, d: int, cost: CostFn)
    requires Towards(p, e, d)
    requires forall k :: After(p, e, d, k) ==> At(bc, LineCell(hori, fixed, k)).cost.Inf?
    ensures SweepFrom(bc, hori, fixed, p, e, d, Inf, cost) == bc
    decreases CAbs(e - p)
  {
    if p != e {
      TowardsStep(p, e, d);
      assert After(p, e, d, p + d);
      StepFacts(bc, hori, fixed, p, d, Inf, cost);
      SweepFromInf(bc, hori, fixed, p + d, e, d, cost);
    }
  }

  /** Along the line, every point ends up no dearer than its predecessor
      plus the edge between them, and a point the sweep rewrote was
      reached from exactly that predecessor at exactly that cost. */
  lemma {:induction false} SweepFromRelaxes(bc: BoxCost, hori: bool, fixed: int, p: int, e: int, d: int,
                                            pc: Cost, cost: CostFn, k: int)
    requires Towards(p, e, d)
    requires pc == At(bc, LineCell(hori, fixed, p)).cost
    requires After(p, e, d, k)
    ensures var r := SweepFrom(bc, hori, fixed, p, e, d, pc, cost);
      var c := LineCell(hori, fixed, k);
      var prev := LineCell(hori, fixed, k - d);
      var via := Plus(At(r, prev).cost, EdgeCost(cost, LineEdge(hori, fixed, k - d, k)));
      && Le(At(r, c).cost, via)
      && (At(r, c) != At(bc, c) ==> At(r, c) == Data(via, Some(prev)))
    decreases CAbs(e - p)
  {
    TowardsStep(p, e, d);
    var q := p + d;
    StepFacts(bc, hori, fixed, p, d, pc, cost);
    var s := Step(bc, hori, fixed, p, d, pc, cost);
    if k == q {
      if q != e {
        SweepFromFrame(s.0, hori, fixed, q, e, d, s.1, cost, LineCell(hori, fixed, q));
      }
      SweepFromFrame(s.0, hori, fixed, q, e, d, s.1, cost, LineCell(hori, fixed, p));
    } else {
      SweepFromRelaxes(s.0, hori, fixed, q, e, d, s.1, cost, k);
    }
  }

  // ---- what a table keeps ---------------------------------------------------

  /** Manhattan distance between two points. */
  function Dist(a: Cell, b: Cell): nat {
    CAbs(a.0 - b.0) + CAbs(a.1 - b.1)
  }

  predicate Adjacent(a: Cell, b: Cell) {
    Dist(a, b) == 1
  }

  /** The point `p`'s pointer names, `p` itself when there is none. */
  function Prev(bc: BoxCost, p: Cell): Cell {
    match At(bc, p).from
    case Some(q) => q
    case None => p
  }

  /** Every point reached at finite cost other than the origin `o` has a
      pointer, and a point reached at finite cost points at a point reached
      at finite cost. (Clauses that follow a pointer are keyed on `Prev`, so
      that following pointers is a step a proof takes, not the solver.) */
  ghost predicate Linked(bc: BoxCost, o: Cell) {
    && (forall c :: At(bc, c).cost.Fin? && c != o ==> At(bc, c).from.Some?)
    && (forall c {:trigger Prev(bc, c)} :: At(bc, c).cost.Fin? ==> At(bc, Prev(bc, c)).cost.Fin?)
  }

  /** Every pointer names a neighbour one step closer to `o`. */
  ghost predicate Oriented(bc: BoxCost, o: Cell) {
    forall c :: At(bc, c).from.Some? ==>
      Adjacent(At(bc, c).from.value, c) && Dist(At(bc, c).from.value, o) + 1 == Dist(c, o)
  }

  /** The cost of a routing edge under a cost functor. */
  function RCost(cost: CostFn, r: RPoint): nat {
    cost(r.x, r.y, r.hori)
  }

  /** Every pointer names a neighbour; both are reached at finite cost, and
      the point's cost covers its neighbour's plus the edge between them. */
  ghost predicate Accounted(bc: BoxCost, cost: CostFn) {
    forall c {:trigger Prev(bc, c)} :: At(bc, c).from.Some? ==>
      && Adjacent(Prev(bc, c), c) && At(bc, c).cost.Fin? && At(bc, Prev(bc, c)).cost.Fin?
      && At(bc, Prev(bc, c)).cost.n + RCost(cost, UnitEdge(Prev(bc, c), c)) <= At(bc, c).cost.n
  }

  /** Walking from line position `p` in direction `d` moves away from `o`. */
  predicate Away(hori: bool, p: int, d: int, o: Cell) {
    d * (p - Pos(hori, o)) >= 0
  }

  lemma AwayStep(hori: bool, fixed: int, p: int, d: int, o: Cell)
    requires Away(hori, p, d, o) && (d == 1 || d == -1)
    ensures Away(hori, p + d, d, o)
    ensures Dist(LineCell(hori, fixed, p + d), o) == Dist(LineCell(hori, fixed, p), o) + 1
  {
  }

  /** The sweep's edge between two positions is the edge `trace` emits for
      the step between the two points. */
  lemma LineEdgeIsUnit(hori: bool, fixed: int, p: int, d: int, cost: CostFn)
    requires d == 1 || d == -1
    ensures Adjacent(LineCell(hori, fixed, p), LineCell(hori, fixed, p + d))
    ensures RCost(cost, UnitEdge(LineCell(hori, fixed, p), LineCell(hori, fixed, p + d)))
         == EdgeCost(cost, LineEdge(hori, fixed, p, p + d))
  {
  }

  lemma StepLinked(bc: BoxCost, hori: bool, fixed: int, p: int, d: int, pc: Cost, cost: CostFn, o: Cell)
    requires Linked(bc, o) && (d == 1 || d == -1)
    requires pc == At(bc, LineCell(hori, fixed, p)).cost
    ensures var s := Step(bc, hori, fixed, p, d, pc, cost);
      Linked(s.0, o) && s.1 == At(s.0, LineCell(hori, fixed, p + d)).cost
  {
    StepFacts(bc, hori, fixed, p, d, pc, cost);
    var s := Step(bc, hori, fixed, p, d, pc, cost);
    var lc := LineCell(hori, fixed, p + d);
    assert lc != LineCell(hori, fixed, p);
    forall c | At(s.0, c).cost.Fin?
      ensures At(s.0, Prev(s.0, c)).cost.Fin?
    {
      if c == lc && At(s.0, c) != At(bc, c) {
        assert Prev(s.0, c) == LineCell(hori, fixed, p);
      } else {
        assert Prev(s.0, c) == Prev(bc, c);
      }
    }
  }

  lemma StepAccounted(bc: BoxCost, hori: bool, fixed: int, p: int, d: int, pc: Cost, cost: CostFn)
    requires Accounted(bc, cost) && (d == 1 || d == -1)
    requires pc == At(bc, LineCell(hori, fixed, p)).cost
    ensures Accounted(Step(bc, hori, fixed, p, d, pc, cost).0, cost)
  {
    StepFacts(bc, hori, fixed, p, d, pc, cost);
    LineEdgeIsUnit(hori, fixed, p, d, cost);
    var s := Step(bc, hori, fixed, p, d, pc, cost);
    var lc := LineCell(hori, fixed, p + d);
    forall c | At(s.0, c).from.Some?
      ensures && Adjacent(Prev(s.0, c), c) && At(s.0, c).cost.Fin? && At(s.0, Prev(s.0, c)).cost.Fin?
              && At(s.0, Prev(s.0, c)).cost.n + RCost(cost, UnitEdge(Prev(s.0, c), c)) <= At(s.0, c).cost.n
    {
      if c == lc && At(s.0, c) != At(bc, c) {
        assert Prev(s.0, c) == LineCell(hori, fixed, p);
      } else {
        assert Prev(s.0, c) == Prev(bc, c);
      }
    }
  }

  lemma StepOriented(bc: BoxCost, hori: bool, fixed: int, p: int, d: int, pc: Cost, cost: CostFn, o: Cell)
    requires Oriented(bc, o) && Away(hori, p, d, o) && (d == 1 || d == -1)
    ensures Oriented(Step(bc, hori, fixed, p, d, pc, cost).0, o)
  {
    StepFacts(bc, hori, fixed, p, d, pc, cost);
    AwayStep(hori, fixed, p, d, o);
    LineEdgeIsUnit(hori, fixed, p, d, cost);
  }

  /** A sweep keeps a table linked and accounted. */
  lemma {:induction false} SweepFromSound(bc: BoxCost, hori: bool, fixed: int, p: int, e: int, d: int,
                                          pc: Cost, cost: CostFn, o: Cell)
    requires Towards(p, e, d) && Linked(bc, o) && Accounted(bc, cost)
    requires pc == At(bc, LineCell(hori, fixed, p)).cost
    ensures var r := SweepFrom(bc, hori, fixed, p, e, d, pc, cost);
      Linked(r, o) && Accounted(r, cost)
    decreases CAbs(e - p)
  {
    if p != e {
      TowardsStep(p, e, d);
      StepLinked(bc, hori, fixed, p, d, pc, cost, o);
      StepAccounted(bc, hori, fixed, p, d, pc, cost);
      var s := Step(bc, hori, fixed, p, d, pc, cost);
      SweepFromSound(s.0, hori, fixed, p + d, e, d, s.1, cost, o);
    }
  }

  /** A sweep that starts at or beyond `o` and walks away from it keeps the
      table oriented towards `o`. */
  lemma {:induction false} SweepFromOriented(bc: BoxCost, hori: bool, fixed: int, p: int, e: int, d: int,
                                             pc: Cost, cost: CostFn, o: Cell)
    requires Towards(p, e, d) && Oriented(bc, o) && Away(hori, p, d, o)
    ensures Oriented(SweepFrom(bc, hori, fixed, p, e, d, pc, cost), o)
    decreases CAbs(e - p)
  {
    if p != e {
      StepOrientedAway(bc, hori, fixed, p, e, d, pc, cost, o);
      var s := Step(bc, hori, fixed, p, d, pc, cost);
      SweepFromOriented(s.0, hori, fixed, p + d, e, d, s.1, cost, o);
    }
  }

  /** One outward turn keeps the table oriented and the rest of the sweep
      outward. */
  lemma StepOrientedAway(bc: BoxCost, hori: bool, fixed: int, p: int, e: int, d: int,
                         pc: Cost, cost: CostFn, o: Cell)
    requires Towards(p, e, d) && p != e && Oriented(bc, o) && Away(hori, p, d, o)
    ensures Oriented(Step(bc, hori, fixed, p, d, pc, cost).0, o)
    ensures Towards(p + d, e, d) && CAbs(e - (p + d)) < CAbs(e - p) && Away(hori, p + d, d, o)
  {
    TowardsStep(p, e, d);
    StepOriented(bc, hori, fixed, p, d, pc, cost, o);
    AwayStep(hori, fixed, p, d, o);
  }

  /** A sweep whose start is reached at finite cost reaches every point
      after it at finite cost. */
  lemma {:induction false} SweepFromFin(bc: BoxCost, hori: bool, fixed: int, p: int, e: int, d: int,
                                        pc: Cost, cost: CostFn, k: int)
    requires Towards(p, e, d) && pc.Fin? && After(p, e, d, k)
    ensures At(SweepFrom(bc, hori, fixed, p, e, d, pc, cost), LineCell(hori, fixed, k)).cost.Fin?
    decreases CAbs(e - p)
  {
    TowardsStep(p, e, d);
    StepFacts(bc, hori, fixed, p, d, pc, cost);
    var s := Step(bc, hori, fixed, p, d, pc, cost);
    if k == p + d {
      SweepFromLowers(s.0, hori, fixed, p + d, e, d, s.1, cost, LineCell(hori, fixed, k));
    } else {
      SweepFromFin(s.0, hori, fixed, p + d, e, d, s.1, cost, k);
    }
  }

  // ---- following the pointers back -----------------------------------------

  /** The edge between two neighbouring points as `trace` emits it:
      `(min x, y, true)` for a horizontal step, `(x, min y, false)` for a
      vertical one. */
  function UnitEdge(prev: Cell, p: Cell): RPoint {
    if CAbs(prev.0 - p.0) == 1 then RPoint2(Min(prev.0, p.0), prev.1, true)
    else RPoint2(prev.0, Min(prev.1, p.1), false)
  }

  /** The two end points of a routing edge: its own point and the one to
      the right of it (horizontal) or above it (vertical). */
  function Ends(r: RPoint): (Cell, Cell) {
    if r.hori then ((r.x, r.y), (r.x + 1, r.y)) else ((r.x, r.y), (r.x, r.y + 1))
  }

  /** The emitted edge is the layer-0 edge joining the two points, the same
      whichever way the step is taken. */
  lemma UnitEdgeEnds(a: Cell, b: Cell)
    requires Adjacent(a, b)
    ensures UnitEdge(a, b).z == 0
    ensures Ends(UnitEdge(a, b)) == (a, b) || Ends(UnitEdge(a, b)) == (b, a)
    ensures UnitEdge(a, b) == UnitEdge(b, a)
  {
  }

  /** The summed cost of a path. */
  function PathCost(cost: CostFn, path: seq<RPoint>): nat {
    if path == [] then 0 else RCost(cost, path[0]) + PathCost(cost, path[1..])
  }

  lemma {:induction false} PathCostAppend(cost: CostFn, a: seq<RPoint>, b: seq<RPoint>)
    ensures PathCost(cost, a + b) == PathCost(cost, a) + PathCost(cost, b)
    decreases |a|
  {
    if a == [] {
      assert a + b == b;
    } else {
      assert (a + b)[1..] == a[1..] + b;
      PathCostAppend(cost, a[1..], b);
    }
  }

  /** `trace(path, p)`: from `p`, follow `from` while it names a neighbour,
      emitting the edge of each step. `fuel` bounds the steps. */
  function Trace(bc: BoxCost, p: Cell, fuel: nat): seq<RPoint>
    decreases fuel
  {
    if fuel == 0 then []
    else match At(bc, p).from
      case None => []
      case Some(q) => if Adjacent(q, p) then [UnitEdge(q, p)] + Trace(bc, q, fuel - 1) else []
  }

  /** The points the same loop visits, `p` first. */
  function Walk(bc: BoxCost, p: Cell, fuel: nat): seq<Cell>
    decreases fuel
  {
    if fuel == 0 then [p]
    else match At(bc, p).from
      case None => [p]
      case Some(q) => if Adjacent(q, p) then [p] + Walk(bc, q, fuel - 1) else [p]
  }

  /** The trace is the sequence of edges between consecutive points of the
      walk; consecutive points are neighbours, each the pointer of the one
      before; and the walk stops early only at a point without a pointer to
      a neighbour. */
  lemma {:induction false} TraceIsWalk(bc: BoxCost, p: Cell, fuel: nat)
    ensures |Walk(bc, p, fuel)| >= 1 && Walk(bc, p, fuel)[0] == p && |Walk(bc, p, fuel)| <= fuel + 1
    ensures |Trace(bc, p, fuel)| == |Walk(bc, p, fuel)| - 1
    ensures forall i :: 0 <= i < |Walk(bc, p, fuel)| - 1 ==>
      && Adjacent(Walk(bc, p, fuel)[i + 1], Walk(bc, p, fuel)[i])
      && Prev(bc, Walk(bc, p, fuel)[i]) == Walk(bc, p, fuel)[i + 1]
      && Trace(bc, p, fuel)[i] == UnitEdge(Walk(bc, p, fuel)[i + 1], Walk(bc, p, fuel)[i])
    ensures var w := Walk(bc, p, fuel);
      |w| <= fuel ==> At(bc, w[|w| - 1]).from.None? || !Adjacent(Prev(bc, w[|w| - 1]), w[|w| - 1])
    decreases fuel
  {
    if fuel > 0 && At(bc, p).from.Some? && Adjacent(Prev(bc, p), p) {
      TraceIsWalk(bc, Prev(bc, p), fuel - 1);
    }
  }

  /** A sequence without repeats drawn from a set is no longer than the
      set. */
  lemma {:induction false} NoRepeatsBound<T>(w: seq<T>, S: set<T>)
    requires forall i :: 0 <= i < |w| ==> w[i] in S
    requires forall i, j :: 0 <= i < j < |w| ==> w[i] != w[j]
    ensures |w| <= |S|
  {
    if |w| > 0 {
      NoRepeatsBound(w[1..], S - {w[0]});
    }
  }

  /** Along the pointers of a linked table, a walk from a point reached at
      finite cost stays in the box on points reached at finite cost, and a
      measure that every pointer lowers falls strictly along it. */
  lemma {:induction false} WalkRanked(bc: BoxCost, p: Cell, fuel: nat, o: Cell, rank: Cell -> int)
    requires Valid(bc) && p in bc.cells && Linked(bc, o) && At(bc, p).cost.Fin?
    requires forall c :: At(bc, c).from.Some? && At(bc, c).cost.Fin? ==> rank(Prev(bc, c)) < rank(c)
    ensures forall i :: 0 <= i < |Walk(bc, p, fuel)| ==>
      Walk(bc, p, fuel)[i] in bc.cells && At(bc, Walk(bc, p, fuel)[i]).cost.Fin? && rank(Walk(bc, p, fuel)[i]) <= rank(p)
    ensures forall i, j :: 0 <= i < j < |Walk(bc, p, fuel)| ==> rank(Walk(bc, p, fuel)[j]) < rank(Walk(bc, p, fuel)[i])
    decreases fuel
  {
    var w := Walk(bc, p, fuel);
    if fuel > 0 && At(bc, p).from.Some? && Adjacent(Prev(bc, p), p) {
      var q := Prev(bc, p);
      assert q in bc.cells && At(bc, q).cost.Fin? && rank(q) < rank(p);
      WalkRanked(bc, q, fuel - 1, o, rank);
      var w1 := Walk(bc, q, fuel - 1);
      assert w == [p] + w1;
      assert forall i :: 0 < i < |w| ==> w[i] == w1[i - 1];
      forall i | 0 < i < |w|
        ensures w[i] in bc.cells && At(bc, w[i]).cost.Fin? && rank(w[i]) < rank(p)
      {
      }
      forall i, j | 0 <= i < j < |w|
        ensures rank(w[j]) < rank(w[i])
      {
      }
    } else {
      assert w == [p];
    }
  }

  /** With every pointer naming a neighbour and lowering some measure, the
      trace from a point reached at finite cost runs to the origin: fuel
      for as many steps as the box has points never cuts it short. */
  lemma TraceReaches(bc: BoxCost, p: Cell, o: Cell, rank: Cell -> int)
    requires Valid(bc) && p in bc.cells && Linked(bc, o) && At(bc, p).cost.Fin?
    requires forall c :: At(bc, c).from.Some? ==> Adjacent(Prev(bc, c), c)
    requires forall c :: At(bc, c).from.Some? && At(bc, c).cost.Fin? ==> rank(Prev(bc, c)) < rank(c)
    ensures Walk(bc, p, |bc.cells|)[|Walk(bc, p, |bc.cells|)| - 1] == o
    ensures forall i, j :: 0 <= i < j < |Walk(bc, p, |bc.cells|)| ==>
      Walk(bc, p, |bc.cells|)[i] != Walk(bc, p, |bc.cells|)[j]
  {
    var w := Walk(bc, p, |bc.cells|);
    TraceIsWalk(bc, p, |bc.cells|);
    WalkRanked(bc, p, |bc.cells|, o, rank);
    NoRepeatsBound(w, bc.cells.Keys);
    var last := w[|w| - 1];
    assert At(bc, last).cost.Fin?;
  }

  /** In a table oriented towards `o`, each step of a walk is one step
      closer to `o`. */
  lemma {:induction false} WalkCloser(bc: BoxCost, p: Cell, fuel: nat, o: Cell)
    requires Oriented(bc, o)
    ensures forall i :: 0 <= i < |Walk(bc, p, fuel)| ==> Dist(Walk(bc, p, fuel)[i], o) + i == Dist(p, o)
    decreases fuel
  {
    var w := Walk(bc, p, fuel);
    if fuel > 0 && At(bc, p).from.Some? && Adjacent(Prev(bc, p), p) {
      var q := Prev(bc, p);
      assert Dist(q, o) + 1 == Dist(p, o);
      WalkCloser(bc, q, fuel - 1, o);
      var w1 := Walk(bc, q, fuel - 1);
      assert w == [p] + w1;
      forall i | 0 <= i < |w|
        ensures Dist(w[i], o) + i == Dist(p, o)
      {
        if i > 0 {
          assert 0 <= i - 1 < |w1|;
          assert w[i] == w1[i - 1];
          assert Dist(w1[i - 1], o) + (i - 1) == Dist(q, o);
        }
      }
    } else {
      assert w == [p];
    }
  }

  /** A trace in an oriented, linked table from a point reached at finite
      cost runs to `o` in `Dist(p, o)` unit edges. */
  lemma TraceLength(bc: BoxCost, p: Cell, o: Cell)
    requires Valid(bc) && p in bc.cells && Linked(bc, o) && Oriented(bc, o) && At(bc, p).cost.Fin?
    ensures |Trace(bc, p, |bc.cells|)| == Dist(p, o)
    ensures Walk(bc, p, |bc.cells|)[|Walk(bc, p, |bc.cells|)| - 1] == o
  {
    TraceIsWalk(bc, p, |bc.cells|);
    TraceReaches(bc, p, o, c => Dist(c, o));
    WalkCloser(bc, p, |bc.cells|, o);
  }

  /** In an accounted table, a trace costs at most the cost stored at its
      start. */
  lemma {:induction false} TraceCost(bc: BoxCost, p: Cell, fuel: nat, cost: CostFn)
    requires Accounted(bc, cost) && At(bc, p).cost.Fin?
    ensures PathCost(cost, Trace(bc, p, fuel)) <= At(bc, p).cost.n
    decreases fuel
  {
    var t := Trace(bc, p, fuel);
    if fuel > 0 && At(bc, p).from.Some? && Adjacent(Prev(bc, p), p) {
      var q := Prev(bc, p);
      TraceCost(bc, q, fuel - 1, cost);
      assert t == [UnitEdge(q, p)] + Trace(bc, q, fuel - 1);
      assert t[1..] == Trace(bc, q, fuel - 1);
    }
  }

  // ---- loops of sweeps -------------------------------------------------------

  /** The values a loop `for (p = a, x = p + d; x != e + d; p = x, x += d)`
      with `d = sign(e - a)` gives `x`: every position after `a` up to and
      including `e`. */
  function Steps(a: int, e: int): (r: seq<int>)
    decreases CAbs(e - a)
  {
    if a == e then [] else [a + Sign(e - a)] + Steps(a + Sign(e - a), e)
  }

  /** The `i`-th value is `i + 1` steps from `a` towards `e`; there are
      `|e - a|` of them, so the last is `e`. */
  lemma {:induction false} StepsValues(a: int, e: int)
    ensures |Steps(a, e)| == CAbs(e - a)
    ensures forall i :: 0 <= i < |Steps(a, e)| ==> Steps(a, e)[i] == a + Sign(e - a) * (i + 1)
    decreases CAbs(e - a)
  {
    if a != e {
      var d := Sign(e - a);
      StepsValues(a + d, e);
      assert Sign(e - (a + d)) == d || a + d == e;
      forall i | 0 <= i < |Steps(a, e)|
        ensures Steps(a, e)[i] == a + d * (i + 1)
      {
        if i > 0 {
          assert Steps(a, e)[i] == Steps(a + d, e)[i - 1];
        }
      }
    }
  }

  /** One call `calcX(box, fixed, b, e)` (`hori`) or `calcY(box, fixed, b, e)`. */
  datatype Line = Line(hori: bool, fixed: int, b: int, e: int)

  predicate Fits(b: Box, l: Line) {
    LineInBox(b, l.hori, l.fixed, l.b, l.e)
  }

  predicate AllFit(b: Box, ls: seq<Line>) {
    forall i :: 0 <= i < |ls| ==> Fits(b, ls[i])
  }

  /** The line walks away from `o` from its first point on. */
  predicate LineAway(l: Line, o: Cell) {
    Away(l.hori, l.b, Sign(l.e - l.b), o)
  }

  function SweepLine(bc: BoxCost, l: Line, cost: CostFn): (r: BoxCost)
    requires Valid(bc) && Fits(bc.box, l)
    ensures Valid(r) && r.box == bc.box
  {
    Sweep(bc, l.hori, l.fixed, l.b, l.e, cost)
  }

  /** The calls `ls` made one after another. */
  function Run(bc: BoxCost, ls: seq<Line>, cost: CostFn): (r: BoxCost)
    requires Valid(bc) && AllFit(bc.box, ls)
    ensures Valid(r) && r.box == bc.box
    decreases |ls|
  {
    if ls == [] then bc else Run(SweepLine(bc, ls[0], cost), ls[1..], cost)
  }

  lemma AllFitAppend(box: Box, a: seq<Line>, b: seq<Line>)
    ensures AllFit(box, a + b) <==> AllFit(box, a) && AllFit(box, b)
  {
    assert forall i :: 0 <= i < |a| ==> a[i] == (a + b)[i];
    assert forall i :: 0 <= i < |b| ==> b[i] == (a + b)[|a| + i];
  }

  /** Running two lists of calls one after the other is running their
      concatenation. */
  lemma {:induction false} RunAppend(bc: BoxCost, a: seq<Line>, b: seq<Line>, cost: CostFn)
    requires Valid(bc) && AllFit(bc.box, a) && AllFit(bc.box, b)
    ensures AllFit(bc.box, a + b)
    ensures Run(bc, a + b, cost) == Run(Run(bc, a, cost), b, cost)
    decreases |a|
  {
    AllFitAppend(bc.box, a, b);
    if a != [] {
      assert (a + b)[0] == a[0];
      assert (a + b)[1..] == a[1..] + b;
      RunAppend(SweepLine(bc, a[0], cost), a[1..], b, cost);
    } else {
      assert a + b == b;
    }
  }

  lemma SweepLineLowers(bc: BoxCost, l: Line, cost: CostFn, c: Cell)
    requires Valid(bc) && Fits(bc.box, l)
    ensures Le(At(SweepLine(bc, l, cost), c).cost, At(bc, c).cost)
  {
    var d := Sign(l.e - l.b);
    if d != 0 {
      SweepFromLowers(bc, l.hori, l.fixed, l.b, l.e, d, At(bc, LineCell(l.hori, l.fixed, l.b)).cost, cost, c);
    }
  }

  lemma SweepLineSound(bc: BoxCost, l: Line, cost: CostFn, o: Cell)
    requires Valid(bc) && Fits(bc.box, l) && Linked(bc, o) && Accounted(bc, cost)
    ensures Linked(SweepLine(bc, l, cost), o) && Accounted(SweepLine(bc, l, cost), cost)
  {
    var d := Sign(l.e - l.b);
    if d != 0 {
      SweepFromSound(bc, l.hori, l.fixed, l.b, l.e, d, At(bc, LineCell(l.hori, l.fixed, l.b)).cost, cost, o);
    }
  }

  lemma SweepLineOriented(bc: BoxCost, l: Line, cost: CostFn, o: Cell)
    requires Valid(bc) && Fits(bc.box, l) && Oriented(bc, o) && LineAway(l, o)
    ensures Oriented(SweepLine(bc, l, cost), o)
  {
    var d := Sign(l.e - l.b);
    if d != 0 {
      SweepFromOriented(bc, l.hori, l.fixed, l.b, l.e, d, At(bc, LineCell(l.hori, l.fixed, l.b)).cost, cost, o);
    }
  }

  /** A sweep from a point reached at finite cost reaches its whole line. */
  lemma SweepLineReaches(bc: BoxCost, l: Line, cost: CostFn, k: int)
    requires Valid(bc) && Fits(bc.box, l) && At(bc, LineCell(l.hori, l.fixed, l.b)).cost.Fin?
    requires Min(l.b, l.e) <= k <= Max(l.b, l.e)
    ensures At(SweepLine(bc, l, cost), LineCell(l.hori, l.fixed, k)).cost.Fin?
  {
    var d := Sign(l.e - l.b);
    var c := LineCell(l.hori, l.fixed, k);
    if k == l.b {
      SweepLineLowers(bc, l, cost, c);
    } else {
      SweepFromFin(bc, l.hori, l.fixed, l.b, l.e, d, At(bc, LineCell(l.hori, l.fixed, l.b)).cost, cost, k);
    }
  }

  lemma {:induction false} RunLowers(bc: BoxCost, ls: seq<Line>, cost: CostFn, c: Cell)
    requires Valid(bc) && AllFit(bc.box, ls)
    ensures Le(At(Run(bc, ls, cost), c).cost, At(bc, c).cost)
    decreases |ls|
  {
    if ls != [] {
      SweepLineLowers(bc, ls[0], cost, c);
      RunLowers(SweepLine(bc, ls[0], cost), ls[1..], cost, c);
    }
  }

  lemma {:induction false} RunSound(bc: BoxCost, ls: seq<Line>, cost: CostFn, o: Cell)
    requires Valid(bc) && AllFit(bc.box, ls) && Linked(bc, o) && Accounted(bc, cost)
    ensures Linked(Run(bc, ls, cost), o) && Accounted(Run(bc, ls, cost), cost)
    decreases |ls|
  {
    if ls != [] {
      SweepLineSound(bc, ls[0], cost, o);
      RunSound(SweepLine(bc, ls[0], cost), ls[1..], cost, o);
    }
  }

  lemma {:induction false} RunOriented(bc: BoxCost, ls: seq<Line>, cost: CostFn, o: Cell)
    requires Valid(bc) && AllFit(bc.box, ls) && Oriented(bc, o)
    requires forall i :: 0 <= i < |ls| ==> LineAway(ls[i], o)
    ensures Oriented(Run(bc, ls, cost), o)
    decreases |ls|
  {
    if ls != [] {
      SweepLineOriented(bc, ls[0], cost, o);
      RunOriented(SweepLine(bc, ls[0], cost), ls[1..], cost, o);
    }
  }

  /** A point reached at finite cost stays reached through any calls. */
  lemma RunKeepsFin(bc: BoxCost, ls: seq<Line>, cost: CostFn, c: Cell)
    requires Valid(bc) && AllFit(bc.box, ls) && At(bc, c).cost.Fin?
    ensures At(Run(bc, ls, cost), c).cost.Fin?
  {
    RunLowers(bc, ls, cost, c);
  }

  /** When the `j`-th call starts from a point already reached at finite
      cost before the calls begin, every point of its line ends up
      reached. */
  lemma {:induction false} RunReaches(bc: BoxCost, ls: seq<Line>, cost: CostFn, j: nat, k: int)
    requires Valid(bc) && AllFit(bc.box, ls) && j < |ls|
    requires At(bc, LineCell(ls[j].hori, ls[j].fixed, ls[j].b)).cost.Fin?
    requires Min(ls[j].b, ls[j].e) <= k <= Max(ls[j].b, ls[j].e)
    ensures At(Run(bc, ls, cost), LineCell(ls[j].hori, ls[j].fixed, k)).cost.Fin?
    decreases |ls|
  {
    var b1 := SweepLine(bc, ls[0], cost);
    if j == 0 {
      SweepLineReaches(bc, ls[0], cost, k);
      RunKeepsFin(b1, ls[1..], cost, LineCell(ls[0].hori, ls[0].fixed, k));
    } else {
      SweepLineLowers(bc, ls[0], cost, LineCell(ls[j].hori, ls[j].fixed, ls[j].b));
      assert ls[1..][j - 1] == ls[j];
      RunReaches(b1, ls[1..], cost, j - 1, k);
    }
  }

  /** The same, when the `j`-th call's first point is reached by the first
      call. */
  lemma RunReachesAfter(bc: BoxCost, ls: seq<Line>, cost: CostFn, j: nat, k: int)
    requires Valid(bc) && AllFit(bc.box, ls) && 0 < j < |ls|
    requires At(SweepLine(bc, ls[0], cost), LineCell(ls[j].hori, ls[j].fixed, ls[j].b)).cost.Fin?
    requires Min(ls[j].b, ls[j].e) <= k <= Max(ls[j].b, ls[j].e)
    ensures At(Run(bc, ls, cost), LineCell(ls[j].hori, ls[j].fixed, k)).cost.Fin?
  {
    assert ls[1..][j - 1] == ls[j];
    RunReaches(SweepLine(bc, ls[0], cost), ls[1..], cost, j - 1, k);
  }

  /** When the first call reaches the point the `j`-th call starts from,
      every point of the `j`-th call's line ends up reached. */
  lemma RunReachesVia(bc: BoxCost, ls: seq<Line>, cost: CostFn, j: nat, k0: int, k: int)
    requires Valid(bc) && AllFit(bc.box, ls) && 0 < j < |ls|
    requires At(bc, LineCell(ls[0].hori, ls[0].fixed, ls[0].b)).cost.Fin?
    requires Min(ls[0].b, ls[0].e) <= k0 <= Max(ls[0].b, ls[0].e)
    requires LineCell(ls[0].hori, ls[0].fixed, k0) == LineCell(ls[j].hori, ls[j].fixed, ls[j].b)
    requires Min(ls[j].b, ls[j].e) <= k <= Max(ls[j].b, ls[j].e)
    ensures At(Run(bc, ls, cost), LineCell(ls[j].hori, ls[j].fixed, k)).cost.Fin?
  {
    SweepLineReaches(bc, ls[0], cost, k0);
    RunReachesAfter(bc, ls, cost, j, k);
  }

  /** A sweep leaves alone every point that is not after its first point
      on its line. */
  lemma SweepLineFrame(bc: BoxCost, l: Line, cost: CostFn, c: Cell)
    requires Valid(bc) && Fits(bc.box, l)
    requires !(OnLine(l.hori, l.fixed, c) && After(l.b, l.e, Sign(l.e - l.b), Pos(l.hori, c)))
    ensures At(SweepLine(bc, l, cost), c) == At(bc, c)
  {
    var d := Sign(l.e - l.b);
    if d != 0 {
      SweepFromFrame(bc, l.hori, l.fixed, l.b, l.e, d, At(bc, LineCell(l.hori, l.fixed, l.b)).cost, cost, c);
    }
  }

  /** A sweep from a point reached at finite cost over a point not reached
      before sets that point to the route through its predecessor on the
      line. */
  lemma SweepLineFresh(bc: BoxCost, l: Line, cost: CostFn, d: int, k: int)
    requires Valid(bc) && Fits(bc.box, l) && At(bc, LineCell(l.hori, l.fixed, l.b)).cost.Fin?
    requires d == Sign(l.e - l.b)
    requires After(l.b, l.e, d, k) && At(bc, LineCell(l.hori, l.fixed, k)).cost.Inf?
    ensures At(SweepLine(bc, l, cost), LineCell(l.hori, l.fixed, k)) ==
      Data(Plus(At(SweepLine(bc, l, cost), LineCell(l.hori, l.fixed, k - d)).cost,
                EdgeCost(cost, LineEdge(l.hori, l.fixed, k - d, k))),
           Some(LineCell(l.hori, l.fixed, k - d)))
  {
    SweepFromFresh(bc, l.hori, l.fixed, l.b, l.e, d, At(bc, LineCell(l.hori, l.fixed, l.b)).cost, cost, k);
  }

  /** Every point after the first on line `l`, walking in direction `d`,
      holds its predecessor's cost plus the edge between them and points
      back at it: the running sums a sweep over fresh points leaves. */
  ghost predicate Sums(bc: BoxCost, l: Line, d: int, cost: CostFn) {
    forall k {:trigger After(l.b, l.e, d, k)} :: After(l.b, l.e, d, k) ==>
      At(bc, LineCell(l.hori, l.fixed, k)) ==
        Data(Plus(At(bc, LineCell(l.hori, l.fixed, k - d)).cost, EdgeCost(cost, LineEdge(l.hori, l.fixed, k - d, k))),
             Some(LineCell(l.hori, l.fixed, k - d)))
  }

  /** A sweep from a reached first point over a line of unreached points
      writes the running sums. */
  lemma SweepLineSums(bc: BoxCost, l: Line, cost: CostFn, d: int)
    requires Valid(bc) && Fits(bc.box, l) && At(bc, LineCell(l.hori, l.fixed, l.b)).cost.Fin?
    requires d == Sign(l.e - l.b)
    requires forall k {:trigger After(l.b, l.e, d, k)} :: After(l.b, l.e, d, k) ==> At(bc, LineCell(l.hori, l.fixed, k)).cost.Inf?
    ensures Sums(SweepLine(bc, l, cost), l, d, cost)
  {
    forall k | After(l.b, l.e, d, k)
      ensures At(SweepLine(bc, l, cost), LineCell(l.hori, l.fixed, k)) ==
        Data(Plus(At(SweepLine(bc, l, cost), LineCell(l.hori, l.fixed, k - d)).cost, EdgeCost(cost, LineEdge(l.hori, l.fixed, k - d, k))),
             Some(LineCell(l.hori, l.fixed, k - d)))
    {
      SweepLineFresh(bc, l, cost, d, k);
    }
  }

  /** The same for the loop itself. */
  lemma SweepFromFresh(bc: BoxCost, hori: bool, fixed: int, p: int, e: int, d: int, pc: Cost, cost: CostFn, k: int)
    requires Towards(p, e, d) && pc == At(bc, LineCell(hori, fixed, p)).cost && pc.Fin?
    requires After(p, e, d, k) && At(bc, LineCell(hori, fixed, k)).cost.Inf?
    ensures At(SweepFrom(bc, hori, fixed, p, e, d, pc, cost), LineCell(hori, fixed, k)) ==
      Data(Plus(At(SweepFrom(bc, hori, fixed, p, e, d, pc, cost), LineCell(hori, fixed, k - d)).cost,
                EdgeCost(cost, LineEdge(hori, fixed, k - d, k))),
           Some(LineCell(hori, fixed, k - d)))
  {
    SweepFromFin(bc, hori, fixed, p, e, d, pc, cost, k);
    SweepFromRelaxes(bc, hori, fixed, p, e, d, pc, cost, k);
  }
}
