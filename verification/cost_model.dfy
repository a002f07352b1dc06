/** Edge records and the congestion cost of an edge (`Edge` and
    `CostModel` in `src/router/cost_model.hpp` and `cost_model.cpp`). The
    sigmoid penalty table and the history term are floating point in C++;
    here they are abstract natural-number curves that keep what the
    router relies on — their order — while the integer parts (the
    anticipated overflow, the clamped index, the blocked sentinel, the
    selector) are exact. */
module CostModel {
  import opened Wrappers
  import opened GridGraph
  import opened IspdTypes

  const COSTSZ: nat := 1024
  const COSTOFF: int := 256
  /** The cost of an edge without capacity (`1e12`). */
  const BLOCKED: nat := 1_000_000_000_000

  /** Capacity, demand, history `he`, overflow count `of`, `used`, and the
      cached cost. */
  datatype Edge = Edge(cap: int, demand: int, he: int, of: int, used: int, cost: nat)

  /** `Edge(c)`: capacity `c`, nothing routed yet, history 1, cost 1. */
  function NewEdge(c: int): (e: Edge)
    ensures e.cap == c && e.demand == 0 && e.he == 1 && e.of == 0 && e.used == 0
    ensures e.cost == 1
    ensures c < 0 <==> Overflow(e)
  {
    Edge(c, 0, 1, 0, 0, 1)
  }

  /** `overflow()`: more demand than capacity. */
  predicate Overflow(e: Edge) {
    e.cap < e.demand
  }

  /** A path edge that is an edge of the grid and carries more demand
      than capacity. */
  predicate Overflowed(g: Grid<Edge>, rp: RPoint)
    requires Valid(g)
  {
    Get(g, rp.x, rp.y, rp.hori).Ok? && Overflow(Get(g, rp.x, rp.y, rp.hori).value)
  }

  /** The floating-point ingredients of the cost: the three penalty tables
      `build_cost_pe` fills (steepness 0.3, 0.5 and 0.7) and the history
      scale `he^3.6 / 100`. */
  datatype Curves = Curves(mild: seq<nat>, steeper: seq<nat>, aggressive: seq<nat>, dah: int -> nat)

  /** A penalty table: 1024 entries, nondecreasing in the overflow. */
  predicate Table(t: seq<nat>) {
    |t| == COSTSZ && forall i, j :: 0 <= i <= j < |t| ==> t[i] <= t[j]
  }

  ghost predicate ValidCurves(c: Curves) {
    && Table(c.mild) && Table(c.steeper) && Table(c.aggressive)
    && forall a, b :: 0 <= a <= b ==> c.dah(a) <= c.dah(b)
  }

  datatype Model = Model(selcost: int, costPe: seq<nat>, curves: Curves)

  /** `build_cost_pe`: selector 0 is mild, 1 steeper, anything else
      (`case 2: default:`) aggressive. */
  function BuildCostPe(sel: int, c: Curves): (t: seq<nat>)
    ensures ValidCurves(c) ==> Table(t)
    ensures sel == 0 ==> t == c.mild
    ensures sel == 1 ==> t == c.steeper
    ensures sel != 0 && sel != 1 ==> t == c.aggressive
  {
    if sel == 0 then c.mild else if sel == 1 then c.steeper else c.aggressive
  }

  /** The `default:` label shares `case 2:`, so every selector other than
      0 and 1 builds the same table as selector 2, and the three named
      selectors cover every table the model can hold. */
  lemma SelectorsCover(sel: int, c: Curves)
    ensures sel != 0 && sel != 1 ==> BuildCostPe(sel, c) == BuildCostPe(2, c)
    ensures exists s :: 0 <= s <= 2 && BuildCostPe(s, c) == BuildCostPe(sel, c)
  {
    var s := if sel == 0 then 0 else if sel == 1 then 1 else 2;
    assert BuildCostPe(s, c) == BuildCostPe(sel, c);
  }

  /** A model whose table is the one its selector picks. */
  ghost predicate ValidModel(m: Model) {
    ValidCurves(m.curves) && m.costPe == BuildCostPe(m.selcost, m.curves)
  }

  /** `CostModel(sel)`. */
  function NewModel(sel: int, c: Curves): (m: Model)
    requires ValidCurves(c)
    ensures ValidModel(m) && m.selcost == sel
  {
    Model(sel, BuildCostPe(sel, c), c)
  }

  /** `set_selcost(sel)`: store the selector and rebuild the table. */
  function SetSelcost(m: Model, sel: int): (r: Model)
    requires ValidModel(m)
    ensures ValidModel(r) && r.selcost == sel && r.curves == m.curves
  {
    m.(selcost := sel, costPe := BuildCostPe(sel, m.curves))
  }

  /** After `set_selcost` the model is the one the constructor builds for
      the new selector, whatever selector it had before. */
  lemma SetSelcostFresh(m: Model, sel: int)
    requires ValidModel(m)
    ensures SetSelcost(m, sel) == NewModel(sel, m.curves)
  {
  }

  /** The table index `get_cost_pe` reads: `of + COSTOFF` clamped into
      [0, COSTSZ - 1]. */
  function PeIndex(of: int): (i: nat)
    ensures i < COSTSZ
    ensures 0 <= of + COSTOFF < COSTSZ ==> i == of + COSTOFF
    ensures of + COSTOFF <= 0 ==> i == 0
    ensures of + COSTOFF >= COSTSZ ==> i == COSTSZ - 1
  {
    var i := of + COSTOFF;
    if i <= 0 then 0 else if i >= COSTSZ then COSTSZ - 1 else i
  }

  /** `get_cost_pe(of)`: the table entry for overflow `of`, the first or
      last entry when `of + COSTOFF` falls outside the table. */
  function GetCostPe(m: Model, of: int): (r: nat)
    requires |m.costPe| == COSTSZ
    ensures 0 <= of + COSTOFF < COSTSZ ==> r == m.costPe[of + COSTOFF]
    ensures of + COSTOFF <= 0 ==> r == m.costPe[0]
    ensures of + COSTOFF >= COSTSZ ==> r == m.costPe[COSTSZ - 1]
    ensures Table(m.costPe) ==> m.costPe[0] <= r <= m.costPe[COSTSZ - 1]
  {
    m.costPe[PeIndex(of)]
  }

  lemma PeIndexMonotone(a: int, b: int)
    requires a <= b
    ensures PeIndex(a) <= PeIndex(b)
  {
  }

  /** The penalty never decreases with the overflow, clamping included. */
  lemma GetCostPeMonotone(m: Model, a: int, b: int)
    requires ValidModel(m) && a <= b
    ensures GetCostPe(m, a) <= GetCostPe(m, b)
  {
    PeIndexMonotone(a, b);
  }

  /** `calc_cost(e)`: the blocked sentinel for an edge without capacity;
      otherwise the penalty of the overflow the edge would have with one
      more net (`demand + 1 - cap`), scaled by the history term when the
      selector is 2 and by 10 otherwise, plus 200. */
  function CalcCost(m: Model, e: Edge): (c: nat)
    requires ValidModel(m)
    ensures e.cap <= 0 ==> c == BLOCKED
    ensures e.cap > 0 ==> c >= 200
  {
    if e.cap <= 0 then BLOCKED
    else
      var pe := GetCostPe(m, e.demand + 1 - e.cap);
      if m.selcost == 2 then (1 + m.curves.dah(e.he)) * pe + 200
      else pe * 10 + 200
  }

  /** With selector 0 or 1 the cost is `10 * pe + 200` for the penalty at
      index `demand + 1 - cap + 256`, and the history does not enter. */
  lemma CostWithoutHistory(m: Model, e: Edge, he: int)
    requires ValidModel(m) && m.selcost != 2 && e.cap > 0
    ensures CalcCost(m, e) == 10 * m.costPe[PeIndex(e.demand + 1 - e.cap)] + 200
    ensures CalcCost(m, e.(he := he)) == CalcCost(m, e)
  {
  }

  /** More demand on the same edge never makes it cheaper. */
  lemma CostMonotoneInDemand(m: Model, e: Edge, d: int)
    requires ValidModel(m) && e.demand <= d
    ensures CalcCost(m, e) <= CalcCost(m, e.(demand := d))
  {
    if e.cap > 0 {
      var a := GetCostPe(m, e.demand + 1 - e.cap);
      var b := GetCostPe(m, d + 1 - e.cap);
      GetCostPeMonotone(m, e.demand + 1 - e.cap, d + 1 - e.cap);
      if m.selcost == 2 {
        MulMonotone(1 + m.curves.dah(e.he), a, b);
      }
    }
  }

  /** With selector 2, more history never makes an edge cheaper. */
  lemma CostMonotoneInHistory(m: Model, e: Edge, he: int)
    requires ValidModel(m) && m.selcost == 2 && 0 <= e.he <= he
    ensures CalcCost(m, e) <= CalcCost(m, e.(he := he))
  {
    if e.cap > 0 {
      var pe := GetCostPe(m, e.demand + 1 - e.cap);
      MulMonotone(pe, 1 + m.curves.dah(e.he), 1 + m.curves.dah(he));
      assert (1 + m.curves.dah(e.he)) * pe == pe * (1 + m.curves.dah(e.he));
      assert (1 + m.curves.dah(he)) * pe == pe * (1 + m.curves.dah(he));
    }
  }

  lemma MulMonotone(k: nat, a: nat, b: nat)
    requires a <= b
    ensures k * a <= k * b
  {
  }

  lemma MulStrict(k: nat, a: nat, b: nat)
    requires a < b && k > 0
    ensures k * a < k * b
  {
  }

  /** On an edge of capacity 1, routing the first net through it raises its
      cost, given that the penalty rises between overflow 0 and 1 (the
      sigmoid's midpoint). */
  lemma FirstNetRaisesCost(m: Model, e: Edge)
    requires ValidModel(m) && e.cap == 1 && e.demand == 0
    requires m.costPe[COSTOFF] < m.costPe[COSTOFF + 1]
    ensures CalcCost(m, e) < CalcCost(m, e.(demand := 1))
  {
    assert PeIndex(0) == COSTOFF && PeIndex(1) == COSTOFF + 1;
    if m.selcost == 2 {
      MulStrict(1 + m.curves.dah(e.he), m.costPe[COSTOFF], m.costPe[COSTOFF + 1]);
    }
  }

  /** `build_cost(grid)`: every edge gets the cost of its current state;
      no other field and no other edge changes. */
  function BuildCost(m: Model, g: Grid<Edge>): (r: Grid<Edge>)
    requires ValidModel(m) && GridGraph.Valid(g)
    ensures GridGraph.Valid(r) && r.w == g.w && r.h == g.h
    ensures forall x, y, hori :: Get(r, x, y, hori).Ok? ==>
      Get(r, x, y, hori).value == Get(g, x, y, hori).value.(cost := CalcCost(m, Get(g, x, y, hori).value))
  {
    MapEdges(g, (e: Edge) => e.(cost := CalcCost(m, e)))
  }

  /** The cost functor `[&](x, y, hori) { return calc_cost(grid.at(x, y, hori)); }`
      the routers hand to the pattern searches. A non-edge, where `at`
      would throw, reads as blocked. Every edge costs at least 200. */
  function GridCost(m: Model, g: Grid<Edge>): (cost: (int, int, bool) -> nat)
    requires ValidModel(m) && GridGraph.Valid(g)
    ensures forall x, y, hori :: cost(x, y, hori) >= 200
    ensures forall x, y, hori :: Get(g, x, y, hori).Ok? ==> cost(x, y, hori) == CalcCost(m, Get(g, x, y, hori).value)
    ensures forall x, y, hori :: !IsEdge(g, x, y, hori) ==> cost(x, y, hori) == BLOCKED
  {
    (x: int, y: int, hori: bool) =>
      var e := Get(g, x, y, hori);
      if e.Ok? then CalcCost(m, e.value) else BLOCKED
  }
}
