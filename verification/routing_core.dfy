/** The routing core (`RoutingCore` in `src/router/routing_core.cpp`):
    the grid's capacities, the L-shape preroute, the demand bookkeeping of
    `place` and `ripup`, the overflow checks and one rip-up-and-reroute
    pass. The grid's demand on an edge is, throughout, the number of routed
    paths through it (`Routed`). */
module RoutingCore {
  import opened Wrappers
  import opened Utils
  import opened IspdTypes
  import opened GridGraph
  import opened CostModel
  import Sweep
  import Patterns
  import Monotonic

  /** An out-of-range index into a layer capacity list; `operator[]` does
      not check it, so C++ reads past the vector. */
  const ERR_LAYER := "capacity layer out of range"
  /** A zero tile size: the integer division traps. */
  const ERR_DIV := "integer division by zero"

  /** The state the router keeps between calls: the edge grid and the
      cost model (whose `selcost` is also the core's `selcost_`). */
  datatype Core = Core(grid: Grid<Edge>, model: Model)

  /** `set_selcost(sel)`: the core and its cost model switch selector
      together; the grid is untouched. */
  function SetSelcost(core: Core, sel: int): (r: Core)
    requires ValidModel(core.model)
    ensures ValidModel(r.model) && r.model.selcost == sel && r.grid == core.grid
    ensures r.model == NewModel(sel, core.model.curves)
  {
    CostModel.SetSelcostFresh(core.model, sel);
    core.(model := CostModel.SetSelcost(core.model, sel))
  }

  // ---- demand ---------------------------------------------------------------------

  /** `rp` is looked up as edge (x, y, hori); the layer plays no part. */
  predicate Names(rp: RPoint, x: int, y: int, hori: bool) {
    rp.x == x && rp.y == y && rp.hori == hori
  }

  /** How many times `path` passes the edge (x, y, hori). */
  function Count(path: seq<RPoint>, x: int, y: int, hori: bool): nat {
    if path == [] then 0
    else (if Names(path[0], x, y, hori) then 1 else 0) + Count(path[1..], x, y, hori)
  }

  lemma {:induction false} CountAppend(a: seq<RPoint>, b: seq<RPoint>, x: int, y: int, hori: bool)
    ensures Count(a + b, x, y, hori) == Count(a, x, y, hori) + Count(b, x, y, hori)
    decreases |a|
  {
    if a != [] {
      assert (a + b)[0] == a[0] && (a + b)[1..] == a[1..] + b;
      CountAppend(a[1..], b, x, y, hori);
    } else {
      assert a + b == b;
    }
  }

  /** The loop of `place` (`d` = 1) and `ripup` (`d` = -1): each path edge
      in turn is looked up and its demand moved by `d`. The lookup is the
      corrected `at` (`GridGraph.Get`), so a path entry that is not a grid
      edge fails with `ERR_EDGE`; `AddDemandAt` is the loop through the
      flat `at` as written, and `AddDemandAtAgrees` shows the two agree on
      every path of grid edges. */
  function AddDemand(g: Grid<Edge>, path: seq<RPoint>, d: int): (r: Result<Grid<Edge>>)
    requires Valid(g)
    ensures r.Ok? <==> forall i :: 0 <= i < |path| ==> IsEdge(g, path[i].x, path[i].y, path[i].hori)
    ensures r.Ok? ==> Valid(r.value) && r.value.w == g.w && r.value.h == g.h
    ensures r.Err? ==> r.msg == ERR_EDGE
    decreases |path|
  {
    if path == [] then Ok(g)
    else
      var e :- Get(g, path[0].x, path[0].y, path[0].hori);
      var g1 := Set(g, path[0].x, path[0].y, path[0].hori, e.(demand := e.demand + d)).value;
      assert forall i :: 0 < i < |path| ==> path[i] == path[1..][i - 1];
      AddDemand(g1, path[1..], d)
  }

  /** The same loop through the flat `at` of `grid_graph.hpp` as
      written: each entry moves the demand of whatever slot `rp2idx` gives
      it, and only an index past the end of the vector throws. */
  function AddDemandAt(g: Grid<Edge>, path: seq<RPoint>, d: int): (r: Result<Grid<Edge>>)
    ensures r.Ok? <==> forall i :: 0 <= i < |path| ==> Rp2Idx(g, path[i].x, path[i].y, path[i].hori) < |g.edges|
    ensures r.Ok? ==> r.value == g.(edges := r.value.edges) && |r.value.edges| == |g.edges|
    ensures r.Err? ==> r.msg == ERR_RANGE
    decreases |path|
  {
    if path == [] then Ok(g)
    else
      var e :- At(g, path[0].x, path[0].y, path[0].hori);
      var g1 := SetAt(g, path[0].x, path[0].y, path[0].hori, e.(demand := e.demand + d)).value;
      assert g1.w == g.w && g1.h == g.h && g1.vsz == g.vsz && |g1.edges| == |g.edges|;
      assert forall i :: 0 < i < |path| ==> path[i] == path[1..][i - 1];
      AddDemandAt(g1, path[1..], d)
  }

  /** On a path that stays on the grid, the loop through the flat `at`
      is the loop through the corrected one. */
  lemma {:induction false} AddDemandAtAgrees(g: Grid<Edge>, path: seq<RPoint>, d: int)
    requires Valid(g) && OnGrid(g, path)
    ensures AddDemandAt(g, path, d) == AddDemand(g, path, d)
    decreases |path|
  {
    if path != [] {
      var p := path[0];
      var e := Get(g, p.x, p.y, p.hori).value;
      SetAtAgrees(g, p.x, p.y, p.hori, e.(demand := e.demand + d));
      var g1 := Set(g, p.x, p.y, p.hori, e.(demand := e.demand + d)).value;
      assert AddDemand(g, path, d) == AddDemand(g1, path[1..], d);
      assert AddDemandAt(g, path, d) == AddDemandAt(g1, path[1..], d);
      assert OnGrid(g1, path[1..]) by {
        assert forall j :: 0 <= j < |path[1..]| ==> path[1..][j] == path[j + 1];
      }
      AddDemandAtAgrees(g1, path[1..], d);
    }
  }

  /** Where they differ: on the 2 × 2 grid of `GridGraph.AtAliases`, a
      path through the vertical "edge" (0, 1), which leaves the grid, adds
      its demand to the horizontal edge (0, 0) through the flat `at`, while
      the corrected lookup refuses the path. */
  lemma PlaceAliases(c: int)
    ensures Init(2, 2, NewEdge(c), NewEdge(c)).Ok?
    ensures var g := Init(2, 2, NewEdge(c), NewEdge(c)).value;
      && !IsEdge(g, 0, 1, false)
      && AddDemandAt(g, [RPoint(0, 1, 0, false)], 1).Ok?
      && Get(AddDemandAt(g, [RPoint(0, 1, 0, false)], 1).value, 0, 0, true) == Ok(NewEdge(c).(demand := 1))
      && AddDemand(g, [RPoint(0, 1, 0, false)], 1) == Err(ERR_EDGE)
  {
    var g := Init(2, 2, NewEdge(c), NewEdge(c)).value;
    var path := [RPoint(0, 1, 0, false)];
    assert Rp2Idx(g, 0, 1, false) == 2 && Rp2Idx(g, 0, 0, true) == 2;
    var g1 := SetAt(g, 0, 1, false, NewEdge(c).(demand := 1)).value;
    assert AddDemandAt(g, path, 1) == AddDemandAt(g1, path[1..], 1);
    assert path[1..] == [];
  }

  /** Every edge's demand moves by `d` once per pass of the path, and
      nothing else of any edge changes. */
  lemma AddDemandEdges(g: Grid<Edge>, path: seq<RPoint>, d: int)
    requires Valid(g) && AddDemand(g, path, d).Ok?
    ensures forall x, y, hori :: IsEdge(g, x, y, hori) ==>
      Get(AddDemand(g, path, d).value, x, y, hori) ==
        Ok(Get(g, x, y, hori).value.(demand := Get(g, x, y, hori).value.demand + d * Count(path, x, y, hori)))
  {
    forall x, y, hori | IsEdge(g, x, y, hori)
      ensures Get(AddDemand(g, path, d).value, x, y, hori) ==
        Ok(Get(g, x, y, hori).value.(demand := Get(g, x, y, hori).value.demand + d * Count(path, x, y, hori)))
    {
      AddDemandEdge(g, path, d, x, y, hori);
    }
  }

  lemma {:induction false} AddDemandEdge(g: Grid<Edge>, path: seq<RPoint>, d: int, x: int, y: int, hori: bool)
    requires Valid(g) && AddDemand(g, path, d).Ok? && IsEdge(g, x, y, hori)
    ensures Get(AddDemand(g, path, d).value, x, y, hori) ==
      Ok(Get(g, x, y, hori).value.(demand := Get(g, x, y, hori).value.demand + d * Count(path, x, y, hori)))
    decreases |path|
  {
    if path != [] {
      var p := path[0];
      var e := Get(g, p.x, p.y, p.hori).value;
      var g1 := Set(g, p.x, p.y, p.hori, e.(demand := e.demand + d)).value;
      assert AddDemand(g, path, d) == AddDemand(g1, path[1..], d);
      AddDemandEdge(g1, path[1..], d, x, y, hori);
      GetSet(g, p.x, p.y, p.hori, e.(demand := e.demand + d), x, y, hori);
      var before, mid := Get(g, x, y, hori).value, Get(g1, x, y, hori).value;
      var c := Count(path[1..], x, y, hori);
      if Names(p, x, y, hori) {
        assert mid == before.(demand := before.demand + d);
        assert Count(path, x, y, hori) == 1 + c;
        MulSucc(d, c);
      } else {
        assert mid == before;
        assert Count(path, x, y, hori) == c;
      }
    }
  }

  lemma MulSucc(d: int, c: int)
    ensures d * (1 + c) == d + d * c
  {
  }

  /** `place(tp)`: one more unit of demand on every edge of the path. */
  function Place(g: Grid<Edge>, tp: TwoPin): (r: Result<Grid<Edge>>)
    requires Valid(g)
    ensures r.Ok? <==> forall i :: 0 <= i < |tp.path| ==> IsEdge(g, tp.path[i].x, tp.path[i].y, tp.path[i].hori)
    ensures r.Ok? ==> Valid(r.value) && r.value.w == g.w && r.value.h == g.h
    ensures r.Ok? ==> forall x, y, hori :: IsEdge(g, x, y, hori) ==>
      Get(r.value, x, y, hori) ==
        Ok(Get(g, x, y, hori).value.(demand := Get(g, x, y, hori).value.demand + Count(tp.path, x, y, hori)))
    ensures r.Err? ==> r.msg == ERR_EDGE
  {
    var r := AddDemand(g, tp.path, 1);
    if r.Ok? then AddDemandEdges(g, tp.path, 1); r else r
  }

  /** `ripup(tp)`: one unit of demand less on every edge of the path; the
      two-pin counts one more reroute and loses its path. */
  function Ripup(g: Grid<Edge>, tp: TwoPin): (r: Result<(Grid<Edge>, TwoPin)>)
    requires Valid(g)
    ensures r.Ok? <==> forall i :: 0 <= i < |tp.path| ==> IsEdge(g, tp.path[i].x, tp.path[i].y, tp.path[i].hori)
    ensures r.Ok? ==> Valid(r.value.0) && r.value.0.w == g.w && r.value.0.h == g.h
    ensures r.Ok? ==> forall x, y, hori :: IsEdge(g, x, y, hori) ==>
      Get(r.value.0, x, y, hori) ==
        Ok(Get(g, x, y, hori).value.(demand := Get(g, x, y, hori).value.demand - Count(tp.path, x, y, hori)))
    ensures r.Ok? ==> r.value.1 == tp.(reroute := tp.reroute + 1, path := [])
    ensures r.Err? ==> r.msg == ERR_EDGE
  {
    var g1 := AddDemand(g, tp.path, -1);
    if g1.Err? then Err(g1.msg)
    else
      AddDemandEdges(g, tp.path, -1);
      Ok((g1.value, tp.(reroute := tp.reroute + 1, path := [])))
  }

  /** Ripping up a path just placed gives back the very grid it was placed
      on. */
  lemma PlaceRipup(g: Grid<Edge>, tp: TwoPin)
    requires Valid(g) && Place(g, tp).Ok?
    ensures Ripup(Place(g, tp).value, tp).Ok?
    ensures Ripup(Place(g, tp).value, tp).value.0 == g
  {
    var g1 := Place(g, tp).value;
    var g2 := Ripup(g1, tp).value.0;
    forall x, y, hori | IsEdge(g2, x, y, hori)
      ensures Get(g2, x, y, hori) == Get(g, x, y, hori)
    {
    }
    Extensional(g2, g);
  }

  /** Placing a path over a ripped-up one restores the grid the ripped-up
      path was on. */
  lemma RipupPlace(g: Grid<Edge>, tp: TwoPin)
    requires Valid(g) && Ripup(g, tp).Ok?
    ensures Place(Ripup(g, tp).value.0, tp).Ok?
    ensures Place(Ripup(g, tp).value.0, tp).value == g
  {
    var g1 := Ripup(g, tp).value.0;
    var g2 := Place(g1, tp).value;
    forall x, y, hori | IsEdge(g2, x, y, hori)
      ensures Get(g2, x, y, hori) == Get(g, x, y, hori)
    {
    }
    Extensional(g2, g);
  }

  // ---- overflow -----------------------------------------------------------------------

  /** No path edge before `i` overflows, and every one of them is an edge. */
  predicate Clear(g: Grid<Edge>, path: seq<RPoint>, i: int)
    requires Valid(g) && i <= |path|
  {
    forall k :: 0 <= k < i ==> IsEdge(g, path[k].x, path[k].y, path[k].hori) && !Overflowed(g, path[k])
  }

  /** `twopin_overflow(tp)`: the path edges are looked up in order and the
      answer is true at the first overflowed one. The lookup is the
      corrected `at`, so a non-edge met before any overflowed edge fails
      with `ERR_EDGE`. */
  function TwopinOverflow(g: Grid<Edge>, path: seq<RPoint>): (r: Result<bool>)
    requires Valid(g)
    ensures r == Ok(false) <==> Clear(g, path, |path|)
    ensures r == Ok(true) <==> exists i :: 0 <= i < |path| && Overflowed(g, path[i]) && Clear(g, path, i)
    ensures r.Err? <==> exists i :: 0 <= i < |path| && !IsEdge(g, path[i].x, path[i].y, path[i].hori) && Clear(g, path, i)
    ensures r.Err? ==> r.msg == ERR_EDGE
    decreases |path|
  {
    if path == [] then Ok(false)
    else
      var e :- Get(g, path[0].x, path[0].y, path[0].hori);
      var rest := TwopinOverflow(g, path[1..]);
      ShiftClear(g, path);
      if Overflow(e) then Ok(true) else rest
  }

  /** `Clear` on a path whose head is a good edge is `Clear` on its tail,
      shifted by one. */
  lemma ShiftClear(g: Grid<Edge>, path: seq<RPoint>)
    requires Valid(g) && path != []
    ensures forall i :: 1 <= i <= |path| ==>
      (Clear(g, path, i) <==> Clear(g, path, 1) && Clear(g, path[1..], i - 1))
  {
    forall i | 1 <= i <= |path|
      ensures Clear(g, path, i) <==> Clear(g, path, 1) && Clear(g, path[1..], i - 1)
    {
      assert forall k :: 1 <= k < i ==> path[k] == path[1..][k - 1];
    }
  }

  /** A two-pin whose path stays on the grid overflows exactly when one of
      its edges does. */
  lemma OverflowIffSomeEdge(g: Grid<Edge>, path: seq<RPoint>)
    requires Valid(g)
    requires forall i :: 0 <= i < |path| ==> IsEdge(g, path[i].x, path[i].y, path[i].hori)
    ensures TwopinOverflow(g, path).Ok?
    ensures TwopinOverflow(g, path).value <==> exists i :: 0 <= i < |path| && Overflowed(g, path[i])
  {
    var r := TwopinOverflow(g, path);
    assert !r.Err? by {
      forall i | 0 <= i < |path| && Clear(g, path, i)
        ensures IsEdge(g, path[i].x, path[i].y, path[i].hori)
      {
      }
    }
    if r == Ok(true) {
      var i :| 0 <= i < |path| && Overflowed(g, path[i]) && Clear(g, path, i);
    }
  }

  /** What `check_overflow` does to one edge: an overflowed edge adds its
      excess demand to its history and clears `of`. */
  function Settle(e: Edge): (r: Edge)
    ensures r.cap == e.cap && r.demand == e.demand && r.used == e.used && r.cost == e.cost
    ensures !Overflow(e) ==> r == e
    ensures Overflow(e) ==> r.he > e.he && r.of == 0
  {
    if Overflow(e) then e.(he := e.he + (e.demand - e.cap), of := 0) else e
  }

  /** The demand an edge carries beyond its capacity. */
  function Excess(e: Edge): nat {
    if Overflow(e) then e.demand - e.cap else 0
  }

  /** The summed excess of a list of edges, in list order. */
  function TotalExcess(es: seq<Edge>): (r: nat)
    ensures forall k :: 0 <= k < |es| ==> Excess(es[k]) <= r
  {
    if es == [] then 0 else TotalExcess(es[..|es| - 1]) + Excess(es[|es| - 1])
  }

  /** `check_overflow()`: the summed excess over every edge of the grid,
      with each overflowed edge settled on the way. */
  method CheckOverflow(g: Grid<Edge>) returns (tot: int, r: Grid<Edge>)
    requires Valid(g)
    ensures tot == TotalExcess(g.edges)
    ensures r == MapEdges(g, Settle)
  {
    tot := 0;
    var es := g.edges;
    var k := 0;
    while k < |es|
      invariant 0 <= k <= |es| == |g.edges|
      invariant tot == TotalExcess(g.edges[..k])
      invariant forall i :: 0 <= i < k ==> es[i] == Settle(g.edges[i])
      invariant forall i :: k <= i < |es| ==> es[i] == g.edges[i]
    {
      var e := es[k];
      if Overflow(e) {
        var of := e.demand - e.cap;
        tot := tot + of;
        es := es[k := e.(he := e.he + of, of := 0)];
      }
      assert g.edges[..k + 1][..k] == g.edges[..k];
      k := k + 1;
    }
    assert g.edges[..k] == g.edges;
    r := g.(edges := es);
  }

  /** The total is 0 exactly when no edge of the grid overflows. */
  lemma {:induction false} TotalExcessZero(es: seq<Edge>)
    ensures TotalExcess(es) == 0 <==> forall i :: 0 <= i < |es| ==> !Overflow(es[i])
    decreases |es|
  {
    if es != [] {
      TotalExcessZero(es[..|es| - 1]);
      assert forall i :: 0 <= i < |es| - 1 ==> es[i] == es[..|es| - 1][i];
    }
  }

  /** `check_overflow` reports 0 exactly when no grid edge overflows. */
  lemma CheckOverflowZero(g: Grid<Edge>)
    requires Valid(g)
    ensures TotalExcess(g.edges) == 0 <==> forall x, y, hori :: IsEdge(g, x, y, hori) ==> !Overflow(Get(g, x, y, hori).value)
  {
    TotalExcessZero(g.edges);
    if TotalExcess(g.edges) != 0 {
      var i :| 0 <= i < |g.edges| && Overflow(g.edges[i]);
      var x, y, hori := SlotOf(g, i);
      assert Get(g, x, y, hori).value == g.edges[i];
    }
  }

  // ---- rerouting ------------------------------------------------------------------------

  /** `route_twopin(tp)`: `Monotonic` over the cost `calc_cost` gives each
      edge of the current grid. Only the path changes; it is a monotone
      staircase between the pins, no dearer than any other. */
  method RouteTwopin(g: Grid<Edge>, m: Model, tp: TwoPin, coin: (int, int) -> bool) returns (r: TwoPin)
    requires ValidModel(m) && Valid(g)
    ensures r == tp.(path := r.path)
    ensures Monotonic.MonotoneRoute(tp.from, tp.to, r.path)
    ensures |r.path| == CAbs(tp.to.x - tp.from.x) + CAbs(tp.to.y - tp.from.y)
    ensures forall path :: Monotonic.MonotoneRoute(tp.from, tp.to, path) ==>
      Sweep.PathCost(GridCost(m, g), r.path) <= Sweep.PathCost(GridCost(m, g), path)
  {
    r := Monotonic.Route(tp, Some(GridCost(m, g)), coin);
  }

  // ---- the load the nets put on the grid ---------------------------------------------

  /** The demand a list of two-pins puts on an edge: one unit per pass of
      each path. */
  function TwopinLoad(tps: seq<TwoPin>, x: int, y: int, hori: bool): nat {
    if tps == [] then 0
    else TwopinLoad(tps[..|tps| - 1], x, y, hori) + Count(tps[|tps| - 1].path, x, y, hori)
  }

  /** The demand all nets' two-pins put on an edge. */
  function Load(nets: seq<Net>, x: int, y: int, hori: bool): nat {
    if nets == [] then 0
    else Load(nets[..|nets| - 1], x, y, hori) + TwopinLoad(nets[|nets| - 1].twopin, x, y, hori)
  }

  /** The grid's bookkeeping agrees with the nets: every edge carries
      exactly the demand of the paths through it. */
  ghost predicate Routed(g: Grid<Edge>, nets: seq<Net>)
    requires Valid(g)
  {
    forall x, y, hori :: IsEdge(g, x, y, hori) ==> Get(g, x, y, hori).value.demand == Load(nets, x, y, hori)
  }

  /** Swapping one two-pin moves the load by the difference of the two
      paths. */
  lemma {:induction false} TwopinLoadReplace(tps: seq<TwoPin>, j: int, tp: TwoPin, x: int, y: int, hori: bool)
    requires 0 <= j < |tps|
    ensures TwopinLoad(tps[j := tp], x, y, hori) + Count(tps[j].path, x, y, hori) ==
      TwopinLoad(tps, x, y, hori) + Count(tp.path, x, y, hori)
    decreases |tps|
  {
    var n := |tps| - 1;
    if j == n {
      assert tps[j := tp][..n] == tps[..n];
    } else {
      assert tps[j := tp][..n] == tps[..n][j := tp];
      TwopinLoadReplace(tps[..n], j, tp, x, y, hori);
    }
  }

  /** Swapping one net moves the load by the difference of the two nets'
      loads. */
  lemma {:induction false} LoadReplace(nets: seq<Net>, i: int, net: Net, x: int, y: int, hori: bool)
    requires 0 <= i < |nets|
    ensures Load(nets[i := net], x, y, hori) + TwopinLoad(nets[i].twopin, x, y, hori) ==
      Load(nets, x, y, hori) + TwopinLoad(net.twopin, x, y, hori)
    decreases |nets|
  {
    var n := |nets| - 1;
    if i == n {
      assert nets[i := net][..n] == nets[..n];
    } else {
      assert nets[i := net][..n] == nets[..n][i := net];
      LoadReplace(nets[..n], i, net, x, y, hori);
    }
  }

  // ---- one rip-up-and-reroute pass -----------------------------------------------------

  /** The two shapes a two-pin can have after a pass: the same two-pin,
      or the same pins with one more reroute and a monotone staircase
      between them. Which of the two a pass picks is `Outcome`'s business. */
  ghost predicate Revised(a: TwoPin, b: TwoPin) {
    b == a || (b == a.(reroute := a.reroute + 1, path := b.path) && Monotonic.MonotoneRoute(a.from, a.to, b.path))
  }

  /** What `route_twopin` gives on grid `g`: a monotone staircase between
      the pins, of Manhattan length, no dearer under `g`'s costs than any
      other monotone route. */
  ghost predicate Cheapest(m: Model, g: Grid<Edge>, tp: TwoPin, path: seq<RPoint>)
    requires ValidModel(m) && Valid(g)
  {
    && Monotonic.MonotoneRoute(tp.from, tp.to, path)
    && |path| == CAbs(tp.to.x - tp.from.x) + CAbs(tp.to.y - tp.from.y)
    && forall p :: Monotonic.MonotoneRoute(tp.from, tp.to, p) ==>
      Sweep.PathCost(GridCost(m, g), path) <= Sweep.PathCost(GridCost(m, g), p)
  }

  /** `a` ripped up on `g` and routed again as `b`: one more reroute, and a
      cheapest path on the grid that has lost `a`'s old path. */
  ghost predicate Rerouted(m: Model, g: Grid<Edge>, a: TwoPin, b: TwoPin)
    requires ValidModel(m) && Valid(g)
  {
    && b == a.(reroute := a.reroute + 1, path := b.path)
    && Ripup(g, a).Ok? && Cheapest(m, Ripup(g, a).value.0, a, b.path)
  }

  /** What the loop body does to a two-pin tested against grid `g`: left
      alone when its path overflows nowhere, rerouted when it meets an
      overflowed edge. */
  ghost predicate Outcome(m: Model, g: Grid<Edge>, a: TwoPin, b: TwoPin)
    requires ValidModel(m) && Valid(g)
  {
    || (TwopinOverflow(g, a.path) == Ok(false) && b == a)
    || (TwopinOverflow(g, a.path) == Ok(true) && Rerouted(m, g, a, b))
  }

  /** A two-pin comes back unchanged exactly when its path did not
      overflow on the grid it was tested against; otherwise it has one
      more reroute. */
  lemma OutcomeIff(m: Model, g: Grid<Edge>, a: TwoPin, b: TwoPin)
    requires ValidModel(m) && Valid(g) && Outcome(m, g, a, b)
    ensures b == a <==> TwopinOverflow(g, a.path) == Ok(false)
    ensures b != a <==> TwopinOverflow(g, a.path) == Ok(true)
    ensures b != a ==> b.reroute == a.reroute + 1 && b.from == a.from && b.to == a.to
  {
  }

  /** `g2` is `g1` with two-pin `a`'s path swapped for `b`'s: every edge's
      demand loses `a`'s passes and gains `b`'s. */
  ghost predicate Swapped(g1: Grid<Edge>, g2: Grid<Edge>, a: TwoPin, b: TwoPin)
    requires Valid(g1) && Valid(g2)
  {
    && g2.w == g1.w && g2.h == g1.h
    && forall x, y, hori :: IsEdge(g1, x, y, hori) ==>
      Get(g2, x, y, hori).value.demand == Get(g1, x, y, hori).value.demand - Count(a.path, x, y, hori) + Count(b.path, x, y, hori)
  }

  /** The record of the first `|tested|` turns of a loop over two-pins
      `a` that turned them into `b`, starting on grid `g` and reaching
      `gEnd`: two-pin `t` was tested against `tested[t]`, the first of
      which is `g`, and the next grid is `tested[t]` with `a[t]` swapped
      for `b[t]`; every grid differs from `g0` in demands only. */
  ghost predicate Trail(m: Model, g0: Grid<Edge>, g: Grid<Edge>, a: seq<TwoPin>, b: seq<TwoPin>,
                        tested: seq<Grid<Edge>>, gEnd: Grid<Edge>)
    requires ValidModel(m) && Valid(g0)
  {
    && |tested| <= |a| == |b| && Valid(gEnd)
    && (if |tested| == 0 then gEnd == g else tested[0] == g)
    && forall t :: 0 <= t < |tested| ==> Turn(m, g0, tested[t], Next(tested, t, gEnd), a[t], b[t])
  }

  /** The grid after the loop turn that tested against `tested[t]`. */
  function Next(tested: seq<Grid<Edge>>, t: int, gEnd: Grid<Edge>): Grid<Edge>
    requires 0 <= t < |tested|
  {
    if t + 1 < |tested| then tested[t + 1] else gEnd
  }

  /** One loop turn: `a`, tested against `gt`, became `b`, and the grid
      went from `gt` to `gn`. */
  ghost predicate Turn(m: Model, g0: Grid<Edge>, gt: Grid<Edge>, gn: Grid<Edge>, a: TwoPin, b: TwoPin)
    requires ValidModel(m) && Valid(g0)
  {
    Valid(gt) && Valid(gn) && DemandOnly(g0, gt) && Outcome(m, gt, a, b) && Swapped(gt, gn, a, b)
  }

  /** One more turn extends the record. */
  lemma TrailStep(m: Model, g0: Grid<Edge>, g: Grid<Edge>, a: seq<TwoPin>, b: seq<TwoPin>, tested: seq<Grid<Edge>>,
                  g1: Grid<Edge>, g2: Grid<Edge>, tp1: TwoPin)
    requires ValidModel(m) && Valid(g0)
    requires Trail(m, g0, g, a, b, tested, g1) && |tested| < |a|
    requires Turn(m, g0, g1, g2, a[|tested|], tp1)
    ensures Trail(m, g0, g, a, b[|tested| := tp1], tested + [g1], g2)
  {
    var b2, t2 := b[|tested| := tp1], tested + [g1];
    forall t | 0 <= t < |t2|
      ensures Turn(m, g0, t2[t], Next(t2, t, g2), a[t], b2[t])
    {
      if t < |tested| {
        assert t2[t] == tested[t] && b2[t] == b[t] && Next(t2, t, g2) == Next(tested, t, g1);
      } else {
        assert t2[t] == g1 && b2[t] == tp1 && Next(t2, t, g2) == g2;
      }
    }
  }

  /** Only two-pins change, each as `Revised` allows. */
  ghost predicate NetsRevised(a: seq<Net>, b: seq<Net>) {
    && |a| == |b|
    && (forall k :: 0 <= k < |a| ==> b[k] == a[k].(twopin := b[k].twopin) && |b[k].twopin| == |a[k].twopin|)
    && (forall k, t :: 0 <= k < |a| && 0 <= t < |a[k].twopin| ==> Revised(a[k].twopin[t], b[k].twopin[t]))
  }

  /** `b` differs from `a` in edge demands at most. */
  ghost predicate DemandOnly(a: Grid<Edge>, b: Grid<Edge>)
    requires Valid(a) && Valid(b)
  {
    && b.w == a.w && b.h == a.h
    && forall x, y, hori :: IsEdge(a, x, y, hori) ==>
      Get(b, x, y, hori).value == Get(a, x, y, hori).value.(demand := Get(b, x, y, hori).value.demand)
  }

  /** No edge of the grid overflows. */
  ghost predicate Calm(g: Grid<Edge>)
    requires Valid(g)
  {
    forall x, y, hori :: IsEdge(g, x, y, hori) ==> !Overflow(Get(g, x, y, hori).value)
  }

  /** Between `g` and `g2` every edge's demand moved from what the
      two-pins `a` put on it to what `b` put on it. */
  ghost predicate Moved(g: Grid<Edge>, g2: Grid<Edge>, a: seq<TwoPin>, b: seq<TwoPin>)
    requires Valid(g) && Valid(g2)
  {
    && g2.w == g.w && g2.h == g.h
    && forall x, y, hori :: IsEdge(g, x, y, hori) ==>
      Get(g2, x, y, hori).value.demand ==
        Get(g, x, y, hori).value.demand - TwopinLoad(a, x, y, hori) + TwopinLoad(b, x, y, hori)
  }

  /** `RerouteNet`'s loop after `j` turns: the first `j` two-pins are on
      record, the grid `g1` carries their moved demand, and the rest are
      still as given. */
  ghost predicate NetLoop(m: Model, g0: Grid<Edge>, g: Grid<Edge>, tps: seq<TwoPin>, cur: seq<TwoPin>,
                          tested: seq<Grid<Edge>>, g1: Grid<Edge>, j: int)
    requires ValidModel(m) && Valid(g0) && Valid(g)
  {
    && 0 <= j <= |cur| == |tps| && |tested| == j
    && Valid(g1) && DemandOnly(g0, g1) && Moved(g, g1, tps, cur)
    && Trail(m, g0, g, tps, cur, tested, g1)
    && (forall t :: 0 <= t < |tps| ==> Revised(tps[t], cur[t]))
    && (forall t :: j <= t < |tps| ==> cur[t] == tps[t])
  }

  /** One turn of `RerouteNet`'s loop keeps `NetLoop`. */
  lemma NetLoopStep(m: Model, g0: Grid<Edge>, g: Grid<Edge>, tps: seq<TwoPin>, cur: seq<TwoPin>,
                    tested: seq<Grid<Edge>>, g1: Grid<Edge>, j: int, tp1: TwoPin, g2: Grid<Edge>)
    requires ValidModel(m) && Valid(g0) && Valid(g)
    requires NetLoop(m, g0, g, tps, cur, tested, g1, j) && j < |cur|
    requires Valid(g2) && Outcome(m, g1, cur[j], tp1) && Revised(cur[j], tp1)
    requires DemandOnly(g1, g2) && Swapped(g1, g2, cur[j], tp1)
    ensures NetLoop(m, g0, g, tps, cur[j := tp1], tested + [g1], g2, j + 1)
  {
    assert cur[j] == tps[j];
    DemandOnlyTrans(g0, g1, g2);
    MovedStep(g, g1, g2, tps, cur, j, tp1);
    TrailStep(m, g0, g, tps, cur, tested, g1, g2, tp1);
  }

  /** The inner loop of `ripup_place_once` over one net's two-pins.
      `tested` holds the grid each two-pin was tested against, `g` first:
      by `Trail`, a two-pin comes back unchanged exactly when its path
      overflows nowhere on its grid and is otherwise `Rerouted` on it, and
      each grid is the one before with the previous two-pin's path
      swapped. */
  method RerouteNet(g0: Grid<Edge>, g: Grid<Edge>, m: Model, tps: seq<TwoPin>, coin: nat -> ((int, int) -> bool))
    returns (r: Result<(seq<TwoPin>, Grid<Edge>)>, ghost tested: seq<Grid<Edge>>)
    requires ValidModel(m) && Valid(g0) && Valid(g) && DemandOnly(g0, g)
    ensures AllReroutable(g, tps) ==> r.Ok?
    ensures r.Ok? ==> |tested| == |tps| && Trail(m, g0, g, tps, r.value.0, tested, r.value.1)
    ensures r.Ok? ==> |r.value.0| == |tps| && forall t :: 0 <= t < |tps| ==> Revised(tps[t], r.value.0[t])
    ensures r.Ok? ==> Valid(r.value.1) && DemandOnly(g0, r.value.1) && Moved(g, r.value.1, tps, r.value.0)
    ensures r.Ok? && Calm(g0) && g == g0 ==> r.value == (tps, g)
    ensures r.Err? ==> r.msg == ERR_EDGE
  {
    var cur := tps;
    var g1 := g;
    var j := 0;
    tested := [];
    while j < |cur|
      invariant NetLoop(m, g0, g, tps, cur, tested, g1, j)
      invariant Calm(g0) && g == g0 ==> cur == tps && g1 == g
    {
      var rv := NetTurn(m, g0, g, tps, cur, tested, g1, j, coin(j));
      if rv.Err? {
        r := Err(rv.msg);
        return;
      }
      var (tp1, g2) := rv.value;
      tested := tested + [g1];
      g1 := g2;
      cur := cur[j := tp1];
      j := j + 1;
    }
    r := Ok((cur, g1));
  }

  /** Turn `j` of `RerouteNet`'s loop: `Revise` the `j`th two-pin on the
      current grid `g1`. */
  method NetTurn(m: Model, g0: Grid<Edge>, g: Grid<Edge>, tps: seq<TwoPin>, cur: seq<TwoPin>,
                 ghost tested: seq<Grid<Edge>>, g1: Grid<Edge>, j: int, coin: (int, int) -> bool)
    returns (r: Result<(TwoPin, Grid<Edge>)>)
    requires ValidModel(m) && Valid(g0) && Valid(g)
    requires NetLoop(m, g0, g, tps, cur, tested, g1, j) && j < |cur|
    ensures AllReroutable(g, tps) ==> r.Ok?
    ensures r.Ok? ==> NetLoop(m, g0, g, tps, cur[j := r.value.0], tested + [g1], r.value.1, j + 1)
    ensures r.Ok? && Calm(g1) ==> r.value == (cur[j], g1)
    ensures r.Err? ==> r.msg == ERR_EDGE
  {
    if AllReroutable(g, tps) {
      assert cur[j] == tps[j];
      ReroutableAt(g, g1, tps, j);
    }
    r := Revise(g1, m, cur[j], coin);
    if r.Ok? {
      NetLoopStep(m, g0, g, tps, cur, tested, g1, j, r.value.0, r.value.1);
    }
  }

  /** The body of that loop for one two-pin: if its path meets an
      overflowed edge, `ripup`, `route_twopin` and `place` (`Outcome`),
      and the grid's demand follows the change of path (`Swapped`). */
  method Revise(g: Grid<Edge>, m: Model, tp: TwoPin, coin: (int, int) -> bool) returns (r: Result<(TwoPin, Grid<Edge>)>)
    requires ValidModel(m) && Valid(g)
    ensures Reroutable(g, tp) ==> r.Ok?
    ensures TwopinOverflow(g, tp.path) == Ok(false) ==> r == Ok((tp, g))
    ensures r.Ok? ==> Outcome(m, g, tp, r.value.0)
    ensures r.Ok? ==> Revised(tp, r.value.0) && Valid(r.value.1) && DemandOnly(g, r.value.1)
    ensures r.Ok? ==> Swapped(g, r.value.1, tp, r.value.0)
    ensures r.Ok? && Calm(g) ==> r.value == (tp, g)
    ensures r.Err? ==> r.msg == ERR_EDGE
  {
    if Reroutable(g, tp) {
      OverflowIffSomeEdge(g, tp.path);
    }
    var ov := TwopinOverflow(g, tp.path);
    if ov.Err? {
      r := Err(ov.msg);
      return;
    }
    if !ov.value {
      r := Ok((tp, g));
      return;
    }
    r := Reroute(g, m, tp, coin);
  }

  /** `ripup`, `route_twopin` and `place` of one two-pin: it is
      `Rerouted` (one more reroute, a cheapest monotone route on the grid
      without its old path), and the grid loses the old path's demand and
      gains the new one's. */
  method Reroute(g: Grid<Edge>, m: Model, tp: TwoPin, coin: (int, int) -> bool) returns (r: Result<(TwoPin, Grid<Edge>)>)
    requires ValidModel(m) && Valid(g)
    ensures Reroutable(g, tp) ==> r.Ok?
    ensures r.Ok? ==> Rerouted(m, g, tp, r.value.0)
    ensures r.Ok? ==> Revised(tp, r.value.0) && Valid(r.value.1) && DemandOnly(g, r.value.1)
    ensures r.Ok? ==> Swapped(g, r.value.1, tp, r.value.0)
    ensures r.Err? ==> r.msg == ERR_EDGE
  {
    var ru := Ripup(g, tp);
    if ru.Err? {
      r := Err(ru.msg);
      return;
    }
    var tp1 := RouteTwopin(ru.value.0, m, ru.value.1, coin);
    if Reroutable(g, tp) {
      MonotoneOnGrid(ru.value.0, tp.from, tp.to, tp1.path);
    }
    var pl := Place(ru.value.0, tp1);
    if pl.Err? {
      r := Err(pl.msg);
      return;
    }
    RevisedStep(tp, ru.value.1, tp1);
    r := Ok((tp1, pl.value));
  }

  lemma DemandOnlyTrans(a: Grid<Edge>, b: Grid<Edge>, c: Grid<Edge>)
    requires Valid(a) && Valid(b) && Valid(c) && DemandOnly(a, b) && DemandOnly(b, c)
    ensures DemandOnly(a, c)
  {
  }

  /** Ripping up and routing again is a revision. */
  lemma RevisedStep(tp: TwoPin, tp0: TwoPin, tp1: TwoPin)
    requires tp0 == tp.(reroute := tp.reroute + 1, path := [])
    requires tp1 == tp0.(path := tp1.path) && Monotonic.MonotoneRoute(tp0.from, tp0.to, tp1.path)
    ensures Revised(tp, tp1)
  {
  }

  lemma MovedStep(g: Grid<Edge>, g1: Grid<Edge>, g2: Grid<Edge>, tps: seq<TwoPin>, cur: seq<TwoPin>, j: int, tp: TwoPin)
    requires Valid(g) && Valid(g1) && Valid(g2) && g1.w == g.w && g1.h == g.h && g2.w == g.w && g2.h == g.h
    requires Moved(g, g1, tps, cur) && 0 <= j < |cur|
    requires Swapped(g1, g2, cur[j], tp)
    ensures Moved(g, g2, tps, cur[j := tp])
  {
    forall x, y, hori | IsEdge(g, x, y, hori)
      ensures Get(g2, x, y, hori).value.demand ==
        Get(g, x, y, hori).value.demand - TwopinLoad(tps, x, y, hori) + TwopinLoad(cur[j := tp], x, y, hori)
    {
      TwopinLoadReplace(cur, j, tp, x, y, hori);
    }
  }

  /** `RipupPlaceOnce`'s loop after `i` nets: the first `i` are on record,
      `g` carries their new paths, and the rest are still as given. */
  ghost predicate PassLoop(m: Model, g0: Grid<Edge>, nets: seq<Net>, cur: seq<Net>, starts: seq<Grid<Edge>>,
                           tested: seq<seq<Grid<Edge>>>, g: Grid<Edge>, i: int)
    requires ValidModel(m) && Valid(g0)
  {
    && 0 <= i <= |cur| == |nets| && |tested| == i && |starts| == i + 1 && starts[i] == g
    && PassTrail(m, g0, nets, cur, starts, tested)
    && Valid(g) && DemandOnly(g0, g)
    && NetsRevised(nets, cur)
    && (forall k :: i <= k < |cur| ==> cur[k] == nets[k])
    && (Routed(g0, nets) ==> Routed(g, cur))
  }

  /** Turn `i` of `RipupPlaceOnce`'s loop: `RerouteNet` on the `i`th net. */
  method PassTurn(m: Model, g0: Grid<Edge>, nets: seq<Net>, cur: seq<Net>, ghost starts: seq<Grid<Edge>>,
                  ghost tested: seq<seq<Grid<Edge>>>, g: Grid<Edge>, i: int, coin: nat -> ((int, int) -> bool))
    returns (r: Result<(seq<TwoPin>, Grid<Edge>)>, ghost tested1: seq<Grid<Edge>>)
    requires ValidModel(m) && Valid(g0)
    requires PassLoop(m, g0, nets, cur, starts, tested, g, i) && i < |cur|
    ensures NetsReroutable(g0, nets) ==> r.Ok?
    ensures r.Ok? ==> PassLoop(m, g0, nets, cur[i := cur[i].(twopin := r.value.0)], starts + [r.value.1],
                               tested + [tested1], r.value.1, i + 1)
    ensures r.Ok? && Calm(g0) && g == g0 ==> r.value == (cur[i].twopin, g)
    ensures r.Err? ==> r.msg == ERR_EDGE
  {
    if NetsReroutable(g0, nets) {
      NetReroutable(g0, g, nets, i);
    }
    assert cur[i] == nets[i];
    r, tested1 := RerouteNet(g0, g, m, cur[i].twopin, coin);
    if r.Ok? {
      var (tps, g2) := r.value;
      NetStep(g, g2, cur, i, tps);
      NetsRevisedStep(nets, cur, i, tps);
      PassStep(m, g0, nets, cur, starts, tested, tps, tested1, g2);
    }
  }

  /** `ripup_place_once(data)`: the nets' two-pins are visited in order,
      and `PassTrail` records, through `starts` and `tested`, the grid each
      one was tested against; a two-pin comes back unchanged exactly when
      its path overflows nowhere on that grid, and is otherwise ripped up,
      rerouted to a cheapest monotone route on the costs of the grid
      without its old path, and placed. Then every edge's cost is rebuilt
      from the last grid. Demand and load stay in agreement, and a grid
      without overflow is left as it was but for the costs. */
  method RipupPlaceOnce(nets: seq<Net>, core: Core, coin: (nat, nat) -> ((int, int) -> bool))
    returns (r: Result<(seq<Net>, Core)>, ghost starts: seq<Grid<Edge>>, ghost tested: seq<seq<Grid<Edge>>>)
    requires ValidModel(core.model) && Valid(core.grid)
    ensures NetsReroutable(core.grid, nets) ==> r.Ok?
    ensures r.Ok? ==> |starts| == |nets| + 1 && Valid(starts[|nets|])
    ensures r.Ok? ==> |tested| == |nets| && PassTrail(core.model, core.grid, nets, r.value.0, starts, tested)
    ensures r.Ok? ==> r.value.1.grid == BuildCost(core.model, starts[|nets|])
    ensures r.Ok? ==> NetsRevised(nets, r.value.0) && r.value.1.model == core.model
    ensures r.Ok? ==> Valid(r.value.1.grid) && Recosted(core.model, core.grid, r.value.1.grid)
    ensures r.Ok? && Routed(core.grid, nets) ==> Routed(r.value.1.grid, r.value.0)
    ensures r.Ok? && Calm(core.grid) ==> r.value.0 == nets && r.value.1.grid == BuildCost(core.model, core.grid)
    ensures r.Err? ==> r.msg == ERR_EDGE
  {
    var g := core.grid;
    var cur := nets;
    var i := 0;
    tested := [];
    starts := [g];
    while i < |cur|
      invariant PassLoop(core.model, core.grid, nets, cur, starts, tested, g, i)
      invariant Calm(core.grid) ==> cur == nets && g == core.grid
    {
      var rn, tested1 := PassTurn(core.model, core.grid, nets, cur, starts, tested, g, i, j => coin(i, j));
      if rn.Err? {
        r := Err(rn.msg);
        return;
      }
      var (tps, g2) := rn.value;
      starts := starts + [g2];
      tested := tested + [tested1];
      g := g2;
      cur := cur[i := cur[i].(twopin := tps)];
      i := i + 1;
    }
    Rebuilt(core.grid, g, core.model);
    r := Ok((cur, core.(grid := BuildCost(core.model, g))));
  }

  /** The record of a pass over nets `a` that turned them into `b`: net
      `k` started on `starts[k]`, ended on `starts[k + 1]` and tested its
      two-pins against `tested[k]`, the first start being `g0`. */
  ghost predicate PassTrail(m: Model, g0: Grid<Edge>, a: seq<Net>, b: seq<Net>,
                            starts: seq<Grid<Edge>>, tested: seq<seq<Grid<Edge>>>)
    requires ValidModel(m) && Valid(g0)
  {
    && |tested| <= |a| == |b| && |starts| == |tested| + 1 && starts[0] == g0
    && forall k :: 0 <= k < |tested| ==> Trail(m, g0, starts[k], a[k].twopin, b[k].twopin, tested[k], starts[k + 1])
  }

  /** One more net extends the pass record. */
  lemma PassStep(m: Model, g0: Grid<Edge>, a: seq<Net>, b: seq<Net>, starts: seq<Grid<Edge>>,
                 tested: seq<seq<Grid<Edge>>>, tps: seq<TwoPin>, tested1: seq<Grid<Edge>>, g2: Grid<Edge>)
    requires ValidModel(m) && Valid(g0) && PassTrail(m, g0, a, b, starts, tested) && |tested| < |a|
    requires Trail(m, g0, starts[|tested|], a[|tested|].twopin, tps, tested1, g2)
    ensures PassTrail(m, g0, a, b[|tested| := b[|tested|].(twopin := tps)], starts + [g2], tested + [tested1])
  {
    var i := |tested|;
    var b2, s2, t2 := b[i := b[i].(twopin := tps)], starts + [g2], tested + [tested1];
    forall k | 0 <= k < |t2|
      ensures Trail(m, g0, s2[k], a[k].twopin, b2[k].twopin, t2[k], s2[k + 1])
    {
      if k < i {
        assert s2[k] == starts[k] && s2[k + 1] == starts[k + 1] && t2[k] == tested[k] && b2[k] == b[k];
      } else {
        assert s2[k] == starts[k] && s2[k + 1] == g2 && t2[k] == tested1 && b2[k].twopin == tps;
      }
    }
  }

  lemma NetsRevisedStep(nets: seq<Net>, cur: seq<Net>, i: int, tps: seq<TwoPin>)
    requires NetsRevised(nets, cur) && 0 <= i < |cur| && cur[i] == nets[i]
    requires |tps| == |nets[i].twopin| && forall t :: 0 <= t < |tps| ==> Revised(nets[i].twopin[t], tps[t])
    ensures NetsRevised(nets, cur[i := cur[i].(twopin := tps)])
  {
  }

  /** Rebuilding the costs of a grid that differs from `g0` in demands
      only: each edge keeps `g0`'s fields but demand and cost, and its cost
      is the one its current state calls for. */
  lemma Rebuilt(g0: Grid<Edge>, g: Grid<Edge>, m: Model)
    requires ValidModel(m) && Valid(g0) && Valid(g) && DemandOnly(g0, g)
    ensures Recosted(m, g0, BuildCost(m, g))
  {
  }

  /** `g` has `g0`'s shape, and each edge keeps `g0`'s fields but demand
      and cost, its cost being the one its current state calls for. */
  ghost predicate Recosted(m: Model, g0: Grid<Edge>, g: Grid<Edge>)
    requires ValidModel(m) && Valid(g0) && Valid(g)
  {
    && g.w == g0.w && g.h == g0.h
    && forall x, y, hori :: IsEdge(g0, x, y, hori) ==>
      Get(g, x, y, hori).value ==
        Get(g0, x, y, hori).value.(demand := Get(g, x, y, hori).value.demand,
                                   cost := CalcCost(m, Get(g, x, y, hori).value))
  }

  lemma NetStep(g: Grid<Edge>, g2: Grid<Edge>, nets: seq<Net>, i: int, tps: seq<TwoPin>)
    requires Valid(g) && Valid(g2) && g2.w == g.w && g2.h == g.h && 0 <= i < |nets|
    requires Moved(g, g2, nets[i].twopin, tps)
    ensures Routed(g, nets) ==> Routed(g2, nets[i := nets[i].(twopin := tps)])
  {
    if Routed(g, nets) {
      var net := nets[i].(twopin := tps);
      forall x, y, hori | IsEdge(g2, x, y, hori)
        ensures Get(g2, x, y, hori).value.demand == Load(nets[i := net], x, y, hori)
      {
        LoadReplace(nets, i, net, x, y, hori);
      }
    }
  }

  // ---- capacities -----------------------------------------------------------------------

  /** A write through the corrected `at`, seen from every edge. */
  lemma SetEdges(g: Grid<Edge>, x: int, y: int, hori: bool, v: Edge)
    requires Valid(g) && Set(g, x, y, hori, v).Ok?
    ensures forall x2, y2, hori2 :: IsEdge(g, x2, y2, hori2) ==>
      Get(Set(g, x, y, hori, v).value, x2, y2, hori2) ==
        if x2 == x && y2 == y && hori2 == hori then Ok(v) else Get(g, x2, y2, hori2)
  {
    forall x2, y2, hori2 | IsEdge(g, x2, y2, hori2)
      ensures Get(Set(g, x, y, hori, v).value, x2, y2, hori2) ==
        if x2 == x && y2 == y && hori2 == hori then Ok(v) else Get(g, x2, y2, hori2)
    {
      GetSet(g, x, y, hori, v, x2, y2, hori2);
    }
  }

  /** `init(numXGrid, numYGrid, Edge(vert_cap), Edge(hori_cap))` with the
      capacities summed over the layers. The counts are C++ `int`s; a
      negative one wraps around in the `std::size_t` cast and is taken here
      as a failing allocation; so is a grid with more edges than
      `max_size()`. */
  function InitGrid(data: IspdData): (r: Result<Grid<Edge>>)
    requires data.numXGrid <= INT_MAX && data.numYGrid <= INT_MAX
    ensures r.Ok? <==> (data.numXGrid >= 0 && data.numYGrid >= 0 && Proper(data.numXGrid, data.numYGrid)
                        && EdgeCount(data.numXGrid, data.numYGrid) <= MAX_SIZE)
    ensures r.Ok? ==> Valid(r.value) && r.value.w == data.numXGrid && r.value.h == data.numYGrid
    ensures r.Ok? ==> forall x, y, hori :: IsEdge(r.value, x, y, hori) ==>
      Get(r.value, x, y, hori) == Ok(NewEdge(if hori then Sum(data.horizontalCapacity) else Sum(data.verticalCapacity)))
    ensures r.Err? ==> r.msg == ERR_RESERVE
  {
    if data.numXGrid < 0 || data.numYGrid < 0 then Err(ERR_RESERVE)
    else
      var vInit, hInit := NewEdge(Sum(data.verticalCapacity)), NewEdge(Sum(data.horizontalCapacity));
      var r := Init(data.numXGrid, data.numYGrid, vInit, hInit);
      if r.Ok? then InitEdges(data.numXGrid, data.numYGrid, vInit, hInit); r else r
  }

  lemma InitEdges(w: nat, h: nat, vInit: Edge, hInit: Edge)
    requires w <= INT_MAX && h <= INT_MAX && Init(w, h, vInit, hInit).Ok?
    ensures forall x, y, hori :: IsEdge(Init(w, h, vInit, hInit).value, x, y, hori) ==>
      Get(Init(w, h, vInit, hInit).value, x, y, hori) == Ok(if hori then hInit else vInit)
  {
    forall x, y, hori | IsEdge(Init(w, h, vInit, hInit).value, x, y, hori)
      ensures Get(Init(w, h, vInit, hInit).value, x, y, hori) == Ok(if hori then hInit else vInit)
    {
      InitValues(w, h, vInit, hInit, x, y, hori);
    }
  }

  /** The edge a capacity adjustment names: two grid points on one layer
      and one step apart give the edge at the lower-left one, horizontal
      when they differ in x, with the layer made 0-based. Any other pair is
      skipped. */
  function AdjEdge(adj: CapacityAdj): Option<RPoint> {
    var (x1, y1, z1) := adj.grid1;
    var (x2, y2, z2) := adj.grid2;
    var lx, ly := Sweep.Min(x1, x2), Sweep.Min(y1, y2);
    var dx, dy := Sweep.Max(x1, x2) - lx, Sweep.Max(y1, y2) - ly;
    if z1 != z2 || dx + dy != 1 then None else Some(RPoint(lx, ly, z1 - 1, dx == 1))
  }

  /** An adjustment names an edge exactly when its points share a layer
      and are neighbours, and the edge it names joins them. */
  lemma AdjEdgeEnds(adj: CapacityAdj)
    ensures AdjEdge(adj).Some? <==>
      adj.grid1.2 == adj.grid2.2 && CAbs(adj.grid1.0 - adj.grid2.0) + CAbs(adj.grid1.1 - adj.grid2.1) == 1
    ensures AdjEdge(adj).Some? ==>
      var p1, p2 := (adj.grid1.0, adj.grid1.1), (adj.grid2.0, adj.grid2.1);
      && (Sweep.Ends(AdjEdge(adj).value) == (p1, p2) || Sweep.Ends(AdjEdge(adj).value) == (p2, p1))
      && AdjEdge(adj).value.z == adj.grid1.2 - 1
  {
  }

  /** Whether adjustment `adj` names the edge (x, y, hori). */
  predicate Hits(adj: CapacityAdj, x: int, y: int, hori: bool) {
    AdjEdge(adj).Some? && Names(AdjEdge(adj).value, x, y, hori)
  }

  /** The capacity of the edge's layer, from the horizontal list for a
      horizontal edge and the vertical list otherwise. */
  function LayerCap(data: IspdData, rp: RPoint): (r: Result<int>)
    ensures r.Ok? <==> 0 <= rp.z < |if rp.hori then data.horizontalCapacity else data.verticalCapacity|
    ensures r.Err? ==> r.msg == ERR_LAYER
  {
    var caps := if rp.hori then data.horizontalCapacity else data.verticalCapacity;
    if 0 <= rp.z < |caps| then Ok(caps[rp.z]) else Err(ERR_LAYER)
  }

  /** `e.cap = max(0, e.cap - reduce)`. */
  function Reduced(e: Edge, reduce: int): (r: Edge)
    ensures r == e.(cap := r.cap) && r.cap >= 0
    ensures e.cap - reduce >= 0 ==> r.cap == e.cap - reduce
    ensures e.cap - reduce < 0 ==> r.cap == 0
  {
    e.(cap := Sweep.Max(0, e.cap - reduce))
  }

  /** One capacity adjustment: the named edge loses the layer's capacity
      less `reducedCapacityLevel`, clamped at 0; no other edge changes. */
  function Adjust(g: Grid<Edge>, data: IspdData, adj: CapacityAdj): (r: Result<Grid<Edge>>)
    requires Valid(g)
    ensures AdjEdge(adj).None? ==> r == Ok(g)
    ensures AdjEdge(adj).Some? ==>
      (r.Ok? <==> LayerCap(data, AdjEdge(adj).value).Ok? && IsEdge(g, AdjEdge(adj).value.x, AdjEdge(adj).value.y, AdjEdge(adj).value.hori))
    ensures r.Ok? ==> Valid(r.value) && r.value.w == g.w && r.value.h == g.h
    ensures r.Ok? ==> forall x, y, hori :: IsEdge(g, x, y, hori) ==>
      Get(r.value, x, y, hori) ==
        if Hits(adj, x, y, hori)
        then Ok(Reduced(Get(g, x, y, hori).value, LayerCap(data, AdjEdge(adj).value).value - adj.reducedCapacityLevel))
        else Get(g, x, y, hori)
    ensures r.Err? ==> r.msg == ERR_LAYER || r.msg == ERR_EDGE
  {
    match AdjEdge(adj)
    case None => Ok(g)
    case Some(rp) =>
      var layerCap :- LayerCap(data, rp);
      var reduce := layerCap - adj.reducedCapacityLevel;
      var e :- Get(g, rp.x, rp.y, rp.hori);
      SetEdges(g, rp.x, rp.y, rp.hori, Reduced(e, reduce));
      Set(g, rp.x, rp.y, rp.hori, Reduced(e, reduce))
  }

  /** The adjustments applied in input order. */
  function AdjustAll(g: Grid<Edge>, data: IspdData, adjs: seq<CapacityAdj>): (r: Result<Grid<Edge>>)
    requires Valid(g)
    ensures r.Ok? ==> Valid(r.value) && r.value.w == g.w && r.value.h == g.h
    ensures r.Err? ==> r.msg == ERR_LAYER || r.msg == ERR_EDGE
  {
    if adjs == [] then Ok(g)
    else
      var g1 :- AdjustAll(g, data, adjs[..|adjs| - 1]);
      Adjust(g1, data, adjs[|adjs| - 1])
  }

  /** After the adjustments only capacities have changed; an edge no
      adjustment names keeps its capacity, and one that some adjustment
      names ends with a capacity of at least 0. */
  lemma {:induction false} AdjustAllEdge(g: Grid<Edge>, data: IspdData, adjs: seq<CapacityAdj>, x: int, y: int, hori: bool)
    requires Valid(g) && AdjustAll(g, data, adjs).Ok? && IsEdge(g, x, y, hori)
    ensures Get(AdjustAll(g, data, adjs).value, x, y, hori).value ==
      Get(g, x, y, hori).value.(cap := Get(AdjustAll(g, data, adjs).value, x, y, hori).value.cap)
    ensures (forall k :: 0 <= k < |adjs| ==> !Hits(adjs[k], x, y, hori)) ==>
      Get(AdjustAll(g, data, adjs).value, x, y, hori) == Get(g, x, y, hori)
    ensures (exists k :: 0 <= k < |adjs| && Hits(adjs[k], x, y, hori)) ==>
      Get(AdjustAll(g, data, adjs).value, x, y, hori).value.cap >= 0
    decreases |adjs|
  {
    if adjs != [] {
      var n := |adjs| - 1;
      var init := adjs[..n];
      AdjustAllEdge(g, data, init, x, y, hori);
      assert forall k :: 0 <= k < n ==> init[k] == adjs[k];
    }
  }

  /** The capacities `preroute` builds: `init`, then the adjustments. */
  function Capacities(data: IspdData): (r: Result<Grid<Edge>>)
    requires data.numXGrid <= INT_MAX && data.numYGrid <= INT_MAX
    ensures r.Ok? ==> Valid(r.value) && r.value.w == data.numXGrid && r.value.h == data.numYGrid
  {
    var g :- InitGrid(data);
    AdjustAll(g, data, data.capacityAdjs)
  }

  /** Every edge of the built grid is a fresh edge: nothing routed, and
      the summed capacity of its orientation unless an adjustment names
      it, in which case the capacity is at least 0. */
  lemma CapacitiesEdge(data: IspdData, x: int, y: int, hori: bool)
    requires data.numXGrid <= INT_MAX && data.numYGrid <= INT_MAX
    requires Capacities(data).Ok? && IsEdge(Capacities(data).value, x, y, hori)
    ensures var e := Get(Capacities(data).value, x, y, hori).value;
      && e == NewEdge(e.cap)
      && ((forall k :: 0 <= k < |data.capacityAdjs| ==> !Hits(data.capacityAdjs[k], x, y, hori)) ==>
          e.cap == if hori then Sum(data.horizontalCapacity) else Sum(data.verticalCapacity))
      && ((exists k :: 0 <= k < |data.capacityAdjs| && Hits(data.capacityAdjs[k], x, y, hori)) ==> e.cap >= 0)
  {
    AdjustAllEdge(InitGrid(data).value, data, data.capacityAdjs, x, y, hori);
  }

  // ---- decomposition ----------------------------------------------------------------

  /** The tile a pin falls in: its offset from the lower-left corner
      divided by the tile size with C++ truncation, and its layer made
      0-based. */
  function TileOf(data: IspdData, p: Triple): (r: Point)
    requires data.tileWidth != 0 && data.tileHeight != 0
    ensures r.z == p.2 - 1
    ensures CAbs(r.x) * CAbs(data.tileWidth) <= CAbs(p.0 - data.lowerLeftX) < (CAbs(r.x) + 1) * CAbs(data.tileWidth)
    ensures CAbs(r.y) * CAbs(data.tileHeight) <= CAbs(p.1 - data.lowerLeftY) < (CAbs(r.y) + 1) * CAbs(data.tileHeight)
  {
    TruncSpan(p.0 - data.lowerLeftX, data.tileWidth);
    TruncSpan(p.1 - data.lowerLeftY, data.tileHeight);
    Point(CDiv(p.0 - data.lowerLeftX, data.tileWidth), CDiv(p.1 - data.lowerLeftY, data.tileHeight), p.2 - 1)
  }

  /** Truncating division keeps the quotient's magnitude within one
      divisor of the dividend's, whatever the signs. */
  lemma TruncSpan(a: int, b: int)
    requires b != 0
    ensures CAbs(CDiv(a, b)) * CAbs(b) <= CAbs(a) < (CAbs(CDiv(a, b)) + 1) * CAbs(b)
  {
    var aa, bb := CAbs(a), CAbs(b);
    var m := aa / bb;
    assert aa == m * bb + aa % bb && 0 <= aa % bb < bb;
    assert (m + 1) * bb == m * bb + bb;
    assert CAbs(CDiv(a, b)) == m;
  }

  lemma TileSpan(o: int, w: int)
    requires o >= 0 && w > 0
    ensures CDiv(o, w) * w <= o < (CDiv(o, w) + 1) * w
  {
    var q := o / w;
    assert o == q * w + o % w;
  }

  /** With positive tile sizes, a pin right of and above the corner lies
      inside the tile it is assigned to. */
  lemma TileContains(data: IspdData, p: Triple)
    requires data.tileWidth > 0 && data.tileHeight > 0
    requires p.0 >= data.lowerLeftX && p.1 >= data.lowerLeftY
    ensures var t := TileOf(data, p);
      && data.lowerLeftX + t.x * data.tileWidth <= p.0 < data.lowerLeftX + (t.x + 1) * data.tileWidth
      && data.lowerLeftY + t.y * data.tileHeight <= p.1 < data.lowerLeftY + (t.y + 1) * data.tileHeight
      && t.z == p.2 - 1
  {
    TileSpan(p.0 - data.lowerLeftX, data.tileWidth);
    TileSpan(p.1 - data.lowerLeftY, data.tileHeight);
  }

  /** The tiles of a net's pins, in pin order. */
  function Tiles(data: IspdData, pins: seq<Triple>): (r: seq<Point>)
    requires data.tileWidth != 0 && data.tileHeight != 0
    ensures |r| == |pins|
  {
    seq(|pins|, k requires 0 <= k < |pins| => TileOf(data, pins[k]))
  }

  /** The `(x, y)` pair a tile is deduplicated by; the layer is ignored. */
  function Key(p: Point): (int, int) {
    (p.x, p.y)
  }

  function Keys(s: seq<Point>): set<(int, int)> {
    set p | p in s :: Key(p)
  }

  lemma KeysSnoc(s: seq<Point>, p: Point)
    ensures Keys(s + [p]) == Keys(s) + {Key(p)}
  {
    assert forall q :: q in s + [p] <==> q in s || q == p;
  }

  /** The first point of every `(x, y)` pair, in order of appearance: what
      the `seen` list of `preroute` keeps. */
  function Firsts(s: seq<Point>): (r: seq<Point>)
    ensures Keys(r) == Keys(s)
    ensures forall i, j :: 0 <= i < j < |r| ==> Key(r[i]) != Key(r[j])
    ensures forall i :: 0 <= i < |r| ==> r[i] in s
    ensures |r| <= |s|
  {
    if s == [] then []
    else
      var init, last := s[..|s| - 1], s[|s| - 1];
      assert s == init + [last];
      KeysSnoc(init, last);
      var r0 := Firsts(init);
      if Key(last) in Keys(init) then r0
      else
        KeysSnoc(r0, last);
        r0 + [last]
  }

  /** One more point is kept exactly when its pair is new. */
  lemma FirstsSnoc(s: seq<Point>, p: Point)
    ensures Firsts(s + [p]) == if Key(p) in Keys(Firsts(s)) then Firsts(s) else Firsts(s) + [p]
  {
    assert (s + [p])[..|s|] == s;
  }

  /** Every point kept is the first of its pair: no earlier point shares
      its `(x, y)`. */
  lemma {:induction false} FirstsAreFirst(s: seq<Point>, i: int)
    requires 0 <= i < |Firsts(s)|
    ensures exists k :: 0 <= k < |s| && s[k] == Firsts(s)[i] && Key(s[k]) !in Keys(s[..k])
    decreases |s|
  {
    var init, last := s[..|s| - 1], s[|s| - 1];
    var r0 := Firsts(init);
    if i < |r0| {
      FirstsAreFirst(init, i);
      var k :| 0 <= k < |init| && init[k] == r0[i] && Key(init[k]) !in Keys(init[..k]);
      assert s[..k] == init[..k];
      assert s[k] == Firsts(s)[i];
    } else {
      var k := |s| - 1;
      assert s[..k] == init;
      assert s[k] == Firsts(s)[i];
    }
  }

  /** `std::find` over the `seen` list. */
  method Find(seen: seq<(int, int)>, key: (int, int)) returns (found: bool)
    ensures found <==> key in seen
  {
    found := false;
    var i := 0;
    while i < |seen|
      invariant 0 <= i <= |seen|
      invariant found <==> key in seen[..i]
    {
      assert seen[..i + 1] == seen[..i] + [seen[i]];
      if seen[i] == key { found := true; }
      i := i + 1;
    }
    assert seen[..i] == seen;
  }

  /** A `seen` list holding the keys of `pts` in order knows exactly the
      keys of `pts`. */
  lemma SeenKeys(seen: seq<(int, int)>, pts: seq<Point>)
    requires |seen| == |pts| && forall i :: 0 <= i < |pts| ==> seen[i] == Key(pts[i])
    ensures forall key :: key in seen <==> key in Keys(pts)
  {
    forall key | key in Keys(pts)
      ensures key in seen
    {
      var q :| q in pts && Key(q) == key;
      var j :| 0 <= j < |pts| && pts[j] == q;
      assert seen[j] == key;
    }
  }

  /** The `seen` loop of `preroute`: each pin's tile, kept when no earlier
      pin has fallen in the same `(x, y)`. */
  method Pin2D(data: IspdData, pins: seq<Triple>) returns (pts: seq<Point>)
    requires data.tileWidth != 0 && data.tileHeight != 0
    ensures pts == Firsts(Tiles(data, pins))
  {
    ghost var tiles := Tiles(data, pins);
    pts := [];
    var seen: seq<(int, int)> := [];
    var k := 0;
    while k < |pins|
      invariant 0 <= k <= |pins|
      invariant pts == Firsts(tiles[..k])
      invariant |seen| == |pts| && forall i :: 0 <= i < |pts| ==> seen[i] == Key(pts[i])
    {
      var t := TileOf(data, pins[k]);
      assert tiles[..k + 1] == tiles[..k] + [t];
      var found := Find(seen, Key(t));
      SeenKeys(seen, pts);
      FirstsSnoc(tiles[..k], t);
      if !found {
        seen := seen + [Key(t)];
        pts := pts + [t];
      }
      k := k + 1;
    }
    assert tiles[..|pins|] == tiles;
  }

  // ---- chaining ---------------------------------------------------------------------

  /** The `i`-th two-pin of the chain, routed by `Lshape` with unit
      costs; the draw of net `net` at link `i` breaks a tie. */
  function Link(pts: seq<Point>, i: int, net: nat, coin: (nat, nat) -> bool): TwoPin
    requires 0 <= i < |pts| - 1
  {
    Patterns.Lshape(NewTwoPin(pts[i], pts[i + 1]), None, coin(net, i))
  }

  /** Every link joins kept point `i` to point `i + 1` along one of the two
      L bends in `|dx| + |dy|` edges, fresh: never rerouted and not
      flagged. */
  lemma LinkFacts(pts: seq<Point>, net: nat, coin: (nat, nat) -> bool)
    ensures forall i :: 0 <= i < |pts| - 1 ==>
      && Link(pts, i, net, coin).from == pts[i] && Link(pts, i, net, coin).to == pts[i + 1]
      && Link(pts, i, net, coin).reroute == 0 && !Link(pts, i, net, coin).overflow
      && |Link(pts, i, net, coin).path| == CAbs(pts[i + 1].x - pts[i].x) + CAbs(pts[i + 1].y - pts[i].y)
      && (|| Link(pts, i, net, coin).path == Patterns.Emit(pts[i], Patterns.Bend1(pts[i], pts[i + 1]), pts[i + 1])
          || Link(pts, i, net, coin).path == Patterns.Emit(pts[i], Patterns.Bend2(pts[i], pts[i + 1]), pts[i + 1]))
  {
    forall i | 0 <= i < |pts| - 1
      ensures
        && Link(pts, i, net, coin).from == pts[i] && Link(pts, i, net, coin).to == pts[i + 1]
        && Link(pts, i, net, coin).reroute == 0 && !Link(pts, i, net, coin).overflow
        && |Link(pts, i, net, coin).path| == CAbs(pts[i + 1].x - pts[i].x) + CAbs(pts[i + 1].y - pts[i].y)
        && (|| Link(pts, i, net, coin).path == Patterns.Emit(pts[i], Patterns.Bend1(pts[i], pts[i + 1]), pts[i + 1])
            || Link(pts, i, net, coin).path == Patterns.Emit(pts[i], Patterns.Bend2(pts[i], pts[i + 1]), pts[i + 1]))
    {
      Patterns.LshapeChoice(NewTwoPin(pts[i], pts[i + 1]), None, coin(net, i));
    }
  }

  /** The chain `pin2D[i] -> pin2D[i + 1]` of a net's kept points. */
  function Chain(pts: seq<Point>, net: nat, coin: (nat, nat) -> bool): (r: seq<TwoPin>)
    ensures |r| == if |pts| < 2 then 0 else |pts| - 1
    ensures forall i :: 0 <= i < |r| ==> r[i].from == pts[i] && r[i].to == pts[i + 1]
    ensures forall i :: 0 <= i < |r| ==> r[i].reroute == 0 && !r[i].overflow
    ensures forall i :: 0 <= i < |r| ==> |r[i].path| == CAbs(pts[i + 1].x - pts[i].x) + CAbs(pts[i + 1].y - pts[i].y)
  {
    LinkFacts(pts, net, coin);
    if |pts| < 2 then []
    else seq(|pts| - 1, i requires 0 <= i < |pts| - 1 => Link(pts, i, net, coin))
  }

  // ---- staying on the grid ----------------------------------------------------------

  /** A point of the grid's vertex lattice. */
  predicate InGrid(g: Grid<Edge>, p: Point) {
    0 <= p.x < g.w && 0 <= p.y < g.h
  }

  /** Every edge of the path is an edge of the grid. */
  predicate OnGrid(g: Grid<Edge>, path: seq<RPoint>) {
    forall j :: 0 <= j < |path| ==> IsEdge(g, path[j].x, path[j].y, path[j].hori)
  }

  lemma {:induction false} SegmentOnGrid(g: Grid<Edge>, hori: bool, fixed: int, lo: int, hi: int)
    requires 0 <= lo && (if hori then hi < g.w && 0 <= fixed < g.h else hi < g.h && 0 <= fixed < g.w)
    ensures OnGrid(g, Patterns.Segment(hori, fixed, lo, hi))
    decreases hi - lo
  {
    if lo < hi {
      SegmentOnGrid(g, hori, fixed, lo + 1, hi);
      var s, rest := Patterns.Segment(hori, fixed, lo, hi), Patterns.Segment(hori, fixed, lo + 1, hi);
      assert forall j :: 1 <= j < |s| ==> s[j] == rest[j - 1];
    }
  }

  lemma OnGridAppend(g: Grid<Edge>, a: seq<RPoint>, b: seq<RPoint>)
    requires OnGrid(g, a) && OnGrid(g, b)
    ensures OnGrid(g, a + b)
  {
    assert forall j :: |a| <= j < |a + b| ==> (a + b)[j] == b[j - |a|];
  }

  /** An L between two grid points through a grid bend stays on the grid. */
  lemma EmitOnGrid(g: Grid<Edge>, f: Point, m: Point, t: Point)
    requires InGrid(g, f) && InGrid(g, m) && InGrid(g, t)
    ensures OnGrid(g, Patterns.Emit(f, m, t))
  {
    SegmentOnGrid(g, true, f.y, Sweep.Min(f.x, m.x), Sweep.Max(f.x, m.x));
    SegmentOnGrid(g, false, m.x, Sweep.Min(f.y, m.y), Sweep.Max(f.y, m.y));
    SegmentOnGrid(g, true, t.y, Sweep.Min(m.x, t.x), Sweep.Max(m.x, t.x));
    SegmentOnGrid(g, false, m.x, Sweep.Min(m.y, t.y), Sweep.Max(m.y, t.y));
    var a, b := Patterns.LineX(f.y, f.x, m.x), Patterns.LineY(m.x, f.y, m.y);
    var c, d := Patterns.LineX(t.y, m.x, t.x), Patterns.LineY(m.x, m.y, t.y);
    OnGridAppend(g, a, b);
    OnGridAppend(g, a + b, c);
    OnGridAppend(g, a + b + c, d);
  }

  /** A chain through grid points stays on the grid, whichever bends the
      draws pick. */
  lemma ChainOnGrid(g: Grid<Edge>, pts: seq<Point>, net: nat, coin: (nat, nat) -> bool)
    requires forall i :: 0 <= i < |pts| ==> InGrid(g, pts[i])
    ensures forall i :: 0 <= i < |Chain(pts, net, coin)| ==> OnGrid(g, Chain(pts, net, coin)[i].path)
  {
    var r := Chain(pts, net, coin);
    LinkFacts(pts, net, coin);
    forall i | 0 <= i < |r|
      ensures OnGrid(g, r[i].path)
    {
      assert r[i] == Link(pts, i, net, coin);
      var f, t := pts[i], pts[i + 1];
      EmitOnGrid(g, f, Patterns.Bend1(f, t), t);
      EmitOnGrid(g, f, Patterns.Bend2(f, t), t);
    }
  }

  /** A two-pin the rip-up-and-reroute pass always gets through: its path
      and both its pins lie on the grid. */
  predicate Reroutable(g: Grid<Edge>, tp: TwoPin) {
    OnGrid(g, tp.path) && InGrid(g, tp.from) && InGrid(g, tp.to)
  }

  predicate AllReroutable(g: Grid<Edge>, tps: seq<TwoPin>) {
    forall t :: 0 <= t < |tps| ==> Reroutable(g, tps[t])
  }

  predicate NetsReroutable(g: Grid<Edge>, nets: seq<Net>) {
    forall k :: 0 <= k < |nets| ==> AllReroutable(g, nets[k].twopin)
  }

  /** Whether two-pins stay on a grid depends on its dimensions alone. */
  lemma ReroutableAt(a: Grid<Edge>, b: Grid<Edge>, tps: seq<TwoPin>, j: int)
    requires a.w == b.w && a.h == b.h && AllReroutable(a, tps) && 0 <= j < |tps|
    ensures Reroutable(b, tps[j])
  {
  }

  lemma NetReroutable(a: Grid<Edge>, b: Grid<Edge>, nets: seq<Net>, i: int)
    requires a.w == b.w && a.h == b.h && NetsReroutable(a, nets) && 0 <= i < |nets|
    ensures AllReroutable(b, nets[i].twopin)
  {
    assert AllReroutable(a, nets[i].twopin);
  }

  /** A stair of `Monotonic` whose box has grid points for corners stays
      on the grid: the box spans columns `o.0` to `o.0 + i` and the rows
      from `o.1` to `YAt(o.1, up, j)`. */
  lemma {:induction false} StairOnGrid(g: Grid<Edge>, o: (int, int), up: bool, i: nat, j: nat, path: seq<RPoint>)
    requires Monotonic.IsStair(o, up, i, j, path)
    requires 0 <= o.0 && o.0 + i < g.w
    requires 0 <= o.1 < g.h && 0 <= Monotonic.YAt(o.1, up, j) < g.h
    ensures OnGrid(g, path)
    decreases |path|
  {
    if i != 0 || j != 0 {
      if i > 0 && path[0] == Monotonic.HEdge(o, up, i - 1, j) && Monotonic.IsStair(o, up, i - 1, j, path[1..]) {
        StairOnGrid(g, o, up, i - 1, j, path[1..]);
      } else {
        StairOnGrid(g, o, up, i, j - 1, path[1..]);
      }
      assert forall k :: 1 <= k < |path| ==> path[k] == path[1..][k - 1];
    }
  }

  /** Every monotone route between two grid points stays on the grid,
      so the path `route_twopin` picks can always be placed. */
  lemma MonotoneOnGrid(g: Grid<Edge>, a: Point, b: Point, path: seq<RPoint>)
    requires Monotonic.MonotoneRoute(a, b, path) && InGrid(g, a) && InGrid(g, b)
    ensures OnGrid(g, path)
  {
    var (f, t) := Patterns.Normalize(a, b);
    Monotonic.MonotoneIsStair(a, b, f, t, path);
    StairOnGrid(g, (f.x, f.y), f.y <= t.y, t.x - f.x, CAbs(t.y - f.y), path);
  }

  // ---- preroute ---------------------------------------------------------------------

  /** Every two-pin's path stays on the grid, so placing them cannot fail. */
  predicate Placeable(g: Grid<Edge>, tps: seq<TwoPin>) {
    forall i :: 0 <= i < |tps| ==> OnGrid(g, tps[i].path)
  }

  /** Whether a path stays on a grid depends on its dimensions alone. */
  lemma PlaceableDims(a: Grid<Edge>, b: Grid<Edge>, tps: seq<TwoPin>)
    requires a.w == b.w && a.h == b.h
    ensures Placeable(a, tps) <==> Placeable(b, tps)
  {
  }

  /** A net of two pins or more divides by the tile sizes. */
  predicate Decomposable(data: IspdData, net: Net) {
    |net.pins| < 2 || (data.tileWidth != 0 && data.tileHeight != 0)
  }

  /** What `preroute` makes of net `k`: a net with fewer than two pins only
      loses its two-pins; any other gets the first tile of every `(x, y)` as
      `pin2D` and the L-routed chain through them as its two-pins. */
  function Decompose(data: IspdData, k: nat, net: Net, coin: (nat, nat) -> bool): (r: Net)
    requires Decomposable(data, net)
    ensures r == net.(pin2D := r.pin2D, twopin := r.twopin)
    ensures |net.pins| < 2 ==> r.pin2D == net.pin2D && r.twopin == []
    ensures |net.pins| >= 2 ==>
      && Keys(r.pin2D) == Keys(Tiles(data, net.pins))
      && (forall i, j :: 0 <= i < j < |r.pin2D| ==> Key(r.pin2D[i]) != Key(r.pin2D[j]))
    ensures |r.twopin| == if |net.pins| < 2 || |r.pin2D| < 2 then 0 else |r.pin2D| - 1
    ensures forall i :: 0 <= i < |r.twopin| ==> r.twopin[i].from == r.pin2D[i] && r.twopin[i].to == r.pin2D[i + 1]
  {
    if |net.pins| < 2 then net.(twopin := [])
    else
      var pts := Firsts(Tiles(data, net.pins));
      net.(pin2D := pts, twopin := Chain(pts, k, coin))
  }

  /** A net whose pins all fall in tiles of the grid can be placed. */
  lemma DecomposeOnGrid(g: Grid<Edge>, data: IspdData, k: nat, net: Net, coin: (nat, nat) -> bool)
    requires Decomposable(data, net)
    requires |net.pins| >= 2 ==> forall i :: 0 <= i < |net.pins| ==> InGrid(g, TileOf(data, net.pins[i]))
    ensures Placeable(g, Decompose(data, k, net, coin).twopin)
  {
    if |net.pins| >= 2 {
      var tiles := Tiles(data, net.pins);
      var pts := Firsts(tiles);
      assert forall i :: 0 <= i < |tiles| ==> InGrid(g, tiles[i]);
      ChainOnGrid(g, pts, k, coin);
    }
  }

  /** `b` is `a` with the paths of `tps` added to the demand. */
  ghost predicate Added(a: Grid<Edge>, b: Grid<Edge>, tps: seq<TwoPin>)
    requires Valid(a) && Valid(b)
  {
    && DemandOnly(a, b)
    && forall x, y, hori :: IsEdge(a, x, y, hori) ==>
      Get(b, x, y, hori).value.demand == Get(a, x, y, hori).value.demand + TwopinLoad(tps, x, y, hori)
  }

  /** Placing link `i` of a chain on a grid that holds the links before
      it succeeds exactly when its path stays on the grid, and then the
      grid holds the links up to `i`. */
  lemma AddedStep(a: Grid<Edge>, b: Grid<Edge>, chain: seq<TwoPin>, i: nat)
    requires Valid(a) && Valid(b) && i < |chain| && Added(a, b, chain[..i]) && Placeable(a, chain[..i])
    ensures Place(b, chain[i]).Ok? <==> OnGrid(a, chain[i].path)
    ensures Place(b, chain[i]).Ok? ==> Valid(Place(b, chain[i]).value)
    ensures Place(b, chain[i]).Ok? ==> Added(a, Place(b, chain[i]).value, chain[..i + 1])
    ensures Place(b, chain[i]).Ok? ==> Placeable(a, chain[..i + 1])
    ensures Place(b, chain[i]).Err? ==> !Placeable(a, chain)
  {
    assert chain[..i + 1][..i] == chain[..i];
    assert chain[..i + 1] == chain[..i] + [chain[i]];
  }

  /** The inner loop of `preroute`: each link of the chain is routed and
      placed as it is made. */
  method PlaceChain(g: Grid<Edge>, pts: seq<Point>, k: nat, coin: (nat, nat) -> bool) returns (r: Result<Grid<Edge>>)
    requires Valid(g)
    ensures r.Ok? <==> Placeable(g, Chain(pts, k, coin))
    ensures r.Ok? ==> Valid(r.value) && Added(g, r.value, Chain(pts, k, coin))
    ensures r.Err? ==> r.msg == ERR_EDGE
  {
    ghost var chain := Chain(pts, k, coin);
    var g1 := g;
    var i := 0;
    while i + 1 < |pts|
      invariant 0 <= i <= |chain| && Valid(g1) && Added(g, g1, chain[..i]) && Placeable(g, chain[..i])
    {
      var tp := Patterns.Lshape(NewTwoPin(pts[i], pts[i + 1]), None, coin(k, i));
      assert tp == chain[i];
      AddedStep(g, g1, chain, i);
      var placed := Place(g1, tp);
      if placed.Err? {
        r := Err(placed.msg);
        return;
      }
      g1 := placed.value;
      i := i + 1;
    }
    assert chain[..i] == chain;
    r := Ok(g1);
  }

  /** One net of `preroute`. */
  method PrerouteNet(g: Grid<Edge>, data: IspdData, k: nat, net: Net, coin: (nat, nat) -> bool)
    returns (r: Result<(Net, Grid<Edge>)>)
    requires Valid(g)
    ensures r.Ok? <==> Decomposable(data, net) && Placeable(g, Decompose(data, k, net, coin).twopin)
    ensures r.Ok? ==> r.value.0 == Decompose(data, k, net, coin)
    ensures r.Ok? ==> Valid(r.value.1) && Added(g, r.value.1, r.value.0.twopin)
    ensures r.Err? ==> r.msg == ERR_DIV || r.msg == ERR_EDGE
  {
    if |net.pins| < 2 {
      r := Ok((net.(twopin := []), g));
      return;
    }
    if data.tileWidth == 0 || data.tileHeight == 0 {
      r := Err(ERR_DIV);
      return;
    }
    var pts := Pin2D(data, net.pins);
    var placed := PlaceChain(g, pts, k, coin);
    if placed.Err? {
      r := Err(placed.msg);
      return;
    }
    r := Ok((net.(pin2D := pts, twopin := Chain(pts, k, coin)), placed.value));
  }

  /** Adding a net's two-pins to a routed grid routes the longer list. */
  lemma RoutedStep(g: Grid<Edge>, g2: Grid<Edge>, nets: seq<Net>, net: Net)
    requires Valid(g) && Valid(g2) && Routed(g, nets) && Added(g, g2, net.twopin)
    ensures Routed(g2, nets + [net])
  {
    assert (nets + [net])[..|nets|] == nets;
  }

  /** The costed capacity grid carries no demand. */
  lemma FreshRouted(data: IspdData, m: Model)
    requires ValidModel(m) && data.numXGrid <= INT_MAX && data.numYGrid <= INT_MAX && Capacities(data).Ok?
    ensures Routed(BuildCost(m, Capacities(data).value), [])
  {
    var c := Capacities(data).value;
    forall x, y, hori | IsEdge(c, x, y, hori)
      ensures Get(BuildCost(m, c), x, y, hori).value.demand == 0
    {
      CapacitiesEdge(data, x, y, hori);
    }
  }

  /** The first `n` nets can be decomposed and their chains stay on `g`. */
  predicate NetsPlaceable(data: IspdData, g: Grid<Edge>, coin: (nat, nat) -> bool, n: nat)
    requires n <= |data.nets|
  {
    forall k :: 0 <= k < n ==>
      Decomposable(data, data.nets[k]) && Placeable(g, Decompose(data, k, data.nets[k], coin).twopin)
  }

  /** A net that cannot be decomposed, or whose chain leaves the grid,
      makes the whole list unplaceable. */
  lemma NetUnplaceable(data: IspdData, c: Grid<Edge>, g: Grid<Edge>, coin: (nat, nat) -> bool, k: nat)
    requires k < |data.nets| && g.w == c.w && g.h == c.h
    requires !(Decomposable(data, data.nets[k]) && Placeable(g, Decompose(data, k, data.nets[k], coin).twopin))
    ensures !NetsPlaceable(data, c, coin, |data.nets|)
  {
    if Decomposable(data, data.nets[k]) {
      PlaceableDims(g, c, Decompose(data, k, data.nets[k], coin).twopin);
    }
  }

  /** Placing net `k`'s chain extends every loop fact of `preroute` by
      one net. */
  lemma NetPlaced(data: IspdData, c: Grid<Edge>, g0: Grid<Edge>, g: Grid<Edge>, g2: Grid<Edge>,
                  nets: seq<Net>, net: Net, coin: (nat, nat) -> bool)
    requires |nets| < |data.nets| && Valid(g0) && Valid(g) && Valid(g2) && g.w == c.w && g.h == c.h
    requires NetsPlaceable(data, c, coin, |nets|)
    requires forall j :: 0 <= j < |nets| ==> nets[j] == Decompose(data, j, data.nets[j], coin)
    requires DemandOnly(g0, g) && Routed(g, nets)
    requires Decomposable(data, data.nets[|nets|]) && Placeable(g, Decompose(data, |nets|, data.nets[|nets|], coin).twopin)
    requires net == Decompose(data, |nets|, data.nets[|nets|], coin) && Added(g, g2, net.twopin)
    ensures NetsPlaceable(data, c, coin, |nets| + 1)
    ensures forall j :: 0 <= j < |nets| + 1 ==> (nets + [net])[j] == Decompose(data, j, data.nets[j], coin)
    ensures DemandOnly(g0, g2) && Routed(g2, nets + [net])
  {
    PlaceableDims(g, c, net.twopin);
    RoutedStep(g, g2, nets, net);
    DemandOnlyTrans(g0, g, g2);
  }

  /** `preroute`: the capacities are built and costed, then every net is
      decomposed and its chain placed, net after net. */
  method Preroute(data: IspdData, core: Core, coin: (nat, nat) -> bool) returns (r: Result<(IspdData, Core)>)
    requires ValidModel(core.model) && data.numXGrid <= INT_MAX && data.numYGrid <= INT_MAX
    ensures r.Ok? <==> Capacities(data).Ok? && NetsPlaceable(data, Capacities(data).value, coin, |data.nets|)
    ensures r.Ok? ==> r.value.0 == data.(nets := r.value.0.nets) && |r.value.0.nets| == |data.nets|
    ensures r.Ok? ==> forall k :: 0 <= k < |data.nets| ==> r.value.0.nets[k] == Decompose(data, k, data.nets[k], coin)
    ensures r.Ok? ==> r.value.1.model == core.model && Valid(r.value.1.grid)
    ensures r.Ok? ==> DemandOnly(BuildCost(core.model, Capacities(data).value), r.value.1.grid)
    ensures r.Ok? ==> Routed(r.value.1.grid, r.value.0.nets)
    ensures r.Err? ==> r.msg in {ERR_RESERVE, ERR_LAYER, ERR_EDGE, ERR_DIV}
  {
    var caps := Capacities(data);
    if caps.Err? {
      r := Err(caps.msg);
      return;
    }
    var g0 := BuildCost(core.model, caps.value);
    FreshRouted(data, core.model);
    var g := g0;
    var nets: seq<Net> := [];
    var k := 0;
    while k < |data.nets|
      invariant 0 <= k <= |data.nets| && |nets| == k
      invariant NetsPlaceable(data, caps.value, coin, k)
      invariant forall j :: 0 <= j < k ==> nets[j] == Decompose(data, j, data.nets[j], coin)
      invariant Valid(g) && DemandOnly(g0, g) && Routed(g, nets)
    {
      var net := PrerouteNet(g, data, k, data.nets[k], coin);
      if net.Err? {
        NetUnplaceable(data, caps.value, g, coin, k);
        r := Err(net.msg);
        return;
      }
      NetPlaced(data, caps.value, g0, g, net.value.1, nets, net.value.0, coin);
      nets := nets + [net.value.0];
      g := net.value.1;
      k := k + 1;
    }
    r := Ok((data.(nets := nets), Core(g, core.model)));
  }
}
