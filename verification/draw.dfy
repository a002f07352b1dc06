/** The congestion-map drawer (`src/tools/draw.cpp`): per-layer edge
    capacities scaled by the net pitch, the capacity adjustments, the demand
    a routing output puts on each edge, the `(2Y - 1) x (2X - 1)` picture of
    the grid and the grey levels and header of its PPM rendering. */
module Draw {
  import opened Wrappers
  import opened Utils
  import opened IntText
  import opened TokenStream
  import opened IspdTypes
  import IspdParser
  import RoutingCore
  import Sweep

  const ERR_SIZE := "vector length out of range"
  /** Stands for the unchecked `operator[]` into the capacity lists and
      the two arrays with a slot they do not hold: undefined behaviour in
      C++, an error here. */
  const ERR_INDEX := "index outside the arrays"
  const ERR_SEGMENT := "malformed segment line"

  // ---- parse_segment ----------------------------------------------------------------

  /** `is >> c` on a `char`: skips white space and takes the next
      character, whatever it is. */
  function ReadChar(s: seq<char>): (r: Option<(char, seq<char>)>)
    ensures r.Some? ==> |r.value.1| < |s| && !IsSpace(r.value.0)
    ensures r.None? <==> SkipSpace(s) == []
  {
    var q := SkipSpace(s);
    if q == [] then None else Some((q[0], q[1..]))
  }

  /** `>> c >> n`: one separator character, then an integer. */
  function SepInt(s: seq<char>): (r: Option<(int, seq<char>)>)
    ensures r.Some? ==> |r.value.1| < |s| && IsInt32(r.value.0)
  {
    var c :- ReadChar(s);
    ReadInt(c.1)
  }

  /** `>> c >> x >> c >> y >> c >> z`. */
  function ReadTriple(s: seq<char>): (r: Option<(Triple, seq<char>)>)
    ensures r.Some? ==> |r.value.1| < |s|
    ensures r.Some? ==> IsInt32(r.value.0.0) && IsInt32(r.value.0.1) && IsInt32(r.value.0.2)
  {
    var a :- SepInt(s);
    var b :- SepInt(a.1);
    var c :- SepInt(b.1);
    Some(((a.0, b.0, c.0), c.1))
  }

  /** A routed wire from one `(x, y, layer)` point to another. */
  datatype Segment = Segment(a: Triple, b: Triple)

  /** The second triple, whose last integer is the last read of the line:
      when that read fails it still stores a value (`StoredInt`), so only a
      failure before it leaves a coordinate unset. */
  function ReadLast(s: seq<char>): (r: Option<Triple>)
    ensures ReadTriple(s).Some? ==> r == Some(ReadTriple(s).value.0)
    ensures r.Some? ==> IsInt32(r.value.0) && IsInt32(r.value.1) && IsInt32(r.value.2)
  {
    var a :- SepInt(s);
    var b :- SepInt(a.1);
    var c :- ReadChar(b.1);
    var z :- StoredInt(c.1);
    Some((a.0, b.0, z))
  }

  /** `>> c` twice (the closing bracket and the dash), then the second
      triple. */
  function ReadSecond(s: seq<char>): (r: Option<Triple>)
    ensures r.Some? ==> IsInt32(r.value.0) && IsInt32(r.value.1) && IsInt32(r.value.2)
  {
    var close :- ReadChar(s);
    var dash :- ReadChar(close.1);
    ReadLast(dash.1)
  }

  /** `parse_segment`: a triple, two characters, and a second triple. The
      separators are read but never compared, and the closing character
      after the second triple does not matter. When the last coordinate is
      not a number it is still stored (0, or `INT_MIN`/`INT_MAX` when it
      does not fit); when an earlier read fails, the coordinates after it
      are never written, and the model reports the line as malformed. */
  function ParseSegment(line: string): (r: Option<Segment>)
    ensures r.Some? ==> IsInt32(r.value.a.0) && IsInt32(r.value.a.1) && IsInt32(r.value.a.2)
    ensures r.Some? ==> IsInt32(r.value.b.0) && IsInt32(r.value.b.1) && IsInt32(r.value.b.2)
  {
    var p :- ReadTriple(line);
    var q :- ReadSecond(p.1);
    Some(Segment(p.0, q))
  }

  /** A separator `parse_segment` passes over: neither white space nor a
      digit. */
  predicate Sep(c: char) {
    !IsSpace(c) && !IsDigit(c)
  }

  /** A triple written with three leading separators in front of `tail`,
      the closing one left to the caller. */
  function TripleText(t: Triple, s0: char, s1: char, s2: char, tail: string): string {
    [s0] + (Show(t.0) + ([s1] + (Show(t.1) + ([s2] + (Show(t.2) + tail)))))
  }

  /** The segment written as `(x1,y1,z1)-(x2,y2,z2)` with the nine
      separators `seps` in place of the brackets, commas and dash. */
  function SegmentText(seg: Segment, seps: seq<char>): string
    requires |seps| == 9
  {
    TripleText(seg.a, seps[0], seps[1], seps[2], [seps[3]] + ([seps[4]] + TripleText(seg.b, seps[5], seps[6], seps[7], [seps[8]])))
  }

  lemma ReadCharHead(c: char, rest: seq<char>)
    requires !IsSpace(c)
    ensures ReadChar([c] + rest) == Some((c, rest))
  {
    assert ([c] + rest)[1..] == rest;
  }

  lemma SepIntText(c: char, n: int, tail: seq<char>)
    requires !IsSpace(c) && IsInt32(n)
    requires tail == [] || !IsDigit(tail[0])
    ensures SepInt([c] + (Show(n) + tail)) == Some((n, tail))
  {
    ReadCharHead(c, Show(n) + tail);
    ScanShow(n, tail);
  }

  lemma ReadTripleText(t: Triple, s0: char, s1: char, s2: char, tail: string)
    requires Sep(s0) && Sep(s1) && Sep(s2) && IsInt32(t.0) && IsInt32(t.1) && IsInt32(t.2)
    requires tail == [] || !IsDigit(tail[0])
    ensures ReadTriple(TripleText(t, s0, s1, s2, tail)) == Some((t, tail))
  {
    var t2 := [s2] + (Show(t.2) + tail);
    var t1 := [s1] + (Show(t.1) + t2);
    SepIntText(s2, t.2, tail);
    SepIntText(s1, t.1, t2);
    SepIntText(s0, t.0, t1);
  }

  lemma ReadSecondText(t: Triple, s3: char, s4: char, s5: char, s6: char, s7: char, s8: char)
    requires Sep(s3) && Sep(s4) && Sep(s5) && Sep(s6) && Sep(s7) && Sep(s8)
    requires IsInt32(t.0) && IsInt32(t.1) && IsInt32(t.2)
    ensures ReadSecond([s3] + ([s4] + TripleText(t, s5, s6, s7, [s8]))) == Some(t)
  {
    var back := TripleText(t, s5, s6, s7, [s8]);
    ReadCharHead(s3, [s4] + back);
    ReadCharHead(s4, back);
    ReadTripleText(t, s5, s6, s7, [s8]);
  }

  /** `parse_segment` reads back any segment of 32-bit coordinates written
      with separators that are neither spaces nor digits. */
  lemma ParseSegmentText(seg: Segment, seps: seq<char>)
    requires |seps| == 9 && forall k :: 0 <= k < 9 ==> Sep(seps[k])
    requires IsInt32(seg.a.0) && IsInt32(seg.a.1) && IsInt32(seg.a.2)
    requires IsInt32(seg.b.0) && IsInt32(seg.b.1) && IsInt32(seg.b.2)
    ensures ParseSegment(SegmentText(seg, seps)) == Some(seg)
  {
    assert Sep(seps[3]) && Sep(seps[4]) && Sep(seps[5]) && Sep(seps[6]) && Sep(seps[7]) && Sep(seps[8]);
    var mid := [seps[3]] + ([seps[4]] + TripleText(seg.b, seps[5], seps[6], seps[7], [seps[8]]));
    ReadTripleText(seg.a, seps[0], seps[1], seps[2], mid);
    ReadSecondText(seg.b, seps[3], seps[4], seps[5], seps[6], seps[7], seps[8]);
  }

  /** The output format's own spelling, `(x1,y1,z1)-(x2,y2,z2)`. */
  lemma ParseSegmentPlain(seg: Segment)
    requires IsInt32(seg.a.0) && IsInt32(seg.a.1) && IsInt32(seg.a.2)
    requires IsInt32(seg.b.0) && IsInt32(seg.b.1) && IsInt32(seg.b.2)
    ensures ParseSegment(SegmentText(seg, "(,,)-(,,)")) == Some(seg)
  {
    var seps := "(,,)-(,,)";
    assert forall k :: 0 <= k < 9 ==> Sep(seps[k]);
    ParseSegmentText(seg, seps);
  }

  /** A second triple whose last coordinate is the text `last`, whatever
      it holds. */
  function LastText(x: int, y: int, s5: char, s6: char, s7: char, last: string): string {
    [s5] + (Show(x) + ([s6] + (Show(y) + ([s7] + last))))
  }

  lemma ReadLastText(x: int, y: int, s5: char, s6: char, s7: char, last: string)
    requires Sep(s5) && Sep(s6) && Sep(s7) && IsInt32(x) && IsInt32(y)
    ensures ReadLast(LastText(x, y, s5, s6, s7, last))
         == if StoredInt(last).Some? then Some((x, y, StoredInt(last).value)) else None
  {
    var t2 := [s7] + last;
    var t1 := [s6] + (Show(y) + t2);
    var t0 := LastText(x, y, s5, s6, s7, last);
    SepIntText(s5, x, t1);
    SepIntText(s6, y, t2);
    ReadCharHead(s7, last);
    ReadLastSteps(t0, t1, t2, x, y, s7, last);
  }

  lemma ReadLastSteps(t0: seq<char>, t1: seq<char>, t2: seq<char>, x: int, y: int, s7: char, last: string)
    requires SepInt(t0) == Some((x, t1)) && SepInt(t1) == Some((y, t2)) && ReadChar(t2) == Some((s7, last))
    ensures ReadLast(t0) == if StoredInt(last).Some? then Some((x, y, StoredInt(last).value)) else None
  {
  }

  /** The last coordinate of a line is whatever its read stores, even when
      its text is not a number: `parse_segment` then returns 0, or
      `INT_MIN`/`INT_MAX` for digits that do not fit, rather than failing.
      Only a line whose last coordinate is blank is malformed. */
  lemma ParseSegmentLast(a: Triple, x: int, y: int, s: seq<char>, last: string)
    requires |s| == 8 && Sep(s[0]) && Sep(s[1]) && Sep(s[2]) && Sep(s[3]) && Sep(s[4]) && Sep(s[5]) && Sep(s[6]) && Sep(s[7])
    requires IsInt32(a.0) && IsInt32(a.1) && IsInt32(a.2) && IsInt32(x) && IsInt32(y)
    ensures ParseSegment(TripleText(a, s[0], s[1], s[2], [s[3]] + ([s[4]] + LastText(x, y, s[5], s[6], s[7], last))))
         == if StoredInt(last).Some? then Some(Segment(a, (x, y, StoredInt(last).value))) else None
  {
    var back := LastText(x, y, s[5], s[6], s[7], last);
    var mid := [s[3]] + ([s[4]] + back);
    ReadTripleText(a, s[0], s[1], s[2], mid);
    ReadCharHead(s[3], [s[4]] + back);
    ReadCharHead(s[4], back);
    ReadLastText(x, y, s[5], s[6], s[7], last);
    ParseSegmentSteps(TripleText(a, s[0], s[1], s[2], mid), a, mid, back);
  }

  lemma ParseSegmentSteps(line: string, a: Triple, mid: seq<char>, back: seq<char>)
    requires ReadTriple(line) == Some((a, mid)) && ReadSecond(mid) == ReadLast(back)
    ensures ParseSegment(line) == if ReadLast(back).Some? then Some(Segment(a, ReadLast(back).value)) else None
  {
  }

  // ---- min_net and the per-layer capacities -----------------------------------------

  /** `avg`: the truncated mean, 0 for an empty list. */
  function Avg(v: seq<int>): (r: int)
    ensures v != [] && Sum(v) != 0 ==> CAbs(r) == NatDiv(CAbs(Sum(v)), |v|)
    ensures r > 0 ==> Sum(v) > 0
    ensures r < 0 ==> Sum(v) < 0
  {
    if v == [] then 0 else Average(v)
  }

  /** `min_net`: mean wire width plus mean spacing, raised to 1 when that
      is not positive. */
  function MinNet(data: IspdData): (r: int)
    ensures r >= 1
    ensures Avg(data.minimumWidth) + Avg(data.minimumSpacing) >= 1 ==> r == Avg(data.minimumWidth) + Avg(data.minimumSpacing)
    ensures Avg(data.minimumWidth) + Avg(data.minimumSpacing) <= 0 ==> r == 1
  {
    var m := Avg(data.minimumWidth) + Avg(data.minimumSpacing);
    if m <= 0 then 1 else m
  }

  /** The per-layer capacity lists have one entry per layer, and none for
      a negative layer count, as the benchmark reader leaves them. */
  predicate Shaped(data: IspdData) {
    var n := if data.numLayer < 0 then 0 else data.numLayer;
    |data.verticalCapacity| == n && |data.horizontalCapacity| == n
  }

  /** Every record the checked reader returns can be drawn, including one
      with a negative layer count. */
  lemma ParsedShaped(data: IspdData)
    requires IspdParser.Shaped(data)
    ensures Shaped(data)
  {
  }

  /** An edge on one layer: from (x, y) to (x + 1, y) when `hori`, to
      (x, y + 1) otherwise. */
  datatype Slot = Slot(x: int, y: int, z: int, hori: bool)

  /** `EdgeAgg`: capacity and demand of one edge on one layer. */
  datatype Agg = Agg(cap: int, demand: int)

  /** The `vertical` (`[X][Y - 1][Z]`) and `horizontal` (`[X - 1][Y][Z]`)
      arrays as one map from slot to record. */
  datatype Board = Board(w: int, h: int, layers: int, cells: map<Slot, Agg>)

  /** The slots the two arrays have. */
  predicate InBoard(w: int, h: int, layers: int, s: Slot) {
    && 0 <= s.z < layers
    && if s.hori then 0 <= s.x < w - 1 && 0 <= s.y < h else 0 <= s.x < w && 0 <= s.y < h - 1
  }

  ghost predicate ValidBoard(b: Board) {
    && b.w >= 1 && b.h >= 1 && b.layers >= 0
    && forall s :: s in b.cells <==> InBoard(b.w, b.h, b.layers, s)
  }

  function SlotSet(w: int, h: int, layers: int): (r: set<Slot>)
    ensures forall s :: s in r <==> InBoard(w, h, layers, s)
  {
    set x: int, y: int, z: int, hori: bool | 0 <= x < w && 0 <= y < h && 0 <= z < layers && InBoard(w, h, layers, Slot(x, y, z, hori))
      :: Slot(x, y, z, hori)
  }

  /** A layer's capacity for edges of one orientation. */
  function LayerCaps(data: IspdData, hori: bool): seq<int> {
    if hori then data.horizontalCapacity else data.verticalCapacity
  }

  /** An edge's capacity on its layer in units of `min_net`. */
  function UnitCap(data: IspdData, minNet: int, s: Slot): int
    requires minNet >= 1 && 0 <= s.z < |LayerCaps(data, s.hori)|
  {
    CDiv(LayerCaps(data, s.hori)[s.z], minNet)
  }

  /** The two arrays filled with each layer's capacity in units of
      `min_net` and no demand. An `X` or `Y` below 1, or a `Z` below 0,
      makes one of the vector lengths negative, which the `std::size_t`
      conversion turns into a length the allocation refuses. */
  function InitBoard(data: IspdData, minNet: int): (r: Result<Board>)
    requires minNet >= 1 && Shaped(data)
    ensures r.Ok? <==> data.numXGrid >= 1 && data.numYGrid >= 1 && data.numLayer >= 0
    ensures r.Ok? ==> ValidBoard(r.value)
    ensures r.Ok? ==> r.value.w == data.numXGrid && r.value.h == data.numYGrid && r.value.layers == data.numLayer
    ensures r.Ok? ==> forall s :: s in r.value.cells ==> r.value.cells[s] == Agg(UnitCap(data, minNet, s), 0)
    ensures r.Err? ==> r.msg == ERR_SIZE
  {
    var w, h, layers := data.numXGrid, data.numYGrid, data.numLayer;
    if w < 1 || h < 1 || layers < 0 then Err(ERR_SIZE)
    else Ok(Board(w, h, layers, map s | s in SlotSet(w, h, layers) :: Agg(UnitCap(data, minNet, s), 0)))
  }

  // ---- capacity adjustments ---------------------------------------------------------

  /** The slot an adjustment names, with the same skipping rules as the
      router's: the two points must share a layer and be neighbours. */
  function AdjSlot(adj: CapacityAdj): Option<Slot> {
    match RoutingCore.AdjEdge(adj)
    case None => None
    case Some(rp) => Some(Slot(rp.x, rp.y, rp.z, rp.hori))
  }

  /** The amount an adjustment takes off its edge: the layer's capacity
      less the reduced level, both in units of `min_net`. */
  function Cut(data: IspdData, minNet: int, adj: CapacityAdj, s: Slot): int
    requires minNet >= 1 && 0 <= s.z < |LayerCaps(data, s.hori)|
  {
    UnitCap(data, minNet, s) - CDiv(adj.reducedCapacityLevel, minNet)
  }

  /** One adjustment: the named slot's capacity drops by the cut, with no
      clamp at 0, and nothing else changes. The arrays are indexed
      unchecked; a slot outside them, undefined behaviour in C++, is
      `ERR_INDEX` here. */
  function AdjustBoard(b: Board, data: IspdData, minNet: int, adj: CapacityAdj): (r: Result<Board>)
    requires ValidBoard(b) && minNet >= 1 && Shaped(data) && b.layers == data.numLayer
    ensures AdjSlot(adj).None? ==> r == Ok(b)
    ensures AdjSlot(adj).Some? ==> (r.Ok? <==> InBoard(b.w, b.h, b.layers, AdjSlot(adj).value))
    ensures r.Ok? ==> ValidBoard(r.value) && r.value.w == b.w && r.value.h == b.h && r.value.layers == b.layers
    ensures r.Ok? ==> forall s :: s in b.cells ==>
      r.value.cells[s] == if AdjSlot(adj) == Some(s) then b.cells[s].(cap := b.cells[s].cap - Cut(data, minNet, adj, s)) else b.cells[s]
    ensures r.Err? ==> r.msg == ERR_INDEX
  {
    match AdjSlot(adj)
    case None => Ok(b)
    case Some(s) =>
      if !InBoard(b.w, b.h, b.layers, s) then Err(ERR_INDEX)
      else Ok(b.(cells := b.cells[s := b.cells[s].(cap := b.cells[s].cap - Cut(data, minNet, adj, s))]))
  }

  /** The adjustments applied in input order. */
  function AdjustBoardAll(b: Board, data: IspdData, minNet: int, adjs: seq<CapacityAdj>): (r: Result<Board>)
    requires ValidBoard(b) && minNet >= 1 && Shaped(data) && b.layers == data.numLayer
    ensures r.Ok? ==> ValidBoard(r.value) && r.value.w == b.w && r.value.h == b.h && r.value.layers == b.layers
    ensures r.Err? ==> r.msg == ERR_INDEX
  {
    if adjs == [] then Ok(b)
    else
      var b1 :- AdjustBoardAll(b, data, minNet, adjs[..|adjs| - 1]);
      AdjustBoard(b1, data, minNet, adjs[|adjs| - 1])
  }

  /** What all adjustments naming a slot take off it together. */
  function TotalCut(data: IspdData, minNet: int, adjs: seq<CapacityAdj>, s: Slot): int
    requires minNet >= 1 && 0 <= s.z < |LayerCaps(data, s.hori)|
  {
    if adjs == [] then 0
    else
      TotalCut(data, minNet, adjs[..|adjs| - 1], s)
      + (if AdjSlot(adjs[|adjs| - 1]) == Some(s) then Cut(data, minNet, adjs[|adjs| - 1], s) else 0)
  }

  /** The adjustments succeed exactly when every slot they name is in the
      arrays; each slot then loses the sum of its cuts, however far below
      0 that takes it, and keeps its demand. */
  lemma {:induction false} AdjustBoardAllCells(b: Board, data: IspdData, minNet: int, adjs: seq<CapacityAdj>)
    requires ValidBoard(b) && minNet >= 1 && Shaped(data) && b.layers == data.numLayer
    ensures AdjustBoardAll(b, data, minNet, adjs).Ok? <==>
      forall k :: 0 <= k < |adjs| && AdjSlot(adjs[k]).Some? ==> InBoard(b.w, b.h, b.layers, AdjSlot(adjs[k]).value)
    ensures AdjustBoardAll(b, data, minNet, adjs).Ok? ==> forall s :: s in b.cells ==>
      AdjustBoardAll(b, data, minNet, adjs).value.cells[s] ==
        b.cells[s].(cap := b.cells[s].cap - TotalCut(data, minNet, adjs, s))
    decreases |adjs|
  {
    if adjs != [] {
      var n := |adjs| - 1;
      var init := adjs[..n];
      AdjustBoardAllCells(b, data, minNet, init);
      assert forall k :: 0 <= k < n ==> init[k] == adjs[k];
    }
  }

  // ---- demand from the routing output -----------------------------------------------

  /** The slot at position `k` of a straight run on layer `z`: along row
      `fixed` when `hori`, along column `fixed` otherwise. */
  function RunSlot(hori: bool, fixed: int, k: int, z: int): Slot {
    if hori then Slot(k, fixed, z, true) else Slot(fixed, k, z, false)
  }

  /** Whether slot `s` is one of the run's positions `[lo, hi)`. */
  predicate OnRun(s: Slot, hori: bool, fixed: int, lo: int, hi: int, z: int) {
    && s.hori == hori && s.z == z
    && if hori then s.y == fixed && lo <= s.x < hi else s.x == fixed && lo <= s.y < hi
  }

  /** `demand++` on one slot. */
  function Bump(b: Board, s: Slot): (r: Board)
    requires ValidBoard(b) && s in b.cells
    ensures ValidBoard(r) && r.w == b.w && r.h == b.h && r.layers == b.layers
    ensures forall s2 :: s2 in b.cells ==>
      r.cells[s2] == if s2 == s then b.cells[s].(demand := b.cells[s].demand + 1) else b.cells[s2]
  {
    b.(cells := b.cells[s := b.cells[s].(demand := b.cells[s].demand + 1)])
  }

  /** The inner `for` loop over one straight segment: each position the
      arrays hold gains one demand and counts as a segment; the others are
      passed over. */
  function Run(b: Board, hori: bool, fixed: int, lo: int, hi: int, z: int): (r: (Board, nat))
    requires ValidBoard(b)
    ensures ValidBoard(r.0) && r.0.w == b.w && r.0.h == b.h && r.0.layers == b.layers
    ensures forall s :: s in b.cells ==>
      r.0.cells[s] == if OnRun(s, hori, fixed, lo, hi, z) then b.cells[s].(demand := b.cells[s].demand + 1) else b.cells[s]
    decreases hi - lo
  {
    if lo >= hi then (b, 0)
    else
      var s := RunSlot(hori, fixed, lo, z);
      var hit := InBoard(b.w, b.h, b.layers, s);
      var b1 := if hit then Bump(b, s) else b;
      var r := Run(b1, hori, fixed, lo + 1, hi, z);
      (r.0, r.1 + if hit then 1 else 0)
  }

  /** The count is one per position the arrays hold: at most the run's
      length, all of it when every position is there, and nothing done at
      all when none is. */
  lemma {:induction false} RunCount(b: Board, hori: bool, fixed: int, lo: int, hi: int, z: int)
    requires ValidBoard(b)
    ensures Run(b, hori, fixed, lo, hi, z).1 <= if lo <= hi then hi - lo else 0
    ensures lo <= hi && (forall k :: lo <= k < hi ==> InBoard(b.w, b.h, b.layers, RunSlot(hori, fixed, k, z))) ==>
      Run(b, hori, fixed, lo, hi, z).1 == hi - lo
    ensures (forall k :: lo <= k < hi ==> !InBoard(b.w, b.h, b.layers, RunSlot(hori, fixed, k, z))) ==>
      Run(b, hori, fixed, lo, hi, z) == (b, 0)
    decreases hi - lo
  {
    if lo < hi {
      var s := RunSlot(hori, fixed, lo, z);
      var b1 := if InBoard(b.w, b.h, b.layers, s) then Bump(b, s) else b;
      RunCount(b1, hori, fixed, lo + 1, hi, z);
    }
  }

  /** The drawer's counters: nets read, edges credited, vias and skipped
      segments. */
  datatype Tally = Tally(nets: nat, segs: nat, vias: nat, skips: nat)

  /** Whether a wire between the tiles `p` and `q` runs along slot `s`:
      both on the slot's layer, in the slot's row (or column), with the
      slot between them. */
  predicate Spans(p: Point, q: Point, s: Slot) {
    && p.z == q.z && s.z == p.z
    && if s.hori then s.y == p.y && s.y == q.y && Sweep.Min(p.x, q.x) <= s.x < Sweep.Max(p.x, q.x)
       else s.x == p.x && s.x == q.x && Sweep.Min(p.y, q.y) <= s.y < Sweep.Max(p.y, q.y)
  }

  /** Whether a segment of the routing output runs along slot `s`. */
  predicate Covers(data: IspdData, seg: Segment, s: Slot)
    requires data.tileWidth != 0 && data.tileHeight != 0
  {
    Spans(RoutingCore.TileOf(data, seg.a), RoutingCore.TileOf(data, seg.b), s)
  }

  /** A segment between two tiles: a via (ends on different layers) is
      counted and adds nothing; a segment of length 0 or on a layer the
      arrays lack is skipped; a horizontal or vertical one is a run; a
      diagonal one is passed over. */
  function AddTiles(b: Board, p: Point, q: Point, t: Tally): (r: (Board, Tally))
    requires ValidBoard(b)
    ensures ValidBoard(r.0) && r.0.w == b.w && r.0.h == b.h && r.0.layers == b.layers
    ensures r.1.nets == t.nets
  {
    if p.z != q.z then (b, t.(vias := t.vias + 1))
    else if p.x == q.x && p.y == q.y then (b, t.(skips := t.skips + 1))
    else if p.z < 0 || p.z >= b.layers then (b, t.(skips := t.skips + 1))
    else if p.y == q.y then
      var r := Run(b, true, p.y, Sweep.Min(p.x, q.x), Sweep.Max(p.x, q.x), p.z);
      (r.0, t.(segs := t.segs + r.1))
    else if p.x == q.x then
      var r := Run(b, false, p.x, Sweep.Min(p.y, q.y), Sweep.Max(p.y, q.y), p.z);
      (r.0, t.(segs := t.segs + r.1))
    else (b, t)
  }

  lemma SpansRow(p: Point, q: Point, s: Slot)
    requires p.z == q.z && p.y == q.y
    ensures Spans(p, q, s) <==> OnRun(s, true, p.y, Sweep.Min(p.x, q.x), Sweep.Max(p.x, q.x), p.z)
  {
  }

  lemma SpansColumn(p: Point, q: Point, s: Slot)
    requires p.z == q.z && p.x == q.x && p.y != q.y
    ensures Spans(p, q, s) <==> OnRun(s, false, p.x, Sweep.Min(p.y, q.y), Sweep.Max(p.y, q.y), p.z)
  {
  }

  /** A wire adds one demand to exactly the slots it runs along and
      changes no capacity; a via only bumps the via counter. */
  lemma AddTilesCells(b: Board, p: Point, q: Point, t: Tally)
    requires ValidBoard(b)
    ensures forall s :: s in b.cells ==>
      AddTiles(b, p, q, t).0.cells[s] == b.cells[s].(demand := b.cells[s].demand + if Spans(p, q, s) then 1 else 0)
    ensures p.z != q.z ==> AddTiles(b, p, q, t) == (b, t.(vias := t.vias + 1))
  {
    var r := AddTiles(b, p, q, t);
    forall s | s in b.cells
      ensures r.0.cells[s] == b.cells[s].(demand := b.cells[s].demand + if Spans(p, q, s) then 1 else 0)
    {
      if p.z == q.z && p.y == q.y {
        SpansRow(p, q, s);
      } else if p.z == q.z && p.x == q.x {
        SpansColumn(p, q, s);
      }
    }
  }

  /** One segment line of the routing output, its ends mapped to tiles. */
  function AddSegment(b: Board, data: IspdData, line: string, t: Tally): (r: Result<(Board, Tally)>)
    requires ValidBoard(b)
    ensures r.Ok? <==> ParseSegment(line).Some? && data.tileWidth != 0 && data.tileHeight != 0
    ensures r.Ok? ==> ValidBoard(r.value.0) && r.value.0.w == b.w && r.value.0.h == b.h && r.value.0.layers == b.layers
    ensures r.Ok? ==> r.value.1.nets == t.nets
    ensures r.Err? ==> r.msg == ERR_SEGMENT || r.msg == RoutingCore.ERR_DIV
  {
    var seg :- match ParseSegment(line) case None => Err(ERR_SEGMENT) case Some(seg) => Ok(seg);
    if data.tileWidth == 0 || data.tileHeight == 0 then Err(RoutingCore.ERR_DIV)
    else Ok(AddTiles(b, RoutingCore.TileOf(data, seg.a), RoutingCore.TileOf(data, seg.b), t))
  }

  /** The segment lines in order; the first malformed one stops the
      drawer. */
  function AddLines(b: Board, data: IspdData, lines: seq<string>, t: Tally): (r: Result<(Board, Tally)>)
    requires ValidBoard(b)
    ensures r.Ok? ==> ValidBoard(r.value.0) && r.value.0.w == b.w && r.value.0.h == b.h && r.value.0.layers == b.layers
    ensures r.Ok? ==> r.value.1.nets == t.nets
    ensures r.Err? ==> r.msg == ERR_SEGMENT || r.msg == RoutingCore.ERR_DIV
    decreases |lines|
  {
    if lines == [] then Ok((b, t))
    else
      var r1 :- AddSegment(b, data, lines[0], t);
      AddLines(r1.0, data, lines[1..], r1.1)
  }

  /** How many of the lines' segments run along slot `s`. */
  function Coverage(data: IspdData, lines: seq<string>, s: Slot): nat
    requires data.tileWidth != 0 && data.tileHeight != 0
  {
    if lines == [] then 0
    else
      (match ParseSegment(lines[0]) case None => 0 case Some(seg) => if Covers(data, seg, s) then 1 else 0)
      + Coverage(data, lines[1..], s)
  }

  /** The lines go through exactly when every one is a well-formed segment
      and, if there is any, the tile sizes are not 0. */
  lemma {:induction false} AddLinesOk(b: Board, data: IspdData, lines: seq<string>, t: Tally)
    requires ValidBoard(b)
    ensures AddLines(b, data, lines, t).Ok? <==>
      (forall k :: 0 <= k < |lines| ==> ParseSegment(lines[k]).Some?) && (lines == [] || (data.tileWidth != 0 && data.tileHeight != 0))
    decreases |lines|
  {
    if lines != [] {
      var a := AddSegment(b, data, lines[0], t);
      var ok := (forall k :: 0 <= k < |lines| ==> ParseSegment(lines[k]).Some?) && data.tileWidth != 0 && data.tileHeight != 0;
      if a.Ok? {
        AddLinesOk(a.value.0, data, lines[1..], a.value.1);
        assert AddLines(b, data, lines, t) == AddLines(a.value.0, data, lines[1..], a.value.1);
        assert forall k :: 1 <= k < |lines| ==> lines[1..][k - 1] == lines[k];
      } else {
        assert !ok;
      }
    }
  }

  /** Every slot gains the number of segments running along it, and keeps
      its capacity. */
  lemma {:induction false} AddLinesCells(b: Board, data: IspdData, lines: seq<string>, t: Tally)
    requires ValidBoard(b) && AddLines(b, data, lines, t).Ok? && data.tileWidth != 0 && data.tileHeight != 0
    ensures forall s :: s in b.cells ==>
      AddLines(b, data, lines, t).value.0.cells[s] == b.cells[s].(demand := b.cells[s].demand + Coverage(data, lines, s))
    decreases |lines|
  {
    if lines != [] {
      var a := AddSegment(b, data, lines[0], t).value;
      var seg := ParseSegment(lines[0]).value;
      AddTilesCells(b, RoutingCore.TileOf(data, seg.a), RoutingCore.TileOf(data, seg.b), t);
      AddLinesCells(a.0, data, lines[1..], a.1);
    }
  }

  // ---- reading the routing output ---------------------------------------------------

  /** Length of the text before the first newline. */
  function LineLen(s: seq<char>): (n: nat)
    ensures n <= |s|
    ensures forall k :: 0 <= k < n ==> s[k] != '\n'
    ensures n < |s| ==> s[n] == '\n'
  {
    if s == [] || s[0] == '\n' then 0 else 1 + LineLen(s[1..])
  }

  /** `std::getline`: the text up to the next newline and the input after
      it; it fails only when no input is left. */
  function GetLine(s: seq<char>): (r: (string, seq<char>))
    requires s != []
    ensures |r.1| < |s|
    ensures forall k :: 0 <= k < |r.0| ==> r.0[k] != '\n'
  {
    var n := LineLen(s);
    (s[..n], if n < |s| then s[n + 1..] else [])
  }

  /** The `getline` loop of one net: lines up to a line that is exactly
      `!` or the end of input; empty lines are dropped. */
  function Body(s: seq<char>): (r: (seq<string>, seq<char>))
    ensures |r.1| <= |s|
    ensures forall k :: 0 <= k < |r.0| ==> GoodLine(r.0[k])
    decreases |s|
  {
    if s == [] then ([], [])
    else
      var (line, rest) := GetLine(s);
      if line == "!" then ([], rest)
      else
        var (lines, r2) := Body(rest);
        if line == [] then (lines, r2) else ([line] + lines, r2)
  }

  /** The outer loop over the routing output: a net name and id (the
      loop stops when either read fails), the rest of that line ignored,
      then the net's segment lines. */
  function OutNets(s: seq<char>): (r: seq<seq<string>>)
    ensures |r| <= |s|
    decreases |s|
  {
    match ReadWord(s)
    case None => []
    case Some((name, s1)) =>
      match ReadInt(s1)
      case None => []
      case Some((id, s2)) =>
        var (lines, s3) := Body(Ignore(s2));
        [lines] + OutNets(s3)
  }

  /** Every line the reader keeps for a net is one `GoodLine` allows. */
  lemma {:induction false} OutNetsGood(s: seq<char>)
    ensures forall i, k :: 0 <= i < |OutNets(s)| && 0 <= k < |OutNets(s)[i]| ==> GoodLine(OutNets(s)[i][k])
    decreases |s|
  {
    match ReadWord(s)
    case None =>
    case Some((name, s1)) =>
      match ReadInt(s1)
      case None =>
      case Some((id, s2)) =>
        var (lines, s3) := Body(Ignore(s2));
        OutNetsGood(s3);
        var r, r1 := OutNets(s), OutNets(s3);
        assert r == [lines] + r1;
        assert forall i :: 0 < i < |r| ==> r[i] == r1[i - 1];
  }

  function Flatten(nets: seq<seq<string>>): seq<string> {
    if nets == [] then [] else nets[0] + Flatten(nets[1..])
  }

  /** One net of a routing output: its name and id, then its segment
      lines. */
  datatype OutNet = OutNet(name: string, id: int, lines: seq<string>)

  /** A segment line the reader keeps: not empty, not the terminator, and
      on one line. */
  predicate GoodLine(l: string) {
    l != [] && l != "!" && forall k :: 0 <= k < |l| ==> l[k] != '\n'
  }

  /** Lines, each ended by a newline, in front of `tail`. */
  function LinesText(lines: seq<string>, tail: string): string
    decreases |lines|
  {
    if lines == [] then tail else lines[0] + ("\n" + LinesText(lines[1..], tail))
  }

  /** The routing output as the router writes it: per net a `name id`
      line, the segment lines, and a `!` line. */
  function OutText(nets: seq<OutNet>): string
    decreases |nets|
  {
    if nets == [] then []
    else
      var n := nets[0];
      n.name + (" " + (Show(n.id) + ("\n" + LinesText(n.lines, "!\n" + OutText(nets[1..])))))
  }

  lemma {:induction false} LineLenOf(l: string, rest: seq<char>)
    requires forall k :: 0 <= k < |l| ==> l[k] != '\n'
    ensures LineLen(l + ("\n" + rest)) == |l|
    decreases |l|
  {
    if l != [] {
      assert (l + ("\n" + rest))[1..] == l[1..] + ("\n" + rest);
      LineLenOf(l[1..], rest);
    }
  }

  lemma GetLineOf(l: string, rest: seq<char>)
    requires forall k :: 0 <= k < |l| ==> l[k] != '\n'
    ensures GetLine(l + ("\n" + rest)) == (l, rest)
  {
    LineLenOf(l, rest);
    var s := l + ("\n" + rest);
    assert s[..|l|] == l && s[|l| + 1..] == rest;
  }

  /** The `getline` loop reads back the lines of a net up to its `!`. */
  lemma {:induction false} BodyText(lines: seq<string>, tail: seq<char>)
    requires forall k :: 0 <= k < |lines| ==> GoodLine(lines[k])
    ensures Body(LinesText(lines, "!\n" + tail)) == (lines, tail)
    decreases |lines|
  {
    if lines == [] {
      assert "!\n" + tail == "!" + ("\n" + tail);
      GetLineOf("!", tail);
    } else {
      GetLineOf(lines[0], LinesText(lines[1..], "!\n" + tail));
      BodyText(lines[1..], tail);
      assert [lines[0]] + lines[1..] == lines;
    }
  }

  /** The reader takes the first net's header and lines off the text. */
  lemma OutNetsHead(nets: seq<OutNet>)
    requires nets != [] && IsWord(nets[0].name) && IsInt32(nets[0].id)
    requires forall i :: 0 <= i < |nets[0].lines| ==> GoodLine(nets[0].lines[i])
    ensures OutNets(OutText(nets)) == [nets[0].lines] + OutNets(OutText(nets[1..]))
  {
    var n := nets[0];
    var body := LinesText(n.lines, "!\n" + OutText(nets[1..]));
    var afterId := "\n" + body;
    var afterName := " " + (Show(n.id) + afterId);
    assert OutText(nets) == [] + (n.name + afterName);
    ReadWordBack([], n.name, afterName);
    assert ReadWord(OutText(nets)) == Some((n.name, afterName));
    ReadShown(" ", n.id, afterId);
    assert ReadInt(afterName) == Some((n.id, afterId));
    IgnoreNewline(body);
    BodyText(n.lines, OutText(nets[1..]));
    assert Body(Ignore(afterId)) == (n.lines, OutText(nets[1..]));
  }

  /** The segment lines of each net, in net order. */
  function LinesOf(nets: seq<OutNet>): (r: seq<seq<string>>)
    ensures |r| == |nets| && forall k :: 0 <= k < |nets| ==> r[k] == nets[k].lines
    decreases |nets|
  {
    if nets == [] then [] else [nets[0].lines] + LinesOf(nets[1..])
  }

  /** The reader gives back the segment lines of every net the router
      wrote, in order, when names are words, ids are 32-bit and every
      segment line is one the reader keeps. */
  lemma {:induction false} OutNetsText(nets: seq<OutNet>)
    requires forall k :: 0 <= k < |nets| ==> IsWord(nets[k].name) && IsInt32(nets[k].id)
    requires forall k, i :: 0 <= k < |nets| && 0 <= i < |nets[k].lines| ==> GoodLine(nets[k].lines[i])
    ensures OutNets(OutText(nets)) == LinesOf(nets)
    decreases |nets|
  {
    if nets != [] {
      var rest := nets[1..];
      assert forall k :: 0 <= k < |rest| ==> rest[k] == nets[k + 1];
      OutNetsText(rest);
      OutNetsHead(nets);
    }
  }

  // ---- the picture ------------------------------------------------------------------

  /** `Cell`: a pixel's summed demand and capacity and its kind, coded in
      `via`. */
  datatype Cell = Cell(demand: int, cap: int, via: int)

  const NODE := 0
  const HEDGE := -1
  const VEDGE := -2
  const FILLER := -3

  /** The 2D edge (x, y, hori) exists in the arrays. */
  predicate EdgeIn(b: Board, x: int, y: int, hori: bool) {
    if hori then 0 <= x < b.w - 1 && 0 <= y < b.h else 0 <= x < b.w && 0 <= y < b.h - 1
  }

  /** The edge's demand and capacity summed over layers `[0, n)`. */
  function LayerSum(b: Board, x: int, y: int, hori: bool, n: int): (r: Agg)
    requires ValidBoard(b) && EdgeIn(b, x, y, hori) && 0 <= n <= b.layers
  {
    if n == 0 then Agg(0, 0)
    else
      var a, rest := b.cells[Slot(x, y, n - 1, hori)], LayerSum(b, x, y, hori, n - 1);
      Agg(rest.cap + a.cap, rest.demand + a.demand)
  }

  /** Pixel (i, j) of the picture, row 0 at the top: column `j` shows
      x = j / 2 and row `i` shows y = (ih - 1 - i) / 2; both even is a node,
      an even row and odd column a horizontal edge, an odd row and even
      column a vertical edge, and both odd a filler. */
  function Pixel(b: Board, i: int, j: int): (r: Cell)
    requires ValidBoard(b) && 0 <= i < 2 * b.h - 1 && 0 <= j < 2 * b.w - 1
    ensures r.via == NODE || r.via == HEDGE || r.via == VEDGE || r.via == FILLER
    ensures r.via == NODE || r.via == FILLER ==> r.demand == 0 && r.cap == 0
  {
    var ih := 2 * b.h - 1;
    var x, y := j / 2, (ih - 1 - i) / 2;
    if i % 2 == 0 && j % 2 == 0 then Cell(0, 0, NODE)
    else if i % 2 == 0 then
      if EdgeIn(b, x, y, true) then
        var a := LayerSum(b, x, y, true, b.layers);
        Cell(a.demand, a.cap, HEDGE)
      else Cell(0, 0, HEDGE)
    else if j % 2 == 0 then
      if EdgeIn(b, x, y, false) then
        var a := LayerSum(b, x, y, false, b.layers);
        Cell(a.demand, a.cap, VEDGE)
      else Cell(0, 0, VEDGE)
    else Cell(0, 0, FILLER)
  }

  /** The picture: `2Y - 1` rows of `2X - 1` pixels. */
  function Image(b: Board): (img: seq<seq<Cell>>)
    requires ValidBoard(b)
    ensures |img| == 2 * b.h - 1
    ensures forall i :: 0 <= i < |img| ==> |img[i]| == 2 * b.w - 1
  {
    seq(2 * b.h - 1, i requires 0 <= i < 2 * b.h - 1 =>
      seq(2 * b.w - 1, j requires 0 <= j < 2 * b.w - 1 => Pixel(b, i, j)))
  }

  /** Every edge of the grid has its own pixel, the y axis pointing up:
      horizontal edge (x, y) at row 2(Y - 1 - y), column 2x + 1; vertical
      edge (x, y) at row 2(Y - 1 - y) - 1, column 2x; node (x, y) at row
      2(Y - 1 - y), column 2x. Each edge pixel carries the layer sums. */
  lemma EdgePixels(b: Board, x: int, y: int)
    requires ValidBoard(b)
    ensures EdgeIn(b, x, y, true) ==>
      Image(b)[2 * (b.h - 1 - y)][2 * x + 1] ==
        Cell(LayerSum(b, x, y, true, b.layers).demand, LayerSum(b, x, y, true, b.layers).cap, HEDGE)
    ensures EdgeIn(b, x, y, false) ==>
      Image(b)[2 * (b.h - 1 - y) - 1][2 * x] ==
        Cell(LayerSum(b, x, y, false, b.layers).demand, LayerSum(b, x, y, false, b.layers).cap, VEDGE)
    ensures 0 <= x < b.w && 0 <= y < b.h ==> Image(b)[2 * (b.h - 1 - y)][2 * x] == Cell(0, 0, NODE)
  {
  }

  /** Picture `img`, `h` rows of nodes high, shows edge (x, y) with the
      layer sums `e`. */
  predicate ShowsEdge(img: seq<seq<Cell>>, h: int, x: int, y: int, hori: bool, e: Agg) {
    var i, j := if hori then 2 * (h - 1 - y) else 2 * (h - 1 - y) - 1, if hori then 2 * x + 1 else 2 * x;
    && 0 <= i < |img| && 0 <= j < |img[i]|
    && img[i][j] == Cell(e.demand, e.cap, if hori then HEDGE else VEDGE)
  }

  /** The pixel of one edge whose layer sums are known. */
  lemma EdgePixel(b: Board, x: int, y: int, hori: bool, e: Agg)
    requires ValidBoard(b) && EdgeIn(b, x, y, hori) && LayerSum(b, x, y, hori, b.layers) == e
    ensures ShowsEdge(Image(b), b.h, x, y, hori, e)
  {
    EdgePixels(b, x, y);
  }

  /** Conversely every pixel is one of those: its kind is fixed by the
      parities of its row and column, and every edge pixel shows an edge
      the arrays hold, so the range check in the drawer never fails. */
  lemma PixelKinds(b: Board, i: int, j: int)
    requires ValidBoard(b) && 0 <= i < 2 * b.h - 1 && 0 <= j < 2 * b.w - 1
    ensures var x, y, c := j / 2, (2 * b.h - 2 - i) / 2, Image(b)[i][j];
      && (c.via == NODE <==> i % 2 == 0 && j % 2 == 0)
      && (c.via == HEDGE <==> i % 2 == 0 && j % 2 == 1)
      && (c.via == VEDGE <==> i % 2 == 1 && j % 2 == 0)
      && (c.via == FILLER <==> i % 2 == 1 && j % 2 == 1)
      && (c.via == HEDGE ==> EdgeIn(b, x, y, true) && i == 2 * (b.h - 1 - y) && j == 2 * x + 1)
      && (c.via == VEDGE ==> EdgeIn(b, x, y, false) && i == 2 * (b.h - 1 - y) - 1 && j == 2 * x)
  {
  }

  // ---- colours and the PPM text -----------------------------------------------------

  /** A pixel's colour: a grey level, or the utilisation gradient of an
      edge in use, which the drawer computes in floating point and the
      model keeps symbolic. */
  datatype Colour = Grey(level: int) | Heat(demand: int, cap: int)

  /** `color`: fillers black; an edge black without capacity, dark grey
      when nothing uses it, the gradient otherwise; a node light grey
      without vias and darker the more vias it has. */
  function Color(c: Cell): (r: Colour)
    ensures r.Heat? <==> (c.via == HEDGE || c.via == VEDGE) && c.cap > 0 && c.demand != 0
    ensures r.Heat? ==> r == Heat(c.demand, c.cap)
  {
    if c.via == FILLER then Grey(0)
    else if c.via == HEDGE || c.via == VEDGE then
      if c.cap <= 0 then Grey(0)
      else if c.demand == 0 then Grey(40)
      else Heat(c.demand, c.cap)
    else if c.via == 0 then Grey(230)
    else Grey(200 - Sweep.Min(200, c.via * 20))
  }

  /** More vias never make a node lighter; every via count gives a level
      from 0 to 180, and ten or more give black. */
  lemma ViaShade(v1: int, v2: int)
    requires 0 < v1 <= v2
    ensures 0 <= Color(Cell(0, 0, v2)).level <= Color(Cell(0, 0, v1)).level <= 180
    ensures v2 >= 10 ==> Color(Cell(0, 0, v2)).level == 0
  {
  }

  /** The colours a picture can hold: fillers black, nodes light grey, and
      edges black, dark grey or the gradient by their capacity and
      demand. */
  lemma ImageColours(b: Board, i: int, j: int)
    requires ValidBoard(b) && 0 <= i < 2 * b.h - 1 && 0 <= j < 2 * b.w - 1
    ensures var c := Image(b)[i][j];
      Color(c) ==
        if i % 2 == 1 && j % 2 == 1 then Grey(0)
        else if i % 2 == 0 && j % 2 == 0 then Grey(230)
        else if c.cap <= 0 then Grey(0)
        else if c.demand == 0 then Grey(40)
        else Heat(c.demand, c.cap)
  {
    PixelKinds(b, i, j);
  }

  /** The `r g b` triple written for a colour; `heat` stands for the
      floating-point gradient. */
  function Rgb(c: Colour, heat: (int, int) -> (int, int, int)): (int, int, int) {
    match c
    case Grey(v) => (v, v, v)
    case Heat(d, k) => heat(d, k)
  }

  /** `"%d %d %d "` for one pixel. */
  function PixelText(v: (int, int, int)): string {
    Show(v.0) + " " + Show(v.1) + " " + Show(v.2) + " "
  }

  /** One row of pixels and its newline. */
  function RowText(row: seq<Cell>, heat: (int, int) -> (int, int, int)): string
    decreases |row|
  {
    if row == [] then "\n" else PixelText(Rgb(Color(row[0]), heat)) + RowText(row[1..], heat)
  }

  function RowsText(img: seq<seq<Cell>>, heat: (int, int) -> (int, int, int)): string
    decreases |img|
  {
    if img == [] then "" else RowText(img[0], heat) + RowsText(img[1..], heat)
  }

  /** `"P3\n%d %d\n255\n"` in front of `rest`: the plain-text PPM magic,
      width, height and largest channel value. */
  function PpmHeader(iw: int, ih: int, rest: string): string {
    "P3" + ("\n" + (Show(iw) + (" " + (Show(ih) + ("\n" + (Show(255) + ("\n" + rest)))))))
  }

  /** `write_ppm`'s text: the header with the width of the first row (0
      for an empty picture) and the row count, then the rows top to
      bottom. A PPM reader reads back `P3`, those two sizes and 255. */
  function Ppm(img: seq<seq<Cell>>, heat: (int, int) -> (int, int, int)): (r: string)
    ensures var iw := if |img| == 0 then 0 else |img[0]|;
      IsInt32(iw) && IsInt32(|img|) ==> ReadHeader(r) == Some(("P3", iw, |img|, 255))
  {
    var iw := if |img| == 0 then 0 else |img[0]|;
    var text := PpmHeader(iw, |img|, RowsText(img, heat));
    if IsInt32(iw) && IsInt32(|img|) then
      PpmHeaderBack(iw, |img|, RowsText(img, heat));
      text
    else text
  }

  /** A PPM reader's first four reads: the magic word and three numbers. */
  function ReadHeader(s: seq<char>): Option<(string, int, int, int)> {
    var m :- ReadWord(s);
    var w :- ReadInt(m.1);
    var h :- ReadInt(w.1);
    var v :- ReadInt(h.1);
    Some((m.0, w.0, h.0, v.0))
  }

  /** The header reads back as `P3`, the picture's width and height, and
      255, whatever rows follow. */
  lemma PpmHeaderBack(iw: int, ih: int, rows: seq<char>)
    requires IsInt32(iw) && IsInt32(ih)
    ensures ReadHeader(PpmHeader(iw, ih, rows)) == Some(("P3", iw, ih, 255))
  {
    var t3 := "\n" + rows;
    var t2 := "\n" + (Show(255) + t3);
    var t1 := " " + (Show(ih) + t2);
    var t0 := "\n" + (Show(iw) + t1);
    assert PpmHeader(iw, ih, rows) == [] + ("P3" + t0);
    assert IsWord("P3");
    ReadWordBack([], "P3", t0);
    ReadShown("\n", iw, t1);
    assert ReadInt(t0) == Some((iw, t1));
    ReadShown(" ", ih, t2);
    assert ReadInt(t1) == Some((ih, t2));
    ReadShown("\n", 255, t3);
    assert ReadInt(t2) == Some((255, t3));
  }

  // ---- the drawer end to end --------------------------------------------------------

  /** The drawer from the benchmark and the routing output to the picture
      and its counters: `min_net`, the capacities, the adjustments, the
      segments of every net, the picture. */
  function CongestionMap(data: IspdData, out: seq<char>): (r: Result<(seq<seq<Cell>>, Tally)>)
    requires Shaped(data)
    ensures !(data.numXGrid >= 1 && data.numYGrid >= 1 && data.numLayer >= 0) ==> r == Err(ERR_SIZE)
    ensures r.Ok? ==> |r.value.0| == 2 * data.numYGrid - 1
    ensures r.Ok? ==> forall i :: 0 <= i < |r.value.0| ==> |r.value.0[i]| == 2 * data.numXGrid - 1
    ensures r.Ok? ==> r.value.1.nets == |OutNets(out)|
    ensures r.Err? ==> r.msg in {ERR_SIZE, ERR_INDEX, ERR_SEGMENT, RoutingCore.ERR_DIV}
  {
    var minNet := MinNet(data);
    var b0 :- InitBoard(data, minNet);
    var b1 :- AdjustBoardAll(b0, data, minNet, data.capacityAdjs);
    var nets := OutNets(out);
    var acc :- AddLines(b1, data, Flatten(nets), Tally(|nets|, 0, 0, 0));
    Ok((Image(acc.0), acc.1))
  }

  /** The layer sums an edge pixel should show: each layer's capacity in
      units of `min_net` less all its cuts, and the number of segments
      running along the edge on that layer. */
  function Expected(data: IspdData, lines: seq<string>, x: int, y: int, hori: bool, n: int): Agg
    requires Shaped(data) && data.tileWidth != 0 && data.tileHeight != 0 && 0 <= n <= data.numLayer
  {
    if n == 0 then Agg(0, 0)
    else
      var s, rest, minNet := Slot(x, y, n - 1, hori), Expected(data, lines, x, y, hori, n - 1), MinNet(data);
      Agg(rest.cap + (UnitCap(data, minNet, s) - TotalCut(data, minNet, data.capacityAdjs, s)),
          rest.demand + Coverage(data, lines, s))
  }

  lemma {:induction false} LayerSumExpected(b: Board, data: IspdData, lines: seq<string>, x: int, y: int, hori: bool, n: int)
    requires ValidBoard(b) && Shaped(data) && data.tileWidth != 0 && data.tileHeight != 0
    requires EdgeIn(b, x, y, hori) && b.layers == data.numLayer && 0 <= n <= b.layers
    requires forall z :: 0 <= z < b.layers ==>
      b.cells[Slot(x, y, z, hori)] ==
        Agg(UnitCap(data, MinNet(data), Slot(x, y, z, hori)) - TotalCut(data, MinNet(data), data.capacityAdjs, Slot(x, y, z, hori)),
            Coverage(data, lines, Slot(x, y, z, hori)))
    ensures LayerSum(b, x, y, hori, n) == Expected(data, lines, x, y, hori, n)
    decreases n
  {
    if n > 0 {
      LayerSumExpected(b, data, lines, x, y, hori, n - 1);
    }
  }

  /** The board the drawer paints: the capacities less the cuts and the
      coverage of every slot by the segments. */
  lemma FinalBoard(data: IspdData, out: seq<char>) returns (b: Board)
    requires Shaped(data) && data.tileWidth != 0 && data.tileHeight != 0 && CongestionMap(data, out).Ok?
    ensures ValidBoard(b) && b.w == data.numXGrid && b.h == data.numYGrid && b.layers == data.numLayer
    ensures CongestionMap(data, out).value.0 == Image(b)
    ensures forall s :: s in b.cells ==>
      b.cells[s] == Agg(UnitCap(data, MinNet(data), s) - TotalCut(data, MinNet(data), data.capacityAdjs, s),
                        Coverage(data, Flatten(OutNets(out)), s))
  {
    var minNet := MinNet(data);
    var b0 := InitBoard(data, minNet).value;
    var b1 := AdjustBoardAll(b0, data, minNet, data.capacityAdjs).value;
    var lines := Flatten(OutNets(out));
    var t := Tally(|OutNets(out)|, 0, 0, 0);
    b := AddLines(b1, data, lines, t).value.0;
    AdjustBoardAllCells(b0, data, minNet, data.capacityAdjs);
    AddLinesCells(b1, data, lines, t);
  }

  /** Every edge of the finished picture shows, summed over the layers,
      its capacity in units of `min_net` less the adjustments' cuts and
      the number of routed segments running along it. */
  lemma CongestionMapEdge(data: IspdData, out: seq<char>, x: int, y: int, hori: bool)
    requires Shaped(data) && data.tileWidth != 0 && data.tileHeight != 0 && CongestionMap(data, out).Ok?
    requires if hori then 0 <= x < data.numXGrid - 1 && 0 <= y < data.numYGrid else 0 <= x < data.numXGrid && 0 <= y < data.numYGrid - 1
    ensures ShowsEdge(CongestionMap(data, out).value.0, data.numYGrid, x, y, hori,
                      Expected(data, Flatten(OutNets(out)), x, y, hori, data.numLayer))
  {
    var b := FinalBoard(data, out);
    forall z | 0 <= z < b.layers
      ensures Slot(x, y, z, hori) in b.cells
    {
    }
    var e := Expected(data, Flatten(OutNets(out)), x, y, hori, data.numLayer);
    LayerSumExpected(b, data, Flatten(OutNets(out)), x, y, hori, data.numLayer);
    EdgePixel(b, x, y, hori, e);
  }
}
