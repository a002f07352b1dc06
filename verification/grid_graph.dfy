/** The edge store of the routing grid (`GridGraph<T>` in
    `src/router/grid_graph.hpp`): one flat vector holding first the
    vertical edges, then the horizontal ones. Sizes and indices are
    `std::size_t`, so the arithmetic is modulo 2^64 exactly as in C++. */
module GridGraph {
  import opened Wrappers

  const SIZE_T: nat := 0x1_0000_0000_0000_0000
  const INT_MAX: nat := 0x7fff_ffff
  /** What `std::vector::at` throws for an index past the end. */
  const ERR_RANGE := "vector::_M_range_check"
  /** What `std::vector::reserve` throws for a size beyond `max_size()`. */
  const ERR_RESERVE := "vector::reserve"
  const PTRDIFF_MAX: nat := 0x7fff_ffff_ffff_ffff
  /** `max_size()` of the router's `std::vector<Edge>`: libstdc++ caps a
      vector at `PTRDIFF_MAX / sizeof(T)` elements, and an `Edge` (five
      `int`s and a `double`) takes 32 bytes. */
  const MAX_SIZE: nat := PTRDIFF_MAX / 32
  /** What the corrected accessors report for anything but a grid edge. */
  const ERR_EDGE := "no such grid edge"

  /** `w` × `h` grid points; `vsz` vertical edges (x, y)-(x, y + 1) stored
      first, then `hsz` horizontal edges (x, y)-(x + 1, y). */
  datatype Grid<T> = Grid(w: nat, h: nat, vsz: nat, hsz: nat, edges: seq<T>)

  /** What `init` leaves behind: the sizes it computes and a vector of
      exactly that many edges. */
  predicate Valid<T>(g: Grid<T>) {
    && g.w <= INT_MAX && g.h <= INT_MAX
    && Proper(g.w, g.h)
    && g.vsz == g.w * (g.h - 1) && g.hsz == (g.w - 1) * g.h
    && |g.edges| == g.vsz + g.hsz
  }

  /** `x - 1` on a `std::size_t`. */
  function Dec(x: nat): nat
    requires x < SIZE_T
  {
    (x - 1) % SIZE_T
  }

  /** Both sides positive, or both 0. */
  predicate Proper(w: nat, h: nat) {
    (w >= 1 && h >= 1) || (w == 0 && h == 0)
  }

  /** The number of edges of a `w` × `h` grid. */
  function EdgeCount(w: nat, h: nat): int {
    w * (h - 1) + (w - 1) * h
  }

  /** `init(width, height, vInit, hInit)`. With exactly one side 0 the
      unsigned `h - 1` or `w - 1` wraps to nearly 2^64 and `reserve`
      throws; so it does for a proper grid with more edges than
      `max_size()`. Sizes come from `int` grid counts, so both sides are at
      most `INT_MAX`. */
  function Init<T>(w: nat, h: nat, vInit: T, hInit: T): (r: Result<Grid<T>>)
    requires w <= INT_MAX && h <= INT_MAX
    ensures r.Ok? <==> Proper(w, h) && EdgeCount(w, h) <= MAX_SIZE
    ensures r.Ok? ==> Valid(r.value) && r.value.w == w && r.value.h == h
    ensures r.Err? ==> r.msg == ERR_RESERVE
  {
    var vsz := (w * Dec(h)) % SIZE_T;
    var hsz := (Dec(w) * h) % SIZE_T;
    InitArith(w, h);
    if (vsz + hsz) % SIZE_T > MAX_SIZE then Err(ERR_RESERVE)
    else Ok(Grid(w, h, vsz, hsz, seq(vsz, _ => vInit) + seq(hsz, _ => hInit)))
  }

  /** The unsigned size arithmetic of `init`: exact when both sides are
      positive or both are 0, wrapped far past `MAX_SIZE` otherwise. */
  lemma InitArith(w: nat, h: nat)
    requires w <= INT_MAX && h <= INT_MAX
    ensures Proper(w, h) ==>
      && (w * Dec(h)) % SIZE_T == w * (h - 1)
      && (Dec(w) * h) % SIZE_T == (w - 1) * h
      && (w * (h - 1) + (w - 1) * h) % SIZE_T == EdgeCount(w, h)
    ensures !Proper(w, h) ==>
      ((w * Dec(h)) % SIZE_T + (Dec(w) * h) % SIZE_T) % SIZE_T > MAX_SIZE
  {
    if w >= 1 && h >= 1 {
      ExactSizes(w, h);
    } else if w == 0 && h != 0 {
      assert Dec(w) == SIZE_T - 1;
      WrapHuge(h);
    } else if h == 0 && w != 0 {
      assert Dec(h) == SIZE_T - 1;
      WrapHuge(w);
    }
  }

  lemma ExactSizes(w: nat, h: nat)
    requires 1 <= w <= INT_MAX && 1 <= h <= INT_MAX
    ensures (w * Dec(h)) % SIZE_T == w * (h - 1)
    ensures (Dec(w) * h) % SIZE_T == (w - 1) * h
    ensures (w * (h - 1) + (w - 1) * h) % SIZE_T == EdgeCount(w, h)
  {
    assert Dec(h) == h - 1 && Dec(w) == w - 1;
    MulLe(w, h - 1, INT_MAX, INT_MAX);
    MulLe(w - 1, h, INT_MAX, INT_MAX);
    ModSmall(w * (h - 1));
    ModSmall((w - 1) * h);
    ModSmall(w * (h - 1) + (w - 1) * h);
  }

  lemma ModSmall(a: int)
    requires 0 <= a < SIZE_T
    ensures a % SIZE_T == a
  {
  }

  lemma WrapHuge(n: nat)
    requires 1 <= n <= INT_MAX
    ensures (SIZE_T - 1) * n % SIZE_T == SIZE_T - n
    ensures n * (SIZE_T - 1) % SIZE_T == SIZE_T - n
    ensures SIZE_T - n > MAX_SIZE
  {
    assert (SIZE_T - 1) * n == (n - 1) * SIZE_T + (SIZE_T - n);
  }

  lemma MulLe(a: nat, b: nat, c: nat, d: nat)
    requires a <= c && b <= d
    ensures a * b <= c * d
  {
    assert a * b <= c * b;
  }

  /** `rp2idx(x, y, hori)`: both coordinates cast to `std::size_t`. */
  function Rp2Idx<T>(g: Grid<T>, x: int, y: int, hori: bool): (i: nat)
    ensures i < SIZE_T
  {
    if hori then ((x % SIZE_T) * g.h + y % SIZE_T + g.vsz) % SIZE_T
    else (x % SIZE_T + (y % SIZE_T) * g.w) % SIZE_T
  }

  /** `at(x, y, hori)`: `std::vector::at` of the flat index, which checks
      the index against the vector and nothing else. */
  function At<T>(g: Grid<T>, x: int, y: int, hori: bool): (r: Result<T>)
    ensures r.Ok? <==> Rp2Idx(g, x, y, hori) < |g.edges|
    ensures r.Err? ==> r.msg == ERR_RANGE
  {
    var i := Rp2Idx(g, x, y, hori);
    if i < |g.edges| then Ok(g.edges[i]) else Err(ERR_RANGE)
  }

  /** The edges of the grid: the vertical edge (x, y) joins (x, y) to
      (x, y + 1), the horizontal edge (x, y) joins (x, y) to (x + 1, y). */
  predicate IsEdge<T>(g: Grid<T>, x: int, y: int, hori: bool) {
    if hori then 0 <= x < g.w - 1 && 0 <= y < g.h
    else 0 <= x < g.w && 0 <= y < g.h - 1
  }

  lemma VerticalIndex<T>(g: Grid<T>, x: int, y: int)
    requires Valid(g) && IsEdge(g, x, y, false)
    ensures Rp2Idx(g, x, y, false) == x + y * g.w < g.vsz
  {
    MulLe(y + 1, g.w, g.h - 1, g.w);
    MulLe(g.w, g.h - 1, INT_MAX, INT_MAX);
    ModSmall(x);
    ModSmall(y);
    ModSmall(x + y * g.w);
  }

  lemma HorizontalIndex<T>(g: Grid<T>, x: int, y: int)
    requires Valid(g) && IsEdge(g, x, y, true)
    ensures Rp2Idx(g, x, y, true) == x * g.h + y + g.vsz
    ensures g.vsz <= Rp2Idx(g, x, y, true) < g.vsz + g.hsz
  {
    ColumnBound(x, y, g.w, g.h);
    MulLe(g.w, g.h - 1, INT_MAX, INT_MAX);
    ModSmall(x);
    ModSmall(y);
    ModSmall(x * g.h + y + g.vsz);
  }

  lemma ColumnBound(x: int, y: int, w: nat, h: nat)
    requires 0 <= x < w - 1 && 0 <= y < h && w <= INT_MAX && h <= INT_MAX
    ensures 0 <= x * h + y < (w - 1) * h <= INT_MAX * INT_MAX
  {
    MulLe(x + 1, h, w - 1, h);
    assert (x + 1) * h == x * h + h;
    MulLe(w - 1, h, INT_MAX, INT_MAX);
  }

  /** Every edge has its own slot: vertical edges fill [0, vsz), horizontal
      edges fill [vsz, vsz + hsz), and within each range the row-major or
      column-major index is one to one. */
  lemma Rp2IdxInjective<T>(g: Grid<T>, x1: int, y1: int, h1: bool, x2: int, y2: int, h2: bool)
    requires Valid(g) && IsEdge(g, x1, y1, h1) && IsEdge(g, x2, y2, h2)
    requires Rp2Idx(g, x1, y1, h1) == Rp2Idx(g, x2, y2, h2)
    ensures x1 == x2 && y1 == y2 && h1 == h2
  {
    if h1 { HorizontalIndex(g, x1, y1); } else { VerticalIndex(g, x1, y1); }
    if h2 { HorizontalIndex(g, x2, y2); } else { VerticalIndex(g, x2, y2); }
    if h1 && h2 {
      DigitsUnique(y1, x1, y2, x2, g.h);
    } else if !h1 && !h2 {
      DigitsUnique(x1, y1, x2, y2, g.w);
    }
  }

  /** Two-digit numbers in base `b` are equal only digit by digit. */
  lemma DigitsUnique(lo1: int, hi1: int, lo2: int, hi2: int, b: int)
    requires 0 <= lo1 < b && 0 <= lo2 < b && 0 <= hi1 && 0 <= hi2
    requires lo1 + hi1 * b == lo2 + hi2 * b
    ensures lo1 == lo2 && hi1 == hi2
  {
    if hi1 < hi2 {
      MulLe(hi1 + 1, b, hi2, b);
      assert false;
    } else if hi2 < hi1 {
      MulLe(hi2 + 1, b, hi1, b);
      assert false;
    }
  }

  /** After `init`, every vertical edge holds `vInit` and every horizontal
      edge holds `hInit`. */
  lemma InitValues<T>(w: nat, h: nat, vInit: T, hInit: T, x: int, y: int, hori: bool)
    requires w <= INT_MAX && h <= INT_MAX && Init(w, h, vInit, hInit).Ok?
    requires IsEdge(Init(w, h, vInit, hInit).value, x, y, hori)
    ensures At(Init(w, h, vInit, hInit).value, x, y, hori) == Ok(if hori then hInit else vInit)
  {
    var g := Init(w, h, vInit, hInit).value;
    if hori { HorizontalIndex(g, x, y); } else { VerticalIndex(g, x, y); }
  }

  /** The number of edges `init` allocates. */
  lemma InitSizes<T>(w: nat, h: nat, vInit: T, hInit: T)
    requires 1 <= w <= INT_MAX && 1 <= h <= INT_MAX && EdgeCount(w, h) <= MAX_SIZE
    ensures Init(w, h, vInit, hInit).Ok?
    ensures |Init(w, h, vInit, hInit).value.edges| == w * (h - 1) + (w - 1) * h
  {
  }

  /** A proper grid can still be too large: 2^30 × 2^30 points have about
      2^61 edges, past `max_size()`, so `reserve` throws. */
  lemma InitTooLarge<T>(vInit: T, hInit: T)
    ensures Init(0x4000_0000, 0x4000_0000, vInit, hInit) == Err(ERR_RESERVE)
  {
    assert EdgeCount(0x4000_0000, 0x4000_0000) > MAX_SIZE;
  }

  /** `at` checks only the flat index: on the 2 × 2 grid the vertical
      "edge" (0, 1), which would leave the grid, is stored in the slot of
      the horizontal edge (0, 0) and `at` returns that edge. */
  lemma AtAliases<T>(vInit: T, hInit: T)
    ensures Init(2, 2, vInit, hInit).Ok?
    ensures !IsEdge(Init(2, 2, vInit, hInit).value, 0, 1, false)
    ensures At(Init(2, 2, vInit, hInit).value, 0, 1, false) == Ok(hInit)
  {
    var g := Init(2, 2, vInit, hInit).value;
    assert Rp2Idx(g, 0, 1, false) == 2;
  }

  /** The corrected `at`: it reads the slot of a grid edge and fails for
      anything else, so an off-grid edge can no longer alias another
      edge's slot. The router model reads the grid through it. */
  function Get<T>(g: Grid<T>, x: int, y: int, hori: bool): (r: Result<T>)
    requires Valid(g)
    ensures r.Ok? <==> IsEdge(g, x, y, hori)
    ensures r.Err? ==> r.msg == ERR_EDGE
    ensures r.Ok? ==> r == At(g, x, y, hori)
  {
    if !IsEdge(g, x, y, hori) then Err(ERR_EDGE)
    else
      assert Rp2Idx(g, x, y, hori) < |g.edges| by {
        if hori { HorizontalIndex(g, x, y); } else { VerticalIndex(g, x, y); }
      }
      Ok(g.edges[Rp2Idx(g, x, y, hori)])
  }

  /** Every slot of the edge vector belongs to a grid edge: slot `i` of
      the vertical part is edge `(i % w, i / w)`, slot `vsz + j` of the
      horizontal part is edge `(j / h, j % h)`. */
  lemma SlotOf<T>(g: Grid<T>, i: int) returns (x: int, y: int, hori: bool)
    requires Valid(g) && 0 <= i < |g.edges|
    ensures IsEdge(g, x, y, hori) && Rp2Idx(g, x, y, hori) == i
  {
    if i < g.vsz {
      hori, x, y := false, i % g.w, i / g.w;
      QuotientBound(i, g.w, g.h - 1);
      VerticalIndex(g, x, y);
    } else {
      var j := i - g.vsz;
      hori, x, y := true, j / g.h, j % g.h;
      QuotientBound(j, g.h, g.w - 1);
      HorizontalIndex(g, x, y);
    }
  }

  lemma QuotientBound(i: int, b: int, n: int)
    requires 0 <= i < b * n && b >= 1
    ensures 0 <= i / b < n && i == i % b + (i / b) * b
  {
    if i / b >= n {
      MulLe(n, b, i / b, b);
      assert false;
    }
  }

  /** Two grids of the same shape that read alike on every edge are the
      same grid. */
  lemma Extensional<T>(a: Grid<T>, b: Grid<T>)
    requires Valid(a) && Valid(b) && a.w == b.w && a.h == b.h
    requires forall x, y, hori :: IsEdge(a, x, y, hori) ==> Get(a, x, y, hori) == Get(b, x, y, hori)
    ensures a == b
  {
    forall i | 0 <= i < |a.edges|
      ensures a.edges[i] == b.edges[i]
    {
      var x, y, hori := SlotOf(a, i);
      assert Get(a, x, y, hori) == Get(b, x, y, hori);
    }
  }

  /** The writable corrected `at`: it writes the slot of a grid edge and fails for anything else. */
  function Set<T>(g: Grid<T>, x: int, y: int, hori: bool, v: T): (r: Result<Grid<T>>)
    requires Valid(g)
    ensures r.Ok? <==> IsEdge(g, x, y, hori)
    ensures r.Err? ==> r.msg == ERR_EDGE
    ensures r.Ok? ==> Valid(r.value) && r.value.w == g.w && r.value.h == g.h
  {
    if !IsEdge(g, x, y, hori) then Err(ERR_EDGE)
    else
      assert Rp2Idx(g, x, y, hori) < |g.edges| by {
        if hori { HorizontalIndex(g, x, y); } else { VerticalIndex(g, x, y); }
      }
      Ok(g.(edges := g.edges[Rp2Idx(g, x, y, hori) := v]))
  }

  /** A write through the flat `at` as written: the slot `rp2idx` names
      is replaced, and only an index past the end fails. */
  function SetAt<T>(g: Grid<T>, x: int, y: int, hori: bool, v: T): (r: Result<Grid<T>>)
    ensures r.Ok? <==> Rp2Idx(g, x, y, hori) < |g.edges|
    ensures r.Err? ==> r.msg == ERR_RANGE
    ensures r.Ok? ==> At(r.value, x, y, hori) == Ok(v)
    ensures r.Ok? ==> r.value == g.(edges := r.value.edges) && |r.value.edges| == |g.edges|
    ensures r.Ok? ==> forall i :: 0 <= i < |g.edges| && i != Rp2Idx(g, x, y, hori) ==> r.value.edges[i] == g.edges[i]
  {
    var i := Rp2Idx(g, x, y, hori);
    if i < |g.edges| then Ok(g.(edges := g.edges[i := v])) else Err(ERR_RANGE)
  }

  /** On a grid edge the flat write and the corrected one agree. */
  lemma SetAtAgrees<T>(g: Grid<T>, x: int, y: int, hori: bool, v: T)
    requires Valid(g) && IsEdge(g, x, y, hori)
    ensures SetAt(g, x, y, hori, v) == Set(g, x, y, hori, v)
    ensures At(g, x, y, hori) == Get(g, x, y, hori)
  {
    if hori { HorizontalIndex(g, x, y); } else { VerticalIndex(g, x, y); }
  }

  /** A write is seen by a read of the same edge and by no other edge. */
  lemma GetSet<T>(g: Grid<T>, x: int, y: int, hori: bool, v: T, x2: int, y2: int, hori2: bool)
    requires Valid(g) && Set(g, x, y, hori, v).Ok?
    ensures Get(Set(g, x, y, hori, v).value, x2, y2, hori2) ==
      if x2 == x && y2 == y && hori2 == hori then Ok(v) else Get(g, x2, y2, hori2)
  {
    if IsEdge(g, x2, y2, hori2) && (x2 != x || y2 != y || hori2 != hori) {
      if Rp2Idx(g, x, y, hori) == Rp2Idx(g, x2, y2, hori2) {
        Rp2IdxInjective(g, x, y, hori, x2, y2, hori2);
      }
    }
  }

  /** The iteration `for (auto it = begin(); it != end(); ++it)` with a
      per-edge update: same grid shape, each slot updated in place. */
  function MapEdges<T>(g: Grid<T>, f: T -> T): (r: Grid<T>)
    requires Valid(g)
    ensures Valid(r) && r.w == g.w && r.h == g.h
    ensures forall x, y, hori :: Get(r, x, y, hori).Ok? ==> Get(r, x, y, hori).value == f(Get(g, x, y, hori).value)
  {
    g.(edges := seq(|g.edges|, i requires 0 <= i < |g.edges| => f(g.edges[i])))
  }
}
