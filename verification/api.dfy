/** The library front end (`src/api/vlsigr.cpp`): the `GlobalRouter`
    state (loaded or not, where its results point, its metrics), the
    lightweight metrics gathered after a 2D route, the compatibility
    wrapper `GlobalRouting` and the null check of `generateMap`.

    Pointers are modelled by what they point at: `results.data` is either
    null or the router's own record, so it always shows the record as it
    is now. The routing run itself, the layer assignment and the clock
    are parameters. */
module Api {
  import opened Wrappers
  import opened IspdTypes
  import IspdParser

  const ERR_NOT_LOADED := "GlobalRouter: benchmark not loaded. Call load_ispd_benchmark() or init() first."
  const ERR_OPEN := "failed to open file"
  const ERR_NULL := "Visualization::generateMap: null data/results"

  datatype Mode = Balanced | Congestion | Wirelength

  /** Where `RoutingResults::data` points: nowhere, or at the router's own
      benchmark record. */
  datatype Target = Null | Own

  /** `PerformanceMetrics`; `runtime` is the elapsed time the caller's clock
      reported. */
  datatype Metrics = Metrics(
    runtime: int, totalOverflow: int, maxOverflow: int,
    wirelength2D: int, wirelengthTotal: int, totalVias: int)

  /** `PerformanceMetrics{}`: no time spent and every count unknown (-1). */
  const NO_METRICS := Metrics(0, -1, -1, -1, -1, -1)

  /** The statistics the layer assignment reports. */
  datatype LaStats = LaStats(totalOF: int, maxOF: int, totalVia: int, wlen2D: int, totalWL: int)

  datatype Router = Router(
    data: IspdData, loaded: bool, mode: Mode, adaptive: bool, hum: bool,
    results: Target, metrics: Metrics)

  /** A default-constructed `GlobalRouter`. */
  const FRESH := Router(EmptyIspd(), false, Balanced, true, true, Null, NO_METRICS)

  /** The record `getResults().data` points at, if any. */
  function Results(r: Router): (d: Option<IspdData>)
    ensures d.Some? <==> r.results == Own
    ensures d.Some? ==> d.value == r.data
  {
    match r.results
    case Null => None
    case Own => Some(r.data)
  }

  /** The settings a caller chose, which only the setters change. */
  predicate SameSettings(a: Router, b: Router) {
    a.mode == b.mode && a.adaptive == b.adaptive && a.hum == b.hum
  }

  // ---- loading and resetting --------------------------------------------------------

  /** `init`: take the record; the router is loaded and its results show it. */
  function Init(r: Router, data: IspdData): (r': Router)
    ensures r'.loaded && r'.data == data && Results(r') == Some(data)
    ensures SameSettings(r, r') && r'.metrics == r.metrics
  {
    r.(data := data, loaded := true, results := Own)
  }

  /** `load_ispd_benchmark`: `file` is the benchmark file's text, or `None`
      when it cannot be opened. A failure throws before any field is
      assigned, so the router is left as it was. */
  function Load(r: Router, file: Option<seq<char>>): (r': Result<Router>)
    ensures file.None? ==> r' == Err(ERR_OPEN)
    ensures file.Some? ==> (r'.Ok? <==> IspdParser.Parse(file.value).Ok?)
    ensures file.Some? && r'.Err? ==> r'.msg == IspdParser.Parse(file.value).msg
    ensures r'.Ok? ==> var d := IspdParser.Parse(file.value).value;
      && r'.value.loaded && r'.value.data == d && Results(r'.value) == Some(d)
      && IspdParser.Shaped(d) && SameSettings(r, r'.value) && r'.value.metrics == r.metrics
  {
    if file.None? then Err(ERR_OPEN)
    else
      var d :- IspdParser.Parse(file.value);
      Ok(Init(r, d))
  }

  /** `cleanup`: an empty record, not loaded, results null and the metrics
      back to their defaults. The mode and the two switches are kept. */
  function Cleanup(r: Router): (r': Router)
    ensures !r'.loaded && r'.data == EmptyIspd() && Results(r') == None
    ensures r'.metrics == NO_METRICS && r'.metrics.runtime == 0
    ensures r'.metrics.totalOverflow == -1 && r'.metrics.maxOverflow == -1 && r'.metrics.totalVias == -1
    ensures r'.metrics.wirelength2D == -1 && r'.metrics.wirelengthTotal == -1
    ensures SameSettings(r, r')
  {
    r.(data := EmptyIspd(), loaded := false, results := Null, metrics := NO_METRICS)
  }

  /** The router apart from its settings. */
  predicate SameState(a: Router, b: Router) {
    a.data == b.data && a.loaded == b.loaded && Results(a) == Results(b) && a.metrics == b.metrics
  }

  /** The three setters change their own field and nothing else. */
  function SetMode(r: Router, m: Mode): (r': Router)
    ensures r'.mode == m && r'.adaptive == r.adaptive && r'.hum == r.hum && SameState(r, r')
  {
    r.(mode := m)
  }

  function EnableAdaptiveScoring(r: Router, on: bool): (r': Router)
    ensures r'.adaptive == on && r'.mode == r.mode && r'.hum == r.hum && SameState(r, r')
  {
    r.(adaptive := on)
  }

  function EnableHumOptimization(r: Router, on: bool): (r': Router)
    ensures r'.hum == on && r'.mode == r.mode && r'.adaptive == r.adaptive && SameState(r, r')
  {
    r.(hum := on)
  }

  /** A reset router is the fresh one with the caller's settings. */
  lemma CleanupIsFresh(r: Router)
    ensures Cleanup(r) == FRESH.(mode := r.mode, adaptive := r.adaptive, hum := r.hum)
    ensures Cleanup(Cleanup(r)) == Cleanup(r)
  {
  }

  // ---- the lightweight metrics ------------------------------------------------------

  /** Number of path edges of a list of two-pins. */
  function PathEdges(tps: seq<TwoPin>): (n: nat)
    ensures forall t :: 0 <= t < |tps| ==> |tps[t].path| <= n
    decreases |tps|
  {
    if tps == [] then 0 else PathEdges(tps[..|tps| - 1]) + |tps[|tps| - 1].path|
  }

  /** Number of two-pins flagged as overflowing. */
  function Flagged(tps: seq<TwoPin>): (n: nat)
    ensures n <= |tps|
    decreases |tps|
  {
    if tps == [] then 0 else Flagged(tps[..|tps| - 1]) + (if tps[|tps| - 1].overflow then 1 else 0)
  }

  /** Path edges over every two-pin of every net. */
  function Wirelength(nets: seq<Net>): (n: nat)
    ensures forall k :: 0 <= k < |nets| ==> PathEdges(nets[k].twopin) <= n
    decreases |nets|
  {
    if nets == [] then 0 else Wirelength(nets[..|nets| - 1]) + PathEdges(nets[|nets| - 1].twopin)
  }

  /** Flagged two-pins over every net. */
  function OverflowCount(nets: seq<Net>): (n: nat)
    ensures n <= TwopinCount(nets)
    decreases |nets|
  {
    if nets == [] then 0 else OverflowCount(nets[..|nets| - 1]) + Flagged(nets[|nets| - 1].twopin)
  }

  /** Two-pins over every net. */
  function TwopinCount(nets: seq<Net>): nat
    decreases |nets|
  {
    if nets == [] then 0 else TwopinCount(nets[..|nets| - 1]) + |nets[|nets| - 1].twopin|
  }

  /** The two nested loops of `route` when no output path is given: the
      sum of all path sizes and the number of flagged two-pins. */
  method Lightweight(nets: seq<Net>) returns (wl: int, flagged: int)
    ensures wl == Wirelength(nets) && flagged == OverflowCount(nets)
  {
    wl, flagged := 0, 0;
    for i := 0 to |nets|
      invariant wl == Wirelength(nets[..i]) && flagged == OverflowCount(nets[..i])
    {
      var tps := nets[i].twopin;
      var w, f := 0, 0;
      for j := 0 to |tps|
        invariant w == PathEdges(tps[..j]) && f == Flagged(tps[..j])
      {
        assert tps[..j + 1][..j] == tps[..j];
        w := w + |tps[j].path|;
        if tps[j].overflow {
          f := f + 1;
        }
      }
      assert tps[..|tps|] == tps;
      assert nets[..i + 1][..i] == nets[..i];
      wl, flagged := wl + w, flagged + f;
    }
    assert nets[..|nets|] == nets;
  }

  /** A two-pin is flagged exactly when it is counted. */
  lemma {:induction false} FlaggedNone(tps: seq<TwoPin>)
    ensures Flagged(tps) == 0 <==> forall k :: 0 <= k < |tps| ==> !tps[k].overflow
    decreases |tps|
  {
    if tps != [] {
      var init := tps[..|tps| - 1];
      FlaggedNone(init);
      assert forall k :: 0 <= k < |init| ==> init[k] == tps[k];
    }
  }

  /** The overflow metric is zero exactly when no two-pin of any net is
      flagged, and never exceeds the number of two-pins. */
  lemma {:induction false} OverflowCountNone(nets: seq<Net>)
    ensures OverflowCount(nets) <= TwopinCount(nets)
    ensures OverflowCount(nets) == 0 <==>
      forall i, k :: 0 <= i < |nets| && 0 <= k < |nets[i].twopin| ==> !nets[i].twopin[k].overflow
    decreases |nets|
  {
    if nets != [] {
      var init := nets[..|nets| - 1];
      OverflowCountNone(init);
      FlaggedNone(nets[|nets| - 1].twopin);
      assert forall i :: 0 <= i < |init| ==> init[i] == nets[i];
    }
  }

  /** The wirelength of two lists of nets taken together is the sum of
      their wirelengths, so it does not depend on how the nets are split. */
  lemma {:induction false} WirelengthAppend(a: seq<Net>, b: seq<Net>)
    ensures Wirelength(a + b) == Wirelength(a) + Wirelength(b)
    decreases |b|
  {
    if b == [] {
      assert a + b == a;
    } else {
      var init := b[..|b| - 1];
      assert (a + b)[..|a + b| - 1] == a + init;
      assert (a + b)[|a + b| - 1] == b[|b| - 1];
      WirelengthAppend(a, init);
    }
  }

  /** Nets without any routed path have wirelength 0. */
  lemma {:induction false} WirelengthUnrouted(nets: seq<Net>)
    requires forall i, k :: 0 <= i < |nets| && 0 <= k < |nets[i].twopin| ==> nets[i].twopin[k].path == []
    ensures Wirelength(nets) == 0
    decreases |nets|
  {
    if nets != [] {
      var init := nets[..|nets| - 1];
      assert forall i :: 0 <= i < |init| ==> init[i] == nets[i];
      WirelengthUnrouted(init);
      PathEdgesUnrouted(nets[|nets| - 1].twopin);
    }
  }

  lemma {:induction false} PathEdgesUnrouted(tps: seq<TwoPin>)
    requires forall k :: 0 <= k < |tps| ==> tps[k].path == []
    ensures PathEdges(tps) == 0
    decreases |tps|
  {
    if tps != [] {
      var init := tps[..|tps| - 1];
      assert forall k :: 0 <= k < |init| ==> init[k] == tps[k];
      PathEdgesUnrouted(init);
    }
  }

  // ---- routing ----------------------------------------------------------------------

  /** `route(la_output)`. `core` is the routing run on the router's record
      (an early stop it signals is caught and leaves the record as it
      stands); `elapsed` is what the clock reported; `la` is the layer
      assignment writing `la_output`, used only when that path is given. */
  function Route(r: Router, laOutput: string, core: IspdData -> IspdData, elapsed: int,
                 la: (IspdData, string) -> LaStats): (r': Result<Router>)
    ensures r'.Ok? <==> r.loaded
    ensures r'.Err? ==> r'.msg == ERR_NOT_LOADED
    ensures r'.Ok? ==> var d := core(r.data);
      && r'.value.loaded && r'.value.data == d && Results(r'.value) == Some(d)
      && SameSettings(r, r'.value) && r'.value.metrics.runtime == elapsed
    ensures r'.Ok? && laOutput == [] ==> var m, nets := r'.value.metrics, core(r.data).nets;
      && m.wirelength2D == Wirelength(nets) && m.wirelengthTotal == Wirelength(nets)
      && m.totalOverflow == OverflowCount(nets) && m.maxOverflow == -1 && m.totalVias == -1
    ensures r'.Ok? && laOutput != [] ==> var m, s := r'.value.metrics, la(core(r.data), laOutput);
      && m.totalOverflow == s.totalOF && m.maxOverflow == s.maxOF && m.totalVias == s.totalVia
      && m.wirelength2D == s.wlen2D && m.wirelengthTotal == s.totalWL
  {
    if !r.loaded then Err(ERR_NOT_LOADED)
    else
      var d := core(r.data);
      var m := if laOutput != [] then
          var s := la(d, laOutput);
          Metrics(elapsed, s.totalOF, s.maxOF, s.wlen2D, s.totalWL, s.totalVia)
        else
          var wl := Wirelength(d.nets);
          Metrics(elapsed, OverflowCount(d.nets), -1, wl, wl, -1);
      Ok(r.(data := d, results := Own, metrics := m))
  }

  /** Routing needs a loaded benchmark: a reset or fresh router refuses,
      one that has been given a record accepts. */
  lemma RouteNeedsLoad(r: Router, data: IspdData, laOutput: string, core: IspdData -> IspdData,
                       elapsed: int, la: (IspdData, string) -> LaStats)
    ensures Route(FRESH, laOutput, core, elapsed, la) == Err(ERR_NOT_LOADED)
    ensures Route(Cleanup(r), laOutput, core, elapsed, la) == Err(ERR_NOT_LOADED)
    ensures Route(Init(r, data), laOutput, core, elapsed, la).Ok?
  {
  }

  /** `route` reads none of the three settings: a router that differs
      only in them routes to the same record, results and metrics. */
  lemma RouteIgnoresSettings(r: Router, m: Mode, adaptive: bool, hum: bool, laOutput: string,
                             core: IspdData -> IspdData, elapsed: int, la: (IspdData, string) -> LaStats)
    ensures var r2 := EnableHumOptimization(EnableAdaptiveScoring(SetMode(r, m), adaptive), hum);
      var a, b := Route(r, laOutput, core, elapsed, la), Route(r2, laOutput, core, elapsed, la);
      a.Ok? == b.Ok? && (a.Ok? ==> SameState(a.value, b.value))
  {
  }

  /** The 2D metrics of a route report no overflow exactly when the core
      run flags no two-pin, and wirelength 0 when it routes no path. */
  lemma RouteMetricsClean(r: Router, core: IspdData -> IspdData, elapsed: int, la: (IspdData, string) -> LaStats)
    requires r.loaded
    ensures var nets := core(r.data).nets;
      Route(r, "", core, elapsed, la).value.metrics.totalOverflow == 0 <==>
        forall i, k :: 0 <= i < |nets| && 0 <= k < |nets[i].twopin| ==> !nets[i].twopin[k].overflow
    ensures var nets := core(r.data).nets;
      (forall i, k :: 0 <= i < |nets| && 0 <= k < |nets[i].twopin| ==> nets[i].twopin[k].path == []) ==>
        Route(r, "", core, elapsed, la).value.metrics.wirelength2D == 0
  {
    var nets := core(r.data).nets;
    OverflowCountNone(nets);
    if forall i, k :: 0 <= i < |nets| && 0 <= k < |nets[i].twopin| ==> nets[i].twopin[k].path == [] {
      WirelengthUnrouted(nets);
    }
  }

  /** `route_ispd_file`: load a fresh router, route, report its metrics. */
  function RouteFile(file: Option<seq<char>>, laOutput: string, core: IspdData -> IspdData, elapsed: int,
                     la: (IspdData, string) -> LaStats): (m: Result<Metrics>)
    ensures m.Ok? <==> file.Some? && IspdParser.Parse(file.value).Ok?
    ensures m.Ok? && laOutput == [] ==> var nets := core(IspdParser.Parse(file.value).value).nets;
      && m.value.wirelength2D == Wirelength(nets) && m.value.totalOverflow == OverflowCount(nets)
      && m.value.runtime == elapsed
  {
    match Load(FRESH, file)
    case Err(msg) => Err(msg)
    case Ok(r) => Ok(Route(r, laOutput, core, elapsed, la).value.metrics)
  }

  // ---- the compatibility layer ------------------------------------------------------

  /** Where `VLSIGR::Results::data` points: nowhere, at the record the
      caller passed to `init`, or at the wrapped router's record. */
  datatype CompatTarget = NoData | Caller(d: IspdData) | Impl

  /** `VLSIGR::GlobalRouting`: a wrapped router plus its own copies of the
      results and the metrics. */
  datatype Compat = Compat(impl: Router, results: CompatTarget, metrics: Metrics)

  const FRESH_COMPAT := Compat(FRESH, NoData, NO_METRICS)

  function CompatResults(c: Compat): Option<IspdData> {
    match c.results
    case NoData => None
    case Caller(d) => Some(d)
    case Impl => Some(c.impl.data)
  }

  /** `init`: the wrapped router takes a copy; the results point at the
      caller's record, which holds the same benchmark. */
  function CompatInit(c: Compat, data: IspdData): (c': Compat)
    ensures c'.impl.loaded && CompatResults(c') == Some(data) && Results(c'.impl) == Some(data)
    ensures c'.metrics == c.metrics && SameSettings(c.impl, c'.impl)
  {
    c.(impl := Init(c.impl, data), results := Caller(data))
  }

  /** `route`: the wrapped router routes without an output path; on
      success its metrics are copied and the results point at its record.
      On failure the exception leaves the wrapper unchanged. */
  function CompatRoute(c: Compat, core: IspdData -> IspdData, elapsed: int,
                       la: (IspdData, string) -> LaStats): (c': Result<Compat>)
    ensures c'.Ok? <==> c.impl.loaded
    ensures c'.Err? ==> c'.msg == ERR_NOT_LOADED
    ensures c'.Ok? ==> var d := core(c.impl.data);
      && CompatResults(c'.value) == Some(d) && c'.value.impl.data == d
      && c'.value.metrics == c'.value.impl.metrics
      && c'.value.metrics.wirelength2D == Wirelength(d.nets)
      && c'.value.metrics.totalOverflow == OverflowCount(d.nets)
  {
    var impl :- Route(c.impl, "", core, elapsed, la);
    Ok(Compat(impl, Impl, impl.metrics))
  }

  /** `cleanup`: the wrapped router and the wrapper's own copies reset. */
  function CompatCleanup(c: Compat): (c': Compat)
    ensures !c'.impl.loaded && CompatResults(c') == None && Results(c'.impl) == None
    ensures c'.metrics == NO_METRICS && c'.impl.metrics == NO_METRICS
  {
    Compat(Cleanup(c.impl), NoData, NO_METRICS)
  }

  // ---- the map ----------------------------------------------------------------------

  /** `DrawOptions`: the output paths and switches of the drawer. */
  datatype DrawOptions = DrawOptions(
    outMap: string, outPpm: string, overflowPpm: string, overflowShowBlockages: bool,
    overflowXSize: int, netsPpm: string, layerDir: string, statsPath: string, scale: int)

  const DEFAULT_OPTIONS := DrawOptions("", "", "", false, 0, "", "", "", 1)

  /** The record `generateMap` draws: the results' record when there is
      one, else the record passed in; neither is an error. */
  function MapSource(data: Option<IspdData>, results: Option<IspdData>): (r: Result<IspdData>)
    ensures r.Err? <==> data.None? && results.None?
    ensures r.Err? ==> r.msg == ERR_NULL
    ensures results.Some? ==> r == Ok(results.value)
    ensures results.None? && data.Some? ==> r == Ok(data.value)
  {
    if results.Some? then Ok(results.value)
    else if data.Some? then Ok(data.value)
    else Err(ERR_NULL)
  }

  /** `generateMap(data, results, out_ppm)`: what is handed to the drawer,
      the record and the options (default ones writing `out_ppm` at scale 1). */
  function GenerateMap(data: Option<IspdData>, results: Option<IspdData>, outPpm: string)
    : (r: Result<(IspdData, DrawOptions)>)
    ensures r.Ok? <==> data.Some? || results.Some?
    ensures r.Ok? ==> Ok(r.value.0) == MapSource(data, results)
    ensures r.Ok? ==> r.value.1 == DEFAULT_OPTIONS.(outPpm := outPpm) && r.value.1.scale == 1
  {
    var d :- MapSource(data, results);
    Ok((d, DEFAULT_OPTIONS.(outPpm := outPpm, scale := 1)))
  }

  /** The overload taking options: `out_ppm` replaces the options' own
      path only when it is not empty. */
  function GenerateMapWith(data: Option<IspdData>, results: Option<IspdData>, outPpm: string,
                           opt: DrawOptions): (r: Result<(IspdData, DrawOptions)>)
    ensures r.Ok? <==> data.Some? || results.Some?
    ensures r.Ok? ==> Ok(r.value.0) == MapSource(data, results)
    ensures r.Ok? ==> r.value.1.outPpm == (if outPpm == [] then opt.outPpm else outPpm)
    ensures r.Ok? ==> r.value.1 == opt.(outPpm := r.value.1.outPpm)
  {
    var d :- MapSource(data, results);
    Ok((d, if outPpm != [] then opt.(outPpm := outPpm) else opt))
  }

  /** After a successful route the map shows the routed record whatever
      record the caller passes; after a reset it falls back to the
      caller's record and fails without one. */
  lemma MapAfterRoute(c: Compat, data: Option<IspdData>, outPpm: string, core: IspdData -> IspdData,
                      elapsed: int, la: (IspdData, string) -> LaStats)
    requires c.impl.loaded
    ensures var c' := CompatRoute(c, core, elapsed, la).value;
      GenerateMap(data, CompatResults(c'), outPpm).Ok? &&
      GenerateMap(data, CompatResults(c'), outPpm).value.0 == core(c.impl.data)
    ensures GenerateMap(data, CompatResults(CompatCleanup(c)), outPpm).Ok? <==> data.Some?
  {
  }
}
