/** The benchmark record of an ISPD 2008 global-routing instance and the
    per-net routing state hung on it (`src/router/ispd_data.hpp`). */
module IspdTypes {

  /** A grid point or pin; `z` is a layer. */
  datatype Point = Point(x: int, y: int, z: int)

  /** A routed unit edge: the edge from (x, y) to (x + 1, y) when `hori`,
      to (x, y + 1) otherwise. */
  datatype RPoint = RPoint(x: int, y: int, z: int, hori: bool)

  /** A raw pin or grid triple `(x, y, layer)` as read from the benchmark. */
  type Triple = (int, int, int)

  /** A two-pin connection and its current path. */
  datatype TwoPin = TwoPin(from: Point, to: Point, path: seq<RPoint>, reroute: int, overflow: bool)

  datatype Net = Net(
    name: string, id: int, numPins: int, minimumWidth: int,
    pins: seq<Triple>, pin2D: seq<Point>, pin3D: seq<Point>, twopin: seq<TwoPin>,
    overflow: int, overflowTwopin: int, wlen: int)

  datatype CapacityAdj = CapacityAdj(grid1: Triple, grid2: Triple, reducedCapacityLevel: int)

  datatype IspdData = IspdData(
    numXGrid: int, numYGrid: int, numLayer: int,
    verticalCapacity: seq<int>, horizontalCapacity: seq<int>,
    minimumWidth: seq<int>, minimumSpacing: seq<int>, viaSpacing: seq<int>,
    lowerLeftX: int, lowerLeftY: int, tileWidth: int, tileHeight: int,
    numNet: int, nets: seq<Net>,
    numCapacityAdj: int, capacityAdjs: seq<CapacityAdj>)

  /** `Point()`: the origin on layer 0. */
  function DefaultPoint(): (p: Point)
    ensures p.x == 0 && p.y == 0 && p.z == 0
  {
    Point(0, 0, 0)
  }

  /** `Point(x, y)`: the layer argument defaults to 0. */
  function Point2(x: int, y: int): (p: Point)
    ensures p.x == x && p.y == y && p.z == 0
  {
    Point(x, y, 0)
  }

  /** `RPoint(x, y, hori)` always puts the edge on layer 0. */
  function RPoint2(x: int, y: int, hori: bool): (r: RPoint)
    ensures r.x == x && r.y == y && r.hori == hori && r.z == 0
  {
    RPoint(x, y, 0, hori)
  }

  /** A fresh `TwoPin` between two points: no path, never rerouted, not
      flagged as overflowing. */
  function NewTwoPin(from: Point, to: Point): (tp: TwoPin)
    ensures tp.from == from && tp.to == to
    ensures tp.path == [] && tp.reroute == 0 && !tp.overflow
  {
    TwoPin(from, to, [], 0, false)
  }

  /** A `Net` as the readers build it: header fields and pins set, every
      derived list empty and every statistic 0. */
  function NewNet(name: string, id: int, numPins: int, minimumWidth: int, pins: seq<Triple>): (n: Net)
    ensures n.name == name && n.id == id && n.numPins == numPins
    ensures n.minimumWidth == minimumWidth && n.pins == pins
    ensures n.pin2D == [] && n.pin3D == [] && n.twopin == []
    ensures n.overflow == 0 && n.overflowTwopin == 0 && n.wlen == 0
  {
    Net(name, id, numPins, minimumWidth, pins, [], [], [], 0, 0, 0)
  }

  /** `IspdData{}`: every count and offset 0 and every list empty. */
  function EmptyIspd(): (d: IspdData)
    ensures d.numXGrid == 0 && d.numYGrid == 0 && d.numLayer == 0
    ensures d.lowerLeftX == 0 && d.lowerLeftY == 0 && d.tileWidth == 0 && d.tileHeight == 0
    ensures d.numNet == 0 && d.numCapacityAdj == 0
    ensures d.nets == [] && d.capacityAdjs == [] && d.verticalCapacity == []
    ensures d.horizontalCapacity == [] && d.minimumWidth == []
    ensures d.minimumSpacing == [] && d.viaSpacing == []
  {
    IspdData(0, 0, 0, [], [], [], [], [], 0, 0, 0, 0, 0, [], 0, [])
  }
}
