/** The contest's reference reader (`ISPDParser::parse` in the top-level
    `ispd_data.cpp`). It reads the same fields in the same order as the
    checked reader but checks nothing: tag words are read and dropped,
    no read is followed by a test of the stream, and a negative count makes
    its loop run zero times. `Err` here means only that some read put the
    stream into the fail state; what the C++ record then holds is not
    modelled. */
module IspdReference {
  import opened Wrappers
  import opened TokenStream
  import opened IspdTypes
  import opened IspdParser

  const ERR_STREAM := "stream failed"

  /** Count of iterations of `for (int i = 0; i < n; i++)`. */
  function Runs(n: int): nat {
    if n < 0 then 0 else n
  }

  /** `is >> keyword >> keyword`, both words dropped. */
  function RefTag(s: seq<char>): (r: Result<seq<char>>)
    ensures r.Ok? <==> ReadWord(s).Some? && ReadWord(ReadWord(s).value.1).Some?
    ensures r.Ok? ==> r.value == ReadWord(ReadWord(s).value.1).value.1
  {
    var first :- Word(s, ERR_STREAM);
    var second :- Word(first.1, ERR_STREAM);
    Ok(second.1)
  }

  /** One unchecked `is >> val`. */
  function RefInt(s: seq<char>): (r: Result<(int, seq<char>)>)
    ensures r.Ok? <==> ReadInt(s).Some?
    ensures r.Ok? ==> r.value == ReadInt(s).value
  {
    match ReadInt(s)
    case None => Err(ERR_STREAM)
    case Some(p) => Ok(p)
  }

  function RefIntItem(): seq<char> -> Result<(int, seq<char>)> {
    t => RefInt(t)
  }

  /** `is >> keyword >> numXGrid >> numYGrid >> numLayer`. */
  function RefGrid(s: seq<char>): (r: Result<(seq<int>, seq<char>)>)
    ensures r.Ok? ==> |r.value.0| == 3
  {
    var kw :- Word(s, ERR_STREAM);
    Ints(kw.1, 3, ERR_STREAM)
  }

  /** A per-layer block: the two tag words, `n` values and the rest of the
      line dropped by `is.ignore(INT_MAX, '\n')`. */
  function RefList(s: seq<char>, n: int): (r: Result<(seq<int>, seq<char>)>)
    ensures r.Ok? ==> |r.value.0| == Runs(n)
  {
    var s1 :- RefTag(s);
    var vals :- Repeat(s1, n, RefIntItem());
    Ok((vals.0, Ignore(vals.1)))
  }

  function RefLayers(s: seq<char>, n: int): (r: Result<(Layers, seq<char>)>)
    ensures r.Ok? ==> LayersOf(r.value.0, Runs(n))
  {
    var vcap :- RefList(s, n);
    var hcap :- RefList(vcap.1, n);
    var minw :- RefList(hcap.1, n);
    var mins :- RefList(minw.1, n);
    var vias :- RefList(mins.1, n);
    Ok((Layers(vcap.0, hcap.0, minw.0, mins.0, vias.0), vias.1))
  }

  /** `is >> x >> y >> z` for one pin. */
  function RefPin(s: seq<char>): Result<(Triple, seq<char>)> {
    var xyz :- Ints(s, 3, ERR_STREAM);
    Ok(((xyz.0[0], xyz.0[1], xyz.0[2]), xyz.1))
  }

  /** One net: its header and `num_pins` pins, each pushed as read. */
  function RefNet(s: seq<char>): (r: Result<(Net, seq<char>)>)
    ensures r.Ok? ==> |r.value.0.pins| == Runs(r.value.0.numPins)
  {
    var name :- Word(s, ERR_STREAM);
    var hdr :- Ints(name.1, 3, ERR_STREAM);
    var pins :- Repeat(hdr.1, hdr.0[1], RefPin);
    Ok((NewNet(name.0, hdr.0[0], hdr.0[1], hdr.0[2], pins.0), pins.1))
  }

  predicate PinsAsCounted(n: Net) {
    |n.pins| == Runs(n.numPins)
  }

  /** `is >> keyword >> keyword >> numNet` and the net loop. */
  function RefNetlist(s: seq<char>): (r: Result<(int, seq<Net>, seq<char>)>)
    ensures r.Ok? ==> |r.value.1| == Runs(r.value.0)
    ensures r.Ok? ==> forall i :: 0 <= i < |r.value.1| ==> PinsAsCounted(r.value.1[i])
  {
    var s1 :- RefTag(s);
    var numNet :- Ints(s1, 1, ERR_STREAM);
    RepeatAll(numNet.1, numNet.0[0], RefNet, PinsAsCounted);
    var nets :- Repeat(numNet.1, numNet.0[0], RefNet);
    Ok((numNet.0[0], nets.0, nets.1))
  }

  /** `is >> x1 >> y1 >> z1 >> x2 >> y2 >> z2 >> reduced_capacity_level`. */
  function RefAdj(s: seq<char>): Result<(CapacityAdj, seq<char>)> {
    var v :- Ints(s, 7, ERR_STREAM);
    Ok((AdjOf(v.0), v.1))
  }

  function RefAdjustments(s: seq<char>): (r: Result<(int, seq<CapacityAdj>)>)
    ensures r.Ok? ==> |r.value.1| == Runs(r.value.0)
  {
    var numAdj :- Ints(s, 1, ERR_STREAM);
    var adjs :- Repeat(numAdj.1, numAdj.0[0], RefAdj);
    Ok((numAdj.0[0], adjs.0))
  }

  /** `ISPDParser::parse`: the counts are stored as read, so a negative
      count is kept in the record next to an empty list. */
  function RefParse(text: seq<char>): (r: Result<IspdData>)
    ensures r.Ok? ==> RefShaped(r.value)
  {
    var grid :- RefGrid(text);
    var layers :- RefLayers(grid.1, grid.0[2]);
    var origin :- Ints(layers.1, 4, ERR_STREAM);
    var nets :- RefNetlist(origin.1);
    var adjs :- RefAdjustments(nets.2);
    var l := layers.0;
    Ok(IspdData(grid.0[0], grid.0[1], grid.0[2], l.vcap, l.hcap, l.minw, l.mins, l.vias,
                origin.0[0], origin.0[1], origin.0[2], origin.0[3],
                nets.0, nets.1, adjs.0, adjs.1))
  }

  /** What a record from the reference reader satisfies: each per-layer
      list, the net list, every pin list and the adjustment list has as many
      entries as its count asks for, a negative count meaning none. */
  predicate RefShaped(d: IspdData) {
    && LayersOf(Layers(d.verticalCapacity, d.horizontalCapacity, d.minimumWidth,
                       d.minimumSpacing, d.viaSpacing), Runs(d.numLayer))
    && |d.nets| == Runs(d.numNet)
    && (forall i :: 0 <= i < |d.nets| ==> PinsAsCounted(d.nets[i]))
    && |d.capacityAdjs| == Runs(d.numCapacityAdj)
  }

  // ---- agreement with the checked reader ---------------------------------

  /** A loop whose lax item returns what the strict item returns wherever
      the strict one succeeds agrees with the strict loop wherever that
      loop succeeds. */
  lemma {:induction false} RepeatAgree<T>(s: seq<char>, n: int,
                                          strict: seq<char> -> Result<(T, seq<char>)>,
                                          lax: seq<char> -> Result<(T, seq<char>)>)
    requires forall t :: strict(t).Ok? ==> lax(t) == strict(t)
    ensures Repeat(s, n, strict).Ok? ==> Repeat(s, n, lax) == Repeat(s, n, strict)
    decreases n
  {
    if n > 0 && strict(s).Ok? {
      RepeatAgree(strict(s).value.1, n - 1, strict, lax);
    }
  }

  lemma GridAgree(s: seq<char>)
    ensures GridLine(s).Ok? ==> RefGrid(s) == GridLine(s)
  {
  }

  lemma IntAgree(msg: string)
    ensures forall t :: IntItem(msg)(t).Ok? ==> RefIntItem()(t) == IntItem(msg)(t)
  {
  }

  lemma ListAgree(s: seq<char>, n: int, tag: string, tagMsg: string, msg: string)
    ensures LayerList(s, n, tag, tagMsg, msg).Ok? ==> RefList(s, n) == LayerList(s, n, tag, tagMsg, msg)
  {
    if LayerList(s, n, tag, tagMsg, msg).Ok? {
      var s1 := Tag(s, tag, tagMsg).value;
      IntAgree(msg);
      RepeatAgree(s1, n, IntItem(msg), RefIntItem());
    }
  }

  lemma LayersAgree(s: seq<char>, n: int)
    ensures LayerLines(s, n).Ok? ==> RefLayers(s, n) == LayerLines(s, n)
  {
    if LayerLines(s, n).Ok? {
      var vcap := LayerList(s, n, "capacity", ERR_VCAP_TAG, ERR_VCAP).value;
      var hcap := LayerList(vcap.1, n, "capacity", ERR_HCAP_TAG, ERR_HCAP).value;
      var minw := LayerList(hcap.1, n, "width", ERR_MINW_TAG, ERR_MINW).value;
      var mins := LayerList(minw.1, n, "spacing", ERR_MINS_TAG, ERR_MINS).value;
      ListAgree(s, n, "capacity", ERR_VCAP_TAG, ERR_VCAP);
      ListAgree(vcap.1, n, "capacity", ERR_HCAP_TAG, ERR_HCAP);
      ListAgree(hcap.1, n, "width", ERR_MINW_TAG, ERR_MINW);
      ListAgree(minw.1, n, "spacing", ERR_MINS_TAG, ERR_MINS);
      ListAgree(mins.1, n, "spacing", ERR_VIAS_TAG, ERR_VIAS);
    }
  }

  lemma NetAgree(s: seq<char>)
    ensures NetRecord(s).Ok? ==> RefNet(s) == NetRecord(s)
  {
    if NetRecord(s).Ok? {
      var name := ReadWord(s).value;
      var hdr := ReadInts(name.1, 3).value;
      assert forall t :: PinLine(t).Ok? ==> RefPin(t) == PinLine(t);
      RepeatAgree(hdr.1, hdr.0[1], PinLine, RefPin);
    }
  }

  lemma NetlistAgree(s: seq<char>)
    ensures Netlist(s).Ok? ==> RefNetlist(s) == Netlist(s)
  {
    if Netlist(s).Ok? {
      var numNet := NumNet(s).value;
      forall t | NetRecord(t).Ok? ensures RefNet(t) == NetRecord(t) {
        NetAgree(t);
      }
      RepeatAgree(numNet.1, numNet.0, NetRecord, RefNet);
    }
  }

  lemma AdjustmentsAgree(s: seq<char>)
    ensures Adjustments(s).Ok? ==> RefAdjustments(s) == Adjustments(s)
  {
    if Adjustments(s).Ok? {
      var numAdj := ReadInts(s, 1).value;
      assert forall t :: AdjLine(t).Ok? ==> RefAdj(t) == AdjLine(t);
      RepeatAgree(numAdj.1, numAdj.0[0], AdjLine, RefAdj);
    }
  }

  /** The reference reader fills exactly the same record as the checked
      reader on every input the checked reader accepts. */
  lemma RefAgrees(text: seq<char>)
    ensures Parse(text).Ok? ==> RefParse(text) == Parse(text)
  {
    if Parse(text).Ok? {
      var grid := GridLine(text).value;
      var layers := LayerLines(grid.1, grid.0[2]).value;
      var origin := IntsGood(layers.1, 4, ERR_ORIGIN).value;
      var nets := Netlist(origin.1).value;
      GridAgree(text);
      LayersAgree(grid.1, grid.0[2]);
      NetlistAgree(origin.1);
      AdjustmentsAgree(nets.2);
    }
  }
}
