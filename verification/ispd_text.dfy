/** The text of a benchmark in the layout the ISPD 2008 files use, and the
    proof that the checked reader gives back every well-formed record from
    it. The printers take the text that follows as an argument, so each
    section reads back on its own. */
module IspdText {
  import opened Wrappers
  import opened IntText
  import opened TokenStream
  import opened IspdTypes
  import opened IspdParser

  predicate TripleInInt32(t: Triple) { InInt32([t.0, t.1, t.2]) }

  predicate NetWellFormed(n: Net) {
    && FreshNet(n)
    && InInt32([n.id, n.numPins, n.minimumWidth])
    && forall j :: 0 <= j < |n.pins| ==> TripleInInt32(n.pins[j])
  }

  function AdjInts(a: CapacityAdj): seq<int> {
    [a.grid1.0, a.grid1.1, a.grid1.2, a.grid2.0, a.grid2.1, a.grid2.2, a.reducedCapacityLevel]
  }

  /** A record that a benchmark file can hold: what the reader produces, with
      every number in `int` range. */
  predicate WellFormed(d: IspdData) {
    && Shaped(d) && d.numLayer >= 0
    && IsInt32(d.numXGrid) && IsInt32(d.numYGrid) && IsInt32(d.numLayer)
    && IsInt32(d.lowerLeftX) && IsInt32(d.lowerLeftY) && IsInt32(d.tileWidth) && IsInt32(d.tileHeight)
    && IsInt32(d.numNet) && IsInt32(d.numCapacityAdj)
    && InInt32(d.verticalCapacity) && InInt32(d.horizontalCapacity)
    && InInt32(d.minimumWidth) && InInt32(d.minimumSpacing) && InInt32(d.viaSpacing)
    && (forall i :: 0 <= i < |d.nets| ==> NetWellFormed(d.nets[i]))
    && (forall i :: 0 <= i < |d.capacityAdjs| ==> InInt32(AdjInts(d.capacityAdjs[i])))
  }

  // ---- printers ----------------------------------------------------------

  /** `word1 word2 v1 v2 ...` */
  function TaggedLine(w1: string, w2: string, vs: seq<int>, tail: seq<char>): seq<char> {
    w1 + (" " + (w2 + SpacedInts(vs, tail)))
  }

  function LayersText(l: Layers, tail: seq<char>): seq<char> {
    TaggedLine("vertical", "capacity", l.vcap, "\n" +
    TaggedLine("horizontal", "capacity", l.hcap, "\n" +
    TaggedLine("minimum", "width", l.minw, "\n" +
    TaggedLine("minimum", "spacing", l.mins, "\n" +
    TaggedLine("via", "spacing", l.vias, "\n" + tail)))))
  }

  function PinsText(pins: seq<Triple>, tail: seq<char>): seq<char> {
    if pins == [] then tail
    else "\n" + IntsText(TripleInts(pins[0]), PinsText(pins[1..], tail))
  }

  function NetText(n: Net, tail: seq<char>): seq<char> {
    n.name + SpacedInts([n.id, n.numPins, n.minimumWidth], PinsText(n.pins, tail))
  }

  function NetsText(nets: seq<Net>, tail: seq<char>): seq<char> {
    if nets == [] then tail else "\n" + NetText(nets[0], NetsText(nets[1..], tail))
  }

  function AdjsText(adjs: seq<CapacityAdj>, tail: seq<char>): seq<char> {
    if adjs == [] then tail else "\n" + IntsText(AdjInts(adjs[0]), AdjsText(adjs[1..], tail))
  }

  function LayersFrom(d: IspdData): Layers {
    Layers(d.verticalCapacity, d.horizontalCapacity, d.minimumWidth, d.minimumSpacing, d.viaSpacing)
  }

  function Dims(d: IspdData): seq<int> { [d.numXGrid, d.numYGrid, d.numLayer] }

  function Origin(d: IspdData): seq<int> { [d.lowerLeftX, d.lowerLeftY, d.tileWidth, d.tileHeight] }

  /** The adjustment count line and the adjustment lines. */
  function AdjSection(d: IspdData): seq<char> {
    IntsText([d.numCapacityAdj], AdjsText(d.capacityAdjs, "\n"))
  }

  /** `num net`, the nets, and what follows them. */
  function NetSection(d: IspdData): seq<char> {
    TaggedLine("num", "net", [d.numNet], NetsText(d.nets, "\n" + AdjSection(d)))
  }

  /** The origin and tile size line and what follows it. */
  function OriginSection(d: IspdData): seq<char> {
    IntsText(Origin(d), "\n" + NetSection(d))
  }

  /** The benchmark file of `d`, one line per record line, ending in a
      newline. */
  function Render(d: IspdData): string {
    "grid" + SpacedInts(Dims(d), "\n" + LayersText(LayersFrom(d), OriginSection(d)))
  }

  // ---- one step of each reader ------------------------------------------
  // Each states what a reader returns given what the reads inside it return,
  // so that the read-back proofs below never unfold two readers at once.

  lemma TagStep(s: seq<char>, tag: string, msg: string, w1: string, s1: seq<char>, s2: seq<char>)
    requires ReadWord(s) == Some((w1, s1)) && ReadWord(s1) == Some((tag, s2))
    ensures Tag(s, tag, msg) == Ok(s2)
  {
  }

  lemma LayerListStep(s: seq<char>, n: int, tag: string, tagMsg: string, msg: string,
                      s1: seq<char>, vs: seq<int>, s2: seq<char>)
    requires Tag(s, tag, tagMsg) == Ok(s1) && GoodInts(s1, n, msg) == Ok((vs, s2))
    ensures LayerList(s, n, tag, tagMsg, msg) == Ok((vs, Ignore(s2)))
  {
  }

  lemma NetRecordStep(s: seq<char>, name: string, s1: seq<char>, hdr: seq<int>, s2: seq<char>,
                      pins: seq<Triple>, s3: seq<char>)
    requires ReadWord(s) == Some((name, s1)) && |hdr| == 3 && hdr[1] >= 0
    requires IntsGood(s1, 3, ERR_NET_HEADER) == Ok((hdr, s2))
    requires Pins(s2, hdr[1]) == Ok((pins, s3))
    ensures NetRecord(s) == Ok((NewNet(name, hdr[0], hdr[1], hdr[2], pins), s3))
  {
  }

  lemma NetlistStep(s: seq<char>, s1: seq<char>, count: int, s2: seq<char>, nets: seq<Net>, s3: seq<char>)
    requires Tag(s, "net", ERR_NUM_NET) == Ok(s1) && ReadInts(s1, 1) == Some(([count], s2))
    requires count >= 0 && Nets(s2, count) == Ok((nets, s3))
    ensures Netlist(s) == Ok((count, nets, s3))
  {
  }

  lemma AdjustmentsStep(s: seq<char>, count: int, s1: seq<char>, adjs: seq<CapacityAdj>, s2: seq<char>)
    requires IntsGood(s, 1, ERR_NUM_ADJ) == Ok(([count], s1)) && count >= 0
    requires Adjs(s1, count) == Ok((adjs, s2))
    ensures Adjustments(s) == Ok((count, adjs))
  {
  }

  lemma LayerLinesStep(s0: seq<char>, n: int, l: Layers,
                       s1: seq<char>, s2: seq<char>, s3: seq<char>, s4: seq<char>, s5: seq<char>)
    requires LayerList(s0, n, "capacity", ERR_VCAP_TAG, ERR_VCAP) == Ok((l.vcap, s1))
    requires LayerList(s1, n, "capacity", ERR_HCAP_TAG, ERR_HCAP) == Ok((l.hcap, s2))
    requires LayerList(s2, n, "width", ERR_MINW_TAG, ERR_MINW) == Ok((l.minw, s3))
    requires LayerList(s3, n, "spacing", ERR_MINS_TAG, ERR_MINS) == Ok((l.mins, s4))
    requires LayerList(s4, n, "spacing", ERR_VIAS_TAG, ERR_VIAS) == Ok((l.vias, s5))
    ensures LayerLines(s0, n) == Ok((l, s5))
  {
  }

  lemma ParseStep(text: seq<char>, dims: seq<int>, s1: seq<char>, l: Layers, s2: seq<char>,
                  origin: seq<int>, s3: seq<char>, count: int, nets: seq<Net>, s4: seq<char>,
                  numAdj: int, adjs: seq<CapacityAdj>)
    requires |dims| == 3 && |origin| == 4 && LayersOf(l, if dims[2] < 0 then 0 else dims[2])
    requires forall i :: 0 <= i < |nets| ==> FreshNet(nets[i])
    requires GridLine(text) == Ok((dims, s1)) && LayerLines(s1, dims[2]) == Ok((l, s2))
    requires IntsGood(s2, 4, ERR_ORIGIN) == Ok((origin, s3))
    requires Netlist(s3) == Ok((count, nets, s4)) && Adjustments(s4) == Ok((numAdj, adjs))
    ensures Parse(text) == Ok(Assemble(dims, l, origin, nets, adjs))
  {
  }

  // ---- reading the printed sections back ---------------------------------

  /** Dropping one more element from a suffix. */
  lemma SuffixStep<T>(s: seq<T>, k: nat)
    requires k < |s|
    ensures s[k..] != [] && s[k..][1..] == s[k + 1..] && s[k..][0] == s[k] && |s[k..]| == |s| - k
  {
  }

  /** The number at `k` read back from the text printed from `k` on. */
  lemma GoodIntsHeadAt(vs: seq<int>, k: nat, tail: seq<char>, msg: string)
    requires k < |vs| && IsInt32(vs[k]) && StartsWithSpace(tail)
    ensures IntItem(msg)(SpacedInts(vs[k..], tail)) == Ok((vs[k], SpacedInts(vs[k + 1..], tail)))
  {
    SuffixStep(vs, k);
    var a := vs[k..];
    ReadShown(" ", a[0], SpacedInts(a[1..], tail));
  }

  lemma GoodIntsBack(vs: seq<int>, tail: seq<char>, msg: string)
    requires InInt32(vs) && StartsWithSpace(tail)
    ensures GoodInts(SpacedInts(vs, tail), |vs|, msg) == Ok((vs, tail))
  {
    var textOf := (t: seq<int>) => SpacedInts(t, tail);
    forall i | 0 <= i < |vs|
      ensures IntItem(msg)(textOf(vs[i..])) == Ok((vs[i], textOf(vs[i + 1..])))
    {
      GoodIntsHeadAt(vs, i, tail, msg);
    }
    RepeatSuffixes(vs, textOf, IntItem(msg));
  }

  lemma TaggedBack(ws: seq<char>, w1: string, w2: string, vs: seq<int>, tail: seq<char>, msg: string)
    requires AllSpace(ws) && IsWord(w1) && IsWord(w2) && StartsWithSpace(tail)
    ensures Tag(ws + TaggedLine(w1, w2, vs, tail), w2, msg) == Ok(SpacedInts(vs, tail))
  {
    var rest := SpacedInts(vs, tail);
    ReadWordBack(ws, w1, " " + (w2 + rest));
    ReadWordBack(" ", w2, rest);
    TagStep(ws + TaggedLine(w1, w2, vs, tail), w2, msg, w1, " " + (w2 + rest), rest);
  }

  lemma LayerBack(ws: seq<char>, w1: string, w2: string, vs: seq<int>, rest: seq<char>, tagMsg: string, msg: string)
    requires AllSpace(ws) && IsWord(w1) && IsWord(w2) && InInt32(vs)
    ensures LayerList(ws + TaggedLine(w1, w2, vs, "\n" + rest), |vs|, w2, tagMsg, msg) == Ok((vs, rest))
  {
    TaggedBack(ws, w1, w2, vs, "\n" + rest, tagMsg);
    GoodIntsBack(vs, "\n" + rest, msg);
    IgnoreNewline(rest);
    LayerListStep(ws + TaggedLine(w1, w2, vs, "\n" + rest), |vs|, w2, tagMsg, msg,
                  SpacedInts(vs, "\n" + rest), vs, "\n" + rest);
  }

  /** The tag words of the header lines are words, and a newline is white space. */
  lemma LiteralWords()
    ensures IsWord("grid") && IsWord("num") && IsWord("net")
    ensures IsWord("vertical") && IsWord("horizontal") && IsWord("minimum") && IsWord("via")
    ensures IsWord("capacity") && IsWord("width") && IsWord("spacing")
    ensures AllSpace("\n") && AllSpace([]) && StartsWithSpace("\n")
  {
  }

  lemma NewlineSpace()
    ensures AllSpace("\n") && StartsWithSpace("\n")
  {
  }

  lemma LayersBack(l: Layers, n: nat, rest: seq<char>)
    requires LayersOf(l, n)
    requires InInt32(l.vcap) && InInt32(l.hcap) && InInt32(l.minw) && InInt32(l.mins) && InInt32(l.vias)
    ensures LayerLines("\n" + LayersText(l, rest), n) == Ok((l, rest))
  {
    var t5 := TaggedLine("via", "spacing", l.vias, "\n" + rest);
    var t4 := TaggedLine("minimum", "spacing", l.mins, "\n" + t5);
    var t3 := TaggedLine("minimum", "width", l.minw, "\n" + t4);
    var t2 := TaggedLine("horizontal", "capacity", l.hcap, "\n" + t3);
    var t1 := "\n" + TaggedLine("vertical", "capacity", l.vcap, "\n" + t2);
    assert t1 == "\n" + LayersText(l, rest);
    LiteralWords();
    LayerBack("\n", "vertical", "capacity", l.vcap, t2, ERR_VCAP_TAG, ERR_VCAP);
    assert [] + t2 == t2 && [] + t3 == t3 && [] + t4 == t4 && [] + t5 == t5;
    LayerBack([], "horizontal", "capacity", l.hcap, t3, ERR_HCAP_TAG, ERR_HCAP);
    LayerBack([], "minimum", "width", l.minw, t4, ERR_MINW_TAG, ERR_MINW);
    LayerBack([], "minimum", "spacing", l.mins, t5, ERR_MINS_TAG, ERR_MINS);
    LayerBack([], "via", "spacing", l.vias, rest, ERR_VIAS_TAG, ERR_VIAS);
    LayerLinesStep(t1, n, l, t2, t3, t4, t5, rest);
  }

  lemma IntsGoodBack(ws: seq<char>, vs: seq<int>, tail: seq<char>, msg: string)
    requires |vs| > 0 && AllSpace(ws) && InInt32(vs) && StartsWithSpace(tail)
    ensures IntsGood(ws + IntsText(vs, tail), |vs|, msg) == Ok((vs, tail))
  {
    ReadIntsText(ws, vs, tail);
  }

  lemma PinsTextStarts(pins: seq<Triple>, tail: seq<char>)
    requires StartsWithSpace(tail)
    ensures StartsWithSpace(PinsText(pins, tail))
  {
  }

  function TripleInts(p: Triple): seq<int> { [p.0, p.1, p.2] }

  lemma PinsHead(pins: seq<Triple>, tail: seq<char>)
    requires pins != [] && TripleInInt32(pins[0]) && StartsWithSpace(tail)
    ensures IntsGood(PinsText(pins, tail), 3, ERR_PIN) == Ok((TripleInts(pins[0]), PinsText(pins[1..], tail)))
  {
    var after := PinsText(pins[1..], tail);
    PinsTextStarts(pins[1..], tail);
    IntsGoodBack("\n", TripleInts(pins[0]), after, ERR_PIN);
  }

  lemma PinsHeadAt(pins: seq<Triple>, k: nat, tail: seq<char>)
    requires k < |pins| && TripleInInt32(pins[k]) && StartsWithSpace(tail)
    ensures PinLine(PinsText(pins[k..], tail)) == Ok((pins[k], PinsText(pins[k + 1..], tail)))
  {
    SuffixStep(pins, k);
    PinsHead(pins[k..], tail);
  }

  lemma PinsBack(pins: seq<Triple>, tail: seq<char>)
    requires forall j :: 0 <= j < |pins| ==> TripleInInt32(pins[j])
    requires StartsWithSpace(tail)
    ensures Pins(PinsText(pins, tail), |pins|) == Ok((pins, tail))
  {
    var textOf := (t: seq<Triple>) => PinsText(t, tail);
    forall i | 0 <= i < |pins|
      ensures PinLine(textOf(pins[i..])) == Ok((pins[i], textOf(pins[i + 1..])))
    {
      PinsHeadAt(pins, i, tail);
    }
    RepeatSuffixes(pins, textOf, PinLine);
  }

  lemma NetBack(ws: seq<char>, n: Net, tail: seq<char>)
    requires AllSpace(ws) && NetWellFormed(n) && StartsWithSpace(tail)
    ensures NetRecord(ws + NetText(n, tail)) == Ok((n, tail))
  {
    var pinsText := PinsText(n.pins, tail);
    var hdr := [n.id, n.numPins, n.minimumWidth];
    var hdrText := SpacedInts(hdr, pinsText);
    PinsTextStarts(n.pins, tail);
    ReadWordBack(ws, n.name, hdrText);
    ReadSpacedInts(hdr, pinsText);
    PinsBack(n.pins, tail);
    NetRecordStep(ws + NetText(n, tail), n.name, hdrText, hdr, pinsText, n.pins, tail);
  }

  lemma NetsTextStarts(nets: seq<Net>, tail: seq<char>)
    requires StartsWithSpace(tail)
    ensures StartsWithSpace(NetsText(nets, tail))
  {
  }

  lemma NetsHeadAt(nets: seq<Net>, k: nat, tail: seq<char>)
    requires k < |nets| && NetWellFormed(nets[k]) && StartsWithSpace(tail)
    ensures NetRecord(NetsText(nets[k..], tail)) == Ok((nets[k], NetsText(nets[k + 1..], tail)))
  {
    SuffixStep(nets, k);
    NetsTextStarts(nets[k + 1..], tail);
    NewlineSpace();
    NetBack("\n", nets[k], NetsText(nets[k + 1..], tail));
  }

  lemma NetsBack(nets: seq<Net>, tail: seq<char>)
    requires forall i :: 0 <= i < |nets| ==> NetWellFormed(nets[i])
    requires StartsWithSpace(tail)
    ensures Nets(NetsText(nets, tail), |nets|) == Ok((nets, tail))
  {
    var textOf := (t: seq<Net>) => NetsText(t, tail);
    forall i | 0 <= i < |nets|
      ensures NetRecord(textOf(nets[i..])) == Ok((nets[i], textOf(nets[i + 1..])))
    {
      NetsHeadAt(nets, i, tail);
    }
    RepeatSuffixes(nets, textOf, NetRecord);
  }

  lemma NetCountBack(ws: seq<char>, n: nat, body: seq<char>)
    requires AllSpace(ws) && n <= INT_MAX && StartsWithSpace(body)
    ensures Tag(ws + TaggedLine("num", "net", [n], body), "net", ERR_NUM_NET) == Ok(SpacedInts([n], body))
    ensures ReadInts(SpacedInts([n], body), 1) == Some(([n], body))
  {
    LiteralWords();
    InInt32One(n);
    TaggedBack(ws, "num", "net", [n], body, ERR_NUM_NET);
    ReadSpacedInts([n], body);
  }

  lemma NetlistBack(ws: seq<char>, nets: seq<Net>, tail: seq<char>)
    requires AllSpace(ws) && |nets| <= INT_MAX && StartsWithSpace(tail)
    requires forall i :: 0 <= i < |nets| ==> NetWellFormed(nets[i])
    ensures Netlist(ws + TaggedLine("num", "net", [|nets|], NetsText(nets, tail))) == Ok((|nets|, nets, tail))
  {
    var body := NetsText(nets, tail);
    NetsTextStarts(nets, tail);
    NetCountBack(ws, |nets|, body);
    NetsBack(nets, tail);
    NetlistStep(ws + TaggedLine("num", "net", [|nets|], body), SpacedInts([|nets|], body),
                |nets|, body, nets, tail);
  }

  lemma AdjsTextStarts(adjs: seq<CapacityAdj>, tail: seq<char>)
    requires StartsWithSpace(tail)
    ensures StartsWithSpace(AdjsText(adjs, tail))
  {
  }

  lemma AdjsHead(adjs: seq<CapacityAdj>, tail: seq<char>)
    requires adjs != [] && InInt32(AdjInts(adjs[0])) && StartsWithSpace(tail)
    ensures IntsGood(AdjsText(adjs, tail), 7, ERR_ADJ) == Ok((AdjInts(adjs[0]), AdjsText(adjs[1..], tail)))
  {
    var after := AdjsText(adjs[1..], tail);
    AdjsTextStarts(adjs[1..], tail);
    IntsGoodBack("\n", AdjInts(adjs[0]), after, ERR_ADJ);
  }

  lemma AdjOfInts(a: CapacityAdj)
    ensures |AdjInts(a)| == 7 && AdjOf(AdjInts(a)) == a
  {
  }

  lemma AdjsHeadAt(adjs: seq<CapacityAdj>, k: nat, tail: seq<char>)
    requires k < |adjs| && InInt32(AdjInts(adjs[k])) && StartsWithSpace(tail)
    ensures AdjLine(AdjsText(adjs[k..], tail)) == Ok((adjs[k], AdjsText(adjs[k + 1..], tail)))
  {
    SuffixStep(adjs, k);
    AdjsHead(adjs[k..], tail);
    AdjOfInts(adjs[k]);
  }

  lemma AdjsBack(adjs: seq<CapacityAdj>, tail: seq<char>)
    requires forall i :: 0 <= i < |adjs| ==> InInt32(AdjInts(adjs[i]))
    requires StartsWithSpace(tail)
    ensures Adjs(AdjsText(adjs, tail), |adjs|) == Ok((adjs, tail))
  {
    var textOf := (t: seq<CapacityAdj>) => AdjsText(t, tail);
    forall i | 0 <= i < |adjs|
      ensures AdjLine(textOf(adjs[i..])) == Ok((adjs[i], textOf(adjs[i + 1..])))
    {
      AdjsHeadAt(adjs, i, tail);
    }
    RepeatSuffixes(adjs, textOf, AdjLine);
  }

  lemma NumAdjBack(n: nat, body: seq<char>)
    requires n <= INT_MAX && StartsWithSpace(body)
    ensures IntsGood("\n" + IntsText([n], body), 1, ERR_NUM_ADJ) == Ok(([n], body))
  {
    LiteralWords();
    InInt32One(n);
    IntsGoodBack("\n", [n], body, ERR_NUM_ADJ);
  }

  lemma AdjustmentsBack(adjs: seq<CapacityAdj>)
    requires |adjs| <= INT_MAX
    requires forall i :: 0 <= i < |adjs| ==> InInt32(AdjInts(adjs[i]))
    ensures Adjustments("\n" + IntsText([|adjs|], AdjsText(adjs, "\n"))) == Ok((|adjs|, adjs))
  {
    NewlineSpace();
    AdjsTextStarts(adjs, "\n");
    NumAdjBack(|adjs|, AdjsText(adjs, "\n"));
    AdjsBack(adjs, "\n");
    AdjustmentsStep("\n" + IntsText([|adjs|], AdjsText(adjs, "\n")), |adjs|, AdjsText(adjs, "\n"), adjs, "\n");
  }

  /** The sections after the per-layer lines read back. */
  lemma SectionsBack(d: IspdData)
    requires WellFormed(d)
    ensures IntsGood(OriginSection(d), 4, ERR_ORIGIN) == Ok((Origin(d), "\n" + NetSection(d)))
    ensures Netlist("\n" + NetSection(d)) == Ok((d.numNet, d.nets, "\n" + AdjSection(d)))
    ensures Adjustments("\n" + AdjSection(d)) == Ok((d.numCapacityAdj, d.capacityAdjs))
  {
    NewlineSpace();
    InInt32Four(d.lowerLeftX, d.lowerLeftY, d.tileWidth, d.tileHeight);
    assert [] + OriginSection(d) == OriginSection(d);
    IntsGoodBack([], Origin(d), "\n" + NetSection(d), ERR_ORIGIN);
    NetlistBack("\n", d.nets, "\n" + AdjSection(d));
    AdjustmentsBack(d.capacityAdjs);
  }

  /** The checked reader inverts the printer: a well-formed record printed
      as a benchmark file reads back as itself. */
  lemma RenderRoundTrip(d: IspdData)
    requires WellFormed(d)
    ensures Parse(Render(d)) == Ok(d)
  {
    var layersText := LayersText(LayersFrom(d), OriginSection(d));
    NewlineSpace();
    InInt32Three(d.numXGrid, d.numYGrid, d.numLayer);
    GridBack(Dims(d), "\n" + layersText);
    LayersBack(LayersFrom(d), d.numLayer, OriginSection(d));
    SectionsBack(d);
    ParseStep(Render(d), Dims(d), "\n" + layersText, LayersFrom(d), OriginSection(d), Origin(d),
              "\n" + NetSection(d), d.numNet, d.nets, "\n" + AdjSection(d), d.numCapacityAdj,
              d.capacityAdjs);
  }

  lemma GridBack(dims: seq<int>, tail: seq<char>)
    requires |dims| == 3 && InInt32(dims) && StartsWithSpace(tail)
    ensures GridLine("grid" + SpacedInts(dims, tail)) == Ok((dims, tail))
  {
    var text := "grid" + SpacedInts(dims, tail);
    ReadWordBack([], "grid", SpacedInts(dims, tail));
    assert [] + text == text;
    ReadSpacedInts(dims, tail);
  }
}
