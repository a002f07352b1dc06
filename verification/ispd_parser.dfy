/** The checked reader of an ISPD 2008 benchmark (`parse_ispd` in
    `src/router/ispd_data.cpp`). Every section is a function from the input
    still to be read to the value read and the input after it; a failed read
    or a failed check throws the message the C++ code throws. */
module IspdParser {
  import opened Wrappers
  import opened IntText
  import opened TokenStream
  import opened IspdTypes

  const ERR_GRID := "failed to read grid"
  const ERR_VCAP_TAG := "failed to read vertical capacity tag"
  const ERR_VCAP := "failed to read vertical capacity"
  const ERR_HCAP_TAG := "failed to read horizontal capacity tag"
  const ERR_HCAP := "failed to read horizontal capacity"
  const ERR_MINW_TAG := "failed to read minimum width tag"
  const ERR_MINW := "failed to read minimum width"
  const ERR_MINS_TAG := "failed to read minimum spacing tag"
  const ERR_MINS := "failed to read minimum spacing"
  const ERR_VIAS_TAG := "failed to read via spacing tag"
  const ERR_VIAS := "failed to read via spacing"
  const ERR_ORIGIN := "failed to read origin/tile size"
  const ERR_NUM_NET := "failed to read num net"
  const ERR_NET_HEADER := "failed to read net header"
  const ERR_PIN := "failed to read pin"
  const ERR_NUM_ADJ := "failed to read num capacity adjustments"
  const ERR_ADJ := "failed to read capacity adjustment"
  /** `std::vector::reserve` with a negative `int` count: the count converts to
      a huge `size_t` and libstdc++ throws `std::length_error`. */
  const ERR_RESERVE := "vector::reserve"

  /** What the checks after a read sequence accept. `is` (not failed) is
      what a successful read guarantees; `is.good()` additionally demands
      that the last read did not run into the end of the input. */
  function Good(rest: seq<char>, msg: string): (c: Check)
    ensures c.Pass? <==> rest != []
  {
    Need(rest != [], msg)
  }

  function Word(s: seq<char>, msg: string): (r: Result<(string, seq<char>)>)
    ensures r.Ok? <==> ReadWord(s).Some?
    ensures r.Ok? ==> r.value == ReadWord(s).value
    ensures r.Err? ==> r.msg == msg
  {
    match ReadWord(s)
    case None => Err(msg)
    case Some(p) => Ok(p)
  }

  function Ints(s: seq<char>, n: nat, msg: string): (r: Result<(seq<int>, seq<char>)>)
    ensures r.Ok? <==> ReadInts(s, n).Some?
    ensures r.Ok? ==> r.value == ReadInts(s, n).value
    ensures r.Err? ==> r.msg == msg
  {
    match ReadInts(s, n)
    case None => Err(msg)
    case Some(p) => Ok(p)
  }

  /** `n` reads followed by one `expect(is.good(), msg)`. */
  function IntsGood(s: seq<char>, n: nat, msg: string): (r: Result<(seq<int>, seq<char>)>)
    ensures r.Ok? <==> ReadInts(s, n).Some? && ReadInts(s, n).value.1 != []
    ensures r.Ok? ==> r.value == ReadInts(s, n).value
    ensures r.Err? ==> r.msg == msg
  {
    var p :- Ints(s, n, msg);
    :- Good(p.1, msg);
    Ok(p)
  }

  /** `is >> keyword >> keyword; expect(is && keyword == tag, msg)`: the
      first word is skipped unchecked. */
  function Tag(s: seq<char>, tag: string, msg: string): (r: Result<seq<char>>)
    ensures r.Ok? ==> ReadWord(s).Some? && ReadWord(ReadWord(s).value.1).Some?
    ensures r.Ok? ==> ReadWord(ReadWord(s).value.1).value == (tag, r.value)
    ensures r.Err? ==> r.msg == msg
  {
    var first :- Word(s, msg);
    var second :- Word(first.1, msg);
    :- Need(second.0 == tag, msg);
    Ok(second.1)
  }

  /** A counted `for (int i = 0; i < n; i++)` loop of item reads: nothing
      is read when `n <= 0`, and the first item that throws ends the loop
      with its error. */
  function Repeat<T>(s: seq<char>, n: int, item: seq<char> -> Result<(T, seq<char>)>)
    : (r: Result<(seq<T>, seq<char>)>)
    ensures r.Ok? ==> |r.value.0| == if n < 0 then 0 else n
    decreases n
  {
    if n <= 0 then Ok(([], s))
    else
      var first :- item(s);
      var more :- Repeat(first.1, n - 1, item);
      Ok(([first.0] + more.0, more.1))
  }

  /** The loop throws only what its items throw. */
  lemma {:induction false} RepeatErr<T>(s: seq<char>, n: int, item: seq<char> -> Result<(T, seq<char>)>,
                                        msgs: set<string>)
    requires forall t :: item(t).Err? ==> item(t).msg in msgs
    ensures Repeat(s, n, item).Err? ==> Repeat(s, n, item).msg in msgs
    decreases n
  {
    if n > 0 && item(s).Ok? {
      RepeatErr(item(s).value.1, n - 1, item, msgs);
    }
  }

  /** Every value the loop collects is one an item returned, so whatever
      holds of all item values holds of all of them. */
  lemma {:induction false} RepeatAll<T>(s: seq<char>, n: int, item: seq<char> -> Result<(T, seq<char>)>,
                                        ok: T -> bool)
    requires forall t :: item(t).Ok? ==> ok(item(t).value.0)
    ensures Repeat(s, n, item).Ok? ==>
      forall i :: 0 <= i < |Repeat(s, n, item).value.0| ==> ok(Repeat(s, n, item).value.0[i])
    decreases n
  {
    if n > 0 && item(s).Ok? {
      RepeatAll(item(s).value.1, n - 1, item, ok);
    }
  }

  /** Texts chained so that the item read from each one leaves the next:
      the loop walks down the chain and collects the items in order. */
  lemma {:induction false} RepeatChain<T>(texts: seq<seq<char>>, vs: seq<T>, k: nat,
                                          item: seq<char> -> Result<(T, seq<char>)>)
    requires |texts| == |vs| + 1 && k <= |vs|
    requires forall i :: k <= i < |vs| ==> item(texts[i]) == Ok((vs[i], texts[i + 1]))
    ensures Repeat(texts[k], |vs| - k, item) == Ok((vs[k..], texts[|vs|]))
    decreases |vs| - k
  {
    if k < |vs| {
      RepeatChain(texts, vs, k + 1, item);
      assert [vs[k]] + vs[k + 1..] == vs[k..];
    } else {
      assert vs[k..] == [];
    }
  }

  /** The chain of texts printed from each suffix of `vs`: when the item
      read from the text of `vs[i..]` is `vs[i]`, followed by the text of
      `vs[i + 1..]`, the loop reads all of `vs` back. */
  lemma RepeatSuffixes<T>(vs: seq<T>, textOf: seq<T> -> seq<char>, item: seq<char> -> Result<(T, seq<char>)>)
    requires forall i :: 0 <= i < |vs| ==> item(textOf(vs[i..])) == Ok((vs[i], textOf(vs[i + 1..])))
    ensures Repeat(textOf(vs), |vs|, item) == Ok((vs, textOf([])))
  {
    var texts := seq(|vs| + 1, i requires 0 <= i <= |vs| => textOf(vs[i..]));
    assert vs[0..] == vs && vs[|vs|..] == [];
    RepeatChain(texts, vs, 0, item);
  }

  /** One `is >> v` followed by `expect(is.good(), msg)`. */
  function IntGood(s: seq<char>, msg: string): (r: Result<(int, seq<char>)>)
    ensures r.Ok? <==> ReadInt(s).Some? && ReadInt(s).value.1 != []
    ensures r.Ok? ==> r.value == ReadInt(s).value && IsInt32(r.value.0)
    ensures r.Err? ==> r.msg == msg
  {
    match ReadInt(s)
    case None => Err(msg)
    case Some(p) => if p.1 == [] then Err(msg) else Ok(p)
  }

  function IntItem(msg: string): seq<char> -> Result<(int, seq<char>)> {
    t => IntGood(t, msg)
  }

  /** A loop of `n` reads, each followed by `expect(is.good(), msg)`; a
      count of zero or less reads nothing. */
  function GoodInts(s: seq<char>, n: int, msg: string): (r: Result<(seq<int>, seq<char>)>)
    ensures r.Ok? ==> |r.value.0| == (if n < 0 then 0 else n) && InInt32(r.value.0)
    ensures r.Err? ==> r.msg == msg
  {
    RepeatErr(s, n, IntItem(msg), {msg});
    RepeatAll(s, n, IntItem(msg), IsInt32);
    Repeat(s, n, IntItem(msg))
  }

  /** One per-layer line: its two-word tag, `n` values and the rest of the
      line discarded by `is.ignore(..., '\n')`. */
  function LayerList(s: seq<char>, n: int, tag: string, tagMsg: string, msg: string)
    : (r: Result<(seq<int>, seq<char>)>)
    ensures r.Ok? ==> |r.value.0| == (if n < 0 then 0 else n) && InInt32(r.value.0)
    ensures r.Err? ==> r.msg == tagMsg || r.msg == msg
  {
    var s1 :- Tag(s, tag, tagMsg);
    var vals :- GoodInts(s1, n, msg);
    Ok((vals.0, Ignore(vals.1)))
  }

  /** `is >> keyword >> numXGrid >> numYGrid >> numLayer;
      expect(is && keyword == "grid", ...)`. */
  function GridLine(s: seq<char>): (r: Result<(seq<int>, seq<char>)>)
    ensures r.Ok? ==> |r.value.0| == 3 && InInt32(r.value.0)
    ensures r.Ok? ==> ReadWord(s).Some? && ReadWord(s).value.0 == "grid"
    ensures r.Err? ==> r.msg == ERR_GRID
  {
    var kw :- Word(s, ERR_GRID);
    var dims :- Ints(kw.1, 3, ERR_GRID);
    :- Need(kw.0 == "grid", ERR_GRID);
    Ok(dims)
  }

  /** The `num net` line: checked with `is`, not `is.good()`. */
  function NumNet(s: seq<char>): (r: Result<(int, seq<char>)>)
    ensures r.Ok? ==> INT_MIN <= r.value.0 <= INT_MAX
    ensures r.Err? ==> r.msg == ERR_NUM_NET
  {
    var s1 :- Tag(s, "net", ERR_NUM_NET);
    var v :- Ints(s1, 1, ERR_NUM_NET);
    Ok((v.0[0], v.1))
  }

  /** A `reserve(count)` on a vector: throws for a negative count. */
  function Reserve(count: int): (c: Check)
    ensures c.Pass? <==> count >= 0
  {
    Need(count >= 0, ERR_RESERVE)
  }

  /** One pin line `x y z`, checked with `is.good()`. */
  function PinLine(s: seq<char>): (r: Result<(Triple, seq<char>)>)
    ensures r.Err? ==> r.msg == ERR_PIN
  {
    var xyz :- IntsGood(s, 3, ERR_PIN);
    Ok(((xyz.0[0], xyz.0[1], xyz.0[2]), xyz.1))
  }

  function Pins(s: seq<char>, n: int): (r: Result<(seq<Triple>, seq<char>)>)
    ensures r.Ok? ==> |r.value.0| == if n < 0 then 0 else n
    ensures r.Err? ==> r.msg == ERR_PIN
  {
    RepeatErr(s, n, PinLine, {ERR_PIN});
    Repeat(s, n, PinLine)
  }

  /** One net: `name id numPins minimumWidth` checked with `is.good()`, a
      `reserve(numPins)` and the pin lines. */
  function NetRecord(s: seq<char>): (r: Result<(Net, seq<char>)>)
    ensures r.Ok? ==> FreshNet(r.value.0)
    ensures r.Err? ==> r.msg in {ERR_NET_HEADER, ERR_RESERVE, ERR_PIN}
  {
    var name :- Word(s, ERR_NET_HEADER);
    var hdr :- IntsGood(name.1, 3, ERR_NET_HEADER);
    :- Reserve(hdr.0[1]);
    var pins :- Pins(hdr.1, hdr.0[1]);
    Ok((NewNet(name.0, hdr.0[0], hdr.0[1], hdr.0[2], pins.0), pins.1))
  }

  function Nets(s: seq<char>, n: int): (r: Result<(seq<Net>, seq<char>)>)
    ensures r.Ok? ==> |r.value.0| == if n < 0 then 0 else n
    ensures r.Ok? ==> forall i :: 0 <= i < |r.value.0| ==> FreshNet(r.value.0[i])
    ensures r.Err? ==> r.msg in {ERR_NET_HEADER, ERR_RESERVE, ERR_PIN}
  {
    RepeatErr(s, n, NetRecord, {ERR_NET_HEADER, ERR_RESERVE, ERR_PIN});
    RepeatAll(s, n, NetRecord, FreshNet);
    Repeat(s, n, NetRecord)
  }

  function AdjOf(v: seq<int>): CapacityAdj
    requires |v| == 7
  {
    CapacityAdj((v[0], v[1], v[2]), (v[3], v[4], v[5]), v[6])
  }

  /** One adjustment line of seven numbers, checked with `is.good()`. */
  function AdjLine(s: seq<char>): (r: Result<(CapacityAdj, seq<char>)>)
    ensures r.Err? ==> r.msg == ERR_ADJ
  {
    var v :- IntsGood(s, 7, ERR_ADJ);
    Ok((AdjOf(v.0), v.1))
  }

  function Adjs(s: seq<char>, n: int): (r: Result<(seq<CapacityAdj>, seq<char>)>)
    ensures r.Ok? ==> |r.value.0| == if n < 0 then 0 else n
    ensures r.Err? ==> r.msg == ERR_ADJ
  {
    RepeatErr(s, n, AdjLine, {ERR_ADJ});
    Repeat(s, n, AdjLine)
  }

  /** The five per-layer lines, in file order. */
  datatype Layers = Layers(vcap: seq<int>, hcap: seq<int>, minw: seq<int>, mins: seq<int>, vias: seq<int>)

  predicate LayersOf(l: Layers, n: nat) {
    |l.vcap| == n && |l.hcap| == n && |l.minw| == n && |l.mins| == n && |l.vias| == n
  }

  function LayerLines(s: seq<char>, n: int): (r: Result<(Layers, seq<char>)>)
    ensures r.Ok? ==> LayersOf(r.value.0, if n < 0 then 0 else n)
  {
    var vcap :- LayerList(s, n, "capacity", ERR_VCAP_TAG, ERR_VCAP);
    var hcap :- LayerList(vcap.1, n, "capacity", ERR_HCAP_TAG, ERR_HCAP);
    var minw :- LayerList(hcap.1, n, "width", ERR_MINW_TAG, ERR_MINW);
    var mins :- LayerList(minw.1, n, "spacing", ERR_MINS_TAG, ERR_MINS);
    var vias :- LayerList(mins.1, n, "spacing", ERR_VIAS_TAG, ERR_VIAS);
    Ok((Layers(vcap.0, hcap.0, minw.0, mins.0, vias.0), vias.1))
  }

  /** The `num net` line, a `reserve(numNet)` and the nets. */
  function Netlist(s: seq<char>): (r: Result<(int, seq<Net>, seq<char>)>)
    ensures r.Ok? ==> r.value.0 == |r.value.1|
    ensures r.Ok? ==> forall i :: 0 <= i < |r.value.1| ==> FreshNet(r.value.1[i])
  {
    var numNet :- NumNet(s);
    :- Reserve(numNet.0);
    var nets :- Nets(numNet.1, numNet.0);
    Ok((numNet.0, nets.0, nets.1))
  }

  /** The adjustment count, checked with `is.good()`, a `reserve` and the
      adjustment lines. */
  function Adjustments(s: seq<char>): (r: Result<(int, seq<CapacityAdj>)>)
    ensures r.Ok? ==> r.value.0 == |r.value.1|
  {
    var numAdj :- IntsGood(s, 1, ERR_NUM_ADJ);
    :- Reserve(numAdj.0[0]);
    var adjs :- Adjs(numAdj.1, numAdj.0[0]);
    Ok((numAdj.0[0], adjs.0))
  }

  /** `parse_ispd`: the whole benchmark, or the first error thrown. Text
      after the last capacity adjustment is never looked at. */
  function Parse(text: seq<char>): (r: Result<IspdData>)
    ensures r.Ok? ==> Shaped(r.value)
  {
    var grid :- GridLine(text);
    var layers :- LayerLines(grid.1, grid.0[2]);
    var origin :- IntsGood(layers.1, 4, ERR_ORIGIN);
    var nets :- Netlist(origin.1);
    var adjs :- Adjustments(nets.2);
    Ok(Assemble(grid.0, layers.0, origin.0, nets.1, adjs.1))
  }

  function Assemble(dims: seq<int>, l: Layers, origin: seq<int>, nets: seq<Net>, adjs: seq<CapacityAdj>)
    : (d: IspdData)
    requires |dims| == 3 && |origin| == 4
    requires LayersOf(l, if dims[2] < 0 then 0 else dims[2])
    requires forall i :: 0 <= i < |nets| ==> FreshNet(nets[i])
    ensures Shaped(d)
    ensures d.nets == nets && d.capacityAdjs == adjs
  {
    IspdData(dims[0], dims[1], dims[2], l.vcap, l.hcap, l.minw, l.mins, l.vias,
             origin[0], origin[1], origin[2], origin[3],
             |nets|, nets, |adjs|, adjs)
  }

  /** What a parsed record always satisfies: one value per layer in each
      per-layer list, as many nets, pins and adjustments as announced,
      every net fresh from the reader. */
  predicate Shaped(d: IspdData) {
    && var n := if d.numLayer < 0 then 0 else d.numLayer;
    && |d.verticalCapacity| == n && |d.horizontalCapacity| == n
    && |d.minimumWidth| == n && |d.minimumSpacing| == n && |d.viaSpacing| == n
    && d.numNet == |d.nets| && d.numCapacityAdj == |d.capacityAdjs|
    && (forall i :: 0 <= i < |d.nets| ==> FreshNet(d.nets[i]))
  }

  predicate FreshNet(n: Net) {
    && IsWord(n.name) && n.numPins == |n.pins|
    && n == NewNet(n.name, n.id, n.numPins, n.minimumWidth, n.pins)
  }
}
