/** The toy graph tables (feature_gen.py and toy_model/toy_feature_gen.py):
    a hand-written network of six lines over eleven central London
    stations is turned into index tables for a graph model. Each node is
    a (station, line) membership; edges join the memberships of one
    station (transfers, weight 1) and neighbouring stations on one line
    (weight 5). Tensors are sequences of index pairs. */
module ToyGraph {
  import opened Common
  import opened Text

  // ---------------------------------------------------------------------
  // The hand-written network

  /** The `Lines` enum, in declaration order. */
  datatype Line = Central | Victoria | Jubilee | Northern | Piccadilly | Waterloo

  /** A line's member name, which the tables sort and print. */
  function LineName(l: Line): string {
    match l
    case Central => "Central"
    case Victoria => "Victoria"
    case Jubilee => "Jubilee"
    case Northern => "Northern"
    case Piccadilly => "Piccadilly"
    case Waterloo => "Waterloo"
  }

  /** The `Stations` enum, in declaration order. */
  datatype Station = BondStr | CharingX | GreenPark | HPC | LeicesterSq | MarbleArch
                   | OxfordCirc | PiccadillyCirc | TCR | WarrenStr | Westminster

  /** A station's value, its display name. */
  function StationName(s: Station): string {
    match s
    case BondStr => "Bond Street"
    case CharingX => "Charing Cross"
    case GreenPark => "Green Park"
    case HPC => "Hyde Park Corner"
    case LeicesterSq => "Leicester Square"
    case MarbleArch => "Marble Arch"
    case OxfordCirc => "Oxford Circus"
    case PiccadillyCirc => "Piccadilly Circus"
    case TCR => "Tottenham Court Road"
    case WarrenStr => "Warren Street"
    case Westminster => "Westminster"
  }

  /** `StationLocations`: a station's two coordinates. */
  function Location(s: Station): (real, real) {
    match s
    case MarbleArch => (0.1, 0.3)
    case BondStr => (0.3, 0.3)
    case HPC => (0.2, 0.6)
    case GreenPark => (0.3, 0.6)
    case OxfordCirc => (0.5, 0.4)
    case PiccadillyCirc => (0.6, 0.6)
    case TCR => (0.7, 0.4)
    case Westminster => (0.6, 0.9)
    case LeicesterSq => (0.7, 0.6)
    case CharingX => (0.7, 0.8)
    case WarrenStr => (0.7, 0.0)
  }

  /** The keys of `network`, in insertion order. */
  const NetworkOrder: seq<Line> := [Central, Victoria, Jubilee, Northern, Piccadilly, Waterloo]

  /** `network[line]`: the line's stations in route order. */
  function Route(l: Line): seq<Station> {
    match l
    case Central => [MarbleArch, BondStr, OxfordCirc, TCR]
    case Victoria => [WarrenStr, OxfordCirc, GreenPark]
    case Jubilee => [BondStr, GreenPark, Westminster]
    case Northern => [WarrenStr, TCR, LeicesterSq, CharingX]
    case Piccadilly => [HPC, GreenPark, PiccadillyCirc, LeicesterSq]
    case Waterloo => [OxfordCirc, PiccadillyCirc, CharingX]
  }

  // ---------------------------------------------------------------------
  // Node and line indices

  /** `node_names` (and `idx2node`): the station names sorted. */
  const NodeOrder: seq<Station> :=
    [BondStr, CharingX, GreenPark, HPC, LeicesterSq, MarbleArch, OxfordCirc, PiccadillyCirc, TCR, WarrenStr, Westminster]

  /** `line_names` (and `idx2line`): the line names sorted. */
  const LineOrder: seq<Line> := [Central, Jubilee, Northern, Piccadilly, Victoria, Waterloo]

  /** `node2idx_global`: where a station sits in `NodeOrder`. */
  function NodeIndex(s: Station): (i: nat)
    ensures i < |NodeOrder| && NodeOrder[i] == s
  {
    match s
    case BondStr => 0
    case CharingX => 1
    case GreenPark => 2
    case HPC => 3
    case LeicesterSq => 4
    case MarbleArch => 5
    case OxfordCirc => 6
    case PiccadillyCirc => 7
    case TCR => 8
    case WarrenStr => 9
    case Westminster => 10
  }

  /** `line2idx`: where a line sits in `LineOrder`. */
  function LineIndex(l: Line): (i: nat)
    ensures i < |LineOrder| && LineOrder[i] == l
  {
    match l
    case Central => 0
    case Jubilee => 1
    case Northern => 2
    case Piccadilly => 3
    case Victoria => 4
    case Waterloo => 5
  }

  /** `node2idx_global` and `idx2node` are inverse to each other, and so
      are `line2idx` and `idx2line`; the indices count the eleven stations
      and the six lines. */
  lemma IndicesInverse()
    ensures |NodeOrder| == 11 && |LineOrder| == 6
    ensures forall i :: 0 <= i < |NodeOrder| ==> NodeIndex(NodeOrder[i]) == i
    ensures forall i :: 0 <= i < |LineOrder| ==> LineIndex(LineOrder[i]) == i
  {
  }

  /** Names strictly ascending along a sequence, neighbour by neighbour. */
  predicate AscendingNames(names: seq<string>) {
    forall i :: 0 < i < |names| ==> Less(names[i - 1], names[i])
  }

  /** Neighbour-wise ascent is ascent between any two positions. */
  lemma {:induction false} AscendingEverywhere(names: seq<string>, i: nat, j: nat)
    requires AscendingNames(names)
    requires i < j < |names|
    ensures Less(names[i], names[j])
    decreases j - i
  {
    if i + 1 < j {
      AscendingEverywhere(names, i + 1, j);
      LessTransitive(names[i], names[i + 1], names[j]);
    }
  }

  function StationNames(ss: seq<Station>): (names: seq<string>)
    ensures |names| == |ss| && forall i :: 0 <= i < |ss| ==> names[i] == StationName(ss[i])
  {
    seq(|ss|, i requires 0 <= i < |ss| => StationName(ss[i]))
  }

  function LineNames(ls: seq<Line>): (names: seq<string>)
    ensures |names| == |ls| && forall i :: 0 <= i < |ls| ==> names[i] == LineName(ls[i])
  {
    seq(|ls|, i requires 0 <= i < |ls| => LineName(ls[i]))
  }

  /** Station indices follow alphabetical station names: a smaller index
      is a smaller name. */
  lemma NodeOrderSorted(s: Station, t: Station)
    ensures NodeIndex(s) < NodeIndex(t) <==> Less(StationName(s), StationName(t))
  {
    var names := StationNames(NodeOrder);
    NodeNamesAscending();
    OrderMatches(names, NodeIndex(s), NodeIndex(t));
  }

  /** The sorted station names, neighbour by neighbour. */
  lemma NodeNamesAscending()
    ensures AscendingNames(StationNames(NodeOrder))
  {
    var names := StationNames(NodeOrder);
    assert names == ["Bond Street", "Charing Cross", "Green Park", "Hyde Park Corner", "Leicester Square",
                     "Marble Arch", "Oxford Circus", "Piccadilly Circus", "Tottenham Court Road",
                     "Warren Street", "Westminster"];
    SortedStationNames(names);
  }

  lemma SortedStationNames(names: seq<string>)
    requires names == ["Bond Street", "Charing Cross", "Green Park", "Hyde Park Corner", "Leicester Square",
                       "Marble Arch", "Oxford Circus", "Piccadilly Circus", "Tottenham Court Road",
                       "Warren Street", "Westminster"]
    ensures AscendingNames(names)
  {
    LessAtHead(names[0], names[1]);
    LessAtHead(names[1], names[2]);
    LessAtHead(names[2], names[3]);
    LessAtHead(names[3], names[4]);
    LessAtHead(names[4], names[5]);
    LessAtHead(names[5], names[6]);
    LessAtHead(names[6], names[7]);
    LessAtHead(names[7], names[8]);
    LessAtHead(names[8], names[9]);
    LessAtHead(names[9][1..], names[10][1..]);
  }

  /** Strings that differ in their first character are ordered by it. */
  lemma LessAtHead(a: string, b: string)
    requires |a| > 0 && |b| > 0 && a[0] < b[0]
    ensures Less(a, b)
  {
  }

  /** Line indices follow alphabetical line names: Central 0, Jubilee 1,
      Northern 2, Piccadilly 3, Victoria 4, Waterloo 5. */
  lemma LineOrderSorted(l: Line, m: Line)
    ensures LineIndex(l) < LineIndex(m) <==> Less(LineName(l), LineName(m))
  {
    var names := LineNames(LineOrder);
    assert names == ["Central", "Jubilee", "Northern", "Piccadilly", "Victoria", "Waterloo"];
    SortedLineNames(names);
    OrderMatches(names, LineIndex(l), LineIndex(m));
  }

  lemma SortedLineNames(names: seq<string>)
    requires names == ["Central", "Jubilee", "Northern", "Piccadilly", "Victoria", "Waterloo"]
    ensures AscendingNames(names)
  {
    LessAtHead(names[0], names[1]);
    LessAtHead(names[1], names[2]);
    LessAtHead(names[2], names[3]);
    LessAtHead(names[3], names[4]);
    LessAtHead(names[4], names[5]);
  }

  /** In a strictly ascending sequence, position order and name order
      agree. */
  lemma OrderMatches(names: seq<string>, i: nat, j: nat)
    requires AscendingNames(names)
    requires i < |names| && j < |names|
    ensures i < j <==> Less(names[i], names[j])
  {
    LessIrreflexive(names[i]);
    if i < j {
      AscendingEverywhere(names, i, j);
    } else if j < i {
      AscendingEverywhere(names, j, i);
      LessAsymmetric(names[j], names[i]);
    }
  }

  // ---------------------------------------------------------------------
  // The station-line nodes

  /** Every line is in `LineOrder` and every station in `NodeOrder`. */
  lemma Enumerated(s: Station, l: Line)
    ensures s in NodeOrder && l in LineOrder
  {
    assert NodeOrder[NodeIndex(s)] == s;
    assert LineOrder[LineIndex(l)] == l;
  }

  /** `station_line_uniq_global_lut`: the (station, line) memberships in
      the order the source builds them; a node of the graph is a position
      in this table. */
  function StationLineLut(): seq<(Station, Line)> {
    [(BondStr, Central), (BondStr, Jubilee), (CharingX, Northern), (CharingX, Waterloo),
     (GreenPark, Jubilee), (GreenPark, Piccadilly), (GreenPark, Victoria), (HPC, Piccadilly),
     (LeicesterSq, Northern), (LeicesterSq, Piccadilly), (MarbleArch, Central), (OxfordCirc, Central),
     (OxfordCirc, Victoria), (OxfordCirc, Waterloo), (PiccadillyCirc, Piccadilly), (PiccadillyCirc, Waterloo),
     (TCR, Central), (TCR, Northern), (WarrenStr, Northern), (WarrenStr, Victoria), (Westminster, Jubilee)]
  }

  /** The sort key of a membership: station index first, then line index. */
  function Key(p: (Station, Line)): nat {
    NodeIndex(p.0) * 6 + LineIndex(p.1)
  }

  /** Where each line's stations sit in the table, in route order. */
  function RouteNodes(l: Line): seq<nat> {
    match l
    case Central => [10, 0, 11, 16]
    case Victoria => [19, 12, 6]
    case Jubilee => [1, 4, 20]
    case Northern => [18, 17, 8, 2]
    case Piccadilly => [7, 5, 14, 9]
    case Waterloo => [13, 15, 3]
  }

  /** The sort keys of the table's entries. */
  const LutKeys: seq<nat> := [0, 1, 8, 11, 13, 15, 16, 21, 26, 27, 30, 36, 40, 41, 45, 47, 48, 50, 56, 58, 61]

  /** Every entry is a membership of the network. */
  lemma LutMembers()
    ensures |StationLineLut()| == 21
    ensures forall k :: 0 <= k < 21 ==> StationLineLut()[k].0 in Route(StationLineLut()[k].1)
  {
  }

  /** The keys of the first entries. */
  lemma LutKeysLow()
    ensures forall k :: 0 <= k < 11 ==> Key(StationLineLut()[k]) == LutKeys[k]
  {
  }

  /** The keys of the last entries. */
  lemma LutKeysHigh()
    ensures forall k :: 11 <= k < 21 ==> Key(StationLineLut()[k]) == LutKeys[k]
  {
  }

  /** The printed keys rise from one entry to the next. */
  lemma LutKeysRise()
    ensures |LutKeys| == 21
    ensures forall k :: 0 < k < 21 ==> LutKeys[k - 1] < LutKeys[k]
  {
  }

  /** Every membership of the network is in the table. */
  lemma RouteNodesAt(l: Line)
    ensures |RouteNodes(l)| == |Route(l)|
    ensures forall i :: 0 <= i < |Route(l)| ==>
              RouteNodes(l)[i] < |StationLineLut()| && StationLineLut()[RouteNodes(l)[i]] == (Route(l)[i], l)
  {
  }

  /** Keys that rise neighbour by neighbour rise between any two positions. */
  lemma {:induction false} KeysRise(keys: seq<nat>, i: nat, j: nat)
    requires forall k :: 0 < k < |keys| ==> keys[k - 1] < keys[k]
    requires i < j < |keys|
    ensures keys[i] < keys[j]
    decreases j - i
  {
    if i + 1 < j {
      KeysRise(keys, i + 1, j);
    }
  }

  /** The table is sorted by (station index, line index), so no membership
      appears twice. */
  lemma LutOrdered(i: nat, j: nat)
    requires i < j < |StationLineLut()|
    ensures Key(StationLineLut()[i]) < Key(StationLineLut()[j])
    ensures StationLineLut()[i] != StationLineLut()[j]
  {
    LutMembers();
    LutKeysLow();
    LutKeysHigh();
    LutKeysRise();
    KeysRise(LutKeys, i, j);
  }

  /** The table holds exactly the memberships of the network. */
  lemma LutHas(s: Station, l: Line)
    ensures (s, l) in StationLineLut() <==> s in Route(l)
  {
    LutMembers();
    RouteNodesAt(l);
    if s in Route(l) {
      var i :| 0 <= i < |Route(l)| && Route(l)[i] == s;
      assert StationLineLut()[RouteNodes(l)[i]] == (s, l);
    }
  }

  /** The table is in the order the source sorts it: by station name, then
      by line name (which is line-index order). */
  lemma LutSortedByNames(i: nat, j: nat)
    requires i < j < |StationLineLut()|
    ensures var a, b := StationLineLut()[i], StationLineLut()[j];
            || Less(StationName(a.0), StationName(b.0))
            || (a.0 == b.0 && Less(LineName(a.1), LineName(b.1)))
  {
    var a, b := StationLineLut()[i], StationLineLut()[j];
    LutOrdered(i, j);
    NodeOrderSorted(a.0, b.0);
    LineOrderSorted(a.1, b.1);
    if NodeIndex(a.0) == NodeIndex(b.0) {
      assert a.0 == NodeOrder[NodeIndex(a.0)] == b.0;
    }
  }

  /** `station_line_uniq_global_idx_lut`: each node as (station index,
      line index). */
  function IdxLut(): (r: seq<(nat, nat)>)
    ensures |r| == |StationLineLut()|
    ensures forall k :: 0 <= k < |r| ==>
              && r[k].0 < |NodeOrder| && NodeOrder[r[k].0] == StationLineLut()[k].0
              && r[k].1 < |LineOrder| && LineOrder[r[k].1] == StationLineLut()[k].1
  {
    var lut := StationLineLut();
    seq(|lut|, k requires 0 <= k < |lut| => (NodeIndex(lut[k].0), LineIndex(lut[k].1)))
  }

  /** The index table as the source prints it. */
  lemma IdxLutPrinted()
    ensures IdxLut() == [(0, 0), (0, 1), (1, 2), (1, 5), (2, 1), (2, 3), (2, 4), (3, 3), (4, 2), (4, 3), (5, 0),
                         (6, 0), (6, 4), (6, 5), (7, 3), (7, 5), (8, 0), (8, 2), (9, 2), (9, 4), (10, 1)]
  {
    IdxLutLow();
    IdxLutMiddle();
    IdxLutHigh();
    IdxLutFromPieces(IdxLut());
  }

  // Proof scaffolding: the table is checked in three slices of seven,
  // which keeps the solver's work on the literal table small.
  lemma IdxLutFromPieces(x: seq<(nat, nat)>)
    requires |x| == 21
    requires x[..7] == [(0, 0), (0, 1), (1, 2), (1, 5), (2, 1), (2, 3), (2, 4)]
    requires x[7..14] == [(3, 3), (4, 2), (4, 3), (5, 0), (6, 0), (6, 4), (6, 5)]
    requires x[14..] == [(7, 3), (7, 5), (8, 0), (8, 2), (9, 2), (9, 4), (10, 1)]
    ensures x == [(0, 0), (0, 1), (1, 2), (1, 5), (2, 1), (2, 3), (2, 4), (3, 3), (4, 2), (4, 3), (5, 0),
                  (6, 0), (6, 4), (6, 5), (7, 3), (7, 5), (8, 0), (8, 2), (9, 2), (9, 4), (10, 1)]
  {
    Pieces(x, 7, 14);
  }

  lemma IdxLutLow()
    ensures |IdxLut()| == 21
    ensures IdxLut()[..7] == [(0, 0), (0, 1), (1, 2), (1, 5), (2, 1), (2, 3), (2, 4)]
  {
  }

  lemma IdxLutMiddle()
    ensures |IdxLut()| == 21
    ensures IdxLut()[7..14] == [(3, 3), (4, 2), (4, 3), (5, 0), (6, 0), (6, 4), (6, 5)]
  {
  }

  lemma IdxLutHigh()
    ensures |IdxLut()| == 21
    ensures IdxLut()[14..] == [(7, 3), (7, 5), (8, 0), (8, 2), (9, 2), (9, 4), (10, 1)]
  {
  }

  /** `node_features`: each node's station location followed by its line
      index. */
  function NodeFeatures(): (r: seq<(real, real, nat)>)
    ensures |r| == |StationLineLut()|
    ensures forall k :: 0 <= k < |r| ==>
              var (s, l) := StationLineLut()[k];
              r[k] == (Location(s).0, Location(s).1, LineIndex(l))
  {
    var idx := IdxLut();
    seq(|idx|, k requires 0 <= k < |idx| =>
      (Location(NodeOrder[idx[k].0]).0, Location(NodeOrder[idx[k].0]).1, idx[k].1))
  }

  /** The features as the source prints them. */
  lemma NodeFeaturesPrinted()
    ensures NodeFeatures() == [
      (0.3, 0.3, 0), (0.3, 0.3, 1), (0.7, 0.8, 2), (0.7, 0.8, 5), (0.3, 0.6, 1), (0.3, 0.6, 3), (0.3, 0.6, 4),
      (0.2, 0.6, 3), (0.7, 0.6, 2), (0.7, 0.6, 3), (0.1, 0.3, 0), (0.5, 0.4, 0), (0.5, 0.4, 4), (0.5, 0.4, 5),
      (0.6, 0.6, 3), (0.6, 0.6, 5), (0.7, 0.4, 0), (0.7, 0.4, 2), (0.7, 0.0, 2), (0.7, 0.0, 4), (0.6, 0.9, 1)]
  {
    NodeFeaturesLow();
    NodeFeaturesMiddle();
    NodeFeaturesHigh();
    NodeFeaturesFromPieces(NodeFeatures());
  }

  // Proof scaffolding: the table is checked in three slices of seven,
  // which keeps the solver's work on the literal table small.
  lemma NodeFeaturesFromPieces(x: seq<(real, real, nat)>)
    requires |x| == 21
    requires x[..7] ==
      [(0.3, 0.3, 0), (0.3, 0.3, 1), (0.7, 0.8, 2), (0.7, 0.8, 5), (0.3, 0.6, 1), (0.3, 0.6, 3), (0.3, 0.6, 4)]
    requires x[7..14] ==
      [(0.2, 0.6, 3), (0.7, 0.6, 2), (0.7, 0.6, 3), (0.1, 0.3, 0), (0.5, 0.4, 0), (0.5, 0.4, 4), (0.5, 0.4, 5)]
    requires x[14..] ==
      [(0.6, 0.6, 3), (0.6, 0.6, 5), (0.7, 0.4, 0), (0.7, 0.4, 2), (0.7, 0.0, 2), (0.7, 0.0, 4), (0.6, 0.9, 1)]
    ensures x == [
      (0.3, 0.3, 0), (0.3, 0.3, 1), (0.7, 0.8, 2), (0.7, 0.8, 5), (0.3, 0.6, 1), (0.3, 0.6, 3), (0.3, 0.6, 4),
      (0.2, 0.6, 3), (0.7, 0.6, 2), (0.7, 0.6, 3), (0.1, 0.3, 0), (0.5, 0.4, 0), (0.5, 0.4, 4), (0.5, 0.4, 5),
      (0.6, 0.6, 3), (0.6, 0.6, 5), (0.7, 0.4, 0), (0.7, 0.4, 2), (0.7, 0.0, 2), (0.7, 0.0, 4), (0.6, 0.9, 1)]
  {
    Pieces(x, 7, 14);
  }

  /** A sequence is its three slices put back together. */
  lemma Pieces<T>(x: seq<T>, i: nat, j: nat)
    requires i <= j <= |x|
    ensures x == x[..i] + x[i..j] + x[j..]
  {
  }

  lemma NodeFeaturesLow()
    ensures |NodeFeatures()| == 21
    ensures NodeFeatures()[..7] ==
      [(0.3, 0.3, 0), (0.3, 0.3, 1), (0.7, 0.8, 2), (0.7, 0.8, 5), (0.3, 0.6, 1), (0.3, 0.6, 3), (0.3, 0.6, 4)]
  {
  }

  lemma NodeFeaturesMiddle()
    ensures |NodeFeatures()| == 21
    ensures NodeFeatures()[7..14] ==
      [(0.2, 0.6, 3), (0.7, 0.6, 2), (0.7, 0.6, 3), (0.1, 0.3, 0), (0.5, 0.4, 0), (0.5, 0.4, 4), (0.5, 0.4, 5)]
  {
  }

  lemma NodeFeaturesHigh()
    ensures |NodeFeatures()| == 21
    ensures NodeFeatures()[14..] ==
      [(0.6, 0.6, 3), (0.6, 0.6, 5), (0.7, 0.4, 0), (0.7, 0.4, 2), (0.7, 0.0, 2), (0.7, 0.0, 4), (0.6, 0.9, 1)]
  {
  }

  // ---------------------------------------------------------------------
  // Lookup and the per-line node lists (toy_model/toy_feature_gen.py)

  /** The first position holding `x`, or nothing: `next(...)` over an
      enumeration, where nothing is the `StopIteration` it raises. */
  function FirstIndex<T(==)>(xs: seq<T>, x: T): (r: Option<nat>)
    ensures r.None? <==> x !in xs
    ensures r.Some? ==> r.value < |xs| && xs[r.value] == x && x !in xs[..r.value]
  {
    if |xs| == 0 then None
    else if xs[0] == x then Some(0)
    else match FirstIndex(xs[1..], x)
      case None => None
      case Some(i) =>
        assert xs[..i + 1] == [xs[0]] + xs[1..][..i];
        Some(i + 1)
  }

  /** `station_line_name_lookup`: the node of a (station, line) pair; it
      fails when the line does not serve the station. */
  function StationLineNameLookup(s: Station, l: Line): (r: Option<nat>)
    ensures r.Some? <==> s in Route(l)
    ensures r.Some? ==> r.value < |StationLineLut()| && StationLineLut()[r.value] == (s, l)
  {
    LutHas(s, l);
    FirstIndex(StationLineLut(), (s, l))
  }

  /** The node found is the only one for that pair. */
  lemma LookupUnique(s: Station, l: Line, k: nat)
    requires k < |StationLineLut()| && StationLineLut()[k] == (s, l)
    ensures StationLineNameLookup(s, l) == Some(k)
  {
    LutHas(s, l);
    var r := StationLineNameLookup(s, l).value;
    if r < k {
      LutOrdered(r, k);
    } else if k < r {
      LutOrdered(k, r);
    }
  }

  /** One line's row of `network_as_station_line_idx`: the nodes of its
      stations in route order. */
  function LineNodes(l: Line): (r: seq<nat>)
    ensures |r| == |Route(l)|
    ensures forall i :: 0 <= i < |r| ==> r[i] < |StationLineLut()| && StationLineLut()[r[i]] == (Route(l)[i], l)
  {
    var route := Route(l);
    seq(|route|, i requires 0 <= i < |route| => StationLineNameLookup(route[i], l).value)
  }

  /** `network_as_station_line_idx`: line index to its nodes, in the
      insertion order of `network`. */
  function NetworkAsStationLineIdx(): (r: seq<(nat, seq<nat>)>)
    ensures |r| == |NetworkOrder|
    ensures forall i :: 0 <= i < |r| ==> r[i] == (LineIndex(NetworkOrder[i]), LineNodes(NetworkOrder[i]))
  {
    seq(|NetworkOrder|, i requires 0 <= i < |NetworkOrder| => (LineIndex(NetworkOrder[i]), LineNodes(NetworkOrder[i])))
  }

  /** The rows, computed by looking each station up. */
  lemma LineNodesAre(l: Line)
    ensures LineNodes(l) == RouteNodes(l)
  {
    RouteNodesAt(l);
    forall i | 0 <= i < |Route(l)|
      ensures LineNodes(l)[i] == RouteNodes(l)[i]
    {
      LookupUnique(Route(l)[i], l, RouteNodes(l)[i]);
    }
  }

  /** The whole table. */
  lemma NetworkAsStationLineIdxIs()
    ensures NetworkAsStationLineIdx() ==
      [(0, [10, 0, 11, 16]), (4, [19, 12, 6]), (1, [1, 4, 20]), (2, [18, 17, 8, 2]), (3, [7, 5, 14, 9]), (5, [13, 15, 3])]
  {
    var expected: seq<(nat, seq<nat>)> :=
      [(0, [10, 0, 11, 16]), (4, [19, 12, 6]), (1, [1, 4, 20]), (2, [18, 17, 8, 2]), (3, [7, 5, 14, 9]), (5, [13, 15, 3])];
    assert forall i :: 0 <= i < |NetworkOrder| ==> expected[i] == (LineIndex(NetworkOrder[i]), RouteNodes(NetworkOrder[i]));
    forall i | 0 <= i < |NetworkOrder|
      ensures NetworkAsStationLineIdx()[i] == expected[i]
    {
      LineNodesAre(NetworkOrder[i]);
    }
    SameRows(NetworkAsStationLineIdx(), expected);
  }

  /** Two sequences agreeing at every position are equal. */
  lemma SameRows<T>(a: seq<T>, b: seq<T>)
    requires |a| == |b| && forall i :: 0 <= i < |a| ==> a[i] == b[i]
    ensures a == b
  {
  }

  // ---------------------------------------------------------------------
  // Interchanges

  /** `station_line_lookup[station]`: the lines serving a station. */
  function ServedBy(s: Station): seq<Line> {
    match s
    case BondStr => [Central, Jubilee]
    case CharingX => [Northern, Waterloo]
    case GreenPark => [Jubilee, Piccadilly, Victoria]
    case HPC => [Piccadilly]
    case LeicesterSq => [Northern, Piccadilly]
    case MarbleArch => [Central]
    case OxfordCirc => [Central, Victoria, Waterloo]
    case PiccadillyCirc => [Piccadilly, Waterloo]
    case TCR => [Central, Northern]
    case WarrenStr => [Northern, Victoria]
    case Westminster => [Jubilee]
  }

  /** The lines listed for a station are exactly those serving it, each
      once, in line-index (and so line-name) order. */
  lemma ServedByHas(s: Station, l: Line)
    ensures l in ServedBy(s) <==> s in Route(l)
    ensures forall i :: 0 < i < |ServedBy(s)| ==> LineIndex(ServedBy(s)[i - 1]) < LineIndex(ServedBy(s)[i])
  {
  }

  /** A station served by more than one line. */
  predicate IsInterchange(s: Station) {
    |ServedBy(s)| > 1
  }

  /** An interchange is a station two different lines call at. */
  lemma InterchangeTwoLines(s: Station)
    ensures IsInterchange(s) <==> exists l1: Line, l2: Line :: l1 != l2 && s in Route(l1) && s in Route(l2)
  {
    var sb := ServedBy(s);
    if IsInterchange(s) {
      ServedByHas(s, sb[0]);
      ServedByHas(s, sb[1]);
      assert LineIndex(sb[0]) < LineIndex(sb[1]);
    }
    forall l1: Line, l2: Line | l1 != l2 && s in Route(l1) && s in Route(l2)
      ensures IsInterchange(s)
    {
      ServedByHas(s, l1);
      ServedByHas(s, l2);
    }
  }

  /** The keys of `interchanges`, in station order. */
  const InterchangeStations: seq<Station> :=
    [BondStr, CharingX, GreenPark, LeicesterSq, OxfordCirc, PiccadillyCirc, TCR, WarrenStr]

  /** Exactly the interchanges are listed, in station-index order. */
  lemma InterchangeStationsHas(s: Station)
    ensures s in InterchangeStations <==> IsInterchange(s)
    ensures forall i :: 0 < i < |InterchangeStations| ==>
              NodeIndex(InterchangeStations[i - 1]) < NodeIndex(InterchangeStations[i])
  {
  }

  /** `interchanges`: each interchange with the lines serving it. */
  function Interchanges(): (r: seq<(Station, seq<Line>)>)
    ensures |r| == |InterchangeStations|
    ensures forall i :: 0 <= i < |r| ==> IsInterchange(r[i].0) && r[i].1 == ServedBy(r[i].0)
  {
    seq(|InterchangeStations|, i requires 0 <= i < |InterchangeStations| =>
      (InterchangeStations[i], ServedBy(InterchangeStations[i])))
  }

  /** The interchanges as the source prints them. */
  lemma InterchangesPrinted()
    ensures Interchanges() == [
      (BondStr, [Central, Jubilee]), (CharingX, [Northern, Waterloo]), (GreenPark, [Jubilee, Piccadilly, Victoria]),
      (LeicesterSq, [Northern, Piccadilly]), (OxfordCirc, [Central, Victoria, Waterloo]),
      (PiccadillyCirc, [Piccadilly, Waterloo]), (TCR, [Central, Northern]), (WarrenStr, [Northern, Victoria])]
  {
  }

  /** The nodes kept in `interchanges_uniq_global_idx_lut`. */
  const InterchangeKeys: seq<nat> := [0, 1, 2, 3, 4, 5, 6, 8, 9, 11, 12, 13, 14, 15, 16, 17, 18, 19]

  /** A node is kept exactly when its station is an interchange. */
  lemma InterchangeKeysHas()
    ensures forall k :: 0 <= k < 21 ==> (k in InterchangeKeys <==> IsInterchange(StationLineLut()[k].0))
  {
    InterchangeKeysOmit();
    assert forall k :: 0 <= k < 21 ==> (IsInterchange(StationLineLut()[k].0) <==> k !in {7, 10, 20});
  }

  /** The nodes left out are 7, 10 and 20, and the kept ones rise. */
  lemma InterchangeKeysOmit()
    ensures forall k :: 0 <= k < 21 ==> (k !in InterchangeKeys <==> k in {7, 10, 20})
    ensures forall i :: 0 < i < |InterchangeKeys| ==> InterchangeKeys[i - 1] < InterchangeKeys[i]
  {
  }

  /** `interchanges_uniq_global_idx_lut`: the index table restricted to
      interchange stations, keyed by node. */
  function InterchangeIdxLut(): (r: seq<(nat, (nat, nat))>)
    ensures |r| == |InterchangeKeys|
    ensures forall i :: 0 <= i < |r| ==> r[i].0 < |IdxLut()| && r[i].1 == IdxLut()[r[i].0]
  {
    seq(|InterchangeKeys|, i requires 0 <= i < |InterchangeKeys| => (InterchangeKeys[i], IdxLut()[InterchangeKeys[i]]))
  }
}
