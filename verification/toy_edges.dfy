/** The edges of the toy graph (toy_model/toy_feature_gen.py): transfer
    edges between the nodes of one interchange station, weight 1, and
    line edges between neighbouring stations on one line, weight 5, each
    in both directions. */
module ToyEdges {
  import opened PairSeqs
  import opened ToyGraph

  // ---------------------------------------------------------------------
  // Transfer edges

  /** The nodes of one station, in node order. */
  function StationNodes(s: Station): seq<nat> {
    match s
    case BondStr => [0, 1]
    case CharingX => [2, 3]
    case GreenPark => [4, 5, 6]
    case HPC => [7]
    case LeicesterSq => [8, 9]
    case MarbleArch => [10]
    case OxfordCirc => [11, 12, 13]
    case PiccadillyCirc => [14, 15]
    case TCR => [16, 17]
    case WarrenStr => [18, 19]
    case Westminster => [20]
  }

  /** A station's nodes are nodes of that station, rising. */
  lemma StationNodesHas(s: Station)
    ensures |StationNodes(s)| > 0
    ensures forall i :: 0 <= i < |StationNodes(s)| ==>
              StationNodes(s)[i] < |StationLineLut()| && StationLineLut()[StationNodes(s)[i]].0 == s
    ensures forall i :: 0 < i < |StationNodes(s)| ==> StationNodes(s)[i - 1] < StationNodes(s)[i]
  {
  }

  /** Every node is among its station's nodes. */
  lemma StationNodesComplete()
    ensures forall k :: 0 <= k < |StationLineLut()| ==> k in StationNodes(StationLineLut()[k].0)
  {
  }

  /** The groups `groupby` forms over the sorted interchange table keyed
      by station: one group per interchange, holding its nodes. */
  function TransferGroups(): (r: seq<seq<nat>>)
    ensures |r| == |InterchangeStations|
    ensures forall i :: 0 <= i < |r| ==> r[i] == StationNodes(InterchangeStations[i])
  {
    seq(|InterchangeStations|, i requires 0 <= i < |InterchangeStations| => StationNodes(InterchangeStations[i]))
  }

  lemma TransferGroupsPrinted()
    ensures TransferGroups() == [[0, 1], [2, 3], [4, 5, 6], [8, 9], [11, 12, 13], [14, 15], [16, 17], [18, 19]]
  {
    var expected: seq<seq<nat>> := [[0, 1], [2, 3], [4, 5, 6], [8, 9], [11, 12, 13], [14, 15], [16, 17], [18, 19]];
    assert forall i :: 0 <= i < |InterchangeStations| ==> expected[i] == StationNodes(InterchangeStations[i]);
    SameRows(TransferGroups(), expected);
  }

  /** The groups are the maximal runs of the sorted interchange keys that
      share a station: put back together they are the keys, and
      neighbouring groups have different stations. */
  lemma TransferGroupsAreRuns()
    ensures Flatten(TransferGroups()) == InterchangeKeys
    ensures forall i :: 0 < i < |InterchangeStations| ==> InterchangeStations[i - 1] != InterchangeStations[i]
  {
    TransferGroupsPrinted();
    GroupsFlatten(TransferGroups());
  }

  lemma GroupsFlatten(g: seq<seq<nat>>)
    requires g == [[0, 1], [2, 3], [4, 5, 6], [8, 9], [11, 12, 13], [14, 15], [16, 17], [18, 19]]
    ensures Flatten(g) == [0, 1, 2, 3, 4, 5, 6, 8, 9, 11, 12, 13, 14, 15, 16, 17, 18, 19]
  {
    FlattenEight(g[0], g[1], g[2], g[3], g[4], g[5], g[6], g[7]);
  }

  /** Each group holds nodes of its one station. */
  lemma TransferGroupsShareStation(i: nat, k: nat)
    requires i < |TransferGroups()| && k in TransferGroups()[i]
    ensures k < |StationLineLut()| && StationLineLut()[k].0 == InterchangeStations[i]
  {
    StationNodesHas(InterchangeStations[i]);
  }

  /** `interchange_global_idx_edges`, unrolled: every pair of nodes of one
      interchange station. */
  function TransferPairs(): seq<(nat, nat)> {
    AllCombinations(TransferGroups())
  }

  /** Two positions of a station's group hold rising nodes of it. */
  lemma GroupPairSameStation(s: Station, i: nat, j: nat)
    requires i < j < |StationNodes(s)|
    ensures StationNodes(s)[i] < StationNodes(s)[j] < |StationLineLut()|
    ensures StationLineLut()[StationNodes(s)[i]].0 == StationLineLut()[StationNodes(s)[j]].0
  {
    StationNodesHas(s);
    KeysRise(StationNodes(s), i, j);
  }

  /** Two different nodes of one station make it an interchange. */
  lemma SharedStationIsInterchange(a: nat, b: nat)
    requires a < b < |StationLineLut()| && StationLineLut()[a].0 == StationLineLut()[b].0
    ensures StationLineLut()[a].0 in InterchangeStations
  {
    var lut := StationLineLut();
    var s := lut[a].0;
    LutOrdered(a, b);
    LutMembers();
    assert lut[a].1 != lut[b].1 && s in Route(lut[a].1) && s in Route(lut[b].1);
    InterchangeTwoLines(s);
    InterchangeStationsHas(s);
  }

  /** Two nodes of a station sit in its group in node order. */
  lemma PositionsInGroup(s: Station, a: nat, b: nat)
    requires a < b && a in StationNodes(s) && b in StationNodes(s)
    ensures exists i, j :: 0 <= i < j < |StationNodes(s)| && (a, b) == (StationNodes(s)[i], StationNodes(s)[j])
  {
    var nodes := StationNodes(s);
    StationNodesHas(s);
    var i :| 0 <= i < |nodes| && nodes[i] == a;
    var j :| 0 <= j < |nodes| && nodes[j] == b;
    RisingPositions(nodes, i, j);
  }

  /** In a rising sequence, a smaller element sits earlier. */
  lemma RisingPositions(keys: seq<nat>, i: nat, j: nat)
    requires forall k :: 0 < k < |keys| ==> keys[k - 1] < keys[k]
    requires i < |keys| && j < |keys| && keys[i] < keys[j]
    ensures i < j
  {
    if j < i {
      KeysRise(keys, j, i);
    }
  }

  /** The transfer pairs are exactly the pairs of nodes of one station,
      lower node first. */
  lemma TransferPairsHas(a: nat, b: nat)
    ensures (a, b) in TransferPairs() <==>
              a < b < |StationLineLut()| && StationLineLut()[a].0 == StationLineLut()[b].0
  {
    var groups := TransferGroups();
    if (a, b) in TransferPairs() {
      AllCombinationsHas(groups, (a, b));
      var g, i, j :| 0 <= g < |groups| && 0 <= i < j < |groups[g]| && (a, b) == (groups[g][i], groups[g][j]);
      GroupPairSameStation(InterchangeStations[g], i, j);
    }
    if a < b < |StationLineLut()| && StationLineLut()[a].0 == StationLineLut()[b].0 {
      var s := StationLineLut()[a].0;
      SharedStationIsInterchange(a, b);
      StationNodesComplete();
      PositionsInGroup(s, a, b);
      var g :| 0 <= g < |InterchangeStations| && InterchangeStations[g] == s;
      assert groups[g] == StationNodes(s);
      AllCombinationsHas(groups, (a, b));
    }
  }

  /** The transfer pairs as the source prints them. */
  lemma TransferPairsPrinted()
    ensures TransferPairs() ==
      [(0, 1), (2, 3), (4, 5), (4, 6), (5, 6), (8, 9), (11, 12), (11, 13), (12, 13), (14, 15), (16, 17), (18, 19)]
  {
    TransferGroupsPrinted();
    GroupsCombinations(TransferGroups());
  }

  lemma GroupsCombinations(g: seq<seq<nat>>)
    requires g == [[0, 1], [2, 3], [4, 5, 6], [8, 9], [11, 12, 13], [14, 15], [16, 17], [18, 19]]
    ensures AllCombinations(g) ==
      [(0, 1), (2, 3), (4, 5), (4, 6), (5, 6), (8, 9), (11, 12), (11, 13), (12, 13), (14, 15), (16, 17), (18, 19)]
  {
    assert g == g[..4] + g[4..];
    AllCombinationsAppend(g[..4], g[4..]);
    LowGroupsCombinations(g[..4]);
    HighGroupsCombinations(g[4..]);
  }

  lemma LowGroupsCombinations(g: seq<seq<nat>>)
    requires g == [[0, 1], [2, 3], [4, 5, 6], [8, 9]]
    ensures AllCombinations(g) == [(0, 1), (2, 3), (4, 5), (4, 6), (5, 6), (8, 9)]
  {
    AllCombinationsFour(g[0], g[1], g[2], g[3]);
    CombinationsSmall<nat>(0, 1, 0);
    CombinationsSmall<nat>(2, 3, 0);
    CombinationsSmall<nat>(4, 5, 6);
    CombinationsSmall<nat>(8, 9, 0);
  }

  lemma HighGroupsCombinations(g: seq<seq<nat>>)
    requires g == [[11, 12, 13], [14, 15], [16, 17], [18, 19]]
    ensures AllCombinations(g) == [(11, 12), (11, 13), (12, 13), (14, 15), (16, 17), (18, 19)]
  {
    AllCombinationsFour(g[0], g[1], g[2], g[3]);
    CombinationsSmall<nat>(11, 12, 13);
    CombinationsSmall<nat>(14, 15, 0);
    CombinationsSmall<nat>(16, 17, 0);
    CombinationsSmall<nat>(18, 19, 0);
  }

  // ---------------------------------------------------------------------
  // Line edges

  /** `network_as_station_line_idx.values()`: each line's nodes in route
      order, lines in the order of `network`. */
  function LineRows(): (r: seq<seq<nat>>)
    ensures |r| == |NetworkOrder|
    ensures forall i :: 0 <= i < |r| ==> r[i] == LineNodes(NetworkOrder[i])
  {
    var rows := NetworkAsStationLineIdx();
    seq(|rows|, i requires 0 <= i < |rows| => rows[i].1)
  }

  lemma LineRowsPrinted()
    ensures LineRows() == [[10, 0, 11, 16], [19, 12, 6], [1, 4, 20], [18, 17, 8, 2], [7, 5, 14, 9], [13, 15, 3]]
  {
    var rows := LineRows();
    forall i | 0 <= i < |rows|
      ensures rows[i] == RouteNodes(NetworkOrder[i])
    {
      LineNodesAre(NetworkOrder[i]);
    }
    RowsAreRouteNodes(rows);
  }

  lemma RowsAreRouteNodes(rows: seq<seq<nat>>)
    requires |rows| == |NetworkOrder|
    requires forall i :: 0 <= i < |rows| ==> rows[i] == RouteNodes(NetworkOrder[i])
    ensures rows == [[10, 0, 11, 16], [19, 12, 6], [1, 4, 20], [18, 17, 8, 2], [7, 5, 14, 9], [13, 15, 3]]
  {
    var expected: seq<seq<nat>> := [[10, 0, 11, 16], [19, 12, 6], [1, 4, 20], [18, 17, 8, 2], [7, 5, 14, 9], [13, 15, 3]];
    assert forall i :: 0 <= i < |rows| ==> rows[i] == expected[i];
    SameRows(rows, expected);
  }

  /** Node `b` follows node `a` on some line: the stations are
      neighbours on the line's route and both nodes belong to that line. */
  predicate Neighbours(a: nat, b: nat) {
    var lut := StationLineLut();
    && a < |lut| && b < |lut|
    && exists l: Line, i: nat :: i + 1 < |Route(l)| && lut[a] == (Route(l)[i], l) && lut[b] == (Route(l)[i + 1], l)
  }

  /** The lines of `network`, every line once. */
  lemma NetworkOrderHas(l: Line)
    ensures l in NetworkOrder
  {
    assert NetworkOrder == [Central, Victoria, Jubilee, Northern, Piccadilly, Waterloo];
  }

  /** A membership has one node. */
  lemma LutInjective(x: nat, y: nat)
    requires x < |StationLineLut()| && y < |StationLineLut()| && StationLineLut()[x] == StationLineLut()[y]
    ensures x == y
  {
    if x < y {
      LutOrdered(x, y);
    } else if y < x {
      LutOrdered(y, x);
    }
  }

  /** `consec_edge_index`, before it is made two-way. */
  function ConsecPairs(): seq<(nat, nat)> {
    AllPairwise(LineRows())
  }

  /** A line edge joins neighbours on a line, in route direction. */
  lemma ConsecPairsSound(a: nat, b: nat)
    requires (a, b) in ConsecPairs()
    ensures Neighbours(a, b)
  {
    var rows := LineRows();
    AllPairwiseHas(rows, (a, b));
    var g, i :| 0 <= g < |rows| && 0 <= i && i + 1 < |rows[g]| && (a, b) == (rows[g][i], rows[g][i + 1]);
    var l := NetworkOrder[g];
    assert rows[g] == LineNodes(l);
    assert StationLineLut()[a] == (Route(l)[i], l);
    assert StationLineLut()[b] == (Route(l)[i + 1], l);
  }

  /** Every pair of neighbours on a line, in route direction, is a line
      edge. */
  lemma ConsecPairsComplete(a: nat, b: nat)
    requires Neighbours(a, b)
    ensures (a, b) in ConsecPairs()
  {
    var lut := StationLineLut();
    var l: Line, i: nat :| i + 1 < |Route(l)| && lut[a] == (Route(l)[i], l) && lut[b] == (Route(l)[i + 1], l);
    NetworkOrderHas(l);
    var g :| 0 <= g < |NetworkOrder| && NetworkOrder[g] == l;
    var rows := LineRows();
    var nodes := LineNodes(l);
    assert rows[g] == nodes;
    LutInjective(a, nodes[i]);
    LutInjective(b, nodes[i + 1]);
    AllPairwiseHas(rows, (a, b));
  }

  /** The line edges are exactly the neighbour pairs in route direction. */
  lemma ConsecPairsHas(a: nat, b: nat)
    ensures (a, b) in ConsecPairs() <==> Neighbours(a, b)
  {
    if (a, b) in ConsecPairs() {
      ConsecPairsSound(a, b);
    }
    if Neighbours(a, b) {
      ConsecPairsComplete(a, b);
    }
  }

  lemma RowsPairwise(rows: seq<seq<nat>>)
    requires rows == [[10, 0, 11, 16], [19, 12, 6], [1, 4, 20], [18, 17, 8, 2], [7, 5, 14, 9], [13, 15, 3]]
    ensures AllPairwise(rows) ==
      [(10, 0), (0, 11), (11, 16), (19, 12), (12, 6), (1, 4), (4, 20), (18, 17), (17, 8), (8, 2),
       (7, 5), (5, 14), (14, 9), (13, 15), (15, 3)]
  {
    AllPairwiseSix(rows[0], rows[1], rows[2], rows[3], rows[4], rows[5]);
    PairwiseSmall<nat>(10, 0, 11, 16);
    PairwiseSmall<nat>(19, 12, 6, 0);
    PairwiseSmall<nat>(1, 4, 20, 0);
    PairwiseSmall<nat>(18, 17, 8, 2);
    PairwiseSmall<nat>(7, 5, 14, 9);
    PairwiseSmall<nat>(13, 15, 3, 0);
  }

  /** No route calls at one station twice in a row, so a line edge never
      joins two nodes of one station. */
  lemma NeighboursDiffer(a: nat, b: nat)
    requires Neighbours(a, b)
    ensures StationLineLut()[a].0 != StationLineLut()[b].0
  {
    var lut := StationLineLut();
    var l: Line, i: nat :| i + 1 < |Route(l)| && lut[a] == (Route(l)[i], l) && lut[b] == (Route(l)[i + 1], l);
    match l
    case Central =>
    case Victoria =>
    case Jubilee =>
    case Northern =>
    case Piccadilly =>
    case Waterloo =>
  }

  // ---------------------------------------------------------------------
  // The edge index and weights

  /** `edge_index`: the two-way transfer edges, then the two-way line
      edges. */
  function EdgeIndex(): seq<(nat, nat)> {
    Bidir(TransferPairs()) + Bidir(ConsecPairs())
  }

  /** `edge_weights`: 1 for each transfer edge, 5 for each line edge. */
  function EdgeWeights(): seq<nat> {
    Weights(Bidir(TransferPairs()), 1) + Weights(Bidir(ConsecPairs()), 5)
  }

  /** Two nodes are joined exactly when they are different nodes of one
      station, or neighbours on a line in either direction; so the graph is
      undirected, every edge being there both ways. */
  lemma EdgeIndexHas(a: nat, b: nat)
    ensures (a, b) in EdgeIndex() <==>
              || (a != b && a < |StationLineLut()| && b < |StationLineLut()| && StationLineLut()[a].0 == StationLineLut()[b].0)
              || Neighbours(a, b) || Neighbours(b, a)
    ensures (a, b) in EdgeIndex() <==> (b, a) in EdgeIndex()
  {
    BidirSymmetric(TransferPairs(), (a, b));
    BidirSymmetric(ConsecPairs(), (a, b));
    BidirHas(TransferPairs(), (a, b));
    BidirHas(ConsecPairs(), (a, b));
    TransferPairsHas(a, b);
    TransferPairsHas(b, a);
    ConsecPairsHas(a, b);
    ConsecPairsHas(b, a);
  }

  /** One edge of the index: its nodes exist, and it weighs 1 exactly when
      it joins two nodes of one station and 5 exactly when it joins
      neighbours on a line. */
  lemma EdgeWeighted(k: nat)
    requires k < |EdgeIndex()|
    ensures |EdgeWeights()| == |EdgeIndex()|
    ensures var (a, b) := EdgeIndex()[k];
            && a < |StationLineLut()| && b < |StationLineLut()|
            && (EdgeWeights()[k] == 1 <==> StationLineLut()[a].0 == StationLineLut()[b].0)
            && (EdgeWeights()[k] == 5 <==> Neighbours(a, b) || Neighbours(b, a))
  {
    var transfers := Bidir(TransferPairs());
    var lines := Bidir(ConsecPairs());
    var (a, b) := EdgeIndex()[k];
    if k < |transfers| {
      assert (a, b) in transfers;
      assert EdgeWeights()[k] == 1;
      BidirHas(TransferPairs(), (a, b));
      TransferPairsHas(a, b);
      TransferPairsHas(b, a);
      if Neighbours(a, b) {
        NeighboursDiffer(a, b);
      }
      if Neighbours(b, a) {
        NeighboursDiffer(b, a);
      }
    } else {
      assert (a, b) == lines[k - |transfers|];
      assert EdgeWeights()[k] == 5;
      BidirHas(ConsecPairs(), (a, b));
      ConsecPairsHas(a, b);
      ConsecPairsHas(b, a);
      if Neighbours(a, b) {
        NeighboursDiffer(a, b);
      } else {
        NeighboursDiffer(b, a);
      }
    }
  }

  lemma TransfersBothWays(es: seq<(nat, nat)>)
    requires es == [(0, 1), (2, 3), (4, 5), (4, 6), (5, 6), (8, 9), (11, 12), (11, 13), (12, 13), (14, 15), (16, 17), (18, 19)]
    ensures Bidir(es) ==
      [(0, 1), (2, 3), (4, 5), (4, 6), (5, 6), (8, 9), (11, 12), (11, 13), (12, 13), (14, 15), (16, 17), (18, 19),
       (19, 18), (17, 16), (15, 14), (13, 12), (13, 11), (12, 11), (9, 8), (6, 5), (6, 4), (5, 4), (3, 2), (1, 0)]
  {
    TransfersRotated(es);
  }

  lemma TransfersRotated(es: seq<(nat, nat)>)
    requires es == [(0, 1), (2, 3), (4, 5), (4, 6), (5, 6), (8, 9), (11, 12), (11, 13), (12, 13), (14, 15), (16, 17), (18, 19)]
    ensures Rotated(es) == [(19, 18), (17, 16), (15, 14), (13, 12), (13, 11), (12, 11), (9, 8), (6, 5), (6, 4), (5, 4), (3, 2), (1, 0)]
  {
    var back: seq<(nat, nat)> := [(19, 18), (17, 16), (15, 14), (13, 12), (13, 11), (12, 11), (9, 8), (6, 5), (6, 4), (5, 4), (3, 2), (1, 0)];
    assert forall j :: 0 <= j < |es| ==> back[j] == Swap(es[|es| - 1 - j]);
    SameRows(Rotated(es), back);
  }


  lemma LinesBothWays(es: seq<(nat, nat)>)
    requires es ==
      [(10, 0), (0, 11), (11, 16), (19, 12), (12, 6), (1, 4), (4, 20), (18, 17), (17, 8), (8, 2),
       (7, 5), (5, 14), (14, 9), (13, 15), (15, 3)]
    ensures Bidir(es) ==
      [(10, 0), (0, 11), (11, 16), (19, 12), (12, 6), (1, 4), (4, 20), (18, 17), (17, 8), (8, 2),
       (7, 5), (5, 14), (14, 9), (13, 15), (15, 3),
       (3, 15), (15, 13), (9, 14), (14, 5), (5, 7), (2, 8), (8, 17), (17, 18), (20, 4), (4, 1),
       (6, 12), (12, 19), (16, 11), (11, 0), (0, 10)]
  {
    LinesRotated(es);
  }

  lemma LinesRotated(es: seq<(nat, nat)>)
    requires es == [(10, 0), (0, 11), (11, 16), (19, 12), (12, 6), (1, 4), (4, 20), (18, 17), (17, 8), (8, 2),
       (7, 5), (5, 14), (14, 9), (13, 15), (15, 3)]
    ensures Rotated(es) == [(3, 15), (15, 13), (9, 14), (14, 5), (5, 7), (2, 8), (8, 17), (17, 18), (20, 4), (4, 1),
       (6, 12), (12, 19), (16, 11), (11, 0), (0, 10)]
  {
    var back: seq<(nat, nat)> := [(3, 15), (15, 13), (9, 14), (14, 5), (5, 7), (2, 8), (8, 17), (17, 18), (20, 4), (4, 1),
       (6, 12), (12, 19), (16, 11), (11, 0), (0, 10)];
    assert forall j :: 0 <= j < |es| ==> back[j] == Swap(es[|es| - 1 - j]);
    SameRows(Rotated(es), back);
  }


  /** `edge_index` and `edge_weights` as the source prints them: the 12
      transfer edges one way then back, the 15 line edges one way then back,
      and 24 ones followed by 30 fives. */
  lemma EdgeIndexPrinted()
    ensures EdgeIndex() ==
      [(0, 1), (2, 3), (4, 5), (4, 6), (5, 6), (8, 9), (11, 12), (11, 13), (12, 13), (14, 15), (16, 17), (18, 19),
       (19, 18), (17, 16), (15, 14), (13, 12), (13, 11), (12, 11), (9, 8), (6, 5), (6, 4), (5, 4), (3, 2), (1, 0)] +
      [(10, 0), (0, 11), (11, 16), (19, 12), (12, 6), (1, 4), (4, 20), (18, 17), (17, 8), (8, 2),
       (7, 5), (5, 14), (14, 9), (13, 15), (15, 3),
       (3, 15), (15, 13), (9, 14), (14, 5), (5, 7), (2, 8), (8, 17), (17, 18), (20, 4), (4, 1),
       (6, 12), (12, 19), (16, 11), (11, 0), (0, 10)]
    ensures |EdgeWeights()| == |EdgeIndex()| == 54
    ensures forall k :: 0 <= k < 54 ==> EdgeWeights()[k] == if k < 24 then 1 else 5
  {
    TransferPairsPrinted();
    TransfersBothWays(TransferPairs());
    LineRowsPrinted();
    RowsPairwise(LineRows());
    LinesBothWays(ConsecPairs());
  }
}
