/** The line tables of the map crate: which line ids carry trains
    (map/src/data/api.rs), the `LINE_INFOS` table with its colour lookup,
    type filters and CSS text (map/src/data/line_definitions.rs), and the
    second colour table of map/src/data/map_helpers.rs. */
module TflLines {
  import opened Common
  import opened SimVehicle
  import opened Text

  /** The ids `get_vehicle_type_for_line` answers Train for. */
  const TrainLineIds: set<string> := {
    "dlr", "elizabeth", "london-cable-car",
    "waterloo-city", "victoria", "piccadilly", "northern", "metropolitan",
    "jubilee", "hammersmith-city", "district", "circle", "central", "bakerloo",
    "thameslink", "tram",
    "liberty", "lioness", "mildmay", "suffragette", "weaver", "windrush"}

  /** The same ids listed one by one, to count them. */
  const TrainLineList: seq<string> := [
    "dlr", "elizabeth", "london-cable-car",
    "waterloo-city", "victoria", "piccadilly", "northern", "metropolitan",
    "jubilee", "hammersmith-city", "district", "circle", "central", "bakerloo",
    "thameslink", "tram",
    "liberty", "lioness", "mildmay", "suffragette", "weaver", "windrush"]

  /** `get_vehicle_type_for_line`: the match arms in source order; any
      other id, bus route numbers and the empty string included, is a bus. */
  function VehicleTypeForLine(lineId: string): (t: VehicleType)
    ensures t == Train <==> lineId in TrainLineIds
  {
    if lineId == "dlr" then Train
    else if lineId == "elizabeth" then Train
    else if lineId == "london-cable-car" then Train
    else if lineId == "waterloo-city" || lineId == "victoria" || lineId == "piccadilly"
         || lineId == "northern" || lineId == "metropolitan" || lineId == "jubilee"
         || lineId == "hammersmith-city" || lineId == "district" || lineId == "circle"
         || lineId == "central" || lineId == "bakerloo" then Train
    else if lineId == "thameslink" || lineId == "tram" then Train
    else if lineId == "liberty" || lineId == "lioness" || lineId == "mildmay"
         || lineId == "suffragette" || lineId == "weaver" || lineId == "windrush" then Train
    else Bus
  }

  /** No id is listed twice in a table. */
  predicate Distinct(ids: seq<string>) {
    forall i, j :: 0 <= i < j < |ids| ==> ids[i] != ids[j]
  }

  // Proof scaffolding, down to `TrainKeysRows9`: comparing integer
  // fingerprints instead of strings keeps the distinctness proofs over the
  // literal tables cheap.

  /** A cheap fingerprint of an id: its length, first and last character
      packed into one number. Ids with different fingerprints differ. */
  function Key(s: string): int {
    if |s| == 0 then 0 else |s| * 0x1_0000_0000 + s[0] as int * 0x1_0000 + s[|s| - 1] as int
  }

  function Keys(ids: seq<string>): (ks: seq<int>)
    ensures |ks| == |ids| && forall i :: 0 <= i < |ids| ==> ks[i] == Key(ids[i])
  {
    seq(|ids|, i requires 0 <= i < |ids| => Key(ids[i]))
  }

  predicate DistinctInts(xs: seq<int>) {
    forall i, j :: 0 <= i < j < |xs| ==> xs[i] != xs[j]
  }

  /** Ids whose fingerprints are pairwise different are pairwise
      different. */
  lemma DistinctByKeys(ids: seq<string>)
    requires DistinctInts(Keys(ids))
    ensures Distinct(ids)
  {
    forall i, j | 0 <= i < j < |ids|
      ensures ids[i] != ids[j]
    {
      assert Keys(ids)[i] != Keys(ids)[j];
    }
  }

  /** The fingerprints of the Train ids. */
  const TrainIdKeys: seq<int> := [
      12891455602, 38661324904, 68726554738, 55842373753,
      34367471713, 42957013113, 34366947438, 51546751086,
      30071717989, 68726292601, 34366292084, 25776291941,
      30071259244, 34366161007, 42957275243, 17187471469,
      30071849081, 30071849075, 30071914617, 47252176997,
      25777602674, 34367537256]

  lemma TrainKeys()
    ensures Keys(TrainLineList) == TrainIdKeys
  {
    TrainKeysLow();
    TrainKeysHigh();
  }

  lemma TrainKeysLow()
    ensures |TrainLineList| == |TrainIdKeys| == 22
    ensures forall i :: 0 <= i < 11 ==> Key(TrainLineList[i]) == TrainIdKeys[i]
  {
  }

  lemma TrainKeysHigh()
    ensures forall i :: 11 <= i < 22 ==> Key(TrainLineList[i]) == TrainIdKeys[i]
  {
  }

  lemma TrainKeysDistinct()
    ensures DistinctInts(TrainIdKeys)
  {
    TrainKeysRows0();
    TrainKeysRows4();
    TrainKeysRows9();
  }

  lemma TrainKeysRows0()
    ensures |TrainIdKeys| == 22
    ensures forall i, j :: 0 <= i < 4 && i < j < 22 ==> TrainIdKeys[i] != TrainIdKeys[j]
  {
  }

  lemma TrainKeysRows4()
    ensures |TrainIdKeys| == 22
    ensures forall i, j :: 4 <= i < 9 && i < j < 22 ==> TrainIdKeys[i] != TrainIdKeys[j]
  {
  }

  lemma TrainKeysRows9()
    ensures |TrainIdKeys| == 22
    ensures forall i, j :: 9 <= i < 22 && i < j < 22 ==> TrainIdKeys[i] != TrainIdKeys[j]
  {
  }

  /** Exactly 22 ids map to Train: an id maps to Train exactly when it is
      in a list of 22 ids, none listed twice. */
  lemma TrainIdsCount()
    ensures forall x :: VehicleTypeForLine(x) == Train <==> x in TrainLineList
    ensures |TrainLineList| == 22 && Distinct(TrainLineList)
  {
    TrainListed();
    TrainKeys();
    TrainKeysDistinct();
    DistinctByKeys(TrainLineList);
  }

  lemma TrainListed()
    ensures forall x :: x in TrainLineIds <==> x in TrainLineList
  {
  }

  /** The id "cable-car" used by the line table maps to Bus. */
  lemma CableCarIsBus()
    ensures VehicleTypeForLine("cable-car") == Bus
  {
  }

  /** The empty id and a bus route number map to Bus. */
  lemma OtherIdsAreBuses()
    ensures VehicleTypeForLine("") == Bus && VehicleTypeForLine("88") == Bus
  {
  }

  datatype LineType = Underground | Overground | Dlr | ElizabethLine | Tram | CableCar | Thameslink

  datatype LineInfo = LineInfo(id: string, name: string, color: string, lineType: LineType)

  /** `LINE_INFOS`, in table order. */
  const LineInfos: seq<LineInfo> := [
    LineInfo("bakerloo", "Bakerloo", "#B36305", Underground),
    LineInfo("central", "Central", "#E32017", Underground),
    LineInfo("circle", "Circle", "#FFD300", Underground),
    LineInfo("district", "District", "#00782A", Underground),
    LineInfo("hammersmith-city", "Hammersmith & City", "#F3A9BB", Underground),
    LineInfo("jubilee", "Jubilee", "#A0A5A9", Underground),
    LineInfo("metropolitan", "Metropolitan", "#9B0056", Underground),
    LineInfo("northern", "Northern", "#000000", Underground),
    LineInfo("piccadilly", "Piccadilly", "#003688", Underground),
    LineInfo("victoria", "Victoria", "#0098D4", Underground),
    LineInfo("waterloo-city", "Waterloo & City", "#95CDBA", Underground),
    LineInfo("dlr", "DLR", "#00A4A7", Dlr),
    LineInfo("elizabeth", "Elizabeth Line", "#6950A1", ElizabethLine),
    LineInfo("tram", "Trams", "#84B817", Tram),
    LineInfo("cable-car", "Cable Car", "#E21836", CableCar),
    LineInfo("thameslink", "Thameslink", "#C1007C", Thameslink),
    LineInfo("liberty", "Liberty Line", "#4C6366", Overground),
    LineInfo("lioness", "Lioness Line", "#FFA32B", Overground),
    LineInfo("mildmay", "Mildmay Line", "#088ECC", Overground),
    LineInfo("suffragette", "Suffragette Line", "#59C274", Overground),
    LineInfo("weaver", "Weaver Line", "#B43983", Overground),
    LineInfo("windrush", "Windrush Line", "#FF2E24", Overground)]

  function Ids(infos: seq<LineInfo>): (ids: seq<string>)
    ensures |ids| == |infos| && forall i :: 0 <= i < |infos| ==> ids[i] == infos[i].id
  {
    seq(|infos|, i requires 0 <= i < |infos| => infos[i].id)
  }

  /** The ids of `LINE_INFOS`, in table order. */
  const LineIds: seq<string> := [
    "bakerloo", "central", "circle", "district", "hammersmith-city", "jubilee",
    "metropolitan", "northern", "piccadilly", "victoria", "waterloo-city",
    "dlr", "elizabeth", "tram", "cable-car", "thameslink",
    "liberty", "lioness", "mildmay", "suffragette", "weaver", "windrush"]

  lemma TableIds()
    ensures |LineInfos| == 22 && Ids(LineInfos) == LineIds
  {
  }

  /** The table has 22 entries with pairwise distinct ids. */
  lemma LineInfosDistinct()
    ensures |LineInfos| == 22 && Distinct(Ids(LineInfos))
  {
    TableIds();
    LineIdsDistinct();
  }

  /** The fingerprints of the table's ids. */
  const LineIdKeys: seq<int> := [
      34366161007, 30071259244, 25776291941, 34366292084,
      68726292601, 30071717989, 51546751086, 34366947438,
      42957013113, 34367471713, 55842373753, 12891455602,
      38661324904, 17187471469, 38661193842, 42957275243,
      30071849081, 30071849075, 30071914617, 47252176997,
      25777602674, 34367537256]

  lemma LineKeys()
    ensures Keys(LineIds) == LineIdKeys
  {
    LineKeysLow();
    LineKeysHigh();
  }

  lemma LineKeysLow()
    ensures |LineIds| == |LineIdKeys| == 22
    ensures forall i :: 0 <= i < 11 ==> Key(LineIds[i]) == LineIdKeys[i]
  {
  }

  lemma LineKeysHigh()
    ensures forall i :: 11 <= i < 22 ==> Key(LineIds[i]) == LineIdKeys[i]
  {
  }

  lemma LineKeysDistinct()
    ensures DistinctInts(LineIdKeys)
  {
    LineKeysRows0();
    LineKeysRows4();
    LineKeysRows9();
  }

  lemma LineKeysRows0()
    ensures |LineIdKeys| == 22
    ensures forall i, j :: 0 <= i < 4 && i < j < 22 ==> LineIdKeys[i] != LineIdKeys[j]
  {
  }

  lemma LineKeysRows4()
    ensures |LineIdKeys| == 22
    ensures forall i, j :: 4 <= i < 9 && i < j < 22 ==> LineIdKeys[i] != LineIdKeys[j]
  {
  }

  lemma LineKeysRows9()
    ensures |LineIdKeys| == 22
    ensures forall i, j :: 9 <= i < 22 && i < j < 22 ==> LineIdKeys[i] != LineIdKeys[j]
  {
  }

  lemma LineIdsDistinct()
    ensures Distinct(LineIds)
  {
    LineKeys();
    LineKeysDistinct();
    DistinctByKeys(LineIds);
  }

  /** Every line of the table carries trains by `get_vehicle_type_for_line`,
      except the cable car, whose table id is not the id that function
      knows. */
  lemma TableTypesAgree()
    ensures forall i :: 0 <= i < |LineInfos| && LineInfos[i].id != "cable-car" ==>
              VehicleTypeForLine(LineInfos[i].id) == Train
  {
    UndergroundTypesAgree();
    OtherTypesAgree();
  }

  lemma UndergroundTypesAgree()
    ensures forall i :: 0 <= i < 11 ==> VehicleTypeForLine(LineInfos[i].id) == Train
  {
  }

  lemma OtherTypesAgree()
    ensures |LineInfos| == 22
    ensures forall i :: 11 <= i < 22 && LineInfos[i].id != "cable-car" ==>
              VehicleTypeForLine(LineInfos[i].id) == Train
  {
  }

  /** Index of the first entry whose id is `id` (`Iterator::find`). */
  function FindLine(infos: seq<LineInfo>, id: string): (r: Option<nat>)
    ensures r.Some? ==> r.value < |infos| && infos[r.value].id == id
    ensures r.Some? ==> forall j :: 0 <= j < r.value ==> infos[j].id != id
    ensures r.None? <==> forall j :: 0 <= j < |infos| ==> infos[j].id != id
  {
    if |infos| == 0 then None
    else if infos[0].id == id then Some(0)
    else match FindLine(infos[1..], id)
      case None => None
      case Some(k) => Some(k + 1)
  }

  /** `get_line_color` of line_definitions.rs: the colour of the entry with
      that id, or "#777777" for an id the table lacks. */
  function GetLineColor(id: string): (c: string)
    ensures forall i :: 0 <= i < |LineInfos| && LineInfos[i].id == id && (forall j :: 0 <= j < i ==> LineInfos[j].id != id) ==>
              c == LineInfos[i].color
    ensures (forall i :: 0 <= i < |LineInfos| ==> LineInfos[i].id != id) ==> c == "#777777"
  {
    match FindLine(LineInfos, id)
    case None => "#777777"
    case Some(k) => LineInfos[k].color
  }

  /** An entry whose id no earlier entry has is the one `find` stops at. */
  lemma {:induction false} FindFirst(infos: seq<LineInfo>, i: nat)
    requires i < |infos|
    requires forall j :: 0 <= j < i ==> infos[j].id != infos[i].id
    ensures FindLine(infos, infos[i].id) == Some(i)
    decreases i
  {
    if i > 0 {
      FindFirst(infos[1..], i - 1);
    }
  }

  /** An id whose fingerprint is not among the table's is not in it. */
  lemma NotListed(ids: seq<string>, s: string)
    requires Key(s) !in Keys(ids)
    ensures forall i :: 0 <= i < |ids| ==> ids[i] != s
  {
    forall i | 0 <= i < |ids|
      ensures ids[i] != s
    {
      assert Keys(ids)[i] == Key(ids[i]);
    }
  }

  /** Since the ids are distinct, every entry's own id finds its colour. */
  lemma ColourOfEntry(i: nat)
    requires i < |LineInfos|
    ensures GetLineColor(LineInfos[i].id) == LineInfos[i].color
  {
    TableIds();
    LineIdsDistinct();
    assert forall j :: 0 <= j < |LineInfos| ==> LineInfos[j].id == Ids(LineInfos)[j] == LineIds[j];
    FindFirst(LineInfos, i);
  }

  predicate IsUnderground(info: LineInfo) {
    info.lineType == Underground
  }

  predicate IsOverground(info: LineInfo) {
    info.lineType == Overground
  }

  predicate IsOtherRail(info: LineInfo) {
    !(info.lineType == Underground || info.lineType == Overground)
  }

  /** `get_underground_lines`, `get_overground_lines` and
      `get_other_rail_lines`: the table filtered by line type, in order. */
  function UndergroundLines(infos: seq<LineInfo>): (r: seq<LineInfo>)
    ensures forall i :: 0 <= i < |r| ==> IsUnderground(r[i]) && r[i] in infos
  {
    FilterHas(infos, IsUnderground);
    Filter(infos, IsUnderground)
  }

  function OvergroundLines(infos: seq<LineInfo>): (r: seq<LineInfo>)
    ensures forall i :: 0 <= i < |r| ==> IsOverground(r[i]) && r[i] in infos
  {
    FilterHas(infos, IsOverground);
    Filter(infos, IsOverground)
  }

  function OtherRailLines(infos: seq<LineInfo>): (r: seq<LineInfo>)
    ensures forall i :: 0 <= i < |r| ==> IsOtherRail(r[i]) && r[i] in infos
  {
    FilterHas(infos, IsOtherRail);
    Filter(infos, IsOtherRail)
  }

  /** The line types of the table come in three blocks: Underground,
      then the other rail types, then Overground. */
  lemma UndergroundFirst()
    ensures forall i :: 0 <= i < |LineInfos| ==> (IsUnderground(LineInfos[i]) <==> 0 <= i < 11)
  {
  }

  lemma OtherRailMiddle()
    ensures forall i :: 0 <= i < |LineInfos| ==> (IsOtherRail(LineInfos[i]) <==> 11 <= i < 16)
  {
  }

  lemma OvergroundLast()
    ensures forall i :: 0 <= i < |LineInfos| ==> (IsOverground(LineInfos[i]) <==> 16 <= i < 22)
  {
  }

  /** The three filters partition the table into consecutive blocks, each
      in table order: the 11 Underground lines, then the 5 other rail
      lines, then the 6 Overground lines. */
  lemma FiltersPartition()
    ensures UndergroundLines(LineInfos) == LineInfos[..11]
    ensures OtherRailLines(LineInfos) == LineInfos[11..16]
    ensures OvergroundLines(LineInfos) == LineInfos[16..]
    ensures UndergroundLines(LineInfos) + OtherRailLines(LineInfos) + OvergroundLines(LineInfos) == LineInfos
  {
    UndergroundBlock();
    OtherRailBlock();
    OvergroundBlock();
    ThreeSlices(LineInfos, 11, 16);
  }

  lemma UndergroundBlock()
    ensures UndergroundLines(LineInfos) == LineInfos[..11]
  {
    UndergroundFirst();
    BlockFilter(LineInfos, IsUnderground, 0, 11);
  }

  lemma OtherRailBlock()
    ensures OtherRailLines(LineInfos) == LineInfos[11..16]
  {
    OtherRailMiddle();
    BlockFilter(LineInfos, IsOtherRail, 11, 16);
  }

  lemma OvergroundBlock()
    ensures OvergroundLines(LineInfos) == LineInfos[16..]
  {
    OvergroundLast();
    BlockFilter(LineInfos, IsOverground, 16, 22);
  }

  /** The custom-property line for one entry, without its line break. */
  function VarLine(info: LineInfo): string {
    "  --" + info.id + ": " + info.color + ";"
  }

  /** The class rule for one entry, without its line break. */
  function ClassLine(info: LineInfo): string {
    ".color-line." + info.id + " { background-color: var(--" + info.id + "); }"
  }

  /** The first loop of `generate_line_css`: one variable line per entry. */
  function RootVars(infos: seq<LineInfo>): string {
    if |infos| == 0 then ""
    else RootVars(infos[..|infos| - 1]) + VarLine(infos[|infos| - 1]) + "\n"
  }

  /** The second loop: one class rule per entry. */
  function ClassRules(infos: seq<LineInfo>): string {
    if |infos| == 0 then ""
    else ClassRules(infos[..|infos| - 1]) + ClassLine(infos[|infos| - 1]) + "\n"
  }

  /** `generate_line_css` over a table. */
  function GenerateLineCss(infos: seq<LineInfo>): string {
    ":root {\n" + RootVars(infos) + "}\n\n" + ClassRules(infos)
  }

  /** The lines of the stylesheet: the opening `:root {`, a variable per
      entry in table order, the closing brace and a blank line, then a
      class rule per entry in table order. */
  function CssLines(infos: seq<LineInfo>): seq<string> {
    [":root {"] + seq(|infos|, i requires 0 <= i < |infos| => VarLine(infos[i]))
    + ["}", ""] + seq(|infos|, i requires 0 <= i < |infos| => ClassLine(infos[i]))
  }

  /** An entry whose id and colour hold no line break and do not end a line
      with a carriage return. */
  predicate PlainEntry(info: LineInfo) {
    '\n' !in info.id && '\n' !in info.color
  }

  lemma {:induction false} UnlinesAppend(a: seq<string>, b: seq<string>)
    ensures Unlines(a + b) == Unlines(a) + Unlines(b)
    decreases |a|
  {
    if |a| == 0 {
      assert a + b == b;
    } else {
      assert (a + b)[1..] == a[1..] + b;
      UnlinesAppend(a[1..], b);
    }
  }

  lemma {:induction false} RootVarsLines(infos: seq<LineInfo>)
    ensures RootVars(infos) == Unlines(seq(|infos|, i requires 0 <= i < |infos| => VarLine(infos[i])))
    decreases |infos|
  {
    var ls := seq(|infos|, i requires 0 <= i < |infos| => VarLine(infos[i]));
    if |infos| > 0 {
      var init := infos[..|infos| - 1];
      RootVarsLines(init);
      var ls' := seq(|init|, i requires 0 <= i < |init| => VarLine(init[i]));
      assert ls == ls' + [VarLine(infos[|infos| - 1])];
      UnlinesAppend(ls', [VarLine(infos[|infos| - 1])]);
    }
  }

  lemma {:induction false} ClassRulesLines(infos: seq<LineInfo>)
    ensures ClassRules(infos) == Unlines(seq(|infos|, i requires 0 <= i < |infos| => ClassLine(infos[i])))
    decreases |infos|
  {
    var ls := seq(|infos|, i requires 0 <= i < |infos| => ClassLine(infos[i]));
    if |infos| > 0 {
      var init := infos[..|infos| - 1];
      ClassRulesLines(init);
      var ls' := seq(|init|, i requires 0 <= i < |init| => ClassLine(init[i]));
      assert ls == ls' + [ClassLine(infos[|infos| - 1])];
      UnlinesAppend(ls', [ClassLine(infos[|infos| - 1])]);
    }
  }

  /** The stylesheet is its lines, each followed by a line break. */
  lemma CssAsLines(infos: seq<LineInfo>)
    ensures GenerateLineCss(infos) == Unlines(CssLines(infos))
  {
    var vars := seq(|infos|, i requires 0 <= i < |infos| => VarLine(infos[i]));
    var rules := seq(|infos|, i requires 0 <= i < |infos| => ClassLine(infos[i]));
    RootVarsLines(infos);
    ClassRulesLines(infos);
    UnlinesAppend([":root {"], vars);
    UnlinesAppend([":root {"] + vars, ["}", ""]);
    UnlinesAppend([":root {"] + vars + ["}", ""], rules);
    assert Unlines(["}", ""]) == "}\n\n";
    assert Unlines([":root {"]) == ":root {\n";
  }

  /** No line of the stylesheet holds a line break or ends with a carriage
      return, provided no id or colour holds a line break. */
  lemma CssLinesPlain(infos: seq<LineInfo>)
    requires forall i :: 0 <= i < |infos| ==> PlainEntry(infos[i])
    ensures forall k :: 0 <= k < |CssLines(infos)| ==>
              '\n' !in CssLines(infos)[k] && (|CssLines(infos)[k]| == 0 || CssLines(infos)[k][|CssLines(infos)[k]| - 1] != '\r')
  {
    var ls := CssLines(infos);
    forall k | 0 <= k < |ls|
      ensures '\n' !in ls[k] && (|ls[k]| == 0 || ls[k][|ls[k]| - 1] != '\r')
    {
      if 1 <= k < 1 + |infos| {
        assert ls[k] == VarLine(infos[k - 1]);
        VarLinePlain(infos[k - 1]);
      } else if 3 + |infos| <= k {
        assert ls[k] == ClassLine(infos[k - 3 - |infos|]);
        ClassLinePlain(infos[k - 3 - |infos|]);
      }
    }
  }

  lemma VarLinePlain(info: LineInfo)
    requires PlainEntry(info)
    ensures '\n' !in VarLine(info) && VarLine(info)[|VarLine(info)| - 1] == ';'
  {
  }

  lemma ClassLinePlain(info: LineInfo)
    requires PlainEntry(info)
    ensures '\n' !in ClassLine(info) && ClassLine(info)[|ClassLine(info)| - 1] == '}'
  {
  }

  /** Reading the stylesheet back line by line gives exactly `CssLines`:
      the variables and the class rules each appear once per entry and in
      table order, provided no id or colour holds a line break. */
  lemma CssReadsBack(infos: seq<LineInfo>)
    requires forall i :: 0 <= i < |infos| ==> PlainEntry(infos[i])
    ensures Lines(GenerateLineCss(infos)) == CssLines(infos)
  {
    CssAsLines(infos);
    CssLinesPlain(infos);
    LinesUnlines(CssLines(infos));
  }

  /** The 23 ids the helper colour table knows. */
  const MapColourIds: set<string> := {
    "bakerloo", "central", "circle", "district", "dlr", "elizabeth",
    "hammersmith-city", "jubilee", "london-cable-car", "london-overground",
    "metropolitan", "northern", "piccadilly", "thameslink", "tram", "victoria",
    "waterloo-city", "liberty", "lioness", "mildmay", "suffragette", "weaver", "windrush"}

  /** `get_line_color` of map_helpers.rs: a fixed match over 23 ids,
      white for any other. */
  function MapLineColor(lineName: string): (c: string)
    ensures c == "#FFFFFF" <==> lineName !in MapColourIds
  {
    if lineName == "bakerloo" then "#B36305"
    else if lineName == "central" then "#E32017"
    else if lineName == "circle" then "#FFD300"
    else if lineName == "district" then "#00782A"
    else if lineName == "dlr" then "#00A4A7"
    else if lineName == "elizabeth" then "#6950A1"
    else if lineName == "hammersmith-city" then "#F3A9BB"
    else if lineName == "jubilee" then "#A0A5A9"
    else if lineName == "london-cable-car" then "#AF174C"
    else if lineName == "london-overground" then "#EE7C0E"
    else if lineName == "metropolitan" then "#9B0056"
    else if lineName == "northern" then "#000000"
    else if lineName == "piccadilly" then "#003688"
    else if lineName == "thameslink" then "#C1007C"
    else if lineName == "tram" then "#84B817"
    else if lineName == "victoria" then "#0098D4"
    else if lineName == "waterloo-city" then "#95CDBA"
    else if lineName == "liberty" then "#4C6366"
    else if lineName == "lioness" then "#FFA32B"
    else if lineName == "mildmay" then "#088ECC"
    else if lineName == "suffragette" then "#59C274"
    else if lineName == "weaver" then "#B43983"
    else if lineName == "windrush" then "#FF2E24"
    else "#FFFFFF"
  }

  /** The helper table gives every line of `LINE_INFOS` but the cable car
      the colour `LINE_INFOS` gives it. */
  lemma HelperColoursMatch()
    ensures forall i :: 0 <= i < 11 ==> MapLineColor(LineIds[i]) == LineInfos[i].color
    ensures forall i :: 11 <= i < 22 && i != 14 ==> MapLineColor(LineIds[i]) == LineInfos[i].color
  {
    UndergroundColours();
    OtherColours();
  }

  lemma UndergroundColours()
    ensures forall i :: 0 <= i < 11 ==> MapLineColor(LineIds[i]) == LineInfos[i].color
  {
    ColoursToSix();
    ColoursToEleven();
  }

  lemma OtherColours()
    ensures forall i :: 11 <= i < 22 && i != 14 ==> MapLineColor(LineIds[i]) == LineInfos[i].color
  {
    ColoursToSeventeen();
    ColoursToTwentyTwo();
  }

  lemma ColoursToSix()
    ensures forall i :: 0 <= i < 6 ==> MapLineColor(LineIds[i]) == LineInfos[i].color
  {
  }

  lemma ColoursToEleven()
    ensures forall i :: 6 <= i < 11 ==> MapLineColor(LineIds[i]) == LineInfos[i].color
  {
  }

  lemma ColoursToSeventeen()
    ensures forall i :: 11 <= i < 17 && i != 14 ==> MapLineColor(LineIds[i]) == LineInfos[i].color
  {
  }

  lemma ColoursToTwentyTwo()
    ensures forall i :: 17 <= i < 22 ==> MapLineColor(LineIds[i]) == LineInfos[i].color
  {
  }

  /** The two colour tables agree on every line of `LINE_INFOS` except the
      cable car (entry 14), which the helper table knows only as
      "london-cable-car". */
  lemma ColourTablesAgree()
    ensures forall i :: 0 <= i < |LineInfos| && i != 14 ==>
              MapLineColor(LineInfos[i].id) == GetLineColor(LineInfos[i].id)
    ensures LineInfos[14].id == "cable-car"
    ensures GetLineColor("cable-car") == "#E21836" && MapLineColor("cable-car") == "#FFFFFF"
  {
    forall i | 0 <= i < |LineInfos| && i != 14
      ensures MapLineColor(LineInfos[i].id) == GetLineColor(LineInfos[i].id)
    {
      ColoursAgreeAt(i);
    }
    CableCarColours();
  }

  lemma ColoursAgreeAt(i: nat)
    requires i < |LineInfos| && i != 14
    ensures MapLineColor(LineInfos[i].id) == GetLineColor(LineInfos[i].id)
  {
    TableIds();
    HelperColoursMatch();
    assert LineInfos[i].id == Ids(LineInfos)[i];
    ColourOfEntry(i);
  }

  lemma CableCarColours()
    ensures LineInfos[14].id == "cable-car"
    ensures GetLineColor("cable-car") == "#E21836" && MapLineColor("cable-car") == "#FFFFFF"
  {
    assert LineInfos[14] == LineInfo("cable-car", "Cable Car", "#E21836", CableCar);
    ColourOfEntry(14);
    CableCarWhite();
  }

  lemma CableCarWhite()
    ensures MapLineColor("cable-car") == "#FFFFFF"
  {
  }

  /** For an id neither table knows, the defaults differ. */
  lemma DefaultsDiffer()
    ensures GetLineColor("88") == "#777777" && MapLineColor("88") == "#FFFFFF"
  {
    UnknownLineGrey();
    UnknownHelperWhite();
  }

  lemma UnknownLineGrey()
    ensures GetLineColor("88") == "#777777"
  {
    KeyUnlisted();
    GreyWhenUnlisted("88");
  }

  lemma KeyUnlisted()
    ensures Key("88") !in LineIdKeys
  {
  }

  /** An id whose fingerprint no table id has is not in the table, so it
      gets the fallback grey. */
  lemma GreyWhenUnlisted(id: string)
    requires Key(id) !in LineIdKeys
    ensures GetLineColor(id) == "#777777"
  {
    TableIds();
    LineKeys();
    NotListed(LineIds, id);
    assert forall j :: 0 <= j < |LineInfos| ==> LineInfos[j].id == LineIds[j];
  }

  lemma UnknownHelperWhite()
    ensures MapLineColor("88") == "#FFFFFF"
  {
  }
}
