/** The GeoJSON records the map crate hands to MapLibre
    (map/src/utils/geojson.rs): a source wrapping a feature collection,
    features with a point or line-string geometry and a property object.
    The validity rules are those of RFC 7946: section 3.1.2 (a Point's
    coordinates are one position), section 3.1.4 (a LineString's are two
    or more positions), section 3.2 (a Feature has type "Feature", a
    geometry and properties) and section 3.3 (a FeatureCollection has type
    "FeatureCollection" and an array of features). */
module GeoJson {

  /** An `f64` as far as the crate inspects it: a number or NaN. */
  datatype Float = Num(value: real) | NaN

  /** A position: longitude first, then latitude (RFC 7946 section 3.1.1). */
  datatype Position = Position(lon: Float, lat: Float)

  /** Property values the crate writes. */
  datatype PropValue = PStr(s: string) | PBool(b: bool) | PNat(n: nat)

  type Properties = seq<(string, PropValue)>

  /** The geometry union, tagged by its `type` member. */
  datatype Geometry = PointGeometry(coordinates: Position) | LineStringGeometry(positions: seq<Position>)

  datatype Feature = Feature(featureType: string, geometry: Geometry, properties: Properties)

  datatype FeatureCollection = FeatureCollection(collectionType: string, features: seq<Feature>)

  /** A MapLibre source: type "geojson" and the collection as its data. */
  datatype GeoJsonSource = GeoJsonSource(sourceType: string, data: FeatureCollection)

  /** The `type` member the geometry is serialised with. */
  function GeometryType(g: Geometry): (t: string)
    ensures t == "Point" <==> g.PointGeometry?
    ensures t == "LineString" <==> g.LineStringGeometry?
  {
    match g
    case PointGeometry(_) => "Point"
    case LineStringGeometry(_) => "LineString"
  }

  /** RFC 7946 sections 3.1.2 and 3.1.4. */
  predicate ValidGeometry(g: Geometry) {
    match g
    case PointGeometry(_) => true
    case LineStringGeometry(ps) => |ps| >= 2
  }

  /** RFC 7946 section 3.2. */
  predicate ValidFeature(f: Feature) {
    f.featureType == "Feature" && ValidGeometry(f.geometry)
  }

  /** RFC 7946 section 3.3, inside a MapLibre source. */
  predicate ValidSource(s: GeoJsonSource) {
    && s.sourceType == "geojson"
    && s.data.collectionType == "FeatureCollection"
    && forall i :: 0 <= i < |s.data.features| ==> ValidFeature(s.data.features[i])
  }

  /** `new_geojson_source`: the features, in order, inside a collection. */
  function NewGeojsonSource(features: seq<Feature>): (s: GeoJsonSource)
    ensures s.data.features == features
    ensures ValidSource(s) <==> forall i :: 0 <= i < |features| ==> ValidFeature(features[i])
  {
    GeoJsonSource("geojson", FeatureCollection("FeatureCollection", features))
  }

  /** `new_point_feature`: always a valid feature, longitude first. */
  function NewPointFeature(lon: Float, lat: Float, properties: Properties): (f: Feature)
    ensures ValidFeature(f) && GeometryType(f.geometry) == "Point"
    ensures f.geometry.coordinates == Position(lon, lat) && f.properties == properties
  {
    Feature("Feature", PointGeometry(Position(lon, lat)), properties)
  }

  /** `new_linestring_feature`: valid exactly when it is given at least two
      positions; the constructor itself does not check. */
  function NewLinestringFeature(positions: seq<Position>, properties: Properties): (f: Feature)
    ensures ValidFeature(f) <==> |positions| >= 2
    ensures GeometryType(f.geometry) == "LineString"
    ensures f.geometry.positions == positions && f.properties == properties
  {
    Feature("Feature", LineStringGeometry(positions), properties)
  }

  /** A source built from point features is always valid, and one built
      from line strings is valid exactly when each has two positions. */
  lemma SourcesOfValidFeatures(points: seq<(Float, Float)>, lines: seq<seq<Position>>, properties: Properties)
    ensures ValidSource(NewGeojsonSource(seq(|points|, i requires 0 <= i < |points| =>
              NewPointFeature(points[i].0, points[i].1, properties))))
    ensures ValidSource(NewGeojsonSource(seq(|lines|, i requires 0 <= i < |lines| =>
              NewLinestringFeature(lines[i], properties))))
            <==> forall i :: 0 <= i < |lines| ==> |lines[i]| >= 2
  {
    var fs := seq(|lines|, i requires 0 <= i < |lines| => NewLinestringFeature(lines[i], properties));
    assert forall i :: 0 <= i < |lines| ==> (ValidFeature(fs[i]) <==> |lines[i]| >= 2);
  }
}
