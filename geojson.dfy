/**
 * The GeoJSON mapping of `Polygon` and `GeometryCollection` (`fromJson` and
 * `jsonSerialize`). GeoJSON objects are the values of the geojson library after
 * decoding; JSON text itself is not modelled.
 */
module GeoJson {
  import opened Wrappers
  import opened Geometry
  import Wkt

  /**
   * An RFC 7946 position `[x, y, ...]`: x is the longitude, y the latitude, and `extra` the
   * further elements (an altitude, say) that section 3.1.1 of RFC 7946 allows.
   */
  datatype Position = Position(x: Coord, y: Coord, extra: seq<Coord>)

  /** The objects of the geojson library that the mapping produces or inspects. */
  datatype GeoObject =
    | GjPoint(position: Position)
    | GjMultiPoint(positions: seq<Position>)
    | GjLineString(positions: seq<Position>)
    | GjMultiLineString(lines: seq<seq<Position>>)
    | GjPolygon(rings: seq<seq<Position>>)
    | GjMultiPolygon(polygons: seq<seq<seq<Position>>>)
    | GjGeometryCollection(geometries: seq<GeoObject>)
    | GjFeature(geometry: Option<GeoObject>)
    | GjFeatureCollection(features: seq<GeoObject>)

  const PolygonClass: string := "GeoJson\\Geometry\\Polygon"
  const FeatureCollectionClass: string := "GeoJson\\Feature\\FeatureCollection"

  /** `get_class` of a GeoJSON object. */
  function ClassOf(o: GeoObject): string {
    match o
    case GjPoint(_) => "GeoJson\\Geometry\\Point"
    case GjMultiPoint(_) => "GeoJson\\Geometry\\MultiPoint"
    case GjLineString(_) => "GeoJson\\Geometry\\LineString"
    case GjMultiLineString(_) => "GeoJson\\Geometry\\MultiLineString"
    case GjPolygon(_) => PolygonClass
    case GjMultiPolygon(_) => "GeoJson\\Geometry\\MultiPolygon"
    case GjGeometryCollection(_) => "GeoJson\\Geometry\\GeometryCollection"
    case GjFeature(_) => "GeoJson\\Feature\\Feature"
    case GjFeatureCollection(_) => FeatureCollectionClass
  }

  /** The exception a `fromJson` raises when handed an object of another class. */
  function Unexpected(expected: string, o: GeoObject): Error {
    InvalidGeoJson("Expected " + expected + ", got " + ClassOf(o))
  }

  /**
   * `new Point($coordinate[1], $coordinate[0])`: y becomes the latitude, x the longitude, and
   * any further element of the position is dropped.
   */
  function PointAt(c: Position): Point {
    Point(c.y, c.x, 0)
  }

  /** A point's GeoJSON position: `[lng, lat]`, with nothing after the latitude. */
  function PositionOf(p: Point): Position {
    Position(p.lng, p.lat, [])
  }

  /** Every position of every ring is two-dimensional. */
  predicate PlanarRings(rings: seq<seq<Position>>) {
    forall i, j :: 0 <= i < |rings| && 0 <= j < |rings[i]| ==> rings[i][j].extra == []
  }

  // ---------------------------------------------------------------------------
  // Polygon::fromJson
  // ---------------------------------------------------------------------------

  /** The points `fromJson` builds from one ring, in order. */
  function RingPoints(ring: seq<Position>): (points: seq<Geometry>)
    ensures |points| == |ring|
    ensures forall j :: 0 <= j < |ring| ==> points[j] == Pt(PointAt(ring[j]))
  {
    seq(|ring|, j requires 0 <= j < |ring| => Pt(PointAt(ring[j])))
  }

  /** One `new LineString($points)` per ring, in ring order; the first short ring raises. */
  function DecodeRings(rings: seq<seq<Position>>): (r: Result<seq<Geometry>, Error>)
    ensures r.Ok? <==> forall i :: 0 <= i < |rings| ==> |rings[i]| >= 2
    ensures r.Err? ==> r.error == CountError(LineStringKind)
    ensures r.Ok? ==> |r.value| == |rings|
    ensures r.Ok? ==> forall i :: 0 <= i < |rings| ==>
      r.value[i] == Collection(LineStringKind, RingPoints(rings[i]), 0) && Typed(r.value[i])
    decreases |rings|
  {
    if |rings| == 0 then Ok([])
    else
      match Make(LineStringKind, GeometryValues(RingPoints(rings[0])), 0)
      case Err(e) => Err(e)
      case Ok(line) =>
        match DecodeRings(rings[1..])
        case Err(e) => Err(e)
        case Ok(rest) =>
          assert forall i :: 1 <= i < |rings| ==> rings[i] == rings[1..][i - 1];
          Ok([line] + rest)
  }

  /** `Polygon::fromJson` on a decoded GeoJSON object. */
  function DecodePolygon(o: GeoObject): (r: Result<Geometry, Error>)
    ensures !o.GjPolygon? ==> r == Err(Unexpected(PolygonClass, o))
    ensures o.GjPolygon? && (exists i :: 0 <= i < |o.rings| && |o.rings[i]| < 2) ==>
      r == Err(CountError(LineStringKind))
    ensures o.GjPolygon? && |o.rings| == 0 ==> r == Err(CountError(PolygonKind))
    ensures r.Ok? <==> o.GjPolygon? && |o.rings| > 0 && forall i :: 0 <= i < |o.rings| ==> |o.rings[i]| >= 2
    ensures r.Ok? ==> Typed(r.value) && IsKind(r.value, PolygonKind) && r.value.srid == 0
    ensures r.Ok? ==> |r.value.items| == |o.rings| && forall i :: 0 <= i < |o.rings| ==>
      r.value.items[i] == Collection(LineStringKind, RingPoints(o.rings[i]), 0)
  {
    if !o.GjPolygon? then Err(Unexpected(PolygonClass, o))
    else
      match DecodeRings(o.rings)
      case Err(e) => Err(e)
      case Ok(lines) => Make(PolygonKind, GeometryValues(lines), 0)
  }

  /** The nested `foreach` loops of `Polygon::fromJson`. */
  method PolygonFromJson(o: GeoObject) returns (r: Result<Geometry, Error>)
    ensures r == DecodePolygon(o)
  {
    if !o.GjPolygon? {
      return Err(Unexpected(PolygonClass, o));
    }
    var rings := o.rings;
    var built: seq<Geometry> := [];
    var i := 0;
    while i < |rings|
      invariant 0 <= i <= |rings|
      invariant |built| == i
      invariant forall k :: 0 <= k < i ==> |rings[k]| >= 2
      invariant forall k :: 0 <= k < i ==> built[k] == Collection(LineStringKind, RingPoints(rings[k]), 0)
    {
      var points: seq<Geometry> := [];
      var j := 0;
      while j < |rings[i]|
        invariant 0 <= j <= |rings[i]|
        invariant points == RingPoints(rings[i])[..j]
      {
        points := points + [Pt(PointAt(rings[i][j]))];
        j := j + 1;
      }
      assert points == RingPoints(rings[i]);
      var line := Make(LineStringKind, GeometryValues(points), 0);
      if line.Err? {
        assert |rings[i]| < 2;
        return Err(line.error);
      }
      built := built + [line.value];
      i := i + 1;
    }
    DecodedRingsAre(rings, built);
    r := Make(PolygonKind, GeometryValues(built), 0);
  }

  /** The loop's list equals the decoded rings once the loop has run. */
  lemma DecodedRingsAre(rings: seq<seq<Position>>, built: seq<Geometry>)
    requires |built| == |rings|
    requires forall k :: 0 <= k < |rings| ==> |rings[k]| >= 2
    requires forall k :: 0 <= k < |rings| ==> built[k] == Collection(LineStringKind, RingPoints(rings[k]), 0)
    ensures DecodeRings(rings) == Ok(built)
  {
    var r := DecodeRings(rings);
    assert r.Ok?;
    assert |r.value| == |built| && forall k :: 0 <= k < |built| ==> r.value[k] == built[k];
    assert r.value == built;
  }

  // ---------------------------------------------------------------------------
  // Polygon::jsonSerialize
  // ---------------------------------------------------------------------------

  const LinearRingTooShort: string := "LinearRing requires at least four positions"
  const LinearRingNotClosed: string := "LinearRing requires the first and last positions to be equivalent"

  const LineStringTooShort: string := "LineString requires at least two positions"

  /** The `[lng, lat]` position of every point of a line string, in order. */
  function LinePositions(line: Geometry): (ps: seq<Position>)
    requires IsKind(line, LineStringKind) && Typed(line)
    ensures |ps| == |line.items|
    ensures forall j :: 0 <= j < |ps| ==> ps[j] == PositionOf(line.items[j].point)
  {
    seq(|line.items|, j requires 0 <= j < |line.items| => PositionOf(line.items[j].point))
  }

  /** The RFC 7946 section 3.1.6 linear ring: at least four positions, the last equal to the first. */
  predicate IsLinearRing(ps: seq<Position>) {
    |ps| >= 4 && ps[0] == ps[|ps| - 1]
  }

  /** `new LinearRing($positions)` of the geojson library. */
  function LinearRing(ps: seq<Position>): (r: Result<seq<Position>, Error>)
    ensures r.Ok? <==> IsLinearRing(ps)
    ensures r.Ok? ==> r.value == ps
    ensures |ps| < 4 ==> r == Err(InvalidArgument(LinearRingTooShort))
    ensures |ps| >= 4 && ps[0] != ps[|ps| - 1] ==> r == Err(InvalidArgument(LinearRingNotClosed))
  {
    if |ps| < 4 then Err(InvalidArgument(LinearRingTooShort))
    else if ps[0] != ps[|ps| - 1] then Err(InvalidArgument(LinearRingNotClosed))
    else Ok(ps)
  }

  /**
   * `$lineString->jsonSerialize()->getCoordinates()`: the GeoJSON LineString of the geojson library
   * needs two positions, which a line string left short by `offsetUnset` does not have.
   */
  function LineStringJson(line: Geometry): (r: Result<seq<Position>, Error>)
    requires IsKind(line, LineStringKind) && Typed(line)
    ensures r.Ok? <==> |line.items| >= 2
    ensures r.Ok? ==> r.value == LinePositions(line)
    ensures r.Err? ==> r.error == InvalidArgument(LineStringTooShort)
  {
    if |line.items| < 2 then Err(InvalidArgument(LineStringTooShort)) else Ok(LinePositions(line))
  }

  /** `new LinearRing($lineString->jsonSerialize()->getCoordinates())` */
  function RingJson(line: Geometry): (r: Result<seq<Position>, Error>)
    requires IsKind(line, LineStringKind) && Typed(line)
    ensures r.Ok? <==> IsLinearRing(LinePositions(line))
    ensures r.Ok? ==> r.value == LinePositions(line)
    ensures |line.items| < 2 ==> r == Err(InvalidArgument(LineStringTooShort))
    ensures 2 <= |line.items| < 4 ==> r == Err(InvalidArgument(LinearRingTooShort))
    ensures |line.items| >= 4 && !IsLinearRing(LinePositions(line)) ==> r == Err(InvalidArgument(LinearRingNotClosed))
  {
    match LineStringJson(line)
    case Err(e) => Err(e)
    case Ok(ps) => LinearRing(ps)
  }

  predicate AllLines(lines: seq<Geometry>) {
    forall i :: 0 <= i < |lines| ==> IsKind(lines[i], LineStringKind) && Typed(lines[i])
  }

  /** One linear ring per line string, in order; the first line string that is no ring raises. */
  function EncodeRings(lines: seq<Geometry>): (r: Result<seq<seq<Position>>, Error>)
    requires AllLines(lines)
    ensures r.Ok? <==> forall i :: 0 <= i < |lines| ==> IsLinearRing(LinePositions(lines[i]))
    ensures r.Ok? ==> |r.value| == |lines| && forall i :: 0 <= i < |lines| ==> r.value[i] == LinePositions(lines[i])
    ensures r.Err? ==> exists i :: (0 <= i < |lines| && (forall k :: 0 <= k < i ==> IsLinearRing(LinePositions(lines[k])))
      && RingJson(lines[i]) == Err(r.error))
    decreases |lines|
  {
    if |lines| == 0 then Ok([])
    else
      match RingJson(lines[0])
      case Err(e) =>
        assert RingJson(lines[0]) == Err(e);
        Err(e)
      case Ok(ring) =>
        match EncodeRings(lines[1..])
        case Err(e) =>
          FirstRingFailureShift(lines, e);
          Err(e)
        case Ok(rest) =>
          assert forall i :: 1 <= i < |lines| ==> lines[i] == lines[1..][i - 1];
          Ok([ring] + rest)
  }

  /** A first failing line string after a linear ring is the first failing one of the whole list. */
  lemma FirstRingFailureShift(lines: seq<Geometry>, e: Error)
    requires AllLines(lines) && |lines| > 0 && IsLinearRing(LinePositions(lines[0]))
    requires exists i :: (0 <= i < |lines[1..]| && (forall k :: 0 <= k < i ==> IsLinearRing(LinePositions(lines[1..][k])))
      && RingJson(lines[1..][i]) == Err(e))
    ensures exists i :: (0 <= i < |lines| && (forall k :: 0 <= k < i ==> IsLinearRing(LinePositions(lines[k])))
      && RingJson(lines[i]) == Err(e))
  {
    var rest := lines[1..];
    var i :| 0 <= i < |rest| && (forall k :: 0 <= k < i ==> IsLinearRing(LinePositions(rest[k])))
      && RingJson(rest[i]) == Err(e);
    forall k | 0 <= k < i + 1 ensures IsLinearRing(LinePositions(lines[k])) {
      if k > 0 { assert lines[k] == rest[k - 1]; }
    }
    assert lines[i + 1] == rest[i];
  }

  /** `Polygon::jsonSerialize` */
  function EncodePolygon(g: Geometry): (r: Result<GeoObject, Error>)
    requires IsKind(g, PolygonKind) && Typed(g)
    ensures r.Ok? <==> forall i :: 0 <= i < |g.items| ==> IsLinearRing(LinePositions(g.items[i]))
    ensures r.Ok? ==> r.value.GjPolygon? && |r.value.rings| == |g.items|
    ensures r.Ok? ==> forall i :: 0 <= i < |g.items| ==> r.value.rings[i] == LinePositions(g.items[i])
    ensures r.Err? ==> exists i :: (0 <= i < |g.items| && (forall k :: 0 <= k < i ==> IsLinearRing(LinePositions(g.items[k])))
      && RingJson(g.items[i]) == Err(r.error))
  {
    match EncodeRings(g.items)
    case Err(e) => Err(e)
    case Ok(rings) => Ok(GjPolygon(rings))
  }

  /** The `foreach` loop of `Polygon::jsonSerialize`. */
  method PolygonJsonSerialize(g: Geometry) returns (r: Result<GeoObject, Error>)
    requires IsKind(g, PolygonKind) && Typed(g)
    ensures r == EncodePolygon(g)
  {
    var linearRings: seq<seq<Position>> := [];
    var i := 0;
    while i < |g.items|
      invariant 0 <= i <= |g.items|
      invariant |linearRings| == i
      invariant forall k :: 0 <= k < i ==> IsLinearRing(LinePositions(g.items[k]))
      invariant forall k :: 0 <= k < i ==> linearRings[k] == LinePositions(g.items[k])
    {
      var ring := RingJson(g.items[i]);
      if ring.Err? {
        FirstFailureUnique(g.items, i, EncodePolygon(g));
        return Err(ring.error);
      }
      linearRings := linearRings + [ring.value];
      i := i + 1;
    }
    assert EncodePolygon(g).value.rings == linearRings;
    r := Ok(GjPolygon(linearRings));
  }

  /** Only the first line string that is no linear ring can decide the error. */
  lemma FirstFailureUnique(lines: seq<Geometry>, i: nat, r: Result<GeoObject, Error>)
    requires AllLines(lines)
    requires i < |lines| && !IsLinearRing(LinePositions(lines[i]))
    requires forall k :: 0 <= k < i ==> IsLinearRing(LinePositions(lines[k]))
    requires r.Err? && exists m :: (0 <= m < |lines| && (forall k :: 0 <= k < m ==> IsLinearRing(LinePositions(lines[k])))
      && RingJson(lines[m]) == Err(r.error))
    ensures RingJson(lines[i]) == Err(r.error)
  {
    var m :| 0 <= m < |lines| && (forall k :: 0 <= k < m ==> IsLinearRing(LinePositions(lines[k])))
      && RingJson(lines[m]) == Err(r.error);
    assert m == i;
  }

  // ---------------------------------------------------------------------------
  // Polygon round trips
  // ---------------------------------------------------------------------------

  /** Every srid inside `g`, its own included, is 0: the srid `fromJson` gives. */
  predicate ZeroSrids(g: Geometry)
    decreases g
  {
    Srid(g) == 0 && (g.Collection? ==> forall i :: 0 <= i < |g.items| ==> ZeroSrids(g.items[i]))
  }

  /**
   * A GeoJSON Polygon of two-dimensional positions whose rings are all linear rings survives
   * `fromJson` then `jsonSerialize`.
   */
  lemma PolygonJsonRoundTrip(o: GeoObject)
    requires o.GjPolygon? && |o.rings| > 0 && PlanarRings(o.rings)
    requires forall i :: 0 <= i < |o.rings| ==> IsLinearRing(o.rings[i])
    ensures DecodePolygon(o).Ok?
    ensures EncodePolygon(DecodePolygon(o).value) == Ok(o)
  {
    var g := DecodePolygon(o).value;
    forall i | 0 <= i < |o.rings|
      ensures LinePositions(g.items[i]) == o.rings[i]
    {
      var ps := LinePositions(g.items[i]);
      assert |ps| == |o.rings[i]|;
      forall j | 0 <= j < |ps| ensures ps[j] == o.rings[i][j] {
        assert g.items[i].items[j] == Pt(PointAt(o.rings[i][j]));
      }
    }
    var e := EncodePolygon(g);
    assert e.Ok?;
    assert e.value.rings == o.rings;
  }

  /**
   * A position with an altitude (or any further element) does not survive `fromJson` then
   * `jsonSerialize`: the decoded point keeps only longitude and latitude.
   */
  lemma AltitudeLost(o: GeoObject, i: nat, j: nat)
    requires o.GjPolygon? && i < |o.rings| && j < |o.rings[i]| && o.rings[i][j].extra != []
    requires DecodePolygon(o).Ok?
    ensures EncodePolygon(DecodePolygon(o).value) != Ok(o)
    ensures EncodePolygon(DecodePolygon(o).value).Ok? ==>
      EncodePolygon(DecodePolygon(o).value).value.rings[i][j] == o.rings[i][j].(extra := [])
  {
    var g := DecodePolygon(o).value;
    var e := EncodePolygon(g);
    if e.Ok? {
      assert g.items[i].items[j] == Pt(PointAt(o.rings[i][j]));
      assert e.value.rings[i][j] == LinePositions(g.items[i])[j];
    }
  }

  /**
   * A polygon with srid 0 throughout whose line strings are all closed rings of four or more
   * points survives `jsonSerialize` then `fromJson`.
   */
  lemma PolygonRoundTrip(g: Geometry)
    requires IsKind(g, PolygonKind) && Typed(g) && ZeroSrids(g) && |g.items| > 0
    requires forall i :: 0 <= i < |g.items| ==> IsLinearRing(LinePositions(g.items[i]))
    ensures EncodePolygon(g).Ok?
    ensures DecodePolygon(EncodePolygon(g).value) == Ok(g)
  {
    var o := EncodePolygon(g).value;
    var d := DecodePolygon(o);
    assert d.Ok?;
    forall i | 0 <= i < |g.items|
      ensures d.value.items[i] == g.items[i]
    {
      var line := g.items[i];
      assert ZeroSrids(line);
      var points := RingPoints(o.rings[i]);
      assert |points| == |line.items|;
      forall j | 0 <= j < |points| ensures points[j] == line.items[j] {
        assert ZeroSrids(line.items[j]);
      }
      assert points == line.items;
    }
    assert d.value.items == g.items;
  }

  /**
   * The polygon of three two-point rings that the library renders to WKT has no GeoJSON form:
   * its first ring has fewer than four positions. The points are parameters equal to their literals: with the literals written inline the verifier
   * evaluates the whole rendering at once and runs out of resource.
   */
  lemma ShortRingsHaveNoGeoJson(p11: Point, p12: Point, p22: Point)
    requires p11 == Point(1, 1, 0) && p12 == Point(1, 2, 0) && p22 == Point(2, 2, 0)
    ensures EncodePolygon(Collection(PolygonKind, [Wkt.Segment(p11, p12), Wkt.Segment(p12, p22), Wkt.Segment(p22, p11)], 0))
            == Err(InvalidArgument(LinearRingTooShort))
  {
    var r1 := Wkt.Segment(p11, p12);
    var g := Collection(PolygonKind, [r1, Wkt.Segment(p12, p22), Wkt.Segment(p22, p11)], 0);
    assert g.items[0] == r1;
    assert RingJson(r1) == Err(InvalidArgument(LinearRingTooShort));
    var e := EncodePolygon(g);
    assert e.Err? by { assert !IsLinearRing(LinePositions(g.items[0])); }
    var m :| 0 <= m < |g.items| && (forall k :: 0 <= k < m ==> IsLinearRing(LinePositions(g.items[k])))
      && RingJson(g.items[m]) == Err(e.error);
    assert m == 0;
  }

  // ---------------------------------------------------------------------------
  // GeometryCollection::fromJson and GeometryCollection::jsonSerialize
  // ---------------------------------------------------------------------------

  /**
   * `GeometryCollection::fromJson` on a decoded GeoJSON object; `decode` is `Geometry::fromJson`,
   * applied to each feature.
   */
  function DecodeFeatureCollection(o: GeoObject, decode: GeoObject -> Result<Geometry, Error>): (r: Result<Geometry, Error>)
    ensures !o.GjFeatureCollection? ==> r == Err(Unexpected(FeatureCollectionClass, o))
    ensures r.Ok? <==> (o.GjFeatureCollection? &&
      forall i :: 0 <= i < |o.features| ==> decode(o.features[i]).Ok? && Typed(decode(o.features[i]).value))
    ensures r.Ok? ==> IsKind(r.value, GeometryCollectionKind) && Typed(r.value) && r.value.srid == 0
    ensures r.Ok? ==> (|r.value.items| == |o.features| &&
      forall i :: 0 <= i < |o.features| ==> decode(o.features[i]) == Ok(r.value.items[i]))
    ensures o.GjFeatureCollection? && (exists i :: 0 <= i < |o.features| && decode(o.features[i]).Err?) ==>
      exists i :: (0 <= i < |o.features| && (forall k :: 0 <= k < i ==> decode(o.features[k]).Ok?)
        && decode(o.features[i]) == r)
    ensures o.GjFeatureCollection? && (forall i :: 0 <= i < |o.features| ==> decode(o.features[i]).Ok?) && r.Err? ==>
      r == Err(TypeError(GeometryCollectionKind))
  {
    if !o.GjFeatureCollection? then Err(Unexpected(FeatureCollectionClass, o))
    else
      match MapAll(o.features, decode)
      case Err(e) => Err(e)
      case Ok(gs) =>
        assert forall i :: 0 <= i < |gs| ==> ItemTypeOk(GeometryCollectionKind, gs[i]);
        Make(GeometryCollectionKind, GeometryValues(gs), 0)
  }

  /** The `foreach` loop of `GeometryCollection::fromJson`. */
  method CollectionFromJson(o: GeoObject, decode: GeoObject -> Result<Geometry, Error>) returns (r: Result<Geometry, Error>)
    ensures r == DecodeFeatureCollection(o, decode)
  {
    if !o.GjFeatureCollection? {
      return Err(Unexpected(FeatureCollectionClass, o));
    }
    var features := o.features;
    var geometries: seq<Geometry> := [];
    var i := 0;
    while i < |features|
      invariant 0 <= i <= |features|
      invariant |geometries| == i
      invariant forall k :: 0 <= k < i ==> decode(features[k]) == Ok(geometries[k])
    {
      var g := decode(features[i]);
      if g.Err? {
        MapAllFirstError(features, decode, i);
        return g;
      }
      geometries := geometries + [g.value];
      i := i + 1;
    }
    MapAllValues(features, decode, geometries);
    r := Make(GeometryCollectionKind, GeometryValues(geometries), 0);
  }

  /** `GeometryCollection::jsonSerialize`; `serialize` is each item's own `jsonSerialize`. */
  function EncodeCollection(g: Geometry, serialize: Geometry -> Result<GeoObject, Error>): (r: Result<GeoObject, Error>)
    requires IsKind(g, GeometryCollectionKind)
    ensures r.Ok? <==> forall i :: 0 <= i < |g.items| ==> serialize(g.items[i]).Ok?
    ensures r.Ok? ==> r.value.GjGeometryCollection? && |r.value.geometries| == |g.items|
    ensures r.Ok? ==> forall i :: 0 <= i < |g.items| ==> serialize(g.items[i]) == Ok(r.value.geometries[i])
    ensures r.Err? ==> exists i :: (0 <= i < |g.items| && (forall k :: 0 <= k < i ==> serialize(g.items[k]).Ok?)
      && serialize(g.items[i]) == r)
  {
    match MapAll(g.items, serialize)
    case Err(e) => Err(e)
    case Ok(objects) => Ok(GjGeometryCollection(objects))
  }

  /** The `foreach` loop of `GeometryCollection::jsonSerialize`. */
  method CollectionJsonSerialize(g: Geometry, serialize: Geometry -> Result<GeoObject, Error>) returns (r: Result<GeoObject, Error>)
    requires IsKind(g, GeometryCollectionKind)
    ensures r == EncodeCollection(g, serialize)
  {
    var geometries: seq<GeoObject> := [];
    var i := 0;
    while i < |g.items|
      invariant 0 <= i <= |g.items|
      invariant |geometries| == i
      invariant forall k :: 0 <= k < i ==> serialize(g.items[k]) == Ok(geometries[k])
    {
      var o := serialize(g.items[i]);
      if o.Err? {
        MapAllFirstError(g.items, serialize, i);
        return o;
      }
      geometries := geometries + [o.value];
      i := i + 1;
    }
    MapAllValues(g.items, serialize, geometries);
    r := Ok(GjGeometryCollection(geometries));
  }

  /**
   * `jsonSerialize` gives a GeoJSON GeometryCollection but `fromJson` accepts only a
   * FeatureCollection, so no serialized collection can be read back.
   */
  lemma CollectionJsonNotReadBack(g: Geometry, serialize: Geometry -> Result<GeoObject, Error>,
                                  decode: GeoObject -> Result<Geometry, Error>)
    requires IsKind(g, GeometryCollectionKind) && EncodeCollection(g, serialize).Ok?
    ensures ClassOf(EncodeCollection(g, serialize).value) == "GeoJson\\Geometry\\GeometryCollection"
    ensures DecodeFeatureCollection(EncodeCollection(g, serialize).value, decode)
            == Err(Unexpected(FeatureCollectionClass, EncodeCollection(g, serialize).value))
  {
  }

  /** Each serialized item wrapped in a Feature without properties. */
  function AsFeatures(objects: seq<GeoObject>): (features: seq<GeoObject>)
    ensures |features| == |objects|
    ensures forall i :: 0 <= i < |objects| ==> features[i] == GjFeature(Some(objects[i]))
  {
    seq(|objects|, i requires 0 <= i < |objects| => GjFeature(Some(objects[i])))
  }

  /**
   * Wrapping the serialized items in Features gives a FeatureCollection that `fromJson` reads
   * back into the same items, in order, with srid 0, whenever each item's feature decodes to it.
   */
  lemma FeatureCollectionRoundTrip(g: Geometry, serialize: Geometry -> Result<GeoObject, Error>,
                                   decode: GeoObject -> Result<Geometry, Error>)
    requires IsKind(g, GeometryCollectionKind) && Typed(g)
    requires forall i :: 0 <= i < |g.items| ==> serialize(g.items[i]).Ok?
    requires forall i :: 0 <= i < |g.items| ==> decode(GjFeature(Some(serialize(g.items[i]).value))) == Ok(g.items[i])
    ensures EncodeCollection(g, serialize).Ok?
    ensures DecodeFeatureCollection(GjFeatureCollection(AsFeatures(EncodeCollection(g, serialize).value.geometries)), decode)
            == Ok(g.(srid := 0))
  {
    var objects := EncodeCollection(g, serialize).value.geometries;
    var fc := GjFeatureCollection(AsFeatures(objects));
    forall i | 0 <= i < |g.items|
      ensures decode(fc.features[i]) == Ok(g.items[i])
    {
      assert serialize(g.items[i]) == Ok(objects[i]);
    }
    var r := DecodeFeatureCollection(fc, decode);
    assert r.Ok?;
    assert r.value.items == g.items;
  }
}
