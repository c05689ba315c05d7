/**
 * The geometry data model of `src/Types`: a Point, or a collection whose class fixes the
 * minimum number of items and the class every item must be an instance of.
 * Every non-point class of the library extends GeometryCollection, so one datatype
 * with a `Kind` tag stands for all of them.
 */
module Geometry {
  import opened Wrappers
  import Numbers

  /**
   * A coordinate. The library stores PHP floats; the model uses integers, whose decimal
   * text never contains a comma, white space or a letter, which is all the WKT layer relies on.
   */
  type Coord = int

  function CoordText(c: Coord): (s: string)
    ensures |s| > 0
    ensures forall i :: 0 <= i < |s| ==> Numbers.IsNumeral(s[i])
  {
    Numbers.IntText(c)
  }

  /** `new Point($lat, $lng, $srid)`: the constructor takes latitude first. */
  datatype Point = Point(lat: Coord, lng: Coord, srid: nat)

  /** The concrete subclasses of GeometryCollection. */
  datatype Kind =
    | GeometryCollectionKind
    | MultiPointKind
    | LineStringKind
    | MultiLineStringKind
    | PolygonKind
    | MultiPolygonKind

  datatype Geometry =
    | Pt(point: Point)
    | Collection(kind: Kind, items: seq<Geometry>, srid: nat)

  /** `getSrid()` */
  function Srid(g: Geometry): nat {
    match g
    case Pt(p) => p.srid
    case Collection(_, _, s) => s
  }

  predicate IsKind(g: Geometry, k: Kind) {
    g.Collection? && g.kind == k
  }

  /** The subclasses of the abstract PointCollection. */
  predicate IsPointCollection(k: Kind) {
    k == MultiPointKind || k == LineStringKind
  }

  const TypesNamespace: string := "ScaffoldDigital\\LaravelMysqlSpatial\\Types\\"

  /** `get_class($this)` */
  function ClassName(k: Kind): string {
    TypesNamespace +
    match k
    case GeometryCollectionKind => "GeometryCollection"
    case MultiPointKind => "MultiPoint"
    case LineStringKind => "LineString"
    case MultiLineStringKind => "MultiLineString"
    case PolygonKind => "Polygon"
    case MultiPolygonKind => "MultiPolygon"
  }

  /** `$this->collectionItemType` */
  function ItemTypeName(k: Kind): string {
    TypesNamespace +
    match k
    case GeometryCollectionKind => "GeometryInterface"
    case MultiPointKind => "Point"
    case LineStringKind => "Point"
    case MultiLineStringKind => "LineString"
    case PolygonKind => "LineString"
    case MultiPolygonKind => "Polygon"
  }

  /** `$this->minimumCollectionItems` */
  function MinimumItems(k: Kind): nat {
    match k
    case GeometryCollectionKind => 0
    case LineStringKind => 2
    case _ => 1
  }

  /** `$item instanceof $this->collectionItemType` for a geometry `$item`. */
  predicate ItemTypeOk(k: Kind, g: Geometry) {
    match k
    case GeometryCollectionKind => true
    case MultiPointKind => g.Pt?
    case LineStringKind => g.Pt?
    case MultiLineStringKind => IsKind(g, LineStringKind)
    case PolygonKind => IsKind(g, LineStringKind)
    case MultiPolygonKind => IsKind(g, PolygonKind)
  }

  /**
   * Every collection inside `g` holds only items of its item type. Every geometry object
   * the library can build is typed: construction and `offsetSet` check each item.
   */
  predicate Typed(g: Geometry)
    decreases g
  {
    match g
    case Pt(_) => true
    case Collection(k, items, _) =>
      forall i :: 0 <= i < |items| ==> ItemTypeOk(k, items[i]) && Typed(items[i])
  }

  /** A PHP value handed to a collection: a geometry object, or anything else. */
  datatype Value = GeometryValue(geometry: Geometry) | OtherValue(description: string)

  /**
   * `$value instanceof $this->collectionItemType`. A geometry value that is not typed
   * stands for no object the library can hold, and is refused as well.
   */
  predicate IsInstance(k: Kind, v: Value) {
    v.GeometryValue? && ItemTypeOk(k, v.geometry) && Typed(v.geometry)
  }

  predicate AllInstances(k: Kind, values: seq<Value>) {
    forall i :: 0 <= i < |values| ==> IsInstance(k, values[i])
  }

  /** The exceptions of the core. */
  datatype Error =
    | InvalidArgument(message: string)
    | InvalidGeoJson(message: string)

  /** `$entries` in `validateItemCount`. */
  function EntryWord(minimum: int): string {
    if minimum == 1 then "entry" else "entries"
  }

  /** `sprintf('%s must contain at least %d %s', ...)` */
  function CountError(k: Kind): Error {
    InvalidArgument(ClassName(k) + " must contain at least " + Numbers.IntText(MinimumItems(k)) + " " + EntryWord(MinimumItems(k)))
  }

  /** `sprintf('%s must be a collection of %s', ...)` */
  function TypeError(k: Kind): Error {
    InvalidArgument(ClassName(k) + " must be a collection of " + ItemTypeName(k))
  }

  predicate EndsWith(s: string, suffix: string) {
    |suffix| <= |s| && s[|s| - |suffix|..] == suffix
  }

  /** The count message ends in "entry" when the minimum is one and in "entries" otherwise. */
  lemma CountErrorWording(k: Kind)
    ensures MinimumItems(k) == 1 ==> EndsWith(CountError(k).message, " entry")
    ensures MinimumItems(k) != 1 ==> EndsWith(CountError(k).message, " entries")
  {
    var head := ClassName(k) + " must contain at least " + Numbers.IntText(MinimumItems(k));
    EndsWithSuffix(head, " " + EntryWord(MinimumItems(k)));
  }

  lemma EndsWithSuffix(head: string, tail: string)
    ensures EndsWith(head + tail, tail)
  {
    assert (head + tail)[|head + tail| - |tail|..] == tail;
  }

  /** `validateItemCount` */
  function ValidateItemCount(k: Kind, items: seq<Value>): (failure: Option<Error>)
    ensures failure == None <==> |items| >= MinimumItems(k)
    ensures failure != None ==> failure == Some(CountError(k))
  {
    if |items| < MinimumItems(k) then Some(CountError(k)) else None
  }

  /** `validateItemType` */
  function ValidateItemType(k: Kind, item: Value): (failure: Option<Error>)
    ensures failure == None <==> IsInstance(k, item)
    ensures failure != None ==> failure == Some(TypeError(k))
  {
    if IsInstance(k, item) then None else Some(TypeError(k))
  }

  /**
   * `validateItems`: the count check first, then every item in order; the first
   * failure is thrown.
   */
  method ValidateItems(k: Kind, items: seq<Value>) returns (failure: Option<Error>)
    ensures failure == None <==> |items| >= MinimumItems(k) && AllInstances(k, items)
    ensures |items| < MinimumItems(k) ==> failure == Some(CountError(k))
    ensures |items| >= MinimumItems(k) && !AllInstances(k, items) ==> failure == Some(TypeError(k))
  {
    failure := ValidateItemCount(k, items);
    if failure != None {
      return;
    }
    var i := 0;
    while i < |items|
      invariant 0 <= i <= |items|
      invariant forall j :: 0 <= j < i ==> IsInstance(k, items[j])
      invariant failure == None
    {
      failure := ValidateItemType(k, items[i]);
      if failure != None {
        return;
      }
      i := i + 1;
    }
  }

  /** The geometries of a list of values that passed validation. */
  function Geometries(values: seq<Value>): (gs: seq<Geometry>)
    requires forall i :: 0 <= i < |values| ==> values[i].GeometryValue?
    ensures |gs| == |values|
    ensures forall i :: 0 <= i < |values| ==> values[i] == GeometryValue(gs[i])
  {
    seq(|values|, i requires 0 <= i < |values| => values[i].geometry)
  }

  function GeometryValues(gs: seq<Geometry>): (values: seq<Value>)
    ensures |values| == |gs|
    ensures forall i :: 0 <= i < |gs| ==> values[i] == GeometryValue(gs[i])
  {
    seq(|gs|, i requires 0 <= i < |gs| => GeometryValue(gs[i]))
  }

  /**
   * The value `new K($values, $srid)` builds: the constructor validates before it stores
   * anything, so it either throws or holds exactly the given items, in order.
   */
  function Make(k: Kind, values: seq<Value>, srid: nat): (r: Result<Geometry, Error>)
    ensures r.Ok? <==> |values| >= MinimumItems(k) && AllInstances(k, values)
    ensures |values| < MinimumItems(k) ==> r == Err(CountError(k))
    ensures |values| >= MinimumItems(k) && !AllInstances(k, values) ==> r == Err(TypeError(k))
    ensures r.Ok? ==> Typed(r.value) && r.value.Collection? && r.value.kind == k && r.value.srid == srid
    ensures r.Ok? ==> |r.value.items| == |values| && forall i :: 0 <= i < |values| ==> values[i] == GeometryValue(r.value.items[i])
  {
    if |values| < MinimumItems(k) then Err(CountError(k))
    else if !AllInstances(k, values) then Err(TypeError(k))
    else Ok(Collection(k, Geometries(values), srid))
  }
}
