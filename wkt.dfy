/**
 * Well-Known Text output of every geometry (`toWKT` and `__toString`) and
 * `GeometryCollection::fromString`, with the round trip between them.
 */
module Wkt {
  import opened Wrappers
  import opened Strings
  import opened Geometry
  import Numbers

  /** `Point::toPair`: longitude first, then latitude. */
  function Pair(p: Point): string {
    CoordText(p.lng) + " " + CoordText(p.lat)
  }

  /** The pairs of a list of points, in order. */
  function Pairs(items: seq<Geometry>): (ps: seq<string>)
    requires forall i :: 0 <= i < |items| ==> items[i].Pt?
    ensures |ps| == |items|
  {
    seq(|items|, i requires 0 <= i < |items| => Pair(items[i].point))
  }

  /** `PointCollection::toPairList` */
  function PairList(items: seq<Geometry>): string
    requires forall i :: 0 <= i < |items| ==> items[i].Pt?
  {
    Join(",", Pairs(items))
  }

  /** The full WKT of every item of a collection, in item order. */
  function ItemWkts(g: Geometry): (ws: seq<string>)
    requires g.Collection? && Typed(g)
    ensures |ws| == |g.items|
    decreases g, 0
  {
    seq(|g.items|, i requires 0 <= i < |g.items| => ToWkt(g.items[i]))
  }

  /** `__toString`: the text inside the geometry's outer parentheses. */
  function ToText(g: Geometry): string
    requires Typed(g)
    decreases g, 1
  {
    match g
    case Pt(p) => Pair(p)
    case Collection(k, items, _) =>
      match k
      case GeometryCollectionKind => Join(",", ItemWkts(g))
      case LineStringKind => PairList(items)
      case MultiPointKind =>
        Join(",", seq(|items|, i requires 0 <= i < |items| => "(" + Pair(items[i].point) + ")"))
      case MultiLineStringKind =>
        Join(",", seq(|items|, i requires 0 <= i < |items| => "(" + ToText(items[i]) + ")"))
      case PolygonKind =>
        Join(",", seq(|items|, i requires 0 <= i < |items| => ToText(items[i])))
      case MultiPolygonKind =>
        Join(",", seq(|items|, i requires 0 <= i < |items| => "(" + ToText(items[i]) + ")"))
  }

  /** `toWKT` */
  function ToWkt(g: Geometry): string
    requires Typed(g)
    decreases g, 2
  {
    match g
    case Pt(_) => "POINT(" + ToText(g) + ")"
    case Collection(k, _, _) =>
      match k
      case GeometryCollectionKind => "GEOMETRYCOLLECTION(" + ToText(g) + ")"
      case LineStringKind => "LINESTRING(" + ToText(g) + ")"
      case MultiPointKind => "MULTIPOINT(" + ToText(g) + ")"
      case MultiLineStringKind => "MULTILINESTRING(" + ToText(g) + ")"
      case PolygonKind => "POLYGON((" + ToText(g) + "))"
      case MultiPolygonKind => "MULTIPOLYGON(" + ToText(g) + ")"
  }

  /** A pair is numerals around one space: no comma, no parenthesis, and it starts with a numeral. */
  lemma PairShape(p: Point)
    ensures |Pair(p)| > 0 && Numbers.IsNumeral(Pair(p)[0])
    ensures forall i :: 0 <= i < |Pair(p)| ==> Numbers.IsNumeral(Pair(p)[i]) || Pair(p)[i] == ' '
    ensures ',' !in Pair(p) && '(' !in Pair(p) && ')' !in Pair(p)
  {
    var a, b := CoordText(p.lng), CoordText(p.lat);
    assert Pair(p) == a + " " + b;
    forall i | 0 <= i < |Pair(p)|
      ensures Numbers.IsNumeral(Pair(p)[i]) || Pair(p)[i] == ' '
    {
      if i < |a| { assert Pair(p)[i] == a[i]; }
      else if i > |a| { assert Pair(p)[i] == b[i - |a| - 1]; }
    }
  }

  /** `pre + mid + post` is split-free when `mid` is and the wrappers hold no comma. */
  lemma SplitFreeWrap(pre: string, mid: string, post: string)
    requires ',' !in pre && ',' !in post
    requires SplitFree(mid) && StartsSafe(post)
    ensures SplitFree(pre + mid + post)
  {
    NoCommaSplitFree(pre);
    NoCommaSplitFree(post);
    if |pre| > 0 {
      assert pre[|pre| - 1] in pre;
    }
    SplitFreeConcat(pre, mid);
    if |pre + mid| > 0 && |post| > 0 && (pre + mid)[|pre + mid| - 1] == ',' {
      assert Safe(post[0]);
    }
    SplitFreeConcat(pre + mid, post);
  }

  lemma PairListSplitFree(items: seq<Geometry>)
    requires forall i :: 0 <= i < |items| ==> items[i].Pt?
    ensures SplitFree(PairList(items)) && StartsSafe(PairList(items))
  {
    var ps := Pairs(items);
    forall i | 0 <= i < |ps|
      ensures SplitFree(ps[i]) && StartsSafe(ps[i])
    {
      PairShape(items[i].point);
      NoCommaSplitFree(ps[i]);
    }
    JoinSplitFree(ps);
  }

  /**
   * The text of every typed geometry other than a GeometryCollection can never be cut by
   * the split rule of `fromString`, and starts safely.
   */
  lemma {:induction false} TextSplitFree(g: Geometry)
    requires Typed(g) && !IsKind(g, GeometryCollectionKind)
    ensures SplitFree(ToText(g)) && StartsSafe(ToText(g))
    decreases g
  {
    match g
    case Pt(p) =>
      PairShape(p);
      NoCommaSplitFree(Pair(p));
    case Collection(k, items, _) =>
      match k
      case LineStringKind =>
        PairListSplitFree(items);
      case MultiPointKind =>
        var parts := seq(|items|, i requires 0 <= i < |items| => "(" + Pair(items[i].point) + ")");
        forall i | 0 <= i < |parts|
          ensures SplitFree(parts[i]) && StartsSafe(parts[i])
        {
          PairShape(items[i].point);
          NoCommaSplitFree(Pair(items[i].point));
          SplitFreeWrap("(", Pair(items[i].point), ")");
        }
        JoinSplitFree(parts);
      case MultiLineStringKind =>
        var parts := seq(|items|, i requires 0 <= i < |items| => "(" + ToText(items[i]) + ")");
        forall i | 0 <= i < |parts|
          ensures SplitFree(parts[i]) && StartsSafe(parts[i])
        {
          TextSplitFree(items[i]);
          SplitFreeWrap("(", ToText(items[i]), ")");
        }
        JoinSplitFree(parts);
      case PolygonKind =>
        var parts := seq(|items|, i requires 0 <= i < |items| => ToText(items[i]));
        forall i | 0 <= i < |parts|
          ensures SplitFree(parts[i]) && StartsSafe(parts[i])
        {
          TextSplitFree(items[i]);
        }
        JoinSplitFree(parts);
      case MultiPolygonKind =>
        var parts := seq(|items|, i requires 0 <= i < |items| => "(" + ToText(items[i]) + ")");
        forall i | 0 <= i < |parts|
          ensures SplitFree(parts[i]) && StartsSafe(parts[i])
        {
          TextSplitFree(items[i]);
          SplitFreeWrap("(", ToText(items[i]), ")");
        }
        JoinSplitFree(parts);
  }

  /** The WKT of every typed geometry other than a GeometryCollection starts with a letter and cannot be cut. */
  lemma WktSplitFree(g: Geometry)
    requires Typed(g) && !IsKind(g, GeometryCollectionKind)
    ensures SplitFree(ToWkt(g))
    ensures |ToWkt(g)| > 0 && IsLetter(ToWkt(g)[0])
  {
    TextSplitFree(g);
    var t := ToText(g);
    match g
    case Pt(_) => SplitFreeWrap("POINT(", t, ")");
    case Collection(k, _, _) =>
      match k
      case LineStringKind => SplitFreeWrap("LINESTRING(", t, ")");
      case MultiPointKind => SplitFreeWrap("MULTIPOINT(", t, ")");
      case MultiLineStringKind => SplitFreeWrap("MULTILINESTRING(", t, ")");
      case PolygonKind => SplitFreeWrap("POLYGON((", t, "))");
      case MultiPolygonKind => SplitFreeWrap("MULTIPOLYGON(", t, ")");
  }

  /** Splitting a collection's text with the rule of `fromString` gives back its items' WKT, in order, when no item is itself a GeometryCollection. */
  lemma SplitOfText(g: Geometry)
    requires IsKind(g, GeometryCollectionKind) && Typed(g) && |g.items| > 0
    requires forall i :: 0 <= i < |g.items| ==> !IsKind(g.items[i], GeometryCollectionKind)
    ensures Split(ToText(g)) == ItemWkts(g)
  {
    var ws := ItemWkts(g);
    forall i | 0 <= i < |ws|
      ensures SplitFree(ws[i]) && |ws[i]| > 0 && IsLetter(ws[i][0])
    {
      WktSplitFree(g.items[i]);
    }
    SplitJoin(ws);
  }

  /** PHP `empty()` of a string: the empty string and "0". */
  predicate IsEmptyArgument(s: string) {
    s == "" || s == "0"
  }

  /**
   * `GeometryCollection::fromString($wktArgument, $srid)`. `parseWkt` stands for
   * `Geometry::getWKTClass` followed by that class's `fromWKT` with its default srid.
   */
  function FromString(arg: string, srid: nat, parseWkt: string -> Result<Geometry, Error>): (r: Result<Geometry, Error>)
    ensures IsEmptyArgument(arg) ==> r == Ok(Collection(GeometryCollectionKind, [], 0))
    ensures !IsEmptyArgument(arg) && r.Ok? ==>
      IsKind(r.value, GeometryCollectionKind) && r.value.srid == srid && Typed(r.value)
      && |r.value.items| == |Split(arg)|
      && forall i :: 0 <= i < |Split(arg)| ==> parseWkt(Split(arg)[i]) == Ok(r.value.items[i])
    ensures !IsEmptyArgument(arg) ==>
      (r.Ok? <==> forall i :: 0 <= i < |Split(arg)| ==> parseWkt(Split(arg)[i]).Ok? && Typed(parseWkt(Split(arg)[i]).value))
    ensures !IsEmptyArgument(arg) && r.Err? ==>
      (exists j :: (0 <= j < |Split(arg)| && (forall k :: 0 <= k < j ==> parseWkt(Split(arg)[k]).Ok?)
        && parseWkt(Split(arg)[j]) == r))
      || ((forall k :: 0 <= k < |Split(arg)| ==> parseWkt(Split(arg)[k]).Ok?) && r == Err(TypeError(GeometryCollectionKind)))
  {
    if IsEmptyArgument(arg) then Make(GeometryCollectionKind, [], 0)
    else
      var pieces := Split(arg);
      match MapAll(pieces, parseWkt)
      case Err(e) => Err(e)
      case Ok(gs) =>
        PiecesTyped(pieces, gs, parseWkt);
        Make(GeometryCollectionKind, GeometryValues(gs), srid)
  }

  /** Once every piece has parsed, the collection is built exactly when every parsed geometry is typed. */
  lemma PiecesTyped(pieces: seq<string>, gs: seq<Geometry>, parseWkt: string -> Result<Geometry, Error>)
    requires MapAll(pieces, parseWkt) == Ok(gs)
    ensures AllInstances(GeometryCollectionKind, GeometryValues(gs)) <==>
      forall i :: 0 <= i < |pieces| ==> parseWkt(pieces[i]).Ok? && Typed(parseWkt(pieces[i]).value)
  {
    var values := GeometryValues(gs);
    forall i | 0 <= i < |pieces|
      ensures IsInstance(GeometryCollectionKind, values[i]) <==> parseWkt(pieces[i]).Ok? && Typed(parseWkt(pieces[i]).value)
    {
      assert parseWkt(pieces[i]) == Ok(gs[i]) && values[i] == GeometryValue(gs[i]);
    }
  }

  /**
   * `fromString` inverts `__toString` on a non-empty collection of non-collection items,
   * given an item parser that inverts `toWKT`; the collection takes the srid passed in.
   */
  lemma FromStringOfText(items: seq<Geometry>, s: nat, srid: nat, parseWkt: string -> Result<Geometry, Error>)
    requires Typed(Collection(GeometryCollectionKind, items, s)) && |items| > 0
    requires forall i :: 0 <= i < |items| ==> !IsKind(items[i], GeometryCollectionKind)
    requires forall i :: 0 <= i < |items| ==> parseWkt(ToWkt(items[i])) == Ok(items[i])
    ensures FromString(ToText(Collection(GeometryCollectionKind, items, s)), srid, parseWkt)
            == Ok(Collection(GeometryCollectionKind, items, srid))
  {
    var g := Collection(GeometryCollectionKind, items, s);
    var text := ToText(g);
    SplitOfText(g);
    WktSplitFree(items[0]);
    var w0 := ToWkt(items[0]);
    assert text[0] == w0[0];
    assert !IsEmptyArgument(text) by {
      assert text != "0" by { assert IsLetter(text[0]); }
    }
    var r := FromString(text, srid, parseWkt);
    assert r.Ok?;
    assert r.value.items == items;
  }

  /** An empty collection's text is empty, so `fromString` gives an empty collection and drops the srid. */
  lemma FromStringOfEmpty(s: nat, srid: nat, parseWkt: string -> Result<Geometry, Error>)
    ensures ToWkt(Collection(GeometryCollectionKind, [], s)) == "GEOMETRYCOLLECTION()"
    ensures FromString(ToText(Collection(GeometryCollectionKind, [], s)), srid, parseWkt)
            == Ok(Collection(GeometryCollectionKind, [], 0))
  {
  }

  /** `Point(1, 2)` renders as `POINT(2 1)`: longitude before latitude. */
  lemma PointWktExample()
    ensures ToWkt(Pt(Point(1, 2, 0))) == "POINT(2 1)"
  {
    assert CoordText(1) == "1" && CoordText(2) == "2";
  }

  /** A polygon's WKT puts every ring's pairs into one parenthesised group. */
  lemma PolygonOneGroup(g: Geometry)
    requires IsKind(g, PolygonKind) && Typed(g)
    ensures ToWkt(g) == "POLYGON((" + ToText(g) + "))"
    ensures '(' !in ToText(g) && ')' !in ToText(g)
  {
    var parts := seq(|g.items|, i requires 0 <= i < |g.items| => ToText(g.items[i]));
    forall i | 0 <= i < |parts|
      ensures '(' !in parts[i] && ')' !in parts[i]
    {
      var ring := g.items[i];
      var ps := Pairs(ring.items);
      forall j | 0 <= j < |ps|
        ensures '(' !in ps[j] && ')' !in ps[j]
      {
        PairShape(ring.items[j].point);
      }
      JoinWithout(ps, '(');
      JoinWithout(ps, ')');
    }
    JoinWithout(parts, '(');
    JoinWithout(parts, ')');
  }

  /** Joining with "," parts that lack a character `c` other than a comma gives text that lacks `c`. */
  lemma {:induction false} JoinWithout(parts: seq<string>, c: char)
    requires c != ','
    requires forall i :: 0 <= i < |parts| ==> c !in parts[i]
    ensures c !in Join(",", parts)
    decreases |parts|
  {
    if |parts| > 1 {
      JoinWithout(parts[1..], c);
    }
  }

  /** A two-point LineString. */
  function Segment(a: Point, b: Point): Geometry {
    Collection(LineStringKind, [Pt(a), Pt(b)], 0)
  }

  /** A two-point LineString's text is its two pairs around one comma. */
  lemma SegmentText(a: Point, b: Point)
    ensures Typed(Segment(a, b)) && ToText(Segment(a, b)) == Pair(a) + "," + Pair(b)
  {
    var g := Segment(a, b);
    var ps := Pairs(g.items);
    assert ps == [Pair(a), Pair(b)];
    assert ps[1..] == [Pair(b)];
    assert Join(",", ps) == Pair(a) + "," + Pair(b);
    assert ToText(g) == PairList(g.items);
  }

  /** The WKT of a polygon joins its rings' texts with commas inside double parentheses. */
  lemma PolygonWkt(g: Geometry) returns (parts: seq<string>)
    requires IsKind(g, PolygonKind) && Typed(g)
    ensures |parts| == |g.items| && forall i :: 0 <= i < |parts| ==> parts[i] == ToText(g.items[i])
    ensures ToWkt(g) == "POLYGON((" + Join(",", parts) + "))"
  {
    parts := seq(|g.items|, i requires 0 <= i < |g.items| => ToText(g.items[i]));
  }

  /** Joining three parts puts a comma between each neighbouring pair. */
  lemma JoinThree(parts: seq<string>)
    requires |parts| == 3
    ensures Join(",", parts) == parts[0] + "," + parts[1] + "," + parts[2]
  {
    var rest := parts[1..];
    assert rest[1..] == [parts[2]];
    assert Join(",", rest) == parts[1] + "," + parts[2];
    assert Join(",", parts) == parts[0] + "," + (parts[1] + "," + parts[2]);
  }

  /** The pairs of the corner points used in the polygon example. */
  lemma SmallPairs()
    ensures Pair(Point(1, 1, 0)) == "1 1" && Pair(Point(1, 2, 0)) == "2 1" && Pair(Point(2, 2, 0)) == "2 2"
  {
    assert CoordText(1) == "1" && CoordText(2) == "2";
  }

  /**
   * The texts of the three rings of the polygon example. The points are parameters equal to their literals: with the literals written inline the verifier
   * evaluates the whole rendering at once and runs out of resource.
   */
  lemma SegmentTextsExample(p11: Point, p12: Point, p22: Point)
    requires p11 == Point(1, 1, 0) && p12 == Point(1, 2, 0) && p22 == Point(2, 2, 0)
    ensures ToText(Segment(p11, p12)) == "1 1,2 1"
    ensures ToText(Segment(p12, p22)) == "2 1,2 2"
    ensures ToText(Segment(p22, p11)) == "2 2,1 1"
  {
    SmallPairs();
    SegmentText(p11, p12);
    SegmentText(p12, p22);
    SegmentText(p22, p11);
  }

  /**
   * The polygon of three two-point rings from the library's comparison tests. The points are parameters equal to their literals: with the literals written inline the verifier
   * evaluates the whole rendering at once and runs out of resource.
   */
  lemma PolygonWktExample(p11: Point, p12: Point, p22: Point)
    requires p11 == Point(1, 1, 0) && p12 == Point(1, 2, 0) && p22 == Point(2, 2, 0)
    ensures Typed(Collection(PolygonKind, [Segment(p11, p12), Segment(p12, p22), Segment(p22, p11)], 0))
    ensures ToWkt(Collection(PolygonKind, [Segment(p11, p12), Segment(p12, p22), Segment(p22, p11)], 0))
            == "POLYGON((1 1,2 1,2 1,2 2,2 2,1 1))"
  {
    var g := Collection(PolygonKind, [Segment(p11, p12), Segment(p12, p22), Segment(p22, p11)], 0);
    SegmentText(p11, p12);
    SegmentText(p12, p22);
    SegmentText(p22, p11);
    assert Typed(g);
    var parts := PolygonWkt(g);
    JoinThree(parts);
    SegmentTextsExample(p11, p12, p22);
    PolygonLiteral(parts[0], parts[1], parts[2]);
  }

  /**
   * The literal of the example, assembled from its rings' texts, which come in as parameters
   * for the same reason as the points above.
   */
  lemma PolygonLiteral(t1: string, t2: string, t3: string)
    requires t1 == "1 1,2 1" && t2 == "2 1,2 2" && t3 == "2 2,1 1"
    ensures "POLYGON((" + t1 + "," + t2 + "," + t3 + "))" == "POLYGON((1 1,2 1,2 1,2 2,2 2,1 1))"
  {
  }
}
