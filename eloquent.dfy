/**
 * The query-builder side: `SpatialExpression`, the deferred SQL fragment that carries a
 * geometry, and `Builder::update`, which wraps every geometry of an update payload in one.
 */
module Eloquent {
  import opened Geometry
  import Wkt

  /** `new SpatialExpression($geometry)`: an Expression whose value is the geometry. */
  datatype SpatialExpression = SpatialExpression(value: Geometry)

  /** The query grammar handed to `getValue`; the expression ignores it. */
  datatype Grammar = Grammar(name: string)

  /** A value bound to a `?` of the statement. */
  datatype Binding = TextBinding(text: string) | NumberBinding(number: int)

  const Placeholder: string := "ST_GeomFromText(?, ?)"

  /** The positions of the `?` placeholders of a statement, in order. */
  function Marks(s: string): seq<nat>
    decreases |s|
  {
    if |s| == 0 then []
    else if s[|s| - 1] == '?' then Marks(s[..|s| - 1]) + [|s| - 1]
    else Marks(s[..|s| - 1])
  }

  /** `Marks` lists exactly the positions of `?`, in increasing order. */
  lemma {:induction false} MarksAreMarks(s: string)
    ensures forall i :: 0 <= i < |Marks(s)| ==> Marks(s)[i] < |s| && s[Marks(s)[i]] == '?'
    ensures forall j :: 0 <= j < |s| && s[j] == '?' ==> j in Marks(s)
    ensures forall i, j :: 0 <= i < j < |Marks(s)| ==> Marks(s)[i] < Marks(s)[j]
    decreases |s|
  {
    if |s| > 0 {
      var t := s[..|s| - 1];
      MarksAreMarks(t);
      assert forall j :: 0 <= j < |t| ==> t[j] == s[j];
    }
  }

  /** A statement without a `?` has no placeholder. */
  lemma {:induction false} NoMarks(s: string)
    requires forall j :: 0 <= j < |s| ==> s[j] != '?'
    ensures Marks(s) == []
    decreases |s|
  {
    if |s| > 0 {
      NoMarks(s[..|s| - 1]);
    }
  }

  /** Text without a `?` adds no placeholder. */
  lemma {:induction false} MarksAfterPlain(s: string, t: string)
    requires forall j :: 0 <= j < |t| ==> t[j] != '?'
    ensures Marks(s + t) == Marks(s)
    decreases |t|
  {
    if |t| == 0 {
      assert s + t == s;
    } else {
      var u := s + t;
      assert u[..|u| - 1] == s + t[..|t| - 1] && u[|u| - 1] == t[|t| - 1];
      MarksAfterPlain(s, t[..|t| - 1]);
    }
  }

  /** A `?` at the end is the last placeholder. */
  lemma MarksAfterMark(s: string)
    ensures Marks(s + "?") == Marks(s) + [|s|]
  {
    assert (s + "?")[..|s|] == s;
  }

  /** Two `?` between plain texts are the only placeholders. */
  lemma TwoMarks(a: string, b: string, c: string) returns (s: string)
    requires forall j :: 0 <= j < |a| ==> a[j] != '?'
    requires forall j :: 0 <= j < |b| ==> b[j] != '?'
    requires forall j :: 0 <= j < |c| ==> c[j] != '?'
    ensures s == a + "?" + b + "?" + c
    ensures Marks(s) == [|a|, |a| + 1 + |b|]
  {
    var x := a + "?" + b;
    NoMarks(a);
    OneMoreMark(a, b);
    assert Marks(x) == [|a|] && |x| == |a| + 1 + |b|;
    OneMoreMark(x, c);
    s := x + "?" + c;
    assert Marks(s) == [|a|] + [|x|];
  }

  /** A `?` followed by plain text adds exactly one placeholder, at the position of the `?`. */
  lemma OneMoreMark(s: string, t: string)
    requires forall j :: 0 <= j < |t| ==> t[j] != '?'
    ensures Marks(s + "?" + t) == Marks(s) + [|s|]
  {
    MarksAfterMark(s);
    MarksAfterPlain(s + "?", t);
  }

  /** The fragment has exactly two placeholders, at positions 16 and 19. */
  lemma PlaceholderMarks()
    ensures Marks(Placeholder) == [16, 19]
  {
    var s := TwoMarks("ST_GeomFromText(", ", ", ")");
    assert s == Placeholder;
  }

  /** `getValue`: the same SQL fragment, with its two placeholders, whatever the grammar. */
  function GetValue(e: SpatialExpression, grammar: Grammar): (sql: string)
    ensures sql == Placeholder
    ensures |Marks(sql)| == 2
  {
    PlaceholderMarks();
    Placeholder
  }

  /** `getSpatialValue`: the wrapped geometry's WKT. */
  function GetSpatialValue(e: SpatialExpression): (wkt: string)
    requires Typed(e.value)
    ensures wkt == Wkt.ToWkt(e.value)
  {
    Wkt.ToWkt(e.value)
  }

  /** `getSrid`: the wrapped geometry's SRID. */
  function GetSrid(e: SpatialExpression): (srid: nat)
    ensures srid == Srid(e.value)
  {
    Srid(e.value)
  }

  /**
   * The values bound to the two `?` of `getValue`, in the order they appear: the WKT first,
   * then the SRID. A clause that uses the expression binds these before its own values.
   */
  function Bindings(e: SpatialExpression): (b: seq<Binding>)
    requires Typed(e.value)
    ensures |b| == |Marks(Placeholder)| == 2
    ensures b[0] == TextBinding(GetSpatialValue(e)) && b[1] == NumberBinding(GetSrid(e))
  {
    PlaceholderMarks();
    [TextBinding(GetSpatialValue(e)), NumberBinding(GetSrid(e))]
  }

  /** Every placeholder of `getValue` receives one binding, whatever the grammar. */
  lemma PlaceholdersMatchBindings(e: SpatialExpression, grammar: Grammar)
    requires Typed(e.value)
    ensures |Marks(GetValue(e, grammar))| == |Bindings(e)|
    ensures Marks(GetValue(e, grammar))[0] < Marks(GetValue(e, grammar))[1]
  {
    PlaceholderMarks();
  }

  /**
   * The bindings of a clause that places the expression before its own `rest` values. It stands
   * for the query builder's binding list, whose code is not part of this model.
   */
  function ClauseBindings(e: SpatialExpression, rest: seq<Binding>): (b: seq<Binding>)
    requires Typed(e.value)
    ensures |b| == 2 + |rest|
    ensures b[0] == TextBinding(Wkt.ToWkt(e.value)) && b[1] == NumberBinding(Srid(e.value))
    ensures forall i :: 0 <= i < |rest| ==> b[2 + i] == rest[i]
  {
    Bindings(e) + rest
  }

  /**
   * A distance clause on `Point(1, 2)` binds `POINT(2 1)` first and the distance at index 2.
   * The point is a parameter equal to its literal: with the literals written inline the verifier
   * evaluates the whole rendering at once and runs out of resource.
   */
  lemma DistanceBindingsExample(p: Point)
    requires p == Point(1, 2, 0)
    ensures ClauseBindings(SpatialExpression(Pt(p)), [NumberBinding(10)])[0] == TextBinding("POINT(2 1)")
    ensures ClauseBindings(SpatialExpression(Pt(p)), [NumberBinding(10)])[2] == NumberBinding(10)
  {
    Wkt.PointWktExample();
  }

  // ---------------------------------------------------------------------------
  // Builder::update
  // ---------------------------------------------------------------------------

  /** A value of an update payload: a geometry object, a spatial expression, or anything else. */
  datatype Field =
    | GeometryField(geometry: Geometry)
    | ExpressionField(expression: SpatialExpression)
    | OtherField(description: string)

  /** One `column => value` pair of the payload. */
  datatype Column = Column(name: string, value: Field)

  /** `asWKT`: a spatial expression wrapping that same geometry. */
  function AsWkt(g: Geometry): (e: SpatialExpression)
    ensures e.value == g
  {
    SpatialExpression(g)
  }

  /** The loop body: a geometry (a `GeometryInterface`) is wrapped, anything else is kept. */
  function RewriteField(f: Field): (r: Field)
    ensures !r.GeometryField?
    ensures f.GeometryField? ==> r.ExpressionField? && r.expression.value == f.geometry
    ensures !f.GeometryField? ==> r == f
  {
    if f.GeometryField? then ExpressionField(AsWkt(f.geometry)) else f
  }

  /** The payload after the loop of `update`. */
  function Rewritten(payload: seq<Column>): (r: seq<Column>)
    ensures |r| == |payload|
    ensures forall i :: 0 <= i < |payload| ==> r[i].name == payload[i].name
    ensures forall i :: 0 <= i < |payload| ==> payload[i].value.GeometryField? ==>
      r[i].value == ExpressionField(SpatialExpression(payload[i].value.geometry))
    ensures forall i :: 0 <= i < |payload| ==> !payload[i].value.GeometryField? ==> r[i] == payload[i]
    ensures forall i :: 0 <= i < |r| ==> !r[i].value.GeometryField?
  {
    seq(|payload|, i requires 0 <= i < |payload| => Column(payload[i].name, RewriteField(payload[i].value)))
  }

  /** A spatial expression is no geometry, so a rewritten payload passes a second rewrite unchanged. */
  lemma RewriteIdempotent(payload: seq<Column>)
    ensures Rewritten(Rewritten(payload)) == Rewritten(payload)
  {
    var r := Rewritten(payload);
    assert forall i :: 0 <= i < |r| ==> Rewritten(r)[i] == r[i];
  }

  /**
   * An Eloquent builder. The inherited `update` (which reaches the database) is recorded
   * as the list of payloads it has been called with.
   */
  class Builder {
    var baseUpdates: seq<seq<Column>>

    constructor ()
      ensures baseUpdates == []
    {
      baseUpdates := [];
    }

    /** `update`: rewrite the payload in place, then call the inherited `update` once with it. */
    method Update(values: seq<Column>)
      modifies this
      ensures baseUpdates == old(baseUpdates) + [Rewritten(values)]
    {
      var payload := values;
      var i := 0;
      while i < |payload|
        invariant 0 <= i <= |payload| == |values|
        invariant forall k :: 0 <= k < i ==> payload[k] == Rewritten(values)[k]
        invariant forall k :: i <= k < |payload| ==> payload[k] == values[k]
      {
        if payload[i].value.GeometryField? {
          payload := payload[i := Column(payload[i].name, ExpressionField(AsWkt(payload[i].value.geometry)))];
        }
        i := i + 1;
      }
      assert payload == Rewritten(values);
      baseUpdates := baseUpdates + [payload];
    }
  }
}
