# laravel-mysql-spatial geometry containers, in Dafny

This project models the container layer of the spatial types of laravel-mysql-spatial and proves properties of that model. The layer has five parts:

- `GeometryCollection`: a validated, array-like container of geometries, with WKT (`toWKT`, `__toString`, `fromString`) and GeoJSON (`fromJson`, `jsonSerialize`) mappings.
- `PointCollection`: the same container restricted to points, with `prependPoint`, `appendPoint`, `insertPoint`, `getPoints` and `toPairList`.
- `Polygon`: its WKT text and its GeoJSON Polygon mapping.
- `SpatialExpression`: the deferred `ST_GeomFromText(?, ?)` fragment that carries a geometry.
- `Builder::update`: wraps every geometry of an update payload in such an expression before it delegates.

Modules:

- `Geometry` (`geometry.dfy`) holds the data model. A geometry is a `Pt` or a `Collection` tagged with its class (`Kind`). Each `Kind` fixes `minimumCollectionItems` and `collectionItemType`. The same module holds the validation functions and method and `Make`, the value a constructor builds.
- `PhpArray` (`phparray.dfy`) models a PHP array with integer keys as an ordered list of entries. It covers assignment, `unset` and renumbering.
- `Collections` (`collection.dfy`) is the `GeometryCollection` class. Its `$this->items` and the next free key PHP uses for `$this->items[] = ...` are fields, and the array-access and `PointCollection` methods change it in place.
- `Strings` (`strings.dfy`) holds `implode` and an exact model of `preg_split('/,\s*(?=[A-Za-z])/', ...)`.
- `Wkt` (`wkt.dfy`) holds `toWKT`, `__toString` and `fromString`, and the split round trip.
- `GeoJson` (`geojson.dfy`) holds the `fromJson` and `jsonSerialize` loops of `Polygon` and `GeometryCollection`. Each loop is proved equal to a recursive specification function, and the round trips are proved about those functions.
- `Eloquent` (`eloquent.dfy`) holds `SpatialExpression` and `Builder`.
- `Wrappers` and `Numbers` hold `Option`/`Result`, a first-error `foreach`, and the decimal text of integers.

The model follows the code. The paired `fromJson`/`jsonSerialize` and `fromString`/`__toString` read as inverses, and OGC Well-Known Text gives each polygon ring its own parentheses. The round trips the model proves hold only in the forms below, and these points are where the code departs from those expectations:

- `GeometryCollection::jsonSerialize` produces a GeoJSON GeometryCollection, but `fromJson` accepts only a FeatureCollection. No serialized collection can be read back (`GeoJson.CollectionJsonNotReadBack`). The round trip holds only after each item is wrapped in a Feature (`GeoJson.FeatureCollectionRoundTrip`).
- `Polygon::jsonSerialize` hands every ring to the geojson library's `LinearRing`. That class needs four positions and a closed ring, so a polygon of open or short rings has no GeoJSON form. The library's own test polygon is one of them (`GeoJson.ShortRingsHaveNoGeoJson`).
- `fromString` drops the collection's srid when the argument is empty, and PHP `empty("0")` counts `"0"` as empty.
- The text of a nested GeometryCollection can be cut by the split rule, so `fromString` inverts `__toString` only for collections without nested collections.
- `Polygon::toWKT` puts all rings in one `((...))` group, not one group per ring (`Wkt.PolygonOneGroup`).

## Model

| member | source | states |
|---|---|---|
| Geometry.MinimumItems | src/Types/GeometryCollection.php:23 | definition of `minimumCollectionItems` per class (0 for GeometryCollection, the subclasses' own values otherwise); `Geometry.ValidateItemCount` and `Geometry.Make` state the count check on it |
| Geometry.ItemTypeOk | src/Types/GeometryCollection.php:30 | definition of `$item instanceof collectionItemType` per class (any geometry for GeometryCollection, a Point for the point collections of src/Types/PointCollection.php:15); `Geometry.ValidateItemType` and `Geometry.Make` state the type check on it |
| Geometry.ItemTypeName | src/Types/GeometryCollection.php:204-209 | definition: the class name `collectionItemType` holds, printed in the type error (`Geometry.TypeError`) |
| Geometry.ValidateItemCount | src/Types/GeometryCollection.php:181-193 | no error exactly when the count reaches `minimumCollectionItems`; otherwise the count error of the class |
| Geometry.CountError | src/Types/GeometryCollection.php:183-191 | definition: "<class> must contain at least <n> entry/entries"; `Geometry.CountErrorWording` proves the singular/plural choice |
| Geometry.TypeError | src/Types/GeometryCollection.php:204-209 | definition: "<class> must be a collection of <item class>" |
| Geometry.CountErrorWording | src/Types/GeometryCollection.php:183-191 | the count message ends in " entry" when the minimum is 1 and in " entries" otherwise |
| Geometry.ValidateItemType | src/Types/GeometryCollection.php:202-211 | no error exactly when the value is an instance of the item type; otherwise "... must be a collection of ..." |
| Geometry.ValidateItems | src/Types/GeometryCollection.php:165-172 | no error exactly when the count suffices and every item has the item type; a short list always gets the count error, a long enough list with a bad item the type error |
| Geometry.Make | src/Types/GeometryCollection.php:45-52 | construction succeeds exactly when validation passes, with the matching error otherwise; on success the collection has the given kind and srid and holds exactly the given items in order |
| Collections.GeometryCollection.Valid | src/Types/GeometryCollection.php:106-115 | the object invariant: keys distinct and below the next free key, every item of the class's item type (so a PointCollection holds only points); `Create` establishes it and every mutator's `ensures` keeps it |
| Collections.GeometryCollection.Create | src/Types/GeometryCollection.php:45-52 | an object is allocated only when every check passes; on failure the error of the checks is returned; on success the object holds the validated items in order, keyed 0 .. n-1 as a list argument is, with the next free key after them |
| Collections.GeometryCollection.OffsetExists | src/Types/GeometryCollection.php:96-99 | true exactly when the key is present |
| Collections.GeometryCollection.OffsetGet | src/Types/GeometryCollection.php:101-104 | null exactly for absent keys; otherwise the item stored under that key |
| Collections.GeometryCollection.OffsetSet | src/Types/GeometryCollection.php:106-115 | a wrong-typed value raises the type error and changes nothing; a null offset appends under the next free key; an explicit offset sets only that key, in place when present and at the end when new; every other key keeps its item; the count grows by one exactly when the key is new; the item-type invariant is kept; the point collections' override (src/Types/PointCollection.php:24-29) applies the same item-type condition before any change |
| Collections.GeometryCollection.OffsetUnset | src/Types/GeometryCollection.php:117-120 | the key is gone afterwards, every other key keeps its item, the count drops by one exactly when the key was present, and the next free key stays |
| Collections.GeometryCollection.Count | src/Types/GeometryCollection.php:122-125 | the number of stored items |
| Collections.GeometryCollection.GetPoints | src/Types/PointCollection.php:34-37 | `$this->items` itself: the same keys in the same order (a gap left by `offsetUnset` stays), each the point stored under that key, so a lookup by key finds the same point |
| Collections.GeometryCollection.ToPairList | src/Types/PointCollection.php:17-22 | the comma-join of each point's `lng lat` pair, in the order of `getPoints`; for a LineString this is its `__toString` |
| Collections.GeometryCollection.PrependPoint | src/Types/PointCollection.php:46-49 | the items become `[p] + old items`, renumbered from 0 |
| Collections.GeometryCollection.AppendPoint | src/Types/PointCollection.php:57-60 | the items become `old items + [p]`, under the next free key |
| Collections.GeometryCollection.InsertPoint | src/Types/PointCollection.php:70-77 | raises "$index is greater than the size of the array" exactly when `index > count - 1` (so any non-negative index on an empty collection, and `index == count`; a negative index on an empty collection inserts at position 0) and then changes nothing; otherwise the items become `items[..pos] + [p] + items[pos..]` renumbered, so a non-negative index holds `p` and the count grows by one |
| Collections.SplicePosition | src/Types/PointCollection.php:76 | `array_splice`'s position: the index itself when non-negative, counted from the end and clamped at 0 when negative |
| PhpArray.PutLookup | src/Types/GeometryCollection.php:113 | after `$a[$k] = $v` the key holds `v`, every other key holds what it held, and keys stay distinct |
| PhpArray.PutOrder | src/Types/GeometryCollection.php:111-114 | assigning to a present key keeps every position; a new key is appended at the end |
| PhpArray.RemoveLookup | src/Types/GeometryCollection.php:119 | after `unset` the key is absent, other keys are untouched, and the length drops by one exactly when the key was present |
| PhpArray.RenumberLookup | src/Types/PointCollection.php:48 | a renumbered list has keys 0 .. n-1 holding the values in order |
| PhpArray.Lookup | src/Types/GeometryCollection.php:101-104 | definition: the value of the first entry with the key, or null; `PhpArray.LookupFinds` proves it answers exactly for present keys |
| PhpArray.Put | src/Types/GeometryCollection.php:111-113 | definition: `$a[$k] = $v` overwrites the entry with the key in place or appends one; `PhpArray.PutLookup` and `PhpArray.PutOrder` state its meaning |
| PhpArray.Remove | src/Types/GeometryCollection.php:119 | definition: `unset` drops the entry with the key and keeps the others in order; `PhpArray.RemoveLookup` states its meaning |
| PhpArray.Renumber | src/Types/PointCollection.php:48 | definition: a list keyed 0 .. n-1; `PhpArray.RenumberLookup` states its meaning |
| Wrappers.MapAll | src/Types/GeometryCollection.php:79-83 | mapping a throwing function succeeds exactly when every element succeeds, with one result per element in order; otherwise the error is that of some element all of whose predecessors succeed |
| Wrappers.MapAllFirstError | src/Types/GeometryCollection.php:138-140 | the error is that of the first failing element |
| Strings.Join | src/Types/GeometryCollection.php:66-68 | definition of `implode`: the parts with the separator between neighbours; `Strings.SplitJoin` is its partial inverse |
| Strings.Split | src/Types/GeometryCollection.php:77 | definition of `preg_split` with `,\s*(?=[A-Za-z])`: cut at each leftmost match, the matched comma and white space removed; `Strings.SplitJoin` states its meaning |
| Strings.FirstMatch | src/Types/GeometryCollection.php:77 | the leftmost comma whose following white space ends at a letter, or the end of the text |
| Strings.SplitJoin | src/Types/GeometryCollection.php:77 | splitting the comma-join of pieces that cannot be cut, all but the first starting with a letter, gives back exactly those pieces |
| Wkt.Pair | src/Types/PointCollection.php:19-21 | definition of `toPair`: longitude, a space, latitude; `Wkt.PairShape` proves it has no comma, parenthesis or letter |
| Wkt.PairList | src/Types/PointCollection.php:17-22 | definition: the pairs joined by commas; `Collections.GeometryCollection.ToPairList` is the object-level member |
| Wkt.ToText | src/Types/GeometryCollection.php:64-69 | definition of `__toString` per class (for a collection the items' `toWKT` joined by commas, for a polygon its rings' texts, src/Types/Polygon.php:38-43); `Wkt.SplitOfText` and `Wkt.FromStringOfText` state its meaning |
| Wkt.ToWkt | src/Types/GeometryCollection.php:59-62 | definition of `toWKT` per class (`GEOMETRYCOLLECTION(...)`, and `POLYGON((...))` at src/Types/Polygon.php:11-14); `Wkt.WktSplitFree` and `Wkt.PolygonOneGroup` state its meaning |
| Wkt.WktSplitFree | src/Types/GeometryCollection.php:64-69 | the WKT of every geometry other than a GeometryCollection starts with a letter and contains no place the split rule would cut |
| Wkt.SplitOfText | src/Types/GeometryCollection.php:64-77 | splitting `__toString` of a non-empty collection without nested collections gives exactly the items' `toWKT`, in order |
| Wkt.IsEmptyArgument | src/Types/GeometryCollection.php:73 | PHP `empty()` of a string: `""` and `"0"`; the first ensures of `Wkt.FromString` states its effect |
| Wkt.FromString | src/Types/GeometryCollection.php:71-84 | an empty argument (`""` or `"0"`) gives an empty collection with srid 0; otherwise success exactly when every piece parses to a typed geometry, and then one item per piece, in order, with the given srid; on failure the error of the first piece that does not parse, or, when all parse, the constructor's type error |
| Wkt.FromStringOfText | src/Types/GeometryCollection.php:64-84 | `fromString(__toString(c), srid)` gives back the items of `c` with the given srid, when no item is a collection and the item parser inverts `toWKT` |
| Wkt.FromStringOfEmpty | src/Types/GeometryCollection.php:59-75 | an empty collection's WKT is `GEOMETRYCOLLECTION()` and reading its text back gives an empty collection |
| Wkt.PointWktExample | tests/Integration/SpatialTraitTest.php:254 | `Point(1, 2)` gives `POINT(2 1)` |
| Wkt.PolygonOneGroup | src/Types/Polygon.php:11-14 | a polygon's WKT is `POLYGON((` + its text + `))`, and the text holds no parenthesis, so every ring is in one group |
| Wkt.PolygonWktExample | tests/Integration/SpatialTraitTest.php:396 | the test polygon of three two-point rings gives `POLYGON((1 1,2 1,2 1,2 2,2 2,1 1))` |
| GeoJson.PointAt | src/Types/Polygon.php:30 | definition of `new Point($coordinate[1], $coordinate[0])`: latitude from y, longitude from x, srid 0; `GeoJson.PolygonJsonRoundTrip` and `GeoJson.AltitudeLost` state what survives |
| GeoJson.DecodeRings | src/Types/Polygon.php:26-35 | success exactly when every ring has two or more positions, else the LineString count error; then one typed LineString per ring, in order, of that ring's points |
| GeoJson.DecodePolygon | src/Types/Polygon.php:16-36 | any object that is not a GeoJSON Polygon raises "Expected GeoJson\Geometry\Polygon, got ..."; a ring of fewer than two positions raises the LineString count error, no ring the Polygon count error; success exactly otherwise, with one LineString per ring in order, each position `[x, y]` becoming `Point(lat = y, lng = x)`, srid 0 |
| GeoJson.PolygonFromJson | src/Types/Polygon.php:26-35 | the nested loops compute exactly `DecodePolygon` |
| GeoJson.EncodeRings | src/Types/Polygon.php:52-55 | success exactly when every line string's positions form a linear ring, and then those positions in order; otherwise the error of the first line string that is no ring |
| GeoJson.EncodePolygon | src/Types/Polygon.php:50-58 | succeeds exactly when every line string's `[lng, lat]` positions form a linear ring; then one ring per line string in order; otherwise the error of the first line string that is no ring |
| GeoJson.RingJson | src/Types/Polygon.php:54 | a line string of fewer than two points fails as a GeoJSON LineString, of two or three points as a LinearRing that is too short, and of four or more points unless the first and last positions are equal |
| GeoJson.PolygonJsonSerialize | src/Types/Polygon.php:50-58 | the loop computes exactly `EncodePolygon` |
| GeoJson.PolygonJsonRoundTrip | src/Types/Polygon.php:16-58 | a GeoJSON Polygon of two-dimensional linear rings survives `fromJson` then `jsonSerialize` unchanged |
| GeoJson.AltitudeLost | src/Types/Polygon.php:30 | a position with an altitude (or any further element) does not survive `fromJson` then `jsonSerialize`: only `[lng, lat]` comes back |
| GeoJson.PolygonRoundTrip | src/Types/Polygon.php:16-58 | a polygon with srid 0 throughout whose rings are closed and have four or more points survives `jsonSerialize` then `fromJson` unchanged |
| GeoJson.ShortRingsHaveNoGeoJson | src/Types/Polygon.php:54 | the test polygon of two-point rings cannot be serialized: "LinearRing requires at least four positions" |
| GeoJson.DecodeFeatureCollection | src/Types/GeometryCollection.php:127-143 | anything but a FeatureCollection raises InvalidGeoJson; success exactly when every feature decodes to a typed geometry; then one item per feature, in feature order, srid 0; otherwise the error of the first failing feature, or, when every feature decodes, the constructor's type error |
| GeoJson.CollectionFromJson | src/Types/GeometryCollection.php:137-142 | the loop computes exactly `DecodeFeatureCollection` |
| GeoJson.EncodeCollection | src/Types/GeometryCollection.php:150-158 | success exactly when every item serializes; then a GeoJSON GeometryCollection with one object per item, in item order; otherwise the first item's error |
| GeoJson.CollectionJsonSerialize | src/Types/GeometryCollection.php:152-157 | the loop computes exactly `EncodeCollection` |
| GeoJson.CollectionJsonNotReadBack | src/Types/GeometryCollection.php:127-158 | the output of `jsonSerialize` is a GeoJSON GeometryCollection, which `fromJson` always rejects |
| GeoJson.FeatureCollectionRoundTrip | src/Types/GeometryCollection.php:127-143 | wrapping each serialized item in a Feature gives a FeatureCollection that `fromJson` reads back into the same items with srid 0 |
| Eloquent.GetValue | src/Eloquent/SpatialExpression.php:10-13 | `ST_GeomFromText(?, ?)` whatever the grammar, with exactly two placeholders |
| Eloquent.MarksAreMarks | src/Eloquent/SpatialExpression.php:10-13 | the placeholder list holds exactly the positions of `?`, in increasing order |
| Eloquent.PlaceholderMarks | src/Eloquent/SpatialExpression.php:10-13 | the fragment's placeholders are at positions 16 and 19 and nowhere else |
| Eloquent.GetSpatialValue | src/Eloquent/SpatialExpression.php:15-18 | the wrapped geometry's WKT |
| Eloquent.GetSrid | src/Eloquent/SpatialExpression.php:20-23 | the wrapped geometry's SRID |
| Eloquent.Bindings | src/Eloquent/SpatialExpression.php:10-23 | one binding per placeholder of the fragment: the WKT (`getSpatialValue`) for the first, the SRID (`getSrid`) for the second |
| Eloquent.PlaceholdersMatchBindings | src/Eloquent/SpatialExpression.php:10-23 | whatever the grammar, `getValue` has as many placeholders as the expression has bindings |
| Eloquent.DistanceBindingsExample | tests/Integration/SpatialTraitTest.php:254-255 | a distance clause on `Point(1, 2)` binds `POINT(2 1)` at 0 and the distance at 2 |
| Eloquent.AsWkt | src/Eloquent/Builder.php:21-24 | the expression wraps that same geometry |
| Eloquent.RewriteField | src/Eloquent/Builder.php:13-15 | a geometry becomes an expression wrapping that geometry, any other value is kept, and no geometry is left |
| Eloquent.Rewritten | src/Eloquent/Builder.php:12-16 | every geometry value becomes a SpatialExpression of that geometry; other values, all keys and their order are unchanged; no geometry is left |
| Eloquent.RewriteIdempotent | src/Eloquent/Builder.php:13 | rewriting twice is rewriting once |
| Eloquent.Builder.Update | src/Eloquent/Builder.php:10-19 | the in-place loop rewrites the payload, and the inherited `update` is called exactly once, with the rewritten payload |

## Left out

- JSON text input to `fromJson` (`json_decode` and `GeoJson::jsonUnserialize`) is not modelled; GeoJSON is a datatype of already decoded objects.
- Coordinates are integers, not PHP floats, and are rendered in decimal. PHP's float-to-string formatting is left out. The WKT proofs (`Wkt.WktSplitFree`, `Wkt.SplitOfText`, `Wkt.FromStringOfText`) use only that a coordinate's text has no comma, white space, letter or parenthesis. PHP floats break that: `(string)INF` is `INF`, `(string)NAN` is `NAN` and `-INF` is `-INF`, so `LINESTRING(1 1,INF 2)` is cut at the comma before `INF`, and `fromString(__toString(c))` does not give `c` back for such coordinates. Exponent notation (`1.0E+25`) has a letter too, but no comma before it, so it is not cut.
- `Geometry::fromJson` (applied to each feature), `Geometry::getWKTClass` with the item classes' `fromWKT`, and each item's own `jsonSerialize` belong to classes that are not part of this model. They are function parameters.
- The WKT of Point, LineString, MultiPoint, MultiLineString and MultiPolygon and the item counts and types of those classes belong to classes that are not part of this model. They follow the upstream library's conventions: `POINT(lng lat)`, `LINESTRING(pairs)`, `MULTIPOINT((pair),...)`, `MULTILINESTRING((..),...)`, `MULTIPOLYGON((..),...)`; LineString needs 2 items and the others 1.
- The checks of the external geojson library (`LineString` needs two positions, `LinearRing` four positions and a closed ring) are modelled from that library's behaviour with its messages; its other checks are left out.
- Offsets are integers. String keys, numeric-string offsets and non-integer `mixed` offsets are left out. The next free key follows the rule before PHP 8.3: it starts at 0 and becomes `k + 1` after a larger key `k`.
- `getGeometries`, `toArray` and `getIterator` return `$this->items` unchanged; they are the field `entries` and are not separate members.
- The database effect and the return value of the inherited `update` are left out; the model records the payload of each call.
- Eloquent.GetValue: its contract is the constant itself; the `'axis-order=long-lat'` suffix comes from a grammar class that is not part of this model.
- Collections.GeometryCollection.Create: the argument is a list of values, so the stored keys are 0 .. n-1. PHP keeps the argument array's own keys (`new MultiPoint([5 => $p])` holds key 5, and the next free key is 6); such arrays are not modelled.
- Geometries are held by value. PHP objects are shared handles, so changing a LineString after it went into a Polygon changes the Polygon too. That aliasing is not modelled.
- Eloquent.ClauseBindings: it stands for the query builder's binding list, whose code is not part of this model. It only places the expression's two bindings before a clause's own values, as the distance tests expect.
- Positions in GeoJSON may carry more than two elements. `fromJson` keeps only the first two, and `jsonSerialize` writes `[lng, lat]`, so an altitude is lost (`GeoJson.AltitudeLost`); the round trip `GeoJson.PolygonJsonRoundTrip` is stated for two-dimensional positions only.
- SRIDs are `nat`. PHP passes any integer srid through unchecked; negative SRIDs are not modelled.
- Integer overflow of PHP keys and of the next free key is left out (Dafny integers are unbounded).
