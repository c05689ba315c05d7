/**
 * `GeometryCollection` and `PointCollection` as objects: a validated, array-like container
 * whose `$this->items` changes in place.
 */
module Collections {
  import opened Wrappers
  import opened Geometry
  import opened PhpArray
  import Strings
  import Wkt

  /** The exception of `insertPoint` for an index past the last item. */
  const IndexTooLarge: string := "$index is greater than the size of the array"

  /** The position at which `array_splice` inserts: a negative index counts from the end, clamped at 0. */
  function SplicePosition(count: nat, index: int): (pos: nat)
    requires index <= count
    ensures pos <= count
    ensures 0 <= index ==> pos == index
    ensures index < 0 ==> pos == if count + index < 0 then 0 else count + index
  {
    if index >= 0 then index
    else if count + index < 0 then 0
    else count + index
  }

  class GeometryCollection {
    /** The concrete class, which fixes `minimumCollectionItems` and `collectionItemType`. */
    const kind: Kind
    var srid: nat
    /** `$this->items`, in iteration order. */
    var entries: seq<Entry<Geometry>>
    /** The key PHP gives the next `$this->items[] = ...`. */
    var nextKey: int

    /** Keys are distinct and below the next free key; every item is of the collection's item type. */
    ghost predicate Valid()
      reads this
    {
      DistinctKeys(entries)
      && 0 <= nextKey
      && (forall i :: 0 <= i < |entries| ==> entries[i].key < nextKey)
      && (forall i :: 0 <= i < |entries| ==> ItemTypeOk(kind, entries[i].value) && Typed(entries[i].value))
    }

    /** The items in iteration order. */
    function Items(): seq<Geometry>
      reads this
    {
      Values(entries)
    }

    /** The geometry value this object stands for. */
    function Model(): (g: Geometry)
      reads this
      requires Valid()
      ensures Typed(g) && IsKind(g, kind) && g.srid == srid && g.items == Items()
    {
      Collection(kind, Items(), srid)
    }

    /** Stores already validated items as a list keyed 0 .. n-1. */
    constructor Store(k: Kind, items: seq<Geometry>, s: nat)
      requires forall i :: 0 <= i < |items| ==> ItemTypeOk(k, items[i]) && Typed(items[i])
      ensures Valid()
      ensures kind == k && srid == s && entries == Renumber(items) && nextKey == |items|
      ensures Items() == items
    {
      kind := k;
      srid := s;
      entries := Renumber(items);
      nextKey := |items|;
      new;
      RenumberLookup(items, 0);
    }

    /**
     * `new K($geometries, $srid)`: all checks run before anything is stored, so a failure
     * leaves no object behind; on success the object holds exactly the given items.
     */
    static method Create(k: Kind, values: seq<Value>, s: nat) returns (r: Result<GeometryCollection, Error>)
      ensures r.Ok? <==> Make(k, values, s).Ok?
      ensures r.Err? ==> r.error == Make(k, values, s).error
      ensures r.Ok? ==> fresh(r.value) && r.value.Valid() && r.value.Model() == Make(k, values, s).value
      ensures r.Ok? ==> r.value.entries == Renumber(Geometries(values)) && r.value.nextKey == |values|
    {
      var failure := ValidateItems(k, values);
      if failure.Some? {
        return Err(failure.value);
      }
      var c := new GeometryCollection.Store(k, Geometries(values), s);
      return Ok(c);
    }

    /** `offsetExists`: `isset($this->items[$offset])`, and no stored item is null. */
    function OffsetExists(offset: int): (b: bool)
      reads this
      ensures b <==> HasKey(entries, offset)
    {
      LookupFinds(entries, offset);
      Lookup(entries, offset).Some?
    }

    /** `offsetGet`: the item under `offset`, or null for an absent key. */
    function OffsetGet(offset: int): (r: Option<Geometry>)
      reads this
      ensures r.None? <==> !HasKey(entries, offset)
      ensures r.Some? ==> exists i :: 0 <= i < |entries| && entries[i] == Entry(offset, r.value)
    {
      LookupFinds(entries, offset);
      Lookup(entries, offset)
    }

    /** `count`: one per stored item, whatever the keys are. */
    function Count(): (n: nat)
      reads this
      requires Valid()
      ensures n == |Model().items|
    {
      |entries|
    }

    /**
     * `offsetSet` (and `PointCollection::offsetSet`, which runs the same item check first):
     * a value of the wrong type raises before anything changes; a null offset appends
     * under the next free key; an explicit offset replaces that key in place or adds it at the end.
     */
    method OffsetSet(offset: Option<int>, value: Value) returns (failure: Option<Error>)
      requires Valid()
      modifies this
      ensures Valid() && srid == old(srid)
      ensures failure == ValidateItemType(kind, value)
      ensures failure.Some? ==> entries == old(entries) && nextKey == old(nextKey)
      ensures failure.None? && offset.None? ==>
        entries == old(entries) + [Entry(old(nextKey), value.geometry)] && nextKey == old(nextKey) + 1
      ensures failure.None? && offset.Some? ==>
        entries == Put(old(entries), offset.value, value.geometry)
        && nextKey == if offset.value >= old(nextKey) then offset.value + 1 else old(nextKey)
      ensures failure.None? ==> |entries| == old(|entries|) + (if offset.Some? && HasKey(old(entries), offset.value) then 0 else 1)
      ensures failure.None? && offset.Some? ==> forall k :: k != offset.value ==> Lookup(entries, k) == Lookup(old(entries), k)
      ensures failure.None? && offset.Some? ==> Lookup(entries, offset.value) == Some(value.geometry)
    {
      failure := ValidateItemType(kind, value);
      if failure.Some? {
        return;
      }
      var old_entries := entries;
      if offset.None? {
        assert forall i :: 0 <= i < |entries| ==> entries[i].key != nextKey;
        entries := entries + [Entry(nextKey, value.geometry)];
        nextKey := nextKey + 1;
      } else {
        var k := offset.value;
        entries := Put(entries, k, value.geometry);
        if k >= nextKey {
          nextKey := k + 1;
        }
        forall other | true
          ensures DistinctKeys(entries)
          ensures other != k ==> Lookup(entries, other) == Lookup(old_entries, other)
          ensures Lookup(entries, k) == Some(value.geometry)
        {
          PutLookup(old_entries, k, value.geometry, other);
        }
        PutOrder(old_entries, k, value.geometry);
        PutEntries(old_entries, k, value.geometry);
      }
    }

    /**
     * `offsetUnset`: the key disappears, every other key keeps its item and position, and the
     * next free key stays where it was. Nothing checks the minimum count again.
     */
    method OffsetUnset(offset: int)
      requires Valid()
      modifies this
      ensures Valid() && srid == old(srid) && nextKey == old(nextKey)
      ensures entries == Remove(old(entries), offset)
      ensures !OffsetExists(offset)
      ensures forall k :: k != offset ==> Lookup(entries, k) == Lookup(old(entries), k)
      ensures |entries| == if HasKey(old(entries), offset) then old(|entries|) - 1 else old(|entries|)
    {
      var old_entries := entries;
      entries := Remove(entries, offset);
      forall other | true
        ensures DistinctKeys(entries) && !HasKey(entries, offset)
        ensures other != offset ==> Lookup(entries, other) == Lookup(old_entries, other)
        ensures |entries| == if HasKey(old_entries, offset) then |old_entries| - 1 else |old_entries|
      {
        RemoveLookup(old_entries, offset, other);
      }
      RemoveEntries(old_entries, offset);
    }

    // -------------------------------------------------------------------------
    // PointCollection
    // -------------------------------------------------------------------------

    /** `getPoints`: `$this->items` itself, keys included (a gap left by `offsetUnset` stays), each item a Point. */
    function GetPoints(): (points: seq<Entry<Point>>)
      reads this
      requires Valid() && IsPointCollection(kind)
      ensures Keys(points) == Keys(entries)
      ensures forall i :: 0 <= i < |entries| ==> entries[i] == Entry(points[i].key, Pt(points[i].value))
      ensures forall k :: Lookup(entries, k) == if Lookup(points, k).Some? then Some(Pt(Lookup(points, k).value)) else None
    {
      var es := entries;
      var points := seq(|es|, i requires 0 <= i < |es| => Entry(es[i].key, es[i].value.point));
      assert forall k :: IndexOf(points, k) == IndexOf(es, k) by {
        forall k ensures IndexOf(points, k) == IndexOf(es, k) {
          SameKeysIndexOf(points, es, k);
        }
      }
      points
    }

    /** `toPairList`: the points' `toPair()` joined by commas, in item order. */
    function ToPairList(): (s: string)
      reads this
      requires Valid() && IsPointCollection(kind)
      ensures var ps := Values(GetPoints());
              s == Strings.Join(",", seq(|ps|, i requires 0 <= i < |ps| => Wkt.Pair(ps[i])))
      ensures kind == LineStringKind ==> s == Wkt.ToText(Model())
    {
      var ps := Values(GetPoints());
      assert Wkt.Pairs(Items()) == seq(|ps|, i requires 0 <= i < |ps| => Wkt.Pair(ps[i]));
      Wkt.PairList(Items())
    }

    /** `prependPoint`: `array_unshift` puts the point first and renumbers the keys 0 .. n. */
    method PrependPoint(p: Point)
      requires Valid() && IsPointCollection(kind)
      modifies this
      ensures Valid() && srid == old(srid)
      ensures Items() == [Pt(p)] + old(Items())
      ensures entries == Renumber([Pt(p)] + old(Items())) && nextKey == |entries|
    {
      var items := [Pt(p)] + Items();
      entries := Renumber(items);
      nextKey := |items|;
      RenumberLookup(items, 0);
    }

    /** `appendPoint`: `$this->items[] = $point`. */
    method AppendPoint(p: Point)
      requires Valid() && IsPointCollection(kind)
      modifies this
      ensures Valid() && srid == old(srid)
      ensures Items() == old(Items()) + [Pt(p)]
      ensures entries == old(entries) + [Entry(old(nextKey), Pt(p))] && nextKey == old(nextKey) + 1
    {
      assert forall i :: 0 <= i < |entries| ==> entries[i].key != nextKey;
      var old_entries := entries;
      entries := entries + [Entry(nextKey, Pt(p))];
      nextKey := nextKey + 1;
      assert Values(entries) == Values(old_entries) + [Pt(p)];
    }

    /**
     * `insertPoint`: an index past the last item raises and changes nothing (so does any
     * non-negative index on an empty collection, and `index == count`); otherwise `array_splice`
     * inserts the point at that position and renumbers the keys.
     */
    method InsertPoint(index: int, p: Point) returns (failure: Option<Error>)
      requires Valid() && IsPointCollection(kind)
      modifies this
      ensures Valid() && srid == old(srid)
      ensures failure.Some? <==> index > old(|entries|) - 1
      ensures failure.Some? ==> failure.value == InvalidArgument(IndexTooLarge)
      ensures failure.Some? ==> entries == old(entries) && nextKey == old(nextKey)
      ensures failure.None? ==>
        var pos := SplicePosition(old(|entries|), index);
        Items() == old(Items())[..pos] + [Pt(p)] + old(Items())[pos..]
        && entries == Renumber(Items()) && nextKey == |entries|
      ensures failure.None? && index >= 0 ==> Items()[index] == Pt(p) && |Items()| == old(|Items()|) + 1
    {
      if |entries| - 1 < index {
        return Some(InvalidArgument(IndexTooLarge));
      }
      failure := None;
      var old_items := Items();
      var pos := SplicePosition(|entries|, index);
      var items := old_items[..pos] + [Pt(p)] + old_items[pos..];
      assert forall i :: 0 <= i < |items| ==> ItemTypeOk(kind, items[i]) && Typed(items[i]) by {
        forall i | 0 <= i < |items|
          ensures ItemTypeOk(kind, items[i]) && Typed(items[i])
        {
          if i < pos { assert items[i] == old_items[i]; }
          else if i > pos { assert items[i] == old_items[i - 1]; }
        }
      }
      entries := Renumber(items);
      nextKey := |items|;
      RenumberLookup(items, 0);
    }
  }

  /** Two entry lists with the same keys find every key at the same position. */
  lemma SameKeysIndexOf<U, V>(xs: seq<Entry<U>>, ys: seq<Entry<V>>, k: int)
    requires |xs| == |ys| && forall i :: 0 <= i < |xs| ==> xs[i].key == ys[i].key
    ensures IndexOf(xs, k) == IndexOf(ys, k)
    decreases |xs|
  {
    if |xs| > 0 && xs[0].key != k {
      SameKeysIndexOf(xs[1..], ys[1..], k);
    }
  }

  /** Every entry after an assignment is an entry from before or the new one. */
  lemma PutEntries(es: seq<Entry<Geometry>>, k: int, v: Geometry)
    ensures forall i :: 0 <= i < |Put(es, k, v)| ==> Put(es, k, v)[i] in es || Put(es, k, v)[i] == Entry(k, v)
  {
  }

  /** The entries after `unset` are entries from before. */
  lemma RemoveEntries(es: seq<Entry<Geometry>>, k: int)
    ensures forall i :: 0 <= i < |Remove(es, k)| ==> Remove(es, k)[i] in es
  {
    var i := IndexOf(es, k);
    if i < |es| {
      RemoveShape(es, k);
      forall j | 0 <= j < |Remove(es, k)| ensures Remove(es, k)[j] in es {
        if j < i { assert Remove(es, k)[j] == es[j]; } else { assert Remove(es, k)[j] == es[j + 1]; }
      }
    }
  }
}
