/**
 * A PHP array with integer keys, as the collections keep `$this->items`: an ordered list
 * of key/value entries with distinct keys. Assigning to an existing key keeps its
 * position, assigning to a new key appends, and `unset` leaves a gap in the keys.
 */
module PhpArray {
  import opened Wrappers

  datatype Entry<V> = Entry(key: int, value: V)

  function Keys<V>(es: seq<Entry<V>>): seq<int> {
    seq(|es|, i requires 0 <= i < |es| => es[i].key)
  }

  /** The values in iteration order (what `foreach` and `implode` see). */
  function Values<V>(es: seq<Entry<V>>): seq<V> {
    seq(|es|, i requires 0 <= i < |es| => es[i].value)
  }

  predicate DistinctKeys<V>(es: seq<Entry<V>>) {
    forall i, j :: 0 <= i < j < |es| ==> es[i].key != es[j].key
  }

  predicate HasKey<V>(es: seq<Entry<V>>, k: int) {
    exists i :: 0 <= i < |es| && es[i].key == k
  }

  /** The position of key `k`, or `|es|` when it is absent. */
  function IndexOf<V>(es: seq<Entry<V>>, k: int): (i: nat)
    ensures i <= |es|
    ensures i < |es| ==> es[i].key == k
    ensures forall j :: 0 <= j < i ==> es[j].key != k
    decreases |es|
  {
    if |es| == 0 then 0
    else if es[0].key == k then 0
    else 1 + IndexOf(es[1..], k)
  }

  /** `$a[$k] ?? null` */
  function Lookup<V>(es: seq<Entry<V>>, k: int): Option<V> {
    var i := IndexOf(es, k);
    if i < |es| then Some(es[i].value) else None
  }

  /** `$a[$k] = $v` */
  function Put<V>(es: seq<Entry<V>>, k: int, v: V): seq<Entry<V>> {
    var i := IndexOf(es, k);
    if i < |es| then es[i := Entry(k, v)] else es + [Entry(k, v)]
  }

  /** `unset($a[$k])` */
  function Remove<V>(es: seq<Entry<V>>, k: int): seq<Entry<V>> {
    var i := IndexOf(es, k);
    if i < |es| then es[..i] + es[i + 1..] else es
  }

  /** A list: the values with keys 0, 1, 2, ... (how a literal list is keyed, and how `array_unshift` and `array_splice` renumber). */
  function Renumber<V>(vs: seq<V>): seq<Entry<V>> {
    seq(|vs|, i requires 0 <= i < |vs| => Entry(i, vs[i]))
  }

  /** The key of a present entry is found exactly where it is. */
  lemma IndexOfPresent<V>(es: seq<Entry<V>>, j: nat)
    requires DistinctKeys(es) && j < |es|
    ensures IndexOf(es, es[j].key) == j
  {
  }

  /** Lookup answers a value exactly for the keys that are present, and that value is stored under the key. */
  lemma LookupFinds<V>(es: seq<Entry<V>>, k: int)
    ensures Lookup(es, k).Some? <==> HasKey(es, k)
    ensures Lookup(es, k).Some? ==> exists i :: 0 <= i < |es| && es[i] == Entry(k, Lookup(es, k).value)
  {
    var i := IndexOf(es, k);
    if i < |es| {
      assert es[i] == Entry(k, es[i].value);
    }
  }

  /** After `$a[$k] = $v`, key `k` holds `v` and every other key holds what it held. */
  lemma PutLookup<V>(es: seq<Entry<V>>, k: int, v: V, other: int)
    requires DistinctKeys(es)
    ensures DistinctKeys(Put(es, k, v))
    ensures Lookup(Put(es, k, v), k) == Some(v)
    ensures other != k ==> Lookup(Put(es, k, v), other) == Lookup(es, other)
  {
    var i := IndexOf(es, k);
    var es' := Put(es, k, v);
    assert forall j :: 0 <= j < |es'| && j != i ==> es'[j] == es[j];
    assert es'[i] == Entry(k, v);
    IndexOfPresent(es', i);
    if other != k {
      var o := IndexOf(es, other);
      if o < |es| {
        IndexOfPresent(es', o);
      } else {
        assert forall j :: 0 <= j < |es'| ==> es'[j].key != other;
      }
    }
  }

  /** Assigning to a present key keeps every position; assigning to a new key appends it at the end. */
  lemma PutOrder<V>(es: seq<Entry<V>>, k: int, v: V)
    ensures HasKey(es, k) ==> Keys(Put(es, k, v)) == Keys(es)
    ensures HasKey(es, k) ==> |Put(es, k, v)| == |es|
    ensures !HasKey(es, k) ==> Keys(Put(es, k, v)) == Keys(es) + [k] && Values(Put(es, k, v)) == Values(es) + [v]
  {
    var i := IndexOf(es, k);
    var es' := Put(es, k, v);
    if i < |es| {
      assert forall j :: 0 <= j < |es| ==> Keys(es')[j] == Keys(es)[j];
    } else {
      assert forall j :: 0 <= j < |es| ==> es[j].key != k;
      assert es' == es + [Entry(k, v)];
      assert Keys(es') == Keys(es) + [k];
      assert Values(es') == Values(es) + [v];
    }
  }

  /** The entries left by `unset`: those before and after the removed position. */
  lemma RemoveShape<V>(es: seq<Entry<V>>, k: int)
    requires IndexOf(es, k) < |es|
    ensures var i := IndexOf(es, k);
            |Remove(es, k)| == |es| - 1
            && (forall j :: 0 <= j < i ==> Remove(es, k)[j] == es[j])
            && (forall j :: i <= j < |es| - 1 ==> Remove(es, k)[j] == es[j + 1])
  {
  }

  /** After `unset($a[$k])` the key is gone, every other key is untouched, and the count drops by one exactly when the key was present. */
  lemma RemoveLookup<V>(es: seq<Entry<V>>, k: int, other: int)
    requires DistinctKeys(es)
    ensures DistinctKeys(Remove(es, k))
    ensures !HasKey(Remove(es, k), k)
    ensures other != k ==> Lookup(Remove(es, k), other) == Lookup(es, other)
    ensures |Remove(es, k)| == if HasKey(es, k) then |es| - 1 else |es|
  {
    var i := IndexOf(es, k);
    var es' := Remove(es, k);
    if i < |es| {
      RemoveShape(es, k);
      // position j of the result comes from position Src(j) of the input
      forall a, b | 0 <= a < b < |es'|
        ensures es'[a].key != es'[b].key
      {
        var a', b' := if a < i then a else a + 1, if b < i then b else b + 1;
        assert es'[a] == es[a'] && es'[b] == es[b'] && a' < b';
      }
      forall j | 0 <= j < |es'|
        ensures es'[j].key != k
      {
        var j' := if j < i then j else j + 1;
        assert es'[j] == es[j'] && j' != i;
      }
      if other != k {
        var o := IndexOf(es, other);
        if o < |es| {
          var o' := if o < i then o else o - 1;
          assert es'[o'] == es[o];
          IndexOfPresent(es', o');
        } else {
          forall j | 0 <= j < |es'|
            ensures es'[j].key != other
          {
            var j' := if j < i then j else j + 1;
            assert es'[j] == es[j'];
          }
        }
      }
    }
  }

  /** A renumbered list has keys 0 .. n-1 holding the values in order. */
  lemma RenumberLookup<V>(vs: seq<V>, k: int)
    ensures DistinctKeys(Renumber(vs))
    ensures Values(Renumber(vs)) == vs
    ensures Lookup(Renumber(vs), k) == if 0 <= k < |vs| then Some(vs[k]) else None
  {
    var es := Renumber(vs);
    assert Values(es) == vs;
    if 0 <= k < |vs| {
      IndexOfPresent(es, k);
    } else {
      assert forall j :: 0 <= j < |es| ==> es[j].key != k;
    }
  }
}
