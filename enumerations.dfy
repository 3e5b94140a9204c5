/**
 * Hash-map enumeration. The Java code walks `HashMap` keys and values in an
 * order the map chooses; the model admits any order that lists every key once.
 */
module Enumerations {

  /** `order` lists each element of `keys` exactly once and nothing else. */
  predicate IsEnumeration<K(==)>(order: seq<K>, keys: set<K>)
  {
    && (forall i, j :: 0 <= i < j < |order| ==> order[i] != order[j])
    && (forall i :: 0 <= i < |order| ==> order[i] in keys)
    && (forall k :: k in keys ==> k in order)
  }

  /**
   * Midway through a walk over `keys`: `order` lists, once each, exactly the
   * keys no longer in `remaining`.
   */
  predicate Enumerating<K(==)>(order: seq<K>, remaining: set<K>, keys: set<K>)
  {
    && remaining <= keys
    && (forall i, j :: 0 <= i < j < |order| ==> order[i] != order[j])
    && (forall i :: 0 <= i < |order| ==> order[i] in keys && order[i] !in remaining)
    && (forall k :: k in keys && k !in remaining ==> k in order)
  }

  /** The values a map holds, listed in the key order `order`. */
  function ValuesAt<K, V>(m: map<K, V>, order: seq<K>): (r: seq<V>)
    requires forall i :: 0 <= i < |order| ==> order[i] in m
    ensures |r| == |order|
    ensures forall i :: 0 <= i < |order| ==> r[i] == m[order[i]]
  {
    if order == [] then [] else ValuesAt(m, order[..|order| - 1]) + [m[order[|order| - 1]]]
  }

  /** Taking one more key out of `remaining` and appending it keeps the walk consistent. */
  lemma EnumerationStep<K>(order: seq<K>, remaining: set<K>, keys: set<K>, k: K)
    requires Enumerating(order, remaining, keys)
    requires k in remaining
    ensures Enumerating(order + [k], remaining - {k}, keys)
  {
    var next := order + [k];
    forall i, j | 0 <= i < j < |next|
      ensures next[i] != next[j]
    {
      if j < |order| {
        assert next[i] == order[i] && next[j] == order[j];
      } else {
        assert next[i] == order[i] && next[j] == k;
      }
    }
    forall i | 0 <= i < |next|
      ensures next[i] in keys && next[i] !in remaining - {k}
    {
      if i < |order| {
        assert next[i] == order[i];
      }
    }
    forall x | x in keys && x !in remaining - {k}
      ensures x in next
    {
      if x == k {
        assert next[|order|] == k;
      } else {
        assert x in order;
        var i :| 0 <= i < |order| && order[i] == x;
        assert next[i] == x;
      }
    }
  }

  /** A walk that has used up every key is an enumeration. */
  lemma EnumerationDone<K>(order: seq<K>, keys: set<K>)
    requires Enumerating(order, {}, keys)
    ensures IsEnumeration(order, keys)
  {
  }

  lemma {:induction false} EnumerationSize<K>(order: seq<K>, keys: set<K>)
    requires IsEnumeration(order, keys)
    ensures |order| == |keys|
    decreases |order|
  {
    if order == [] {
      assert keys == {};
    } else {
      var last, front := order[|order| - 1], order[..|order| - 1];
      forall i | 0 <= i < |front|
        ensures front[i] in keys - {last}
      {
        assert front[i] == order[i] && order[|order| - 1] == last;
      }
      forall k | k in keys - {last}
        ensures k in front
      {
        assert k in order;
        var i :| 0 <= i < |order| && order[i] == k;
        assert front[i] == k;
      }
      EnumerationSize(front, keys - {last});
    }
  }

  /** The only enumeration of a single key is that key alone. */
  lemma SingletonEnumeration<K>(order: seq<K>, k: K)
    requires IsEnumeration(order, {k})
    ensures order == [k]
  {
    EnumerationSize(order, {k});
    assert order[0] in {k};
  }
}
