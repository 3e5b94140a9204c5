/**
 * The attribute store owned by a graph, a node or an edge: `name = value`
 * pairs kept in insertion order, each value already in its DOT literal form
 * (what `AttributeValue.toGv()` returns).
 */
module Attributes {
  import opened Wrappers

  datatype Attr = Attr(name: string, value: string)

  /** The names of a store, in insertion order. */
  function Names(attrs: seq<Attr>): (r: seq<string>)
    ensures |r| == |attrs|
    ensures forall i :: 0 <= i < |attrs| ==> r[i] == attrs[i].name
  {
    if attrs == [] then [] else [attrs[0].name] + Names(attrs[1..])
  }

  /** The value stored under `key`, if any. */
  function Lookup(attrs: seq<Attr>, key: string): Option<string>
  {
    if attrs == [] then None
    else if attrs[0].name == key then Some(attrs[0].value)
    else Lookup(attrs[1..], key)
  }

  /**
   * `attr(key).value(v)`: the attribute `key` is created at the end of the
   * store when absent, and its value is overwritten in place when present.
   */
  function Put(attrs: seq<Attr>, key: string, value: string): (r: seq<Attr>)
    ensures Lookup(r, key) == Some(value)
    ensures forall k :: k != key ==> Lookup(r, k) == Lookup(attrs, k)
    ensures Names(r) == if key in Names(attrs) then Names(attrs) else Names(attrs) + [key]
  {
    if attrs == [] then [Attr(key, value)]
    else if attrs[0].name == key then [Attr(key, value)] + attrs[1..]
    else
      var rest := Put(attrs[1..], key, value);
      assert Names([attrs[0]] + rest) == [attrs[0].name] + Names(rest);
      assert Names(attrs) == [attrs[0].name] + Names(attrs[1..]);
      [attrs[0]] + rest
  }

  /** Setting an attribute to the value it already has changes nothing. */
  lemma {:induction false} PutUnchanged(attrs: seq<Attr>, key: string, value: string)
    requires Lookup(attrs, key) == Some(value)
    ensures Put(attrs, key, value) == attrs
  {
    if attrs[0].name != key {
      PutUnchanged(attrs[1..], key, value);
    }
  }

  /** Setting one attribute to one value twice is the same as setting it once. */
  lemma PutIdempotent(attrs: seq<Attr>, key: string, value: string)
    ensures Put(Put(attrs, key, value), key, value) == Put(attrs, key, value)
  {
    PutUnchanged(Put(attrs, key, value), key, value);
  }

  /**
   * `get(key)` on a store: an absent attribute is created at the end with the
   * store's initial value `initial`; a present one is left as it is.
   */
  function Touch(attrs: seq<Attr>, key: string, initial: string): (r: seq<Attr>)
    ensures Lookup(r, key) == if Lookup(attrs, key).Some? then Lookup(attrs, key) else Some(initial)
    ensures forall k :: k != key ==> Lookup(r, k) == Lookup(attrs, k)
    ensures Names(r) == if key in Names(attrs) then Names(attrs) else Names(attrs) + [key]
    ensures r != []
  {
    if Lookup(attrs, key).Some? then
      LookupNames(attrs, key);
      attrs
    else
      LookupNames(attrs, key);
      var r := attrs + [Attr(key, initial)];
      LookupAppend(attrs, Attr(key, initial));
      NamesAppend(attrs, Attr(key, initial));
      r
  }

  /** A key has a value exactly when it is one of the store's names. */
  lemma {:induction false} LookupNames(attrs: seq<Attr>, key: string)
    ensures Lookup(attrs, key).Some? <==> key in Names(attrs)
  {
    if attrs != [] {
      LookupNames(attrs[1..], key);
      assert Names(attrs) == [attrs[0].name] + Names(attrs[1..]);
    }
  }

  /** Appending an attribute only gives a value to a key that had none. */
  lemma {:induction false} LookupAppend(attrs: seq<Attr>, a: Attr)
    ensures forall k :: (Lookup(attrs + [a], k) ==
      if Lookup(attrs, k).Some? then Lookup(attrs, k) else if k == a.name then Some(a.value) else None)
  {
    if attrs != [] {
      LookupAppend(attrs[1..], a);
      assert (attrs + [a])[1..] == attrs[1..] + [a];
    }
  }

  /** The names of a store with one more attribute. */
  lemma NamesAppend(attrs: seq<Attr>, a: Attr)
    ensures Names(attrs + [a]) == Names(attrs) + [a.name]
  {
  }

  /**
   * `attr(key).value(v)` is `get(key)` followed by the overwrite: whatever
   * `get` created, the store ends up as `Put` makes it.
   */
  lemma {:induction false} PutAfterTouch(attrs: seq<Attr>, key: string, initial: string, value: string)
    ensures Put(Touch(attrs, key, initial), key, value) == Put(attrs, key, value)
  {
    if Lookup(attrs, key).None? {
      PutAppended(attrs, key, initial, value);
    }
  }

  /** Overwriting an attribute just appended is the same as appending it with the new value. */
  lemma {:induction false} PutAppended(attrs: seq<Attr>, key: string, initial: string, value: string)
    requires Lookup(attrs, key).None?
    ensures Put(attrs + [Attr(key, initial)], key, value) == Put(attrs, key, value)
  {
    if attrs != [] {
      PutAppended(attrs[1..], key, initial, value);
      assert (attrs + [Attr(key, initial)])[1..] == attrs[1..] + [Attr(key, initial)];
    }
  }

  /** One `name = value` pair of a DOT attribute list. */
  function Pair(a: Attr): string
  {
    a.name + " = " + a.value
  }

  /** The pairs of the store joined by ", ", as the loops of Digraph.output build them. */
  function AttrList(attrs: seq<Attr>): string
    decreases |attrs|
  {
    if |attrs| == 0 then ""
    else if |attrs| == 1 then Pair(attrs[0])
    else AttrList(attrs[..|attrs| - 1]) + ", " + Pair(attrs[|attrs| - 1])
  }

  /** Joining is compositional: the list of a concatenation joins the two lists with ", ". */
  lemma {:induction false} AttrListConcat(a: seq<Attr>, b: seq<Attr>)
    requires a != [] && b != []
    ensures AttrList(a + b) == AttrList(a) + ", " + AttrList(b)
    decreases |b|
  {
    var ab := a + b;
    assert ab[..|ab| - 1] == a + b[..|b| - 1];
    if |b| > 1 {
      AttrListConcat(a, b[..|b| - 1]);
    } else {
      assert ab[..|ab| - 1] == a;
    }
  }

  /**
   * A ` keyword [...];` statement for graph, node or edge defaults: nothing
   * at all for an empty store, so that `[]` is never emitted.
   */
  function Block(keyword: string, attrs: seq<Attr>): (r: string)
    ensures r == "" <==> attrs == []
  {
    if attrs == [] then "" else " " + keyword + " [" + AttrList(attrs) + "];"
  }

  /** The ` [...]` suffix of a node or edge statement, empty when there are no attributes. */
  function Suffix(attrs: seq<Attr>): (r: string)
    ensures r == "" <==> attrs == []
  {
    if attrs == [] then "" else " [" + AttrList(attrs) + "]"
  }
}
