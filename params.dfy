/**
 * Detector parameters as the Python constructors see them: an insertion-ordered
 * dictionary of names to values. Both detector constructors take `params={}` as
 * a default argument and call `params.update(kwargs)` on it, so the one default
 * dictionary object is shared by every construction that passes no `params`:
 * it is modelled by the class ParamDict, whose single instance per constructor
 * the callers thread through explicitly.
 */
module Params {
  import opened Wrappers

  /** Dictionary entries in insertion order. */
  type Items = seq<(string, real)>

  /** No name occurs twice, as in any Python dict. */
  predicate DistinctKeys(items: Items) {
    forall i, j :: 0 <= i < j < |items| ==> items[i].0 != items[j].0
  }

  predicate HasKey(items: Items, name: string) {
    exists i :: 0 <= i < |items| && items[i].0 == name
  }

  /** The value stored under `name` (the last entry wins), or `default` when absent. */
  function Lookup(items: Items, name: string, default: real): (v: real)
    ensures !HasKey(items, name) ==> v == default
    ensures HasKey(items, name) ==>
      exists i :: 0 <= i < |items| && items[i] == (name, v) && (forall j :: i < j < |items| ==> items[j].0 != name)
  {
    if items == [] then default
    else if items[|items| - 1].0 == name then items[|items| - 1].1
    else Lookup(items[..|items| - 1], name, default)
  }

  /** `d[name] = value`: an existing key keeps its place, a new key goes last. */
  function Put(d: Items, name: string, value: real): (r: Items)
    ensures |r| == |d| || |r| == |d| + 1
    ensures forall i :: 0 <= i < |d| ==> r[i].0 == d[i].0
    ensures |r| == |d| + 1 ==> r[|d|] == (name, value) && !HasKey(d, name)
    ensures HasKey(r, name)
  {
    if d == [] then [(name, value)]
    else if d[0].0 == name then [(name, value)] + d[1..]
    else [d[0]] + Put(d[1..], name, value)
  }

  /** `d.update(kwargs)`: the entries of `kwargs` are put one after the other. */
  function Updated(d: Items, kwargs: Items): (r: Items)
    ensures |r| <= |d| + |kwargs|
    decreases |kwargs|
  {
    if kwargs == [] then d
    else Updated(Put(d, kwargs[0].0, kwargs[0].1), kwargs[1..])
  }

  /** Putting a name keeps the names distinct: it replaces its own entry or is new. */
  lemma PutDistinct(d: Items, name: string, value: real)
    requires DistinctKeys(d)
    ensures DistinctKeys(Put(d, name, value))
  {
    var r := Put(d, name, value);
    forall i, j | 0 <= i < j < |r| ensures r[i].0 != r[j].0 {
      if j == |d| {
        assert d[i].0 != name;
      }
    }
  }

  lemma {:induction false} PutLookup(d: Items, name: string, value: real, key: string, default: real)
    requires DistinctKeys(d)
    ensures Lookup(Put(d, name, value), key, default) == if key == name then value else Lookup(d, key, default)
  {
    if d == [] {
    } else if d[0].0 == name {
      var r := Put(d, name, value);
      LookupFront(d[1..], (name, value), key, default);
      LookupFront(d[1..], d[0], key, default);
      assert r == [(name, value)] + d[1..];
      assert d == [d[0]] + d[1..];
      TailLacksHead(d);
    } else {
      PutLookup(d[1..], name, value, key, if d[0].0 == key then d[0].1 else default);
      var rest := Put(d[1..], name, value);
      assert Put(d, name, value) == [d[0]] + rest;
      assert d == [d[0]] + d[1..];
      LookupFront(rest, d[0], key, default);
      LookupFront(d[1..], d[0], key, default);
    }
  }

  /** With distinct keys, the first name does not occur again. */
  lemma TailLacksHead(d: Items)
    requires DistinctKeys(d) && d != []
    ensures !HasKey(d[1..], d[0].0)
  {
    forall i | 0 <= i < |d| - 1 ensures d[1..][i].0 != d[0].0 {
      assert d[1..][i] == d[i + 1];
    }
  }

  /** An entry at the front only matters when no later entry has the same name. */
  lemma {:induction false} LookupFront(rest: Items, e: (string, real), key: string, default: real)
    ensures Lookup([e] + rest, key, default) == Lookup(rest, key, if e.0 == key then e.1 else default)
  {
    if rest != [] {
      var s := [e] + rest;
      assert s[..|s| - 1] == [e] + rest[..|rest| - 1];
      LookupFront(rest[..|rest| - 1], e, key, default);
    }
  }

  /**
   * After `d.update(kwargs)`, a name takes its value from `kwargs` when it is
   * there and keeps its old value otherwise; no name occurs twice.
   */
  lemma {:induction false} UpdatedLookup(d: Items, kwargs: Items, key: string, default: real)
    requires DistinctKeys(d)
    decreases |kwargs|
    ensures DistinctKeys(Updated(d, kwargs))
    ensures Lookup(Updated(d, kwargs), key, default) ==
            if HasKey(kwargs, key) then Lookup(kwargs, key, default) else Lookup(d, key, default)
  {
    if kwargs != [] {
      var d' := Put(d, kwargs[0].0, kwargs[0].1);
      PutDistinct(d, kwargs[0].0, kwargs[0].1);
      PutLookup(d, kwargs[0].0, kwargs[0].1, key, default);
      UpdatedLookup(d', kwargs[1..], key, default);
      KwargsLookup(kwargs, key, default);
    }
  }

  /**
   * Reading `key` from `kwargs` split into its first entry and the rest: the
   * rest decides when it has the key, the first entry otherwise.
   */
  lemma KwargsLookup(kwargs: Items, key: string, default: real)
    requires kwargs != []
    ensures HasKey(kwargs, key) <==> HasKey(kwargs[1..], key) || kwargs[0].0 == key
    ensures HasKey(kwargs[1..], key) ==> Lookup(kwargs, key, default) == Lookup(kwargs[1..], key, default)
    ensures !HasKey(kwargs[1..], key) && kwargs[0].0 == key ==> Lookup(kwargs, key, default) == kwargs[0].1
  {
    assert kwargs == [kwargs[0]] + kwargs[1..];
    LookupFront(kwargs[1..], kwargs[0], key, default);
    if HasKey(kwargs[1..], key) {
      LookupPresent(kwargs[1..], key, default, if kwargs[0].0 == key then kwargs[0].1 else default);
      var i :| 0 <= i < |kwargs| - 1 && kwargs[1..][i].0 == key;
      assert kwargs[i + 1].0 == key;
    } else if kwargs[0].0 != key {
      forall i | 0 <= i < |kwargs| ensures kwargs[i].0 != key {
        if i > 0 { assert kwargs[i] == kwargs[1..][i - 1]; }
      }
    }
  }

  /** When the name is present, the default is irrelevant. */
  lemma {:induction false} LookupPresent(items: Items, key: string, d1: real, d2: real)
    requires HasKey(items, key)
    ensures Lookup(items, key, d1) == Lookup(items, key, d2)
  {
    var last := items[|items| - 1];
    if last.0 != key {
      var i :| 0 <= i < |items| && items[i].0 == key;
      assert items[..|items| - 1][i] == items[i];
      LookupPresent(items[..|items| - 1], key, d1, d2);
    }
  }

  /** `d.update(kwargs)` keeps the existing names in their places and only appends. */
  lemma {:induction false} UpdatedKeepsOrder(d: Items, kwargs: Items)
    decreases |kwargs|
    ensures |d| <= |Updated(d, kwargs)|
    ensures forall i :: 0 <= i < |d| ==> Updated(d, kwargs)[i].0 == d[i].0
    ensures forall i :: 0 <= i < |kwargs| ==> HasKey(Updated(d, kwargs), kwargs[i].0)
  {
    if kwargs != [] {
      var d' := Put(d, kwargs[0].0, kwargs[0].1);
      UpdatedKeepsOrder(d', kwargs[1..]);
      forall i | 0 <= i < |kwargs| ensures HasKey(Updated(d, kwargs), kwargs[i].0) {
        if i == 0 {
          var j :| 0 <= j < |d'| && d'[j].0 == kwargs[0].0;
          assert Updated(d, kwargs)[j].0 == kwargs[0].0;
        } else {
          assert kwargs[i] == kwargs[1..][i - 1];
        }
      }
    }
  }

  /**
   * The index of the first name not in `known`, or |items| when every name is
   * known: the constructors raise for exactly that name.
   */
  function FirstUnknown(items: Items, known: set<string>): (k: nat)
    ensures k <= |items|
    ensures forall j :: 0 <= j < k ==> items[j].0 in known
    ensures k < |items| ==> items[k].0 !in known
  {
    if items == [] then 0
    else if items[0].0 !in known then 0
    else 1 + FirstUnknown(items[1..], known)
  }

  /** When every name before index k is known and the one at k is not, k is the first unknown one. */
  lemma {:induction false} FirstUnknownIs(items: Items, known: set<string>, k: nat)
    requires k <= |items|
    requires forall j :: 0 <= j < k ==> items[j].0 in known
    requires k < |items| ==> items[k].0 !in known
    ensures FirstUnknown(items, known) == k
  {
    if k > 0 {
      FirstUnknownIs(items[1..], known, k - 1);
    }
  }

  /** Reading a prefix one entry longer: the new entry wins when it has the name. */
  lemma LookupExtend(items: Items, i: nat, name: string, default: real)
    requires i < |items|
    ensures Lookup(items[..i + 1], name, default) ==
            if items[i].0 == name then items[i].1 else Lookup(items[..i], name, default)
  {
    assert items[..i + 1][..i] == items[..i];
  }

  /** The dictionary object a constructor's `params={}` default evaluates to. */
  class ParamDict {
    var items: Items

    ghost predicate Valid()
      reads this
    {
      DistinctKeys(items)
    }

    constructor ()
      ensures Valid() && items == []
    {
      items := [];
    }

    /** `params.update(kwargs)` */
    method Update(kwargs: Items)
      requires Valid()
      modifies this
      ensures Valid()
      ensures items == Updated(old(items), kwargs)
    {
      UpdatedLookup(items, kwargs, "", 0.0);
      items := Updated(items, kwargs);
    }
  }
}
