/**
 * The key-path registry the listeners use to pass state: `get('a.b.c')`
 * and `set('a.b.c', $v)` over nested arrays. A path is given as its list
 * of segments; keys that themselves contain a dot are not modelled.
 */
module Registry {
  import opened Php

  /** `get`: follows the segments; a missing key or a non-array on the way gives null. */
  function GetPath(v: Value, path: seq<string>): Value
    decreases |path|
  {
    if |path| == 0 then v else GetPath(Lookup(v, path[0]), path[1..])
  }

  /**
   * `set`: walks the segments, replacing a missing, null or non-array
   * intermediate value by an empty array, and stores `x` under the last one.
   */
  function SetPath(v: Value, path: seq<string>, x: Value): (r: Value)
    requires |path| > 0
    ensures r.Arr? && path[0] in r.m
    decreases |path|
  {
    var m := Entries(v);
    if |path| == 1 then Arr(m[path[0] := x])
    else Arr(m[path[0] := SetPath(Lookup(v, path[0]), path[1..], x)])
  }

  predicate IsPrefix(p: seq<string>, q: seq<string>)
  {
    |p| <= |q| && q[..|p|] == p
  }

  /** Two paths lead to disjoint places: neither is a prefix of the other. */
  predicate Disjoint(p: seq<string>, q: seq<string>)
  {
    !IsPrefix(p, q) && !IsPrefix(q, p)
  }

  /** What was set can be read back. */
  lemma {:induction false} GetAfterSet(v: Value, path: seq<string>, x: Value)
    requires |path| > 0
    ensures GetPath(SetPath(v, path, x), path) == x
    decreases |path|
  {
    if |path| > 1 {
      GetAfterSet(Lookup(v, path[0]), path[1..], x);
    }
  }

  /** Setting one path leaves every disjoint path as it was. */
  lemma {:induction false} GetAfterSetElsewhere(v: Value, path: seq<string>, x: Value, other: seq<string>)
    requires |path| > 0
    requires Disjoint(path, other)
    ensures GetPath(SetPath(v, path, x), other) == GetPath(v, other)
    decreases |path|
  {
    assert |other| > 0;
    if path[0] == other[0] {
      assert |path| > 1 && |other| > 1;
      assert Disjoint(path[1..], other[1..]) by {
        assert path[..1] == other[..1];
      }
      GetAfterSetElsewhere(Lookup(v, path[0]), path[1..], x, other[1..]);
    } else {
      var r := SetPath(v, path, x);
      assert Lookup(r, other[0]) == Lookup(v, other[0]);
    }
  }

  /** Reading a longer path is reading the shorter one, then one more key. */
  lemma {:induction false} GetPathExtend(v: Value, path: seq<string>, key: string)
    ensures GetPath(v, path + [key]) == Lookup(GetPath(v, path), key)
    decreases |path|
  {
    if |path| > 0 {
      assert (path + [key])[1..] == path[1..] + [key];
      GetPathExtend(Lookup(v, path[0]), path[1..], key);
    } else {
      assert [] + [key] == [key];
    }
  }

  /** The shared registry object that listeners read and update in place. */
  class Store {
    var data: Value

    constructor (init: Value)
      ensures data == init
    {
      data := init;
    }

    method Set(path: seq<string>, x: Value)
      requires |path| > 0
      modifies this
      ensures data == SetPath(old(data), path, x)
    {
      data := SetPath(data, path, x);
    }
  }
}
