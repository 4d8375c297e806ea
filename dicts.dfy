/**
 * Insertion-ordered dictionaries with string keys: the model of a JavaScript
 * object used as a map (`Map<V>` in locFunc.ts, `Object.create(null)`, `{}`).
 * `keys` is the order in which `Object.keys` and `for...in` list the
 * properties; `values` holds the properties themselves.
 */
module Dicts {

  datatype Dict<V> = Dict(keys: seq<string>, values: map<string, V>)
  {
    /** Every key is listed exactly once, and exactly the keys of `values` are listed. */
    ghost predicate Valid() {
      && Distinct(keys)
      && (forall k :: k in values <==> k in keys)
    }

    /**
     * Property assignment `d[k] = v`: a new key goes to the end of the key
     * order, an existing key keeps its place and only its value changes.
     */
    function Set(k: string, v: V): (r: Dict<V>)
      ensures r.values == values[k := v]
      ensures k in values ==> r.keys == keys
      ensures k !in values ==> r.keys == keys + [k]
    {
      if k in values then Dict(keys, values[k := v]) else Dict(keys + [k], values[k := v])
    }
  }

  lemma SetValid<V>(d: Dict<V>, k: string, v: V)
    requires d.Valid()
    ensures d.Set(k, v).Valid()
  {
    if k !in d.values {
      var r := d.Set(k, v);
      forall i, j | 0 <= i < j < |r.keys| ensures r.keys[i] != r.keys[j] {
        if j == |d.keys| { assert r.keys[i] == d.keys[i]; }
      }
    }
  }

  /** Assigning a key twice is assigning it once, the last value. */
  lemma SetTwice<V>(d: Dict<V>, k: string, v: V, w: V)
    ensures d.Set(k, v).Set(k, w) == d.Set(k, w)
  {
  }

  function Empty<V>(): (r: Dict<V>)
    ensures r.Valid() && r.keys == [] && r.values == map[]
  {
    Dict([], map[])
  }

  predicate Distinct(s: seq<string>) {
    forall i, j :: 0 <= i < j < |s| ==> s[i] != s[j]
  }

  /** The elements of `s` that are not in `a`, in their order in `s`. */
  function Without(s: seq<string>, a: set<string>): seq<string>
  {
    if s == [] then []
    else Without(s[..|s| - 1], a) + (if s[|s| - 1] in a then [] else [s[|s| - 1]])
  }

  lemma {:induction false} WithoutMembers(s: seq<string>, a: set<string>)
    ensures forall x :: x in Without(s, a) <==> x in s && x !in a
  {
    if s != [] {
      WithoutMembers(s[..|s| - 1], a);
      assert s == s[..|s| - 1] + [s[|s| - 1]];
    }
  }

  lemma {:induction false} WithoutDistinct(s: seq<string>, a: set<string>)
    requires Distinct(s)
    ensures Distinct(Without(s, a))
  {
    if s != [] {
      var init, last := s[..|s| - 1], s[|s| - 1];
      WithoutDistinct(init, a);
      WithoutMembers(init, a);
      assert last !in init;
      DistinctAppend(Without(init, a), if last in a then [] else [last]);
    }
  }

  lemma DistinctAppend(s: seq<string>, t: seq<string>)
    requires Distinct(s) && Distinct(t)
    requires forall x :: x in s ==> x !in t
    ensures Distinct(s + t)
  {
    var u := s + t;
    forall i, j | 0 <= i < j < |u| ensures u[i] != u[j] {
      if j >= |s| && i < |s| {
        assert u[i] in s && u[j] == t[j - |s|];
      } else if j >= |s| {
        assert u[i] == t[i - |s|] && u[j] == t[j - |s|];
      }
    }
  }

  /**
   * Object spread `{...a, ...b}`, equivalently `Object.assign` of `b` onto a
   * copy of `a`: the keys of `a` in their order, then the keys only `b` has in
   * their order; on a key both have, the value of `b` wins.
   */
  function Merge<V>(a: Dict<V>, b: Dict<V>): Dict<V>
  {
    Dict(a.keys + Without(b.keys, a.values.Keys), a.values + b.values)
  }

  lemma MergeValid<V>(a: Dict<V>, b: Dict<V>)
    requires a.Valid() && b.Valid()
    ensures Merge(a, b).Valid()
  {
    WithoutMembers(b.keys, a.values.Keys);
    WithoutDistinct(b.keys, a.values.Keys);
    DistinctAppend(a.keys, Without(b.keys, a.values.Keys));
  }

  /** The first `i` properties of `b`, as the copy loop has seen them after `i` steps. */
  function Prefix<V>(b: Dict<V>, i: nat): Dict<V>
    requires i <= |b.keys|
  {
    Dict(b.keys[..i], map k | k in b.keys[..i] && k in b.values :: b.values[k])
  }

  /** One more step of `for (key of Object.keys(b)) result[key] = b[key]`. */
  lemma MergePrefixStep<V>(a: Dict<V>, b: Dict<V>, i: nat)
    requires a.Valid() && b.Valid() && i < |b.keys|
    ensures b.keys[i] in b.values
    ensures Merge(a, Prefix(b, i + 1)) == Merge(a, Prefix(b, i)).Set(b.keys[i], b.values[b.keys[i]])
  {
    var k := b.keys[i];
    PrefixStep(b, i);
    MergeKeysStep(a, b, i);
    MergeValuesStep(a, b, i);
    var before, after := Merge(a, Prefix(b, i)), Merge(a, Prefix(b, i + 1));
    assert k in before.values <==> k in a.values by {
      WithoutMembers(b.keys[..i], a.values.Keys);
    }
  }

  lemma MergeKeysStep<V>(a: Dict<V>, b: Dict<V>, i: nat)
    requires i < |b.keys|
    ensures Merge(a, Prefix(b, i + 1)).keys
         == Merge(a, Prefix(b, i)).keys + (if b.keys[i] in a.values then [] else [b.keys[i]])
  {
    WithoutStep(b.keys, a.values.Keys, i);
  }

  lemma MergeValuesStep<V>(a: Dict<V>, b: Dict<V>, i: nat)
    requires b.Valid() && i < |b.keys|
    ensures b.keys[i] in b.values
    ensures Merge(a, Prefix(b, i + 1)).values == Merge(a, Prefix(b, i)).values[b.keys[i] := b.values[b.keys[i]]]
  {
    PrefixStep(b, i);
    UnionUpdate(a.values, Prefix(b, i).values, b.keys[i], b.values[b.keys[i]]);
  }

  lemma UnionUpdate<V>(m: map<string, V>, n: map<string, V>, k: string, v: V)
    ensures m + n[k := v] == (m + n)[k := v]
  {
  }

  lemma PrefixStep<V>(b: Dict<V>, i: nat)
    requires b.Valid() && i < |b.keys|
    ensures b.keys[i] in b.values && b.keys[i] !in b.keys[..i]
    ensures Prefix(b, i + 1).values == Prefix(b, i).values[b.keys[i] := b.values[b.keys[i]]]
  {
    assert b.keys[..i + 1] == b.keys[..i] + [b.keys[i]];
  }

  lemma WithoutStep(s: seq<string>, a: set<string>, i: nat)
    requires i < |s|
    ensures Without(s[..i + 1], a) == Without(s[..i], a) + (if s[i] in a then [] else [s[i]])
  {
    assert s[..i + 1][..i] == s[..i];
  }

  lemma PrefixAll<V>(b: Dict<V>)
    requires b.Valid()
    ensures Prefix(b, |b.keys|) == b
  {
    assert b.keys[..|b.keys|] == b.keys;
  }

  lemma MergeNothing<V>(a: Dict<V>, b: Dict<V>)
    ensures Merge(a, Prefix(b, 0)) == a
  {
    assert a.keys + [] == a.keys;
  }
}
