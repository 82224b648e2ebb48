/** Python dicts with string keys. A dict remembers the order in which its
    keys were first inserted (iteration follows it); two dicts are equal when
    they map the same keys to the same values, whatever the order. */
module Dicts {
  import opened Base

  datatype Dict<V> = Dict(keys: seq<string>, vals: map<string, V>)
  {
    /** The keys are listed once each, and exactly the mapped keys are listed. */
    ghost predicate Valid()
    {
      && (forall i, j :: 0 <= i < j < |keys| ==> keys[i] != keys[j])
      && (forall k :: k in vals <==> k in keys)
    }

    /** d[k] = v: a new key goes to the end of the order, an existing key keeps its place. */
    function Put(k: string, v: V): (d: Dict<V>)
      requires Valid()
      ensures d.Valid()
      ensures d.vals == vals[k := v]
      ensures d.keys == if k in vals then keys else keys + [k]
    {
      if k in vals then Dict(keys, vals[k := v]) else Dict(keys + [k], vals[k := v])
    }

    /** del d[k] for a key that is present. */
    function Del(k: string): (d: Dict<V>)
      requires Valid() && k in vals
      ensures d.Valid()
      ensures d.vals == vals - {k}
      ensures d.keys == Without(keys, k)
    {
      Dict(Without(keys, k), vals - {k})
    }
  }

  function Empty<V>(): (d: Dict<V>)
    ensures d.Valid() && d.keys == [] && d.vals == map[]
  {
    Dict([], map[])
  }

  /** A dict with the keys, in the same order, of a well-formed one is well formed. */
  lemma SameShape<V, W>(a: Dict<V>, b: Dict<W>)
    requires a.Valid() && b.keys == a.keys && b.vals.Keys == a.vals.Keys
    ensures b.Valid()
  {
    forall k ensures k in b.vals <==> k in b.keys {
      assert k in b.vals <==> k in b.vals.Keys;
      assert k in a.vals <==> k in a.vals.Keys;
    }
  }

  /** The list with every occurrence of k taken out, the rest in order. */
  function Without(s: seq<string>, k: string): (r: seq<string>)
    ensures forall x :: x in r <==> x in s && x != k
    ensures |r| <= |s|
    ensures (forall i, j :: 0 <= i < j < |s| ==> s[i] != s[j]) ==> (forall i, j :: 0 <= i < j < |r| ==> r[i] != r[j])
  {
    if s == [] then []
    else if s[0] == k then Without(s[1..], k)
    else
      var t := Without(s[1..], k);
      assert forall x :: x in t ==> x in s[1..];
      HeadNotInTail(s);
      [s[0]] + t
  }

  lemma HeadNotInTail(s: seq<string>)
    requires s != []
    ensures (forall i, j :: 0 <= i < j < |s| ==> s[i] != s[j]) ==> s[0] !in s[1..]
  {
    if forall i, j :: 0 <= i < j < |s| ==> s[i] != s[j] {
      forall j | 0 <= j < |s| - 1 ensures s[1..][j] != s[0] {
        assert s[1..][j] == s[j + 1];
      }
    }
  }

  /** A dict that the modelled code changes in place (value types in Python
      are shared by reference, so the caller sees the change). */
  class PyDict<V> {
    var d: Dict<V>

    constructor (d: Dict<V>)
      ensures this.d == d
    {
      this.d := d;
    }

    /** del self[k]: KeyError when k is missing, and then nothing changes. */
    method Delete(k: string) returns (err: Option<Error>)
      requires d.Valid()
      modifies this
      ensures d.Valid()
      ensures k in old(d.vals) ==> err == None && d == old(d).Del(k)
      ensures k !in old(d.vals) ==> err == Some(KeyError(k)) && d == old(d)
    {
      if k in d.vals {
        d := d.Del(k);
        err := None;
      } else {
        err := Some(KeyError(k));
      }
    }

    /** self[k] = v */
    method Set(k: string, v: V)
      requires d.Valid()
      modifies this
      ensures d == old(d).Put(k, v)
    {
      d := d.Put(k, v);
    }
  }
}
