/** Insertion-ordered dictionaries with string keys, the shape of every JSON
    object and YAML mapping the scripts read: Python dicts remember insertion
    order, and that order decides which entry action, leaf list, server and
    secret line comes first. */
module Dicts {
  import opened Base

  datatype ODict<V> = ODict(keys: seq<string>, vals: map<string, V>) {

    /** Keys are listed once each, and exactly the keys of `vals` are listed. */
    ghost predicate Valid() {
      Distinct(keys) && forall k :: k in vals <==> k in keys
    }

    /** `d.get(k)` */
    function Get(k: string): Option<V> {
      if k in vals then Some(vals[k]) else None
    }

    /** `d[k] = v`: an existing key keeps its position, a new key goes last. */
    function Put(k: string, v: V): (d: ODict<V>)
      ensures Valid() ==> d.Valid()
      ensures d.vals == vals[k := v]
      ensures d.keys == if k in vals then keys else keys + [k]
    {
      ODict(if k in vals then keys else keys + [k], vals[k := v])
    }

    /** `del d[k]`: the other keys keep their relative order. */
    function Delete(k: string): (d: ODict<V>)
      ensures Valid() ==> d.Valid()
      ensures d.vals == vals - {k}
      ensures forall j :: j in d.keys <==> j in keys && j != k
    {
      ODict(Without(keys, k), vals - {k})
    }
  }

  function Empty<V>(): (d: ODict<V>)
    ensures d.Valid() && d.keys == [] && d.vals == map[]
  {
    ODict([], map[])
  }

  /** `s` with every occurrence of `k` removed, the rest in order. */
  function Without(s: seq<string>, k: string): (r: seq<string>)
    ensures forall j :: j in r <==> j in s && j != k
    ensures Distinct(s) ==> Distinct(r)
  {
    if s == [] then []
    else
      var rest := Without(s[1..], k);
      assert forall j :: j in s[1..] ==> j in s;
      assert Distinct(s) ==> s[0] !in s[1..];
      if s[0] == k then rest else [s[0]] + rest
  }

  /** Removing a key that was appended to a list without it gives the list
      back. */
  lemma {:induction false} WithoutAppended(s: seq<string>, k: string)
    requires k !in s
    ensures Without(s + [k], k) == s
  {
    if s != [] {
      assert (s + [k])[1..] == s[1..] + [k];
      WithoutAppended(s[1..], k);
    }
  }
}
