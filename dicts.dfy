/// A Python `dict` with string keys: its keys in insertion order and the
/// value stored under each. Assigning to an existing key keeps its position;
/// a new key goes to the end, as CPython's dicts do.
module Dicts {

  datatype Dict<V> = Dict(keys: seq<string>, vals: map<string, V>) {

    /** Every key listed once, and the listed keys are exactly the stored ones. */
    predicate Valid() {
      && (forall i, j :: 0 <= i < j < |keys| ==> keys[i] != keys[j])
      && (forall k :: k in vals ==> k in keys)
      && (forall i :: 0 <= i < |keys| ==> keys[i] in vals)
    }

    /** `d[k] = v` */
    function Put(k: string, v: V): (r: Dict<V>)
      requires Valid()
      ensures r.Valid()
      ensures r.vals == vals[k := v]
      ensures r.keys == if k in vals then keys else keys + [k]
    {
      if k in vals then Dict(keys, vals[k := v]) else Dict(keys + [k], vals[k := v])
    }

    /** `d.get(k, default)` */
    function Get(k: string, default: V): V {
      if k in vals then vals[k] else default
    }

    /** `list(d.items())`, in insertion order. */
    function Items(): (r: seq<(string, V)>)
      requires Valid()
      ensures |r| == |keys|
      ensures forall i :: 0 <= i < |r| ==> r[i].0 == keys[i] && r[i].1 == vals[keys[i]]
    {
      seq(|keys|, i requires 0 <= i < |keys| => (keys[i], vals[keys[i]]))
    }
  }

  /** `{}` */
  function Empty<V>(): (d: Dict<V>)
    ensures d.Valid() && d.keys == [] && d.vals == map[]
  {
    Dict([], map[])
  }
}
