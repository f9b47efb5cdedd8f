/** Python dicts with string keys, as far as the simulator uses them: insertion
    order, overwriting on a repeated key, and iteration over the values. */
module Dicts {

  /** The keys in insertion order and the value stored under each. */
  datatype Dict<V> = Dict(keys: seq<string>, values: map<string, V>)

  /** Every dict the program can build: no key listed twice, and exactly the
      listed keys carry a value. */
  predicate Valid<V>(d: Dict<V>)
  {
    (forall i, j :: 0 <= i < j < |d.keys| ==> d.keys[i] != d.keys[j])
    && (forall k :: k in d.values ==> k in d.keys)
    && (forall i :: 0 <= i < |d.keys| ==> d.keys[i] in d.values)
  }

  function Empty<V>(): (d: Dict<V>)
    ensures Valid(d) && d.keys == [] && d.values == map[]
  {
    Dict([], map[])
  }

  /** d[k] = v: a new key goes to the end, a key already present keeps its place
      and only its value changes. */
  function Store<V>(d: Dict<V>, k: string, v: V): (r: Dict<V>)
    ensures Valid(d) ==> Valid(r)
    ensures k in r.values && r.values[k] == v
    ensures forall j :: j != k ==> (j in r.values <==> j in d.values)
    ensures forall j :: j != k && j in d.values ==> r.values[j] == d.values[j]
    ensures k in d.keys ==> r.keys == d.keys
    ensures k !in d.keys ==> r.keys == d.keys + [k]
  {
    if k in d.keys then Dict(d.keys, d.values[k := v]) else Dict(d.keys + [k], d.values[k := v])
  }

  /** {k: v for k, v in pairs}. */
  function FromPairs<V>(ps: seq<(string, V)>): (r: Dict<V>)
    ensures Valid(r)
  {
    if ps == [] then Empty()
    else Store(FromPairs(ps[..|ps| - 1]), ps[|ps| - 1].0, ps[|ps| - 1].1)
  }

  /** Exactly the keys of the pairs carry a value. */
  lemma {:induction false} FromPairsDomain<V>(ps: seq<(string, V)>, k: string)
    ensures k in FromPairs(ps).values <==> exists i :: 0 <= i < |ps| && ps[i].0 == k
  {
    if ps != [] {
      var front := ps[..|ps| - 1];
      FromPairsDomain(front, k);
      if k != ps[|ps| - 1].0 && k in FromPairs(ps).values {
        var i :| 0 <= i < |front| && front[i].0 == k;
        assert ps[i].0 == k;
      }
      if k != ps[|ps| - 1].0 && (exists i :: 0 <= i < |ps| && ps[i].0 == k) {
        var i :| 0 <= i < |ps| && ps[i].0 == k;
        assert front[i].0 == k;
      }
    }
  }

  /** A key keeps the value of its last pair. */
  lemma {:induction false} FromPairsLastWins<V>(ps: seq<(string, V)>, i: nat)
    requires i < |ps| && forall j :: i < j < |ps| ==> ps[j].0 != ps[i].0
    ensures ps[i].0 in FromPairs(ps).values && FromPairs(ps).values[ps[i].0] == ps[i].1
  {
    if i < |ps| - 1 {
      FromPairsLastWins(ps[..|ps| - 1], i);
    }
  }

  /** With distinct keys nothing is overwritten and the order is that of the pairs. */
  lemma {:induction false} FromDistinctPairs<V>(ps: seq<(string, V)>)
    requires forall i, j :: 0 <= i < j < |ps| ==> ps[i].0 != ps[j].0
    ensures |FromPairs(ps).keys| == |ps|
    ensures forall i :: 0 <= i < |ps| ==> FromPairs(ps).keys[i] == ps[i].0
  {
    if ps != [] {
      var front := ps[..|ps| - 1];
      var k := ps[|ps| - 1].0;
      FromDistinctPairs(front);
      var d := FromPairs(front);
      assert k !in d.keys by {
        forall i | 0 <= i < |front|
          ensures d.keys[i] != k
        {
          assert front[i] == ps[i];
        }
      }
      SnocKeys(d.keys, ps);
    }
  }

  /** The keys of all pairs but the last, then the last key, are the keys of all pairs. */
  lemma SnocKeys<V>(a: seq<string>, ps: seq<(string, V)>)
    requires ps != [] && |a| == |ps| - 1
    requires forall i :: 0 <= i < |a| ==> a[i] == ps[i].0
    ensures forall i :: 0 <= i < |ps| ==> (a + [ps[|ps| - 1].0])[i] == ps[i].0
  {
  }

  function ValuesOf<V>(ks: seq<string>, m: map<string, V>): (r: seq<V>)
    ensures (forall k :: k in ks ==> k in m) ==>
      |r| == |ks| && forall i :: 0 <= i < |ks| ==> r[i] == m[ks[i]]
  {
    if ks == [] then []
    else (if ks[0] in m then [m[ks[0]]] else []) + ValuesOf(ks[1..], m)
  }

  /** d.values(), in key order. */
  function Values<V>(d: Dict<V>): (r: seq<V>)
    ensures Valid(d) ==> |r| == |d.keys| && forall i :: 0 <= i < |d.keys| ==> r[i] == d.values[d.keys[i]]
  {
    ValuesOf(d.keys, d.values)
  }

  /** The same keys, each value passed through f. */
  function MapValues<V, W>(d: Dict<V>, f: V -> W): (r: Dict<W>)
    ensures Valid(d) ==> Valid(r)
    ensures r.keys == d.keys
    ensures forall k :: k in r.values <==> k in d.values
    ensures forall k :: k in d.values ==> r.values[k] == f(d.values[k])
  {
    Dict(d.keys, map k | k in d.values :: f(d.values[k]))
  }
}
