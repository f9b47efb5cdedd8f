/** The Python values that the validators and the vertex helpers inspect by type. */
module PyValues {
  import opened Outcomes

  datatype Value =
    | Int(i: int)
    | Str(s: string)
    | List(items: seq<Value>)
    | Tuple(items: seq<Value>)
    | Array(items: seq<Value>)   // a one-dimensional numpy array
    | NoneValue
    | Other                      // any other object that cannot be iterated (a float, a function, ...)

  /** A numpy array: its shape and its entries in row-major order. */
  datatype NdArray = NdArray(shape: seq<nat>, data: seq<real>)

  /** Row k of a two-dimensional array (empty when there is no such row). */
  function Row(a: NdArray, k: nat): (r: seq<real>)
    ensures |a.shape| == 2 && |a.data| == a.shape[0] * a.shape[1] && k < a.shape[0] ==>
      |r| == a.shape[1] && forall t :: 0 <= t < |r| ==> r[t] == a.data[k * a.shape[1] + t]
  {
    if |a.shape| == 2 && (k + 1) * a.shape[1] <= |a.data| then a.data[k * a.shape[1]..(k + 1) * a.shape[1]] else []
  }

  /** isinstance(v, list | tuple). */
  predicate IsListOrTuple(v: Value)
  {
    v.List? || v.Tuple?
  }

  /** Iterating over v: containers yield their items, a string its one-character
      strings, and anything else raises TypeError. */
  function Iterate(v: Value): (r: Result<seq<Value>>)
    ensures r.Ok? <==> v.List? || v.Tuple? || v.Array? || v.Str?
    ensures (v.List? || v.Tuple? || v.Array?) ==> r == Ok(v.items)
    ensures v.Str? ==> r.Ok? && |r.value| == |v.s| && forall i :: 0 <= i < |v.s| ==> r.value[i] == Str([v.s[i]])
    ensures r.Err? ==> r.error == NotIterable
  {
    match v
    case List(items) => Ok(items)
    case Tuple(items) => Ok(items)
    case Array(items) => Ok(items)
    case Str(s) => Ok(seq(|s|, i requires 0 <= i < |s| => Str([s[i]])))
    case _ => Err(NotIterable)
  }
}
