/**
 * The Python runtime as the modelled code sees it: values described only by
 * what the code probes them for (`hasattr`, `inspect.isclass`, `isinstance`,
 * `len`, numpy's dtype kind and unique count), and insertion-ordered
 * dictionaries.  Numbers are opaque payloads: they are carried, never
 * computed with.
 */
module Runtime {
  import opened Wrappers

  /** The container kinds `isinstance(v, (list, tuple, np.ndarray, pd.Series))` accepts. */
  datatype SeqKind = PyList | PyTuple | NdArray | Series

  /** The shape of a value, as far as an `isinstance` test can tell. */
  datatype Form =
    | Scalar(number: real)                     // an `int` or a `float` (a `bool` too)
    | MetricObject(name: string, number: real) // an instance of the `Metric` record
    | Dict(items: seq<(string, Value)>)        // a `dict`
    | Sequence(kind: SeqKind, length: nat, dtypeKind: char, uniqueCount: nat)
    | Opaque                                   // anything else

  /**
   * A runtime value: whether it has a `predict` attribute, whether it is a
   * class object, whether it has `__len__`, and its form.
   */
  datatype Value = Value(hasPredict: bool, isClass: bool, hasLen: bool, form: Form)

  /** An insertion-ordered `dict` keyed by strings. */
  type Dict<V> = seq<(string, V)>

  /** The namespace of a notebook: variable name to value, in definition order. */
  type Namespace = Dict<Value>

  function Keys<V>(d: Dict<V>): (ks: seq<string>)
    ensures |ks| == |d|
    ensures forall i :: 0 <= i < |d| ==> ks[i] == d[i].0
  {
    if |d| == 0 then [] else [d[0].0] + Keys(d[1..])
  }

  function KeySet<V>(d: Dict<V>): set<string> {
    set i | 0 <= i < |d| :: d[i].0
  }

  lemma KeySetCons<V>(x: (string, V), d: Dict<V>)
    ensures KeySet([x] + d) == {x.0} + KeySet(d)
  {
    var c := [x] + d;
    forall k | k in KeySet(d) ensures k in KeySet(c) {
      var i :| 0 <= i < |d| && d[i].0 == k;
      assert c[i + 1] == d[i];
    }
    forall k | k in KeySet(c) ensures k in {x.0} + KeySet(d) {
      var i :| 0 <= i < |c| && c[i].0 == k;
      if i > 0 {
        assert c[i] == d[i - 1];
      }
    }
    assert c[0] == x;
  }

  /** A Python dict never holds a key twice. */
  predicate DistinctKeys<V>(d: Dict<V>) {
    forall i, j :: 0 <= i < j < |d| ==> d[i].0 != d[j].0
  }

  lemma DistinctCons<V>(x: (string, V), d: Dict<V>)
    ensures DistinctKeys([x] + d) <==> x.0 !in KeySet(d) && DistinctKeys(d)
  {
    var c := [x] + d;
    if x.0 !in KeySet(d) && DistinctKeys(d) {
      forall i, j | 0 <= i < j < |c| ensures c[i].0 != c[j].0 {
        assert c[j] == d[j - 1];
        if i > 0 {
          assert c[i] == d[i - 1];
        } else {
          assert d[j - 1].0 in KeySet(d);
        }
      }
    }
    if DistinctKeys(c) {
      forall i, j | 0 <= i < j < |d| ensures d[i].0 != d[j].0 {
        assert c[i + 1] == d[i] && c[j + 1] == d[j];
      }
      forall i | 0 <= i < |d| ensures d[i].0 != x.0 {
        assert c[i + 1] == d[i] && c[0] == x;
      }
    }
  }

  /** `d.get(k)` */
  function Get<V>(d: Dict<V>, k: string): (r: Option<V>)
    ensures r.Some? <==> k in KeySet(d)
    ensures forall i :: 0 <= i < |d| && d[i].0 == k && DistinctKeys(d) ==> r == Some(d[i].1)
  {
    if |d| == 0 then None
    else if d[0].0 == k then Some(d[0].1)
    else
      KeySetCons(d[0], d[1..]);
      assert d == [d[0]] + d[1..];
      Get(d[1..], k)
  }

  /** `d[k] = v`: a new key goes last, an existing key keeps its place. */
  function Put<V>(d: Dict<V>, k: string, v: V): (r: Dict<V>)
    ensures KeySet(r) == KeySet(d) + {k}
    ensures |r| == if k in KeySet(d) then |d| else |d| + 1
  {
    if |d| == 0 then
      assert [(k, v)][0].0 == k;
      [(k, v)]
    else if d[0].0 == k then
      KeySetCons(d[0], d[1..]);
      assert d == [d[0]] + d[1..];
      KeySetCons((k, v), d[1..]);
      [(k, v)] + d[1..]
    else
      var rest := Put(d[1..], k, v);
      KeySetCons(d[0], d[1..]);
      assert d == [d[0]] + d[1..];
      KeySetCons(d[0], rest);
      [d[0]] + rest
  }

  /** After `d[k] = v`, `k` holds `v` and every other key keeps its value. */
  lemma {:induction false} PutGet<V>(d: Dict<V>, k: string, v: V, j: string)
    ensures Get(Put(d, k, v), j) == if j == k then Some(v) else Get(d, j)
  {
    if |d| > 0 && d[0].0 != k {
      PutGet(d[1..], k, v, j);
    }
  }

  /** `d[k] = v` keeps the keys distinct, and a new key is appended at the end. */
  lemma {:induction false} PutDistinct<V>(d: Dict<V>, k: string, v: V)
    ensures DistinctKeys(d) ==> DistinctKeys(Put(d, k, v))
    ensures k !in KeySet(d) ==> Put(d, k, v) == d + [(k, v)]
  {
    if |d| > 0 {
      KeySetCons(d[0], d[1..]);
      assert d == [d[0]] + d[1..];
      DistinctCons(d[0], d[1..]);
      if d[0].0 != k {
        PutDistinct(d[1..], k, v);
        DistinctCons(d[0], Put(d[1..], k, v));
      } else {
        DistinctCons((k, v), d[1..]);
      }
    }
  }

  /** `d.update(e)`: the pairs of `e` are put into `d` in order. */
  function Update<V>(d: Dict<V>, e: Dict<V>): (r: Dict<V>)
    ensures KeySet(r) == KeySet(d) + KeySet(e)
    ensures DistinctKeys(d) ==> DistinctKeys(r)
    decreases |e|
  {
    if |e| == 0 then d
    else
      KeySetCons(e[0], e[1..]);
      assert e == [e[0]] + e[1..];
      PutDistinct(d, e[0].0, e[0].1);
      Update(Put(d, e[0].0, e[0].1), e[1..])
  }

  /** After `d.update(e)`, the keys of `e` have `e`'s values and every other key keeps its value. */
  lemma {:induction false} UpdateGet<V>(d: Dict<V>, e: Dict<V>, k: string)
    requires DistinctKeys(e)
    ensures Get(Update(d, e), k) == if k in KeySet(e) then Get(e, k) else Get(d, k)
    decreases |e|
  {
    if |e| > 0 {
      KeySetCons(e[0], e[1..]);
      assert e == [e[0]] + e[1..];
      DistinctCons(e[0], e[1..]);
      UpdateGet(Put(d, e[0].0, e[0].1), e[1..], k);
      PutGet(d, e[0].0, e[0].1, k);
    }
  }
}
