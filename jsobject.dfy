/** A plain JavaScript object used as a dictionary with string keys:
    `Object.keys` lists the keys in the order they were first assigned. */
module JsObject {

  /** No key is listed twice. */
  predicate Distinct(keys: seq<string>)
  {
    keys == [] || (Distinct(keys[..|keys| - 1]) && keys[|keys| - 1] !in keys[..|keys| - 1])
  }

  lemma {:induction false} DistinctPositions(keys: seq<string>)
    requires Distinct(keys)
    ensures forall i, j :: 0 <= i < j < |keys| ==> keys[i] != keys[j]
  {
    if keys != [] {
      var init := keys[..|keys| - 1];
      DistinctPositions(init);
      forall i, j | 0 <= i < j < |keys|
        ensures keys[i] != keys[j]
      {
        assert keys[i] == init[i];
        if j < |keys| - 1 {
          assert keys[j] == init[j];
        }
      }
    }
  }

  /** The object: its key order and its entries. */
  datatype Dict<V> = Dict(keys: seq<string>, values: map<string, V>)

  /** The key order has no repeats and lists exactly the keys that have entries. */
  predicate WellFormed<V>(d: Dict<V>)
  {
    && Distinct(d.keys)
    && (forall k :: k in d.keys ==> k in d.values)
    && (forall k :: k in d.values ==> k in d.keys)
  }

  /** `{}` */
  function Empty<V>(): (r: Dict<V>)
    ensures WellFormed(r) && r.values == map[]
  {
    Dict([], map[])
  }

  /** `o[k] = v`: a new key goes to the end of the key order, an existing key keeps its place. */
  function Put<V>(d: Dict<V>, k: string, v: V): Dict<V>
  {
    Dict(if k in d.keys then d.keys else d.keys + [k], d.values[k := v])
  }

  /** Assignment keeps the object well formed and, on a well-formed object,
      appends the key exactly when it had no entry. */
  lemma PutWellFormed<V>(d: Dict<V>, k: string, v: V)
    requires WellFormed(d)
    ensures WellFormed(Put(d, k, v))
    ensures k in d.values ==> Put(d, k, v).keys == d.keys
    ensures k !in d.values ==> Put(d, k, v).keys == d.keys + [k]
  {
    if k !in d.keys {
      var keys := d.keys + [k];
      assert keys[..|keys| - 1] == d.keys;
    }
  }

  /** The measure of the entry at `k`, zero when there is none. */
  function MeasureAt<V>(values: map<string, V>, k: string, measure: V -> real): real
  {
    if k in values then measure(values[k]) else 0.0
  }

  /** The sum of `measure` over the entries named by `keys`, in key order. */
  function SumBy<V>(keys: seq<string>, values: map<string, V>, measure: V -> real): real
  {
    if keys == [] then 0.0
    else SumBy(keys[..|keys| - 1], values, measure) + MeasureAt(values, keys[|keys| - 1], measure)
  }

  /** Changing the entry at `k` changes the sum over `keys` by the difference
      of the two measures if `k` is listed (once), and not at all otherwise. */
  lemma {:induction false} SumByUpdate<V>(keys: seq<string>, values: map<string, V>, k: string, v: V, measure: V -> real)
    requires Distinct(keys)
    ensures SumBy(keys, values[k := v], measure)
            == SumBy(keys, values, measure)
               + (if k in keys then measure(v) - MeasureAt(values, k, measure) else 0.0)
  {
    if keys != [] {
      var init, last := keys[..|keys| - 1], keys[|keys| - 1];
      assert keys == init + [last];
      SumByUpdate(init, values, k, v, measure);
      if last == k {
        assert k !in init;
      } else {
        assert k in keys <==> k in init;
      }
    }
  }

  /** The sum over an object after `o[k] = v` loses the old entry's measure
      and gains the new one's. */
  lemma SumByPut<V>(d: Dict<V>, k: string, v: V, measure: V -> real)
    requires WellFormed(d)
    ensures SumBy(Put(d, k, v).keys, Put(d, k, v).values, measure)
            == SumBy(d.keys, d.values, measure) - MeasureAt(d.values, k, measure) + measure(v)
  {
    SumByUpdate(d.keys, d.values, k, v, measure);
    PutWellFormed(d, k, v);
    if k !in d.values {
      var keys := d.keys + [k];
      assert keys[..|keys| - 1] == d.keys;
    }
  }
}
