/**
 * An ordered string-keyed dictionary: a plain JavaScript object used as a map
 * (`{}` filled by `out[k] = v`) or a Python `dict`. Both keep their keys in
 * insertion order, and assigning to a key that is already present keeps its
 * position and replaces its value.
 */
module Dict {
  import opened Wrappers

  type Dict<V> = seq<(string, V)>

  function Keys<V>(d: Dict<V>): (ks: seq<string>)
    ensures |ks| == |d|
    ensures forall i :: 0 <= i < |d| ==> ks[i] == d[i].0
  {
    seq(|d|, i requires 0 <= i < |d| => d[i].0)
  }

  predicate UniqueKeys<V>(d: Dict<V>) {
    forall i, j :: 0 <= i < j < |d| ==> d[i].0 != d[j].0
  }

  /** Reading `d[k]`: the value bound to `k`, or `None` when `k` is not a key. */
  function Lookup<V>(d: Dict<V>, k: string): (r: Option<V>)
  {
    if d == [] then None
    else if d[0].0 == k then Some(d[0].1)
    else Lookup(d[1..], k)
  }

  /** A key is absent exactly when no entry has it. */
  lemma {:induction false} LookupNone<V>(d: Dict<V>, k: string)
    ensures Lookup(d, k).None? <==> k !in Keys(d)
  {
    if d != [] {
      assert Keys(d) == [d[0].0] + Keys(d[1..]);
      LookupNone(d[1..], k);
    }
  }

  /** A lookup finds the first entry with the key it asks for. */
  lemma {:induction false} LookupEntry<V>(d: Dict<V>, i: nat)
    requires i < |d| && forall j :: 0 <= j < i ==> d[j].0 != d[i].0
    ensures Lookup(d, d[i].0) == Some(d[i].1)
  {
    if i > 0 {
      LookupEntry(d[1..], i - 1);
    }
  }

  /** The assignment `d[k] = v`: replaces the value in place when `k` is a key, appends otherwise. */
  function Put<V>(d: Dict<V>, k: string, v: V): (r: Dict<V>)
    ensures k in Keys(d) ==> Keys(r) == Keys(d)
    ensures k !in Keys(d) ==> r == d + [(k, v)]
  {
    if d == [] then [(k, v)]
    else if d[0].0 == k then [(k, v)] + d[1..]
    else
      assert Keys(d) == [d[0].0] + Keys(d[1..]);
      var r := [d[0]] + Put(d[1..], k, v);
      assert Keys(r) == [d[0].0] + Keys(Put(d[1..], k, v));
      r
  }

  /** After `d[k] = v`, `k` reads `v` and every other key reads what it read before. */
  lemma {:induction false} PutLookup<V>(d: Dict<V>, k: string, v: V, k': string)
    ensures Lookup(Put(d, k, v), k') == if k' == k then Some(v) else Lookup(d, k')
  {
    if d != [] && d[0].0 != k {
      PutLookup(d[1..], k, v, k');
    }
  }

  /** Assignment never creates a duplicate key. */
  lemma PutUnique<V>(d: Dict<V>, k: string, v: V)
    requires UniqueKeys(d)
    ensures UniqueKeys(Put(d, k, v))
  {
    var r := Put(d, k, v);
    if k in Keys(d) {
      assert forall i :: 0 <= i < |r| ==> r[i].0 == Keys(r)[i] == Keys(d)[i];
    } else {
      assert forall i :: 0 <= i < |d| ==> d[i].0 == Keys(d)[i];
    }
  }

  /** `{k: f(v) for k, v in d.items()}`: same keys in the same order, each value mapped. */
  function MapValues<V, W>(d: Dict<V>, f: V -> W): (r: Dict<W>)
    ensures |r| == |d| && Keys(r) == Keys(d)
    ensures forall i :: 0 <= i < |d| ==> r[i].1 == f(d[i].1)
  {
    seq(|d|, i requires 0 <= i < |d| => (d[i].0, f(d[i].1)))
  }

  /** Mapping the values keeps every key's presence and maps the value it is bound to. */
  lemma {:induction false} MapValuesLookup<V, W>(d: Dict<V>, f: V -> W, k: string)
    ensures Lookup(MapValues(d, f), k).None? <==> Lookup(d, k).None?
    ensures Lookup(d, k).Some? ==> Lookup(MapValues(d, f), k) == Some(f(Lookup(d, k).value))
  {
    if d != [] {
      var r := MapValues(d, f);
      assert r[0] == (d[0].0, f(d[0].1));
      if d[0].0 != k {
        MapValuesLookup(d[1..], f, k);
        assert MapValues(d[1..], f) == r[1..];
      }
    }
  }
}
