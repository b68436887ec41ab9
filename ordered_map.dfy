/** A Python `dict` with string keys: a map plus the order in which its keys
    were first inserted, which is the order the dict iterates in. */
module OrderedMap {

  datatype OMap<V> = OMap(keys: seq<string>, vals: map<string, V>)

  predicate Distinct(s: seq<string>) {
    forall i, j :: 0 <= i < j < |s| ==> s[i] != s[j]
  }

  /** Every key listed once, and exactly the keys of the map. */
  predicate Valid<V>(m: OMap<V>) {
    && Distinct(m.keys)
    && (forall k :: k in m.vals ==> k in m.keys)
    && (forall k :: k in m.keys ==> k in m.vals)
  }

  /** `{}` */
  function Empty<V>(): (r: OMap<V>)
    ensures Valid(r) && r.keys == [] && r.vals == map[]
  {
    OMap([], map[])
  }

  /** `d[k] = v`: a new key goes to the end, an existing key keeps its position. */
  function Put<V>(m: OMap<V>, k: string, v: V): (r: OMap<V>)
    requires Valid(m)
    ensures Valid(r)
    ensures k in r.vals && r.vals[k] == v
    ensures forall j :: j != k ==> (j in r.vals <==> j in m.vals)
    ensures forall j :: j != k && j in m.vals ==> r.vals[j] == m.vals[j]
    ensures |m.keys| <= |r.keys| && r.keys[..|m.keys|] == m.keys
    ensures k in m.vals ==> r.keys == m.keys
  {
    if k in m.vals then OMap(m.keys, m.vals[k := v])
    else OMap(m.keys + [k], m.vals[k := v])
  }

  /** Writing a key twice is writing it once, with the later value. */
  lemma PutPut<V>(m: OMap<V>, k: string, a: V, b: V)
    requires Valid(m)
    ensures Put(Put(m, k, a), k, b) == Put(m, k, b)
  {
    assert m.vals[k := a][k := b] == m.vals[k := b];
  }

  /** Writing back the value a key already has changes nothing, order included. */
  lemma PutSame<V>(m: OMap<V>, k: string)
    requires Valid(m) && k in m.vals
    ensures Put(m, k, m.vals[k]) == m
  {
    assert m.vals[k := m.vals[k]] == m.vals;
  }

  /** Writing distinct fresh keys in order, starting from `{}`, lists them in that order. */
  lemma {:induction false} PutInOrder<V>(ks: seq<string>, vm: map<string, V>, n: nat)
    requires Distinct(ks) && n < |ks|
    requires forall k :: k in ks ==> k in vm
    ensures Put(OMap(ks[..n], map k | k in ks[..n] :: vm[k]), ks[n], vm[ks[n]])
         == OMap(ks[..n + 1], map k | k in ks[..n + 1] :: vm[k])
  {
    var before := OMap(ks[..n], map k | k in ks[..n] :: vm[k]);
    assert Valid(before) by {
      assert Distinct(ks[..n]) by {
        forall i, j | 0 <= i < j < n ensures ks[..n][i] != ks[..n][j] { }
      }
    }
    assert ks[n] !in before.vals;
    assert ks[..n + 1] == ks[..n] + [ks[n]];
    assert before.vals[ks[n] := vm[ks[n]]] == map k | k in ks[..n + 1] :: vm[k];
  }
}
