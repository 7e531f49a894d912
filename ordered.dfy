/**
 * Ruby `Hash` semantics for the two hashes the GNTP client fills in place:
 * entries keep the order in which their keys were first inserted, and
 * storing under a key that is already present replaces its value where it
 * stands.
 */
module OrderedMaps {
  import opened Results

  /** The entries of a hash in insertion order. */
  type Entries<K, V> = seq<(K, V)>

  /** The keys of the entries, in order. */
  function Keys<K(==), V>(m: Entries<K, V>): seq<K>
  {
    if |m| == 0 then [] else [m[0].0] + Keys(m[1..])
  }

  /** A well-formed hash holds each key once. */
  predicate DistinctKeys<K(==), V>(m: Entries<K, V>)
  {
    forall i, j :: 0 <= i < j < |m| ==> m[i].0 != m[j].0
  }

  /** `hash[k]`: the value stored under `k`, `nil` when there is none. */
  function Get<K(==), V>(m: Entries<K, V>, k: K): Option<V>
  {
    if |m| == 0 then None else if m[0].0 == k then Some(m[0].1) else Get(m[1..], k)
  }

  /** `hash[k] = v` */
  function Put<K(==), V>(m: Entries<K, V>, k: K, v: V): Entries<K, V>
  {
    if |m| == 0 then [(k, v)]
    else if m[0].0 == k then [(k, v)] + m[1..]
    else [m[0]] + Put(m[1..], k, v)
  }

  lemma {:induction false} KeysLength<K, V>(m: Entries<K, V>)
    ensures |Keys(m)| == |m|
    ensures forall i :: 0 <= i < |m| ==> Keys(m)[i] == m[i].0
  {
    if |m| > 0 {
      KeysLength(m[1..]);
    }
  }

  /** A key is found exactly when it is one of the keys, and then with the value of its entry. */
  lemma {:induction false} GetSpec<K, V>(m: Entries<K, V>, k: K)
    requires DistinctKeys(m)
    ensures Get(m, k).Some? <==> k in Keys(m)
    ensures forall i :: 0 <= i < |m| && m[i].0 == k ==> Get(m, k) == Some(m[i].1)
  {
    if |m| > 0 {
      assert DistinctKeys(m[1..]) by {
        forall i, j | 0 <= i < j < |m[1..]| ensures m[1..][i].0 != m[1..][j].0 {
          assert m[1..][i] == m[i + 1] && m[1..][j] == m[j + 1];
        }
      }
      GetSpec(m[1..], k);
      forall i | 0 <= i < |m| && m[i].0 == k ensures Get(m, k) == Some(m[i].1) {
        if i > 0 {
          assert m[1..][i - 1] == m[i];
        }
      }
    }
  }

  /** After `hash[k] = v`, looking up `k` gives `v` and every other key is untouched. */
  lemma {:induction false} GetPut<K, V>(m: Entries<K, V>, k: K, v: V, k': K)
    ensures Get(Put(m, k, v), k') == if k' == k then Some(v) else Get(m, k')
  {
    if |m| > 0 && m[0].0 != k {
      GetPut(m[1..], k, v, k');
    }
  }

  /** `hash[k] = v` keeps the key order, appending `k` only when it was not yet a key. */
  lemma {:induction false} KeysPut<K, V>(m: Entries<K, V>, k: K, v: V)
    ensures Keys(Put(m, k, v)) == if k in Keys(m) then Keys(m) else Keys(m) + [k]
  {
    if |m| > 0 && m[0].0 != k {
      KeysPut(m[1..], k, v);
    }
  }

  /** `hash[k] = v` keeps every key unique. */
  lemma {:induction false} PutDistinct<K, V>(m: Entries<K, V>, k: K, v: V)
    requires DistinctKeys(m)
    ensures DistinctKeys(Put(m, k, v))
  {
    KeysPut(m, k, v);
    KeysLength(m);
    KeysLength(Put(m, k, v));
    var p := Put(m, k, v);
    forall i, j | 0 <= i < j < |p| ensures p[i].0 != p[j].0 {
      assert Keys(p)[i] == p[i].0 && Keys(p)[j] == p[j].0;
      if k in Keys(m) {
        assert Keys(m)[i] == m[i].0 && Keys(m)[j] == m[j].0;
      } else if j < |m| {
        assert Keys(m)[i] == m[i].0 && Keys(m)[j] == m[j].0;
      } else {
        assert Keys(m)[i] == m[i].0;
      }
    }
  }

  /** Storing under a key that is not yet present appends the entry. */
  lemma {:induction false} PutAbsent<K, V>(m: Entries<K, V>, k: K, v: V)
    requires forall i :: 0 <= i < |m| ==> m[i].0 != k
    ensures Put(m, k, v) == m + [(k, v)]
  {
    if |m| > 0 {
      assert forall i :: 0 <= i < |m[1..]| ==> m[1..][i] == m[i + 1];
      PutAbsent(m[1..], k, v);
      assert m == [m[0]] + m[1..];
    }
  }
}
