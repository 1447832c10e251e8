/** An insertion-ordered map (Java's `LinkedHashMap`) as its entry sequence.
    `put` of a present key replaces the value where the key already stands;
    `put` of a new key appends the entry, so iteration order is first-insertion
    order. */
module LinkedMaps {
  import opened Results
  import opened Seqs

  type LinkedMap<K, V> = seq<(K, V)>

  /** The keys in iteration order. */
  function KeysOf<K, V>(m: LinkedMap<K, V>): (ks: seq<K>)
    ensures |ks| == |m|
    ensures forall i :: 0 <= i < |m| ==> ks[i] == m[i].0
  {
    seq(|m|, i requires 0 <= i < |m| => m[i].0)
  }

  /** `get`: the value of the first entry with key `k`. */
  function Get<K(==), V>(m: LinkedMap<K, V>, k: K): (r: Option<V>)
    ensures r.None? <==> k !in KeysOf(m)
    ensures r.Some? ==> exists i :: 0 <= i < |m| && m[i] == (k, r.value)
    ensures Distinct(KeysOf(m)) ==> forall i :: 0 <= i < |m| && m[i].0 == k ==> r == Some(m[i].1)
  {
    if m == [] then None
    else
      assert KeysOf(m) == [m[0].0] + KeysOf(m[1..]);
      if m[0].0 == k then Some(m[0].1) else
        var r := Get(m[1..], k);
        assert r.Some? ==> exists i :: 0 <= i < |m| && m[i] == (k, r.value) by {
          if r.Some? {
            var j :| 0 <= j < |m[1..]| && m[1..][j] == (k, r.value);
            assert m[j + 1] == (k, r.value);
          }
        }
        r
  }

  /** `put`: replace the value of a present key in place, or append. */
  function Put<K(==), V>(m: LinkedMap<K, V>, k: K, v: V): (r: LinkedMap<K, V>)
    ensures k in KeysOf(m) ==> KeysOf(r) == KeysOf(m)
    ensures k !in KeysOf(m) ==> r == m + [(k, v)]
  {
    if m == [] then [(k, v)]
    else if m[0].0 == k then
      KeysOfCons(m[0], m[1..]);
      KeysOfCons((k, v), m[1..]);
      assert m == [m[0]] + m[1..];
      [(k, v)] + m[1..]
    else
      var rest := Put(m[1..], k, v);
      PutBehindHead(m, k, v, rest);
      [m[0]] + rest
  }

  lemma KeysOfCons<K, V>(x: (K, V), m: LinkedMap<K, V>)
    ensures KeysOf([x] + m) == [x.0] + KeysOf(m)
  {
  }

  /** A `put` into the tail, behind a head with another key, is a `put`
      into the whole map. */
  lemma PutBehindHead<K, V>(m: LinkedMap<K, V>, k: K, v: V, rest: LinkedMap<K, V>)
    requires m != [] && m[0].0 != k
    requires k in KeysOf(m[1..]) ==> KeysOf(rest) == KeysOf(m[1..])
    requires k !in KeysOf(m[1..]) ==> rest == m[1..] + [(k, v)]
    ensures k in KeysOf(m) ==> KeysOf([m[0]] + rest) == KeysOf(m)
    ensures k !in KeysOf(m) ==> [m[0]] + rest == m + [(k, v)]
  {
    KeysOfCons(m[0], m[1..]);
    KeysOfCons(m[0], rest);
    assert m == [m[0]] + m[1..];
    if k !in KeysOf(m) {
      assert k !in KeysOf(m[1..]);
      ConsAppend(m, (k, v));
    }
  }

  /** After `put`, `get` of that key yields the value put. */
  lemma {:induction false} GetPutSame<K, V>(m: LinkedMap<K, V>, k: K, v: V)
    ensures Get(Put(m, k, v), k) == Some(v)
  {
    if m != [] && m[0].0 != k {
      GetPutSame(m[1..], k, v);
      assert Put(m, k, v)[1..] == Put(m[1..], k, v);
    }
  }

  /** `put` leaves every other key's value alone. */
  lemma {:induction false} GetPutOther<K, V>(m: LinkedMap<K, V>, k: K, v: V, k': K)
    requires k' != k
    ensures Get(Put(m, k, v), k') == Get(m, k')
  {
    if m != [] && m[0].0 != k {
      GetPutOther(m[1..], k, v, k');
      assert Put(m, k, v)[1..] == Put(m[1..], k, v);
    }
  }

  /** `put` never creates a duplicate key. */
  lemma {:induction false} PutKeepsDistinct<K, V>(m: LinkedMap<K, V>, k: K, v: V)
    requires Distinct(KeysOf(m))
    ensures Distinct(KeysOf(Put(m, k, v)))
  {
    if k !in KeysOf(m) {
      var r := m + [(k, v)];
      forall i, j | 0 <= i < j < |r| ensures KeysOf(r)[i] != KeysOf(r)[j] {
        if j == |m| { assert KeysOf(m)[i] == KeysOf(r)[i]; }
        else { assert KeysOf(m)[i] == KeysOf(r)[i] && KeysOf(m)[j] == KeysOf(r)[j]; }
      }
    }
  }
}
