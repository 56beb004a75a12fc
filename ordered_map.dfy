/** A JavaScript `Map`: a collection of key/value entries that remembers
    insertion order. `set` on a key already present replaces its value in
    place, `set` on a new key appends, `delete` removes the entry and keeps
    the order of the rest, and `values()` lists the values in order. */
module OrderedMap {

  type OMap<K, V> = seq<(K, V)>

  /** The keys in iteration order. */
  function Keys<K, V>(m: OMap<K, V>): (ks: seq<K>)
  {
    seq(|m|, i requires 0 <= i < |m| => m[i].0)
  }

  /** The values in iteration order. */
  function Values<K, V>(m: OMap<K, V>): (vs: seq<V>)
  {
    seq(|m|, i requires 0 <= i < |m| => m[i].1)
  }

  /** A JavaScript `Map` never holds a key twice. */
  ghost predicate Distinct<K, V>(m: OMap<K, V>)
  {
    forall i, j :: 0 <= i < j < |m| ==> m[i].0 != m[j].0
  }

  /** Whether some entry has key `k`. */
  predicate Has<K(==), V>(m: OMap<K, V>, k: K)
  {
    k in Keys(m)
  }

  /** The value stored under a key that is present. */
  function Get<K(==), V>(m: OMap<K, V>, k: K): (v: V)
    requires Has(m, k)
    ensures (k, v) in m
  {
    if m[0].0 == k then m[0].1
    else
      assert Keys(m) == [m[0].0] + Keys(m[1..]);
      Get(m[1..], k)
  }

  /** Storing `v` under `k`: replaced in place when `k` is present,
      appended otherwise. */
  function Set<K(==), V>(m: OMap<K, V>, k: K, v: V): (r: OMap<K, V>)
    ensures Keys(r) == if Has(m, k) then Keys(m) else Keys(m) + [k]
    ensures Has(r, k)
  {
    if Has(m, k) then seq(|m|, i requires 0 <= i < |m| => if m[i].0 == k then (k, v) else m[i])
    else m + [(k, v)]
  }

  /** Removing the entry of `k`, keeping the others in order. */
  function Delete<K(==), V>(m: OMap<K, V>, k: K): (r: OMap<K, V>)
    ensures forall i :: 0 <= i < |r| ==> r[i] in m && r[i].0 != k
    ensures forall i :: 0 <= i < |m| && m[i].0 != k ==> m[i] in r
    ensures |r| <= |m|
    ensures Distinct(m) ==> Distinct(r)
  {
    if m == [] then []
    else if m[0].0 == k then Delete(m[1..], k)
    else
      var rest := Delete(m[1..], k);
      assert forall j :: 0 <= j < |rest| ==> rest[j] in m[1..];
      [m[0]] + rest
  }

  lemma HasEntry<K, V>(m: OMap<K, V>, k: K)
    ensures Has(m, k) <==> exists v :: (k, v) in m
  {
    if Has(m, k) {
      var i :| 0 <= i < |m| && Keys(m)[i] == k;
      assert (k, m[i].1) == m[i];
    }
    if exists v :: (k, v) in m {
      var v :| (k, v) in m;
      var i :| 0 <= i < |m| && m[i] == (k, v);
      assert Keys(m)[i] == k;
    }
  }

  /** In a map without duplicate keys an entry is what `get` returns. */
  lemma {:induction false} EntryIsGet<K, V>(m: OMap<K, V>, k: K, v: V)
    requires Distinct(m)
    ensures (k, v) in m <==> Has(m, k) && Get(m, k) == v
  {
    HasEntry(m, k);
    if (k, v) in m {
      var i :| 0 <= i < |m| && m[i] == (k, v);
      var j :| 0 <= j < |m| && m[j] == (k, Get(m, k));
      assert i == j;
    }
  }

  /** What `set` does, stated as JavaScript promises it. */
  lemma SetSpec<K, V>(m: OMap<K, V>, k: K, v: V)
    requires Distinct(m)
    ensures Distinct(Set(m, k, v))
    ensures Has(Set(m, k, v), k) && Get(Set(m, k, v), k) == v
    ensures forall k' :: k' != k ==> (Has(Set(m, k, v), k') <==> Has(m, k'))
    ensures forall k' :: k' != k && Has(m, k') ==> Get(Set(m, k, v), k') == Get(m, k')
    ensures Keys(Set(m, k, v)) == if Has(m, k) then Keys(m) else Keys(m) + [k]
    ensures |Set(m, k, v)| == if Has(m, k) then |m| else |m| + 1
  {
    var r := Set(m, k, v);
    assert Keys(r) == if Has(m, k) then Keys(m) else Keys(m) + [k];
    assert forall i :: 0 <= i < |r| ==> r[i].0 == Keys(r)[i];
    assert forall i :: 0 <= i < |m| ==> m[i].0 == Keys(m)[i];
    assert Has(r, k);
    assert (k, v) in r by {
      var i :| 0 <= i < |r| && r[i].0 == k;
    }
    EntryIsGet(r, k, v);
    forall k' | k' != k && Has(m, k')
      ensures Get(r, k') == Get(m, k')
    {
      var w := Get(m, k');
      var i :| 0 <= i < |m| && m[i] == (k', w);
      assert r[i] == (k', w);
      EntryIsGet(r, k', w);
    }
  }

  /** What `delete` does, stated as JavaScript promises it. */
  lemma DeleteSpec<K, V>(m: OMap<K, V>, k: K)
    requires Distinct(m)
    ensures Distinct(Delete(m, k)) && !Has(Delete(m, k), k)
    ensures forall k' :: k' != k ==> (Has(Delete(m, k), k') <==> Has(m, k'))
    ensures forall k' :: k' != k && Has(m, k') ==> Get(Delete(m, k), k') == Get(m, k')
    ensures |Delete(m, k)| == if Has(m, k) then |m| - 1 else |m|
    ensures !Has(m, k) ==> Delete(m, k) == m
    ensures forall i :: 0 <= i < |m| && m[i].0 == k ==> Delete(m, k) == m[..i] + m[i + 1..]
  {
    var r := Delete(m, k);
    if !Has(m, k) { DeleteAbsent(m, k); }
    forall i | 0 <= i < |m| && m[i].0 == k ensures r == m[..i] + m[i + 1..] {
      DeleteAt(m, k, i);
    }
    HasEntry(m, k);
    HasEntry(r, k);
    forall k' | k' != k
      ensures Has(r, k') <==> Has(m, k')
    {
      HasEntry(m, k');
      HasEntry(r, k');
    }
    forall k' | k' != k && Has(m, k')
      ensures Get(r, k') == Get(m, k')
    {
      EntryIsGet(m, k', Get(m, k'));
      EntryIsGet(r, k', Get(m, k'));
    }
    DeleteLength(m, k);
  }

  lemma {:induction false} DeleteLength<K, V>(m: OMap<K, V>, k: K)
    requires Distinct(m)
    ensures |Delete(m, k)| == if Has(m, k) then |m| - 1 else |m|
  {
    if m != [] {
      assert Keys(m) == [m[0].0] + Keys(m[1..]);
      DeleteLength(m[1..], k);
      if m[0].0 == k {
        assert !Has(m[1..], k);
      }
    }
  }

  /** Deleting a key that is absent returns the map as it was. */
  lemma {:induction false} DeleteAbsent<K, V>(m: OMap<K, V>, k: K)
    requires !Has(m, k)
    ensures Delete(m, k) == m
  {
    if m != [] {
      assert Keys(m) == [m[0].0] + Keys(m[1..]);
      DeleteAbsent(m[1..], k);
    }
  }

  /** Deleting a key that is present removes its one entry and keeps every
      other entry in its place. */
  lemma {:induction false} DeleteAt<K, V>(m: OMap<K, V>, k: K, i: nat)
    requires Distinct(m) && i < |m| && m[i].0 == k
    ensures Delete(m, k) == m[..i] + m[i + 1..]
  {
    var tail := m[1..];
    assert Distinct(tail) by {
      forall a, b | 0 <= a < b < |tail| ensures tail[a].0 != tail[b].0 {
        assert tail[a] == m[a + 1] && tail[b] == m[b + 1];
      }
    }
    if i == 0 {
      assert Keys(m) == [m[0].0] + Keys(tail);
      assert !Has(tail, k);
      DeleteAbsent(tail, k);
      assert Delete(m, k) == Delete(tail, k);
    } else {
      DeleteAt(tail, k, i - 1);
      assert Delete(m, k) == [m[0]] + Delete(tail, k);
      assert m[..i] == [m[0]] + tail[..i - 1];
      assert m[i + 1..] == tail[i..];
    }
  }
}
