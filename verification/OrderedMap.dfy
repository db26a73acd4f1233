/**
 * JavaScript's `Map`: entries in insertion order, where `set` on a known key keeps the entry's
 * position and replaces its value.
 */
module OrderedMap {

  type Entries<K, V> = seq<(K, V)>

  function Keys<K, V>(m: Entries<K, V>): seq<K> {
    seq(|m|, i requires 0 <= i < |m| => m[i].0)
  }

  ghost predicate KeysDiffer<K, V>(m: Entries<K, V>, i: nat, j: nat)
    requires i < |m| && j < |m|
  {
    m[i].0 != m[j].0
  }

  ghost predicate Distinct<K, V>(m: Entries<K, V>) {
    forall i, j | 0 <= i < j < |m| :: KeysDiffer(m, i, j)
  }

  lemma KeysAt<K, V>(m: Entries<K, V>, i: nat, j: nat)
    requires Distinct(m) && i < |m| && j < |m|
    ensures m[i].0 == m[j].0 <==> i == j
  {
    if i < j {
      assert KeysDiffer(m, i, j);
    } else if j < i {
      assert KeysDiffer(m, j, i);
    }
  }

  lemma DistinctSlice<K, V>(m: Entries<K, V>, lo: nat, hi: nat)
    requires Distinct(m) && lo <= hi <= |m|
    ensures Distinct(m[lo..hi])
  {
    forall i, j | 0 <= i < j < hi - lo ensures KeysDiffer(m[lo..hi], i, j) {
      assert KeysDiffer(m, lo + i, lo + j);
    }
  }

  lemma DistinctTail<K, V>(m: Entries<K, V>)
    requires Distinct(m) && m != []
    ensures Distinct(m[1..])
  {
    DistinctSlice(m, 1, |m|);
    assert m[1..] == m[1..|m|];
  }

  /** A new first entry keeps a map distinct when its key is new. */
  lemma DistinctCons<K, V>(k: K, v: V, m: Entries<K, V>)
    requires Distinct(m) && !Has(m, k)
    ensures Distinct([(k, v)] + m)
  {
    var r := [(k, v)] + m;
    forall i, j | 0 <= i < j < |r| ensures KeysDiffer(r, i, j) {
      if i == 0 {
        HasIndex(m, k);
        assert m[j - 1].0 != k;
      } else {
        assert KeysDiffer(m, i - 1, j - 1);
      }
    }
  }

  lemma HeadKeyIsNew<K, V>(m: Entries<K, V>)
    requires Distinct(m) && m != []
    ensures !Has(m[1..], m[0].0)
  {
    HasIndex(m[1..], m[0].0);
    forall i | 0 <= i < |m[1..]| ensures m[1..][i].0 != m[0].0 {
      assert KeysDiffer(m, 0, i + 1);
    }
  }

  predicate Has<K(==), V>(m: Entries<K, V>, k: K) {
    m != [] && (m[0].0 == k || Has(m[1..], k))
  }

  function Get<K(==), V>(m: Entries<K, V>, k: K): V
    requires Has(m, k)
  {
    if m[0].0 == k then m[0].1 else Get(m[1..], k)
  }

  function Put<K(==), V>(m: Entries<K, V>, k: K, v: V): Entries<K, V> {
    if m == [] then [(k, v)]
    else if m[0].0 == k then [(k, v)] + m[1..]
    else [m[0]] + Put(m[1..], k, v)
  }

  function Delete<K(==), V>(m: Entries<K, V>, k: K): Entries<K, V> {
    if m == [] then []
    else if m[0].0 == k then m[1..]
    else [m[0]] + Delete(m[1..], k)
  }

  /** `for (const [k, v] of entries) map.set(k, v)` on the map `m`. */
  function PutAll<K(==), V>(m: Entries<K, V>, entries: Entries<K, V>): Entries<K, V>
    decreases entries
  {
    if entries == [] then m else PutAll(Put(m, entries[0].0, entries[0].1), entries[1..])
  }

  lemma {:induction false} HasIndex<K, V>(m: Entries<K, V>, k: K)
    ensures Has(m, k) <==> exists i :: 0 <= i < |m| && m[i].0 == k
  {
    if m != [] {
      HasIndex(m[1..], k);
      if Has(m, k) && m[0].0 != k {
        var i :| 0 <= i < |m[1..]| && m[1..][i].0 == k;
        assert m[i + 1].0 == k;
      }
      if i :| 0 <= i < |m| && m[i].0 == k {
        if i != 0 {
          assert m[1..][i - 1].0 == k;
        }
      }
    }
  }

  lemma {:induction false} GetIndex<K, V>(m: Entries<K, V>, i: nat)
    requires Distinct(m) && i < |m|
    ensures Has(m, m[i].0) && Get(m, m[i].0) == m[i].1
  {
    if i != 0 {
      assert KeysDiffer(m, 0, i);
      DistinctTail(m);
      assert m[1..][i - 1] == m[i];
      GetIndex(m[1..], i - 1);
    }
  }

  /** `set` changes exactly the entry of its key. */
  lemma {:induction false} PutHas<K, V>(m: Entries<K, V>, k: K, v: V, x: K)
    ensures Has(Put(m, k, v), x) <==> x == k || Has(m, x)
    ensures Has(Put(m, k, v), x) ==> Get(Put(m, k, v), x) == if x == k then v else Get(m, x)
  {
    if m != [] && m[0].0 != k {
      PutHas(m[1..], k, v, x);
      assert Put(m, k, v)[1..] == Put(m[1..], k, v);
    }
  }

  lemma {:induction false} PutDistinct<K, V>(m: Entries<K, V>, k: K, v: V)
    requires Distinct(m)
    ensures Distinct(Put(m, k, v))
  {
    if m != [] {
      DistinctTail(m);
      HeadKeyIsNew(m);
      if m[0].0 == k {
        DistinctCons(k, v, m[1..]);
      } else {
        PutDistinct(m[1..], k, v);
        PutHas(m[1..], k, v, m[0].0);
        DistinctCons(m[0].0, m[0].1, Put(m[1..], k, v));
      }
    }
  }

  /** `delete` removes exactly the entry of its key. */
  lemma {:induction false} DeleteHas<K, V>(m: Entries<K, V>, k: K, x: K)
    requires Distinct(m)
    ensures Has(Delete(m, k), x) <==> x != k && Has(m, x)
    ensures Has(Delete(m, k), x) ==> Get(Delete(m, k), x) == Get(m, x)
  {
    if m != [] {
      DistinctTail(m);
      HeadKeyIsNew(m);
      if m[0].0 != k {
        DeleteHas(m[1..], k, x);
        assert Delete(m, k)[1..] == Delete(m[1..], k);
      }
    }
  }

  lemma {:induction false} DeleteDistinct<K, V>(m: Entries<K, V>, k: K)
    requires Distinct(m)
    ensures Distinct(Delete(m, k))
  {
    if m != [] {
      DistinctTail(m);
      HeadKeyIsNew(m);
      if m[0].0 != k {
        DeleteDistinct(m[1..], k);
        DeleteHas(m[1..], k, m[0].0);
        DistinctCons(m[0].0, m[0].1, Delete(m[1..], k));
      }
    }
  }

  /** `set` of a known key overwrites in place. */
  lemma {:induction false} PutAt<K, V>(m: Entries<K, V>, i: nat, v: V)
    requires Distinct(m) && i < |m|
    ensures Put(m, m[i].0, v) == m[i := (m[i].0, v)]
  {
    if i != 0 {
      assert KeysDiffer(m, 0, i);
      DistinctTail(m);
      PutAt(m[1..], i - 1, v);
      assert m[i := (m[i].0, v)] == [m[0]] + m[1..][i - 1 := (m[i].0, v)];
    }
  }

  /** `set` of a new key appends. */
  lemma {:induction false} PutFresh<K, V>(m: Entries<K, V>, k: K, v: V)
    requires !Has(m, k)
    ensures Put(m, k, v) == m + [(k, v)]
  {
    if m != [] {
      PutFresh(m[1..], k, v);
    }
  }

  /** Re-inserting a map's entries, in order, after a map without their keys appends them. */
  lemma {:induction false} PutAllFresh<K, V>(m: Entries<K, V>, entries: Entries<K, V>)
    requires Distinct(m + entries)
    ensures PutAll(m, entries) == m + entries
    decreases entries
  {
    if entries != [] {
      var (k, v) := entries[0];
      assert !Has(m, k) by {
        HasIndex(m, k);
        forall i | 0 <= i < |m| ensures m[i].0 != k {
          assert KeysDiffer(m + entries, i, |m|);
        }
      }
      PutFresh(m, k, v);
      assert (m + [(k, v)]) + entries[1..] == m + entries;
      PutAllFresh(m + [(k, v)], entries[1..]);
    }
  }

  lemma {:induction false} PutAllDistinct<K, V>(m: Entries<K, V>, entries: Entries<K, V>)
    requires Distinct(m)
    ensures Distinct(PutAll(m, entries))
    decreases entries
  {
    if entries != [] {
      PutDistinct(m, entries[0].0, entries[0].1);
      PutAllDistinct(Put(m, entries[0].0, entries[0].1), entries[1..]);
    }
  }
}
