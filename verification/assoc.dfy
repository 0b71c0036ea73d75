/** Insertion-ordered dictionaries as association lists.

    A Python `dict` iterates in the order in which its keys were first
    inserted, and assigning to a present key keeps that key's position. Every
    dictionary of the source whose order is observable (a record's `data`, an
    element's attributes, the region and context maps) is modelled by a
    sequence of pairs with these operations. */
module Assoc {
  import opened Wrappers

  /** The keys in iteration order. */
  function Keys<K, V>(m: seq<(K, V)>): seq<K>
  {
    seq(|m|, i requires 0 <= i < |m| => m[i].0)
  }

  predicate HasKey<K(==,!new), V>(m: seq<(K, V)>, k: K)
  {
    exists i :: 0 <= i < |m| && m[i].0 == k
  }

  /** No key occurs twice: the shape of every dictionary built by `Put`. */
  predicate Unique<K(==,!new), V>(m: seq<(K, V)>)
  {
    forall i, j :: 0 <= i < j < |m| ==> m[i].0 != m[j].0
  }

  /** `d.get(k)`: the value of the first pair with key `k`. */
  function Get<K(==,!new), V>(m: seq<(K, V)>, k: K): (r: Option<V>)
    ensures r.Some? <==> HasKey(m, k)
    ensures r.Some? ==> exists i :: 0 <= i < |m| && m[i] == (k, r.value)
    ensures |m| > 0 && m[0].0 == k ==> r == Some(m[0].1)
  {
    if |m| == 0 then None
    else if m[0].0 == k then Some(m[0].1)
    else Get(m[1..], k)
  }

  /** `d[k] = v`: replace the value in place when `k` is present, otherwise
      append the pair at the end. */
  function Put<K(==,!new), V>(m: seq<(K, V)>, k: K, v: V): (r: seq<(K, V)>)
    ensures Get(r, k) == Some(v)
    ensures forall k' :: k' != k ==> Get(r, k') == Get(m, k')
    ensures HasKey(m, k) ==> Keys(r) == Keys(m)
    ensures !HasKey(m, k) ==> r == m + [(k, v)]
  {
    if |m| == 0 then [(k, v)]
    else if m[0].0 == k then [(k, v)] + m[1..]
    else
      var rest := Put(m[1..], k, v);
      assert HasKey(m, k) ==> HasKey(m[1..], k);
      assert !HasKey(m, k) ==> !HasKey(m[1..], k);
      assert HasKey(m, k) ==> Keys(m) == [m[0].0] + Keys(m[1..]) && Keys([m[0]] + rest) == [m[0].0] + Keys(rest);
      [m[0]] + rest
  }

  /** `Put` keeps a duplicate-free dictionary duplicate-free. */
  lemma PutUnique<K(!new), V>(m: seq<(K, V)>, k: K, v: V)
    requires Unique(m)
    ensures Unique(Put(m, k, v))
  {
    if HasKey(m, k) {
      var r := Put(m, k, v);
      assert Keys(r) == Keys(m);
      forall i, j | 0 <= i < j < |r| ensures r[i].0 != r[j].0 {
        assert Keys(r)[i] == r[i].0 && Keys(r)[j] == r[j].0;
        assert Keys(m)[i] == m[i].0 && Keys(m)[j] == m[j].0;
      }
    }
  }

  /** Inserting the first pair of a duplicate-free continuation appends it. */
  lemma PutFresh<K(!new), V>(acc: seq<(K, V)>, m: seq<(K, V)>)
    requires |m| > 0 && Unique(acc + m)
    ensures !HasKey(acc, m[0].0)
    ensures Put(acc, m[0].0, m[0].1) == acc + [m[0]]
    ensures Unique((acc + [m[0]]) + m[1..])
  {
    forall i | 0 <= i < |acc| ensures acc[i].0 != m[0].0 {
      assert (acc + m)[i] == acc[i] && (acc + m)[|acc|] == m[0];
    }
    assert (acc + [m[0]]) + m[1..] == acc + m;
  }

  /** A dictionary built by inserting the pairs of a duplicate-free list, in
      order, is that list. */
  lemma {:induction false} PutAllUnique<K(!new), V>(acc: seq<(K, V)>, m: seq<(K, V)>)
    requires Unique(acc + m)
    ensures PutAll(acc, m) == acc + m
    decreases |m|
  {
    if |m| > 0 {
      forall i | 0 <= i < |acc| ensures acc[i].0 != m[0].0 {
        assert (acc + m)[i] == acc[i] && (acc + m)[|acc|] == m[0];
      }
      assert acc + m == (acc + [m[0]]) + m[1..];
      PutAllUnique(acc + [m[0]], m[1..]);
    }
  }

  /** A second assignment to a key overrides the first, in place. */
  lemma {:induction false} PutPut<K(!new), V>(m: seq<(K, V)>, k: K, v1: V, v2: V)
    ensures Put(Put(m, k, v1), k, v2) == Put(m, k, v2)
    decreases |m|
  {
    if |m| > 0 && m[0].0 != k {
      var rest := Put(m[1..], k, v1);
      assert ([m[0]] + rest)[0] == m[0] && ([m[0]] + rest)[1..] == rest;
      PutPut(m[1..], k, v1, v2);
    }
  }

  /** Assigning to a key the value it already has changes nothing. */
  lemma {:induction false} PutExisting<K(!new), V>(m: seq<(K, V)>, k: K, v: V)
    requires Get(m, k) == Some(v)
    ensures Put(m, k, v) == m
    decreases |m|
  {
    if m[0].0 != k {
      PutExisting(m[1..], k, v);
      assert [m[0]] + m[1..] == m;
    } else {
      assert [(k, v)] + m[1..] == m;
    }
  }

  /** In a duplicate-free dictionary the key at position `j` looks up the
      value at position `j`. */
  lemma {:induction false} GetAt<K(!new), V>(m: seq<(K, V)>, j: nat)
    requires Unique(m) && j < |m|
    ensures Get(m, m[j].0) == Some(m[j].1)
    decreases j
  {
    if j > 0 {
      assert m[0].0 != m[j].0 && m[1..][j - 1] == m[j];
      UniqueTail(m);
      GetAt(m[1..], j - 1);
    }
  }

  lemma UniqueTail<K(!new), V>(m: seq<(K, V)>)
    requires Unique(m) && |m| > 0
    ensures Unique(m[1..])
  {
    forall a, b | 0 <= a < b < |m[1..]| ensures m[1..][a].0 != m[1..][b].0 {
      assert m[1..][a] == m[a + 1] && m[1..][b] == m[b + 1];
    }
  }

  /** In a duplicate-free dictionary, assigning to the key at position `j`
      replaces that one pair. */
  lemma {:induction false} PutAt<K(!new), V>(m: seq<(K, V)>, j: nat, v: V)
    requires Unique(m) && j < |m|
    ensures Put(m, m[j].0, v) == m[..j] + [(m[j].0, v)] + m[j + 1..]
    decreases j
  {
    var k := m[j].0;
    if j > 0 {
      assert m[0].0 != k && m[1..][j - 1] == m[j];
      UniqueTail(m);
      PutAt(m[1..], j - 1, v);
      var rest := Put(m[1..], k, v);
      assert Put(m, k, v) == [m[0]] + rest;
      ConsSplit(m, j, (k, v));
    } else {
      assert m[..0] + [(k, v)] + m[1..] == [(k, v)] + m[1..];
    }
  }

  /** The sequence algebra of the step above. */
  lemma ConsSplit<T>(m: seq<T>, j: nat, x: T)
    requires 0 < j < |m|
    ensures [m[0]] + (m[1..][..j - 1] + [x] + m[1..][j..]) == m[..j] + [x] + m[j + 1..]
  {
    assert m[1..][..j - 1] == m[1..j] && m[1..][j..] == m[j + 1..];
    assert [m[0]] + m[1..j] == m[..j];
  }

  /** `for k, v in pairs: d[k] = v`. */
  function PutAll<K(==,!new), V>(acc: seq<(K, V)>, m: seq<(K, V)>): seq<(K, V)>
    decreases |m|
  {
    if |m| == 0 then acc else PutAll(Put(acc, m[0].0, m[0].1), m[1..])
  }
}
