/** Python's insertion-ordered `dict`, as a sequence of key/value pairs.
    A dict built by Python never holds a key twice (`DistinctKeys`); the
    operations below are total anyway. */
module PyDict {
  import opened Wrappers

  type Dict<K, V> = seq<(K, V)>

  ghost predicate DistinctKeys<K, V>(d: Dict<K, V>)
  {
    forall i, j :: 0 <= i < j < |d| ==> d[i].0 != d[j].0
  }

  predicate HasKey<K(==), V>(d: Dict<K, V>, k: K)
  {
    exists i :: 0 <= i < |d| && d[i].0 == k
  }

  /** `d.get(k)`: the value stored under `k`, or None. */
  function Get<K(==), V>(d: Dict<K, V>, k: K): (r: Option<V>)
    ensures r.Some? <==> HasKey(d, k)
    ensures r.Some? ==> exists i :: 0 <= i < |d| && d[i] == (k, r.value)
  {
    if d == [] then None
    else if d[0].0 == k then Some(d[0].1)
    else
      var r := Get(d[1..], k);
      assert r.Some? ==> d[1..][IndexOf(d[1..], k)] == d[IndexOf(d[1..], k) + 1];
      r
  }

  /** The position of the first entry whose key is `k`. */
  function IndexOf<K(==), V>(d: Dict<K, V>, k: K): (i: nat)
    requires HasKey(d, k)
    ensures i < |d| && d[i].0 == k
    ensures forall j :: 0 <= j < i ==> d[j].0 != k
  {
    if d[0].0 == k then 0
    else
      assert exists j :: 0 <= j < |d[1..]| && d[1..][j].0 == k by {
        var j :| 0 <= j < |d| && d[j].0 == k;
        assert d[1..][j - 1].0 == k;
      }
      1 + IndexOf(d[1..], k)
  }

  lemma GetAtIndex<K, V>(d: Dict<K, V>, i: nat)
    requires i < |d| && DistinctKeys(d)
    ensures Get(d, d[i].0) == Some(d[i].1)
  {
    var k := d[i].0;
    var j := IndexOf(d, k);
    GetIsFirst(d, k);
  }

  lemma {:induction false} GetIsFirst<K, V>(d: Dict<K, V>, k: K)
    requires HasKey(d, k)
    ensures Get(d, k) == Some(d[IndexOf(d, k)].1)
  {
    if d[0].0 != k {
      assert HasKey(d[1..], k) by {
        var j := IndexOf(d, k);
        assert d[1..][j - 1].0 == k;
      }
      GetIsFirst(d[1..], k);
    }
  }

  /** `d[k] = v`: overwrite the value of an existing key where it stands,
      or append a new entry at the end. */
  function Set<K(==), V>(d: Dict<K, V>, k: K, v: V): (r: Dict<K, V>)
    ensures HasKey(d, k) ==> r == d[IndexOf(d, k) := (k, v)]
    ensures !HasKey(d, k) ==> r == d + [(k, v)]
  {
    if d == [] then [(k, v)]
    else if d[0].0 == k then [(k, v)] + d[1..]
    else
      assert HasKey(d, k) ==> HasKey(d[1..], k) by {
        if HasKey(d, k) {
          var j := IndexOf(d, k);
          assert d[1..][j - 1].0 == k;
        }
      }
      assert !HasKey(d, k) ==> !HasKey(d[1..], k) by {
        if HasKey(d[1..], k) {
          var j := IndexOf(d[1..], k);
          assert d[j + 1].0 == k;
        }
      }
      [d[0]] + Set(d[1..], k, v)
  }

  /** `{**d, **e}`: the entries of `e`, in order, written over `d`. */
  function Update<K(==), V>(d: Dict<K, V>, e: Dict<K, V>): (r: Dict<K, V>)
    decreases |e|
  {
    if e == [] then d else Update(Set(d, e[0].0, e[0].1), e[1..])
  }

  /** What `{**d, **e}` holds under each key: `e`'s value when `e` has the
      key, `d`'s otherwise. */
  lemma {:induction false} GetUpdate<K, V>(d: Dict<K, V>, e: Dict<K, V>, k: K)
    requires DistinctKeys(e)
    ensures Get(Update(d, e), k) == if HasKey(e, k) then Get(e, k) else Get(d, k)
    decreases |e|
  {
    if e != [] {
      var d' := Set(d, e[0].0, e[0].1);
      GetUpdate(d', e[1..], k);
      GetSet(d, e[0].0, e[0].1, k);
      if k == e[0].0 {
        forall j | 0 <= j < |e[1..]|
          ensures e[1..][j].0 != k
        {
          assert e[1..][j] == e[j + 1];
        }
      } else {
        assert HasKey(e, k) <==> HasKey(e[1..], k) by {
          if HasKey(e, k) {
            var j := IndexOf(e, k);
            assert e[1..][j - 1].0 == k;
          }
          if HasKey(e[1..], k) {
            var j := IndexOf(e[1..], k);
            assert e[j + 1].0 == k;
          }
        }
      }
    }
  }

  lemma {:induction false} GetSet<K, V>(d: Dict<K, V>, k: K, v: V, k': K)
    ensures Get(Set(d, k, v), k') == if k' == k then Some(v) else Get(d, k')
  {
    if d != [] && d[0].0 != k {
      var r := Set(d, k, v);
      assert r[0] == d[0] && r[1..] == Set(d[1..], k, v);
      GetSet(d[1..], k, v, k');
    }
  }

  /** `{**d, **e}` keeps every key of `d` at its position: caller entries
      override values but never reorder the defaults. */
  lemma {:induction false} UpdateKeepsPositions<K, V>(d: Dict<K, V>, e: Dict<K, V>)
    ensures |Update(d, e)| >= |d|
    ensures forall i :: 0 <= i < |d| ==> Update(d, e)[i].0 == d[i].0
    decreases |e|
  {
    if e != [] {
      UpdateKeepsPositions(Set(d, e[0].0, e[0].1), e[1..]);
    }
  }

  /** `{key(x): x for x in items}`: a dict comprehension keyed by each
      item's id; a later item with the same key replaces an earlier one. */
  function IndexBy<T, K(==)>(items: seq<T>, key: T -> K): map<K, T>
  {
    if items == [] then map[]
    else IndexBy(items[..|items| - 1], key)[key(items[|items| - 1]) := items[|items| - 1]]
  }

  lemma {:induction false} IndexByKeys<T, K>(items: seq<T>, key: T -> K, k: K)
    ensures k in IndexBy(items, key) <==> exists i :: 0 <= i < |items| && key(items[i]) == k
  {
    if items != [] {
      var n := |items| - 1;
      IndexByKeys(items[..n], key, k);
      if exists i :: 0 <= i < |items| && key(items[i]) == k {
        var i :| 0 <= i < |items| && key(items[i]) == k;
        if i < n {
          assert items[..n][i] == items[i];
        }
      }
    }
  }

  /** The entry under an item's key is that item when no later item has the
      same key: the last occurrence wins. */
  lemma {:induction false} IndexByLastWins<T, K>(items: seq<T>, key: T -> K, i: nat)
    requires i < |items|
    requires forall j :: i < j < |items| ==> key(items[j]) != key(items[i])
    ensures key(items[i]) in IndexBy(items, key)
    ensures IndexBy(items, key)[key(items[i])] == items[i]
  {
    var n := |items| - 1;
    if i < n {
      forall j | i < j < n
        ensures key(items[..n][j]) != key(items[..n][i])
      {
        assert items[..n][j] == items[j];
      }
      IndexByLastWins(items[..n], key, i);
    }
  }
}
