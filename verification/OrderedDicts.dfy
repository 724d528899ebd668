/**
  A Python dictionary as the sequence of its items in insertion order: assigning an
  existing key keeps its place, a new key goes to the back.
 */
module OrderedDicts {
  import opened Wrappers

  datatype Item<K, V> = Item(key: K, value: V)

  type Dict<K, V> = seq<Item<K, V>>

  ghost predicate Unique<K(!new), V(!new)>(d: Dict<K, V>) {
    forall i, j :: 0 <= i < j < |d| ==> d[i].key != d[j].key
  }

  predicate Has<K(==), V>(d: Dict<K, V>, k: K) {
    exists i :: 0 <= i < |d| && d[i].key == k
  }

  function Get<K(==), V>(d: Dict<K, V>, k: K): (v: Option<V>)
    ensures v.Some? <==> Has(d, k)
    ensures v.Some? ==> exists i :: 0 <= i < |d| && d[i] == Item(k, v.value)
  {
    if d == [] then None
    else if d[0].key == k then Some(d[0].value)
    else
      assert forall i :: 0 <= i < |d[1..]| ==> d[1..][i] == d[i + 1];
      Get(d[1..], k)
  }

  function Put<K(==), V>(d: Dict<K, V>, k: K, v: V): Dict<K, V> {
    if d == [] then [Item(k, v)]
    else if d[0].key == k then [Item(k, v)] + d[1..]
    else [d[0]] + Put(d[1..], k, v)
  }

  function Drop<K(==), V>(d: Dict<K, V>, k: K): Dict<K, V> {
    if d == [] then []
    else if d[0].key == k then d[1..]
    else [d[0]] + Drop(d[1..], k)
  }

  lemma {:induction false} HasTail<K, V>(d: Dict<K, V>, k: K)
    requires d != []
    ensures Has(d, k) <==> d[0].key == k || Has(d[1..], k)
  {
  }

  lemma HeadAbsent<K(!new), V(!new)>(d: Dict<K, V>)
    requires Unique(d) && d != []
    ensures Unique(d[1..]) && !Has(d[1..], d[0].key)
  {
    assert forall i :: 0 <= i < |d[1..]| ==> d[1..][i] == d[i + 1];
  }

  lemma UniqueAbove<K(!new), V(!new)>(x: Item<K, V>, d: Dict<K, V>)
    requires Unique(d) && !Has(d, x.key)
    ensures Unique([x] + d)
  {
    var s := [x] + d;
    assert forall i :: 0 < i < |s| ==> s[i] == d[i - 1];
  }

  /** With unique keys, `Get` finds the item wherever it stands. */
  lemma {:induction false} GetAt<K(!new), V(!new)>(d: Dict<K, V>, i: nat)
    requires Unique(d) && i < |d|
    ensures Get(d, d[i].key) == Some(d[i].value)
  {
    if i > 0 {
      HeadAbsent(d);
      assert d[0].key != d[i].key && d[1..][i - 1] == d[i];
      GetAt(d[1..], i - 1);
    }
  }

  lemma {:induction false} PutGet<K, V>(d: Dict<K, V>, k: K, v: V, q: K)
    ensures Get(Put(d, k, v), q) == if q == k then Some(v) else Get(d, q)
  {
    if d != [] {
      var p := Put(d, k, v);
      if d[0].key == k {
        assert p[0] == Item(k, v) && p[1..] == d[1..];
      } else {
        assert p[0] == d[0] && p[1..] == Put(d[1..], k, v);
        PutGet(d[1..], k, v, q);
      }
    }
  }

  lemma {:induction false} PutPlaces<K, V>(d: Dict<K, V>, k: K, v: V)
    ensures |Put(d, k, v)| == if Has(d, k) then |d| else |d| + 1
    ensures !Has(d, k) ==> Put(d, k, v) == d + [Item(k, v)]
  {
    if d != [] {
      HasTail(d, k);
      if d[0].key != k {
        PutPlaces(d[1..], k, v);
        assert [d[0]] + (d[1..] + [Item(k, v)]) == d + [Item(k, v)];
      }
    }
  }

  lemma {:induction false} PutUnique<K(!new), V(!new)>(d: Dict<K, V>, k: K, v: V)
    requires Unique(d)
    ensures Unique(Put(d, k, v))
  {
    if d != [] {
      HeadAbsent(d);
      if d[0].key == k {
        UniqueAbove(Item(k, v), d[1..]);
      } else {
        PutUnique(d[1..], k, v);
        PutGet(d[1..], k, v, d[0].key);
        UniqueAbove(d[0], Put(d[1..], k, v));
      }
    }
  }

  /** `Put` writes one key, keeps every other item in place and appends only a new key. */
  lemma PutSpec<K(!new), V(!new)>(d: Dict<K, V>, k: K, v: V)
    ensures forall q :: Get(Put(d, k, v), q) == if q == k then Some(v) else Get(d, q)
    ensures |Put(d, k, v)| == if Has(d, k) then |d| else |d| + 1
    ensures !Has(d, k) ==> Put(d, k, v) == d + [Item(k, v)]
    ensures Unique(d) ==> Unique(Put(d, k, v))
  {
    forall q ensures Get(Put(d, k, v), q) == if q == k then Some(v) else Get(d, q) {
      PutGet(d, k, v, q);
    }
    PutPlaces(d, k, v);
    if Unique(d) {
      PutUnique(d, k, v);
    }
  }

  lemma {:induction false} DropGet<K(!new), V(!new)>(d: Dict<K, V>, k: K, q: K)
    requires Unique(d)
    ensures Get(Drop(d, k), q) == if q == k then None else Get(d, q)
  {
    if d != [] {
      HeadAbsent(d);
      if d[0].key != k {
        var p := Drop(d, k);
        assert p[0] == d[0] && p[1..] == Drop(d[1..], k);
        DropGet(d[1..], k, q);
      }
    }
  }

  lemma {:induction false} DropSize<K, V>(d: Dict<K, V>, k: K)
    ensures |Drop(d, k)| == if Has(d, k) then |d| - 1 else |d|
    ensures !Has(d, k) ==> Drop(d, k) == d
  {
    if d != [] {
      HasTail(d, k);
      if d[0].key != k {
        DropSize(d[1..], k);
      }
    }
  }

  lemma {:induction false} DropUnique<K(!new), V(!new)>(d: Dict<K, V>, k: K)
    requires Unique(d)
    ensures Unique(Drop(d, k))
  {
    if d != [] {
      HeadAbsent(d);
      if d[0].key != k {
        DropUnique(d[1..], k);
        DropGet(d[1..], k, d[0].key);
        UniqueAbove(d[0], Drop(d[1..], k));
      }
    }
  }

  /** `Drop` removes one key and keeps the order of the others. */
  lemma DropSpec<K(!new), V(!new)>(d: Dict<K, V>, k: K)
    requires Unique(d)
    ensures forall q :: Get(Drop(d, k), q) == if q == k then None else Get(d, q)
    ensures Unique(Drop(d, k))
    ensures |Drop(d, k)| == if Has(d, k) then |d| - 1 else |d|
    ensures !Has(d, k) ==> Drop(d, k) == d
  {
    forall q ensures Get(Drop(d, k), q) == if q == k then None else Get(d, q) {
      DropGet(d, k, q);
    }
    DropSize(d, k);
    DropUnique(d, k);
  }

  /** Forgetting the oldest items leaves the others as they were. */
  lemma SuffixSpec<K(!new), V(!new)>(d: Dict<K, V>, n: nat)
    requires Unique(d) && n <= |d|
    ensures Unique(d[n..])
    ensures forall k :: Get(d[n..], k).Some? ==> Get(d[n..], k) == Get(d, k)
  {
    forall k | Get(d[n..], k).Some? ensures Get(d[n..], k) == Get(d, k) {
      var i :| 0 <= i < |d[n..]| && d[n..][i] == Item(k, Get(d[n..], k).value);
      assert d[n..][i] == d[n + i];
      GetAt(d, n + i);
    }
  }

  /** The last item is found under its own key only; any other key is found before it. */
  lemma {:induction false} LastSpec<K(!new), V(!new)>(d: Dict<K, V>, k: K)
    requires d != [] && Unique(d)
    ensures var n := |d| - 1;
      && Unique(d[..n])
      && Get(d, k) == if k == d[n].key then Some(d[n].value) else Get(d[..n], k)
    decreases |d|
  {
    var n := |d| - 1;
    if n > 0 {
      HeadAbsent(d);
      assert d[1..][n - 1] == d[n];
      LastSpec(d[1..], k);
      assert d[..n][1..] == d[1..][..n - 1];
    }
  }
}
