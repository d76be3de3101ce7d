/** Small data types shared by every layer. */
module Prelude {

  datatype Option<+T> = None | Some(value: T) {
    predicate IsFailure() {
      None?
    }

    function PropagateFailure<U>(): Option<U>
      requires None?
    {
      None
    }

    function Extract(): T
      requires Some?
    {
      value
    }
  }

  /** One key of a dictionary with its value. */
  datatype Item<+K, +V> = Item(key: K, val: V)

  /** A Python dict: distinct keys, in order of first insertion. */
  type Dict<K, V> = seq<Item<K, V>>

  ghost predicate Distinct<K, V>(d: Dict<K, V>) {
    forall i, j | 0 <= i < j < |d| :: d[i].key != d[j].key
  }

  /** `d.get(k)` */
  function Get<K(==), V>(d: Dict<K, V>, k: K): Option<V> {
    if d == [] then None
    else if d[0].key == k then Some(d[0].val)
    else Get(d[1..], k)
  }

  /** `d[k] = v`: an existing key keeps its place, a new one goes last. */
  function Put<K(==), V>(d: Dict<K, V>, k: K, v: V): Dict<K, V> {
    if d == [] then [Item(k, v)]
    else if d[0].key == k then [Item(k, v)] + d[1..]
    else [d[0]] + Put(d[1..], k, v)
  }

  /** `d.update(e)` */
  function Update<K(==), V>(d: Dict<K, V>, e: Dict<K, V>): Dict<K, V>
    decreases |e|
  {
    if e == [] then d else Update(Put(d, e[0].key, e[0].val), e[1..])
  }

  lemma {:induction false} GetAbsent<K, V>(d: Dict<K, V>, k: K)
    ensures Get(d, k).None? <==> forall i | 0 <= i < |d| :: d[i].key != k
  {
    if d != [] {
      GetAbsent(d[1..], k);
      assert forall i | 1 <= i < |d| :: d[i] == d[1..][i - 1];
      if Get(d, k).None? {
        forall i | 0 <= i < |d| ensures d[i].key != k {
          if i > 0 { assert d[i] == d[1..][i - 1]; }
        }
      } else if d[0].key != k {
        var i :| 0 <= i < |d[1..]| && d[1..][i].key == k;
        assert d[i + 1].key == k;
      }
    }
  }

  /** Every key of a dict reads as its value. */
  lemma {:induction false} GetMember<K, V>(d: Dict<K, V>, i: nat)
    requires Distinct(d) && i < |d|
    ensures Get(d, d[i].key) == Some(d[i].val)
  {
    if i > 0 {
      GetMember(d[1..], i - 1);
    }
  }

  /** Writing a key changes that key's value and no other, and keeps keys distinct. */
  lemma {:induction false} PutGet<K, V>(d: Dict<K, V>, k: K, v: V, q: K)
    ensures Get(Put(d, k, v), q) == if q == k then Some(v) else Get(d, q)
  {
    if d != [] && d[0].key != k {
      PutGet(d[1..], k, v, q);
    }
  }

  lemma {:induction false} PutDistinct<K, V>(d: Dict<K, V>, k: K, v: V)
    requires Distinct(d)
    ensures Distinct(Put(d, k, v))
    ensures |Put(d, k, v)| <= |d| + 1
    ensures forall i | 0 <= i < |Put(d, k, v)| :: Put(d, k, v)[i].key == k || (i < |d| && Put(d, k, v)[i] == d[i])
  {
    if d != [] && d[0].key != k {
      PutDistinct(d[1..], k, v);
      var p := Put(d[1..], k, v);
      assert Put(d, k, v) == [d[0]] + p;
      forall i, j | 0 <= i < j < |Put(d, k, v)| ensures Put(d, k, v)[i].key != Put(d, k, v)[j].key {
        if i == 0 {
          assert Put(d, k, v)[j] == p[j - 1];
          assert p[j - 1].key == k || p[j - 1] == d[1..][j - 1];
        }
      }
    }
  }

  /** A key that is there keeps its place. */
  lemma {:induction false} PutInPlace<K, V>(d: Dict<K, V>, k: K, v: V)
    requires Get(d, k).Some?
    ensures |Put(d, k, v)| == |d| && forall i | 0 <= i < |d| :: Put(d, k, v)[i].key == d[i].key
  {
    if d[0].key != k {
      PutInPlace(d[1..], k, v);
    }
  }

  /** A fresh key goes to the end. */
  lemma {:induction false} PutFresh<K, V>(d: Dict<K, V>, k: K, v: V)
    requires Get(d, k).None?
    ensures Put(d, k, v) == d + [Item(k, v)]
  {
    if d != [] {
      PutFresh(d[1..], k, v);
    }
  }

  /** Adding the items of a duplicate-free dict one by one just concatenates them. */
  lemma {:induction false} UpdateFresh<K, V>(d: Dict<K, V>, e: Dict<K, V>)
    requires Distinct(d + e)
    ensures Update(d, e) == d + e
    decreases |e|
  {
    if e == [] {
      assert d + e == d;
    } else {
      var k := e[0].key;
      GetAbsent(d, k);
      assert (d + e)[|d|] == e[0];
      assert forall i | 0 <= i < |d| :: (d + e)[i] == d[i];
      PutFresh(d, k, e[0].val);
      assert [Item(k, e[0].val)] == [e[0]];
      assert (d + [e[0]]) + e[1..] == d + e;
      UpdateFresh(d + [e[0]], e[1..]);
    }
  }

  /** After `d.update(e)` a key reads as `e` says if `e` has it, and as `d` said otherwise. */
  lemma {:induction false} UpdateGet<K, V>(d: Dict<K, V>, e: Dict<K, V>, q: K)
    requires Distinct(e)
    ensures Get(Update(d, e), q) == if Get(e, q).Some? then Get(e, q) else Get(d, q)
    decreases |e|
  {
    if e != [] {
      assert Distinct(e[1..]);
      UpdateGet(Put(d, e[0].key, e[0].val), e[1..], q);
      PutGet(d, e[0].key, e[0].val, q);
      GetAbsent(e[1..], e[0].key);
    }
  }

  /** Whatever is repeated in `e`, the last value given for a key counts. */
  lemma {:induction false} UpdateLast<K, V>(d: Dict<K, V>, e: seq<Item<K, V>>, i: nat)
    requires i < |e| && forall j | i < j < |e| :: e[j].key != e[i].key
    ensures Get(Update(d, e), e[i].key) == Some(e[i].val)
    decreases |e|
  {
    var d' := Put(d, e[0].key, e[0].val);
    if i == 0 {
      PutGet(d, e[0].key, e[0].val, e[0].key);
      UpdateOthers(d', e[1..], e[0].key);
    } else {
      UpdateLast(d', e[1..], i - 1);
    }
  }

  /** Keys that `e` does not have read as before. */
  lemma {:induction false} UpdateOthers<K, V>(d: Dict<K, V>, e: seq<Item<K, V>>, q: K)
    requires forall i | 0 <= i < |e| :: e[i].key != q
    ensures Get(Update(d, e), q) == Get(d, q)
    decreases |e|
  {
    if e != [] {
      PutGet(d, e[0].key, e[0].val, q);
      UpdateOthers(Put(d, e[0].key, e[0].val), e[1..], q);
    }
  }

  lemma {:induction false} UpdateDistinct<K, V>(d: Dict<K, V>, e: Dict<K, V>)
    requires Distinct(d)
    ensures Distinct(Update(d, e))
    decreases |e|
  {
    if e != [] {
      PutDistinct(d, e[0].key, e[0].val);
      UpdateDistinct(Put(d, e[0].key, e[0].val), e[1..]);
    }
  }

  /** What holds of every item of both dicts holds of every item after `d.update(e)`. */
  lemma {:induction false} UpdateKeeps<K, V>(d: Dict<K, V>, e: Dict<K, V>, ok: Item<K, V> -> bool)
    requires forall i | 0 <= i < |d| :: ok(d[i])
    requires forall i | 0 <= i < |e| :: ok(e[i])
    ensures forall i | 0 <= i < |Update(d, e)| :: ok(Update(d, e)[i])
    decreases |e|
  {
    if e != [] {
      PutKeeps(d, e[0].key, e[0].val, ok);
      UpdateKeeps(Put(d, e[0].key, e[0].val), e[1..], ok);
    }
  }

  lemma {:induction false} PutKeeps<K, V>(d: Dict<K, V>, k: K, v: V, ok: Item<K, V> -> bool)
    requires ok(Item(k, v)) && forall i | 0 <= i < |d| :: ok(d[i])
    ensures forall i | 0 <= i < |Put(d, k, v)| :: ok(Put(d, k, v)[i])
  {
    if d != [] && d[0].key != k {
      PutKeeps(d[1..], k, v, ok);
    }
  }

  lemma Regroup<T>(a: seq<T>, b: seq<T>, c: seq<T>, d: seq<T>, e: seq<T>, more: seq<T>)
    requires a == b + c && c + more == d + e
    ensures a + more == (b + d) + e
  {
    assert a + more == b + (c + more);
    assert b + (d + e) == (b + d) + e;
  }
}
