/** Outcome types shared by every module: an optional value (JavaScript's
    `undefined` result) and a result that is either a value or a thrown error. */
module Common {

  datatype Option<T> = None | Some(value: T)

  /** `Err` stands for an exception the source throws; `error` is its message. */
  datatype Result<T> = Ok(value: T) | Err(error: string)

  /** `req.sig` as the request-signature middleware leaves it: `{valid,
      identity}` for a request naming an identity in its headers,
      `{valid: false}` otherwise. */
  datatype Sig = Sig(valid: bool, identity: Option<string>)
}

/** A JavaScript object as its source code sees it: string keys kept in the
    order they were first inserted (`Object.keys`, `Object.entries`,
    `Object.values`). Assigning to a present key keeps its position;
    `delete` removes it. */
module Assoc {
  import opened Common

  type Dict<V> = seq<(string, V)>

  function Keys<V>(d: Dict<V>): (ks: seq<string>)
    ensures |ks| == |d|
    ensures forall i :: 0 <= i < |d| ==> ks[i] == d[i].0
  {
    if d == [] then [] else [d[0].0] + Keys(d[1..])
  }

  predicate HasKey<V>(d: Dict<V>, k: string) {
    exists i :: 0 <= i < |d| && d[i].0 == k
  }

  predicate DistinctKeys<V>(d: Dict<V>) {
    forall i, j :: 0 <= i < j < |d| ==> d[i].0 != d[j].0
  }

  function KeySet<V>(d: Dict<V>): (s: set<string>)
    ensures forall k :: k in s <==> HasKey(d, k)
  {
    set i | 0 <= i < |d| :: d[i].0
  }

  /** Property read: `obj[k]`, `None` for a missing key (JavaScript's undefined). */
  function Lookup<V>(d: Dict<V>, k: string): (r: Option<V>)
    ensures r.None? <==> !HasKey(d, k)
  {
    if d == [] then None
    else if d[0].0 == k then Some(d[0].1)
    else Lookup(d[1..], k)
  }

  /** `Object.values(obj)`. */
  function Values<V>(d: Dict<V>): (vs: seq<V>)
    ensures |vs| == |d|
    ensures forall i :: 0 <= i < |d| ==> vs[i] == d[i].1
  {
    if d == [] then [] else [d[0].1] + Values(d[1..])
  }

  /** Property write: `obj[k] = v`. */
  function Put<V>(d: Dict<V>, k: string, v: V): Dict<V> {
    if d == [] then [(k, v)]
    else if d[0].0 == k then [(k, v)] + d[1..]
    else [d[0]] + Put(d[1..], k, v)
  }

  /** `delete obj[k]`. */
  function Remove<V>(d: Dict<V>, k: string): (r: Dict<V>)
    ensures |r| <= |d|
    ensures forall i :: 0 <= i < |r| ==> r[i].0 != k
  {
    if d == [] then []
    else if d[0].0 == k then Remove(d[1..], k)
    else [d[0]] + Remove(d[1..], k)
  }

  /** A key that reads back a value is stored with it. */
  lemma {:induction false} LookupFound<V>(d: Dict<V>, k: string)
    requires Lookup(d, k).Some?
    ensures exists i :: 0 <= i < |d| && d[i] == (k, Lookup(d, k).value)
  {
    if d[0].0 != k {
      LookupFound(d[1..], k);
      var i :| 0 <= i < |d| - 1 && d[1..][i] == (k, Lookup(d, k).value);
      assert d[i + 1] == d[1..][i];
    }
  }

  /** A write to a present key keeps the key order; a write to a new key
      appends it. */
  lemma {:induction false} PutKeys<V>(d: Dict<V>, k: string, v: V)
    ensures Keys(Put(d, k, v)) == if HasKey(d, k) then Keys(d) else Keys(d) + [k]
  {
    if d != [] && d[0].0 != k {
      PutKeys(d[1..], k, v);
      assert HasKey(d, k) <==> HasKey(d[1..], k) by {
        if HasKey(d, k) {
          var i :| 0 <= i < |d| && d[i].0 == k;
          assert d[1..][i - 1] == d[i];
        }
        if HasKey(d[1..], k) {
          var i :| 0 <= i < |d| - 1 && d[1..][i].0 == k;
          assert d[i + 1] == d[1..][i];
        }
      }
    }
  }

  /** Some key of `d` looks up to `v`. */
  ghost predicate Stored<V>(d: Dict<V>, v: V) {
    exists k :: Lookup(d, k) == Some(v)
  }

  /** With distinct keys, `Object.values(obj)` lists exactly what reading
      some key returns. */
  lemma {:induction false} ValuesAreLookups<V>(d: Dict<V>)
    requires DistinctKeys(d)
    ensures forall v :: v in Values(d) <==> Stored(d, v)
  {
    forall v | v in Values(d) ensures Stored(d, v) {
      var i :| 0 <= i < |d| && Values(d)[i] == v;
      LookupAt(d, i);
      assert Lookup(d, d[i].0) == Some(v);
    }
    forall v | Stored(d, v) ensures v in Values(d) {
      var k :| Lookup(d, k) == Some(v);
      LookupFound(d, k);
      var i :| 0 <= i < |d| && d[i] == (k, v);
      assert Values(d)[i] == v;
    }
  }

  /** A write adds no entry but the written one. */
  lemma {:induction false} PutElements<V>(d: Dict<V>, k: string, v: V)
    ensures forall i :: 0 <= i < |Put(d, k, v)| ==> Put(d, k, v)[i] == (k, v) || Put(d, k, v)[i] in d
  {
    if d != [] && d[0].0 != k {
      PutElements(d[1..], k, v);
      assert forall e :: e in d[1..] ==> e in d;
    }
  }

  /** A deletion adds no entry. */
  lemma {:induction false} RemoveElements<V>(d: Dict<V>, k: string)
    ensures forall i :: 0 <= i < |Remove(d, k)| ==> Remove(d, k)[i] in d
  {
    if d != [] {
      RemoveElements(d[1..], k);
      assert forall e :: e in d[1..] ==> e in d;
    }
  }

  /** `items.slice(0, n).forEach(x => obj[key(x)] = x)`: each item is
      written under its own key, in order. */
  function PutAll<V>(d: Dict<V>, items: seq<V>, key: V -> string, n: nat): Dict<V>
    requires n <= |items|
  {
    if n == 0 then d else Put(PutAll(d, items, key, n - 1), key(items[n - 1]), items[n - 1])
  }

  /** The last of `items[..n]` whose key is `q`, if any. */
  function LastKeyed<V>(items: seq<V>, key: V -> string, q: string, n: nat): (r: Option<V>)
    requires n <= |items|
    ensures r.None? <==> forall j :: 0 <= j < n ==> key(items[j]) != q
    ensures r.Some? ==> key(r.value) == q && r.value in items[..n]
  {
    if n == 0 then None
    else if key(items[n - 1]) == q then Some(items[n - 1])
    else LastKeyed(items, key, q, n - 1)
  }

  /** After the writes, a key holds the last item written under it, and a
      key no item was written under holds what it held before. */
  lemma {:induction false} LookupPutAll<V>(d: Dict<V>, items: seq<V>, key: V -> string, n: nat, q: string)
    requires n <= |items|
    ensures Lookup(PutAll(d, items, key, n), q)
      == if LastKeyed(items, key, q, n).Some? then LastKeyed(items, key, q, n) else Lookup(d, q)
  {
    if n > 0 {
      var x := items[n - 1];
      var prev := PutAll(d, items, key, n - 1);
      assert PutAll(d, items, key, n) == Put(prev, key(x), x);
      LookupPut(prev, key(x), x, q);
      LookupPutAll(d, items, key, n - 1, q);
      if key(x) == q {
        assert LastKeyed(items, key, q, n) == Some(x);
      } else {
        assert LastKeyed(items, key, q, n) == LastKeyed(items, key, q, n - 1);
      }
    }
  }

  lemma {:induction false} LookupPut<V>(d: Dict<V>, k: string, v: V, q: string)
    ensures Lookup(Put(d, k, v), q) == if q == k then Some(v) else Lookup(d, q)
  {
    if d != [] && d[0].0 != k {
      LookupPut(d[1..], k, v, q);
    }
  }

  lemma {:induction false} LookupRemove<V>(d: Dict<V>, k: string, q: string)
    ensures Lookup(Remove(d, k), q) == if q == k then None else Lookup(d, q)
  {
    if d != [] {
      LookupRemove(d[1..], k, q);
    }
  }

  lemma {:induction false} PutDistinct<V>(d: Dict<V>, k: string, v: V)
    requires DistinctKeys(d)
    ensures DistinctKeys(Put(d, k, v))
    ensures |Put(d, k, v)| == if HasKey(d, k) then |d| else |d| + 1
  {
    var r := Put(d, k, v);
    PutKeys(d, k, v);
    var ks := Keys(r);
    assert |r| == |ks|;
    assert ks == Keys(d) || ks == Keys(d) + [k];
    forall i, j | 0 <= i < j < |r| ensures r[i].0 != r[j].0 {
      assert r[i].0 == ks[i] && r[j].0 == ks[j];
      if j == |d| {
        assert ks[j] == k && !HasKey(d, k);
        assert ks[i] == d[i].0;
      } else {
        assert ks[i] == d[i].0 && ks[j] == d[j].0;
      }
    }
  }

  /** Deleting a missing key changes nothing. */
  lemma {:induction false} RemoveAbsent<V>(d: Dict<V>, k: string)
    requires !HasKey(d, k)
    ensures Remove(d, k) == d
  {
    if d != [] {
      assert !HasKey(d[1..], k) by {
        forall j | 0 <= j < |d| - 1 ensures d[1..][j].0 != k {
          assert d[1..][j] == d[j + 1];
        }
      }
      RemoveAbsent(d[1..], k);
    }
  }

  lemma {:induction false} RemoveKeys<V>(d: Dict<V>, k: string, q: string)
    ensures HasKey(Remove(d, k), q) <==> q != k && HasKey(d, q)
  {
    LookupRemove(d, k, q);
  }

  lemma {:induction false} RemoveDistinct<V>(d: Dict<V>, k: string)
    requires DistinctKeys(d)
    ensures DistinctKeys(Remove(d, k))
    ensures |Remove(d, k)| == if HasKey(d, k) then |d| - 1 else |d|
  {
    if d != [] {
      var t := d[1..];
      assert DistinctKeys(t);
      RemoveDistinct(t, k);
      if d[0].0 != k {
        var r := Remove(t, k);
        HeadNotInTail(d);
        forall i | 0 <= i < |r| ensures r[i].0 != d[0].0 {
          assert HasKey(r, r[i].0);
          RemoveKeys(t, k, r[i].0);
        }
        assert HasKey(d, k) <==> HasKey(t, k);
      } else {
        HeadNotInTail(d);
      }
    }
  }

  /** With distinct keys, the number of entries is the number of keys
      (`Object.keys(obj).length`). */
  lemma {:induction false} SizeIsKeyCount<V>(d: Dict<V>)
    requires DistinctKeys(d)
    ensures |KeySet(d)| == |d|
  {
    if d != [] {
      var t := d[1..];
      assert DistinctKeys(t);
      SizeIsKeyCount(t);
      assert KeySet(d) == {d[0].0} + KeySet(t);
      HeadNotInTail(d);
    }
  }

  /** With distinct keys, every entry is what a read of its key returns. */
  lemma {:induction false} LookupAt<V>(d: Dict<V>, i: nat)
    requires DistinctKeys(d) && i < |d|
    ensures Lookup(d, d[i].0) == Some(d[i].1)
  {
    if i > 0 {
      assert d[i].0 != d[0].0;
      assert DistinctKeys(d[1..]);
      LookupAt(d[1..], i - 1);
    }
  }

  lemma HeadNotInTail<V>(d: Dict<V>)
    requires d != [] && DistinctKeys(d)
    ensures !HasKey(d[1..], d[0].0)
  {
    forall j | 0 <= j < |d| - 1 ensures d[1..][j].0 != d[0].0 {
      assert d[1..][j] == d[j + 1];
    }
  }
}
