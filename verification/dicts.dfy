/**
 * Insertion-ordered dictionaries, the way a JavaScript object keeps its
 * string keys: assigning to an existing key keeps its position, assigning to
 * a new key appends it, and iteration follows that order.
 */
module Dicts {
  import opened Wrappers

  type Dict<V> = seq<(string, V)>

  function KeySet<V>(d: Dict<V>): (ks: set<string>)
  {
    set k | k in Keys(d)
  }

  function Keys<V>(d: Dict<V>): (ks: seq<string>)
    ensures |ks| == |d|
    ensures forall i :: 0 <= i < |d| ==> ks[i] == d[i].0
  {
    seq(|d|, i requires 0 <= i < |d| => d[i].0)
  }

  /** The keys of a dictionary are those of all but its last entry, and the last entry's key. */
  lemma KeySetLast<V>(d: Dict<V>)
    requires d != []
    ensures KeySet(d) == KeySet(d[..|d| - 1]) + {d[|d| - 1].0}
  {
    assert Keys(d) == Keys(d[..|d| - 1]) + [d[|d| - 1].0];
  }

  /** No key occurs twice: what every JavaScript object satisfies. */
  ghost predicate UniqueKeys<V>(d: Dict<V>)
  {
    forall i, j :: 0 <= i < j < |d| ==> d[i].0 != d[j].0
  }

  /** The position of the first entry with key `k`, or -1. */
  function IndexOf<V>(d: Dict<V>, k: string): (i: int)
    ensures -1 <= i < |d|
    ensures 0 <= i ==> d[i].0 == k
    decreases |d|
  {
    if d == [] then -1
    else
      var i := IndexOf(d[..|d| - 1], k);
      if 0 <= i then i
      else if d[|d| - 1].0 == k then |d| - 1
      else -1
  }

  /** `IndexOf` finds the first entry with the key, and finds none exactly when the key is absent. */
  lemma {:induction false} IndexOfFirst<V>(d: Dict<V>, k: string)
    ensures 0 <= IndexOf(d, k) ==> forall j :: 0 <= j < IndexOf(d, k) ==> d[j].0 != k
    ensures IndexOf(d, k) < 0 <==> k !in KeySet(d)
    decreases |d|
  {
    if d != [] {
      var n := |d| - 1;
      IndexOfFirst(d[..n], k);
      KeySetLast(d);
    }
  }

  /** Two dictionaries with the same key sequence place every key at the same position. */
  lemma {:induction false} IndexOfSameKeys<V, W>(d: Dict<V>, e: Dict<W>, k: string)
    requires |d| == |e| && forall j :: 0 <= j < |d| ==> d[j].0 == e[j].0
    ensures IndexOf(d, k) == IndexOf(e, k)
    decreases |d|
  {
    if d != [] {
      IndexOfSameKeys(d[..|d| - 1], e[..|e| - 1], k);
    }
  }

  /** In a dictionary with unique keys, the entry at position i is the one its key finds. */
  lemma UniqueIndex<V>(d: Dict<V>, i: nat)
    requires UniqueKeys(d) && i < |d|
    ensures IndexOf(d, d[i].0) == i
  {
    IndexOfFirst(d, d[i].0);
  }

  function Get<V>(d: Dict<V>, k: string): Option<V>
  {
    var i := IndexOf(d, k);
    if i < 0 then None else Some(d[i].1)
  }

  /** A key has a value exactly when it is one of the dictionary's keys. */
  lemma GetKeys<V>(d: Dict<V>, k: string)
    ensures Get(d, k).Some? <==> k in KeySet(d)
  {
    IndexOfFirst(d, k);
  }

  /** `obj[k] || default`, for values that are never falsy. */
  function GetOr<V>(d: Dict<V>, k: string, default: V): V
  {
    match Get(d, k)
    case Some(v) => v
    case None => default
  }

  /** `obj[k] = v`: an existing key is overwritten in place, a new key is appended. */
  function Put<V>(d: Dict<V>, k: string, v: V): (r: Dict<V>)
    ensures Get(r, k) == Some(v)
    ensures forall k' :: k' != k ==> Get(r, k') == Get(d, k')
  {
    var i := IndexOf(d, k);
    if i < 0 then
      var r := d + [(k, v)];
      assert forall k' :: k' != k ==> IndexOf(r, k') == IndexOf(d, k') by {
        forall k' | k' != k ensures IndexOf(r, k') == IndexOf(d, k') {
          assert r[..|r| - 1] == d;
        }
      }
      assert IndexOf(r, k) == |d| by { assert r[..|r| - 1] == d; }
      r
    else
      var r := d[i := (k, v)];
      assert forall k' :: IndexOf(r, k') == IndexOf(d, k') by {
        forall k' ensures IndexOf(r, k') == IndexOf(d, k') {
          IndexOfSameKeys(r, d, k');
        }
      }
      r
  }

  /**
   * Writing a key keeps every existing key at its position, appends a new
   * key at the end, adds the key to the key set and keeps keys distinct.
   */
  lemma PutKeys<V>(d: Dict<V>, k: string, v: V)
    ensures KeySet(Put(d, k, v)) == KeySet(d) + {k}
    ensures |Put(d, k, v)| == if k in KeySet(d) then |d| else |d| + 1
    ensures forall j :: 0 <= j < |d| ==> Put(d, k, v)[j].0 == d[j].0
    ensures k !in KeySet(d) ==> Put(d, k, v)[|d|] == (k, v)
    ensures UniqueKeys(d) ==> UniqueKeys(Put(d, k, v))
    ensures forall j :: 0 <= j < |Put(d, k, v)| ==> Put(d, k, v)[j] == (k, v) || (j < |d| && Put(d, k, v)[j] == d[j])
  {
    IndexOfFirst(d, k);
    var i := IndexOf(d, k);
    if i < 0 {
      KeySetLast(d + [(k, v)]);
      assert (d + [(k, v)])[..|d|] == d;
    } else {
      assert Keys(Put(d, k, v)) == Keys(d);
    }
  }

  /** Writing a key the dictionary does not have appends it. */
  lemma PutFresh<V>(d: Dict<V>, k: string, v: V)
    requires k !in KeySet(d)
    ensures Put(d, k, v) == d + [(k, v)]
  {
    PutKeys(d, k, v);
    var r := Put(d, k, v);
    forall j | 0 <= j < |d| ensures r[j] == d[j] {
      assert Keys(d)[j] == d[j].0;
    }
  }

  /** Writing a key the dictionary does not have appends it to the keys. */
  lemma PutFreshKeys<V>(d: Dict<V>, k: string, v: V)
    requires k !in KeySet(d)
    ensures Keys(Put(d, k, v)) == Keys(d) + [k]
  {
    PutFresh(d, k, v);
    assert Keys(d + [(k, v)]) == Keys(d) + [k];
  }

  /** Writing the last of `ks` into a dictionary keyed by the others, in order, gives a dictionary keyed by `ks`. */
  lemma PutLastKey<V>(d: Dict<V>, ks: seq<string>, v: V)
    requires ks != [] && Keys(d) == ks[..|ks| - 1] && ks[|ks| - 1] !in KeySet(d)
    ensures Keys(Put(d, ks[|ks| - 1], v)) == ks
  {
    PutFreshKeys(d, ks[|ks| - 1], v);
    LastSplit(ks);
  }

  /** Writing a key twice leaves the dictionary as writing it once with the second value. */
  lemma PutPut<V>(d: Dict<V>, k: string, v: V, w: V)
    ensures Put(Put(d, k, v), k, w) == Put(d, k, w)
  {
    IndexOfFirst(d, k);
    if IndexOf(d, k) < 0 {
      PutFresh(d, k, v);
      PutFresh(d, k, w);
      assert (d + [(k, v)])[..|d|] == d;
    } else {
      IndexOfSameKeys(Put(d, k, v), d, k);
    }
  }

  /** In a dictionary with distinct keys there are as many keys as entries. */
  lemma {:induction false} UniqueKeysCount<V>(d: Dict<V>)
    requires UniqueKeys(d)
    ensures |KeySet(d)| == |d|
    decreases |d|
  {
    if d != [] {
      var n := |d| - 1;
      UniqueKeysCount(d[..n]);
      KeySetLast(d);
      assert d[n].0 !in KeySet(d[..n]) by {
        assert forall j :: 0 <= j < n ==> Keys(d[..n])[j] == d[j].0;
      }
    }
  }

  /** A key occurs in a dictionary exactly when some entry carries it. */
  lemma KeySetMember<V>(d: Dict<V>, k: string)
    ensures k in KeySet(d) <==> exists i :: 0 <= i < |d| && d[i].0 == k
  {
    if k in KeySet(d) {
      var i :| 0 <= i < |Keys(d)| && Keys(d)[i] == k;
    }
  }

  /** In a dictionary with distinct keys, an entry's key occurs neither before it nor after it. */
  lemma UniqueSplit<V>(d: Dict<V>, i: nat)
    requires UniqueKeys(d) && i < |d|
    ensures d[i].0 !in KeySet(d[..i]) && d[i].0 !in KeySet(d[i + 1..])
  {
    KeySetMember(d[..i], d[i].0);
    KeySetMember(d[i + 1..], d[i].0);
    var after := d[i + 1..];
    forall j | 0 <= j < |after| ensures after[j].0 != d[i].0 {
      assert after[j] == d[i + 1 + j];
    }
  }

  /** Appending an entry whose key is new keeps keys distinct. */
  lemma UniqueAppend<V>(d: Dict<V>, kv: (string, V))
    requires UniqueKeys(d) && kv.0 !in KeySet(d)
    ensures UniqueKeys(d + [kv])
  {
    KeySetMember(d, kv.0);
  }

  /** A dictionary whose entries all occur in another has no key the other lacks. */
  lemma KeySubset<V>(a: Dict<V>, b: Dict<V>)
    requires forall x :: x in a ==> x in b
    ensures KeySet(a) <= KeySet(b)
  {
    forall k | k in KeySet(a) ensures k in KeySet(b) {
      KeySetMember(a, k);
      var i :| 0 <= i < |a| && a[i].0 == k;
      assert a[i] in b;
      var j :| 0 <= j < |b| && b[j] == a[i];
      KeySetMember(b, k);
    }
  }

  /** With distinct keys, an entry occurs exactly when its key finds its value. */
  lemma UniqueMember<V>(d: Dict<V>, x: (string, V))
    requires UniqueKeys(d)
    ensures x in d <==> Get(d, x.0) == Some(x.1)
  {
    if x in d {
      var i :| 0 <= i < |d| && d[i] == x;
      UniqueIndex(d, i);
    }
  }

  /** The last entry of a dictionary with distinct keys is what its key finds; the other keys find what they found before it. */
  lemma GetLast<V>(d: Dict<V>, a: string)
    requires UniqueKeys(d) && d != []
    ensures Get(d, a) == if a == d[|d| - 1].0 then Some(d[|d| - 1].1) else Get(d[..|d| - 1], a)
  {
    var n := |d| - 1;
    if a == d[n].0 {
      UniqueIndex(d, n);
    }
  }

  /** `delete obj[k]`: the entries with key `k` are dropped, the others keep their order. */
  function Remove<V>(d: Dict<V>, k: string): (r: Dict<V>)
    ensures |r| <= |d|
    decreases |d|
  {
    if d == [] then []
    else
      var n := |d| - 1;
      Remove(d[..n], k) + (if d[n].0 == k then [] else [d[n]])
  }

  /** An entry survives a removal exactly when it was there and carries another key. */
  lemma {:induction false} RemoveMembers<V>(d: Dict<V>, k: string)
    ensures forall x :: x in Remove(d, k) <==> x in d && x.0 != k
    decreases |d|
  {
    if d != [] {
      var n := |d| - 1;
      RemoveMembers(d[..n], k);
      LastSplit(d);
    }
  }

  lemma {:induction false} RemoveConcat<V>(a: Dict<V>, b: Dict<V>, k: string)
    ensures Remove(a + b, k) == Remove(a, k) + Remove(b, k)
    decreases |b|
  {
    if b != [] {
      var n := |b| - 1;
      assert (a + b)[..|a| + n] == a + b[..n];
      assert (a + b)[|a| + n] == b[n];
      RemoveConcat(a, b[..n], k);
      var last := if b[n].0 == k then [] else [b[n]];
      assert Remove(a + b, k) == Remove(a + b[..n], k) + last;
      assert Remove(b, k) == Remove(b[..n], k) + last;
    } else {
      assert a + b == a;
    }
  }

  /** Removing the key of the first entry, absent from the rest, leaves the rest. */
  lemma RemoveFirst<V>(kv: (string, V), rest: Dict<V>)
    requires kv.0 !in KeySet(rest)
    ensures Remove([kv] + rest, kv.0) == rest
  {
    RemoveConcat([kv], rest, kv.0);
    assert Remove([kv], kv.0) == Remove([], kv.0) + [];
    RemoveAbsent(rest, kv.0);
  }

  /** Removing a key that is absent changes nothing. */
  lemma {:induction false} RemoveAbsent<V>(d: Dict<V>, k: string)
    requires k !in KeySet(d)
    ensures Remove(d, k) == d
    decreases |d|
  {
    if d != [] {
      var n := |d| - 1;
      KeySetLast(d);
      RemoveAbsent(d[..n], k);
    }
  }

  /** The sum of the values of an integer-valued dictionary. */
  function Sum(d: Dict<int>): int
    decreases |d|
  {
    if d == [] then 0 else Sum(d[..|d| - 1]) + d[|d| - 1].1
  }

  lemma SumAppend(d: Dict<int>, kv: (string, int))
    ensures Sum(d + [kv]) == Sum(d) + kv.1
  {
    assert (d + [kv])[..|d|] == d;
  }

  lemma {:induction false} SumUpdate(d: Dict<int>, i: nat, kv: (string, int))
    requires i < |d|
    ensures Sum(d[i := kv]) == Sum(d) - d[i].1 + kv.1
    decreases |d|
  {
    var n := |d| - 1;
    if i == n {
      assert d[i := kv][..n] == d[..n];
    } else {
      SumUpdate(d[..n], i, kv);
      assert d[i := kv][..n] == d[..n][i := kv];
    }
  }

  /** Writing `v` at key `k` changes the sum by `v` minus what `k` held before (0 when absent). */
  lemma SumPut(d: Dict<int>, k: string, v: int)
    ensures Sum(Put(d, k, v)) == Sum(d) - GetOr(d, k, 0) + v
  {
    var i := IndexOf(d, k);
    if i < 0 {
      SumAppend(d, (k, v));
    } else {
      SumUpdate(d, i, (k, v));
    }
  }

  /** `obj[k] = (obj[k] || 0) + x`: add `x` to the entry at `k`, creating it at 0 first. */
  function AddTo(d: Dict<int>, k: string, x: int): (r: Dict<int>)
    ensures Sum(r) == Sum(d) + x
    ensures GetOr(r, k, 0) == GetOr(d, k, 0) + x
    ensures forall k' :: k' != k ==> GetOr(r, k', 0) == GetOr(d, k', 0)
  {
    var v := GetOr(d, k, 0) + x;
    SumPut(d, k, v);
    Put(d, k, v)
  }

  /** Adding to a key makes it a key and keeps keys distinct. */
  lemma AddToKeys(d: Dict<int>, k: string, x: int)
    ensures KeySet(AddTo(d, k, x)) == KeySet(d) + {k}
    ensures UniqueKeys(d) ==> UniqueKeys(AddTo(d, k, x))
  {
    PutKeys(d, k, GetOr(d, k, 0) + x);
  }
}
