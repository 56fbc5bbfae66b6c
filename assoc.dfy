/**
 * A JavaScript plain object used as a dictionary: an association list whose
 * order is insertion order. Assigning to a key that is already present
 * replaces its value in place; assigning to a new key appends it.
 */
module Assoc {
  import opened Wrappers

  datatype Pair<K, V> = Pair(key: K, val: V)

  function Keys<K, V>(l: seq<Pair<K, V>>): set<K>
  {
    set i | 0 <= i < |l| :: l[i].key
  }

  /** `Object.values`: the values in key order. */
  function Values<K, V>(l: seq<Pair<K, V>>): (vs: seq<V>)
    ensures |vs| == |l|
    ensures forall i | 0 <= i < |l| :: vs[i] == l[i].val
  {
    if l == [] then [] else [l[0].val] + Values(l[1..])
  }

  predicate DistinctKeys<K(==), V>(l: seq<Pair<K, V>>)
  {
    forall i, j | 0 <= i < j < |l| :: l[i].key != l[j].key
  }

  /** Position of key `k`, if present: the first entry carrying it. */
  function Find<K(==), V>(l: seq<Pair<K, V>>, k: K): (r: Option<nat>)
    ensures r.None? <==> k !in Keys(l)
    ensures r.Some? ==> r.value < |l| && l[r.value].key == k
    ensures r.Some? ==> forall j | 0 <= j < r.value :: l[j].key != k
  {
    if l == [] then None
    else if l[0].key == k then Some(0)
    else
      match Find(l[1..], k)
      case None =>
        assert Keys(l) == {l[0].key} + Keys(l[1..]) by {
          forall x | x in Keys(l) ensures x in {l[0].key} + Keys(l[1..]) {
            var i :| 0 <= i < |l| && l[i].key == x;
            if i > 0 { assert l[1..][i - 1].key == x; }
          }
        }
        None
      case Some(i) => Some(i + 1)
  }

  /** `obj[k]`, or None when `k` is not a key. */
  function Get<K(==), V>(l: seq<Pair<K, V>>, k: K): (r: Option<V>)
    ensures r.None? <==> k !in Keys(l)
  {
    match Find(l, k)
    case Some(i) => Some(l[i].val)
    case None => None
  }

  /** `obj[k] = v`. */
  function Put<K(==), V>(l: seq<Pair<K, V>>, k: K, v: V): (r: seq<Pair<K, V>>)
    ensures Find(l, k).Some? ==> r == l[Find(l, k).value := Pair(k, v)]
    ensures Find(l, k).None? ==> r == l + [Pair(k, v)]
  {
    match Find(l, k)
    case Some(i) => l[i := Pair(k, v)]
    case None => l + [Pair(k, v)]
  }

  /** After `obj[k] = v`, key `k` holds `v`, every other key is untouched and no key is duplicated. */
  lemma PutGet<K, V>(l: seq<Pair<K, V>>, k: K, v: V)
    requires DistinctKeys(l)
    ensures Get(Put(l, k, v), k) == Some(v)
    ensures forall k' | k' != k :: Get(Put(l, k, v), k') == Get(l, k')
    ensures Keys(Put(l, k, v)) == Keys(l) + {k}
    ensures DistinctKeys(Put(l, k, v))
  {
    var r := Put(l, k, v);
    match Find(l, k)
    case Some(i) =>
      assert r == l[i := Pair(k, v)];
      assert Keys(r) == Keys(l) by {
        forall x | x in Keys(l) ensures x in Keys(r) {
          var j :| 0 <= j < |l| && l[j].key == x;
          assert r[j].key == x;
        }
      }
      forall k' ensures Get(r, k') == Get(l, k') || k' == k {
        if k' != k && k' in Keys(l) {
          var fl := Find(l, k').value;
          var fr := Find(r, k').value;
          assert r[fl].key == k';
          assert l[fr].key == k' by { assert fr != i; }
          assert fl == fr;
        }
      }
      assert Find(r, k) == Some(i);
    case None =>
      assert r == l + [Pair(k, v)];
      assert Keys(r) == Keys(l) + {k} by {
        assert r[|l|].key == k;
        forall x | x in Keys(l) ensures x in Keys(r) {
          var j :| 0 <= j < |l| && l[j].key == x;
          assert r[j].key == x;
        }
      }
      forall k' ensures Get(r, k') == Get(l, k') || k' == k {
        if k' != k && k' in Keys(l) {
          var fl := Find(l, k').value;
          var fr := Find(r, k').value;
          assert r[fl].key == k';
          assert fr < |l|;
          assert fl == fr;
        }
      }
      assert Find(r, k) == Some(|l|);
  }

  /** With distinct keys, an entry's own key finds it, and `Get` yields its value. */
  lemma FindDistinct<K, V>(l: seq<Pair<K, V>>, i: nat)
    requires DistinctKeys(l) && i < |l|
    ensures Find(l, l[i].key) == Some(i)
    ensures Get(l, l[i].key) == Some(l[i].val)
  {
    assert l[i].key in Keys(l);
  }

  /** Appending an entry adds its key. */
  lemma SnocKeys<K, V>(l: seq<Pair<K, V>>, p: Pair<K, V>)
    ensures Keys(l + [p]) == Keys(l) + {p.key}
  {
    var r := l + [p];
    forall x | x in Keys(r) ensures x in Keys(l) + {p.key} {
      var j :| 0 <= j < |r| && r[j].key == x;
      if j < |l| { assert l[j] == r[j]; }
    }
    forall x | x in Keys(l) ensures x in Keys(r) {
      var j :| 0 <= j < |l| && l[j].key == x;
      assert r[j] == l[j];
    }
    assert r[|l|] == p;
  }

  /** Appending an entry keeps the keys distinct exactly when its key is new; the old entries keep their values and the new key reads the new value. */
  lemma SnocDistinct<K, V>(l: seq<Pair<K, V>>, p: Pair<K, V>)
    ensures DistinctKeys(l + [p]) <==> DistinctKeys(l) && p.key !in Keys(l)
    ensures DistinctKeys(l + [p]) ==> Get(l + [p], p.key) == Some(p.val)
    ensures DistinctKeys(l + [p]) ==> forall k | k in Keys(l) :: Get(l + [p], k) == Get(l, k)
  {
    var r := l + [p];
    assert forall j | 0 <= j < |l| :: r[j] == l[j];
    assert r[|l|] == p;
    if DistinctKeys(r) {
      FindDistinct(r, |l|);
      forall k | k in Keys(l) ensures Get(r, k) == Get(l, k) {
        var j := Find(l, k).value;
        FindDistinct(l, j);
        FindDistinct(r, j);
      }
    }
    if DistinctKeys(l) && p.key !in Keys(l) {
      forall i, j | 0 <= i < j < |r| ensures r[i].key != r[j].key {
        if j == |l| {
          assert l[i].key in Keys(l);
        }
      }
    }
  }

  /** A prefix of a list with distinct keys has distinct keys. */
  lemma PrefixDistinct<K, V>(l: seq<Pair<K, V>>, n: nat)
    requires DistinctKeys(l) && n <= |l|
    ensures DistinctKeys(l[..n])
  {
    assert forall i | 0 <= i < n :: l[..n][i] == l[i];
  }
}
