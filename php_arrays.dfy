/**
 * PHP's ordered associative arrays, as a sequence of (key, value) entries.
 * Assigning to an existing key keeps its position; a new key goes at the end.
 */
module PhpArrays {
  import opened Wrappers

  /** A PHP array never holds the same key twice. */
  predicate DistinctKeys<K(==), V>(e: seq<(K, V)>) {
    forall i, j :: 0 <= i < j < |e| ==> e[i].0 != e[j].0
  }

  /** array_keys */
  function Keys<K, V>(e: seq<(K, V)>): (ks: seq<K>)
    ensures |ks| == |e|
    ensures forall i :: 0 <= i < |e| ==> ks[i] == e[i].0
  {
    if e == [] then [] else [e[0].0] + Keys(e[1..])
  }

  /** array_values */
  function Values<K, V>(e: seq<(K, V)>): (vs: seq<V>)
    ensures |vs| == |e|
    ensures forall i :: 0 <= i < |e| ==> vs[i] == e[i].1
  {
    if e == [] then [] else [e[0].1] + Values(e[1..])
  }

  /** The position of key `k`, if present. */
  function IndexOf<K(==), V>(e: seq<(K, V)>, k: K): (r: Option<nat>)
    ensures r.Some? ==> r.value < |e| && e[r.value].0 == k
    ensures r.Some? ==> forall i :: 0 <= i < r.value ==> e[i].0 != k
    ensures r.None? <==> forall i :: 0 <= i < |e| ==> e[i].0 != k
  {
    if e == [] then None
    else if e[0].0 == k then Some(0)
    else match IndexOf(e[1..], k)
      case None => None
      case Some(i) => Some(i + 1)
  }

  /** array_key_exists */
  predicate HasKey<K(==), V>(e: seq<(K, V)>, k: K) {
    IndexOf(e, k).Some?
  }

  /** `$e[$k]`, or None when the key is absent. */
  function Get<K(==), V>(e: seq<(K, V)>, k: K): (r: Option<V>)
    ensures r.Some? <==> HasKey(e, k)
    ensures r.Some? ==> exists i :: 0 <= i < |e| && e[i] == (k, r.value)
  {
    match IndexOf(e, k)
    case None => None
    case Some(i) => Some(e[i].1)
  }

  /** `$e[$k] = $v` */
  function Put<K(==), V>(e: seq<(K, V)>, k: K, v: V): (r: seq<(K, V)>)
  {
    match IndexOf(e, k)
    case Some(i) => e[i := (k, v)]
    case None => e + [(k, v)]
  }

  /** `unset($e[$k])` */
  function Remove<K(==), V>(e: seq<(K, V)>, k: K): (r: seq<(K, V)>)
  {
    match IndexOf(e, k)
    case Some(i) => e[..i] + e[i + 1..]
    case None => e
  }

  /** array_merge on string-keyed arrays: later entries overwrite earlier ones in place. */
  function Merge<K(==), V>(a: seq<(K, V)>, b: seq<(K, V)>): (r: seq<(K, V)>)
    decreases |b|
  {
    if b == [] then a else Merge(Put(a, b[0].0, b[0].1), b[1..])
  }

  /** `$a + $b`: all of `a`, then the entries of `b` whose key `a` lacks. */
  function Union<K(==), V>(a: seq<(K, V)>, b: seq<(K, V)>): (r: seq<(K, V)>)
    decreases |b|
  {
    if b == [] then a
    else if HasKey(a, b[0].0) then Union(a, b[1..])
    else Union(a + [b[0]], b[1..])
  }

  /** array_map over the values, keys and order kept. */
  function MapValues<K, V, W>(e: seq<(K, V)>, f: V -> W): (r: seq<(K, W)>)
    ensures |r| == |e|
    ensures forall i :: 0 <= i < |e| ==> r[i] == (e[i].0, f(e[i].1))
  {
    if e == [] then [] else [(e[0].0, f(e[0].1))] + MapValues(e[1..], f)
  }

  /** Reference definition: the entries whose key is not in `ks`, in their order. */
  function WithoutKeys<K(==), V>(e: seq<(K, V)>, ks: set<K>): seq<(K, V)>
  {
    if e == [] then []
    else if e[0].0 in ks then WithoutKeys(e[1..], ks)
    else [e[0]] + WithoutKeys(e[1..], ks)
  }

  // ---------------------------------------------------------------- lemmas

  /** The first position holding a key is the one IndexOf reports. */
  lemma IndexOfAt<K, V>(e: seq<(K, V)>, k: K, i: nat)
    requires i < |e| && e[i].0 == k
    requires forall t :: 0 <= t < i ==> e[t].0 != k
    ensures IndexOf(e, k) == Some(i)
  {
    match IndexOf(e, k)
    case None =>
    case Some(j) =>
      assert !(j < i) && !(i < j);
  }

  lemma PutGet<K, V>(e: seq<(K, V)>, k: K, v: V, k': K)
    ensures Get(Put(e, k, v), k') == if k' == k then Some(v) else Get(e, k')
  {
    var r := Put(e, k, v);
    match IndexOf(e, k)
    case Some(i) =>
      assert r == e[i := (k, v)];
      if k' == k {
        IndexOfAt(r, k, i);
      } else {
        match IndexOf(e, k')
        case None =>
          assert forall t :: 0 <= t < |r| ==> r[t].0 != k';
        case Some(j) =>
          IndexOfAt(r, k', j);
      }
    case None =>
      assert r == e + [(k, v)];
      if k' != k {
        match IndexOf(e, k')
        case None =>
          assert forall t :: 0 <= t < |r| ==> r[t].0 != k';
        case Some(j) =>
          IndexOfAt(r, k', j);
      } else {
        IndexOfAt(r, k, |e|);
      }
  }

  /** Put keeps each position's key, so it never duplicates one. */
  lemma PutKeepsKeysAt<K, V>(e: seq<(K, V)>, k: K, v: V)
    ensures |Put(e, k, v)| >= |e|
    ensures forall t :: 0 <= t < |e| ==> Put(e, k, v)[t].0 == e[t].0
    ensures DistinctKeys(e) ==> DistinctKeys(Put(e, k, v))
  {
    match IndexOf(e, k)
    case Some(i) =>
    case None =>
  }

  /** Position of a key never changes under Put: an existing key is overwritten in place, a new one is appended. */
  lemma PutKeys<K, V>(e: seq<(K, V)>, k: K, v: V)
    ensures Keys(Put(e, k, v)) == if HasKey(e, k) then Keys(e) else Keys(e) + [k]
    ensures DistinctKeys(e) ==> DistinctKeys(Put(e, k, v))
    ensures HasKey(e, k) ==> |Put(e, k, v)| == |e|
    ensures !HasKey(e, k) ==> Put(e, k, v) == e + [(k, v)]
    ensures HasKey(Put(e, k, v), k)
  {
    var r := Put(e, k, v);
    match IndexOf(e, k)
    case Some(i) =>
      PutKeepsKeysAt(e, k, v);
      assert Keys(r) == Keys(e);
      IndexOfAt(r, k, i);
    case None =>
      PutKeepsKeysAt(e, k, v);
      assert Keys(r) == Keys(e) + [k];
      IndexOfAt(r, k, |e|);
  }

  /** Removing the entry at position `i` shifts the later ones down by one. */
  lemma RemoveShifts<K, V>(e: seq<(K, V)>, k: K, i: nat)
    requires IndexOf(e, k) == Some(i)
    ensures |Remove(e, k)| == |e| - 1
    ensures forall t :: 0 <= t < |e| - 1 ==> Remove(e, k)[t] == if t < i then e[t] else e[t + 1]
  {
    assert Remove(e, k) == e[..i] + e[i + 1..];
  }

  /** Removing an entry of a PHP array keeps its keys distinct. */
  lemma RemoveDistinct<K, V>(e: seq<(K, V)>, k: K)
    requires DistinctKeys(e)
    ensures DistinctKeys(Remove(e, k))
  {
    match IndexOf(e, k)
    case None =>
    case Some(i) =>
      var r := Remove(e, k);
      RemoveShifts(e, k, i);
      forall a, b | 0 <= a < b < |r| ensures r[a].0 != r[b].0 {
        var a' := if a < i then a else a + 1;
        var b' := if b < i then b else b + 1;
        assert r[a] == e[a'] && r[b] == e[b'] && a' < b';
      }
  }

  lemma RemoveGet<K, V>(e: seq<(K, V)>, k: K, k': K)
    requires DistinctKeys(e)
    ensures Get(Remove(e, k), k') == if k' == k then None else Get(e, k')
    ensures DistinctKeys(Remove(e, k))
  {
    RemoveDistinct(e, k);
    match IndexOf(e, k)
    case None =>
    case Some(i) =>
      var r := Remove(e, k);
      RemoveShifts(e, k, i);
      if k' == k {
        assert forall t :: 0 <= t < |r| ==> r[t].0 != k;
      } else {
        match IndexOf(e, k')
        case None =>
          assert forall t :: 0 <= t < |r| ==> r[t].0 != k';
        case Some(j) =>
          var j' := if j < i then j else j - 1;
          assert r[j'] == e[j];
          IndexOfAt(r, k', j');
      }
  }

  /** Removing a key of a PHP array is filtering it out. */
  lemma {:induction false} RemoveIsWithoutKey<K, V>(e: seq<(K, V)>, k: K, ks: set<K>)
    requires DistinctKeys(e)
    ensures WithoutKeys(Remove(e, k), ks) == WithoutKeys(e, ks + {k})
  {
    if e != [] {
      var t := e[1..];
      assert DistinctKeys(t);
      if e[0].0 == k {
        assert Remove(e, k) == t;
        assert forall i :: 0 <= i < |t| ==> t[i].0 != k;
        WithoutKeyAbsent(t, k, ks);
      } else {
        RemoveCons(e, k);
        RemoveIsWithoutKey(t, k, ks);
        var r := [e[0]] + Remove(t, k);
        assert r[0] == e[0] && r[1..] == Remove(t, k);
      }
    }
  }

  /** Removing a key other than the first leaves the first entry in front. */
  lemma RemoveCons<K, V>(e: seq<(K, V)>, k: K)
    requires e != [] && e[0].0 != k
    ensures Remove(e, k) == [e[0]] + Remove(e[1..], k)
  {
    match IndexOf(e[1..], k)
    case None => RemoveConsAbsent(e, k);
    case Some(i) => RemoveConsAt(e, k, i);
  }

  lemma RemoveConsAbsent<K, V>(e: seq<(K, V)>, k: K)
    requires e != [] && e[0].0 != k && IndexOf(e[1..], k).None?
    ensures Remove(e, k) == [e[0]] + Remove(e[1..], k)
  {
    var t := e[1..];
    assert forall j :: 1 <= j < |e| ==> e[j] == t[j - 1];
    assert IndexOf(e, k).None?;
    assert e == [e[0]] + t;
  }

  lemma RemoveConsAt<K, V>(e: seq<(K, V)>, k: K, i: nat)
    requires e != [] && e[0].0 != k && IndexOf(e[1..], k) == Some(i)
    ensures Remove(e, k) == [e[0]] + Remove(e[1..], k)
  {
    var t := e[1..];
    assert e[i + 1] == t[i];
    IndexOfAt(e, k, i + 1);
    assert e[..i + 1] == [e[0]] + t[..i];
    assert e[i + 2..] == t[i + 1..];
  }

  lemma {:induction false} WithoutKeyAbsent<K, V>(e: seq<(K, V)>, k: K, ks: set<K>)
    requires forall i :: 0 <= i < |e| ==> e[i].0 != k
    ensures WithoutKeys(e, ks) == WithoutKeys(e, ks + {k})
  {
    if e != [] {
      WithoutKeyAbsent(e[1..], k, ks);
    }
  }

  lemma {:induction false} WithoutNothing<K, V>(e: seq<(K, V)>)
    ensures WithoutKeys(e, {}) == e
  {
    if e != [] {
      WithoutNothing(e[1..]);
    }
  }

  /** array_merge: a key of `b` takes `b`'s value; any other key keeps `a`'s. */
  lemma {:induction false} MergeGet<K, V>(a: seq<(K, V)>, b: seq<(K, V)>, k: K)
    requires DistinctKeys(b)
    ensures Get(Merge(a, b), k) == if HasKey(b, k) then Get(b, k) else Get(a, k)
    decreases |b|
  {
    if b != [] {
      var t := b[1..];
      assert DistinctKeys(t);
      MergeGet(Put(a, b[0].0, b[0].1), t, k);
      PutGet(a, b[0].0, b[0].1, k);
      if k == b[0].0 {
        assert forall i :: 0 <= i < |t| ==> t[i].0 != k;
      }
    }
  }

  /** `$a + $b`: a key of `a` keeps `a`'s value; any other key takes its first value in `b`. */
  lemma {:induction false} UnionGet<K, V>(a: seq<(K, V)>, b: seq<(K, V)>, k: K)
    ensures Get(Union(a, b), k) == if HasKey(a, k) then Get(a, k) else Get(b, k)
    decreases |b|
  {
    if b != [] {
      if HasKey(a, b[0].0) {
        UnionGet(a, b[1..], k);
        if !HasKey(a, k) {
          assert b[0].0 != k;
          assert Get(b, k) == Get(b[1..], k) by { IndexOfTail(b, k); }
        }
      } else {
        var a' := a + [b[0]];
        UnionGet(a', b[1..], k);
        AppendGet(a, b[0].0, b[0].1, k);
        if !HasKey(a, k) && b[0].0 != k {
          IndexOfTail(b, k);
        }
      }
    }
  }

  /** Appending a new key: it maps to its value, every other key is unchanged. */
  lemma AppendGet<K, V>(a: seq<(K, V)>, k: K, v: V, k': K)
    requires !HasKey(a, k)
    ensures Get(a + [(k, v)], k') == if k' == k then Some(v) else Get(a, k')
    ensures HasKey(a + [(k, v)], k') <==> k' == k || HasKey(a, k')
  {
    PutKeys(a, k, v);
    PutGet(a, k, v, k');
  }

  /** Looking a key up past a first entry with another key. */
  lemma IndexOfTail<K, V>(e: seq<(K, V)>, k: K)
    requires e != [] && e[0].0 != k
    ensures Get(e, k) == Get(e[1..], k)
  {
  }

  /** A mapped array holds, under each key, the mapped value. */
  lemma MapValuesGet<K, V, W>(e: seq<(K, V)>, f: V -> W, k: K)
    ensures Get(MapValues(e, f), k) == if HasKey(e, k) then Some(f(Get(e, k).value)) else None
  {
    var r := MapValues(e, f);
    match IndexOf(e, k)
    case None =>
      assert forall i :: 0 <= i < |r| ==> r[i].0 != k;
    case Some(i) =>
      IndexOfAt(r, k, i);
  }
}
