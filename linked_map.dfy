/**
 * `LinkedHashMap<String, Integer>` as the lexer uses it: a sequence of
 * entries in insertion order with distinct keys, where `put` on a present
 * key replaces its value in place and `put` on a new key appends.
 */
module LinkedMaps {
  import opened Wrappers

  type Entries = seq<(string, nat)>

  /** The representation invariant: no key occurs twice. */
  predicate DistinctKeys(m: Entries)
  {
    forall i, j :: 0 <= i < j < |m| ==> m[i].0 != m[j].0
  }

  /** `keySet()` in iteration order. */
  function Keys(m: Entries): (ks: seq<string>)
    ensures |ks| == |m| && forall i :: 0 <= i < |m| ==> ks[i] == m[i].0
  {
    seq(|m|, i requires 0 <= i < |m| => m[i].0)
  }

  /** Where key k sits in iteration order, if present. */
  function IndexOf(m: Entries, k: string): (r: Option<nat>)
    ensures r.Some? ==> r.value < |m| && m[r.value].0 == k
  {
    if m == [] then None
    else if m[0].0 == k then Some(0)
    else
      match IndexOf(m[1..], k)
      case None => None
      case Some(j) => Some(j + 1)
  }

  /** The index found is the first occurrence of k, and nothing is found exactly when k is absent. */
  lemma {:induction false} IndexOfSpec(m: Entries, k: string)
    ensures IndexOf(m, k).Some? ==> forall i :: 0 <= i < IndexOf(m, k).value ==> m[i].0 != k
    ensures IndexOf(m, k).None? <==> forall i :: 0 <= i < |m| ==> m[i].0 != k
  {
    if m != [] && m[0].0 != k {
      IndexOfSpec(m[1..], k);
      assert forall i :: 1 <= i < |m| ==> m[i] == m[1..][i - 1];
    }
  }

  /** `get(k)`: the value stored under k, or nothing. */
  function Get(m: Entries, k: string): (r: Option<nat>)
    ensures r.Some? ==> (k, r.value) in m
    ensures r.None? ==> forall i :: 0 <= i < |m| ==> m[i].0 != k
  {
    IndexOfSpec(m, k);
    match IndexOf(m, k)
    case None => None
    case Some(i) => Some(m[i].1)
  }

  /** A key is found exactly when it is present, and then with the value stored under it. */
  lemma GetSpec(m: Entries, k: string)
    ensures Get(m, k).Some? <==> k in Keys(m)
    ensures DistinctKeys(m) ==> forall i :: 0 <= i < |m| && m[i].0 == k ==> Get(m, k) == Some(m[i].1)
  {
    IndexOfSpec(m, k);
    if k in Keys(m) {
      var i :| 0 <= i < |m| && Keys(m)[i] == k;
      assert m[i].0 == k;
    }
  }

  /** `getOrDefault(k, d)`. */
  function GetOrDefault(m: Entries, k: string, d: nat): (r: nat)
    ensures r == if Get(m, k).Some? then Get(m, k).value else d
  {
    match IndexOf(m, k)
    case None => d
    case Some(i) => m[i].1
  }

  /**
   * `put(k, v)`: an existing key keeps its place in iteration order and gets
   * the new value, a new key goes last.
   */
  function Put(m: Entries, k: string, v: nat): (r: Entries)
    ensures (k, v) in r
    ensures |r| == |m| || |r| == |m| + 1
  {
    match IndexOf(m, k)
    case None => assert (m + [(k, v)])[|m|] == (k, v); m + [(k, v)]
    case Some(i) => assert m[i := (k, v)][i] == (k, v); m[i := (k, v)]
  }

  /** `put(k, getOrDefault(k, 0) + 1)`: one more occurrence of k. */
  function Increment(m: Entries, k: string): (r: Entries)
    ensures Get(r, k) == Some(GetOrDefault(m, k, 0) + 1)
  {
    PutSpec(m, k, GetOrDefault(m, k, 0) + 1);
    Put(m, k, GetOrDefault(m, k, 0) + 1)
  }

  /** An increment is the `put` of the old count plus one. */
  lemma IncrementIsPut(m: Entries, k: string)
    ensures Increment(m, k) == Put(m, k, GetOrDefault(m, k, 0) + 1)
  {
  }

  /**
   * After `put(k, v)`, k maps to v and every other key to what it mapped to
   * before; the key order is unchanged, or extended by k when k was new; the
   * keys stay distinct.
   */
  lemma PutSpec(m: Entries, k: string, v: nat)
    ensures Get(Put(m, k, v), k) == Some(v)
    ensures forall k' :: k' != k ==> Get(Put(m, k, v), k') == Get(m, k')
    ensures Keys(Put(m, k, v)) == if k in Keys(m) then Keys(m) else Keys(m) + [k]
    ensures DistinctKeys(m) ==> DistinctKeys(Put(m, k, v))
  {
    IndexOfSpec(m, k);
    match IndexOf(m, k)
    case None =>
      IndexOfAppend(m, (k, v));
    case Some(i) =>
      SameKeysSameIndex(m, m[i := (k, v)]);
  }

  /** Incrementing an absent key appends it with count one. */
  lemma IncrementNew(m: Entries, k: string)
    requires k !in Keys(m)
    ensures Increment(m, k) == m + [(k, 1)]
  {
    IndexOfSpec(m, k);
    assert forall i :: 0 <= i < |m| ==> m[i].0 == Keys(m)[i];
  }

  /** With distinct keys, the key of entry i is found at i. */
  lemma IndexOfDistinct(m: Entries, i: nat)
    requires DistinctKeys(m) && i < |m|
    ensures IndexOf(m, m[i].0) == Some(i)
  {
    var r := IndexOf(m, m[i].0);
    IndexOfSpec(m, m[i].0);
    assert r.Some? && !(r.value < i) && !(i < r.value);
  }

  /** Appending an entry leaves every earlier key where it was. */
  lemma IndexOfAppend(m: Entries, e: (string, nat))
    ensures forall k :: IndexOf(m + [e], k)
                     == if IndexOf(m, k).Some? then IndexOf(m, k) else if e.0 == k then Some(|m|) else None
  {
    var me := m + [e];
    forall k ensures IndexOf(me, k)
                  == if IndexOf(m, k).Some? then IndexOf(m, k) else if e.0 == k then Some(|m|) else None
    {
      var r, q := IndexOf(m, k), IndexOf(me, k);
      IndexOfSpec(m, k);
      IndexOfSpec(me, k);
      if r.Some? {
        assert me[r.value].0 == k;
        assert q.Some? && !(q.value < r.value) && !(r.value < q.value);
      } else if e.0 == k {
        assert me[|m|].0 == k;
        assert q.Some? && !(q.value < |m|);
      } else {
        assert forall i :: 0 <= i < |me| ==> me[i].0 != k;
      }
    }
  }

  /** Lookup depends only on the keys, not on the values. */
  lemma SameKeysSameIndex(a: Entries, b: Entries)
    requires |a| == |b| && forall i :: 0 <= i < |a| ==> a[i].0 == b[i].0
    ensures forall k :: IndexOf(a, k) == IndexOf(b, k)
  {
    forall k ensures IndexOf(a, k) == IndexOf(b, k) {
      var ra, rb := IndexOf(a, k), IndexOf(b, k);
      IndexOfSpec(a, k);
      IndexOfSpec(b, k);
      if ra.Some? && rb.Some? {
        assert !(ra.value < rb.value) && !(rb.value < ra.value);
      }
    }
  }

  /** The sum of all values. */
  function Sum(m: Entries): nat
  {
    if m == [] then 0 else Sum(m[..|m| - 1]) + m[|m| - 1].1
  }

  /** Sum distributes over concatenation. */
  lemma {:induction false} SumAppend(a: Entries, b: Entries)
    ensures Sum(a + b) == Sum(a) + Sum(b)
    decreases |b|
  {
    if b == [] {
      assert a + b == a;
    } else {
      assert (a + b)[..|a + b| - 1] == a + b[..|b| - 1];
      SumAppend(a, b[..|b| - 1]);
    }
  }

  /** Replacing one entry's value changes the sum by the difference. */
  lemma SumUpdate(m: Entries, i: nat, e: (string, nat))
    requires i < |m|
    ensures Sum(m[i := e]) == Sum(m) - m[i].1 + e.1
  {
    assert m == m[..i] + [m[i]] + m[i + 1..];
    assert m[i := e] == m[..i] + [e] + m[i + 1..];
    SumAppend(m[..i] + [m[i]], m[i + 1..]);
    SumAppend(m[..i] + [e], m[i + 1..]);
    SumAppend(m[..i], [m[i]]);
    SumAppend(m[..i], [e]);
  }

  /** Counting one more occurrence of k adds exactly one to the sum of the counts. */
  lemma IncrementSum(m: Entries, k: string)
    ensures Sum(Increment(m, k)) == Sum(m) + 1
  {
    var r := IndexOf(m, k);
    if r.None? {
      assert Increment(m, k) == m + [(k, 1)];
      SumAppend(m, [(k, 1)]);
      assert Sum([(k, 1)]) == Sum([]) + 1;
    } else {
      var i := r.value;
      assert Increment(m, k) == m[i := (k, m[i].1 + 1)];
      SumUpdate(m, i, (k, m[i].1 + 1));
    }
  }
}
