/**
 * PHP arrays with string keys: ordered dictionaries. An array is a sequence
 * of key/value entries in iteration order; a well-formed one has distinct
 * keys.
 */
module PhpArrays {
  import opened Wrappers
  import opened ByteStrings

  type Entry = (Bytes, Bytes)

  type Params = seq<Entry>

  /** The keys in iteration order. */
  function Keys(ps: Params): (ks: seq<Bytes>)
    ensures |ks| == |ps|
    ensures forall i :: 0 <= i < |ps| ==> ks[i] == ps[i].0
  {
    seq(|ps|, i requires 0 <= i < |ps| => ps[i].0)
  }

  /** No key occurs twice, as in every PHP array. */
  predicate DistinctKeys(ps: Params) {
    forall i, j :: 0 <= i < j < |ps| ==> ps[i].0 != ps[j].0
  }

  lemma KeysOfTail(ps: Params)
    requires |ps| > 0
    ensures Keys(ps) == [ps[0].0] + Keys(ps[1..])
  {
  }

  /** `$ps[k]`, or `None` when `isset($ps[k])` is false. */
  function Lookup(ps: Params, k: Bytes): Option<Bytes>
  {
    if |ps| == 0 then None
    else if ps[0].0 == k then Some(ps[0].1)
    else Lookup(ps[1..], k)
  }

  /** A key is found exactly when it is one of the keys. */
  lemma {:induction false} LookupFound(ps: Params, k: Bytes)
    ensures Lookup(ps, k).Some? <==> k in Keys(ps)
  {
    if |ps| > 0 {
      KeysOfTail(ps);
      LookupFound(ps[1..], k);
    }
  }

  /** In a well-formed array the key of each entry finds that entry's value. */
  lemma {:induction false} LookupAt(ps: Params, i: nat)
    requires DistinctKeys(ps) && i < |ps|
    ensures Lookup(ps, ps[i].0) == Some(ps[i].1)
  {
    if i > 0 {
      LookupAt(ps[1..], i - 1);
    }
  }

  /**
   * `$ps[k] = v`: an existing key keeps its position and takes the new value;
   * a new key is appended at the end.
   */
  function Put(ps: Params, k: Bytes, v: Bytes): (r: Params)
    ensures |r| == |ps| || |r| == |ps| + 1
  {
    if |ps| == 0 then [(k, v)]
    else if ps[0].0 == k then [(k, v)] + ps[1..]
    else [ps[0]] + Put(ps[1..], k, v)
  }

  /** After `$ps[k] = v`, `k` finds `v` and every other key what it found before. */
  lemma {:induction false} LookupPut(ps: Params, k: Bytes, v: Bytes, k': Bytes)
    ensures Lookup(Put(ps, k, v), k') == if k' == k then Some(v) else Lookup(ps, k')
  {
    if |ps| > 0 && ps[0].0 != k {
      LookupPut(ps[1..], k, v, k');
    }
  }

  /** An existing key keeps its place; a new key goes to the end. */
  lemma {:induction false} KeysPut(ps: Params, k: Bytes, v: Bytes)
    ensures Keys(Put(ps, k, v)) == if k in Keys(ps) then Keys(ps) else Keys(ps) + [k]
    ensures k !in Keys(ps) ==> Put(ps, k, v) == ps + [(k, v)]
  {
    if |ps| > 0 {
      var r := Put(ps, k, v);
      KeysOfTail(ps);
      KeysOfTail(r);
      if ps[0].0 == k {
        assert r[1..] == ps[1..];
      } else {
        var t := ps[1..];
        assert r[1..] == Put(t, k, v);
        KeysPut(t, k, v);
        assert (k in Keys(ps)) == (k in Keys(t));
        if k !in Keys(t) {
          assert Keys(ps) + [k] == [ps[0].0] + (Keys(t) + [k]);
          assert ps + [(k, v)] == [ps[0]] + (t + [(k, v)]);
        }
      }
    }
  }


  /** Two arrays with the same key sequence are both well formed or both not. */
  lemma DistinctKeysByKeys(ps: Params, qs: Params)
    requires Keys(ps) == Keys(qs)
    requires DistinctKeys(ps)
    ensures DistinctKeys(qs)
  {
    forall i, j | 0 <= i < j < |qs| ensures qs[i].0 != qs[j].0 {
      assert Keys(qs)[i] == ps[i].0 && Keys(qs)[j] == ps[j].0;
    }
  }

  lemma DistinctPut(ps: Params, k: Bytes, v: Bytes)
    requires DistinctKeys(ps)
    ensures DistinctKeys(Put(ps, k, v))
  {
    KeysPut(ps, k, v);
    if k in Keys(ps) {
      DistinctKeysByKeys(ps, Put(ps, k, v));
    }
  }

  /** `unset($ps[k])`: the entry for `k` is dropped, the others keep their order. */
  function Remove(ps: Params, k: Bytes): (r: Params)
    ensures |r| <= |ps|
  {
    if |ps| == 0 then []
    else if ps[0].0 == k then Remove(ps[1..], k)
    else [ps[0]] + Remove(ps[1..], k)
  }

  /** After `unset($ps[k])`, `k` is gone and every other key finds what it found before. */
  lemma {:induction false} LookupRemove(ps: Params, k: Bytes, k': Bytes)
    ensures Lookup(Remove(ps, k), k') == if k' == k then None else Lookup(ps, k')
  {
    if |ps| > 0 {
      LookupRemove(ps[1..], k, k');
    }
  }

  /** The tail of a well-formed array is well formed and lacks the head's key. */
  lemma DistinctTail(ps: Params)
    requires DistinctKeys(ps) && |ps| > 0
    ensures DistinctKeys(ps[1..]) && ps[0].0 !in Keys(ps[1..])
  {
    var t := ps[1..];
    forall j | 0 <= j < |t| ensures t[j].0 != ps[0].0 {
      assert t[j] == ps[j + 1];
    }
    forall i, j | 0 <= i < j < |t| ensures t[i].0 != t[j].0 {
      assert t[i] == ps[i + 1] && t[j] == ps[j + 1];
    }
  }

  /** The position of key `k`: its first entry. */
  function IndexOfKey(ps: Params, k: Bytes): (i: nat)
    requires k in Keys(ps)
    ensures i < |ps| && ps[i].0 == k
    ensures forall j :: 0 <= j < i ==> ps[j].0 != k
  {
    KeysOfTail(ps);
    if ps[0].0 == k then 0 else 1 + IndexOfKey(ps[1..], k)
  }

  /**
   * In a well-formed array `unset` of a present key drops exactly the entry
   * at that key's position; the entries before and after it stay, in order.
   */
  lemma {:induction false} RemoveDropsOneEntry(ps: Params, k: Bytes)
    requires DistinctKeys(ps) && k in Keys(ps)
    ensures var i := IndexOfKey(ps, k); Remove(ps, k) == ps[..i] + ps[i + 1..]
  {
    var t := ps[1..];
    KeysOfTail(ps);
    if ps[0].0 == k {
      DistinctTail(ps);
      RemoveAbsent(t, k);
      assert ps[..0] + ps[1..] == t;
    } else {
      RemovePastHead(ps, k);
      DistinctTail(ps);
      RemoveDropsOneEntry(t, k);
      SplitAroundShift(ps, IndexOfKey(t, k));
    }
  }

  /** Past a head entry with another key, both `unset` and the key's position step over it. */
  lemma RemovePastHead(ps: Params, k: Bytes)
    requires |ps| > 0 && ps[0].0 != k && k in Keys(ps)
    ensures k in Keys(ps[1..])
    ensures Remove(ps, k) == [ps[0]] + Remove(ps[1..], k)
    ensures IndexOfKey(ps, k) == IndexOfKey(ps[1..], k) + 1
  {
    KeysOfTail(ps);
  }

  lemma SplitAroundShift(ps: Params, i: nat)
    requires i + 1 < |ps|
    ensures [ps[0]] + (ps[1..][..i] + ps[1..][i + 1..]) == ps[..i + 1] + ps[i + 2..]
  {
    assert [ps[0]] + ps[1..][..i] == ps[..i + 1];
    assert ps[1..][i + 1..] == ps[i + 2..];
  }

  lemma {:induction false} DistinctRemove(ps: Params, k: Bytes)
    requires DistinctKeys(ps)
    ensures DistinctKeys(Remove(ps, k))
  {
    if |ps| > 0 {
      DistinctRemove(ps[1..], k);
      if ps[0].0 != k {
        var t := Remove(ps[1..], k);
        KeysOfTail(ps);
        LookupRemove(ps[1..], k, ps[0].0);
        LookupFound(ps[1..], ps[0].0);
        LookupFound(t, ps[0].0);
        forall j | 0 <= j < |t| ensures t[j].0 != ps[0].0 {
          assert Keys(t)[j] == t[j].0;
        }
      }
    }
  }

  /** Removing an absent key changes nothing. */
  lemma {:induction false} RemoveAbsent(ps: Params, k: Bytes)
    requires k !in Keys(ps)
    ensures Remove(ps, k) == ps
  {
    if |ps| > 0 {
      KeysOfTail(ps);
      RemoveAbsent(ps[1..], k);
    }
  }

  /** `array_merge(a, b)` for string keys: the entries of `b` are put into `a` in order. */
  function Merge(a: Params, b: Params): (r: Params)
    ensures |a| <= |r|
    decreases |b|
  {
    if |b| == 0 then a else Merge(Put(a, b[0].0, b[0].1), b[1..])
  }

  /** On a key of `b` the merge gives `b`'s value, on any other key `a`'s. */
  lemma {:induction false} LookupMerge(a: Params, b: Params, k: Bytes)
    requires DistinctKeys(b)
    ensures Lookup(Merge(a, b), k) == if k in Keys(b) then Lookup(b, k) else Lookup(a, k)
    decreases |b|
  {
    if |b| > 0 {
      var a' := Put(a, b[0].0, b[0].1);
      KeysOfTail(b);
      LookupMerge(a', b[1..], k);
      LookupPut(a, b[0].0, b[0].1, k);
      if k == b[0].0 {
        assert k !in Keys(b[1..]);
      }
    }
  }

  /** The keys of `a` come first, in their order. */
  lemma {:induction false} MergeKeepsKeysOfFirst(a: Params, b: Params)
    ensures |a| <= |Merge(a, b)| && Keys(Merge(a, b))[..|a|] == Keys(a)
    decreases |b|
  {
    if |b| > 0 {
      var a' := Put(a, b[0].0, b[0].1);
      KeysPut(a, b[0].0, b[0].1);
      MergeKeepsKeysOfFirst(a', b[1..]);
      assert Keys(a')[..|a|] == Keys(a);
      assert Keys(Merge(a, b))[..|a|] == Keys(Merge(a, b))[..|a'|][..|a|];
    }
  }

  /** The keys of `b` that `ks` does not hold, in `b`'s order. */
  function KeysNotIn(b: Params, ks: seq<Bytes>): seq<Bytes>
  {
    if |b| == 0 then []
    else (if b[0].0 in ks then [] else [b[0].0]) + KeysNotIn(b[1..], ks)
  }

  lemma {:induction false} KeysNotInIgnoresOtherKey(b: Params, ks: seq<Bytes>, x: Bytes)
    requires x !in Keys(b)
    ensures KeysNotIn(b, ks + [x]) == KeysNotIn(b, ks)
  {
    if |b| > 0 {
      KeysOfTail(b);
      KeysNotInIgnoresOtherKey(b[1..], ks, x);
    }
  }

  /**
   * The merge holds the keys of `a` in their order, followed by the keys of
   * `b` that `a` did not hold, in `b`'s order.
   */
  lemma {:induction false} MergeKeyOrder(a: Params, b: Params)
    requires DistinctKeys(b)
    ensures Keys(Merge(a, b)) == Keys(a) + KeysNotIn(b, Keys(a))
    decreases |b|
  {
    if |b| > 0 {
      var a' := Put(a, b[0].0, b[0].1);
      assert Merge(a, b) == Merge(a', b[1..]);
      DistinctTail(b);
      MergeKeyOrder(a', b[1..]);
      PutHeadKeys(a, b);
    }
  }

  /** Putting the head of `b` into `a` moves its key, if new, from the tail part to `a`'s part. */
  lemma PutHeadKeys(a: Params, b: Params)
    requires DistinctKeys(b) && |b| > 0
    ensures var a' := Put(a, b[0].0, b[0].1);
      Keys(a') + KeysNotIn(b[1..], Keys(a')) == Keys(a) + KeysNotIn(b, Keys(a))
  {
    var x := b[0].0;
    var ka := Keys(a);
    KeysPut(a, x, b[0].1);
    if x in ka {
      assert KeysNotIn(b, ka) == KeysNotIn(b[1..], ka);
    } else {
      DistinctTail(b);
      PutNewHeadKeys(ka, b);
    }
  }

  /** The case of `PutHeadKeys` where the head key is new to `a` (whose keys are `ka`). */
  lemma PutNewHeadKeys(ka: seq<Bytes>, b: Params)
    requires |b| > 0 && b[0].0 !in ka && b[0].0 !in Keys(b[1..])
    ensures ka + [b[0].0] + KeysNotIn(b[1..], ka + [b[0].0]) == ka + KeysNotIn(b, ka)
  {
    var x, t := b[0].0, b[1..];
    var rest := KeysNotIn(t, ka);
    assert KeysNotIn(b, ka) == [x] + rest;
    KeysNotInIgnoresOtherKey(t, ka, x);
    assert ka + [x] + rest == ka + ([x] + rest);
  }




  lemma {:induction false} DistinctMerge(a: Params, b: Params)
    requires DistinctKeys(a)
    ensures DistinctKeys(Merge(a, b))
    decreases |b|
  {
    if |b| > 0 {
      DistinctPut(a, b[0].0, b[0].1);
      DistinctMerge(Put(a, b[0].0, b[0].1), b[1..]);
    }
  }

  /** The keys are in strictly increasing `strcmp` order. */
  predicate StrictlySorted(ps: Params) {
    forall i, j :: 0 <= i < j < |ps| ==> StrLess(ps[i].0, ps[j].0)
  }

  function InsertByKey(e: Entry, sorted: Params): (r: Params)
    ensures multiset(r) == multiset(sorted) + multiset{e}
  {
    if |sorted| == 0 then [e]
    else if StrLess(e.0, sorted[0].0) then [e] + sorted
    else
      assert sorted == [sorted[0]] + sorted[1..];
      [sorted[0]] + InsertByKey(e, sorted[1..])
  }

  /** `uksort($ps, 'strcmp')`: the entries reordered by key. */
  function SortByKey(ps: Params): (r: Params)
    ensures multiset(r) == multiset(ps)
  {
    if |ps| == 0 then []
    else
      assert ps == [ps[0]] + ps[1..];
      InsertByKey(ps[0], SortByKey(ps[1..]))
  }

  lemma {:induction false} InsertKeepsSorted(e: Entry, s: Params)
    requires StrictlySorted(s)
    requires forall i :: 0 <= i < |s| ==> s[i].0 != e.0
    ensures StrictlySorted(InsertByKey(e, s))
  {
    if |s| > 0 {
      if StrLess(e.0, s[0].0) {
        forall j | 0 <= j < |s| ensures StrLess(e.0, s[j].0) {
          if j > 0 {
            StrLessTransitive(e.0, s[0].0, s[j].0);
          }
        }
      } else {
        StrLessTotal(e.0, s[0].0);
        InsertKeepsSorted(e, s[1..]);
        var tail := InsertByKey(e, s[1..]);
        forall j | 0 <= j < |tail| ensures StrLess(s[0].0, tail[j].0) {
          assert tail[j] in multiset(s[1..]) + multiset{e};
          if tail[j] != e {
            var m :| 1 <= m < |s| && s[m] == tail[j];
          }
        }
      }
    }
  }

  /** Sorting yields the same entries, in strictly increasing key order. */
  lemma {:induction false} SortByKeySorts(ps: Params)
    requires DistinctKeys(ps)
    ensures StrictlySorted(SortByKey(ps))
    ensures multiset(SortByKey(ps)) == multiset(ps)
  {
    if |ps| > 0 {
      SortByKeySorts(ps[1..]);
      var s := SortByKey(ps[1..]);
      forall i | 0 <= i < |s| ensures s[i].0 != ps[0].0 {
        assert s[i] in multiset(ps[1..]);
        var m :| 0 <= m < |ps[1..]| && ps[1..][m] == s[i];
        assert ps[m + 1] == s[i];
      }
      InsertKeepsSorted(ps[0], s);
    }
  }

  lemma SortedHeadsAgree(a: Params, b: Params)
    requires StrictlySorted(a) && StrictlySorted(b)
    requires multiset(a) == multiset(b)
    requires |a| > 0
    ensures |b| > 0 && a[0] == b[0]
  {
    assert a[0] in multiset(b);
    var i :| 0 <= i < |b| && b[i] == a[0];
    assert b[0] in multiset(a);
    var j :| 0 <= j < |a| && a[j] == b[0];
    if i != 0 && j != 0 {
      StrLessTransitive(a[0].0, a[j].0, a[0].0);
      StrLessIrreflexive(a[0].0);
    } else if i != 0 {
      StrLessIrreflexive(b[0].0);
    } else if j != 0 {
      StrLessIrreflexive(a[0].0);
    }
  }

  lemma TailsSameEntries(a: Params, b: Params)
    requires multiset(a) == multiset(b)
    requires |a| > 0 && |b| > 0 && a[0] == b[0]
    ensures multiset(a[1..]) == multiset(b[1..])
  {
    assert a == [a[0]] + a[1..] && b == [b[0]] + b[1..];
    assert multiset(a) == multiset{a[0]} + multiset(a[1..]);
    assert multiset(b) == multiset{b[0]} + multiset(b[1..]);
    var x, y := multiset(a[1..]), multiset(b[1..]);
    forall e ensures x[e] == y[e] {
      assert multiset(a)[e] == multiset{a[0]}[e] + x[e];
      assert multiset(b)[e] == multiset{a[0]}[e] + y[e];
    }
  }

  /** Two strictly sorted arrays with the same entries are the same array. */
  lemma {:induction false} SortedIsUnique(a: Params, b: Params)
    requires StrictlySorted(a) && StrictlySorted(b)
    requires multiset(a) == multiset(b)
    ensures a == b
  {
    if |a| == 0 {
      assert |b| == |multiset(b)| == 0;
    } else {
      SortedHeadsAgree(a, b);
      TailsSameEntries(a, b);
      SortedIsUnique(a[1..], b[1..]);
      assert a == [a[0]] + a[1..] && b == [b[0]] + b[1..];
    }
  }

  /** The sorted order depends only on the entries, not on their input order. */
  lemma SortByKeyOrderIndependent(p: Params, q: Params)
    requires DistinctKeys(p) && DistinctKeys(q)
    requires multiset(p) == multiset(q)
    ensures SortByKey(p) == SortByKey(q)
  {
    SortByKeySorts(p);
    SortByKeySorts(q);
    SortedIsUnique(SortByKey(p), SortByKey(q));
  }

  /** Sorting an already sorted array changes nothing. */
  lemma SortByKeyOfSorted(ps: Params)
    requires StrictlySorted(ps)
    ensures SortByKey(ps) == ps
  {
    forall i, j | 0 <= i < j < |ps| ensures ps[i].0 != ps[j].0 {
      StrLessIrreflexive(ps[i].0);
    }
    SortByKeySorts(ps);
    SortedIsUnique(SortByKey(ps), ps);
  }
}
