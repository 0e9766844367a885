/**
 * First-wins de-duplication of a sequence by a key, and order-preserving
 * subsequences. Anchor merging de-duplicates by tag and rule retrieval by
 * chunk id; both keep the first element of each key and drop later ones.
 */
module Dedup {

  /** The keys of `xs`. */
  function Keys<T, K>(xs: seq<T>, key: T -> K): set<K> {
    set i | 0 <= i < |xs| :: key(xs[i])
  }

  predicate DistinctKeys<T, K(==)>(xs: seq<T>, key: T -> K) {
    forall i, j :: 0 <= i < j < |xs| ==> key(xs[i]) != key(xs[j])
  }

  /** `xs[i]` is the first element of `xs` with its key. */
  predicate FirstOfKey<T, K(==)>(xs: seq<T>, key: T -> K, i: int) {
    0 <= i < |xs| && forall j :: 0 <= j < i ==> key(xs[j]) != key(xs[i])
  }

  /** Keep an element only if no earlier kept element has its key. */
  function DedupBy<T, K(==)>(xs: seq<T>, key: T -> K): seq<T>
    decreases |xs|
  {
    if |xs| == 0 then []
    else
      var d := DedupBy(xs[..|xs| - 1], key);
      if key(xs[|xs| - 1]) in Keys(d, key) then d else d + [xs[|xs| - 1]]
  }

  lemma KeysAppend<T, K>(xs: seq<T>, x: T, key: T -> K)
    ensures Keys(xs + [x], key) == Keys(xs, key) + {key(x)}
  {
    assert (xs + [x])[|xs|] == x;
    forall k | k in Keys(xs, key)
      ensures k in Keys(xs + [x], key)
    {
      var i :| 0 <= i < |xs| && key(xs[i]) == k;
      assert (xs + [x])[i] == xs[i];
    }
  }

  /** The result's keys are pairwise distinct and are exactly the input's keys. */
  lemma {:induction false} DedupKeys<T, K>(xs: seq<T>, key: T -> K)
    ensures DistinctKeys(DedupBy(xs, key), key)
    ensures Keys(DedupBy(xs, key), key) == Keys(xs, key)
    decreases |xs|
  {
    if |xs| > 0 {
      var init := xs[..|xs| - 1];
      var last := xs[|xs| - 1];
      DedupKeys(init, key);
      KeysAppend(init, last, key);
      assert init + [last] == xs;
      var d := DedupBy(init, key);
      if key(last) !in Keys(d, key) {
        KeysAppend(d, last, key);
        forall j | 0 <= j < |d|
          ensures key(d[j]) != key(last)
        {
          assert key(d[j]) in Keys(d, key);
        }
      }
    }
  }

  /** `kept[k]` is the first element of its key in `xs`. */
  ghost predicate KeptIsFirst<T, K>(xs: seq<T>, key: T -> K, kept: seq<T>, k: int)
    requires 0 <= k < |kept|
  {
    exists i :: 0 <= i < |xs| && FirstOfKey(xs, key, i) && kept[k] == xs[i]
  }

  /** Each kept element is the first of its key in the input. */
  lemma {:induction false} DedupKeepsOnlyFirsts<T, K>(xs: seq<T>, key: T -> K)
    ensures forall k :: 0 <= k < |DedupBy(xs, key)| ==> KeptIsFirst(xs, key, DedupBy(xs, key), k)
    decreases |xs|
  {
    if |xs| > 0 {
      var init := xs[..|xs| - 1];
      var last := xs[|xs| - 1];
      DedupKeepsOnlyFirsts(init, key);
      DedupKeys(init, key);
      var d := DedupBy(init, key);
      var r := DedupBy(xs, key);
      forall k | 0 <= k < |r|
        ensures KeptIsFirst(xs, key, r, k)
      {
        if k < |d| {
          assert KeptIsFirst(init, key, d, k);
          var i :| 0 <= i < |init| && FirstOfKey(init, key, i) && d[k] == init[i];
          assert r[k] == d[k];
          assert forall j :: 0 <= j < |init| ==> xs[j] == init[j];
          assert FirstOfKey(xs, key, i) && xs[i] == init[i];
        } else {
          assert key(last) !in Keys(init, key);
          assert r == d + [last];
          forall j | 0 <= j < |xs| - 1
            ensures key(xs[j]) != key(last)
          {
            assert xs[j] == init[j];
            assert key(init[j]) in Keys(init, key);
          }
          assert FirstOfKey(xs, key, |xs| - 1) && r[k] == xs[|xs| - 1];
        }
      }
    } else {
      assert DedupBy(xs, key) == [];
    }
  }

  /** Each first element of a key in the input is kept. */
  lemma {:induction false} DedupKeepsAllFirsts<T, K>(xs: seq<T>, key: T -> K)
    ensures forall i :: FirstOfKey(xs, key, i) ==> xs[i] in DedupBy(xs, key)
    decreases |xs|
  {
    if |xs| > 0 {
      var init := xs[..|xs| - 1];
      var last := xs[|xs| - 1];
      DedupKeepsAllFirsts(init, key);
      DedupKeys(init, key);
      forall i | FirstOfKey(xs, key, i)
        ensures xs[i] in DedupBy(xs, key)
      {
        if i < |xs| - 1 {
          assert FirstOfKey(init, key, i) by {
            forall j | 0 <= j < i ensures key(init[j]) != key(init[i]) {
              assert init[j] == xs[j];
            }
          }
        } else {
          forall k | k in Keys(init, key)
            ensures k != key(last)
          {
            var j :| 0 <= j < |init| && key(init[j]) == k;
            assert init[j] == xs[j];
          }
        }
      }
    }
  }

  /** A sequence whose keys are already distinct is left as it is. */
  lemma {:induction false} DedupDistinct<T, K>(xs: seq<T>, key: T -> K)
    requires DistinctKeys(xs, key)
    ensures DedupBy(xs, key) == xs
    decreases |xs|
  {
    if |xs| > 0 {
      var init := xs[..|xs| - 1];
      DistinctInit(xs, key);
      DedupDistinct(init, key);
      DedupFreshLast(xs, key);
    }
  }

  /** Dropping the last element keeps the keys distinct, and the last key is not among the others. */
  lemma DistinctInit<T, K>(xs: seq<T>, key: T -> K)
    requires DistinctKeys(xs, key) && |xs| > 0
    ensures DistinctKeys(xs[..|xs| - 1], key)
    ensures key(xs[|xs| - 1]) !in Keys(xs[..|xs| - 1], key)
  {
    var init := xs[..|xs| - 1];
    assert forall i :: 0 <= i < |init| ==> init[i] == xs[i];
    forall k | k in Keys(init, key)
      ensures k != key(xs[|xs| - 1])
    {
      var j :| 0 <= j < |init| && key(init[j]) == k;
      assert init[j] == xs[j];
    }
  }

  /** A last element whose key is new is appended. */
  lemma DedupFreshLast<T, K>(xs: seq<T>, key: T -> K)
    requires |xs| > 0 && DedupBy(xs[..|xs| - 1], key) == xs[..|xs| - 1]
    requires key(xs[|xs| - 1]) !in Keys(xs[..|xs| - 1], key)
    ensures DedupBy(xs, key) == xs
  {
    var init := xs[..|xs| - 1];
    var last := xs[|xs| - 1];
    assert DedupBy(xs, key) == init + [last];
    assert init + [last] == xs;
  }

  /** De-duplicating twice is de-duplicating once. */
  lemma DedupIdempotent<T, K>(xs: seq<T>, key: T -> K)
    ensures DedupBy(DedupBy(xs, key), key) == DedupBy(xs, key)
  {
    DedupKeys(xs, key);
    DedupDistinct(DedupBy(xs, key), key);
  }

  // ---------------------------------------------------------------------------
  // Order-preserving subsequences

  /** `xs` is `ys` at the strictly increasing positions `idx`. */
  ghost predicate SubseqAt<T>(xs: seq<T>, ys: seq<T>, idx: seq<int>) {
    |idx| == |xs|
    && (forall k :: 0 <= k < |idx| ==> 0 <= idx[k] < |ys| && xs[k] == ys[idx[k]])
    && (forall k, l :: 0 <= k < l < |idx| ==> idx[k] < idx[l])
  }

  /** `xs` keeps some elements of `ys`, in their order. */
  ghost predicate IsSubsequence<T>(xs: seq<T>, ys: seq<T>) {
    exists idx :: SubseqAt(xs, ys, idx)
  }

  lemma SubseqCompose<T>(xs: seq<T>, ys: seq<T>, zs: seq<T>)
    requires IsSubsequence(xs, ys) && IsSubsequence(ys, zs)
    ensures IsSubsequence(xs, zs)
  {
    var i1 :| SubseqAt(xs, ys, i1);
    var i2 :| SubseqAt(ys, zs, i2);
    var idx := seq(|i1|, k requires 0 <= k < |i1| => i2[i1[k]]);
    assert SubseqAt(xs, zs, idx);
  }

  lemma SubseqPrefix<T>(xs: seq<T>, n: nat)
    requires n <= |xs|
    ensures IsSubsequence(xs[..n], xs)
  {
    var idx := seq(n, k requires 0 <= k < n => k);
    assert SubseqAt(xs[..n], xs, idx);
  }

  /** Extending a subsequence with a new last element of the longer sequence. */
  lemma SubseqSnoc<T>(xs: seq<T>, ys: seq<T>, idx: seq<int>, y: T)
    requires SubseqAt(xs, ys, idx)
    ensures SubseqAt(xs + [y], ys + [y], idx + [|ys|])
  {
  }

  lemma SubseqExtend<T>(xs: seq<T>, ys: seq<T>, idx: seq<int>, y: T)
    requires SubseqAt(xs, ys, idx)
    ensures SubseqAt(xs, ys + [y], idx)
  {
  }

  /** De-duplication keeps an order-preserving subsequence of its input. */
  lemma {:induction false} DedupSubsequence<T, K>(xs: seq<T>, key: T -> K) returns (idx: seq<int>)
    ensures SubseqAt(DedupBy(xs, key), xs, idx)
    decreases |xs|
  {
    if |xs| == 0 {
      idx := [];
    } else {
      var init := xs[..|xs| - 1];
      var last := xs[|xs| - 1];
      idx := DedupSubsequence(init, key);
      assert init + [last] == xs;
      if key(last) in Keys(DedupBy(init, key), key) {
        SubseqExtend(DedupBy(init, key), init, idx, last);
      } else {
        SubseqSnoc(DedupBy(init, key), init, idx, last);
        idx := idx + [|init|];
      }
    }
  }

  /** Every kept element is an element of the input. */
  lemma DedupMember<T, K>(xs: seq<T>, key: T -> K, a: T)
    requires a in DedupBy(xs, key)
    ensures a in xs
  {
    var idx := DedupSubsequence(xs, key);
    var k :| 0 <= k < |DedupBy(xs, key)| && DedupBy(xs, key)[k] == a;
    assert a == xs[idx[k]];
  }

  /**
   * The loop both de-duplicating operations run: append each element of `xs`
   * whose key is not yet in `seen`, and record its key.
   */
  method DedupOnto<T, K(==)>(acc: seq<T>, seen: set<K>, ghost done: seq<T>, xs: seq<T>, key: T -> K)
    returns (acc': seq<T>, seen': set<K>)
    requires acc == DedupBy(done, key) && seen == Keys(acc, key)
    ensures acc' == DedupBy(done + xs, key) && seen' == Keys(acc', key)
  {
    acc', seen' := acc, seen;
    assert done + xs[..0] == done;
    for i := 0 to |xs|
      invariant acc' == DedupBy(done + xs[..i], key) && seen' == Keys(acc', key)
    {
      assert done + xs[..i + 1] == (done + xs[..i]) + [xs[i]];
      assert (done + xs[..i + 1])[..|done + xs[..i + 1]| - 1] == done + xs[..i];
      var x := xs[i];
      if key(x) !in seen' {
        KeysAppend(acc', x, key);
        acc' := acc' + [x];
        seen' := seen' + {key(x)};
      }
    }
    assert xs[..|xs|] == xs;
  }
}
