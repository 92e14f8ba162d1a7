/**
  The cross-query merge of both scrapers: walk the listings of every query in
  order and append a listing only if it has a key (a URL the merge accepts)
  that no listing appended earlier has. `key` returns `None` for a listing the
  merge never appends.

  `FirstSeen` is the reference definition (keep position i iff it has a key
  and no earlier position has the same key); `Merge` is the merge of one batch
  into the running output as the loops perform it, with the `seen` set taken to
  be the keys of that output. `MergeIsFirstSeen` ties the two together.
 */
module Dedup {
  import opened Wrappers

  /** The concatenation of the batches, in order. */
  function Flatten<T>(batches: seq<seq<T>>): seq<T>
  {
    if batches == [] then [] else Flatten(batches[..|batches| - 1]) + batches[|batches| - 1]
  }

  lemma FlattenSnoc<T>(batches: seq<seq<T>>, q: nat)
    requires q < |batches|
    ensures Flatten(batches[..q + 1]) == Flatten(batches[..q]) + batches[q]
  {
    assert batches[..q + 1][..q] == batches[..q];
  }

  function KeyOf<T, K(==)>(x: T, key: T -> Option<K>): set<K>
  {
    match key(x)
    case Some(k) => {k}
    case None => {}
  }

  /** The keys of the elements of `s`. */
  function KeySet<T, K(==)>(s: seq<T>, key: T -> Option<K>): set<K>
  {
    if s == [] then {} else KeySet(s[..|s| - 1], key) + KeyOf(s[|s| - 1], key)
  }

  lemma {:induction false} KeySetMembers<T, K>(s: seq<T>, key: T -> Option<K>, k: K)
    ensures k in KeySet(s, key) <==> exists i :: 0 <= i < |s| && key(s[i]) == Some(k)
  {
    if s != [] {
      var s' := s[..|s| - 1];
      KeySetMembers(s', key, k);
      assert forall i :: 0 <= i < |s'| ==> s'[i] == s[i];
    }
  }

  lemma {:induction false} KeySetAppend<T, K>(s: seq<T>, t: seq<T>, key: T -> Option<K>)
    ensures KeySet(s + t, key) == KeySet(s, key) + KeySet(t, key)
  {
    if t == [] {
      assert s + t == s;
    } else {
      assert (s + t)[..|s + t| - 1] == s + t[..|t| - 1];
      KeySetAppend(s, t[..|t| - 1], key);
    }
  }

  /** Position i is the first occurrence of a key. */
  predicate IsFirst<T, K(==)>(s: seq<T>, i: nat, key: T -> Option<K>)
    requires i < |s|
  {
    key(s[i]).Some? && forall j :: 0 <= j < i ==> key(s[j]) != key(s[i])
  }

  /** Reference definition: the elements at first occurrences of a key, in order. */
  function FirstSeen<T, K(==)>(s: seq<T>, key: T -> Option<K>): seq<T>
  {
    if s == [] then []
    else FirstSeen(s[..|s| - 1], key) + (if IsFirst(s, |s| - 1, key) then [s[|s| - 1]] else [])
  }

  /** The positions `FirstSeen` keeps. */
  function FirstIndices<T, K(==)>(s: seq<T>, key: T -> Option<K>): seq<nat>
  {
    if s == [] then []
    else FirstIndices(s[..|s| - 1], key) + (if IsFirst(s, |s| - 1, key) then [|s| - 1] else [])
  }

  /** Every element has a key and no two elements share one. */
  predicate Deduplicated<T, K(==)>(s: seq<T>, key: T -> Option<K>)
  {
    && (forall i :: 0 <= i < |s| ==> key(s[i]).Some?)
    && (forall i, j :: 0 <= i < j < |s| ==> key(s[i]) != key(s[j]))
  }

  /** One step of the merge loop: append `x` iff it has a key not yet present;
      the keys present afterwards are the old ones and the key of `x`. */
  function Step<T, K(==)>(acc: seq<T>, x: T, key: T -> Option<K>): (r: seq<T>)
    ensures r == acc || r == acc + [x]
    ensures r == acc + [x] <==> key(x).Some? && key(x).value !in KeySet(acc, key)
    ensures KeySet(r, key) == KeySet(acc, key) + KeyOf(x, key)
  {
    match key(x)
    case Some(k) => if k in KeySet(acc, key) then acc else acc + [x]
    case None => acc
  }

  /** The merge of one batch into the running output: the output only grows
      at its end, by at most one element per element of the batch, and every
      element it appends comes from the batch. */
  function Merge<T, K(==)>(acc: seq<T>, batch: seq<T>, key: T -> Option<K>): (r: seq<T>)
    ensures acc <= r
    ensures |r| <= |acc| + |batch|
    ensures forall i :: |acc| <= i < |r| ==> r[i] in batch
  {
    if batch == [] then acc else Step(Merge(acc, batch[..|batch| - 1], key), batch[|batch| - 1], key)
  }

  /** The last position of `s + [x]` is a first occurrence iff `x` has a key
      that `s` does not hold. */
  lemma IsFirstLast<T, K>(s: seq<T>, x: T, key: T -> Option<K>)
    ensures IsFirst(s + [x], |s|, key) <==> key(x).Some? && key(x).value !in KeySet(s, key)
  {
    if key(x).Some? {
      KeySetMembers(s, key, key(x).value);
      assert forall j :: 0 <= j < |s| ==> (s + [x])[j] == s[j];
    }
  }

  /** The output holds exactly the keys of the input. */
  lemma {:induction false} FirstSeenKeys<T, K>(s: seq<T>, key: T -> Option<K>)
    ensures KeySet(FirstSeen(s, key), key) == KeySet(s, key)
  {
    if s != [] {
      var s', x := s[..|s| - 1], s[|s| - 1];
      FirstSeenKeys(s', key);
      assert s == s' + [x];
      IsFirstLast(s', x, key);
      KeySetAppend(FirstSeen(s', key), if IsFirst(s, |s| - 1, key) then [x] else [], key);
      assert KeySet([x], key) == KeyOf(x, key) by { assert [x][..0] == []; }
    }
  }

  /** One more input element changes the output as one step of the merge loop does. */
  lemma FirstSeenSnoc<T, K>(s: seq<T>, x: T, key: T -> Option<K>)
    ensures FirstSeen(s + [x], key) == Step(FirstSeen(s, key), x, key)
  {
    assert (s + [x])[..|s|] == s;
    IsFirstLast(s, x, key);
    FirstSeenKeys(s, key);
  }

  /** Merging a batch into the first-seen output of `p` gives the first-seen
      output of `p` followed by the batch: the loop implements the reference. */
  lemma {:induction false} MergeIsFirstSeen<T, K>(p: seq<T>, batch: seq<T>, key: T -> Option<K>)
    ensures Merge(FirstSeen(p, key), batch, key) == FirstSeen(p + batch, key)
  {
    if batch == [] {
      assert p + batch == p;
    } else {
      var b', x := batch[..|batch| - 1], batch[|batch| - 1];
      MergeIsFirstSeen(p, b', key);
      FirstSeenSnoc(p + b', x, key);
      assert p + batch == (p + b') + [x];
    }
  }

  /** The first-seen output has one element per key and every element has a key. */
  lemma {:induction false} FirstSeenDeduplicated<T, K>(s: seq<T>, key: T -> Option<K>)
    ensures Deduplicated(FirstSeen(s, key), key)
  {
    if s != [] {
      var s', x := s[..|s| - 1], s[|s| - 1];
      FirstSeenDeduplicated(s', key);
      FirstSeenKeys(s', key);
      assert s == s' + [x];
      IsFirstLast(s', x, key);
      var r' := FirstSeen(s', key);
      if IsFirst(s, |s| - 1, key) {
        forall i | 0 <= i < |r'| ensures key(r'[i]) != key(x) {
          KeySetMembers(r', key, key(r'[i]).value);
        }
      }
    }
  }

  /** Order and identity: the output lists the input elements at the first
      occurrences of their keys, in input order, and every first occurrence is
      listed; so the first element with a given key is the one that wins. */
  lemma {:induction false} FirstSeenIndexed<T, K>(s: seq<T>, key: T -> Option<K>)
    ensures |FirstIndices(s, key)| == |FirstSeen(s, key)|
    ensures forall k :: 0 <= k < |FirstIndices(s, key)| ==>
              FirstIndices(s, key)[k] < |s| && s[FirstIndices(s, key)[k]] == FirstSeen(s, key)[k]
    ensures forall k, l :: 0 <= k < l < |FirstIndices(s, key)| ==>
              FirstIndices(s, key)[k] < FirstIndices(s, key)[l]
    ensures forall i :: 0 <= i < |s| ==> (IsFirst(s, i, key) <==> i in FirstIndices(s, key))
  {
    if s != [] {
      var s' := s[..|s| - 1];
      FirstSeenIndexed(s', key);
      assert forall i :: 0 <= i < |s'| ==> s'[i] == s[i];
      forall i | 0 <= i < |s'| ensures IsFirst(s', i, key) <==> IsFirst(s, i, key) {
      }
    }
  }

  /** The keys of a merge are the keys of both inputs. */
  lemma {:induction false} MergeKeys<T, K>(acc: seq<T>, batch: seq<T>, key: T -> Option<K>)
    ensures KeySet(Merge(acc, batch, key), key) == KeySet(acc, key) + KeySet(batch, key)
  {
    if batch != [] {
      var b', x := batch[..|batch| - 1], batch[|batch| - 1];
      MergeKeys(acc, b', key);
      var m := Merge(acc, b', key);
      if key(x).Some? && key(x).value !in KeySet(m, key) {
        assert (m + [x])[..|m|] == m;
      }
    }
  }

  /** A batch whose keys are all present already adds nothing. */
  lemma {:induction false} MergeAbsorbed<T, K>(acc: seq<T>, batch: seq<T>, key: T -> Option<K>)
    requires KeySet(batch, key) <= KeySet(acc, key)
    ensures Merge(acc, batch, key) == acc
  {
    if batch != [] {
      var b', x := batch[..|batch| - 1], batch[|batch| - 1];
      MergeAbsorbed(acc, b', key);
    }
  }

  /** Merging the same batch a second time changes nothing. */
  lemma MergeIdempotent<T, K>(acc: seq<T>, batch: seq<T>, key: T -> Option<K>)
    ensures Merge(Merge(acc, batch, key), batch, key) == Merge(acc, batch, key)
  {
    MergeKeys(acc, batch, key);
    MergeAbsorbed(Merge(acc, batch, key), batch, key);
  }

  /** A merge appends one element per key of the batch that was not yet present. */
  lemma {:induction false} MergeCount<T, K>(acc: seq<T>, batch: seq<T>, key: T -> Option<K>)
    ensures |Merge(acc, batch, key)| == |acc| + |KeySet(batch, key) - KeySet(acc, key)|
  {
    if batch != [] {
      var b', x := batch[..|batch| - 1], batch[|batch| - 1];
      MergeCount(acc, b', key);
      MergeKeys(acc, b', key);
      var m := Merge(acc, b', key);
      var old_new := KeySet(b', key) - KeySet(acc, key);
      var now_new := KeySet(batch, key) - KeySet(acc, key);
      match key(x)
      case None =>
        assert now_new == old_new;
      case Some(k) =>
        if k in KeySet(m, key) {
          assert now_new == old_new;
        } else {
          assert now_new == old_new + {k};
          assert k !in old_new;
        }
    }
  }

  /** A deduplicated sequence has as many keys as elements: the size of the
      `seen` set equals the length of the output. */
  lemma {:induction false} DeduplicatedCount<T, K>(s: seq<T>, key: T -> Option<K>)
    requires Deduplicated(s, key)
    ensures |KeySet(s, key)| == |s|
  {
    if s != [] {
      var s', x := s[..|s| - 1], s[|s| - 1];
      assert Deduplicated(s', key);
      DeduplicatedCount(s', key);
      KeySetMembers(s', key, key(x).value);
      assert key(x).value !in KeySet(s', key);
    }
  }

  /** Merging batch q into the output of the batches before it gives the output
      of the batches up to q, and appends one element per key of batch q that
      no earlier batch held. */
  lemma MergeNextBatch<T, K>(batches: seq<seq<T>>, q: nat, key: T -> Option<K>)
    requires q < |batches|
    ensures var prior := FirstSeen(Flatten(batches[..q]), key);
            var merged := Merge(prior, batches[q], key);
            && merged == FirstSeen(Flatten(batches[..q + 1]), key)
            && |merged| == |prior| + |KeySet(batches[q], key) - KeySet(Flatten(batches[..q]), key)|
  {
    var p := Flatten(batches[..q]);
    MergeIsFirstSeen(p, batches[q], key);
    FlattenSnoc(batches, q);
    MergeCount(FirstSeen(p, key), batches[q], key);
    FirstSeenKeys(p, key);
  }
}
