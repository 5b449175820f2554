/**
 * Order-preserving deduplication by a key: walk the sequence, keep an element
 * when its key has not been seen yet, and remember the key. Both scripts do
 * this with a Python set: load_terms on the terms themselves, the discovery
 * main loop on each item's trackId.
 */
module FirstSeen {

  /** The set of keys of the elements of s. */
  function Keys<T, K(==)>(s: seq<T>, key: T -> K): set<K> {
    if s == [] then {} else Keys(s[..|s| - 1], key) + {key(s[|s| - 1])}
  }

  lemma {:induction false} KeysMembership<T, K>(s: seq<T>, key: T -> K, k: K)
    ensures k in Keys(s, key) <==> exists i :: 0 <= i < |s| && key(s[i]) == k
  {
    if s != [] {
      var init := s[..|s| - 1];
      KeysMembership(init, key, k);
      assert forall i :: 0 <= i < |init| ==> init[i] == s[i];
    }
  }

  lemma KeysAppend<T, K>(s: seq<T>, x: T, key: T -> K)
    ensures Keys(s + [x], key) == Keys(s, key) + {key(x)}
  {
    assert (s + [x])[..|s|] == s;
  }

  /** The elements of s whose key has not occurred earlier, in their order in s. */
  function DedupBy<T, K(==)>(s: seq<T>, key: T -> K): seq<T> {
    if s == [] then []
    else
      var init := s[..|s| - 1];
      var x := s[|s| - 1];
      if key(x) in Keys(init, key) then DedupBy(init, key) else DedupBy(init, key) + [x]
  }

  /** One step of the loop that computes DedupBy: the key set is the loop's `seen`. */
  lemma DedupByAppend<T, K>(s: seq<T>, x: T, key: T -> K)
    ensures DedupBy(s + [x], key)
            == if key(x) in Keys(s, key) then DedupBy(s, key) else DedupBy(s, key) + [x]
  {
    assert (s + [x])[..|s|] == s;
  }

  /** Nothing is lost: the result has the same keys as s, and is no longer. */
  lemma {:induction false} DedupByKeys<T, K>(s: seq<T>, key: T -> K)
    ensures Keys(DedupBy(s, key), key) == Keys(s, key)
    ensures |DedupBy(s, key)| <= |s|
  {
    if s != [] {
      var init := s[..|s| - 1];
      var x := s[|s| - 1];
      DedupByKeys(init, key);
      KeysAppend(DedupBy(init, key), x, key);
      KeysAppend(init, x, key);
      assert s == init + [x];
    }
  }

  /** The element at index i is the first one with its key. */
  ghost predicate IsFirstOccurrence<T, K>(s: seq<T>, key: T -> K, i: int)
    requires 0 <= i < |s|
  {
    forall j :: 0 <= j < i ==> key(s[j]) != key(s[i])
  }

  /** Reference definition: s filtered down to the first occurrence of each key. */
  ghost function FirstOccurrences<T, K>(s: seq<T>, key: T -> K): seq<T> {
    if s == [] then []
    else FirstOccurrences(s[..|s| - 1], key)
         + (if IsFirstOccurrence(s, key, |s| - 1) then [s[|s| - 1]] else [])
  }

  /** DedupBy keeps exactly the first occurrence of every key, in order. */
  lemma {:induction false} DedupByIsFirstOccurrences<T, K>(s: seq<T>, key: T -> K)
    ensures DedupBy(s, key) == FirstOccurrences(s, key)
  {
    if s != [] {
      var init := s[..|s| - 1];
      var x := s[|s| - 1];
      DedupByIsFirstOccurrences(init, key);
      KeysMembership(init, key, key(x));
      assert forall j :: 0 <= j < |init| ==> init[j] == s[j];
    }
  }

  /** No two elements of s share a key. */
  ghost predicate KeysDistinct<T, K>(s: seq<T>, key: T -> K) {
    forall i, j :: 0 <= i < j < |s| ==> key(s[i]) != key(s[j])
  }

  /** No two elements of the result share a key. */
  lemma {:induction false} DedupByKeysDistinct<T, K>(s: seq<T>, key: T -> K)
    ensures KeysDistinct(DedupBy(s, key), key)
  {
    if s != [] {
      var init := s[..|s| - 1];
      var x := s[|s| - 1];
      DedupByKeysDistinct(init, key);
      DedupByKeys(init, key);
      var d := DedupBy(init, key);
      if key(x) !in Keys(d, key) {
        forall i | 0 <= i < |d| ensures key(d[i]) != key(x) {
          KeysMembership(d, key, key(x));
        }
        var r := d + [x];
        assert DedupBy(s, key) == r;
        forall i, j | 0 <= i < j < |r| ensures key(r[i]) != key(r[j]) {
          if j < |d| {
            assert r[i] == d[i] && r[j] == d[j];
          } else {
            assert r[i] == d[i] && r[j] == x;
          }
        }
      } else {
        assert DedupBy(s, key) == d;
      }
    }
  }

  /** Every key of s occurs in the result, carried by its first element in s. */
  lemma {:induction false} DedupByKeepsFirst<T, K>(s: seq<T>, key: T -> K, i: int)
    requires 0 <= i < |s| && IsFirstOccurrence(s, key, i)
    ensures s[i] in DedupBy(s, key)
  {
    var init := s[..|s| - 1];
    if i == |s| - 1 {
      KeysMembership(init, key, key(s[i]));
      assert forall j :: 0 <= j < |init| ==> init[j] == s[j];
    } else {
      assert forall j :: 0 <= j < i ==> init[j] == s[j];
      DedupByKeepsFirst(init, key, i);
    }
  }

  /** Every element of the result is an element of s. */
  lemma {:induction false} DedupByElementsFromInput<T, K>(s: seq<T>, key: T -> K)
    ensures forall x :: x in DedupBy(s, key) ==> x in s
  {
    if s != [] {
      var init := s[..|s| - 1];
      DedupByElementsFromInput(init, key);
      assert forall x :: x in init ==> x in s;
    }
  }

  /** Every key of s is carried by some element of the result. */
  lemma DedupByCoversKeys<T, K>(s: seq<T>, key: T -> K, x: T)
    requires x in s
    ensures exists y :: y in DedupBy(s, key) && key(y) == key(x)
  {
    var r := DedupBy(s, key);
    DedupByKeys(s, key);
    KeysMembership(s, key, key(x));
    KeysMembership(r, key, key(x));
    var i :| 0 <= i < |r| && key(r[i]) == key(x);
    assert r[i] in r;
  }
}
