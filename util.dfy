/** Sequence helpers shared by the client and server models: the JavaScript
    array operations the source leans on (`slice(-n)`, `reverse`, `new Set`,
    the stable `Array.prototype.sort`) stated as functions with contracts. */
module Util {

  datatype Option<T> = None | Some(value: T)

  predicate Distinct<T(==)>(s: seq<T>) {
    forall i, j :: 0 <= i < j < |s| ==> s[i] != s[j]
  }

  function Min(a: int, b: int): int { if a <= b then a else b }

  /** `s.slice(-n)` for n > 0: the last min(n, |s|) elements, in order. */
  function LastN<T>(s: seq<T>, n: nat): (r: seq<T>)
    ensures |r| == Min(n, |s|)
    ensures s == s[..|s| - |r|] + r
  {
    if n >= |s| then s else s[|s| - n..]
  }

  /** `s.slice(0, n)` for n >= 0. */
  function Take<T>(s: seq<T>, n: nat): (r: seq<T>)
    ensures |r| == Min(n, |s|)
    ensures s == r + s[|r|..]
  {
    if n >= |s| then s else s[..n]
  }

  /** `Array.prototype.reverse`, as a value. */
  function Reverse<T>(s: seq<T>): (r: seq<T>)
    ensures |r| == |s|
    ensures forall i :: 0 <= i < |s| ==> r[i] == s[|s| - 1 - i]
  {
    if s == [] then [] else [s[|s| - 1]] + Reverse(s[..|s| - 1])
  }

  /** Concatenation of a sequence of sequences (`push(...xs)` repeated). */
  function Flatten<T>(ss: seq<seq<T>>): seq<T> {
    if ss == [] then [] else Flatten(ss[..|ss| - 1]) + ss[|ss| - 1]
  }

  function SumLengths<T>(ss: seq<seq<T>>): nat {
    if ss == [] then 0 else SumLengths(ss[..|ss| - 1]) + |ss[|ss| - 1]|
  }

  lemma {:induction false} FlattenLength<T>(ss: seq<seq<T>>)
    ensures |Flatten(ss)| == SumLengths(ss)
  {
    if ss != [] {
      FlattenLength(ss[..|ss| - 1]);
    }
  }

  /** Index of the first occurrence of `x`, or |s| when there is none. */
  function FirstIndex<T(==)>(s: seq<T>, x: T): (i: nat)
    ensures i <= |s|
    ensures i < |s| ==> s[i] == x
    ensures forall k :: 0 <= k < i ==> s[k] != x
  {
    if s == [] then 0
    else if s[0] == x then 0
    else 1 + FirstIndex(s[1..], x)
  }

  /** `[...new Set(s)]`: the distinct elements of s in first-seen order. */
  function Dedup<T(==)>(s: seq<T>): (r: seq<T>)
    ensures Distinct(r)
    ensures forall i :: 0 <= i < |r| ==> r[i] in s
    ensures forall i :: 0 <= i < |s| ==> s[i] in r
    ensures |r| <= |s|
  {
    if s == [] then []
    else
      var d := Dedup(s[..|s| - 1]);
      if s[|s| - 1] in d then d else d + [s[|s| - 1]]
  }

  /** Dedup keeps first-seen order: an element listed earlier in the result
      first occurs earlier in the input. */
  lemma {:induction false} DedupFirstSeenOrder<T>(s: seq<T>)
    ensures forall i, j :: 0 <= i < j < |Dedup(s)| ==>
              FirstIndex(s, Dedup(s)[i]) < FirstIndex(s, Dedup(s)[j])
  {
    if s != [] {
      var init, y := s[..|s| - 1], s[|s| - 1];
      assert s == init + [y];
      var d, r := Dedup(init), Dedup(s);
      DedupFirstSeenOrder(init);
      forall i | 0 <= i < |d| ensures FirstIndex(s, d[i]) == FirstIndex(init, d[i]) < |init| {
        FirstIndexPrefix(init, y, d[i]);
      }
      if y !in d {
        FirstIndexPrefix(init, y, y);
        assert r == d + [y];
      }
      forall i, j | 0 <= i < j < |r| ensures FirstIndex(s, r[i]) < FirstIndex(s, r[j]) {
        assert r[i] == d[i];
        if j < |d| {
          assert r[j] == d[j];
        }
      }
    }
  }

  lemma {:induction false} FirstIndexPrefix<T>(init: seq<T>, y: T, x: T)
    ensures x in init ==> FirstIndex(init + [y], x) == FirstIndex(init, x)
    ensures x !in init ==> FirstIndex(init + [y], x) >= |init|
  {
    var s := init + [y];
    var i := FirstIndex(s, x);
    if x in init {
      var j := FirstIndex(init, x);
      assert s[j] == x;
      assert i <= j;
      assert init[i] == x;
    } else {
      assert forall k :: 0 <= k < |init| ==> s[k] != x;
    }
  }

  // ---------------------------------------------------------------------
  // Stable sort by an integer key (ECMAScript's Array.prototype.sort has
  // been stable since ES2019). Written as an insertion sort on values.

  predicate SortedBy<T>(s: seq<T>, key: T -> int) {
    forall i, j :: 0 <= i < j < |s| ==> key(s[i]) <= key(s[j])
  }

  /** The elements of `s` whose key is `k`, in their order in `s`. */
  function WithKey<T>(s: seq<T>, key: T -> int, k: int): seq<T> {
    if s == [] then []
    else WithKey(s[..|s| - 1], key, k) + (if key(s[|s| - 1]) == k then [s[|s| - 1]] else [])
  }

  /** Places x after every element whose key is at most key(x). */
  function InsertSorted<T>(t: seq<T>, x: T, key: T -> int): (r: seq<T>)
    requires SortedBy(t, key)
    ensures SortedBy(r, key)
    ensures multiset(r) == multiset(t) + multiset{x}
    ensures |r| == |t| + 1
  {
    if t == [] || key(t[|t| - 1]) <= key(x) then t + [x]
    else
      var r' := InsertSorted(t[..|t| - 1], x, key);
      assert t == t[..|t| - 1] + [t[|t| - 1]];
      InsertedBelow(t, x, key, r');
      r' + [t[|t| - 1]]
  }

  /** Everything in the re-sorted prefix has a key at most that of the last
      element of t, so t's last element can stay last. */
  lemma InsertedBelow<T>(t: seq<T>, x: T, key: T -> int, r': seq<T>)
    requires SortedBy(t, key) && t != [] && key(x) < key(t[|t| - 1])
    requires multiset(r') == multiset(t[..|t| - 1]) + multiset{x}
    ensures forall i :: 0 <= i < |r'| ==> key(r'[i]) <= key(t[|t| - 1])
  {
    forall i | 0 <= i < |r'| ensures key(r'[i]) <= key(t[|t| - 1]) {
      assert r'[i] in multiset(r');
      if r'[i] != x {
        assert r'[i] in multiset(t[..|t| - 1]);
        assert r'[i] in t[..|t| - 1];
        var j :| 0 <= j < |t| - 1 && t[..|t| - 1][j] == r'[i];
        assert t[j] == r'[i];
      }
    }
  }

  function SortBy<T>(s: seq<T>, key: T -> int): (r: seq<T>)
    ensures SortedBy(r, key)
    ensures multiset(r) == multiset(s)
    ensures |r| == |s|
  {
    if s == [] then []
    else
      assert s == s[..|s| - 1] + [s[|s| - 1]];
      InsertSorted(SortBy(s[..|s| - 1], key), s[|s| - 1], key)
  }

  lemma WithKeyAppend<T>(a: seq<T>, x: T, key: T -> int, k: int)
    ensures WithKey(a + [x], key, k) == WithKey(a, key, k) + (if key(x) == k then [x] else [])
  {
    assert (a + [x])[..|a|] == a;
  }

  lemma {:induction false} InsertSortedStable<T>(t: seq<T>, x: T, key: T -> int, k: int)
    requires SortedBy(t, key)
    ensures WithKey(InsertSorted(t, x, key), key, k) ==
            WithKey(t, key, k) + (if key(x) == k then [x] else [])
    decreases |t|
  {
    if t == [] || key(t[|t| - 1]) <= key(x) {
      WithKeyAppend(t, x, key, k);
    } else {
      var init, last := t[..|t| - 1], t[|t| - 1];
      InsertSortedStable(init, x, key, k);
      InsertSortedUnfold(t, x, key);
      WithKeyAppend(InsertSorted(init, x, key), last, key, k);
      assert t == init + [last];
      WithKeyAppend(init, last, key, k);
    }
  }

  lemma InsertSortedUnfold<T>(t: seq<T>, x: T, key: T -> int)
    requires SortedBy(t, key) && t != [] && key(x) < key(t[|t| - 1])
    ensures SortedBy(t[..|t| - 1], key)
    ensures InsertSorted(t, x, key) == InsertSorted(t[..|t| - 1], x, key) + [t[|t| - 1]]
  {
  }

  /** Stability: for every key, the elements with that key appear in the
      sorted result in the same order as in the input. */
  lemma {:induction false} SortByStable<T>(s: seq<T>, key: T -> int, k: int)
    ensures WithKey(SortBy(s, key), key, k) == WithKey(s, key, k)
  {
    if s != [] {
      SortByStable(s[..|s| - 1], key, k);
      InsertSortedStable(SortBy(s[..|s| - 1], key), s[|s| - 1], key, k);
    }
  }
}
