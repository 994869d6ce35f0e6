// Ordering helpers from the Rust standard library that the analysers rely on:
// `slice::sort_by` with a descending key comparison (a stable sort),
// `Vec::truncate`, `Iterator::max_by_key` (the last maximum) and
// `Iterator::min_by_key` (the first minimum).
module Ranking {
  import Text

  /** Keys never increase from left to right. */
  predicate SortedDesc<T>(s: seq<T>, key: T -> nat) {
    forall i, j | 0 <= i < j < |s| :: key(s[i]) >= key(s[j])
  }

  /** The elements whose key is `v`, in their order. */
  function WithKey<T>(s: seq<T>, key: T -> nat, v: nat): (r: seq<T>)
    ensures |r| <= |s|
  {
    if s == [] then []
    else WithKey(s[..|s| - 1], key, v) + (if key(s[|s| - 1]) == v then [s[|s| - 1]] else [])
  }

  /** Places `x` after every element whose key is at least its own. */
  function Insert<T>(s: seq<T>, x: T, key: T -> nat): (r: seq<T>)
    requires SortedDesc(s, key)
    ensures |r| == |s| + 1
    ensures r[0] == x || (|s| > 0 && r[0] == s[0])
    ensures SortedDesc(r, key)
  {
    if s == [] then [x]
    else if key(s[0]) >= key(x) then
      var rest := Insert(s[1..], x, key);
      assert s == [s[0]] + s[1..];
      assert key(s[0]) >= key(rest[0]);
      [s[0]] + rest
    else
      [x] + s
  }

  /**
   * `v.sort_by(|a, b| key(b).cmp(&key(a)))`: a stable sort on descending key,
   * written as insertion of each element, in order, into the sorted prefix.
   */
  function SortDesc<T>(s: seq<T>, key: T -> nat): (r: seq<T>)
    ensures |r| == |s|
    ensures SortedDesc(r, key)
  {
    if s == [] then []
    else
      assert s == s[..|s| - 1] + [s[|s| - 1]];
      Insert(SortDesc(s[..|s| - 1], key), s[|s| - 1], key)
  }

  /** Insertion adds `x` and loses nothing. */
  lemma {:induction false} InsertPermutation<T>(s: seq<T>, x: T, key: T -> nat)
    requires SortedDesc(s, key)
    ensures multiset(Insert(s, x, key)) == multiset(s) + multiset{x}
    decreases |s|
  {
    if s == [] {
      assert Insert(s, x, key) == [x];
    } else if key(s[0]) >= key(x) {
      SortedTail(s, key);
      var rest := Insert(s[1..], x, key);
      InsertPermutation(s[1..], x, key);
      assert Insert(s, x, key) == [s[0]] + rest;
      assert s == [s[0]] + s[1..];
      assert multiset([s[0]] + rest) == multiset{s[0]} + multiset(rest);
      assert multiset(s) == multiset{s[0]} + multiset(s[1..]);
    } else {
      assert Insert(s, x, key) == [x] + s;
    }
  }

  /** Dropping the head keeps a sequence sorted. */
  lemma SortedTail<T>(s: seq<T>, key: T -> nat)
    requires SortedDesc(s, key) && s != []
    ensures SortedDesc(s[1..], key)
  {
    forall i, j | 0 <= i < j < |s| - 1
      ensures key(s[1..][i]) >= key(s[1..][j])
    {
      assert s[1..][i] == s[i + 1] && s[1..][j] == s[j + 1];
    }
  }

  /** The sort is a permutation of its input. */
  lemma {:induction false} SortDescPermutation<T>(s: seq<T>, key: T -> nat)
    ensures multiset(SortDesc(s, key)) == multiset(s)
    decreases |s|
  {
    if s != [] {
      var init := s[..|s| - 1];
      SortDescPermutation(init, key);
      InsertPermutation(SortDesc(init, key), s[|s| - 1], key);
      assert s == init + [s[|s| - 1]];
    }
  }

  lemma WithKeyAppend<T>(a: seq<T>, b: seq<T>, key: T -> nat, v: nat)
    ensures WithKey(a + b, key, v) == WithKey(a, key, v) + WithKey(b, key, v)
    decreases |b|
  {
    if b == [] {
      assert a + b == a;
    } else {
      assert (a + b)[..|a + b| - 1] == a + b[..|b| - 1];
      WithKeyAppend(a, b[..|b| - 1], key, v);
    }
  }

  /** In a sorted sequence that starts below `v`, nothing has key `v`. */
  lemma {:induction false} WithKeyBelow<T>(s: seq<T>, key: T -> nat, v: nat)
    requires SortedDesc(s, key) && (s == [] || key(s[0]) < v)
    ensures WithKey(s, key, v) == []
    decreases |s|
  {
    if s != [] {
      WithKeyBelow(s[..|s| - 1], key, v);
    }
  }

  lemma WithKeySingle<T>(x: T, key: T -> nat, v: nat)
    ensures WithKey([x], key, v) == if key(x) == v then [x] else []
  {
    assert [x][..0] == [];
  }

  lemma {:induction false} WithKeyInsert<T>(s: seq<T>, x: T, key: T -> nat, v: nat)
    requires SortedDesc(s, key)
    ensures WithKey(Insert(s, x, key), key, v) == WithKey(s, key, v) + WithKey([x], key, v)
    decreases |s|, 1
  {
    WithKeySingle(x, key, v);
    if s == [] {
      assert Insert(s, x, key) == [x];
    } else if key(s[0]) >= key(x) {
      WithKeyInsertAfterHead(s, x, key, v);
    } else {
      assert Insert(s, x, key) == [x] + s;
      WithKeyAppend([x], s, key, v);
      if key(x) == v {
        WithKeyBelow(s, key, v);
      }
    }
  }

  lemma {:induction false} WithKeyInsertAfterHead<T>(s: seq<T>, x: T, key: T -> nat, v: nat)
    requires SortedDesc(s, key) && s != [] && key(s[0]) >= key(x)
    ensures WithKey(Insert(s, x, key), key, v) == WithKey(s, key, v) + WithKey([x], key, v)
    decreases |s|, 0
  {
    var tail := s[1..];
    var rest := Insert(tail, x, key);
    var hd := WithKey([s[0]], key, v);
    assert Insert(s, x, key) == [s[0]] + rest;
    assert [s[0]] + tail == s;
    WithKeyInsert(tail, x, key, v);
    WithKeyAppend([s[0]], rest, key, v);
    WithKeyAppend([s[0]], tail, key, v);
    calc {
      WithKey(Insert(s, x, key), key, v);
      hd + WithKey(rest, key, v);
      hd + (WithKey(tail, key, v) + WithKey([x], key, v));
      (hd + WithKey(tail, key, v)) + WithKey([x], key, v);
      WithKey(s, key, v) + WithKey([x], key, v);
    }
  }

  /**
   * The sort is stable: the elements that share a key keep their relative
   * order. With `SortDesc`'s own contract (sorted, a permutation) this pins
   * the result down completely.
   */
  lemma {:induction false} SortDescStable<T>(s: seq<T>, key: T -> nat, v: nat)
    ensures WithKey(SortDesc(s, key), key, v) == WithKey(s, key, v)
    decreases |s|
  {
    if s != [] {
      var init := s[..|s| - 1];
      SortDescStable(init, key, v);
      WithKeyInsert(SortDesc(init, key), s[|s| - 1], key, v);
      WithKeyAppend(init, [s[|s| - 1]], key, v);
      assert init + [s[|s| - 1]] == s;
    }
  }

  /** `sort_by` on descending key followed by `truncate(n)`. */
  function TopByKey<T>(s: seq<T>, key: T -> nat, n: nat): seq<T> {
    var sorted := SortDesc(s, key);
    sorted[..Text.Min(n, |sorted|)]
  }

  /**
   * The kept elements are sorted, come from the input, number `min(n, |s|)`,
   * and none of the dropped ones has a larger key than any kept one.
   */
  lemma TopByKeySpec<T>(s: seq<T>, key: T -> nat, n: nat)
    ensures var top := TopByKey(s, key, n);
      && |top| == Text.Min(n, |s|)
      && SortedDesc(top, key)
      && multiset(top) <= multiset(s)
      && forall i, j | 0 <= i < |top| && |top| <= j < |s| :: key(top[i]) >= key(SortDesc(s, key)[j])
  {
    var sorted := SortDesc(s, key);
    SortDescPermutation(s, key);
    TakeSorted(sorted, key, Text.Min(n, |sorted|));
  }

  /**
   * Truncating the sorted sequence keeps ties in input order: the kept
   * elements of each key are the first ones of that key in the input.
   */
  lemma TopByKeyStable<T>(s: seq<T>, key: T -> nat, n: nat, v: nat)
    ensures WithKey(TopByKey(s, key, n), key, v) <= WithKey(s, key, v)
  {
    var sorted := SortDesc(s, key);
    var m := Text.Min(n, |sorted|);
    SortDescStable(s, key, v);
    WithKeyAppend(sorted[..m], sorted[m..], key, v);
    assert sorted == sorted[..m] + sorted[m..];
  }

  /** A prefix of a sorted sequence is sorted, drawn from it, and ranks above everything after it. */
  lemma TakeSorted<T>(s: seq<T>, key: T -> nat, m: nat)
    requires SortedDesc(s, key) && m <= |s|
    ensures SortedDesc(s[..m], key)
    ensures multiset(s[..m]) <= multiset(s)
    ensures forall i, j | 0 <= i < m <= j < |s| :: key(s[..m][i]) >= key(s[j])
  {
    assert s == s[..m] + s[m..];
    assert multiset(s) == multiset(s[..m]) + multiset(s[m..]);
  }

  /** `Iterator::max_by_key`: the index of the last element with the largest key. */
  function ArgMaxLast<T>(s: seq<T>, key: T -> nat): (r: nat)
    requires |s| > 0
    ensures r < |s|
    ensures forall j | 0 <= j < |s| :: key(s[j]) <= key(s[r])
    ensures forall j | r < j < |s| :: key(s[j]) < key(s[r])
  {
    if |s| == 1 then 0
    else
      var k := ArgMaxLast(s[..|s| - 1], key);
      assert forall j | 0 <= j < |s| - 1 :: s[..|s| - 1][j] == s[j];
      if key(s[|s| - 1]) >= key(s[k]) then |s| - 1 else k
  }

  /** `Iterator::min_by_key`: the index of the first element with the smallest key. */
  function ArgMinFirst<T>(s: seq<T>, key: T -> nat): (r: nat)
    requires |s| > 0
    ensures r < |s|
    ensures forall j | 0 <= j < |s| :: key(s[r]) <= key(s[j])
    ensures forall j | 0 <= j < r :: key(s[r]) < key(s[j])
  {
    if |s| == 1 then 0
    else
      var k := ArgMinFirst(s[..|s| - 1], key);
      assert forall j | 0 <= j < |s| - 1 :: s[..|s| - 1][j] == s[j];
      if key(s[|s| - 1]) < key(s[k]) then |s| - 1 else k
  }

  /** The last element of a sorted permutation carries the smallest key of the input. */
  lemma SortedLastIsMin<T>(s: seq<T>, sorted: seq<T>, key: T -> nat, w: nat)
    requires |sorted| == |s| > 0 && multiset(sorted) == multiset(s) && SortedDesc(sorted, key)
    requires w < |s| && forall j | 0 <= j < |s| :: key(s[w]) <= key(s[j])
    ensures key(sorted[|s| - 1]) == key(s[w])
  {
    var last := |s| - 1;
    assert s[w] in multiset(s);
    var j :| 0 <= j < |sorted| && sorted[j] == s[w];
    assert sorted[last] in multiset(sorted);
    var i :| 0 <= i < |s| && s[i] == sorted[last];
  }

  /** The last element of the descending sort has the smallest key, as `min_by_key` finds it. */
  lemma SortDescLastIsMin<T>(s: seq<T>, key: T -> nat)
    requires |s| > 0
    ensures key(SortDesc(s, key)[|s| - 1]) == key(s[ArgMinFirst(s, key)])
  {
    SortDescPermutation(s, key);
    SortedLastIsMin(s, SortDesc(s, key), key, ArgMinFirst(s, key));
  }
}
