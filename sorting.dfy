/**
 * Python's `sorted(xs, key=k, reverse=True)` over real-valued keys: a stable sort into
 * non-increasing key order (elements with equal keys keep their original order).
 */
module StableSort {

  predicate SortedDesc<T>(s: seq<T>, key: T -> real) {
    forall i, j :: 0 <= i < j < |s| ==> key(s[i]) >= key(s[j])
  }

  /** The elements of `s` whose key is `v`, in their order in `s`. */
  function WithKey<T>(s: seq<T>, key: T -> real, v: real): (r: seq<T>)
    ensures |r| <= |s|
    decreases |s|
  {
    if s == [] then []
    else (if key(s[0]) == v then [s[0]] else []) + WithKey(s[1..], key, v)
  }

  /** Places `x` after every element of `s` whose key is at least `key(x)`. */
  function Insert<T>(s: seq<T>, x: T, key: T -> real): (r: seq<T>)
    ensures |r| == |s| + 1
    decreases |s|
  {
    if s == [] then [x]
    else if key(s[0]) >= key(x) then [s[0]] + Insert(s[1..], x, key)
    else [x] + s
  }

  /** `sorted(s, key=key, reverse=True)`: each element inserted in turn, left to right. */
  function SortDesc<T>(s: seq<T>, key: T -> real): (r: seq<T>)
    ensures |r| == |s|
    decreases |s|
  {
    if s == [] then [] else Insert(SortDesc(s[..|s| - 1], key), s[|s| - 1], key)
  }

  /** Every key at most `b` before inserting keeps every key at most `b` afterwards. */
  lemma {:induction false} InsertBounded<T>(s: seq<T>, x: T, key: T -> real, b: real)
    requires forall i :: 0 <= i < |s| ==> key(s[i]) <= b
    requires key(x) <= b
    ensures forall j :: 0 <= j < |Insert(s, x, key)| ==> key(Insert(s, x, key)[j]) <= b
    decreases |s|
  {
    if s != [] && key(s[0]) >= key(x) {
      InsertBounded(s[1..], x, key, b);
      assert Insert(s, x, key) == [s[0]] + Insert(s[1..], x, key);
    }
  }

  /** Inserting adds exactly `x` to the elements. */
  lemma {:induction false} InsertPerm<T>(s: seq<T>, x: T, key: T -> real)
    ensures multiset(Insert(s, x, key)) == multiset(s) + multiset{x}
    decreases |s|
  {
    if s != [] && key(s[0]) >= key(x) {
      InsertPerm(s[1..], x, key);
      assert s == [s[0]] + s[1..];
    }
  }

  lemma {:induction false} InsertSorted<T>(s: seq<T>, x: T, key: T -> real)
    requires SortedDesc(s, key)
    ensures SortedDesc(Insert(s, x, key), key)
    ensures multiset(Insert(s, x, key)) == multiset(s) + multiset{x}
    decreases |s|
  {
    InsertPerm(s, x, key);
    if s != [] && key(s[0]) >= key(x) {
      var t := Insert(s[1..], x, key);
      InsertSorted(s[1..], x, key);
      InsertBounded(s[1..], x, key, key(s[0]));
      assert Insert(s, x, key) == [s[0]] + t;
    }
  }

  /** The sort's result is ordered by non-increasing key. */
  lemma {:induction false} SortDescSorted<T>(s: seq<T>, key: T -> real)
    ensures SortedDesc(SortDesc(s, key), key)
    ensures multiset(SortDesc(s, key)) == multiset(s)
    decreases |s|
  {
    if s != [] {
      SortDescSorted(s[..|s| - 1], key);
      InsertSorted(SortDesc(s[..|s| - 1], key), s[|s| - 1], key);
      assert s == s[..|s| - 1] + [s[|s| - 1]];
    }
  }

  lemma {:induction false} WithKeyAppend<T>(a: seq<T>, b: seq<T>, key: T -> real, v: real)
    ensures WithKey(a + b, key, v) == WithKey(a, key, v) + WithKey(b, key, v)
    decreases |a|
  {
    if a != [] {
      assert (a + b)[1..] == a[1..] + b;
      WithKeyAppend(a[1..], b, key, v);
    } else {
      assert a + b == b;
    }
  }

  /** In a sorted sequence nothing after `x`'s place has the key of `x`. */
  lemma {:induction false} WithKeyInsert<T>(s: seq<T>, x: T, key: T -> real, v: real)
    requires SortedDesc(s, key)
    ensures WithKey(Insert(s, x, key), key, v)
         == WithKey(s, key, v) + (if key(x) == v then [x] else [])
    decreases |s|
  {
    if s == [] {
      WithKeyCons(x, [], key, v);
    } else if key(s[0]) >= key(x) {
      var r := Insert(s[1..], x, key);
      SortedTail(s, key);
      WithKeyInsert(s[1..], x, key, v);
      assert Insert(s, x, key) == [s[0]] + r;
      WithKeyCons(s[0], r, key, v);
      WithKeyCons(s[0], s[1..], key, v);
      assert [s[0]] + s[1..] == s;
      var h, w, t := (if key(s[0]) == v then [s[0]] else []), WithKey(s[1..], key, v),
        (if key(x) == v then [x] else []);
      assert h + (w + t) == (h + w) + t;
    } else {
      WithKeyInsertFront(s, x, key, v);
    }
  }

  lemma SortedTail<T>(s: seq<T>, key: T -> real)
    requires SortedDesc(s, key) && s != []
    ensures SortedDesc(s[1..], key)
  {
  }

  /** One step of `WithKey` on a sequence written as head and rest. */
  lemma WithKeyCons<T>(h: T, t: seq<T>, key: T -> real, v: real)
    ensures WithKey([h] + t, key, v) == (if key(h) == v then [h] else []) + WithKey(t, key, v)
  {
    assert ([h] + t)[1..] == t;
  }

  /** `x` goes in front of a sorted sequence whose first key is smaller than its own. */
  lemma WithKeyInsertFront<T>(s: seq<T>, x: T, key: T -> real, v: real)
    requires SortedDesc(s, key) && s != [] && key(s[0]) < key(x)
    ensures WithKey(Insert(s, x, key), key, v)
         == WithKey(s, key, v) + (if key(x) == v then [x] else [])
  {
    assert Insert(s, x, key) == [x] + s;
    WithKeyCons(x, s, key, v);
    if key(x) == v {
      WithKeyNone(s, key, v);
    }
  }

  lemma {:induction false} WithKeyNone<T>(s: seq<T>, key: T -> real, v: real)
    requires SortedDesc(s, key) && s != [] && key(s[0]) < v
    ensures WithKey(s, key, v) == []
    decreases |s|
  {
    if |s| > 1 {
      assert key(s[1]) <= key(s[0]);
      WithKeyNone(s[1..], key, v);
    } else {
      assert s[1..] == [];
    }
  }

  /** Stability: the elements sharing any one key appear in the result in their input order. */
  lemma {:induction false} SortDescStable<T>(s: seq<T>, key: T -> real, v: real)
    ensures WithKey(SortDesc(s, key), key, v) == WithKey(s, key, v)
    decreases |s|
  {
    if s != [] {
      var p := s[..|s| - 1];
      var x := s[|s| - 1];
      SortDescStable(p, key, v);
      SortDescSorted(p, key);
      WithKeyInsert(SortDesc(p, key), x, key, v);
      assert s == p + [x];
      WithKeyAppend(p, [x], key, v);
      assert WithKey([x], key, v) == (if key(x) == v then [x] else []) by {
        assert [x][1..] == [];
      }
    }
  }
}
