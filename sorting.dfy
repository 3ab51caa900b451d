/** `Array.prototype.sort` with a comparator `(a, b) => key(b) - key(a)`:
    a stable sort into non-increasing order of a numeric key (the language
    requires `sort` to be stable). It is modelled as insertion sort on values:
    each element in turn is placed after every element already placed whose
    key is at least its own. */
module Sorting {

  /** `s` is in non-increasing order of `key`. */
  predicate SortedDesc<T>(s: seq<T>, key: T -> real) {
    forall i, j :: 0 <= i < j < |s| ==> key(s[i]) >= key(s[j])
  }

  /** `x` placed into `s` after the longest prefix whose keys are at least its own. */
  function Insert<T>(x: T, s: seq<T>, key: T -> real): (r: seq<T>)
    ensures |r| == |s| + 1
    decreases |s|
  {
    if s != [] && key(s[0]) >= key(x) then [s[0]] + Insert(x, s[1..], key) else [x] + s
  }

  /** The stable descending sort of `s` by `key`: a rearrangement of `s` in
      non-increasing order of the key. */
  function SortDesc<T>(s: seq<T>, key: T -> real): (r: seq<T>)
    ensures |r| == |s|
    ensures multiset(r) == multiset(s)
    ensures SortedDesc(r, key)
    decreases |s|
  {
    if s == [] then []
    else
      var p, x := s[..|s| - 1], s[|s| - 1];
      assert s == p + [x];
      SortStep(p, x, SortDesc(p, key), key);
      Insert(x, SortDesc(p, key), key)
  }

  /** Inserting the last element into the sorted rest keeps order and contents. */
  lemma SortStep<T>(p: seq<T>, x: T, sorted: seq<T>, key: T -> real)
    requires multiset(sorted) == multiset(p) && SortedDesc(sorted, key)
    ensures multiset(Insert(x, sorted, key)) == multiset(p + [x])
    ensures SortedDesc(Insert(x, sorted, key), key)
  {
    InsertPermutes(x, sorted, key);
    InsertKeepsOrder(x, sorted, key);
  }

  /** The elements of `s` whose key is `v`, in their order in `s`. */
  function WithKey<T>(s: seq<T>, key: T -> real, v: real): (r: seq<T>)
    ensures |r| <= |s|
    decreases |s|
  {
    if s == [] then [] else (if key(s[0]) == v then [s[0]] else []) + WithKey(s[1..], key, v)
  }

  lemma {:induction false} InsertPermutes<T>(x: T, s: seq<T>, key: T -> real)
    ensures multiset(Insert(x, s, key)) == multiset(s) + multiset{x}
    decreases |s|
  {
    if s != [] && key(s[0]) >= key(x) {
      InsertPermutes(x, s[1..], key);
      assert s == [s[0]] + s[1..];
    }
  }

  lemma {:induction false} InsertKeepsOrder<T>(x: T, s: seq<T>, key: T -> real)
    requires SortedDesc(s, key)
    ensures SortedDesc(Insert(x, s, key), key)
    decreases |s|
  {
    if s != [] && key(s[0]) >= key(x) {
      var rest := Insert(x, s[1..], key);
      InsertKeepsOrder(x, s[1..], key);
      InsertPermutes(x, s[1..], key);
      forall k | 0 <= k < |rest| ensures key(s[0]) >= key(rest[k]) {
        assert rest[k] in multiset(rest);
        if rest[k] != x {
          assert rest[k] in multiset(s[1..]);
          var m :| 0 <= m < |s[1..]| && s[1..][m] == rest[k];
          assert s[m + 1] == rest[k];
        }
      }
    }
  }

  lemma {:induction false} WithKeyAppend<T>(a: seq<T>, b: seq<T>, key: T -> real, v: real)
    ensures WithKey(a + b, key, v) == WithKey(a, key, v) + WithKey(b, key, v)
    decreases |a|
  {
    if a == [] {
      assert a + b == b;
    } else {
      var head := if key(a[0]) == v then [a[0]] else [];
      assert (a + b)[0] == a[0] && (a + b)[1..] == a[1..] + b;
      WithKeyAppend(a[1..], b, key, v);
      calc {
        WithKey(a + b, key, v);
        head + WithKey(a[1..] + b, key, v);
        head + (WithKey(a[1..], key, v) + WithKey(b, key, v));
        (head + WithKey(a[1..], key, v)) + WithKey(b, key, v);
      }
    }
  }

  lemma {:induction false} WithKeyOfSmaller<T>(s: seq<T>, key: T -> real, v: real)
    requires forall k :: 0 <= k < |s| ==> key(s[k]) < v
    ensures WithKey(s, key, v) == []
    decreases |s|
  {
    if s != [] {
      WithKeyOfSmaller(s[1..], key, v);
    }
  }

  lemma {:induction false} InsertWithKey<T>(x: T, s: seq<T>, key: T -> real, v: real)
    requires SortedDesc(s, key)
    ensures WithKey(Insert(x, s, key), key, v)
              == WithKey(s, key, v) + (if key(x) == v then [x] else [])
    decreases |s|
  {
    if s != [] && key(s[0]) >= key(x) {
      InsertWithKey(x, s[1..], key, v);
      assert ([s[0]] + Insert(x, s[1..], key))[1..] == Insert(x, s[1..], key);
    } else if key(x) == v {
      WithKeyOfSmaller(s, key, v);
      assert ([x] + s)[1..] == s;
    } else {
      assert ([x] + s)[1..] == s;
    }
  }

  /** Stability: elements of equal key keep their relative order. */
  lemma {:induction false} SortIsStable<T>(s: seq<T>, key: T -> real, v: real)
    ensures WithKey(SortDesc(s, key), key, v) == WithKey(s, key, v)
    decreases |s|
  {
    if s != [] {
      var p, x := s[..|s| - 1], s[|s| - 1];
      SortIsStable(p, key, v);
      assert s == p + [x];
      StableStep(p, x, SortDesc(p, key), key, v);
    }
  }

  /** Inserting the last element keeps the equal-key elements in order. */
  lemma StableStep<T>(p: seq<T>, x: T, sorted: seq<T>, key: T -> real, v: real)
    requires SortedDesc(sorted, key) && WithKey(sorted, key, v) == WithKey(p, key, v)
    ensures WithKey(Insert(x, sorted, key), key, v) == WithKey(p + [x], key, v)
  {
    InsertWithKey(x, sorted, key, v);
    WithKeyAppend(p, [x], key, v);
    assert WithKey([x], key, v) == (if key(x) == v then [x] else []) + WithKey([x][1..], key, v);
  }
}
