/** The stable sort behind Kotlin's `sortedBy`: elements come out in
    ascending key order, and elements with equal keys keep their input order. */
module Sorting {

  ghost predicate SortedBy<T>(s: seq<T>, key: T -> int)
  {
    forall i, j :: 0 <= i < j < |s| ==> key(s[i]) <= key(s[j])
  }

  /** The elements of `s` whose key is `k`, in the order they occur in `s`. */
  function WithKey<T>(s: seq<T>, key: T -> int, k: int): (r: seq<T>)
    ensures |r| <= |s|
    ensures forall i :: 0 <= i < |r| ==> key(r[i]) == k
  {
    if s == [] then []
    else (if key(s[0]) == k then [s[0]] else []) + WithKey(s[1..], key, k)
  }

  /** Puts `x` in front of the first element of `s` whose key is at least `x`'s. */
  function Insert<T>(x: T, s: seq<T>, key: T -> int): seq<T>
  {
    if s == [] || key(x) <= key(s[0]) then [x] + s
    else [s[0]] + Insert(x, s[1..], key)
  }

  /** Insertion sort; each element goes in front of the equal keys of the
      elements after it, which are already placed. */
  function StableSort<T>(s: seq<T>, key: T -> int): seq<T>
  {
    if s == [] then [] else Insert(s[0], StableSort(s[1..], key), key)
  }

  lemma {:induction false} InsertSorted<T>(x: T, s: seq<T>, key: T -> int)
    requires SortedBy(s, key)
    ensures SortedBy(Insert(x, s, key), key)
  {
    if s != [] && key(s[0]) < key(x) {
      var t := s[1..];
      InsertSorted(x, t, key);
      var r := Insert(x, t, key);
      // r starts with x or with t[0], both no smaller than s[0]
      assert key(s[0]) <= key(r[0]);
      forall i, j | 0 <= i < j < |r| + 1 ensures key(([s[0]] + r)[i]) <= key(([s[0]] + r)[j]) {
        if i == 0 {
          assert key(r[0]) <= key(r[j - 1]);
        }
      }
    }
  }

  lemma {:induction false} InsertPermutes<T>(x: T, s: seq<T>, key: T -> int)
    ensures multiset(Insert(x, s, key)) == multiset(s) + multiset{x}
  {
    if s != [] && key(s[0]) < key(x) {
      InsertPermutes(x, s[1..], key);
      assert s == [s[0]] + s[1..];
    }
  }

  /** The sorted output is in ascending key order. */
  lemma {:induction false} SortIsSorted<T>(s: seq<T>, key: T -> int)
    ensures SortedBy(StableSort(s, key), key)
  {
    if s != [] {
      SortIsSorted(s[1..], key);
      InsertSorted(s[0], StableSort(s[1..], key), key);
    }
  }

  /** The sorted output holds every input element exactly as often as the
      input does: nothing is dropped, duplicated or deduplicated. */
  lemma {:induction false} SortIsPermutation<T>(s: seq<T>, key: T -> int)
    ensures multiset(StableSort(s, key)) == multiset(s)
    ensures |StableSort(s, key)| == |s|
  {
    if s != [] {
      SortIsPermutation(s[1..], key);
      InsertPermutes(s[0], StableSort(s[1..], key), key);
      assert s == [s[0]] + s[1..];
    }
    assert |multiset(StableSort(s, key))| == |StableSort(s, key)|;
  }

  lemma {:induction false} WithKeyAppend<T>(a: seq<T>, b: seq<T>, key: T -> int, k: int)
    ensures WithKey(a + b, key, k) == WithKey(a, key, k) + WithKey(b, key, k)
  {
    if a != [] {
      assert (a + b)[1..] == a[1..] + b;
      WithKeyAppend(a[1..], b, key, k);
    } else {
      assert a + b == b;
    }
  }

  /** Inserting `x` adds it in front of the elements with its own key and
      leaves the elements of every other key as they were. */
  lemma {:induction false} InsertWithKey<T>(x: T, s: seq<T>, key: T -> int, k: int)
    ensures WithKey(Insert(x, s, key), key, k)
         == (if key(x) == k then [x] else []) + WithKey(s, key, k)
  {
    if s == [] || key(x) <= key(s[0]) {
      assert Insert(x, s, key) == [x] + s;
      WithKeyAppend([x], s, key, k);
    } else {
      var rest := Insert(x, s[1..], key);
      assert Insert(x, s, key) == [s[0]] + rest;
      InsertWithKey(x, s[1..], key, k);
      WithKeyAppend([s[0]], rest, key, k);
      WithKeyAppend([s[0]], s[1..], key, k);
      assert s == [s[0]] + s[1..];
    }
  }

  /** Stability: for every key, the elements carrying it come out in the
      order they went in. */
  lemma {:induction false} SortIsStable<T>(s: seq<T>, key: T -> int, k: int)
    ensures WithKey(StableSort(s, key), key, k) == WithKey(s, key, k)
  {
    if s != [] {
      SortIsStable(s[1..], key, k);
      InsertWithKey(s[0], StableSort(s[1..], key), key, k);
    }
  }

  lemma {:induction false} FirstKeyIsLeast<T>(t: seq<T>, key: T -> int, k: int)
    requires SortedBy(t, key)
    requires WithKey(t, key, k) != []
    ensures t != [] && key(t[0]) <= k
  {
    if key(t[0]) != k {
      assert SortedBy(t[1..], key);
      FirstKeyIsLeast(t[1..], key, k);
      assert t[1..][0] == t[1];
    }
  }

  lemma WithKeyOfHead<T>(t: seq<T>, key: T -> int)
    requires t != []
    ensures WithKey(t, key, key(t[0])) == [t[0]] + WithKey(t[1..], key, key(t[0]))
  {
  }

  /** A sorted sequence is fixed by its per-key subsequences. */
  lemma {:induction false} SortedByKeysUnique<T>(t: seq<T>, u: seq<T>, key: T -> int)
    requires SortedBy(t, key) && SortedBy(u, key)
    requires forall k :: WithKey(t, key, k) == WithKey(u, key, k)
    ensures t == u
  {
    if t != [] { WithKeyOfHead(t, key); }
    if u != [] { WithKeyOfHead(u, key); }
    if t != [] && u != [] {
      var a, b := key(t[0]), key(u[0]);
      assert WithKey(t, key, a) != [];
      FirstKeyIsLeast(u, key, a);
      assert WithKey(u, key, b) != [];
      FirstKeyIsLeast(t, key, b);
      assert a == b;
      assert t[0] == WithKey(t, key, a)[0] == WithKey(u, key, a)[0] == u[0];
      assert SortedBy(t[1..], key) && SortedBy(u[1..], key);
      forall k ensures WithKey(t[1..], key, k) == WithKey(u[1..], key, k) {
        assert WithKey(t, key, k) == WithKey(u, key, k);
        if k == a {
          assert WithKey(t, key, k) == [t[0]] + WithKey(t[1..], key, k);
          assert WithKey(u, key, k) == [u[0]] + WithKey(u[1..], key, k);
          assert WithKey(t[1..], key, k) == WithKey(t, key, k)[1..];
          assert WithKey(u[1..], key, k) == WithKey(u, key, k)[1..];
        } else {
          assert WithKey(t, key, k) == WithKey(t[1..], key, k);
          assert WithKey(u, key, k) == WithKey(u[1..], key, k);
        }
      }
      SortedByKeysUnique(t[1..], u[1..], key);
      assert t == [t[0]] + t[1..] && u == [u[0]] + u[1..];
    }
  }

  /** `StableSort` is the one ascending arrangement of `s` that keeps the
      input order within every key: any other sequence with both
      properties is equal to it. */
  lemma StableSortIsTheStableOrder<T>(s: seq<T>, t: seq<T>, key: T -> int)
    requires SortedBy(t, key)
    requires forall k :: WithKey(t, key, k) == WithKey(s, key, k)
    ensures t == StableSort(s, key)
  {
    SortIsSorted(s, key);
    forall k ensures WithKey(t, key, k) == WithKey(StableSort(s, key), key, k) {
      SortIsStable(s, key, k);
    }
    SortedByKeysUnique(t, StableSort(s, key), key);
  }

  ghost predicate UniqueKeys<T>(s: seq<T>, key: T -> int)
  {
    forall i, j :: 0 <= i < j < |s| ==> key(s[i]) != key(s[j])
  }

  lemma {:induction false} WithKeyAbsent<T>(s: seq<T>, key: T -> int, k: int)
    requires forall x :: x in s ==> key(x) != k
    ensures WithKey(s, key, k) == []
  {
    if s != [] {
      assert s[0] in s;
      assert forall x :: x in s[1..] ==> x in s;
      WithKeyAbsent(s[1..], key, k);
    }
  }

  lemma {:induction false} WithKeyOfUnique<T>(s: seq<T>, key: T -> int, x: T)
    requires UniqueKeys(s, key) && x in s
    ensures WithKey(s, key, key(x)) == [x]
  {
    assert UniqueKeys(s[1..], key);
    if s[0] == x {
      forall y | y in s[1..] ensures key(y) != key(x) {
        var j :| 0 <= j < |s[1..]| && s[1..][j] == y;
        assert s[j + 1] == y;
      }
      WithKeyAbsent(s[1..], key, key(x));
    } else {
      var j :| 0 <= j < |s| && s[j] == x;
      assert s[1..][j - 1] == x;
      WithKeyOfUnique(s[1..], key, x);
    }
  }

  /** With unique keys the input order is irrelevant: any two arrangements
      of the same elements sort to the same sequence. */
  lemma SortForgetsOrder<T>(s: seq<T>, t: seq<T>, key: T -> int)
    requires multiset(s) == multiset(t)
    requires UniqueKeys(s, key) && UniqueKeys(t, key)
    ensures StableSort(s, key) == StableSort(t, key)
  {
    forall k ensures WithKey(t, key, k) == WithKey(s, key, k) {
      if x :| x in s && key(x) == k {
        assert x in multiset(s);
        WithKeyOfUnique(s, key, x);
        WithKeyOfUnique(t, key, x);
      } else {
        forall y | y in t ensures key(y) != k {
          assert y in multiset(t);
        }
        WithKeyAbsent(s, key, k);
        WithKeyAbsent(t, key, k);
      }
    }
    SortIsSorted(t, key);
    forall k ensures WithKey(StableSort(t, key), key, k) == WithKey(s, key, k) {
      SortIsStable(t, key, k);
    }
    StableSortIsTheStableOrder(s, StableSort(t, key), key);
  }
}
