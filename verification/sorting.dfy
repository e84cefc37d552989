/** `Array.prototype.sort`, which is stable: by an integer key taken from a comparator of the form
    `(a, b) => key(a) - key(b)`, and the default order of strings. Both are given as insertion
    sorts, the reference result every stable sort produces. */
module Sorting {
  import Text

  predicate SortedBy<T>(s: seq<T>, key: T -> int) {
    forall i, j :: 0 <= i < j < |s| ==> key(s[i]) <= key(s[j])
  }

  /** The elements of `s` whose key is `k`, in their order. */
  function WithKey<T>(s: seq<T>, key: T -> int, k: int): seq<T> {
    if s == [] then []
    else (if key(s[0]) == k then [s[0]] else []) + WithKey(s[1..], key, k)
  }

  /** Places `x` in front of the first element with a larger key. */
  function InsertByKey<T>(s: seq<T>, x: T, key: T -> int): (r: seq<T>)
    ensures |r| == |s| + 1
  {
    if s == [] || key(x) < key(s[0]) then [x] + s
    else [s[0]] + InsertByKey(s[1..], x, key)
  }

  /** The stable sort of `xs` by ascending key. */
  function SortByKey<T>(xs: seq<T>, key: T -> int): (r: seq<T>)
    ensures |r| == |xs|
  {
    if xs == [] then []
    else InsertByKey(SortByKey(xs[..|xs| - 1], key), xs[|xs| - 1], key)
  }

  /** Three elements already in key order are left as they are. */
  lemma SortThreeInOrder<T>(a: T, b: T, c: T, key: T -> int)
    requires key(a) <= key(b) <= key(c)
    ensures SortByKey([a, b, c], key) == [a, b, c]
  {
    assert [a, b, c][..2] == [a, b];
    assert [a, b][..1] == [a];
    assert [a][..0] == [];
    assert SortByKey([a], key) == InsertByKey([], a, key) == [a];
    assert [a][1..] == [];
    assert InsertByKey([a], b, key) == [a] + InsertByKey([], b, key) == [a, b];
    assert SortByKey([a, b], key) == [a, b];
    assert [a, b][1..] == [b] && [b][1..] == [];
    assert InsertByKey([b], c, key) == [b] + InsertByKey([], c, key) == [b, c];
    assert InsertByKey([a, b], c, key) == [a] + InsertByKey([b], c, key) == [a, b, c];
  }

  lemma {:induction false} InsertByKeyPerm<T>(s: seq<T>, x: T, key: T -> int)
    ensures multiset(InsertByKey(s, x, key)) == multiset(s) + multiset{x}
  {
    if s != [] && key(x) >= key(s[0]) {
      InsertByKeyPerm(s[1..], x, key);
      assert s == [s[0]] + s[1..];
    }
  }

  /** Inserting an element no lower than `lo` into elements no lower than `lo` keeps them so. */
  lemma {:induction false} InsertByKeyAbove<T>(s: seq<T>, x: T, key: T -> int, lo: int)
    requires lo <= key(x) && forall i :: 0 <= i < |s| ==> lo <= key(s[i])
    ensures forall i :: 0 <= i < |InsertByKey(s, x, key)| ==> lo <= key(InsertByKey(s, x, key)[i])
  {
    if s != [] && key(x) >= key(s[0]) {
      InsertByKeyAbove(s[1..], x, key, lo);
    }
  }

  lemma {:induction false} InsertByKeySorted<T>(s: seq<T>, x: T, key: T -> int)
    requires SortedBy(s, key)
    ensures SortedBy(InsertByKey(s, x, key), key)
  {
    if s != [] && key(x) >= key(s[0]) {
      assert SortedBy(s[1..], key);
      InsertByKeySorted(s[1..], x, key);
      var t := InsertByKey(s[1..], x, key);
      InsertByKeyAbove(s[1..], x, key, key(s[0]));
      var r := [s[0]] + t;
      forall i, j | 0 <= i < j < |r| ensures key(r[i]) <= key(r[j]) {
        if i == 0 {
          assert r[j] == t[j - 1];
        } else {
          assert r[i] == t[i - 1] && r[j] == t[j - 1];
        }
      }
    }
  }


  /** The result is ordered by key and is a permutation of the input. */
  lemma {:induction false} SortByKeySorted<T>(xs: seq<T>, key: T -> int)
    ensures SortedBy(SortByKey(xs, key), key)
    ensures |SortByKey(xs, key)| == |xs|
    ensures multiset(SortByKey(xs, key)) == multiset(xs)
  {
    if xs != [] {
      var init, x := xs[..|xs| - 1], xs[|xs| - 1];
      SortByKeySorted(init, key);
      InsertByKeySorted(SortByKey(init, key), x, key);
      InsertByKeyPerm(SortByKey(init, key), x, key);
      assert xs == init + [x];
    }
  }

  lemma WithKeyCons<T>(h: T, t: seq<T>, key: T -> int, k: int)
    ensures WithKey([h] + t, key, k) == (if key(h) == k then [h] else []) + WithKey(t, key, k)
  {
    assert ([h] + t)[1..] == t;
  }

  lemma {:induction false} WithKeyAppend<T>(a: seq<T>, b: seq<T>, key: T -> int, k: int)
    ensures WithKey(a + b, key, k) == WithKey(a, key, k) + WithKey(b, key, k)
  {
    if a == [] {
      assert a + b == b;
    } else {
      WithKeyAppend(a[1..], b, key, k);
      assert a + b == [a[0]] + (a[1..] + b);
      WithKeyCons(a[0], a[1..] + b, key, k);
      assert a == [a[0]] + a[1..];
      WithKeyCons(a[0], a[1..], key, k);
    }
  }

  lemma {:induction false} InsertByKeyStable<T>(s: seq<T>, x: T, key: T -> int, k: int)
    requires SortedBy(s, key)
    ensures WithKey(InsertByKey(s, x, key), key, k)
         == WithKey(s, key, k) + (if key(x) == k then [x] else [])
  {
    if s == [] {
      WithKeyCons(x, [], key, k);
      assert InsertByKey(s, x, key) == [x] + [];
    } else if key(x) < key(s[0]) {
      WithKeyCons(x, s, key, k);
      if key(x) == k {
        AfterLargerKeys(s, key, k);
      }
    } else {
      var t := InsertByKey(s[1..], x, key);
      assert InsertByKey(s, x, key) == [s[0]] + t;
      WithKeyCons(s[0], t, key, k);
      assert SortedBy(s[1..], key);
      InsertByKeyStable(s[1..], x, key, k);
      assert s == [s[0]] + s[1..];
      WithKeyCons(s[0], s[1..], key, k);
    }
  }

  /** In a sorted sequence whose first key exceeds `k`, no element has key `k`. */
  lemma {:induction false} AfterLargerKeys<T>(s: seq<T>, key: T -> int, k: int)
    requires SortedBy(s, key) && s != [] && k < key(s[0])
    ensures WithKey(s, key, k) == []
  {
    if |s| > 1 {
      AfterLargerKeys(s[1..], key, k);
    } else {
      assert s[1..] == [];
    }
  }

  /** Stability: the elements that share a key keep their input order. */
  lemma {:induction false} SortByKeyStable<T>(xs: seq<T>, key: T -> int, k: int)
    ensures WithKey(SortByKey(xs, key), key, k) == WithKey(xs, key, k)
  {
    if xs != [] {
      var init, x := xs[..|xs| - 1], xs[|xs| - 1];
      SortByKeyStable(init, key, k);
      SortByKeySorted(init, key);
      InsertByKeyStable(SortByKey(init, key), x, key, k);
      assert xs == init + [x];
      WithKeyAppend(init, [x], key, k);
    }
  }

  predicate SortedStrings(s: seq<string>) {
    forall i, j :: 0 <= i < j < |s| ==> Text.NotAbove(s[i], s[j])
  }

  /** Places `x` in front of the first element above it. */
  function InsertString(s: seq<string>, x: string): (r: seq<string>)
    ensures |r| == |s| + 1
  {
    if s == [] || Text.Below(x, s[0]) then [x] + s
    else [s[0]] + InsertString(s[1..], x)
  }

  lemma {:induction false} InsertStringPerm(s: seq<string>, x: string)
    ensures multiset(InsertString(s, x)) == multiset(s) + multiset{x}
  {
    if s != [] && !Text.Below(x, s[0]) {
      InsertStringPerm(s[1..], x);
      assert s == [s[0]] + s[1..];
    }
  }

  /** `xs.sort()` on strings. */
  function SortStrings(xs: seq<string>): (r: seq<string>)
    ensures |r| == |xs|
  {
    if xs == [] then []
    else InsertString(SortStrings(xs[..|xs| - 1]), xs[|xs| - 1])
  }

  lemma NotAboveTransitive(a: string, b: string, c: string)
    requires Text.NotAbove(a, b) && Text.NotAbove(b, c)
    ensures Text.NotAbove(a, c)
  {
    if a != b && b != c {
      Text.BelowTransitive(a, b, c);
    }
  }

  lemma {:induction false} InsertStringMembers(s: seq<string>, x: string)
    ensures forall y :: y in InsertString(s, x) <==> y == x || y in s
  {
    if s != [] && !Text.Below(x, s[0]) {
      InsertStringMembers(s[1..], x);
      assert s == [s[0]] + s[1..];
    }
  }

  lemma {:induction false} InsertStringSorted(s: seq<string>, x: string)
    requires SortedStrings(s)
    ensures SortedStrings(InsertString(s, x))
  {
    if s != [] && !Text.Below(x, s[0]) {
      assert SortedStrings(s[1..]);
      InsertStringSorted(s[1..], x);
      var t := InsertString(s[1..], x);
      InsertStringMembers(s[1..], x);
      if x != s[0] {
        Text.BelowTotal(x, s[0]);
      }
      forall y | y in t ensures Text.NotAbove(s[0], y) {
        if y != x {
          var k :| 0 <= k < |s[1..]| && s[1..][k] == y;
          assert s[k + 1] == y;
        }
      }
      var r := [s[0]] + t;
      forall i, j | 0 <= i < j < |r| ensures Text.NotAbove(r[i], r[j]) {
        if i == 0 {
          assert r[j] == t[j - 1] && t[j - 1] in t;
        } else {
          assert r[i] == t[i - 1] && r[j] == t[j - 1];
        }
      }
    } else if s != [] {
      forall i | 1 <= i < |s| ensures Text.NotAbove(x, s[i]) {
        NotAboveTransitive(x, s[0], s[i]);
      }
    }
  }


  /** The default sort orders strings character by character, by code point, and is a permutation of the input. */
  lemma {:induction false} SortStringsSorted(xs: seq<string>)
    ensures SortedStrings(SortStrings(xs))
    ensures |SortStrings(xs)| == |xs|
    ensures multiset(SortStrings(xs)) == multiset(xs)
  {
    if xs != [] {
      var init, x := xs[..|xs| - 1], xs[|xs| - 1];
      SortStringsSorted(init);
      InsertStringSorted(SortStrings(init), x);
      InsertStringPerm(SortStrings(init), x);
      assert xs == init + [x];
    }
  }
}
