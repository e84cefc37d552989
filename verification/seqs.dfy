/** Array operations of JavaScript that several modelled functions share: `filter`, `slice` with
    its negative-index rules, the iteration order of a `Set` built by repeated `add`, and
    `Math.max` over a non-empty list. */
module Seqs {
  import opened Tallies
  import Wrappers

  /** `s.filter(p)`. */
  function Filter<T>(s: seq<T>, p: T -> bool): (r: seq<T>)
    ensures |r| <= |s|
  {
    if s == [] then []
    else (if p(s[0]) then [s[0]] else []) + Filter(s[1..], p)
  }

  /** The filtered list keeps exactly the elements that satisfy `p`. */
  lemma {:induction false} FilterMembers<T(!new)>(s: seq<T>, p: T -> bool)
    ensures forall x :: x in Filter(s, p) <==> x in s && p(x)
  {
    if s != [] {
      FilterMembers(s[1..], p);
      assert s == [s[0]] + s[1..];
    }
  }

  /** Filtering twice keeps what satisfies both predicates. */
  lemma {:induction false} FilterFuse<T>(s: seq<T>, p: T -> bool, q: T -> bool, both: T -> bool)
    requires forall x :: x in s ==> both(x) == (p(x) && q(x))
    ensures Filter(Filter(s, p), q) == Filter(s, both)
  {
    if s != [] {
      FilterFuse(s[1..], p, q, both);
      var rest := Filter(s[1..], p);
      if p(s[0]) {
        assert ([s[0]] + rest)[1..] == rest;
      } else {
        assert [] + rest == rest;
      }
    }
  }

  /** The filter only depends on the predicate's values on the list. */
  lemma {:induction false} FilterSame<T>(s: seq<T>, p: T -> bool, q: T -> bool)
    requires forall x :: x in s ==> p(x) == q(x)
    ensures Filter(s, p) == Filter(s, q)
  {
    if s != [] {
      FilterSame(s[1..], p, q);
    }
  }

  /** A filter that every element passes keeps the list as it is. */
  lemma {:induction false} FilterAllPass<T>(s: seq<T>, p: T -> bool)
    requires forall x :: x in s ==> p(x)
    ensures Filter(s, p) == s
  {
    if s != [] {
      FilterAllPass(s[1..], p);
      assert s == [s[0]] + s[1..];
    }
  }

  /** `xs.map(f).filter(Boolean)` for an `f` that gives `null` for the elements to drop. */
  function FilterMap<A, B>(xs: seq<A>, f: A -> Wrappers.Option<B>): (r: seq<B>)
    ensures |r| <= |xs|
  {
    if xs == [] then []
    else (if f(xs[0]).Some? then [f(xs[0]).value] else []) + FilterMap(xs[1..], f)
  }

  /** The elements `f` drops. */
  function NoneOf<A, B>(f: A -> Wrappers.Option<B>): A -> bool {
    (x: A) => f(x).None?
  }

  /** The results kept are exactly the results `f` gives on the elements. */
  lemma {:induction false} FilterMapMembers<A(!new), B(!new)>(xs: seq<A>, f: A -> Wrappers.Option<B>)
    ensures forall y :: y in FilterMap(xs, f) <==> exists x :: x in xs && f(x) == Wrappers.Some(y)
  {
    if xs != [] {
      FilterMapMembers(xs[1..], f);
      assert xs == [xs[0]] + xs[1..];
    }
  }

  /** The inductive step of `FilterMapAppend`: the first element of `a` in front of both sides. */
  lemma FilterMapAppendStep<A, B>(a: seq<A>, b: seq<A>, f: A -> Wrappers.Option<B>)
    requires a != []
    requires FilterMap(a[1..] + b, f) == FilterMap(a[1..], f) + FilterMap(b, f)
    ensures FilterMap(a + b, f) == FilterMap(a, f) + FilterMap(b, f)
  {
    var head := if f(a[0]).Some? then [f(a[0]).value] else [];
    assert (a + b)[0] == a[0] && (a + b)[1..] == a[1..] + b;
    assert FilterMap(a + b, f) == head + FilterMap(a[1..] + b, f);
    assert FilterMap(a, f) == head + FilterMap(a[1..], f);
    ConcatAssoc(head, FilterMap(a[1..], f), FilterMap(b, f));
  }

  lemma ConcatAssoc<T>(x: seq<T>, y: seq<T>, z: seq<T>)
    ensures x + (y + z) == (x + y) + z
  {
  }

  /** Mapping a concatenation maps each part in turn: the results keep the order of the elements. */
  lemma {:induction false} FilterMapAppend<A, B>(a: seq<A>, b: seq<A>, f: A -> Wrappers.Option<B>)
    ensures FilterMap(a + b, f) == FilterMap(a, f) + FilterMap(b, f)
  {
    if a == [] {
      assert a + b == b;
    } else {
      FilterMapAppend(a[1..], b, f);
      FilterMapAppendStep(a, b, f);
    }
  }

  /** One result is kept for each element that `f` does not drop. */
  lemma {:induction false} FilterMapCount<A, B>(xs: seq<A>, f: A -> Wrappers.Option<B>)
    ensures |FilterMap(xs, f)| == |xs| - CountWhere(xs, NoneOf(f))
  {
    if xs != [] {
      FilterMapCount(xs[1..], f);
      assert xs == [xs[0]] + xs[1..];
      CountWhereAppend([xs[0]], xs[1..], NoneOf(f));
      assert [xs[0]][..0] == [];
    }
  }

  /** `s.some(p)`. */
  predicate Any<T(!new)>(s: seq<T>, p: T -> bool)
    ensures Any(s, p) <==> exists x :: x in s && p(x)
  {
    s != [] && (p(s[0]) || (assert forall x :: x in s[1..] ==> x in s; Any(s[1..], p)))
  }

  /** The position `slice` starts or stops at for an argument `x` on a list of length `len`:
      a negative argument counts from the end, and both are clamped to the list. */
  function SliceIndex(x: int, len: nat): (i: nat)
    ensures i <= len
    ensures 0 <= x <= len ==> i == x
  {
    if x < 0 then (if len + x < 0 then 0 else len + x)
    else if x > len then len
    else x
  }

  /** `s.slice(start, end)`. */
  function Slice<T>(s: seq<T>, start: int, end: int): (r: seq<T>)
    ensures |r| <= |s|
    ensures start <= end ==> |r| <= end - start
    ensures 0 <= start <= |s| && start <= end ==> r == s[start..if end <= |s| then end else |s|]
  {
    var a, b := SliceIndex(start, |s|), SliceIndex(end, |s|);
    if a < b then s[a..b] else []
  }

  /** The elements a slice keeps are elements of the list, in the list's relative order. */
  lemma SliceWithin<T>(s: seq<T>, start: int, end: int)
    ensures exists a, b :: 0 <= a <= b <= |s| && Slice(s, start, end) == s[a..b]
  {
    var a, b := SliceIndex(start, |s|), SliceIndex(end, |s|);
    if a < b {
      assert 0 <= a <= b <= |s| && Slice(s, start, end) == s[a..b];
    } else {
      assert 0 <= a <= a <= |s| && Slice(s, start, end) == s[a..a];
    }
  }

  /** `ids` with `x` added the way `Set.prototype.add` adds it: appended when new. */
  function AddNew<T(==)>(ids: seq<T>, x: T): seq<T> {
    if x in ids then ids else ids + [x]
  }

  /** `[...new Set(xs)]`: the distinct elements of `xs`, in the order of their first occurrence. */
  function FirstSeen<T(==)>(xs: seq<T>): (r: seq<T>)
    ensures |r| <= |xs|
  {
    if xs == [] then [] else AddNew(FirstSeen(xs[..|xs| - 1]), xs[|xs| - 1])
  }

  lemma FirstSeenSnoc<T>(xs: seq<T>, x: T)
    ensures FirstSeen(xs + [x]) == AddNew(FirstSeen(xs), x)
  {
    assert (xs + [x])[..|xs|] == xs;
  }

  /** The distinct elements are the keys of the insertion-ordered dictionary of `xs`, so they
      follow the order of first occurrence. */
  lemma {:induction false} FirstSeenIsTallyKeys<T>(xs: seq<T>)
    ensures FirstSeen(xs) == TallyOf(xs).keys
    ensures FirstSeenOrder(FirstSeen(xs), xs)
  {
    TallyOfOrder(xs);
    if xs != [] {
      var init, x := xs[..|xs| - 1], xs[|xs| - 1];
      FirstSeenIsTallyKeys(init);
      TallyOfContents(init);
      assert x in TallyOf(init).counts <==> x in FirstSeen(init);
    }
  }

  /** The distinct elements are listed once each, are exactly the elements of `xs`, and follow the
      order of first occurrence. */
  lemma FirstSeenFacts<T(!new)>(xs: seq<T>)
    ensures NoDuplicates(FirstSeen(xs))
    ensures forall x :: x in FirstSeen(xs) <==> x in xs
    ensures FirstSeenOrder(FirstSeen(xs), xs)
  {
    FirstSeenIsTallyKeys(xs);
    TallyOfContents(xs);
  }

  /** Each listed element is an element of `xs`. */
  lemma FirstSeenWithin<T>(xs: seq<T>, t: nat)
    requires t < |FirstSeen(xs)|
    ensures FirstSeen(xs)[t] in xs
  {
    FirstSeenIsTallyKeys(xs);
    TallyOfContents(xs);
  }

  /** `Math.max(...xs)` for a non-empty list. */
  function Max(xs: seq<int>): (m: int)
    requires xs != []
    ensures m in xs && forall x :: x in xs ==> x <= m
  {
    if |xs| == 1 then xs[0]
    else
      var rest := Max(xs[1..]);
      assert xs == [xs[0]] + xs[1..];
      if xs[0] >= rest then xs[0] else rest
  }
}
