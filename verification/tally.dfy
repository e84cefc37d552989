/** The insertion-ordered counting dictionary that three builders share: a JavaScript `Map` or
    plain object updated by `m[k] = (m[k] ?? 0) + 1`, whose entries iterate in the order in which
    their keys were first inserted. */
module Tallies {

  datatype Tally<K> = Tally(keys: seq<K>, counts: map<K, nat>)

  predicate NoDuplicates<T(==)>(s: seq<T>) {
    forall i, j :: 0 <= i < j < |s| ==> s[i] != s[j]
  }

  /** One increment `m[k] = (m[k] ?? 0) + 1`: a new key is appended, a known key keeps its place. */
  function Bump<K>(t: Tally<K>, k: K): Tally<K> {
    if k in t.counts then Tally(t.keys, t.counts[k := t.counts[k] + 1])
    else Tally(t.keys + [k], t.counts[k := 1])
  }

  /** The dictionary after incrementing the key of every element of `xs`, left to right. */
  function TallyOf<K>(xs: seq<K>): Tally<K> {
    if xs == [] then Tally([], map[])
    else Bump(TallyOf(xs[..|xs| - 1]), xs[|xs| - 1])
  }

  lemma TallyOfSnoc<K>(xs: seq<K>, x: K)
    ensures TallyOf(xs + [x]) == Bump(TallyOf(xs), x)
  {
    assert (xs + [x])[..|xs|] == xs;
  }

  /** Number of elements of `xs` that satisfy `p`. */
  function CountWhere<K>(xs: seq<K>, p: K -> bool): nat {
    if xs == [] then 0
    else CountWhere(xs[..|xs| - 1], p) + (if p(xs[|xs| - 1]) then 1 else 0)
  }

  /** Sum of the counts of the keys that satisfy `p`. */
  function SumWhere<K>(keys: seq<K>, counts: map<K, nat>, p: K -> bool): nat
    requires forall k :: k in keys ==> k in counts
  {
    if keys == [] then 0
    else (if p(keys[0]) then counts[keys[0]] else 0) + SumWhere(keys[1..], counts, p)
  }

  /** Index of the first occurrence of `x` in `xs`. */
  function FirstIndex<K(==)>(xs: seq<K>, x: K): (i: nat)
    requires x in xs
    ensures i < |xs| && xs[i] == x && x !in xs[..i]
  {
    if xs[0] == x then 0 else 1 + FirstIndex(xs[1..], x)
  }

  lemma {:induction false} MultiplicityOfDistinct<T>(s: seq<T>, x: T)
    requires NoDuplicates(s)
    ensures multiset(s)[x] <= 1
  {
    if s != [] {
      MultiplicityOfDistinct(s[1..], x);
      assert s == [s[0]] + s[1..];
      assert s[0] !in s[1..];
    }
  }

  /** A rearrangement of a sequence without duplicates has none either. */
  lemma DistinctPermutation<T>(a: seq<T>, b: seq<T>)
    requires multiset(a) == multiset(b) && NoDuplicates(a)
    ensures NoDuplicates(b)
  {
    forall i, j | 0 <= i < j < |b| ensures b[i] != b[j] {
      if b[i] == b[j] {
        assert b == b[..i] + [b[i]] + b[i + 1..j] + [b[j]] + b[j + 1..];
        assert multiset(b)[b[i]] >= 2;
        MultiplicityOfDistinct(a, b[i]);
        assert false;
      }
    }
  }

  /** The dictionary's keys are exactly the distinct elements, each once, and each count is the
      element's multiplicity, so every count is at least one. */
  lemma {:induction false} TallyOfContents<K>(xs: seq<K>)
    ensures NoDuplicates(TallyOf(xs).keys)
    ensures forall k :: k in TallyOf(xs).keys <==> k in xs
    ensures forall k :: k in TallyOf(xs).counts <==> k in xs
    ensures forall k :: k in TallyOf(xs).counts ==> TallyOf(xs).counts[k] == multiset(xs)[k] >= 1
  {
    if xs != [] {
      var init, x := xs[..|xs| - 1], xs[|xs| - 1];
      TallyOfContents(init);
      assert xs == init + [x];
      assert multiset(xs) == multiset(init) + multiset{x};
    }
  }

  /** Every key occurs in `xs`, and the keys are listed in the order of their first occurrence. */
  predicate FirstSeenOrder<K(==)>(keys: seq<K>, xs: seq<K>) {
    && (forall k :: k in keys ==> k in xs)
    && forall i, j :: 0 <= i < j < |keys| ==> FirstIndex(xs, keys[i]) < FirstIndex(xs, keys[j])
  }

  /** The dictionary lists its keys in the order of their first occurrence in `xs`. */
  lemma {:induction false} TallyOfOrder<K>(xs: seq<K>)
    ensures FirstSeenOrder(TallyOf(xs).keys, xs)
  {
    if xs != [] {
      var init, x := xs[..|xs| - 1], xs[|xs| - 1];
      TallyOfOrder(init);
      TallyOfContents(init);
      assert xs == init + [x];
      FirstSeenOrderExtend(TallyOf(init).keys, init, x);
    }
  }

  lemma FirstSeenOrderExtend<K>(keys: seq<K>, init: seq<K>, x: K)
    requires FirstSeenOrder(keys, init)
    requires forall k :: k in init ==> k in keys
    ensures FirstSeenOrder(keys, init + [x])
    ensures x !in init ==> FirstSeenOrder(keys + [x], init + [x])
  {
    var xs := init + [x];
    forall i, j | 0 <= i < j < |keys| ensures FirstIndex(xs, keys[i]) < FirstIndex(xs, keys[j]) {
      FirstIndexOfPrefix(init, x, keys[i]);
      FirstIndexOfPrefix(init, x, keys[j]);
    }
    if x !in init {
      var ks := keys + [x];
      forall i, j | 0 <= i < j < |ks| ensures FirstIndex(xs, ks[i]) < FirstIndex(xs, ks[j]) {
        if j == |keys| {
          FirstIndexOfPrefix(init, x, ks[i]);
          FirstIndexOfAppended(init, x);
        }
      }
    }
  }

  lemma FirstIndexOfPrefix<K>(init: seq<K>, x: K, y: K)
    requires y in init
    ensures y in init + [x] && FirstIndex(init + [x], y) == FirstIndex(init, y)
  {
    var i := FirstIndex(init, y);
    assert (init + [x])[..i] == init[..i];
    assert (init + [x])[i] == y;
  }

  lemma FirstIndexOfAppended<K>(init: seq<K>, x: K)
    requires x !in init
    ensures FirstIndex(init + [x], x) == |init|
  {
    assert (init + [x])[..|init|] == init;
  }

  lemma {:induction false} SumWhereAppend<K>(a: seq<K>, b: seq<K>, counts: map<K, nat>, p: K -> bool)
    requires forall k :: k in a + b ==> k in counts
    ensures SumWhere(a + b, counts, p) == SumWhere(a, counts, p) + SumWhere(b, counts, p)
  {
    if a != [] {
      assert (a + b)[1..] == a[1..] + b;
      SumWhereAppend(a[1..], b, counts, p);
    } else {
      assert a + b == b;
    }
  }

  /** The sum only depends on the counts of the listed keys. */
  lemma {:induction false} SumWhereFrame<K>(keys: seq<K>, c1: map<K, nat>, c2: map<K, nat>, p: K -> bool)
    requires forall k :: k in keys ==> k in c1 && k in c2 && c1[k] == c2[k]
    ensures SumWhere(keys, c1, p) == SumWhere(keys, c2, p)
  {
    if keys != [] {
      SumWhereFrame(keys[1..], c1, c2, p);
    }
  }

  /** Incrementing the count of a key that is listed once raises the sum by one when it satisfies `p`. */
  lemma {:induction false} SumWhereBump<K>(keys: seq<K>, counts: map<K, nat>, k: K, p: K -> bool)
    requires NoDuplicates(keys) && k in keys
    requires forall j :: j in keys ==> j in counts
    ensures SumWhere(keys, counts[k := counts[k] + 1], p) == SumWhere(keys, counts, p) + (if p(k) then 1 else 0)
  {
    var c2 := counts[k := counts[k] + 1];
    if keys[0] == k {
      assert k !in keys[1..];
      SumWhereFrame(keys[1..], counts, c2, p);
    } else {
      SumWhereBump(keys[1..], counts, k, p);
    }
  }

  /** One increment raises the sum by one when the key satisfies `p`. */
  lemma SumWhereStep<K>(t: Tally<K>, x: K, p: K -> bool)
    requires NoDuplicates(t.keys)
    requires forall k :: k in t.keys <==> k in t.counts
    ensures forall k :: k in Bump(t, x).keys ==> k in Bump(t, x).counts
    ensures SumWhere(Bump(t, x).keys, Bump(t, x).counts, p) == SumWhere(t.keys, t.counts, p) + (if p(x) then 1 else 0)
  {
    if x in t.counts {
      SumWhereBump(t.keys, t.counts, x, p);
    } else {
      var c2 := t.counts[x := 1];
      SumWhereAppend(t.keys, [x], c2, p);
      SumWhereFrame(t.keys, t.counts, c2, p);
      assert [x][1..] == [];
    }
  }

  /** Summing the counts of the keys that satisfy `p` counts the elements that satisfy `p`. */
  lemma {:induction false} TallyOfSum<K>(xs: seq<K>, p: K -> bool)
    ensures forall k :: k in TallyOf(xs).keys ==> k in TallyOf(xs).counts
    ensures SumWhere(TallyOf(xs).keys, TallyOf(xs).counts, p) == CountWhere(xs, p)
  {
    TallyOfContents(xs);
    if xs != [] {
      var init, x := xs[..|xs| - 1], xs[|xs| - 1];
      TallyOfSum(init, p);
      TallyOfContents(init);
      SumWhereStep(TallyOf(init), x, p);
    }
  }

  lemma {:induction false} CountWhereAppend<K>(a: seq<K>, b: seq<K>, p: K -> bool)
    ensures CountWhere(a + b, p) == CountWhere(a, p) + CountWhere(b, p)
  {
    if b != [] {
      assert (a + b)[..|a + b| - 1] == a + b[..|b| - 1];
      CountWhereAppend(a, b[..|b| - 1], p);
    } else {
      assert a + b == a;
    }
  }

  lemma {:induction false} CountWhereAll<K>(xs: seq<K>, p: K -> bool)
    requires forall x :: x in xs ==> p(x)
    ensures CountWhere(xs, p) == |xs|
  {
    if xs != [] {
      CountWhereAll(xs[..|xs| - 1], p);
    }
  }

  lemma {:induction false} CountWhereBound<K>(xs: seq<K>, p: K -> bool)
    ensures CountWhere(xs, p) <= |xs|
  {
    if xs != [] {
      CountWhereBound(xs[..|xs| - 1], p);
    }
  }
}
