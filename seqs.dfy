/** Generic facts about sequences used by the analyser and the page script. */
module Seqs {

  /** The elements of a sequence, as a set. */
  function Elems<T>(s: seq<T>): set<T>
  {
    set x | x in s
  }

  /** No element occurs twice. */
  predicate Distinct<T(==)>(s: seq<T>)
  {
    forall i, j :: 0 <= i < j < |s| ==> s[i] != s[j]
  }

  /** A sequence without repetitions has as many elements as its length. */
  lemma {:induction false} DistinctCard<T>(s: seq<T>)
    requires Distinct(s)
    ensures |Elems(s)| == |s|
  {
    if s != [] {
      assert Elems(s) == {s[0]} + Elems(s[1..]);
      assert s[0] !in Elems(s[1..]);
      DistinctCard(s[1..]);
    }
  }

  /** `a` is obtained from `b` by deleting elements (relative order is kept). */
  ghost predicate Subsequence<T>(a: seq<T>, b: seq<T>)
    decreases |b|
  {
    if a == [] then true
    else if b == [] then false
    else (a[0] == b[0] && Subsequence(a[1..], b[1..])) || Subsequence(a, b[1..])
  }

  /** Insertion of one key into the key order of an insertion-ordered dictionary:
      a new key goes to the end, an existing key keeps its place. */
  function InsertKey<T(==)>(keys: seq<T>, k: T): seq<T>
  {
    if k in keys then keys else keys + [k]
  }

  /** Insertion keeps the keys distinct, adds exactly `k`, and moves no existing key. */
  lemma InsertKeySpec<T(!new)>(keys: seq<T>, k: T)
    ensures Distinct(keys) ==> Distinct(InsertKey(keys, k))
    ensures forall x :: x in InsertKey(keys, k) <==> x in keys || x == k
    ensures keys <= InsertKey(keys, k)
  {
  }

  /** The key order after inserting every element of `xs`, in order, into `keys`. */
  function AppendNew<T(==)>(keys: seq<T>, xs: seq<T>): seq<T>
    decreases |xs|
  {
    if xs == [] then keys
    else InsertKey(AppendNew(keys, xs[..|xs| - 1]), xs[|xs| - 1])
  }

  /** Inserting a whole list keeps the keys distinct, adds exactly the elements of `xs`,
      and moves no existing key. */
  lemma {:induction false} AppendNewSpec<T(!new)>(keys: seq<T>, xs: seq<T>)
    ensures Distinct(keys) ==> Distinct(AppendNew(keys, xs))
    ensures forall x :: x in AppendNew(keys, xs) <==> x in keys || x in xs
    ensures keys <= AppendNew(keys, xs)
    decreases |xs|
  {
    if xs != [] {
      var init := xs[..|xs| - 1];
      AppendNewSpec(keys, init);
      InsertKeySpec(AppendNew(keys, init), xs[|xs| - 1]);
      assert forall x :: x in xs <==> x in init || x == xs[|xs| - 1] by {
        assert xs == init + [xs[|xs| - 1]];
      }
    }
  }

  /** Extending the input of `AppendNew` by one element inserts that element. */
  lemma AppendNewSnoc<T>(keys: seq<T>, xs: seq<T>, x: T)
    ensures AppendNew(keys, xs + [x]) == InsertKey(AppendNew(keys, xs), x)
  {
    assert (xs + [x])[..|xs|] == xs;
  }

  /** When the inserted keys are all new and distinct, they are simply appended. */
  lemma {:induction false} AppendNewFresh<T(!new)>(keys: seq<T>, xs: seq<T>)
    requires Distinct(xs)
    requires forall x :: x in xs ==> x !in keys
    ensures AppendNew(keys, xs) == keys + xs
    decreases |xs|
  {
    if xs != [] {
      var init := xs[..|xs| - 1];
      assert Distinct(init);
      AppendNewFresh(keys, init);
      assert xs[|xs| - 1] !in init;
      assert xs[|xs| - 1] !in keys + init;
      assert keys + init + [xs[|xs| - 1]] == keys + xs;
    }
  }

  /** The order-preserving sub-list of the elements satisfying `p`. */
  function Filter<T(!new)>(p: T -> bool, s: seq<T>): (r: seq<T>)
    ensures |r| <= |s|
    ensures forall x :: x in r <==> x in s && p(x)
    ensures Subsequence(r, s)
  {
    if s == [] then []
    else
      assert s == [s[0]] + s[1..];
      var rest := Filter(p, s[1..]);
      if p(s[0]) then [s[0]] + rest else rest
  }

  /** Each element satisfying `p` is kept as often as it occurs; the others are dropped. */
  lemma {:induction false} FilterCount<T(!new)>(p: T -> bool, s: seq<T>, x: T)
    ensures multiset(Filter(p, s))[x] == if p(x) then multiset(s)[x] else 0
  {
    if s != [] {
      assert s == [s[0]] + s[1..];
      FilterCount(p, s[1..], x);
    }
  }

  lemma {:induction false} FilterConcat<T(!new)>(p: T -> bool, a: seq<T>, b: seq<T>)
    ensures Filter(p, a + b) == Filter(p, a) + Filter(p, b)
    decreases |a|
  {
    if a != [] {
      assert (a + b)[0] == a[0];
      assert (a + b)[1..] == a[1..] + b;
      FilterConcat(p, a[1..], b);
      var fa := Filter(p, a[1..]);
      var fb := Filter(p, b);
      assert Filter(p, a + b) == (if p(a[0]) then [a[0]] else []) + Filter(p, a[1..] + b);
      assert Filter(p, a) == (if p(a[0]) then [a[0]] else []) + fa;
    } else {
      assert a + b == b;
    }
  }

  /** Filtering with a predicate every element satisfies keeps everything. */
  lemma {:induction false} FilterAll<T(!new)>(p: T -> bool, s: seq<T>)
    requires forall x :: x in s ==> p(x)
    ensures Filter(p, s) == s
  {
    if s != [] {
      FilterAll(p, s[1..]);
      assert s == [s[0]] + s[1..];
    }
  }

  /** Filtering a list extended by one element extends the filtered list by that element
      exactly when it satisfies `p`. */
  lemma FilterSnoc<T(!new)>(p: T -> bool, s: seq<T>, x: T)
    ensures Filter(p, s + [x]) == Filter(p, s) + (if p(x) then [x] else [])
  {
    FilterConcat(p, s, [x]);
    assert [x][1..] == [];
  }

  /** Filtering one more element of a prefix. */
  lemma FilterPrefixStep<T(!new)>(p: T -> bool, s: seq<T>, i: nat)
    requires i < |s|
    ensures Filter(p, s[..i + 1]) == Filter(p, s[..i]) + (if p(s[i]) then [s[i]] else [])
  {
    assert s[..i + 1] == s[..i] + [s[i]];
    FilterSnoc(p, s[..i], s[i]);
  }

  /** Concatenation is associative; calling this is cheaper than asserting it inline. */
  lemma ConcatAssoc<T>(a: seq<T>, b: seq<T>, c: seq<T>)
    ensures a + b + c == a + (b + c)
  {
  }

  /** Sum of a sequence of reals. */
  function Sum(xs: seq<real>): real
  {
    if xs == [] then 0.0 else xs[0] + Sum(xs[1..])
  }
}
