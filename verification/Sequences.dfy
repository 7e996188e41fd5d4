/** Sequence vocabulary shared by the models: the array operations of the frontend
    stores written as functions on values. */
module Sequences {

  /** `xs.filter(p)`. */
  function Filter<T>(xs: seq<T>, p: T -> bool): (r: seq<T>) {
    if xs == [] then [] else (if p(xs[0]) then [xs[0]] else []) + Filter(xs[1..], p)
  }

  /** `xs.indexOf(x)`. */
  function IndexOf<T(==)>(xs: seq<T>, x: T): (i: int)
    ensures -1 <= i < |xs|
    ensures i >= 0 ==> xs[i] == x && x !in xs[..i]
    ensures i < 0 <==> x !in xs
  {
    if xs == [] then -1
    else if xs[0] == x then 0
    else var k := IndexOf(xs[1..], x); if k < 0 then -1 else k + 1
  }

  /** `xs.splice(i, 1)`. */
  function Remove<T>(xs: seq<T>, i: nat): (r: seq<T>)
    requires i < |xs|
    ensures |r| == |xs| - 1
    ensures forall j {:trigger r[j]} :: 0 <= j < |r| ==> r[j] == if j < i then xs[j] else xs[j + 1]
  {
    xs[..i] + xs[i + 1..]
  }

  /** `xs.splice(i, 0, x)`. */
  function Insert<T>(xs: seq<T>, i: nat, x: T): (r: seq<T>)
    requires i <= |xs|
    ensures |r| == |xs| + 1
    ensures forall j {:trigger r[j]} :: 0 <= j < |r| ==>
      r[j] == if j < i then xs[j] else if j == i then x else xs[j - 1]
  {
    xs[..i] + [x] + xs[i..]
  }

  ghost predicate Distinct<T>(xs: seq<T>) {
    forall i, j :: 0 <= i < j < |xs| ==> xs[i] != xs[j]
  }

  lemma {:induction false} FilterAppend<T>(xs: seq<T>, ys: seq<T>, p: T -> bool)
    ensures Filter(xs + ys, p) == Filter(xs, p) + Filter(ys, p)
  {
    if xs == [] {
      assert xs + ys == ys;
    } else {
      assert (xs + ys)[1..] == xs[1..] + ys;
      FilterAppend(xs[1..], ys, p);
      var head := if p(xs[0]) then [xs[0]] else [];
      assert (head + Filter(xs[1..], p)) + Filter(ys, p) == head + (Filter(xs[1..], p) + Filter(ys, p));
    }
  }

  lemma {:induction false} FilterMember<T>(xs: seq<T>, p: T -> bool, x: T)
    ensures x in Filter(xs, p) <==> x in xs && p(x)
  {
    if xs != [] {
      FilterMember(xs[1..], p, x);
      assert x in xs <==> x == xs[0] || x in xs[1..];
    }
  }

  lemma {:induction false} FilterAll<T>(xs: seq<T>, p: T -> bool)
    requires forall x :: x in xs ==> p(x)
    ensures Filter(xs, p) == xs
  {
    if xs != [] {
      assert xs[0] in xs;
      assert forall x :: x in xs[1..] ==> x in xs;
      FilterAll(xs[1..], p);
      assert xs == [xs[0]] + xs[1..];
    }
  }

  function Not<T>(p: T -> bool): T -> bool { x => !p(x) }

  /** A predicate splits a sequence in two. */
  lemma {:induction false} FilterPartition<T>(xs: seq<T>, p: T -> bool)
    ensures multiset(xs) == multiset(Filter(xs, p)) + multiset(Filter(xs, Not(p)))
  {
    if xs != [] {
      FilterPartition(xs[1..], p);
      assert xs == [xs[0]] + xs[1..];
    }
  }

  lemma {:induction false} FilterSkips<T>(before: seq<T>, x: T, after: seq<T>, p: T -> bool)
    requires !p(x)
    ensures Filter(before + [x] + after, p) == Filter(before + after, p)
  {
    if before == [] {
      assert before + [x] + after == [x] + after;
      assert ([x] + after)[1..] == after;
      assert before + after == after;
    } else {
      assert (before + [x] + after)[1..] == before[1..] + [x] + after;
      assert (before + after)[1..] == before[1..] + after;
      FilterSkips(before[1..], x, after, p);
    }
  }

  /** Removing an element the predicate rejects does not change the filtered sequence. */
  lemma FilterRemove<T>(xs: seq<T>, i: nat, p: T -> bool)
    requires i < |xs| && !p(xs[i])
    ensures Filter(Remove(xs, i), p) == Filter(xs, p)
  {
    SplitAt(xs, i);
    FilterSkips(xs[..i], xs[i], xs[i + 1..], p);
  }

  lemma FilterInsert<T>(xs: seq<T>, i: nat, x: T, p: T -> bool)
    requires i <= |xs| && !p(x)
    ensures Filter(Insert(xs, i, x), p) == Filter(xs, p)
  {
    FilterSkips(xs[..i], x, xs[i..], p);
    assert xs == xs[..i] + xs[i..];
  }

  lemma SplitAt<T>(xs: seq<T>, i: nat)
    requires i < |xs|
    ensures xs == xs[..i] + [xs[i]] + xs[i + 1..]
  {
  }

  lemma MultisetRemove<T>(xs: seq<T>, i: nat)
    requires i < |xs|
    ensures multiset(xs) == multiset(Remove(xs, i)) + multiset{xs[i]}
  {
    assert xs == xs[..i] + [xs[i]] + xs[i + 1..];
  }

  lemma MultisetInsert<T>(xs: seq<T>, i: nat, x: T)
    requires i <= |xs|
    ensures multiset(Insert(xs, i, x)) == multiset(xs) + multiset{x}
  {
    assert xs == xs[..i] + xs[i..];
  }

  lemma DistinctHead<T>(x: T, tail: seq<T>)
    ensures Distinct([x] + tail) <==> x !in tail && Distinct(tail)
  {
    var xs := [x] + tail;
    assert forall i :: 0 <= i < |tail| ==> tail[i] == xs[i + 1];
    if x !in tail && Distinct(tail) {
      forall i, j | 0 <= i < j < |xs| ensures xs[i] != xs[j] {
        assert xs[j] == tail[j - 1];
        assert i > 0 ==> xs[i] == tail[i - 1];
      }
    }
    if Distinct(xs) {
      forall i | 0 <= i < |tail| ensures tail[i] != x { assert xs[0] != xs[i + 1]; }
    }
  }

  /** Distinctness read off the element counts. */
  lemma {:induction false} DistinctCounts<T>(xs: seq<T>)
    ensures Distinct(xs) <==> forall x :: x in xs ==> multiset(xs)[x] == 1
  {
    if xs != [] {
      var tail := xs[1..];
      DistinctCounts(tail);
      DistinctHead(xs[0], tail);
      assert xs == [xs[0]] + tail;
      assert multiset(xs) == multiset{xs[0]} + multiset(tail);
      assert forall x :: x in xs <==> x == xs[0] || x in tail;
      assert xs[0] !in tail <==> multiset(xs)[xs[0]] == 1;
      if xs[0] !in tail {
        assert forall x :: x in tail ==> multiset(xs)[x] == multiset(tail)[x];
      }
    }
  }

  /** A permutation of distinct elements is distinct. */
  lemma DistinctPermutation<T>(xs: seq<T>, ys: seq<T>)
    requires Distinct(xs) && multiset(xs) == multiset(ys)
    ensures Distinct(ys)
  {
    DistinctCounts(xs);
    DistinctCounts(ys);
    forall x | x in ys ensures multiset(ys)[x] == 1 {
      assert x in multiset(xs);
    }
  }

  lemma DistinctAppend<T>(xs: seq<T>, ys: seq<T>)
    requires Distinct(xs) && Distinct(ys) && forall y :: y in ys ==> y !in xs
    ensures Distinct(xs + ys)
  {
    var zs := xs + ys;
    forall i, j | 0 <= i < j < |zs| ensures zs[i] != zs[j] {
      assert j >= |xs| ==> zs[j] in ys;
      assert i < |xs| ==> zs[i] in xs;
    }
  }

  /** In a distinct sequence the index of an element is unique. */
  lemma IndexUnique<T>(xs: seq<T>, i: nat)
    requires Distinct(xs) && i < |xs|
    ensures IndexOf(xs, xs[i]) == i
  {
    var k := IndexOf(xs, xs[i]);
    assert k >= 0 && xs[k] == xs[i];
  }
}
