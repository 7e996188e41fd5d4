/** `Array.prototype.sort` with a comparator: the specification of the built-in, which is
    stable since ECMAScript 2019 (section 23.1.3.30, SortIndexedProperties). */
module StableSort {
  import opened Sequences

  /** The comparator, read as "may stand before": reflexive by totality, and transitive. */
  ghost predicate TotalPreorder<T(!new)>(le: (T, T) -> bool) {
    && (forall x, y :: le(x, y) || le(y, x))
    && (forall x, y, z :: le(x, y) && le(y, z) ==> le(x, z))
  }

  ghost predicate Sorted<T>(xs: seq<T>, le: (T, T) -> bool) {
    forall i, j :: 0 <= i < j < |xs| ==> le(xs[i], xs[j])
  }

  function Place<T>(x: T, xs: seq<T>, le: (T, T) -> bool): (r: seq<T>) {
    if xs == [] then [x]
    else if le(x, xs[0]) then [x] + xs
    else [xs[0]] + Place(x, xs[1..], le)
  }

  function Sort<T>(xs: seq<T>, le: (T, T) -> bool): (r: seq<T>) {
    if xs == [] then [] else Place(xs[0], Sort(xs[1..], le), le)
  }

  lemma {:induction false} PlacePermutes<T>(x: T, xs: seq<T>, le: (T, T) -> bool)
    ensures multiset(Place(x, xs, le)) == multiset(xs) + multiset{x}
  {
    if xs != [] {
      assert xs == [xs[0]] + xs[1..];
      PlacePermutes(x, xs[1..], le);
    }
  }

  lemma {:induction false} SortPermutes<T>(xs: seq<T>, le: (T, T) -> bool)
    ensures multiset(Sort(xs, le)) == multiset(xs)
    ensures |Sort(xs, le)| == |xs|
  {
    if xs != [] {
      SortPermutes(xs[1..], le);
      PlacePermutes(xs[0], Sort(xs[1..], le), le);
      assert xs == [xs[0]] + xs[1..];
    }
    assert |multiset(Sort(xs, le))| == |multiset(xs)|;
  }

  lemma {:induction false} PlaceSorted<T(!new)>(x: T, xs: seq<T>, le: (T, T) -> bool)
    requires TotalPreorder(le) && Sorted(xs, le)
    ensures Sorted(Place(x, xs, le), le)
  {
    if xs == [] {
    } else if le(x, xs[0]) {
      assert forall j :: 0 <= j < |xs| ==> le(x, xs[j]);
    } else {
      PlaceSorted(x, xs[1..], le);
      PlacePermutes(x, xs[1..], le);
      var r := Place(x, xs[1..], le);
      forall j | 0 <= j < |r| ensures le(xs[0], r[j]) {
        assert r[j] in multiset(r);
        assert r[j] == x || r[j] in xs[1..];
      }
    }
  }

  lemma {:induction false} SortSorts<T(!new)>(xs: seq<T>, le: (T, T) -> bool)
    requires TotalPreorder(le)
    ensures Sorted(Sort(xs, le), le)
  {
    if xs != [] {
      SortSorts(xs[1..], le);
      PlaceSorted(xs[0], Sort(xs[1..], le), le);
    }
  }

  /** Sorting a sorted sequence changes nothing. */
  lemma {:induction false} SortFixesSorted<T>(xs: seq<T>, le: (T, T) -> bool)
    requires Sorted(xs, le)
    ensures Sort(xs, le) == xs
  {
    if xs != [] {
      SortFixesSorted(xs[1..], le);
    }
  }

  function Tied<T>(x: T, le: (T, T) -> bool): T -> bool {
    y => le(x, y) && le(y, x)
  }

  lemma {:induction false} PlaceStable<T(!new)>(k: T, x: T, xs: seq<T>, le: (T, T) -> bool)
    requires TotalPreorder(le)
    ensures Filter(Place(x, xs, le), Tied(k, le)) == Filter([x] + xs, Tied(k, le))
  {
    if xs == [] || le(x, xs[0]) {
      assert xs == [] ==> [x] + xs == [x];
    } else {
      PlaceStable(k, x, xs[1..], le);
      var t := Tied(k, le);
      FilterAppend([x], xs[1..], t);
      FilterAppend([x], xs, t);
      assert Place(x, xs, le)[1..] == Place(x, xs[1..], le);
      assert !(t(x) && t(xs[0]));
    }
  }

  /** Stability: elements that compare equal to any `k` keep their order. */
  lemma {:induction false} SortStable<T(!new)>(k: T, xs: seq<T>, le: (T, T) -> bool)
    requires TotalPreorder(le)
    ensures Filter(Sort(xs, le), Tied(k, le)) == Filter(xs, Tied(k, le))
  {
    if xs != [] {
      var rest := Sort(xs[1..], le);
      SortStable(k, xs[1..], le);
      PlaceStable(k, xs[0], rest, le);
      FilterAppend([xs[0]], rest, Tied(k, le));
      FilterAppend([xs[0]], xs[1..], Tied(k, le));
      assert xs == [xs[0]] + xs[1..];
    }
  }
}
