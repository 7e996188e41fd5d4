/** Lists whose entries carry a key, edited the way a JavaScript Map or an array searched by
    id is: `set`, `delete`, `findIndex` and `sort`. */
module KeyedLists {
  import opened Sequences
  import StableSort

  datatype Option<+T> = None | Some(value: T)

  /** `xs.find(x => key(x) === k)`. */
  function Find<T, K(==)>(xs: seq<T>, key: T -> K, k: K): (r: Option<T>)
    ensures r.Some? ==> r.value in xs && key(r.value) == k
    ensures r.None? ==> forall x :: x in xs ==> key(x) != k
  {
    if xs == [] then None
    else if key(xs[0]) == k then Some(xs[0])
    else Find(xs[1..], key, k)
  }

  predicate UniqueKeys<T, K(==)>(xs: seq<T>, key: T -> K) {
    xs == [] || (Find(xs[1..], key, key(xs[0])) == None && UniqueKeys(xs[1..], key))
  }

  /** `map.set(key(x), x)`: an entry keeps its place. */
  function Put<T, K(==)>(xs: seq<T>, key: T -> K, x: T): (r: seq<T>)
    ensures r != []
  {
    if xs == [] then [x]
    else if key(xs[0]) == key(x) then [x] + xs[1..]
    else [xs[0]] + Put(xs[1..], key, x)
  }

  /** `xs.filter(x => key(x) !== k)`. */
  function Drop<T, K(==)>(xs: seq<T>, key: T -> K, k: K): (r: seq<T>) {
    if xs == [] then []
    else if key(xs[0]) == k then Drop(xs[1..], key, k)
    else [xs[0]] + Drop(xs[1..], key, k)
  }

  /** Unique keys, by position. */
  lemma {:induction false} UniqueByPosition<T, K>(xs: seq<T>, key: T -> K)
    ensures UniqueKeys(xs, key) <==> forall i, j :: 0 <= i < j < |xs| ==> key(xs[i]) != key(xs[j])
  {
    if xs != [] {
      var tail := xs[1..];
      UniqueByPosition(tail, key);
      assert forall i :: 0 <= i < |tail| ==> tail[i] == xs[i + 1];
      assert forall i :: 1 <= i < |xs| ==> xs[i] == tail[i - 1];
      assert Find(tail, key, key(xs[0])) == None <==> forall j :: 0 < j < |xs| ==> key(xs[0]) != key(xs[j]);
    }
  }

  /** With unique keys an entry is what its key finds. */
  lemma {:induction false} FindMember<T, K>(xs: seq<T>, key: T -> K, x: T)
    requires UniqueKeys(xs, key) && x in xs
    ensures Find(xs, key, key(x)) == Some(x)
  {
    if xs[0] != x {
      assert x in xs[1..];
      FindMember(xs[1..], key, x);
    }
  }

  lemma {:induction false} FindPut<T, K>(xs: seq<T>, key: T -> K, x: T, k: K)
    ensures Find(Put(xs, key, x), key, k) == if k == key(x) then Some(x) else Find(xs, key, k)
  {
    if xs != [] && key(xs[0]) != key(x) {
      FindPut(xs[1..], key, x, k);
    }
  }

  lemma {:induction false} PutUnique<T, K>(xs: seq<T>, key: T -> K, x: T)
    requires UniqueKeys(xs, key)
    ensures UniqueKeys(Put(xs, key, x), key)
  {
    if xs != [] && key(xs[0]) != key(x) {
      PutUnique(xs[1..], key, x);
      FindPut(xs[1..], key, x, key(xs[0]));
    }
  }

  /** Putting an entry whose key is new appends it. */
  lemma {:induction false} PutAppends<T, K>(xs: seq<T>, key: T -> K, x: T)
    requires Find(xs, key, key(x)) == None
    ensures Put(xs, key, x) == xs + [x]
  {
    if xs != [] {
      PutAppends(xs[1..], key, x);
      assert xs + [x] == [xs[0]] + (xs[1..] + [x]);
    }
  }

  /** Putting an entry whose key is at index `i` replaces it there. */
  lemma {:induction false} PutReplaces<T, K>(xs: seq<T>, key: T -> K, x: T, i: nat)
    requires i < |xs| && key(xs[i]) == key(x) && Find(xs[..i], key, key(x)) == None
    ensures Put(xs, key, x) == xs[i := x]
  {
    if i > 0 {
      assert xs[..i][0] == xs[0] && xs[..i][1..] == xs[1..][..i - 1];
      PutReplaces(xs[1..], key, x, i - 1);
      assert xs[i := x] == [xs[0]] + xs[1..][i - 1 := x];
    } else {
      assert xs[0 := x] == [x] + xs[1..];
    }
  }

  lemma {:induction false} FindDrop<T, K>(xs: seq<T>, key: T -> K, k: K, j: K)
    ensures Find(Drop(xs, key, k), key, j) == if j == k then None else Find(xs, key, j)
  {
    if xs != [] {
      FindDrop(xs[1..], key, k, j);
    }
  }

  lemma {:induction false} DropUnique<T, K>(xs: seq<T>, key: T -> K, k: K)
    requires UniqueKeys(xs, key)
    ensures UniqueKeys(Drop(xs, key, k), key)
  {
    if xs != [] {
      DropUnique(xs[1..], key, k);
      FindDrop(xs[1..], key, k, key(xs[0]));
    }
  }

  lemma {:induction false} DropAbsent<T, K>(xs: seq<T>, key: T -> K, k: K)
    requires Find(xs, key, k) == None
    ensures Drop(xs, key, k) == xs
  {
    if xs != [] {
      DropAbsent(xs[1..], key, k);
    }
  }

  /** With unique keys, dropping a key splices its entry out. */
  lemma {:induction false} DropSplices<T, K>(xs: seq<T>, key: T -> K, i: nat)
    requires UniqueKeys(xs, key) && i < |xs|
    ensures Drop(xs, key, key(xs[i])) == Remove(xs, i)
  {
    if i > 0 {
      DropSplices(xs[1..], key, i - 1);
      assert xs[i] == xs[1..][i - 1];
      FindMember(xs[1..], key, xs[i]);
      RemoveLater(xs, i);
    } else {
      DropAbsent(xs[1..], key, key(xs[0]));
    }
  }

  lemma RemoveLater<T>(xs: seq<T>, i: nat)
    requires 0 < i < |xs|
    ensures Remove(xs, i) == [xs[0]] + Remove(xs[1..], i - 1)
  {
  }

  lemma {:induction false} FilterUnique<T, K>(xs: seq<T>, key: T -> K, p: T -> bool, k: K)
    requires UniqueKeys(xs, key)
    ensures UniqueKeys(Filter(xs, p), key)
    ensures var f := Find(xs, key, k); Find(Filter(xs, p), key, k) == if f.Some? && p(f.value) then f else None
  {
    if xs != [] {
      FilterUnique(xs[1..], key, p, k);
      FilterUnique(xs[1..], key, p, key(xs[0]));
      var rest := Filter(xs[1..], p);
      assert Filter(xs, p) == if p(xs[0]) then [xs[0]] + rest else rest;
    }
  }

  lemma {:induction false} FindPlace<T, K>(x: T, xs: seq<T>, le: (T, T) -> bool, key: T -> K, k: K)
    requires Find(xs, key, key(x)) == None && UniqueKeys(xs, key)
    ensures UniqueKeys(StableSort.Place(x, xs, le), key)
    ensures Find(StableSort.Place(x, xs, le), key, k) == if k == key(x) then Some(x) else Find(xs, key, k)
  {
    if xs != [] && !le(x, xs[0]) {
      FindPlace(x, xs[1..], le, key, k);
      FindPlace(x, xs[1..], le, key, key(xs[0]));
    }
  }

  /** Sorting keeps what each key finds. */
  lemma {:induction false} FindSort<T, K>(xs: seq<T>, le: (T, T) -> bool, key: T -> K, k: K)
    requires UniqueKeys(xs, key)
    ensures UniqueKeys(StableSort.Sort(xs, le), key)
    ensures Find(StableSort.Sort(xs, le), key, k) == Find(xs, key, k)
  {
    if xs != [] {
      FindSort(xs[1..], le, key, k);
      FindSort(xs[1..], le, key, key(xs[0]));
      FindPlace(xs[0], StableSort.Sort(xs[1..], le), le, key, k);
    }
  }

  lemma {:induction false} FilterSorted<T(!new)>(xs: seq<T>, le: (T, T) -> bool, p: T -> bool)
    requires StableSort.Sorted(xs, le)
    ensures StableSort.Sorted(Filter(xs, p), le)
  {
    if xs != [] {
      FilterSorted(xs[1..], le, p);
      var rest := Filter(xs[1..], p);
      forall j | 0 <= j < |rest| ensures le(xs[0], rest[j]) {
        FilterMember(xs[1..], p, rest[j]);
      }
    }
  }

  lemma {:induction false} DropMember<T, K>(xs: seq<T>, key: T -> K, k: K, x: T)
    ensures x in Drop(xs, key, k) <==> x in xs && key(x) != k
  {
    if xs != [] {
      DropMember(xs[1..], key, k, x);
      assert x in xs <==> x == xs[0] || x in xs[1..];
    }
  }

  lemma {:induction false} DropSorted<T(!new), K>(xs: seq<T>, le: (T, T) -> bool, key: T -> K, k: K)
    requires StableSort.Sorted(xs, le)
    ensures StableSort.Sorted(Drop(xs, key, k), le)
  {
    if xs != [] {
      DropSorted(xs[1..], le, key, k);
      var rest := Drop(xs[1..], key, k);
      forall j | 0 <= j < |rest| ensures le(xs[0], rest[j]) {
        DropMember(xs[1..], key, k, rest[j]);
      }
    }
  }
}
