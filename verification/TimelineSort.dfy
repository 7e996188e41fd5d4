/** sortParticipantMessages: persisted rows are put in order into the slots persisted rows
    occupy, then every carrier that stands before a boundary of its run is moved behind the
    last one. `M` is the identity of a message and `heap` gives its current properties. */
module TimelineSort {
  import opened Sequences
  import opened TimelineMessages
  import StableSort

  type Heap<M> = map<M, Props>

  function At<M>(heap: Heap<M>, m: M): (p: Props)
    ensures m in heap ==> p == heap[m]
  {
    if m in heap then heap[m] else map[]
  }

  function PersistedIn<M>(heap: Heap<M>): M -> bool { m => Persisted(At(heap, m)) }

  function CarrierIn<M>(heap: Heap<M>): M -> bool { m => IsCarrier(At(heap, m)) }

  function BySeq<M>(heap: Heap<M>): (M, M) -> bool {
    (l, r) => SeqOf(At(heap, l)) <= SeqOf(At(heap, r))
  }

  /** The persisted rows in ascending, stable sequence order. */
  function Canonical<M>(rows: seq<M>, heap: Heap<M>): seq<M> {
    StableSort.Sort(Filter(rows, PersistedIn(heap)), BySeq(heap))
  }

  /** Replaces the persisted rows, left to right, by `canonical`. */
  function Fill<M>(rows: seq<M>, canonical: seq<M>, heap: Heap<M>): (r: seq<M>)
    requires |canonical| == |Filter(rows, PersistedIn(heap))|
    ensures |r| == |rows|
  {
    if rows == [] then []
    else if Persisted(At(heap, rows[0])) then [canonical[0]] + Fill(rows[1..], canonical[1..], heap)
    else [rows[0]] + Fill(rows[1..], canonical, heap)
  }

  function Slotted<M>(rows: seq<M>, heap: Heap<M>): (r: seq<M>) {
    StableSort.SortPermutes(Filter(rows, PersistedIn(heap)), BySeq(heap));
    Fill(rows, Canonical(rows, heap), heap)
  }

  /** `findLastIndex` of a boundary of the run. */
  function LastBoundary<M>(rows: seq<M>, heap: Heap<M>, run: string): (i: int)
    ensures -1 <= i < |rows|
    ensures i >= 0 ==> IsBoundary(At(heap, rows[i]), run)
    ensures forall j :: i < j < |rows| ==> !IsBoundary(At(heap, rows[j]), run)
  {
    if rows == [] then -1
    else if IsBoundary(At(heap, rows[|rows| - 1]), run) then |rows| - 1
    else LastBoundary(rows[..|rows| - 1], heap, run)
  }

  /** One turn of the relocation loop. */
  function Relocate<M(==)>(rows: seq<M>, heap: Heap<M>, carrier: M): (r: seq<M>) {
    var run := RunOf(At(heap, carrier));
    var index := IndexOf(rows, carrier);
    if index < 0 || LastBoundary(rows, heap, run) < index then rows
    else
      var without := Remove(rows, index);
      Insert(without, LastBoundary(without, heap, run) + 1, carrier)
  }

  function RelocateAll<M(==)>(rows: seq<M>, heap: Heap<M>, carriers: seq<M>): (r: seq<M>) {
    if carriers == [] then rows
    else
      var k := |carriers| - 1;
      Relocate(RelocateAll(rows, heap, carriers[..k]), heap, carriers[k])
  }

  function Sort<M(==)>(rows: seq<M>, heap: Heap<M>): (r: seq<M>) {
    var slotted := Slotted(rows, heap);
    RelocateAll(slotted, heap, Filter(slotted, CarrierIn(heap)))
  }

  /** No boundary of the carrier's run stands behind the carrier. */
  ghost predicate Placed<M>(rows: seq<M>, heap: Heap<M>, carrier: M) {
    forall i, j :: 0 <= i < j < |rows| && rows[i] == carrier ==>
      !IsBoundary(At(heap, rows[j]), RunOf(At(heap, carrier)))
  }

  // ---- the slots ----

  lemma {:induction false} FillKeeps<M>(rows: seq<M>, canonical: seq<M>, heap: Heap<M>, p: M -> bool)
    requires |canonical| == |Filter(rows, PersistedIn(heap))|
    requires forall m :: m in canonical ==> Persisted(At(heap, m))
    requires forall m :: p(m) ==> !Persisted(At(heap, m))
    ensures Filter(Fill(rows, canonical, heap), PersistedIn(heap)) == canonical
    ensures Filter(Fill(rows, canonical, heap), p) == Filter(rows, p)
  {
    if rows == [] {
    } else {
      var r := Fill(rows, canonical, heap);
      if Persisted(At(heap, rows[0])) {
        assert canonical == [canonical[0]] + canonical[1..];
        assert forall m :: m in canonical[1..] ==> m in canonical;
        FillKeeps(rows[1..], canonical[1..], heap, p);
        assert r[1..] == Fill(rows[1..], canonical[1..], heap);
        assert canonical[0] in canonical;
      } else {
        FillKeeps(rows[1..], canonical, heap, p);
        assert r[1..] == Fill(rows[1..], canonical, heap);
      }
    }
  }

  lemma CanonicalOrder<M(!new)>(rows: seq<M>, heap: Heap<M>)
    ensures StableSort.Sorted(Canonical(rows, heap), BySeq(heap))
    ensures forall m :: m in Canonical(rows, heap) <==> m in rows && Persisted(At(heap, m))
    ensures |Canonical(rows, heap)| == |Filter(rows, PersistedIn(heap))|
    ensures multiset(Canonical(rows, heap)) == multiset(Filter(rows, PersistedIn(heap)))
  {
    var kept := Filter(rows, PersistedIn(heap));
    StableSort.SortSorts(kept, BySeq(heap));
    StableSort.SortPermutes(kept, BySeq(heap));
    forall m ensures m in Canonical(rows, heap) <==> m in rows && Persisted(At(heap, m)) {
      FilterMember(rows, PersistedIn(heap), m);
      assert m in Canonical(rows, heap) <==> m in multiset(Canonical(rows, heap));
      assert m in kept <==> m in multiset(kept);
    }
  }

  lemma SlottedKeeps<M(!new)>(rows: seq<M>, heap: Heap<M>, p: M -> bool)
    requires forall m :: p(m) ==> !Persisted(At(heap, m))
    ensures multiset(Slotted(rows, heap)) == multiset(rows)
    ensures Filter(Slotted(rows, heap), PersistedIn(heap)) == Canonical(rows, heap)
    ensures Filter(Slotted(rows, heap), p) == Filter(rows, p)
  {
    CanonicalOrder(rows, heap);
    FillKeeps(rows, Canonical(rows, heap), heap, p);
    FillKeeps(rows, Canonical(rows, heap), heap, Not(PersistedIn(heap)));
    FilterPartition(rows, PersistedIn(heap));
    FilterPartition(Slotted(rows, heap), PersistedIn(heap));
  }

  /** Filling the slots with what they already hold changes nothing. */
  lemma {:induction false} FillIdentity<M>(rows: seq<M>, heap: Heap<M>)
    ensures Fill(rows, Filter(rows, PersistedIn(heap)), heap) == rows
  {
    if rows != [] {
      FillIdentity(rows[1..], heap);
      assert rows == [rows[0]] + rows[1..];
      assert Filter(rows, PersistedIn(heap))[if Persisted(At(heap, rows[0])) then 1 else 0..]
        == Filter(rows[1..], PersistedIn(heap));
    }
  }

  lemma SlottedFixesSorted<M>(rows: seq<M>, heap: Heap<M>)
    requires StableSort.Sorted(Filter(rows, PersistedIn(heap)), BySeq(heap))
    ensures Slotted(rows, heap) == rows
  {
    StableSort.SortFixesSorted(Filter(rows, PersistedIn(heap)), BySeq(heap));
    FillIdentity(rows, heap);
  }

  // ---- one relocation ----

  lemma LastBoundaryUnique<M>(rows: seq<M>, heap: Heap<M>, run: string, b: nat)
    requires b < |rows| && IsBoundary(At(heap, rows[b]), run)
    requires forall j :: b < j < |rows| ==> !IsBoundary(At(heap, rows[j]), run)
    ensures LastBoundary(rows, heap, run) == b
  {
    var i := LastBoundary(rows, heap, run);
    assert !(i < b) && !(b < i);
  }

  /** `r` is `rows` with the carrier taken from `i` to `b`. */
  ghost predicate Rotated<M>(rows: seq<M>, r: seq<M>, carrier: M, i: nat, b: nat) {
    && |r| == |rows| && i < b < |rows| && rows[i] == carrier
    && forall j {:trigger r[j]} :: 0 <= j < |r| ==>
         r[j] == if j < i || b < j then rows[j] else if j < b then rows[j + 1] else carrier
  }

  /** A carrier that moves goes right behind the last boundary of its run, and the rows it
      jumps over close up. */
  lemma RelocateRotates<M>(rows: seq<M>, heap: Heap<M>, carrier: M)
    requires IsCarrier(At(heap, carrier))
    ensures var i := IndexOf(rows, carrier); var b := LastBoundary(rows, heap, RunOf(At(heap, carrier)));
      if 0 <= i <= b then Rotated(rows, Relocate(rows, heap, carrier), carrier, i, b)
      else Relocate(rows, heap, carrier) == rows
  {
    var run := RunOf(At(heap, carrier));
    var i := IndexOf(rows, carrier);
    var b := LastBoundary(rows, heap, run);
    if 0 <= i <= b {
      assert i != b;
      var without := Remove(rows, i);
      assert without[b - 1] == rows[b];
      assert forall j :: b - 1 < j < |without| ==> without[j] == rows[j + 1];
      LastBoundaryUnique(without, heap, run, b - 1);
    }
  }

  lemma RelocatePermutes<M>(rows: seq<M>, heap: Heap<M>, carrier: M)
    ensures multiset(Relocate(rows, heap, carrier)) == multiset(rows)
  {
    var run := RunOf(At(heap, carrier));
    var i := IndexOf(rows, carrier);
    if 0 <= i <= LastBoundary(rows, heap, run) {
      var without := Remove(rows, i);
      MultisetRemove(rows, i);
      MultisetInsert(without, LastBoundary(without, heap, run) + 1, carrier);
    }
  }

  lemma RelocateKeeps<M>(rows: seq<M>, heap: Heap<M>, carrier: M, p: M -> bool)
    requires IsCarrier(At(heap, carrier))
    requires Placed(rows, heap, carrier) || !p(carrier)
    ensures Filter(Relocate(rows, heap, carrier), p) == Filter(rows, p)
  {
    var run := RunOf(At(heap, carrier));
    var i := IndexOf(rows, carrier);
    if 0 <= i <= LastBoundary(rows, heap, run) {
      assert !Placed(rows, heap, carrier);
      var without := Remove(rows, i);
      FilterRemove(rows, i, p);
      FilterInsert(without, LastBoundary(without, heap, run) + 1, carrier, p);
    }
  }

  /** Moving one carrier puts it in place and neither displaces nor places another. */
  lemma RelocatePlaces<M>(rows: seq<M>, heap: Heap<M>, carrier: M, other: M)
    requires Distinct(rows) && IsCarrier(At(heap, carrier)) && IsCarrier(At(heap, other))
    ensures Placed(Relocate(rows, heap, carrier), heap, carrier)
    ensures other != carrier ==> (Placed(Relocate(rows, heap, carrier), heap, other) <==> Placed(rows, heap, other))
  {
    RelocateRotates(rows, heap, carrier);
    var i := IndexOf(rows, carrier);
    var b := LastBoundary(rows, heap, RunOf(At(heap, carrier)));
    var r := Relocate(rows, heap, carrier);
    if 0 <= i <= b {
      RotationKeepsPlaces(rows, heap, carrier, other, r, i, b);
    } else if 0 <= i {
      IndexUnique(rows, i);
      assert forall j :: 0 <= j < |rows| && rows[j] == carrier ==> j == i;
    }
  }

  lemma RotationKeepsPlaces<M>(rows: seq<M>, heap: Heap<M>, carrier: M, other: M, r: seq<M>, i: nat, b: nat)
    requires Distinct(rows) && IsCarrier(At(heap, carrier)) && IsCarrier(At(heap, other))
    requires Rotated(rows, r, carrier, i, b) && b == LastBoundary(rows, heap, RunOf(At(heap, carrier)))
    ensures Placed(r, heap, carrier)
    ensures other != carrier ==> (Placed(r, heap, other) <==> Placed(rows, heap, other))
  {
    assert forall j :: 0 <= j < |r| && j != b ==> r[j] != carrier;
    if other != carrier {
      var run := RunOf(At(heap, other));
      if Placed(rows, heap, other) {
        forall x, y | 0 <= x < y < |r| && r[x] == other ensures !IsBoundary(At(heap, r[y]), run) {
          if y != b {
            var x' := if i <= x < b then x + 1 else x;
            var y' := if i <= y < b then y + 1 else y;
            assert rows[x'] == other && rows[y'] == r[y] && x' < y';
          }
        }
      }
      if Placed(r, heap, other) {
        forall x, y | 0 <= x < y < |rows| && rows[x] == other ensures !IsBoundary(At(heap, rows[y]), run) {
          if y != i {
            var x' := if i < x <= b then x - 1 else x;
            var y' := if i < y <= b then y - 1 else y;
            assert r[x'] == other && r[y'] == rows[y] && x' < y';
          }
        }
      }
    }
  }

  // ---- the whole loop ----

  lemma {:induction false} RelocateAllPlaces<M(!new)>(rows: seq<M>, heap: Heap<M>, carriers: seq<M>)
    requires Distinct(rows)
    requires forall c :: c in carriers ==> IsCarrier(At(heap, c))
    ensures multiset(RelocateAll(rows, heap, carriers)) == multiset(rows)
    ensures Distinct(RelocateAll(rows, heap, carriers))
    ensures forall c :: c in carriers ==> Placed(RelocateAll(rows, heap, carriers), heap, c)
    ensures forall c :: IsCarrier(At(heap, c)) && c !in carriers ==>
      (Placed(RelocateAll(rows, heap, carriers), heap, c) <==> Placed(rows, heap, c))
  {
    if carriers != [] {
      var k := |carriers| - 1;
      var before := RelocateAll(rows, heap, carriers[..k]);
      assert forall c :: c in carriers <==> c in carriers[..k] || c == carriers[k];
      RelocateAllPlaces(rows, heap, carriers[..k]);
      RelocatePermutes(before, heap, carriers[k]);
      DistinctPermutation(rows, RelocateAll(rows, heap, carriers));
      forall c | IsCarrier(At(heap, c))
        ensures c != carriers[k] ==> (Placed(RelocateAll(rows, heap, carriers), heap, c) <==> Placed(before, heap, c))
        ensures Placed(RelocateAll(rows, heap, carriers), heap, carriers[k])
      {
        RelocatePlaces(before, heap, carriers[k], c);
      }
      assert IsCarrier(At(heap, carriers[k]));
    }
  }

  /** Everything that is not displaced keeps its order, however many carriers move. */
  lemma {:induction false} RelocateAllKeeps<M(!new)>(rows: seq<M>, heap: Heap<M>, carriers: seq<M>, p: M -> bool)
    requires Distinct(rows) && Distinct(carriers)
    requires forall c :: c in carriers ==> IsCarrier(At(heap, c))
    requires forall c :: c in carriers && p(c) ==> Placed(rows, heap, c)
    ensures Filter(RelocateAll(rows, heap, carriers), p) == Filter(rows, p)
  {
    if carriers != [] {
      var k := |carriers| - 1;
      var init := carriers[..k];
      assert forall c :: c in carriers <==> c in init || c == carriers[k];
      assert carriers[k] !in init;
      assert Distinct(init);
      RelocateAllKeeps(rows, heap, init, p);
      RelocateAllPlaces(rows, heap, init);
      RelocateKeeps(RelocateAll(rows, heap, init), heap, carriers[k], p);
    }
  }

  lemma {:induction false} RelocateAllPlaced<M>(rows: seq<M>, heap: Heap<M>, carriers: seq<M>)
    requires forall c :: c in carriers ==> IsCarrier(At(heap, c)) && Placed(rows, heap, c)
    ensures RelocateAll(rows, heap, carriers) == rows
  {
    if carriers != [] {
      var k := |carriers| - 1;
      assert forall c :: c in carriers[..k] ==> c in carriers;
      RelocateAllPlaced(rows, heap, carriers[..k]);
      assert carriers[k] in carriers;
      RelocateRotates(rows, heap, carriers[k]);
    }
  }

  // ---- the theorems ----

  /** Sorting is a permutation, for every list and whatever the rows carry. */
  lemma SortPermutes<M(!new)>(rows: seq<M>, heap: Heap<M>)
    ensures multiset(Sort(rows, heap)) == multiset(rows)
  {
    var slotted := Slotted(rows, heap);
    SlottedKeeps(rows, heap, m => false);
    RelocateAllPermutes(slotted, heap, Filter(slotted, CarrierIn(heap)));
  }

  lemma {:induction false} RelocateAllPermutes<M>(rows: seq<M>, heap: Heap<M>, carriers: seq<M>)
    ensures multiset(RelocateAll(rows, heap, carriers)) == multiset(rows)
  {
    if carriers != [] {
      var k := |carriers| - 1;
      RelocateAllPermutes(rows, heap, carriers[..k]);
      RelocatePermutes(RelocateAll(rows, heap, carriers[..k]), heap, carriers[k]);
    }
  }

  /** A row keeps its place unless it is a carrier standing before a boundary of its run. */
  ghost function Kept<M(!new)>(rows: seq<M>, heap: Heap<M>): M -> bool {
    m => !IsCarrier(At(heap, m)) || Placed(Slotted(rows, heap), heap, m)
  }

  /** The order theorem. Persisted rows come out in stable ascending sequence order; each
      carrier stands behind all boundaries of its run, however many were relocated; and the
      rows that are not relocated keep the order of the slots. */
  lemma SortOrders<M(!new)>(rows: seq<M>, heap: Heap<M>)
    requires Distinct(rows)
    ensures Distinct(Sort(rows, heap))
    ensures Filter(Sort(rows, heap), PersistedIn(heap)) == Canonical(rows, heap)
    ensures StableSort.Sorted(Filter(Sort(rows, heap), PersistedIn(heap)), BySeq(heap))
    ensures forall c :: c in rows && IsCarrier(At(heap, c)) ==> Placed(Sort(rows, heap), heap, c)
    ensures |Sort(rows, heap)| == |rows|
    ensures Filter(Sort(rows, heap), Kept(rows, heap)) == Filter(Slotted(rows, heap), Kept(rows, heap))
  {
    var slotted := Slotted(rows, heap);
    var sorted := Sort(rows, heap);
    SlottedKeeps(rows, heap, m => false);
    DistinctPermutation(rows, slotted);
    var carriers := Filter(slotted, CarrierIn(heap));
    forall c
      ensures c in carriers <==> c in slotted && IsCarrier(At(heap, c))
    {
      FilterMember(slotted, CarrierIn(heap), c);
    }
    FilterDistinct(slotted, CarrierIn(heap));
    RelocateAllPlaces(slotted, heap, carriers);
    RelocateAllKeeps(slotted, heap, carriers, PersistedIn(heap));
    RelocateAllKeeps(slotted, heap, carriers, Kept(rows, heap));
    CanonicalOrder(rows, heap);
    SortPermutes(rows, heap);
    assert |multiset(sorted)| == |multiset(rows)|;
    forall c | c in rows && IsCarrier(At(heap, c)) ensures c in carriers {
      assert c in multiset(slotted);
    }
  }

  lemma {:induction false} FilterDistinct<M>(rows: seq<M>, p: M -> bool)
    requires Distinct(rows)
    ensures Distinct(Filter(rows, p))
  {
    if rows != [] {
      assert Distinct(rows[1..]);
      FilterDistinct(rows[1..], p);
      FilterMember(rows[1..], p, rows[0]);
      assert rows[0] !in rows[1..];
    }
  }

  /** Stability: rows with equal sequence numbers keep the order they had. */
  lemma SortIsStable<M(!new)>(rows: seq<M>, heap: Heap<M>, k: M)
    requires Distinct(rows)
    ensures Filter(Filter(Sort(rows, heap), PersistedIn(heap)), StableSort.Tied(k, BySeq(heap)))
         == Filter(Filter(rows, PersistedIn(heap)), StableSort.Tied(k, BySeq(heap)))
  {
    SortOrders(rows, heap);
    StableSort.SortStable(k, Filter(rows, PersistedIn(heap)), BySeq(heap));
  }

  /** A list in order, with every carrier in place, is left alone. */
  lemma SortFixesOrdered<M>(rows: seq<M>, heap: Heap<M>)
    requires StableSort.Sorted(Filter(rows, PersistedIn(heap)), BySeq(heap))
    requires forall c :: c in rows && IsCarrier(At(heap, c)) ==> Placed(rows, heap, c)
    ensures Sort(rows, heap) == rows
  {
    SlottedFixesSorted(rows, heap);
    var carriers := Filter(rows, CarrierIn(heap));
    forall c | c in carriers ensures IsCarrier(At(heap, c)) && Placed(rows, heap, c) {
      FilterMember(rows, CarrierIn(heap), c);
    }
    RelocateAllPlaced(rows, heap, carriers);
  }

  /** Sorting twice is sorting once. */
  lemma SortIdempotent<M(!new)>(rows: seq<M>, heap: Heap<M>)
    requires Distinct(rows)
    ensures Sort(Sort(rows, heap), heap) == Sort(rows, heap)
  {
    SortOrders(rows, heap);
    SortPermutes(rows, heap);
    assert forall c :: c in Sort(rows, heap) ==> c in multiset(rows);
    SortFixesOrdered(Sort(rows, heap), heap);
  }

  // ---- where relocated carriers land ----

  /** Between the last boundary of the run and the carrier stand only carriers of the same
      run that were relocated too. */
  ghost predicate Hugs<M>(rows: seq<M>, heap: Heap<M>, moved: set<M>, carrier: M) {
    var run := RunOf(At(heap, carrier));
    var k := LastBoundary(rows, heap, run);
    && k >= 0
    && forall j, y :: k < j < y < |rows| && rows[y] == carrier ==> rows[j] in moved && RunOf(At(heap, rows[j])) == run
  }

  lemma UnplacedRotates<M>(rows: seq<M>, heap: Heap<M>, carrier: M) returns (i: nat, b: nat)
    requires Distinct(rows) && IsCarrier(At(heap, carrier)) && !Placed(rows, heap, carrier)
    ensures Rotated(rows, Relocate(rows, heap, carrier), carrier, i, b)
    ensures b == LastBoundary(rows, heap, RunOf(At(heap, carrier)))
  {
    var x, y :| 0 <= x < y < |rows| && rows[x] == carrier && IsBoundary(At(heap, rows[y]), RunOf(At(heap, carrier)));
    IndexUnique(rows, x);
    RelocateRotates(rows, heap, carrier);
    i, b := x, LastBoundary(rows, heap, RunOf(At(heap, carrier)));
  }

  lemma RotatedBoundary<M>(rows: seq<M>, heap: Heap<M>, carrier: M, r: seq<M>, i: nat, b: nat, run: string)
    requires IsCarrier(At(heap, carrier)) && Rotated(rows, r, carrier, i, b)
    requires LastBoundary(rows, heap, run) >= 0
    ensures var k := LastBoundary(rows, heap, run);
      LastBoundary(r, heap, run) == if i < k <= b then k - 1 else k
  {
    var k := LastBoundary(rows, heap, run);
    assert k != i;
    var k' := if i < k <= b then k - 1 else k;
    assert r[k'] == rows[k];
    forall j | k' < j < |r| ensures !IsBoundary(At(heap, r[j]), run) {
      if j != b {
        var j' := if i <= j < b then j + 1 else j;
        assert r[j] == rows[j'] && k < j';
      }
    }
    LastBoundaryUnique(r, heap, run, k');
  }

  lemma RotationHugs<M>(rows: seq<M>, heap: Heap<M>, moved: set<M>, carrier: M, other: M, r: seq<M>, i: nat, b: nat)
    requires Distinct(rows) && IsCarrier(At(heap, carrier)) && other != carrier
    requires forall m :: m in moved ==> IsCarrier(At(heap, m))
    requires Hugs(rows, heap, moved, other)
    requires Rotated(rows, r, carrier, i, b) && b == LastBoundary(rows, heap, RunOf(At(heap, carrier)))
    ensures Hugs(r, heap, moved + {carrier}, other)
  {
    var run := RunOf(At(heap, other));
    var k := LastBoundary(rows, heap, run);
    RotatedBoundary(rows, heap, carrier, r, i, b, run);
    var k' := LastBoundary(r, heap, run);
    var boundary := rows[b];
    assert boundary !in moved;
    forall j, y | k' < j < y < |r| && r[y] == other
      ensures r[j] in moved + {carrier} && RunOf(At(heap, r[j])) == run
    {
      assert y != b;
      var y' := if i <= y < b then y + 1 else y;
      assert rows[y'] == other;
      if j == b {
        assert k < b ==> boundary in moved;
      } else {
        var j' := if i <= j < b then j + 1 else j;
        assert rows[j'] == r[j] && k < j' < y';
      }
    }
  }

  /** The carrier that moved stands right behind its boundary. */
  lemma MovedHugs<M>(rows: seq<M>, heap: Heap<M>, moved: set<M>, carrier: M, r: seq<M>, i: nat, b: nat)
    requires Distinct(rows) && IsCarrier(At(heap, carrier))
    requires Rotated(rows, r, carrier, i, b) && b == LastBoundary(rows, heap, RunOf(At(heap, carrier)))
    ensures Hugs(r, heap, moved, carrier)
  {
    RotatedBoundary(rows, heap, carrier, r, i, b, RunOf(At(heap, carrier)));
    forall y | 0 <= y < |r| && y != b ensures r[y] != carrier {
      var x := if i <= y < b then y + 1 else y;
      assert r[y] == rows[x] && x != i;
    }
  }

  lemma RelocateHugs<M>(rows: seq<M>, heap: Heap<M>, moved: set<M>, carrier: M, other: M)
    requires Distinct(rows) && IsCarrier(At(heap, carrier)) && !Placed(rows, heap, carrier)
    requires forall m :: m in moved ==> IsCarrier(At(heap, m))
    requires other == carrier || Hugs(rows, heap, moved, other)
    ensures Hugs(Relocate(rows, heap, carrier), heap, moved + {carrier}, other)
  {
    var i, b := UnplacedRotates(rows, heap, carrier);
    var r := Relocate(rows, heap, carrier);
    if other == carrier {
      MovedHugs(rows, heap, moved + {carrier}, carrier, r, i, b);
    } else {
      RotationHugs(rows, heap, moved, carrier, other, r, i, b);
    }
  }

  ghost function MovedAmong<M>(rows: seq<M>, heap: Heap<M>, carriers: seq<M>): set<M> {
    set c | c in carriers && !Placed(rows, heap, c)
  }

  lemma HugsStep<M(!new)>(rows: seq<M>, heap: Heap<M>, init: seq<M>, last: M, c: M)
    requires Distinct(rows) && last !in init && last in rows && IsCarrier(At(heap, last))
    requires forall m :: m in init ==> IsCarrier(At(heap, m))
    requires c in MovedAmong(rows, heap, init + [last])
    requires c in init ==> Hugs(RelocateAll(rows, heap, init), heap, MovedAmong(rows, heap, init), c)
    ensures Hugs(Relocate(RelocateAll(rows, heap, init), heap, last), heap, MovedAmong(rows, heap, init + [last]), c)
  {
    var before := RelocateAll(rows, heap, init);
    var moved := MovedAmong(rows, heap, init);
    RelocateAllPlaces(rows, heap, init);
    assert last in multiset(before);
    if Placed(rows, heap, last) {
      assert MovedAmong(rows, heap, init + [last]) == moved;
      RelocatePlacedIsIdentity(before, heap, last);
    } else {
      assert MovedAmong(rows, heap, init + [last]) == moved + {last};
      RelocateHugs(before, heap, moved, last, c);
    }
  }

  lemma RelocatePlacedIsIdentity<M>(rows: seq<M>, heap: Heap<M>, carrier: M)
    requires Placed(rows, heap, carrier) && IsCarrier(At(heap, carrier))
    ensures Relocate(rows, heap, carrier) == rows
  {
    RelocateRotates(rows, heap, carrier);
  }

  lemma {:induction false} RelocateAllHugs<M(!new)>(rows: seq<M>, heap: Heap<M>, carriers: seq<M>, c: M)
    requires Distinct(rows) && Distinct(carriers)
    requires forall m :: m in carriers ==> m in rows && IsCarrier(At(heap, m))
    requires c in MovedAmong(rows, heap, carriers)
    ensures Hugs(RelocateAll(rows, heap, carriers), heap, MovedAmong(rows, heap, carriers), c)
  {
    var k := |carriers| - 1;
    var init, last := carriers[..k], carriers[k];
    assert carriers == init + [last];
    assert Distinct(init) && last !in init;
    if c in init { RelocateAllHugs(rows, heap, init, c); }
    HugsStep(rows, heap, init, last, c);
  }

  /** A relocated carrier lands right behind the last boundary of its run, separated from it
      only by carriers of that run relocated after it. */
  lemma RelocatedCarriersHug<M(!new)>(rows: seq<M>, heap: Heap<M>, c: M)
    requires Distinct(rows) && c in rows && IsCarrier(At(heap, c)) && !Placed(Slotted(rows, heap), heap, c)
    ensures Hugs(Sort(rows, heap), heap, (set m | m in rows && !Kept(rows, heap)(m)), c)
  {
    var slotted := Slotted(rows, heap);
    SlottedKeeps(rows, heap, m => false);
    DistinctPermutation(rows, slotted);
    var carriers := Filter(slotted, CarrierIn(heap));
    CarriersOf(rows, slotted, heap);
    FilterDistinct(slotted, CarrierIn(heap));
    UnkeptAreMoved(rows, slotted, heap, carriers);
    RelocateAllHugs(slotted, heap, carriers, c);
  }

  lemma UnkeptAreMoved<M(!new)>(rows: seq<M>, slotted: seq<M>, heap: Heap<M>, carriers: seq<M>)
    requires slotted == Slotted(rows, heap)
    requires forall m :: m in carriers <==> m in rows && IsCarrier(At(heap, m))
    ensures MovedAmong(slotted, heap, carriers) == set m | m in rows && !Kept(rows, heap)(m)
  {
  }

  lemma CarriersOf<M(!new)>(rows: seq<M>, slotted: seq<M>, heap: Heap<M>)
    requires multiset(rows) == multiset(slotted)
    ensures forall m :: m in Filter(slotted, CarrierIn(heap)) <==> m in rows && IsCarrier(At(heap, m))
    ensures forall m :: m in Filter(slotted, CarrierIn(heap)) ==> m in slotted
  {
    forall m
      ensures m in Filter(slotted, CarrierIn(heap)) <==> m in rows && IsCarrier(At(heap, m))
      ensures m in Filter(slotted, CarrierIn(heap)) ==> m in slotted
    {
      FilterMember(slotted, CarrierIn(heap), m);
      assert m in slotted <==> m in multiset(slotted);
      assert m in rows <==> m in multiset(rows);
    }
  }
}
