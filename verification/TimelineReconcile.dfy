/** reconcileParticipantMessages: every row of a server page claims the first unclaimed
    message it matches and is merged into it in place; unclaimed messages survive only while
    they have no sequence number. */
module TimelineReconcile {
  import opened Sequences
  import opened TimelineMessages
  import opened TimelineSort

  /** The state of the claiming loop: the merged page, the index each page row claimed
      (-1 for none) and the properties of all messages, which merging changes in place. */
  datatype Claiming<!M> = Claiming(durable: seq<M>, claims: seq<int>, heap: Heap<M>)

  /** `current.findIndex` over the messages nobody has claimed, from index `from` on. */
  function FindUnclaimed<M>(current: seq<M>, claims: seq<int>, heap: Heap<M>, incoming: Props, from: nat): (i: int)
    requires from <= |current|
    ensures i == -1 || from <= i < |current|
    ensures i >= 0 ==> i !in claims && Matches(At(heap, current[i]), incoming)
    ensures forall j :: from <= j < (if i < 0 then |current| else i) && j !in claims ==>
      !Matches(At(heap, current[j]), incoming)
    decreases |current| - from
  {
    if from == |current| then -1
    else if from !in claims && Matches(At(heap, current[from]), incoming) then from
    else FindUnclaimed(current, claims, heap, incoming, from + 1)
  }

  /** mergeParticipantMessage: merging a message into itself leaves it alone. */
  function MergeInto<M(==)>(heap: Heap<M>, target: M, incoming: M, preserveLive: bool): (h: Heap<M>) {
    if target == incoming then heap
    else heap[target := Merged(At(heap, target), At(heap, incoming), preserveLive)]
  }

  function ClaimNext<M(==)>(current: seq<M>, c: Claiming<M>, incoming: M, preserveLive: bool): Claiming<M> {
    var i := FindUnclaimed(current, c.claims, c.heap, At(c.heap, incoming), 0);
    if i < 0 then Claiming(c.durable + [incoming], c.claims + [-1], c.heap)
    else Claiming(c.durable + [current[i]], c.claims + [i], MergeInto(c.heap, current[i], incoming, preserveLive))
  }

  function ClaimAll<M(==)>(current: seq<M>, page: seq<M>, heap: Heap<M>, preserveLive: bool): (c: Claiming<M>)
    ensures |c.claims| == |c.durable| == |page|
    ensures forall i :: 0 <= i < |page| ==> -1 <= c.claims[i] < |current|
  {
    if page == [] then Claiming([], [], heap)
    else
      var k := |page| - 1;
      ClaimNext(current, ClaimAll(current, page[..k], heap, preserveLive), page[k], preserveLive)
  }

  /** The unclaimed messages without a sequence number, from index `from` on. */
  function Live<M>(current: seq<M>, claims: seq<int>, heap: Heap<M>, from: nat): (r: seq<M>)
    requires from <= |current|
    decreases |current| - from
  {
    if from == |current| then []
    else (if from !in claims && !Persisted(At(heap, current[from])) then [current[from]] else [])
         + Live(current, claims, heap, from + 1)
  }

  lemma LiveTurn<M>(current: seq<M>, claims: seq<int>, heap: Heap<M>, from: nat, before: seq<M>)
    requires from < |current|
    ensures var kept := from !in claims && !Persisted(At(heap, current[from]));
      before + Live(current, claims, heap, from)
        == (if kept then before + [current[from]] else before) + Live(current, claims, heap, from + 1)
  {
  }

  function Reconciled<M(==)>(current: seq<M>, page: seq<M>, heap: Heap<M>, preserveLive: bool): (r: (seq<M>, Heap<M>)) {
    var c := ClaimAll(current, page, heap, preserveLive);
    (Sort(c.durable + Live(current, c.claims, c.heap, 0), c.heap), c.heap)
  }

  /** One turn of the claiming loop, from the front. */
  lemma ClaimTurn<M>(current: seq<M>, page: seq<M>, heap: Heap<M>, preserveLive: bool, i: nat)
    requires i < |page|
    ensures ClaimAll(current, page[..i + 1], heap, preserveLive)
         == ClaimNext(current, ClaimAll(current, page[..i], heap, preserveLive), page[i], preserveLive)
  {
    assert page[..i + 1][..i] == page[..i];
  }

  /** The last turn of the claiming loop. */
  lemma ClaimStep<M>(current: seq<M>, page: seq<M>, heap: Heap<M>, preserveLive: bool)
    requires page != []
    ensures var k := |page| - 1;
      var c := ClaimAll(current, page, heap, preserveLive);
      var before := ClaimAll(current, page[..k], heap, preserveLive);
      var x := FindUnclaimed(current, before.claims, before.heap, At(before.heap, page[k]), 0);
      && c.claims == before.claims + [x]
      && c.durable == before.durable + [if x < 0 then page[k] else current[x]]
      && c.heap == if x < 0 then before.heap else MergeInto(before.heap, current[x], page[k], preserveLive)
  {
  }

  lemma {:induction false} DurableRows<M>(current: seq<M>, page: seq<M>, heap: Heap<M>, preserveLive: bool)
    ensures var c := ClaimAll(current, page, heap, preserveLive);
      forall i :: 0 <= i < |page| ==> c.durable[i] == if c.claims[i] < 0 then page[i] else current[c.claims[i]]
  {
    if page != [] {
      ClaimStep(current, page, heap, preserveLive);
      DurableRows(current, page[..|page| - 1], heap, preserveLive);
    }
  }

  /** No message is claimed by two page rows. */
  lemma {:induction false} ClaimsInjective<M>(current: seq<M>, page: seq<M>, heap: Heap<M>, preserveLive: bool)
    ensures var claims := ClaimAll(current, page, heap, preserveLive).claims;
      forall i, j :: 0 <= i < j < |page| && claims[i] >= 0 ==> claims[i] != claims[j]
  {
    if page != [] {
      var k := |page| - 1;
      ClaimStep(current, page, heap, preserveLive);
      ClaimsInjective(current, page[..k], heap, preserveLive);
      var before := ClaimAll(current, page[..k], heap, preserveLive).claims;
      var claims := ClaimAll(current, page, heap, preserveLive).claims;
      forall i, j | 0 <= i < j < |page| && claims[i] >= 0 ensures claims[i] != claims[j] {
        assert claims[i] == before[i] && before[i] in before;
      }
    }
  }

  /** Messages that no row claimed keep their properties. */
  lemma {:induction false} UnclaimedUntouched<M>(current: seq<M>, page: seq<M>, heap: Heap<M>, preserveLive: bool, m: M)
    requires forall x :: x in ClaimAll(current, page, heap, preserveLive).claims && x >= 0 ==> current[x] != m
    ensures At(ClaimAll(current, page, heap, preserveLive).heap, m) == At(heap, m)
  {
    if page != [] {
      var k := |page| - 1;
      ClaimStep(current, page, heap, preserveLive);
      var c := ClaimAll(current, page, heap, preserveLive);
      var before := ClaimAll(current, page[..k], heap, preserveLive);
      assert forall x :: x in before.claims ==> x in c.claims;
      UnclaimedUntouched(current, page[..k], heap, preserveLive, m);
      assert c.claims[k] in c.claims;
    }
  }

  /** The message is unclaimed at some index and has no sequence number. */
  ghost predicate Survives<M>(current: seq<M>, c: Claiming<M>, m: M) {
    exists j :: 0 <= j < |current| && current[j] == m && j !in c.claims && !Persisted(At(c.heap, m))
  }

  lemma {:induction false} LiveMember<M>(current: seq<M>, claims: seq<int>, heap: Heap<M>, from: nat, m: M)
    requires from <= |current|
    ensures m in Live(current, claims, heap, from) <==>
      exists j :: from <= j < |current| && current[j] == m && j !in claims && !Persisted(At(heap, m))
    decreases |current| - from
  {
    if from < |current| {
      LiveMember(current, claims, heap, from + 1, m);
      var keeps := from !in claims && !Persisted(At(heap, current[from]));
      assert m in Live(current, claims, heap, from) <==>
        (keeps && current[from] == m) || m in Live(current, claims, heap, from + 1);
      if exists j :: from <= j < |current| && current[j] == m && j !in claims && !Persisted(At(heap, m)) {
        var j :| from <= j < |current| && current[j] == m && j !in claims && !Persisted(At(heap, m));
        assert j == from || j >= from + 1;
      }
    }
  }

  /** The accounting theorem. The reconciled list holds exactly one entry per page row and
      every unclaimed message without a sequence number; a current message is missing from it
      only if it is unclaimed, persisted and not on the page itself. */
  lemma ReconcileAccounts<M(!new)>(current: seq<M>, page: seq<M>, heap: Heap<M>, preserveLive: bool)
    ensures var c := ClaimAll(current, page, heap, preserveLive);
      var live := Live(current, c.claims, c.heap, 0);
      var r := Reconciled(current, page, heap, preserveLive).0;
      && multiset(r) == multiset(c.durable) + multiset(live)
      && |r| == |page| + |live|
      && forall m :: m in r <==> (m in c.durable || Survives(current, c, m))
  {
    var c := ClaimAll(current, page, heap, preserveLive);
    var live := Live(current, c.claims, c.heap, 0);
    var r := Reconciled(current, page, heap, preserveLive).0;
    SortPermutes(c.durable + live, c.heap);
    assert |multiset(r)| == |multiset(c.durable + live)|;
    forall m ensures m in r <==> m in c.durable || m in live {
      assert m in r <==> m in multiset(r);
      assert m in c.durable + live <==> m in multiset(c.durable + live);
    }
    forall m ensures m in live <==> Survives(current, c, m) {
      LiveMember(current, c.claims, c.heap, 0, m);
    }
  }

  /** The page carries this very object and no current message matched it. */
  ghost predicate ArrivesUnmatched<M>(page: seq<M>, c: Claiming<M>, m: M) {
    exists i :: 0 <= i < |page| && i < |c.claims| && page[i] == m && c.claims[i] < 0
  }

  lemma DurableAt<M>(current: seq<M>, page: seq<M>, heap: Heap<M>, preserveLive: bool, i: nat)
    requires i < |page|
    ensures var c := ClaimAll(current, page, heap, preserveLive);
      c.durable[i] in c.durable && c.claims[i] in c.claims
      && c.durable[i] == if c.claims[i] < 0 then page[i] else current[c.claims[i]]
  {
    DurableRows(current, page, heap, preserveLive);
  }

  lemma DurableMember<M>(current: seq<M>, page: seq<M>, heap: Heap<M>, preserveLive: bool, x: nat)
    requires Distinct(current) && x < |current|
    ensures var c := ClaimAll(current, page, heap, preserveLive);
      current[x] in c.durable <==> x in c.claims || ArrivesUnmatched(page, c, current[x])
  {
    var c := ClaimAll(current, page, heap, preserveLive);
    if current[x] in c.durable {
      var i :| 0 <= i < |page| && c.durable[i] == current[x];
      DurableAt(current, page, heap, preserveLive, i);
      assert c.claims[i] >= 0 ==> c.claims[i] == x;
    }
    if x in c.claims {
      var i :| 0 <= i < |page| && c.claims[i] == x;
      DurableAt(current, page, heap, preserveLive, i);
    }
    if ArrivesUnmatched(page, c, current[x]) {
      var i :| 0 <= i < |page| && page[i] == current[x] && c.claims[i] < 0;
      DurableAt(current, page, heap, preserveLive, i);
    }
  }

  /** A message is dropped exactly when no page row claims it, it is persisted and the page
      does not carry that very object unmatched. */
  lemma ReconcileDrops<M(!new)>(current: seq<M>, page: seq<M>, heap: Heap<M>, preserveLive: bool, x: nat)
    requires Distinct(current) && x < |current|
    ensures var c := ClaimAll(current, page, heap, preserveLive);
      current[x] !in Reconciled(current, page, heap, preserveLive).0 <==>
        && x !in c.claims
        && Persisted(At(heap, current[x]))
        && !ArrivesUnmatched(page, c, current[x])
  {
    var c := ClaimAll(current, page, heap, preserveLive);
    ReconcileAccounts(current, page, heap, preserveLive);
    DurableMember(current, page, heap, preserveLive, x);
    if x !in c.claims {
      FreshUnclaimed(current, page, heap, preserveLive, x);
    }
  }

  /** Row `i` of the page claimed the first message, in list order, that matches it and that no
      earlier row claimed, and was merged into it. */
  ghost predicate ClaimsFirstMatch<M>(
    current: seq<M>, row: M, heap: Heap<M>, preserveLive: bool, c: Claiming<M>, i: nat)
    requires i < |c.claims| && c.claims[i] < |current|
  {
    && c.claims[i] == FindUnclaimed(current, c.claims[..i], heap, At(heap, row), 0)
    && (c.claims[i] >= 0 ==>
          At(c.heap, current[c.claims[i]]) == Merged(At(heap, current[c.claims[i]]), At(heap, row), preserveLive))
    && At(c.heap, row) == At(heap, row)
  }

  /** What a page of fresh objects does to the messages. */
  lemma {:induction false} FreshPageClaims<M>(current: seq<M>, page: seq<M>, heap: Heap<M>, preserveLive: bool, i: nat)
    requires Distinct(current) && i < |page|
    requires forall m :: m in page ==> m !in current
    ensures ClaimsFirstMatch(current, page[i], heap, preserveLive, ClaimAll(current, page, heap, preserveLive), i)
    decreases |page|
  {
    var k := |page| - 1;
    assert page[k] in page && page[i] in page;
    if i < k {
      var init := page[..k];
      assert forall m :: m in init ==> m in page;
      FreshPageClaims(current, init, heap, preserveLive, i);
      FreshClaimSurvives(current, page[i], heap, preserveLive, ClaimAll(current, init, heap, preserveLive), page[k], i);
    } else {
      FreshLastClaim(current, page, heap, preserveLive);
    }
  }

  /** A later fresh row takes nothing away from an earlier one. */
  lemma FreshClaimSurvives<M>(
    current: seq<M>, row: M, heap: Heap<M>, preserveLive: bool, c: Claiming<M>, incoming: M, i: nat)
    requires Distinct(current) && row !in current && incoming !in current
    requires i < |c.claims| && -1 <= c.claims[i] < |current| && ClaimsFirstMatch(current, row, heap, preserveLive, c, i)
    ensures ClaimsFirstMatch(current, row, heap, preserveLive, ClaimNext(current, c, incoming, preserveLive), i)
  {
    var x := FindUnclaimed(current, c.claims, c.heap, At(c.heap, incoming), 0);
    var next := ClaimNext(current, c, incoming, preserveLive);
    assert next.claims[..i] == c.claims[..i] && next.claims[i] == c.claims[i];
    assert c.claims[i] in c.claims;
    if x >= 0 {
      assert current[x] in current;
      assert forall m :: m != current[x] ==> At(next.heap, m) == At(c.heap, m);
      assert c.claims[i] >= 0 ==> current[c.claims[i]] != current[x];
    }
  }

  /** The claim of a row depends only on its own properties and those of unclaimed messages. */
  lemma NextClaimsFirst<M>(current: seq<M>, row: M, heap: Heap<M>, preserveLive: bool, c: Claiming<M>)
    requires row !in current && At(c.heap, row) == At(heap, row)
    requires forall x :: 0 <= x < |current| && x !in c.claims ==> At(c.heap, current[x]) == At(heap, current[x])
    ensures ClaimsFirstMatch(current, row, heap, preserveLive, ClaimNext(current, c, row, preserveLive), |c.claims|)
  {
    SameSearch(current, c.claims, c.heap, heap, At(heap, row), 0);
    var x := FindUnclaimed(current, c.claims, heap, At(heap, row), 0);
    assert (c.claims + [x])[..|c.claims|] == c.claims;
    if x >= 0 { assert current[x] in current; }
  }

  lemma FreshLastClaim<M>(current: seq<M>, page: seq<M>, heap: Heap<M>, preserveLive: bool)
    requires Distinct(current) && page != []
    requires forall m :: m in page ==> m !in current
    ensures ClaimsFirstMatch(
      current, page[|page| - 1], heap, preserveLive, ClaimAll(current, page, heap, preserveLive), |page| - 1)
  {
    var init, row := page[..|page| - 1], page[|page| - 1];
    var c := ClaimAll(current, init, heap, preserveLive);
    assert row in page;
    FreshRowUntouched(current, init, heap, preserveLive, row);
    forall x | 0 <= x < |current| && x !in c.claims ensures At(c.heap, current[x]) == At(heap, current[x]) {
      FreshUnclaimed(current, init, heap, preserveLive, x);
    }
    NextClaimsFirst(current, row, heap, preserveLive, c);
  }

  lemma FreshRowUntouched<M>(current: seq<M>, page: seq<M>, heap: Heap<M>, preserveLive: bool, m: M)
    requires m !in current
    ensures At(ClaimAll(current, page, heap, preserveLive).heap, m) == At(heap, m)
  {
    var claims := ClaimAll(current, page, heap, preserveLive).claims;
    forall x | x in claims && x >= 0 ensures current[x] != m {
      assert current[x] in current;
    }
    UnclaimedUntouched(current, page, heap, preserveLive, m);
  }

  lemma FreshUnclaimed<M>(current: seq<M>, page: seq<M>, heap: Heap<M>, preserveLive: bool, x: nat)
    requires Distinct(current) && x < |current|
    requires x !in ClaimAll(current, page, heap, preserveLive).claims
    ensures At(ClaimAll(current, page, heap, preserveLive).heap, current[x]) == At(heap, current[x])
  {
    UnclaimedUntouched(current, page, heap, preserveLive, current[x]);
  }

  /** The search reads only the properties of unclaimed messages. */
  lemma {:induction false} SameSearch<M>(
    current: seq<M>, claims: seq<int>, h1: Heap<M>, h2: Heap<M>, incoming: Props, from: nat)
    requires from <= |current|
    requires forall x :: from <= x < |current| && x !in claims ==> At(h1, current[x]) == At(h2, current[x])
    ensures FindUnclaimed(current, claims, h1, incoming, from) == FindUnclaimed(current, claims, h2, incoming, from)
    decreases |current| - from
  {
    if from < |current| { SameSearch(current, claims, h1, h2, incoming, from + 1); }
  }

  /** A claimed message of the same role keeps its live execution state, and takes every other
      property the page row carries. */
  lemma ClaimKeepsLiveExecution<M>(current: seq<M>, page: seq<M>, heap: Heap<M>, i: nat, k: Key)
    requires Distinct(current) && i < |page|
    requires forall m :: m in page ==> m !in current
    requires ClaimAll(current, page, heap, true).claims[i] >= 0
    ensures var c := ClaimAll(current, page, heap, true);
      var before := At(heap, current[c.claims[i]]); var after := At(c.heap, current[c.claims[i]]);
      && (k in EXECUTION_KEYS && Present(before, k) && SameConversationRole(before, At(heap, page[i])) ==>
            k in after && after[k] == before[k])
      && (k in At(heap, page[i]) && k !in EXECUTION_KEYS ==> k in after && after[k] == At(heap, page[i])[k])
  {
    FreshPageClaims(current, page, heap, true, i);
  }

  /** With fresh page objects the list stays free of duplicates. */
  lemma ReconcileDistinct<M(!new)>(current: seq<M>, page: seq<M>, heap: Heap<M>, preserveLive: bool)
    requires Distinct(current) && Distinct(page)
    requires forall m :: m in page ==> m !in current
    ensures Distinct(Reconciled(current, page, heap, preserveLive).0)
  {
    var c := ClaimAll(current, page, heap, preserveLive);
    var live := Live(current, c.claims, c.heap, 0);
    ClaimsInjective(current, page, heap, preserveLive);
    DurableRows(current, page, heap, preserveLive);
    forall i, j | 0 <= i < j < |page| ensures c.durable[i] != c.durable[j] {
      assert page[i] in page && page[j] in page;
    }
    LiveDistinct(current, c.claims, c.heap, 0);
    forall m | m in live ensures m !in c.durable {
      LiveMember(current, c.claims, c.heap, 0, m);
      var j :| 0 <= j < |current| && current[j] == m && j !in c.claims;
      forall i | 0 <= i < |page| ensures c.durable[i] != m {
        assert page[i] in page;
        assert m in current;
        assert c.claims[i] in c.claims;
        assert c.claims[i] != j;
        assert c.claims[i] >= 0 ==> current[c.claims[i]] != current[j];
      }
    }
    DistinctAppend(c.durable, live);
    SortPermutes(c.durable + live, c.heap);
    DistinctPermutation(c.durable + live, Reconciled(current, page, heap, preserveLive).0);
  }

  lemma {:induction false} LiveDistinct<M>(current: seq<M>, claims: seq<int>, heap: Heap<M>, from: nat)
    requires Distinct(current) && from <= |current|
    ensures Distinct(Live(current, claims, heap, from))
    decreases |current| - from
  {
    if from < |current| {
      LiveDistinct(current, claims, heap, from + 1);
      LiveMember(current, claims, heap, from + 1, current[from]);
    }
  }
}
