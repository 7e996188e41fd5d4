/** What each event does to a follow-up, told by its entry, its receipt and the messages: these
    statements share no vocabulary with the operations they are about. */
module FollowupLaws {
  import opened KeyedLists
  import opened Followups

  /** The follow-up stands as `x` in the pending list, or not at all. */
  predicate StandsAs(s: State, k: FollowupKey, x: Option<Item>) {
    && (x.Some? ==> x.value.key == k && x.value in s.pending)
    && (x.None? ==> forall y :: y in s.pending ==> y.key != k)
  }

  lemma StandsMeans(s: State, k: FollowupKey, x: Option<Item>)
    requires Inv(s)
    ensures StandsAs(s, k, x) <==> Entry(s, k) == x
  {
    if x.Some? && x.value in s.pending { FindMember(s.pending, KeyOf, x.value); }
  }

  ghost predicate OthersStay(s: State, t: State, k: FollowupKey) {
    && (forall x: Item :: x.key != k ==> (x in t.pending <==> x in s.pending))
    && (forall j :: j != k ==> (j in t.settled <==> j in s.settled) && (j in t.accepted <==> j in s.accepted))
  }

  /** The lists differ at most in the entry of the key when every other key finds the same. */
  lemma SameElsewhere(s: State, t: State, k: FollowupKey)
    requires Inv(s) && Inv(t) && forall j :: j != k ==> Entry(t, j) == Entry(s, j)
    ensures forall x: Item :: x.key != k ==> (x in t.pending <==> x in s.pending)
  {
    forall x: Item | x.key != k ensures x in t.pending <==> x in s.pending {
      StandsMeans(s, x.key, Some(x));
      StandsMeans(t, x.key, Some(x));
    }
  }

  // ---- the user's edits ----

  /** Queueing adds a follow-up as sending, at the end, unless it is pending or settled. */
  lemma QueueActs(s: State, k: FollowupKey, content: string)
    ensures var t := Apply(s, Queue(k, content));
      if k in s.settled || exists x :: x in s.pending && x.key == k then t == s
      else t == s.(pending := s.pending + [Item(k, content, Sending, false, false)])
  {
  }

  /** Being queued accepts the follow-up; an entry that was sending is then queued, any other is
      left alone. */
  lemma MarkQueuedActs(s: State, k: FollowupKey, x: Option<Item>)
    requires Inv(s) && StandsAs(s, k, x)
    ensures var t := Apply(s, MarkQueued(k));
      && StandsAs(t, k, if x.Some? && x.value.status == Sending then Some(x.value.(status := Queued)) else x)
      && k in t.accepted && t.settled == s.settled && t.revision == s.revision && t.current == s.current
      && OthersStay(s, t, k)
  {
    StandsMeans(s, k, x);
    var a, t := Accept(s, k), Apply(s, MarkQueued(k));
    assert Inv(a);
    MarkQueuedGood(s, k);
    if x.Some? && x.value.status == Sending { AmendGood(a, k, Queued, x.value.canManage, x.value.mutating); }
    SameElsewhere(s, t, k);
    StandsMeans(t, k, Entry(t, k));
  }

  /** The entries of the session are in doubt, and nothing else has changed. */
  ghost predicate InDoubt(s: State, t: State, session: string) {
    && |t.pending| == |s.pending|
    && (forall i :: 0 <= i < |s.pending| ==>
          var x := s.pending[i];
          t.pending[i] == if x.key.session == session then x.(status := Unconfirmed) else x)
    && (t.settled, t.accepted, t.revision) == (s.settled, s.accepted, s.revision)
  }

  /** Leaving a session for another puts its entries in doubt and no others; so does losing the
      connection to it. */
  lemma LeavingActs(s: State, session: string)
    ensures session == s.current ==> Apply(s, SwitchSession(session)) == s
    ensures session != s.current && s.current != "" ==> InDoubt(s, Apply(s, SwitchSession(session)), s.current)
    ensures s.current == "" ==> Apply(s, SwitchSession(session)) == s.(current := session)
    ensures Apply(s, SwitchSession(session)).current == session
    ensures session != "" ==> InDoubt(s, Apply(s, Disconnect(session)), session)
    ensures session == "" ==> Apply(s, Disconnect(session)) == s
    ensures Apply(s, Disconnect(session)).current == s.current
  {
    DoubtAt(s.pending, s.current);
    DoubtAt(s.pending, session);
  }

  /** Removing settles the follow-up and takes its entry away; it needs a request id. */
  lemma RemovalActs(s: State, k: FollowupKey)
    requires Inv(s)
    ensures var t := Apply(s, RemovePending(k));
      && (k.request == "" ==> t == s)
      && (k.request != "" ==>
            && StandsAs(t, k, None) && t.settled == s.settled + {k} && OthersStay(s, t, k)
            && (t.accepted, t.revision, t.current) == (s.accepted, s.revision, s.current))
  {
    var t := Apply(s, RemovePending(k));
    SettleGood(s, k);
    SameElsewhere(s, t, k);
    StandsMeans(t, k, Entry(t, k));
  }

  // ---- mutations ----

  /** A mutation begins iff the follow-up is pending, manageable, not in doubt and not mutating
      already; it marks the entry and moves the revision. */
  lemma BeginActs(s: State, k: FollowupKey, x: Option<Item>)
    requires Inv(s) && StandsAs(s, k, x)
    ensures var t := Apply(s, BeginMutation(k));
      if x.Some? && x.value.canManage && !x.value.mutating && x.value.status in {Sending, Queued, Processing} then
        StandsAs(t, k, Some(x.value.(mutating := true))) && Moved(s, t, k)
      else t == s
  {
    StandsMeans(s, k, x);
    if CanBegin(s, k) { MutationMoves(s, k, true); }
  }

  /** Its end moves the revision too, and unmarks the entry if it is still there. */
  lemma FinishActs(s: State, k: FollowupKey, x: Option<Item>)
    requires Inv(s) && StandsAs(s, k, x)
    ensures var t := Apply(s, FinishMutation(k));
      StandsAs(t, k, if x.Some? then Some(x.value.(mutating := false)) else None) && Moved(s, t, k)
  {
    StandsMeans(s, k, x);
    MutationMoves(s, k, false);
  }

  ghost predicate Moved(s: State, t: State, k: FollowupKey) {
    && t.revision == s.revision + 1 && OthersStay(s, t, k)
    && (t.settled, t.accepted, t.current) == (s.settled, s.accepted, s.current)
  }

  lemma MutationMoves(s: State, k: FollowupKey, mutating: bool)
    requires Inv(s)
    ensures var x, t := Entry(s, k), OnMutation(s, k, mutating);
      && Moved(s, t, k)
      && StandsAs(t, k, if x.Some? then Some(x.value.(mutating := mutating)) else None)
  {
    var t := OnMutation(s, k, mutating);
    MutationGood(s, k, mutating);
    forall j ensures Entry(t, j) ==
      if j == k && Entry(s, k).Some? then Some(Entry(s, k).value.(mutating := mutating)) else Entry(s, j)
    {
      MutationEntry(s, k, mutating, j);
    }
    SameElsewhere(s, t, k);
    StandsMeans(t, k, Entry(t, k));
  }

  // ---- pages, snapshots and receipts ----

  /** A page shows the follow-up when one of its user messages, persisted and not from an agent,
      carries its request. */
  ghost predicate ShownOn(messages: seq<Message>, request: string) {
    request != "" &&
    exists m :: m in messages && m.isUser && m.id != "" && !m.agentMessage && m.request == request
  }

  /** Reconciling with a page accepts and settles the follow-ups of its session that it shows, takes
      their entries away, and does nothing else. */
  lemma {:induction false} PageActs(s: State, session: string, messages: seq<Message>, k: FollowupKey, x: Option<Item>)
    requires Inv(s) && StandsAs(s, k, x)
    ensures var t := Apply(s, Reconcile(session, messages));
      var shown := k.session == session && ShownOn(messages, k.request);
      && Inv(t) && StandsAs(t, k, if shown then None else x)
      && (k in t.settled <==> k in s.settled || shown) && (k in t.accepted <==> k in s.accepted || shown)
      && (t.revision, t.current) == (s.revision, s.current)
  {
    StandsMeans(s, k, x);
    PageSettles(s, session, messages, k);
    ReconcileEntry(s, session, messages, k);
    ReconcileGood(s, session, messages);
    StandsMeans(ReconcileAll(s, session, messages), k, Entry(ReconcileAll(s, session, messages), k));
    if ShownOn(messages, k.request) {
      var m :| m in messages && m.isUser && m.id != "" && !m.agentMessage && m.request == k.request;
      assert Settles(m);
    }
  }

  lemma {:induction false} PageSettles(s: State, session: string, messages: seq<Message>, k: FollowupKey)
    ensures var t := ReconcileAll(s, session, messages);
      var shown := k.session == session && ShownOn(messages, k.request);
      && (k in t.settled <==> k in s.settled || shown) && (k in t.accepted <==> k in s.accepted || shown)
      && (t.revision, t.current) == (s.revision, s.current)
  {
    if messages != [] {
      var init, m := messages[..|messages| - 1], messages[|messages| - 1];
      PageSettles(s, session, init, k);
      assert forall x :: x in messages <==> x in init || x == m;
    }
  }

  /** The entry shows what the receipt of a live request says. */
  function Receipted(x: Option<Item>, k: FollowupKey, r: Receipt): Item {
    var status := if r.status == InProcess then Processing else Queued;
    if x.Some? then x.value.(status := status, canManage := r.canManage)
    else Item(k, r.content, status, r.canManage, false)
  }

  lemma AdoptActs(s: State, k: FollowupKey, r: Receipt, x: Option<Item>)
    requires Inv(s) && StandsAs(s, k, x) && r.status in {InProcess, InQueue}
    ensures var t := Adopt(s, k, r);
      && StandsAs(t, k, if x.None? && k in s.settled then None else Some(Receipted(x, k, r)))
      && (forall y: Item :: y.key != k ==> (y in t.pending <==> y in s.pending))
      && (t.settled, t.accepted, t.revision, t.current) == (s.settled, s.accepted, s.revision, s.current)
  {
    StandsMeans(s, k, x);
    AdoptGood(s, k, r);
    SameElsewhere(s, Adopt(s, k, r), k);
    StandsMeans(Adopt(s, k, r), k, Entry(Adopt(s, k, r), k));
  }

  /** A request of a session snapshot: a live one is accepted and shown, unless it is settled; one
      that is over is settled; one the server does not know changes nothing. */
  lemma SnapshotActs(s: State, session: string, r: Receipt, x: Option<Item>)
    requires Inv(s) && StandsAs(s, FollowupKey(session, r.request), x)
    ensures var t, k := Apply(s, SnapshotRequest(session, r)), FollowupKey(session, r.request);
      && (r.status in {InProcess, InQueue} ==>
            && StandsAs(t, k, if x.None? && k in s.settled then None else Some(Receipted(x, k, r)))
            && k in t.accepted && t.settled == s.settled && OthersStay(s, t, k))
      && (r.status in {Consumed, Cancelled, Failed} ==> t == Apply(s, RemovePending(k)))
      && (r.status == Unknown ==> t == s)
  {
    var k := FollowupKey(session, r.request);
    if r.status in {InProcess, InQueue} {
      var a := Accept(s, k);
      assert Inv(a) && StandsAs(a, k, x);
      AdoptActs(a, k, r, x);
    }
  }

  /** The last of the receipts for the request. */
  ghost predicate LastFor(receipts: seq<Receipt>, request: string, r: Option<Receipt>) {
    if r.Some? then
      exists i :: 0 <= i < |receipts| && receipts[i] == r.value && r.value.request == request
        && forall j :: i < j < |receipts| ==> receipts[j].request != request
    else forall i :: 0 <= i < |receipts| ==> receipts[i].request != request
  }

  /** Another receipt at the end is the last for its own request and leaves the others'. */
  lemma LastForStep(receipts: seq<Receipt>, request: string, r: Option<Receipt>)
    requires receipts != []
    ensures var init, last := receipts[..|receipts| - 1], receipts[|receipts| - 1];
      LastFor(receipts, request, r) <==> if last.request == request then r == Some(last) else LastFor(init, request, r)
  {
    var init, last := receipts[..|receipts| - 1], receipts[|receipts| - 1];
    assert forall i :: 0 <= i < |init| ==> init[i] == receipts[i];
    assert receipts[|receipts| - 1] == last;
    if last.request != request && r.Some? && LastFor(init, request, r) {
      var i :| 0 <= i < |init| && init[i] == r.value && r.value.request == request
        && forall j :: i < j < |init| ==> init[j].request != request;
      assert receipts[i] == r.value;
    }
    if last.request != request && r.Some? && LastFor(receipts, request, r) {
      var i :| 0 <= i < |receipts| && receipts[i] == r.value && r.value.request == request
        && forall j :: i < j < |receipts| ==> receipts[j].request != request;
      assert init[i] == r.value;
    }
  }

  lemma {:induction false} CollectsLast(receipts: seq<Receipt>, request: string, r: Option<Receipt>)
    requires LastFor(receipts, request, r)
    ensures Find(Collect(receipts), RequestOf, request) == r
  {
    if receipts != [] {
      var init, last := receipts[..|receipts| - 1], receipts[|receipts| - 1];
      FindPut(Collect(init), RequestOf, last, request);
      LastForStep(receipts, request, r);
      if last.request != request { CollectsLast(init, request, r); }
    }
  }

  /** A receipt passes by an entry that mutates, and a request that was pending when the receipts
      were asked for and is gone since. */
  predicate PassesBy(x: Option<Item>, f: Refresh, r: Receipt) {
    if x.Some? then x.value.mutating else r.request in f.requests
  }

  /** The answer to a refresh counts iff its session is still in view and no mutation began or ended
      since; then the last receipt of each request decides: a live one is accepted and shown, a
      cancelled or failed one settled, a consumed one accepted only. */
  lemma ReceiptsAct(s: State, f: Refresh, receipts: seq<Receipt>, k: FollowupKey, x: Option<Item>, r: Receipt)
    requires Inv(s) && StandsAs(s, k, x)
    requires k.session == f.session && LastFor(receipts, k.request, Some(r))
    ensures var t := Apply(s, Statuses(f, receipts));
      if s.current != f.session || s.revision != f.revision then t == s
      else
        var passes := PassesBy(x, f, r);
        var ends := !passes && r.status in {Cancelled, Failed} && r.request != "";
        var live := r.status in {InProcess, InQueue};
        && (k in t.accepted <==> k in s.accepted || live || r.status == Consumed)
        && (k in t.settled <==> k in s.settled || ends)
        && StandsAs(t, k, if passes then x
                          else if ends then None
                          else if live && (x.Some? || k !in s.settled) then Some(Receipted(x, k, r))
                          else x)
  {
    StandsMeans(s, k, x);
    if s.current == f.session && s.revision == f.revision {
      CollectUnique(receipts);
      CollectsLast(receipts, k.request, Some(r));
      ReceiptsOutcome(s, f, Collect(receipts), k);
      ReceiptsSettle(s, f, Collect(receipts), k);
      ReceiptsGood(s, f, Collect(receipts));
      var t := OnReceipts(s, f, Collect(receipts));
      StandsMeans(t, k, Entry(t, k));
    }
  }

  lemma ReceiptSettles(s: State, f: Refresh, r: Receipt, k: FollowupKey)
    ensures var t, own := OnReceipt(s, f, r), FollowupKey(f.session, r.request);
      && (k in t.accepted <==> k in s.accepted || (k == own && r.status in {InProcess, InQueue, Consumed}))
      && (k in t.settled <==>
            || k in s.settled
            || (k == own && r.status in {Cancelled, Failed} && r.request != "" && !PassesBy(Entry(s, own), f, r)))
  {
  }

  lemma {:induction false} ReceiptsSettle(s: State, f: Refresh, receipts: seq<Receipt>, k: FollowupKey)
    requires Inv(s) && UniqueKeys(receipts, RequestOf)
    ensures var t := OnReceipts(s, f, receipts);
      var r := if k.session == f.session then Find(receipts, RequestOf, k.request) else None;
      && (k in t.accepted <==> k in s.accepted || (r.Some? && r.value.status in {InProcess, InQueue, Consumed}))
      && (k in t.settled <==>
            || k in s.settled
            || (r.Some? && r.value.status in {Cancelled, Failed} && k.request != ""
                && !PassesBy(Entry(s, k), f, r.value)))
  {
    if receipts != [] {
      var init, last := receipts[..|receipts| - 1], receipts[|receipts| - 1];
      UniqueLast(receipts, k.request);
      ReceiptsSettle(s, f, init, k);
      ReceiptsOutcome(s, f, init, FollowupKey(f.session, last.request));
      ReceiptSettles(OnReceipts(s, f, init), f, last, k);
    }
  }

  /** A request nobody sent a receipt for stays as it is. */
  lemma NoReceiptNoChange(s: State, f: Refresh, receipts: seq<Receipt>, k: FollowupKey, x: Option<Item>)
    requires Inv(s) && StandsAs(s, k, x)
    requires k.session != f.session || LastFor(receipts, k.request, None)
    ensures var t := Apply(s, Statuses(f, receipts));
      StandsAs(t, k, x) && (k in t.settled <==> k in s.settled) && (k in t.accepted <==> k in s.accepted)
  {
    StandsMeans(s, k, x);
    if s.current == f.session && s.revision == f.revision {
      CollectUnique(receipts);
      if k.session == f.session { CollectsLast(receipts, k.request, None); }
      ReceiptsOutcome(s, f, Collect(receipts), k);
      ReceiptsSettle(s, f, Collect(receipts), k);
      ReceiptsGood(s, f, Collect(receipts));
      var t := OnReceipts(s, f, Collect(receipts));
      StandsMeans(t, k, Entry(t, k));
    }
  }

  /** After the reload, in its session, the requests whose last receipt says consumed are settled and
      off the list. */
  lemma ReloadActs(
    s: State, f: Refresh, receipts: seq<Receipt>, k: FollowupKey, x: Option<Item>, r: Option<Receipt>)
    requires Inv(s) && StandsAs(s, k, x)
    requires if k.session == f.session then LastFor(receipts, k.request, r) else r == None
    ensures var t := Apply(s, Reloaded(f, receipts));
      var goes := s.current == f.session && r.Some? && r.value.status == Consumed && k.request != "";
      && StandsAs(t, k, if goes then None else x)
      && (k in t.settled <==> k in s.settled || goes) && (k in t.accepted <==> k in s.accepted)
  {
    StandsMeans(s, k, x);
    CollectUnique(receipts);
    if k.session == f.session { CollectsLast(receipts, k.request, r); }
    ConsumedEntry(s, f, Collect(receipts), k);
    ConsumedSettle(s, f, Collect(receipts), k);
    SettleConsumedGood(s, f, Collect(receipts));
    var t := SettleConsumed(s, f, Collect(receipts));
    StandsMeans(t, k, Entry(t, k));
    forall y | y in Collect(receipts) && y.request == k.request
      ensures Find(Collect(receipts), RequestOf, k.request) == Some(y)
    {
      FindMember(Collect(receipts), RequestOf, y);
    }
  }

  lemma {:induction false} ConsumedSettle(s: State, f: Refresh, receipts: seq<Receipt>, k: FollowupKey)
    ensures var t := SettleConsumed(s, f, receipts);
      && t.accepted == s.accepted
      && (k in t.settled <==>
            || k in s.settled
            || (k.session == f.session && k.request != ""
                && exists r :: r in receipts && r.status == Consumed && r.request == k.request))
  {
    if receipts != [] {
      var init, last := receipts[..|receipts| - 1], receipts[|receipts| - 1];
      ConsumedSettle(s, f, init, k);
      assert forall r :: r in receipts <==> r in init || r == last;
    }
  }

  lemma {:induction false} SomeLast(receipts: seq<Receipt>, request: string) returns (r: Option<Receipt>)
    ensures LastFor(receipts, request, r)
  {
    r := None;
    if receipts != [] {
      var init, last := receipts[..|receipts| - 1], receipts[|receipts| - 1];
      if last.request == request { r := Some(last); } else { r := SomeLast(init, request); }
      LastForStep(receipts, request, r);
    }
  }

  /** The receipt of a follow-up that stands as `x`, if there is one, is the last for its request. */
  lemma CollectedIff(receipts: seq<Receipt>, r: Receipt)
    ensures r in Collect(receipts) <==> LastFor(receipts, r.request, Some(r))
  {
    CollectUnique(receipts);
    var last := SomeLast(receipts, r.request);
    CollectsLast(receipts, r.request, last);
    if r in Collect(receipts) { FindMember(Collect(receipts), RequestOf, r); }
    if LastFor(receipts, r.request, Some(r)) { CollectsLast(receipts, r.request, Some(r)); }
  }

  /** What a receipt for the entry raises. */
  lemma FlagMeans(pending: seq<Item>, f: Refresh, r: Receipt, x: Item)
    requires UniqueKeys(pending, KeyOf) && x in pending && x.key == FollowupKey(f.session, r.request)
    ensures MustRetry(pending, f, r) <==> x.mutating
    ensures AwaitsReload(pending, f, r) <==> !x.mutating && r.status == Consumed
  {
    FindMember(pending, KeyOf, x);
  }

  /** Receipts have to be asked for again iff one is for an entry that mutates, and the messages have to
      be reloaded iff one says that an entry which does not was consumed. */
  lemma FlagsTell(s: State, f: Refresh, receipts: seq<Receipt>)
    requires Inv(s)
    ensures AnyRetry(s.pending, f, Collect(receipts)) <==>
      exists x: Item, r: Receipt :: x in s.pending && x.key == FollowupKey(f.session, r.request) && x.mutating
        && LastFor(receipts, r.request, Some(r))
    ensures AnyReload(s.pending, f, Collect(receipts)) <==>
      exists x: Item, r: Receipt :: x in s.pending && x.key == FollowupKey(f.session, r.request) && !x.mutating
        && LastFor(receipts, r.request, Some(r)) && r.status == Consumed
  {
    var all := Collect(receipts);
    forall r ensures r in all <==> LastFor(receipts, r.request, Some(r)) { CollectedIff(receipts, r); }
    forall x | x in s.pending ensures Find(s.pending, KeyOf, x.key) == Some(x) { FindMember(s.pending, KeyOf, x); }
    if AnyRetry(s.pending, f, all) {
      var i :| 0 <= i < |all| && MustRetry(s.pending, f, all[i]);
      assert all[i] in all;
    }
    if AnyReload(s.pending, f, all) {
      var i :| 0 <= i < |all| && AwaitsReload(s.pending, f, all[i]);
      assert all[i] in all;
    }
  }

  /** What a refresh asks about: the requests of the session in view, at the present revision. */
  lemma {:induction false} RequestsOfSession(pending: seq<Item>, session: string, request: string)
    ensures request in Requests(pending, session) <==>
      exists x :: x in pending && x.key == FollowupKey(session, request)
  {
    if pending != [] {
      RequestsOfSession(pending[1..], session, request);
      assert forall x :: x in pending <==> x == pending[0] || x in pending[1..];
      if pending[0].key == FollowupKey(session, request) { assert pending[0] in pending; }
    }
  }

  lemma RefreshAsks(s: State, request: string)
    ensures var f := BeginRefresh(s);
      && f.session == s.current && f.revision == s.revision
      && (request in f.requests <==> exists x :: x in s.pending && x.key == FollowupKey(s.current, request))
  {
    RequestsOfSession(s.pending, s.current, request);
  }

  /** A new store has no session in view and no follow-ups. */
  lemma NewStore()
    ensures var s := Start();
      s.current == "" && s.pending == [] && s.settled == {} && s.accepted == {} && s.revision == 0
  {
  }
}
