/** Follow-up messages sent while a run is going: the pending list, the receipts that settle
    its entries, and the recovery that reconciles the two. */
module Followups {
  import opened KeyedLists

  datatype FollowupKey = FollowupKey(session: string, request: string)

  datatype Status = Sending | Queued | Processing | Unconfirmed

  datatype Item = Item(key: FollowupKey, content: string, status: Status, canManage: bool, mutating: bool)

  datatype State = State(current: string, pending: seq<Item>,
                         settled: set<FollowupKey>, accepted: set<FollowupKey>, revision: nat)

  datatype ReceiptStatus = InProcess | InQueue | Consumed | Cancelled | Failed | Unknown

  datatype Receipt = Receipt(request: string, status: ReceiptStatus, content: string, canManage: bool)

  /** A row of a message page; `request` is its request id. */
  datatype Message = Message(isUser: bool, id: string, agentMessage: bool, request: string)

  /** What a refresh keeps across its awaits. */
  datatype Refresh = Refresh(session: string, revision: nat, requests: seq<string>)

  datatype Event =
    | Queue(key: FollowupKey, content: string)
    | MarkQueued(key: FollowupKey)
    | SwitchSession(session: string)
    | Disconnect(session: string)
    | RemovePending(key: FollowupKey)
    | BeginMutation(key: FollowupKey)
    | FinishMutation(key: FollowupKey)
    | Reconcile(session: string, messages: seq<Message>)
    | SnapshotRequest(session: string, receipt: Receipt)
    | Statuses(refresh: Refresh, receipts: seq<Receipt>)
    | Reloaded(refresh: Refresh, receipts: seq<Receipt>)

  const KeyOf: Item -> FollowupKey := (x: Item) => x.key
  const RequestOf: Receipt -> string := (r: Receipt) => r.request

  function Start(): State { State("", [], {}, {}, 0) }

  function Entry(s: State, k: FollowupKey): Option<Item> { Find(s.pending, KeyOf, k) }

  function Accept(s: State, k: FollowupKey): State { s.(accepted := s.accepted + {k}) }

  /** queueFollowup: a settled request is not taken in again, nor is a pending one. */
  function QueueUp(s: State, k: FollowupKey, content: string): State {
    if k in s.settled || Entry(s, k).Some? then s
    else s.(pending := s.pending + [Item(k, content, Sending, false, false)])
  }

  /** Writes the entry of the key over, when it is pending. */
  function Amend(s: State, k: FollowupKey, status: Status, canManage: bool, mutating: bool): State {
    if Entry(s, k).None? then s
    else s.(pending := Put(s.pending, KeyOf, Item(k, Entry(s, k).value.content, status, canManage, mutating)))
  }

  function Settle(s: State, k: FollowupKey): State {
    if k.request == "" then s else s.(settled := s.settled + {k}, pending := Drop(s.pending, KeyOf, k))
  }

  function Doubt(pending: seq<Item>, session: string): seq<Item> {
    if pending == [] then []
    else
      var x := pending[0];
      [if x.key.session == session then x.(status := Unconfirmed) else x] + Doubt(pending[1..], session)
  }

  /** markFollowupsUnconfirmed: after a disconnect, and for the session that goes out of view. */
  function DoubtSession(s: State, session: string): State {
    if session == "" then s else s.(pending := Doubt(s.pending, session))
  }

  lemma {:induction false} DoubtAt(pending: seq<Item>, session: string)
    ensures |Doubt(pending, session)| == |pending|
    ensures forall i :: 0 <= i < |pending| ==>
      Doubt(pending, session)[i] ==
        if pending[i].key.session == session then pending[i].(status := Unconfirmed) else pending[i]
  {
    if pending != [] {
      DoubtAt(pending[1..], session);
      forall i | 0 < i < |pending|
        ensures Doubt(pending, session)[i] == Doubt(pending[1..], session)[i - 1] && pending[i] == pending[1..][i - 1]
      {
      }
    }
  }

  predicate CanBegin(s: State, k: FollowupKey) {
    var x := Entry(s, k);
    x.Some? && x.value.canManage && !x.value.mutating && x.value.status != Unconfirmed
  }

  function OnMutation(s: State, k: FollowupKey, mutating: bool): State {
    var x := Entry(s, k);
    var moved := s.(revision := s.revision + 1);
    if x.None? then moved else Amend(moved, k, x.value.status, x.value.canManage, mutating)
  }

  /** The message shows that its request was consumed. */
  predicate Settles(m: Message) { m.isUser && m.id != "" && !m.agentMessage && m.request != "" }

  function ReconcileAll(s: State, session: string, messages: seq<Message>): State {
    if messages == [] then s
    else
      var init, m := ReconcileAll(s, session, messages[..|messages| - 1]), messages[|messages| - 1];
      var k := FollowupKey(session, m.request);
      if Settles(m) then Settle(Accept(init, k), k) else init
  }

  function StatusOf(r: Receipt): Status { if r.status == InProcess then Processing else Queued }

  predicate Live(r: Receipt) { r.status == InProcess || r.status == InQueue }

  /** Takes a live request in and shows its receipt on its entry. */
  function Adopt(s: State, k: FollowupKey, r: Receipt): State {
    var queued := QueueUp(s, k, r.content);
    var x := Entry(queued, k);
    if x.None? then queued else Amend(queued, k, StatusOf(r), r.canManage, x.value.mutating)
  }

  /** A pending request of a session snapshot. */
  function OnSnapshotRequest(s: State, session: string, r: Receipt): State {
    var k := FollowupKey(session, r.request);
    if Live(r) then Adopt(Accept(s, k), k, r)
    else if r.status != Unknown then Settle(s, k)
    else s
  }

  /** A receipt is left alone while its entry mutates, and when its entry is gone since the
      refresh began. */
  predicate Skips(s: State, f: Refresh, r: Receipt) {
    var x := Entry(s, FollowupKey(f.session, r.request));
    (x.Some? && x.value.mutating) || (x.None? && r.request in f.requests)
  }

  /** One turn of the refresh loop. */
  function OnReceipt(s: State, f: Refresh, r: Receipt): State {
    var k := FollowupKey(f.session, r.request);
    var a := if Live(r) || r.status == Consumed then Accept(s, k) else s;
    if Skips(s, f, r) then a
    else if r.status == Cancelled || r.status == Failed then Settle(a, k)
    else if Live(r) then Adopt(a, k, r)
    else a
  }

  function OnReceipts(s: State, f: Refresh, receipts: seq<Receipt>): State {
    if receipts == [] then s else OnReceipt(OnReceipts(s, f, receipts[..|receipts| - 1]), f, receipts[|receipts| - 1])
  }

  /** The receipts still count: same session in view, no mutation begun or finished since. */
  predicate Counts(s: State, f: Refresh) { s.current == f.session && s.revision == f.revision }

  function SettleConsumed(s: State, f: Refresh, receipts: seq<Receipt>): State {
    if receipts == [] then s
    else
      var init, r := SettleConsumed(s, f, receipts[..|receipts| - 1]), receipts[|receipts| - 1];
      if r.status == Consumed then Settle(init, FollowupKey(f.session, r.request)) else init
  }

  function Requests(pending: seq<Item>, session: string): seq<string> {
    if pending == [] then []
    else (if pending[0].key.session == session then [pending[0].key.request] else []) + Requests(pending[1..], session)
  }

  function BeginRefresh(s: State): Refresh { Refresh(s.current, s.revision, Requests(s.pending, s.current)) }

  /** The Map of the responses: the last receipt of a request, at the place of the first. */
  function Collect(receipts: seq<Receipt>): seq<Receipt> {
    if receipts == [] then [] else Put(Collect(receipts[..|receipts| - 1]), RequestOf, receipts[|receipts| - 1])
  }

  function Apply(s: State, e: Event): State {
    match e
    case Queue(k, content) => QueueUp(s, k, content)
    case MarkQueued(k) =>
      var x := Entry(s, k);
      var a := Accept(s, k);
      if x.Some? && x.value.status == Sending then Amend(a, k, Queued, x.value.canManage, x.value.mutating) else a
    case SwitchSession(session) =>
      if session == s.current then s
      else DoubtSession(s, s.current).(current := session)
    case Disconnect(session) => DoubtSession(s, session)
    case RemovePending(k) => Settle(s, k)
    case BeginMutation(k) => if CanBegin(s, k) then OnMutation(s, k, true) else s
    case FinishMutation(k) => OnMutation(s, k, false)
    case Reconcile(session, messages) => ReconcileAll(s, session, messages)
    case SnapshotRequest(session, r) => OnSnapshotRequest(s, session, r)
    case Statuses(f, receipts) => if Counts(s, f) then OnReceipts(s, f, Collect(receipts)) else s
    case Reloaded(f, receipts) => if s.current == f.session then SettleConsumed(s, f, Collect(receipts)) else s
  }

  function Run(s: State, events: seq<Event>): State {
    if events == [] then s else Apply(Run(s, events[..|events| - 1]), events[|events| - 1])
  }

  // ---- what every step keeps ----

  /** Pending entries have unique keys and none is settled. */
  ghost predicate Inv(s: State) {
    UniqueKeys(s.pending, KeyOf) && forall k :: k in s.settled ==> Entry(s, k).None?
  }

  /** From `s` to `t`: acceptance and settlement only grow, and what left the pending list
      has been settled. */
  ghost predicate Grows(s: State, t: State) {
    && s.settled <= t.settled && s.accepted <= t.accepted
    && (forall k :: Entry(s, k).Some? && Entry(t, k).None? ==> k in t.settled)
  }

  ghost predicate Good(s: State, t: State) { Inv(t) && Grows(s, t) }

  lemma GoodTransitive(s: State, t: State, u: State)
    requires Good(s, t) && Good(t, u)
    ensures Good(s, u)
  {
  }

  lemma QueueUpGood(s: State, k: FollowupKey, content: string)
    requires Inv(s)
    ensures Good(s, QueueUp(s, k, content))
    ensures var x := Item(k, content, Sending, false, false); var isNew := Entry(s, k).None? && k !in s.settled;
      forall j :: Entry(QueueUp(s, k, content), j) == if j == k && isNew then Some(x) else Entry(s, j)
  {
    var x := Item(k, content, Sending, false, false);
    if k !in s.settled && Entry(s, k).None? {
      PutUnique(s.pending, KeyOf, x);
      PutAppends(s.pending, KeyOf, x);
      forall j ensures Entry(QueueUp(s, k, content), j) == if j == k then Some(x) else Entry(s, j) {
        FindPut(s.pending, KeyOf, x, j);
      }
    }
  }

  lemma AmendGood(s: State, k: FollowupKey, status: Status, canManage: bool, mutating: bool)
    requires Inv(s)
    ensures Good(s, Amend(s, k, status, canManage, mutating))
    ensures var x := Entry(s, k);
      var y := if x.None? then None else Some(Item(k, x.value.content, status, canManage, mutating));
      forall j :: Entry(Amend(s, k, status, canManage, mutating), j) == if j == k then y else Entry(s, j)
  {
    if Entry(s, k).Some? {
      var x := Item(k, Entry(s, k).value.content, status, canManage, mutating);
      PutUnique(s.pending, KeyOf, x);
      forall j ensures Entry(Amend(s, k, status, canManage, mutating), j) == if j == k then Some(x) else Entry(s, j) {
        FindPut(s.pending, KeyOf, x, j);
      }
    }
  }

  lemma SettleGood(s: State, k: FollowupKey)
    requires Inv(s)
    ensures Good(s, Settle(s, k))
    ensures forall j :: Entry(Settle(s, k), j) == if j == k && k.request != "" then None else Entry(s, j)
  {
    DropUnique(s.pending, KeyOf, k);
    forall j ensures Find(Drop(s.pending, KeyOf, k), KeyOf, j) == if j == k then None else Entry(s, j) {
      FindDrop(s.pending, KeyOf, k, j);
    }
  }

  lemma {:induction false} FindDoubt(pending: seq<Item>, session: string, k: FollowupKey)
    ensures Find(Doubt(pending, session), KeyOf, k) ==
      var x := Find(pending, KeyOf, k);
      if x.Some? && k.session == session then Some(x.value.(status := Unconfirmed)) else x
    ensures UniqueKeys(pending, KeyOf) ==> UniqueKeys(Doubt(pending, session), KeyOf)
  {
    if pending != [] {
      FindDoubt(pending[1..], session, k);
      FindDoubt(pending[1..], session, pending[0].key);
    }
  }

  lemma {:induction false} ReconcileGood(s: State, session: string, messages: seq<Message>)
    requires Inv(s)
    ensures Good(s, ReconcileAll(s, session, messages))
  {
    if messages != [] {
      var init, m := ReconcileAll(s, session, messages[..|messages| - 1]), messages[|messages| - 1];
      ReconcileGood(s, session, messages[..|messages| - 1]);
      if Settles(m) {
        SettleGood(Accept(init, FollowupKey(session, m.request)), FollowupKey(session, m.request));
      }
    }
  }

  lemma AdoptGood(s: State, k: FollowupKey, r: Receipt)
    requires Inv(s)
    ensures Good(s, Adopt(s, k, r))
    ensures var x := Entry(s, k);
      var y := if x.Some? then Some(x.value.(status := StatusOf(r), canManage := r.canManage))
               else if k in s.settled then None else Some(Item(k, r.content, StatusOf(r), r.canManage, false));
      forall j :: Entry(Adopt(s, k, r), j) == if j == k then y else Entry(s, j)
  {
    var queued := QueueUp(s, k, r.content);
    QueueUpGood(s, k, r.content);
    if Entry(queued, k).Some? {
      AmendGood(queued, k, StatusOf(r), r.canManage, Entry(queued, k).value.mutating);
    }
  }

  /** The entry of a request after its receipt. */
  function Outcome(x: Option<Item>, f: Refresh, r: Receipt, settled: bool): Option<Item> {
    if x.Some? then
      if x.value.mutating then x
      else if r.request != "" && (r.status == Cancelled || r.status == Failed) then None
      else if Live(r) then Some(x.value.(status := StatusOf(r), canManage := r.canManage))
      else x
    else if Live(r) && r.request !in f.requests && !settled then
      Some(Item(FollowupKey(f.session, r.request), r.content, StatusOf(r), r.canManage, false))
    else None
  }

  lemma ReceiptGood(s: State, f: Refresh, r: Receipt)
    requires Inv(s)
    ensures Good(s, OnReceipt(s, f, r))
    ensures var k := FollowupKey(f.session, r.request);
      forall j :: Entry(OnReceipt(s, f, r), j) ==
        (if j == k then Outcome(Entry(s, k), f, r, k in s.settled) else Entry(s, j))
    ensures var k := FollowupKey(f.session, r.request);
      && OnReceipt(s, f, r).settled <= s.settled + {k}
      && OnReceipt(s, f, r).revision == s.revision && OnReceipt(s, f, r).current == s.current
  {
    var k := FollowupKey(f.session, r.request);
    var a := if Live(r) || r.status == Consumed then Accept(s, k) else s;
    assert Good(s, a);
    if Skips(s, f, r) {
    } else if r.status == Cancelled || r.status == Failed {
      SettleGood(a, k);
    } else if Live(r) {
      AdoptGood(a, k, r);
    }
  }

  lemma {:induction false} ReceiptsGood(s: State, f: Refresh, receipts: seq<Receipt>)
    requires Inv(s)
    ensures Good(s, OnReceipts(s, f, receipts))
  {
    if receipts != [] {
      ReceiptsGood(s, f, receipts[..|receipts| - 1]);
      ReceiptGood(OnReceipts(s, f, receipts[..|receipts| - 1]), f, receipts[|receipts| - 1]);
    }
  }

  lemma {:induction false} SettleConsumedGood(s: State, f: Refresh, receipts: seq<Receipt>)
    requires Inv(s)
    ensures Good(s, SettleConsumed(s, f, receipts))
  {
    if receipts != [] {
      var init, r := SettleConsumed(s, f, receipts[..|receipts| - 1]), receipts[|receipts| - 1];
      SettleConsumedGood(s, f, receipts[..|receipts| - 1]);
      SettleGood(init, FollowupKey(f.session, r.request));
    }
  }

  lemma MutationGood(s: State, k: FollowupKey, mutating: bool)
    requires Inv(s)
    ensures Good(s, OnMutation(s, k, mutating))
  {
    var x := Entry(s, k);
    var moved := s.(revision := s.revision + 1);
    assert Inv(moved);
    if x.Some? { AmendGood(moved, k, x.value.status, x.value.canManage, mutating); }
  }

  lemma MarkQueuedGood(s: State, k: FollowupKey)
    requires Inv(s)
    ensures Good(s, Apply(s, MarkQueued(k)))
  {
    var a, x := Accept(s, k), Entry(s, k);
    assert Good(s, a);
    if x.Some? && x.value.status == Sending {
      AmendGood(a, k, Queued, x.value.canManage, x.value.mutating);
      GoodTransitive(s, a, Amend(a, k, Queued, x.value.canManage, x.value.mutating));
    }
  }

  lemma DoubtGood(s: State, session: string)
    requires Inv(s)
    ensures Good(s, DoubtSession(s, session))
  {
    FindDoubt(s.pending, session, FollowupKey("", ""));
    forall k ensures Find(Doubt(s.pending, session), KeyOf, k).Some? <==> Entry(s, k).Some? {
      FindDoubt(s.pending, session, k);
    }
  }

  lemma SwitchGood(s: State, session: string)
    requires Inv(s)
    ensures Good(s, Apply(s, SwitchSession(session)))
  {
    DoubtGood(s, s.current);
  }

  lemma SnapshotGood(s: State, session: string, r: Receipt)
    requires Inv(s)
    ensures Good(s, OnSnapshotRequest(s, session, r))
  {
    var k := FollowupKey(session, r.request);
    if Live(r) {
      assert Good(s, Accept(s, k));
      AdoptGood(Accept(s, k), k, r);
      GoodTransitive(s, Accept(s, k), Adopt(Accept(s, k), k, r));
    } else {
      SettleGood(s, k);
    }
  }

  lemma EditGood(s: State, e: Event)
    requires Inv(s)
    requires !(e.Reconcile? || e.SnapshotRequest? || e.Statuses? || e.Reloaded?)
    ensures Good(s, Apply(s, e))
  {
    match e {
      case Queue(k, content) => QueueUpGood(s, k, content);
      case MarkQueued(k) => MarkQueuedGood(s, k);
      case SwitchSession(session) => SwitchGood(s, session);
      case Disconnect(session) => DoubtGood(s, session);
      case RemovePending(k) => SettleGood(s, k);
      case BeginMutation(k) => MutationGood(s, k, true);
      case FinishMutation(k) => MutationGood(s, k, false);
    }
  }

  lemma StepGood(s: State, e: Event)
    requires Inv(s)
    ensures Good(s, Apply(s, e))
  {
    match e {
      case Reconcile(session, messages) => ReconcileGood(s, session, messages);
      case SnapshotRequest(session, r) => SnapshotGood(s, session, r);
      case Statuses(f, receipts) => ReceiptsGood(s, f, Collect(receipts));
      case Reloaded(f, receipts) => SettleConsumedGood(s, f, Collect(receipts));
      case _ => EditGood(s, e);
    }
  }

  lemma {:induction false} RunGood(s: State, events: seq<Event>)
    requires Inv(s)
    ensures Good(s, Run(s, events))
  {
    if events != [] {
      var was := Run(s, events[..|events| - 1]);
      RunGood(s, events[..|events| - 1]);
      StepGood(was, events[|events| - 1]);
      GoodTransitive(s, was, Run(s, events));
    }
  }

  // ---- the theorems ----

  /** In every reachable state the keys of the pending list are unique and none is settled. */
  lemma PendingUniqueAndUnsettled(events: seq<Event>, i: nat)
    requires i < |Run(Start(), events).pending|
    ensures var s := Run(Start(), events);
      && s.pending[i].key !in s.settled
      && forall j :: 0 <= j < |s.pending| && j != i ==> s.pending[j].key != s.pending[i].key
  {
    RunGood(Start(), events);
    var s := Run(Start(), events);
    UniqueByPosition(s.pending, KeyOf);
    FindMember(s.pending, KeyOf, s.pending[i]);
    assert forall j, l :: 0 <= j < l < |s.pending| ==> KeyOf(s.pending[j]) != KeyOf(s.pending[l]);
  }

  /** Once settled, a request stays settled and out of the list, whatever is queued, replayed
      or received afterwards. */
  lemma SettledStaysSettled(s: State, events: seq<Event>, k: FollowupKey)
    requires Inv(s) && k in s.settled
    ensures k in Run(s, events).settled && Entry(Run(s, events), k).None?
  {
    RunGood(s, events);
  }

  /** A request that was ever pending is still pending or has been settled. */
  lemma NoFollowupLost(before: seq<Event>, after: seq<Event>, k: FollowupKey)
    requires Entry(Run(Start(), before), k).Some?
    ensures var s := Run(Start(), before + after); Entry(s, k).Some? <==> k !in s.settled
  {
    RunGood(Start(), before);
    RunGood(Run(Start(), before), after);
    RunAppend(Start(), before, after);
  }

  lemma AcceptanceMonotone(s: State, events: seq<Event>)
    requires Inv(s)
    ensures s.accepted <= Run(s, events).accepted && s.settled <= Run(s, events).settled
  {
    RunGood(s, events);
  }

  lemma {:induction false} RunAppend(s: State, before: seq<Event>, after: seq<Event>)
    ensures Run(s, before + after) == Run(Run(s, before), after)
  {
    if after == [] {
      assert before + after == before;
    } else {
      assert (before + after)[..|before + after| - 1] == before + after[..|after| - 1];
      RunAppend(s, before, after[..|after| - 1]);
    }
  }

  // ---- the refresh ----

  lemma {:induction false} CollectUnique(receipts: seq<Receipt>)
    ensures UniqueKeys(Collect(receipts), RequestOf)
  {
    if receipts != [] {
      CollectUnique(receipts[..|receipts| - 1]);
      PutUnique(Collect(receipts[..|receipts| - 1]), RequestOf, receipts[|receipts| - 1]);
    }
  }

  /** The receipt finds its entry mutating, and has to come back. */
  predicate MustRetry(pending: seq<Item>, f: Refresh, r: Receipt) {
    var x := Find(pending, KeyOf, FollowupKey(f.session, r.request));
    x.Some? && x.value.mutating
  }

  /** The receipt says consumed, and its entry waits for the messages to be reloaded. */
  predicate AwaitsReload(pending: seq<Item>, f: Refresh, r: Receipt) {
    var x := Find(pending, KeyOf, FollowupKey(f.session, r.request));
    x.Some? && !x.value.mutating && r.status == Consumed
  }

  predicate AnyRetry(pending: seq<Item>, f: Refresh, receipts: seq<Receipt>) {
    exists i :: 0 <= i < |receipts| && MustRetry(pending, f, receipts[i])
  }

  predicate AnyReload(pending: seq<Item>, f: Refresh, receipts: seq<Receipt>) {
    exists i :: 0 <= i < |receipts| && AwaitsReload(pending, f, receipts[i])
  }

  lemma AnyStep(pending: seq<Item>, f: Refresh, receipts: seq<Receipt>, i: nat)
    requires i < |receipts|
    ensures var init, next := receipts[..i], receipts[..i + 1];
      && (AnyRetry(pending, f, next) <==> AnyRetry(pending, f, init) || MustRetry(pending, f, receipts[i]))
      && (AnyReload(pending, f, next) <==> AnyReload(pending, f, init) || AwaitsReload(pending, f, receipts[i]))
  {
    var init, next := receipts[..i], receipts[..i + 1];
    assert next[i] == receipts[i] && forall j :: 0 <= j < i ==> next[j] == init[j];
  }

  /** A receipt leaves the entries of other requests alone, in any state. */
  lemma OtherEntryStays(s: State, f: Refresh, r: Receipt, k: FollowupKey)
    requires k != FollowupKey(f.session, r.request)
    ensures Entry(OnReceipt(s, f, r), k) == Entry(s, k)
  {
    var own := FollowupKey(f.session, r.request);
    var a := if Live(r) || r.status == Consumed then Accept(s, own) else s;
    if Skips(s, f, r) {
    } else if r.status == Cancelled || r.status == Failed {
      FindDrop(s.pending, KeyOf, own, k);
    } else if Live(r) {
      OtherEntryStaysOnAdopt(a, own, r, k);
    }
  }

  lemma OtherEntryStaysOnAdopt(s: State, own: FollowupKey, r: Receipt, k: FollowupKey)
    requires k != own
    ensures Entry(Adopt(s, own, r), k) == Entry(s, k)
  {
    var item := Item(own, r.content, Sending, false, false);
    if own !in s.settled && Entry(s, own).None? {
      PutAppends(s.pending, KeyOf, item);
      FindPut(s.pending, KeyOf, item, k);
    }
    var queued := QueueUp(s, own, r.content);
    var x := Entry(queued, own);
    if x.Some? {
      FindPut(queued.pending, KeyOf, Item(own, x.value.content, StatusOf(r), r.canManage, x.value.mutating), k);
    }
  }

  lemma {:induction false} OtherEntriesStay(s: State, f: Refresh, receipts: seq<Receipt>, k: FollowupKey)
    requires forall r :: r in receipts ==> k != FollowupKey(f.session, r.request)
    ensures Entry(OnReceipts(s, f, receipts), k) == Entry(s, k)
  {
    if receipts != [] {
      var init, last := receipts[..|receipts| - 1], receipts[|receipts| - 1];
      assert last in receipts && forall r :: r in init ==> r in receipts;
      OtherEntriesStay(s, f, init, k);
      OtherEntryStays(OnReceipts(s, f, init), f, last, k);
    }
  }

  /** Its turn finds the entry of a receipt as it was before the loop. */
  lemma TurnFindsOldEntry(s: State, f: Refresh, receipts: seq<Receipt>, i: nat)
    requires UniqueKeys(receipts, RequestOf) && i < |receipts|
    ensures var k := FollowupKey(f.session, receipts[i].request);
      Entry(OnReceipts(s, f, receipts[..i]), k) == Entry(s, k)
  {
    UniqueByPosition(receipts, RequestOf);
    forall r | r in receipts[..i] ensures r.request != receipts[i].request {
      var j :| 0 <= j < i && receipts[j] == r;
      assert RequestOf(receipts[j]) != RequestOf(receipts[i]);
    }
    OtherEntriesStay(s, f, receipts[..i], FollowupKey(f.session, receipts[i].request));
  }

  /** What the refresh loop makes of each request, whatever the order of its receipts. */
  lemma {:induction false} ReceiptsOutcome(s: State, f: Refresh, receipts: seq<Receipt>, k: FollowupKey)
    requires Inv(s) && UniqueKeys(receipts, RequestOf)
    ensures Entry(OnReceipts(s, f, receipts), k) ==
      var r := Find(receipts, RequestOf, k.request);
      if k.session == f.session && r.Some? then Outcome(Entry(s, k), f, r.value, k in s.settled) else Entry(s, k)
    ensures k.session != f.session || Find(receipts, RequestOf, k.request).None? ==>
      (k in OnReceipts(s, f, receipts).settled <==> k in s.settled)
  {
    if receipts != [] {
      var init, r := receipts[..|receipts| - 1], receipts[|receipts| - 1];
      UniqueLast(receipts, k.request);
      ReceiptsOutcome(s, f, init, k);
      ReceiptsGood(s, f, init);
      ReceiptGood(OnReceipts(s, f, init), f, r);
    }
  }

  lemma {:induction false} UniqueLast(receipts: seq<Receipt>, request: string)
    requires UniqueKeys(receipts, RequestOf) && receipts != []
    ensures var init, last := receipts[..|receipts| - 1], receipts[|receipts| - 1];
      && UniqueKeys(init, RequestOf) && Find(init, RequestOf, last.request).None?
      && Find(receipts, RequestOf, request) ==
           if request == last.request then Some(last) else Find(init, RequestOf, request)
  {
    if |receipts| > 1 {
      var first, tail := receipts[0], receipts[1..];
      UniqueLast(tail, request);
      UniqueLast(tail, first.request);
      assert receipts[..|receipts| - 1][1..] == tail[..|tail| - 1];
    }
  }

  /** A mutation begins or ends. */
  predicate MovesRevision(s: State, e: Event) {
    e.FinishMutation? || (e.BeginMutation? && CanBegin(s, e.key))
  }

  predicate AnyMutation(s: State, events: seq<Event>) {
    events != [] &&
    (AnyMutation(s, events[..|events| - 1]) || MovesRevision(Run(s, events[..|events| - 1]), events[|events| - 1]))
  }

  lemma {:induction false} RevisionFixed(
    s: State, f: Refresh, session: string, messages: seq<Message>, receipts: seq<Receipt>)
    ensures ReconcileAll(s, session, messages).revision == s.revision
    ensures OnReceipts(s, f, receipts).revision == s.revision
    ensures SettleConsumed(s, f, receipts).revision == s.revision
  {
    if messages != [] { RevisionFixed(s, f, session, messages[..|messages| - 1], receipts); }
    if receipts != [] { RevisionFixed(s, f, session, messages, receipts[..|receipts| - 1]); }
  }

  lemma StepRevision(s: State, e: Event)
    ensures Apply(s, e).revision == s.revision + if MovesRevision(s, e) then 1 else 0
  {
    match e {
      case Reconcile(session, messages) => RevisionFixed(s, Refresh("", 0, []), session, messages, []);
      case Statuses(f, receipts) => RevisionFixed(s, f, "", [], Collect(receipts));
      case Reloaded(f, receipts) => RevisionFixed(s, f, "", [], Collect(receipts));
      case _ =>
    }
  }

  lemma {:induction false} RevisionGrows(s: State, events: seq<Event>)
    ensures Run(s, events).revision >= s.revision
    ensures Run(s, events).revision == s.revision <==> !AnyMutation(s, events)
  {
    if events != [] {
      RevisionGrows(s, events[..|events| - 1]);
      StepRevision(Run(s, events[..|events| - 1]), events[|events| - 1]);
    }
  }

  /** Receipts requested at `s` count iff no mutation began or ended since and the session is
      in view; then each pending request gets the outcome of its receipt, and otherwise they
      change nothing. */
  lemma RefreshCountsIff(s: State, events: seq<Event>, receipts: seq<Receipt>, k: FollowupKey)
    requires Inv(s)
    ensures var f := BeginRefresh(s);
      var was := Run(s, events);
      var now := Apply(was, Statuses(f, receipts));
      var r := Find(Collect(receipts), RequestOf, k.request);
      var counts := !AnyMutation(s, events) && was.current == s.current;
      && (!counts ==> now == was)
      && (counts && k.session == s.current && r.Some? ==>
            Entry(now, k) == Outcome(Entry(was, k), f, r.value, k in was.settled))
      && (counts && !(k.session == s.current && r.Some?) ==> Entry(now, k) == Entry(was, k))
  {
    RevisionGrows(s, events);
    RunGood(s, events);
    CollectUnique(receipts);
    if !AnyMutation(s, events) && Run(s, events).current == s.current {
      ReceiptsOutcome(Run(s, events), BeginRefresh(s), Collect(receipts), k);
    }
  }

  /** The status loop never touches an entry whose mutation is under way. */
  lemma RefreshSparesMutations(s: State, f: Refresh, receipts: seq<Receipt>, k: FollowupKey)
    requires Inv(s) && Entry(s, k).Some? && Entry(s, k).value.mutating
    ensures Entry(Apply(s, Statuses(f, receipts)), k) == Entry(s, k)
  {
    CollectUnique(receipts);
    ReceiptsOutcome(s, f, Collect(receipts), k);
  }

  // ---- mutations ----

  /** The last mutation of the key to begin has not finished. */
  predicate Open(s: State, events: seq<Event>, k: FollowupKey) {
    events != [] &&
    var e := events[|events| - 1];
    var was := Run(s, events[..|events| - 1]);
    if e == FinishMutation(k) then false
    else (e == BeginMutation(k) && CanBegin(was, k)) || Open(s, events[..|events| - 1], k)
  }

  /** An entry present after the step is mutating iff it was so before. */
  predicate KeepsFlag(s: State, t: State, k: FollowupKey) {
    Entry(t, k).Some? ==> Entry(t, k).value.mutating == (Entry(s, k).Some? && Entry(s, k).value.mutating)
  }

  lemma EditsKeepFlag(s: State, e: Event, k: FollowupKey)
    requires Inv(s) && (e.Queue? || e.MarkQueued? || e.SwitchSession? || e.Disconnect? || e.RemovePending?)
    ensures KeepsFlag(s, Apply(s, e), k)
  {
    match e {
      case Queue(j, content) => QueueUpGood(s, j, content);
      case MarkQueued(j) =>
        var x := Entry(s, j);
        if x.Some? { AmendGood(Accept(s, j), j, Queued, x.value.canManage, x.value.mutating); }
      case SwitchSession(session) => FindDoubt(s.pending, s.current, k);
      case Disconnect(session) => FindDoubt(s.pending, session, k);
      case RemovePending(j) => SettleGood(s, j);
    }
  }

  lemma SnapshotKeepsFlag(s: State, session: string, r: Receipt, k: FollowupKey)
    requires Inv(s)
    ensures KeepsFlag(s, OnSnapshotRequest(s, session, r), k)
  {
    var j := FollowupKey(session, r.request);
    if Live(r) { AdoptGood(Accept(s, j), j, r); } else { SettleGood(s, j); }
  }

  lemma PagesKeepFlag(s: State, e: Event, k: FollowupKey)
    requires Inv(s) && (e.Reconcile? || e.Statuses? || e.Reloaded?)
    ensures KeepsFlag(s, Apply(s, e), k)
  {
    match e {
      case Reconcile(session, messages) => ReconcileEntry(s, session, messages, k);
      case Statuses(f, receipts) =>
        CollectUnique(receipts);
        ReceiptsOutcome(s, f, Collect(receipts), k);
      case Reloaded(f, receipts) => ConsumedEntry(s, f, Collect(receipts), k);
    }
  }

  /** Only its own mutation moves the flag of an entry. */
  lemma StepMutating(s: State, e: Event, k: FollowupKey)
    requires Inv(s)
    ensures !(e == FinishMutation(k) || (e == BeginMutation(k) && CanBegin(s, k))) ==> KeepsFlag(s, Apply(s, e), k)
    ensures Entry(Apply(s, e), k).Some? && e == FinishMutation(k) ==> !Entry(Apply(s, e), k).value.mutating
    ensures e == BeginMutation(k) && CanBegin(s, k) ==>
      Entry(Apply(s, e), k).Some? && Entry(Apply(s, e), k).value.mutating
  {
    match e {
      case BeginMutation(j) => MutationEntry(s, j, true, k);
      case FinishMutation(j) => MutationEntry(s, j, false, k);
      case SnapshotRequest(session, r) => SnapshotKeepsFlag(s, session, r, k);
      case Reconcile(_, _) => PagesKeepFlag(s, e, k);
      case Statuses(_, _) => PagesKeepFlag(s, e, k);
      case Reloaded(_, _) => PagesKeepFlag(s, e, k);
      case _ => EditsKeepFlag(s, e, k);
    }
  }

  lemma MutationEntry(s: State, j: FollowupKey, mutating: bool, k: FollowupKey)
    requires Inv(s)
    ensures var x := Entry(s, k);
      Entry(OnMutation(s, j, mutating), k) == if j == k && x.Some? then Some(x.value.(mutating := mutating)) else x
  {
    var x := Entry(s, j);
    var moved := s.(revision := s.revision + 1);
    assert Inv(moved);
    if x.Some? { AmendGood(moved, j, x.value.status, x.value.canManage, mutating); }
  }

  /** Reconciling with a page only takes entries away. */
  lemma {:induction false} ReconcileEntry(s: State, session: string, messages: seq<Message>, k: FollowupKey)
    requires Inv(s)
    ensures var gone := k.session == session && exists m :: m in messages && Settles(m) && m.request == k.request;
      Entry(ReconcileAll(s, session, messages), k) == if gone then None else Entry(s, k)
  {
    if messages != [] {
      var init, m := messages[..|messages| - 1], messages[|messages| - 1];
      ReconcileEntry(s, session, init, k);
      ReconcileGood(s, session, init);
      var own := FollowupKey(session, m.request);
      SettleGood(Accept(ReconcileAll(s, session, init), own), own);
      assert forall x :: x in messages <==> x in init || x == m;
    }
  }

  /** After the reload every consumed request is off the list, even while its entry mutates;
      nothing else moves. */
  lemma {:induction false} ConsumedEntry(s: State, f: Refresh, receipts: seq<Receipt>, k: FollowupKey)
    requires Inv(s)
    ensures var gone := k.session == f.session && k.request != "" &&
        exists r :: r in receipts && r.status == Consumed && r.request == k.request;
      Entry(SettleConsumed(s, f, receipts), k) == if gone then None else Entry(s, k)
  {
    if receipts != [] {
      var init, r := receipts[..|receipts| - 1], receipts[|receipts| - 1];
      ConsumedEntry(s, f, init, k);
      SettleConsumedGood(s, f, init);
      SettleGood(SettleConsumed(s, f, init), FollowupKey(f.session, r.request));
      assert forall x :: x in receipts <==> x in init || x == r;
    }
  }

  /** Only a pending follow-up can begin a mutation. */
  lemma {:induction false} OpenWasPending(events: seq<Event>, k: FollowupKey)
    requires Open(Start(), events, k)
    ensures var s := Run(Start(), events); Entry(s, k).Some? || k in s.settled
  {
    var was, e := Run(Start(), events[..|events| - 1]), events[|events| - 1];
    RunGood(Start(), events[..|events| - 1]);
    StepGood(was, e);
    if Open(Start(), events[..|events| - 1], k) {
      OpenWasPending(events[..|events| - 1], k);
    }
  }

  /** A pending follow-up is marked as mutating iff a mutation of it is under way, so at most
      one is at any time. */
  lemma {:induction false} MutatingIffOpen(events: seq<Event>, k: FollowupKey)
    requires Entry(Run(Start(), events), k).Some?
    ensures Entry(Run(Start(), events), k).value.mutating <==> Open(Start(), events, k)
  {
    if events != [] {
      var init := events[..|events| - 1];
      var was, e := Run(Start(), init), events[|events| - 1];
      RunGood(Start(), init);
      StepGood(was, e);
      StepMutating(was, e, k);
      if Entry(was, k).Some? {
        MutatingIffOpen(init, k);
      } else if Open(Start(), init, k) {
        OpenWasPending(init, k);
      }
    }
  }

  /** A run in which the reload takes away an entry whose mutation is under way: a snapshot shows
      a manageable request, its receipt says consumed, and the user takes it back while the
      messages are being reloaded. */
  lemma ConsumedWhileMutating(session: string, request: string, content: string)
    requires session != "" && request != ""
    ensures var k := FollowupKey(session, request);
      var queued := Receipt(request, InQueue, content, true);
      var consumed := Receipt(request, Consumed, content, true);
      var shown := Run(Start(), [SwitchSession(session), SnapshotRequest(session, queued)]);
      var f := BeginRefresh(shown);
      var asked := Apply(shown, Statuses(f, [consumed]));
      var begun := Apply(asked, BeginMutation(k));
      && AwaitsReload(shown.pending, f, consumed)
      && CanBegin(asked, k) && Entry(begun, k).Some? && Entry(begun, k).value.mutating
      && Entry(Apply(begun, Reloaded(f, [consumed])), k).None?
  {
    var k := FollowupKey(session, request);
    var consumed := Receipt(request, Consumed, content, true);
    var queued := Receipt(request, InQueue, content, true);
    var shown := Run(Start(), [SwitchSession(session), SnapshotRequest(session, queued)]);
    ShownByRun(session, queued);
    var f := BeginRefresh(shown);
    ConsumedAsked(shown, f, consumed);
    var begun := Apply(Accept(shown, k), BeginMutation(k));
    MutationPending(Accept(shown, k), k);
    ConsumedTaken(begun, f, consumed);
  }

  /** A consumed receipt for a pending entry only marks its request as accepted. */
  lemma ConsumedAsked(s: State, f: Refresh, r: Receipt)
    requires Counts(s, f) && r.status == Consumed && AwaitsReload(s.pending, f, r)
    ensures Apply(s, Statuses(f, [r])) == Accept(s, FollowupKey(f.session, r.request))
  {
    CollectOne(r);
    assert [r][..0] == [];
    assert OnReceipts(s, f, [r]) == OnReceipt(s, f, r);
  }

  lemma MutationPending(s: State, k: FollowupKey)
    requires CanBegin(s, k)
    ensures var t := Apply(s, BeginMutation(k));
      t.current == s.current && Entry(t, k).Some? && Entry(t, k).value.mutating
  {
    var x := Entry(s, k).value;
    FindPut(s.pending, KeyOf, Item(k, x.content, x.status, x.canManage, true), k);
  }

  lemma ConsumedTaken(s: State, f: Refresh, r: Receipt)
    requires s.current == f.session && r.status == Consumed && r.request != ""
    ensures Entry(Apply(s, Reloaded(f, [r])), FollowupKey(f.session, r.request)).None?
  {
    CollectOne(r);
    assert [r][..0] == [];
    var k := FollowupKey(f.session, r.request);
    assert SettleConsumed(s, f, [r]) == Settle(s, k);
    FindDrop(s.pending, KeyOf, k, k);
  }

  lemma CollectOne(r: Receipt)
    ensures Collect([r]) == [r]
  {
    assert [r][..0] == [];
  }

  lemma ShownByRun(session: string, r: Receipt)
    requires session != "" && r.status == InQueue
    ensures var s := Run(Start(), [SwitchSession(session), SnapshotRequest(session, r)]);
      && s.current == session && s.settled == {}
      && s.pending == [Item(FollowupKey(session, r.request), r.content, Queued, r.canManage, false)]
  {
    var first, second := SwitchSession(session), SnapshotRequest(session, r);
    assert [first, second][..1] == [first] && [first][..0] == [];
    assert Run(Start(), [first]) == Apply(Start(), first);
    assert Run(Start(), [first, second]) == Apply(Apply(Start(), first), second);
  }
}
