/** The follow-up state of the session-run store and its recovery, method by method. */
module FollowupStore {
  import opened KeyedLists
  import opened Followups

  class FollowupStore {
    var currentSessionId: string
    var pendingFollowups: seq<Item>
    var settledFollowups: set<FollowupKey>
    var acceptedFollowups: set<FollowupKey>
    var followupRevision: nat

    constructor ()
      ensures Value() == Start() && Inv(Value())
    {
      currentSessionId, pendingFollowups, settledFollowups, acceptedFollowups, followupRevision := "", [], {}, {}, 0;
    }

    function Value(): State
      reads this
    {
      State(currentSessionId, pendingFollowups, settledFollowups, acceptedFollowups, followupRevision)
    }

    method QueueFollowup(key: FollowupKey, content: string)
      modifies this
      ensures Value() == QueueUp(old(Value()), key, content)
    {
      if key in settledFollowups { return; }
      if Find(pendingFollowups, KeyOf, key).Some? { return; }
      pendingFollowups := pendingFollowups + [Item(key, content, Sending, false, false)];
    }

    method MarkFollowupAccepted(key: FollowupKey)
      modifies this
      ensures Value() == Accept(old(Value()), key)
    {
      acceptedFollowups := acceptedFollowups + {key};
    }

    /** Writes an entry over in place. */
    method Replace(key: FollowupKey, status: Status, canManage: bool, mutating: bool)
      modifies this
      ensures Value() == Amend(old(Value()), key, status, canManage, mutating)
    {
      var item := Find(pendingFollowups, KeyOf, key);
      if item.Some? {
        pendingFollowups := Put(pendingFollowups, KeyOf, Item(key, item.value.content, status, canManage, mutating));
      }
    }

    method MarkFollowupQueued(key: FollowupKey)
      modifies this
      ensures Value() == Apply(old(Value()), MarkQueued(key))
    {
      MarkFollowupAccepted(key);
      var item := Find(pendingFollowups, KeyOf, key);
      if item.Some? && item.value.status == Sending {
        Replace(key, Queued, item.value.canManage, item.value.mutating);
      }
    }

    method MarkFollowupsUnconfirmed(session: string)
      modifies this`pendingFollowups
      ensures Value() == Apply(old(Value()), Disconnect(session))
    {
      if session == "" { return; }
      ghost var was := pendingFollowups;
      DoubtAt(was, session);
      for i := 0 to |pendingFollowups|
        invariant |pendingFollowups| == |was|
        invariant forall j :: 0 <= j < |was| ==> pendingFollowups[j] == if j < i then Doubt(was, session)[j] else was[j]
      {
        if pendingFollowups[i].key.session == session {
          pendingFollowups := pendingFollowups[i := pendingFollowups[i].(status := Unconfirmed)];
        }
      }
      assert pendingFollowups == Doubt(was, session);
    }

    /** The watcher of currentSessionId. */
    method SetCurrentSession(session: string)
      modifies this
      ensures Value() == Apply(old(Value()), SwitchSession(session))
    {
      var previous := currentSessionId;
      currentSessionId := session;
      if previous != session { MarkFollowupsUnconfirmed(previous); }
    }

    method RemovePendingFollowup(key: FollowupKey)
      modifies this
      ensures Value() == Settle(old(Value()), key)
    {
      if key.request == "" { return; }
      settledFollowups := settledFollowups + {key};
      pendingFollowups := Drop(pendingFollowups, KeyOf, key);
    }

    method BeginFollowupMutation(key: FollowupKey) returns (begun: bool)
      modifies this
      ensures Value() == Apply(old(Value()), BeginMutation(key)) && begun == CanBegin(old(Value()), key)
    {
      var item := Find(pendingFollowups, KeyOf, key);
      if item.None? || !item.value.canManage || item.value.mutating || item.value.status == Unconfirmed {
        return false;
      }
      followupRevision := followupRevision + 1;
      Replace(key, item.value.status, item.value.canManage, true);
      begun := true;
    }

    method FinishFollowupMutation(key: FollowupKey)
      modifies this
      ensures Value() == Apply(old(Value()), FinishMutation(key))
    {
      followupRevision := followupRevision + 1;
      var item := Find(pendingFollowups, KeyOf, key);
      if item.Some? { Replace(key, item.value.status, item.value.canManage, false); }
    }

    method ReconcilePendingFollowups(session: string, items: seq<Message>)
      modifies this
      ensures Value() == ReconcileAll(old(Value()), session, items)
    {
      for i := 0 to |items|
        invariant Value() == ReconcileAll(old(Value()), session, items[..i])
      {
        var m := items[i];
        assert items[..i + 1][..i] == items[..i];
        if !m.isUser || m.id == "" || m.agentMessage { continue; }
        if m.request != "" {
          MarkFollowupAccepted(FollowupKey(session, m.request));
          RemovePendingFollowup(FollowupKey(session, m.request));
        }
      }
      assert items[..|items|] == items;
    }

    /** Queues a live request and shows its receipt. */
    method AdoptRequest(key: FollowupKey, r: Receipt)
      modifies this
      ensures Value() == Adopt(old(Value()), key, r)
    {
      QueueFollowup(key, r.content);
      var queued := Find(pendingFollowups, KeyOf, key);
      if queued.Some? { Replace(key, StatusOf(r), r.canManage, queued.value.mutating); }
    }

    /** The recovery's turn for one receipt; `retry` when its entry mutates, `consumed` when its
        entry waits for the reload. */
    method ApplyReceipt(f: Refresh, r: Receipt) returns (retry: bool, consumed: bool)
      modifies this
      ensures Value() == OnReceipt(old(Value()), f, r)
      ensures retry == MustRetry(old(pendingFollowups), f, r)
      ensures consumed == AwaitsReload(old(pendingFollowups), f, r)
    {
      var key := FollowupKey(f.session, r.request);
      var existing := Find(pendingFollowups, KeyOf, key);
      retry, consumed := false, false;
      if Live(r) || r.status == Consumed { MarkFollowupAccepted(key); }
      if existing.Some? && existing.value.mutating { return true, false; }
      if r.request in f.requests && existing.None? { return; }
      if r.status == Consumed { return false, existing.Some?; }
      if r.status == Cancelled || r.status == Failed {
        RemovePendingFollowup(key);
      } else if Live(r) {
        AdoptRequest(key, r);
      }
    }

    /** The recovery after its status requests: `reload` when a consumed send is still pending,
        `retry` when it has to come back. */
    method ApplyStatuses(f: Refresh, responses: seq<Receipt>) returns (retry: bool, reload: bool)
      modifies this
      ensures Value() == Apply(old(Value()), Statuses(f, responses))
      ensures retry == (old(currentSessionId) == f.session &&
        (old(followupRevision) != f.revision || AnyRetry(old(pendingFollowups), f, Collect(responses))))
      ensures reload == (old(Counts(Value(), f)) && AnyReload(old(pendingFollowups), f, Collect(responses)))
    {
      if currentSessionId != f.session { return false, false; }
      if followupRevision != f.revision { return true, false; }
      var statuses := [];
      for i := 0 to |responses|
        invariant statuses == Collect(responses[..i])
      {
        assert responses[..i + 1][..i] == responses[..i];
        statuses := Put(statuses, RequestOf, responses[i]);
      }
      assert responses[..|responses|] == responses;
      CollectUnique(responses);
      retry, reload := ApplyEach(f, statuses);
    }

    /** The loop over the collected receipts. */
    method ApplyEach(f: Refresh, statuses: seq<Receipt>) returns (retry: bool, reload: bool)
      requires UniqueKeys(statuses, RequestOf)
      modifies this
      ensures Value() == OnReceipts(old(Value()), f, statuses)
      ensures retry == AnyRetry(old(pendingFollowups), f, statuses)
      ensures reload == AnyReload(old(pendingFollowups), f, statuses)
    {
      retry, reload := false, false;
      for i := 0 to |statuses|
        invariant Value() == OnReceipts(old(Value()), f, statuses[..i])
        invariant retry == AnyRetry(old(pendingFollowups), f, statuses[..i])
        invariant reload == AnyReload(old(pendingFollowups), f, statuses[..i])
      {
        assert statuses[..i + 1][..i] == statuses[..i];
        AnyStep(old(pendingFollowups), f, statuses, i);
        TurnFindsOldEntry(old(Value()), f, statuses, i);
        var again, waits := ApplyReceipt(f, statuses[i]);
        retry, reload := retry || again, reload || waits;
      }
      assert statuses[..|statuses|] == statuses;
    }

    /** The recovery after a successful reload of the messages. */
    method RemoveConsumed(f: Refresh, statuses: seq<Receipt>)
      modifies this
      ensures Value() ==
        if old(currentSessionId) == f.session then SettleConsumed(old(Value()), f, statuses) else old(Value())
    {
      if currentSessionId != f.session { return; }
      for i := 0 to |statuses|
        invariant Value() == SettleConsumed(old(Value()), f, statuses[..i])
      {
        assert statuses[..i + 1][..i] == statuses[..i];
        if statuses[i].status == Consumed { RemovePendingFollowup(FollowupKey(f.session, statuses[i].request)); }
      }
      assert statuses[..|statuses|] == statuses;
    }
  }
}
