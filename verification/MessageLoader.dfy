/** The message loader, method by method against its specification. */
module MessageLoader {
  import opened Sequences
  import opened KeyedLists
  import opened MessageLoads

  class SessionMessages<M> {
    const host: Host<M>
    var currentSessionId: string
    var selectedParticipantId: string
    var messageLoadSeqByKey: map<string, nat>
    var messageProjectionRevision: nat
    var participantMessages: map<string, seq<M>>
    var messageCache: seq<Entry<M>>

    constructor (host: Host<M>)
      ensures this.host == host && Value() == Start() && Inv(Value())
    {
      this.host := host;
      currentSessionId, selectedParticipantId, messageLoadSeqByKey := "", "", map[];
      messageProjectionRevision, participantMessages, messageCache := 0, map[], [];
    }

    function Value(): State<M>
      reads this
    {
      State(currentSessionId, selectedParticipantId, messageLoadSeqByKey, messageProjectionRevision,
        participantMessages, messageCache)
    }

    method SetParticipantMessages(participant: string, list: seq<M>)
      modifies this`messageProjectionRevision, this`participantMessages
      ensures messageProjectionRevision == old(messageProjectionRevision) + 1
      ensures participantMessages == old(participantMessages)[ListKey(participant) := list]
    {
      messageProjectionRevision := messageProjectionRevision + 1;
      participantMessages := participantMessages[ListKey(participant) := list];
    }

    /** Reconciles the page with its list, or puts it in its place. */
    method PutPage(t: Ticket, page: seq<M>, reconcile: bool)
      modifies this`messageProjectionRevision, this`participantMessages
      ensures Value() == MessageLoads.Put(host, old(Value()), t, page, reconcile)
    {
      if reconcile {
        var key := ListKey(t.participant);
        participantMessages := participantMessages[key := host.reconcile(ListOf(Value(), key), page, t.options.live)];
      } else {
        SetParticipantMessages(t.participant, KeepDivider(host, page, ListOf(Value(), "root"), t.options.silent));
      }
    }

    method CacheMessages(session: string, participant: string, list: seq<M>)
      modifies this`messageCache
      ensures Value() == Apply(host, old(Value()), CacheList(session, participant, list))
    {
      if session == "" { return; }
      var key := CacheKey(session, participant);
      messageCache := Drop(messageCache, EntryKey(), key);
      messageCache := messageCache + [Entry(key, Map(Newest(list), host.normalize))];
      if |messageCache| > MAX_CACHED { messageCache := messageCache[1..]; }
    }

    /** deleteMessageCache. */
    method DeleteMessageCache(session: string)
      modifies this`messageCache
      ensures messageCache == Without(old(messageCache), session)
    {
      var kept, foreign := [], (e: Entry<M>) => !Owns(session, e.key);
      for i := 0 to |messageCache|
        invariant messageCache == old(messageCache)
        invariant kept == Filter(messageCache[..i], foreign)
      {
        FilterAppend(messageCache[..i], [messageCache[i]], foreign);
        assert messageCache[..i + 1] == messageCache[..i] + [messageCache[i]];
        if !Owns(session, messageCache[i].key) { kept := kept + [messageCache[i]]; }
      }
      assert messageCache[..|messageCache|] == messageCache;
      messageCache := kept;
    }

    /** The part of loadSessionMessages before its request; no ticket when the load is over. */
    method BeginLoad(session: string, participant: string, options: Options) returns (ticket: Option<Ticket>)
      modifies this
      ensures Value() == Apply(host, old(Value()), Begin(session, participant, options))
      ensures var t := TicketOf(old(Value()), session, participant, options);
        ticket == if session != "" && Hit(old(Value()), t).None? then Some(t) else None
    {
      if session == "" { return None; }
      var t := TicketOf(Value(), session, participant, options);
      messageLoadSeqByKey := messageLoadSeqByKey[TicketKey(t) := t.seqNo];
      if options.silent && !options.bypassCache {
        var cached := Find(messageCache, EntryKey(), TicketKey(t));
        if cached.Some? {
          if IsCurrent(Value(), t) {
            PutPage(t, Map(cached.value.list, host.normalize), t.participant != "root" || options.preserve);
          }
          return None;
        }
      }
      ticket := Some(t);
    }

    /** The part of loadSessionMessages after its response. */
    method FinishLoad(t: Ticket, page: seq<M>) returns (written: bool)
      modifies this
      ensures Value() == Apply(host, old(Value()), Respond(t, page))
      ensures written == Writes(old(Value()), t)
    {
      if !IsCurrent(Value(), t) { return false; }
      if !t.options.preserve && t.revision != messageProjectionRevision { return false; }
      PutPage(t, page, t.participant != "root" || t.options.preserve || t.options.live);
      CacheMessages(t.session, t.participant, ListOf(Value(), ListKey(t.participant)));
      written := true;
    }

    /** Raises the number of every key the session owns. */
    method SupersedeLoads(session: string)
      modifies this`messageLoadSeqByKey
      ensures messageLoadSeqByKey == Raised(old(messageLoadSeqByKey), session)
    {
      var keys := messageLoadSeqByKey.Keys;
      while keys != {}
        invariant keys <= messageLoadSeqByKey.Keys == old(messageLoadSeqByKey).Keys
        invariant forall k :: k in messageLoadSeqByKey ==>
          messageLoadSeqByKey[k] == old(messageLoadSeqByKey)[k] + if k !in keys && Owns(session, k) then 1 else 0
      {
        var key :| key in keys;
        if Owns(session, key) {
          messageLoadSeqByKey := messageLoadSeqByKey[key := messageLoadSeqByKey[key] + 1];
        }
        keys := keys - {key};
      }
    }

    /** Empties the lists of the participants. */
    method ClearLists(children: set<string>)
      requires children <= participantMessages.Keys
      requires forall k :: k in children ==> ListKey(k) == k
      modifies this`messageProjectionRevision, this`participantMessages
      ensures messageProjectionRevision == old(messageProjectionRevision) + |children|
      ensures participantMessages == Emptied(old(participantMessages), children)
    {
      var rest := children;
      ghost var was := participantMessages;
      while rest != {}
        invariant rest <= children && participantMessages.Keys == was.Keys
        invariant messageProjectionRevision + |rest| == old(messageProjectionRevision) + |children|
        invariant forall k :: k in was ==> participantMessages[k] == if k in children - rest then [] else was[k]
      {
        var child :| child in rest;
        SetParticipantMessages(child, []);
        rest := rest - {child};
      }
    }

    /** applySnapshotMessages; the caller reloads the participants it returns. */
    method ApplySnapshotMessages(session: string, items: seq<M>) returns (reload: Option<set<string>>)
      requires forall k :: k in participantMessages ==> ListKey(k) == k
      modifies this
      ensures Value() == Apply(host, old(Value()), Snapshot(session, items))
      ensures reload == if session == old(currentSessionId) then Some(Children(old(Value()))) else None
    {
      ghost var was := Value();
      if session != currentSessionId { return None; }
      var loaded := Children(Value());
      SupersedeLoads(session);
      DeleteMessageCache(session);
      ClearLists(loaded);
      RootStays();
      SetParticipantMessages("root", items);
      assert Value() == OnSnapshot(was, session, items);
      reload := Some(loaded);
    }
  }
}
