/** The session list store, method by method against its specification. */
module SessionListStore {
  import opened Sequences
  import opened KeyedLists
  import opened StableSort
  import opened SessionList
  import Text

  type Pins = map<string, map<Field, Value>>

  class SessionListStore {
    const host: Host
    var items: seq<Session>
    var nextCursor: Option<string>
    var filters: Filters
    var loadingInitial: bool
    var loadingMore: bool
    var listRequestVersion: nat
    var localMutationVersion: nat
    var localMutations: seq<Mutation>

    constructor (host: Host)
      ensures this.host == host && Value() == Start() && Valid()
    {
      this.host := host;
      items, nextCursor, filters := [], None, NO_FILTERS;
      loadingInitial, loadingMore := false, false;
      listRequestVersion, localMutationVersion, localMutations := 0, 0, [];
    }

    function Value(): State
      reads this
    {
      State(items, nextCursor, filters, loadingInitial, loadingMore, listRequestVersion, localMutationVersion,
        localMutations)
    }

    ghost predicate Valid()
      reads this
    {
      Inv(host, Value())
    }

    /** dedupeAndSort. */
    method DedupeAndSort(entries: seq<Session>) returns (r: seq<Session>)
      ensures r == Sort(Dedupe(entries), Order(host))
    {
      var byId := [];
      for i := 0 to |entries|
        invariant byId == Dedupe(entries[..i])
      {
        assert entries[..i + 1][..i] == entries[..i];
        if entries[i].id != "" { byId := Put(byId, Key, entries[i]); }
      }
      assert entries[..|entries|] == entries;
      r := Sort(byId, Order(host));
    }

    /** applyLocalMutations: each session edited since `afterVersion` is its local item or gone. */
    method ApplyLocalMutations(baseItems: seq<Session>, afterVersion: nat) returns (r: seq<Session>)
      ensures r == MergePage(host, baseItems, localMutations, afterVersion, filters)
    {
      var merged := DedupeAndSort(baseItems);
      ghost var sorted := merged;
      for i := 0 to |localMutations|
        invariant Overlay(merged, localMutations[i..], afterVersion, filters)
          == Overlay(sorted, localMutations, afterVersion, filters)
      {
        var m := localMutations[i];
        assert localMutations[i..][0] == m && localMutations[i..][1..] == localMutations[i + 1..];
        if m.version <= afterVersion { continue; }
        merged := Drop(merged, Key, m.id);
        if m.item.None? { continue; }
        var item := m.item.value;
        if HasOrigin(item) && TextOf(item, ActivityAt) != "" && Matches(item, filters) {
          merged := Put(merged, Key, m.item.value);
        }
      }
      r := Sort(merged, Order(host));
    }

    method PruneLocalMutations(throughVersion: nat)
      modifies this`localMutations
      ensures localMutations == Prune(old(localMutations), throughVersion)
    {
      var kept, newer := [], (m: Mutation) => m.version > throughVersion;
      for i := 0 to |localMutations|
        invariant localMutations == old(localMutations)
        invariant kept == Filter(localMutations[..i], newer)
      {
        var m := localMutations[i];
        FilterAppend(localMutations[..i], [m], newer);
        assert localMutations[..i + 1] == localMutations[..i] + [m];
        if m.version > throughVersion { kept := kept + [m]; }
      }
      assert localMutations[..|localMutations|] == localMutations;
      localMutations := kept;
    }

    /** The part of `load` before its request. */
    method BeginLoad(reset: bool) returns (request: Option<Request>)
      requires Valid()
      modifies this
      ensures Value() == Apply(host, old(Value()), Load(reset)) && Valid()
      ensures request == if Starts(old(Value()), reset) then Some(RequestOf(Value(), reset)) else None
    {
      StepKeepsInv(host, Value(), Load(reset));
      if !reset && (loadingInitial || loadingMore || nextCursor.None?) { return None; }
      if reset {
        var wanted := filters;
        items := Filter(items, (x: Session) => Matches(x, wanted));
        nextCursor, loadingInitial, loadingMore := None, false, false;
      }
      listRequestVersion := listRequestVersion + 1;
      request := Some(Request(listRequestVersion, localMutationVersion, reset));
      if reset { loadingInitial := true; } else { loadingMore := true; }
    }

    /** The part of `load` after a response. */
    method FinishLoad(request: Request, page: seq<Session>, cursor: Option<string>)
      requires Valid()
      modifies this
      ensures Value() == Apply(host, old(Value()), Succeeds(request, page, cursor)) && Valid()
    {
      StepKeepsInv(host, Value(), Succeeds(request, page, cursor));
      if request.version != listRequestVersion { return; }
      items := ApplyLocalMutations(if request.reset then page else items + page, request.mutationVersionAtStart);
      PruneLocalMutations(request.mutationVersionAtStart);
      nextCursor := cursor;
      loadingInitial, loadingMore := false, false;
    }

    /** The part of `load` after a failure. */
    method FailLoad(request: Request)
      requires Valid()
      modifies this
      ensures Value() == Apply(host, old(Value()), Fails(request)) && Valid()
    {
      if request.version == listRequestVersion { loadingInitial, loadingMore := false, false; }
    }

    /** setFilters; the caller goes on with the load it begins. */
    method SetFilters(originType: Option<string>, originId: Option<string>, workspaceId: Option<string>)
      returns (request: Option<Request>)
      requires Valid()
      modifies this
      ensures Value() == Apply(host, old(Value()), Event.SetFilters(originType, originId, workspaceId)) && Valid()
      ensures request == if Value().filters == old(filters) then None else Some(RequestOf(Value(), true))
    {
      var wanted := Filters(
        Or(originType, filters.originType), Or(originId, filters.originId), Or(workspaceId, filters.workspaceId));
      var next := NormalizeFilters(wanted);
      if next == filters { return None; }
      filters := next;
      request := BeginLoad(true);
    }

    /** reconcileFilters with the facets just loaded. */
    method ReconcileFilters(origins: set<(string, string)>, workspaces: set<string>) returns (request: Option<Request>)
      requires Valid()
      modifies this
      ensures Value() == Apply(host, old(Value()), FacetsLoaded(origins, workspaces)) && Valid()
      ensures request == if Value().filters == old(filters) then None else Some(RequestOf(Value(), true))
    {
      var next := filters;
      if next.originId != "" && (next.originType, next.originId) !in origins { next := next.(originId := ""); }
      if next.workspaceId != "" && next.workspaceId != UNASSIGNED && next.workspaceId !in workspaces {
        next := next.(workspaceId := "");
      }
      if next == filters { return None; }
      filters := next;
      request := BeginLoad(true);
    }

    /** Logs the edit whose effect on the items is already there. */
    method RecordLocalMutation(sid: string, item: Option<Session>, ghost was: State, ghost e: Event)
      requires Inv(host, was) && (e.Upsert? || e.UpdateActivity? || e.UpdateTitle? || e.RemoveSession?)
      requires EditOf(was, e) == Some(Mutation(sid, was.mutationVersion + 1, item))
      requires Value() == was.(items := EditItems(host, was.items, e, EditOf(was, e).value))
      modifies this`localMutationVersion, this`localMutations
      ensures Value() == Apply(host, was, e) && Valid()
    {
      localMutationVersion := localMutationVersion + 1;
      localMutations := Put(localMutations, Subject, Mutation(sid, localMutationVersion, item));
      EditKeepsInv(host, was, e);
    }

    /** The index of the item with this id. */
    method FindIndex(sid: string) returns (index: int)
      ensures -1 <= index < |items|
      ensures index >= 0 ==>
        items[index].id == sid && Find(items[..index], Key, sid) == None && Find(items, Key, sid) == Some(items[index])
      ensures index < 0 ==> Find(items, Key, sid) == None
    {
      index := 0;
      while index < |items|
        invariant 0 <= index <= |items|
        invariant Find(items[..index], Key, sid) == None
        invariant Find(items[index..], Key, sid) == Find(items, Key, sid)
      {
        assert items[index..][0] == items[index] && items[index..][1..] == items[index + 1..];
        if items[index].id == sid { return; }
        assert forall x :: x in items[..index + 1] ==> x in items[..index] || x == items[index];
        index := index + 1;
      }
      index := -1;
    }

    /** Splices the item over the one with its id, when there is one. */
    method ReplaceAt(index: int, item: Session)
      requires -1 <= index < |items|
      requires index >= 0 ==> items[index].id == item.id && Find(items[..index], Key, item.id) == None
      modifies this`items
      ensures items == if index >= 0 then Put(old(items), Key, item) else old(items)
    {
      if index >= 0 {
        PutReplaces(items, Key, item, index);
        items := items[index := item];
      }
    }

    /** Splices the item over the one with its id or appends it, and sorts. */
    method PutItem(index: int, item: Session)
      requires UniqueKeys(items, Key) && -1 <= index < |items|
      requires if index >= 0 then items[index].id == item.id && Find(items[..index], Key, item.id) == None
        else Find(items, Key, item.id) == None
      modifies this`items
      ensures items == Sort(Put(old(items), Key, item), Order(host))
    {
      if index >= 0 {
        ReplaceAt(index, item);
      } else {
        PutAppends(items, Key, item);
        items := items + [item];
      }
      items := Sort(items, Order(host));
    }

    method Upsert(item: Session, pins: Pins) returns (shown: Option<Session>)
      requires Valid()
      modifies this
      ensures Value() == Apply(host, old(Value()), Event.Upsert(item, pins)) && Valid()
      ensures var m := EditOf(old(Value()), Event.Upsert(item, pins)); shown == if m.Some? then m.value.item else None
    {
      ghost var was, e := Value(), Event.Upsert(item, pins);
      shown := None;
      if item.id == "" { return; }
      var index := FindIndex(item.id);
      var existing := Existing(Value(), item.id, pins);
      var merged := MergeInto(existing, item);
      if !Matches(merged, filters) {
        RemoveAt(index, item.id);
        RecordLocalMutation(item.id, None, was, e);
      } else if existing.Some? || TextOf(merged, ActivityAt) != "" {
        PutItem(index, merged);
        RecordLocalMutation(item.id, Some(merged), was, e);
        shown := Some(merged);
      }
    }

    /** Splices the item at the index out, when there is one. */
    method RemoveAt(index: int, sid: string)
      requires UniqueKeys(items, Key) && -1 <= index < |items|
      requires if index >= 0 then items[index].id == sid else Find(items, Key, sid) == None
      modifies this`items
      ensures items == Drop(old(items), Key, sid)
    {
      if index >= 0 {
        DropSplices(items, Key, index);
        items := Sequences.Remove(items, index);
      } else {
        DropAbsent(items, Key, sid);
      }
    }

    method UpdateActivity(sid: string, lastMessage: Option<string>, activityAt: string, unread: Option<int>, pins: Pins)
      returns (updated: Option<Session>)
      requires Valid()
      modifies this
      ensures Value() == Apply(host, old(Value()), Event.UpdateActivity(sid, lastMessage, activityAt, unread, pins))
        && Valid()
      ensures updated.None? <==> old(Existing(Value(), sid, pins)).None?
    {
      ghost var was, e := Value(), Event.UpdateActivity(sid, lastMessage, activityAt, unread, pins);
      var index := FindIndex(sid);
      var existing := Existing(Value(), sid, pins);
      if existing.None? { return None; }
      ActivityEdit(host, was, e);
      updated := Some(WithActivity(existing.value, lastMessage, activityAt, unread));
      ReplaceAt(index, updated.value);
      items := Sort(items, Order(host));
      RecordLocalMutation(sid, updated, was, e);
    }

    method UpdateTitle(sid: string, title: string, pins: Pins) returns (updated: Option<Session>)
      requires Valid()
      modifies this
      ensures Value() == Apply(host, old(Value()), Event.UpdateTitle(sid, Text.Trim(title), pins)) && Valid()
    {
      var nextTitle := Text.Trim(title);
      ghost var was, e := Value(), Event.UpdateTitle(sid, nextTitle, pins);
      if nextTitle == "" { return None; }
      var index := FindIndex(sid);
      var existing := Existing(Value(), sid, pins);
      if existing.None? { return None; }
      if TextOf(existing.value, Title) == nextTitle { return existing; }
      TitleEdit(host, was, e);
      updated := Some(existing.value.(props := existing.value.props[Title := Str(nextTitle)]));
      ReplaceAt(index, updated.value);
      RecordLocalMutation(sid, updated, was, e);
    }

    method RemoveSession(sid: string)
      requires Valid()
      modifies this
      ensures Value() == Apply(host, old(Value()), Event.RemoveSession(sid)) && Valid()
    {
      ghost var was, e := Value(), Event.RemoveSession(sid);
      items := Drop(items, Key, sid);
      RecordLocalMutation(sid, None, was, e);
    }
  }
}
