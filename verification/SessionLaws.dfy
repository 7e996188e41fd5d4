/** What the session list shows, told by the properties of its sessions: these statements share no
    vocabulary with the operations they are about. */
module SessionLaws {
  import opened Sequences
  import opened KeyedLists
  import opened StableSort
  import opened SessionList

  predicate Has(x: Session, f: Field, v: Value) { f in x.props && x.props[f] == v }

  /** The time the host reads off the session, or off "" when it is not dated. */
  function ActiveAt(h: Host, x: Session): int {
    h.time(if ActivityAt in x.props && x.props[ActivityAt].Str? then x.props[ActivityAt].text else "")
  }

  predicate Dated(x: Session) {
    ActivityAt in x.props && x.props[ActivityAt].Str? && x.props[ActivityAt].text != ""
  }

  /** It has an origin, and what the filters name. */
  predicate Fits(x: Session, f: Filters) {
    && Origin in x.props && x.props[Origin].OriginOf?
    && (f.originType == "" || x.props[Origin].kind == f.originType)
    && (f.originId == "" || x.props[Origin].id == f.originId)
    && (f.workspaceId == "" || Has(x, Workspace, WorkspaceOf(f.workspaceId)))
  }

  lemma FitsMeans(x: Session, f: Filters)
    ensures Matches(x, f) <==> Fits(x, f)
  {
  }

  // ---- order ----

  /** In every reachable state no id stands twice, and the list goes from the most recently active
      to the least, and among equally recent ones from the greater id to the lesser. */
  lemma MostRecentFirst(h: Host, events: seq<Event>, i: nat, j: nat)
    requires i < j < |Run(h, Start(), events).items|
    ensures var items := Run(h, Start(), events).items; var tx, ty := ActiveAt(h, items[i]), ActiveAt(h, items[j]);
      && items[i].id != items[j].id
      && (tx > ty || (tx == ty && h.collate(items[i].id) >= h.collate(items[j].id)))
  {
    ItemsUniqueAndSorted(h, events, i, j);
    BeforeMeans(h, Run(h, Start(), events).items[i], Run(h, Start(), events).items[j]);
  }

  lemma BeforeMeans(h: Host, x: Session, y: Session)
    ensures Before(h, x, y) <==>
      ActiveAt(h, x) > ActiveAt(h, y) || (ActiveAt(h, x) == ActiveAt(h, y) && h.collate(x.id) >= h.collate(y.id))
  {
  }

  // ---- what a page shows ----

  /** When a page arrives that no newer load has superseded, a session that was edited since its
      request is shown as its last edit left it, if that left it dated and fitting the filters, and
      is not shown otherwise. */
  lemma EditedOnPage(
    h: Host, s: State, reset: bool, events: seq<Event>, page: seq<Session>, cursor: Option<string>, sid: string,
    left: Option<Session>)
    requires Inv(h, s) && Starts(s, reset) && sid != ""
    requires !AnyLoadStarts(h, BeginLoad(s, reset), events)
    requires Unanswered(events, BeginLoad(s, reset).requestVersion)
    requires LastEdit(h, BeginLoad(s, reset), events, sid) == Some(left)
    ensures var begun := BeginLoad(s, reset);
      var now := Apply(h, Run(h, begun, events), Succeeds(RequestOf(begun, reset), page, cursor));
      Find(now.items, Key, sid) == if left.Some? && Dated(left.value) && Fits(left.value, s.filters) then left else None
  {
    LocalEditsWin(h, s, reset, events, page, cursor, sid);
    ShownMeans(left, s.filters);
  }

  lemma ShownMeans(left: Option<Session>, f: Filters)
    ensures Shown(left, f) == if left.Some? && Dated(left.value) && Fits(left.value, f) then left else None
  {
    if left.Some? { FitsMeans(left.value, f); }
  }

  /** A new store shows nothing, filters on nothing and loads nothing. */
  lemma NewStore()
    ensures var s := Start();
      && s.items == [] && s.mutations == [] && s.nextCursor == None && s.filters == Filters("", "", "")
      && !s.loadingInitial && !s.loadingMore && s.requestVersion == 0 && s.mutationVersion == 0
  {
  }

  /** The response ends the load, brings its cursor and keeps the log of the edits made since. */
  lemma PageEndsLoad(h: Host, s: State, r: Request, page: seq<Session>, cursor: Option<string>)
    requires r.version == s.requestVersion
    ensures var now := Apply(h, s, Succeeds(r, page, cursor));
      && var base := if r.reset then page else s.items + page;
      && now.items == MergePage(h, base, s.mutations, r.mutationVersionAtStart, s.filters)
      && now.nextCursor == cursor && !now.loadingInitial && !now.loadingMore
      && now.filters == s.filters && now.mutationVersion == s.mutationVersion
      && (forall m: Mutation :: m in now.mutations <==> m in s.mutations && m.version > r.mutationVersionAtStart)
      && Apply(h, s, Fails(r)) == s.(loadingInitial := false, loadingMore := false)
  {
    forall m: Mutation ensures m in Prune(s.mutations, r.mutationVersionAtStart) <==>
      m in s.mutations && m.version > r.mutationVersionAtStart
    {
      FilterMember(s.mutations, (x: Mutation) => x.version > r.mutationVersionAtStart, m);
    }
  }

  // ---- loading ----

  /** A load begins iff it starts over, or none is under way and there is more to load. Starting
      over keeps only the items that fit the filters. */
  lemma LoadBegins(h: Host, s: State, reset: bool, x: Session)
    ensures var t := Apply(h, s, Load(reset));
      var begins := reset || (!s.loadingInitial && !s.loadingMore && s.nextCursor != None);
      && t.requestVersion == s.requestVersion + (if begins then 1 else 0)
      && (!begins ==> t == s)
      && (begins && reset ==> t.loadingInitial && !t.loadingMore && t.nextCursor == None)
      && (begins && !reset ==> t.loadingMore && t.items == s.items && t.nextCursor == s.nextCursor)
      && (reset ==> (x in t.items <==> x in s.items && Fits(x, s.filters)))
      && (t.filters, t.mutations, t.mutationVersion) == (s.filters, s.mutations, s.mutationVersion)
  {
    FilterMember(s.items, (y: Session) => Matches(y, s.filters), x);
    FitsMeans(x, s.filters);
  }

  // ---- filters ----

  /** Asking for filters keeps what the request leaves out; an origin id is kept only with a bot or
      a widget. A load starts over iff that changes anything. */
  lemma FiltersAsked(
    h: Host, s: State, originType: Option<string>, originId: Option<string>, workspaceId: Option<string>)
    ensures var t := Apply(h, s, SetFilters(originType, originId, workspaceId));
      && t.filters.originType == (if originType == None then s.filters.originType else originType.value)
      && t.filters.workspaceId == (if workspaceId == None then s.filters.workspaceId else workspaceId.value)
      && t.filters.originId == (if t.filters.originType !in {"bot", "widget"} then ""
                                else if originId == None then s.filters.originId
                                else originId.value)
      && t.requestVersion == s.requestVersion + (if t.filters == s.filters then 0 else 1)
      && (t.filters == s.filters ==> t == s)
      && (t.filters != s.filters ==> forall x :: x in t.items <==> x in s.items && Fits(x, t.filters))
  {
    FilteredAnew(h, s, SetFilters(originType, originId, workspaceId));
  }

  lemma FilteredAnew(h: Host, s: State, e: Event)
    requires e.SetFilters? || e.FacetsLoaded?
    ensures var t := Apply(h, s, e);
      && t.requestVersion == s.requestVersion + (if t.filters == s.filters then 0 else 1)
      && (t.filters == s.filters ==> t == s)
      && (t.filters != s.filters ==> forall x :: x in t.items <==> x in s.items && Fits(x, t.filters))
  {
    var f := NextFilters(s.filters, e);
    forall x ensures x in Filter(s.items, (y: Session) => Matches(y, f)) <==> x in s.items && Fits(x, f) {
      FilterMember(s.items, (y: Session) => Matches(y, f), x);
      FitsMeans(x, f);
    }
  }

  /** New facets take away a filter on an origin or a workspace that they do not list; the group of
      unassigned sessions needs no listing. */
  lemma FacetsReconcile(h: Host, s: State, origins: set<(string, string)>, workspaces: set<string>)
    ensures var t := Apply(h, s, FacetsLoaded(origins, workspaces));
      && t.filters.originType == s.filters.originType
      && t.filters.originId ==
           (if (s.filters.originType, s.filters.originId) in origins then s.filters.originId else "")
      && t.filters.workspaceId ==
           (if s.filters.workspaceId in workspaces + {"__unassigned__"} then s.filters.workspaceId else "")
      && t.requestVersion == s.requestVersion + (if t.filters == s.filters then 0 else 1)
      && (t.filters == s.filters ==> t == s)
      && (t.filters != s.filters ==> forall x :: x in t.items <==> x in s.items && Fits(x, t.filters))
  {
    FilteredAnew(h, s, FacetsLoaded(origins, workspaces));
  }

  // ---- local edits ----

  /** What the store knows of a session: its item in the list, else the pinned one. */
  ghost predicate Knows(s: State, pins: map<string, map<Field, Value>>, sid: string, x: Session) {
    || (x in s.items && x.id == sid)
    || ((forall y :: y in s.items ==> y.id != sid) && sid in pins && x == Session(sid, pins[sid]))
  }

  lemma KnowsMeans(h: Host, s: State, pins: map<string, map<Field, Value>>, sid: string, x: Session)
    requires Inv(h, s)
    ensures Knows(s, pins, sid, x) <==> Existing(s, sid, pins) == Some(x)
  {
    if x in s.items { FindMember(s.items, Key, x); }
  }

  /** The edit is on record with the item it left: it will win over the page of any load that has
      been begun. */
  ghost predicate Recorded(s: State, t: State, sid: string, item: Option<Session>) {
    && t.mutationVersion == s.mutationVersion + 1
    && Mutation(sid, t.mutationVersion, item) in t.mutations
    && (forall m: Mutation :: m in t.mutations && m.id == sid ==> m.version == t.mutationVersion)
    && (forall m: Mutation :: m.id != sid ==> (m in t.mutations <==> m in s.mutations))
  }

  lemma EditRecorded(h: Host, s: State, e: Event)
    requires Inv(h, s) && EditOf(s, e).Some?
    ensures Recorded(s, Apply(h, s, e), EditOf(s, e).value.id, EditOf(s, e).value.item)
  {
    var m := EditOf(s, e).value;
    EditKeepsId(s, e);
    RecordLogged(s.mutations, s.mutationVersion, m);
    var log := Put(s.mutations, Subject, m);
    forall x ensures x in log <==> Find(log, Subject, x.id) == Some(x) {
      if x in log { FindMember(log, Subject, x); }
    }
    forall x ensures x in s.mutations <==> Find(s.mutations, Subject, x.id) == Some(x) {
      if x in s.mutations { FindMember(s.mutations, Subject, x); }
    }
  }

  /** The list shows the session as `item`, or not at all, and every other as it did. */
  ghost predicate ShowsInstead(s: State, t: State, sid: string, item: Option<Session>) {
    && (forall x: Session :: x.id != sid ==> (x in t.items <==> x in s.items))
    && (forall x: Session :: x.id == sid ==> (x in t.items <==> item == Some(x)))
  }

  lemma EditShown(h: Host, s: State, e: Event)
    requires Inv(h, s) && EditOf(s, e).Some?
    ensures var m := EditOf(s, e).value;
      ShowsInstead(s, Apply(h, s, e), m.id,
        if m.item.None? || e.Upsert? || Find(s.items, Key, m.id).Some? then m.item else None)
  {
    var m, items := EditOf(s, e).value, Apply(h, s, e).items;
    forall x: Session ensures x in items <==> Find(items, Key, x.id) == Some(x) {
      FindEdit(h, s, e, x.id);
      if x in items { FindMember(items, Key, x); }
    }
    forall x: Session ensures x in s.items <==> Find(s.items, Key, x.id) == Some(x) {
      if x in s.items { FindMember(s.items, Key, x); }
    }
    forall x: Session ensures Find(items, Key, x.id) ==
      if x.id != m.id then Find(s.items, Key, x.id)
      else if m.item.None? || e.Upsert? || Find(s.items, Key, m.id).Some? then m.item
      else None
    {
      FindEdit(h, s, e, x.id);
    }
  }

  /** An upsert puts its item into the list even when it was not there; an update does not. */
  lemma EditPuts(h: Host, items: seq<Session>, e: Event, m: Mutation)
    requires m.item.Some? && Find(items, Key, m.id) == None && (e.Upsert? || e.UpdateActivity? || e.UpdateTitle?)
    ensures EditItems(h, items, e, m) ==
      if e.Upsert? then Sort(Put(items, Key, m.item.value), Order(h))
      else if e.UpdateTitle? then items
      else Sort(items, Order(h))
  {
  }

  /** An upsert writes the item's properties over those known of its session. The session is then
      shown and recorded if it fits the filters; recorded as gone if it does not; and ignored when
      nothing was known of it and it is not dated. */
  lemma UpsertActs(h: Host, s: State, item: Session, pins: map<string, map<Field, Value>>, known: Option<Session>)
    requires Inv(h, s) && forall x :: Knows(s, pins, item.id, x) <==> known == Some(x)
    ensures var t := Apply(h, s, Upsert(item, pins));
      var merged := Session(item.id, (if known.Some? then known.value.props else map[]) + item.props);
      if item.id == "" || (Fits(merged, s.filters) && known.None? && !Dated(merged)) then t == s
      else
        var shown := if Fits(merged, s.filters) then Some(merged) else None;
        ShowsInstead(s, t, item.id, shown) && Recorded(s, t, item.id, shown)
  {
    KnownIs(h, s, pins, item.id, known);
    var e, merged := Upsert(item, pins), MergeInto(known, item);
    assert merged == Session(item.id, (if known.Some? then known.value.props else map[]) + item.props);
    FitsMeans(merged, s.filters);
    if EditOf(s, e).Some? {
      EditShown(h, s, e);
      EditRecorded(h, s, e);
    }
  }

  lemma KnownIs(
    h: Host, s: State, pins: map<string, map<Field, Value>>, sid: string, known: Option<Session>)
    requires Inv(h, s) && forall x :: Knows(s, pins, sid, x) <==> known == Some(x)
    ensures Existing(s, sid, pins) == known
  {
    if known.Some? { KnowsMeans(h, s, pins, sid, known.value); }
    if Existing(s, sid, pins).Some? { KnowsMeans(h, s, pins, sid, Existing(s, sid, pins).value); }
  }

  predicate Keeps(x: Session, y: Session, f: Field) {
    (f in x.props <==> f in y.props) && (f in x.props ==> x.props[f] == y.props[f])
  }

  /** What an update names, and all else as it was. */
  ghost predicate Updated(
    was: Session, lastMessage: Option<string>, activityAt: string, unread: Option<int>, x: Session) {
    && x.id == was.id
    && (if lastMessage.Some? then Has(x, LastMessage, Str(lastMessage.value)) else Keeps(x, was, LastMessage))
    && (if activityAt != "" then Has(x, ActivityAt, Str(activityAt)) else Keeps(x, was, ActivityAt))
    && (if unread.Some? then Has(x, UnreadCount, Num(unread.value)) else Keeps(x, was, UnreadCount))
    && (forall f :: f !in {LastMessage, ActivityAt, UnreadCount} ==> Keeps(x, was, f))
  }

  lemma ActivityWritten(was: Session, lastMessage: Option<string>, activityAt: string, unread: Option<int>)
    ensures Updated(was, lastMessage, activityAt, unread, WithActivity(was, lastMessage, activityAt, unread))
  {
  }

  /** An update of a known session is recorded, and shown if the list showed the session. */
  lemma UpdateShown(
    h: Host, s: State, e: Event, sid: string, pins: map<string, map<Field, Value>>, known: Session, x: Session)
    requires Inv(h, s) && !e.Upsert? && Existing(s, sid, pins) == Some(known) && known.id == sid
    requires EditOf(s, e).Some? && EditOf(s, e).value.id == sid && EditOf(s, e).value.item == Some(x)
    ensures var t := Apply(h, s, e);
      Recorded(s, t, sid, Some(x)) && ShowsInstead(s, t, sid, if known in s.items then Some(x) else None)
  {
    ListedIff(h, s, sid, known);
    EditShown(h, s, e);
    EditRecorded(h, s, e);
  }

  lemma ListedIff(h: Host, s: State, sid: string, x: Session)
    requires Inv(h, s) && x.id == sid && (Find(s.items, Key, sid).Some? ==> Find(s.items, Key, sid).value == x)
    ensures x in s.items <==> Find(s.items, Key, sid).Some?
  {
  }

  /** An update of an unknown session is ignored; one of a known session records it, and shows it
      if the list did, with what the update names and all else as it was. */
  lemma ActivityActs(
    h: Host, s: State, sid: string, lastMessage: Option<string>, activityAt: string, unread: Option<int>,
    pins: map<string, map<Field, Value>>, known: Option<Session>) returns (x: Session)
    requires Inv(h, s) && forall y :: Knows(s, pins, sid, y) <==> known == Some(y)
    ensures var t := Apply(h, s, UpdateActivity(sid, lastMessage, activityAt, unread, pins));
      if known.None? then t == s
      else
        && Updated(known.value, lastMessage, activityAt, unread, x)
        && Recorded(s, t, sid, Some(x))
        && ShowsInstead(s, t, sid, if known.value in s.items then Some(x) else None)
  {
    KnownIs(h, s, pins, sid, known);
    var e := UpdateActivity(sid, lastMessage, activityAt, unread, pins);
    x := if known.Some? then WithActivity(known.value, lastMessage, activityAt, unread) else Session(sid, map[]);
    if known.Some? {
      ActivityEdit(h, s, e);
      ActivityWritten(known.value, lastMessage, activityAt, unread);
      UpdateShown(h, s, e, sid, pins, known.value, x);
    }
  }

  /** The session with its new title, and all else as it was. */
  ghost predicate Retitled(was: Session, title: string, x: Session) {
    x.id == was.id && Has(x, Title, Str(title)) && forall f :: f != Title ==> Keeps(x, was, f)
  }

  lemma TitleWritten(was: Session, title: string)
    ensures Retitled(was, title, was.(props := was.props[Title := Str(title)]))
  {
  }

  lemma TitleMovesNothing(h: Host, items: seq<Session>, e: Event, m: Mutation)
    requires e.UpdateTitle? && m.item.Some? && m.item.value.id == m.id
    ensures var after := EditItems(h, items, e, m);
      |after| == |items| && forall i :: 0 <= i < |items| ==> after[i].id == items[i].id
  {
    if Find(items, Key, m.id).Some? { PutKeepsPlaces(items, m.item.value); }
  }

  /** So does a new title, which moves nothing; an empty or unchanged one is ignored. */
  lemma TitleActs(
    h: Host, s: State, sid: string, title: string, pins: map<string, map<Field, Value>>, known: Option<Session>)
    returns (x: Session)
    requires Inv(h, s) && forall y :: Knows(s, pins, sid, y) <==> known == Some(y)
    ensures var t := Apply(h, s, UpdateTitle(sid, title, pins));
      if known.None? || title == "" || Has(known.value, Title, Str(title)) then t == s
      else
        && Retitled(known.value, title, x)
        && Recorded(s, t, sid, Some(x))
        && ShowsInstead(s, t, sid, if known.value in s.items then Some(x) else None)
        && |t.items| == |s.items| && forall i :: 0 <= i < |s.items| ==> t.items[i].id == s.items[i].id
  {
    KnownIs(h, s, pins, sid, known);
    var e := UpdateTitle(sid, title, pins);
    x := if known.Some? then known.value.(props := known.value.props[Title := Str(title)]) else Session(sid, map[]);
    if known.Some? && title != "" && TextOf(known.value, Title) != title {
      TitleEdit(h, s, e);
      TitleWritten(known.value, title);
      TitleMovesNothing(h, s.items, e, EditOf(s, e).value);
      UpdateShown(h, s, e, sid, pins, known.value, x);
    }
  }

  lemma {:induction false} PutKeepsPlaces(items: seq<Session>, x: Session)
    requires Find(items, Key, x.id).Some?
    ensures var put := Put(items, Key, x);
      |put| == |items| && forall i :: 0 <= i < |items| ==> put[i].id == items[i].id
  {
    if items[0].id != x.id { PutKeepsPlaces(items[1..], x); }
  }

  /** A removal takes the session off the list and records that it is gone. */
  lemma RemovalActs(h: Host, s: State, sid: string)
    requires Inv(h, s)
    ensures var t := Apply(h, s, RemoveSession(sid)); ShowsInstead(s, t, sid, None) && Recorded(s, t, sid, None)
  {
    EditShown(h, s, RemoveSession(sid));
    EditRecorded(h, s, RemoveSession(sid));
  }
}
