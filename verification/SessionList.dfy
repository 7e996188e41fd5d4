/** The optimistic session list: pages loaded by cursor, and local edits that win over pages
    requested before them. */
module SessionList {
  import opened Sequences
  import opened KeyedLists
  import opened StableSort

  datatype Field = Origin | ActivityAt | Workspace | Title | LastMessage | UnreadCount | Other(name: string)

  datatype Value =
    | Nothing | Str(text: string) | OriginOf(kind: string, id: string) | WorkspaceOf(id: string) | Num(n: int)

  /** A list item; `id` is its session_id, "" when it has none. */
  datatype Session = Session(id: string, props: map<Field, Value>)

  /** The three list filters; "" stands for null. */
  datatype Filters = Filters(originType: string, originId: string, workspaceId: string)

  /** How the host reads dates (`Date.parse`, 0 when it fails) and collates strings. */
  datatype Host = Host(time: string -> int, collate: string -> real)

  /** The last local edit of a session: the item it left, or None when it took it away. */
  datatype Mutation = Mutation(id: string, version: nat, item: Option<Session>)

  datatype State = State(items: seq<Session>, nextCursor: Option<string>, filters: Filters,
                         loadingInitial: bool, loadingMore: bool,
                         requestVersion: nat, mutationVersion: nat, mutations: seq<Mutation>)

  /** What a running `load` keeps across its await. */
  datatype Request = Request(version: nat, mutationVersionAtStart: nat, reset: bool)

  datatype Event =
    | Load(reset: bool)
    | Succeeds(request: Request, page: seq<Session>, cursor: Option<string>)
    | Fails(request: Request)
    | SetFilters(originType: Option<string>, originId: Option<string>, workspaceId: Option<string>)
    | FacetsLoaded(origins: set<(string, string)>, workspaces: set<string>)
    | Upsert(item: Session, pins: map<string, map<Field, Value>>)
    | UpdateActivity(sid: string, lastMessage: Option<string>, activityAt: string, unread: Option<int>,
                     pins: map<string, map<Field, Value>>)
    | UpdateTitle(sid: string, title: string, pins: map<string, map<Field, Value>>)
    | RemoveSession(sid: string)

  const NO_FILTERS := Filters("", "", "")
  const UNASSIGNED := "__unassigned__"
  const Key: Session -> string := (x: Session) => x.id
  const Subject: Mutation -> string := (m: Mutation) => m.id

  function Start(): State { State([], None, NO_FILTERS, false, false, 0, 0, []) }

  predicate HasOrigin(x: Session) { Origin in x.props && x.props[Origin].OriginOf? }

  function TextOf(x: Session, f: Field): string {
    if f in x.props && x.props[f].Str? then x.props[f].text else ""
  }

  function WorkspaceId(x: Session): string {
    if Workspace in x.props && x.props[Workspace].WorkspaceOf? then x.props[Workspace].id else ""
  }

  predicate Matches(x: Session, f: Filters) {
    && HasOrigin(x)
    && (f.originType != "" ==> x.props[Origin].kind == f.originType)
    && (f.originId != "" ==> x.props[Origin].id == f.originId)
    && (f.workspaceId != "" ==> WorkspaceId(x) == f.workspaceId)
  }

  /** compareSessions: the more recently active first, then the greater id. */
  predicate Before(h: Host, x: Session, y: Session) {
    var tx, ty := h.time(TextOf(x, ActivityAt)), h.time(TextOf(y, ActivityAt));
    if tx != ty then tx > ty else h.collate(x.id) >= h.collate(y.id)
  }

  function Order(h: Host): (Session, Session) -> bool { (x, y) => Before(h, x, y) }

  // ---- merging a page with the local edits ----

  /** The Map of dedupeAndSort: the last item of an id wins, at the place of the first. */
  function Dedupe(items: seq<Session>): seq<Session> {
    if items == [] then []
    else
      var init, x := Dedupe(items[..|items| - 1]), items[|items| - 1];
      if x.id == "" then init else Put(init, Key, x)
  }

  /** What a local edit leaves of its session on a page that it overrides. */
  function Shown(item: Option<Session>, f: Filters): Option<Session> {
    if item.Some? && HasOrigin(item.value) && TextOf(item.value, ActivityAt) != "" && Matches(item.value, f)
    then item
    else None
  }

  function Override(merged: seq<Session>, m: Mutation, f: Filters): seq<Session> {
    var rest := Drop(merged, Key, m.id);
    var kept := Shown(m.item, f);
    if kept.Some? then Put(rest, Key, kept.value) else rest
  }

  function Overlay(merged: seq<Session>, log: seq<Mutation>, after: nat, f: Filters): seq<Session>
    decreases |log|
  {
    if log == [] then merged
    else Overlay(if log[0].version <= after then merged else Override(merged, log[0], f), log[1..], after, f)
  }

  /** applyLocalMutations. */
  function MergePage(h: Host, base: seq<Session>, log: seq<Mutation>, after: nat, f: Filters): seq<Session> {
    Sort(Overlay(Sort(Dedupe(base), Order(h)), log, after, f), Order(h))
  }

  function Prune(log: seq<Mutation>, through: nat): seq<Mutation> {
    Filter(log, (m: Mutation) => m.version > through)
  }

  // ---- local edits ----

  /** The item of a session in the list, else in the cache of pinned sessions. */
  function Existing(s: State, sid: string, pins: map<string, map<Field, Value>>): Option<Session> {
    var found := Find(s.items, Key, sid);
    if found.Some? then found else if sid in pins then Some(Session(sid, pins[sid])) else None
  }

  function MergeInto(existing: Option<Session>, item: Session): Session {
    if existing.Some? then Session(item.id, existing.value.props + item.props) else item
  }

  function WithActivity(x: Session, lastMessage: Option<string>, activityAt: string, unread: Option<int>): Session {
    var p1 := if lastMessage.Some? then x.props[LastMessage := Str(lastMessage.value)] else x.props;
    var p2 := if activityAt != "" then p1[ActivityAt := Str(activityAt)] else p1;
    x.(props := if unread.Some? then p2[UnreadCount := Num(unread.value)] else p2)
  }

  function UpsertEdit(item: Session, existing: Option<Session>, f: Filters, version: nat): Option<Mutation> {
    var merged := MergeInto(existing, item);
    if item.id == "" then None
    else if !Matches(merged, f) then Some(Mutation(item.id, version, None))
    else if existing.None? && TextOf(merged, ActivityAt) == "" then None
    else Some(Mutation(item.id, version, Some(merged)))
  }

  /** The version log entry of an edit; no entry when the call is ignored. */
  function EditOf(s: State, e: Event): Option<Mutation> {
    var version := s.mutationVersion + 1;
    match e
    case Upsert(item, pins) => UpsertEdit(item, Existing(s, item.id, pins), s.filters, version)
    case UpdateActivity(sid, lastMessage, activityAt, unread, pins) =>
      var existing := Existing(s, sid, pins);
      if existing.None? then None
      else Some(Mutation(sid, version, Some(WithActivity(existing.value, lastMessage, activityAt, unread))))
    case UpdateTitle(sid, title, pins) =>
      var existing := Existing(s, sid, pins);
      if title == "" || existing.None? || TextOf(existing.value, Title) == title then None
      else Some(Mutation(sid, version, Some(existing.value.(props := existing.value.props[Title := Str(title)]))))
    case RemoveSession(sid) => Some(Mutation(sid, version, None))
    case _ => None
  }

  /** What the edit does to the list itself: an upsert adds a missing item, an update only
      replaces a present one; a title does not move its item. */
  function EditItems(h: Host, items: seq<Session>, e: Event, m: Mutation): seq<Session> {
    if m.item.None? then Drop(items, Key, m.id)
    else
      var put := if e.Upsert? || Find(items, Key, m.id).Some? then Put(items, Key, m.item.value) else items;
      if e.UpdateTitle? then put else Sort(put, Order(h))
  }

  /** What an activity update does when its session is known. */
  lemma ActivityEdit(h: Host, s: State, e: Event)
    requires e.UpdateActivity? && Existing(s, e.sid, e.pins).Some?
    ensures var x := WithActivity(Existing(s, e.sid, e.pins).value, e.lastMessage, e.activityAt, e.unread);
      var m := Mutation(e.sid, s.mutationVersion + 1, Some(x));
      && x.id == e.sid && EditOf(s, e) == Some(m)
      && EditItems(h, s.items, e, m)
        == Sort(if Find(s.items, Key, e.sid).Some? then Put(s.items, Key, x) else s.items, Order(h))
  {
  }

  /** What a new title does when its session is known. */
  lemma TitleEdit(h: Host, s: State, e: Event)
    requires e.UpdateTitle? && Existing(s, e.sid, e.pins).Some? && e.title != ""
    requires TextOf(Existing(s, e.sid, e.pins).value, Title) != e.title
    ensures var was := Existing(s, e.sid, e.pins).value;
      var x := was.(props := was.props[Title := Str(e.title)]);
      var m := Mutation(e.sid, s.mutationVersion + 1, Some(x));
      && x.id == e.sid && EditOf(s, e) == Some(m)
      && EditItems(h, s.items, e, m) == if Find(s.items, Key, e.sid).Some? then Put(s.items, Key, x) else s.items
  {
  }

  // ---- loading ----

  /** `load` goes past its first line. */
  predicate Starts(s: State, reset: bool) {
    reset || !(s.loadingInitial || s.loadingMore || s.nextCursor.None?)
  }

  function BeginLoad(s: State, reset: bool): State {
    if !Starts(s, reset) then s
    else if reset then
      s.(items := Filter(s.items, (x: Session) => Matches(x, s.filters)), nextCursor := None,
         loadingInitial := true, loadingMore := false, requestVersion := s.requestVersion + 1)
    else s.(loadingMore := true, requestVersion := s.requestVersion + 1)
  }

  /** What the load just begun keeps. */
  function RequestOf(s: State, reset: bool): Request { Request(s.requestVersion, s.mutationVersion, reset) }

  function NormalizeFilters(f: Filters): Filters {
    f.(originId := if f.originType == "bot" || f.originType == "widget" then f.originId else "")
  }

  function Or(o: Option<string>, default: string): string { if o.Some? then o.value else default }

  /** The filters an event asks for. */
  function NextFilters(f: Filters, e: Event): Filters {
    match e
    case SetFilters(kind, id, workspace) =>
      NormalizeFilters(Filters(Or(kind, f.originType), Or(id, f.originId), Or(workspace, f.workspaceId)))
    case FacetsLoaded(origins, workspaces) =>
      Filters(f.originType,
              if f.originId != "" && (f.originType, f.originId) !in origins then "" else f.originId,
              if f.workspaceId != "" && f.workspaceId != UNASSIGNED && f.workspaceId !in workspaces
              then ""
              else f.workspaceId)
    case _ => f
  }

  function Apply(h: Host, s: State, e: Event): State {
    match e
    case Load(reset) => BeginLoad(s, reset)
    case Succeeds(r, page, cursor) =>
      if r.version != s.requestVersion then s
      else
        var base := if r.reset then page else s.items + page;
        s.(items := MergePage(h, base, s.mutations, r.mutationVersionAtStart, s.filters),
           mutations := Prune(s.mutations, r.mutationVersionAtStart), nextCursor := cursor,
           loadingInitial := false, loadingMore := false)
    case Fails(r) => if r.version != s.requestVersion then s else s.(loadingInitial := false, loadingMore := false)
    case SetFilters(_, _, _) => Refilter(s, NextFilters(s.filters, e))
    case FacetsLoaded(_, _) => Refilter(s, NextFilters(s.filters, e))
    case _ => if EditOf(s, e).None? then s else Edited(h, s, e, EditOf(s, e).value)
  }

  function Edited(h: Host, s: State, e: Event, m: Mutation): State {
    s.(items := EditItems(h, s.items, e, m), mutationVersion := s.mutationVersion + 1,
       mutations := Put(s.mutations, Subject, m))
  }

  /** New filters discard what was loaded under the old ones. */
  function Refilter(s: State, f: Filters): State {
    if f == s.filters then s else BeginLoad(s.(filters := f), true)
  }

  function Run(h: Host, s: State, events: seq<Event>): State {
    if events == [] then s else Apply(h, Run(h, s, events[..|events| - 1]), events[|events| - 1])
  }

  // ---- what every operation keeps ----

  predicate WellLogged(log: seq<Mutation>, version: nat) {
    && UniqueKeys(log, Subject)
    && (forall m :: m in log ==> 0 < m.version <= version && (m.item.Some? ==> m.item.value.id == m.id))
  }

  ghost predicate Inv(h: Host, s: State) {
    && UniqueKeys(s.items, Key) && Sorted(s.items, Order(h))
    && WellLogged(s.mutations, s.mutationVersion)
  }

  lemma OrderTotal(h: Host)
    ensures TotalPreorder(Order(h))
  {
    var le := Order(h);
    assert forall x, y :: le(x, y) == Before(h, x, y);
  }

  /** The last item of the id. */
  function LastOf(items: seq<Session>, sid: string): Option<Session> {
    if items == [] then None
    else if items[|items| - 1].id == sid then Some(items[|items| - 1])
    else LastOf(items[..|items| - 1], sid)
  }

  lemma {:induction false} FindDedupe(items: seq<Session>, sid: string)
    ensures UniqueKeys(Dedupe(items), Key)
    ensures Find(Dedupe(items), Key, sid) == if sid == "" then None else LastOf(items, sid)
  {
    if items != [] {
      var init, x := items[..|items| - 1], items[|items| - 1];
      FindDedupe(init, sid);
      if x.id != "" {
        PutUnique(Dedupe(init), Key, x);
        FindPut(Dedupe(init), Key, x, sid);
      }
    }
  }

  lemma FindOverride(merged: seq<Session>, m: Mutation, f: Filters, sid: string)
    requires UniqueKeys(merged, Key) && (m.item.Some? ==> m.item.value.id == m.id)
    ensures UniqueKeys(Override(merged, m, f), Key)
    ensures Find(Override(merged, m, f), Key, sid) == if sid == m.id then Shown(m.item, f) else Find(merged, Key, sid)
  {
    var rest := Drop(merged, Key, m.id);
    FindDrop(merged, Key, m.id, sid);
    DropUnique(merged, Key, m.id);
    if Shown(m.item, f).Some? {
      FindPut(rest, Key, m.item.value, sid);
      PutUnique(rest, Key, m.item.value);
    }
  }

  lemma {:induction false} FindOverlay(
    merged: seq<Session>, log: seq<Mutation>, version: nat, after: nat, f: Filters, sid: string)
    requires UniqueKeys(merged, Key) && WellLogged(log, version)
    ensures UniqueKeys(Overlay(merged, log, after, f), Key)
    ensures Find(Overlay(merged, log, after, f), Key, sid) ==
      var m := Find(log, Subject, sid);
      if m.Some? && m.value.version > after then Shown(m.value.item, f) else Find(merged, Key, sid)
    decreases |log|
  {
    if log != [] {
      assert log[0] in log && WellLogged(log[1..], version);
      FindOverride(merged, log[0], f, sid);
      var next := if log[0].version <= after then merged else Override(merged, log[0], f);
      FindOverlay(next, log[1..], version, after, f, sid);
    }
  }

  /** A merged page in one line per session: the newer local edit, else the last item of the base. */
  lemma FindMergePage(
    h: Host, base: seq<Session>, log: seq<Mutation>, version: nat, after: nat, f: Filters, sid: string)
    requires WellLogged(log, version)
    ensures UniqueKeys(MergePage(h, base, log, after, f), Key)
    ensures Sorted(MergePage(h, base, log, after, f), Order(h))
    ensures Find(MergePage(h, base, log, after, f), Key, sid) ==
      var m := Find(log, Subject, sid);
      if m.Some? && m.value.version > after then Shown(m.value.item, f)
      else if sid == "" then None
      else LastOf(base, sid)
  {
    OrderTotal(h);
    FindDedupe(base, sid);
    FindSort(Dedupe(base), Order(h), Key, sid);
    var sorted := Sort(Dedupe(base), Order(h));
    FindOverlay(sorted, log, version, after, f, sid);
    FindSort(Overlay(sorted, log, after, f), Order(h), Key, sid);
    SortSorts(Overlay(sorted, log, after, f), Order(h));
  }

  function NewerThan(m: Option<Mutation>, version: nat): Option<Mutation> {
    if m.Some? && m.value.version > version then m else None
  }

  lemma PruneLogged(log: seq<Mutation>, version: nat, through: nat)
    requires WellLogged(log, version)
    ensures WellLogged(Prune(log, through), version)
    ensures forall sid :: Find(Prune(log, through), Subject, sid) == NewerThan(Find(log, Subject, sid), through)
  {
    var newer := (m: Mutation) => m.version > through;
    FilterUnique(log, Subject, newer, "");
    forall m | m in Prune(log, through) ensures m in log { FilterMember(log, newer, m); }
    forall sid
      ensures Find(Prune(log, through), Subject, sid) == NewerThan(Find(log, Subject, sid), through)
    {
      FilterUnique(log, Subject, newer, sid);
    }
  }

  lemma EditKeepsId(s: State, e: Event)
    requires EditOf(s, e).Some?
    ensures var m := EditOf(s, e).value;
      m.version == s.mutationVersion + 1 && (m.item.Some? ==> m.item.value.id == m.id)
  {
  }

  /** Replacing an item whose time did not change keeps the list sorted. */
  lemma TitleKeepsOrder(h: Host, items: seq<Session>, x: Session)
    requires UniqueKeys(items, Key) && Sorted(items, Order(h))
    requires var old_ := Find(items, Key, x.id); old_.Some? && TextOf(old_.value, ActivityAt) == TextOf(x, ActivityAt)
    ensures Sorted(Put(items, Key, x), Order(h))
  {
    var was := Find(items, Key, x.id).value;
    var i := IndexOf(items, was);
    forall y | y in items[..i] ensures y.id != x.id {
      var j :| 0 <= j < i && items[j] == y;
      UniqueByPosition(items, Key);
      assert Key(items[j]) != Key(items[i]);
    }
    PutReplaces(items, Key, x, i);
    var r := items[i := x];
    forall a, b | 0 <= a < b < |r| ensures Order(h)(r[a], r[b]) {
      assert Order(h)(items[a], items[b]);
    }
  }

  /** After an edit the list shows the edited item, or not at all; the others are untouched. */
  lemma FindEdit(h: Host, s: State, e: Event, sid: string)
    requires Inv(h, s) && EditOf(s, e).Some?
    ensures var m := EditOf(s, e).value; var after := EditItems(h, s.items, e, m);
      && UniqueKeys(after, Key) && Sorted(after, Order(h))
      && Find(after, Key, sid) == if sid != m.id then Find(s.items, Key, sid)
         else if m.item.None? || e.Upsert? || Find(s.items, Key, sid).Some? then m.item else None
  {
    var m := EditOf(s, e).value;
    EditKeepsId(s, e);
    if m.item.None? {
      FindRemoval(h, s.items, m.id, sid);
    } else if e.Upsert? || Find(s.items, Key, m.id).Some? {
      if e.UpdateTitle? {
        TitleKeepsOrder(h, s.items, m.item.value);
      }
      FindReplacement(h, s.items, m.item.value, sid);
    } else {
      FindSort(s.items, Order(h), Key, sid);
      OrderTotal(h);
      SortSorts(s.items, Order(h));
    }
  }

  lemma FindRemoval(h: Host, items: seq<Session>, id: string, sid: string)
    requires UniqueKeys(items, Key) && Sorted(items, Order(h))
    ensures var after := Drop(items, Key, id);
      && UniqueKeys(after, Key) && Sorted(after, Order(h))
      && Find(after, Key, sid) == if sid != id then Find(items, Key, sid) else None
  {
    DropUnique(items, Key, id);
    FindDrop(items, Key, id, sid);
    DropSorted(items, Order(h), Key, id);
  }

  lemma FindReplacement(h: Host, items: seq<Session>, x: Session, sid: string)
    requires UniqueKeys(items, Key)
    ensures var put := Put(items, Key, x); var after := Sort(put, Order(h));
      && UniqueKeys(after, Key) && Sorted(after, Order(h)) && UniqueKeys(put, Key)
      && Find(after, Key, sid) == Find(put, Key, sid) == if sid != x.id then Find(items, Key, sid) else Some(x)
  {
    var put := Put(items, Key, x);
    PutUnique(items, Key, x);
    FindPut(items, Key, x, sid);
    FindSort(put, Order(h), Key, sid);
    OrderTotal(h);
    SortSorts(put, Order(h));
  }

  lemma RecordLogged(log: seq<Mutation>, version: nat, m: Mutation)
    requires WellLogged(log, version) && m.version == version + 1 && (m.item.Some? ==> m.item.value.id == m.id)
    ensures WellLogged(Put(log, Subject, m), version + 1)
    ensures forall sid ::
      Find(Put(log, Subject, m), Subject, sid) == if sid == m.id then Some(m) else Find(log, Subject, sid)
  {
    PutUnique(log, Subject, m);
    forall sid
      ensures Find(Put(log, Subject, m), Subject, sid) == if sid == m.id then Some(m) else Find(log, Subject, sid)
    {
      FindPut(log, Subject, m, sid);
    }
    forall x | x in Put(log, Subject, m) ensures x == m || x in log {
      FindMember(Put(log, Subject, m), Subject, x);
      FindPut(log, Subject, m, x.id);
    }
  }

  lemma BeginKeepsInv(h: Host, s: State, reset: bool)
    requires Inv(h, s)
    ensures Inv(h, BeginLoad(s, reset))
  {
    var keep := (x: Session) => Matches(x, s.filters);
    FilterUnique(s.items, Key, keep, "");
    FilterSorted(s.items, Order(h), keep);
  }

  /** Every operation keeps the items unique and sorted. */
  lemma StepKeepsInv(h: Host, s: State, e: Event)
    requires Inv(h, s)
    ensures Inv(h, Apply(h, s, e))
  {
    match e {
      case Load(reset) => BeginKeepsInv(h, s, reset);
      case Succeeds(r, page, cursor) =>
        if r.version == s.requestVersion {
          FindMergePage(h, if r.reset then page else s.items + page, s.mutations, s.mutationVersion,
                        r.mutationVersionAtStart, s.filters, "");
          PruneLogged(s.mutations, s.mutationVersion, r.mutationVersionAtStart);
        }
      case Fails(r) =>
      case SetFilters(_, _, _) => BeginKeepsInv(h, s.(filters := NextFilters(s.filters, e)), true);
      case FacetsLoaded(_, _) => BeginKeepsInv(h, s.(filters := NextFilters(s.filters, e)), true);
      case _ => EditKeepsInv(h, s, e);
    }
  }

  lemma EditKeepsInv(h: Host, s: State, e: Event)
    requires Inv(h, s) && (e.Upsert? || e.UpdateActivity? || e.UpdateTitle? || e.RemoveSession?)
    ensures Inv(h, Apply(h, s, e))
  {
    if EditOf(s, e).Some? {
      EditKeepsId(s, e);
      FindEdit(h, s, e, "");
      RecordLogged(s.mutations, s.mutationVersion, EditOf(s, e).value);
    }
  }

  lemma {:induction false} RunKeepsInv(h: Host, s: State, events: seq<Event>)
    requires Inv(h, s)
    ensures Inv(h, Run(h, s, events))
  {
    if events != [] {
      RunKeepsInv(h, s, events[..|events| - 1]);
      StepKeepsInv(h, Run(h, s, events[..|events| - 1]), events[|events| - 1]);
    }
  }

  /** In every reachable state ids are unique and no item stands before one that is more
      recent, nor before one as recent with a greater id. */
  lemma ItemsUniqueAndSorted(h: Host, events: seq<Event>, i: nat, j: nat)
    requires i < j < |Run(h, Start(), events).items|
    ensures var items := Run(h, Start(), events).items;
      items[i].id != items[j].id && Before(h, items[i], items[j])
  {
    RunKeepsInv(h, Start(), events);
    var items := Run(h, Start(), events).items;
    UniqueByPosition(items, Key);
    assert Key(items[i]) != Key(items[j]);
    assert Order(h)(items[i], items[j]);
  }

  // ---- loads against local edits ----

  /** The last edit of the session among the events, with the item it left. */
  function LastEdit(h: Host, s: State, events: seq<Event>, sid: string): Option<Option<Session>> {
    if events == [] then None
    else
      var m := EditOf(Run(h, s, events[..|events| - 1]), events[|events| - 1]);
      if m.Some? && m.value.id == sid then Some(m.value.item) else LastEdit(h, s, events[..|events| - 1], sid)
  }

  /** Some event starts a load, and so supersedes the requests before it. */
  predicate StartsLoad(s: State, e: Event) {
    || (e.Load? && Starts(s, e.reset))
    || NextFilters(s.filters, e) != s.filters
  }

  predicate AnyLoadStarts(h: Host, s: State, events: seq<Event>) {
    events != [] &&
    (AnyLoadStarts(h, s, events[..|events| - 1])
     || StartsLoad(Run(h, s, events[..|events| - 1]), events[|events| - 1]))
  }

  /** The request has not been answered by these events. */
  predicate Unanswered(events: seq<Event>, version: nat) {
    forall e :: e in events ==> (e.Succeeds? || e.Fails? ==> e.request.version != version)
  }

  lemma {:induction false} VersionsGrow(h: Host, s: State, events: seq<Event>)
    ensures var r := Run(h, s, events);
      r.requestVersion >= s.requestVersion && r.mutationVersion >= s.mutationVersion
    ensures Run(h, s, events).requestVersion == s.requestVersion <==> !AnyLoadStarts(h, s, events)
  {
    if events != [] {
      VersionsGrow(h, s, events[..|events| - 1]);
    }
  }

  /** What an event that neither starts nor answers a load does to the log. */
  lemma StepLogs(h: Host, s: State, e: Event, sid: string)
    requires WellLogged(s.mutations, s.mutationVersion) && !StartsLoad(s, e)
    requires e.Succeeds? || e.Fails? ==> e.request.version != s.requestVersion
    ensures var m := EditOf(s, e);
      Find(Apply(h, s, e).mutations, Subject, sid) ==
        if m.Some? && m.value.id == sid then m else Find(s.mutations, Subject, sid)
    ensures EditOf(s, e).Some? ==> EditOf(s, e).value.version == s.mutationVersion + 1
  {
    if EditOf(s, e).Some? {
      FindPut(s.mutations, Subject, EditOf(s, e).value, sid);
    }
  }

  /** The log since a version holds exactly the last edit of each session since then, as long
      as no request is answered. */
  lemma {:induction false} LogHoldsLastEdits(h: Host, s: State, events: seq<Event>, sid: string)
    requires Inv(h, s) && !AnyLoadStarts(h, s, events) && Unanswered(events, s.requestVersion)
    ensures var m := Find(Run(h, s, events).mutations, Subject, sid);
      var edit := LastEdit(h, s, events, sid);
      && (edit.Some? ==> m.Some? && m.value.version > s.mutationVersion && m.value.item == edit.value)
      && (edit.None? ==> m == Find(s.mutations, Subject, sid))
  {
    if events != [] {
      var init, e := events[..|events| - 1], events[|events| - 1];
      assert e in events && forall x :: x in init ==> x in events;
      LogHoldsLastEdits(h, s, init, sid);
      VersionsGrow(h, s, init);
      RunKeepsInv(h, s, init);
      StepLogs(h, Run(h, s, init), e, sid);
    }
  }

  /** When a page arrives that no newer load has superseded, every session edited since its
      request shows its last local edit if that matches the filters and nothing otherwise;
      every other session shows its last item on the page, or in the list before the page when
      the load adds to it. */
  lemma LocalEditsWin(
    h: Host, s: State, reset: bool, events: seq<Event>, page: seq<Session>, cursor: Option<string>, sid: string)
    requires Inv(h, s) && Starts(s, reset) && sid != ""
    requires var begun := BeginLoad(s, reset);
      !AnyLoadStarts(h, begun, events) && Unanswered(events, begun.requestVersion)
    ensures var begun := BeginLoad(s, reset);
      var was := Run(h, begun, events);
      var now := Apply(h, was, Succeeds(RequestOf(begun, reset), page, cursor));
      var edit := LastEdit(h, begun, events, sid);
      Find(now.items, Key, sid) ==
        if edit.Some? then Shown(edit.value, s.filters)
        else LastOf(if reset then page else was.items + page, sid)
  {
    var begun := BeginLoad(s, reset);
    var was := Run(h, begun, events);
    BeginKeepsInv(h, s, reset);
    RunKeepsInv(h, begun, events);
    VersionsGrow(h, begun, events);
    LogHoldsLastEdits(h, begun, events, sid);
    FiltersStay(h, begun, events);
    FindMergePage(h, if reset then page else was.items + page, was.mutations, was.mutationVersion,
                  begun.mutationVersion, was.filters, sid);
    var m := Find(begun.mutations, Subject, sid);
    assert m.Some? ==> m.value.version <= begun.mutationVersion;
  }

  lemma {:induction false} FiltersStay(h: Host, s: State, events: seq<Event>)
    requires !AnyLoadStarts(h, s, events)
    ensures Run(h, s, events).filters == s.filters
  {
    if events != [] {
      FiltersStay(h, s, events[..|events| - 1]);
    }
  }

  /** A session removed while the page was on its way, and not edited since, is not on the list
      when the page arrives. */
  lemma RemovedStaysAway(h: Host, s: State, reset: bool, before: seq<Event>, after: seq<Event>, sid: string,
                         page: seq<Session>, cursor: Option<string>)
    requires Inv(h, s) && Starts(s, reset) && sid != ""
    requires var begun := BeginLoad(s, reset);
      var events := before + [RemoveSession(sid)] + after;
      && !AnyLoadStarts(h, begun, events) && Unanswered(events, begun.requestVersion)
      && LastEdit(h, Run(h, begun, before + [RemoveSession(sid)]), after, sid) == None
    ensures var begun := BeginLoad(s, reset);
      var was := Run(h, begun, before + [RemoveSession(sid)] + after);
      Find(Apply(h, was, Succeeds(RequestOf(begun, reset), page, cursor)).items, Key, sid) == None
  {
    var begun := BeginLoad(s, reset);
    var first := before + [RemoveSession(sid)];
    LocalEditsWin(h, s, reset, first + after, page, cursor, sid);
    assert first[..|first| - 1] == before;
    LastEditAppend(h, begun, first, after, sid);
  }

  lemma {:induction false} RunAppend(h: Host, s: State, before: seq<Event>, after: seq<Event>)
    ensures Run(h, s, before + after) == Run(h, Run(h, s, before), after)
  {
    if after == [] {
      assert before + after == before;
    } else {
      assert (before + after)[..|before + after| - 1] == before + after[..|after| - 1];
      RunAppend(h, s, before, after[..|after| - 1]);
    }
  }

  lemma {:induction false} LastEditAppend(h: Host, s: State, before: seq<Event>, after: seq<Event>, sid: string)
    ensures LastEdit(h, s, before + after, sid) ==
      var later := LastEdit(h, Run(h, s, before), after, sid);
      if later.Some? then later else LastEdit(h, s, before, sid)
  {
    if after == [] {
      assert before + after == before;
    } else {
      assert (before + after)[..|before + after| - 1] == before + after[..|after| - 1];
      RunAppend(h, s, before, after[..|after| - 1]);
      LastEditAppend(h, s, before, after[..|after| - 1], sid);
    }
  }

  /** A response writes nothing once another load has started, whatever it brings. */
  lemma SupersededNeverWrites(
    h: Host, s: State, reset: bool, events: seq<Event>, page: seq<Session>, cursor: Option<string>)
    requires Starts(s, reset) && AnyLoadStarts(h, BeginLoad(s, reset), events)
    ensures var begun := BeginLoad(s, reset); var was := Run(h, begun, events); var r := RequestOf(begun, reset);
      Apply(h, was, Succeeds(r, page, cursor)) == was && Apply(h, was, Fails(r)) == was
  {
    VersionsGrow(h, BeginLoad(s, reset), events);
  }

  /** An edit that does not touch a session leaves what the list shows of it, and an edit that
      does shows its item at once. */
  lemma EditsShowAtOnce(h: Host, s: State, e: Event, sid: string)
    requires Inv(h, s) && EditOf(s, e).Some?
    ensures var m := EditOf(s, e).value;
      Find(Apply(h, s, e).items, Key, sid) ==
        if sid != m.id then Find(s.items, Key, sid)
        else if m.item.None? || e.Upsert? || Find(s.items, Key, sid).Some? then m.item else None
  {
    FindEdit(h, s, e, sid);
  }

  /** An upsert shows its session iff the merged item matches the filters and either the session
      was known or the item is dated; then the item's own fields win over the known ones. */
  lemma UpsertOutcome(h: Host, s: State, item: Session, pins: map<string, map<Field, Value>>)
    requires Inv(h, s) && item.id != ""
    ensures var known := Existing(s, item.id, pins);
      var now := Find(Apply(h, s, Upsert(item, pins)).items, Key, item.id);
      && (now.Some? <==> Matches(MergeInto(known, item), s.filters) && (known.Some? || TextOf(item, ActivityAt) != ""))
      && (now.Some? ==> forall f :: f in item.props ==> f in now.value.props && now.value.props[f] == item.props[f])
      && (now.Some? && known.Some? ==> forall f :: f in known.value.props && f !in item.props ==>
            f in now.value.props && now.value.props[f] == known.value.props[f])
  {
    var e := Upsert(item, pins);
    if EditOf(s, e).Some? { FindEdit(h, s, e, item.id); }
  }

  /** When the filters change, the items that do not match go at once. */
  lemma NewFiltersHide(h: Host, s: State, e: Event, x: Session)
    requires NextFilters(s.filters, e) != s.filters && x in Apply(h, s, e).items
    ensures Matches(x, NextFilters(s.filters, e)) && x in s.items
  {
    var f := NextFilters(s.filters, e);
    FilterMember(s.items, (y: Session) => Matches(y, f), x);
  }

  /** In every reachable state an origin id is filtered on only for bots and widgets. */
  lemma {:induction false} FiltersNormalized(h: Host, events: seq<Event>)
    ensures var f := Run(h, Start(), events).filters;
      f.originId != "" ==> f.originType == "bot" || f.originType == "widget"
  {
    if events != [] { FiltersNormalized(h, events[..|events| - 1]); }
  }
}
