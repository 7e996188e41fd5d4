/** Loading a session's messages: responses are fenced by a sequence number per session and
    participant, by snapshots, and by the revision of the projection. */
module MessageLoads {
  import opened Sequences
  import opened KeyedLists
  import Text

  /** What the loader does not own: how a server page is reconciled with a list (with or without
      keeping live execution), how a cached message is normalized, and which message is the
      transient compaction divider. */
  datatype Host<!M> = Host(reconcile: (seq<M>, seq<M>, bool) -> seq<M>, normalize: M -> M, divider: M -> bool)

  datatype Entry<M> = Entry(key: string, list: seq<M>)

  datatype Options = Options(silent: bool, preserve: bool, live: bool, bypassCache: bool)

  /** What a load keeps across its awaits. */
  datatype Ticket = Ticket(session: string, participant: string, seqNo: nat, revision: nat, options: Options)

  datatype State<M> = State(current: string, selected: string, loadSeqs: map<string, nat>, revision: nat,
                            lists: map<string, seq<M>>, cache: seq<Entry<M>>)

  datatype Event<M> =
    | Begin(session: string, participant: string, options: Options)
    | Respond(ticket: Ticket, page: seq<M>)
    | Snapshot(session: string, items: seq<M>)
    | ProjectionChanged
    | SetList(participant: string, list: seq<M>)
    | EditList(participant: string, list: seq<M>)
    | CacheList(session: string, participant: string, list: seq<M>)
    | Forget(session: string)
    | Switch(session: string)
    | Select(participant: string)

  const MAX_CACHED := 10
  const MAX_CACHED_MESSAGES := 500

  function Start<M>(): State<M> { State("", "", map[], 0, map[], []) }

  function CacheKey(session: string, participant: string): string {
    session + "::" + if participant != "" then participant else "root"
  }

  /** Where the store keeps the list of a participant. */
  function ListKey(participant: string): string {
    if Text.Trim(participant) != "" then Text.Trim(participant) else "root"
  }

  function ListOf<M>(s: State<M>, key: string): seq<M> { if key in s.lists then s.lists[key] else [] }

  function EntryKey<M>(): Entry<M> -> string { (e: Entry<M>) => e.key }

  function Map<M>(xs: seq<M>, f: M -> M): (r: seq<M>)
    ensures |r| == |xs|
  {
    seq(|xs|, i requires 0 <= i < |xs| => f(xs[i]))
  }

  /** `list.slice(-500)`. */
  function Newest<M>(xs: seq<M>): seq<M> {
    if |xs| <= MAX_CACHED_MESSAGES then xs else xs[|xs| - MAX_CACHED_MESSAGES..]
  }

  /** cacheMessages: the entry becomes the youngest, and the oldest is dropped when there are
      too many. */
  function Cached<M>(
    h: Host<M>, cache: seq<Entry<M>>, session: string, participant: string, list: seq<M>): seq<Entry<M>> {
    if session == "" then cache
    else
      var key := CacheKey(session, participant);
      var next := Drop(cache, EntryKey(), key) + [Entry(key, Map(Newest(list), h.normalize))];
      if |next| > MAX_CACHED then next[1..] else next
  }

  /** The session owns the key, as a prefix of it. */
  predicate Owns(session: string, key: string) { session + "::" <= key }

  function Without<M>(cache: seq<Entry<M>>, session: string): seq<Entry<M>> {
    Filter(cache, (e: Entry<M>) => !Owns(session, e.key))
  }

  /** A silent reload of the root keeps the divider of a compaction under way. */
  function KeepDivider<M>(h: Host<M>, list: seq<M>, root: seq<M>, silent: bool): seq<M> {
    if !silent || Filter(list, h.divider) != [] || Filter(root, h.divider) == [] then list
    else list + [Filter(root, h.divider)[0]]
  }

  function TicketKey(t: Ticket): string { CacheKey(t.session, t.participant) }

  function SeqOf<M>(s: State<M>, key: string): nat { if key in s.loadSeqs then s.loadSeqs[key] else 0 }

  predicate IsCurrent<M>(s: State<M>, t: Ticket) {
    && SeqOf(s, TicketKey(t)) == t.seqNo
    && s.current == t.session
    && (t.options.silent || t.participant == "root" || s.selected == t.participant)
  }

  predicate Writes<M>(s: State<M>, t: Ticket) {
    IsCurrent(s, t) && (t.options.preserve || t.revision == s.revision)
  }

  /** setParticipantMessages. */
  function Replace<M>(s: State<M>, participant: string, list: seq<M>): State<M> {
    s.(revision := s.revision + 1, lists := s.lists[ListKey(participant) := list])
  }

  /** Puts a page into the list of its participant: reconciled with it, or in its place. */
  function Put<M>(h: Host<M>, s: State<M>, t: Ticket, page: seq<M>, reconcile: bool): State<M> {
    if reconcile then
      var key := ListKey(t.participant);
      s.(lists := s.lists[key := h.reconcile(ListOf(s, key), page, t.options.live)])
    else
      Replace(s, t.participant, KeepDivider(h, page, ListOf(s, "root"), t.options.silent))
  }

  function TicketOf<M>(s: State<M>, session: string, participant: string, options: Options): Ticket {
    var p := if participant != "" then participant else "root";
    Ticket(session, p, SeqOf(s, CacheKey(session, p)) + 1, s.revision, options)
  }

  function Numbered<M>(s: State<M>, t: Ticket): State<M> { s.(loadSeqs := s.loadSeqs[TicketKey(t) := t.seqNo]) }

  /** The list a load finds in the cache. */
  function Hit<M>(s: State<M>, t: Ticket): Option<Entry<M>> {
    if t.options.silent && !t.options.bypassCache then Find(s.cache, EntryKey(), TicketKey(t)) else None
  }

  function BeginLoad<M>(h: Host<M>, s: State<M>, session: string, participant: string, options: Options): State<M> {
    if session == "" then s
    else
      var t := TicketOf(s, session, participant, options);
      var begun := Numbered(s, t);
      if Hit(s, t).Some? && IsCurrent(begun, t) then
        Put(h, begun, t, Map(Hit(s, t).value.list, h.normalize), t.participant != "root" || options.preserve)
      else begun
  }

  function OnResponse<M>(h: Host<M>, s: State<M>, t: Ticket, page: seq<M>): State<M> {
    if !Writes(s, t) then s
    else
      var written := Put(h, s, t, page, t.participant != "root" || t.options.preserve || t.options.live);
      written.(cache := Cached(h, s.cache, t.session, t.participant, ListOf(written, ListKey(t.participant))))
  }

  function Children<M>(s: State<M>): set<string> { s.lists.Keys - {"root"} }

  function Raised(seqs: map<string, nat>, session: string): map<string, nat> {
    map k | k in seqs :: if Owns(session, k) then seqs[k] + 1 else seqs[k]
  }

  function Emptied<M>(lists: map<string, seq<M>>, children: set<string>): map<string, seq<M>> {
    map k | k in lists :: if k in children then [] else lists[k]
  }

  /** Snapshot of the session in view: every load of the session under way is superseded. */
  function OnSnapshot<M>(s: State<M>, session: string, items: seq<M>): State<M> {
    if session != s.current then s
    else
      s.(loadSeqs := Raised(s.loadSeqs, session), cache := Without(s.cache, session),
         lists := Emptied(s.lists, Children(s))["root" := items], revision := s.revision + |Children(s)| + 1)
  }

  function Apply<M>(h: Host<M>, s: State<M>, e: Event<M>): State<M> {
    match e
    case Begin(session, participant, options) => BeginLoad(h, s, session, participant, options)
    case Respond(t, page) => OnResponse(h, s, t, page)
    case Snapshot(session, items) => OnSnapshot(s, session, items)
    case ProjectionChanged => s.(revision := s.revision + 1)
    case SetList(participant, list) => Replace(s, participant, list)
    case EditList(participant, list) => s.(lists := s.lists[ListKey(participant) := list])
    case CacheList(session, participant, list) => s.(cache := Cached(h, s.cache, session, participant, list))
    case Forget(session) => s.(cache := Without(s.cache, session))
    case Switch(session) => s.(current := session)
    case Select(participant) => s.(selected := participant)
  }

  function Run<M>(h: Host<M>, s: State<M>, events: seq<Event<M>>): State<M> {
    if events == [] then s else Apply(h, Run(h, s, events[..|events| - 1]), events[|events| - 1])
  }

  // ---- the reference: what may come between a load and its response ----

  /** A later load of the same key, or a snapshot of the session in view that owns it. */
  predicate Supersedes<M>(s: State<M>, e: Event<M>, key: string) {
    || (e.Begin? && e.session != "" && CacheKey(e.session, e.participant) == key)
    || (e.Snapshot? && e.session == s.current && Owns(e.session, key))
  }

  /** A stream event, a snapshot, or a list put in place of another. */
  predicate ChangesProjection<M>(h: Host<M>, s: State<M>, e: Event<M>) {
    match e
    case ProjectionChanged => true
    case SetList(_, _) => true
    case Snapshot(session, _) => session == s.current
    case Respond(t, _) => Writes(s, t) && t.participant == "root" && !t.options.preserve && !t.options.live
    case Begin(session, participant, options) =>
      && session != "" && (participant == "" || participant == "root") && !options.preserve
      && session == s.current && Hit(s, TicketOf(s, session, participant, options)).Some?
    case _ => false
  }

  predicate AnySupersedes<M>(h: Host<M>, s: State<M>, events: seq<Event<M>>, key: string) {
    events != [] &&
    (AnySupersedes(h, s, events[..|events| - 1], key)
     || Supersedes(Run(h, s, events[..|events| - 1]), events[|events| - 1], key))
  }

  predicate AnyProjectionChange<M>(h: Host<M>, s: State<M>, events: seq<Event<M>>) {
    events != [] &&
    (AnyProjectionChange(h, s, events[..|events| - 1])
     || ChangesProjection(h, Run(h, s, events[..|events| - 1]), events[|events| - 1]))
  }

  lemma StepNumbers<M>(h: Host<M>, s: State<M>, e: Event<M>, key: string)
    requires key in s.loadSeqs
    ensures var n := Apply(h, s, e);
      && key in n.loadSeqs && SeqOf(n, key) >= SeqOf(s, key)
      && (SeqOf(n, key) == SeqOf(s, key) <==> !Supersedes(s, e, key))
  {
  }

  lemma StepRevision<M>(h: Host<M>, s: State<M>, e: Event<M>)
    ensures var n := Apply(h, s, e);
      n.revision >= s.revision && (n.revision == s.revision <==> !ChangesProjection(h, s, e))
  {
  }

  lemma {:induction false} RunNumbers<M>(h: Host<M>, s: State<M>, events: seq<Event<M>>, key: string)
    requires key in s.loadSeqs
    ensures var n := Run(h, s, events);
      && key in n.loadSeqs && SeqOf(n, key) >= SeqOf(s, key)
      && (SeqOf(n, key) == SeqOf(s, key) <==> !AnySupersedes(h, s, events, key))
  {
    if events != [] {
      RunNumbers(h, s, events[..|events| - 1], key);
      StepNumbers(h, Run(h, s, events[..|events| - 1]), events[|events| - 1], key);
    }
  }

  lemma {:induction false} RunRevision<M>(h: Host<M>, s: State<M>, events: seq<Event<M>>)
    ensures var n := Run(h, s, events);
      n.revision >= s.revision && (n.revision == s.revision <==> !AnyProjectionChange(h, s, events))
  {
    if events != [] {
      RunRevision(h, s, events[..|events| - 1]);
      StepRevision(h, Run(h, s, events[..|events| - 1]), events[|events| - 1]);
    }
  }

  /** When a response may write, in terms of what happened since its load began: no later load
      of the key, no snapshot of its session, its session in view (and its thread, unless it is
      silent or the root), and no change of the projection unless it preserves the stream.
      Otherwise the response changes nothing. */
  lemma ResponseWritesIff<M>(h: Host<M>, s: State<M>, session: string, participant: string, options: Options,
                             events: seq<Event<M>>, page: seq<M>)
    requires session != "" && Hit(s, TicketOf(s, session, participant, options)).None?
    ensures var t := TicketOf(s, session, participant, options);
      var begun := Apply(h, s, Begin(session, participant, options));
      var was := Run(h, begun, events);
      && (Writes(was, t) <==>
            && !AnySupersedes(h, begun, events, TicketKey(t))
            && was.current == session
            && (options.silent || t.participant == "root" || was.selected == t.participant)
            && (options.preserve || !AnyProjectionChange(h, begun, events)))
      && (!Writes(was, t) ==> Apply(h, was, Respond(t, page)) == was)
  {
    var t := TicketOf(s, session, participant, options);
    var begun := Apply(h, s, Begin(session, participant, options));
    assert begun == Numbered(s, t);
    RunNumbers(h, begun, events, TicketKey(t));
    RunRevision(h, begun, events);
  }

  /** Of two loads of one key only the later may write: whatever happens in between, the
      response to the earlier changes nothing once the later has begun. */
  lemma OnlyLatestLoadWrites<M>(
    h: Host<M>, s: State<M>, session: string, participant: string, first: Options, second: Options,
    between: seq<Event<M>>, after: seq<Event<M>>, page: seq<M>)
    requires session != ""
    ensures var t := TicketOf(s, session, participant, first);
      var begun := Apply(h, s, Begin(session, participant, first));
      var was := Run(h, begun, between + [Begin(session, participant, second)] + after);
      Apply(h, was, Respond(t, page)) == was
  {
    SupersededWritesNothing(
      h, s, session, participant, first, between, Begin(session, participant, second), after, page);
  }

  /** No load begun before a snapshot of its session writes after it. */
  lemma SnapshotFencesLoads<M>(
    h: Host<M>, s: State<M>, session: string, participant: string, options: Options, between: seq<Event<M>>,
    items: seq<M>, after: seq<Event<M>>, page: seq<M>)
    requires session != ""
    requires Run(h, Apply(h, s, Begin(session, participant, options)), between).current == session
    ensures var t := TicketOf(s, session, participant, options);
      var begun := Apply(h, s, Begin(session, participant, options));
      var was := Run(h, begun, between + [Snapshot(session, items)] + after);
      Apply(h, was, Respond(t, page)) == was
  {
    assert session + "::" <= CacheKey(session, participant);
    SupersededWritesNothing(h, s, session, participant, options, between, Snapshot(session, items), after, page);
  }

  lemma SupersededWritesNothing<M>(h: Host<M>, s: State<M>, session: string, participant: string, options: Options,
                                   between: seq<Event<M>>, e: Event<M>, after: seq<Event<M>>, page: seq<M>)
    requires session != ""
    requires var begun := Apply(h, s, Begin(session, participant, options));
      Supersedes(Run(h, begun, between), e, CacheKey(session, participant))
    ensures var t := TicketOf(s, session, participant, options);
      var was := Run(h, Apply(h, s, Begin(session, participant, options)), between + [e] + after);
      Apply(h, was, Respond(t, page)) == was
  {
    var t := TicketOf(s, session, participant, options);
    var begun := Apply(h, s, Begin(session, participant, options));
    var key := TicketKey(t);
    assert key == CacheKey(session, participant);
    assert key in begun.loadSeqs && SeqOf(begun, key) == t.seqNo;
    assert (between + [e])[..|between + [e]| - 1] == between;
    assert AnySupersedes(h, begun, between + [e], key);
    SupersededStays(h, begun, between + [e], after, key);
    RunNumbers(h, begun, between + [e] + after, key);
  }

  lemma {:induction false} SupersededStays<M>(
    h: Host<M>, s: State<M>, events: seq<Event<M>>, after: seq<Event<M>>, key: string)
    requires AnySupersedes(h, s, events, key)
    ensures AnySupersedes(h, s, events + after, key)
  {
    if after == [] {
      assert events + after == events;
    } else {
      assert (events + after)[..|events + after| - 1] == events + after[..|after| - 1];
      SupersededStays(h, s, events, after[..|after| - 1], key);
    }
  }

  // ---- the cache ----

  /** The cache is a bounded map, and the lists are kept under trimmed names. */
  ghost predicate Inv<M>(s: State<M>) {
    && UniqueKeys(s.cache, EntryKey()) && |s.cache| <= MAX_CACHED
    && (forall e :: e in s.cache ==> |e.list| <= MAX_CACHED_MESSAGES)
    && (forall k :: k in s.lists ==> ListKey(k) == k)
  }

  lemma ListKeyTwice(p: string)
    ensures ListKey(ListKey(p)) == ListKey(p)
  {
    Text.TrimTwice(p);
    assert Text.Trim("root") == "root" by { assert !Text.IsSpace("root"[0]) && !Text.IsSpace("root"[3]); }
  }

  lemma RootStays()
    ensures ListKey("root") == "root"
  {
    ListKeyTwice("");
    assert ListKey("") == "root";
  }

  lemma {:induction false} DropLength<M>(cache: seq<Entry<M>>, key: string)
    ensures |Drop(cache, EntryKey(), key)| <= |cache|
    ensures forall e :: e in Drop(cache, EntryKey(), key) ==> e in cache
  {
    if cache != [] { DropLength(cache[1..], key); }
  }

  lemma CachedKeepsInv<M>(h: Host<M>, cache: seq<Entry<M>>, session: string, participant: string, list: seq<M>)
    requires UniqueKeys(cache, EntryKey()) && |cache| <= MAX_CACHED
    requires forall e :: e in cache ==> |e.list| <= MAX_CACHED_MESSAGES
    ensures var r := Cached(h, cache, session, participant, list);
      UniqueKeys(r, EntryKey()) && |r| <= MAX_CACHED && forall e :: e in r ==> |e.list| <= MAX_CACHED_MESSAGES
  {
    var key := CacheKey(session, participant);
    var rest := Drop(cache, EntryKey(), key);
    var x := Entry(key, Map(Newest(list), h.normalize));
    DropUnique(cache, EntryKey(), key);
    FindDrop(cache, EntryKey(), key, key);
    DropLength(cache, key);
    PutUnique(rest, EntryKey(), x);
    PutAppends(rest, EntryKey(), x);
  }

  lemma WithoutKeepsInv<M>(cache: seq<Entry<M>>, session: string)
    requires UniqueKeys(cache, EntryKey()) && |cache| <= MAX_CACHED
    requires forall e :: e in cache ==> |e.list| <= MAX_CACHED_MESSAGES
    ensures var r := Without(cache, session);
      UniqueKeys(r, EntryKey()) && |r| <= MAX_CACHED && forall e :: e in r ==> |e.list| <= MAX_CACHED_MESSAGES
  {
    var p := (e: Entry<M>) => !Owns(session, e.key);
    FilterUnique(cache, EntryKey(), p, "");
    FilterShorter(cache, p);
    forall e | e in Filter(cache, p) ensures e in cache { FilterMember(cache, p, e); }
  }

  lemma {:induction false} FilterShorter<T>(xs: seq<T>, p: T -> bool)
    ensures |Filter(xs, p)| <= |xs|
  {
    if xs != [] { FilterShorter(xs[1..], p); }
  }

  lemma PutKeepsNames<M>(h: Host<M>, s: State<M>, t: Ticket, page: seq<M>, reconcile: bool)
    requires forall k :: k in s.lists ==> ListKey(k) == k
    ensures forall k :: k in Put(h, s, t, page, reconcile).lists ==> ListKey(k) == k
    ensures Put(h, s, t, page, reconcile).cache == s.cache
  {
    ListKeyTwice(t.participant);
  }

  lemma ResponseKeepsInv<M>(h: Host<M>, s: State<M>, t: Ticket, page: seq<M>)
    requires Inv(s)
    ensures Inv(OnResponse(h, s, t, page))
  {
    var reconcile := t.participant != "root" || t.options.preserve || t.options.live;
    PutKeepsNames(h, s, t, page, reconcile);
    CachedKeepsInv(h, s.cache, t.session, t.participant, ListOf(Put(h, s, t, page, reconcile), ListKey(t.participant)));
  }

  lemma SnapshotKeepsInv<M>(s: State<M>, session: string, items: seq<M>)
    requires Inv(s)
    ensures Inv(OnSnapshot(s, session, items))
  {
    WithoutKeepsInv(s.cache, session);
    RootStays();
  }

  lemma StepKeepsInv<M>(h: Host<M>, s: State<M>, e: Event<M>)
    requires Inv(s)
    ensures Inv(Apply(h, s, e))
  {
    match e {
      case Begin(session, participant, options) =>
        var t := TicketOf(s, session, participant, options);
        if Hit(s, t).Some? {
          var page := Map(Hit(s, t).value.list, h.normalize);
          PutKeepsNames(h, Numbered(s, t), t, page, t.participant != "root" || options.preserve);
        }
      case Respond(t, page) => ResponseKeepsInv(h, s, t, page);
      case Snapshot(session, items) => SnapshotKeepsInv(s, session, items);
      case CacheList(session, participant, list) => CachedKeepsInv(h, s.cache, session, participant, list);
      case Forget(session) => WithoutKeepsInv(s.cache, session);
      case SetList(participant, list) => ListKeyTwice(participant);
      case EditList(participant, list) => ListKeyTwice(participant);
      case ProjectionChanged =>
      case Switch(_) =>
      case Select(_) =>
    }
  }

  /** In every reachable state the cache holds at most ten lists of at most 500 messages, one a
      key. */
  lemma {:induction false} RunKeepsInv<M>(h: Host<M>, s: State<M>, events: seq<Event<M>>)
    requires Inv(s)
    ensures Inv(Run(h, s, events))
  {
    if events != [] {
      RunKeepsInv(h, s, events[..|events| - 1]);
      StepKeepsInv(h, Run(h, s, events[..|events| - 1]), events[|events| - 1]);
    }
  }

  /** The event puts a list under the key. */
  predicate Caches<M>(s: State<M>, e: Event<M>, key: string) {
    || (e.CacheList? && e.session != "" && CacheKey(e.session, e.participant) == key)
    || (e.Respond? && Writes(s, e.ticket) && e.ticket.session != "" && TicketKey(e.ticket) == key)
  }

  predicate AnyCaches<M>(h: Host<M>, s: State<M>, events: seq<Event<M>>, key: string) {
    events != [] &&
    (AnyCaches(h, s, events[..|events| - 1], key)
      || Caches(Run(h, s, events[..|events| - 1]), events[|events| - 1], key))
  }

  /** A load is never served a list cached before the last snapshot of its session: after a
      snapshot nothing is found under the session's keys until something is cached there again. */
  lemma {:induction false} CacheForgetsAtSnapshot<M>(
    h: Host<M>, s: State<M>, session: string, items: seq<M>, after: seq<Event<M>>, key: string)
    requires session == s.current && Owns(session, key) && Inv(s)
    requires !AnyCaches(h, Apply(h, s, Snapshot(session, items)), after, key)
    ensures Find(Run(h, Apply(h, s, Snapshot(session, items)), after).cache, EntryKey(), key) == None
  {
    var begun := Apply(h, s, Snapshot(session, items));
    if after == [] {
      FilterUnique(s.cache, EntryKey(), (e: Entry<M>) => !Owns(session, e.key), key);
    } else {
      var was, e := Run(h, begun, after[..|after| - 1]), after[|after| - 1];
      CacheForgetsAtSnapshot(h, s, session, items, after[..|after| - 1], key);
      StepKeepsInv(h, s, Snapshot(session, items));
      RunKeepsInv(h, begun, after[..|after| - 1]);
      StepFindsNothing(h, was, e, key);
    }
  }

  lemma StepFindsNothing<M>(h: Host<M>, s: State<M>, e: Event<M>, key: string)
    requires Inv(s) && Find(s.cache, EntryKey(), key) == None && !Caches(s, e, key)
    ensures Find(Apply(h, s, e).cache, EntryKey(), key) == None
  {
    match e {
      case Respond(t, page) =>
        if Writes(s, t) {
          var written := Put(h, s, t, page, t.participant != "root" || t.options.preserve || t.options.live);
          CachedFindsNothing(h, s.cache, t.session, t.participant, ListOf(written, ListKey(t.participant)), key);
        }
      case CacheList(session, participant, list) => CachedFindsNothing(h, s.cache, session, participant, list, key);
      case Snapshot(session, _) => FilterUnique(s.cache, EntryKey(), (e: Entry<M>) => !Owns(session, e.key), key);
      case Forget(session) => FilterUnique(s.cache, EntryKey(), (e: Entry<M>) => !Owns(session, e.key), key);
      case _ =>
    }
  }

  lemma CachedFindsNothing<M>(
    h: Host<M>, cache: seq<Entry<M>>, session: string, participant: string, list: seq<M>, key: string)
    requires Find(cache, EntryKey(), key) == None && (session != "" ==> CacheKey(session, participant) != key)
    ensures Find(Cached(h, cache, session, participant, list), EntryKey(), key) == None
  {
    var own := CacheKey(session, participant);
    var rest := Drop(cache, EntryKey(), own);
    var x := Entry(own, Map(Newest(list), h.normalize));
    FindDrop(cache, EntryKey(), own, key);
    if session != "" {
      forall e | e in rest + [x] ensures EntryKey()(e) != key { }
    }
  }
}
