/** What a load of messages finds, writes and leaves behind, told by its session, its thread and the
    lists: these statements share no vocabulary with the operations they are about. */
module LoadLaws {
  import opened Sequences
  import opened KeyedLists
  import opened MessageLoads
  import Text

  // ---- names ----

  /** A list goes by the trimmed name of its participant, and by "root" when nothing is left of it. */
  lemma ListsByTrimmedName(participant: string)
    ensures ListKey(participant) == if Text.AllWhite(participant) then "root" else Text.Trim(participant)
  {
    Text.TrimsAllWhite(participant);
  }

  /** Each session and thread has its own key; no name means the root. A session owns its own keys
      and no others, as long as the ids of sessions hold no colon. */
  lemma KeysApart(session: string, participant: string, other: string, otherParticipant: string)
    requires ':' !in session && ':' !in other
    ensures Owns(other, CacheKey(session, participant)) <==> other == session
    ensures CacheKey(session, participant) == CacheKey(other, otherParticipant) <==>
      && session == other
      && (participant == otherParticipant || (participant in {"", "root"} && otherParticipant in {"", "root"}))
  {
    var k, l := CacheKey(session, participant), CacheKey(other, otherParticipant);
    assert k[|session|] == ':' && l[|other|] == ':' && k[|session| + 1] == ':' && l[|other| + 1] == ':';
    assert forall i :: 0 <= i < |session| ==> k[i] == session[i] != ':';
    assert forall i :: 0 <= i < |other| ==> l[i] == other[i] != ':';
    assert k[..|session|] == session && l[..|other|] == other;
    assert k[|session| + 2..] == if participant == "" then "root" else participant;
    assert l[|other| + 2..] == if otherParticipant == "" then "root" else otherParticipant;
    var own := other + "::";
    assert own[|other|] == ':' && forall i :: 0 <= i < |other| ==> own[i] == other[i] != ':';
    if session == other { assert own <= k; }
    if own <= k { assert own == k[..|own|]; }
  }

  // ---- what is written ----

  /** The divider at `i` is the first one of the list. */
  ghost predicate FirstDivider<M>(h: Host<M>, list: seq<M>, i: int) {
    0 <= i < |list| && h.divider(list[i]) && forall j :: 0 <= j < i ==> !h.divider(list[j])
  }

  lemma {:induction false} FilterFirst<M>(xs: seq<M>, p: M -> bool, i: nat)
    requires i < |xs| && p(xs[i]) && forall j :: 0 <= j < i ==> !p(xs[j])
    ensures Filter(xs, p) != [] && Filter(xs, p)[0] == xs[i]
  {
    if i > 0 {
      assert xs[1..][i - 1] == xs[i] && forall j :: 0 <= j < i - 1 ==> xs[1..][j] == xs[j + 1];
      FilterFirst(xs[1..], p, i - 1);
    }
  }

  lemma NoneFiltered<M>(xs: seq<M>, p: M -> bool)
    ensures Filter(xs, p) == [] <==> forall x :: x in xs ==> !p(x)
  {
    forall x ensures x in Filter(xs, p) <==> x in xs && p(x) { FilterMember(xs, p, x); }
    if Filter(xs, p) != [] { assert Filter(xs, p)[0] in Filter(xs, p); }
  }

  /** A list that takes the place of another keeps the divider of a compaction under way: on a silent
      load, when the root shows one and the list brings none, the first one is put at the end. */
  lemma DividerKept<M>(h: Host<M>, list: seq<M>, root: seq<M>, silent: bool, i: int)
    ensures var kept := KeepDivider(h, list, root, silent);
      && (!silent || (exists m :: m in list && h.divider(m)) || (forall m :: m in root ==> !h.divider(m)) ==>
            kept == list)
      && (silent && (forall m :: m in list ==> !h.divider(m)) && FirstDivider(h, root, i) ==>
            kept == list + [root[i]])
  {
    NoneFiltered(list, h.divider);
    NoneFiltered(root, h.divider);
    if FirstDivider(h, root, i) { FilterFirst(root, h.divider, i); }
  }

  /** The last 500 messages of the list, each normalized. */
  ghost predicate KeptOf<M>(h: Host<M>, list: seq<M>, kept: seq<M>) {
    && |kept| == (if |list| <= 500 then |list| else 500)
    && forall i :: 0 <= i < |kept| ==> kept[i] == h.normalize(list[|list| - |kept| + i])
  }

  /** Caching a list makes it the youngest, in place of an older one under its key; beyond ten the
      oldest goes. Without a session nothing is cached. */
  lemma CachingActs<M>(h: Host<M>, s: State<M>, session: string, participant: string, list: seq<M>)
    returns (rest: seq<Entry<M>>, own: Entry<M>)
    ensures var t := Apply(h, s, CacheList(session, participant, list));
      && (session == "" ==> t == s)
      && (session != "" ==> t == s.(cache := (if |rest| < 10 then rest else rest[1..]) + [own]))
    ensures own.key == CacheKey(session, participant) && KeptOf(h, list, own.list)
    ensures rest == Filter(s.cache, (e: Entry<M>) => e.key != own.key)
  {
    rest, own := Drop(s.cache, EntryKey(), CacheKey(session, participant)),
                 Entry(CacheKey(session, participant), Map(Newest(list), h.normalize));
    DropIsFilter(s.cache, own.key);
    assert |rest| >= 10 ==> (rest + [own])[1..] == rest[1..] + [own];
  }

  lemma {:induction false} DropIsFilter<M>(cache: seq<Entry<M>>, key: string)
    ensures Drop(cache, EntryKey(), key) == Filter(cache, (e: Entry<M>) => e.key != key)
  {
    if cache != [] { DropIsFilter(cache[1..], key); }
  }

  /** The load may write: no later one of its thread has begun, its session is in view, and so is its
      thread unless it is silent or the root; and the projection has not moved unless it preserves
      the stream. */
  predicate MayWrite<M>(s: State<M>, t: Ticket) {
    && (if CacheKey(t.session, t.participant) in s.loadSeqs
        then s.loadSeqs[CacheKey(t.session, t.participant)] == t.seqNo
        else t.seqNo == 0)
    && s.current == t.session
    && (t.options.silent || t.participant == "root" || t.participant == s.selected)
    && (t.options.preserve || t.revision == s.revision)
  }

  /** What a list takes in: reconciled with the present one for a child thread, a preserved stream or
      a live load, and else put in its place. */
  ghost predicate TakesIn<M>(h: Host<M>, s: State<M>, t: Ticket, page: seq<M>, reconciles: bool, list: seq<M>) {
    var key := ListKey(t.participant);
    list == if reconciles then h.reconcile(if key in s.lists then s.lists[key] else [], page, t.options.live)
            else KeepDivider(h, page, if "root" in s.lists then s.lists["root"] else [], t.options.silent)
  }

  /** A response that may write puts its page into the list of its thread, moves the projection iff it
      replaces the list, and caches what is there then; any other changes nothing. */
  lemma ResponseActs<M>(h: Host<M>, s: State<M>, t: Ticket, page: seq<M>) returns (list: seq<M>)
    ensures TakesIn(h, s, t, page, t.participant != "root" || t.options.preserve || t.options.live, list)
    ensures var reconciles := t.participant != "root" || t.options.preserve || t.options.live;
      Apply(h, s, Respond(t, page)) ==
        if !MayWrite(s, t) then s
        else Apply(h, s.(lists := s.lists[ListKey(t.participant) := list],
                         revision := s.revision + if reconciles then 0 else 1),
                   CacheList(t.session, t.participant, list))
  {
    list := TakenIn(h, s, t, page, t.participant != "root" || t.options.preserve || t.options.live);
  }

  lemma TakenIn<M>(h: Host<M>, s: State<M>, t: Ticket, page: seq<M>, reconciles: bool) returns (list: seq<M>)
    ensures TakesIn(h, s, t, page, reconciles, list)
    ensures MessageLoads.Put(h, s, t, page, reconciles) ==
      s.(lists := s.lists[ListKey(t.participant) := list], revision := s.revision + if reconciles then 0 else 1)
  {
    list := ListOf(MessageLoads.Put(h, s, t, page, reconciles), ListKey(t.participant));
  }

  /** What a load that begins keeps: the next number of its thread and the present revision. */
  ghost predicate IsTicket<M>(s: State<M>, t: Ticket, session: string, participant: string, options: Options) {
    && t.session == session && t.participant == (if participant == "" then "root" else participant)
    && t.revision == s.revision && t.options == options
    && var key := CacheKey(session, t.participant);
    t.seqNo == (if key in s.loadSeqs then s.loadSeqs[key] else 0) + 1
  }

  /** A load takes its number; unless it is silent, let through to the cache and finds a list there,
      that is all. Without a session nothing happens. */
  lemma BeginNumbers<M>(h: Host<M>, s: State<M>, session: string, participant: string, options: Options, t: Ticket)
    requires IsTicket(s, t, session, participant, options)
    ensures TicketOf(s, session, participant, options) == t
    ensures var key := CacheKey(session, t.participant); var after := Apply(h, s, Begin(session, participant, options));
      && (session == "" ==> after == s)
      && (session != "" && (!options.silent || options.bypassCache || session != s.current
                            || forall x :: x in s.cache ==> x.key != key) ==>
            after == s.(loadSeqs := s.loadSeqs[key := t.seqNo]))
  {
  }

  /** Else it takes in the cached list, normalized, at once. */
  lemma BeginFromCache<M>(
    h: Host<M>, s: State<M>, session: string, participant: string, options: Options, t: Ticket, e: Entry<M>)
    returns (list: seq<M>)
    requires Inv(s) && IsTicket(s, t, session, participant, options) && session != "" && session == s.current
    requires options.silent && !options.bypassCache && e in s.cache && e.key == CacheKey(session, t.participant)
    ensures var page := seq(|e.list|, i requires 0 <= i < |e.list| => h.normalize(e.list[i]));
      TakesIn(h, s, t, page, t.participant != "root" || options.preserve, list)
    ensures Apply(h, s, Begin(session, participant, options)) ==
      s.(loadSeqs := s.loadSeqs[e.key := t.seqNo], lists := s.lists[ListKey(t.participant) := list],
         revision := s.revision + if t.participant != "root" || options.preserve then 0 else 1)
  {
    var page := seq(|e.list|, i requires 0 <= i < |e.list| => h.normalize(e.list[i]));
    assert page == Map(e.list, h.normalize);
    FindMember(s.cache, EntryKey(), e);
    assert Hit(s, t) == Some(e) && IsCurrent(Numbered(s, t), t);
    list := TakenIn(h, Numbered(s, t), t, page, t.participant != "root" || options.preserve);
    assert TicketOf(s, session, participant, options) == t;
  }

  /** A snapshot of the session in view outdates its loads under way, forgets what is cached for it,
      empties the threads and fills the root; one of another session changes nothing. */
  lemma SnapshotActs<M>(h: Host<M>, s: State<M>, session: string, items: seq<M>, key: string, e: Entry<M>)
    ensures var t := Apply(h, s, Snapshot(session, items));
      if session != s.current then t == s
      else
        && (key in t.loadSeqs <==> key in s.loadSeqs)
        && (key in s.loadSeqs ==> t.loadSeqs[key] == s.loadSeqs[key] + if session + "::" <= key then 1 else 0)
        && (e in t.cache <==> e in s.cache && !(session + "::" <= e.key))
        && t.lists.Keys == s.lists.Keys + {"root"} && t.lists["root"] == items
        && (forall k :: k in s.lists && k != "root" ==> t.lists[k] == [])
        && t.revision == s.revision + |s.lists.Keys - {"root"}| + 1
        && (t.current, t.selected) == (s.current, s.selected)
  {
    FilterMember(s.cache, (x: Entry<M>) => !Owns(session, x.key), e);
  }

  /** Forgetting a session takes its cached lists away and nothing else; the other events set what
      they name. */
  lemma OthersAct<M>(h: Host<M>, s: State<M>, session: string, participant: string, list: seq<M>, e: Entry<M>)
    ensures var t := Apply(h, s, Forget(session));
      t == s.(cache := t.cache) && (e in t.cache <==> e in s.cache && !(session + "::" <= e.key))
    ensures Apply(h, s, ProjectionChanged) == s.(revision := s.revision + 1)
    ensures Apply(h, s, SetList(participant, list)) ==
      s.(revision := s.revision + 1, lists := s.lists[ListKey(participant) := list])
    ensures Apply(h, s, EditList(participant, list)) == s.(lists := s.lists[ListKey(participant) := list])
    ensures Apply(h, s, Switch(session)) == s.(current := session)
    ensures Apply(h, s, Select(participant)) == s.(selected := participant)
  {
    FilterMember(s.cache, (x: Entry<M>) => !Owns(session, x.key), e);
  }

  /** A new loader has nothing in view, nothing under way and nothing cached. */
  lemma NewLoader<M>()
    ensures var s := Start<M>();
      s.current == "" && s.selected == "" && s.loadSeqs == map[] && s.lists == map[] && s.cache == []
  {
  }

  /** The events that cache a list under the key. */
  lemma CachesMeans<M>(s: State<M>, e: Event<M>, key: string)
    ensures Caches(s, e, key) <==>
      || (e.CacheList? && e.session != "" && key == CacheKey(e.session, e.participant))
      || (e.Respond? && MayWrite(s, e.ticket) && e.ticket.session != ""
          && key == CacheKey(e.ticket.session, e.ticket.participant))
  {
  }

  /** An event that caches under a key leaves a list there: the last 500 messages of what it was given,
      or of what it wrote. */
  lemma CachedIsFound<M>(h: Host<M>, s: State<M>, e: Event<M>, key: string)
    requires Inv(s) && Caches(s, e, key)
    ensures exists x :: x in Apply(h, s, e).cache && x.key == key
  {
    CachesMeans(s, e, key);
    if e.CacheList? {
      var rest, own := CachingActs(h, s, e.session, e.participant, e.list);
      assert own in Apply(h, s, e).cache;
    } else {
      var list := ResponseActs(h, s, e.ticket, e.page);
      var rest, own := CachingActs(h, s, e.ticket.session, e.ticket.participant, list);
      assert own in Apply(h, s, e).cache;
    }
  }
}
