/** The file browser: paths fold into a tree, and the tree unfolds into the rows shown. */
module FileTree {
  import opened Sequences
  import opened KeyedLists
  import opened StableSort

  datatype Kind = File | Directory

  datatype Meta = Meta(kind: Kind, size: Option<int>)

  datatype Entry = Entry(path: string, meta: Meta)

  /** A node of the tree; `parts` are the segments of its path. */
  datatype Tree = Tree(name: string, parts: seq<string>, meta: Meta, children: seq<Tree>)

  datatype Row = Row(parts: seq<string>, meta: Meta, depth: nat, collapsed: bool)

  const NameOf: Tree -> string := (t: Tree) => t.name
  const DIRECTORY := Meta(Directory, None)

  // ---- paths ----

  /** `replaceAll('\\', '/')`. */
  function Slashes(s: string): string {
    if s == "" then "" else [if s[0] == '\\' then '/' else s[0]] + Slashes(s[1..])
  }

  /** `split('/')`. */
  function Split(s: string): (r: seq<string>)
    ensures r != []
  {
    if s == "" then [""]
    else
      var rest := Split(s[1..]);
      if s[0] == '/' then [""] + rest else [[s[0]] + rest[0]] + rest[1..]
  }

  function Parts(path: string): seq<string> { Filter(Split(Slashes(path)), (p: string) => p != "") }

  /** `join('/')`. */
  function Join(parts: seq<string>): string {
    if parts == [] then "" else if |parts| == 1 then parts[0] else parts[0] + ("/" + Join(parts[1..]))
  }

  // ---- the tree ----

  /** Walks down from the siblings, adding the nodes that are missing; `above` are the parts
      already walked. A node that exists keeps its meta. */
  function Insert(forest: seq<Tree>, above: seq<string>, rest: seq<string>, meta: Meta): seq<Tree>
    decreases |rest|
  {
    if rest == [] then forest
    else
      var found := Find(forest, NameOf, rest[0]);
      var parts := above + [rest[0]];
      var node := if found.Some? then found.value
        else Tree(rest[0], parts, if |rest| == 1 then meta else DIRECTORY, []);
      Put(forest, NameOf, node.(children := Insert(node.children, parts, rest[1..], meta)))
  }

  function Build(files: seq<Entry>): seq<Tree> {
    if files == [] then []
    else var f := files[|files| - 1]; Insert(Build(files[..|files| - 1]), [], Parts(f.path), f.meta)
  }

  /** The order of siblings: directories first, then by name. */
  predicate Before(collate: string -> real, a: Meta, m: string, b: Meta, n: string) {
    if a.kind == b.kind then collate(m) <= collate(n) else a.kind == Directory
  }

  function Order(collate: string -> real): (Tree, Tree) -> bool {
    (s: Tree, t: Tree) => Before(collate, s.meta, s.name, t.meta, t.name)
  }

  function SortTree(collate: string -> real, t: Tree): Tree {
    t.(children := Sort(SortChildren(collate, t.children), Order(collate)))
  }

  function SortChildren(collate: string -> real, forest: seq<Tree>): seq<Tree> {
    if forest == [] then [] else [SortTree(collate, forest[0])] + SortChildren(collate, forest[1..])
  }

  /** Sorts the siblings of every level; the order never looks at children, so the levels may be
      sorted from the bottom up. */
  function SortForest(collate: string -> real, forest: seq<Tree>): seq<Tree> {
    Sort(SortChildren(collate, forest), Order(collate))
  }

  predicate Closed(meta: Meta, parts: seq<string>, collapsed: set<string>) {
    meta.kind == Directory && Join(parts) in collapsed
  }

  predicate Open(meta: Meta, parts: seq<string>, collapsed: set<string>) {
    meta.kind == Directory && Join(parts) !in collapsed
  }

  function WalkTree(t: Tree, collapsed: set<string>, depth: nat): seq<Row> {
    [Row(t.parts, t.meta, depth, Closed(t.meta, t.parts, collapsed))]
    + if Open(t.meta, t.parts, collapsed) then Walk(t.children, collapsed, depth + 1) else []
  }

  function Walk(forest: seq<Tree>, collapsed: set<string>, depth: nat): seq<Row> {
    if forest == [] then [] else WalkTree(forest[0], collapsed, depth) + Walk(forest[1..], collapsed, depth)
  }

  function Flatten(collate: string -> real, files: seq<Entry>, collapsed: set<string>): seq<Row> {
    Walk(SortForest(collate, Build(files)), collapsed, 0)
  }

  // ---- the reference ----

  /** What the list of files says of a path: the first file at or below it decides. */
  function Said(files: seq<Entry>, p: seq<string>): Option<Meta> {
    if files == [] then None
    else
      var before, parts := Said(files[..|files| - 1], p), Parts(files[|files| - 1].path);
      if before.Some? then before
      else if p == parts then Some(files[|files| - 1].meta)
      else if p <= parts then Some(DIRECTORY)
      else None
  }

  /** Every proper ancestor is a directory that is not collapsed. */
  ghost predicate Visible(files: seq<Entry>, p: seq<string>, collapsed: set<string>) {
    forall n :: 0 < n < |p| ==> OpenAt(files, p[..n], collapsed)
  }

  /** The row a path gets, if any. */
  ghost function RowOf(files: seq<Entry>, collapsed: set<string>, p: seq<string>): Option<Row> {
    var m := Said(files, p);
    if p != [] && m.Some? && Visible(files, p, collapsed)
    then Some(Row(p, m.value, |p| - 1, Closed(m.value, p, collapsed)))
    else None
  }

  predicate OpenAt(files: seq<Entry>, p: seq<string>, collapsed: set<string>) {
    Said(files, p).Some? && Open(Said(files, p).value, p, collapsed)
  }

  // ---- what the forest says ----

  function Info(forest: seq<Tree>, p: seq<string>): Option<Meta>
    requires p != []
    decreases |p|
  {
    var t := Find(forest, NameOf, p[0]);
    if t.None? then None
    else if |p| == 1 then Some(t.value.meta)
    else Info(t.value.children, p[1..])
  }

  /** Siblings have different names, and nodes know where they are. */
  predicate WellFormed(forest: seq<Tree>, above: seq<string>) {
    forest == [] ||
    (WellFormedTree(forest[0], above) && Find(forest[1..], NameOf, forest[0].name) == None
      && WellFormed(forest[1..], above))
  }

  predicate WellFormedTree(t: Tree, above: seq<string>) {
    t.parts == above + [t.name] && WellFormed(t.children, t.parts)
  }

  lemma {:induction false} WellFormedMember(forest: seq<Tree>, above: seq<string>, t: Tree)
    requires WellFormed(forest, above) && t in forest
    ensures WellFormedTree(t, above)
  {
    if forest[0] != t { WellFormedMember(forest[1..], above, t); }
  }

  lemma {:induction false} WellFormedUnique(forest: seq<Tree>, above: seq<string>)
    requires WellFormed(forest, above)
    ensures UniqueKeys(forest, NameOf)
  {
    if forest != [] { WellFormedUnique(forest[1..], above); }
  }

  lemma {:induction false} PutWellFormed(forest: seq<Tree>, above: seq<string>, t: Tree)
    requires WellFormed(forest, above) && WellFormedTree(t, above)
    ensures WellFormed(Put(forest, NameOf, t), above)
  {
    if forest != [] && forest[0].name != t.name {
      PutWellFormed(forest[1..], above, t);
      FindPut(forest[1..], NameOf, t, forest[0].name);
    }
  }

  lemma {:induction false} InsertWellFormed(forest: seq<Tree>, above: seq<string>, rest: seq<string>, meta: Meta)
    requires WellFormed(forest, above)
    ensures WellFormed(Insert(forest, above, rest, meta), above)
    decreases |rest|
  {
    if rest != [] {
      var found := Find(forest, NameOf, rest[0]);
      var parts := above + [rest[0]];
      if found.Some? {
        WellFormedMember(forest, above, found.value);
        InsertWellFormed(found.value.children, parts, rest[1..], meta);
        PutWellFormed(forest, above, found.value.(children := Insert(found.value.children, parts, rest[1..], meta)));
      } else {
        InsertWellFormed([], parts, rest[1..], meta);
        PutWellFormed(forest, above,
          Tree(rest[0], parts, if |rest| == 1 then meta else DIRECTORY, Insert([], parts, rest[1..], meta)));
      }
    }
  }

  /** Inserting a path adds what is missing of it and its ancestors, and changes nothing else. */
  lemma {:induction false} InsertInfo(
    forest: seq<Tree>, above: seq<string>, rest: seq<string>, meta: Meta, p: seq<string>)
    requires p != []
    ensures Info(Insert(forest, above, rest, meta), p) ==
      if Info(forest, p).Some? then Info(forest, p)
      else if p == rest then Some(meta)
      else if p <= rest then Some(DIRECTORY)
      else None
    decreases |rest|
  {
    if rest != [] {
      var found := Find(forest, NameOf, rest[0]);
      var parts := above + [rest[0]];
      var node := if found.Some? then found.value
        else Tree(rest[0], parts, if |rest| == 1 then meta else DIRECTORY, []);
      var next := node.(children := Insert(node.children, parts, rest[1..], meta));
      FindPut(forest, NameOf, next, p[0]);
      if p[0] == rest[0] && |p| > 1 {
        InsertInfo(node.children, parts, rest[1..], meta, p[1..]);
        assert p == [p[0]] + p[1..] && rest == [rest[0]] + rest[1..];
      }
    }
  }

  lemma {:induction false} BuildInfo(files: seq<Entry>, p: seq<string>)
    requires p != []
    ensures Info(Build(files), p) == Said(files, p)
    ensures WellFormed(Build(files), [])
  {
    if files != [] {
      var init, f := files[..|files| - 1], files[|files| - 1];
      BuildInfo(init, p);
      InsertInfo(Build(init), [], Parts(f.path), f.meta, p);
      InsertWellFormed(Build(init), [], Parts(f.path), f.meta);
    }
  }

  // ---- sorting ----

  /** The siblings of every level are in order. */
  ghost predicate Ordered(collate: string -> real, forest: seq<Tree>)
    decreases forest, 1
  {
    Sorted(forest, Order(collate)) && OrderedBelow(collate, forest)
  }

  ghost predicate OrderedBelow(collate: string -> real, forest: seq<Tree>)
    decreases forest, 0
  {
    forest == [] || (Ordered(collate, forest[0].children) && OrderedBelow(collate, forest[1..]))
  }

  lemma OrderTotal(collate: string -> real)
    ensures TotalPreorder(Order(collate))
  {
    var le := Order(collate);
    assert forall s, t :: le(s, t) == Before(collate, s.meta, s.name, t.meta, t.name);
  }

  lemma {:induction false} FindSorted(collate: string -> real, forest: seq<Tree>, name: string)
    ensures var t := Find(forest, NameOf, name);
      Find(SortChildren(collate, forest), NameOf, name) == if t.None? then None else Some(SortTree(collate, t.value))
  {
    if forest != [] { FindSorted(collate, forest[1..], name); }
  }

  lemma {:induction false} PlaceWellFormed(collate: string -> real, t: Tree, forest: seq<Tree>, above: seq<string>)
    requires WellFormed(forest, above) && WellFormedTree(t, above) && Find(forest, NameOf, t.name) == None
    ensures WellFormed(Place(t, forest, Order(collate)), above)
  {
    WellFormedUnique(forest, above);
    if forest != [] && !Order(collate)(t, forest[0]) {
      PlaceWellFormed(collate, t, forest[1..], above);
      FindPlace(t, forest[1..], Order(collate), NameOf, forest[0].name);
    }
  }

  lemma {:induction false} SortWellFormed(collate: string -> real, forest: seq<Tree>, above: seq<string>)
    requires WellFormed(forest, above)
    ensures WellFormed(Sort(forest, Order(collate)), above)
  {
    if forest != [] {
      SortWellFormed(collate, forest[1..], above);
      WellFormedUnique(forest[1..], above);
      FindSort(forest[1..], Order(collate), NameOf, forest[0].name);
      PlaceWellFormed(collate, forest[0], Sort(forest[1..], Order(collate)), above);
    }
  }

  lemma {:induction false} PlaceOrderedBelow(collate: string -> real, t: Tree, forest: seq<Tree>)
    requires OrderedBelow(collate, forest) && Ordered(collate, t.children)
    ensures OrderedBelow(collate, Place(t, forest, Order(collate)))
  {
    if forest != [] && !Order(collate)(t, forest[0]) { PlaceOrderedBelow(collate, t, forest[1..]); }
  }

  lemma {:induction false} SortOrderedBelow(collate: string -> real, forest: seq<Tree>)
    requires OrderedBelow(collate, forest)
    ensures OrderedBelow(collate, Sort(forest, Order(collate)))
  {
    if forest != [] {
      SortOrderedBelow(collate, forest[1..]);
      PlaceOrderedBelow(collate, forest[0], Sort(forest[1..], Order(collate)));
    }
  }

  /** Sorting every level keeps the forest well formed and orders it. */
  lemma {:induction false} SortChildrenOrders(collate: string -> real, forest: seq<Tree>, above: seq<string>)
    requires WellFormed(forest, above)
    ensures WellFormed(SortChildren(collate, forest), above) && OrderedBelow(collate, SortChildren(collate, forest))
    ensures WellFormed(SortForest(collate, forest), above) && Ordered(collate, SortForest(collate, forest))
  {
    if forest != [] {
      SortChildrenOrders(collate, forest[0].children, forest[0].parts);
      SortChildrenOrders(collate, forest[1..], above);
      FindSorted(collate, forest[1..], forest[0].name);
      var sorted := SortChildren(collate, forest);
      assert sorted[0] == SortTree(collate, forest[0]) && sorted[1..] == SortChildren(collate, forest[1..]);
      assert sorted[0].children == SortForest(collate, forest[0].children);
    }
    OrderTotal(collate);
    SortWellFormed(collate, SortChildren(collate, forest), above);
    SortOrderedBelow(collate, SortChildren(collate, forest));
    SortSorts(SortChildren(collate, forest), Order(collate));
  }

  /** Sorting changes nothing the forest says. */
  lemma {:induction false} SortInfo(collate: string -> real, forest: seq<Tree>, above: seq<string>, p: seq<string>)
    requires p != [] && WellFormed(forest, above)
    ensures Info(SortForest(collate, forest), p) == Info(forest, p)
    decreases |p|
  {
    SortChildrenOrders(collate, forest, above);
    WellFormedUnique(SortChildren(collate, forest), above);
    FindSort(SortChildren(collate, forest), Order(collate), NameOf, p[0]);
    FindSorted(collate, forest, p[0]);
    var t := Find(forest, NameOf, p[0]);
    if t.Some? && |p| > 1 {
      WellFormedMember(forest, above, t.value);
      SortInfo(collate, t.value.children, t.value.parts, p[1..]);
    }
  }

  // ---- walking ----

  /** The row of the path below the siblings, when every node above it is open. */
  function RowFor(forest: seq<Tree>, above: seq<string>, p: seq<string>, collapsed: set<string>): Option<Row>
    requires p != []
    decreases |p|
  {
    var t := Find(forest, NameOf, p[0]);
    var parts := above + [p[0]];
    if t.None? then None
    else if |p| == 1 then Some(Row(parts, t.value.meta, |above|, Closed(t.value.meta, parts, collapsed)))
    else if Open(t.value.meta, parts, collapsed) then RowFor(t.value.children, parts, p[1..], collapsed)
    else None
  }

  /** Every row lies below the siblings, under one of them. */
  lemma {:induction false} RowsLieBelow(forest: seq<Tree>, above: seq<string>, collapsed: set<string>, depth: nat)
    requires WellFormed(forest, above)
    ensures forall r :: r in Walk(forest, collapsed, depth) ==>
      |above| < |r.parts| && above <= r.parts && Find(forest, NameOf, r.parts[|above|]).Some?
    decreases forest, 1
  {
    if forest != [] {
      TreeRowsLieBelow(forest[0], above, collapsed, depth);
      RowsLieBelow(forest[1..], above, collapsed, depth);
    }
  }

  lemma TreeRowsLieBelow(t: Tree, above: seq<string>, collapsed: set<string>, depth: nat)
    requires WellFormedTree(t, above)
    ensures forall r :: r in WalkTree(t, collapsed, depth) ==>
      |above| < |r.parts| && above <= r.parts && t.parts <= r.parts && r.parts[|above|] == t.name
    decreases t, 0
  {
    RowsLieBelow(t.children, t.parts, collapsed, depth + 1);
  }

  /** The rows of a walk are the rows of its paths. */
  lemma {:induction false} WalkRows(forest: seq<Tree>, above: seq<string>, collapsed: set<string>)
    requires WellFormed(forest, above)
    ensures forall r :: r in Walk(forest, collapsed, |above|) ==>
      |above| < |r.parts| && above <= r.parts && RowFor(forest, above, r.parts[|above|..], collapsed) == Some(r)
    ensures forall p :: p != [] && RowFor(forest, above, p, collapsed).Some? ==>
      RowFor(forest, above, p, collapsed).value in Walk(forest, collapsed, |above|)
    decreases forest
  {
    RowsLieBelow(forest, above, collapsed, |above|);
    if forest != [] {
      var t, rest := forest[0], forest[1..];
      WalkRows(t.children, t.parts, collapsed);
      WalkRows(rest, above, collapsed);
      TreeRowsLieBelow(t, above, collapsed, |above|);
      RowsLieBelow(rest, above, collapsed, |above|);
      forall r | r in Walk(forest, collapsed, |above|)
        ensures RowFor(forest, above, r.parts[|above|..], collapsed) == Some(r)
      {
        var p := r.parts[|above|..];
        if r in WalkTree(t, collapsed, |above|) {
          if r.parts == t.parts {
            assert p == [t.name];
          } else {
            assert p[1..] == r.parts[|t.parts|..];
          }
        }
      }
      forall p | p != [] && RowFor(forest, above, p, collapsed).Some?
        ensures RowFor(forest, above, p, collapsed).value in Walk(forest, collapsed, |above|)
      {
        if p[0] != t.name { assert RowFor(rest, above, p, collapsed) == RowFor(forest, above, p, collapsed); }
      }
    }
  }

  ghost predicate OpenAbove(forest: seq<Tree>, above: seq<string>, p: seq<string>, collapsed: set<string>) {
    forall n :: 0 < n < |p| ==> OpenIn(forest, above, p[..n], collapsed)
  }

  predicate OpenIn(forest: seq<Tree>, above: seq<string>, p: seq<string>, collapsed: set<string>)
    requires p != []
  {
    Info(forest, p).Some? && Open(Info(forest, p).value, above + p, collapsed)
  }

  /** A path has a row iff it is in the forest and every node above it is open. */
  lemma {:induction false} RowForMeaning(forest: seq<Tree>, above: seq<string>, p: seq<string>, collapsed: set<string>)
    requires p != []
    ensures RowFor(forest, above, p, collapsed) ==
      if Info(forest, p).Some? && OpenAbove(forest, above, p, collapsed) then
        Some(Row(above + p, Info(forest, p).value, |above| + |p| - 1,
          Closed(Info(forest, p).value, above + p, collapsed)))
      else None
    decreases |p|
  {
    var t := Find(forest, NameOf, p[0]);
    var parts := above + [p[0]];
    if |p| == 1 {
      assert p == [p[0]];
    } else if t.Some? {
      var next := t.value.children;
      RowForMeaning(next, parts, p[1..], collapsed);
      OpenAboveStep(forest, above, p, collapsed);
      assert parts + p[1..] == above + p;
    }
  }

  lemma OpenAboveStep(forest: seq<Tree>, above: seq<string>, p: seq<string>, collapsed: set<string>)
    requires |p| > 1 && Find(forest, NameOf, p[0]).Some?
    ensures var t := Find(forest, NameOf, p[0]).value; var parts := above + [p[0]];
      OpenAbove(forest, above, p, collapsed) <==>
        Open(t.meta, parts, collapsed) && OpenAbove(t.children, parts, p[1..], collapsed)
  {
    var t, parts := Find(forest, NameOf, p[0]).value, above + [p[0]];
    assert p[..1] == [p[0]];
    assert OpenIn(forest, above, p[..1], collapsed) <==> Open(t.meta, parts, collapsed);
    forall n | 1 < n < |p|
      ensures OpenIn(forest, above, p[..n], collapsed) <==> OpenIn(t.children, parts, p[1..][..n - 1], collapsed)
    {
      assert p[..n][1..] == p[1..][..n - 1] && p[..n][0] == p[0];
      assert parts + p[1..][..n - 1] == above + p[..n];
    }
    if OpenAbove(forest, above, p, collapsed) {
      forall n | 0 < n < |p[1..]| ensures OpenIn(t.children, parts, p[1..][..n], collapsed) {
        assert OpenIn(forest, above, p[..n + 1], collapsed);
      }
    }
    if Open(t.meta, parts, collapsed) && OpenAbove(t.children, parts, p[1..], collapsed) {
      forall n | 0 < n < |p| ensures OpenIn(forest, above, p[..n], collapsed) {
        if n > 1 { assert OpenIn(t.children, parts, p[1..][..n - 1], collapsed); }
      }
    }
  }

  // ---- order ----

  /** Of two paths the first comes first: it is above the second, or where they part its node
      goes before its sibling. */
  predicate Precedes(collate: string -> real, forest: seq<Tree>, p: seq<string>, q: seq<string>)
    decreases |p|
  {
    if p == [] then true
    else if q == [] then false
    else
      var s, t := Find(forest, NameOf, p[0]), Find(forest, NameOf, q[0]);
      s.Some? && t.Some? &&
      if p[0] == q[0] then Precedes(collate, s.value.children, p[1..], q[1..])
      else Before(collate, s.value.meta, p[0], t.value.meta, q[0])
  }

  ghost predicate InOrder(collate: string -> real, forest: seq<Tree>, above: seq<string>, rows: seq<Row>) {
    forall i, j :: 0 <= i < j < |rows| ==> Comes(collate, forest, above, rows[i], rows[j])
  }

  /** The rows have different paths, and the first comes before the second. */
  predicate Comes(collate: string -> real, forest: seq<Tree>, above: seq<string>, r1: Row, r2: Row) {
    && r1.parts != r2.parts && |above| <= |r1.parts| && |above| <= |r2.parts|
    && Precedes(collate, forest, r1.parts[|above|..], r2.parts[|above|..])
  }

  /** What comes first below a node comes first below its siblings' parent. */
  lemma PrecedesUnder(collate: string -> real, t: Tree, forest: seq<Tree>, p: seq<string>, q: seq<string>)
    requires Find(forest, NameOf, t.name) == Some(t) && Precedes(collate, t.children, p, q)
    ensures Precedes(collate, forest, [t.name] + p, [t.name] + q)
  {
    assert ([t.name] + p)[1..] == p && ([t.name] + q)[1..] == q;
  }

  lemma BelowName(t: Tree, above: seq<string>, parts: seq<string>)
    requires t.parts == above + [t.name] && t.parts <= parts
    ensures parts[|above|..] == [t.name] + parts[|t.parts|..]
  {
    assert parts == above + [t.name] + parts[|t.parts|..];
  }

  lemma RowsOfTreeInOrder(
    collate: string -> real, t: Tree, forest: seq<Tree>, above: seq<string>, collapsed: set<string>)
    requires WellFormedTree(t, above) && Find(forest, NameOf, t.name) == Some(t)
    requires InOrder(collate, t.children, t.parts, Walk(t.children, collapsed, |above| + 1))
    ensures InOrder(collate, forest, above, WalkTree(t, collapsed, |above|))
  {
    var below := if Open(t.meta, t.parts, collapsed) then Walk(t.children, collapsed, |above| + 1) else [];
    RowsLieBelow(t.children, t.parts, collapsed, |above| + 1);
    var row := Row(t.parts, t.meta, |above|, Closed(t.meta, t.parts, collapsed));
    NodeBeforeBelow(collate, t, forest, above, row, below);
  }

  lemma NodeBeforeBelow(
    collate: string -> real, t: Tree, forest: seq<Tree>, above: seq<string>, row: Row, below: seq<Row>)
    requires t.parts == above + [t.name] && Find(forest, NameOf, t.name) == Some(t) && row.parts == t.parts
    requires InOrder(collate, t.children, t.parts, below)
    requires forall r :: r in below ==> |t.parts| < |r.parts| && t.parts <= r.parts
    ensures InOrder(collate, forest, above, [row] + below)
  {
    var rows := [row] + below;
    forall i, j | 0 <= i < j < |rows| ensures Comes(collate, forest, above, rows[i], rows[j]) {
      assert rows[j] == below[j - 1] && below[j - 1] in below;
      if i == 0 {
        NodeComesFirst(collate, t, forest, above, row, rows[j]);
      } else {
        assert rows[i] == below[i - 1] && below[i - 1] in below;
        BelowComes(collate, t, forest, above, rows[i], rows[j]);
      }
    }
  }

  lemma NodeComesFirst(collate: string -> real, t: Tree, forest: seq<Tree>, above: seq<string>, row: Row, r: Row)
    requires t.parts == above + [t.name] && Find(forest, NameOf, t.name) == Some(t) && row.parts == t.parts
    requires |t.parts| < |r.parts| && t.parts <= r.parts
    ensures Comes(collate, forest, above, row, r)
  {
    BelowName(t, above, r.parts);
    BelowName(t, above, row.parts);
    assert row.parts[|t.parts|..] == [];
    PrecedesUnder(collate, t, forest, [], r.parts[|t.parts|..]);
  }

  lemma BelowComes(collate: string -> real, t: Tree, forest: seq<Tree>, above: seq<string>, r1: Row, r2: Row)
    requires t.parts == above + [t.name] && Find(forest, NameOf, t.name) == Some(t)
    requires t.parts <= r1.parts && t.parts <= r2.parts && Comes(collate, t.children, t.parts, r1, r2)
    ensures Comes(collate, forest, above, r1, r2)
  {
    BelowName(t, above, r1.parts);
    BelowName(t, above, r2.parts);
    PrecedesUnder(collate, t, forest, r1.parts[|t.parts|..], r2.parts[|t.parts|..]);
  }

  /** The walk of an ordered forest lists each path once, in order. */
  lemma {:induction false} WalkInOrder(
    collate: string -> real, forest: seq<Tree>, above: seq<string>, collapsed: set<string>)
    requires WellFormed(forest, above) && Ordered(collate, forest)
    ensures InOrder(collate, forest, above, Walk(forest, collapsed, |above|))
    decreases forest
  {
    if forest != [] {
      var t, rest := forest[0], forest[1..];
      WalkInOrder(collate, t.children, t.parts, collapsed);
      assert Sorted(rest, Order(collate));
      WalkInOrder(collate, rest, above, collapsed);
      RowsOfTreeInOrder(collate, t, forest, above, collapsed);
      TreeRowsLieBelow(t, above, collapsed, |above|);
      RowsLieBelow(rest, above, collapsed, |above|);
      RestInOrder(collate, forest, above, Walk(rest, collapsed, |above|));
      TreeBeforeRest(collate, forest, above, WalkTree(t, collapsed, |above|), Walk(rest, collapsed, |above|));
    }
  }

  lemma RestInOrder(collate: string -> real, forest: seq<Tree>, above: seq<string>, rows: seq<Row>)
    requires forest != [] && InOrder(collate, forest[1..], above, rows)
    requires Find(forest[1..], NameOf, forest[0].name) == None
    requires forall r :: r in rows ==> |above| < |r.parts|
    ensures InOrder(collate, forest, above, rows)
  {
    forall i, j | 0 <= i < j < |rows|
      ensures Comes(collate, forest, above, rows[i], rows[j])
    {
      assert rows[i] in rows && rows[j] in rows && Comes(collate, forest[1..], above, rows[i], rows[j]);
      var p, q := rows[i].parts[|above|..], rows[j].parts[|above|..];
      assert |p| > 0 && |q| > 0 && Precedes(collate, forest[1..], p, q);
      PrecedesInRest(collate, forest, p, q);
    }
  }

  lemma TreeBeforeRest(collate: string -> real, forest: seq<Tree>, above: seq<string>, head: seq<Row>, tail: seq<Row>)
    requires forest != [] && Sorted(forest, Order(collate)) && Find(forest[1..], NameOf, forest[0].name) == None
    requires InOrder(collate, forest, above, head) && InOrder(collate, forest, above, tail)
    requires forall r :: r in head ==> |above| < |r.parts| && r.parts[|above|] == forest[0].name
    requires forall r :: r in tail ==> |above| < |r.parts| && Find(forest[1..], NameOf, r.parts[|above|]).Some?
    ensures InOrder(collate, forest, above, head + tail)
  {
    var rows := head + tail;
    forall i, j | 0 <= i < j < |rows|
      ensures Comes(collate, forest, above, rows[i], rows[j])
    {
      if i < |head| <= j {
        assert rows[i] in head && rows[j] in tail;
        FirstBefore(collate, forest, rows[j].parts[|above|]);
      } else if j < |head| {
        assert rows[i] == head[i] && rows[j] == head[j];
      } else {
        assert rows[i] == tail[i - |head|] && rows[j] == tail[j - |head|];
      }
    }
  }

  lemma FirstBefore(collate: string -> real, forest: seq<Tree>, name: string)
    requires forest != [] && Sorted(forest, Order(collate)) && Find(forest[1..], NameOf, name).Some?
    ensures var t := Find(forest[1..], NameOf, name).value;
      Before(collate, forest[0].meta, forest[0].name, t.meta, t.name)
  {
    var t := Find(forest[1..], NameOf, name).value;
    var k :| 0 <= k < |forest[1..]| && forest[1..][k] == t;
    assert Order(collate)(forest[0], forest[k + 1]);
  }

  lemma PrecedesInRest(collate: string -> real, forest: seq<Tree>, p: seq<string>, q: seq<string>)
    requires forest != [] && p != [] && q != [] && Precedes(collate, forest[1..], p, q)
    requires Find(forest[1..], NameOf, forest[0].name) == None
    ensures Precedes(collate, forest, p, q)
  {
  }

  /** The walk is a preorder: each row's parent is the row before it or lies above that row. */
  ghost predicate Preorder(above: seq<string>, rows: seq<Row>) {
    && (rows != [] ==> |rows[0].parts| == |above| + 1 && above <= rows[0].parts)
    && (forall i :: 0 < i < |rows| ==> Follows(above, rows[i - 1], rows[i]))
  }

  predicate Follows(above: seq<string>, before: Row, r: Row) {
    |r.parts| > |above| && above <= r.parts && r.parts[..|r.parts| - 1] <= before.parts
  }

  lemma PreorderAppend(above: seq<string>, head: seq<Row>, tail: seq<Row>)
    requires head != [] && Preorder(above, head) && Preorder(above, tail)
    ensures Preorder(above, head + tail)
  {
    var rows := head + tail;
    forall i | 0 < i < |rows| ensures Follows(above, rows[i - 1], rows[i]) {
      if i < |head| {
        assert Follows(above, head[i - 1], head[i]);
      } else if i == |head| {
        assert rows[i] == tail[0] && rows[i - 1] == head[i - 1];
        assert i > 1 ==> Follows(above, head[i - 2], head[i - 1]);
        assert tail[0].parts[..|tail[0].parts| - 1] == above;
      } else {
        assert Follows(above, tail[i - |head| - 1], tail[i - |head|]);
        assert rows[i] == tail[i - |head|] && rows[i - 1] == tail[i - |head| - 1];
      }
    }
  }

  /** A node goes before the rows below it. */
  lemma PreorderBelow(above: seq<string>, row: Row, below: seq<Row>)
    requires |row.parts| == |above| + 1 && above <= row.parts && Preorder(row.parts, below)
    ensures Preorder(above, [row] + below)
  {
    var rows := [row] + below;
    forall i | 0 < i < |rows| ensures Follows(above, rows[i - 1], rows[i]) {
      assert rows[i] == below[i - 1];
      if i > 1 {
        assert Follows(row.parts, below[i - 2], below[i - 1]) && rows[i - 1] == below[i - 2];
      } else {
        assert below[0].parts[..|below[0].parts| - 1] == row.parts;
      }
    }
  }

  lemma {:induction false} WalkPreorder(forest: seq<Tree>, above: seq<string>, collapsed: set<string>, depth: nat)
    requires WellFormed(forest, above)
    ensures Preorder(above, Walk(forest, collapsed, depth))
    decreases forest
  {
    if forest != [] {
      var t := forest[0];
      var row := Row(t.parts, t.meta, depth, Closed(t.meta, t.parts, collapsed));
      WalkPreorder(t.children, t.parts, collapsed, depth + 1);
      WalkPreorder(forest[1..], above, collapsed, depth);
      var below := Walk(t.children, collapsed, depth + 1);
      PreorderBelow(above, row, if Open(t.meta, t.parts, collapsed) then below else []);
      PreorderAppend(above, WalkTree(t, collapsed, depth), Walk(forest[1..], collapsed, depth));
    }
  }

  // ---- the listing ----

  /** Which rows are listed: exactly those of the paths at or above a file whose ancestors are
      all directories that are not collapsed, with what the files say of them. */
  lemma ListingRows(collate: string -> real, files: seq<Entry>, collapsed: set<string>, r: Row)
    ensures r in Flatten(collate, files, collapsed) <==> RowOf(files, collapsed, r.parts) == Some(r)
  {
    var sorted := SortForest(collate, Build(files));
    BuildInfo(files, [""]);
    SortChildrenOrders(collate, Build(files), []);
    TopWalk(sorted, collapsed, r);
    if r.parts != [] { SaidRow(collate, files, collapsed, r.parts); }
  }

  lemma TopWalk(forest: seq<Tree>, collapsed: set<string>, r: Row)
    requires WellFormed(forest, [])
    ensures r in Walk(forest, collapsed, 0) <==> r.parts != [] && RowFor(forest, [], r.parts, collapsed) == Some(r)
  {
    WalkRows(forest, [], collapsed);
    assert r.parts[0..] == r.parts;
  }

  lemma SaidRow(collate: string -> real, files: seq<Entry>, collapsed: set<string>, p: seq<string>)
    requires p != []
    ensures RowFor(SortForest(collate, Build(files)), [], p, collapsed) == RowOf(files, collapsed, p)
  {
    var sorted := SortForest(collate, Build(files));
    SaidBySorted(collate, files, p);
    VisibleIsOpenAbove(collate, files, collapsed, p);
    TopRow(sorted, p, collapsed);
  }

  lemma TopRow(forest: seq<Tree>, p: seq<string>, collapsed: set<string>)
    requires p != []
    ensures RowFor(forest, [], p, collapsed) ==
      if Info(forest, p).Some? && OpenAbove(forest, [], p, collapsed) then
        Some(Row(p, Info(forest, p).value, |p| - 1, Closed(Info(forest, p).value, p, collapsed)))
      else None
  {
    RowForMeaning(forest, [], p, collapsed);
    assert [] + p == p;
  }

  lemma VisibleIsOpenAbove(collate: string -> real, files: seq<Entry>, collapsed: set<string>, p: seq<string>)
    ensures OpenAbove(SortForest(collate, Build(files)), [], p, collapsed) <==> Visible(files, p, collapsed)
  {
    var sorted := SortForest(collate, Build(files));
    forall n | 0 < n < |p| ensures OpenIn(sorted, [], p[..n], collapsed) <==> OpenAt(files, p[..n], collapsed) {
      SaidBySorted(collate, files, p[..n]);
      assert [] + p[..n] == p[..n];
    }
  }

  lemma SaidBySorted(collate: string -> real, files: seq<Entry>, p: seq<string>)
    requires p != []
    ensures Info(SortForest(collate, Build(files)), p) == Said(files, p)
  {
    BuildInfo(files, p);
    SortInfo(collate, Build(files), [], p);
  }

  /** The order of the listing in terms of the files. */
  predicate Earlier(collate: string -> real, files: seq<Entry>, above: seq<string>, p: seq<string>, q: seq<string>)
    decreases |p|
  {
    if p == [] then true
    else if q == [] then false
    else
      var s, t := Said(files, above + [p[0]]), Said(files, above + [q[0]]);
      s.Some? && t.Some? &&
      if p[0] == q[0] then Earlier(collate, files, above + [p[0]], p[1..], q[1..])
      else Before(collate, s.value, p[0], t.value, q[0])
  }

  /** The forest says below `above` what the files say. */
  ghost predicate Agrees(files: seq<Entry>, forest: seq<Tree>, above: seq<string>) {
    forall p :: p != [] ==> Info(forest, p) == Said(files, above + p)
  }

  lemma AgreesBelow(files: seq<Entry>, forest: seq<Tree>, above: seq<string>, name: string)
    requires Agrees(files, forest, above) && Find(forest, NameOf, name).Some?
    ensures Agrees(files, Find(forest, NameOf, name).value.children, above + [name])
  {
    forall p | p != [] ensures Info(Find(forest, NameOf, name).value.children, p) == Said(files, above + [name] + p) {
      assert ([name] + p)[1..] == p;
      assert Info(forest, [name] + p) == Said(files, above + ([name] + p));
      assert above + ([name] + p) == above + [name] + p;
    }
  }

  lemma {:induction false} PrecedesIsEarlier(
    collate: string -> real, files: seq<Entry>, forest: seq<Tree>, above: seq<string>, p: seq<string>,
    q: seq<string>)
    requires Agrees(files, forest, above)
    ensures Precedes(collate, forest, p, q) <==> Earlier(collate, files, above, p, q)
    decreases |p|
  {
    if p != [] && q != [] {
      assert Info(forest, [p[0]]) == Said(files, above + [p[0]]);
      assert Info(forest, [q[0]]) == Said(files, above + [q[0]]);
      if p[0] == q[0] && Find(forest, NameOf, p[0]).Some? {
        AgreesBelow(files, forest, above, p[0]);
        PrecedesIsEarlier(collate, files, Find(forest, NameOf, p[0]).value.children, above + [p[0]], p[1..], q[1..]);
      }
    }
  }

  /** Of two rows the first has another path, and comes earlier. */
  lemma ListingOrder(collate: string -> real, files: seq<Entry>, collapsed: set<string>, i: nat, j: nat)
    requires i < j < |Flatten(collate, files, collapsed)|
    ensures var rows := Flatten(collate, files, collapsed);
      rows[i].parts != rows[j].parts && Earlier(collate, files, [], rows[i].parts, rows[j].parts)
  {
    var sorted, rows := SortForest(collate, Build(files)), Flatten(collate, files, collapsed);
    BuildInfo(files, [""]);
    SortChildrenOrders(collate, Build(files), []);
    WalkInOrder(collate, sorted, [], collapsed);
    forall p: seq<string> | p != [] ensures Info(sorted, p) == Said(files, [] + p) {
      SaidBySorted(collate, files, p);
      assert [] + p == p;
    }
    assert rows[i].parts[0..] == rows[i].parts && rows[j].parts[0..] == rows[j].parts;
    PrecedesIsEarlier(collate, files, sorted, [], rows[i].parts, rows[j].parts);
  }

  /** Each row stands right below its parent or the parent's earlier rows. */
  lemma ListingPreorder(collate: string -> real, files: seq<Entry>, collapsed: set<string>)
    ensures Preorder([], Flatten(collate, files, collapsed))
  {
    BuildInfo(files, [""]);
    SortChildrenOrders(collate, Build(files), []);
    WalkPreorder(SortForest(collate, Build(files)), [], collapsed, 0);
  }

  lemma {:induction false} SaidIff(files: seq<Entry>, p: seq<string>)
    ensures Said(files, p).Some? <==> exists i :: 0 <= i < |files| && p <= Parts(files[i].path)
  {
    if files != [] {
      var init := files[..|files| - 1];
      SaidIff(init, p);
      assert forall i :: 0 <= i < |init| ==> init[i] == files[i];
    }
  }

  /** Nothing said to be a file has anything below it. */
  ghost predicate NothingBelowFiles(files: seq<Entry>) {
    forall p, q :: p != [] && p < q && Said(files, q).Some? ==> IsDirectory(files, p)
  }

  predicate IsDirectory(files: seq<Entry>, p: seq<string>) {
    Said(files, p).Some? && Said(files, p).value.kind == Directory
  }

  predicate Listed(collate: string -> real, files: seq<Entry>, collapsed: set<string>, p: seq<string>) {
    exists r :: r in Flatten(collate, files, collapsed) && r.parts == p
  }

  lemma ListedIff(collate: string -> real, files: seq<Entry>, collapsed: set<string>, p: seq<string>)
    ensures Listed(collate, files, collapsed, p) <==> p != [] && Said(files, p).Some? && Visible(files, p, collapsed)
  {
    if RowOf(files, collapsed, p).Some? { ListingRows(collate, files, collapsed, RowOf(files, collapsed, p).value); }
    if Listed(collate, files, collapsed, p) {
      var r :| r in Flatten(collate, files, collapsed) && r.parts == p;
      ListingRows(collate, files, collapsed, r);
    }
  }

  ghost predicate AllListed(collate: string -> real, files: seq<Entry>) {
    forall p :: p != [] && Said(files, p).Some? ==> Listed(collate, files, {}, p)
  }

  /** With no directory collapsed, every path at or above a file is listed iff nothing lies below
      a path said to be a file: a list of files where one is also a directory hides the rest. */
  lemma AllListedIff(collate: string -> real, files: seq<Entry>)
    ensures AllListed(collate, files) <==> NothingBelowFiles(files)
  {
    if NothingBelowFiles(files) {
      forall p | p != [] && Said(files, p).Some?
        ensures Listed(collate, files, {}, p)
      {
        OpenAllTheWay(collate, files, p);
      }
    }
    if AllListed(collate, files) {
      forall p, q | p != [] && p < q && Said(files, q).Some? ensures IsDirectory(files, p) {
        assert Listed(collate, files, {}, q);
        ListedIff(collate, files, {}, q);
        assert q[..|p|] == p && OpenAt(files, q[..|p|], {});
      }
    }
  }

  /** A name listed both as a file and as a directory: what lies in the directory is not shown,
      when the file comes first. */
  lemma FileHidesBelow(collate: string -> real, a: string, b: string, sizes: (Option<int>, Option<int>))
    requires Segment(a) && Segment(b)
    ensures var files := [Entry(Join([a]), Meta(File, sizes.0)), Entry(Join([a, b]), Meta(File, sizes.1))];
      && Said(files, [a, b]).Some?
      && !Listed(collate, files, {}, [a, b])
  {
    var files := [Entry(Join([a]), Meta(File, sizes.0)), Entry(Join([a, b]), Meta(File, sizes.1))];
    PartsOfJoin([a]);
    PartsOfJoin([a, b]);
    assert files[..1] == [files[0]] && [files[0]][..0] == [];
    assert Said(files[..1], [a]) == Some(Meta(File, sizes.0));
    assert Said(files[..1], [a, b]) == None;
    ListedIff(collate, files, {}, [a, b]);
    assert [a, b][..1] == [a] && !OpenAt(files, [a, b][..1], {});
  }

  lemma OpenAllTheWay(collate: string -> real, files: seq<Entry>, p: seq<string>)
    requires NothingBelowFiles(files) && p != [] && Said(files, p).Some?
    ensures Listed(collate, files, {}, p)
  {
    ListedIff(collate, files, {}, p);
    forall n | 0 < n < |p| ensures OpenAt(files, p[..n], {}) {
      assert p[..n] < p;
      assert IsDirectory(files, p[..n]);
    }
  }

  // ---- paths and toggling ----

  predicate Segment(p: string) { p != "" && forall i :: 0 <= i < |p| ==> p[i] != '/' && p[i] != '\\' }

  predicate Segments(parts: seq<string>) { forall i :: 0 <= i < |parts| ==> Segment(parts[i]) }

  lemma {:induction false} SlashesPlain(s: string)
    requires forall i :: 0 <= i < |s| ==> s[i] != '\\'
    ensures Slashes(s) == s
  {
    if s != "" { SlashesPlain(s[1..]); }
  }

  lemma {:induction false} SplitSegment(a: string, rest: string)
    requires forall i :: 0 <= i < |a| ==> a[i] != '/'
    ensures Split(a) == [a]
    ensures Split(a + ("/" + rest)) == [a] + Split(rest)
  {
    var s := a + ("/" + rest);
    if a == "" {
      assert s == "/" + rest && s[1..] == rest;
    } else {
      SplitSegment(a[1..], rest);
      assert s[1..] == a[1..] + ("/" + rest);
      assert a == [a[0]] + a[1..];
    }
  }

  lemma {:induction false} JoinPlain(parts: seq<string>)
    requires Segments(parts)
    ensures forall i :: 0 <= i < |Join(parts)| ==> Join(parts)[i] != '\\'
    ensures parts != [] ==> Split(Join(parts)) == parts
  {
    if |parts| == 1 {
      SplitSegment(parts[0], "");
    } else if parts != [] {
      JoinPlain(parts[1..]);
      SplitSegment(parts[0], Join(parts[1..]));
    }
  }

  /** Splitting a joined path gives its segments back, so different paths have different names. */
  lemma PartsOfJoin(parts: seq<string>)
    requires Segments(parts) && parts != []
    ensures Parts(Join(parts)) == parts
  {
    JoinPlain(parts);
    SlashesPlain(Join(parts));
    FilterAll(parts, (p: string) => p != "");
  }

  lemma {:induction false} SplitPlain(s: string, i: nat)
    requires forall j :: 0 <= j < |s| ==> s[j] != '\\'
    requires i < |Split(s)|
    ensures forall j :: 0 <= j < |Split(s)[i]| ==> Split(s)[i][j] != '/' && Split(s)[i][j] != '\\'
  {
    if s != "" {
      var rest := Split(s[1..]);
      if s[0] == '/' {
        if i > 0 { SplitPlain(s[1..], i - 1); }
      } else {
        SplitPlain(s[1..], i);
      }
    }
  }

  lemma {:induction false} SlashesGone(s: string)
    ensures forall i :: 0 <= i < |Slashes(s)| ==> Slashes(s)[i] != '\\'
  {
    if s != "" { SlashesGone(s[1..]); }
  }

  lemma PartsAreSegments(path: string)
    ensures Segments(Parts(path))
  {
    var all := Split(Slashes(path));
    SlashesGone(path);
    forall i | 0 <= i < |Parts(path)| ensures Segment(Parts(path)[i]) {
      FilterMember(all, (p: string) => p != "", Parts(path)[i]);
      var k :| 0 <= k < |all| && all[k] == Parts(path)[i];
      SplitPlain(Slashes(path), k);
    }
  }

  /** togglePathInSet. */
  function Toggle(collapsed: set<string>, path: string): set<string> {
    if path in collapsed then collapsed - {path} else collapsed + {path}
  }

  /** Toggling twice changes nothing, and toggling a directory shows or hides only what lies
      strictly below it. */
  lemma ToggleTouchesBelow(
    collate: string -> real, files: seq<Entry>, collapsed: set<string>, d: seq<string>, p: seq<string>)
    requires Segments(d) && d != []
    ensures Toggle(Toggle(collapsed, Join(d)), Join(d)) == collapsed
    ensures !(d < p) ==>
      (Listed(collate, files, Toggle(collapsed, Join(d)), p) <==> Listed(collate, files, collapsed, p))
    ensures d < p ==> !(Listed(collate, files, Toggle(collapsed, Join(d)), p) && Listed(collate, files, collapsed, p))
  {
    var toggled := Toggle(collapsed, Join(d));
    ListedIff(collate, files, toggled, p);
    ListedIff(collate, files, collapsed, p);
    if p != [] && Said(files, p).Some? {
      SaidSegments(files, p);
      forall n | 0 < n < |p| && p[..n] != d
        ensures OpenAt(files, p[..n], toggled) <==> OpenAt(files, p[..n], collapsed)
      {
        PartsOfJoin(p[..n]);
        PartsOfJoin(d);
      }
      if d < p {
        assert p[..|d|] == d;
        assert !(OpenAt(files, p[..|d|], toggled) && OpenAt(files, p[..|d|], collapsed));
      } else {
        assert forall n :: 0 < n < |p| ==> p[..n] != d;
      }
    }
  }

  lemma SaidSegments(files: seq<Entry>, p: seq<string>)
    requires Said(files, p).Some?
    ensures Segments(p)
  {
    SaidIff(files, p);
    var i :| 0 <= i < |files| && p <= Parts(files[i].path);
    PartsAreSegments(files[i].path);
  }

  // ---- the code ----

  method FlattenFileTree(
    collate: string -> real, files: seq<Entry>, collapsed: set<string>) returns (flattened: seq<Row>)
    ensures flattened == Flatten(collate, files, collapsed)
  {
    var root := [];
    for i := 0 to |files|
      invariant root == Build(files[..i])
    {
      assert files[..i + 1][..i] == files[..i];
      var parts := Parts(files[i].path);
      root := Insert(root, [], parts, files[i].meta);
    }
    assert files[..|files|] == files;
    flattened := WalkNodes(SortForest(collate, root), collapsed, 0);
  }

  method WalkNodes(nodes: seq<Tree>, collapsed: set<string>, depth: nat) returns (rows: seq<Row>)
    ensures rows == Walk(nodes, collapsed, depth)
    decreases nodes
  {
    rows := [];
    for i := 0 to |nodes|
      invariant rows + Walk(nodes[i..], collapsed, depth) == Walk(nodes, collapsed, depth)
    {
      var node := nodes[i];
      assert nodes[i..][0] == node && nodes[i..][1..] == nodes[i + 1..];
      var isCollapsed := node.meta.kind == Directory && Join(node.parts) in collapsed;
      var below := [];
      if node.meta.kind == Directory && !isCollapsed { below := WalkNodes(node.children, collapsed, depth + 1); }
      WalkStep(nodes, i, rows, collapsed, depth);
      rows := rows + ([Row(node.parts, node.meta, depth, isCollapsed)] + below);
    }
  }

  lemma WalkStep(nodes: seq<Tree>, i: nat, rows: seq<Row>, collapsed: set<string>, depth: nat)
    requires i < |nodes|
    ensures rows + Walk(nodes[i..], collapsed, depth)
      == (rows + WalkTree(nodes[i], collapsed, depth)) + Walk(nodes[i + 1..], collapsed, depth)
  {
    assert nodes[i..][0] == nodes[i] && nodes[i..][1..] == nodes[i + 1..];
  }
}
