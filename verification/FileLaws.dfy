/** What the file listing shows and in which order, told by the paths of the files. */
module FileLaws {
  import opened Sequences
  import opened KeyedLists
  import opened FileTree

  // ---- paths ----

  predicate Separator(c: char) { c == '/' || c == '\\' }

  lemma {:induction false} SlashesAppend(a: string, b: string)
    ensures Slashes(a + b) == Slashes(a) + Slashes(b)
  {
    if a == "" {
      assert a + b == b;
    } else {
      assert (a + b)[1..] == a[1..] + b;
      SlashesAppend(a[1..], b);
    }
  }

  lemma {:induction false} SplitAt(a: string, b: string)
    ensures Split(a + "/" + b) == Split(a) + Split(b)
  {
    if a == "" {
      assert a + "/" + b == "/" + b;
      assert ("/" + b)[1..] == b;
    } else {
      assert (a + "/" + b)[1..] == a[1..] + "/" + b;
      SplitAt(a[1..], b);
    }
  }

  /** A path falls apart at every slash and backslash, and empty pieces go. */
  lemma PartsAtSeparator(a: string, c: char, b: string)
    requires Separator(c)
    ensures Parts(a + [c] + b) == Parts(a) + Parts(b)
  {
    SlashesAppend(a + [c], b);
    SlashesAppend(a, [c]);
    assert Slashes([c]) == "/";
    SplitAt(Slashes(a), Slashes(b));
    FilterAppend(Split(Slashes(a)), Split(Slashes(b)), (p: string) => p != "");
  }

  lemma {:induction false} PlainPath(a: string)
    requires forall i :: 0 <= i < |a| ==> !Separator(a[i])
    ensures Slashes(a) == a && Split(a) == [a]
  {
    if a != "" { PlainPath(a[1..]); }
  }

  /** What has no separator is one piece, unless it is empty. */
  lemma PartsOfPiece(a: string)
    requires forall i :: 0 <= i < |a| ==> !Separator(a[i])
    ensures Parts(a) == if a == "" then [] else [a]
  {
    PlainPath(a);
    if a == "" {
      var none: seq<string> := [];
      FilterSkips(none, a, none, (p: string) => p != "");
      assert none + [a] + none == [a] && none + none == none;
    } else {
      FilterAll([a], (p: string) => p != "");
    }
  }

  /** A directory goes by its segments with slashes between them. */
  lemma {:induction false} PathOfDirectory(parts: seq<string>, name: string)
    ensures Join([]) == ""
    ensures Join(parts + [name]) == if parts == [] then name else Join(parts) + "/" + name
  {
    if |parts| == 1 {
      assert parts + [name] == [parts[0], name] && [parts[0], name][1..] == [name];
    } else if parts != [] {
      assert (parts + [name])[1..] == parts[1..] + [name];
      PathOfDirectory(parts[1..], name);
      assert parts[0] + ("/" + (Join(parts[1..]) + "/" + name)) == parts[0] + ("/" + Join(parts[1..])) + "/" + name;
    } else {
      assert parts + [name] == [name];
    }
  }

  // ---- what is listed ----

  /** The first file at or below the path. */
  ghost predicate Decides(files: seq<Entry>, i: int, p: seq<string>) {
    && 0 <= i < |files| && p <= Parts(files[i].path)
    && forall j :: 0 <= j < i ==> !(p <= Parts(files[j].path))
  }

  /** What that file makes of the path: itself, or a directory above it. */
  function MadeOf(file: Entry, p: seq<string>): Meta {
    if p == Parts(file.path) then file.meta else Meta(Directory, None)
  }

  lemma DecidesBefore(files: seq<Entry>, i: int, p: seq<string>)
    requires files != [] && i < |files| - 1
    ensures Decides(files, i, p) <==> Decides(files[..|files| - 1], i, p)
  {
    var init := files[..|files| - 1];
    assert forall j :: 0 <= j < |init| ==> init[j] == files[j];
  }

  lemma {:induction false} FirstFileSays(files: seq<Entry>, i: int, p: seq<string>)
    requires Decides(files, i, p)
    ensures Said(files, p) == Some(MadeOf(files[i], p))
  {
    var k := |files| - 1;
    if i < k {
      DecidesBefore(files, i, p);
      FirstFileSays(files[..k], i, p);
    } else {
      SaidIff(files[..k], p);
    }
  }

  lemma {:induction false} SomeFileDecides(files: seq<Entry>, p: seq<string>) returns (i: int)
    requires Said(files, p).Some?
    ensures Decides(files, i, p)
  {
    var k := |files| - 1;
    if Said(files[..k], p).Some? {
      i := SomeFileDecides(files[..k], p);
      DecidesBefore(files, i, p);
    } else {
      SaidIff(files[..k], p);
      assert forall j :: 0 <= j < k ==> files[..k][j] == files[j];
      i := k;
    }
  }

  /** That file makes the path what `meta` says. */
  ghost predicate Told(files: seq<Entry>, p: seq<string>, meta: Meta) {
    exists i :: Decides(files, i, p) && meta == MadeOf(files[i], p)
  }

  lemma ToldMeans(files: seq<Entry>, p: seq<string>, meta: Meta)
    ensures Told(files, p, meta) <==> Said(files, p) == Some(meta)
  {
    if Told(files, p, meta) {
      var i :| Decides(files, i, p) && meta == MadeOf(files[i], p);
      FirstFileSays(files, i, p);
    }
    if Said(files, p) == Some(meta) {
      var i := SomeFileDecides(files, p);
      FirstFileSays(files, i, p);
    }
  }

  /** The path is above some file, or one whose first mention is as a directory, and not collapsed. */
  ghost predicate OpenDirectory(files: seq<Entry>, p: seq<string>, collapsed: set<string>) {
    Join(p) !in collapsed && exists meta :: Told(files, p, meta) && meta.kind == Directory
  }

  lemma OpenMeans(files: seq<Entry>, p: seq<string>, collapsed: set<string>)
    ensures OpenDirectory(files, p, collapsed) <==> OpenAt(files, p, collapsed)
  {
    if OpenAt(files, p, collapsed) { ToldMeans(files, p, Said(files, p).value); }
    if OpenDirectory(files, p, collapsed) {
      var meta :| Told(files, p, meta) && meta.kind == Directory;
      ToldMeans(files, p, meta);
    }
  }

  /** Every directory on the way to the path is open. */
  ghost predicate Reached(files: seq<Entry>, p: seq<string>, collapsed: set<string>) {
    forall n :: 0 < n < |p| ==> OpenDirectory(files, p[..n], collapsed)
  }

  lemma ReachedMeans(files: seq<Entry>, p: seq<string>, collapsed: set<string>)
    ensures Reached(files, p, collapsed) <==> Visible(files, p, collapsed)
  {
    forall n | 0 < n < |p| ensures OpenDirectory(files, p[..n], collapsed) <==> OpenAt(files, p[..n], collapsed) {
      OpenMeans(files, p[..n], collapsed);
    }
  }

  lemma ClosedMeans(meta: Meta, parts: seq<string>, collapsed: set<string>)
    ensures Closed(meta, parts, collapsed) <==> meta.kind == Directory && Join(parts) in collapsed
  {
  }

  /** A row is listed iff some file lies at or below its path and every directory on the way is open;
      the first such file says what it is. A directory's row shows whether it is collapsed. */
  lemma RowListedIff(collate: string -> real, files: seq<Entry>, collapsed: set<string>, r: Row)
    ensures r in Flatten(collate, files, collapsed) <==>
      && r.parts != [] && r.depth == |r.parts| - 1
      && Told(files, r.parts, r.meta) && Reached(files, r.parts, collapsed)
      && (r.collapsed <==> r.meta.kind == Directory && Join(r.parts) in collapsed)
  {
    ListingRows(collate, files, collapsed, r);
    ClosedMeans(r.meta, r.parts, collapsed);
    ToldMeans(files, r.parts, r.meta);
    ReachedMeans(files, r.parts, collapsed);
  }

  // ---- the order ----

  ghost predicate IsFile(files: seq<Entry>, p: seq<string>) {
    exists meta :: Told(files, p, meta) && meta.kind == File
  }

  /** `k` is where the paths part. */
  predicate PartAt(p: seq<string>, q: seq<string>, k: nat) {
    k < |p| && k < |q| && p[..k] == q[..k] && p[k] != q[k]
  }

  /** Directories go before files, and otherwise names ascend. */
  ghost predicate GoesBefore(
    collate: string -> real, files: seq<Entry>, p: seq<string>, q: seq<string>, k: nat)
    requires k < |p| && k < |q|
  {
    || (!IsFile(files, p[..k + 1]) && IsFile(files, q[..k + 1]))
    || ((IsFile(files, p[..k + 1]) <==> IsFile(files, q[..k + 1])) && collate(p[k]) <= collate(q[k]))
  }

  lemma IsFileMeans(files: seq<Entry>, p: seq<string>)
    requires Said(files, p).Some?
    ensures IsFile(files, p) <==> Said(files, p).value.kind == File
  {
    ToldMeans(files, p, Said(files, p).value);
    if IsFile(files, p) {
      var meta :| Told(files, p, meta) && meta.kind == File;
      ToldMeans(files, p, meta);
    }
  }

  lemma BeforeMeans(collate: string -> real, a: Meta, m: string, b: Meta, n: string)
    ensures Before(collate, a, m, b, n) <==>
      || (a.kind == Directory && b.kind == File)
      || (a.kind == b.kind && collate(m) <= collate(n))
  {
  }

  lemma EarlierHere(
    collate: string -> real, files: seq<Entry>, above: seq<string>, p: seq<string>, q: seq<string>)
    requires p != [] && q != [] && p[0] != q[0] && Earlier(collate, files, above, p, q)
    ensures GoesBefore(collate, files, above + p, above + q, |above|)
  {
    var s, t := above + [p[0]], above + [q[0]];
    EarlierHead(collate, files, above, p, q);
    IsFileMeans(files, s);
    IsFileMeans(files, t);
    BeforeMeans(collate, Said(files, s).value, p[0], Said(files, t).value, q[0]);
    HeadOfPath(above, p);
    HeadOfPath(above, q);
    assert GoesBefore(collate, files, above + p, above + q, |above|);
  }

  lemma HeadOfPath(above: seq<string>, p: seq<string>)
    requires p != []
    ensures (above + p)[..|above| + 1] == above + [p[0]] && (above + p)[|above|] == p[0]
  {
  }

  lemma EarlierHead(
    collate: string -> real, files: seq<Entry>, above: seq<string>, p: seq<string>, q: seq<string>)
    requires p != [] && q != [] && p[0] != q[0] && Earlier(collate, files, above, p, q)
    ensures var s, t := Said(files, above + [p[0]]), Said(files, above + [q[0]]);
      s.Some? && t.Some? && Before(collate, s.value, p[0], t.value, q[0])
  {
  }

  /** The order of two paths is decided where they part. */
  lemma {:induction false} EarlierBelow(
    collate: string -> real, files: seq<Entry>, p: seq<string>, q: seq<string>, k: nat)
    requires k <= |p| && k <= |q| && p[..k] == q[..k] && Earlier(collate, files, [], p, q)
    ensures Earlier(collate, files, p[..k], p[k..], q[k..])
  {
    if k > 0 {
      assert p[..k - 1] == p[..k][..k - 1] == q[..k][..k - 1] == q[..k - 1];
      EarlierBelow(collate, files, p, q, k - 1);
      assert p[k - 1] == p[..k][k - 1] == q[..k][k - 1] == q[k - 1];
      assert p[..k - 1] + [p[k - 1]] == p[..k];
      assert p[k - 1..][1..] == p[k..] && q[k - 1..][1..] == q[k..];
    }
  }

  lemma {:induction false} ParentEarlier(
    collate: string -> real, files: seq<Entry>, above: seq<string>, p: seq<string>, q: seq<string>)
    requires Earlier(collate, files, above, p, q) && q <= p
    ensures p == q
    decreases |p|
  {
    if p != [] && q != [] {
      assert p[1..][..|q| - 1] == q[1..];
      ParentEarlier(collate, files, above + [p[0]], p[1..], q[1..]);
      assert p == [p[0]] + p[1..] && q == [q[0]] + q[1..];
    }
  }

  /** Of two rows the earlier is never below the later, and where their paths part the directory
      goes before the file and the lesser name before the greater. */
  lemma RowsInOrder(collate: string -> real, files: seq<Entry>, collapsed: set<string>, i: nat, j: nat)
    requires i < j < |Flatten(collate, files, collapsed)|
    ensures var p, q := Flatten(collate, files, collapsed)[i].parts, Flatten(collate, files, collapsed)[j].parts;
      !(q <= p) && forall k: nat :: PartAt(p, q, k) ==> GoesBefore(collate, files, p, q, k)
  {
    var p, q := Flatten(collate, files, collapsed)[i].parts, Flatten(collate, files, collapsed)[j].parts;
    ListingOrder(collate, files, collapsed, i, j);
    if q <= p { ParentEarlier(collate, files, [], p, q); }
    forall k: nat | PartAt(p, q, k) ensures GoesBefore(collate, files, p, q, k) {
      ForkInOrder(collate, files, p, q, k);
    }
  }

  lemma ForkInOrder(collate: string -> real, files: seq<Entry>, p: seq<string>, q: seq<string>, k: nat)
    requires PartAt(p, q, k) && Earlier(collate, files, [], p, q)
    ensures GoesBefore(collate, files, p, q, k)
  {
    EarlierBelow(collate, files, p, q, k);
    EarlierHere(collate, files, p[..k], p[k..], q[k..]);
    assert p[..k] + p[k..] == p && p[..k] + q[k..] == q;
  }

  /** Every row but the first stands below its parent or below something in it. */
  lemma RowFollowsParent(collate: string -> real, files: seq<Entry>, collapsed: set<string>, i: nat)
    requires i < |Flatten(collate, files, collapsed)|
    ensures var rows := Flatten(collate, files, collapsed); var parts := rows[i].parts;
      parts != [] && parts[..|parts| - 1] <= if i == 0 then [] else rows[i - 1].parts
  {
    ListingPreorder(collate, files, collapsed);
    var rows := Flatten(collate, files, collapsed);
    if i > 0 { assert Follows([], rows[i - 1], rows[i]); }
  }

  /** Toggling a path turns it alone. */
  lemma ToggleTurns(collapsed: set<string>, path: string, p: string)
    ensures p in Toggle(collapsed, path) <==> (p in collapsed) != (p == path)
  {
  }
}
