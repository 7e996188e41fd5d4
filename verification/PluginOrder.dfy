/** orderPlugins: a depth-first topological sort of the installed plugins. */
module PluginOrder {
  import opened Sequences
  import Text

  /** A plugin's manifest: its declared id and the ids it requires. */
  datatype Plugin = Plugin(declaredId: string, dependencies: seq<string>)

  datatype OrderError =
    | EmptyId
    | InstalledTwice(id: string)
    | NotInstalled(id: string)
    | DependencyCycle(id: string)

  datatype Result<+T> = Ok(value: T) | Err(error: OrderError)

  function IdOf(p: Plugin): string { Text.Trim(p.declaredId) }

  // ---- what the order must satisfy ----

  ghost predicate ProperIds(plugins: seq<Plugin>) {
    && (forall i :: 0 <= i < |plugins| ==> IdOf(plugins[i]) != "")
    && (forall i, j :: 0 <= i < j < |plugins| ==> IdOf(plugins[i]) != IdOf(plugins[j]))
  }

  ghost predicate Installed(plugins: seq<Plugin>, id: string) {
    exists p :: p in plugins && IdOf(p) == id
  }

  ghost predicate DependsOn(plugins: seq<Plugin>, id: string, dependency: string) {
    exists p :: p in plugins && IdOf(p) == id && dependency in p.dependencies
  }

  /** Every required plugin is installed. */
  ghost predicate Closed(plugins: seq<Plugin>) {
    forall p, d :: p in plugins && d in p.dependencies ==> Installed(plugins, d)
  }

  ghost predicate IsPath(plugins: seq<Plugin>, path: seq<string>) {
    forall k :: 0 <= k < |path| - 1 ==> DependsOn(plugins, path[k], path[k + 1])
  }

  ghost predicate IsCycle(plugins: seq<Plugin>, path: seq<string>) {
    |path| >= 2 && path[0] == path[|path| - 1] && IsPath(plugins, path)
  }

  ghost predicate OnCycle(plugins: seq<Plugin>, id: string) {
    exists path :: IsCycle(plugins, path) && path[0] == id
  }

  ghost predicate Acyclic(plugins: seq<Plugin>) {
    forall path :: !IsCycle(plugins, path)
  }

  /** Each plugin comes after every plugin it requires. */
  ghost predicate DependenciesFirst(order: seq<Plugin>) {
    forall i, d :: 0 <= i < |order| && d in order[i].dependencies ==> Installed(order[..i], d)
  }

  // ---- the index ----

  /** Plugin `k` is the first whose id is empty or already taken. */
  ghost predicate FirstBadId(plugins: seq<Plugin>, k: int, error: OrderError) {
    && 0 <= k < |plugins| && ProperIds(plugins[..k])
    && if IdOf(plugins[k]) == "" then error == EmptyId
       else error == InstalledTwice(IdOf(plugins[k])) && Installed(plugins[..k], IdOf(plugins[k]))
  }

  /** The first loop: ids must be non-empty and distinct. */
  method IndexById(plugins: seq<Plugin>) returns (r: Result<map<string, Plugin>>)
    ensures r.Ok? ==> ProperIds(plugins) && Indexes(plugins, r.value)
    ensures r.Err? ==> exists k :: FirstBadId(plugins, k, r.error)
  {
    var byId: map<string, Plugin> := map[];
    for i := 0 to |plugins|
      invariant ProperIds(plugins[..i]) && Indexes(plugins[..i], byId)
    {
      var id := IdOf(plugins[i]);
      if id == "" {
        assert FirstBadId(plugins, i, EmptyId);
        return Err(EmptyId);
      }
      if id in byId {
        assert FirstBadId(plugins, i, InstalledTwice(id)) by { assert byId[id] in plugins[..i]; }
        return Err(InstalledTwice(id));
      }
      byId := byId[id := plugins[i]];
      IndexExtends(plugins, i, byId);
    }
    assert plugins[..|plugins|] == plugins;
    return Ok(byId);
  }

  /** `byId` maps exactly the ids of the plugins to the plugins. */
  ghost predicate Indexes(plugins: seq<Plugin>, byId: map<string, Plugin>) {
    && (forall p :: p in plugins ==> IdOf(p) in byId && byId[IdOf(p)] == p)
    && (forall id :: id in byId ==> byId[id] in plugins && IdOf(byId[id]) == id)
  }

  lemma IndexExtends(plugins: seq<Plugin>, i: nat, byId: map<string, Plugin>)
    requires i < |plugins| && IdOf(plugins[i]) in byId && IdOf(plugins[i]) != ""
    requires ProperIds(plugins[..i]) && byId[IdOf(plugins[i])] == plugins[i]
    requires Indexes(plugins[..i], byId - {IdOf(plugins[i])})
    ensures ProperIds(plugins[..i + 1]) && Indexes(plugins[..i + 1], byId)
  {
    assert plugins[..i + 1] == plugins[..i] + [plugins[i]];
    var rest := byId - {IdOf(plugins[i])};
    forall j | 0 <= j < i ensures IdOf(plugins[j]) != IdOf(plugins[i]) {
      assert plugins[..i][j] in plugins[..i];
    }
    forall p | p in plugins[..i + 1] ensures IdOf(p) in byId && byId[IdOf(p)] == p {
      assert p in plugins[..i] ==> IdOf(p) in rest;
    }
    forall id | id in byId ensures byId[id] in plugins[..i + 1] && IdOf(byId[id]) == id {
      assert id != IdOf(plugins[i]) ==> id in rest;
    }
  }

  // ---- the visit ----

  /** The variables the recursive visit updates. */
  class Visitor {
    const plugins: seq<Plugin>
    const byId: map<string, Plugin>
    var visiting: set<string>
    var visited: set<string>
    var ordered: seq<Plugin>

    constructor (plugins: seq<Plugin>, byId: map<string, Plugin>)
      requires Indexes(plugins, byId)
      ensures Valid() && visiting == {} && visited == {} && ordered == []
      ensures this.plugins == plugins && this.byId == byId
    {
      this.plugins, this.byId := plugins, byId;
      visiting, visited, ordered := {}, {}, [];
    }

    /** The ordered plugins are the visited ones, each once, dependencies first. */
    ghost predicate Valid()
      reads this
    {
      && Indexes(plugins, byId)
      && visiting !! visited
      && visiting + visited <= byId.Keys
      && (forall p :: p in ordered ==> IdOf(p) in visited && byId[IdOf(p)] == p)
      && (forall id :: id in visited ==> byId[id] in ordered)
      && Distinct(ordered)
      && DependenciesFirst(ordered)
    }

    /** The plugins being visited form a chain of requirements that ends in `id`. */
    ghost predicate Chain(path: seq<string>, id: string)
      reads this
    {
      && (forall x :: x in visiting <==> x in path)
      && IsPath(plugins, path + [id])
    }

    ghost predicate Explains(error: OrderError, id: string, path: seq<string>)
      reads this
    {
      match error
      case NotInstalled(missing) =>
        missing !in byId && ((path == [] && missing == id) || (exists p :: p in plugins && missing in p.dependencies))
      case DependencyCycle(on) => OnCycle(plugins, on)
      case _ => false
    }

    method Visit(id: string, ghost path: seq<string>) returns (r: Result<()>)
      requires Valid() && Chain(path, id)
      modifies this
      ensures r.Err? ==> Explains(r.error, id, path)
      ensures r.Ok? ==> Valid() && visiting == old(visiting) && id in visited
      ensures r.Ok? ==> old(visited) <= visited && old(ordered) <= ordered
      ensures id in old(visited) ==> r.Ok? && visited == old(visited) && ordered == old(ordered)
      ensures Ready(id, old(visited), old(visiting)) ==>
        r.Ok? && visited == old(visited) + {id} && ordered == old(ordered) + [byId[id]]
      decreases byId.Keys - visiting, 0
    {
      if id in visited { return Ok(()); }
      if id in visiting {
        ClosesCycle(path, id);
        return Err(DependencyCycle(id));
      }
      if id !in byId {
        if path != [] {
          assert DependsOn(plugins, (path + [id])[|path| - 1], (path + [id])[|path|]);
        }
        return Err(NotInstalled(id));
      }
      visiting := visiting + {id};
      r := VisitDependencies(id, path);
      if r.Ok? { Finish(id); }
    }

    method VisitDependencies(id: string, ghost path: seq<string>) returns (r: Result<()>)
      requires Valid() && id in visiting && IsPath(plugins, path + [id])
      requires forall x :: x in visiting <==> x in path + [id]
      modifies this
      ensures r.Err? ==> Explains(r.error, id, path + [id])
      ensures r.Ok? ==> Valid() && visiting == old(visiting) && old(visited) <= visited && old(ordered) <= ordered
      ensures r.Ok? ==> forall d :: d in byId[id].dependencies ==> d in visited
      ensures (forall d :: d in byId[id].dependencies ==> d in old(visited)) ==>
        r.Ok? && visited == old(visited) && ordered == old(ordered)
      decreases byId.Keys - visiting, 1
    {
      var dependencies := byId[id].dependencies;
      for i := 0 to |dependencies|
        invariant Valid() && visiting == old(visiting)
        invariant old(visited) <= visited && old(ordered) <= ordered
        invariant forall j :: 0 <= j < i ==> dependencies[j] in visited
        invariant (forall d :: d in dependencies ==> d in old(visited)) ==>
          visited == old(visited) && ordered == old(ordered)
      {
        ChainExtends(path, id, dependencies[i]);
        r := Visit(dependencies[i], path + [id]);
        if r.Err? { return; }
      }
      return Ok(());
    }

    method Finish(id: string)
      requires Valid() && id in visiting
      requires forall d :: d in byId[id].dependencies ==> d in visited
      modifies this
      ensures Valid() && visiting == old(visiting) - {id} && visited == old(visited) + {id}
      ensures ordered == old(ordered) + [byId[id]]
    {
      Completes(byId[id]);
      visiting := visiting - {id};
      visited := visited + {id};
      ordered := ordered + [byId[id]];
    }

    /** Nothing stands in the way of `id`: it is new and its requirements are done. */
    predicate Ready(id: string, done: set<string>, open: set<string>) {
      id in byId && id !in done && id !in open && forall d :: d in byId[id].dependencies ==> d in done
    }

    lemma ClosesCycle(path: seq<string>, id: string)
      requires Chain(path, id) && id in visiting
      ensures OnCycle(plugins, id)
    {
      var k :| 0 <= k < |path| && path[k] == id;
      var cycle := path[k..] + [id];
      forall j | 0 <= j < |cycle| - 1 ensures DependsOn(plugins, cycle[j], cycle[j + 1]) {
        assert cycle[j] == (path + [id])[k + j] && cycle[j + 1] == (path + [id])[k + j + 1];
      }
      assert IsCycle(plugins, cycle);
    }

    lemma ChainExtends(path: seq<string>, id: string, dependency: string)
      requires Indexes(plugins, byId) && id in byId && dependency in byId[id].dependencies
      requires IsPath(plugins, path + [id])
      ensures IsPath(plugins, (path + [id]) + [dependency])
    {
      var longer := (path + [id]) + [dependency];
      forall k | 0 <= k < |longer| - 1 ensures DependsOn(plugins, longer[k], longer[k + 1]) {
        if k < |path| { assert DependsOn(plugins, (path + [id])[k], (path + [id])[k + 1]); }
      }
    }

    lemma Completes(plugin: Plugin)
      requires Valid() && IdOf(plugin) in byId && byId[IdOf(plugin)] == plugin
      requires IdOf(plugin) !in visited
      requires forall d :: d in plugin.dependencies ==> d in visited
      ensures Distinct(ordered + [plugin]) && DependenciesFirst(ordered + [plugin])
    {
      var longer := ordered + [plugin];
      forall i, d | 0 <= i < |longer| && d in longer[i].dependencies ensures Installed(longer[..i], d) {
        if i < |ordered| {
          assert longer[..i] == ordered[..i];
        } else {
          assert longer[..i] == ordered;
          assert byId[d] in ordered;
        }
      }
    }
  }

  // ---- the theorems ----

  /** In an order with dependencies first, positions go down along a path. */
  lemma {:induction false} PathDescends(order: seq<Plugin>, path: seq<string>, i: nat) returns (j: nat)
    requires DependenciesFirst(order) && ProperIds(order) && path != [] && IsPath(order, path)
    requires i < |order| && IdOf(order[i]) == path[0]
    ensures j < |order| && IdOf(order[j]) == path[|path| - 1] && j + |path| - 1 <= i
    decreases |path|
  {
    if |path| == 1 {
      j := i;
    } else {
      assert DependsOn(order, path[0], path[1]);
      var p :| p in order && IdOf(p) == path[0] && path[1] in p.dependencies;
      var q :| q in order[..i] && IdOf(q) == path[1];
      var k :| 0 <= k < i && order[k] == q;
      forall n | 0 <= n < |path[1..]| - 1 ensures DependsOn(order, path[1..][n], path[1..][n + 1]) {
        assert DependsOn(order, path[n + 1], path[n + 2]);
      }
      j := PathDescends(order, path[1..], k);
    }
  }

  lemma OrderedIsAcyclic(order: seq<Plugin>)
    requires DependenciesFirst(order) && ProperIds(order)
    ensures Acyclic(order) && Closed(order)
  {
    forall path ensures !IsCycle(order, path) {
      if |path| >= 2 && IsPath(order, path) {
        assert DependsOn(order, path[0], path[1]);
        var p :| p in order && IdOf(p) == path[0];
        var i :| 0 <= i < |order| && order[i] == p;
        var j := PathDescends(order, path, i);
        assert j < i;
      }
    }
    forall p, d | p in order && d in p.dependencies ensures Installed(order, d) {
      var i :| 0 <= i < |order| && order[i] == p;
      var q :| q in order[..i] && IdOf(q) == d;
      assert q in order;
    }
  }

  /** The properties of the graph do not depend on the order in which plugins are listed. */
  lemma SameGraph(plugins: seq<Plugin>, order: seq<Plugin>)
    requires forall p :: p in plugins <==> p in order
    ensures Closed(plugins) <==> Closed(order)
    ensures Acyclic(plugins) <==> Acyclic(order)
  {
    forall a, b ensures DependsOn(plugins, a, b) <==> DependsOn(order, a, b) {}
    forall path ensures IsCycle(plugins, path) <==> IsCycle(order, path) {}
    forall d ensures Installed(plugins, d) <==> Installed(order, d) {}
  }

  lemma ProperIdsDistinct(plugins: seq<Plugin>)
    requires ProperIds(plugins)
    ensures Distinct(plugins)
    ensures forall i, j :: 0 <= i < |plugins| && 0 <= j < |plugins| && IdOf(plugins[i]) == IdOf(plugins[j]) ==> i == j
  {
  }

  lemma ProperIdsTransfer(plugins: seq<Plugin>, order: seq<Plugin>)
    requires ProperIds(plugins) && Distinct(order)
    requires forall p :: p in order ==> p in plugins
    ensures ProperIds(order)
  {
    ProperIdsDistinct(plugins);
    forall i | 0 <= i < |order| ensures IdOf(order[i]) != "" { assert order[i] in order; }
    forall i, j | 0 <= i < j < |order| ensures IdOf(order[i]) != IdOf(order[j]) {
      assert order[i] in order && order[j] in order;
      var x :| 0 <= x < |plugins| && plugins[x] == order[i];
      var y :| 0 <= y < |plugins| && plugins[y] == order[j];
      assert x != y;
    }
  }

  /** Two lists without repetition and with the same members are permutations. */
  lemma SameMembersPermute<T>(xs: seq<T>, ys: seq<T>)
    requires Distinct(xs) && Distinct(ys)
    requires forall x :: x in xs <==> x in ys
    ensures multiset(xs) == multiset(ys)
  {
    DistinctCounts(xs);
    DistinctCounts(ys);
    forall x ensures multiset(xs)[x] == multiset(ys)[x] {
      assert x in xs <==> x in multiset(xs);
      assert x in ys <==> x in multiset(ys);
    }
  }

  /** A list that a correct order can be made from. */
  ghost predicate Orderable(plugins: seq<Plugin>) {
    ProperIds(plugins) && Closed(plugins) && Acyclic(plugins)
  }

  /** What each error says about the list. */
  ghost predicate Justified(plugins: seq<Plugin>, error: OrderError) {
    match error
    case EmptyId => exists k :: FirstBadId(plugins, k, error)
    case InstalledTwice(id) => exists k :: FirstBadId(plugins, k, error)
    case NotInstalled(id) =>
      ProperIds(plugins) && !Installed(plugins, id) && exists p :: p in plugins && id in p.dependencies
    case DependencyCycle(id) => ProperIds(plugins) && OnCycle(plugins, id)
  }

  /** The first `i` plugins, and no others, have been visited, in the order given. */
  ghost predicate InGivenOrder(plugins: seq<Plugin>, i: nat, ordered: seq<Plugin>, visited: set<string>)
    requires i <= |plugins|
  {
    ordered == plugins[..i] && forall id :: id in visited <==> Installed(plugins[..i], id)
  }

  lemma JustifiedIsUnorderable(plugins: seq<Plugin>, error: OrderError)
    requires Justified(plugins, error)
    ensures !Orderable(plugins)
  {
    if error.EmptyId? || error.InstalledTwice? {
      var k :| FirstBadId(plugins, k, error);
      if IdOf(plugins[k]) != "" {
        var p :| p in plugins[..k] && IdOf(p) == IdOf(plugins[k]);
        var j :| 0 <= j < k && plugins[..k][j] == p;
      }
    }
  }

  /** orderPlugins succeeds exactly on the orderable lists; it returns every plugin once with
      its requirements before it, leaves a list that is already in order alone, and each error
      it reports is real. */
  method OrderPlugins(plugins: seq<Plugin>) returns (r: Result<seq<Plugin>>)
    ensures r.Ok? <==> Orderable(plugins)
    ensures r.Ok? ==> multiset(r.value) == multiset(plugins) && DependenciesFirst(r.value)
    ensures r.Err? ==> Justified(plugins, r.error)
    ensures ProperIds(plugins) && DependenciesFirst(plugins) ==> r == Ok(plugins)
  {
    var index := IndexById(plugins);
    if index.Err? {
      JustifiedIsUnorderable(plugins, index.error);
      return Err(index.error);
    }
    var v := new Visitor(plugins, index.value);
    var visits := VisitAll(plugins, v);
    if visits.Err? {
      JustifiedIsUnorderable(plugins, visits.error);
      return Err(visits.error);
    }
    OrderIsRight(plugins, v);
    assert plugins[..|plugins|] == plugins;
    return Ok(v.ordered);
  }

  /** The last loop: visit the plugins in the order they were installed. */
  method VisitAll(plugins: seq<Plugin>, v: Visitor) returns (r: Result<()>)
    requires ProperIds(plugins) && v.Valid() && v.plugins == plugins
    requires v.visiting == {} && v.visited == {} && v.ordered == []
    modifies v
    ensures r.Err? ==> Justified(plugins, r.error)
    ensures r.Ok? ==> v.Valid() && forall j :: 0 <= j < |plugins| ==> IdOf(plugins[j]) in v.visited
    ensures DependenciesFirst(plugins) ==> r.Ok? && InGivenOrder(plugins, |plugins|, v.ordered, v.visited)
  {
    ghost var inOrder := DependenciesFirst(plugins);
    NoneVisited(plugins);
    for i := 0 to |plugins|
      invariant v.Valid() && v.visiting == {}
      invariant forall j :: 0 <= j < i ==> IdOf(plugins[j]) in v.visited
      invariant inOrder ==> InGivenOrder(plugins, i, v.ordered, v.visited)
    {
      r := VisitNext(plugins, i, v);
      if r.Err? { return; }
    }
    return Ok(());
  }

  lemma NoneVisited(plugins: seq<Plugin>)
    ensures InGivenOrder(plugins, 0, [], {})
  {
  }

  method VisitNext(plugins: seq<Plugin>, i: nat, v: Visitor) returns (r: Result<()>)
    requires ProperIds(plugins) && i < |plugins|
    requires v.Valid() && v.visiting == {} && v.plugins == plugins
    modifies v
    ensures r.Err? ==> Justified(plugins, r.error)
    ensures r.Ok? ==> v.Valid() && v.visiting == {} && old(v.visited) <= v.visited && IdOf(plugins[i]) in v.visited
    ensures DependenciesFirst(plugins) && old(InGivenOrder(plugins, i, v.ordered, v.visited)) ==>
      r.Ok? && InGivenOrder(plugins, i + 1, v.ordered, v.visited)
  {
    var id := IdOf(plugins[i]);
    assert plugins[i] in plugins;
    ghost var inOrder := DependenciesFirst(plugins) && InGivenOrder(plugins, i, v.ordered, v.visited);
    if inOrder { NextIsReady(plugins, i, v); }
    r := v.Visit(id, []);
    if r.Err? { ErrorIsReal(plugins, v.byId, r.error, v, id); }
    if inOrder { GivenOrderExtends(plugins, i, old(v.ordered), old(v.visited)); }
  }

  lemma GivenOrderExtends(plugins: seq<Plugin>, i: nat, ordered: seq<Plugin>, visited: set<string>)
    requires i < |plugins| && InGivenOrder(plugins, i, ordered, visited)
    ensures InGivenOrder(plugins, i + 1, ordered + [plugins[i]], visited + {IdOf(plugins[i])})
  {
    assert plugins[..i + 1] == plugins[..i] + [plugins[i]];
    forall id ensures Installed(plugins[..i + 1], id) <==> Installed(plugins[..i], id) || id == IdOf(plugins[i]) {
      if Installed(plugins[..i], id) {
        var p :| p in plugins[..i] && IdOf(p) == id;
        assert p in plugins[..i + 1];
      }
      assert plugins[i] in plugins[..i + 1];
    }
  }

  lemma NextIsReady(plugins: seq<Plugin>, i: nat, v: Visitor)
    requires ProperIds(plugins) && Indexes(plugins, v.byId) && i < |plugins| && DependenciesFirst(plugins)
    requires InGivenOrder(plugins, i, v.ordered, v.visited)
    ensures v.Ready(IdOf(plugins[i]), v.visited, {})
  {
    assert plugins[i] in plugins;
    assert v.byId[IdOf(plugins[i])] == plugins[i];
    forall p | p in plugins[..i] ensures IdOf(p) != IdOf(plugins[i]) {
      var k :| 0 <= k < i && plugins[..i][k] == p;
    }
  }

  lemma ErrorIsReal(plugins: seq<Plugin>, byId: map<string, Plugin>, error: OrderError, v: Visitor, id: string)
    requires ProperIds(plugins) && Indexes(plugins, byId) && v.plugins == plugins && v.byId == byId
    requires id in byId && v.Explains(error, id, [])
    ensures Justified(plugins, error)
  {
    if error.NotInstalled? {
      forall p | p in plugins ensures IdOf(p) != error.id {
        assert IdOf(p) in byId;
      }
      var p :| p in plugins && error.id in p.dependencies;
    }
  }

  lemma OrderIsRight(plugins: seq<Plugin>, v: Visitor)
    requires ProperIds(plugins) && v.Valid() && v.plugins == plugins
    requires forall j :: 0 <= j < |plugins| ==> IdOf(plugins[j]) in v.visited
    ensures Orderable(plugins) && multiset(v.ordered) == multiset(plugins)
  {
    forall p ensures p in plugins <==> p in v.ordered {
      if p in plugins {
        var j :| 0 <= j < |plugins| && plugins[j] == p;
        assert v.byId[IdOf(p)] in v.ordered;
      }
    }
    ProperIdsDistinct(plugins);
    SameMembersPermute(v.ordered, plugins);
    ProperIdsTransfer(plugins, v.ordered);
    OrderedIsAcyclic(v.ordered);
    SameGraph(plugins, v.ordered);
  }
}
