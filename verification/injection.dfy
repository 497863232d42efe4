/** Dependency injection end to end: the reordering of a route's declared dependencies
    (`src/lib.rs`, `src/dependency.rs`) and the loop that runs the factories
    (`src/dispatch.rs`). */
module Injection {
  import opened Text
  import opened Names
  import opened Dependency

  /** A Python object, callable or exception, known only by identity. */
  type Py = nat
  type PyErr = nat
  type PyResult = Result<Py, PyErr>
  type Kwargs = map<string, Py>

  /** What Python does when called back: a call, awaiting the result of an async callable, and
      turning a database query object into its rows (other objects are returned as they are). */
  datatype Callbacks = Callbacks(
    call: (Py, Kwargs) -> PyResult,
    awaitResult: Py -> PyResult,
    runQuery: Py -> PyResult)

  datatype DependencyEntry = DependencyEntry(
    name: Name,
    factory: Py,
    isAsync: bool,
    wantsRequest: bool,
    factoryParams: set<Name>,
    factoryVarkw: bool)

  datatype ScheduleError = DuplicateName | DependencyCycle

  function NamesOf(entries: seq<DependencyEntry>): set<Name> {
    set e | e in entries :: e.name
  }

  ghost predicate UniqueNames(entries: seq<DependencyEntry>) {
    forall i, j | 0 <= i < j < |entries| :: entries[i].name != entries[j].name
  }

  /** The declared graph: an edge from each declared prerequisite that is itself an entry. */
  ghost function GraphOf(entries: seq<DependencyEntry>): (g: Graph)
    ensures g.Valid()
  {
    Graph(NamesOf(entries),
          map p | p in NamesOf(entries) :: set e | e in entries && p in e.factoryParams :: e.name)
  }

  /** Some entry named `d` declares a parameter `p` that is one of `names`. */
  ghost predicate Declares(entries: seq<DependencyEntry>, names: set<Name>, p: Name, d: Name) {
    p in names && exists e :: e in entries && e.name == d && p in e.factoryParams
  }

  lemma EdgesAreDeclarations(entries: seq<DependencyEntry>, p: Name, d: Name)
    ensures GraphOf(entries).Edge(p, d) <==> Declares(entries, NamesOf(entries), p, d)
  {}

  lemma GraphByEdges(g: Graph, entries: seq<DependencyEntry>)
    requires g.Valid() && g.nodes == NamesOf(entries)
    requires forall p, d :: g.Edge(p, d) <==> Declares(entries, NamesOf(entries), p, d)
    ensures g == GraphOf(entries)
  {
    forall p | p in g.nodes ensures g.adj[p] == GraphOf(entries).adj[p] {
      forall d ensures d in g.adj[p] <==> d in GraphOf(entries).adj[p] {
        assert g.Edge(p, d) <==> Declares(entries, NamesOf(entries), p, d);
        EdgesAreDeclarations(entries, p, d);
      }
    }
  }

  lemma DeclaresExtends(front: seq<DependencyEntry>, e: DependencyEntry, names: set<Name>, p: Name, d: Name)
    ensures Declares(front + [e], names, p, d) <==>
            Declares(front, names, p, d) || (d == e.name && p in e.factoryParams * names)
  {
    if d == e.name && p in e.factoryParams * names {
      assert (front + [e])[|front|] == e;
    }
    if Declares(front, names, p, d) {
      var x :| x in front && x.name == d && p in x.factoryParams;
      assert x in front + [e];
    }
  }

  lemma NamesExtend(front: seq<DependencyEntry>, e: DependencyEntry)
    ensures NamesOf(front + [e]) == NamesOf(front) + {e.name}
  {
    assert (front + [e])[|front|] == e;
    forall x | x in front ensures x in front + [e] {}
  }

  /** One edge for every declared parameter that is the name of an entry. */
  method AddPrerequisites(graph: DependencyGraph, entry: DependencyEntry, nameSet: set<Name>)
    requires graph.Contents().Valid() && graph.nodes == nameSet && entry.name in nameSet
    modifies graph
    ensures graph.Contents().Valid() && graph.nodes == nameSet
    ensures forall p, d :: graph.Contents().Edge(p, d) <==>
                           old(graph.Contents()).Edge(p, d)
                           || (d == entry.name && p in entry.factoryParams * nameSet)
  {
    ghost var before := graph.Contents();
    var params := entry.factoryParams;
    while params != {}
      invariant graph.Contents().Valid()
      invariant params <= entry.factoryParams && graph.nodes == nameSet
      invariant forall p, d :: graph.Contents().Edge(p, d) <==>
                               before.Edge(p, d)
                               || (d == entry.name && p in (entry.factoryParams - params) * nameSet)
      decreases |params|
    {
      var param :| param in params;
      if param in nameSet {
        graph.AddEdge(param, entry.name);
      }
      params := params - {param};
    }
  }

  /** `build_graph_from_entries`. */
  method BuildGraphFromEntries(entries: seq<DependencyEntry>) returns (graph: DependencyGraph)
    ensures fresh(graph) && graph.Contents() == GraphOf(entries)
  {
    graph := new DependencyGraph();
    var nameSet := NamesOf(entries);
    for i := 0 to |entries|
      invariant fresh(graph) && graph.Contents().Valid()
      invariant graph.nodes == NamesOf(entries[..i])
      invariant forall p, d :: !graph.Contents().Edge(p, d)
    {
      graph.EnsureNode(entries[i].name);
      assert entries[..i + 1] == entries[..i] + [entries[i]];
      NamesExtend(entries[..i], entries[i]);
    }
    assert entries[..|entries|] == entries;
    for i := 0 to |entries|
      invariant fresh(graph) && graph.Contents().Valid()
      invariant graph.nodes == nameSet
      invariant forall p, d :: graph.Contents().Edge(p, d) <==> Declares(entries[..i], nameSet, p, d)
    {
      assert entries[i].name in nameSet;
      AddPrerequisites(graph, entries[i], nameSet);
      assert entries[..i + 1] == entries[..i] + [entries[i]];
      forall p, d ensures graph.Contents().Edge(p, d) <==> Declares(entries[..i + 1], nameSet, p, d) {
        DeclaresExtends(entries[..i], entries[i], nameSet, p, d);
      }
    }
    GraphByEdges(graph.Contents(), entries);
  }

  ghost function EntryNamed(entries: seq<DependencyEntry>, n: Name): (e: DependencyEntry)
    requires n in NamesOf(entries)
    ensures e in entries && e.name == n
  {
    var e :| e in entries && e.name == n;
    e
  }

  ghost function InOrder(entries: seq<DependencyEntry>, order: seq<Name>): (r: seq<DependencyEntry>)
    requires Elements(order) <= NamesOf(entries)
    ensures |r| == |order| && forall i | 0 <= i < |r| :: r[i] in entries && r[i].name == order[i]
  {
    seq(|order|, i requires 0 <= i < |order| =>
      assert order[i] in Elements(order);
      EntryNamed(entries, order[i]))
  }

  /** The entries in the order in which their factories will run. */
  ghost function Schedule(entries: seq<DependencyEntry>): Result<seq<DependencyEntry>, ScheduleError> {
    if !UniqueNames(entries) then Err(DuplicateName) else
      match KahnOrder(GraphOf(entries))
      case Err(_) => Err(DependencyCycle)
      case Ok(order) =>
        SortIsTopological(GraphOf(entries));
        Ok(InOrder(entries, order))
  }

  lemma EntryIsUnique(entries: seq<DependencyEntry>, a: DependencyEntry, b: DependencyEntry)
    requires UniqueNames(entries) && a in entries && b in entries && a.name == b.name
    ensures a == b
  {}

  /** The duplicate check of `parse_dependencies`. */
  method CheckNames(entries: seq<DependencyEntry>) returns (unique: bool)
    ensures unique <==> UniqueNames(entries)
  {
    var names: set<Name> := {};
    for i := 0 to |entries|
      invariant names == NamesOf(entries[..i])
      invariant UniqueNames(entries[..i])
    {
      if entries[i].name in names {
        var k :| 0 <= k < i && entries[..i][k].name == entries[i].name;
        assert entries[k].name == entries[i].name;
        return false;
      }
      forall k | 0 <= k < i ensures entries[k].name != entries[i].name {
        assert entries[..i][k] in entries[..i];
      }
      names := names + {entries[i].name};
      assert entries[..i + 1] == entries[..i] + [entries[i]];
      NamesExtend(entries[..i], entries[i]);
    }
    assert entries[..|entries|] == entries;
    return true;
  }

  method IndexByName(entries: seq<DependencyEntry>) returns (depMap: map<Name, DependencyEntry>)
    ensures depMap.Keys == NamesOf(entries)
    ensures forall n | n in depMap :: depMap[n] in entries && depMap[n].name == n
  {
    depMap := map[];
    for i := 0 to |entries|
      invariant depMap.Keys == NamesOf(entries[..i])
      invariant forall n | n in depMap :: depMap[n] in entries && depMap[n].name == n
    {
      depMap := depMap[entries[i].name := entries[i]];
      assert entries[..i + 1] == entries[..i] + [entries[i]];
      NamesExtend(entries[..i], entries[i]);
    }
    assert entries[..|entries|] == entries;
  }

  /** Take the entries out of the index in the given order. */
  method TakeInOrder(entries: seq<DependencyEntry>, order: seq<Name>) returns (out: seq<DependencyEntry>)
    requires UniqueNames(entries) && Distinct(order) && Elements(order) == NamesOf(entries)
    ensures out == InOrder(entries, order)
  {
    var depMap := IndexByName(entries);
    ghost var goal := InOrder(entries, order);
    forall j | 0 <= j < |order| ensures order[j] in depMap && depMap[order[j]] == goal[j] {
      assert order[j] in Elements(order);
      EntryIsUnique(entries, depMap[order[j]], goal[j]);
    }
    out := [];
    for i := 0 to |order|
      invariant out == goal[..i]
      invariant forall j | i <= j < |order| :: order[j] in depMap && depMap[order[j]] == goal[j]
    {
      if order[i] in depMap {
        out := out + [depMap[order[i]]];
        depMap := map n | n in depMap && n != order[i] :: depMap[n];
      }
    }
  }

  /** The reordering of `add_route`. */
  method ReorderDependencies(entries: seq<DependencyEntry>) returns (r: Result<seq<DependencyEntry>, ScheduleError>)
    ensures r == Schedule(entries)
  {
    var unique := CheckNames(entries);
    if !unique {
      return Err(DuplicateName);
    }
    var graph := BuildGraphFromEntries(entries);
    var sorted := graph.TopologicalSort();
    if sorted.Err? {
      return Err(DependencyCycle);
    }
    SortIsTopological(GraphOf(entries));
    var out := TakeInOrder(entries, sorted.value);
    return Ok(out);
  }

  // ---- What the schedule promises --------------------------------------------------------

  /** Registration fails exactly on a duplicated name or a cyclic declaration. */
  lemma ScheduleFailsExactly(entries: seq<DependencyEntry>)
    ensures Schedule(entries) == Err(DuplicateName) <==> !UniqueNames(entries)
    ensures Schedule(entries) == Err(DependencyCycle) <==>
            UniqueNames(entries) && GraphOf(entries).Cyclic()
  {
    SortFailsExactlyOnCycles(GraphOf(entries));
  }

  lemma InOrderHoldsAll(entries: seq<DependencyEntry>, order: seq<Name>)
    requires UniqueNames(entries) && Distinct(order) && Elements(order) == NamesOf(entries)
    ensures Elements(InOrder(entries, order)) == Elements(entries)
    ensures UniqueNames(InOrder(entries, order))
  {
    var deps := InOrder(entries, order);
    forall e | e in entries ensures e in deps {
      assert e.name in Elements(order);
      var i :| 0 <= i < |order| && order[i] == e.name;
      EntryIsUnique(entries, e, deps[i]);
    }
  }

  /** The names of the entries, in order. */
  function NameList(entries: seq<DependencyEntry>): seq<Name> {
    seq(|entries|, i requires 0 <= i < |entries| => entries[i].name)
  }

  /** At every point of the schedule, of all entries whose prerequisites have been scheduled, the next
      one is that which goes first. */
  lemma ScheduleIsDetermined(entries: seq<DependencyEntry>, i: nat)
    requires Schedule(entries).Ok? && i < |Schedule(entries).value|
    ensures ChosenAt(GraphOf(entries), NameList(Schedule(entries).value), i)
  {
    var order := KahnOrder(GraphOf(entries)).value;
    SortIsTopological(GraphOf(entries));
    assert NameList(InOrder(entries, order)) == order;
    OrderIsDetermined(GraphOf(entries), i);
  }

  /** A schedule holds every declared entry, and each declared prerequisite comes earlier. */
  lemma PrerequisitesComeFirst(entries: seq<DependencyEntry>)
    requires Schedule(entries).Ok?
    ensures var deps := Schedule(entries).value;
            && Elements(deps) == Elements(entries) && UniqueNames(deps)
            && (forall i, p | 0 <= i < |deps| && p in deps[i].factoryParams * NamesOf(entries) ::
                  p in NamesOf(deps[..i]))
  {
    var g := GraphOf(entries);
    SortIsTopological(g);
    var order := KahnOrder(g).value;
    var deps := Schedule(entries).value;
    InOrderHoldsAll(entries, order);
    forall i, p | 0 <= i < |deps| && p in deps[i].factoryParams * NamesOf(entries)
      ensures p in NamesOf(deps[..i])
    {
      EdgesAreDeclarations(entries, p, order[i]);
      assert p in Elements(order);
      var j :| 0 <= j < |order| && order[j] == p;
      assert j < i;
      assert deps[..i][j].name == p;
    }
  }

  lemma SameEntriesSameGraph(a: seq<DependencyEntry>, b: seq<DependencyEntry>)
    requires Elements(a) == Elements(b)
    ensures GraphOf(a) == GraphOf(b)
  {
    assert forall e :: e in a <==> e in Elements(a);
    assert forall e :: e in b <==> e in Elements(b);
    assert NamesOf(a) == NamesOf(b);
    GraphByEdges(GraphOf(a), b);
  }

  lemma PermutedNames(a: seq<DependencyEntry>, b: seq<DependencyEntry>)
    requires multiset(a) == multiset(b) && UniqueNames(a)
    ensures UniqueNames(b)
  {
    forall i, j | 0 <= i < j < |b| ensures b[i].name != b[j].name {
      assert b[i] in multiset(b) && b[j] in multiset(b);
      if b[i] == b[j] {
        Repeated(b, i, j);
      }
      NotRepeated(a, b[i]);
    }
  }

  lemma {:induction false} NotRepeated(s: seq<DependencyEntry>, e: DependencyEntry)
    requires UniqueNames(s)
    ensures multiset(s)[e] <= 1
  {
    if s != [] {
      NotRepeated(s[1..], e);
      assert s == [s[0]] + s[1..];
      assert s[0] !in s[1..];
    }
  }

  lemma Repeated<T>(s: seq<T>, i: nat, j: nat)
    requires i < j < |s| && s[i] == s[j]
    ensures multiset(s)[s[i]] >= 2
  {
    assert s == s[..i] + [s[i]] + s[i + 1..j] + [s[j]] + s[j + 1..];
  }

  /** The schedule, and with it everything a handler receives, is the same for every
      permutation of the declared list. */
  lemma ScheduleIgnoresDeclarationOrder(a: seq<DependencyEntry>, b: seq<DependencyEntry>)
    requires multiset(a) == multiset(b)
    ensures Schedule(a) == Schedule(b)
  {
    assert Elements(a) == Elements(b) by {
      forall e ensures e in a <==> e in b {
        assert e in multiset(a) <==> e in multiset(b);
      }
    }
    SameEntriesSameGraph(a, b);
    if UniqueNames(a) {
      PermutedNames(a, b);
      if KahnOrder(GraphOf(a)).Ok? {
        SortIsTopological(GraphOf(a));
        SameLookup(a, b, KahnOrder(GraphOf(a)).value);
      }
    } else if UniqueNames(b) {
      PermutedNames(b, a);
    }
  }

  lemma SameLookup(a: seq<DependencyEntry>, b: seq<DependencyEntry>, order: seq<Name>)
    requires UniqueNames(a) && Elements(a) == Elements(b)
    requires Elements(order) <= NamesOf(a) && Elements(order) <= NamesOf(b)
    ensures InOrder(a, order) == InOrder(b, order)
  {
    var da, db := InOrder(a, order), InOrder(b, order);
    forall i | 0 <= i < |order| ensures da[i] == db[i] {
      assert db[i] in Elements(b);
      assert db[i] in a;
      EntryIsUnique(a, da[i], db[i]);
    }
  }

  // ---- Running the factories -------------------------------------------------------------

  /** Call a factory, await it when it is a coroutine function, and resolve a query. */
  function Invoke(w: Callbacks, dep: DependencyEntry, kw: Kwargs): PyResult {
    match w.call(dep.factory, kw)
    case Err(e) => Err(e)
    case Ok(made) =>
      match if dep.isAsync then w.awaitResult(made) else Ok(made)
      case Err(e) => Err(e)
      case Ok(o) => w.runQuery(o)
  }

  function RequestKwarg(dep: DependencyEntry, request: Py): Kwargs {
    if dep.wantsRequest then map["request" := request] else map[]
  }

  predicate Passes(dep: DependencyEntry, n: Name) {
    dep.factoryVarkw || n in dep.factoryParams
  }

  /** Keyword arguments of `dep` after looking at the first `j` earlier results. */
  ghost function KwargsUpTo(dep: DependencyEntry, deps: seq<DependencyEntry>, outs: seq<Py>, request: Py,
                            j: nat): Kwargs
    requires j <= |outs| <= |deps|
  {
    if j == 0 then RequestKwarg(dep, request) else
      var kw := KwargsUpTo(dep, deps, outs, request, j - 1);
      if Passes(dep, deps[j - 1].name) then kw[deps[j - 1].name := outs[j - 1]] else kw
  }

  /** Keyword arguments of the factory at position `|outs|`, the results so far being `outs`. */
  ghost function ArgsAt(deps: seq<DependencyEntry>, outs: seq<Py>, request: Py): Kwargs
    requires |outs| < |deps|
  {
    KwargsUpTo(deps[|outs|], deps, outs, request, |outs|)
  }

  /** Run the factories from position `|outs|` on; the first failure is final. */
  ghost function Run(w: Callbacks, deps: seq<DependencyEntry>, request: Py, outs: seq<Py>): Result<seq<Py>, PyErr>
    requires |outs| <= |deps|
    decreases |deps| - |outs|
  {
    if |outs| == |deps| then Ok(outs) else
      match Invoke(w, deps[|outs|], ArgsAt(deps, outs, request))
      case Err(e) => Err(e)
      case Ok(o) => Run(w, deps, request, outs + [o])
  }

  /** The keyword dictionary of the factory at position `|depOut|`. */
  method FactoryKwargs(dependencies: seq<DependencyEntry>, depOut: seq<Py>, request: Py) returns (kw: Kwargs)
    requires |depOut| < |dependencies|
    ensures kw == ArgsAt(dependencies, depOut, request)
  {
    var dep := dependencies[|depOut|];
    kw := RequestKwarg(dep, request);
    for j := 0 to |depOut|
      invariant kw == KwargsUpTo(dep, dependencies, depOut, request, j)
    {
      var name := dependencies[j].name;
      if dep.factoryVarkw || name in dep.factoryParams {
        kw := kw[name := depOut[j]];
      }
    }
  }

  /** The dependency loop of `run_rsgi`: `request` is the context object built beforehand for
      the factories that want it. */
  method ResolveDependencies(w: Callbacks, dependencies: seq<DependencyEntry>, request: Py)
    returns (r: Result<seq<Py>, PyErr>)
    ensures r == Run(w, dependencies, request, [])
  {
    var depOut: seq<Py> := [];
    for i := 0 to |dependencies|
      invariant |depOut| == i
      invariant Run(w, dependencies, request, depOut) == Run(w, dependencies, request, [])
    {
      var kw := FactoryKwargs(dependencies, depOut, request);
      var o := Invoke(w, dependencies[i], kw);
      if o.Err? {
        return Err(o.error);
      }
      depOut := depOut + [o.value];
    }
    return Ok(depOut);
  }

  // ---- The recursive meaning of a set of dependencies ---------------------------------------

  /** What the factory at `i` is given: its declared prerequisites, or everything that precedes
      it when it takes arbitrary keywords. */
  ghost function InputsAt(deps: seq<DependencyEntry>, i: nat): set<Name>
    requires i < |deps|
  {
    if deps[i].factoryVarkw then NamesOf(deps[..i]) else deps[i].factoryParams * NamesOf(deps)
  }

  /** A dependency graph ready for evaluation: an entry and its inputs for every name. */
  datatype Dag = Dag(entries: map<Name, DependencyEntry>, inputs: map<Name, set<Name>>) {
    ghost predicate Valid() {
      entries.Keys == inputs.Keys
    }
  }

  ghost function DagOf(deps: seq<DependencyEntry>): (d: Dag)
    requires UniqueNames(deps)
    ensures d.Valid()
  {
    Dag(map i | 0 <= i < |deps| :: deps[i].name := deps[i],
        map i | 0 <= i < |deps| :: deps[i].name := InputsAt(deps, i))
  }

  /** Why a name has no value: its own factory raised, or it could not be called. */
  datatype Failure = Raised(e: PyErr) | NotCalled

  function Outcome(r: PyResult): Result<Py, Failure> {
    match r
    case Ok(v) => Ok(v)
    case Err(e) => Err(Raised(e))
  }

  /** Evaluate `name` by first evaluating its inputs, recursively and without any schedule;
      `seen` holds the names being evaluated, so that a cycle has no value. */
  ghost function Demand(w: Callbacks, d: Dag, request: Py, name: Name, seen: set<Name>): Result<Py, Failure>
    requires d.Valid()
    decreases |d.entries.Keys - seen|
  {
    if name !in d.entries || name in seen then Err(NotCalled) else
      match DemandArgs(w, d, request, name, seen)
      case None => Err(NotCalled)
      case Some(kw) => Outcome(Invoke(w, d.entries[name], kw))
  }

  ghost function DemandArgs(w: Callbacks, d: Dag, request: Py, name: Name, seen: set<Name>): Option<Kwargs>
    requires d.Valid() && name in d.entries && name !in seen
    decreases |d.entries.Keys - seen|, 0
  {
    assert d.entries.Keys - (seen + {name}) < d.entries.Keys - seen;
    SubsetSize(d.entries.Keys - (seen + {name}), d.entries.Keys - seen);
    if exists p | p in d.inputs[name] :: Demand(w, d, request, p, seen + {name}).Err? then None else
      Some(RequestKwarg(d.entries[name], request)
           + map p | p in d.inputs[name] :: Demand(w, d, request, p, seen + {name}).value)
  }

  ghost function ValueOf(w: Callbacks, deps: seq<DependencyEntry>, request: Py, i: nat): Result<Py, Failure>
    requires UniqueNames(deps) && i < |deps|
  {
    Demand(w, DagOf(deps), request, deps[i].name, {})
  }

  /** Every declared prerequisite of an entry is among the earlier ones. */
  ghost predicate Ordered(deps: seq<DependencyEntry>) {
    && UniqueNames(deps)
    && (forall i, p | 0 <= i < |deps| && p in deps[i].factoryParams * NamesOf(deps) ::
          p in NamesOf(deps[..i]))
  }

  /** `out` is the recursive value of the entry at `j`, whatever later name is being
      evaluated. */
  ghost predicate HasValue(w: Callbacks, deps: seq<DependencyEntry>, request: Py, j: nat, out: Py)
    requires UniqueNames(deps) && j < |deps|
  {
    forall seen | seen !! NamesOf(deps[..j + 1]) ::
      Demand(w, DagOf(deps), request, deps[j].name, seen) == Ok(out)
  }

  ghost predicate Agree(w: Callbacks, deps: seq<DependencyEntry>, request: Py, outs: seq<Py>)
    requires UniqueNames(deps) && |outs| <= |deps|
  {
    forall j | 0 <= j < |outs| :: HasValue(w, deps, request, j, outs[j])
  }

  lemma PrefixNames(deps: seq<DependencyEntry>, k: nat, i: nat)
    requires UniqueNames(deps) && k < i < |deps|
    ensures NamesOf(deps[..k + 1]) <= NamesOf(deps[..i + 1])
    ensures deps[i].name !in NamesOf(deps[..k + 1])
    ensures deps[k].name in NamesOf(deps[..i])
  {
    assert deps[..i][k] == deps[k];
    var front := deps[..k + 1];
    forall e | e in front ensures e in deps[..i + 1] {
      var j :| 0 <= j < |front| && front[j] == e;
      assert deps[..i + 1][j] == e;
    }
  }

  /** The inputs of an entry are the earlier entries it lets pass. */
  lemma InputsComeEarlier(deps: seq<DependencyEntry>, i: nat)
    requires Ordered(deps) && i < |deps|
    ensures InputsAt(deps, i) == set k | 0 <= k < i && Passes(deps[i], deps[k].name) :: deps[k].name
  {
    forall p | p in InputsAt(deps, i)
      ensures exists k :: 0 <= k < i && Passes(deps[i], deps[k].name) && deps[k].name == p
    {
      assert p in NamesOf(deps[..i]);
      var k :| 0 <= k < i && deps[..i][k].name == p;
      assert Passes(deps[i], deps[k].name);
    }
    forall k | 0 <= k < i && Passes(deps[i], deps[k].name)
      ensures deps[k].name in InputsAt(deps, i)
    {
      assert deps[k] in deps;
      assert deps[..i][k] == deps[k];
    }
  }

  lemma ArgumentValues(w: Callbacks, deps: seq<DependencyEntry>, request: Py, outs: seq<Py>, seen: set<Name>, k: nat)
    requires UniqueNames(deps) && k < |outs| < |deps| && Agree(w, deps, request, outs)
    requires seen !! NamesOf(deps[..|outs| + 1])
    ensures Demand(w, DagOf(deps), request, deps[k].name, seen + {deps[|outs|].name}) == Ok(outs[k])
  {
    PrefixNames(deps, k, |outs|);
    assert HasValue(w, deps, request, k, outs[k]);
    StillDisjoint(seen, deps[|outs|].name, NamesOf(deps[..k + 1]), NamesOf(deps[..|outs| + 1]));
    ValueFor(w, deps, request, k, outs[k], seen + {deps[|outs|].name});
  }

  lemma ValueFor(w: Callbacks, deps: seq<DependencyEntry>, request: Py, j: nat, out: Py, seen: set<Name>)
    requires UniqueNames(deps) && j < |deps| && HasValue(w, deps, request, j, out)
    requires seen !! NamesOf(deps[..j + 1])
    ensures Demand(w, DagOf(deps), request, deps[j].name, seen) == Ok(out)
  {}

  lemma StillDisjoint(seen: set<Name>, x: Name, small: set<Name>, large: set<Name>)
    requires seen !! large && small <= large && x !in small
    ensures seen + {x} !! small
  {}

  /** The loop hands a factory exactly the arguments recursion would compute for it. */
  lemma SameArguments(w: Callbacks, deps: seq<DependencyEntry>, request: Py, outs: seq<Py>, seen: set<Name>)
    requires Ordered(deps) && |outs| < |deps| && Agree(w, deps, request, outs)
    requires seen !! NamesOf(deps[..|outs| + 1])
    ensures deps[|outs|].name !in seen
    ensures DemandArgs(w, DagOf(deps), request, deps[|outs|].name, seen) == Some(ArgsAt(deps, outs, request))
  {
    var i := |outs|;
    var d, name := DagOf(deps), deps[i].name;
    assert deps[..i + 1][i].name == name;
    assert d.entries[name] == deps[i] && d.inputs[name] == InputsAt(deps, i);
    InputsComeEarlier(deps, i);
    forall k | 0 <= k < i
      ensures Demand(w, d, request, deps[k].name, seen + {name}) == Ok(outs[k])
    {
      ArgumentValues(w, deps, request, outs, seen, k);
    }
    SameMaps(w, deps, request, outs, seen);
  }

  lemma SameMaps(w: Callbacks, deps: seq<DependencyEntry>, request: Py, outs: seq<Py>, seen: set<Name>)
    requires UniqueNames(deps) && |outs| < |deps| && deps[|outs|].name !in seen
    requires DagOf(deps).entries[deps[|outs|].name] == deps[|outs|]
    requires DagOf(deps).inputs[deps[|outs|].name]
             == set k | 0 <= k < |outs| && Passes(deps[|outs|], deps[k].name) :: deps[k].name
    requires forall k | 0 <= k < |outs| ::
               Demand(w, DagOf(deps), request, deps[k].name, seen + {deps[|outs|].name}) == Ok(outs[k])
    ensures DemandArgs(w, DagOf(deps), request, deps[|outs|].name, seen) == Some(ArgsAt(deps, outs, request))
  {
    var dep := deps[|outs|];
    PassedIsDemanded(w, deps, request, outs, seen);
    DemandedValues(w, DagOf(deps), request, dep.name, seen, Passed(dep, deps, outs, |outs|));
    KwargsOverRequest(dep, deps, outs, request, |outs|);
  }

  lemma PassedIsDemanded(w: Callbacks, deps: seq<DependencyEntry>, request: Py, outs: seq<Py>, seen: set<Name>)
    requires UniqueNames(deps) && |outs| < |deps|
    requires forall k | 0 <= k < |outs| ::
               Demand(w, DagOf(deps), request, deps[k].name, seen + {deps[|outs|].name}) == Ok(outs[k])
    ensures var dep := deps[|outs|];
            var passed := Passed(dep, deps, outs, |outs|);
            && passed.Keys == (set k | 0 <= k < |outs| && Passes(dep, deps[k].name) :: deps[k].name)
            && forall n | n in passed :: Demand(w, DagOf(deps), request, n, seen + {dep.name}) == Ok(passed[n])
  {
    PassedByKey(deps[|outs|], deps, outs, |outs|);
  }

  /** If `values` holds the recursive value of every input of `name`, it is what `name` gets. */
  lemma DemandedValues(w: Callbacks, d: Dag, request: Py, name: Name, seen: set<Name>, values: Kwargs)
    requires d.Valid() && name in d.entries && name !in seen
    requires values.Keys == d.inputs[name]
    requires forall n | n in values :: Demand(w, d, request, n, seen + {name}) == Ok(values[n])
    ensures DemandArgs(w, d, request, name, seen) == Some(RequestKwarg(d.entries[name], request) + values)
  {
    var demanded: Kwargs := map p | p in d.inputs[name] :: Demand(w, d, request, p, seen + {name}).value;
    SameEntries(demanded, values);
  }

  lemma SameEntries(a: Kwargs, b: Kwargs)
    requires a.Keys == b.Keys && forall n | n in a :: a[n] == b[n]
    ensures a == b
  {}

  ghost function Passed(dep: DependencyEntry, deps: seq<DependencyEntry>, outs: seq<Py>, j: nat): Kwargs
    requires j <= |outs| <= |deps|
  {
    if j == 0 then map[] else
      var kw := Passed(dep, deps, outs, j - 1);
      if Passes(dep, deps[j - 1].name) then kw[deps[j - 1].name := outs[j - 1]] else kw
  }

  lemma {:induction false} KwargsOverRequest(dep: DependencyEntry, deps: seq<DependencyEntry>, outs: seq<Py>,
                                             request: Py, j: nat)
    requires j <= |outs| <= |deps|
    ensures KwargsUpTo(dep, deps, outs, request, j) == RequestKwarg(dep, request) + Passed(dep, deps, outs, j)
  {
    if j > 0 {
      KwargsOverRequest(dep, deps, outs, request, j - 1);
    }
  }

  lemma {:induction false} PassedByKey(dep: DependencyEntry, deps: seq<DependencyEntry>, outs: seq<Py>, j: nat)
    requires UniqueNames(deps) && j <= |outs| <= |deps|
    ensures Passed(dep, deps, outs, j).Keys
            == set k | 0 <= k < j && Passes(dep, deps[k].name) :: deps[k].name
    ensures forall k | 0 <= k < j && Passes(dep, deps[k].name) ::
              Passed(dep, deps, outs, j)[deps[k].name] == outs[k]
  {
    if j > 0 {
      PassedByKey(dep, deps, outs, j - 1);
    }
  }

  /** The result of the factory at `|outs|` is the recursive outcome of that entry. */
  lemma StepAgrees(w: Callbacks, deps: seq<DependencyEntry>, request: Py, outs: seq<Py>)
    requires Ordered(deps) && |outs| < |deps| && Agree(w, deps, request, outs)
    ensures var o := Invoke(w, deps[|outs|], ArgsAt(deps, outs, request));
            && ValueOf(w, deps, request, |outs|) == Outcome(o)
            && (o.Ok? ==> HasValue(w, deps, request, |outs|, o.value))
  {
    var i := |outs|;
    var o := Invoke(w, deps[i], ArgsAt(deps, outs, request));
    assert DagOf(deps).entries[deps[i].name] == deps[i];
    forall seen | seen !! NamesOf(deps[..i + 1])
      ensures Demand(w, DagOf(deps), request, deps[i].name, seen) == Outcome(o)
    {
      SameArguments(w, deps, request, outs, seen);
    }
    assert {} !! NamesOf(deps[..i + 1]);
  }

  /** The entries before position `|done|` have the recursive values `done`, and evaluating the
      one at that position raises `e`. */
  ghost predicate FailsAt(w: Callbacks, deps: seq<DependencyEntry>, request: Py, done: seq<Py>, e: PyErr)
    requires UniqueNames(deps)
  {
    && |done| < |deps|
    && (forall j | 0 <= j < |done| :: ValueOf(w, deps, request, j) == Ok(done[j]))
    && ValueOf(w, deps, request, |done|) == Err(Raised(e))
  }

  lemma AgreedValues(w: Callbacks, deps: seq<DependencyEntry>, request: Py, outs: seq<Py>)
    requires UniqueNames(deps) && |outs| <= |deps| && Agree(w, deps, request, outs)
    ensures forall j | 0 <= j < |outs| :: ValueOf(w, deps, request, j) == Ok(outs[j])
  {
    forall j | 0 <= j < |outs| ensures ValueOf(w, deps, request, j) == Ok(outs[j]) {
      assert HasValue(w, deps, request, j, outs[j]);
      assert {} !! NamesOf(deps[..j + 1]);
    }
  }

  /** The recursive values of all entries. */
  ghost predicate AllValues(w: Callbacks, deps: seq<DependencyEntry>, request: Py, values: seq<Py>)
    requires UniqueNames(deps)
  {
    |values| == |deps| && forall j | 0 <= j < |deps| :: ValueOf(w, deps, request, j) == Ok(values[j])
  }

  ghost predicate Fails(w: Callbacks, deps: seq<DependencyEntry>, request: Py, e: PyErr)
    requires UniqueNames(deps)
  {
    exists done :: FailsAt(w, deps, request, done, e)
  }

  lemma {:induction false} RunAgrees(w: Callbacks, deps: seq<DependencyEntry>, request: Py, outs: seq<Py>)
    requires Ordered(deps) && |outs| <= |deps| && Agree(w, deps, request, outs)
    ensures var r := Run(w, deps, request, outs);
            if r.Ok? then AllValues(w, deps, request, r.value) else Fails(w, deps, request, r.error)
    decreases |deps| - |outs|
  {
    AgreedValues(w, deps, request, outs);
    if |outs| < |deps| {
      StepAgrees(w, deps, request, outs);
      match Invoke(w, deps[|outs|], ArgsAt(deps, outs, request)) {
        case Ok(o) =>
          AgreeExtends(w, deps, request, outs, o);
          RunAgrees(w, deps, request, outs + [o]);
        case Err(e) =>
          assert FailsAt(w, deps, request, outs, e);
      }
    }
  }

  lemma AgreeExtends(w: Callbacks, deps: seq<DependencyEntry>, request: Py, outs: seq<Py>, o: Py)
    requires UniqueNames(deps) && |outs| < |deps| && Agree(w, deps, request, outs)
    requires HasValue(w, deps, request, |outs|, o)
    ensures Agree(w, deps, request, outs + [o])
  {
    forall j | 0 <= j < |outs + [o]| ensures HasValue(w, deps, request, j, (outs + [o])[j]) {
      ValueInLonger(w, deps, request, outs, o, j);
    }
  }

  lemma ValueInLonger(w: Callbacks, deps: seq<DependencyEntry>, request: Py, outs: seq<Py>, o: Py, j: nat)
    requires UniqueNames(deps) && j <= |outs| < |deps|
    requires if j < |outs| then HasValue(w, deps, request, j, outs[j]) else HasValue(w, deps, request, j, o)
    ensures HasValue(w, deps, request, j, (outs + [o])[j])
  {
    assert (outs + [o])[j] == if j < |outs| then outs[j] else o;
  }

  lemma ScheduleIsOrdered(entries: seq<DependencyEntry>)
    requires Schedule(entries).Ok?
    ensures Ordered(Schedule(entries).value)
    ensures NamesOf(Schedule(entries).value) == NamesOf(entries)
  {
    PrerequisitesComeFirst(entries);
    var deps := Schedule(entries).value;
    assert forall e :: e in deps <==> e in Elements(deps);
    assert forall e :: e in entries <==> e in Elements(entries);
  }

  /** Running the factories of any scheduled list in order gives every dependency the value of
      the recursive evaluation of the declared graph; and if some dependency has no value, the
      loop stops with the error of the first one in the order. */
  lemma LoopComputesRecursiveValues(w: Callbacks, entries: seq<DependencyEntry>, request: Py)
    requires Schedule(entries).Ok?
    ensures var deps := Schedule(entries).value;
            && Ordered(deps)
            && var r := Run(w, deps, request, []);
            && (r.Ok? <==> forall i | 0 <= i < |deps| :: ValueOf(w, deps, request, i).Ok?)
            && (r.Ok? ==> |r.value| == |deps|
                          && forall i | 0 <= i < |deps| :: ValueOf(w, deps, request, i) == Ok(r.value[i]))
            && (r.Err? ==> exists done :: FailsAt(w, deps, request, done, r.error))
  {
    ScheduleIsOrdered(entries);
    var deps := Schedule(entries).value;
    RunAgrees(w, deps, request, []);
    var r := Run(w, deps, request, []);
    if r.Err? {
      var done :| FailsAt(w, deps, request, done, r.error);
      assert ValueOf(w, deps, request, |done|).Err?;
    }
  }

  lemma KwargKeys(dep: DependencyEntry, deps: seq<DependencyEntry>, outs: seq<Py>, request: Py)
    requires UniqueNames(deps) && |outs| <= |deps|
    ensures KwargsUpTo(dep, deps, outs, request, |outs|).Keys
            == (if dep.wantsRequest then {"request"} else {})
               + set k | 0 <= k < |outs| && Passes(dep, deps[k].name) :: deps[k].name
  {
    KwargsOverRequest(dep, deps, outs, request, |outs|);
    PassedByKey(dep, deps, outs, |outs|);
  }

  /** The keyword dictionary of a factory without `**kwargs` has exactly its declared
      prerequisites as keys, wherever the schedule happens to put it, and the request context if
      it wants it. */
  lemma InputsAreDeclared(entries: seq<DependencyEntry>, outs: seq<Py>, request: Py)
    requires Schedule(entries).Ok? && |outs| < |Schedule(entries).value|
    requires !Schedule(entries).value[|outs|].factoryVarkw
    ensures var dep := Schedule(entries).value[|outs|];
            ArgsAt(Schedule(entries).value, outs, request).Keys
            == (if dep.wantsRequest then {"request"} else {}) + dep.factoryParams * NamesOf(entries)
  {
    ScheduleIsOrdered(entries);
    var deps := Schedule(entries).value;
    KwargKeys(deps[|outs|], deps, outs, request);
    InputsComeEarlier(deps, |outs|);
  }

  // ---- What a factory makes -------------------------------------------------------------------

  /** `kw` is what the factory at `i` is called with: the results of the earlier entries it takes,
      each under its name, and the request context if it wants it and no such result is called
      `request`. */
  ghost predicate CalledWith(deps: seq<DependencyEntry>, outs: seq<Py>, request: Py, i: nat, kw: Kwargs)
    requires i < |deps| && i <= |outs|
  {
    var dep := deps[i];
    && (forall n :: n in kw <==>
          (dep.wantsRequest && n == "request")
          || exists k :: 0 <= k < i && deps[k].name == n && (dep.factoryVarkw || n in dep.factoryParams))
    && (forall k | 0 <= k < i && (dep.factoryVarkw || deps[k].name in dep.factoryParams) ::
          deps[k].name in kw && kw[deps[k].name] == outs[k])
    && (dep.wantsRequest && (forall k | 0 <= k < i && deps[k].name == "request" ::
          !dep.factoryVarkw && "request" !in dep.factoryParams)
        ==> "request" in kw && kw["request"] == request)
  }

  /** What is left of the call's result once it has been awaited, if the factory is async. */
  ghost predicate Delivers(w: Callbacks, dep: DependencyEntry, kw: Kwargs, o: Py) {
    exists made :: w.call(dep.factory, kw) == Ok(made)
                   && if dep.isAsync then w.awaitResult(made) == Ok(o) else o == made
  }

  /** Calling the factory, awaiting it if it is async and resolving a query gives `v`. */
  ghost predicate Makes(w: Callbacks, dep: DependencyEntry, kw: Kwargs, v: Py) {
    exists o :: Delivers(w, dep, kw, o) && w.runQuery(o) == Ok(v)
  }

  /** One of these three raises `e`. */
  ghost predicate Raises(w: Callbacks, dep: DependencyEntry, kw: Kwargs, e: PyErr) {
    || w.call(dep.factory, kw) == Err(e)
    || (exists made :: w.call(dep.factory, kw) == Ok(made) && dep.isAsync && w.awaitResult(made) == Err(e))
    || (exists o :: Delivers(w, dep, kw, o) && w.runQuery(o) == Err(e))
  }

  lemma InvokeMakes(w: Callbacks, dep: DependencyEntry, kw: Kwargs)
    ensures var r := Invoke(w, dep, kw);
            && (forall v: Py :: r == Ok(v) <==> Makes(w, dep, kw, v))
            && (forall e: PyErr :: r == Err(e) <==> Raises(w, dep, kw, e))
  {
    match w.call(dep.factory, kw) {
      case Err(_) =>
      case Ok(made) =>
        if !dep.isAsync {
          assert Delivers(w, dep, kw, made);
        } else if w.awaitResult(made).Ok? {
          assert Delivers(w, dep, kw, w.awaitResult(made).value);
        }
    }
  }

  lemma ArgumentsAre(deps: seq<DependencyEntry>, outs: seq<Py>, request: Py, i: nat)
    requires UniqueNames(deps) && i < |deps| && i <= |outs|
    ensures CalledWith(deps, outs, request, i, ArgsAt(deps, outs[..i], request))
  {
    var dep, done := deps[i], outs[..i];
    KwargKeys(dep, deps, done, request);
    KwargsOverRequest(dep, deps, done, request, i);
    PassedByKey(dep, deps, done, i);
  }

  /** There is one such dictionary only. */
  lemma ArgumentsAreUnique(deps: seq<DependencyEntry>, outs: seq<Py>, request: Py, i: nat, a: Kwargs, b: Kwargs)
    requires i < |deps| && i <= |outs|
    requires CalledWith(deps, outs, request, i, a) && CalledWith(deps, outs, request, i, b)
    ensures a == b
  {
    var dep := deps[i];
    assert a.Keys == b.Keys by {
      forall n ensures n in a <==> n in b {}
    }
    forall n | n in a ensures a[n] == b[n] {
      if k :| 0 <= k < i && deps[k].name == n && (dep.factoryVarkw || n in dep.factoryParams) {
        assert a[deps[k].name] == outs[k] == b[deps[k].name];
      }
    }
    SameEntries(a, b);
  }

  /** The result at `i` is made by its factory from the earlier ones. */
  ghost predicate MadeAt(w: Callbacks, deps: seq<DependencyEntry>, request: Py, outs: seq<Py>, i: nat)
    requires i < |outs| && i < |deps|
  {
    exists kw :: CalledWith(deps, outs, request, i, kw) && Makes(w, deps[i], kw, outs[i])
  }

  ghost predicate AllMade(w: Callbacks, deps: seq<DependencyEntry>, request: Py, outs: seq<Py>) {
    |outs| <= |deps| && forall i | 0 <= i < |outs| :: MadeAt(w, deps, request, outs, i)
  }

  /** The factory after those that made `done` raises `e`. */
  ghost predicate StopsWith(w: Callbacks, deps: seq<DependencyEntry>, request: Py, done: seq<Py>, e: PyErr) {
    && |done| < |deps| && AllMade(w, deps, request, done)
    && exists kw :: CalledWith(deps, done, request, |done|, kw) && Raises(w, deps[|done|], kw, e)
  }

  /** Only earlier results matter. */
  lemma CalledInLonger(deps: seq<DependencyEntry>, outs: seq<Py>, o: Py, request: Py, i: nat, kw: Kwargs)
    requires i < |deps| && i <= |outs|
    ensures CalledWith(deps, outs + [o], request, i, kw) <==> CalledWith(deps, outs, request, i, kw)
  {
    assert forall k | 0 <= k < i :: (outs + [o])[k] == outs[k];
  }

  lemma MadeInLonger(w: Callbacks, deps: seq<DependencyEntry>, request: Py, outs: seq<Py>, o: Py, i: nat)
    requires i < |outs| < |deps| && MadeAt(w, deps, request, outs, i)
    ensures MadeAt(w, deps, request, outs + [o], i)
  {
    var kw :| CalledWith(deps, outs, request, i, kw) && Makes(w, deps[i], kw, outs[i]);
    CalledInLonger(deps, outs, o, request, i, kw);
  }

  lemma OneMoreMade(w: Callbacks, deps: seq<DependencyEntry>, request: Py, outs: seq<Py>, o: Py, kw: Kwargs)
    requires |outs| < |deps| && AllMade(w, deps, request, outs)
    requires CalledWith(deps, outs, request, |outs|, kw) && Makes(w, deps[|outs|], kw, o)
    ensures AllMade(w, deps, request, outs + [o])
  {
    forall i | 0 <= i < |outs + [o]| ensures MadeAt(w, deps, request, outs + [o], i) {
      if i < |outs| {
        MadeInLonger(w, deps, request, outs, o, i);
      } else {
        CalledInLonger(deps, outs, o, request, i, kw);
      }
    }
  }

  lemma {:induction false} RunIsMade(w: Callbacks, deps: seq<DependencyEntry>, request: Py, outs: seq<Py>)
    requires UniqueNames(deps) && AllMade(w, deps, request, outs)
    ensures var r := Run(w, deps, request, outs);
            if r.Ok? then |r.value| == |deps| && AllMade(w, deps, request, r.value)
            else Stops(w, deps, request, r.error)
    decreases |deps| - |outs|
  {
    if |outs| < |deps| {
      var kw := ArgsAt(deps, outs, request);
      assert outs[..|outs|] == outs;
      ArgumentsAre(deps, outs, request, |outs|);
      InvokeMakes(w, deps[|outs|], kw);
      match Invoke(w, deps[|outs|], kw) {
        case Ok(o) =>
          OneMoreMade(w, deps, request, outs, o, kw);
          RunIsMade(w, deps, request, outs + [o]);
        case Err(e) =>
          assert StopsWith(w, deps, request, outs, e);
      }
    }
  }

  ghost predicate Stops(w: Callbacks, deps: seq<DependencyEntry>, request: Py, e: PyErr) {
    exists done :: StopsWith(w, deps, request, done, e)
  }

  /** Running a scheduled list either gives one result for each entry, made by calling its factory
      with the earlier results it takes, awaiting what an async one returns and resolving a query, or
      ends with the error that the first of these to fail raises. */
  lemma ResultsAreMade(w: Callbacks, entries: seq<DependencyEntry>, request: Py)
    requires Schedule(entries).Ok?
    ensures var deps := Schedule(entries).value;
            var r := Run(w, deps, request, []);
            if r.Ok? then |r.value| == |deps| && AllMade(w, deps, request, r.value)
            else Stops(w, deps, request, r.error)
  {
    ScheduleIsOrdered(entries);
    RunIsMade(w, Schedule(entries).value, request, []);
  }

  /** In any ordered list, and so in every scheduled one: the recursive value of an entry whose
      predecessors have the values `outs` is what its factory makes of them, and its error what the
      factory raises. */
  lemma ValueIsMade(w: Callbacks, deps: seq<DependencyEntry>, request: Py, outs: seq<Py>, kw: Kwargs)
    requires Ordered(deps) && |outs| < |deps| && CalledWith(deps, outs, request, |outs|, kw)
    requires forall j | 0 <= j < |outs| :: ValueOf(w, deps, request, j) == Ok(outs[j])
    ensures forall v: Py :: ValueOf(w, deps, request, |outs|) == Ok(v) <==> Makes(w, deps[|outs|], kw, v)
    ensures forall e: PyErr ::
              ValueOf(w, deps, request, |outs|) == Err(Raised(e)) <==> Raises(w, deps[|outs|], kw, e)
  {
    ValuesAgree(w, deps, request, outs, |outs|);
    assert outs[..|outs|] == outs;
    StepAgrees(w, deps, request, outs);
    ArgumentsAre(deps, outs, request, |outs|);
    ArgumentsAreUnique(deps, outs, request, |outs|, kw, ArgsAt(deps, outs, request));
    InvokeMakes(w, deps[|outs|], kw);
  }

  lemma {:induction false} ValuesAgree(w: Callbacks, deps: seq<DependencyEntry>, request: Py, outs: seq<Py>, n: nat)
    requires Ordered(deps) && n <= |outs| <= |deps|
    requires forall j | 0 <= j < |outs| :: ValueOf(w, deps, request, j) == Ok(outs[j])
    ensures Agree(w, deps, request, outs[..n])
  {
    if n == 0 {
      assert outs[..0] == [];
    } else {
      ValuesAgree(w, deps, request, outs, n - 1);
      NextValueAgrees(w, deps, request, outs, n - 1);
    }
  }

  lemma NextValueAgrees(w: Callbacks, deps: seq<DependencyEntry>, request: Py, outs: seq<Py>, n: nat)
    requires Ordered(deps) && n < |outs| <= |deps| && Agree(w, deps, request, outs[..n])
    requires ValueOf(w, deps, request, n) == Ok(outs[n])
    ensures Agree(w, deps, request, outs[..n + 1])
  {
    assert outs[..n + 1] == outs[..n] + [outs[n]];
    AgreeOnNext(w, deps, request, outs[..n], outs[n]);
  }

  lemma AgreeOnNext(w: Callbacks, deps: seq<DependencyEntry>, request: Py, done: seq<Py>, o: Py)
    requires Ordered(deps) && |done| < |deps| && Agree(w, deps, request, done)
    requires ValueOf(w, deps, request, |done|) == Ok(o)
    ensures Agree(w, deps, request, done + [o])
  {
    StepAgrees(w, deps, request, done);
    AgreeExtends(w, deps, request, done, o);
  }

  /** Async factories are awaited: if what they return lies in `coroutines`, which awaiting leaves
      and no query leads back to, no result of one of them lies there. */
  lemma AsyncResultsAreAwaited(w: Callbacks, deps: seq<DependencyEntry>, request: Py, coroutines: Py -> bool, i: nat)
    requires Ordered(deps) && Run(w, deps, request, []).Ok? && i < |deps| && deps[i].isAsync
    requires forall made, o | w.awaitResult(made) == Ok(o) :: coroutines(made) ==> !coroutines(o)
    requires forall o, v | w.runQuery(o) == Ok(v) :: !coroutines(o) ==> !coroutines(v)
    requires forall kw, made | w.call(deps[i].factory, kw) == Ok(made) :: coroutines(made)
    ensures var r := Run(w, deps, request, []);
            i < |r.value| && !coroutines(r.value[i])
  {
    RunIsMade(w, deps, request, []);
    var outs := Run(w, deps, request, []).value;
    assert MadeAt(w, deps, request, outs, i);
  }
}
