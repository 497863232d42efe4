/** Dependency ordering: `src/dependency.rs`, and the reordering done by `App::add_route` in
    `src/lib.rs`. */
module Dependency {
  import opened Text
  import opened Names

  /** The contents of a `DependencyGraph`: an edge leads from a prerequisite to a dependent. */
  datatype Graph = Graph(nodes: set<Name>, adj: map<Name, set<Name>>) {
    ghost predicate Valid() {
      adj.Keys == nodes && forall p | p in adj :: adj[p] <= nodes
    }

    ghost predicate Edge(p: Name, d: Name) {
      p in adj && d in adj[p]
    }

    ghost function Preds(d: Name): set<Name> {
      set p | p in adj && d in adj[p]
    }

    ghost predicate HasPrerequisiteIn(rest: set<Name>, d: Name) {
      exists p :: p in rest && Edge(p, d)
    }

    ghost predicate IsCycle(path: seq<Name>) {
      |path| >= 2 && path[0] == path[|path| - 1]
      && forall i | 0 <= i < |path| - 1 :: Edge(path[i], path[i + 1])
    }

    ghost predicate Cyclic() {
      exists path :: IsCycle(path)
    }

    /** Every node once, every edge pointing forward. */
    ghost predicate IsTopologicalOrder(order: seq<Name>) {
      && Distinct(order)
      && Elements(order) == nodes
      && (forall i, j | 0 <= i < |order| && 0 <= j < |order| && Edge(order[i], order[j]) :: i < j)
    }
  }

  // ---- Kahn's algorithm as a function of the graph alone -----------------------------------

  datatype Progress = Progress(stack: seq<Name>, order: seq<Name>)

  /** What the loop keeps: a node has been reached exactly when its prerequisites are done. */
  ghost predicate Sound(g: Graph, s: Progress) {
    && Distinct(s.order + s.stack)
    && Elements(s.order + s.stack) <= g.nodes
    && (forall n | n in g.nodes :: n in s.order + s.stack <==> g.Preds(n) <= Elements(s.order))
    && (forall i | 0 <= i < |s.order| :: g.Preds(s.order[i]) <= Elements(s.order[..i]))
  }

  ghost function Start(g: Graph): Progress {
    Progress(Sorted(set n | n in g.nodes && g.Preds(n) == {}), [])
  }

  /** The dependents that become free once `order` is done, `node` being its last element. */
  ghost function Released(g: Graph, node: Name, order: seq<Name>): set<Name> {
    set n | n in g.nodes && g.Edge(node, n) && g.Preds(n) <= Elements(order)
  }

  ghost function Advance(g: Graph, s: Progress): Progress
    requires s.stack != []
  {
    var last := |s.stack| - 1;
    var node := s.stack[last];
    var order := s.order + [node];
    Progress(s.stack[..last] + Reverse(Sorted(Released(g, node, order))), order)
  }

  lemma StartIsSound(g: Graph)
    requires g.Valid()
    ensures Sound(g, Start(g))
  {
    var s := Start(g);
    assert s.order + s.stack == s.stack;
    forall n | n in g.nodes
      ensures n in s.order + s.stack <==> g.Preds(n) <= Elements(s.order)
    {
      assert n in Elements(s.stack) <==> g.Preds(n) == {};
      assert Elements(s.order) == {};
    }
  }

  lemma ReleasedAreNew(g: Graph, s: Progress)
    requires g.Valid() && Sound(g, s) && s.stack != []
    ensures var node := s.stack[|s.stack| - 1];
            node in g.nodes && node !in s.order
            && Released(g, node, s.order + [node]) !! Elements(s.order + s.stack)
  {
    var last := |s.stack| - 1;
    var node := s.stack[last];
    assert (s.order + s.stack)[|s.order| + last] == node;
    forall i | 0 <= i < |s.order| ensures s.order[i] != node {
      assert (s.order + s.stack)[i] == s.order[i];
    }
    forall n | n in Released(g, node, s.order + [node]) ensures n !in s.order + s.stack {
      assert node in g.Preds(n);
    }
  }

  lemma Regroup(order: seq<Name>, rest: seq<Name>, node: Name, pushed: seq<Name>)
    ensures Elements(order + [node] + (rest + pushed))
            == Elements(order + (rest + [node])) + Elements(pushed)
  {
    ConcatElements(order, [node]);
    ConcatElements(order + [node], rest + pushed);
    ConcatElements(rest, pushed);
    ConcatElements(order, rest + [node]);
    ConcatElements(rest, [node]);
  }

  /** One turn of the loop keeps what was reached and adds the nodes just released. */
  lemma AdvanceReaches(g: Graph, s: Progress)
    requires g.Valid() && Sound(g, s) && s.stack != []
    ensures var node := s.stack[|s.stack| - 1];
            var next := Advance(g, s);
            && Elements(next.order) == Elements(s.order) + {node}
            && Elements(next.order + next.stack)
               == Elements(s.order + s.stack) + Released(g, node, next.order)
  {
    var last := |s.stack| - 1;
    var node := s.stack[last];
    var next, rest := Advance(g, s), s.stack[..last];
    var free := Released(g, node, next.order);
    var pushed := Reverse(Sorted(free));
    ReverseKeeps(Sorted(free));
    assert next.order == s.order + [node] && next.stack == rest + pushed;
    assert s.stack == rest + [node];
    Regroup(s.order, rest, node, pushed);
    ConcatElements(s.order, [node]);
  }

  lemma Regrouped(order: seq<Name>, rest: seq<Name>, node: Name, pushed: seq<Name>)
    ensures order + [node] + (rest + pushed) == order + [node] + rest + pushed
    ensures order + (rest + [node]) == order + rest + [node]
  {}

  lemma AdvanceIsDistinct(g: Graph, s: Progress)
    requires g.Valid() && Sound(g, s) && s.stack != []
    ensures Distinct(Advance(g, s).order + Advance(g, s).stack)
  {
    var last := |s.stack| - 1;
    var node, rest := s.stack[last], s.stack[..last];
    ReleasedAreNew(g, s);
    var free := Released(g, node, s.order + [node]);
    var pushed := Reverse(Sorted(free));
    ReverseKeeps(Sorted(free));
    Regrouped(s.order, rest, node, pushed);
    assert s.stack == rest + [node];
    forall n | n in pushed ensures n !in s.order + s.stack {
      assert n in Elements(pushed);
    }
    DistinctParts(s.order, rest, node, pushed);
  }

  lemma AdvanceIsSound(g: Graph, s: Progress)
    requires g.Valid() && Sound(g, s) && s.stack != []
    ensures Sound(g, Advance(g, s))
  {
    var node := s.stack[|s.stack| - 1];
    var next := Advance(g, s);
    ReleasedAreNew(g, s);
    AdvanceReaches(g, s);
    AdvanceIsDistinct(g, s);
    forall n | n in g.nodes
      ensures n in next.order + next.stack <==> g.Preds(n) <= Elements(next.order)
    {
      assert n in next.order + next.stack <==> n in Elements(next.order + next.stack);
      assert n in s.order + s.stack <==> n in Elements(s.order + s.stack);
      if g.Preds(n) <= Elements(next.order) && n !in s.order + s.stack {
        assert node in g.Preds(n);
      }
    }
    forall i | 0 <= i < |next.order|
      ensures g.Preds(next.order[i]) <= Elements(next.order[..i])
    {
      if i < |s.order| {
        assert next.order[..i] == s.order[..i];
      } else {
        assert next.order[..i] == s.order;
        assert (s.order + s.stack)[|s.order + s.stack| - 1] == node;
      }
    }
  }

  lemma DistinctParts(order: seq<Name>, rest: seq<Name>, node: Name, pushed: seq<Name>)
    requires Distinct(order + rest + [node]) && Distinct(pushed)
    requires forall n | n in pushed :: n !in order + rest + [node]
    ensures Distinct(order + [node] + rest + pushed)
  {
    var a := order + rest + [node];
    var front := order + [node] + rest;
    DistinctSize(a);
    ConcatElements(order, rest);
    ConcatElements(order + rest, [node]);
    ConcatElements(order, [node]);
    ConcatElements(order + [node], rest);
    assert Elements(front) == Elements(a);
    AllNamedOnce(front);
    forall n | n in pushed ensures n !in front {
      assert n in Elements(front) <==> n in Elements(a);
    }
    DistinctConcat(front, pushed);
  }

  lemma ProgressFits(g: Graph, s: Progress)
    requires Sound(g, s)
    ensures |s.order| + |s.stack| <= |g.nodes|
  {
    DistinctSize(s.order + s.stack);
    SubsetSize(Elements(s.order + s.stack), g.nodes);
  }

  /** The order in which the loop, started from `s`, finally lists the nodes. */
  ghost function Finish(g: Graph, s: Progress): (order: seq<Name>)
    requires g.Valid() && Sound(g, s)
    ensures Sound(g, Progress([], order))
    decreases |g.nodes| - |s.order|
  {
    if s.stack == [] then s.order else
      AdvanceIsSound(g, s);
      ProgressFits(g, s);
      Finish(g, Advance(g, s))
  }

  datatype SortError = CycleDetected

  ghost function KahnOrder(g: Graph): Result<seq<Name>, SortError>
    requires g.Valid()
  {
    StartIsSound(g);
    var order := Finish(g, Start(g));
    if |order| == |g.nodes| then Ok(order) else Err(CycleDetected)
  }

  // ---- In which order ------------------------------------------------------------------------

  /** The node becomes free with the first `k` nodes of the order, the last of these being one of its
      prerequisites. */
  ghost predicate IsFreeAt(g: Graph, order: seq<Name>, n: Name, k: nat) {
    && k <= |order| && g.Preds(n) <= Elements(order[..k])
    && (k > 0 ==> order[k - 1] in g.Preds(n))
  }

  /** What has become free last goes first. Of nodes that become free together the one with the least
      name goes first, except for those without prerequisites, where it goes last. */
  predicate GoesFirst(a: Name, ka: nat, b: Name, kb: nat) {
    ka > kb || (ka == kb && if ka == 0 then Less(b, a) else Less(a, b))
  }

  /** The stack holds the free nodes, those that go first on top. */
  ghost predicate Ranked(g: Graph, s: Progress, free: seq<nat>) {
    && |free| == |s.stack|
    && (forall i | 0 <= i < |free| :: IsFreeAt(g, s.order, s.stack[i], free[i]))
    && (forall i, j | 0 <= i < j < |free| :: GoesFirst(s.stack[j], free[j], s.stack[i], free[i]))
  }

  lemma FreeNoLater(g: Graph, order: seq<Name>, n: Name, a: nat, b: nat)
    requires Distinct(order) && IsFreeAt(g, order, n, a) && IsFreeAt(g, order, n, b)
    ensures b <= a
  {
    if b > 0 {
      assert order[b - 1] in Elements(order[..a]);
      var i :| 0 <= i < a && order[..a][i] == order[b - 1];
      assert order[i] == order[b - 1];
    }
  }

  lemma FreeAtOnce(g: Graph, order: seq<Name>, n: Name, a: nat, b: nat)
    requires Distinct(order) && IsFreeAt(g, order, n, a) && IsFreeAt(g, order, n, b)
    ensures a == b
  {
    FreeNoLater(g, order, n, a, b);
    FreeNoLater(g, order, n, b, a);
  }

  lemma FreeInLonger(g: Graph, order: seq<Name>, node: Name, n: Name, k: nat)
    requires IsFreeAt(g, order, n, k)
    ensures IsFreeAt(g, order + [node], n, k)
  {
    assert (order + [node])[..k] == order[..k];
  }

  function Zeros(n: nat): (r: seq<nat>)
    ensures |r| == n && forall i | 0 <= i < n :: r[i] == 0
  {
    seq(n, _ => 0)
  }

  lemma RootIsFree(g: Graph, n: Name)
    requires g.Preds(n) == {}
    ensures IsFreeAt(g, [], n, 0)
  {}

  lemma StartIsRanked(g: Graph)
    requires g.Valid()
    ensures Ranked(g, Start(g), Zeros(|Start(g).stack|))
  {
    var stack := Start(g).stack;
    forall i | 0 <= i < |stack| ensures IsFreeAt(g, [], stack[i], 0) {
      assert stack[i] in Elements(stack);
      RootIsFree(g, stack[i]);
    }
    forall i, j | 0 <= i < j < |stack| ensures GoesFirst(stack[j], 0, stack[i], 0) {
      assert Less(stack[i], stack[j]);
    }
  }

  lemma ReleasedIsFree(g: Graph, node: Name, order: seq<Name>, names: seq<Name>, i: nat)
    requires order != [] && order[|order| - 1] == node && names == Sorted(Released(g, node, order))
    requires i < |Reverse(names)|
    ensures IsFreeAt(g, order, Reverse(names)[i], |order|)
  {
    var n := names[|names| - 1 - i];
    assert n in Elements(names);
    assert order[..|order|] == order && node in g.Preds(n);
  }

  lemma ReversedDescends(names: seq<Name>, i: nat, j: nat)
    requires Ascending(names) && i < j < |names|
    ensures Less(Reverse(names)[j], Reverse(names)[i])
  {
    assert Less(names[|names| - 1 - j], names[|names| - 1 - i]);
  }

  function Times(n: nat, k: nat): (r: seq<nat>)
    ensures |r| == n && forall i | 0 <= i < n :: r[i] == k
  {
    seq(n, _ => k)
  }

  /** The nodes that stay on the stack and those pushed on top of them. */
  lemma PushedIsRanked(g: Graph, order: seq<Name>, rest: seq<Name>, free: seq<nat>, pushed: seq<Name>)
    requires |free| == |rest|
    requires forall i | 0 <= i < |rest| :: IsFreeAt(g, order, rest[i], free[i]) && free[i] < |order|
    requires forall i, j | 0 <= i < j < |rest| :: GoesFirst(rest[j], free[j], rest[i], free[i])
    requires forall i | 0 <= i < |pushed| :: IsFreeAt(g, order, pushed[i], |order|)
    requires forall i, j | 0 <= i < j < |pushed| :: GoesFirst(pushed[j], |order|, pushed[i], |order|)
    ensures Ranked(g, Progress(rest + pushed, order), free + Times(|pushed|, |order|))
  {
    var stack, all := rest + pushed, free + Times(|pushed|, |order|);
    forall i | 0 <= i < |stack| ensures IsFreeAt(g, order, stack[i], all[i]) {
      if i >= |rest| {
        assert stack[i] == pushed[i - |rest|];
      }
    }
    forall i, j | 0 <= i < j < |stack| ensures GoesFirst(stack[j], all[j], stack[i], all[i]) {
      if i >= |rest| {
        assert stack[i] == pushed[i - |rest|] && stack[j] == pushed[j - |rest|];
      } else if j < |rest| {
        assert GoesFirst(rest[j], free[j], rest[i], free[i]);
      }
    }
  }

  /** The nodes that stay. */
  lemma RestIsRanked(g: Graph, s: Progress, free: seq<nat>, rest: seq<Name>, order: seq<Name>, kept: seq<nat>)
    requires s.stack != [] && Ranked(g, s, free)
    requires rest == s.stack[..|s.stack| - 1] && kept == free[..|s.stack| - 1]
    requires order == s.order + [s.stack[|s.stack| - 1]]
    ensures |kept| == |rest|
    ensures forall i | 0 <= i < |rest| :: IsFreeAt(g, order, rest[i], kept[i]) && kept[i] < |order|
    ensures forall i, j | 0 <= i < j < |rest| :: GoesFirst(rest[j], kept[j], rest[i], kept[i])
  {
    forall i | 0 <= i < |rest| ensures IsFreeAt(g, order, rest[i], kept[i]) && kept[i] < |order| {
      FreeInLonger(g, s.order, s.stack[|s.stack| - 1], s.stack[i], free[i]);
    }
    forall i, j | 0 <= i < j < |rest| ensures GoesFirst(rest[j], kept[j], rest[i], kept[i]) {
      assert GoesFirst(s.stack[j], free[j], s.stack[i], free[i]);
    }
  }

  /** The nodes just released, as they lie on the stack. */
  lemma ReleasedAreRanked(g: Graph, node: Name, order: seq<Name>, names: seq<Name>, pushed: seq<Name>)
    requires order != [] && order[|order| - 1] == node && names == Sorted(Released(g, node, order))
    requires pushed == Reverse(names)
    ensures forall i | 0 <= i < |pushed| :: IsFreeAt(g, order, pushed[i], |order|)
    ensures forall i, j | 0 <= i < j < |pushed| :: GoesFirst(pushed[j], |order|, pushed[i], |order|)
  {
    forall i | 0 <= i < |pushed| ensures IsFreeAt(g, order, pushed[i], |order|) {
      ReleasedIsFree(g, node, order, names, i);
    }
    forall i, j | 0 <= i < j < |pushed| ensures GoesFirst(pushed[j], |order|, pushed[i], |order|) {
      ReversedDescends(names, i, j);
    }
  }

  lemma AdvanceIsRanked(g: Graph, s: Progress, free: seq<nat>) returns (next: seq<nat>)
    requires s.stack != [] && Ranked(g, s, free)
    ensures Ranked(g, Advance(g, s), next)
  {
    var last := |s.stack| - 1;
    var node, order := s.stack[last], s.order + [s.stack[last]];
    var rest, names, kept := s.stack[..last], Sorted(Released(g, node, order)), free[..last];
    RestIsRanked(g, s, free, rest, order, kept);
    ReleasedAreRanked(g, node, order, names, Reverse(names));
    PushedIsRanked(g, order, rest, kept, Reverse(names));
    next := kept + Times(|Reverse(names)|, |order|);
  }

  /** No other free node goes before the one that is listed next. */
  ghost predicate ChosenAt(g: Graph, order: seq<Name>, i: nat)
    requires i < |order|
  {
    forall n, k, ki | n in g.nodes && n !in order[..i + 1]
                      && IsFreeAt(g, order[..i], n, k) && IsFreeAt(g, order[..i], order[i], ki) ::
      GoesFirst(order[i], ki, n, k)
  }

  lemma TopGoesFirst(g: Graph, s: Progress, free: seq<nat>, i: nat, k: nat, ki: nat)
    requires Distinct(s.order) && Ranked(g, s, free) && i < |s.stack| - 1
    requires IsFreeAt(g, s.order, s.stack[i], k) && IsFreeAt(g, s.order, s.stack[|s.stack| - 1], ki)
    ensures GoesFirst(s.stack[|s.stack| - 1], ki, s.stack[i], k)
  {
    var last := |s.stack| - 1;
    FreeAtOnce(g, s.order, s.stack[i], k, free[i]);
    FreeAtOnce(g, s.order, s.stack[last], ki, free[last]);
  }

  lemma OrderIsDistinct(s: Progress)
    requires Distinct(s.order + s.stack)
    ensures Distinct(s.order)
  {
    forall i, j | 0 <= i < j < |s.order| ensures s.order[i] != s.order[j] {
      assert (s.order + s.stack)[i] == s.order[i] && (s.order + s.stack)[j] == s.order[j];
    }
  }

  lemma FreeIsReached(g: Graph, order: seq<Name>, n: Name, k: nat)
    requires IsFreeAt(g, order, n, k)
    ensures g.Preds(n) <= Elements(order)
  {
    forall p | p in order[..k] ensures p in order {}
  }

  lemma TopGoesBefore(g: Graph, s: Progress, free: seq<nat>, n: Name, k: nat, ki: nat)
    requires Distinct(s.order) && s.stack != [] && Ranked(g, s, free)
    requires n in s.stack && n != s.stack[|s.stack| - 1]
    requires IsFreeAt(g, s.order, n, k) && IsFreeAt(g, s.order, s.stack[|s.stack| - 1], ki)
    ensures GoesFirst(s.stack[|s.stack| - 1], ki, n, k)
  {
    var at :| 0 <= at < |s.stack| && s.stack[at] == n;
    TopGoesFirst(g, s, free, at, k, ki);
  }

  lemma NextIsChosen(g: Graph, s: Progress, free: seq<nat>, order: seq<Name>)
    requires Sound(g, s) && s.stack != [] && Ranked(g, s, free)
    requires s.order + [s.stack[|s.stack| - 1]] <= order
    ensures ChosenAt(g, order, |s.order|)
  {
    var i := |s.order|;
    OrderIsDistinct(s);
    assert order[..i] == s.order && order[..i + 1] == s.order + [s.stack[|s.stack| - 1]];
    forall n, k, ki | n in g.nodes && n !in order[..i + 1]
                      && IsFreeAt(g, order[..i], n, k) && IsFreeAt(g, order[..i], order[i], ki)
      ensures GoesFirst(order[i], ki, n, k)
    {
      FreeIsOnStack(g, s, n, k);
      TopGoesBefore(g, s, free, n, k, ki);
    }
  }

  /** A free node that has not been listed lies on the stack. */
  lemma FreeIsOnStack(g: Graph, s: Progress, n: Name, k: nat)
    requires Sound(g, s) && n in g.nodes && n !in s.order && IsFreeAt(g, s.order, n, k)
    ensures n in s.stack
  {
    FreeIsReached(g, s.order, n, k);
    assert n in s.order + s.stack;
  }

  lemma {:induction false} FinishChooses(g: Graph, s: Progress, free: seq<nat>, i: nat)
    requires g.Valid() && Sound(g, s) && Ranked(g, s, free)
    ensures s.order <= Finish(g, s)
    ensures |s.order| <= i < |Finish(g, s)| ==> ChosenAt(g, Finish(g, s), i)
    decreases |g.nodes| - |s.order|
  {
    if s.stack != [] {
      AdvanceIsSound(g, s);
      ProgressFits(g, s);
      var next := AdvanceIsRanked(g, s, free);
      FinishChooses(g, Advance(g, s), next, i);
      if i == |s.order| {
        NextIsChosen(g, s, free, Finish(g, s));
      }
    }
  }

  /** The order is determined: at every point, of all nodes whose prerequisites have been listed, the
      next one is that which goes first. */
  lemma OrderIsDetermined(g: Graph, i: nat)
    requires g.Valid() && KahnOrder(g).Ok? && i < |KahnOrder(g).value|
    ensures ChosenAt(g, KahnOrder(g).value, i)
  {
    StartIsSound(g);
    StartIsRanked(g);
    FinishChooses(g, Start(g), Zeros(|Start(g).stack|), i);
  }

  // ---- What the sort promises ------------------------------------------------------------

  /** A successful sort lists every node once with every edge pointing forward. */
  lemma SortIsTopological(g: Graph)
    requires g.Valid() && KahnOrder(g).Ok?
    ensures g.IsTopologicalOrder(KahnOrder(g).value)
  {
    StartIsSound(g);
    var order := KahnOrder(g).value;
    assert order + [] == order;
    DistinctSize(order);
    SubsetSize(Elements(order), g.nodes);
    forall i, j | 0 <= i < |order| && 0 <= j < |order| && g.Edge(order[i], order[j])
      ensures i < j
    {
      assert order[i] in g.Preds(order[j]);
      assert order[i] in order[..j];
    }
  }

  lemma {:induction false} CycleClimbs(g: Graph, order: seq<Name>, path: seq<Name>, i: nat, j: nat)
    requires g.IsTopologicalOrder(order)
    requires |path| >= 1 && i < |order| && j < |order|
    requires path[0] == order[i] && path[|path| - 1] == order[j]
    requires forall k | 0 <= k < |path| :: path[k] in g.nodes
    requires forall k | 0 <= k < |path| - 1 :: g.Edge(path[k], path[k + 1])
    ensures i + |path| - 1 <= j
  {
    if |path| > 1 {
      assert path[1] in Elements(order);
      var m :| 0 <= m < |order| && order[m] == path[1];
      assert g.Edge(path[0], path[1]);
      CycleClimbs(g, order, path[1..], m, j);
    }
  }

  /** No graph with a cycle has a topological order. */
  lemma CycleHasNoOrder(g: Graph, path: seq<Name>, order: seq<Name>)
    requires g.Valid() && g.IsCycle(path)
    ensures !g.IsTopologicalOrder(order)
  {
    if g.IsTopologicalOrder(order) {
      forall k | 0 <= k < |path| ensures path[k] in g.nodes {
        if k < |path| - 1 {
          assert g.Edge(path[k], path[k + 1]);
        } else {
          assert g.Edge(path[k - 1], path[k - 1 + 1]);
        }
      }
      assert path[0] in Elements(order);
      var i :| 0 <= i < |order| && order[i] == path[0];
      CycleClimbs(g, order, path, i, i);
    }
  }

  /** Walking prerequisites backwards inside `rest`, which always offers another one. */
  lemma {:induction false} WalkBack(g: Graph, rest: set<Name>, n: Name, length: nat) returns (path: seq<Name>)
    requires n in rest
    requires forall d | d in rest :: g.HasPrerequisiteIn(rest, d)
    ensures |path| == length + 1 && path[length] == n
    ensures forall i | 0 <= i <= length :: path[i] in rest
    ensures forall i | 0 <= i < length :: g.Edge(path[i], path[i + 1])
    decreases length
  {
    if length == 0 {
      path := [n];
    } else {
      assert g.HasPrerequisiteIn(rest, n);
      var p :| p in rest && g.Edge(p, n);
      var front := WalkBack(g, rest, p, length - 1);
      path := front + [n];
    }
  }

  /** Pigeonhole: a walk longer than the set it stays in visits some node twice. */
  lemma Pigeonhole(path: seq<Name>, s: set<Name>) returns (i: nat, j: nat)
    requires forall k | 0 <= k < |path| :: path[k] in s
    requires |path| > |s|
    ensures i < j < |path| && path[i] == path[j]
  {
    if Distinct(path) {
      DistinctSize(path);
      SubsetSize(Elements(path), s);
      assert false;
    }
    i, j :| 0 <= i < j < |path| && path[i] == path[j];
  }

  lemma SliceIsCycle(g: Graph, path: seq<Name>, i: nat, j: nat)
    requires i < j < |path| && path[i] == path[j]
    requires forall k | 0 <= k < |path| - 1 :: g.Edge(path[k], path[k + 1])
    ensures g.Cyclic()
  {
    var turn := path[i..j + 1];
    forall k | 0 <= k < |turn| - 1 ensures g.Edge(turn[k], turn[k + 1]) {
      assert g.Edge(path[i + k], path[i + k + 1]);
    }
    assert g.IsCycle(turn);
  }

  /** A set of nodes each of which has a prerequisite in the set contains a cycle. */
  lemma ClosedSetHasCycle(g: Graph, rest: set<Name>)
    requires rest != {}
    requires forall d | d in rest :: g.HasPrerequisiteIn(rest, d)
    ensures g.Cyclic()
  {
    var n :| n in rest;
    var path := WalkBack(g, rest, n, |rest|);
    var i, j := Pigeonhole(path, rest);
    SliceIsCycle(g, path, i, j);
  }

  /** When the sort fails, every node it left out has a prerequisite that was left out. */
  lemma FailureLeavesCycle(g: Graph)
    requires g.Valid() && KahnOrder(g).Err?
    ensures g.Cyclic()
  {
    StartIsSound(g);
    var order := Finish(g, Start(g));
    assert order + [] == order;
    var rest := g.nodes - Elements(order);
    if rest == {} {
      assert Elements(order) == g.nodes;
      DistinctSize(order);
      assert false;
    }
    forall d | d in rest ensures g.HasPrerequisiteIn(rest, d) {
      assert d !in order;
      var p :| p in g.Preds(d) && p !in Elements(order);
      assert p in rest && g.Edge(p, d);
    }
    ClosedSetHasCycle(g, rest);
  }

  /** `topological_sort` fails exactly on the graphs that contain a directed cycle. */
  lemma SortFailsExactlyOnCycles(g: Graph)
    requires g.Valid()
    ensures KahnOrder(g).Err? <==> g.Cyclic()
  {
    if KahnOrder(g).Ok? {
      SortIsTopological(g);
      forall path | g.IsCycle(path) ensures false {
        CycleHasNoOrder(g, path, KahnOrder(g).value);
      }
    } else {
      FailureLeavesCycle(g);
    }
  }

  // ---- The graph object ------------------------------------------------------------------

  class DependencyGraph {
    /** Adjacency list: prerequisite to its set of dependents. */
    var adj: map<Name, set<Name>>
    /** All registered node names. */
    var nodes: set<Name>

    ghost function Contents(): Graph
      reads this
    {
      Graph(nodes, adj)
    }

    constructor ()
      ensures Contents() == Graph({}, map[])
    {
      adj, nodes := map[], {};
    }

    method EnsureNode(name: Name)
      requires Contents().Valid()
      modifies this
      ensures Contents().Valid()
      ensures nodes == old(nodes) + {name}
      ensures forall p, d :: Contents().Edge(p, d) <==> old(Contents()).Edge(p, d)
    {
      nodes := nodes + {name};
      if name !in adj {
        adj := adj[name := {}];
      }
    }

    /** `prereq` must be evaluated before `dependent`. */
    method AddEdge(prereq: Name, dependent: Name)
      requires Contents().Valid()
      modifies this
      ensures Contents().Valid()
      ensures nodes == old(nodes) + {prereq, dependent}
      ensures forall p, d :: Contents().Edge(p, d) <==>
                             old(Contents()).Edge(p, d) || (p == prereq && d == dependent)
    {
      EnsureNode(prereq);
      EnsureNode(dependent);
      adj := adj[prereq := adj[prereq] + {dependent}];
    }

    /** One more prerequisite for every dependent of `p`. Sets and maps are walked in an
        arbitrary order throughout, as hash tables are. */
    method CountDependents(p: Name, inDegree: map<Name, nat>) returns (r: map<Name, nat>)
      requires Contents().Valid() && p in adj && inDegree.Keys == nodes
      ensures r.Keys == nodes
      ensures forall n | n in nodes :: r[n] == inDegree[n] + if n in adj[p] then 1 else 0
    {
      r := inDegree;
      var left := adj[p];
      while left != {}
        invariant left <= adj[p] && r.Keys == nodes
        invariant forall n | n in nodes :: r[n] == inDegree[n] + if n in adj[p] - left then 1 else 0
        decreases |left|
      {
        var d :| d in left;
        r := r[d := r[d] + 1];
        left := left - {d};
      }
    }

    /** Number of prerequisites of every node. */
    method CountInDegrees() returns (inDegree: map<Name, nat>)
      requires Contents().Valid()
      ensures CountsMissing(Contents(), inDegree, {})
    {
      ghost var g := Contents();
      inDegree := map n | n in nodes :: 0;
      var sources := adj.Keys;
      forall n | n in nodes ensures |g.Preds(n) - sources| == 0 {
        assert g.Preds(n) - sources == {};
      }
      while sources != {}
        invariant sources <= adj.Keys
        invariant CountsMissing(g, inDegree, sources)
        decreases |sources|
      {
        var p :| p in sources;
        ghost var old' := inDegree;
        inDegree := CountDependents(p, inDegree);
        SourceCounts(g, old', inDegree, sources, p);
        sources := sources - {p};
      }
    }

    /** Take one off the in-degree of each dependent of `node` and collect those that reach
        zero. No in-degree underflows, given that each is positive to begin with. */
    method Decrement(node: Name, inDegree: map<Name, nat>)
      returns (next: seq<Name>, remaining: map<Name, nat>)
      requires Contents().Valid() && node in nodes && inDegree.Keys == nodes
      requires forall d | d in adj[node] :: inDegree[d] > 0
      ensures remaining.Keys == nodes
      ensures forall n | n in nodes :: remaining[n] == inDegree[n] - if n in adj[node] then 1 else 0
      ensures Distinct(next) && Elements(next) == set n | n in adj[node] && inDegree[n] == 1
    {
      next, remaining := [], inDegree;
      var left := adj[node];
      while left != {}
        invariant left <= adj[node] && remaining.Keys == nodes
        invariant forall n | n in nodes ::
                    remaining[n] == inDegree[n] - if n in adj[node] - left then 1 else 0
        invariant Distinct(next)
        invariant Elements(next) == set n | n in adj[node] - left && inDegree[n] == 1
        decreases |left|
      {
        var d :| d in left;
        remaining := remaining[d := remaining[d] - 1];
        left := left - {d};
        if remaining[d] == 0 {
          assert d !in Elements(next);
          ConcatElements(next, [d]);
          next := next + [d];
        }
      }
    }

    /** The nodes without prerequisites. */
    method Roots(inDegree: map<Name, nat>) returns (roots: seq<Name>)
      requires inDegree.Keys == nodes
      ensures Distinct(roots) && Elements(roots) == set n | n in nodes && inDegree[n] == 0
    {
      roots := [];
      var unseen := nodes;
      while unseen != {}
        invariant unseen <= nodes && Distinct(roots)
        invariant Elements(roots) == set n | n in nodes - unseen && inDegree[n] == 0
        decreases |unseen|
      {
        var n :| n in unseen;
        unseen := unseen - {n};
        if inDegree[n] == 0 {
          assert n !in Elements(roots);
          ConcatElements(roots, [n]);
          roots := roots + [n];
        }
      }
    }

    /** Kahn's algorithm with an explicit stack. The result depends on the graph only, not on
        the order in which its hash tables are walked. */
    method TopologicalSort() returns (r: Result<seq<Name>, SortError>)
      requires Contents().Valid()
      ensures r == KahnOrder(Contents())
    {
      ghost var g := Contents();
      var inDegree := CountInDegrees();
      assert CountsMissing(g, inDegree, Elements([])) by {
        assert Elements<Name>([]) == {};
      }
      var roots := Roots(inDegree);
      var queue := SortUnstable(roots);
      var order: seq<Name> := [];
      StartFrom(g, inDegree, roots);
      StartIsSound(g);
      while queue != []
        invariant Sound(g, Progress(queue, order))
        invariant Finish(g, Progress(queue, order)) == Finish(g, Start(g))
        invariant CountsMissing(g, inDegree, Elements(order))
        decreases |g.nodes| - |order|
      {
        ghost var before := Progress(queue, order);
        var node := queue[|queue| - 1];
        ReleasedAreNew(g, before);
        AdvanceIsSound(g, before);
        ProgressFits(g, Advance(g, before));
        DependentsAreBlocked(g, inDegree, order, node);
        var next;
        ghost var old' := inDegree;
        next, inDegree := Decrement(node, inDegree);
        ReleaseCounts(g, old', inDegree, order, node);
        FreedNodes(g, old', inDegree, order + [node], node);
        SortIsSorted(next);
        queue := queue[..|queue| - 1] + Reverse(SortUnstable(next));
        order := order + [node];
      }
      r := if |order| == |nodes| then Ok(order) else Err(CycleDetected);
    }
  }

  /** `inDegree` holds, for every node, how many of its prerequisites are not in `done`. */
  ghost predicate CountsMissing(g: Graph, inDegree: map<Name, nat>, done: set<Name>) {
    inDegree.Keys == g.nodes && forall n | n in g.nodes :: inDegree[n] == |g.Preds(n) - done|
  }

  lemma OneLess(g: Graph, n: Name, done: set<Name>, p: Name)
    requires p !in done
    ensures |g.Preds(n) - done| == |g.Preds(n) - (done + {p})| + if g.Edge(p, n) then 1 else 0
  {
    if g.Edge(p, n) {
      assert g.Preds(n) - done == g.Preds(n) - (done + {p}) + {p};
    } else {
      assert g.Preds(n) - done == g.Preds(n) - (done + {p});
    }
  }

  lemma SourceCounts(g: Graph, before: map<Name, nat>, after: map<Name, nat>, sources: set<Name>, p: Name)
    requires p in sources && p in g.adj
    requires CountsMissing(g, before, sources)
    requires after.Keys == g.nodes
    requires forall n | n in g.nodes :: after[n] == before[n] + if n in g.adj[p] then 1 else 0
    ensures CountsMissing(g, after, sources - {p})
  {
    assert sources - {p} + {p} == sources;
    forall n | n in g.nodes ensures after[n] == |g.Preds(n) - (sources - {p})| {
      OneLess(g, n, sources - {p}, p);
    }
  }

  lemma StartFrom(g: Graph, inDegree: map<Name, nat>, roots: seq<Name>)
    requires CountsMissing(g, inDegree, {})
    requires Distinct(roots) && Elements(roots) == set n | n in g.nodes && inDegree[n] == 0
    ensures SortUnstable(roots) == Start(g).stack
  {
    SortIsSorted(roots);
    forall n | n in g.nodes ensures inDegree[n] == 0 <==> g.Preds(n) == {} {
      assert g.Preds(n) - {} == g.Preds(n);
    }
    assert Elements(roots) == set n | n in g.nodes && g.Preds(n) == {};
  }

  lemma DependentsAreBlocked(g: Graph, inDegree: map<Name, nat>, order: seq<Name>, node: Name)
    requires g.Valid() && node in g.nodes && node !in order
    requires CountsMissing(g, inDegree, Elements(order))
    ensures forall d | d in g.adj[node] :: inDegree[d] > 0
  {
    forall d | d in g.adj[node] ensures inDegree[d] > 0 {
      OneLess(g, d, Elements(order), node);
    }
  }

  lemma ReleaseCounts(g: Graph, before: map<Name, nat>, after: map<Name, nat>, order: seq<Name>, node: Name)
    requires node in g.adj && node !in order
    requires CountsMissing(g, before, Elements(order))
    requires after.Keys == g.nodes
    requires forall n | n in g.nodes :: before[n] == after[n] + if n in g.adj[node] then 1 else 0
    ensures CountsMissing(g, after, Elements(order + [node]))
  {
    ConcatElements(order, [node]);
    assert Elements([node]) == {node};
    forall n | n in g.nodes ensures after[n] == |g.Preds(n) - Elements(order + [node])| {
      OneLess(g, n, Elements(order), node);
    }
  }

  lemma FreedNodes(g: Graph, before: map<Name, nat>, after: map<Name, nat>, order: seq<Name>, node: Name)
    requires g.Valid() && node in g.nodes
    requires CountsMissing(g, after, Elements(order))
    requires before.Keys == g.nodes
    requires forall n | n in g.adj[node] :: before[n] == after[n] + 1
    ensures (set n | n in g.adj[node] && before[n] == 1) == Released(g, node, order)
  {
    var free := set n | n in g.adj[node] && before[n] == 1;
    var released := Released(g, node, order);
    assert released <= g.adj[node];
    forall n | n in g.adj[node] ensures n in free <==> n in released {
      FreedOne(g, n, after, order, node);
    }
    SameWithin(g.adj[node], free, released);
  }

  lemma SameWithin<T>(whole: set<T>, a: set<T>, b: set<T>)
    requires a <= whole && b <= whole
    requires forall n | n in whole :: n in a <==> n in b
    ensures a == b
  {}

  lemma FreedOne(g: Graph, n: Name, after: map<Name, nat>, order: seq<Name>, node: Name)
    requires n in g.nodes && g.Edge(node, n)
    requires CountsMissing(g, after, Elements(order))
    ensures after[n] == 0 <==> n in Released(g, node, order)
  {
    NothingMissing(g.Preds(n), Elements(order));
  }

  lemma NothingMissing(a: set<Name>, b: set<Name>)
    ensures |a - b| == 0 <==> a <= b
  {
    forall x | x in a && x !in b ensures a - b != {} {
      assert x in a - b;
    }
  }
}
