/** The depth-first dependency check that admits a plan
    (`validate_task_graph`, src/seed_society/domain.py). */
module TaskGraph {
  import opened Domain

  datatype GraphVerdict = Accepted | DuplicateIds | MissingDependency | DependencyCycle

  /** Task identifier to the identifiers it depends on. */
  type Graph = map<Id, seq<Id>>

  predicate UniqueIds(tasks: seq<Task>) {
    forall i, j :: 0 <= i < j < |tasks| ==> tasks[i].key.task != tasks[j].key.task
  }

  function Identifiers(tasks: seq<Task>): set<Id> {
    set t | t in tasks :: t.key.task
  }

  predicate KnownDependencies(tasks: seq<Task>) {
    forall t, d :: t in tasks && d in t.dependencies ==> d in Identifiers(tasks)
  }

  ghost predicate Describes(g: Graph, tasks: seq<Task>) {
    g.Keys == Identifiers(tasks) && forall t :: t in tasks ==> g[t.key.task] == t.dependencies
  }

  predicate ClosedGraph(g: Graph) {
    forall v, d :: v in g && d in g[v] ==> d in g
  }

  // ---------------------------------------------------------------- paths and cycles

  predicate Edge(g: Graph, v: Id, w: Id) {
    v in g && w in g[v]
  }

  /** Each element of the path depends on the next one. */
  predicate Path(g: Graph, p: seq<Id>) {
    forall i :: 0 <= i < |p| - 1 ==> Edge(g, p[i], p[i + 1])
  }

  predicate Cycle(g: Graph, p: seq<Id>) {
    |p| >= 2 && p[0] == p[|p| - 1] && Path(g, p)
  }

  ghost predicate Acyclic(g: Graph) {
    forall p :: !Cycle(g, p)
  }

  // ---------------------------------------------------------------- topological orders

  predicate Distinct(order: seq<Id>) {
    forall i, j :: 0 <= i < j < |order| ==> order[i] != order[j]
  }

  predicate FollowsDependencies(g: Graph, order: seq<Id>, i: nat)
    requires i < |order|
  {
    order[i] in g ==> forall d :: d in g[order[i]] ==> d in order[..i]
  }

  /** Every listed task has all its dependencies listed before it. */
  predicate DependenciesFirst(g: Graph, order: seq<Id>) {
    forall i :: 0 <= i < |order| ==> FollowsDependencies(g, order, i)
  }

  lemma Extend(g: Graph, order: seq<Id>, v: Id) returns (longer: seq<Id>)
    requires Distinct(order) && DependenciesFirst(g, order)
    requires v !in order && (v in g ==> forall d :: d in g[v] ==> d in order)
    ensures longer == order + [v] && Distinct(longer) && DependenciesFirst(g, longer)
    ensures forall w :: w in longer <==> w in order || w == v
  {
    longer := order + [v];
    forall i | 0 <= i < |longer| ensures FollowsDependencies(g, longer, i) {
      if i < |order| {
        assert FollowsDependencies(g, order, i) && longer[..i] == order[..i];
      } else {
        assert longer[..i] == order;
      }
    }
  }

  predicate Topological(g: Graph, order: seq<Id>) {
    Distinct(order) && DependenciesFirst(g, order) && (set v | v in order) == g.Keys
  }

  lemma ListsItsGraph(g: Graph, order: seq<Id>, v: Id)
    requires Topological(g, order)
    ensures v in order <==> v in g
  {
    assert v in order <==> v in (set w | w in order);
  }

  /** Storing a second accepted plan over a first one cannot create a cycle:
      the second plan never depends on what the first one left behind. */
  lemma {:induction false} OverlayOrder(first: Graph, order: seq<Id>, second: Graph, order': seq<Id>, both: Graph)
    returns (merged: seq<Id>)
    requires Distinct(order) && DependenciesFirst(first, order)
    requires forall v :: v in order ==> v in first
    requires Distinct(order') && DependenciesFirst(both, order')
    requires forall v :: v in order' <==> v in second
    requires forall v :: v in first && v !in second ==> v in both && both[v] == first[v]
    ensures Distinct(merged) && DependenciesFirst(both, merged)
    ensures forall v :: v in merged <==> v in second || v in order
  {
    if order == [] {
      merged := order';
    } else {
      var init, last := order[..|order| - 1], order[|order| - 1];
      forall i | 0 <= i < |init| ensures FollowsDependencies(first, init, i) {
        assert FollowsDependencies(first, order, i) && init[..i] == order[..i];
      }
      merged := OverlayOrder(first, init, second, order', both);
      if last !in second {
        assert FollowsDependencies(first, order, |init|);
        assert last !in init;
        merged := Extend(both, merged, last);
      }
      assert order == init + [last];
    }
  }

  lemma OverlayTopological(first: Graph, order: seq<Id>, second: Graph, order': seq<Id>, both: Graph)
    returns (merged: seq<Id>)
    requires Topological(first, order) && Topological(second, order') && both.Keys == first.Keys + second.Keys
    requires forall v :: v in both ==> both[v] == if v in second then second[v] else first[v]
    ensures Topological(both, merged)
  {
    forall v ensures v in order <==> v in first {
      ListsItsGraph(first, order, v);
    }
    forall v ensures v in order' <==> v in second {
      ListsItsGraph(second, order', v);
    }
    forall i | 0 <= i < |order'| ensures FollowsDependencies(both, order', i) {
      assert FollowsDependencies(second, order', i);
    }
    merged := OverlayOrder(first, order, second, order', both);
  }

  /** Position of a task in an order that lists it. */
  function Rank(order: seq<Id>, v: Id): (r: nat)
    requires v in order
    ensures r < |order| && order[r] == v
  {
    if order[0] == v then 0 else 1 + Rank(order[1..], v)
  }

  lemma RankIsIndex(order: seq<Id>, i: nat)
    requires Distinct(order) && i < |order|
    ensures Rank(order, order[i]) == i
  {
    var r := Rank(order, order[i]);
  }

  /** Along any edge of a topologically ordered graph the rank falls. */
  lemma EdgeLowersRank(g: Graph, order: seq<Id>, v: Id, d: Id)
    requires Topological(g, order) && Edge(g, v, d)
    ensures v in order && d in order && Rank(order, d) < Rank(order, v)
  {
    assert v in (set x | x in order);
    var i := Rank(order, v);
    assert FollowsDependencies(g, order, i);
    var j :| 0 <= j < i && order[j] == d;
    RankIsIndex(order, j);
  }

  lemma {:induction false} PathLowersRank(g: Graph, order: seq<Id>, p: seq<Id>)
    requires Topological(g, order) && Path(g, p) && |p| >= 2
    ensures p[0] in order && p[|p| - 1] in order && Rank(order, p[|p| - 1]) < Rank(order, p[0])
  {
    assert Edge(g, p[0], p[1]);
    EdgeLowersRank(g, order, p[0], p[1]);
    if |p| > 2 {
      var tail := p[1..];
      forall i | 0 <= i < |tail| - 1 ensures Edge(g, tail[i], tail[i + 1]) {
        assert Edge(g, p[i + 1], p[i + 2]);
      }
      PathLowersRank(g, order, tail);
    }
  }

  lemma TopologicalIsAcyclic(g: Graph, order: seq<Id>)
    requires Topological(g, order)
    ensures Acyclic(g)
  {
    forall p ensures !Cycle(g, p) {
      if Cycle(g, p) {
        PathLowersRank(g, order, p);
      }
    }
  }

  // ---------------------------------------------------------------- the search

  /** The two sets that the nested `visit` closure mutates. The ghost fields
      record what the sets mean: the visiting set is the current chain of
      dependents, the visited set is a dependencies-first prefix of an order. */
  class DepthFirstSearch {
    const dependencies: Graph
    var visiting: set<Id>
    var visited: set<Id>
    ghost var stack: seq<Id>
    ghost var order: seq<Id>

    ghost predicate Valid()
      reads this
    {
      && ClosedGraph(dependencies)
      && Path(dependencies, stack)
      && visiting == (set v | v in stack)
      && visiting <= dependencies.Keys
      && visited == (set v | v in order)
      && visited <= dependencies.Keys
      && visiting !! visited
      && Distinct(stack)
      && Distinct(order)
      && DependenciesFirst(dependencies, order)
    }

    constructor (g: Graph)
      requires ClosedGraph(g)
      ensures Valid() && dependencies == g && stack == [] && order == []
    {
      dependencies := g;
      visiting, visited := {}, {};
      stack, order := [], [];
    }

    /** `visit`: false stands for the raised cycle error. */
    method Visit(id: Id) returns (ok: bool)
      requires Valid() && id in dependencies
      requires stack == [] || Edge(dependencies, stack[|stack| - 1], id)
      modifies this
      decreases dependencies.Keys - visiting - visited
      ensures !ok ==> exists p :: Cycle(dependencies, p)
      ensures ok ==> Valid() && stack == old(stack) && visiting == old(visiting)
      ensures ok ==> id in visited && old(order) <= order && old(visited) <= visited
    {
      if id in visiting {
        ghost var i :| 0 <= i < |stack| && stack[i] == id;
        ghost var p := stack[i..] + [id];
        ChainClosesCycle(i, id);
        assert Cycle(dependencies, p);
        return false;
      }
      if id in visited {
        return true;
      }
      ghost var outer := stack;
      visiting := visiting + {id};
      stack := stack + [id];
      assert stack[|stack| - 1] == id;
      var pending := dependencies[id];
      var i := 0;
      while i < |pending|
        invariant 0 <= i <= |pending|
        invariant Valid() && stack == outer + [id] && visiting == old(visiting) + {id}
        invariant old(order) <= order && old(visited) <= visited
        invariant forall j :: 0 <= j < i ==> pending[j] in visited
      {
        assert stack[|stack| - 1] == id;
        assert Edge(dependencies, id, pending[i]);
        assert dependencies.Keys - visiting - visited < dependencies.Keys - old(visiting) - old(visited) by {
          assert id in dependencies.Keys - old(visiting) - old(visited);
        }
        ok := Visit(pending[i]);
        if !ok {
          return false;
        }
        i := i + 1;
      }
      Finish(id, outer);
      ok := true;
    }

    /** A chain of dependents that reaches one of its own members is a cycle. */
    lemma ChainClosesCycle(i: nat, id: Id)
      requires Valid() && i < |stack| && stack[i] == id
      requires Edge(dependencies, stack[|stack| - 1], id)
      ensures Cycle(dependencies, stack[i..] + [id])
    {
      var p := stack[i..] + [id];
      forall k | 0 <= k < |p| - 1 ensures Edge(dependencies, p[k], p[k + 1]) {
        if k < |p| - 2 {
          assert Edge(dependencies, stack[i + k], stack[i + k + 1]);
        }
      }
    }

    /** Leaves `id`: its dependencies are all visited, so it may follow them. */
    method Finish(id: Id, ghost outer: seq<Id>)
      requires Valid() && stack == outer + [id] && id in dependencies
      requires forall d :: d in dependencies[id] ==> d in visited
      modifies this
      ensures Valid() && stack == outer && visiting == old(visiting) - {id}
      ensures visited == old(visited) + {id} && order == old(order) + [id]
    {
      assert id in visiting;
      visiting := visiting - {id};
      visited := visited + {id};
      stack := outer;
      order := Extend(dependencies, order, id);
      assert forall k :: 0 <= k < |outer| ==> outer[k] == old(stack)[k];
      assert old(stack)[|outer|] == id;
      assert id !in outer;
      assert Path(dependencies, outer) by {
        forall k | 0 <= k < |outer| - 1 ensures Edge(dependencies, outer[k], outer[k + 1]) {
          assert Edge(dependencies, old(stack)[k], old(stack)[k + 1]);
        }
      }
    }
  }

  /** The identifier scan: fails on the first repeated task id. */
  method IndexTasks(tasks: seq<Task>) returns (unique: bool, g: Graph)
    ensures unique <==> UniqueIds(tasks)
    ensures unique ==> Describes(g, tasks)
  {
    g := map[];
    for i := 0 to |tasks|
      invariant UniqueIds(tasks[..i])
      invariant Describes(g, tasks[..i])
    {
      if tasks[i].key.task in g {
        var t :| t in tasks[..i] && t.key.task == tasks[i].key.task;
        var j :| 0 <= j < i && tasks[j] == t;
        return false, g;
      }
      g := g[tasks[i].key.task := tasks[i].dependencies];
      assert tasks[..i + 1] == tasks[..i] + [tasks[i]];
    }
    assert tasks[..|tasks|] == tasks;
    unique := true;
  }

  /** The dependency scan: fails on the first dependency outside the plan. */
  method DependenciesKnown(tasks: seq<Task>, known: set<Id>) returns (ok: bool)
    requires known == Identifiers(tasks)
    ensures ok <==> KnownDependencies(tasks)
  {
    for i := 0 to |tasks|
      invariant forall j, d :: 0 <= j < i && d in tasks[j].dependencies ==> d in known
    {
      var dependencies := tasks[i].dependencies;
      for k := 0 to |dependencies|
        invariant forall m :: 0 <= m < k ==> dependencies[m] in known
      {
        if dependencies[k] !in known {
          assert tasks[i] in tasks && dependencies[k] in tasks[i].dependencies;
          return false;
        }
      }
    }
    ok := true;
  }

  lemma KnownIsClosed(g: Graph, tasks: seq<Task>)
    requires Describes(g, tasks) && KnownDependencies(tasks)
    ensures ClosedGraph(g)
  {
    forall v, d | v in g && d in g[v] ensures d in g {
      var t :| t in tasks && t.key.task == v;
    }
  }

  /** Visits every task in turn. */
  method SearchAll(tasks: seq<Task>, g: Graph) returns (ok: bool, ghost order: seq<Id>)
    requires Describes(g, tasks) && ClosedGraph(g)
    ensures ok <==> Acyclic(g)
    ensures ok ==> Topological(g, order)
  {
    var search := new DepthFirstSearch(g);
    order := [];
    for i := 0 to |tasks|
      invariant fresh(search)
      invariant search.Valid() && search.dependencies == g && search.stack == []
      invariant forall j :: 0 <= j < i ==> tasks[j].key.task in search.visited
    {
      assert tasks[i] in tasks;
      ok := search.Visit(tasks[i].key.task);
      if !ok {
        return;
      }
    }
    order := search.order;
    forall v | v in g ensures v in order {
      var t :| t in tasks && t.key.task == v;
      assert v in search.visited;
    }
    assert (set v | v in order) == g.Keys;
    TopologicalIsAcyclic(g, order);
    ok := true;
  }

  /** `validate_task_graph`: which of the four outcomes a plan gets, and for an
      accepted plan an order in which every dependency precedes its dependents. */
  method ValidateTaskGraph(tasks: seq<Task>) returns (verdict: GraphVerdict, g: Graph, ghost order: seq<Id>)
    ensures verdict.DuplicateIds? <==> !UniqueIds(tasks)
    ensures verdict.MissingDependency? <==> UniqueIds(tasks) && !KnownDependencies(tasks)
    ensures UniqueIds(tasks) ==> Describes(g, tasks)
    ensures verdict.DependencyCycle? <==>
              UniqueIds(tasks) && KnownDependencies(tasks) && !Acyclic(g)
    ensures verdict.Accepted? ==> Topological(g, order)
  {
    order := [];
    var ok;
    ok, g := IndexTasks(tasks);
    if !ok {
      return DuplicateIds, g, order;
    }
    ok := DependenciesKnown(tasks, g.Keys);
    if !ok {
      return MissingDependency, g, order;
    }
    KnownIsClosed(g, tasks);
    ok, order := SearchAll(tasks, g);
    verdict := if ok then Accepted else DependencyCycle;
  }
}
