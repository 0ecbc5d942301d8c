/** The C++ client's DAG builder and its three-colour depth-first search. */
module DagBuilding {
  import opened Graph
  import opened Requests

  datatype BuilderError =
    | EmptyIdempotencyKey
    | DuplicateTask(id: Id)
    | SelfDependency(id: Id)
    | ParentMissing(id: Id)
    | ChildMissing(id: Id)
    | CycleInvolving(id: Id)

  datatype Result<T> = Ok(value: T) | Err(error: BuilderError)

  datatype Outcome = Pass | Fail(error: BuilderError)

  const WHITE := 0  // not visited
  const GRAY := 1   // on the recursion stack
  const BLACK := 2  // finished

  /** The colour table, passed by reference through the recursion. `finished` lists the black nodes in
      the order in which they turned black. */
  class ColorTable {
    var color: map<Id, int>
    ghost var finished: seq<Id>

    constructor (nodes: set<Id>)
      ensures color == map n | n in nodes :: WHITE
      ensures finished == []
    {
      color := map n | n in nodes :: WHITE;
      finished := [];
    }
  }

  function Whites(color: map<Id, int>): set<Id> {
    set n | n in color && color[n] == WHITE
  }

  /** Gray nodes are the recursion stack, itself a path; every black node was finished after all of
      its children. */
  ghost predicate Consistent(edges: set<Edge>, nodes: set<Id>, color: map<Id, int>, finished: seq<Id>, stack: seq<Id>) {
    && color.Keys == nodes
    && (forall n | n in nodes :: color[n] == WHITE || color[n] == GRAY || color[n] == BLACK)
    && (forall n :: n in stack <==> n in nodes && color[n] == GRAY)
    && (forall n :: n in finished <==> n in nodes && color[n] == BLACK)
    && (stack != [] ==> IsPath(edges, stack))
    && ParentsFirst(Flipped(edges), finished)
  }

  lemma ConsistentAt(edges: set<Edge>, nodes: set<Id>, color: map<Id, int>, finished: seq<Id>, stack: seq<Id>, v: Id)
    requires Consistent(edges, nodes, color, finished, stack)
    ensures color.Keys == nodes && (stack != [] ==> IsPath(edges, stack))
    ensures v in nodes ==> (color[v] == GRAY <==> v in stack) && (color[v] == WHITE || v in stack || v in finished)
  {
  }

  lemma PrefixMembers(a: seq<Id>, b: seq<Id>)
    requires a <= b
    ensures forall x | x in a :: x in b
  {
  }

  lemma WhitesAfterLeaving(start: map<Id, int>, color: map<Id, int>, u: Id)
    requires u in start && Whites(color) <= Whites(start[u := GRAY])
    ensures Whites(color[u := BLACK]) <= Whites(start)
  {
    assert Whites(color[u := BLACK]) <= Whites(color);
    assert Whites(start[u := GRAY]) <= Whites(start);
  }

  lemma NotOnStack(edges: set<Edge>, nodes: set<Id>, color: map<Id, int>, finished: seq<Id>, stack: seq<Id>, u: Id)
    requires Consistent(edges, nodes, color, finished, stack) && u in nodes && color[u] == WHITE
    ensures u !in stack
  {
  }

  /** What the adjacency list of u says. */
  lemma NeighborsOf(edges: seq<Edge>, nodes: set<Id>, adj: map<Id, seq<Id>>, u: Id)
    requires IsAdjacency(adj, edges) && EndpointsIn(EdgeSet(edges), nodes)
    ensures var children := if u in adj then adj[u] else [];
            && (forall c | c in children :: c in nodes && Edge(u, c) in EdgeSet(edges))
            && (forall c | Edge(u, c) in EdgeSet(edges) :: c in children)
  {
    ChildListIsChildren(edges, u);
  }

  lemma FinishedInOrder(edges: set<Edge>, nodes: set<Id>, color: map<Id, int>, finished: seq<Id>, stack: seq<Id>)
    requires Consistent(edges, nodes, color, finished, stack)
    ensures ParentsFirst(Flipped(edges), finished)
  {
  }

  lemma StartColors(edges: set<Edge>, nodes: set<Id>)
    ensures Consistent(edges, nodes, map n | n in nodes :: WHITE, [], [])
  {
  }

  method AdjacencyOf(edges: seq<Edge>) returns (adj: map<Id, seq<Id>>)
    ensures IsAdjacency(adj, edges)
  {
    adj := map[];
    for i := 0 to |edges|
      invariant IsAdjacency(adj, edges[..i])
    {
      var edge := edges[i];
      assert edges[..i + 1][..i] == edges[..i];
      adj := adj[edge.parent := (if edge.parent in adj then adj[edge.parent] else []) + [edge.child]];
    }
    assert edges[..|edges|] == edges;
  }

  lemma EnterNode(edges: set<Edge>, nodes: set<Id>, color: map<Id, int>, finished: seq<Id>, stack: seq<Id>, u: Id)
    requires Consistent(edges, nodes, color, finished, stack)
    requires u in nodes && color[u] == WHITE && (stack != [] ==> Edge(stack[|stack| - 1], u) in edges)
    ensures Consistent(edges, nodes, color[u := GRAY], finished, stack + [u])
    ensures |Whites(color[u := GRAY])| < |Whites(color)|
  {
    assert Whites(color[u := GRAY]) == Whites(color) - {u};
  }

  lemma LeaveNode(edges: set<Edge>, nodes: set<Id>, color: map<Id, int>, finished: seq<Id>, stack: seq<Id>, u: Id)
    requires u in nodes && u !in stack && Consistent(edges, nodes, color, finished, stack + [u])
    requires forall c | Edge(u, c) in edges :: c in finished
    ensures Consistent(edges, nodes, color[u := BLACK], finished + [u], stack)
  {
    assert u in stack + [u];
    assert forall n | n != u :: n in stack <==> n in stack + [u];
    assert forall n :: n in finished + [u] <==> n in finished || n == u;
    assert forall p | p in Parents(Flipped(edges), u) :: Edge(u, p) in edges;
    ExtendOrder(Flipped(edges), finished, u);
    forall i | 0 <= i < |stack| - 1 ensures Edge(stack[i], stack[i + 1]) in edges {
      assert Edge((stack + [u])[i], (stack + [u])[i + 1]) in edges;
    }
    assert ParentsFirst(Flipped(edges), finished + [u]);
    assert forall n :: n in stack <==> n in nodes && color[u := BLACK][n] == GRAY;
    assert forall n :: n in finished + [u] <==> n in nodes && color[u := BLACK][n] == BLACK;
  }

  /** The order of std::string, in which a std::map is iterated. */
  predicate AtMost(a: Id, b: Id) {
    if a == "" then true
    else if b == "" then false
    else if a[0] != b[0] then a[0] < b[0]
    else AtMost(a[1..], b[1..])
  }

  /** Position k is the first one at which the texts differ. */
  ghost predicate DiffersFirstAt(a: Id, b: Id, k: nat) {
    k < |a| && k < |b| && a[..k] == b[..k] && a[k] != b[k]
  }

  /** The order is lexicographic: a shorter beginning comes first, otherwise the first difference decides. */
  lemma {:induction false} AtMostIsLexicographic(a: Id, b: Id)
    ensures AtMost(a, b) <==> a <= b || exists k: nat :: DiffersFirstAt(a, b, k) && a[k] < b[k]
  {
    if a != "" && b != "" && a[0] == b[0] {
      var c, d := a[1..], b[1..];
      AtMostIsLexicographic(c, d);
      assert a <= b <==> c <= d;
      forall k: nat | DiffersFirstAt(c, d, k)
        ensures DiffersFirstAt(a, b, k + 1) && a[k + 1] == c[k] && b[k + 1] == d[k]
      {
        assert a[..k + 1] == [a[0]] + c[..k] && b[..k + 1] == [b[0]] + d[..k];
      }
      forall k: nat | DiffersFirstAt(a, b, k)
        ensures k > 0 && DiffersFirstAt(c, d, k - 1) && c[k - 1] == a[k] && d[k - 1] == b[k]
      {
        assert c[..k - 1] == a[..k][1..] && d[..k - 1] == b[..k][1..];
      }
    } else if a != "" && b != "" {
      assert DiffersFirstAt(a, b, 0);
      forall k: nat | DiffersFirstAt(a, b, k) ensures k == 0 { SameStart(a, b, k); }
    }
  }

  lemma SameStart(a: Id, b: Id, k: nat)
    requires DiffersFirstAt(a, b, k)
    ensures k > 0 ==> a[0] == b[0]
  {
    if k > 0 { assert a[..k][0] == a[0] && b[..k][0] == b[0]; }
  }

  lemma {:induction false} AtMostIsTotal(a: Id, b: Id)
    ensures AtMost(a, b) || AtMost(b, a)
    ensures AtMost(a, b) && AtMost(b, a) ==> a == b
    ensures AtMost(a, a)
  {
    if a != "" && b != "" {
      AtMostIsTotal(a[1..], b[1..]);
      assert a == [a[0]] + a[1..] && b == [b[0]] + b[1..];
    }
    if a != "" { AtMostIsTotal(a[1..], a[1..]); }
  }

  lemma {:induction false} AtMostIsTransitive(a: Id, b: Id, c: Id)
    requires AtMost(a, b) && AtMost(b, c)
    ensures AtMost(a, c)
  {
    if a != "" && b != "" && c != "" && a[0] == b[0] == c[0] {
      AtMostIsTransitive(a[1..], b[1..], c[1..]);
    }
  }

  ghost predicate IsLeast(ids: set<Id>, id: Id) {
    id in ids && forall x | x in ids :: AtMost(id, x)
  }

  lemma LeastExists(ids: set<Id>) returns (id: Id)
    requires ids != {}
    ensures IsLeast(ids, id)
  {
    var some :| some in ids;
    var rest := ids - {some};
    AtMostIsTotal(some, some);
    if rest == {} {
      assert ids == {some};
      id := some;
    } else {
      var least := LeastExists(rest);
      AtMostIsTotal(some, least);
      id := if AtMost(some, least) then some else least;
      forall x | x in ids ensures AtMost(id, x) {
        if x != some {
          assert x in rest && AtMost(least, x);
          if AtMost(some, least) { AtMostIsTransitive(some, least, x); }
        }
      }
    }
  }

  lemma SmallerOrEqual(a: set<Id>, b: set<Id>)
    requires a <= b
    ensures |a| <= |b|
  {
    assert b == a + (b - a);
  }

  class DagBuilder {
    const idempotencyKey: string
    var tasksMap: map<Id, TaskSpec>
    var taskEdges: seq<Edge>

    ghost predicate Valid()
      reads this
    {
      && idempotencyKey != ""
      && (forall id | id in tasksMap :: tasksMap[id].naturalId == id)
      && (forall e | e in taskEdges :: e.parent != e.child && e.parent in tasksMap && e.child in tasksMap)
    }

    constructor (key: string)
      requires key != ""
      ensures Valid() && idempotencyKey == key && tasksMap == map[] && taskEdges == []
    {
      idempotencyKey, tasksMap, taskEdges := key, map[], [];
    }

    /** The C++ constructor throws on an empty key. */
    static method Create(key: string) returns (r: Result<DagBuilder>)
      ensures r == Err(EmptyIdempotencyKey) <==> key == ""
      ensures r.Ok? <==> key != ""
      ensures r.Ok? ==> fresh(r.value) && r.value.Valid() && r.value.tasksMap == map[] && r.value.taskEdges == []
    {
      if key == "" {
        return Err(EmptyIdempotencyKey);
      }
      var b := new DagBuilder(key);
      return Ok(b);
    }

    method AddTask(naturalId: Id, funcName: string, funcParams: string) returns (r: Outcome)
      requires Valid()
      modifies this`tasksMap
      ensures Valid()
      ensures r == if naturalId in old(tasksMap) then Fail(DuplicateTask(naturalId)) else Pass
      ensures tasksMap == if r.Pass?
                          then old(tasksMap)[naturalId := TaskSpec(naturalId, funcName, funcParams, 0, 0, 0)]
                          else old(tasksMap)
    {
      if naturalId in tasksMap {
        return Fail(DuplicateTask(naturalId));
      }
      tasksMap := tasksMap[naturalId := TaskSpec(naturalId, funcName, funcParams, 0, 0, 0)];
      return Pass;
    }

    method AddDependency(parent: Id, child: Id) returns (r: Outcome)
      requires Valid()
      modifies this`taskEdges
      ensures Valid()
      ensures r == if parent == child then Fail(SelfDependency(parent))
                   else if parent !in tasksMap then Fail(ParentMissing(parent))
                   else if child !in tasksMap then Fail(ChildMissing(child))
                   else Pass
      ensures taskEdges == old(taskEdges) + if r.Pass? then [Edge(parent, child)] else []
    {
      if parent == child {
        return Fail(SelfDependency(parent));
      }
      if parent !in tasksMap {
        return Fail(ParentMissing(parent));
      }
      if child !in tasksMap {
        return Fail(ChildMissing(child));
      }
      taskEdges := taskEdges + [Edge(parent, child)];
      return Pass;
    }

    /** Visits everything reachable from `u`, never entering a node twice: the recursion is bounded by
        the number of white nodes. */
    method HasCycleDFS(u: Id, visited: ColorTable, adj: map<Id, seq<Id>>, ghost edges: seq<Edge>, ghost stack: seq<Id>)
      returns (found: bool)
      requires IsAdjacency(adj, edges) && EndpointsIn(EdgeSet(edges), visited.color.Keys)
      requires Consistent(EdgeSet(edges), visited.color.Keys, visited.color, visited.finished, stack)
      requires u in visited.color && visited.color[u] == WHITE
      requires stack != [] ==> Edge(stack[|stack| - 1], u) in EdgeSet(edges)
      modifies visited
      ensures found ==> LeadsToCycle(EdgeSet(edges), (stack + [u])[0])
      ensures !found ==>
                && Consistent(EdgeSet(edges), old(visited.color.Keys), visited.color, visited.finished, stack)
                && old(visited.finished) <= visited.finished && u in visited.finished
                && Whites(visited.color) <= Whites(old(visited.color))
      decreases |Whites(visited.color)|, 0
    {
      ghost var nodes, E, start := visited.color.Keys, EdgeSet(edges), visited.color;
      EnterNode(E, nodes, visited.color, visited.finished, stack, u);
      NotOnStack(E, nodes, visited.color, visited.finished, stack, u);
      NeighborsOf(edges, nodes, adj, u);
      hide Consistent, IsAdjacency, EndpointsIn, ChildList, EdgeSet, Whites, LeadsToCycle, IsPath;
      visited.color := visited.color[u := GRAY];
      if u in adj {
        found := VisitNeighbors(u, adj[u], visited, adj, edges, stack + [u]);
        if found {
          return true;
        }
      }
      LeaveNode(E, nodes, visited.color, visited.finished, stack, u);
      WhitesAfterLeaving(start, visited.color, u);
      visited.color := visited.color[u := BLACK];
      visited.finished := visited.finished + [u];
      found := false;
    }

    /** The loop over the neighbours of the node on top of the stack. */
    method VisitNeighbors(u: Id, neighbors: seq<Id>, visited: ColorTable, adj: map<Id, seq<Id>>, ghost edges: seq<Edge>,
                          ghost stack: seq<Id>)
      returns (found: bool)
      requires IsAdjacency(adj, edges) && EndpointsIn(EdgeSet(edges), visited.color.Keys)
      requires Consistent(EdgeSet(edges), visited.color.Keys, visited.color, visited.finished, stack)
      requires stack != [] && stack[|stack| - 1] == u
      requires forall v | v in neighbors :: v in visited.color && Edge(u, v) in EdgeSet(edges)
      modifies visited
      ensures found ==> LeadsToCycle(EdgeSet(edges), stack[0])
      ensures !found ==>
                && Consistent(EdgeSet(edges), old(visited.color.Keys), visited.color, visited.finished, stack)
                && old(visited.finished) <= visited.finished && (forall v | v in neighbors :: v in visited.finished)
                && Whites(visited.color) <= Whites(old(visited.color))
      decreases |Whites(visited.color)|, 1
    {
      ghost var nodes, E, start := visited.color.Keys, EdgeSet(edges), visited.color;
      hide Consistent, IsAdjacency, EndpointsIn, EdgeSet, Whites, LeadsToCycle, IsPath;
      for k := 0 to |neighbors|
        invariant Consistent(E, nodes, visited.color, visited.finished, stack)
        invariant old(visited.finished) <= visited.finished
        invariant Whites(visited.color) <= Whites(start)
        invariant forall v | v in neighbors[..k] :: v in visited.finished
      {
        var v := neighbors[k];
        ConsistentAt(E, nodes, visited.color, visited.finished, stack, v);
        if visited.color[v] == GRAY {
          GrayNeighborClosesCycle(E, stack, v);
          return true;
        }
        if visited.color[v] == WHITE {
          SmallerOrEqual(Whites(visited.color), Whites(start));
          ghost var before := visited.finished;
          var deeper := HasCycleDFS(v, visited, adj, edges, stack);
          if deeper {
            return true;
          }
          PrefixMembers(before, visited.finished);
        }
      }
      found := false;
    }

    /** Throws if and only if the edges contain a cycle; the task named in the message is the first one, in the
        order of the ids, from which a cycle is reached (it need not lie on the cycle). */
    method ValidateCycle() returns (r: Outcome)
      requires Valid()
      ensures r.Pass? <==> Acyclic(EdgeSet(taskEdges))
      ensures r.Fail? ==>
                r.error.CycleInvolving? && r.error.id in tasksMap && LeadsToCycle(EdgeSet(taskEdges), r.error.id)
      ensures r.Fail? ==> forall id | id in tasksMap && LeadsToCycle(EdgeSet(taskEdges), id) :: AtMost(r.error.id, id)
    {
      var adj := AdjacencyOf(taskEdges);
      hide IsAdjacency, Consistent, LeadsToCycle, AtMost, Acyclic, ParentsFirst;
      StartColors(EdgeSet(taskEdges), tasksMap.Keys);
      var visited := new ColorTable(tasksMap.Keys);
      ghost var E := EdgeSet(taskEdges);
      var remaining := tasksMap.Keys;
      while remaining != {}
        invariant remaining <= tasksMap.Keys
        invariant Consistent(E, tasksMap.Keys, visited.color, visited.finished, [])
        invariant forall n | n in tasksMap.Keys - remaining :: n in visited.finished
      {
        ghost var least := LeastExists(remaining);
        var start :| start in remaining && forall x | x in remaining :: AtMost(start, x);
        ghost var earlier, finished := tasksMap.Keys - remaining, visited.finished;
        remaining := remaining - {start};
        FinishedInOrder(E, tasksMap.Keys, visited.color, finished, []);
        ConsistentAt(E, tasksMap.Keys, visited.color, finished, [], start);
        if visited.color[start] == WHITE {
          var found := HasCycleDFS(start, visited, adj, taskEdges, []);
          if found {
            LeadingToCycleIsCyclic(E, start);
            forall id | id in tasksMap && LeadsToCycle(E, id) ensures AtMost(start, id) {
              if id in earlier { ChildrenFirstLeadsNowhere(E, finished, id); }
            }
            return Fail(CycleInvolving(start));
          }
          PrefixMembers(finished, visited.finished);
        }
      }
      FinishedInOrder(E, tasksMap.Keys, visited.color, visited.finished, []);
      OrderedGraphIsAcyclic(Flipped(E), visited.finished);
      FlippingKeepsAcyclicity(E);
      return Pass;
    }

    /** Fails exactly on cycles. What it builds is a DAG request, accepted by the Kahn validator, unless
        a task was added under the empty id. */
    method BuildProto() returns (r: Result<Request>)
      requires Valid()
      ensures r.Ok? <==> Acyclic(EdgeSet(taskEdges))
      ensures r.Ok? ==>
                && r.value.idempotencyKey == idempotencyKey && r.value.edges == taskEdges
                && DistinctIds(r.value.tasks) && |r.value.tasks| == |tasksMap|
                && (forall t | t in r.value.tasks :: t.naturalId in tasksMap && tasksMap[t.naturalId] == t)
                && NaturalIds(r.value.tasks) == tasksMap.Keys
                && (IsDagRequest(r.value) <==> "" !in tasksMap)
    {
      var ok := ValidateCycle();
      if ok.Fail? {
        return Err(ok.error);
      }
      var tasks := CollectTasks();
      DistinctIdsIffFullCount(tasks);
      hide Acyclic, DistinctIds, NaturalIds;
      return Ok(Request(idempotencyKey, tasks, taskEdges));
    }

    method CollectTasks() returns (tasks: seq<TaskSpec>)
      requires Valid()
      ensures NaturalIds(tasks) == tasksMap.Keys && |tasks| == |tasksMap|
      ensures forall t | t in tasks :: t.naturalId in tasksMap && tasksMap[t.naturalId] == t
    {
      tasks := [];
      var remaining := tasksMap.Keys;
      while remaining != {}
        invariant remaining <= tasksMap.Keys
        invariant NaturalIds(tasks) == tasksMap.Keys - remaining
        invariant |tasks| == |tasksMap| - |remaining|
        invariant forall t | t in tasks :: t.naturalId in tasksMap && tasksMap[t.naturalId] == t
      {
        var id :| id in remaining;
        remaining := remaining - {id};
        assert NaturalIds(tasks + [tasksMap[id]]) == NaturalIds(tasks) + {id};
        tasks := tasks + [tasksMap[id]];
      }
    }
  }

  lemma GrayNeighborClosesCycle(edges: set<Edge>, stack: seq<Id>, v: Id)
    requires stack != [] && IsPath(edges, stack) && v in stack && Edge(stack[|stack| - 1], v) in edges
    ensures LeadsToCycle(edges, stack[0])
  {
    var i :| 0 <= i < |stack| && stack[i] == v;
    var p := stack + [v];
    assert IsPath(edges, p) && p[i] == p[|p| - 1];
  }

  /** The error names the task "a", which is on no cycle: a -> b, b -> c, c -> b. */
  method NamedTaskOffCycle() returns (builder: DagBuilder, r: Outcome)
    ensures builder.Valid() && r == Fail(CycleInvolving("a"))
    ensures !OnCycle(EdgeSet(builder.taskEdges), "a")
  {
    LollipopFacts();
    hide LeadsToCycle, OnCycle, Acyclic, AtMost, EdgeSet;
    builder := Lollipop();
    r := builder.ValidateCycle();
    LeadingToCycleIsCyclic(EdgeSet(LOLLIPOP), "a");
    assert r.error.id == "a";
  }

  method Lollipop() returns (builder: DagBuilder)
    ensures fresh(builder) && builder.Valid() && builder.taskEdges == LOLLIPOP
            && builder.tasksMap.Keys == {"a", "b", "c"}
  {
    builder := new DagBuilder("key");
    var r := builder.AddTask("a", "run", "{}");
    r := builder.AddTask("b", "run", "{}");
    r := builder.AddTask("c", "run", "{}");
    r := builder.AddDependency("a", "b");
    r := builder.AddDependency("b", "c");
    r := builder.AddDependency("c", "b");
  }

  const LOLLIPOP := [Edge("a", "b"), Edge("b", "c"), Edge("c", "b")]

  lemma LollipopFacts()
    ensures LeadsToCycle(EdgeSet(LOLLIPOP), "a") && !OnCycle(EdgeSet(LOLLIPOP), "a")
    ensures AtMost("a", "b") && AtMost("a", "c") && !AtMost("b", "a") && !AtMost("c", "a")
  {
    var edges := EdgeSet(LOLLIPOP);
    assert edges == {Edge("a", "b"), Edge("b", "c"), Edge("c", "b")} by {
      assert LOLLIPOP[0] == Edge("a", "b") && LOLLIPOP[1] == Edge("b", "c") && LOLLIPOP[2] == Edge("c", "b");
    }
    var p := ["a", "b", "c", "b"];
    assert IsPath(edges, p) && p[1] == p[3];
    if OnCycle(edges, "a") {
      CycleNodeHasParent(edges, "a");
    }
  }
}
