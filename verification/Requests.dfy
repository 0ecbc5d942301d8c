/** The submission request shared by the Go command line, the C++ client and the API server. */
module Requests {
  import opened Graph

  datatype TaskSpec = TaskSpec(naturalId: Id, funcName: string, funcParams: string,
                               priority: nat, maxRetry: nat, timeoutMs: nat)

  datatype Request = Request(idempotencyKey: string, tasks: seq<TaskSpec>, edges: seq<Edge>)

  function EdgeSet(edges: seq<Edge>): set<Edge> {
    set e | e in edges
  }

  function NaturalIds(tasks: seq<TaskSpec>): set<Id> {
    set t | t in tasks :: t.naturalId
  }

  ghost predicate DistinctIds(tasks: seq<TaskSpec>) {
    forall i, j | 0 <= i < j < |tasks| :: tasks[i].naturalId != tasks[j].naturalId
  }

  /** What every request must satisfy to run as a DAG. */
  ghost predicate IsDagRequest(req: Request) {
    && "" !in NaturalIds(req.tasks)
    && DistinctIds(req.tasks)
    && EndpointsIn(EdgeSet(req.edges), NaturalIds(req.tasks))
    && Acyclic(EdgeSet(req.edges))
  }

  /** The adjacency list of one node, in the order of the edges. */
  function ChildList(edges: seq<Edge>, parent: Id): seq<Id> {
    if edges == [] then [] else
    var last := edges[|edges| - 1];
    ChildList(edges[..|edges| - 1], parent) + if last.parent == parent then [last.child] else []
  }

  lemma {:induction false} ChildListIsChildren(edges: seq<Edge>, p: Id)
    ensures forall c :: c in ChildList(edges, p) <==> Edge(p, c) in EdgeSet(edges)
  {
    if edges != [] {
      var m := |edges| - 1;
      ChildListIsChildren(edges[..m], p);
      assert edges == edges[..m] + [edges[m]];
    }
  }

  /** How many edges, counted with repetition, lead into `n` from a parent outside `done`. */
  function OpenDegree(edges: seq<Edge>, n: Id, done: set<Id>): nat {
    if edges == [] then 0 else
    var last := edges[|edges| - 1];
    OpenDegree(edges[..|edges| - 1], n, done) + if last.child == n && last.parent !in done then 1 else 0
  }

  lemma {:induction false} OpenDegreeZero(edges: seq<Edge>, n: Id, done: set<Id>)
    ensures OpenDegree(edges, n, done) == 0 <==> Parents(EdgeSet(edges), n) <= done
  {
    if edges != [] {
      var m := |edges| - 1;
      OpenDegreeZero(edges[..m], n, done);
      assert edges == edges[..m] + [edges[m]];
      assert EdgeSet(edges) == EdgeSet(edges[..m]) + {edges[m]};
      assert Parents(EdgeSet(edges), n) ==
             Parents(EdgeSet(edges[..m]), n) + if edges[m].child == n then {edges[m].parent} else {};
    }
  }

  function InDegree(edges: seq<Edge>, n: Id): nat {
    OpenDegree(edges, n, {})
  }

  /** Without repeated edges the edge count into a node is its number of parents. */
  lemma {:induction false} InDegreeCountsParents(edges: seq<Edge>, n: Id)
    requires NoDuplicates(edges)
    ensures InDegree(edges, n) == |Parents(EdgeSet(edges), n)|
  {
    if edges != [] {
      var m := |edges| - 1;
      InDegreeCountsParents(edges[..m], n);
      assert edges == edges[..m] + [edges[m]];
      assert edges[m] !in edges[..m];
      assert Parents(EdgeSet(edges), n) ==
             Parents(EdgeSet(edges[..m]), n) + if edges[m].child == n then {edges[m].parent} else {};
      if edges[m].child == n {
        assert edges[m].parent !in Parents(EdgeSet(edges[..m]), n);
      }
    }
  }

  ghost predicate IsAdjacency(adj: map<Id, seq<Id>>, edges: seq<Edge>) {
    forall p :: (if p in adj then adj[p] else []) == ChildList(edges, p)
  }

  lemma LastIdCounts(tasks: seq<TaskSpec>)
    requires tasks != []
    ensures var m := |tasks| - 1;
            && NaturalIds(tasks) == NaturalIds(tasks[..m]) + {tasks[m].naturalId}
            && (DistinctIds(tasks) <==> DistinctIds(tasks[..m]) && tasks[m].naturalId !in NaturalIds(tasks[..m]))
  {
    var m := |tasks| - 1;
    assert tasks == tasks[..m] + [tasks[m]];
    if tasks[m].naturalId in NaturalIds(tasks[..m]) {
      var i :| 0 <= i < m && tasks[i].naturalId == tasks[m].naturalId;
    }
  }

  lemma {:induction false} DistinctIdsIffFullCount(tasks: seq<TaskSpec>)
    ensures |NaturalIds(tasks)| <= |tasks|
    ensures DistinctIds(tasks) <==> |NaturalIds(tasks)| == |tasks|
  {
    if tasks != [] {
      var m := |tasks| - 1;
      DistinctIdsIffFullCount(tasks[..m]);
      LastIdCounts(tasks);
      hide NaturalIds, DistinctIds;
    }
  }
}
