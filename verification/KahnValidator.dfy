/** The Go command line's request validator: Kahn's algorithm over maps that are updated in place. */
module KahnValidator {
  import opened Graph
  import opened Requests

  datatype Verdict =
    | Accepted
    | MissingNaturalId
    | ParentNotFound(id: Id)
    | ChildNotFound(id: Id)
    | CycleDetected(processed: nat, total: nat)

  /** Finishing `p` lowers the open degree of every node by its multiplicity among p's children. */
  lemma {:induction false} FinishingLowersDegrees(edges: seq<Edge>, n: Id, done: set<Id>, p: Id)
    requires p !in done
    ensures OpenDegree(edges, n, done) == OpenDegree(edges, n, done + {p}) + multiset(ChildList(edges, p))[n]
  {
    if edges != [] {
      FinishingLowersDegrees(edges[..|edges| - 1], n, done, p);
    }
  }

  /** Indegrees mirror the open degrees, and the nodes already popped or waiting in the queue are exactly
      those whose indegree is zero. `owed` are the decrements the inner loop has not done yet. */
  ghost predicate KahnInvariant(edges: seq<Edge>, nodes: set<Id>, inDegree: map<Id, int>,
                                done: seq<Id>, queue: seq<Id>, owed: multiset<Id>) {
    && inDegree.Keys == nodes
    && (forall n | n in nodes :: inDegree[n] == OpenDegree(edges, n, set x | x in done) + owed[n])
    && (forall n | n in nodes :: n in done + queue <==> inDegree[n] == 0)
    && (forall n | n in done + queue :: n in nodes)
    && NoDuplicates(done + queue)
    && ParentsFirst(EdgeSet(edges), done)
  }

  lemma PopKeepsInvariant(edges: seq<Edge>, nodes: set<Id>, inDegree: map<Id, int>, done: seq<Id>, queue: seq<Id>)
    requires queue != [] && KahnInvariant(edges, nodes, inDegree, done, queue, multiset{})
    ensures KahnInvariant(edges, nodes, inDegree, done + [queue[0]], queue[1..], multiset(ChildList(edges, queue[0])))
  {
    var curr := queue[0];
    var before := set x | x in done;
    assert curr == (done + queue)[|done|];
    assert (set x | x in done + [curr]) == before + {curr};
    assert done + [curr] + queue[1..] == done + queue;
    assert forall i | 0 <= i < |done| :: done[i] == (done + queue)[i];
    forall n | n in nodes {
      FinishingLowersDegrees(edges, n, before, curr);
    }
    OpenDegreeZero(edges, curr, before);
    ExtendOrder(EdgeSet(edges), done, curr);
  }

  lemma DecrementKeepsInvariant(edges: seq<Edge>, nodes: set<Id>, inDegree: map<Id, int>, done: seq<Id>,
                                queue: seq<Id>, owed: multiset<Id>, c: Id)
    requires KahnInvariant(edges, nodes, inDegree, done, queue, owed) && c in owed && c in nodes
    ensures KahnInvariant(edges, nodes, inDegree[c := inDegree[c] - 1], done,
                          if inDegree[c] == 1 then queue + [c] else queue, owed - multiset{c})
  {
    assert inDegree[c] != 0 && c !in done + queue;
    assert done + (queue + [c]) == (done + queue) + [c];
  }

  lemma DoneFits(edges: seq<Edge>, nodes: set<Id>, inDegree: map<Id, int>, done: seq<Id>,
                 queue: seq<Id>, owed: multiset<Id>)
    requires KahnInvariant(edges, nodes, inDegree, done, queue, owed)
    ensures |done| <= |nodes|
  {
    assert forall i | 0 <= i < |done| :: done[i] == (done + queue)[i];
    DistinctFits(done, nodes);
  }

  lemma StuckHasParent(edges: seq<Edge>, nodes: set<Id>, inDegree: map<Id, int>, done: seq<Id>, n: Id)
    requires EndpointsIn(EdgeSet(edges), nodes) && KahnInvariant(edges, nodes, inDegree, done, [], multiset{})
    requires n in nodes && n !in done
    ensures HasParentIn(EdgeSet(edges), nodes - (set x | x in done), n)
  {
    assert done + [] == done;
    OpenDegreeZero(edges, n, set x | x in done);
    var m :| m in Parents(EdgeSet(edges), n) && m !in done;
    assert Edge(m, n) in EdgeSet(edges);
  }

  /** When the queue has run empty, the count decides: all nodes are done exactly on acyclic graphs, and
      every node left over waits for another one left over. */
  lemma FinalStateDecides(edges: seq<Edge>, nodes: set<Id>, inDegree: map<Id, int>, done: seq<Id>)
    requires EndpointsIn(EdgeSet(edges), nodes) && KahnInvariant(edges, nodes, inDegree, done, [], multiset{})
    ensures |done| <= |nodes| && (|done| == |nodes| <==> Acyclic(EdgeSet(edges)))
    ensures EveryNodeHasParentWithin(EdgeSet(edges), nodes - set n | n in done)
  {
    var finished := set n | n in done;
    var stuck := nodes - finished;
    assert done + [] == done;
    DistinctFits(done, nodes);
    assert finished <= nodes;
    CountDistinct(done);
    forall n | n in stuck ensures HasParentIn(EdgeSet(edges), stuck, n) {
      StuckHasParent(edges, nodes, inDegree, done, n);
    }
    hide KahnInvariant, Acyclic;
    if |done| == |nodes| {
      SubsetOfSameSize(finished, nodes);
      OrderedGraphIsAcyclic(EdgeSet(edges), done);
    } else {
      assert stuck != {} by { assert nodes == finished + stuck; }
      var p := ParentClosedSetHasCycle(EdgeSet(edges), stuck);
    }
  }

  lemma {:induction false} CountDistinct(s: seq<Id>)
    requires NoDuplicates(s)
    ensures |set x | x in s| == |s|
  {
    if s != [] {
      var m := |s| - 1;
      CountDistinct(s[..m]);
      assert (set x | x in s) == (set x | x in s[..m]) + {s[m]};
    }
  }

  lemma {:induction false} SubsetOfSameSize(a: set<Id>, b: set<Id>)
    requires a <= b && |b| <= |a|
    ensures a == b
  {
    assert |b| == |a| + |b - a| by { assert b == a + (b - a); }
    assert b - a == {};
  }

  ghost predicate FirstBadEdge(req: Request, i: nat) {
    && i < |req.edges|
    && EndpointsIn(EdgeSet(req.edges[..i]), NaturalIds(req.tasks))
    && !(req.edges[i].parent in NaturalIds(req.tasks) && req.edges[i].child in NaturalIds(req.tasks))
  }

  ghost function EdgeVerdict(req: Request, i: nat): Verdict
    requires i < |req.edges|
  {
    if req.edges[i].parent !in NaturalIds(req.tasks)
    then ParentNotFound(req.edges[i].parent) else ChildNotFound(req.edges[i].child)
  }

  /** `done` was sorted topologically and every node left over waits for another one left over. */
  ghost predicate StuckAfter(req: Request, done: seq<Id>) {
    && NoDuplicates(done)
    && ParentsFirst(EdgeSet(req.edges), done)
    && EveryNodeHasParentWithin(EdgeSet(req.edges), NaturalIds(req.tasks) - set n | n in done)
  }

  lemma FinalStateIsStuck(req: Request, inDegree: map<Id, int>, done: seq<Id>)
    requires EndpointsIn(EdgeSet(req.edges), NaturalIds(req.tasks))
    requires KahnInvariant(req.edges, NaturalIds(req.tasks), inDegree, done, [], multiset{})
    ensures StuckAfter(req, done)
  {
    FinalStateDecides(req.edges, NaturalIds(req.tasks), inDegree, done);
    assert done + [] == done;
  }

  /** `adj` and `inDegree` describe the first edges of the request. */
  ghost predicate GraphMatches(adj: map<Id, seq<Id>>, inDegree: map<Id, int>, edges: seq<Edge>) {
    && IsAdjacency(adj, edges)
    && (forall n | n in inDegree :: inDegree[n] == OpenDegree(edges, n, {}))
  }

  lemma AddingEdgeKeepsMatch(adj: map<Id, seq<Id>>, inDegree: map<Id, int>, edges: seq<Edge>, edge: Edge)
    requires GraphMatches(adj, inDegree, edges) && edge.child in inDegree
    ensures GraphMatches(adj[edge.parent := (if edge.parent in adj then adj[edge.parent] else []) + [edge.child]],
                         inDegree[edge.child := inDegree[edge.child] + 1], edges + [edge])
  {
    hide OpenDegree, ChildList;
    var more := edges + [edge];
    forall n ensures OpenDegree(more, n, {}) == OpenDegree(edges, n, {}) + if edge.child == n then 1 else 0
      ensures ChildList(more, n) == ChildList(edges, n) + if edge.parent == n then [edge.child] else []
    {
      OneMoreEdge(edges, edge, n);
    }
  }

  lemma OneMoreEdge(edges: seq<Edge>, edge: Edge, n: Id)
    ensures OpenDegree(edges + [edge], n, {}) == OpenDegree(edges, n, {}) + if edge.child == n then 1 else 0
    ensures ChildList(edges + [edge], n) == ChildList(edges, n) + if edge.parent == n then [edge.child] else []
  {
    assert (edges + [edge])[..|edges|] == edges;
  }

  /** The first i edges have known ends. */
  ghost predicate KnownUpTo(edges: seq<Edge>, known: set<Id>, i: nat)
    requires i <= |edges|
  {
    forall j | 0 <= j < i :: edges[j].parent in known && edges[j].child in known
  }

  lemma NoEdgeYet(edges: seq<Edge>, known: set<Id>, zeroes: map<Id, int>)
    requires known == zeroes.Keys && forall n | n in known :: zeroes[n] == 0
    ensures GraphMatches(map[], zeroes, edges[..0]) && KnownUpTo(edges, known, 0)
  {
  }

  lemma OneMoreKnown(adj: map<Id, seq<Id>>, inDegree: map<Id, int>, edges: seq<Edge>, known: set<Id>, i: nat)
    requires i < |edges| && GraphMatches(adj, inDegree, edges[..i]) && KnownUpTo(edges, known, i)
    requires inDegree.Keys == known && edges[i].parent in known && edges[i].child in known
    ensures KnownUpTo(edges, known, i + 1)
    ensures var e := edges[i];
            GraphMatches(adj[e.parent := (if e.parent in adj then adj[e.parent] else []) + [e.child]],
                         inDegree[e.child := inDegree[e.child] + 1], edges[..i + 1])
  {
    hide GraphMatches;
    AddingEdgeKeepsMatch(adj, inDegree, edges[..i], edges[i]);
    assert edges[..i + 1] == edges[..i] + [edges[i]];
  }

  lemma KnownEndpoints(edges: seq<Edge>, known: set<Id>)
    requires KnownUpTo(edges, known, |edges|)
    ensures EndpointsIn(EdgeSet(edges), known)
  {
  }

  lemma BadEdge(req: Request, known: set<Id>, i: nat)
    requires i < |req.edges| && known == NaturalIds(req.tasks)
    requires KnownUpTo(req.edges, known, i)
    requires !(req.edges[i].parent in known && req.edges[i].child in known)
    ensures FirstBadEdge(req, i)
    ensures EdgeVerdict(req, i) == if req.edges[i].parent !in known then ParentNotFound(req.edges[i].parent)
                                   else ChildNotFound(req.edges[i].child)
  {
  }

  lemma BadEdgeBreaks(req: Request)
    ensures (exists i: nat :: FirstBadEdge(req, i)) ==> !EndpointsIn(EdgeSet(req.edges), NaturalIds(req.tasks))
  {
    if i: nat :| FirstBadEdge(req, i) {
      assert req.edges[i] in EdgeSet(req.edges);
    }
  }

  /** Second phase: adjacency lists and indegrees, checking the endpoints of each edge. */
  method BuildGraph(req: Request, known: set<Id>, zeroes: map<Id, int>)
    returns (verdict: Verdict, adj: map<Id, seq<Id>>, inDegree: map<Id, int>)
    requires known == NaturalIds(req.tasks) == zeroes.Keys
    requires forall n | n in known :: zeroes[n] == 0
    ensures verdict.Accepted? || verdict.ParentNotFound? || verdict.ChildNotFound?
    ensures verdict.Accepted? ==>
              && EndpointsIn(EdgeSet(req.edges), known)
              && inDegree.Keys == known
              && GraphMatches(adj, inDegree, req.edges)
    ensures !verdict.Accepted? ==> exists i: nat :: FirstBadEdge(req, i) && verdict == EdgeVerdict(req, i)
  {
    hide GraphMatches, FirstBadEdge, EdgeVerdict, EndpointsIn, EdgeSet, NaturalIds, KnownUpTo;
    adj, inDegree := map[], zeroes;
    NoEdgeYet(req.edges, known, zeroes);
    for i := 0 to |req.edges|
      invariant known == inDegree.Keys
      invariant KnownUpTo(req.edges, known, i)
      invariant GraphMatches(adj, inDegree, req.edges[..i])
    {
      var edge := req.edges[i];
      if edge.parent !in known {
        BadEdge(req, known, i);
        return ParentNotFound(edge.parent), adj, inDegree;
      }
      if edge.child !in known {
        BadEdge(req, known, i);
        return ChildNotFound(edge.child), adj, inDegree;
      }
      OneMoreKnown(adj, inDegree, req.edges, known, i);
      adj := adj[edge.parent := (if edge.parent in adj then adj[edge.parent] else []) + [edge.child]];
      inDegree := inDegree[edge.child := inDegree[edge.child] + 1];
    }
    KnownEndpoints(req.edges, known);
    assert req.edges[..|req.edges|] == req.edges;
    verdict := Accepted;
  }

  /** A Go map is ranged over in an arbitrary order. */
  method InitialQueue(inDegree: map<Id, int>) returns (queue: seq<Id>)
    ensures NoDuplicates(queue)
    ensures forall n :: n in queue <==> n in inDegree && inDegree[n] == 0
  {
    queue := [];
    var unseen := inDegree.Keys;
    while unseen != {}
      invariant unseen <= inDegree.Keys
      invariant NoDuplicates(queue)
      invariant forall n :: n in queue <==> n in inDegree.Keys - unseen && inDegree[n] == 0
    {
      var id :| id in unseen;
      unseen := unseen - {id};
      if inDegree[id] == 0 {
        queue := queue + [id];
      }
    }
  }

  /** The neighbours of the node just popped each lose one from their indegree; those that reach zero
      are queued. */
  method ReleaseNeighbors(edges: seq<Edge>, nodes: set<Id>, neighbors: seq<Id>, degrees: map<Id, int>,
                          waiting: seq<Id>, ghost done: seq<Id>)
    returns (inDegree: map<Id, int>, queue: seq<Id>)
    requires KahnInvariant(edges, nodes, degrees, done, waiting, multiset(neighbors))
    requires forall c | c in neighbors :: c in nodes
    ensures KahnInvariant(edges, nodes, inDegree, done, queue, multiset{})
  {
    inDegree, queue := degrees, waiting;
    assert neighbors[0..] == neighbors;
    for k := 0 to |neighbors|
      invariant KahnInvariant(edges, nodes, inDegree, done, queue, multiset(neighbors[k..]))
    {
      var neighbor := neighbors[k];
      assert neighbors[k..] == [neighbor] + neighbors[k + 1..];
      DecrementKeepsInvariant(edges, nodes, inDegree, done, queue, multiset(neighbors[k..]), neighbor);
      assert multiset(neighbors[k..]) - multiset{neighbor} == multiset(neighbors[k + 1..]);
      inDegree := inDegree[neighbor := inDegree[neighbor] - 1];
      if inDegree[neighbor] == 0 {
        queue := queue + [neighbor];
      }
    }
    assert neighbors[|neighbors|..] == [];
  }

  lemma StartOfSort(edges: seq<Edge>, nodes: set<Id>, adj: map<Id, seq<Id>>, degrees: map<Id, int>, queue: seq<Id>)
    requires degrees.Keys == nodes && GraphMatches(adj, degrees, edges) && NoDuplicates(queue)
    requires forall n :: n in queue <==> n in degrees && degrees[n] == 0
    ensures KahnInvariant(edges, nodes, degrees, [], queue, multiset{})
  {
    var none: seq<Id> := [];
    assert (set x | x in none) == {} && none + queue == queue;
  }

  lemma NeighborsAreChildren(edges: seq<Edge>, nodes: set<Id>, adj: map<Id, seq<Id>>, degrees: map<Id, int>, curr: Id)
    requires EndpointsIn(EdgeSet(edges), nodes) && GraphMatches(adj, degrees, edges)
    ensures (if curr in adj then adj[curr] else []) == ChildList(edges, curr)
    ensures forall c | c in ChildList(edges, curr) :: c in nodes
  {
    ChildListIsChildren(edges, curr);
    assert forall c | c in ChildList(edges, curr) :: Edge(curr, c) in EdgeSet(edges);
  }

  /** Third phase: the queue loop. Pops each node at most once and ends with no node left to pop. */
  method Sort(edges: seq<Edge>, nodes: set<Id>, adj: map<Id, seq<Id>>, degrees: map<Id, int>)
    returns (processedCount: nat, ghost inDegree: map<Id, int>, ghost done: seq<Id>)
    requires EndpointsIn(EdgeSet(edges), nodes) && degrees.Keys == nodes && GraphMatches(adj, degrees, edges)
    ensures processedCount == |done| && KahnInvariant(edges, nodes, inDegree, done, [], multiset{})
    ensures processedCount <= |nodes| && (processedCount == |nodes| <==> Acyclic(EdgeSet(edges)))
  {
    var current := degrees;
    var queue := InitialQueue(current);
    processedCount, done := 0, [];
    StartOfSort(edges, nodes, adj, current, queue);
    hide KahnInvariant, GraphMatches, EndpointsIn, Acyclic;
    while |queue| > 0
      invariant KahnInvariant(edges, nodes, current, done, queue, multiset{})
      invariant processedCount == |done|
      decreases |nodes| - |done|
    {
      var curr := queue[0];
      PopKeepsInvariant(edges, nodes, current, done, queue);
      queue := queue[1..];
      processedCount := processedCount + 1;
      done := done + [curr];
      DoneFits(edges, nodes, current, done, queue, multiset(ChildList(edges, curr)));
      NeighborsAreChildren(edges, nodes, adj, degrees, curr);
      current, queue := ReleaseNeighbors(edges, nodes, if curr in adj then adj[curr] else [], current, queue, done);
    }
    inDegree := current;
    FinalStateDecides(edges, nodes, inDegree, done);
  }

  /** First phase: every task has an id, and a repeated id is entered once. */
  method CollectTasks(req: Request) returns (complete: bool, known: set<Id>, zeroes: map<Id, int>)
    ensures complete <==> "" !in NaturalIds(req.tasks)
    ensures complete ==> known == NaturalIds(req.tasks) == zeroes.Keys && forall n | n in known :: zeroes[n] == 0
  {
    known, zeroes := {}, map[];
    for i := 0 to |req.tasks|
      invariant known == NaturalIds(req.tasks[..i]) == zeroes.Keys && "" !in known
      invariant forall n | n in known :: zeroes[n] == 0
    {
      var id := req.tasks[i].naturalId;
      assert req.tasks[..i + 1] == req.tasks[..i] + [req.tasks[i]];
      if id == "" {
        assert req.tasks[i] in req.tasks;
        return false, known, zeroes;
      }
      known, zeroes := known + {id}, zeroes[id := 0];
    }
    assert req.tasks[..|req.tasks|] == req.tasks;
    complete := true;
  }

  /** Accepts exactly the requests that are DAGs over non-empty, distinct ids; otherwise reports the
      first fault in the order of the checks. */
  method Validate(req: Request) returns (verdict: Verdict)
    ensures verdict.Accepted? <==> IsDagRequest(req)
    ensures verdict.MissingNaturalId? <==> "" in NaturalIds(req.tasks)
    ensures verdict.ParentNotFound? || verdict.ChildNotFound? ==>
              exists i :: FirstBadEdge(req, i) && verdict == EdgeVerdict(req, i)
    ensures verdict.ParentNotFound? || verdict.ChildNotFound? <==>
              "" !in NaturalIds(req.tasks) && !EndpointsIn(EdgeSet(req.edges), NaturalIds(req.tasks))
    ensures verdict.CycleDetected? <==>
              && "" !in NaturalIds(req.tasks) && EndpointsIn(EdgeSet(req.edges), NaturalIds(req.tasks))
              && !(DistinctIds(req.tasks) && Acyclic(EdgeSet(req.edges)))
    ensures verdict.CycleDetected? ==>
              && verdict.processed < verdict.total == |req.tasks|
              && exists done :: |done| == verdict.processed && StuckAfter(req, done)
  {
    hide Acyclic, GraphMatches, FirstBadEdge, EdgeVerdict, StuckAfter, KahnInvariant, EndpointsIn, EdgeSet, NaturalIds;
    var complete, known, inDegree := CollectTasks(req);
    if !complete {
      return MissingNaturalId;
    }
    var adj;
    verdict, adj, inDegree := BuildGraph(req, known, inDegree);
    if !verdict.Accepted? {
      BadEdgeBreaks(req);
      return verdict;
    }
    var processedCount;
    ghost var finalDegree, done;
    processedCount, finalDegree, done := Sort(req.edges, known, adj, inDegree);
    DistinctIdsIffFullCount(req.tasks);
    if processedCount != |req.tasks| {
      FinalStateIsStuck(req, finalDegree, done);
      return CycleDetected(processedCount, |req.tasks|);
    }
    return Accepted;
  }
}
