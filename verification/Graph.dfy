/** Directed graphs over task identifiers: what a cycle is, and the two ways in which the
    rest of the project shows that there is none or that there is one. */
module Graph {
  type Id = string

  datatype Edge = Edge(parent: Id, child: Id)

  function Parents(edges: set<Edge>, n: Id): set<Id> {
    set e | e in edges && e.child == n :: e.parent
  }

  function Children(edges: set<Edge>, n: Id): set<Id> {
    set e | e in edges && e.parent == n :: e.child
  }

  ghost predicate IsPath(edges: set<Edge>, p: seq<Id>) {
    && |p| >= 1
    && forall i | 0 <= i < |p| - 1 :: Edge(p[i], p[i + 1]) in edges
  }

  ghost predicate IsCycle(edges: set<Edge>, p: seq<Id>) {
    |p| >= 2 && IsPath(edges, p) && p[0] == p[|p| - 1]
  }

  ghost predicate Acyclic(edges: set<Edge>) {
    forall p :: !IsCycle(edges, p)
  }

  /** `order` lists every node after all of its parents (a topological order of a part of the graph
      that is closed under parents). */
  ghost predicate ParentsFirst(edges: set<Edge>, order: seq<Id>) {
    forall i, e | 0 <= i < |order| && e in edges && e.child == order[i] :: e.parent in order[..i]
  }

  lemma ExtendOrder(edges: set<Edge>, order: seq<Id>, n: Id)
    requires ParentsFirst(edges, order) && forall p | p in Parents(edges, n) :: p in order
    ensures ParentsFirst(edges, order + [n])
  {
    forall i, e | 0 <= i < |order| + 1 && e in edges && e.child == (order + [n])[i]
      ensures e.parent in (order + [n])[..i]
    {
      if i == |order| {
        assert e.parent in Parents(edges, n) && (order + [n])[..i] == order;
      } else {
        assert (order + [n])[..i] == order[..i];
      }
    }
  }

  function FirstIndex(s: seq<Id>, x: Id): (i: nat)
    requires x in s
    ensures i < |s| && s[i] == x && forall j | 0 <= j < i :: s[j] != x
  {
    if s[0] == x then 0 else
    assert s == [s[0]] + s[1..];
    FirstIndex(s[1..], x) + 1
  }

  /** Along a path that stays in a parents-first order the position strictly grows. */
  lemma {:induction false} PathClimbs(edges: set<Edge>, order: seq<Id>, p: seq<Id>)
    requires ParentsFirst(edges, order) && IsPath(edges, p) && p[|p| - 1] in order
    ensures p[0] in order
    ensures FirstIndex(order, p[0]) + |p| - 1 <= FirstIndex(order, p[|p| - 1])
    decreases |p|
  {
    if |p| > 1 {
      var m := |p| - 1;
      var i := FirstIndex(order, p[m]);
      assert Edge(p[m - 1], p[m]) in edges;
      assert p[m - 1] in order[..i];
      assert order[..i] <= order;
      PathClimbs(edges, order, p[..m]);
      FirstIndexOfPrefix(order, i, p[m - 1]);
    }
  }

  lemma FirstIndexOfPrefix(s: seq<Id>, i: nat, x: Id)
    requires i <= |s| && x in s[..i]
    ensures x in s && FirstIndex(s, x) < i
  {
    var k :| 0 <= k < i && s[..i][k] == x;
    assert s[k] == x;
  }

  /** No cycle passes through a node of a parents-first order. */
  lemma OrderedNodesAreOffCycles(edges: set<Edge>, order: seq<Id>, p: seq<Id>)
    requires ParentsFirst(edges, order) && p != [] && p[|p| - 1] in order
    ensures !IsCycle(edges, p)
  {
    if IsCycle(edges, p) {
      PathClimbs(edges, order, p);
    }
  }

  /** A parents-first order of all children certifies that the graph is acyclic. */
  lemma OrderedGraphIsAcyclic(edges: set<Edge>, order: seq<Id>)
    requires ParentsFirst(edges, order)
    requires forall e | e in edges :: e.child in order
    ensures Acyclic(edges)
  {
    forall p ensures !IsCycle(edges, p) {
      if IsCycle(edges, p) {
        assert Edge(p[|p| - 2], p[|p| - 2 + 1]) in edges;
        OrderedNodesAreOffCycles(edges, order, p);
      }
    }
  }

  ghost predicate HasParentIn(edges: set<Edge>, nodes: set<Id>, n: Id) {
    exists m :: m in nodes && Edge(m, n) in edges
  }

  ghost predicate EveryNodeHasParentWithin(edges: set<Edge>, nodes: set<Id>) {
    forall n | n in nodes :: HasParentIn(edges, nodes, n)
  }

  /** The key lemma of both checkers and of the engine's progress theorem: walking backwards inside a
      finite non-empty set in which every node has a parent must revisit a node. */
  lemma ParentClosedSetHasCycle(edges: set<Edge>, nodes: set<Id>) returns (p: seq<Id>)
    requires nodes != {} && EveryNodeHasParentWithin(edges, nodes)
    ensures IsCycle(edges, p) && forall n | n in p :: n in nodes
  {
    var n :| n in nodes;
    p := WalkBack(edges, nodes, [n]);
  }

  ghost predicate NoDuplicates<T>(s: seq<T>) {
    forall i, j | 0 <= i < j < |s| :: s[i] != s[j]
  }

  lemma {:induction false} DistinctFits<T>(s: seq<T>, nodes: set<T>)
    requires NoDuplicates(s) && forall x | x in s :: x in nodes
    ensures |s| <= |nodes|
  {
    if s != [] {
      var m := |s| - 1;
      forall x | x in s[..m] ensures x in nodes - {s[m]} {
        var i :| 0 <= i < m && s[i] == x;
        assert s[i] in s;
      }
      DistinctFits(s[..m], nodes - {s[m]});
      assert s[m] in s;
    }
  }

  lemma WalkBack(edges: set<Edge>, nodes: set<Id>, walk: seq<Id>) returns (p: seq<Id>)
    requires EveryNodeHasParentWithin(edges, nodes)
    requires IsPath(edges, walk) && NoDuplicates(walk) && forall n | n in walk :: n in nodes
    ensures IsCycle(edges, p) && forall n | n in p :: n in nodes
    decreases |nodes| - |walk|
  {
    assert walk[0] in walk && HasParentIn(edges, nodes, walk[0]);
    var m :| m in nodes && Edge(m, walk[0]) in edges;
    var longer := [m] + walk;
    assert IsPath(edges, longer);
    if m in walk {
      var i :| 0 <= i < |walk| && walk[i] == m;
      p := longer[..i + 2];
      assert forall n | n in p :: n in longer;
    } else {
      DistinctFits(longer, nodes);
      p := WalkBack(edges, nodes, longer);
    }
  }

  /** Acyclic, said without paths: every non-empty set of nodes has a member with no parent in it. */
  lemma AcyclicIffSourcesEverywhere(edges: set<Edge>)
    ensures Acyclic(edges) <==> forall nodes: set<Id> | nodes != {} :: !EveryNodeHasParentWithin(edges, nodes)
  {
    if Acyclic(edges) {
      forall nodes: set<Id> | nodes != {} ensures !EveryNodeHasParentWithin(edges, nodes) {
        if EveryNodeHasParentWithin(edges, nodes) {
          var p := ParentClosedSetHasCycle(edges, nodes);
          assert false;
        }
      }
    } else {
      var p :| IsCycle(edges, p);
      var nodes := set n | n in p;
      assert p[0] in nodes;
      forall n | n in nodes ensures HasParentIn(edges, nodes, n) {
        var i :| 0 <= i < |p| && p[i] == n;
        var k := if i == 0 then |p| - 2 else i - 1;
        assert Edge(p[k], p[k + 1]) in edges && p[k] in nodes;
      }
      assert EveryNodeHasParentWithin(edges, nodes);
    }
  }

  ghost predicate InjectiveOn(f: map<Id, Id>, nodes: set<Id>) {
    && nodes <= f.Keys
    && forall a, b | a in nodes && b in nodes && f[a] == f[b] :: a == b
  }

  ghost predicate EndpointsIn(edges: set<Edge>, nodes: set<Id>) {
    forall e | e in edges :: e.parent in nodes && e.child in nodes
  }

  function Renamed(edges: set<Edge>, f: map<Id, Id>): set<Edge>
    requires forall e | e in edges :: e.parent in f && e.child in f
  {
    set e | e in edges :: Edge(f[e.parent], f[e.child])
  }

  /** Renaming natural ids to UUIDs neither creates nor removes a cycle. */
  lemma RenamingKeepsAcyclicity(edges: set<Edge>, f: map<Id, Id>, nodes: set<Id>)
    requires EndpointsIn(edges, nodes) && InjectiveOn(f, nodes)
    ensures Acyclic(Renamed(edges, f)) <==> Acyclic(edges)
  {
    var renamed := Renamed(edges, f);
    if p :| IsCycle(edges, p) {
      forall i | 0 <= i < |p| ensures p[i] in nodes {
        var k := if i == |p| - 1 then i - 1 else i;
        assert Edge(p[k], p[k + 1]) in edges;
      }
      var q := seq(|p|, i requires 0 <= i < |p| => f[p[i]]);
      forall i | 0 <= i < |q| - 1 ensures Edge(q[i], q[i + 1]) in renamed {
        assert Edge(p[i], p[i + 1]) in edges;
      }
      assert IsCycle(renamed, q);
    }
    if q :| IsCycle(renamed, q) {
      var p := Unrename(edges, f, nodes, q);
      assert IsCycle(edges, p);
    }
  }

  lemma Unrename(edges: set<Edge>, f: map<Id, Id>, nodes: set<Id>, q: seq<Id>) returns (p: seq<Id>)
    requires EndpointsIn(edges, nodes) && InjectiveOn(f, nodes)
    requires IsCycle(Renamed(edges, f), q)
    ensures IsCycle(edges, p)
  {
    forall i | 0 <= i < |q| ensures exists n :: n in nodes && f[n] == q[i] {
      var k := if i == |q| - 1 then i - 1 else i;
      assert Edge(q[k], q[k + 1]) in Renamed(edges, f);
      var e :| e in edges && Edge(f[e.parent], f[e.child]) == Edge(q[k], q[k + 1]);
      assert e.parent in nodes && e.child in nodes;
    }
    p := [];
    while |p| < |q|
      invariant |p| <= |q|
      invariant forall i | 0 <= i < |p| :: p[i] in nodes && f[p[i]] == q[i]
    {
      var n :| n in nodes && f[n] == q[|p|];
      p := p + [n];
    }
    forall i | 0 <= i < |p| - 1 ensures Edge(p[i], p[i + 1]) in edges {
      assert Edge(q[i], q[i + 1]) in Renamed(edges, f);
      var e :| e in edges && Edge(f[e.parent], f[e.child]) == Edge(q[i], q[i + 1]);
      assert e == Edge(p[i], p[i + 1]);
    }
  }

  function Flipped(edges: set<Edge>): set<Edge> {
    set e | e in edges :: Edge(e.child, e.parent)
  }

  lemma FlippingKeepsAcyclicity(edges: set<Edge>)
    requires Acyclic(Flipped(edges))
    ensures Acyclic(edges)
  {
    forall p ensures !IsCycle(edges, p) {
      if IsCycle(edges, p) {
        var q := seq(|p|, i requires 0 <= i < |p| => p[|p| - 1 - i]);
        forall i | 0 <= i < |q| - 1 ensures Edge(q[i], q[i + 1]) in Flipped(edges) {
          assert Edge(p[|p| - 2 - i], p[|p| - 2 - i + 1]) in edges;
        }
        assert IsCycle(Flipped(edges), q);
      }
    }
  }

  /** Following edges from `start` runs into a cycle. */
  ghost predicate LeadsToCycle(edges: set<Edge>, start: Id) {
    exists p, i :: IsPath(edges, p) && p[0] == start && 0 <= i < |p| - 1 && p[i] == p[|p| - 1]
  }

  lemma LeadingToCycleIsCyclic(edges: set<Edge>, start: Id)
    requires LeadsToCycle(edges, start)
    ensures !Acyclic(edges)
  {
    var p, i :| IsPath(edges, p) && p[0] == start && 0 <= i < |p| - 1 && p[i] == p[|p| - 1];
    assert IsCycle(edges, p[i..]);
  }

  // ---------------------------------------------------------------- which nodes lie on a cycle

  ghost predicate OnCycle(edges: set<Edge>, n: Id) {
    exists p :: IsCycle(edges, p) && n in p
  }

  ghost predicate Reaches(edges: set<Edge>, a: Id, b: Id) {
    exists p :: IsPath(edges, p) && p[0] == a && p[|p| - 1] == b
  }

  lemma PathsJoin(edges: set<Edge>, p: seq<Id>, q: seq<Id>)
    requires IsPath(edges, p) && IsPath(edges, q) && p[|p| - 1] == q[0]
    ensures IsPath(edges, p + q[1..]) && (p + q[1..])[|p + q[1..]| - 1] == q[|q| - 1]
  {
    var r := p + q[1..];
    forall i | 0 <= i < |r| - 1 ensures Edge(r[i], r[i + 1]) in edges {
      if i < |p| - 1 {
        assert Edge(p[i], p[i + 1]) in edges;
      } else {
        var k := i - (|p| - 1);
        assert Edge(q[k], q[k + 1]) in edges;
      }
    }
  }

  /** A path can be cut in two at any of its nodes. */
  lemma PathsSplit(edges: set<Edge>, p: seq<Id>, i: nat)
    requires IsPath(edges, p) && i < |p|
    ensures IsPath(edges, p[..i + 1]) && p[..i + 1][0] == p[0] && p[..i + 1][i] == p[i]
    ensures IsPath(edges, p[i..]) && p[i..][0] == p[i] && p[i..][|p[i..]| - 1] == p[|p| - 1]
  {
  }

  lemma CycleLeadsBack(edges: set<Edge>, n: Id)
    requires OnCycle(edges, n)
    ensures exists c :: Edge(n, c) in edges && Reaches(edges, c, n)
  {
    var p :| IsCycle(edges, p) && n in p;
    var i :| 0 <= i < |p| - 1 && p[i] == n;
    assert Edge(p[i], p[i + 1]) in edges;
    PathsSplit(edges, p, i + 1);
    PathsSplit(edges, p, i);
    hide IsPath;
    var back, start := p[i + 1..], p[..i + 1];
    PathsJoin(edges, back, start);
    assert (back + start[1..])[0] == p[i + 1];
    assert Reaches(edges, p[i + 1], n);
  }

  lemma LeadsBackIsCycle(edges: set<Edge>, n: Id, c: Id)
    requires Edge(n, c) in edges && Reaches(edges, c, n)
    ensures OnCycle(edges, n)
  {
    var q :| IsPath(edges, q) && q[0] == c && q[|q| - 1] == n;
    var step := [n, c];
    assert IsPath(edges, step);
    PathsJoin(edges, step, q);
    hide IsPath;
    assert IsCycle(edges, step + q[1..]) && (step + q[1..])[0] == n;
  }

  /** A node lies on a cycle exactly if one of its children leads back to it. */
  lemma OnCycleIff(edges: set<Edge>, n: Id)
    ensures OnCycle(edges, n) <==> exists c :: Edge(n, c) in edges && Reaches(edges, c, n)
  {
    hide OnCycle, Reaches;
    if OnCycle(edges, n) {
      CycleLeadsBack(edges, n);
    }
    if c :| Edge(n, c) in edges && Reaches(edges, c, n) {
      LeadsBackIsCycle(edges, n, c);
    }
  }

  function Reversed(p: seq<Id>): (q: seq<Id>)
    ensures |q| == |p| && forall i | 0 <= i < |p| :: q[i] == p[|p| - 1 - i]
  {
    seq(|p|, i requires 0 <= i < |p| => p[|p| - 1 - i])
  }

  lemma ReversedPath(edges: set<Edge>, p: seq<Id>)
    requires IsPath(edges, p)
    ensures IsPath(Flipped(edges), Reversed(p))
  {
    var q := Reversed(p);
    forall i | 0 <= i < |q| - 1 ensures Edge(q[i], q[i + 1]) in Flipped(edges) {
      assert Edge(p[|p| - 2 - i], p[|p| - 2 - i + 1]) in edges;
    }
  }

  lemma ReversedPathClimbs(edges: set<Edge>, order: seq<Id>, p: seq<Id>)
    requires ParentsFirst(Flipped(edges), order) && IsPath(edges, p) && p[0] in order
    ensures p[|p| - 1] in order
    ensures FirstIndex(order, p[|p| - 1]) + |p| - 1 <= FirstIndex(order, p[0])
  {
    ReversedPath(edges, p);
    hide IsPath, ParentsFirst;
    PathClimbs(Flipped(edges), order, Reversed(p));
  }

  lemma CycleNodeHasParent(edges: set<Edge>, n: Id)
    requires OnCycle(edges, n)
    ensures exists m :: Edge(m, n) in edges
  {
    var p :| IsCycle(edges, p) && n in p;
    var i :| 0 <= i < |p| && p[i] == n;
    var k := if i == 0 then |p| - 2 else i - 1;
    assert Edge(p[k], p[k + 1]) in edges && p[k + 1] == n;
  }

  lemma NoListedLasso(edges: set<Edge>, order: seq<Id>, p: seq<Id>, i: nat)
    requires ParentsFirst(Flipped(edges), order) && IsPath(edges, p) && p[0] in order
    requires i < |p| - 1
    ensures p[i] != p[|p| - 1]
  {
    PathsSplit(edges, p, i);
    hide IsPath, ParentsFirst, Flipped, FirstIndex;
    ReversedPathClimbs(edges, order, p[..i + 1]);
    ReversedPathClimbs(edges, order, p[i..]);
  }

  /** From a node listed after all of its children no cycle can be reached. */
  lemma ChildrenFirstLeadsNowhere(edges: set<Edge>, order: seq<Id>, n: Id)
    requires ParentsFirst(Flipped(edges), order) && n in order
    ensures !LeadsToCycle(edges, n)
  {
    hide ParentsFirst, IsPath, Flipped;
    if LeadsToCycle(edges, n) {
      var p, i :| IsPath(edges, p) && |p| >= 1 && p[0] == n && 0 <= i < |p| - 1 && p[i] == p[|p| - 1];
      NoListedLasso(edges, order, p, i);
    }
  }
}
