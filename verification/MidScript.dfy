/** The engine in the middle of a run of the completion script, after any number of children. */
module MidScript {
  import opened Graph
  import opened Requests
  import opened RedisStore
  import opened DagEngine
  import opened EngineInvariant

  /** The parents of c whose children set still holds c and whose visit of c has not happened in the running
      script for t, which has visited the given children. */
  function Holding(s: State, mid: Keyspace, t: Id, visited: seq<Id>, c: Id): set<Id> {
    set p | p in ParentsOf(s, c) && c in mid.Members(p) && !(p == t && c in visited)
  }

  lemma MembersOfParent(s: State, p: Id, c: Id)
    requires p in s.owner && c in s.owner && JobOf(s, p) == JobOf(s, c) && SentOf(s, p) == SentOf(s, c)
    requires TaskForm(s, p) && Initialised(s, c) && p in ParentsOf(s, c)
    ensures c in s.redis.Members(p) <==> p !in s.succeeded
  {
    var d, sent := JobOf(s, p), SentOf(s, p);
    assert Linked(d, sent) == EdgeSet(d.edges);
    assert HistoryOf(s, p).linked == ChildrenOf(s, p);
    assert Edge(p, c) in EdgeSet(d.edges);
    hide ClosedForm, Started, Described;
    assert KeysOf(s.redis, s.owner[p], p).members == (if p in s.succeeded then {} else ChildrenOf(s, p)) by {
      MembersForm(HistoryOf(s, p), KeysOf(s.redis, s.owner[p], p));
    }
  }

  lemma MembersForm(h: TaskHistory, k: TaskKeys)
    requires ClosedForm(h, k)
    ensures k.members == if h.succeeded then {} else h.linked
    ensures k.count == h.Counter()
  {
  }

  /** Before the script starts the holding parents are the waiting ones. */
  lemma HoldingIsWaiting(s: State, c: Id, t: Id)
    requires Inv(s) && c in s.owner && Initialised(s, c)
    ensures Holding(s, s.redis, t, [], c) == Waiting(s, c)
    ensures s.redis.Count(Field(s.owner[c], c)) == |Waiting(s, c)| + |Early(s, c)|
  {
    assert TaskForm(s, c);
    forall p | p in ParentsOf(s, c) ensures c in s.redis.Members(p) <==> p !in s.succeeded {
      EdgesStayInJob(s, p, c);
      assert TaskForm(s, p);
      hide Inv, Structure, History, Parents, Initialised;
      MembersOfParent(s, p, c);
    }
    hide Inv, Structure, History, ParentsOf;
    MembersForm(HistoryOf(s, c), KeysOf(s.redis, s.owner[c], c));
    hide ClosedForm;
    InitialisedForm(s, c);
  }

  lemma InitialisedForm(s: State, c: Id)
    requires c in s.owner && Initialised(s, c)
    ensures HistoryOf(s, c).Counter() == |Waiting(s, c)| + |Early(s, c)|
    ensures KeysOf(s.redis, s.owner[c], c).count == s.redis.Count(Field(s.owner[c], c))
  {
    hide Waiting, Early, Parents, Children, Linked, Started, Described;
  }

  /** Conservation inside the script: after k visits of a first report, in any order, the counter of every
      task whose counter was written equals the number of parents that still hold it and have not visited it,
      plus the completions that had come too early. Tasks of other jobs are not touched. */
  lemma CounterMidScript(s: State, t: Id, order: seq<Id>, k: nat, c: Id)
    requires Inv(s) && Enabled(s, Success(t, order)) && t !in s.succeeded && t in s.owner && k <= |order|
    requires c in s.owner && Initialised(s, c)
    ensures var mid := VisitAll(s.redis, s.owner[t], order[..k]);
            && mid.Count(Field(s.owner[c], c)) == |Holding(s, mid, t, order[..k], c)| + |Early(s, c)|
            && mid.children == s.redis.children
  {
    var j, visited := s.owner[t], order[..k];
    var mid := VisitAll(s.redis, j, visited);
    hide Inv, Initialised, Enabled, VisitAll, VisitEffect, Waiting, Early, Holding, JobOf, ParentsOf,
         IsEnumeration, Pushed;
    HoldingIsWaiting(s, c, t);
    VisitedChildWaits(s, t, order, c);
    PrefixFacts(order, k);
    hide NoDuplicates;
    VisitAllEffect(s.redis, j, visited);
    CountAfterVisits(s.redis, mid, j, visited, Field(s.owner[c], c));
    HoldingAfterVisits(s, mid, t, visited, c, Waiting(s, c));
  }

  lemma PrefixFacts(order: seq<Id>, k: nat)
    requires NoDuplicates(order) && k <= |order|
    ensures NoDuplicates(order[..k]) && forall c | c in order[..k] :: c in order
  {
  }

  lemma HoldingAfterVisits(s: State, mid: Keyspace, t: Id, visited: seq<Id>, c: Id, waiting: set<Id>)
    requires mid.children == s.redis.children && Holding(s, s.redis, t, [], c) == waiting
    requires c in visited ==> t in waiting
    ensures |Holding(s, mid, t, visited, c)| == |waiting| - if c in visited then 1 else 0
  {
    hide ParentsOf;
    assert forall p :: mid.Members(p) == s.redis.Members(p);
    assert Holding(s, mid, t, visited, c) == if c in visited then waiting - {t} else waiting;
  }

  lemma CountAfterVisits(ks: Keyspace, after: Keyspace, job: Id, visited: seq<Id>, f: Field)
    requires VisitEffect(ks, after, job, visited)
    ensures after.Count(f) == ks.Count(f) - if f.job == job && f.task in visited then 1 else 0
    ensures after.children == ks.children
  {
    hide ErrorsVisited, Pushes;
  }

  /** Whoever the script visits is a child of the reporter in the reporter's job. */
  lemma VisitedChildWaits(s: State, t: Id, order: seq<Id>, c: Id)
    requires Inv(s) && Enabled(s, Success(t, order)) && t !in s.succeeded && t in s.owner && c in s.owner
    ensures NoDuplicates(order)
    ensures c in order ==> s.owner[c] == s.owner[t] && t in Waiting(s, c)
  {
    assert TaskForm(s, t);
    FirstReportSeesAllChildren(s, t) by { hide Inv, Structure, History; }
    if c in order {
      assert c in ChildrenOf(s, t);
      hide Parents, Children, Enabled;
      EdgesStayInJob(s, t, c);
    }
  }
}
