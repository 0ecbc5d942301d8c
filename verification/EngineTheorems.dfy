/** What the DAG engine guarantees over whole runs. */
module EngineTheorems {
  import opened Graph
  import opened Requests
  import opened RedisStore
  import opened DagEngine
  import opened EngineInvariant

  ghost predicate Step(s: State, a: Action, s': State) {
    Enabled(s, a) && s' == Next(s, a)
  }

  ghost predicate IsRun(run: seq<State>, actions: seq<Action>) {
    && |run| == |actions| + 1 && run[0] == INITIAL
    && forall i | 0 <= i < |actions| :: Step(run[i], actions[i], run[i + 1])
  }

  lemma {:induction false} RunsKeepInv(run: seq<State>, actions: seq<Action>, i: nat)
    requires IsRun(run, actions) && i < |run|
    ensures Inv(run[i])
  {
    hide Inv, Enabled, Next;
    if i == 0 {
      InitialInv();
    } else {
      RunsKeepInv(run, actions, i - 1);
      assert Step(run[i - 1], actions[i - 1], run[i - 1 + 1]);
      StepKeepsInv(run[i - 1], actions[i - 1]);
    }
  }

  ghost predicate Drained(s: State, j: Id) {
    j in s.jobs && j in s.sent && s.sent[j] == CommandCount(s.jobs[j])
  }

  lemma DrainedIsInitialised(s: State, j: Id, c: Id)
    requires Structure(s) && Drained(s, j) && c in s.jobs[j].tasks
    ensures Initialised(s, c) && JobOf(s, c) == s.jobs[j] && Linked(JobOf(s, c), SentOf(s, c)) ==
            EdgeSet(s.jobs[j].edges)
  {
    hide WellFormed, Parents, EdgeSet;
    var d := s.jobs[j];
    assert d.tasks[..|d.tasks|] == d.tasks;
    assert d.edges[..|d.edges|] == d.edges;
  }

  /** Once a job's pipeline is through and nothing overtook it, Redis is a closed form of the set of
      successful tasks. */
  lemma ClosedFormOfSuccesses(run: seq<State>, actions: seq<Action>, i: nat, j: Id, c: Id)
    requires IsRun(run, actions) && i < |run| && Drained(run[i], j) && c in run[i].jobs[j].tasks
    requires Early(run[i], c) == {}
    ensures var s := run[i];
            && s.redis.Members(c) == (if c in s.succeeded then {} else ChildrenOf(s, c))
            && s.redis.Count(Field(j, c)) == |Waiting(s, c)|
            && (Field(j, c) in s.redis.deps <==> Waiting(s, c) != {})
            && multiset(s.redis.tasks)[ScriptPointer(c, j)] ==
              (if Waiting(s, c) == {} && ParentsOf(s, c) != {} then 1 else 0)
            && multiset(s.redis.tasks)[Pointer(c, j)] == (if ParentsOf(s, c) == {} then 1 else 0) + s.retries[c]
  {
    RunsKeepInv(run, actions, i);
    hide IsRun, Inv, Drained, Waiting, ParentsOf, ChildrenOf, Early;
    DrainedForm(run[i], j, c);
  }

  lemma DrainedForm(s: State, j: Id, c: Id)
    requires Inv(s) && Drained(s, j) && c in s.jobs[j].tasks && Early(s, c) == {}
    ensures s.redis.Members(c) == (if c in s.succeeded then {} else ChildrenOf(s, c))
    ensures s.redis.Count(Field(j, c)) == |Waiting(s, c)|
    ensures Field(j, c) in s.redis.deps <==> Waiting(s, c) != {}
    ensures multiset(s.redis.tasks)[ScriptPointer(c, j)] ==
              (if Waiting(s, c) == {} && ParentsOf(s, c) != {} then 1 else 0)
    ensures multiset(s.redis.tasks)[Pointer(c, j)] == (if ParentsOf(s, c) == {} then 1 else 0) + s.retries[c]
  {
    assert j in s.jobs && Structure(s);
    assert c in s.owner && s.owner[c] == j && TaskForm(s, c) by { hide History, ClosedForm; }
    hide Inv, Structure, Drained, ClosedForm;
    DrainedIsInitialised(s, j, c);
    DrainedHistory(s, j, c);
    hide HistoryOf, KeysOf, Initialised, Waiting, ParentsOf, ChildrenOf, Early, JobOf, SentOf;
    DrainedKeys(HistoryOf(s, c), KeysOf(s.redis, j, c));
  }

  lemma DrainedHistory(s: State, j: Id, c: Id)
    requires Initialised(s, c) && Linked(JobOf(s, c), SentOf(s, c)) == EdgeSet(JobOf(s, c).edges)
    ensures var h, k := HistoryOf(s, c), KeysOf(s.redis, j, c);
            && h.parents == ParentsOf(s, c) && h.linked == ChildrenOf(s, c) && h.initialised
               && h.waiting == Waiting(s, c)
            && h.early == Early(s, c) && (h.succeeded <==> c in s.succeeded) && h.retries == s.retries[c]
            && k.members == s.redis.Members(c) && k.count == s.redis.Count(Field(j, c))
            && (k.hasCounter <==> Field(j, c) in s.redis.deps)
            && k.scriptPointers == multiset(s.redis.tasks)[ScriptPointer(c, j)]
            && k.pointers == multiset(s.redis.tasks)[Pointer(c, j)]
  {
    hide Parents, Children, Linked, Started, Described;
  }

  lemma DrainedKeys(h: TaskHistory, k: TaskKeys)
    requires ClosedForm(h, k) && h.initialised && h.early == {}
    ensures k.members == (if h.succeeded then {} else h.linked) && k.count == |h.waiting|
    ensures k.hasCounter <==> h.waiting != {}
    ensures k.scriptPointers == if h.waiting == {} && h.parents != {} then 1 else 0
    ensures k.pointers == (if h.parents == {} then 1 else 0) + h.retries
  {
  }

  /** Report order, interleaving and repetitions do not matter: Redis only depends on how far the
      pipelines are, which tasks have succeeded and which completions came early. */
  lemma OrderDoesNotMatter(run1: seq<State>, acts1: seq<Action>, run2: seq<State>, acts2: seq<Action>, c: Id)
    requires IsRun(run1, acts1) && IsRun(run2, acts2)
    requires var s1, s2 := run1[|acts1|], run2[|acts2|];
             && s1.jobs == s2.jobs && s1.owner == s2.owner && s1.sent == s2.sent && s1.early == s2.early
             && (forall t :: t in s1.succeeded <==> t in s2.succeeded) && c in s1.owner
    ensures var s1, s2, j := run1[|acts1|], run2[|acts2|], run1[|acts1|].owner[c];
            && s1.redis.Members(c) == s2.redis.Members(c)
            && (Field(j, c) in s1.redis.deps <==> Field(j, c) in s2.redis.deps)
            && s1.redis.Count(Field(j, c)) == s2.redis.Count(Field(j, c))
            && multiset(s1.redis.tasks)[ScriptPointer(c, j)] == multiset(s2.redis.tasks)[ScriptPointer(c, j)]
  {
    var s1, s2 := run1[|acts1|], run2[|acts2|];
    RunsKeepInv(run1, acts1, |acts1|);
    RunsKeepInv(run2, acts2, |acts2|);
    hide IsRun, Structure, History, HistoryOf, ClosedForm;
    assert TaskForm(s1, c) && TaskForm(s2, c);
    hide Inv;
    SamePast(s1, s2, c);
    SamePresent(HistoryOf(s1, c), KeysOf(s1.redis, s1.owner[c], c), HistoryOf(s2, c), KeysOf(s2.redis, s2.owner[c], c));
  }

  lemma SamePast(s1: State, s2: State, c: Id)
    requires s1.jobs == s2.jobs && s1.owner == s2.owner && s1.sent == s2.sent && s1.early == s2.early
    requires forall t :: t in s1.succeeded <==> t in s2.succeeded
    ensures HistoryOf(s1, c).(retries := 0) == HistoryOf(s2, c).(retries := 0)
  {
    hide Parents, Children, Linked, Started, Described;
    assert ParentsOf(s1, c) == ParentsOf(s2, c) && Waiting(s1, c) == Waiting(s2, c);
  }

  lemma SamePresent(h1: TaskHistory, k1: TaskKeys, h2: TaskHistory, k2: TaskKeys)
    requires ClosedForm(h1, k1) && ClosedForm(h2, k2) && h1.(retries := 0) == h2.(retries := 0)
    ensures k1.(pointers := 0, hasMeta := true) == k2.(pointers := 0, hasMeta := true)
  {
    assert h1.Counter() == h1.(retries := 0).Counter() == h2.Counter();
    assert h1.Released() == h1.(retries := 0).Released() == h2.Released();
  }

  /** Success reports arrive in a topological order of every job, whatever else happens. */
  lemma SuccessesAreTopological(run: seq<State>, actions: seq<Action>, j: Id)
    requires IsRun(run, actions) && j in run[|actions|].jobs
    ensures ParentsFirst(EdgeSet(run[|actions|].jobs[j].edges), run[|actions|].succeeded)
  {
    RunsKeepInv(run, actions, |actions|);
    SuccessesInOrder(run[|actions|], j);
  }

  lemma SuccessesInOrder(s: State, j: Id)
    requires Structure(s) && History(s) && j in s.jobs
    ensures ParentsFirst(EdgeSet(s.jobs[j].edges), s.succeeded)
  {
    var edges := EdgeSet(s.jobs[j].edges);
    forall i, e | 0 <= i < |s.succeeded| && e in edges && e.child == s.succeeded[i]
      ensures e.parent in s.succeeded[..i]
    {
      assert e.child in s.jobs[j].tasks;
      assert JobOf(s, e.child) == s.jobs[j];
      assert e.parent in ParentsOf(s, s.succeeded[i]);
    }
  }

  /** A task's script entry appears in exactly one call: the first report of the last of its parents. */
  lemma TriggeredByLastParent(s: State, t: Id, order: seq<Id>, c: Id)
    requires Inv(s) && Enabled(s, Success(t, order)) && c in s.owner
    ensures var s', e := Next(s, Success(t, order)), ScriptPointer(c, s.owner[c]);
            multiset(s'.redis.tasks)[e] == multiset(s.redis.tasks)[e] +
              if t !in s.succeeded && Initialised(s, c) && Early(s, c) == {} && Waiting(s, c) == {t} then 1 else 0
  {
    hide Structure, History, Parents, Children, Linked, Started, Described, Pushed, IsEnumeration, CompleteTask;
    var s' := Next(s, Success(t, order));
    if t in s.succeeded {
      RepeatedSuccessDoesNothing(s, t, order);
      assert t !in Waiting(s, c);
    } else {
      StepKeepsInv(s, Success(t, order));
      PushedHasOwner(s, t);
      assert s'.owner == s.owner;
      SuccessHistoryOf(s, t, order, c) by { hide ClosedForm; }
      hide Next, Enabled;
      var h, h' := HistoryOf(s, c), HistoryOf(s', c);
      assert TaskForm(s, c) && TaskForm(s', c);
      assert h.waiting == Waiting(s, c) && h.early == Early(s, c) && (h.initialised <==> Initialised(s, c))
             && h.parents == ParentsOf(s, c);
      assert t in ParentsOf(s, c) <==> t in Waiting(s, c);
      hide HistoryOf, Inv, Waiting, ParentsOf, Early;
      TriggerByHistory(h, h', KeysOf(s.redis, s.owner[c], c), KeysOf(s'.redis, s.owner[c], c), t);
    }
  }

  lemma TriggerByHistory(h: TaskHistory, h': TaskHistory, k: TaskKeys, k': TaskKeys, t: Id)
    requires ClosedForm(h, k) && ClosedForm(h', k')
    requires h'.parents == h.parents && h'.initialised == h.initialised
    requires h'.waiting == if t in h.waiting then h.waiting - {t} else h.waiting
    requires h'.early == if t in h.waiting && !h.initialised then h.early + {t} else h.early
    ensures k'.scriptPointers == k.scriptPointers + if h.initialised && h.early == {} && h.waiting == {t} then 1 else 0
  {
    PointersByHistory(h, k);
    PointersByHistory(h', k');
    hide ClosedForm;
    assert t in h.waiting ==> (h.waiting - {t} == {} <==> h.waiting == {t}) && h.parents != {};
  }

  lemma PointersByHistory(h: TaskHistory, k: TaskKeys)
    requires ClosedForm(h, k)
    ensures k.scriptPointers == if h.initialised && h.waiting == {} && h.early == {} && h.parents != {} then 1 else 0
    ensures h.waiting <= h.parents
  {
  }

  // ------------------------------------------------------- when a completion overtakes the pipeline

  /** No first success report finds a child whose counter the pipeline has not written yet. */
  ghost predicate NothingOvertaken(run: seq<State>, actions: seq<Action>)
    requires |run| == |actions| + 1
  {
    forall i | 0 <= i < |actions| && actions[i].Success? && actions[i].task !in run[i].succeeded ::
      Overtaken(run[i], actions[i].task) == {}
  }

  /** The error stream stays empty if and only if no completion overtakes the pipeline. */
  lemma {:induction false} ErrorsIffOvertaken(run: seq<State>, actions: seq<Action>)
    requires IsRun(run, actions)
    ensures run[|actions|].redis.errors == [] <==> NothingOvertaken(run, actions)
  {
    RunsKeepInv(run, actions, |actions|);
    EarlyIffOvertaken(run, actions);
    hide IsRun;
  }

  lemma {:induction false} EarlyIffOvertaken(run: seq<State>, actions: seq<Action>)
    requires IsRun(run, actions)
    ensures run[|actions|].early == {} <==> NothingOvertaken(run, actions)
  {
    if actions != [] {
      var m := |actions| - 1;
      var run', actions' := run[..m + 1], actions[..m];
      assert IsRun(run', actions') by {
        hide Step;
        assert forall i | 0 <= i < m :: Step(run[i], actions[i], run[i + 1]);
      }
      EarlyIffOvertaken(run', actions');
      assert Step(run[m], actions[m], run[m + 1]);
      hide IsRun, Step;
      assert NothingOvertaken(run, actions) <==>
             NothingOvertaken(run', actions') &&
             (actions[m].Success? && actions[m].task !in run[m].succeeded ==> Overtaken(run[m], actions[m].task) == {});
    }
  }

  /** In particular, reporting tasks only of jobs whose pipeline is through is safe. */
  lemma DrainedJobsAreNotOvertaken(s: State, t: Id)
    requires Structure(s) && t in s.owner && Drained(s, s.owner[t])
    ensures Overtaken(s, t) == {}
  {
    forall e | e in EdgeSet(JobOf(s, t).edges) && e.parent == t ensures Initialised(s, e.child) {
      EdgesStayInJob(s, t, e.child);
      DrainedIsInitialised(s, s.owner[t], e.child);
    }
  }

  /** A task that missed a completion is never pushed, in any continuation of the run. */
  lemma {:induction false} LostForever(run: seq<State>, actions: seq<Action>, i: nat, k: nat, c: Id)
    requires IsRun(run, actions) && i <= k < |run| && c in run[k].owner && Early(run[i], c) != {}
    ensures !Pushed(run[k], c) && c !in run[k].succeeded && Early(run[k], c) != {}
    decreases k
  {
    RunsKeepInv(run, actions, k);
    EarlyGrows(run, actions, i, k);
    hide IsRun, Structure, History;
    assert Early(run[k], c) != {} by {
      hide Inv;
      assert forall p | p in Early(run[i], c) :: Edge(p, c) in run[i].early;
      var p :| p in Early(run[i], c);
    }
    PushedIffReleased(run[k], c);
    assert TaskForm(run[k], c);
    HistorySucceeded(run[k], c);
  }

  lemma {:induction false} EarlyGrows(run: seq<State>, actions: seq<Action>, i: nat, k: nat)
    requires IsRun(run, actions) && i <= k < |run|
    ensures run[i].early <= run[k].early
    decreases k
  {
    if i < k {
      EarlyGrows(run, actions, i, k - 1);
      assert Step(run[k - 1], actions[k - 1], run[k - 1 + 1]);
    }
  }

  // ---------------------------------------------------------------- progress

  ghost predicate NoEarlyCompletions(s: State, j: Id)
    requires j in s.jobs
  {
    forall c | c in s.jobs[j].tasks :: Early(s, c) == {}
  }

  ghost predicate Finished(s: State, j: Id)
    requires j in s.jobs
  {
    forall c | c in s.jobs[j].tasks :: c in s.succeeded
  }

  /** Every task handed out has been reported. */
  ghost predicate Quiet(s: State, j: Id)
    requires j in s.jobs
  {
    forall c | c in s.jobs[j].tasks && Pushed(s, c) :: c in s.succeeded
  }

  lemma WaitingMeansParent(s: State, j: Id, c: Id)
    requires Structure(s) && Drained(s, j) && c in s.jobs[j].tasks && Early(s, c) == {} && TaskForm(s, c)
    ensures Pushed(s, c)
            || exists p :: p in s.jobs[j].tasks && p !in s.succeeded && Edge(p, c) in EdgeSet(s.jobs[j].edges)
  {
    DrainedIsInitialised(s, j, c);
    PushedIffReleased(s, c);
    if p :| p in Waiting(s, c) {
      hide ClosedForm, HistoryOf;
      assert Edge(p, c) in EdgeSet(s.jobs[j].edges) && p in s.jobs[j].tasks && p !in s.succeeded;
    }
  }

  /** An unfinished acyclic job has an unfinished task none of whose parents is unfinished. */
  lemma UnfinishedSource(s: State, j: Id) returns (ready: Id)
    requires j in s.jobs && Acyclic(EdgeSet(s.jobs[j].edges)) && !Finished(s, j)
    ensures ready in s.jobs[j].tasks && ready !in s.succeeded
    ensures forall p | p in s.jobs[j].tasks && p !in s.succeeded :: Edge(p, ready) !in EdgeSet(s.jobs[j].edges)
  {
    var edges := EdgeSet(s.jobs[j].edges);
    var unfinished := set c | c in s.jobs[j].tasks && c !in s.succeeded;
    assert unfinished != {} by {
      var c :| c in s.jobs[j].tasks && c !in s.succeeded;
      assert c in unfinished;
    }
    hide Finished, EdgeSet, Acyclic;
    AcyclicIffSourcesEverywhere(edges);
    assert !EveryNodeHasParentWithin(edges, unfinished);
    ready :| ready in unfinished && !HasParentIn(edges, unfinished, ready);
    assert forall p | p in s.jobs[j].tasks && p !in s.succeeded :: p in unfinished;
  }

  lemma InvOfTask(s: State, j: Id, c: Id)
    requires Inv(s) && j in s.jobs && c in s.jobs[j].tasks
    ensures Structure(s) && c in s.owner && TaskForm(s, c)
  {
    hide History, TaskForm, WellFormed;
  }

  /** Deadlock freedom: an unfinished acyclic job always has a task handed out and not yet reported. */
  lemma DeadlockFree(s: State, j: Id) returns (ready: Id)
    requires Inv(s) && Drained(s, j) && NoEarlyCompletions(s, j)
    requires Acyclic(EdgeSet(s.jobs[j].edges)) && !Finished(s, j)
    ensures ready in s.jobs[j].tasks && Pushed(s, ready) && ready !in s.succeeded
  {
    assert j in s.jobs;
    assert forall c | c in s.jobs[j].tasks :: Early(s, c) == {};
    hide Inv, Structure, TaskForm, History, Drained, Acyclic, Finished, Pushed, ClosedForm, HistoryOf, KeysOf, EdgeSet,
         NoEarlyCompletions, Early;
    ready := UnfinishedSource(s, j);
    InvOfTask(s, j, ready);
    WaitingMeansParent(s, j, ready);
  }

  lemma FinishedIsAcyclic(s: State, j: Id)
    requires Structure(s) && History(s) && j in s.jobs && Finished(s, j)
    ensures Acyclic(EdgeSet(s.jobs[j].edges))
  {
    SuccessesInOrder(s, j);
    assert forall e | e in EdgeSet(s.jobs[j].edges) :: e.child in s.jobs[j].tasks by { hide History; }
    hide Structure, History, ParentsFirst, Acyclic;
    OrderedGraphIsAcyclic(EdgeSet(s.jobs[j].edges), s.succeeded);
  }

  /** A job that has gone quiet is finished if and only if its graph is acyclic and none of its
      completions overtook its pipeline. */
  lemma QuietJobIsFinishedIff(run: seq<State>, actions: seq<Action>, i: nat, j: Id)
    requires IsRun(run, actions) && i < |run| && Drained(run[i], j) && Quiet(run[i], j)
    ensures Finished(run[i], j) <==> Acyclic(EdgeSet(run[i].jobs[j].edges)) && NoEarlyCompletions(run[i], j)
  {
    var s := run[i];
    RunsKeepInv(run, actions, i);
    hide IsRun, Structure, History, ClosedForm, HistoryOf, Acyclic, Drained, EdgeSet;
    if Finished(s, j) {
      FinishedIsAcyclic(s, j);
      forall c | c in s.jobs[j].tasks ensures Early(s, c) == {} {
        assert c in s.succeeded && TaskForm(s, c);
        SucceededWithoutEarly(s, c);
      }
    } else if Acyclic(EdgeSet(s.jobs[j].edges)) && NoEarlyCompletions(s, j) {
      var ready := DeadlockFree(s, j);
      assert false;
    }
  }

  lemma SucceededWithoutEarly(s: State, c: Id)
    requires c in s.owner && TaskForm(s, c) && c in s.succeeded
    ensures Early(s, c) == {}
  {
    hide Parents, Children, Linked, Started, Described, KeysOf;
    assert HistoryOf(s, c).succeeded;
  }

  lemma AnyEnumeration(members: set<Id>) returns (order: seq<Id>)
    ensures IsEnumeration(order, members)
  {
    if members == {} {
      order := [];
    } else {
      var x :| x in members;
      order := AnyEnumeration(members - {x});
      order := order + [x];
    }
  }

  lemma ReportWithoutOvertaking(s: State, t: Id, order: seq<Id>)
    requires Enabled(s, Success(t, order)) && t !in s.succeeded && Overtaken(s, t) == {}
    ensures Next(s, Success(t, order)) ==
              s.(redis := CompleteTask(s.redis, t, s.owner[t], order), succeeded := s.succeeded + [t])
  {
    hide Pushed, IsEnumeration, CompleteTask, Overtaken;
    assert s.early + {} == s.early;
  }

  lemma ReportReady(s: State, j: Id, ready: Id, order: seq<Id>)
    requires Inv(s) && Drained(s, j) && NoEarlyCompletions(s, j)
    requires ready in s.jobs[j].tasks && Enabled(s, Success(ready, order)) && ready !in s.succeeded
    ensures var s' := Next(s, Success(ready, order));
            Inv(s') && s'.jobs == s.jobs && Drained(s', j) && NoEarlyCompletions(s', j)
              && s'.succeeded == s.succeeded + [ready]
  {
    hide Structure, History, TaskForm, IsEnumeration, Overtaken, CompleteTask, NoEarlyCompletions, Drained, JobOf;
    var s' := Next(s, Success(ready, order));
    hide Next, Enabled;
    OwnerOfTask(s, j, ready);
    DrainedJobsAreNotOvertaken(s, ready);
    StepKeepsInv(s, Success(ready, order));
    ReportWithoutOvertaking(s, ready, order);
    hide Inv;
    SameEarly(s, s', j);
  }

  lemma OwnerOfTask(s: State, j: Id, t: Id)
    requires Structure(s) && Drained(s, j) && t in s.jobs[j].tasks
    ensures t in s.owner && s.owner[t] == j
  {
    hide WellFormed;
  }

  lemma SameEarly(s: State, s': State, j: Id)
    requires s'.jobs == s.jobs && s'.early == s.early && s'.sent == s.sent && Drained(s, j) && NoEarlyCompletions(s, j)
    ensures Drained(s', j) && NoEarlyCompletions(s', j)
  {
  }

  function Unfinished(s: State, j: Id): set<Id>
    requires j in s.jobs
  {
    set c | c in s.jobs[j].tasks && c !in s.succeeded
  }

  /** A run fragment consisting of success reports only. */
  ghost predicate Reports(states: seq<State>, actions: seq<Action>) {
    && |states| == |actions| + 1
    && forall i | 0 <= i < |actions| :: actions[i].Success? && Step(states[i], actions[i], states[i + 1])
  }

  lemma NoReport(s: State)
    ensures Reports([s], [])
  {
  }

  lemma PrependReport(s: State, a: Action, states: seq<State>, actions: seq<Action>)
    requires Reports(states, actions) && a.Success? && Step(s, a, states[0])
    ensures Reports([s] + states, [a] + actions) && |states| == |actions| + 1
    ensures ([s] + states)[|[a] + actions|] == states[|actions|]
  {
    hide Step;
  }

  /** A job whose pipeline is through, without lost completions and without cycles. */
  ghost predicate Healthy(s: State, j: Id) {
    Inv(s) && Drained(s, j) && NoEarlyCompletions(s, j) && Acyclic(EdgeSet(s.jobs[j].edges))
  }

  /** No choice can go wrong: whichever ready task of a healthy job reports first, and in whatever order
      SMEMBERS lists its children, the job stays healthy and has one unfinished task less. */
  lemma EveryReportIsProgress(s: State, j: Id, t: Id, order: seq<Id>)
    requires Healthy(s, j) && t in s.jobs[j].tasks && t !in s.succeeded && Enabled(s, Success(t, order))
    ensures Healthy(Next(s, Success(t, order)), j)
    ensures |Unfinished(Next(s, Success(t, order)), j)| == |Unfinished(s, j)| - 1
  {
    hide Inv, NoEarlyCompletions, Acyclic, Unfinished, EdgeSet, Enabled;
    assert j in s.jobs;
    hide Drained;
    ReportReady(s, j, t, order);
    hide Next;
    OneLess(s, Next(s, Success(t, order)), j, t);
  }

  lemma ReportSome(s: State, j: Id) returns (a: Action, s': State)
    requires Healthy(s, j) && !Finished(s, j)
    ensures a.Success? && Step(s, a, s') && Healthy(s', j)
    ensures |Unfinished(s', j)| == |Unfinished(s, j)| - 1
  {
    hide Inv, NoEarlyCompletions, Acyclic, Pushed, Finished, Unfinished, EdgeSet, IsEnumeration, Next, Drained;
    var ready := DeadlockFree(s, j);
    var order := AnyEnumeration(s.redis.Members(ready));
    a := Success(ready, order);
    s' := Next(s, a);
    EveryReportIsProgress(s, j, ready, order);
  }

  /** From every reachable state of a healthy job, as many reports as tasks are unfinished finish it. */
  lemma {:induction false} RunsToCompletion(s: State, j: Id) returns (states: seq<State>, actions: seq<Action>)
    requires Healthy(s, j)
    ensures Reports(states, actions) && states[0] == s && |actions| == |Unfinished(s, j)|
    ensures j in states[|actions|].jobs && Finished(states[|actions|], j)
    decreases |Unfinished(s, j)|
  {
    hide Healthy, Step, Finished, Unfinished, Reports;
    HealthyHasJob(s, j);
    FinishedIff(s, j);
    if Finished(s, j) {
      states, actions := [s], [];
      NoReport(s);
    } else {
      var a, s' := ReportSome(s, j);
      assert j in s'.jobs by { HealthyHasJob(s', j); }
      var states', actions' := RunsToCompletion(s', j);
      PrependReport(s, a, states', actions');
      states, actions := [s] + states', [a] + actions';
    }
  }

  lemma HealthyHasJob(s: State, j: Id)
    requires Healthy(s, j)
    ensures j in s.jobs
  {
  }

  lemma FinishedIff(s: State, j: Id)
    requires j in s.jobs
    ensures Finished(s, j) <==> |Unfinished(s, j)| == 0
  {
    if !Finished(s, j) {
      var c :| c in s.jobs[j].tasks && c !in s.succeeded;
      assert c in Unfinished(s, j);
    }
  }

  lemma OneLess(s: State, s': State, j: Id, c: Id)
    requires j in s.jobs && c in s.jobs[j].tasks && c !in s.succeeded
    requires s'.jobs == s.jobs && s'.succeeded == s.succeeded + [c]
    ensures |Unfinished(s', j)| == |Unfinished(s, j)| - 1
  {
    assert c in Unfinished(s, j) && Unfinished(s', j) == Unfinished(s, j) - {c};
  }

  const RACE_JOB := Job(["a", "b"], [Edge("a", "b")])

  /** The state of the race after `sent` commands, before or after the report of the root. */
  function RaceState(ks: Keyspace, sent: nat, reported: bool): State {
    State(ks, map["j" := RACE_JOB], map["j" := sent], map["a" := "j", "b" := "j"],
          if reported then ["a"] else [], if reported then {Edge("a", "b")} else {}, multiset{})
  }

  function RaceKeys(i: nat): Keyspace {
    match i
    case 0 => EMPTY_KEYSPACE
    case 1 => Keyspace(map["a" := {"b"}], map[], {}, [], [])
    case 2 => Keyspace(map["a" := {"b"}], map[], {"a"}, [], [])
    case 3 => Keyspace(map["a" := {"b"}], map[], {"a"}, [Pointer("a", "j")], [])
    case 4 => Keyspace(map[], map[Field("j", "b") := -1], {"a"}, [Pointer("a", "j")], [NegativeDeps("j", "b", -1)])
    case 5 => Keyspace(map[], map[Field("j", "b") := -1], {"a", "b"}, [Pointer("a", "j")], [NegativeDeps("j", "b", -1)])
    case _ => Keyspace(map[], map[Field("j", "b") := 1], {"a", "b"}, [Pointer("a", "j")], [NegativeDeps("j", "b", -1)])
  }

  function RacePoint(i: nat): State {
    if i == 0 then INITIAL else if i < 5 then RaceState(RaceKeys(i - 1), i - 1, false)
    else RaceState(RaceKeys(i - 1), i - 2, true)
  }

  function RaceAction(i: nat): Action {
    if i == 0 then Submit("j", RACE_JOB) else if i == 4 then Success("a", ["b"]) else Send("j")
  }

  lemma RaceStep(i: nat)
    requires i < 7
    ensures Step(RacePoint(i), RaceAction(i), RacePoint(i + 1))
  {
    hide Step, RaceState, RaceKeys;
    if i == 0 {
      RaceSubmit();
    } else if i < 4 {
      RaceSend(i - 1, i - 1, false);
    } else if i == 4 {
      RaceReport();
    } else {
      RaceSend(i - 1, i - 2, true);
    }
  }

  /** Pipelines are not transactions: a root that completes between its own XADD and a child's HSET
      leaves the child with a counter that never reaches zero. Two tasks and one edge suffice. */
  lemma OvertakingLosesTheChild() returns (run: seq<State>, actions: seq<Action>)
    ensures IsRun(run, actions) && |actions| == 7 && "j" in run[7].jobs
    ensures Drained(run[7], "j") && Quiet(run[7], "j") && !Finished(run[7], "j")
    ensures run[7].redis.errors == [NegativeDeps("j", "b", -1)]
  {
    run, actions := seq(8, i requires 0 <= i < 8 => RacePoint(i)), seq(7, i requires 0 <= i < 7 => RaceAction(i));
    assert run[0] == INITIAL && run[7] == RaceState(RaceKeys(6), 5, true);
    RaceOutcome();
    hide Step, RacePoint, RaceAction, Drained, Quiet, Finished, RaceState, RaceKeys;
    forall i | 0 <= i < 7 ensures Step(run[i], actions[i], run[i + 1]) {
      RaceStep(i);
    }
  }

  lemma RaceSubmit()
    ensures Step(INITIAL, Submit("j", RACE_JOB), RaceState(RaceKeys(0), 0, false))
  {
    var d := RACE_JOB;
    assert d.tasks[0] == "a" && d.tasks[1] == "b";
    assert map[] + (map x | x in d.tasks :: "j") == map["a" := "j", "b" := "j"];
  }

  lemma RaceOutcome()
    ensures var s := RaceState(RaceKeys(6), 5, true);
            && "j" in s.jobs && s.redis.errors == [NegativeDeps("j", "b", -1)]
            && Drained(s, "j") && Quiet(s, "j") && !Finished(s, "j")
  {
    var s := RaceState(RaceKeys(6), 5, true);
    assert RACE_JOB.tasks[1] == "b" && "b" in RACE_JOB.tasks;
    assert s.redis.tasks == [Pointer("a", "j")];
  }

  lemma RaceCommands(i: nat)
    requires i < 5
    ensures CommandCount(RACE_JOB) == 5
    ensures CommandAt("j", RACE_JOB, i) ==
              [SAdd("a", "b"), SetMeta("a"), XAdd("a", "j"), SetMeta("b"), HSet("j", "b", 1)][i]
  {
    var d := RACE_JOB;
    assert d.edges[..0] == [];
    assert OpenDegree([], "b", {}) == 0 && OpenDegree([], "a", {}) == 0;
    assert InDegree(d.edges, "a") == 0 && InDegree(d.edges, "b") == 1;
  }

  lemma RaceSend(k: nat, i: nat, reported: bool)
    requires (k == i < 3 && !reported) || (k == i + 1 && 3 <= i < 5 && reported)
    ensures Step(RaceState(RaceKeys(k), i, reported), Send("j"), RaceState(RaceKeys(k + 1), i + 1, reported))
  {
    RaceCommands(i);
    RaceExecute(k, i);
    hide CommandAt, CommandCount, Execute, RaceKeys;
    var s := RaceState(RaceKeys(k), i, reported);
    assert s.sent["j"] == i && s.jobs["j"] == RACE_JOB;
    assert s.sent["j" := i + 1] == map["j" := i + 1];
  }

  lemma RaceExecute(k: nat, i: nat)
    requires (k == i < 3) || (k == i + 1 && 3 <= i < 5)
    ensures Execute(RaceKeys(k),
              [SAdd("a", "b"), SetMeta("a"), XAdd("a", "j"), SetMeta("b"), HSet("j", "b", 1)][i]) == RaceKeys(k + 1)
  {
    var cmd := [SAdd("a", "b"), SetMeta("a"), XAdd("a", "j"), SetMeta("b"), HSet("j", "b", 1)][i];
    var before, after := RaceKeys(k), RaceKeys(k + 1);
    match i {
      case 0 =>
        assert before.Members("a") + {"b"} == {"b"};
        assert after.children == map["a" := {"b"}] == before.children["a" := {"b"}];
      case 1 => assert {} + {"a"} == {"a"};
      case 2 => assert [] + [Pointer("a", "j")] == after.tasks;
      case 3 => assert {"a"} + {"b"} == {"a", "b"};
      case _ => assert before.deps[Field("j", "b") := 1] == after.deps;
    }
  }

  lemma RaceReport()
    ensures Step(RaceState(RaceKeys(3), 3, false), Success("a", ["b"]), RaceState(RaceKeys(4), 3, true))
  {
    var s := RaceState(RaceKeys(3), 3, false);
    var ks := s.redis;
    RaceScript(ks);
    assert Started(RACE_JOB, 3) == ["a"];
    assert EdgeSet(RACE_JOB.edges) == {Edge("a", "b")};
    assert Overtaken(s, "a") == {Edge("a", "b")};
    assert Pushed(s, "a") && IsEnumeration(["b"], ks.Members("a"));
    hide Overtaken, CompleteTask, Pushed, IsEnumeration;
  }

  lemma RaceScript(ks: Keyspace)
    requires ks == RaceKeys(3)
    ensures CompleteTask(ks, "a", "j", ["b"]) == RaceKeys(4)
  {
    assert ["b"][..0] == [];
    assert VisitAll(ks, "j", []) == ks;
    assert VisitAll(ks, "j", ["b"]) == Visit(ks, "j", "b");
    assert map["a" := {"b"}] - {"a"} == map[];
  }
}
