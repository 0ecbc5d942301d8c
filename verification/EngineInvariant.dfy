/** Every step of the DAG engine keeps its invariant. */
module EngineInvariant {
  import opened Graph
  import opened Requests
  import opened RedisStore
  import opened DagEngine

  lemma InitialInv()
    ensures Inv(INITIAL)
  {
  }

  // ---------------------------------------------------------------- Submit

  lemma SubmitStructure(s: State, j: Id, d: Job)
    requires Structure(s) && Enabled(s, Submit(j, d))
    ensures Structure(Next(s, Submit(j, d)))
  {
    hide Pushed, JobOf, ParentsOf, Initialised, Waiting, Early, Overtaken, CommandAt, WellFormed;
  }

  lemma SubmitOldTask(s: State, j: Id, d: Job, c: Id)
    requires Structure(s) && c in s.owner && Enabled(s, Submit(j, d))
    ensures JobOf(Next(s, Submit(j, d)), c) == JobOf(s, c)
    ensures HistoryOf(Next(s, Submit(j, d)), c) == HistoryOf(s, c)
  {
    hide WellFormed, Pushed, CommandAt, Parents, Children, Linked, Started, Described;
    var s' := Next(s, Submit(j, d));
    assert JobOf(s', c) == JobOf(s, c) && SentOf(s', c) == SentOf(s, c);
  }

  /** A fresh task has no history and no trace in Redis. */
  lemma FreshTask(s: State, j: Id, d: Job, c: Id)
    requires Structure(s) && Enabled(s, Submit(j, d)) && c in d.tasks
    ensures s.redis.Members(c) == {} && Field(j, c) !in s.redis.deps
    ensures multiset(s.redis.tasks)[Pointer(c, j)] == 0 && multiset(s.redis.tasks)[ScriptPointer(c, j)] == 0
  {
    hide Pushed, CommandAt, Overtaken, WellFormed, JobOf, ParentsOf, Next;
  }

  lemma FreshTaskHistory(s: State, j: Id, d: Job, c: Id)
    requires History(s) && Enabled(s, Submit(j, d)) && c in d.tasks
    requires forall t | t in s.succeeded || s.retries[t] > 0 :: t in s.owner
    ensures var s' := Next(s, Submit(j, d));
            JobOf(s', c) == d && Early(s', c) == {} && Waiting(s', c) == ParentsOf(s', c)
  {
    hide Pushed, CommandAt, Overtaken;
    var s' := Next(s, Submit(j, d));
    assert JobOf(s', c) == d;
    assert Early(s', c) == {} by { hide WellFormed, ParentsOf; }
    forall p | p in ParentsOf(s', c) ensures p !in s.succeeded {
      assert Edge(p, c) in EdgeSet(d.edges);
    }
  }

  lemma SubmitNewTask(s: State, j: Id, d: Job, c: Id)
    requires Structure(s) && History(s) && Enabled(s, Submit(j, d)) && c in d.tasks
    requires forall t | t in s.succeeded || s.retries[t] > 0 :: t in s.owner
    ensures TaskForm(Next(s, Submit(j, d)), c)
  {
    hide Structure, History, WellFormed, Pushed, CommandAt, Overtaken, ParentsOf, Waiting, Early, JobOf, Parents;
    FreshTask(s, j, d, c);
    FreshTaskHistory(s, j, d, c);
    assert Linked(d, 0) == {};
  }

  lemma SubmitKeeps(s: State, j: Id, d: Job)
    requires Inv(s) && Enabled(s, Submit(j, d))
    ensures Inv(Next(s, Submit(j, d)))
  {
    hide Structure, History, ClosedForm, WellFormed, HistoryOf, KeysOf;
    var s' := Next(s, Submit(j, d));
    SubmitStructure(s, j, d);
    forall c | c in s'.owner ensures TaskForm(s', c) {
      if c in s.owner { SubmitOldTask(s, j, d, c); } else { SubmitNewTask(s, j, d, c); }
    }
    SubmitHistory(s, j, d);
  }

  lemma SubmitHistory(s: State, j: Id, d: Job)
    requires Inv(s) && Enabled(s, Submit(j, d))
    ensures History(Next(s, Submit(j, d)))
  {
    hide Structure, ClosedForm, WellFormed, Parents, Pushed, HistoryOf, KeysOf;
    var s' := Next(s, Submit(j, d));
    forall c | c in s.owner ensures JobOf(s', c) == JobOf(s, c) {
      SubmitOldTask(s, j, d, c);
    }
  }

  // ---------------------------------------------------------------- Send

  lemma SendStructure(s: State, j: Id)
    requires Structure(s) && Enabled(s, Send(j))
    ensures Structure(Next(s, Send(j)))
  {
    SubjectInJob(s, j);
    var cmd := CommandAt(j, s.jobs[j], s.sent[j]);
    assert s.owner[Subject(cmd)] == j && (cmd.HSet? || cmd.XAdd? ==> cmd.job == j);
    var s' := Next(s, Send(j));
    assert s'.redis == Execute(s.redis, cmd) && s'.jobs == s.jobs && s'.owner == s.owner
           && s'.sent == s.sent[j := s.sent[j] + 1];
    assert forall i | i in s.jobs :: s.sent[i] <= CommandCount(s.jobs[i]);
    ExecuteTouches(s.redis, cmd);
    assert Subject(cmd) in s.owner;
    hide Enabled, Next, WellFormed, CommandAt, Execute, Subject, CommandCount;
    StructureFrame(s, s');
  }

  /** Only the positions and the stores of Redis change, and these name no foreign task. */
  lemma StructureFrame(s: State, s': State)
    requires Structure(s) && s'.jobs == s.jobs && s'.owner == s.owner && s'.sent.Keys == s.sent.Keys
    requires forall j | j in s.jobs && j in s'.sent :: s'.sent[j] <= CommandCount(s.jobs[j])
    requires s'.redis.children.Keys <= s.owner.Keys
    requires forall f | f in s'.redis.deps :: f in s.redis.deps || (f.task in s.owner && s.owner[f.task] == f.job)
    requires forall e | e in s'.redis.tasks :: e in s.redis.tasks || (e.task in s.owner && s.owner[e.task] == e.job)
    ensures Structure(s')
  {
    hide WellFormed, CommandCount;
  }

  lemma ExecuteTouches(ks: Keyspace, cmd: Command)
    ensures var r := Execute(ks, cmd);
            && r.children.Keys <= ks.children.Keys + {Subject(cmd)}
            && (forall f | f in r.deps :: f in ks.deps || (cmd.HSet? && f == Field(cmd.job, Subject(cmd))))
            && (forall e | e in r.tasks :: e in ks.tasks || (cmd.XAdd? && e == Pointer(Subject(cmd), cmd.job)))
  {
  }

  /** What one command does to the past of a task: nothing but the advance of its own pipeline. */
  lemma SendHistoryOf(s: State, j: Id, c: Id)
    requires Structure(s) && Enabled(s, Send(j)) && c in s.owner
    ensures var d, sent := JobOf(s, c), SentOf(s, c) + if s.owner[c] == j then 1 else 0;
            HistoryOf(Next(s, Send(j)), c) ==
              HistoryOf(s, c).(linked := Children(Linked(d, sent), c), described := c in Described(d, sent),
                               initialised := c in Started(d, sent))
  {
    hide CommandAt, Execute, Pushed, WellFormed, Parents, Children, Linked, Described, Started;
    var s' := Next(s, Send(j));
    assert JobOf(s', c) == JobOf(s, c);
    assert ParentsOf(s', c) == ParentsOf(s, c) && Waiting(s', c) == Waiting(s, c) && Early(s', c) == Early(s, c);
  }

  /** What one command does to the keys of a task. */
  function Written(k: TaskKeys, cmd: Command): TaskKeys {
    match cmd
    case SAdd(_, c) => k.(members := k.members + {c})
    case SetMeta(_) => k.(hasMeta := true)
    case HSet(_, _, n) => k.(hasCounter := true, count := n)
    case XAdd(_, _) => k.(pointers := k.pointers + 1)
  }

  function Subject(cmd: Command): Id {
    match cmd case SAdd(p, _) => p case SetMeta(t) => t case HSet(_, t, _) => t case XAdd(t, _) => t
  }

  lemma ExecuteOnKeys(ks: Keyspace, cmd: Command, j: Id, c: Id)
    requires Subject(cmd) == c ==> (cmd.HSet? || cmd.XAdd? ==> cmd.job == j)
    ensures KeysOf(Execute(ks, cmd), j, c) ==
              if Subject(cmd) == c then Written(KeysOf(ks, j, c), cmd) else KeysOf(ks, j, c)
  {
  }

  lemma SubjectInJob(s: State, j: Id)
    requires Structure(s) && Enabled(s, Send(j))
    ensures Subject(CommandAt(j, s.jobs[j], s.sent[j])) in s.jobs[j].tasks
  {
    hide Pushed, Parents;
    var d := s.jobs[j];
    if s.sent[j] < |d.edges| {
      assert d.edges[s.sent[j]] in EdgeSet(d.edges);
    }
  }

  lemma LinkedGrows(d: Job, i: nat, c: Id)
    requires i < |d.edges|
    ensures Children(Linked(d, i + 1), c) ==
            Children(Linked(d, i), c) + if d.edges[i].parent == c then {d.edges[i].child} else {}
    ensures Started(d, i) == [] && Started(d, i + 1) == [] && Described(d, i) == [] && Described(d, i + 1) == []
  {
    assert d.edges[..i + 1] == d.edges[..i] + [d.edges[i]];
    assert i + 1 == |d.edges| ==> d.edges[..i + 1] == d.edges;
  }

  lemma StartedGrows(d: Job, sent: nat, c: Id)
    requires NoDuplicates(d.tasks) && |d.edges| <= sent < CommandCount(d)
    ensures (sent - |d.edges|) / 2 < |d.tasks|
    ensures c in Started(d, sent + 1) <==>
              c in Started(d, sent) || ((sent - |d.edges|) % 2 == 1 && c == d.tasks[(sent - |d.edges|) / 2])
    ensures c in Described(d, sent + 1) <==>
              c in Described(d, sent) || ((sent - |d.edges|) % 2 == 0 && c == d.tasks[(sent - |d.edges|) / 2])
    ensures (sent - |d.edges|) % 2 == 1 ==>
              d.tasks[(sent - |d.edges|) / 2] in Described(d, sent)
                && d.tasks[(sent - |d.edges|) / 2] !in Started(d, sent)
    ensures Linked(d, sent) == Linked(d, sent + 1) == EdgeSet(d.edges)
  {
    hide EdgeSet;
    var k := (sent - |d.edges|) / 2;
    assert d.tasks[..k + 1] == d.tasks[..k] + [d.tasks[k]];
    assert d.tasks[..0] == [];
    assert d.edges[..|d.edges|] == d.edges;
  }

  /** The counter written by HSET is the number of parents. */
  lemma CounterMatchesGraph(s: State, j: Id, c: Id)
    requires Structure(s) && c in s.owner && s.owner[c] == j
    ensures WellFormed(s.jobs[j]) && JobOf(s, c) == s.jobs[j] && SentOf(s, c) == s.sent[j]
    ensures InDegree(s.jobs[j].edges, c) == |ParentsOf(s, c)|
  {
    hide InDegree, Parents;
    InDegreeCountsParents(s.jobs[j].edges, c);
  }

  lemma ParentsSplit(h: TaskHistory)
    requires h.waiting <= h.parents
    ensures |h.parents| == |h.waiting| + |h.parents - h.waiting|
  {
    assert h.parents == (h.parents - h.waiting) + h.waiting;
  }

  /** The heart of the pipeline's correctness, free of the other tasks and jobs. */
  lemma CommandKeepsForm(d: Job, j: Id, sent: nat, c: Id, h: TaskHistory, k: TaskKeys)
    requires NoDuplicates(d.tasks) && sent < CommandCount(d) && ClosedForm(h, k) && |h.parents| == InDegree(d.edges, c)
    requires h.linked == Children(Linked(d, sent), c)
    requires (h.described <==> c in Described(d, sent)) && (h.initialised <==> c in Started(d, sent))
    ensures ClosedForm(h.(linked := Children(Linked(d, sent + 1), c), described := c in Described(d, sent + 1),
                          initialised := c in Started(d, sent + 1)),
                       if Subject(CommandAt(j, d, sent)) == c then Written(k, CommandAt(j, d, sent)) else k)
  {
    hide Linked, Started, Described, Children, InDegree;
    if sent < |d.edges| {
      LinkedGrows(d, sent, c);
    } else {
      StartedGrows(d, sent, c);
      ParentsSplit(h);
    }
  }

  lemma SendKeysOf(s: State, j: Id, c: Id)
    requires Structure(s) && Enabled(s, Send(j)) && c in s.owner
    ensures var cmd := CommandAt(j, s.jobs[j], s.sent[j]);
            && (Subject(cmd) == c ==> s.owner[c] == j)
            && KeysOf(Next(s, Send(j)).redis, s.owner[c], c) ==
                 if Subject(cmd) == c then Written(KeysOf(s.redis, s.owner[c], c), cmd)
                 else KeysOf(s.redis, s.owner[c], c)
  {
    SubjectInJob(s, j) by { hide KeysOf, Execute, WellFormed; }
    var cmd := CommandAt(j, s.jobs[j], s.sent[j]);
    assert cmd.HSet? || cmd.XAdd? ==> cmd.job == j by { hide Structure; }
    assert Subject(cmd) == c ==> s.owner[c] == j by { hide CommandAt, WellFormed, KeysOf, Execute; }
    hide Structure, Pushed, KeysOf, Execute, CommandAt;
    ExecuteOnKeys(s.redis, cmd, s.owner[c], c);
  }

  lemma SendTaskForm(s: State, j: Id, c: Id)
    requires Structure(s) && Enabled(s, Send(j)) && c in s.owner && TaskForm(s, c)
    ensures TaskForm(Next(s, Send(j)), c)
  {
    hide Execute, KeysOf, InDegree, ClosedForm, CommandAt, Children, Linked, Started, Described, ParentsOf,
         Waiting, Early;
    SendHistoryOf(s, j, c);
    SendKeysOf(s, j, c);
    if s.owner[c] == j {
      CounterMatchesGraph(s, j, c);
      hide Structure;
      CommandKeepsForm(s.jobs[j], j, s.sent[j], c, HistoryOf(s, c), KeysOf(s.redis, j, c));
    }
  }

  lemma SendHistory(s: State, j: Id)
    requires History(s) && Enabled(s, Send(j))
    ensures History(Next(s, Send(j)))
  {
    hide Parents, Pushed, Initialised, Overtaken;
    assert forall c :: JobOf(Next(s, Send(j)), c) == JobOf(s, c);
  }

  lemma SendKeeps(s: State, j: Id)
    requires Inv(s) && Enabled(s, Send(j))
    ensures Inv(Next(s, Send(j)))
  {
    hide Structure, History, TaskForm, WellFormed;
    SendStructure(s, j);
    forall c | c in s.owner ensures TaskForm(Next(s, Send(j)), c) {
      SendTaskForm(s, j, c);
    }
    SendHistory(s, j);
  }

  // ---------------------------------------------------------------- Retry

  lemma RetryView(s: State, t: Id)
    requires Enabled(s, Retry(t))
    ensures forall c :: JobOf(Next(s, Retry(t)), c) == JobOf(s, c)
    ensures forall c :: ParentsOf(Next(s, Retry(t)), c) == ParentsOf(s, c)
    ensures Structure(s) ==> Structure(Next(s, Retry(t)))
  {
    hide WellFormed, Parents;
  }

  lemma RetryTaskForm(s: State, t: Id, c: Id)
    requires c in s.owner && TaskForm(s, c) && Enabled(s, Retry(t)) && (c == t ==> Released(s, t))
    ensures TaskForm(Next(s, Retry(t)), c)
  {
    hide Next, Enabled, HistoryOf, KeysOf, ClosedForm;
    RetryRecords(s, t, c);
    RetriedForm(HistoryOf(s, c), KeysOf(s.redis, s.owner[c], c), c == t);
  }

  lemma RetriedForm(h: TaskHistory, k: TaskKeys, isRetried: bool)
    requires ClosedForm(h, k) && (isRetried ==> h.Released())
    ensures var more := if isRetried then 1 else 0;
            ClosedForm(h.(retries := h.retries + more), k.(pointers := k.pointers + more))
  {
  }

  lemma RetryRecords(s: State, t: Id, c: Id)
    requires c in s.owner && Enabled(s, Retry(t))
    ensures var s', h, k := Next(s, Retry(t)), HistoryOf(s, c), KeysOf(s.redis, s.owner[c], c);
            && s'.owner == s.owner
            && HistoryOf(s', c) == h.(retries := h.retries + if c == t then 1 else 0)
            && KeysOf(s'.redis, s.owner[c], c) == k.(pointers := k.pointers + if c == t then 1 else 0)
  {
    hide Parents, Children, Linked, Started, Described, Pushed;
  }

  lemma RetryKeeps(s: State, t: Id)
    requires Inv(s) && Enabled(s, Retry(t))
    ensures Inv(Next(s, Retry(t)))
  {
    hide ClosedForm, HistoryOf, KeysOf, JobOf, ParentsOf, Structure, Pushed;
    var s' := Next(s, Retry(t));
    assert t in s.owner by { hide History; assert Pushed(s, t); PushedHasOwner(s, t); }
    PushedIffReleased(s, t);
    RetryView(s, t);
    assert History(s');
    hide History, TaskForm, Released;
    forall c | c in s'.owner ensures TaskForm(s', c) {
      RetryTaskForm(s, t, c);
    }
  }

  lemma PushedHasOwner(s: State, t: Id)
    requires Pushed(s, t)
    ensures t in s.owner
  {
  }

  // ---------------------------------------------------------------- Success

  lemma RepeatedSuccessDoesNothing(s: State, t: Id, order: seq<Id>)
    requires Inv(s) && Enabled(s, Success(t, order)) && t in s.succeeded
    ensures Next(s, Success(t, order)) == s
  {
    hide Structure, History, Pushed, HistoryOf, IsEnumeration;
    assert HistoryOf(s, t).succeeded by { HistorySucceeded(s, t); }
    assert TaskForm(s, t);
  }

  lemma HistorySucceeded(s: State, c: Id)
    ensures HistoryOf(s, c).succeeded <==> c in s.succeeded
  {
  }

  /** The first report of a task that may run finds all of its children still linked. */
  lemma FirstReportSeesAllChildren(s: State, t: Id)
    requires t in s.owner && TaskForm(s, t) && Pushed(s, t) && t !in s.succeeded
    ensures s.redis.Members(t) == ChildrenOf(s, t) && Released(s, t)
    ensures t !in ParentsOf(s, t) && forall p | p in ParentsOf(s, t) :: p in s.succeeded
  {
    PushedIffReleased(s, t);
    var d, sent := JobOf(s, t), SentOf(s, t);
    assert HistoryOf(s, t).initialised;
    assert Linked(d, sent) == EdgeSet(d.edges);
    assert HistoryOf(s, t).linked == ChildrenOf(s, t);
    assert Waiting(s, t) == {} && (t in ParentsOf(s, t) ==> t in Waiting(s, t));
    hide ClosedForm, HistoryOf, Parents, Children;
    assert forall p | p in ParentsOf(s, t) :: p !in s.succeeded ==> p in Waiting(s, t);
  }

  /** The effect of the script on one task, whichever branch it takes and whatever order it visits in. */
  function Completed(k: TaskKeys, isReporter: bool, isChild: bool): TaskKeys {
    var k1 := if isReporter then k.(members := {}) else k;
    if !isChild then k1 else
    var triggers := k.count == 1 && k.hasMeta;
    k1.(count := k.count - 1, hasCounter := !triggers, scriptPointers := k.scriptPointers + if triggers then 1 else 0)
  }

  lemma EmptyEnumeration(order: seq<Id>, members: set<Id>)
    requires IsEnumeration(order, members)
    ensures order == [] <==> members == {}
  {
    if order != [] { assert order[0] in members; }
  }

  /** The script seen as one effect on the keyspace. */
  lemma ScriptEffect(ks: Keyspace, t: Id, job: Id, order: seq<Id>)
    requires IsEnumeration(order, ks.Members(t))
    ensures var r := CompleteTask(ks, t, job, order);
            && VisitEffect(ks, r.(children := ks.children), job, order)
            && r.Members(t) == {} && r.children.Keys <= ks.children.Keys
            && (forall c | c != t :: r.Members(c) == ks.Members(c))
  {
    EmptyEnumeration(order, ks.Members(t));
    if order == [] {
      VisitNone(ks, job);
    } else {
      VisitAllEffect(ks, job, order);
      var r := VisitAll(ks, job, order);
      assert r.(children := ks.children) == r by { assert VisitEffect(ks, r, job, order); }
      assert CompleteTask(ks, t, job, order) == r.(children := r.children - {t});
      assert CompleteTask(ks, t, job, order).(children := ks.children) == r;
    }
  }

  lemma ScriptOnKeys(ks: Keyspace, t: Id, job: Id, order: seq<Id>, c: Id)
    requires IsEnumeration(order, ks.Members(t))
    ensures KeysOf(CompleteTask(ks, t, job, order), job, c) == Completed(KeysOf(ks, job, c), c == t, c in order)
  {
    ScriptEffect(ks, t, job, order);
    hide CompleteTask;
  }

  lemma ScriptElsewhere(ks: Keyspace, t: Id, job: Id, order: seq<Id>, j: Id, c: Id)
    requires IsEnumeration(order, ks.Members(t)) && j != job && c != t
    ensures KeysOf(CompleteTask(ks, t, job, order), j, c) == KeysOf(ks, j, c)
  {
    ScriptEffect(ks, t, job, order);
    hide CompleteTask;
  }

  /** The heart of the script's correctness: one parent's completion keeps the closed form. */
  lemma CompletionKeepsForm(h: TaskHistory, k: TaskKeys, t: Id, isReporter: bool, isChild: bool)
    requires ClosedForm(h, k)
    requires isReporter ==> h.Released() && !isChild
    requires isChild ==> t in h.waiting && t !in h.early
    ensures ClosedForm(h.(succeeded := h.succeeded || isReporter,
                          waiting := if isChild then h.waiting - {t} else h.waiting,
                          early := if isChild && !h.initialised then h.early + {t} else h.early),
                       Completed(k, isReporter, isChild))
  {
  }

  lemma SuccessHistoryOf(s: State, t: Id, order: seq<Id>, c: Id)
    requires Structure(s) && Enabled(s, Success(t, order)) && t !in s.succeeded && c in s.owner && t in s.owner
    ensures var h, isChild := HistoryOf(s, c), t in ParentsOf(s, c);
            HistoryOf(Next(s, Success(t, order)), c) ==
              h.(succeeded := h.succeeded || c == t,
                 waiting := if isChild then h.waiting - {t} else h.waiting,
                 early := if isChild && !h.initialised then h.early + {t} else h.early)
  {
    hide Pushed, IsEnumeration, CompleteTask, Linked, Started, Described, Children;
    var s' := Next(s, Success(t, order));
    assert JobOf(s', c) == JobOf(s, c) && SentOf(s', c) == SentOf(s, c);
    assert ParentsOf(s', c) == ParentsOf(s, c);
    assert s'.succeeded == s.succeeded + [t];
    assert Waiting(s', c) == if t in ParentsOf(s, c) then Waiting(s, c) - {t} else Waiting(s, c)
           by { hide Structure, Parents; }
    SuccessEarly(s, t, order, c);
  }

  lemma SuccessEarly(s: State, t: Id, order: seq<Id>, c: Id)
    requires Structure(s) && Enabled(s, Success(t, order)) && t !in s.succeeded && c in s.owner && t in s.owner
    ensures Early(Next(s, Success(t, order)), c) ==
              if t in ParentsOf(s, c) && !Initialised(s, c) then Early(s, c) + {t} else Early(s, c)
  {
    hide Pushed, IsEnumeration, CompleteTask, WellFormed;
    assert Edge(t, c) in Overtaken(s, t) <==> t in ParentsOf(s, c) && !Initialised(s, c) by {
      if t in ParentsOf(s, c) { EdgesStayInJob(s, t, c); }
      if c in ChildrenOf(s, t) { EdgesStayInJob(s, t, c); }
      hide Structure, Next;
      assert c in ChildrenOf(s, t) <==> Edge(t, c) in EdgeSet(JobOf(s, t).edges);
    }
    hide Structure, Initialised, JobOf, ParentsOf;
    assert forall e | e in Overtaken(s, t) :: e.parent == t;
  }

  lemma SuccessTaskForm(s: State, t: Id, order: seq<Id>, c: Id)
    requires Structure(s) && Enabled(s, Success(t, order)) && t !in s.succeeded && t in s.owner && c in s.owner
    requires TaskForm(s, c) && TaskForm(s, t)
    ensures TaskForm(Next(s, Success(t, order)), c)
  {
    hide ClosedForm, KeysOf, CompleteTask, HistoryOf, WellFormed, Parents, Children;
    var s' := Next(s, Success(t, order));
    FirstReportSeesAllChildren(s, t);
    assert c in order <==> t in ParentsOf(s, c) by {
      if t in ParentsOf(s, c) { EdgesStayInJob(s, t, c); }
      if c in ChildrenOf(s, t) { EdgesStayInJob(s, t, c); }
    }
    assert t in ParentsOf(s, c) ==> s.owner[t] == s.owner[c] by {
      if t in ParentsOf(s, c) { EdgesStayInJob(s, t, c); }
    }
    SuccessHistoryOf(s, t, order, c);
    hide Structure;
    if s.owner[c] == s.owner[t] {
      ScriptOnKeys(s.redis, t, s.owner[t], order, c);
      WaitingParent(s, c, t);
      CompletionKeepsForm(HistoryOf(s, c), KeysOf(s.redis, s.owner[c], c), t, c == t, t in ParentsOf(s, c));
    } else {
      ScriptElsewhere(s.redis, t, s.owner[t], order, s.owner[c], c);
      SameRecord(HistoryOf(s, c));
    }
  }

  lemma SameRecord(h: TaskHistory)
    ensures h.(succeeded := h.succeeded || false, waiting := h.waiting, early := h.early) == h
  {
  }

  lemma WaitingParent(s: State, c: Id, t: Id)
    requires c in s.owner && TaskForm(s, c) && t !in s.succeeded
    ensures t in ParentsOf(s, c) ==> t in HistoryOf(s, c).waiting && t !in HistoryOf(s, c).early
    ensures HistoryOf(s, c).Released() <==> Released(s, c)
  {
    hide Parents, Children, Linked, Started, Described, KeysOf;
  }

  /** The script writes counters and entries of its own children only. */
  lemma ScriptTouches(ks: Keyspace, t: Id, job: Id, order: seq<Id>)
    requires IsEnumeration(order, ks.Members(t))
    ensures var r := CompleteTask(ks, t, job, order);
            && r.children.Keys <= ks.children.Keys
            && (forall f | f in r.deps :: f in ks.deps || (f.job == job && f.task in order))
            && (forall e | e in r.tasks :: e in ks.tasks || (e.job == job && e.task in order))
  {
    ScriptEffect(ks, t, job, order);
    var r := CompleteTask(ks, t, job, order);
    hide CompleteTask, IsEnumeration;
    forall e | e in r.tasks ensures e in ks.tasks || (e.job == job && e.task in order) {
      assert multiset(r.tasks)[e] > 0;
    }
  }

  lemma ScriptErrors(ks: Keyspace, t: Id, job: Id, order: seq<Id>)
    requires IsEnumeration(order, ks.Members(t))
    ensures var r := CompleteTask(ks, t, job, order);
            && (r.errors == [] <==>
                  ks.errors == [] && forall c | c in order :: ks.Count(Field(job, c)) > 1 || Triggers(ks, job, c))
            && (forall x | x in r.errors :: x in ks.errors || x.NegativeDeps?
                  || (x.task in order && ks.Count(Field(job, x.task)) == 1 && x.task !in ks.meta))
  {
    ScriptEffect(ks, t, job, order);
    hide CompleteTask, IsEnumeration;
  }

  lemma SuccessStructure(s: State, t: Id, order: seq<Id>)
    requires Structure(s) && Enabled(s, Success(t, order)) && t in s.owner
    requires forall c | c in order :: c in s.owner && s.owner[c] == s.owner[t]
    ensures Structure(Next(s, Success(t, order)))
  {
    SuccessView(s, t, order);
    assert s.redis.children.Keys <= s.owner.Keys;
    assert forall j | j in s.jobs && j in s.sent :: s.sent[j] <= CommandCount(s.jobs[j]);
    hide Next, Enabled, CommandCount, Structure, CompleteTask, IsEnumeration;
    ScriptTouches(s.redis, t, s.owner[t], order);
    StructureFrame(s, Next(s, Success(t, order)));
  }

  lemma SuccessView(s: State, t: Id, order: seq<Id>)
    requires Enabled(s, Success(t, order)) && t in s.owner
    ensures IsEnumeration(order, s.redis.Members(t))
    ensures var s' := Next(s, Success(t, order));
            && s'.redis == CompleteTask(s.redis, t, s.owner[t], order)
            && s'.jobs == s.jobs && s'.sent == s.sent && s'.owner == s.owner
  {
    hide CompleteTask, IsEnumeration, Pushed, Overtaken;
  }

  /** A first report adds an error exactly when it overtakes the counter of a child. */
  lemma ErrorsExactlyForOvertaken(s: State, t: Id, order: seq<Id>)
    requires Inv(s) && Enabled(s, Success(t, order)) && t !in s.succeeded && t in s.owner
    requires forall c :: c in order <==> c in ChildrenOf(s, t)
    ensures (forall c | c in order :: s.redis.Count(Field(s.owner[t], c)) > 1 || Triggers(s.redis, s.owner[t], c))
              <==> Overtaken(s, t) == {}
    ensures forall c | c in order :: s.redis.Count(Field(s.owner[t], c)) == 1 ==> c in s.redis.meta
  {
    hide ClosedForm, HistoryOf, KeysOf, CompleteTask, History, Initialised, JobOf, ParentsOf, WellFormed,
         IsEnumeration, Next, Pushed, TaskForm;
    forall c | c in order
      ensures s.redis.Count(Field(s.owner[t], c)) > 1 || Triggers(s.redis, s.owner[t], c) <==> Initialised(s, c)
      ensures s.redis.Count(Field(s.owner[t], c)) == 1 ==> c in s.redis.meta
    {
      EdgesStayInJob(s, t, c);
      CounterSeenByScript(s, t, c);
    }
    assert forall e | e in Overtaken(s, t) :: e.child in order && !Initialised(s, e.child);
    assert forall c | c in order :: !Initialised(s, c) ==> Edge(t, c) in Overtaken(s, t);
  }

  lemma CounterSeenByScript(s: State, t: Id, c: Id)
    requires c in s.owner && t in s.owner && s.owner[c] == s.owner[t] && TaskForm(s, c)
    requires t in ParentsOf(s, c) && t !in s.succeeded
    ensures s.redis.Count(Field(s.owner[t], c)) > 1 || Triggers(s.redis, s.owner[t], c) <==> Initialised(s, c)
    ensures s.redis.Count(Field(s.owner[t], c)) == 1 ==> c in s.redis.meta
  {
    hide Parents, Children, Linked, Started, Described;
    var h := HistoryOf(s, c);
    assert t in h.waiting && |h.waiting| >= 1;
    assert h.initialised <==> Initialised(s, c);
  }

  lemma SuccessEdges(s: State, t: Id, order: seq<Id>)
    requires Structure(s) && Enabled(s, Success(t, order)) && t !in s.succeeded && t in s.owner
    ensures var s' := Next(s, Success(t, order));
            && (forall c :: JobOf(s', c) == JobOf(s, c)) && (forall c :: ParentsOf(s', c) == ParentsOf(s, c))
            && s'.early == s.early + Overtaken(s, t) && s'.succeeded == s.succeeded + [t]
            && s'.redis == CompleteTask(s.redis, t, s.owner[t], order) && s'.owner == s.owner
    ensures forall e | e in Overtaken(s, t) :: e.child in s.owner && e in EdgeSet(JobOf(s, e.child).edges)
  {
    hide WellFormed, Pushed, IsEnumeration, CompleteTask;
    var s' := Next(s, Success(t, order));
    assert forall c :: JobOf(s', c) == JobOf(s, c) && ParentsOf(s', c) == ParentsOf(s, c) by { hide Structure; }
    hide Next;
    forall e | e in Overtaken(s, t) ensures e.child in s.owner && e in EdgeSet(JobOf(s, e.child).edges) {
      assert e.child in ChildrenOf(s, t);
      EdgesStayInJob(s, t, e.child);
      assert e.parent in ParentsOf(s, e.child);
    }
  }

  lemma SuccessHistory(s: State, t: Id, order: seq<Id>)
    requires Inv(s) && Enabled(s, Success(t, order)) && t !in s.succeeded && t in s.owner
    requires forall c :: c in order <==> c in ChildrenOf(s, t)
    requires forall p | p in ParentsOf(s, t) :: p in s.succeeded
    ensures History(Next(s, Success(t, order)))
  {
    hide TaskForm, Structure, Next, CompleteTask, Overtaken, JobOf, ParentsOf, ChildrenOf, IsEnumeration, Pushed,
         Triggers;
    var s' := Next(s, Success(t, order));
    ErrorsExactlyForOvertaken(s, t, order);
    ScriptErrors(s.redis, t, s.owner[t], order);
    SuccessEdges(s, t, order);
    OrderGrows(s, s', t);
  }

  lemma OrderGrows(s: State, s': State, t: Id)
    requires s'.succeeded == s.succeeded + [t] && forall p | p in ParentsOf(s, t) :: p in s.succeeded
    requires forall c :: ParentsOf(s', c) == ParentsOf(s, c)
    requires forall i | 0 <= i < |s.succeeded| :: forall p | p in ParentsOf(s, s.succeeded[i]) :: p in s.succeeded[..i]
    ensures forall i | 0 <= i < |s'.succeeded| :: forall p | p in ParentsOf(s', s'.succeeded[i]) ::
            p in s'.succeeded[..i]
  {
    hide ParentsOf;
    forall i | 0 <= i < |s'.succeeded| ensures forall p | p in ParentsOf(s', s'.succeeded[i]) ::
      p in s'.succeeded[..i] {
      if i == |s.succeeded| {
        assert s'.succeeded[..i] == s.succeeded;
      } else {
        assert s'.succeeded[..i] == s.succeeded[..i];
      }
    }
  }

  lemma FirstSuccessKeeps(s: State, t: Id, order: seq<Id>)
    requires Inv(s) && Enabled(s, Success(t, order)) && t !in s.succeeded
    ensures Inv(Next(s, Success(t, order)))
  {
    hide Structure, History, ClosedForm, HistoryOf, KeysOf, Pushed, ParentsOf, ChildrenOf, CompleteTask;
    PushedHasOwner(s, t);
    var s' := Next(s, Success(t, order));
    FirstReportSeesAllChildren(s, t);
    forall c | c in order ensures c in s.owner && s.owner[c] == s.owner[t] {
      EdgesStayInJob(s, t, c);
    }
    SuccessStructure(s, t, order);
    SuccessHistory(s, t, order);
    hide TaskForm, IsEnumeration;
    forall c | c in s'.owner ensures TaskForm(s', c) {
      SuccessTaskForm(s, t, order, c);
    }
  }

  // ---------------------------------------------------------------- every step

  /** The closed form of the engine survives every step. */
  lemma StepKeepsInv(s: State, a: Action)
    requires Inv(s) && Enabled(s, a)
    ensures Inv(Next(s, a))
  {
    hide Inv, Enabled, Next;
    match a
    case Submit(j, d) => SubmitKeeps(s, j, d);
    case Send(j) => SendKeeps(s, j);
    case Retry(t) => RetryKeeps(s, t);
    case Success(t, order) =>
      if t in s.succeeded {
        RepeatedSuccessDoesNothing(s, t, order);
      } else {
        FirstSuccessKeeps(s, t, order);
      }
  }
}
