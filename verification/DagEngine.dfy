/** The DAG engine as a transition system. Any number of jobs are submitted; the commands of their
    pipelines (a Redis pipeline is not a transaction) interleave with each other, with the atomic
    completion script and with retries, in any order and with repeated success reports. */
module DagEngine {
  import opened Graph
  import opened Requests
  import opened RedisStore

  /** One submitted DAG over task UUIDs, in the order of the request. */
  datatype Job = Job(tasks: seq<Id>, edges: seq<Edge>)

  ghost predicate WellFormed(d: Job) {
    NoDuplicates(d.tasks) && NoDuplicates(d.edges) && EndpointsIn(EdgeSet(d.edges), set t | t in d.tasks)
  }

  function CommandCount(d: Job): nat {
    |d.edges| + 2 * |d.tasks|
  }

  /** The i-th command of a job's pipeline: first one SADD for each edge, then for each task its
      metadata followed by either its counter or, for a task without parents, its stream entry. */
  function CommandAt(j: Id, d: Job, i: nat): Command
    requires i < CommandCount(d)
  {
    if i < |d.edges| then SAdd(d.edges[i].parent, d.edges[i].child) else
    var t := d.tasks[(i - |d.edges|) / 2];
    if (i - |d.edges|) % 2 == 0 then SetMeta(t)
    else if InDegree(d.edges, t) > 0 then HSet(j, t, InDegree(d.edges, t))
    else XAdd(t, j)
  }

  function Pipeline(j: Id, d: Job): seq<Command> {
    seq(CommandCount(d), i requires 0 <= i < CommandCount(d) => CommandAt(j, d, i))
  }

  /** `succeeded` are the tasks reported SUCCESS, in the order of their first report. `early` records
      each edge whose child had no counter yet when its parent was first reported. `retries` counts
      the stream entries pushed by the failure path. */
  datatype State = State(redis: Keyspace, jobs: map<Id, Job>, sent: map<Id, nat>, owner: map<Id, Id>,
                         succeeded: seq<Id>, early: set<Edge>, retries: multiset<Id>)

  const INITIAL := State(EMPTY_KEYSPACE, map[], map[], map[], [], {}, multiset{})

  datatype Action =
    | Submit(job: Id, dag: Job)
    | Send(job: Id)
    | Success(task: Id, order: seq<Id>)
    | Retry(task: Id)

  function JobOf(s: State, c: Id): Job {
    if c in s.owner && s.owner[c] in s.jobs then s.jobs[s.owner[c]] else Job([], [])
  }

  function SentOf(s: State, c: Id): nat {
    if c in s.owner && s.owner[c] in s.sent then s.sent[s.owner[c]] else 0
  }

  function ParentsOf(s: State, c: Id): set<Id> {
    Parents(EdgeSet(JobOf(s, c).edges), c)
  }

  function ChildrenOf(s: State, p: Id): set<Id> {
    Children(EdgeSet(JobOf(s, p).edges), p)
  }

  function Linked(d: Job, sent: nat): set<Edge> {
    EdgeSet(if sent <= |d.edges| then d.edges[..sent] else d.edges)
  }

  /** The tasks whose counter or first stream entry the pipeline has written. */
  function Started(d: Job, sent: nat): seq<Id> {
    if |d.edges| < sent <= CommandCount(d) then d.tasks[..(sent - |d.edges|) / 2] else []
  }

  function Described(d: Job, sent: nat): seq<Id> {
    if |d.edges| < sent <= CommandCount(d) then d.tasks[..(sent - |d.edges| + 1) / 2] else []
  }

  predicate Initialised(s: State, c: Id) {
    c in Started(JobOf(s, c), SentOf(s, c))
  }

  function Waiting(s: State, c: Id): set<Id> {
    set p | p in ParentsOf(s, c) && p !in s.succeeded
  }

  function Early(s: State, c: Id): set<Id> {
    Parents(s.early, c)
  }

  /** Everything the past of a run says about one task: `linked` are the children its SADDs have stored,
      `initialised` that its counter or first stream entry was written, `waiting` its parents not yet
      reported, `early` its parents reported before it was initialised. */
  datatype TaskHistory = TaskHistory(parents: set<Id>, linked: set<Id>, described: bool, initialised: bool,
                                     waiting: set<Id>, early: set<Id>, succeeded: bool, retries: nat)
  {
    /** The closed form of the counter: outstanding parents plus the completions that came too early. */
    function Counter(): int {
      if initialised then |waiting| + |early| else -|early|
    }

    /** The closed form of readiness. */
    predicate Released() {
      initialised && waiting == {} && early == {}
    }
  }

  /** Everything Redis holds about one task. */
  datatype TaskKeys = TaskKeys(members: set<Id>, hasCounter: bool, count: int, pointers: nat, scriptPointers: nat,
                               hasMeta: bool)

  function HistoryOf(s: State, c: Id): TaskHistory {
    var d, sent := JobOf(s, c), SentOf(s, c);
    TaskHistory(ParentsOf(s, c), Children(Linked(d, sent), c), c in Described(d, sent), c in Started(d, sent),
                Waiting(s, c), Early(s, c), c in s.succeeded, s.retries[c])
  }

  function KeysOf(ks: Keyspace, j: Id, c: Id): TaskKeys {
    TaskKeys(ks.Members(c), Field(j, c) in ks.deps, ks.Count(Field(j, c)), multiset(ks.tasks)[Pointer(c, j)],
             multiset(ks.tasks)[ScriptPointer(c, j)], c in ks.meta)
  }

  /** Redis is a closed form of the past: the children set is there until the task succeeds, the counter
      has its closed form and is absent at zero, the script has pushed the task exactly once if it is
      released and never otherwise, and every other entry is the first one of a root or a retry. */
  ghost predicate ClosedForm(h: TaskHistory, k: TaskKeys) {
    && k.members == (if h.succeeded then {} else h.linked)
    && k.count == h.Counter()
    && (k.hasCounter <==> h.Counter() != 0)
    && k.scriptPointers == (if h.Released() && h.parents != {} then 1 else 0)
    && k.pointers == (if h.initialised && h.parents == {} then 1 else 0) + h.retries
    && (h.described ==> k.hasMeta)
    && (h.initialised ==> h.described)
    && h.waiting <= h.parents
    && h.early <= h.parents - h.waiting
    && (!h.initialised ==> h.early == h.parents - h.waiting)
    && (h.succeeded || h.retries > 0 ==> h.Released())
  }

  predicate Released(s: State, c: Id) {
    HistoryOf(s, c).Released()
  }

  predicate Pushed(s: State, c: Id) {
    c in s.owner && (Pointer(c, s.owner[c]) in s.redis.tasks || ScriptPointer(c, s.owner[c]) in s.redis.tasks)
  }

  ghost predicate Enabled(s: State, a: Action) {
    match a
    case Submit(j, d) => j !in s.jobs && WellFormed(d) && forall t | t in d.tasks :: t !in s.owner
    case Send(j) => j in s.jobs && j in s.sent && s.sent[j] < CommandCount(s.jobs[j])
    case Success(t, order) => Pushed(s, t) && IsEnumeration(order, s.redis.Members(t))
    case Retry(t) => Pushed(s, t)
  }

  /** The edges whose child would miss the completion of `t`. */
  function Overtaken(s: State, t: Id): set<Edge> {
    set e | e in EdgeSet(JobOf(s, t).edges) && e.parent == t && !Initialised(s, e.child)
  }

  ghost function Next(s: State, a: Action): State
    requires Enabled(s, a)
  {
    match a
    case Submit(j, d) =>
      s.(jobs := s.jobs[j := d], sent := s.sent[j := 0], owner := s.owner + map t | t in d.tasks :: j)
    case Send(j) =>
      s.(redis := Execute(s.redis, CommandAt(j, s.jobs[j], s.sent[j])), sent := s.sent[j := s.sent[j] + 1])
    case Success(t, order) =>
      var after := s.(redis := CompleteTask(s.redis, t, s.owner[t], order));
      if t in s.succeeded then after
      else after.(succeeded := s.succeeded + [t], early := s.early + Overtaken(s, t))
    case Retry(t) =>
      s.(redis := s.redis.(tasks := s.redis.tasks + [Pointer(t, s.owner[t])]), retries := s.retries + multiset{t})
  }

  // ---------------------------------------------------------------- the invariant

  ghost predicate Structure(s: State) {
    && s.sent.Keys == s.jobs.Keys
    && (forall j | j in s.jobs :: WellFormed(s.jobs[j]) && s.sent[j] <= CommandCount(s.jobs[j]))
    && (forall j, t | j in s.jobs && t in s.jobs[j].tasks :: t in s.owner && s.owner[t] == j)
    && (forall t | t in s.owner :: s.owner[t] in s.jobs && t in s.jobs[s.owner[t]].tasks)
    && s.redis.children.Keys <= s.owner.Keys
    && (forall f | f in s.redis.deps :: f.task in s.owner && s.owner[f.task] == f.job)
    && (forall e | e in s.redis.tasks :: e.task in s.owner && s.owner[e.task] == e.job)
  }

  ghost predicate History(s: State) {
    && (forall e | e in s.early :: e.child in s.owner && e in EdgeSet(JobOf(s, e.child).edges))
    && NoDuplicates(s.succeeded)
    && (forall i | 0 <= i < |s.succeeded| :: forall p | p in ParentsOf(s, s.succeeded[i]) :: p in s.succeeded[..i])
    && (s.redis.errors == [] <==> s.early == {})
    && (forall x | x in s.redis.errors :: x.NegativeDeps?)
  }

  ghost predicate TaskForm(s: State, c: Id)
    requires c in s.owner
  {
    ClosedForm(HistoryOf(s, c), KeysOf(s.redis, s.owner[c], c))
  }

  ghost predicate Inv(s: State) {
    && Structure(s)
    && History(s)
    && (forall c | c in s.owner :: TaskForm(s, c))
    && (forall c | c in s.succeeded || s.retries[c] > 0 :: c in s.owner)
  }

  /** A task has been pushed exactly when its readiness holds. */
  lemma PushedIffReleased(s: State, c: Id)
    requires c in s.owner && TaskForm(s, c)
    ensures Pushed(s, c) <==> Released(s, c)
  {
    hide HistoryOf;
    assert Pointer(c, s.owner[c]) in s.redis.tasks <==> KeysOf(s.redis, s.owner[c], c).pointers > 0;
    assert ScriptPointer(c, s.owner[c]) in s.redis.tasks <==> KeysOf(s.redis, s.owner[c], c).scriptPointers > 0;
  }

  /** Parents and children of a task belong to its own job. */
  lemma EdgesStayInJob(s: State, p: Id, c: Id)
    requires Structure(s)
    requires (c in s.owner && p in ParentsOf(s, c)) || (p in s.owner && c in ChildrenOf(s, p))
    ensures p in s.owner && c in s.owner && s.owner[p] == s.owner[c]
    ensures p in ParentsOf(s, c) && c in ChildrenOf(s, p)
  {
    var j := if c in s.owner && p in ParentsOf(s, c) then s.owner[c] else s.owner[p];
    var d := s.jobs[j];
    assert WellFormed(d);
    assert Edge(p, c) in EdgeSet(d.edges);
    assert p in d.tasks && c in d.tasks;
  }
}
