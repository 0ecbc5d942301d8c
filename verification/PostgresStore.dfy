/** The PostgreSQL half of a submission: one transaction writes the jobs, tasks and edges of a batch. */
module PostgresStore {
  import opened Graph
  import opened Requests
  import opened JsonText

  datatype Context = Context(jobId: Id, naturalToUuid: map<Id, Id>, entryTaskIds: seq<Id>)

  datatype BatchItem = BatchItem(req: Request, ctx: Context)

  datatype JobRow = JobRow(idempotencyKey: string, state: int)

  datatype TaskRow = TaskRow(jobId: Id, spec: TaskSpec, state: int, pendingDependencies: int, retryCount: int)

  const PENDING := 0
  const WAITING_DEPS := 6

  const MAX_SMALLINT := 32767
  const MAX_INTEGER := 2147483647

  /** The tables job, task and task_edge with the constraints the flush can run into: primary keys,
      unique idempotency key, unique (job_id, natural_id), the foreign keys and the column types. */
  datatype Database = Database(jobs: map<Id, JobRow>, tasks: map<Id, TaskRow>, edges: set<Edge>)

  datatype Tx = Committed(db: Database) | Aborted

  /** Contexts are only made by SubmitDagAsync, from fresh UUIDs. */
  ghost predicate ValidContext(item: BatchItem) {
    && item.ctx.naturalToUuid.Keys == NaturalIds(item.req.tasks)
    && InjectiveOn(item.ctx.naturalToUuid, item.ctx.naturalToUuid.Keys)
  }

  predicate HasKey(db: Database, key: string) {
    exists j | j in db.jobs :: db.jobs[j].idempotencyKey == key
  }

  /** A text column takes every text without the character NUL. */
  predicate IsText(s: string) {
    '\0' !in s
  }

  /** The values of the task fit their columns. */
  predicate FitsColumns(t: TaskSpec) {
    && IsText(t.naturalId) && IsText(t.funcName) && IsJson(t.funcParams)
    && t.priority <= MAX_SMALLINT && t.maxRetry <= MAX_SMALLINT && t.timeoutMs <= MAX_INTEGER
  }

  // ------------------------------------------------------------ one row at a time

  /** INSERT .. ON CONFLICT (idempotency_key) DO NOTHING: a conflicting row is dropped silently. */
  function InsertJob(db: Database, item: BatchItem): Tx {
    if !IsText(item.req.idempotencyKey) then Aborted
    else if HasKey(db, item.req.idempotencyKey) then Committed(db)
    else if item.ctx.jobId in db.jobs then Aborted
    else Committed(db.(jobs := db.jobs[item.ctx.jobId := JobRow(item.req.idempotencyKey, 0)]))
  }

  function RowOf(item: BatchItem, t: TaskSpec): TaskRow {
    var pending := InDegree(item.req.edges, t.naturalId);
    TaskRow(item.ctx.jobId, t, if pending == 0 then PENDING else WAITING_DEPS, pending, 0)
  }

  predicate NaturalIdTaken(db: Database, job: Id, naturalId: Id) {
    exists u | u in db.tasks :: db.tasks[u].jobId == job && db.tasks[u].spec.naturalId == naturalId
  }

  function InsertTask(db: Database, item: BatchItem, t: TaskSpec): Tx {
    if t.naturalId !in item.ctx.naturalToUuid || !FitsColumns(t) then Aborted
    else
      var uuid := item.ctx.naturalToUuid[t.naturalId];
      if uuid in db.tasks || NaturalIdTaken(db, item.ctx.jobId, t.naturalId) || item.ctx.jobId !in db.jobs then Aborted
      else Committed(db.(tasks := db.tasks[uuid := RowOf(item, t)]))
  }

  predicate EndpointsMapped(item: BatchItem, e: Edge) {
    e.parent in item.ctx.naturalToUuid && e.child in item.ctx.naturalToUuid
  }

  function UuidEdge(item: BatchItem, e: Edge): Edge
    requires EndpointsMapped(item, e)
  {
    Edge(item.ctx.naturalToUuid[e.parent], item.ctx.naturalToUuid[e.child])
  }

  function InsertEdge(db: Database, item: BatchItem, e: Edge): Tx {
    if !EndpointsMapped(item, e) then Aborted
    else
      var row := UuidEdge(item, e);
      if row in db.edges || row.parent !in db.tasks || row.child !in db.tasks then Aborted
      else Committed(db.(edges := db.edges + {row}))
  }

  // ------------------------------------------------------------ whole statements

  function JobsUpTo(db: Database, batch: seq<BatchItem>, n: nat): Tx
    requires n <= |batch|
  {
    if n == 0 then Committed(db) else
    match JobsUpTo(db, batch, n - 1)
    case Aborted => Aborted
    case Committed(d) => InsertJob(d, batch[n - 1])
  }

  function ItemTasksUpTo(db: Database, item: BatchItem, k: nat): Tx
    requires k <= |item.req.tasks|
  {
    if k == 0 then Committed(db) else
    match ItemTasksUpTo(db, item, k - 1)
    case Aborted => Aborted
    case Committed(d) => InsertTask(d, item, item.req.tasks[k - 1])
  }

  function TasksUpTo(db: Database, batch: seq<BatchItem>, n: nat): Tx
    requires n <= |batch|
  {
    if n == 0 then Committed(db) else
    match TasksUpTo(db, batch, n - 1)
    case Aborted => Aborted
    case Committed(d) => ItemTasksUpTo(d, batch[n - 1], |batch[n - 1].req.tasks|)
  }

  function ItemEdgesUpTo(db: Database, item: BatchItem, k: nat): Tx
    requires k <= |item.req.edges|
  {
    if k == 0 then Committed(db) else
    match ItemEdgesUpTo(db, item, k - 1)
    case Aborted => Aborted
    case Committed(d) => InsertEdge(d, item, item.req.edges[k - 1])
  }

  function EdgesUpTo(db: Database, batch: seq<BatchItem>, n: nat): Tx
    requires n <= |batch|
  {
    if n == 0 then Committed(db) else
    match EdgesUpTo(db, batch, n - 1)
    case Aborted => Aborted
    case Committed(d) => ItemEdgesUpTo(d, batch[n - 1], |batch[n - 1].req.edges|)
  }

  /** One transaction: all jobs, then all tasks, then all edges. */
  function Flush(db: Database, batch: seq<BatchItem>): Tx {
    match JobsUpTo(db, batch, |batch|)
    case Aborted => Aborted
    case Committed(d1) =>
      match TasksUpTo(d1, batch, |batch|)
      case Aborted => Aborted
      case Committed(d2) => EdgesUpTo(d2, batch, |batch|)
  }

  lemma {:induction false} AbortsStay(db: Database, batch: seq<BatchItem>, n: nat, m: nat)
    requires n <= m <= |batch|
    ensures JobsUpTo(db, batch, n).Aborted? ==> JobsUpTo(db, batch, m).Aborted?
    ensures TasksUpTo(db, batch, n).Aborted? ==> TasksUpTo(db, batch, m).Aborted?
    ensures EdgesUpTo(db, batch, n).Aborted? ==> EdgesUpTo(db, batch, m).Aborted?
    decreases m
  {
    if n < m { AbortsStay(db, batch, n, m - 1); }
  }

  lemma {:induction false} ItemAbortsStay(db: Database, item: BatchItem, k: nat, m: nat)
    requires k <= m
    ensures m <= |item.req.tasks| && ItemTasksUpTo(db, item, k).Aborted? ==> ItemTasksUpTo(db, item, m).Aborted?
    ensures m <= |item.req.edges| && ItemEdgesUpTo(db, item, k).Aborted? ==> ItemEdgesUpTo(db, item, m).Aborted?
    decreases m
  {
    if k < m { ItemAbortsStay(db, item, k, m - 1); }
  }

  /** The roots of a request, in request order: what the flush records as entry tasks. */
  function Roots(item: BatchItem, k: nat): seq<Id>
    requires k <= |item.req.tasks|
  {
    if k == 0 then [] else
    var t := item.req.tasks[k - 1];
    Roots(item, k - 1) + if InDegree(item.req.edges, t.naturalId) == 0 && t.naturalId in item.ctx.naturalToUuid
                         then [item.ctx.naturalToUuid[t.naturalId]] else []
  }

  function WithEntries(item: BatchItem): BatchItem {
    item.(ctx := item.ctx.(entryTaskIds := item.ctx.entryTaskIds + Roots(item, |item.req.tasks|)))
  }

  // ------------------------------------------------------------ the methods

  ghost predicate Counts(m: map<Id, int>, edges: seq<Edge>) {
    forall n :: (if n in m then m[n] else 0) == InDegree(edges, n)
  }

  lemma CountsStart()
    ensures forall edges: seq<Edge> :: Counts(map[], edges[..0])
  {
    forall edges: seq<Edge> ensures Counts(map[], edges[..0]) {
      assert edges[..0] == [];
    }
  }

  lemma CountsStep(m: map<Id, int>, edges: seq<Edge>, i: nat)
    requires i < |edges| && Counts(m, edges[..i])
    ensures Counts(m[edges[i].child := (if edges[i].child in m then m[edges[i].child] else 0) + 1], edges[..i + 1])
  {
    assert edges[..i + 1][..i] == edges[..i];
  }

  method CountDependencies(edges: seq<Edge>) returns (depCount: map<Id, int>)
    ensures Counts(depCount, edges)
  {
    depCount := map[];
    CountsStart();
    for i := 0 to |edges|
      invariant Counts(depCount, edges[..i])
    {
      CountsStep(depCount, edges, i);
      var child := edges[i].child;
      depCount := depCount[child := (if child in depCount then depCount[child] else 0) + 1];
    }
    assert edges[..|edges|] == edges;
  }

  method InsertJobs(db: Database, batch: seq<BatchItem>) returns (tx: Tx)
    ensures tx == JobsUpTo(db, batch, |batch|)
  {
    tx := Committed(db);
    for i := 0 to |batch|
      invariant tx == JobsUpTo(db, batch, i) && tx.Committed?
    {
      tx := InsertJob(tx.db, batch[i]);
      if tx.Aborted? {
        AbortsStay(db, batch, i + 1, |batch|);
        return;
      }
    }
  }

  method InsertItemTasks(db: Database, item: BatchItem) returns (tx: Tx, item': BatchItem)
    ensures tx == ItemTasksUpTo(db, item, |item.req.tasks|)
    ensures tx.Committed? ==> item' == WithEntries(item)
  {
    hide FitsColumns, IsText, NaturalIdTaken, InDegree;
    item' := item;
    tx := Committed(db);
    var depCount := CountDependencies(item.req.edges);
    for k := 0 to |item.req.tasks|
      invariant tx == ItemTasksUpTo(db, item, k) && tx.Committed?
      invariant item' == item.(ctx := item.ctx.(entryTaskIds := item.ctx.entryTaskIds + Roots(item, k)))
    {
      var task := item.req.tasks[k];
      var current := tx.db;
      if task.naturalId !in item.ctx.naturalToUuid || !FitsColumns(task) {
        ItemAbortsStay(db, item, k + 1, |item.req.tasks|);
        return Aborted, item';
      }
      var uuid := item.ctx.naturalToUuid[task.naturalId];
      var pending := if task.naturalId in depCount then depCount[task.naturalId] else 0;
      var initialState := if pending == 0 then PENDING else WAITING_DEPS;
      if pending == 0 {
        item' := item'.(ctx := item'.ctx.(entryTaskIds := item'.ctx.entryTaskIds + [uuid]));
      }
      if uuid in current.tasks || NaturalIdTaken(current, item.ctx.jobId, task.naturalId)
        || item.ctx.jobId !in current.jobs {
        ItemAbortsStay(db, item, k + 1, |item.req.tasks|);
        return Aborted, item';
      }
      tx := Committed(current.(tasks := current.tasks[uuid := TaskRow(item.ctx.jobId, task, initialState, pending,
        0)]));
    }
  }

  method InsertTasks(db: Database, batch: seq<BatchItem>) returns (tx: Tx, batch': seq<BatchItem>)
    ensures tx == TasksUpTo(db, batch, |batch|)
    ensures tx.Committed? ==> batch' == seq(|batch|, i requires 0 <= i < |batch| => WithEntries(batch[i]))
  {
    hide FitsColumns, IsText, InsertTask, WithEntries;
    batch' := [];
    tx := Committed(db);
    for i := 0 to |batch|
      invariant tx == TasksUpTo(db, batch, i) && tx.Committed?
      invariant |batch'| == i && forall j | 0 <= j < i :: batch'[j] == WithEntries(batch[j])
    {
      var item;
      tx, item := InsertItemTasks(tx.db, batch[i]);
      if tx.Aborted? {
        AbortsStay(db, batch, i + 1, |batch|);
        return tx, batch;
      }
      batch' := batch' + [item];
    }
  }

  method InsertEdges(db: Database, batch: seq<BatchItem>) returns (tx: Tx)
    ensures tx == EdgesUpTo(db, batch, |batch|)
  {
    tx := Committed(db);
    for i := 0 to |batch|
      invariant tx == EdgesUpTo(db, batch, i) && tx.Committed?
    {
      var before := tx.db;
      var item := batch[i];
      for k := 0 to |item.req.edges|
        invariant tx == ItemEdgesUpTo(before, item, k) && tx.Committed?
      {
        tx := InsertEdge(tx.db, item, item.req.edges[k]);
        if tx.Aborted? {
          ItemAbortsStay(before, item, k + 1, |item.req.edges|);
          AbortsStay(db, batch, i + 1, |batch|);
          return;
        }
      }
    }
  }

  /** Everything happens on the transaction's own snapshot; nothing is visible unless it commits. */
  method FlushDBBatch(db: Database, batch: seq<BatchItem>) returns (tx: Tx, batch': seq<BatchItem>)
    ensures tx == Flush(db, batch)
    ensures tx.Committed? ==> batch' == seq(|batch|, i requires 0 <= i < |batch| => WithEntries(batch[i]))
  {
    tx := InsertJobs(db, batch);
    if tx.Aborted? { return tx, batch; }
    tx, batch' := InsertTasks(tx.db, batch);
    if tx.Aborted? { return tx, batch; }
    tx := InsertEdges(tx.db, batch);
  }
}
