/** What a committed transaction means for every item of its batch. */
module CommittedBatches {
  import opened Graph
  import opened Requests
  import opened PostgresStore

  // ------------------------------------------------------------ jobs

  ghost predicate UniqueKeys(db: Database) {
    forall a, b | a in db.jobs && b in db.jobs && db.jobs[a].idempotencyKey == db.jobs[b].idempotencyKey :: a == b
  }

  /** Job UUIDs are fresh: not in the table and pairwise different. */
  ghost predicate FreshJobIds(db: Database, batch: seq<BatchItem>) {
    && (forall i | 0 <= i < |batch| :: batch[i].ctx.jobId !in db.jobs)
    && (forall i, k | 0 <= i < k < |batch| :: batch[i].ctx.jobId != batch[k].ctx.jobId)
  }

  ghost predicate JobsWritten(before: Database, after: Database, batch: seq<BatchItem>, n: nat)
    requires n <= |batch|
  {
    && after.tasks == before.tasks && after.edges == before.edges
    && (forall j | j in before.jobs :: j in after.jobs && after.jobs[j] == before.jobs[j])
    && (forall j | j in after.jobs && j !in before.jobs ::
          exists i | 0 <= i < n :: j == batch[i].ctx.jobId && after.jobs[j] == JobRow(batch[i].req.idempotencyKey, 0))
  }

  lemma {:induction false} JobsMeaning(db: Database, batch: seq<BatchItem>, n: nat)
    requires n <= |batch| && JobsUpTo(db, batch, n).Committed? && UniqueKeys(db)
    ensures JobsWritten(db, JobsUpTo(db, batch, n).db, batch, n) && UniqueKeys(JobsUpTo(db, batch, n).db)
  {
    if n > 0 {
      JobsMeaning(db, batch, n - 1);
    }
  }

  // ------------------------------------------------------------ tasks

  function UuidOf(item: BatchItem, t: TaskSpec): Id {
    if t.naturalId in item.ctx.naturalToUuid then item.ctx.naturalToUuid[t.naturalId] else ""
  }

  /** The first k tasks of the item were inserted under fresh, distinct UUIDs. */
  ghost predicate TasksWritten(before: Database, after: Database, item: BatchItem, k: nat)
    requires k <= |item.req.tasks|
  {
    && (forall i | 0 <= i < k :: item.req.tasks[i].naturalId in item.ctx.naturalToUuid)
    && (forall i | 0 <= i < k :: var u := UuidOf(item, item.req.tasks[i]);
          u !in before.tasks && u in after.tasks && after.tasks[u] == RowOf(item, item.req.tasks[i]))
    && (forall i, m | 0 <= i < m < k :: UuidOf(item, item.req.tasks[i]) != UuidOf(item, item.req.tasks[m]))
    && (k > 0 ==> item.ctx.jobId in after.jobs)
  }

  ghost predicate Extends(before: Database, after: Database) {
    && after.jobs == before.jobs
    && (forall u | u in before.tasks :: u in after.tasks && after.tasks[u] == before.tasks[u])
  }

  lemma {:induction false} ItemTasksMeaning(db: Database, item: BatchItem, k: nat)
    requires k <= |item.req.tasks| && ItemTasksUpTo(db, item, k).Committed?
    ensures TasksWritten(db, ItemTasksUpTo(db, item, k).db, item, k) && Extends(db, ItemTasksUpTo(db, item, k).db)
  {
    hide TasksWritten, Extends, InsertTask;
    if k > 0 {
      ItemTasksMeaning(db, item, k - 1);
      var d := ItemTasksUpTo(db, item, k - 1).db;
      assert ItemTasksUpTo(db, item, k) == InsertTask(d, item, item.req.tasks[k - 1]);
      hide ItemTasksUpTo;
      OneMoreTask(db, d, item, k - 1);
    } else {
      NoTaskYet(db, item);
    }
  }

  lemma NoTaskYet(db: Database, item: BatchItem)
    ensures TasksWritten(db, db, item, 0) && Extends(db, db)
  {
  }

  lemma OneMoreTask(db: Database, d: Database, item: BatchItem, m: nat)
    requires m < |item.req.tasks| && TasksWritten(db, d, item, m) && Extends(db, d)
    requires InsertTask(d, item, item.req.tasks[m]).Committed?
    ensures TasksWritten(db, InsertTask(d, item, item.req.tasks[m]).db, item, m + 1)
    ensures Extends(db, InsertTask(d, item, item.req.tasks[m]).db)
  {
    hide RowOf, NaturalIdTaken, FitsColumns;
  }

  lemma {:induction false} TasksMeaning(db: Database, batch: seq<BatchItem>, n: nat)
    requires n <= |batch| && TasksUpTo(db, batch, n).Committed?
    ensures Extends(db, TasksUpTo(db, batch, n).db)
    ensures forall i | 0 <= i < n :: TasksWritten(db, TasksUpTo(db, batch, n).db, batch[i], |batch[i].req.tasks|)
  {
    hide RowOf, ItemTasksUpTo, InsertTask;
    if n > 0 {
      TasksMeaning(db, batch, n - 1);
      var d := TasksUpTo(db, batch, n - 1).db;
      assert TasksUpTo(db, batch, n) == ItemTasksUpTo(d, batch[n - 1], |batch[n - 1].req.tasks|);
      hide TasksUpTo;
      ItemTasksMeaning(d, batch[n - 1], |batch[n - 1].req.tasks|);
    }
  }

  // ------------------------------------------------------------ edges

  ghost predicate EdgesWritten(before: Database, item: BatchItem, k: nat)
    requires k <= |item.req.edges|
  {
    && (forall i | 0 <= i < k ::
          EndpointsMapped(item, item.req.edges[i]) && UuidEdge(item, item.req.edges[i]) !in before.edges)
    && (forall i, m | 0 <= i < m < k :: UuidEdge(item, item.req.edges[i]) != UuidEdge(item, item.req.edges[m]))
  }

  ghost predicate EdgesStored(after: Database, item: BatchItem, k: nat)
    requires k <= |item.req.edges|
  {
    forall i | 0 <= i < k ::
      EndpointsMapped(item, item.req.edges[i]) && UuidEdge(item, item.req.edges[i]) in after.edges
  }

  ghost predicate EdgesExtend(before: Database, after: Database) {
    after.jobs == before.jobs && after.tasks == before.tasks && before.edges <= after.edges
  }

  lemma {:induction false} ItemEdgesMeaning(db: Database, item: BatchItem, k: nat)
    requires k <= |item.req.edges| && ItemEdgesUpTo(db, item, k).Committed?
    ensures EdgesWritten(db, item, k) && EdgesExtend(db, ItemEdgesUpTo(db, item, k).db)
    ensures EdgesStored(ItemEdgesUpTo(db, item, k).db, item, k)
  {
    if k > 0 {
      ItemEdgesMeaning(db, item, k - 1);
    }
  }

  lemma {:induction false} EdgesMeaning(db: Database, batch: seq<BatchItem>, n: nat)
    requires n <= |batch| && EdgesUpTo(db, batch, n).Committed?
    ensures EdgesExtend(db, EdgesUpTo(db, batch, n).db)
    ensures forall i | 0 <= i < n :: EdgesWritten(db, batch[i], |batch[i].req.edges|)
    ensures forall i | 0 <= i < n :: EdgesStored(EdgesUpTo(db, batch, n).db, batch[i], |batch[i].req.edges|)
  {
    if n > 0 {
      EdgesMeaning(db, batch, n - 1);
      ItemEdgesMeaning(EdgesUpTo(db, batch, n - 1).db, batch[n - 1], |batch[n - 1].req.edges|);
      hide UuidEdge, ItemEdgesUpTo;
    }
  }

  /** Everything a committed batch implies for one of its items. */
  ghost predicate ItemCommitted(before: Database, after: Database, item: BatchItem) {
    && TasksWritten(before, after, item, |item.req.tasks|)
    && EdgesWritten(before, item, |item.req.edges|)
    && EdgesStored(after, item, |item.req.edges|)
  }

  lemma FlushPhases(db: Database, batch: seq<BatchItem>) returns (d1: Database, d2: Database, d3: Database)
    requires Flush(db, batch).Committed?
    ensures JobsUpTo(db, batch, |batch|) == Committed(d1) && TasksUpTo(d1, batch, |batch|) == Committed(d2)
    ensures EdgesUpTo(d2, batch, |batch|) == Committed(d3) == Flush(db, batch)
  {
    d1 := JobsUpTo(db, batch, |batch|).db;
    d2 := TasksUpTo(d1, batch, |batch|).db;
    d3 := EdgesUpTo(d2, batch, |batch|).db;
  }

  /** Nothing older changes and every item is stored completely: all of its tasks and all of its edges. */
  lemma CommittedMeans(db: Database, batch: seq<BatchItem>, i: nat)
    requires Flush(db, batch).Committed? && UniqueKeys(db) && i < |batch|
    ensures ItemCommitted(db, Flush(db, batch).db, batch[i])
    ensures forall u | u in db.tasks :: u in Flush(db, batch).db.tasks && Flush(db, batch).db.tasks[u] == db.tasks[u]
  {
    var d1, d2, d3 := FlushPhases(db, batch);
    JobsMeaning(db, batch, |batch|);
    TasksMeaning(d1, batch, |batch|);
    EdgesMeaning(d2, batch, |batch|);
    TasksKeepEdges(d1, batch, |batch|);
    hide Flush, JobsUpTo, TasksUpTo, EdgesUpTo, RowOf, UniqueKeys, UuidEdge;
    assert TasksWritten(d1, d2, batch[i], |batch[i].req.tasks|) && EdgesWritten(d2, batch[i], |batch[i].req.edges|);
    assert d1.tasks == db.tasks && d2.edges == db.edges;
  }

  /** A request with tasks only commits together with its own job row: if its idempotency key was taken,
      its job row was dropped, its tasks break the foreign key and the whole batch aborts. */
  lemma CommittedJobs(db: Database, batch: seq<BatchItem>)
    requires Flush(db, batch).Committed? && UniqueKeys(db) && FreshJobIds(db, batch)
    ensures UniqueKeys(Flush(db, batch).db)
    ensures forall j | j in db.jobs :: j in Flush(db, batch).db.jobs && Flush(db, batch).db.jobs[j] == db.jobs[j]
    ensures forall i | 0 <= i < |batch| && batch[i].req.tasks != [] ::
              && batch[i].ctx.jobId in Flush(db, batch).db.jobs
              && Flush(db, batch).db.jobs[batch[i].ctx.jobId] == JobRow(batch[i].req.idempotencyKey, 0)
  {
    var d1, d2, d3 := FlushPhases(db, batch);
    JobsMeaning(db, batch, |batch|);
    TasksMeaning(d1, batch, |batch|);
    EdgesMeaning(d2, batch, |batch|);
    assert d3.jobs == d1.jobs;
    assert Flush(db, batch).db == d3;
    hide Flush, JobsUpTo, TasksUpTo, EdgesUpTo, RowOf, UuidEdge, UniqueKeys, EdgesWritten, EdgesStored, FreshJobIds,
         JobsWritten, TasksWritten, Extends, EdgesExtend;
    SameJobsSameKeys(d1, d3);
    forall i | 0 <= i < |batch| && batch[i].req.tasks != []
      ensures batch[i].ctx.jobId in d1.jobs && d1.jobs[batch[i].ctx.jobId] == JobRow(batch[i].req.idempotencyKey, 0)
    {
      assert TasksWritten(d1, d2, batch[i], |batch[i].req.tasks|);
      OwnJobRow(db, d1, d2, batch, i);
    }
    OldJobsStay(db, d1, batch, |batch|);
  }

  lemma OldJobsStay(before: Database, after: Database, batch: seq<BatchItem>, n: nat)
    requires n <= |batch| && JobsWritten(before, after, batch, n)
    ensures forall j | j in before.jobs :: j in after.jobs && after.jobs[j] == before.jobs[j]
  {
  }

  /** An item with stored tasks has its own job row, because its id is fresh. */
  lemma OwnJobRow(db: Database, d1: Database, d2: Database, batch: seq<BatchItem>, i: nat)
    requires FreshJobIds(db, batch) && JobsWritten(db, d1, batch, |batch|) && i < |batch| && batch[i].req.tasks != []
    requires TasksWritten(d1, d2, batch[i], |batch[i].req.tasks|) && d2.jobs == d1.jobs
    ensures batch[i].ctx.jobId in d1.jobs && d1.jobs[batch[i].ctx.jobId] == JobRow(batch[i].req.idempotencyKey, 0)
  {
    hide RowOf, UuidOf;
  }

  /** The unique constraint on the idempotency key survives every transaction. */
  lemma FlushKeepsKeys(db: Database, batch: seq<BatchItem>)
    requires Flush(db, batch).Committed? && UniqueKeys(db)
    ensures UniqueKeys(Flush(db, batch).db)
  {
    var d1, d2, d3 := FlushPhases(db, batch);
    JobsMeaning(db, batch, |batch|);
    TasksMeaning(d1, batch, |batch|);
    EdgesMeaning(d2, batch, |batch|);
    hide Flush, JobsUpTo, TasksUpTo, EdgesUpTo, RowOf, UuidEdge, UniqueKeys, EdgesWritten, EdgesStored, TasksWritten;
    SameJobsSameKeys(d1, d3);
  }

  lemma SameJobsSameKeys(a: Database, b: Database)
    requires UniqueKeys(a) && a.jobs == b.jobs
    ensures UniqueKeys(b)
  {
  }

  lemma {:induction false} TasksKeepEdges(db: Database, batch: seq<BatchItem>, n: nat)
    requires n <= |batch| && TasksUpTo(db, batch, n).Committed?
    ensures TasksUpTo(db, batch, n).db.edges == db.edges
  {
    if n > 0 {
      TasksKeepEdges(db, batch, n - 1);
      ItemTasksKeepEdges(TasksUpTo(db, batch, n - 1).db, batch[n - 1], |batch[n - 1].req.tasks|);
    }
  }

  lemma {:induction false} ItemTasksKeepEdges(db: Database, item: BatchItem, k: nat)
    requires k <= |item.req.tasks| && ItemTasksUpTo(db, item, k).Committed?
    ensures ItemTasksUpTo(db, item, k).db.edges == db.edges
  {
    if k > 0 { ItemTasksKeepEdges(db, item, k - 1); }
  }

  /** A committed item names no unknown task in its edges. */
  lemma CommittedEndpoints(db: Database, batch: seq<BatchItem>, i: nat)
    requires Flush(db, batch).Committed? && UniqueKeys(db) && i < |batch| && ValidContext(batch[i])
    ensures EndpointsIn(EdgeSet(batch[i].req.edges), NaturalIds(batch[i].req.tasks))
  {
    CommittedMeans(db, batch, i);
    hide Flush, UniqueKeys;
  }
}
