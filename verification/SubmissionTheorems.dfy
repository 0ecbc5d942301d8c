/** PostgreSQL and Redis agree on every committed job, the DAG engine accepts it, and no idempotency key
    is used twice. */
module SubmissionTheorems {
  import opened Graph
  import opened Requests
  import opened RedisStore
  import opened DagEngine
  import opened EngineTheorems
  import opened PostgresStore
  import opened CommittedBatches
  import opened Submitter

  lemma UuidsAgree(before: Database, after: Database, item: BatchItem)
    requires ItemCommitted(before, after, item) && ValidContext(item)
    ensures var d := PublishedJob(item);
            && (forall i | 0 <= i < |d.tasks| :: d.tasks[i] == UuidOf(item, item.req.tasks[i]))
            && (forall i | 0 <= i < |d.edges| :: d.edges[i] == UuidEdge(item, item.req.edges[i]))
            && EdgeSet(d.edges) == Renamed(EdgeSet(item.req.edges), item.ctx.naturalToUuid)
            && EndpointsIn(EdgeSet(item.req.edges), NaturalIds(item.req.tasks))
  {
    var d := PublishedJob(item);
    hide TasksWritten;
    assert forall e | e in EdgeSet(item.req.edges) :: EndpointsMapped(item, e);
    forall e | e in EdgeSet(item.req.edges) ensures UuidEdge(item, e) in EdgeSet(d.edges) {
      var i :| 0 <= i < |item.req.edges| && item.req.edges[i] == e;
      assert d.edges[i] == UuidEdge(item, e);
    }
  }

  /** The keys and foreign keys of PostgreSQL leave only jobs the DAG engine accepts: distinct tasks,
      distinct edges, edges between the job's own tasks, and task UUIDs never seen before. */
  lemma CommittedJobIsWellFormed(before: Database, after: Database, item: BatchItem)
    requires ItemCommitted(before, after, item) && ValidContext(item)
    ensures WellFormed(PublishedJob(item))
    ensures forall t | t in PublishedJob(item).tasks :: t !in before.tasks && t in after.tasks
  {
    var d := PublishedJob(item);
    UuidsAgree(before, after, item);
    hide InjectiveOn, NaturalIds, Renamed, PublishedJob, UuidEdge, UuidOf, RowOf;
    assert NoDuplicates(d.tasks) by { hide EdgesWritten, EdgesStored; }
    assert NoDuplicates(d.edges) by { hide TasksWritten, EdgesStored; }
    hide EdgesWritten, EdgesStored;
    assert forall t | t in d.tasks :: t !in before.tasks && t in after.tasks;
    hide TasksWritten, NoDuplicates;
    EdgesWithinJob(before, after, item);
  }

  lemma EdgesWithinJob(before: Database, after: Database, item: BatchItem)
    requires ItemCommitted(before, after, item) && ValidContext(item)
    ensures EndpointsIn(EdgeSet(PublishedJob(item).edges), set t | t in PublishedJob(item).tasks)
  {
    var d := PublishedJob(item);
    UuidsAgree(before, after, item);
    hide TasksWritten, EdgesStored, InjectiveOn, NaturalIds, Renamed, PublishedJob;
    forall e | e in EdgeSet(d.edges) ensures e.parent in d.tasks && e.child in d.tasks {
      var i :| 0 <= i < |d.edges| && d.edges[i] == e;
      var edge := item.req.edges[i];
      NaturalHasUuid(item, edge.parent);
      NaturalHasUuid(item, edge.child);
    }
  }

  lemma NaturalHasUuid(item: BatchItem, n: Id)
    requires ValidContext(item) && n in item.ctx.naturalToUuid
    ensures item.ctx.naturalToUuid[n] in PublishedJob(item).tasks
  {
    var k :| 0 <= k < |item.req.tasks| && item.req.tasks[k].naturalId == n;
    assert PublishedJob(item).tasks[k] == item.ctx.naturalToUuid[n];
  }

  /** A request the validators accept is published as an acyclic job. */
  lemma AcceptedJobIsAcyclic(before: Database, after: Database, item: BatchItem)
    requires ItemCommitted(before, after, item) && ValidContext(item)
    ensures Acyclic(EdgeSet(PublishedJob(item).edges)) <==> Acyclic(EdgeSet(item.req.edges))
  {
    UuidsAgree(before, after, item);
    RenamingKeepsAcyclicity(EdgeSet(item.req.edges), item.ctx.naturalToUuid, NaturalIds(item.req.tasks));
  }

  lemma CommandsOfTask(j: Id, d: Job, k: nat)
    requires WellFormed(d) && k < |d.tasks|
    ensures XAdd(d.tasks[k], j) in Pipeline(j, d) <==> InDegree(d.edges, d.tasks[k]) == 0
    ensures forall n :: HSet(j, d.tasks[k], n) in Pipeline(j, d) <==> n == InDegree(d.edges, d.tasks[k]) && n > 0
  {
    var p, i, u := Pipeline(j, d), |d.edges| + 2 * k + 1, d.tasks[k];
    hide InDegree, EdgeSet, EndpointsIn;
    assert p[i] == CommandAt(j, d, i);
    if XAdd(u, j) in p {
      var m :| 0 <= m < |p| && p[m] == XAdd(u, j);
      assert CommandAt(j, d, m) == XAdd(u, j);
    }
    forall n | HSet(j, u, n) in p ensures n == InDegree(d.edges, u) && n > 0 {
      var m :| 0 <= m < |p| && p[m] == HSet(j, u, n);
      assert CommandAt(j, d, m) == HSet(j, u, n);
    }
  }

  /** A task row is PENDING exactly if the pipeline pushes the task, and WAITING_DEPS exactly if it
      writes a counter; that counter, the row's pending_dependencies and the task's number of parents
      are the same number. */
  lemma PostgresAgreesWithRedis(db: Database, batch: seq<BatchItem>, i: nat, k: nat)
    requires Flush(db, batch).Committed? && UniqueKeys(db) && i < |batch| && ValidContext(batch[i])
    requires k < |batch[i].req.tasks|
    ensures var item, d := batch[i], PublishedJob(batch[i]);
            var uuid, after := d.tasks[k], Flush(db, batch).db;
            && uuid !in db.tasks && uuid in after.tasks
            && var row := after.tasks[uuid];
               && row.jobId == item.ctx.jobId && row.spec == item.req.tasks[k] && row.retryCount == 0
               && row.pendingDependencies == |Parents(EdgeSet(d.edges), uuid)|
               && (row.state == PENDING <==> XAdd(uuid, item.ctx.jobId) in Pipeline(item.ctx.jobId, d))
               && (row.state == WAITING_DEPS <==>
                     HSet(item.ctx.jobId, uuid, row.pendingDependencies) in Pipeline(item.ctx.jobId, d))
               && (row.state == PENDING || row.state == WAITING_DEPS)
               && (forall n ::
                     HSet(item.ctx.jobId, uuid, n) in Pipeline(item.ctx.jobId, d) ==> n == row.pendingDependencies)
  {
    var item, d, after := batch[i], PublishedJob(batch[i]), Flush(db, batch).db;
    CommittedMeans(db, batch, i);
    hide Flush, UniqueKeys;
    UuidsAgree(db, after, item);
    CommittedJobIsWellFormed(db, after, item);
    CommandsOfTask(item.ctx.jobId, d, k);
    InDegreeCountsParents(d.edges, d.tasks[k]) by { hide ItemCommitted; }
    TaskRowStored(db, after, item, k);
    hide WellFormed, Pipeline, ItemCommitted, ValidContext, EdgeSet, InDegree, PublishedJob, Parents;
  }

  lemma TaskRowStored(before: Database, after: Database, item: BatchItem, k: nat)
    requires ItemCommitted(before, after, item) && ValidContext(item) && k < |item.req.tasks|
    ensures var uuid := PublishedJob(item).tasks[k];
            && uuid !in before.tasks && uuid in after.tasks && after.tasks[uuid] == RowOf(item, item.req.tasks[k])
            && InDegree(PublishedJob(item).edges, uuid) == InDegree(item.req.edges, item.req.tasks[k].naturalId)
  {
    hide RowOf, InDegree;
    InDegreeSurvivesRenaming(item.ctx, item.req.edges, item.req.tasks[k].naturalId);
  }

  lemma {:induction false} NoParentsIff(edges: seq<Edge>, n: Id)
    ensures InDegree(edges, n) == 0 <==> Parents(EdgeSet(edges), n) == {}
  {
    if edges != [] {
      var m := |edges| - 1;
      NoParentsIff(edges[..m], n);
      assert edges == edges[..m] + [edges[m]];
      assert EdgeSet(edges) == EdgeSet(edges[..m]) + {edges[m]};
      assert edges[m].child == n ==> edges[m].parent in Parents(EdgeSet(edges), n);
      assert Parents(EdgeSet(edges[..m]), n) <= Parents(EdgeSet(edges), n);
    }
  }

  /** `roots` are the positions below k of the tasks without parents, in the order of the request. */
  ghost predicate RootPositions(item: BatchItem, k: nat, roots: seq<nat>)
    requires k <= |item.req.tasks|
  {
    && (forall i | 0 <= i < |roots| :: roots[i] < k)
    && (forall i, l | 0 <= i < l < |roots| :: roots[i] < roots[l])
    && (forall i | 0 <= i < k :: i in roots <==> Parents(EdgeSet(item.req.edges), item.req.tasks[i].naturalId) == {})
  }

  /** What the flush records in an item: behind the entry tasks it had, the UUIDs of the tasks without parents, each
      once and in the order of the request, and nothing else changes. */
  lemma EntryTasksAreRoots(item: BatchItem) returns (roots: seq<nat>)
    requires forall t | t in item.req.tasks :: t.naturalId in item.ctx.naturalToUuid
    ensures RootPositions(item, |item.req.tasks|, roots)
    ensures var after, before := WithEntries(item), item.ctx.entryTaskIds;
            && after.req == item.req && after.ctx.jobId == item.ctx.jobId
            && after.ctx.naturalToUuid == item.ctx.naturalToUuid
            && |after.ctx.entryTaskIds| == |before| + |roots| && before <= after.ctx.entryTaskIds
            && forall i | 0 <= i < |roots| :: after.ctx.entryTaskIds[|before| + i] == PublishedJob(item).tasks[roots[i]]
  {
    roots := RootsInOrder(item, |item.req.tasks|);
  }

  lemma {:induction false} RootsInOrder(item: BatchItem, k: nat) returns (roots: seq<nat>)
    requires k <= |item.req.tasks| && forall t | t in item.req.tasks :: t.naturalId in item.ctx.naturalToUuid
    ensures RootPositions(item, k, roots) && |Roots(item, k)| == |roots|
    ensures forall i | 0 <= i < |roots| :: Roots(item, k)[i] == PublishedJob(item).tasks[roots[i]]
  {
    roots := [];
    if k > 0 {
      roots := RootsInOrder(item, k - 1);
      NoParentsIff(item.req.edges, item.req.tasks[k - 1].naturalId);
      hide InDegree, Parents, EdgeSet;
      assert PublishedJob(item).tasks[k - 1] == Uuid(item.ctx, item.req.tasks[k - 1].naturalId);
      if InDegree(item.req.edges, item.req.tasks[k - 1].naturalId) == 0 {
        OneMoreRoot(item, k, roots);
        roots := roots + [k - 1];
      }
    }
  }

  lemma OneMoreRoot(item: BatchItem, k: nat, roots: seq<nat>)
    requires 0 < k <= |item.req.tasks| && RootPositions(item, k - 1, roots)
    requires Parents(EdgeSet(item.req.edges), item.req.tasks[k - 1].naturalId) == {}
    ensures RootPositions(item, k, roots + [k - 1])
  {
    hide Parents, EdgeSet;
    assert forall i :: i in roots + [k - 1] <==> i in roots || i == k - 1;
  }

  // ------------------------------------------------------------ idempotency over all batches

  /** All committed items so far. Only committed items are ever published, each by its own batch. */
  datatype Log = Log(db: Database, committed: seq<BatchItem>)

  const EMPTY_LOG := Log(Database(map[], map[], {}), [])

  function Process(log: Log, batch: seq<BatchItem>, dbUp: bool): Log {
    if dbUp && Flush(log.db, batch).Committed? then Log(Flush(log.db, batch).db, log.committed + batch) else log
  }

  function ProcessAll(batches: seq<(seq<BatchItem>, bool)>): Log {
    if batches == [] then EMPTY_LOG else
    var last := batches[|batches| - 1];
    Process(ProcessAll(batches[..|batches| - 1]), last.0, last.1)
  }

  /** The UUID generator never repeats a job id. */
  ghost predicate FreshThroughout(batches: seq<(seq<BatchItem>, bool)>) {
    forall i | 0 <= i < |batches| :: FreshJobIds(ProcessAll(batches[..i]).db, batches[i].0)
  }

  ghost predicate KeysUsedOnce(log: Log) {
    && UniqueKeys(log.db)
    && (forall i | 0 <= i < |log.committed| && log.committed[i].req.tasks != [] ::
          var item := log.committed[i];
          item.ctx.jobId in log.db.jobs && log.db.jobs[item.ctx.jobId] == JobRow(item.req.idempotencyKey, 0))
    && (forall i, k | 0 <= i < k < |log.committed| && log.committed[i].req.tasks != []
       && log.committed[k].req.tasks != [] ::
          log.committed[i].ctx.jobId != log.committed[k].ctx.jobId)
  }

  lemma ProcessKeepsKeys(log: Log, batch: seq<BatchItem>, dbUp: bool)
    requires KeysUsedOnce(log) && FreshJobIds(log.db, batch)
    ensures KeysUsedOnce(Process(log, batch, dbUp))
  {
    if dbUp && Flush(log.db, batch).Committed? {
      CommittedJobs(log.db, batch);
      hide Flush, UniqueKeys;
    }
  }

  /** At most one non-empty job per idempotency key ever commits, and hence ever reaches Redis, over any
      sequence of batches with any number of repeated keys. */
  lemma {:induction false} IdempotencyOverAllBatches(batches: seq<(seq<BatchItem>, bool)>)
    requires FreshThroughout(batches)
    ensures KeysUsedOnce(ProcessAll(batches))
    ensures var c := ProcessAll(batches).committed;
            forall i, k | 0 <= i < k < |c| && c[i].req.tasks != [] && c[k].req.tasks != [] ::
              c[i].req.idempotencyKey != c[k].req.idempotencyKey
  {
    hide Process, FreshJobIds;
    if batches != [] {
      var m := |batches| - 1;
      FreshBefore(batches);
      assert ProcessAll(batches) == Process(ProcessAll(batches[..m]), batches[m].0, batches[m].1);
      hide ProcessAll, FreshThroughout;
      IdempotencyOverAllBatches(batches[..m]);
      ProcessKeepsKeys(ProcessAll(batches[..m]), batches[m].0, batches[m].1);
    }
    KeysOfCommitted(ProcessAll(batches));
  }

  lemma FreshBefore(batches: seq<(seq<BatchItem>, bool)>)
    requires FreshThroughout(batches) && batches != []
    ensures var m := |batches| - 1;
            FreshThroughout(batches[..m]) && FreshJobIds(ProcessAll(batches[..m]).db, batches[m].0)
  {
    hide ProcessAll, FreshJobIds;
    var m := |batches| - 1;
    assert forall i | 0 <= i < m :: batches[..m][..i] == batches[..i];
  }

  lemma KeysOfCommitted(log: Log)
    requires KeysUsedOnce(log)
    ensures var c := log.committed;
            forall i, k | 0 <= i < k < |c| && c[i].req.tasks != [] && c[k].req.tasks != [] ::
              c[i].req.idempotencyKey != c[k].req.idempotencyKey
  {
  }

  // ------------------------------------------------------------ end to end

  /** From the validator to the last task: an accepted request that was committed, published as its own
      job and went quiet is finished unless a completion overtook its pipeline. */
  lemma AcceptedRequestFinishes(db: Database, batch: seq<BatchItem>, k: nat, run: seq<State>, actions: seq<Action>)
    requires Flush(db, batch).Committed? && UniqueKeys(db) && k < |batch| && ValidContext(batch[k])
    requires IsDagRequest(batch[k].req)
    requires IsRun(run, actions)
    requires var s, j := run[|actions|], batch[k].ctx.jobId;
             && Drained(s, j) && s.jobs[j] == PublishedJob(batch[k]) && Quiet(s, j) && s.redis.errors == []
    ensures Finished(run[|actions|], batch[k].ctx.jobId)
  {
    var s, j := run[|actions|], batch[k].ctx.jobId;
    CommittedMeans(db, batch, k);
    AcceptedJobIsAcyclic(db, Flush(db, batch).db, batch[k]);
    RunsKeepInv(run, actions, |actions|);
    assert s.early == {} by { hide Structure, TaskForm, Flush; }
    hide Flush, UniqueKeys, Inv, ItemCommitted, IsRun, Acyclic, Drained, Quiet, Finished;
    assert j in s.jobs;
    NoneEarly(s, j);
    QuietJobIsFinishedIff(run, actions, |actions|, j);
  }

  lemma NoneEarly(s: State, j: Id)
    requires j in s.jobs && s.early == {}
    ensures NoEarlyCompletions(s, j)
  {
  }
}
