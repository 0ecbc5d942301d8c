/** Exactly which batches commit: the conditions a client can check before submitting. */
module BatchAcceptance {
  import opened Graph
  import opened Requests
  import opened JsonText
  import opened PostgresStore
  import opened CommittedBatches

  /** Foreign keys hold in the tables as they are. */
  ghost predicate Integrity(db: Database) {
    && (forall u | u in db.tasks :: db.tasks[u].jobId in db.jobs)
    && (forall e | e in db.edges :: e.parent in db.tasks && e.child in db.tasks)
  }

  predicate OwnsUuid(item: BatchItem, u: Id) {
    u in item.ctx.naturalToUuid.Values
  }

  /** The UUID generator repeats neither job nor task ids. */
  ghost predicate FreshIds(db: Database, batch: seq<BatchItem>) {
    && FreshJobIds(db, batch)
    && (forall i, u | 0 <= i < |batch| && OwnsUuid(batch[i], u) :: u !in db.tasks)
    && (forall i, k, u | 0 <= i < k < |batch| && OwnsUuid(batch[i], u) :: !OwnsUuid(batch[k], u))
  }

  /** The key is in the table or belongs to one of the first n items. */
  ghost predicate KeyUsed(db: Database, batch: seq<BatchItem>, n: nat, key: string)
    requires n <= |batch|
  {
    HasKey(db, key) || exists k :: 0 <= k < n && batch[k].req.idempotencyKey == key
  }

  /** Nobody used the item's idempotency key before, neither in the table nor earlier in the batch. */
  ghost predicate KeyFree(db: Database, batch: seq<BatchItem>, i: nat)
    requires i < |batch|
  {
    !KeyUsed(db, batch, i, batch[i].req.idempotencyKey)
  }

  ghost predicate Storable(req: Request) {
    && IsText(req.idempotencyKey) && DistinctIds(req.tasks) && (forall t | t in req.tasks :: FitsColumns(t))
    && NoDuplicates(req.edges) && EndpointsIn(EdgeSet(req.edges), NaturalIds(req.tasks))
  }

  // ------------------------------------------------------------ jobs

  ghost predicate JobsAfter(db: Database, d: Database, batch: seq<BatchItem>, n: nat)
    requires n <= |batch|
  {
    && d.tasks == db.tasks && d.edges == db.edges
    && (forall j | j in d.jobs :: j in db.jobs || exists i :: 0 <= i < n && j == batch[i].ctx.jobId)
    && (forall j | j in db.jobs :: j in d.jobs)
    && (forall i | 0 <= i < n :: batch[i].ctx.jobId in d.jobs <==> KeyFree(db, batch, i))
    && (forall key :: HasKey(d, key) <==> KeyUsed(db, batch, n, key))
  }

  lemma {:induction false} JobsCommitIff(db: Database, batch: seq<BatchItem>, n: nat)
    requires FreshJobIds(db, batch) && n <= |batch|
    ensures JobsUpTo(db, batch, n).Committed? <==> forall i | 0 <= i < n :: IsText(batch[i].req.idempotencyKey)
    ensures JobsUpTo(db, batch, n).Committed? ==> JobsAfter(db, JobsUpTo(db, batch, n).db, batch, n)
  {
    hide JobsAfter, FreshJobIds, InsertJob, IsText;
    if n == 0 {
      NoJobsYet(db, batch);
    } else {
      JobsCommitIff(db, batch, n - 1);
      if JobsUpTo(db, batch, n - 1).Committed? {
        var d := JobsUpTo(db, batch, n - 1).db;
        assert JobsUpTo(db, batch, n) == InsertJob(d, batch[n - 1]);
        hide JobsUpTo;
        JobStep(db, d, batch, n - 1);
      }
    }
  }

  lemma NoJobsYet(db: Database, batch: seq<BatchItem>)
    ensures JobsAfter(db, db, batch, 0)
  {
    hide HasKey;
  }

  lemma KeysAfterInsert(d: Database, item: BatchItem)
    requires item.ctx.jobId !in d.jobs && InsertJob(d, item).Committed?
    ensures var d' := InsertJob(d, item).db;
            forall key :: HasKey(d', key) <==> HasKey(d, key) || key == item.req.idempotencyKey
  {
    hide IsText;
    var d' := InsertJob(d, item).db;
    if !HasKey(d, item.req.idempotencyKey) {
      assert d'.jobs[item.ctx.jobId].idempotencyKey == item.req.idempotencyKey;
      forall key | HasKey(d, key) ensures HasKey(d', key) {
        var j :| j in d.jobs && d.jobs[j].idempotencyKey == key;
        assert d'.jobs[j].idempotencyKey == key;
      }
    }
  }

  lemma JobStep(db: Database, d: Database, batch: seq<BatchItem>, m: nat)
    requires FreshJobIds(db, batch) && m < |batch| && JobsAfter(db, d, batch, m)
    ensures InsertJob(d, batch[m]).Committed? <==> IsText(batch[m].req.idempotencyKey)
    ensures InsertJob(d, batch[m]).Committed? ==> JobsAfter(db, InsertJob(d, batch[m]).db, batch, m + 1)
  {
    hide IsText;
    var item := batch[m];
    assert item.ctx.jobId !in d.jobs;
    if InsertJob(d, item).Committed? {
      var d' := InsertJob(d, item).db;
      KeysAfterInsert(d, item);
      assert HasKey(d, item.req.idempotencyKey) <==> !KeyFree(db, batch, m);
      hide HasKey;
      forall key ensures HasKey(d', key) <==> KeyUsed(db, batch, m + 1, key) {
        OneMoreKey(db, batch, m, key);
      }
      hide KeyUsed, KeyFree;
    }
  }

  lemma OneMoreKey(db: Database, batch: seq<BatchItem>, m: nat, key: string)
    requires m < |batch|
    ensures KeyUsed(db, batch, m + 1, key) <==> KeyUsed(db, batch, m, key) || batch[m].req.idempotencyKey == key
  {
    hide HasKey;
  }

  // ------------------------------------------------------------ tasks

  /** The first k tasks of the item on top of the tables d. */
  ghost predicate AddsOnlyOwnRows(d: Database, d': Database, item: BatchItem, k: nat)
    requires k <= |item.req.tasks|
  {
    forall u | u in d'.tasks :: (u in d.tasks && d'.tasks[u] == d.tasks[u]) ||
      (OwnsUuid(item, u) && d'.tasks[u].jobId == item.ctx.jobId
       && exists i :: 0 <= i < k && u == UuidOf(item, item.req.tasks[i]) && d'.tasks[u].spec == item.req.tasks[i])
  }

  ghost predicate ItemTasksAfter(d: Database, d': Database, item: BatchItem, k: nat)
    requires k <= |item.req.tasks|
  {
    && d'.jobs == d.jobs && d'.edges == d.edges
    && AddsOnlyOwnRows(d, d', item, k)
    && (forall u | u in d.tasks :: u in d'.tasks)
    && (forall i | 0 <= i < k :: UuidOf(item, item.req.tasks[i]) in d'.tasks)
    && (forall i | 0 <= i < k :: NaturalIdTaken(d', item.ctx.jobId, item.req.tasks[i].naturalId))
  }

  /** The item's ids do not occur in the task table. */
  ghost predicate Untouched(d: Database, item: BatchItem) {
    && (forall u | u in d.tasks :: d.tasks[u].jobId != item.ctx.jobId)
    && (forall u | u in d.tasks :: !OwnsUuid(item, u))
  }

  lemma {:induction false} ItemTasksCommitIff(d: Database, item: BatchItem, k: nat)
    requires ValidContext(item) && Untouched(d, item) && k <= |item.req.tasks|
    ensures ItemTasksUpTo(d, item, k).Committed? <==>
              k == 0 || (item.ctx.jobId in d.jobs && DistinctIds(item.req.tasks[..k])
                         && forall i | 0 <= i < k :: FitsColumns(item.req.tasks[i]))
    ensures ItemTasksUpTo(d, item, k).Committed? ==> ItemTasksAfter(d, ItemTasksUpTo(d, item, k).db, item, k)
  {
    hide FitsColumns, ItemTasksAfter, ValidContext, Untouched, InsertTask, DistinctIds;
    if k == 0 {
      NoItemTasksYet(d, item);
    } else {
      ItemTasksCommitIff(d, item, k - 1);
      DistinctPrefix(item.req.tasks, k - 1);
      FirstIsDistinct(item.req.tasks);
      if ItemTasksUpTo(d, item, k - 1).Committed? {
        var d' := ItemTasksUpTo(d, item, k - 1).db;
        assert ItemTasksUpTo(d, item, k) == InsertTask(d', item, item.req.tasks[k - 1]);
        hide ItemTasksUpTo;
        TaskStep(d, d', item, k - 1);
      }
    }
  }

  lemma NoItemTasksYet(d: Database, item: BatchItem)
    ensures ItemTasksAfter(d, d, item, 0)
  {
  }

  lemma FirstIsDistinct(tasks: seq<TaskSpec>)
    ensures DistinctIds(tasks[..0])
  {
  }

  lemma DistinctPrefix(tasks: seq<TaskSpec>, m: nat)
    requires m < |tasks|
    ensures DistinctIds(tasks[..m + 1]) <==> DistinctIds(tasks[..m]) && forall i | 0 <= i < m ::
            tasks[i].naturalId != tasks[m].naturalId
  {
    assert tasks[..m + 1] == tasks[..m] + [tasks[m]];
    assert forall i | 0 <= i < m :: tasks[..m][i] == tasks[i] == tasks[..m + 1][i];
    assert tasks[..m + 1][m] == tasks[m];
  }

  lemma TaskIsKnown(item: BatchItem, i: nat)
    requires ValidContext(item) && i < |item.req.tasks|
    ensures item.req.tasks[i].naturalId in item.ctx.naturalToUuid && OwnsUuid(item, UuidOf(item, item.req.tasks[i]))
  {
  }

  lemma SameUuidSameTask(item: BatchItem, i: nat, k: nat)
    requires ValidContext(item) && i < |item.req.tasks| && k < |item.req.tasks|
    ensures UuidOf(item, item.req.tasks[i]) == UuidOf(item, item.req.tasks[k])
            <==> item.req.tasks[i].naturalId == item.req.tasks[k].naturalId
  {
    TaskIsKnown(item, i);
    TaskIsKnown(item, k);
  }

  lemma TaskStep(d: Database, d': Database, item: BatchItem, m: nat)
    requires ValidContext(item) && Untouched(d, item) && m < |item.req.tasks| && ItemTasksAfter(d, d', item, m)
    ensures var tx := InsertTask(d', item, item.req.tasks[m]);
            && (tx.Committed? <==>
                  item.ctx.jobId in d.jobs && FitsColumns(item.req.tasks[m])
                  && forall i | 0 <= i < m :: item.req.tasks[i].naturalId != item.req.tasks[m].naturalId)
            && (tx.Committed? ==> ItemTasksAfter(d, tx.db, item, m + 1))
  {
    var t := item.req.tasks[m];
    TaskIsKnown(item, m);
    var uuid := UuidOf(item, t);
    TaskConflicts(d, d', item, m);
    if uuid !in d'.tasks && item.ctx.jobId in d.jobs {
      InsertedTask(d, d', item, m);
    }
    hide ItemTasksAfter, NaturalIdTaken, ValidContext, Untouched, OwnsUuid, RowOf, FitsColumns;
  }

  lemma TaskConflicts(d: Database, d': Database, item: BatchItem, m: nat)
    requires ValidContext(item) && Untouched(d, item) && m < |item.req.tasks| && ItemTasksAfter(d, d', item, m)
    ensures var t := item.req.tasks[m];
            && (UuidOf(item, t) in d'.tasks <==> exists i :: 0 <= i < m && item.req.tasks[i].naturalId == t.naturalId)
            && (NaturalIdTaken(d', item.ctx.jobId, t.naturalId) ==> UuidOf(item, t) in d'.tasks)
  {
    var t := item.req.tasks[m];
    var uuid := UuidOf(item, t);
    TaskIsKnown(item, m);
    forall i | 0 <= i < m ensures uuid == UuidOf(item, item.req.tasks[i])
      <==> item.req.tasks[i].naturalId == t.naturalId {
      SameUuidSameTask(item, i, m);
    }
    hide ValidContext, UuidOf, OwnsUuid;
    assert uuid !in d.tasks;
    if NaturalIdTaken(d', item.ctx.jobId, t.naturalId) {
      var u :| u in d'.tasks && d'.tasks[u].jobId == item.ctx.jobId && d'.tasks[u].spec.naturalId == t.naturalId;
      assert u !in d.tasks;
    }
  }

  lemma InsertedTask(d: Database, d': Database, item: BatchItem, m: nat)
    requires m < |item.req.tasks| && ItemTasksAfter(d, d', item, m)
    requires var u := UuidOf(item, item.req.tasks[m]); u !in d'.tasks && OwnsUuid(item, u)
    ensures var t := item.req.tasks[m];
            ItemTasksAfter(d, d'.(tasks := d'.tasks[UuidOf(item, t) := RowOf(item, t)]), item, m + 1)
  {
    var t := item.req.tasks[m];
    assert RowOf(item, t).jobId == item.ctx.jobId && RowOf(item, t).spec == t;
    hide RowOf, NaturalIdTaken, UuidOf, OwnsUuid, AddsOnlyOwnRows;
    TakenAfterInsert(d', UuidOf(item, t), RowOf(item, t));
    OneMoreOwnRow(d, d', item, m);
  }

  lemma OneMoreOwnRow(d: Database, d': Database, item: BatchItem, m: nat)
    requires m < |item.req.tasks| && AddsOnlyOwnRows(d, d', item, m)
    requires var u := UuidOf(item, item.req.tasks[m]); u !in d'.tasks && OwnsUuid(item, u)
    ensures var t := item.req.tasks[m];
            AddsOnlyOwnRows(d, d'.(tasks := d'.tasks[UuidOf(item, t) := RowOf(item, t)]), item, m + 1)
  {
    assert RowOf(item, item.req.tasks[m]).jobId == item.ctx.jobId;
    assert RowOf(item, item.req.tasks[m]).spec == item.req.tasks[m];
    hide RowOf, UuidOf, OwnsUuid;
  }

  lemma TakenAfterInsert(d: Database, u: Id, row: TaskRow)
    requires u !in d.tasks
    ensures var r := d.(tasks := d.tasks[u := row]);
            && NaturalIdTaken(r, row.jobId, row.spec.naturalId)
            && forall j, n | NaturalIdTaken(d, j, n) :: NaturalIdTaken(r, j, n)
  {
    var r := d.(tasks := d.tasks[u := row]);
    assert r.tasks[u] == row;
    forall j, n | NaturalIdTaken(d, j, n) ensures NaturalIdTaken(r, j, n) {
      var v :| v in d.tasks && d.tasks[v].jobId == j && d.tasks[v].spec.naturalId == n;
      assert r.tasks[v] == d.tasks[v];
    }
  }

  ghost predicate TasksAfter(d: Database, d': Database, batch: seq<BatchItem>, n: nat)
    requires n <= |batch|
  {
    && d'.jobs == d.jobs && d'.edges == d.edges
    && (forall u | u in d.tasks :: u in d'.tasks)
    && (forall u | u in d'.tasks :: (u in d.tasks && d'.tasks[u] == d.tasks[u])
          || exists i :: 0 <= i < n && OwnsUuid(batch[i], u) && d'.tasks[u].jobId == batch[i].ctx.jobId)
    && (forall i, u | 0 <= i < n && OwnsUuid(batch[i], u) :: u in d'.tasks)
  }

  ghost predicate TasksStorable(d: Database, item: BatchItem) {
    item.req.tasks != [] ==>
      item.ctx.jobId in d.jobs && DistinctIds(item.req.tasks) && forall t | t in item.req.tasks :: FitsColumns(t)
  }

  lemma {:induction false} TasksCommitIff(db: Database, d: Database, batch: seq<BatchItem>, n: nat)
    requires Integrity(db) && FreshIds(db, batch) && d.tasks == db.tasks && n <= |batch|
    requires forall i | 0 <= i < |batch| :: ValidContext(batch[i])
    ensures TasksUpTo(d, batch, n).Committed? <==> forall i | 0 <= i < n :: TasksStorable(d, batch[i])
    ensures TasksUpTo(d, batch, n).Committed? ==> TasksAfter(d, TasksUpTo(d, batch, n).db, batch, n)
  {
    hide Integrity, FreshIds, ValidContext, TasksStorable, TasksAfter, ItemTasksUpTo;
    if n == 0 {
      NoTasksYet(d, batch);
    } else {
      TasksCommitIff(db, d, batch, n - 1);
      if TasksUpTo(d, batch, n - 1).Committed? {
        var d', item := TasksUpTo(d, batch, n - 1).db, batch[n - 1];
        assert TasksUpTo(d, batch, n) == ItemTasksUpTo(d', item, |item.req.tasks|);
        hide TasksUpTo;
        LaterItemUntouched(db, d, d', batch, n - 1);
        TasksOfItem(d, d', batch, n - 1);
      }
    }
  }

  lemma NoTasksYet(d: Database, batch: seq<BatchItem>)
    ensures TasksAfter(d, d, batch, 0)
  {
    hide OwnsUuid;
  }

  lemma TasksOfItem(d: Database, d': Database, batch: seq<BatchItem>, m: nat)
    requires m < |batch| && ValidContext(batch[m]) && Untouched(d', batch[m]) && TasksAfter(d, d', batch, m)
    ensures var tx := ItemTasksUpTo(d', batch[m], |batch[m].req.tasks|);
            && (tx.Committed? <==> TasksStorable(d, batch[m]))
            && (tx.Committed? ==> TasksAfter(d, tx.db, batch, m + 1))
  {
    var item := batch[m];
    assert d'.jobs == d.jobs;
    hide TasksAfter, ItemTasksUpTo, ItemTasksAfter, DistinctIds, ValidContext, Untouched, FitsColumns;
    assert item.req.tasks[..|item.req.tasks|] == item.req.tasks;
    ItemTasksCommitIff(d', item, |item.req.tasks|);
    if ItemTasksUpTo(d', item, |item.req.tasks|).Committed? {
      TasksAfterItem(d, d', ItemTasksUpTo(d', item, |item.req.tasks|).db, batch, m);
    }
  }

  lemma LaterItemUntouched(db: Database, d: Database, d': Database, batch: seq<BatchItem>, m: nat)
    requires Integrity(db) && FreshIds(db, batch) && d.tasks == db.tasks && m < |batch| && TasksAfter(d, d', batch, m)
    ensures Untouched(d', batch[m])
  {
  }

  lemma TasksAfterItem(d: Database, d': Database, d2: Database, batch: seq<BatchItem>, m: nat)
    requires m < |batch| && ValidContext(batch[m]) && TasksAfter(d, d', batch, m)
    requires ItemTasksAfter(d', d2, batch[m], |batch[m].req.tasks|)
    ensures TasksAfter(d, d2, batch, m + 1)
  {
    var item := batch[m];
    forall u | OwnsUuid(item, u) ensures u in d2.tasks {
      var n :| n in item.ctx.naturalToUuid && item.ctx.naturalToUuid[n] == u;
      var i :| 0 <= i < |item.req.tasks| && item.req.tasks[i].naturalId == n;
      assert UuidOf(item, item.req.tasks[i]) == u;
    }
    hide ValidContext, NaturalIdTaken;
    hide UuidOf, OwnsUuid;
  }

  // ------------------------------------------------------------ edges

  ghost predicate EdgesMapped(item: BatchItem, k: nat)
    requires k <= |item.req.edges|
  {
    forall i | 0 <= i < k :: EndpointsMapped(item, item.req.edges[i])
  }

  ghost predicate ItemEdgesAfter(d: Database, d': Database, item: BatchItem, k: nat)
    requires k <= |item.req.edges|
  {
    && d'.jobs == d.jobs && d'.tasks == d.tasks && EdgesMapped(item, k)
    && (forall e | e in d'.edges :: e in d.edges || exists i :: 0 <= i < k && e == UuidEdge(item, item.req.edges[i]))
    && (forall i | 0 <= i < k :: UuidEdge(item, item.req.edges[i]) in d'.edges)
    && (forall e | e in d.edges :: e in d'.edges)
  }

  /** All tasks of the item are stored, none of its edges. */
  ghost predicate ReadyForEdges(d: Database, item: BatchItem) {
    && (forall u | OwnsUuid(item, u) :: u in d.tasks)
    && (forall e | e in d.edges :: !OwnsUuid(item, e.parent))
  }

  lemma {:induction false} ItemEdgesCommitIff(d: Database, item: BatchItem, k: nat)
    requires ValidContext(item) && ReadyForEdges(d, item) && k <= |item.req.edges|
    ensures ItemEdgesUpTo(d, item, k).Committed? <==> NoDuplicates(item.req.edges[..k]) && EdgesMapped(item, k)
    ensures ItemEdgesUpTo(d, item, k).Committed? ==> ItemEdgesAfter(d, ItemEdgesUpTo(d, item, k).db, item, k)
  {
    hide NoDuplicates, ValidContext, ReadyForEdges, ItemEdgesAfter, EdgesMapped, EndpointsMapped, InsertEdge;
    if k == 0 {
      NoEdgesYet(d, item);
    } else {
      ItemEdgesCommitIff(d, item, k - 1);
      NoDuplicatesPrefix(item.req.edges, k - 1);
      OneMoreEdgeMapped(item, k - 1);
      if ItemEdgesUpTo(d, item, k - 1).Committed? {
        var d' := ItemEdgesUpTo(d, item, k - 1).db;
        assert ItemEdgesUpTo(d, item, k) == InsertEdge(d', item, item.req.edges[k - 1]);
        hide ItemEdgesUpTo;
        EdgeStep(d, d', item, k - 1);
      }
    }
  }

  lemma NoEdgesYet(d: Database, item: BatchItem)
    ensures NoDuplicates(item.req.edges[..0]) && EdgesMapped(item, 0) && ItemEdgesAfter(d, d, item, 0)
  {
  }

  lemma OneMoreEdgeMapped(item: BatchItem, m: nat)
    requires m < |item.req.edges|
    ensures EdgesMapped(item, m + 1) <==> EdgesMapped(item, m) && EndpointsMapped(item, item.req.edges[m])
  {
    hide EndpointsMapped;
  }

  lemma NoDuplicatesPrefix(s: seq<Edge>, m: nat)
    requires m < |s|
    ensures NoDuplicates(s[..m + 1]) <==> NoDuplicates(s[..m]) && forall i | 0 <= i < m :: s[i] != s[m]
  {
    assert forall i | 0 <= i < m :: s[..m][i] == s[i] == s[..m + 1][i];
    assert s[..m + 1][m] == s[m];
  }

  lemma SameRowSameEdge(item: BatchItem, a: Edge, b: Edge)
    requires ValidContext(item) && EndpointsMapped(item, a) && EndpointsMapped(item, b)
    ensures UuidEdge(item, a) == UuidEdge(item, b) <==> a == b
    ensures OwnsUuid(item, UuidEdge(item, a).parent) && OwnsUuid(item, UuidEdge(item, a).child)
  {
  }

  lemma EdgeStep(d: Database, d': Database, item: BatchItem, m: nat)
    requires ValidContext(item) && ReadyForEdges(d, item) && m < |item.req.edges| && ItemEdgesAfter(d, d', item, m)
    ensures var tx := InsertEdge(d', item, item.req.edges[m]);
            && (tx.Committed? <==> EndpointsMapped(item, item.req.edges[m]) && forall i | 0 <= i < m ::
               item.req.edges[i] != item.req.edges[m])
            && (tx.Committed? ==> ItemEdgesAfter(d, tx.db, item, m + 1))
  {
    var e := item.req.edges[m];
    if EndpointsMapped(item, e) {
      forall i | 0 <= i < m ensures UuidEdge(item, item.req.edges[i]) == UuidEdge(item, e) <==> item.req.edges[i] == e {
        SameRowSameEdge(item, item.req.edges[i], e);
      }
      SameRowSameEdge(item, e, e);
      hide ValidContext, EndpointsMapped, OwnsUuid;
    }
  }

  ghost predicate EdgesStorable(item: BatchItem) {
    NoDuplicates(item.req.edges) && EdgesMapped(item, |item.req.edges|)
  }

  ghost predicate EdgesAfter(d: Database, d': Database, batch: seq<BatchItem>, n: nat)
    requires n <= |batch|
  {
    && d'.jobs == d.jobs && d'.tasks == d.tasks
    && (forall e | e in d'.edges :: e in d.edges
          || exists i :: 0 <= i < n && OwnsUuid(batch[i], e.parent) && OwnsUuid(batch[i], e.child))
  }

  lemma {:induction false} EdgesCommitIff(db: Database, d: Database, batch: seq<BatchItem>, n: nat)
    requires Integrity(db) && FreshIds(db, batch) && d.edges == db.edges && n <= |batch|
    requires forall i, u | 0 <= i < |batch| && OwnsUuid(batch[i], u) :: u in d.tasks
    requires forall i | 0 <= i < |batch| :: ValidContext(batch[i])
    ensures EdgesUpTo(d, batch, n).Committed? <==> forall i | 0 <= i < n :: EdgesStorable(batch[i])
    ensures EdgesUpTo(d, batch, n).Committed? ==> EdgesAfter(d, EdgesUpTo(d, batch, n).db, batch, n)
  {
    hide Integrity, FreshIds, ValidContext, EdgesStorable, EdgesAfter, ItemEdgesUpTo, OwnsUuid;
    if n == 0 {
      NoEdgesOfBatch(d, batch);
    } else {
      EdgesCommitIff(db, d, batch, n - 1);
      if EdgesUpTo(d, batch, n - 1).Committed? {
        var d', item := EdgesUpTo(d, batch, n - 1).db, batch[n - 1];
        assert EdgesUpTo(d, batch, n) == ItemEdgesUpTo(d', item, |item.req.edges|);
        hide EdgesUpTo;
        LaterItemReady(db, d, d', batch, n - 1);
        EdgesOfItem(d, d', batch, n - 1);
      }
    }
  }

  lemma NoEdgesOfBatch(d: Database, batch: seq<BatchItem>)
    ensures EdgesAfter(d, d, batch, 0)
  {
    hide OwnsUuid;
  }

  lemma LaterItemReady(db: Database, d: Database, d': Database, batch: seq<BatchItem>, m: nat)
    requires Integrity(db) && FreshIds(db, batch) && d.edges == db.edges && m < |batch| && EdgesAfter(d, d', batch, m)
    requires forall i, u | 0 <= i < |batch| && OwnsUuid(batch[i], u) :: u in d.tasks
    ensures ReadyForEdges(d', batch[m])
  {
    hide FreshJobIds, OwnsUuid;
  }

  lemma EdgesOfItem(d: Database, d': Database, batch: seq<BatchItem>, m: nat)
    requires m < |batch| && ValidContext(batch[m]) && ReadyForEdges(d', batch[m]) && EdgesAfter(d, d', batch, m)
    ensures var tx := ItemEdgesUpTo(d', batch[m], |batch[m].req.edges|);
            && (tx.Committed? <==> EdgesStorable(batch[m]))
            && (tx.Committed? ==> EdgesAfter(d, tx.db, batch, m + 1))
  {
    var item := batch[m];
    hide EdgesAfter, ItemEdgesUpTo, ItemEdgesAfter, ValidContext, NoDuplicates, EdgesMapped, ReadyForEdges;
    assert item.req.edges[..|item.req.edges|] == item.req.edges;
    ItemEdgesCommitIff(d', item, |item.req.edges|);
    if ItemEdgesUpTo(d', item, |item.req.edges|).Committed? {
      EdgesAfterItem(d, d', ItemEdgesUpTo(d', item, |item.req.edges|).db, batch, m);
    }
  }

  lemma EdgesAfterItem(d: Database, d': Database, d2: Database, batch: seq<BatchItem>, m: nat)
    requires m < |batch| && EdgesAfter(d, d', batch, m) && ItemEdgesAfter(d', d2, batch[m], |batch[m].req.edges|)
    ensures EdgesAfter(d, d2, batch, m + 1)
  {
    var item := batch[m];
    forall i | 0 <= i < |item.req.edges|
      ensures OwnsUuid(item, UuidEdge(item, item.req.edges[i]).parent)
              && OwnsUuid(item, UuidEdge(item, item.req.edges[i]).child)
    {
      assert EndpointsMapped(item, item.req.edges[i]);
    }
    hide OwnsUuid;
  }

  // ------------------------------------------------------------ the whole batch

  ghost predicate Acceptable(db: Database, batch: seq<BatchItem>, i: nat)
    requires i < |batch|
  {
    Storable(batch[i].req) && (batch[i].req.tasks != [] ==> KeyFree(db, batch, i))
  }

  lemma StorableParts(db: Database, d: Database, batch: seq<BatchItem>, i: nat)
    requires i < |batch| && ValidContext(batch[i]) && (batch[i].ctx.jobId in d.jobs <==> KeyFree(db, batch, i))
    ensures IsText(batch[i].req.idempotencyKey) && TasksStorable(d, batch[i]) && EdgesStorable(batch[i])
            <==> Acceptable(db, batch, i)
  {
    hide FitsColumns, IsText;
    var req := batch[i].req;
    assert EdgesMapped(batch[i], |req.edges|) <==> EndpointsIn(EdgeSet(req.edges), NaturalIds(req.tasks)) by {
      assert forall k | 0 <= k < |req.edges| :: req.edges[k] in EdgeSet(req.edges);
    }
    hide KeyFree, NoDuplicates, EdgeSet, NaturalIds, EndpointsIn;
  }

  /** A batch commits exactly if every request in it has texts, parameters and numbers that fit their
      columns, distinct task ids, no edge twice and no edge to an unknown task, and, unless it is empty, an
      idempotency key used neither before nor earlier in the batch. One request that fails this takes the
      whole batch with it. */
  lemma BatchCommitsIff(db: Database, batch: seq<BatchItem>)
    requires Integrity(db) && FreshIds(db, batch) && forall i | 0 <= i < |batch| :: ValidContext(batch[i])
    ensures Flush(db, batch).Committed? <==> forall i | 0 <= i < |batch| :: Acceptable(db, batch, i)
  {
    var n := |batch|;
    hide IsText;
    JobsCommitIff(db, batch, n);
    if JobsUpTo(db, batch, n).Committed? {
      var d1 := JobsUpTo(db, batch, n).db;
      assert d1.tasks == db.tasks && d1.edges == db.edges;
      assert forall i | 0 <= i < n :: batch[i].ctx.jobId in d1.jobs <==> KeyFree(db, batch, i);
      hide JobsAfter, KeyFree;
      TasksCommitIff(db, d1, batch, n);
      forall i | 0 <= i < n ensures TasksStorable(d1, batch[i]) && EdgesStorable(batch[i])
        <==> Acceptable(db, batch, i) {
        StorableParts(db, d1, batch, i);
      }
      hide TasksStorable, EdgesStorable, Acceptable, JobsUpTo;
      if TasksUpTo(d1, batch, n).Committed? {
        EdgesCommitIff(db, TasksUpTo(d1, batch, n).db, batch, n);
      }
      hide TasksUpTo, EdgesUpTo, FreshIds, Integrity, ValidContext;
    } else {
      assert forall i | 0 <= i < n :: Acceptable(db, batch, i) ==> IsText(batch[i].req.idempotencyKey);
      hide Acceptable, FreshIds, Integrity, ValidContext, JobsAfter;
    }
  }

  /** Foreign keys hold for ever. */
  lemma FlushKeepsIntegrity(db: Database, batch: seq<BatchItem>)
    requires Integrity(db) && FreshIds(db, batch) && forall i | 0 <= i < |batch| :: ValidContext(batch[i])
    requires Flush(db, batch).Committed?
    ensures Integrity(Flush(db, batch).db)
  {
    var d1, d2, d3 := FlushPhases(db, batch);
    JobsCommitIff(db, batch, |batch|);
    TasksCommitIff(db, d1, batch, |batch|);
    EdgesCommitIff(db, d2, batch, |batch|);
    forall i | 0 <= i < |batch| && batch[i].req.tasks != [] ensures batch[i].ctx.jobId in d1.jobs {
      assert TasksStorable(d1, batch[i]);
    }
    hide Flush, JobsUpTo, TasksUpTo, EdgesUpTo, FreshIds, KeyFree, TasksStorable, EdgesStorable, IsText;
    TablesKeepIntegrity(db, d1, d2, d3, batch);
  }

  lemma TablesKeepIntegrity(db: Database, d1: Database, d2: Database, d3: Database, batch: seq<BatchItem>)
    requires Integrity(db) && JobsAfter(db, d1, batch, |batch|) && TasksAfter(d1, d2, batch, |batch|)
             && EdgesAfter(d2, d3, batch, |batch|)
    requires forall i | 0 <= i < |batch| ::
               ValidContext(batch[i]) && (batch[i].req.tasks != [] ==> batch[i].ctx.jobId in d1.jobs)
    ensures Integrity(d3)
  {
    assert d1.tasks == db.tasks && d1.edges == db.edges && forall j | j in db.jobs :: j in d1.jobs;
    hide JobsAfter, ValidContext, OwnsUuid, KeyFree;
    TaskRowsKeepIntegrity(db, d1, d2, batch);
    assert d3.jobs == d2.jobs == d1.jobs && d3.tasks == d2.tasks && d2.edges == d1.edges;
  }

  lemma TaskRowsKeepIntegrity(db: Database, d1: Database, d2: Database, batch: seq<BatchItem>)
    requires Integrity(db) && d1.tasks == db.tasks && (forall j | j in db.jobs :: j in d1.jobs)
    requires TasksAfter(d1, d2, batch, |batch|)
    requires forall i | 0 <= i < |batch| ::
               ValidContext(batch[i]) && (batch[i].req.tasks != [] ==> batch[i].ctx.jobId in d1.jobs)
    ensures forall u | u in d2.tasks :: d2.tasks[u].jobId in d2.jobs
  {
    hide ValidContext, OwnsUuid;
    forall u | u in d2.tasks ensures d2.tasks[u].jobId in d2.jobs {
      if !(u in d1.tasks && d2.tasks[u] == d1.tasks[u]) {
        var i :| 0 <= i < |batch| && OwnsUuid(batch[i], u) && d2.tasks[u].jobId == batch[i].ctx.jobId;
        OwnerHasTasks(batch[i], u);
      }
    }
  }

  lemma OwnerHasTasks(item: BatchItem, u: Id)
    requires OwnsUuid(item, u)
    ensures ValidContext(item) ==> item.req.tasks != []
  {
    if ValidContext(item) {
      var n :| n in item.ctx.naturalToUuid && item.ctx.naturalToUuid[n] == u;
      assert n in NaturalIds(item.req.tasks);
    }
  }

  /** The validators look at ids and edges only, and allow an edge to be given twice; the database does not:
      of the requests a validator accepts, those that commit on their own are the ones with a new key, values
      that fit their columns and no repeated edge. */
  lemma ValidatedRequestCommitsIff(db: Database, item: BatchItem)
    requires Integrity(db) && FreshIds(db, [item]) && ValidContext(item) && IsDagRequest(item.req)
    ensures Flush(db, [item]).Committed? <==>
              && NoDuplicates(item.req.edges) && (item.req.tasks != [] ==> !HasKey(db, item.req.idempotencyKey))
              && IsText(item.req.idempotencyKey) && forall t | t in item.req.tasks :: FitsColumns(t)
  {
    BatchCommitsIff(db, [item]);
    hide Flush, Integrity, FreshIds, ValidContext, NoDuplicates, HasKey, EndpointsIn, Acyclic, DistinctIds, IsText,
         FitsColumns;
    assert Acceptable(db, [item], 0) <==> forall i | 0 <= i < 1 :: Acceptable(db, [item], i);
  }

  // ------------------------------------------------------------ requests that fail

  function ExampleTask(id: Id, params: string): TaskSpec {
    TaskSpec(id, "run", params, 0, 0, 0)
  }

  /** Two tasks, one after the other, under the key "k". */
  function ExampleItem(params: string, edges: seq<Edge>): BatchItem {
    BatchItem(Request("k", [ExampleTask("a", params), ExampleTask("b", "{}")], edges),
              Context("j", map["a" := "u", "b" := "v"], []))
  }

  const EMPTY_DATABASE := Database(map[], map[], {})

  lemma ExampleIsValid(params: string, edges: seq<Edge>)
    requires edges != [] && forall e | e in edges :: e == Edge("a", "b")
    ensures var item := ExampleItem(params, edges);
            && IsDagRequest(item.req) && ValidContext(item) && FreshIds(EMPTY_DATABASE, [item])
               && Integrity(EMPTY_DATABASE)
            && !HasKey(EMPTY_DATABASE, "k") && item.req.tasks != [] && DistinctIds(item.req.tasks)
  {
    var item := ExampleItem(params, edges);
    var tasks := item.req.tasks;
    assert NaturalIds(tasks) == {"a", "b"} by { assert tasks[0].naturalId == "a" && tasks[1].naturalId == "b"; }
    assert ParentsFirst(EdgeSet(edges), ["a", "b"]) by {
      assert ["a", "b"][..1] == ["a"];
    }
    OrderedGraphIsAcyclic(EdgeSet(edges), ["a", "b"]);
    assert ValidContext(item);
  }

  /** An accepted request with a repeated edge aborts; without the repetition it commits. */
  lemma RepeatedEdgeAborts()
    ensures var e := Edge("a", "b");
            && IsDagRequest(ExampleItem("{}", [e, e]).req)
            && Flush(EMPTY_DATABASE, [ExampleItem("{}", [e, e])]).Aborted?
            && Flush(EMPTY_DATABASE, [ExampleItem("{}", [e])]).Committed?
  {
    var e := Edge("a", "b");
    ExampleIsValid("{}", [e, e]);
    ExampleIsValid("{}", [e]);
    hide Flush, FreshIds, ValidContext, Integrity, HasKey, IsDagRequest, DistinctIds, FitsColumns;
    ValidatedRequestCommitsIff(EMPTY_DATABASE, ExampleItem("{}", [e, e]));
    ValidatedRequestCommitsIff(EMPTY_DATABASE, ExampleItem("{}", [e]));
    assert [e, e][0] == [e, e][1];
    assert FitsColumns(ExampleTask("a", "{}")) && FitsColumns(ExampleTask("b", "{}")) by { ExampleFits(); }
    assert NoDuplicates([e]);
  }

  lemma ExampleFits()
    ensures FitsColumns(ExampleTask("a", "{}")) && FitsColumns(ExampleTask("b", "{}"))
    ensures !FitsColumns(ExampleTask("a", ""))
  {
    assert Trim("{}") == "{}" && "{}"[1..] == "}" && Trim("}") == "}" && "}"[1..] == "";
    assert Value("{}") == Rest("") && Trim("") == "";
    assert Value("") == NoMatch;
  }

  /** An accepted request that leaves the parameters of a task empty aborts. */
  lemma EmptyParametersAbort()
    ensures var item := ExampleItem("", [Edge("a", "b")]);
            IsDagRequest(item.req) && Flush(EMPTY_DATABASE, [item]).Aborted?
  {
    var item := ExampleItem("", [Edge("a", "b")]);
    ExampleIsValid("", [Edge("a", "b")]);
    hide Flush, FreshIds, ValidContext, Integrity, HasKey, IsDagRequest, DistinctIds, FitsColumns;
    ValidatedRequestCommitsIff(EMPTY_DATABASE, item);
    ExampleFits();
    assert item.req.tasks[0] == ExampleTask("a", "");
  }
}
