/** The scheduler's view of the task table: each method is one transaction on the rows. */
module TaskRepositories {
  import opened Graph

  datatype Worker = NoWorker | Worker(id: string)

  datatype Row = Row(state: int, retryCount: nat, maxRetry: nat, worker: Worker)

  const PENDING := 0
  const RUNNING := 1
  const FAILED := 3

  type Table = map<Id, Row>

  /** How a transaction ends: a failing commit may or may not have taken effect. */
  datatype Outcome = Works | Fails | CommitFails | AnswerLost
  {
    predicate TakesEffect() { Works? || AnswerLost? }
  }

  /** A failed task is retried as long as its retry count is below the limit. */
  predicate MayRetry(rows: Table, t: Id) {
    t in rows && rows[t].retryCount < rows[t].maxRetry
  }

  function AfterFailure(rows: Table, t: Id): Table {
    if t !in rows then rows
    else if MayRetry(rows, t) then
      rows[t := rows[t].(state := PENDING, retryCount := rows[t].retryCount + 1, worker := NoWorker)]
    else rows[t := rows[t].(state := FAILED)]
  }

  function AfterRunning(rows: Table, t: Id, worker: string): Table {
    if t in rows && rows[t].state == PENDING then rows[t := rows[t].(state := RUNNING,
      worker := Worker(worker))] else rows
  }

  function AfterRevert(rows: Table, t: Id): Table {
    if t in rows then rows[t := rows[t].(state := PENDING, worker := NoWorker)] else rows
  }

  predicate IsOrphan(row: Row, dead: string) {
    row.worker == Worker(dead) && row.state == RUNNING
  }

  function AfterRequeue(rows: Table, dead: string): Table {
    map t | t in rows :: if IsOrphan(rows[t], dead) then rows[t].(state := PENDING, worker := NoWorker) else rows[t]
  }

  /** One line of the batched status update. */
  function AfterStatus(rows: Table, t: Id, state: int, worker: string): Table {
    if t in rows then rows[t := rows[t].(state := state, worker := Worker(worker))] else rows
  }

  /** Only a task that waits can be claimed, so of two claims the second changes nothing. */
  lemma ClaimedOnce(rows: Table, t: Id, first: string, second: string)
    requires t in rows && rows[t].state == PENDING
    ensures var claimed := AfterRunning(rows, t, first);
            && claimed[t].worker == Worker(first) && claimed[t].retryCount == rows[t].retryCount
            && AfterRunning(claimed, t, second) == claimed
  {
  }

  /** The death of the worker, or a dispatch that fails, undoes a claim; other workers' deaths do not touch it. */
  lemma ClaimIsUndone(rows: Table, t: Id, worker: string, other: string)
    requires t in rows && rows[t].state == PENDING && rows[t].worker == NoWorker
    requires forall u | u in rows :: !IsOrphan(rows[u], worker) && !IsOrphan(rows[u], other)
    ensures var claimed := AfterRunning(rows, t, worker);
            && claimed != rows && AfterRequeue(claimed, worker) == rows && AfterRevert(claimed, t) == rows
            && (other != worker ==> AfterRequeue(claimed, other) == claimed)
  {
    var claimed := AfterRunning(rows, t, worker);
    assert claimed[t].state == RUNNING;
    forall u | u in rows ensures AfterRequeue(claimed, worker)[u] == rows[u] { }
  }

  /** How many of the first i reports had an effect, whatever the caller was told. */
  function Effective(reports: seq<Outcome>, i: nat): nat
    requires i <= |reports|
  {
    if i == 0 then 0 else
    Effective(reports, i - 1) + if reports[i - 1].Works? || reports[i - 1].AnswerLost? then 1 else 0
  }

  /** The retry count after k effective reports. */
  function CountAfter(row: Row, k: nat): nat {
    if row.retryCount + k <= row.maxRetry then row.retryCount + k
    else if row.retryCount <= row.maxRetry then row.maxRetry
    else row.retryCount
  }

  class TaskRepository {
    var rows: Table

    constructor (initial: Table)
      ensures rows == initial
    {
      rows := initial;
    }

    /** When the transaction throws, even after taking effect, the caller sees "do not retry". */
    method HandleTaskFailure(t: Id, db: Outcome) returns (retrying: bool)
      modifies this
      ensures retrying <==> db.Works? && MayRetry(old(rows), t)
      ensures rows == if db.TakesEffect() then AfterFailure(old(rows), t) else old(rows)
    {
      if !db.TakesEffect() || t !in rows {
        return false;
      }
      var currentRetry, maxRetry := rows[t].retryCount, rows[t].maxRetry;
      if currentRetry < maxRetry {
        rows := rows[t := rows[t].(state := PENDING, retryCount := currentRetry + 1, worker := NoWorker)];
        retrying := db.Works?;
      } else {
        rows := rows[t := rows[t].(state := FAILED)];
        retrying := false;
      }
    }

    /** A row that is reported failed again and again: exactly the first reports are answered with "retry" and
        reset it, as many as its limit leaves; every later one marks it FAILED for good. `seen` is the row after
        each report. */
    method ReportFailures(t: Id, reports: seq<Outcome>) returns (answers: seq<bool>, seen: seq<Row>)
      requires t in rows
      modifies this
      ensures |answers| == |seen| == |reports| && t in rows
      ensures forall i | 0 <= i < |reports| ::
                answers[i] <==> reports[i].Works?
                                && old(rows[t].retryCount) + Effective(reports, i) < old(rows[t].maxRetry)
      ensures forall i | 0 <= i < |reports| ::
                && seen[i].maxRetry == old(rows[t].maxRetry)
                && seen[i].retryCount == CountAfter(old(rows[t]), Effective(reports, i + 1))
                && (reports[i].Works? || reports[i].AnswerLost? ==>
                      if old(rows[t].retryCount) + Effective(reports, i) < old(rows[t].maxRetry)
                      then seen[i].state == PENDING && seen[i].worker == NoWorker
                      else seen[i].state == FAILED)
    {
      answers, seen := [], [];
      ghost var row := rows[t];
      for i := 0 to |reports|
        invariant |answers| == |seen| == i && t in rows
        invariant rows[t].maxRetry == row.maxRetry && rows[t].retryCount == CountAfter(row, Effective(reports, i))
        invariant forall k | 0 <= k < i ::
                    answers[k] <==> reports[k].Works? && row.retryCount + Effective(reports, k) < row.maxRetry
        invariant forall k | 0 <= k < i ::
                    && seen[k].maxRetry == row.maxRetry
                    && seen[k].retryCount == CountAfter(row, Effective(reports, k + 1))
                    && (reports[k].Works? || reports[k].AnswerLost? ==>
                          if row.retryCount + Effective(reports, k) < row.maxRetry
                          then seen[k].state == PENDING && seen[k].worker == NoWorker
                          else seen[k].state == FAILED)
      {
        var retrying := HandleTaskFailure(t, reports[i]);
        answers := answers + [retrying];
        seen := seen + [rows[t]];
      }
    }

    /** Optimistic lock: succeeds only on a PENDING row. The answer is computed before the commit, so a
        failing commit leaves it standing although nothing may have changed. */
    method UpdateTaskToRunning(t: Id, worker: string, db: Outcome) returns (updated: bool)
      modifies this
      ensures updated <==> !db.Fails? && t in old(rows) && old(rows)[t].state == PENDING
      ensures rows == if db.TakesEffect() then AfterRunning(old(rows), t, worker) else old(rows)
    {
      updated := !db.Fails? && t in rows && rows[t].state == PENDING;
      if updated && db.TakesEffect() {
        rows := rows[t := rows[t].(state := RUNNING, worker := Worker(worker))];
      }
    }

    method RevertTaskToPending(t: Id, db: Outcome) returns (ok: bool)
      modifies this
      ensures ok == db.Works?
      ensures rows == if db.TakesEffect() then AfterRevert(old(rows), t) else old(rows)
    {
      ok := db.Works?;
      if db.TakesEffect() && t in rows {
        rows := rows[t := rows[t].(state := PENDING, worker := NoWorker)];
      }
    }

    method RequeueOrphanedTasks(dead: string, db: Outcome) returns (count: nat)
      modifies this
      ensures rows == if db.TakesEffect() then AfterRequeue(old(rows), dead) else old(rows)
      ensures count == if db.Fails? then 0 else |set t | t in old(rows) && IsOrphan(old(rows)[t], dead)|
      ensures db.TakesEffect() ==> forall t | t in rows :: !IsOrphan(rows[t], dead)
    {
      if db.Fails? {
        return 0;
      }
      var orphans := set t | t in rows && IsOrphan(rows[t], dead);
      count := |orphans|;
      if db.TakesEffect() {
        rows := map t | t in rows :: if t in orphans then rows[t].(state := PENDING, worker := NoWorker) else rows[t];
      }
    }
  }
}
