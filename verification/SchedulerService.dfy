/** The scheduler's handler for task reports: it drives the completion script, the write-behind batcher and
    the task rows. */
module SchedulerServices {
  import opened Graph
  import opened RedisStore
  import opened DagEngine
  import opened TaskRepositories
  import opened TaskRetries
  import opened DbBatching

  const SUCCESS := 2

  class SchedulerService {
    const redis: Redis
    const batcher: DbBatcher
    const repository: TaskRepository

    constructor (redis: Redis, batcher: DbBatcher, repository: TaskRepository)
      ensures this.redis == redis && this.batcher == batcher && this.repository == repository
    {
      this.redis, this.batcher, this.repository := redis, batcher, repository;
    }

    /** `scriptRuns`, `db` and `pushWorks` stand for the failures of EVALSHA, of the transaction and of
        XADD; `stored` is the job id that reading the row back returns, if it returns the row. */
    method UpdateTaskStatus(op: UpdateOp, job: Id, scriptRuns: bool, db: Outcome, stored: ReadBack, pushWorks: bool)
      returns (ghost order: seq<Id>)
      modifies redis, batcher, repository
      ensures op.taskId != "" && op.state == SUCCESS && scriptRuns
              ==> IsEnumeration(order, old(redis.ks).Members(op.taskId))
      ensures redis.ks == if op.taskId == "" then old(redis.ks)
                          else if op.state == SUCCESS then
                            (if scriptRuns then CompleteTask(old(redis.ks), op.taskId, job, order) else old(redis.ks))
                          else AfterReport(old(redis.ks), old(repository.rows), op.taskId, db, stored, pushWorks)
      ensures op.taskId != "" && op.state != SUCCESS ==>
                redis.ks == old(redis.ks).(tasks := old(redis.ks.tasks) +
                  if db.Works? && op.taskId in old(repository.rows)
                     && old(repository.rows)[op.taskId].retryCount < old(repository.rows)[op.taskId].maxRetry
                     && stored.Found? && pushWorks
                  then [Pointer(op.taskId, stored.job)] else [])
      ensures batcher.queue == old(batcher.queue) + if op.taskId != "" && op.state == SUCCESS then [op] else []
      ensures repository.rows == if op.taskId != "" && op.state != SUCCESS && db.TakesEffect()
                                 then AfterFailure(old(repository.rows), op.taskId) else old(repository.rows)
    {
      order := [];
      if op.taskId == "" {
        return;
      }
      if op.state == SUCCESS {
        if scriptRuns {
          var triggered;
          triggered, order := redis.RunCompletionScript(op.taskId, job);
        }
        batcher.AddStatusUpdate(op);
      } else {
        var needRetry := repository.HandleTaskFailure(op.taskId, db);
        if needRetry && stored.Found? && pushWorks {
          redis.ks := redis.ks.(tasks := redis.ks.tasks + [Pointer(op.taskId, stored.job)]);
        }
      }
    }
  }

  datatype ReadBack = Missing | Found(job: Id)

  function AfterReport(ks: Keyspace, rows: Table, t: Id, db: Outcome, stored: ReadBack, pushWorks: bool): Keyspace {
    if db.Works? && MayRetry(rows, t) && stored.Found? && pushWorks
    then ks.(tasks := ks.tasks + [Pointer(t, stored.job)]) else ks
  }

  /** The events of the system that one call amounts to. */
  ghost function EventsOf(s: System, t: Id, state: int, order: seq<Id>, scriptRuns: bool, db: Outcome,
                          stored: ReadBack, pushWorks: bool): seq<Event> {
    if t == "" then []
    else if state == SUCCESS then if scriptRuns then [EngineStep(Success(t, order))] else []
    else if !db.TakesEffect() then []
    else if !MayRetry(s.rows, t) then [FailureReport(t)]
    else [FailureReport(t), if db.Works? && stored.Found? && pushWorks then PushRetry(t) else DropRetry(t)]
  }

  ghost predicate Chain(s: System, events: seq<Event>, s': System)
    decreases |events|
  {
    if events == [] then s' == s
    else Possible(s, events[0]) && Chain(After(s, events[0]), events[1..], s')
  }

  /** Every call about a task that was handed out is a run of at most two events of the system whose work
      is bounded: script calls and row updates are exactly what the handler does, and each retry it grants
      is either pushed or dropped before it returns. */
  lemma HandlerIsEvents(s: System, t: Id, state: int, order: seq<Id>, scriptRuns: bool, db: Outcome,
                        stored: ReadBack, pushWorks: bool) returns (s': System)
    requires Pushed(s.engine, t) && s.rows.Keys == s.engine.owner.Keys
    requires state == SUCCESS && scriptRuns ==> IsEnumeration(order, s.engine.redis.Members(t))
    requires stored.Found? ==> stored.job == s.engine.owner[t]
    ensures Chain(s, EventsOf(s, t, state, order, scriptRuns, db, stored, pushWorks), s')
    ensures s'.owed == s.owed
    ensures s'.rows == if t != "" && state != SUCCESS && db.TakesEffect() then AfterFailure(s.rows, t) else s.rows
    ensures s'.engine.redis == if t == "" then s.engine.redis
                               else if state == SUCCESS then
                                 (if scriptRuns then CompleteTask(s.engine.redis, t, s.engine.owner[t],
                                   order) else s.engine.redis)
                               else AfterReport(s.engine.redis, s.rows, t, db, stored, pushWorks)
  {
    hide CompleteTask, IsEnumeration, Overtaken;
    var events := EventsOf(s, t, state, order, scriptRuns, db, stored, pushWorks);
    if events == [] {
      s' := s;
    } else if |events| == 1 {
      s' := After(s, events[0]);
      assert Chain(s', [], s') && events[1..] == [];
    } else {
      FailureThen(s, t, db.Works? && stored.Found? && pushWorks);
      s' := After(After(s, events[0]), events[1]);
      assert events[1..] == [events[1]] && events[1..][1..] == [];
      assert Chain(s', [], s');
      assert Chain(After(s, events[0]), events[1..], s');
    }
  }

  lemma FailureThen(s: System, t: Id, pushed: bool)
    requires Pushed(s.engine, t) && MayRetry(s.rows, t)
    ensures Possible(s, FailureReport(t))
    ensures var s1, e := After(s, FailureReport(t)), if pushed then PushRetry(t) else DropRetry(t);
            && s1.engine == s.engine && Possible(s1, e)
            && After(s1, e).owed == s.owed && After(s1, e).rows == AfterFailure(s.rows, t)
            && After(s1, e).engine.redis == if pushed then s.engine.redis.(tasks := s.engine.redis.tasks
               + [Pointer(t, s.engine.owner[t])])
                                            else s.engine.redis
  {
    hide AfterFailure, Pushed;
    assert s.owed + multiset{t} - multiset{t} == s.owed;
  }

  /** The handler takes the job id on trust. A report with a foreign one uses up the children set of the task
      without touching any counter of the task's own job: its children are never told. */
  lemma ForeignReportStrandsChildren(ks: Keyspace, t: Id, own: Id, foreign: Id, order: seq<Id>)
    requires IsEnumeration(order, ks.Members(t)) && own != foreign
    ensures var r := CompleteTask(ks, t, foreign, order);
            && r.Members(t) == {}
            && forall c :: r.Count(Field(own, c)) == ks.Count(Field(own, c))
                           && multiset(r.tasks)[ScriptPointer(c, own)] == multiset(ks.tasks)[ScriptPointer(c, own)]
  {
    if ks.Members(t) != {} {
      VisitAllEffect(ks, foreign, order);
      hide VisitAll, ErrorsVisited, IsEnumeration;
    }
  }

  /** Exactly when a report reaches the children: for a task that still has some, every counter of its own job
      that belongs to a child drops by one if and only if the report carries that job's id. */
  lemma ReportReachesChildrenIff(ks: Keyspace, t: Id, own: Id, job: Id, order: seq<Id>)
    requires IsEnumeration(order, ks.Members(t)) && ks.Members(t) != {}
    ensures var r := CompleteTask(ks, t, job, order);
            (forall c | c in ks.Members(t) :: r.Count(Field(own, c)) == ks.Count(Field(own, c)) - 1) <==> job == own
  {
    var r := CompleteTask(ks, t, job, order);
    if job == own {
      VisitAllEffect(ks, job, order);
      CountAfterVisits(ks, VisitAll(ks, job, order), job, order);
    } else {
      ForeignReportStrandsChildren(ks, t, own, job, order);
      var c :| c in ks.Members(t);
      assert r.Count(Field(own, c)) == ks.Count(Field(own, c));
    }
  }

  lemma CountAfterVisits(ks: Keyspace, after: Keyspace, job: Id, order: seq<Id>)
    requires VisitEffect(ks, after, job, order)
    ensures forall c | c in order :: after.Count(Field(job, c)) == ks.Count(Field(job, c)) - 1
  {
    hide ErrorsVisited, Pushes;
  }
}
