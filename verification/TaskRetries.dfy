/** Failure handling together with the DAG engine: how much work one task can cause. */
module TaskRetries {
  import opened Graph
  import opened RedisStore
  import opened DagEngine
  import opened EngineInvariant
  import opened TaskRepositories

  /** `owed` are retries granted by the database and not yet pushed to the stream, `dropped` those whose
      push failed (the row could not be read back, or XADD failed). */
  datatype System = System(engine: State, rows: Table, owed: multiset<Id>, dropped: multiset<Id>)

  datatype RowUpdate =
    | ToRunning(task: Id, worker: string)
    | Revert(task: Id)
    | Requeue(dead: string)
    | Status(task: Id, state: int, worker: string)

  datatype Event =
    | SubmitJob(job: Id, dag: Job, limits: map<Id, nat>)
    | EngineStep(action: Action)
    | FailureReport(task: Id)
    | PushRetry(task: Id)
    | DropRetry(task: Id)
    | UpdateRow(update: RowUpdate)

  const START := System(INITIAL, map[], multiset{}, multiset{})

  function Apply(rows: Table, u: RowUpdate): Table {
    match u
    case ToRunning(t, w) => AfterRunning(rows, t, w)
    case Revert(t) => AfterRevert(rows, t)
    case Requeue(w) => AfterRequeue(rows, w)
    case Status(t, st, w) => AfterStatus(rows, t, st, w)
  }

  ghost predicate Possible(s: System, e: Event) {
    match e
    case SubmitJob(j, d, limits) => Enabled(s.engine, Submit(j, d)) && limits.Keys == set t | t in d.tasks
    case EngineStep(a) => (a.Send? || a.Success?) && Enabled(s.engine, a)
    case FailureReport(t) => Pushed(s.engine, t)
    case PushRetry(t) => s.owed[t] > 0 && Pushed(s.engine, t)
    case DropRetry(t) => s.owed[t] > 0
    case UpdateRow(_) => true
  }

  ghost function After(s: System, e: Event): System
    requires Possible(s, e)
  {
    match e
    case SubmitJob(j, d, limits) =>
      s.(engine := Next(s.engine, Submit(j, d)),
         rows := s.rows + map t | t in d.tasks :: Row(PENDING, 0, if t in limits then limits[t] else 0, NoWorker))
    case EngineStep(a) => s.(engine := Next(s.engine, a))
    case FailureReport(t) =>
      s.(rows := AfterFailure(s.rows, t), owed := if MayRetry(s.rows, t) then s.owed + multiset{t} else s.owed)
    case PushRetry(t) => s.(engine := Next(s.engine, Retry(t)), owed := s.owed - multiset{t})
    case DropRetry(t) => s.(owed := s.owed - multiset{t}, dropped := s.dropped + multiset{t})
    case UpdateRow(u) => s.(rows := Apply(s.rows, u))
  }

  /** Retries are conserved: each one the database granted is pushed, owed or dropped. */
  ghost predicate RetriesConserved(s: System) {
    && s.rows.Keys == s.engine.owner.Keys
    && (forall t | t in s.rows :: s.rows[t].retryCount <= s.rows[t].maxRetry)
    && (forall t | t in s.rows :: s.engine.retries[t] + s.owed[t] + s.dropped[t] == s.rows[t].retryCount)
    && (forall t | t !in s.rows :: s.owed[t] == 0 && s.dropped[t] == 0)
  }

  ghost predicate SystemInv(s: System) {
    Inv(s.engine) && RetriesConserved(s)
  }

  lemma SubmitView(s: State, j: Id, d: Job)
    requires Enabled(s, Submit(j, d))
    ensures Next(s, Submit(j, d)).owner == s.owner + (map t | t in d.tasks :: j)
    ensures Next(s, Submit(j, d)).retries == s.retries
    ensures forall t | t in d.tasks :: t !in s.owner
  {
    hide WellFormed;
  }

  lemma NewRowsConserve(s: System, s': System, j: Id, tasks: seq<Id>, limits: map<Id, nat>)
    requires RetriesConserved(s) && forall t | t in tasks :: t !in s.engine.owner && s.engine.retries[t] == 0
    requires s'.engine.owner == s.engine.owner + (map t | t in tasks :: j) && s'.engine.retries == s.engine.retries
    requires s'.rows == s.rows + map t | t in tasks :: Row(PENDING, 0, if t in limits then limits[t] else 0, NoWorker)
    requires s'.owed == s.owed && s'.dropped == s.dropped
    ensures RetriesConserved(s')
  {
    assert s'.engine.owner.Keys == s.engine.owner.Keys + set t | t in tasks;
    assert s'.rows.Keys == s.rows.Keys + set t | t in tasks;
  }

  lemma SubmitConserves(s: System, j: Id, d: Job, limits: map<Id, nat>)
    requires SystemInv(s) && Possible(s, SubmitJob(j, d, limits))
    ensures RetriesConserved(After(s, SubmitJob(j, d, limits)))
  {
    SubmitView(s.engine, j, d) by { hide Inv, RetriesConserved; }
    hide Structure, History, TaskForm, Enabled, Next, RetriesConserved;
    assert forall t | t in d.tasks :: s.engine.retries[t] == 0;
    hide Inv;
    NewRowsConserve(s, After(s, SubmitJob(j, d, limits)), j, d.tasks, limits);
  }

  lemma EngineStepConserves(s: System, a: Action)
    requires SystemInv(s) && Possible(s, EngineStep(a))
    ensures RetriesConserved(After(s, EngineStep(a)))
  {
    hide Inv, CompleteTask, Execute, CommandAt, Overtaken, Pushed, IsEnumeration;
  }

  lemma RowUpdateConserves(s: System, u: RowUpdate)
    requires RetriesConserved(s)
    ensures RetriesConserved(s.(rows := Apply(s.rows, u)))
  {
  }

  lemma RetryConserves(s: System, e: Event)
    requires RetriesConserved(s) && Possible(s, e) && (e.FailureReport? || e.PushRetry? || e.DropRetry?)
    ensures RetriesConserved(After(s, e))
  {
    if e.PushRetry? { RetryView(s.engine, e.task); }
    hide Next, Enabled, Pushed;
    match e {
      case FailureReport(t) => FailureConserves(s, t);
      case PushRetry(t) => PushConserves(s, After(s, e), t);
      case DropRetry(t) => DropConserves(s, t);
    }
  }

  lemma RetryView(s: State, t: Id)
    requires Enabled(s, Retry(t))
    ensures Next(s, Retry(t)).retries == s.retries + multiset{t} && Next(s, Retry(t)).owner == s.owner
  {
    hide Pushed;
  }

  lemma FailureConserves(s: System, t: Id)
    requires RetriesConserved(s)
    ensures RetriesConserved(s.(rows := AfterFailure(s.rows, t),
                                owed := if MayRetry(s.rows, t) then s.owed + multiset{t} else s.owed))
  {
    FailureView(s.rows, t);
    hide AfterFailure, MayRetry;
  }

  lemma FailureView(rows: Table, t: Id)
    ensures var rows' := AfterFailure(rows, t);
            && rows'.Keys == rows.Keys
            && (forall u | u in rows :: rows'[u].maxRetry == rows[u].maxRetry)
            && (forall u | u in rows ::
                  rows'[u].retryCount == rows[u].retryCount + if u == t && MayRetry(rows, t) then 1 else 0)
            && (MayRetry(rows, t) ==> t in rows && rows'[t].retryCount <= rows[t].maxRetry)
  {
  }

  lemma PushConserves(s: System, s': System, t: Id)
    requires RetriesConserved(s) && s.owed[t] > 0
    requires s'.engine.retries == s.engine.retries + multiset{t} && s'.engine.owner == s.engine.owner
    requires s'.owed == s.owed - multiset{t} && s'.rows == s.rows && s'.dropped == s.dropped
    ensures RetriesConserved(s')
  {
  }

  lemma DropConserves(s: System, t: Id)
    requires RetriesConserved(s) && s.owed[t] > 0
    ensures RetriesConserved(s.(owed := s.owed - multiset{t}, dropped := s.dropped + multiset{t}))
  {
  }

  lemma EventKeepsInv(s: System, e: Event)
    requires SystemInv(s) && Possible(s, e)
    ensures SystemInv(After(s, e))
  {
    hide Inv, RetriesConserved, Enabled, Next, Pushed;
    match e
    case SubmitJob(j, d, limits) =>
      SubmitConserves(s, j, d, limits);
      StepKeepsInv(s.engine, Submit(j, d));
    case EngineStep(a) =>
      EngineStepConserves(s, a);
      StepKeepsInv(s.engine, a);
    case FailureReport(t) => RetryConserves(s, e);
    case PushRetry(t) =>
      RetryConserves(s, e);
      assert Enabled(s.engine, Retry(t)) by { RetryEnabled(s.engine, t); }
      StepKeepsInv(s.engine, Retry(t));
    case DropRetry(t) => RetryConserves(s, e);
    case UpdateRow(u) => RowUpdateConserves(s, u);
  }

  lemma RetryEnabled(s: State, t: Id)
    requires Pushed(s, t)
    ensures Enabled(s, Retry(t))
  {
  }

  ghost predicate IsHistory(run: seq<System>, events: seq<Event>) {
    && |run| == |events| + 1 && run[0] == START
    && forall i | 0 <= i < |events| :: Happens(run[i], events[i], run[i + 1])
  }

  ghost predicate Happens(s: System, e: Event, s': System) {
    Possible(s, e) && s' == After(s, e)
  }

  lemma {:induction false} HistoriesKeepInv(run: seq<System>, events: seq<Event>, i: nat)
    requires IsHistory(run, events) && i < |run|
    ensures SystemInv(run[i])
  {
    hide SystemInv, Possible, After;
    if i == 0 {
      assert SystemInv(START) by { InitialInv(); StartConserves(); SystemInvOf(START); }
    } else {
      HistoriesKeepInv(run, events, i - 1);
      assert Happens(run[i - 1], events[i - 1], run[i - 1 + 1]);
      EventKeepsInv(run[i - 1], events[i - 1]);
    }
  }

  lemma StartConserves()
    ensures RetriesConserved(START)
  {
  }

  lemma SystemInvOf(s: System)
    requires Inv(s.engine) && RetriesConserved(s)
    ensures SystemInv(s)
  {
  }

  /** How many of the first i events are failure reports of the task. */
  function Failures(events: seq<Event>, t: Id, i: nat): nat
    requires i <= |events|
  {
    if i == 0 then 0 else Failures(events, t, i - 1) + if events[i - 1] == FailureReport(t) then 1 else 0
  }

  /** The number of retries that m reports get from a limit of n. */
  function Granted(m: nat, n: nat): nat {
    if m < n then m else n
  }

  /** What an event that is no failure report does to the row of a task. */
  ghost predicate RowStays(rows: Table, rows': Table, t: Id) {
    if t in rows then t in rows' && rows'[t].maxRetry == rows[t].maxRetry && rows'[t].retryCount == rows[t].retryCount
    else t in rows' ==> rows'[t].retryCount == 0
  }

  lemma SubmitKeepsRows(s: System, j: Id, d: Job, limits: map<Id, nat>, t: Id)
    requires SystemInv(s) && Possible(s, SubmitJob(j, d, limits))
    ensures RowStays(s.rows, After(s, SubmitJob(j, d, limits)).rows, t)
  {
    NewRowsAreNew(s, j, d, limits);
    hide SystemInv, Next, Enabled;
  }

  lemma NewRowsAreNew(s: System, j: Id, d: Job, limits: map<Id, nat>)
    requires SystemInv(s) && Possible(s, SubmitJob(j, d, limits))
    ensures forall t | t in d.tasks :: t !in s.rows
  {
    hide Inv, Next, Enabled;
    SubmitView(s.engine, j, d);
  }

  lemma UpdateKeepsRows(rows: Table, u: RowUpdate, t: Id)
    ensures RowStays(rows, Apply(rows, u), t)
  {
  }

  lemma OthersKeepRow(s: System, e: Event, t: Id)
    requires SystemInv(s) && Possible(s, e) && !e.FailureReport?
    ensures RowStays(s.rows, After(s, e).rows, t)
  {
    hide SystemInv, Next, Enabled, Pushed, RowStays, Apply;
    match e {
      case SubmitJob(j, d, limits) => SubmitKeepsRows(s, j, d, limits, t);
      case UpdateRow(u) => UpdateKeepsRows(s.rows, u, t);
      case _ => SameRowStays(s.rows, t);
    }
  }

  lemma SameRowStays(rows: Table, t: Id)
    ensures RowStays(rows, rows, t)
  {
  }

  lemma NoFailuresWithoutRow(s: System, t: Id)
    requires SystemInv(s) && Possible(s, FailureReport(t))
    ensures t in s.rows
  {
    hide Inv;
  }

  /** Whatever happens in between, the retry count of a task is the number of its failure reports, up to its
      limit; a task without a row has had none. */
  lemma {:induction false} RetriesAreExact(run: seq<System>, events: seq<Event>, t: Id, i: nat)
    requires IsHistory(run, events) && i <= |events|
    ensures t in run[i].rows ==>
              run[i].rows[t].retryCount == Granted(Failures(events, t, i), run[i].rows[t].maxRetry)
    ensures t !in run[i].rows ==> Failures(events, t, i) == 0
  {
    hide SystemInv, Possible, After;
    if i > 0 {
      RetriesAreExact(run, events, t, i - 1);
      HistoriesKeepInv(run, events, i - 1);
      assert Happens(run[i - 1], events[i - 1], run[i - 1 + 1]);
      CountStep(run[i - 1], events[i - 1], t, Failures(events, t, i - 1));
    }
  }

  lemma CountStep(s: System, e: Event, t: Id, m: nat)
    requires SystemInv(s) && Possible(s, e)
    requires if t in s.rows then s.rows[t].retryCount == Granted(m, s.rows[t].maxRetry) else m == 0
    ensures var rows', m' := After(s, e).rows, m + if e == FailureReport(t) then 1 else 0;
            if t in rows' then rows'[t].retryCount == Granted(m', rows'[t].maxRetry) else m' == 0
  {
    hide SystemInv, Possible, After;
    if e.FailureReport? {
      if e.task == t { NoFailuresWithoutRow(s, t); }
      FailureRows(s, e.task);
      CountRises(s.rows, e.task, t, m);
    } else {
      OthersKeepRow(s, e, t);
    }
  }

  lemma FailureRows(s: System, u: Id)
    requires Possible(s, FailureReport(u))
    ensures After(s, FailureReport(u)).rows == AfterFailure(s.rows, u)
  {
    hide Pushed, AfterFailure;
  }

  lemma CountRises(rows: Table, u: Id, t: Id, m: nat)
    requires if t in rows then rows[t].retryCount == Granted(m, rows[t].maxRetry) else m == 0 && u != t
    ensures var rows', m' := AfterFailure(rows, u), m + if u == t then 1 else 0;
            if t in rows' then rows'[t].retryCount == Granted(m', rows'[t].maxRetry) else m' == 0
  {
  }

  /** The limit of a task is the one it was submitted with. */
  lemma {:induction false} LimitsAreSubmitted(run: seq<System>, events: seq<Event>, t: Id, i: nat) returns (k: nat)
    requires IsHistory(run, events) && i <= |events| && t in run[i].rows
    ensures k < i && events[k].SubmitJob? && t in events[k].dag.tasks && t in events[k].limits
    ensures run[i].rows[t].maxRetry == events[k].limits[t]
  {
    hide SystemInv, Possible, After;
    assert i > 0;
    HistoriesKeepInv(run, events, i - 1);
    assert Happens(run[i - 1], events[i - 1], run[i - 1 + 1]);
    if t in run[i - 1].rows {
      k := LimitsAreSubmitted(run, events, t, i - 1);
      hide IsHistory;
      LimitStays(run[i - 1], events[i - 1], t);
    } else {
      k := i - 1;
      hide IsHistory;
      LimitIsSet(run[i - 1], events[i - 1], t);
    }
  }

  lemma LimitStays(s: System, e: Event, t: Id)
    requires SystemInv(s) && Possible(s, e) && t in s.rows
    ensures t in After(s, e).rows && After(s, e).rows[t].maxRetry == s.rows[t].maxRetry
  {
    hide SystemInv;
    if e.FailureReport? {
      FailureRows(s, e.task);
      hide Possible, After;
      FailureView(s.rows, e.task);
    } else {
      OthersKeepRow(s, e, t);
    }
  }

  lemma LimitIsSet(s: System, e: Event, t: Id)
    requires SystemInv(s) && Possible(s, e) && t !in s.rows && t in After(s, e).rows
    ensures e.SubmitJob? && t in e.dag.tasks && t in e.limits && After(s, e).rows[t].maxRetry == e.limits[t]
  {
    hide SystemInv, Enabled, Next, Pushed;
  }

  /** A report decides by the reports before it: within the limit it resets the row and grants a retry, beyond it
      marks the task FAILED and grants nothing. */
  lemma FailureDecides(run: seq<System>, events: seq<Event>, t: Id, i: nat)
    requires IsHistory(run, events) && i < |events| && events[i] == FailureReport(t)
    ensures t in run[i].rows && t in run[i + 1].rows
    ensures var m, row, row' := Failures(events, t, i), run[i].rows[t], run[i + 1].rows[t];
            if m < row.maxRetry
            then row' == Row(PENDING, m + 1, row.maxRetry, NoWorker)
                 && run[i + 1].owed[t] == run[i].owed[t] + 1
            else row' == Row(FAILED, row.maxRetry, row.maxRetry, row.worker)
                 && run[i + 1].owed[t] == run[i].owed[t]
  {
    hide SystemInv;
    RetriesAreExact(run, events, t, i);
    HistoriesKeepInv(run, events, i);
    assert Happens(run[i], events[i], run[i + 1]);
    NoFailuresWithoutRow(run[i], t);
  }

  /** All stream entries ever added for a task. */
  function Entries(s: System, t: Id): nat {
    if t !in s.engine.owner then 0 else
    multiset(s.engine.redis.tasks)[Pointer(t, s.engine.owner[t])] + multiset(s.engine.redis.tasks)[ScriptPointer(t,
      s.engine.owner[t])]
  }

  /** Bounded work: whatever is reported, repeated, reverted or requeued, in any order, a task enters the
      stream once when it is released and once for each retry the database granted and the push did not
      lose, and never more than 1 + max_retry times. */
  lemma BoundedWork(run: seq<System>, events: seq<Event>, t: Id)
    requires IsHistory(run, events) && t in run[|events|].rows
    ensures var s := run[|events|];
            && s.rows[t].retryCount <= s.rows[t].maxRetry
            && Entries(s, t) + s.owed[t] + s.dropped[t] == s.rows[t].retryCount + (if Released(s.engine,
               t) then 1 else 0)
            && Entries(s, t) <= 1 + s.rows[t].maxRetry
  {
    var s := run[|events|];
    HistoriesKeepInv(run, events, |events|);
    assert t in s.engine.owner && TaskForm(s.engine, t) by { hide Structure, History, ClosedForm, HistoryOf, KeysOf; }
    hide IsHistory, Inv, Parents, Children, Linked, Started, Described;
    EntriesOfForm(HistoryOf(s.engine, t), KeysOf(s.engine.redis, s.engine.owner[t], t));
  }

  lemma EntriesOfForm(h: TaskHistory, k: TaskKeys)
    requires ClosedForm(h, k)
    ensures k.pointers + k.scriptPointers == h.retries + if h.Released() then 1 else 0
  {
  }
}
