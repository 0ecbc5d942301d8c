/** The fixed thread pool: a locked queue, any number of worker threads, and a destructor that joins them. */
module ThreadPools {
  import opened Graph

  datatype Fetched = Task(id: Id) | ExitThread

  /** The shared state behind the pool's mutex, with the source's critical sections. */
  class ThreadPool {
    var tasks: seq<Id>
    var stop: bool

    constructor ()
      ensures tasks == [] && !stop
    {
      tasks, stop := [], false;
    }

    /** Throws on a stopped pool. */
    method Enqueue(task: Id) returns (accepted: bool)
      modifies this
      ensures accepted == !old(stop) && stop == old(stop)
      ensures tasks == if accepted then old(tasks) + [task] else old(tasks)
    {
      if stop {
        return false;
      }
      tasks := tasks + [task];
      return true;
    }

    /** The worker's critical section, entered once the wait condition holds. */
    method Fetch() returns (r: Fetched)
      requires stop || tasks != []
      modifies this
      ensures stop == old(stop)
      ensures r == if old(tasks) == [] then ExitThread else Task(old(tasks)[0])
      ensures tasks == if old(tasks) == [] then [] else old(tasks)[1..]
    {
      if stop && tasks == [] {
        return ExitThread;
      }
      r := Task(tasks[0]);
      tasks := tasks[1..];
    }

    method RequestStop()
      modifies this
      ensures stop && tasks == old(tasks)
    {
      stop := true;
    }
  }

  /** A pool with its worker threads: `accepted` and `started` record the tasks in order, `running` maps a
      busy thread to the position of its task in `started`, `finished` holds the positions that are done,
      `exited` the threads that have returned. */
  datatype Pool = Pool(tasks: seq<Id>, stop: bool, running: map<nat, nat>, exited: set<nat>,
                       accepted: seq<Id>, started: seq<Id>, finished: set<nat>)

  const EMPTY_POOL := Pool([], false, map[], {}, [], [], {})

  datatype Action = Enqueue(task: Id) | Fetch(worker: nat) | Finish(worker: nat) | RequestStop

  predicate Enabled(p: Pool, a: Action) {
    match a
    case Enqueue(_) => true
    case Fetch(w) => w !in p.running && w !in p.exited && (p.stop || p.tasks != [])
    case Finish(w) => w in p.running
    case RequestStop => true
  }

  function Next(p: Pool, a: Action): Pool {
    match a
    case Enqueue(t) => if p.stop then p else p.(tasks := p.tasks + [t], accepted := p.accepted + [t])
    case Fetch(w) =>
      if p.tasks == [] then p.(exited := p.exited + {w})
      else p.(tasks := p.tasks[1..], running := p.running[w := |p.started|], started := p.started + [p.tasks[0]])
    case Finish(w) =>
      if w !in p.running then p
      else p.(running := p.running - {w}, finished := p.finished + {p.running[w]})
    case RequestStop => p.(stop := true)
  }

  /** Tasks start in the order they were accepted; every started task is on exactly one thread or was
      finished by one; a thread has only exited from a stopped, empty pool. */
  ghost predicate Inv(p: Pool) {
    && p.accepted == p.started + p.tasks
    && (forall i | 0 <= i < |p.started| :: i in p.finished || i in p.running.Values)
    && (forall i | i in p.finished :: i < |p.started| && i !in p.running.Values)
    && (forall v, w | v in p.running && w in p.running && p.running[v] == p.running[w] :: v == w)
    && (forall w | w in p.running :: p.running[w] < |p.started| && w !in p.exited)
    && (p.exited != {} ==> p.stop && p.tasks == [])
  }

  lemma FetchKeepsInv(p: Pool, w: nat)
    requires Inv(p) && Enabled(p, Fetch(w)) && p.tasks != []
    ensures Inv(Next(p, Fetch(w)))
  {
    var p' := Next(p, Fetch(w));
    assert forall i :: i in p'.running.Values <==> i in p.running.Values || i == |p.started| by {
      assert p'.running[w] == |p.started|;
      assert forall v | v in p.running :: v in p'.running && p'.running[v] == p.running[v];
    }
  }

  lemma FinishKeepsInv(p: Pool, w: nat)
    requires Inv(p) && Enabled(p, Finish(w))
    ensures Inv(Next(p, Finish(w)))
  {
    var p' := Next(p, Finish(w));
    assert forall i :: i in p'.running.Values <==> i in p.running.Values && i != p.running[w] by {
      assert forall v | v in p.running && v != w :: v in p'.running && p'.running[v] == p.running[v];
    }
  }

  lemma StepKeepsInv(p: Pool, a: Action)
    requires Inv(p) && Enabled(p, a)
    ensures Inv(Next(p, a))
  {
    match a {
      case Fetch(w) => if p.tasks != [] { FetchKeepsInv(p, w); }
      case Finish(w) => FinishKeepsInv(p, w);
      case _ =>
    }
  }

  ghost predicate Step(p: Pool, a: Action, p': Pool) {
    Enabled(p, a) && p' == Next(p, a)
  }

  ghost predicate IsRun(run: seq<Pool>, actions: seq<Action>) {
    && |run| == |actions| + 1 && run[0] == EMPTY_POOL
    && forall i | 0 <= i < |actions| :: Step(run[i], actions[i], run[i + 1])
  }

  lemma {:induction false} RunsKeepInv(run: seq<Pool>, actions: seq<Action>, i: nat)
    requires IsRun(run, actions) && i < |run|
    ensures Inv(run[i])
  {
    if i > 0 {
      RunsKeepInv(run, actions, i - 1);
      assert Step(run[i - 1], actions[i - 1], run[i - 1 + 1]);
      hide Inv, Next, Enabled;
      StepKeepsInv(run[i - 1], actions[i - 1]);
    }
  }

  predicate StopRequested(actions: seq<Action>, i: nat)
    requires i <= |actions|
  {
    exists k :: 0 <= k < i && actions[k].RequestStop?
  }

  /** The tasks handed to the pool by the first i actions while nobody had asked it to stop. */
  function HandedIn(actions: seq<Action>, i: nat): seq<Id>
    requires i <= |actions|
  {
    if i == 0 then [] else
    var a := actions[i - 1];
    HandedIn(actions, i - 1) + if a.Enqueue? && !StopRequested(actions, i - 1) then [a.task] else []
  }

  /** Exactly the tasks handed in before the first stop request are accepted, in this order. */
  lemma {:induction false} AcceptedUntilStop(run: seq<Pool>, actions: seq<Action>, i: nat)
    requires IsRun(run, actions) && i <= |actions|
    ensures run[i].accepted == HandedIn(actions, i)
    ensures run[i].stop <==> StopRequested(actions, i)
  {
    if i > 0 {
      AcceptedUntilStop(run, actions, i - 1);
      assert Step(run[i - 1], actions[i - 1], run[i - 1 + 1]);
    }
  }

  /** After the destructor has joined its n >= 1 threads, exactly the accepted tasks have been executed,
      each once, and nothing is left behind. */
  lemma JoinedPoolIsDrained(run: seq<Pool>, actions: seq<Action>, n: nat)
    requires IsRun(run, actions) && n >= 1
    requires forall w | w in run[|actions|].running :: w < n
    requires forall w | 0 <= w < n :: w in run[|actions|].exited
    ensures var p := run[|actions|];
            && p.tasks == [] && p.started == p.accepted
            && forall i: nat :: i in p.finished <==> i < |p.accepted|
  {
    var p := run[|actions|];
    RunsKeepInv(run, actions, |actions|);
    assert 0 in p.exited;
    assert p.running == map[];
  }

  /** A position is finished at most once: it is never running again. */
  lemma FinishedOnce(p: Pool, w: nat)
    requires Inv(p) && Enabled(p, Finish(w))
    ensures p.running[w] !in p.finished && Next(p, Finish(w)).finished == p.finished + {p.running[w]}
  {
  }

  ghost predicate Playable(p: Pool, actions: seq<Action>)
    decreases |actions|
  {
    actions == [] || (Enabled(p, actions[0]) && Playable(Next(p, actions[0]), actions[1..]))
  }

  function Played(p: Pool, actions: seq<Action>): Pool
    decreases |actions|
  {
    if actions == [] then p else Played(Next(p, actions[0]), actions[1..])
  }

  /** As long as one thread w is left, the pool can finish everything it has accepted, and the thread can then leave a
      stopped pool. */
  lemma {:induction false} EverythingCanFinish(p: Pool, w: nat) returns (actions: seq<Action>)
    requires Inv(p) && w !in p.exited
    ensures var p' := Played(p, actions);
            && Playable(p, actions) && p'.accepted == p.accepted && p'.tasks == [] && p'.running == map[]
            && (forall i: nat :: i in p'.finished <==> i < |p.accepted|)
            && (p.stop ==> w in p'.exited)
    decreases |p.tasks|, |p.running|, if p.stop then 1 else 0
  {
    if p.running == map[] && p.tasks == [] && !p.stop {
      actions := [];
    } else if p.running == map[] && p.tasks == [] {
      actions := [Fetch(w)];
      assert Played(p, actions) == Next(p, Fetch(w));
    } else {
      var a := Fetch(w);
      if t :| t in p.running {
        a := Finish(t);
        assert (p.running - {t}).Keys == p.running.Keys - {t};
      }
      StepKeepsInv(p, a);
      var more := EverythingCanFinish(Next(p, a), w);
      actions := [a] + more;
      assert actions[1..] == more;
    }
  }

  /** Tasks start in FIFO order at every moment. */
  lemma StartsInOrder(run: seq<Pool>, actions: seq<Action>, i: nat)
    requires IsRun(run, actions) && i < |run|
    ensures run[i].started <= run[i].accepted
  {
    RunsKeepInv(run, actions, i);
  }

  /** Once a thread has exited, the queue is empty for good. */
  lemma {:induction false} EmptyForGood(run: seq<Pool>, actions: seq<Action>, i: nat, k: nat)
    requires IsRun(run, actions) && i <= k < |run| && run[i].exited != {}
    ensures run[k].tasks == [] && run[k].accepted == run[i].accepted
    decreases k
  {
    RunsKeepInv(run, actions, k);
    RunsKeepInv(run, actions, i);
    if i < k {
      EmptyForGood(run, actions, i, k - 1);
      StoppedForGood(run, actions, i, k - 1);
      assert Step(run[k - 1], actions[k - 1], run[k - 1 + 1]);
    }
  }

  lemma {:induction false} StoppedForGood(run: seq<Pool>, actions: seq<Action>, i: nat, k: nat)
    requires IsRun(run, actions) && i <= k < |run| && run[i].stop
    ensures run[k].stop
    decreases k
  {
    if i < k {
      StoppedForGood(run, actions, i, k - 1);
      assert Step(run[k - 1], actions[k - 1], run[k - 1 + 1]);
    }
  }
}
