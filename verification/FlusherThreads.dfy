/** Any number of flusher threads on the submitter's one queue (the source starts eight). Their transactions
    are serialisable: each takes effect at one moment. */
module FlusherThreads {
  import opened PostgresStore
  import opened SubmissionTheorems

  /** `taken` lists the batches in the order in which they left the queue, `hand` says which of them a thread
      is processing, `done` which have been processed, in the order of their transactions, and whether the
      database answered. `received` records everything that was ever queued. */
  datatype Flushers = Flushers(queue: seq<BatchItem>, running: bool, hand: map<nat, nat>, exited: set<nat>,
                               taken: seq<seq<BatchItem>>, done: seq<(nat, bool)>,
                               received: seq<BatchItem>, log: Log)

  const IDLE_FLUSHERS := Flushers([], true, map[], {}, [], [], [], EMPTY_LOG)

  datatype Action =
    | Arrive(item: BatchItem)
    | Stop
    | Take(thread: nat)
    | Finish(thread: nat, dbUp: bool)
    | Leave(thread: nat)

  /** A thread that has passed the loop test may still take a batch after the stop. */
  predicate Enabled(f: Flushers, a: Action) {
    match a
    case Arrive(_) => true
    case Stop => true
    case Take(t) => t !in f.hand && t !in f.exited && f.queue != []
    case Finish(t, _) => t in f.hand && f.hand[t] < |f.taken|
    case Leave(t) => t !in f.hand && !f.running
  }

  function Next(f: Flushers, a: Action): Flushers {
    match a
    case Arrive(item) => f.(queue := f.queue + [item], received := f.received + [item])
    case Stop => f.(running := false)
    case Take(t) => f.(queue := [], taken := f.taken + [f.queue], hand := f.hand[t := |f.taken|])
    case Finish(t, dbUp) =>
      if t !in f.hand || f.hand[t] >= |f.taken| then f else
      f.(hand := f.hand - {t}, done := f.done + [(f.hand[t], dbUp)], log := Process(f.log, f.taken[f.hand[t]], dbUp))
    case Leave(t) => f.(exited := f.exited + {t})
  }

  function Flat(batches: seq<seq<BatchItem>>): seq<BatchItem> {
    if batches == [] then [] else Flat(batches[..|batches| - 1]) + batches[|batches| - 1]
  }

  ghost predicate DoneInside(f: Flushers) {
    forall i | 0 <= i < |f.done| :: f.done[i].0 < |f.taken|
  }

  /** The processed batches with the answers of the database. */
  ghost function DoneBatches(f: Flushers): seq<(seq<BatchItem>, bool)>
    requires DoneInside(f)
  {
    seq(|f.done|, i requires 0 <= i < |f.done| => (f.taken[f.done[i].0], f.done[i].1))
  }

  predicate Processed(f: Flushers, k: nat) {
    exists i :: 0 <= i < |f.done| && f.done[i].0 == k
  }

  predicate InHand(f: Flushers, k: nat) {
    exists t :: t in f.hand && f.hand[t] == k
  }

  /** Every batch that left the queue is in one thread's hand or was processed, never both and never twice. */
  ghost predicate EachOnce(f: Flushers) {
    && (forall k | 0 <= k < |f.taken| :: InHand(f, k) || Processed(f, k))
    && (forall t | t in f.hand :: f.hand[t] < |f.taken| && !Processed(f, f.hand[t]))
    && (forall t, u | t in f.hand && u in f.hand && f.hand[t] == f.hand[u] :: t == u)
    && (forall i, j | 0 <= i < j < |f.done| :: f.done[i].0 != f.done[j].0)
  }

  ghost predicate Inv(f: Flushers) {
    && DoneInside(f) && EachOnce(f)
    && f.received == Flat(f.taken) + f.queue
    && f.log == ProcessAll(DoneBatches(f))
  }

  lemma TakeKeepsInv(f: Flushers, t: nat)
    requires Inv(f) && Enabled(f, Take(t))
    ensures Inv(Next(f, Take(t)))
  {
    var f' := Next(f, Take(t));
    assert f'.taken[..|f.taken|] == f.taken;
    TakeKeepsOnce(f, t);
    hide EachOnce, ProcessAll;
    assert DoneBatches(f') == DoneBatches(f);
  }

  lemma TakeKeepsOnce(f: Flushers, t: nat)
    requires DoneInside(f) && EachOnce(f) && Enabled(f, Take(t))
    ensures EachOnce(Next(f, Take(t)))
  {
    var f' := Next(f, Take(t));
    assert f'.done == f.done && f'.hand == f.hand[t := |f.taken|] && |f'.taken| == |f.taken| + 1 && t !in f.hand;
    hide Next, Enabled;
    assert forall k :: Processed(f', k) <==> Processed(f, k);
    assert InHand(f', |f.taken|) by { assert f'.hand[t] == |f.taken|; }
    forall k | 0 <= k < |f.taken| && InHand(f, k) ensures InHand(f', k) {
      var u :| u in f.hand && f.hand[u] == k;
      assert u in f'.hand && f'.hand[u] == k;
    }
  }

  lemma FinishKeepsInv(f: Flushers, t: nat, dbUp: bool)
    requires Inv(f) && Enabled(f, Finish(t, dbUp))
    ensures Inv(Next(f, Finish(t, dbUp)))
  {
    var f', k := Next(f, Finish(t, dbUp)), f.hand[t];
    FinishKeepsOnce(f, t, dbUp) by { hide ProcessAll, Process, Flat; }
    hide EachOnce;
    var before, after := DoneBatches(f), DoneBatches(f');
    assert after == before + [(f.taken[k], dbUp)];
    assert after[..|before|] == before;
    hide Process, DoneBatches;
  }

  lemma FinishKeepsOnce(f: Flushers, t: nat, dbUp: bool)
    requires DoneInside(f) && EachOnce(f) && Enabled(f, Finish(t, dbUp))
    ensures DoneInside(Next(f, Finish(t, dbUp))) && EachOnce(Next(f, Finish(t, dbUp)))
  {
    var f', k := Next(f, Finish(t, dbUp)), f.hand[t];
    assert f'.done[|f.done|].0 == k;
    assert f'.done == f.done + [(k, dbUp)] && f'.taken == f.taken && f'.hand == f.hand - {t};
    hide Next, Process;
    forall n ensures Processed(f', n) <==> Processed(f, n) || n == k {
      OneMoreProcessed(f, f', k, dbUp, n);
    }
    forall n | InHand(f, n) && n != k ensures InHand(f', n) {
      var u :| u in f.hand && f.hand[u] == n;
      assert u in f'.hand && f'.hand[u] == n;
    }
    assert forall i | 0 <= i < |f.done| :: Processed(f, f.done[i].0);
    hide Processed, InHand;
  }

  lemma OneMoreProcessed(f: Flushers, f': Flushers, k: nat, dbUp: bool, n: nat)
    requires f'.done == f.done + [(k, dbUp)]
    ensures Processed(f', n) <==> Processed(f, n) || n == k
  {
    assert f'.done[|f.done|].0 == k;
    if Processed(f, n) {
      var i :| 0 <= i < |f.done| && f.done[i].0 == n;
      assert f'.done[i].0 == n;
    }
  }

  lemma StepKeepsInv(f: Flushers, a: Action)
    requires Inv(f) && Enabled(f, a)
    ensures Inv(Next(f, a))
  {
    match a {
      case Take(t) => TakeKeepsInv(f, t);
      case Finish(t, dbUp) => FinishKeepsInv(f, t, dbUp);
      case _ => OtherKeepsInv(f, a);
    }
  }

  lemma OtherKeepsInv(f: Flushers, a: Action)
    requires Inv(f) && Enabled(f, a) && !a.Take? && !a.Finish?
    ensures Inv(Next(f, a))
  {
    var f' := Next(f, a);
    assert DoneBatches(f') == DoneBatches(f);
    assert f'.taken == f.taken && f'.hand == f.hand && f'.done == f.done;
    assert EachOnce(f') by {
      assert forall k :: InHand(f', k) == InHand(f, k);
      assert forall k :: Processed(f', k) == Processed(f, k);
      hide InHand, Processed;
    }
    hide EachOnce, ProcessAll;
  }

  ghost predicate Step(f: Flushers, a: Action, f': Flushers) {
    Enabled(f, a) && f' == Next(f, a)
  }

  ghost predicate IsRun(run: seq<Flushers>, actions: seq<Action>) {
    && |run| == |actions| + 1 && run[0] == IDLE_FLUSHERS
    && forall i | 0 <= i < |actions| :: Step(run[i], actions[i], run[i + 1])
  }

  /** Conservation for any number of threads: what was received is, in this order, the batches taken and the
      queue; each batch taken is in one thread's hand or was processed exactly once; and the database is what
      the processed batches make it in the order of their transactions. */
  lemma {:induction false} ThreadsConserveItems(run: seq<Flushers>, actions: seq<Action>, i: nat)
    requires IsRun(run, actions) && i < |run|
    ensures Inv(run[i])
  {
    if i > 0 {
      hide Inv, Enabled, Next;
      ThreadsConserveItems(run, actions, i - 1);
      assert Step(run[i - 1], actions[i - 1], run[i - 1 + 1]);
      StepKeepsInv(run[i - 1], actions[i - 1]);
    }
  }

  function Arrivals(actions: seq<Action>, i: nat): seq<BatchItem>
    requires i <= |actions|
  {
    if i == 0 then [] else Arrivals(actions, i - 1) + if actions[i - 1].Arrive? then [actions[i - 1].item] else []
  }

  /** What was received is what arrived, in this order. */
  lemma {:induction false} ReceivedIsArrived(run: seq<Flushers>, actions: seq<Action>, i: nat)
    requires IsRun(run, actions) && i <= |actions|
    ensures run[i].received == Arrivals(actions, i)
  {
    if i > 0 {
      hide Process;
      ReceivedIsArrived(run, actions, i - 1);
      assert Step(run[i - 1], actions[i - 1], run[i - 1 + 1]);
    }
  }

  /** At most one non-empty job per idempotency key, whatever the threads do. */
  lemma IdempotencyOfThreads(run: seq<Flushers>, actions: seq<Action>, i: nat)
    requires IsRun(run, actions) && i < |run|
    ensures DoneInside(run[i])
    ensures FreshThroughout(DoneBatches(run[i])) ==>
              var c := run[i].log.committed;
              forall a, b | 0 <= a < b < |c| && c[a].req.tasks != [] && c[b].req.tasks != [] ::
                c[a].req.idempotencyKey != c[b].req.idempotencyKey
  {
    ThreadsConserveItems(run, actions, i);
    hide IsRun, ProcessAll, FreshThroughout;
    if FreshThroughout(DoneBatches(run[i])) {
      IdempotencyOverAllBatches(DoneBatches(run[i]));
    }
  }
}
