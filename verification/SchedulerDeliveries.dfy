/** Which entries the scheduler's loop hands on: none is lost, doubled or overtaken on its way from the stream to
    a dispatch thread. */
module SchedulerDeliveries {
  import opened Graph
  import opened SchedulerLoops

  // ---------------------------------------------------------------- what a step brings and takes away

  /** The entries a step delivers to this loop. */
  function Arrives(s: State, a: Action): seq<Id> {
    match a
    case Read(n) => if n <= |s.unread| then s.unread[..n] else []
    case Claim(entries) => entries
    case _ => []
  }

  datatype Fate = Skipped | Unassigned | Settled | Leaked

  /** The entries whose way through this scheduler ends with a step, by what becomes of them. */
  function Leaves(s: State, a: Action, f: Fate): seq<Id> {
    match a
    case SkipMalformed(_) => if f.Skipped? && Rest(s.phase) != [] then [Rest(s.phase)[0]] else []
    case RescueWithoutWorker => if f.Unassigned? && Rest(s.phase) != [] then [Rest(s.phase)[0]] else []
    case Settle(t) => if f.Settled? && t in s.pool then [s.pool[t].entry] else []
    case Throw => if f.Leaked? then Rest(s.phase) else []
    case BreakOnStop => if f.Leaked? then Rest(s.phase) else []
    case PoolThrow(t) => if f.Leaked? && t in s.pool then [s.pool[t].entry] else []
    case _ => []
  }

  function OnThreads(pool: map<nat, PoolJob>, e: Id): set<nat> {
    set t | t in pool && pool[t].entry == e
  }

  /** How often an entry is in the current batch, in the pool's queue or on a pool thread. */
  function InFlight(s: State, e: Id): nat {
    multiset(Rest(s.phase))[e] + multiset(s.queue)[e] + |OnThreads(s.pool, e)|
  }

  function Gone(s: State, a: Action, e: Id): nat {
    multiset(Leaves(s, a, Skipped))[e] + multiset(Leaves(s, a, Unassigned))[e]
    + multiset(Leaves(s, a, Settled))[e] + multiset(Leaves(s, a, Leaked))[e]
  }

  lemma CountFirst(s: seq<Id>, e: Id)
    requires s != []
    ensures multiset(s)[e] == multiset(s[1..])[e] + if s[0] == e then 1 else 0
  {
    assert s == [s[0]] + s[1..];
  }

  lemma CountLast(s: seq<Id>, x: Id, e: Id)
    ensures multiset(s + [x])[e] == multiset(s)[e] + if x == e then 1 else 0
  {
  }

  lemma ThreadTakes(pool: map<nat, PoolJob>, t: nat, x: Id, e: Id)
    requires t !in pool
    ensures |OnThreads(pool[t := Calling(x)], e)| == |OnThreads(pool, e)| + if x == e then 1 else 0
  {
    assert OnThreads(pool[t := Calling(x)], e) == OnThreads(pool, e) + if x == e then {t} else {};
  }

  lemma ThreadLeaves(pool: map<nat, PoolJob>, t: nat, e: Id)
    requires t in pool
    ensures |OnThreads(pool - {t}, e)| == |OnThreads(pool, e)| - if pool[t].entry == e then 1 else 0
  {
    assert OnThreads(pool, e) == OnThreads(pool - {t}, e) + if pool[t].entry == e then {t} else {};
  }

  lemma ThreadKeeps(pool: map<nat, PoolJob>, t: nat, job: PoolJob, e: Id)
    requires t in pool && job.entry == pool[t].entry
    ensures OnThreads(pool[t := job], e) == OnThreads(pool, e)
  {
  }

  predicate OfThread(a: Action) {
    a.Take? || a.CallOk? || a.CallFails? || a.Ack? || a.Settle? || a.PoolThrow?
  }

  lemma ThreadView(s: State, a: Action)
    requires Enabled(s, a) && OfThread(a)
    ensures var s', t := Next(s, a), a.thread;
            && Rest(s'.phase) == Rest(s.phase) && Arrives(s, a) == []
            && if a.Take? then t !in s.pool && s.queue != [] && s'.queue == s.queue[1..]
                               && s'.pool == s.pool[t := Calling(s.queue[0])]
               else t in s.pool && s'.queue == s.queue
                    && if a.Settle? || a.PoolThrow? then s'.pool == s.pool - {t}
                       else exists job: PoolJob :: s'.pool == s.pool[t := job] && job.entry == s.pool[t].entry
  {
  }

  lemma ThreadGone(s: State, a: Action, e: Id)
    requires Enabled(s, a) && OfThread(a)
    ensures Gone(s, a, e) == if (a.Settle? || a.PoolThrow?) && s.pool[a.thread].entry == e then 1 else 0
  {
  }

  lemma ThreadConserves(s: State, a: Action, e: Id)
    requires Enabled(s, a) && OfThread(a)
    ensures InFlight(Next(s, a), e) + Gone(s, a, e) == InFlight(s, e) + multiset(Arrives(s, a))[e]
  {
    ThreadView(s, a);
    ThreadGone(s, a, e);
    var t, s' := a.thread, Next(s, a);
    hide OnThreads, Next, Enabled, Gone, Arrives, Rest;
    if a.Take? {
      CountFirst(s.queue, e);
      ThreadTakes(s.pool, t, s.queue[0], e);
    } else if a.Settle? || a.PoolThrow? {
      ThreadLeaves(s.pool, t, e);
    } else {
      var job: PoolJob :| s'.pool == s.pool[t := job] && job.entry == s.pool[t].entry;
      ThreadKeeps(s.pool, t, job, e);
    }
  }

  /** The loop is done with the first entry of its batch. */
  predicate HandlesOne(a: Action) {
    a.SkipMalformed? || a.RescueWithoutWorker? || a.Enqueue?
  }

  lemma HandlingView(s: State, a: Action)
    requires Enabled(s, a) && HandlesOne(a)
    ensures var s', rest := Next(s, a), Rest(s.phase);
            && rest != [] && Rest(s'.phase) == rest[1..] && s'.pool == s.pool && s'.malformed == s.malformed
            && s'.queue == s.queue + (if a.Enqueue? then [rest[0]] else []) && Arrives(s, a) == []
            && (rest[0] in s.malformed <==> a.SkipMalformed?)
            && Leaves(s, a, Unassigned) == if a.RescueWithoutWorker? then [rest[0]] else []
  {
  }

  lemma HandlingGone(s: State, a: Action, e: Id)
    requires HandlesOne(a) && Rest(s.phase) != []
    ensures Gone(s, a, e) == if !a.Enqueue? && Rest(s.phase)[0] == e then 1 else 0
  {
  }

  lemma HandlingConserves(s: State, a: Action, e: Id)
    requires Enabled(s, a) && HandlesOne(a)
    ensures InFlight(Next(s, a), e) + Gone(s, a, e) == InFlight(s, e) + multiset(Arrives(s, a))[e]
  {
    HandlingView(s, a);
    HandlingGone(s, a, e);
    hide OnThreads, Next, Enabled, Gone, Arrives, Rest;
    CountFirst(Rest(s.phase), e);
    CountLast(s.queue, Rest(s.phase)[0], e);
  }

  lemma LoopConserves(s: State, a: Action, e: Id)
    requires Enabled(s, a) && !OfThread(a) && !HandlesOne(a)
    ensures InFlight(Next(s, a), e) + Gone(s, a, e) == InFlight(s, e) + multiset(Arrives(s, a))[e]
  {
    hide OnThreads, Delivered, WithRest;
  }

  /** Each step conserves the deliveries of each entry. */
  lemma StepConserves(s: State, a: Action, e: Id)
    requires Enabled(s, a)
    ensures InFlight(Next(s, a), e) + Gone(s, a, e) == InFlight(s, e) + multiset(Arrives(s, a))[e]
  {
    hide InFlight, Gone, Arrives, Enabled, Next;
    if OfThread(a) {
      ThreadConserves(s, a, e);
    } else if HandlesOne(a) {
      HandlingConserves(s, a, e);
    } else {
      LoopConserves(s, a, e);
    }
  }

  // ---------------------------------------------------------------- conservation over whole runs

  function DeliveredLog(run: seq<State>, actions: seq<Action>, i: nat): seq<Id>
    requires |run| == |actions| + 1 && i <= |actions|
  {
    if i == 0 then [] else DeliveredLog(run, actions, i - 1) + Arrives(run[i - 1], actions[i - 1])
  }

  function GoneLog(run: seq<State>, actions: seq<Action>, f: Fate, i: nat): seq<Id>
    requires |run| == |actions| + 1 && i <= |actions|
  {
    if i == 0 then [] else GoneLog(run, actions, f, i - 1) + Leaves(run[i - 1], actions[i - 1], f)
  }

  lemma StepAt(run: seq<State>, actions: seq<Action>, i: nat)
    requires IsRun(run, actions) && i < |actions|
    ensures Enabled(run[i], actions[i]) && run[i + 1] == Next(run[i], actions[i])
  {
    assert Step(run[i], actions[i], run[i + 1]);
    hide Enabled, Next;
  }

  lemma NothingInFlightAtFirst(s: State, e: Id)
    requires Initial(s)
    ensures InFlight(s, e) == 0
  {
  }

  /** Every delivery is accounted for: at every moment each entry was delivered to this loop as often as it is in
      the batch, in the queue or on a thread, was skipped as malformed, found no worker, was settled or leaked. */
  lemma {:induction false} DeliveriesConserved(run: seq<State>, actions: seq<Action>, i: nat, e: Id)
    requires IsRun(run, actions) && i <= |actions|
    ensures multiset(DeliveredLog(run, actions, i))[e] ==
              InFlight(run[i], e)
              + multiset(GoneLog(run, actions, Skipped, i))[e] + multiset(GoneLog(run, actions, Unassigned, i))[e]
              + multiset(GoneLog(run, actions, Settled, i))[e] + multiset(GoneLog(run, actions, Leaked, i))[e]
  {
    hide InFlight, Arrives, Leaves, Enabled, Next;
    if i == 0 {
      NothingInFlightAtFirst(run[0], e);
    } else {
      DeliveriesConserved(run, actions, i - 1, e);
      StepAt(run, actions, i - 1);
      hide IsRun;
      StepConserves(run[i - 1], actions[i - 1], e);
    }
  }

  // ---------------------------------------------------------------- order

  /** What a step puts behind the queue and what it takes from the stream, seen from the states alone. */
  function PutOnQueue(s: State, s': State): seq<Id> {
    if s.queue <= s'.queue then s'.queue[|s.queue|..] else []
  }

  function TakenOff(s: State, s': State): seq<Id> {
    if |s'.unread| <= |s.unread| then s.unread[..|s.unread| - |s'.unread|] else []
  }

  function Started(a: Action, s': State): seq<Id> {
    if a.Take? && a.thread in s'.pool then [s'.pool[a.thread].entry] else []
  }

  function WellFormed(entries: seq<Id>, malformed: set<Id>): seq<Id> {
    if entries == [] then [] else
    (if entries[0] in malformed then [] else [entries[0]]) + WellFormed(entries[1..], malformed)
  }

  lemma {:induction false} WellFormedOfBoth(a: seq<Id>, b: seq<Id>, malformed: set<Id>)
    ensures WellFormed(a + b, malformed) == WellFormed(a, malformed) + WellFormed(b, malformed)
  {
    if a == [] {
      assert a + b == b;
    } else {
      assert (a + b)[1..] == a[1..] + b;
      WellFormedOfBoth(a[1..], b, malformed);
    }
  }

  /** The entries put on the queue, those left to a later rescue because there was no worker, those started by a
      thread, those that entered and those that left the stream, each in order. */
  function HandledLog(run: seq<State>, actions: seq<Action>, i: nat): seq<Id>
    requires |run| == |actions| + 1 && i <= |actions|
  {
    if i == 0 then [] else
    HandledLog(run, actions, i - 1) + PutOnQueue(run[i - 1], run[i]) + Leaves(run[i - 1], actions[i - 1], Unassigned)
  }

  function QueuedLog(run: seq<State>, i: nat): seq<Id>
    requires i < |run|
  {
    if i == 0 then [] else QueuedLog(run, i - 1) + PutOnQueue(run[i - 1], run[i])
  }

  function StartedLog(run: seq<State>, actions: seq<Action>, i: nat): seq<Id>
    requires |run| == |actions| + 1 && i <= |actions|
  {
    if i == 0 then [] else StartedLog(run, actions, i - 1) + Started(actions[i - 1], run[i])
  }

  function TakenOffLog(run: seq<State>, i: nat): seq<Id>
    requires i < |run|
  {
    if i == 0 then [] else TakenOffLog(run, i - 1) + TakenOff(run[i - 1], run[i])
  }

  function AddedLog(actions: seq<Action>, i: nat): seq<Id>
    requires i <= |actions|
  {
    if i == 0 then [] else AddedLog(actions, i - 1) + if actions[i - 1].Arrive? then [actions[i - 1].entry] else []
  }

  predicate Interrupts(a: Action) {
    a.Throw? || a.BreakOnStop?
  }

  lemma HandledStep(s: State, a: Action)
    requires Enabled(s, a) && !Interrupts(a)
    ensures var s', m := Next(s, a), s.malformed;
            && s'.malformed == m
            && WellFormed(Rest(s.phase) + Arrives(s, a), m) ==
                 PutOnQueue(s, s') + Leaves(s, a, Unassigned) + WellFormed(Rest(s'.phase), m)
  {
    var s', rest := Next(s, a), Rest(s.phase);
    if HandlesOne(a) {
      HandlingView(s, a);
      hide Next, Enabled, Rest, Leaves, Arrives;
      assert rest + [] == rest;
      if a.Enqueue? { assert s'.queue[|s.queue|..] == [rest[0]]; }
    } else {
      OtherView(s, a);
      hide Next, Enabled, Rest, Leaves, Arrives;
    }
  }

  lemma OtherView(s: State, a: Action)
    requires Enabled(s, a) && !Interrupts(a) && !HandlesOne(a)
    ensures var s' := Next(s, a);
            && s'.malformed == s.malformed && Rest(s'.phase) == Rest(s.phase) + Arrives(s, a)
            && PutOnQueue(s, s') == [] && Leaves(s, a, Unassigned) == []
  {
    hide Delivered;
    if a.Take? { assert |Next(s, a).queue| < |s.queue|; }
  }

  /** Without interrupted batches, the well-formed entries delivered are, in the order of their delivery, those put
      on the queue (or, in a rescue without workers, left for the next one) and those still in the batch. */
  lemma {:induction false} DispatchedInOrder(run: seq<State>, actions: seq<Action>, i: nat)
    requires IsRun(run, actions) && i <= |actions| && forall k | 0 <= k < i :: !Interrupts(actions[k])
    ensures run[i].malformed == run[0].malformed
    ensures WellFormed(DeliveredLog(run, actions, i), run[0].malformed) ==
              HandledLog(run, actions, i) + WellFormed(Rest(run[i].phase), run[0].malformed)
  {
    hide Arrives, Leaves, Enabled, Next, PutOnQueue, WellFormed, Rest, Interrupts, Initial, Step;
    if i == 0 {
      NothingHandledAtFirst(run[0]);
    } else {
      DispatchedInOrder(run, actions, i - 1);
      NextHandled(run, actions, i - 1);
      OneMoreHandled(run, actions, i, run[0].malformed);
    }
  }

  lemma NothingHandledAtFirst(s: State)
    requires Initial(s)
    ensures WellFormed(Rest(s.phase), s.malformed) == [] && WellFormed([], s.malformed) == []
  {
  }

  lemma NextHandled(run: seq<State>, actions: seq<Action>, i: nat)
    requires IsRun(run, actions) && i < |actions| && !Interrupts(actions[i])
    ensures var s, a, s', m := run[i], actions[i], run[i + 1], run[i].malformed;
            && s'.malformed == m
            && WellFormed(Rest(s.phase) + Arrives(s, a), m) ==
                 PutOnQueue(s, s') + Leaves(s, a, Unassigned) + WellFormed(Rest(s'.phase), m)
  {
    StepAt(run, actions, i);
    HandledStep(run[i], actions[i]);
  }

  lemma OneMoreHandled(run: seq<State>, actions: seq<Action>, i: nat, m: set<Id>)
    requires |run| == |actions| + 1 && 0 < i <= |actions|
    requires WellFormed(DeliveredLog(run, actions, i - 1), m) ==
               HandledLog(run, actions, i - 1) + WellFormed(Rest(run[i - 1].phase), m)
    requires WellFormed(Rest(run[i - 1].phase) + Arrives(run[i - 1], actions[i - 1]), m) ==
               PutOnQueue(run[i - 1], run[i]) + Leaves(run[i - 1], actions[i - 1], Unassigned)
               + WellFormed(Rest(run[i].phase), m)
    ensures WellFormed(DeliveredLog(run, actions, i), m) ==
              HandledLog(run, actions, i) + WellFormed(Rest(run[i].phase), m)
  {
    hide Arrives, Leaves, PutOnQueue, WellFormed, Rest;
    var s, a := run[i - 1], actions[i - 1];
    WellFormedOfBoth(DeliveredLog(run, actions, i - 1), Arrives(s, a), m);
    WellFormedOfBoth(Rest(s.phase), Arrives(s, a), m);
    var put, left := PutOnQueue(s, run[i]), Leaves(s, a, Unassigned);
    Regroup(HandledLog(run, actions, i - 1), WellFormed(Rest(s.phase), m), WellFormed(Arrives(s, a), m), put + left,
            WellFormed(Rest(run[i].phase), m));
    assert HandledLog(run, actions, i) == HandledLog(run, actions, i - 1) + (put + left);
  }

  lemma Regroup(log: seq<Id>, waiting: seq<Id>, more: seq<Id>, handled: seq<Id>, rest: seq<Id>)
    requires waiting + more == handled + rest
    ensures log + waiting + more == log + handled + rest
  {
    assert log + waiting + more == log + (waiting + more);
  }

  lemma QueueStep(s: State, a: Action)
    requires Enabled(s, a)
    ensures var s' := Next(s, a); s.queue + PutOnQueue(s, s') == Started(a, s') + s'.queue
  {
    var s' := Next(s, a);
    if a.Take? {
      assert |s'.queue| < |s.queue|;
      assert s.queue == [s.queue[0]] + s.queue[1..];
    }
  }

  /** The threads start exactly the entries put on the queue, in this order. */
  lemma {:induction false} StartedInOrder(run: seq<State>, actions: seq<Action>, i: nat)
    requires IsRun(run, actions) && i <= |actions|
    ensures QueuedLog(run, i) == StartedLog(run, actions, i) + run[i].queue
  {
    hide Enabled, Next, PutOnQueue, Started;
    if i > 0 {
      StartedInOrder(run, actions, i - 1);
      StepAt(run, actions, i - 1);
      QueueStep(run[i - 1], actions[i - 1]);
      hide IsRun;
      Regroup(StartedLog(run, actions, i - 1), run[i - 1].queue, PutOnQueue(run[i - 1], run[i]),
              Started(actions[i - 1], run[i]), run[i].queue);
    }
  }

  lemma StreamStep(s: State, a: Action)
    requires Enabled(s, a)
    ensures var s' := Next(s, a);
            && s.unread + (if a.Arrive? then [a.entry] else []) == TakenOff(s, s') + s'.unread
            && (a.Read? ==> Arrives(s, a) == TakenOff(s, s'))
            && Delivered(TakenOff(s, s')) <= s'.pending
  {
  }

  /** The stream is read in the order of arrival and nothing in it is skipped. */
  lemma {:induction false} StreamIsReadInOrder(run: seq<State>, actions: seq<Action>, i: nat)
    requires IsRun(run, actions) && i <= |actions|
    ensures run[0].unread + AddedLog(actions, i) == TakenOffLog(run, i) + run[i].unread
  {
    hide Enabled, Next, TakenOff, Arrives;
    if i > 0 {
      StreamIsReadInOrder(run, actions, i - 1);
      StepAt(run, actions, i - 1);
      StreamStep(run[i - 1], actions[i - 1]);
      hide IsRun;
      var added := if actions[i - 1].Arrive? then [actions[i - 1].entry] else [];
      Regroup(TakenOffLog(run, i - 1), run[i - 1].unread, added, TakenOff(run[i - 1], run[i]), run[i].unread);
      assert run[0].unread + AddedLog(actions, i) == run[0].unread + AddedLog(actions, i - 1) + added;
    }
  }

  // ---------------------------------------------------------------- everything in flight can be settled

  /** What is in flight was delivered: it is pending or acknowledged. */
  ghost predicate FlightKnown(s: State) {
    forall e | InFlight(s, e) > 0 :: e in s.pending || e in s.acked
  }

  lemma StepKeepsFlight(s: State, a: Action)
    requires Enabled(s, a) && FlightKnown(s)
    ensures FlightKnown(Next(s, a))
  {
    forall e | InFlight(Next(s, a), e) > 0 ensures e in Next(s, a).pending || e in Next(s, a).acked {
      StepConserves(s, a, e);
      ArrivalsArePending(s, a);
      hide InFlight, Gone, Arrives, Enabled, Next;
      if InFlight(s, e) > 0 { EntryStays(s, a, e); }
    }
  }

  lemma ArrivalsArePending(s: State, a: Action)
    requires Enabled(s, a)
    ensures forall e | multiset(Arrives(s, a))[e] > 0 :: e in Next(s, a).pending
  {
    forall e | multiset(Arrives(s, a))[e] > 0 ensures e in Next(s, a).pending {
      assert e in Arrives(s, a);
    }
  }

  lemma {:induction false} RunsKeepFlight(run: seq<State>, actions: seq<Action>, i: nat)
    requires IsRun(run, actions) && i < |run|
    ensures FlightKnown(run[i])
  {
    hide InFlight, Enabled, Next, GroupInv;
    if i == 0 {
      forall e ensures InFlight(run[0], e) == 0 { NothingInFlightAtFirst(run[0], e); }
    } else {
      RunsKeepFlight(run, actions, i - 1);
      StepAt(run, actions, i - 1);
      hide IsRun;
      StepKeepsFlight(run[i - 1], actions[i - 1]);
    }
  }

  ghost predicate Playable(s: State, actions: seq<Action>)
    decreases |actions|
  {
    actions == [] || (Enabled(s, actions[0]) && Playable(Next(s, actions[0]), actions[1..]))
  }

  function Played(s: State, actions: seq<Action>): State
    decreases |actions|
  {
    if actions == [] then s else Played(Next(s, actions[0]), actions[1..])
  }

  /** An entry whose call to a worker is still to come or to be acknowledged. */
  ghost predicate Waiting(s: State, e: Id) {
    e in Rest(s.phase) || e in s.queue || exists t :: t in s.pool && s.pool[t].entry == e && !s.pool[t].Settling?
  }

  ghost predicate Settles(s: State, s': State) {
    && (forall e | Waiting(s, e) :: Waiting(s', e) || e in s'.acked)
    && s.acked <= s'.acked && s'.leaked == s.leaked
  }

  function OnCall(pool: map<nat, PoolJob>): set<nat> {
    set t | t in pool && pool[t].Calling?
  }

  function Unacknowledged(pool: map<nat, PoolJob>): set<nat> {
    set t | t in pool && pool[t].Accepted?
  }

  /** The next step towards the end, if all goes well. */
  ghost function GoodStep(s: State): Action
    requires Rest(s.phase) != [] || s.queue != [] || s.pool != map[]
  {
    if Rest(s.phase) != [] then if Rest(s.phase)[0] in s.malformed then SkipMalformed(true) else Enqueue
    else if s.pool == map[] then Take(0)
    else
      var t :| t in s.pool;
      match s.pool[t]
      case Calling(_) => CallOk(t)
      case Accepted(_) => Ack(t, true)
      case Settling(_) => Settle(t)
  }

  lemma WaitingIsKnown(s: State, e: Id)
    requires FlightKnown(s) && Waiting(s, e)
    ensures e in s.pending || e in s.acked
  {
    if t :| t in s.pool && s.pool[t].entry == e && !s.pool[t].Settling? {
      assert t in OnThreads(s.pool, e);
    }
    assert InFlight(s, e) > 0;
  }

  lemma GoodBatchStep(s: State, e: Id)
    requires Rest(s.phase) != [] && FlightKnown(s) && Waiting(s, e)
    ensures Waiting(Next(s, GoodStep(s)), e) || e in Next(s, GoodStep(s)).acked
  {
    WaitingIsKnown(s, e);
    hide FlightKnown;
    var rest, s' := Rest(s.phase), Next(s, GoodStep(s));
    assert Rest(s'.phase) == rest[1..] && s'.pool == s.pool;
    if e in rest && e !in rest[1..] { assert rest == [rest[0]] + rest[1..]; }
    assert e in s.queue ==> e in s'.queue;
  }

  lemma GoodThreadStep(s: State, e: Id)
    requires Rest(s.phase) == [] && (s.queue != [] || s.pool != map[]) && FlightKnown(s) && Waiting(s, e)
    ensures Waiting(Next(s, GoodStep(s)), e) || e in Next(s, GoodStep(s)).acked
  {
    WaitingIsKnown(s, e);
    hide FlightKnown;
    var a := GoodStep(s);
    var t, s' := a.thread, Next(s, a);
    assert Rest(s'.phase) == Rest(s.phase);
    if a.Take? && e in s.queue && e !in s'.queue {
      assert s.queue == [s.queue[0]] + s.queue[1..];
      assert s'.pool[0] == Calling(e);
    } else if u :| u in s.pool && s.pool[u].entry == e && !s.pool[u].Settling? {
      assert u != t ==> u in s'.pool && s'.pool[u] == s.pool[u];
      assert a.CallOk? && u == t ==> s'.pool[t] == Accepted(e);
    }
  }

  ghost predicate ThreadsGetCloser(pool: map<nat, PoolJob>, pool': map<nat, PoolJob>) {
    || |OnCall(pool')| < |OnCall(pool)|
    || (OnCall(pool') == OnCall(pool)
        && (|Unacknowledged(pool')| < |Unacknowledged(pool)|
            || (Unacknowledged(pool') == Unacknowledged(pool) && |pool'| < |pool|)))
  }

  ghost predicate GetsCloser(s: State, s': State) {
    || |Rest(s'.phase)| < |Rest(s.phase)|
    || (Rest(s'.phase) == Rest(s.phase) && |s'.queue| < |s.queue|)
    || (Rest(s'.phase) == Rest(s.phase) && s'.queue == s.queue && ThreadsGetCloser(s.pool, s'.pool))
  }

  lemma JobEnds(pool: map<nat, PoolJob>, t: nat)
    requires t in pool
    ensures var e := pool[t].entry;
            ThreadsGetCloser(pool, if pool[t].Calling? then pool[t := Accepted(e)]
                                   else if pool[t].Accepted? then pool[t := Settling(e)] else pool - {t})
  {
    var e := pool[t].entry;
    if pool[t].Calling? {
      assert OnCall(pool[t := Accepted(e)]) == OnCall(pool) - {t};
    } else if pool[t].Accepted? {
      assert OnCall(pool[t := Settling(e)]) == OnCall(pool);
      assert Unacknowledged(pool[t := Settling(e)]) == Unacknowledged(pool) - {t};
    } else {
      assert OnCall(pool - {t}) == OnCall(pool) && Unacknowledged(pool - {t}) == Unacknowledged(pool);
      assert (pool - {t}).Keys == pool.Keys - {t};
    }
  }

  lemma GoodStepGetsCloser(s: State)
    requires Rest(s.phase) != [] || s.queue != [] || s.pool != map[]
    ensures Enabled(s, GoodStep(s)) && GetsCloser(s, Next(s, GoodStep(s))) && Next(s, GoodStep(s)).leaked == s.leaked
    ensures s.acked <= Next(s, GoodStep(s)).acked
  {
    hide ThreadsGetCloser;
    if Rest(s.phase) == [] && s.pool != map[] {
      var t := GoodStep(s).thread;
      assert t in s.pool;
      JobEnds(s.pool, t);
    }
  }

  lemma GoodStepSettles(s: State)
    requires FlightKnown(s) && (Rest(s.phase) != [] || s.queue != [] || s.pool != map[])
    ensures Enabled(s, GoodStep(s)) && Settles(s, Next(s, GoodStep(s))) && GetsCloser(s, Next(s, GoodStep(s)))
  {
    hide FlightKnown, Waiting, Enabled, Next, GoodStep, GetsCloser;
    GoodStepGetsCloser(s);
    forall e | Waiting(s, e) ensures Waiting(Next(s, GoodStep(s)), e) || e in Next(s, GoodStep(s)).acked {
      if Rest(s.phase) != [] { GoodBatchStep(s, e); } else { GoodThreadStep(s, e); }
    }
  }

  lemma {:induction false} Drain(s: State) returns (actions: seq<Action>)
    requires FlightKnown(s) && CounterInv(s)
    ensures var s' := Played(s, actions);
            && Playable(s, actions) && Settles(s, s') && CounterInv(s')
            && Rest(s'.phase) == [] && s'.queue == [] && s'.pool == map[]
    decreases |Rest(s.phase)|, |s.queue|, |OnCall(s.pool)|, |Unacknowledged(s.pool)|, |s.pool|
  {
    hide FlightKnown, CounterInv, Waiting, Enabled, Next, GoodStep, OnCall, Unacknowledged;
    if Rest(s.phase) == [] && s.queue == [] && s.pool == map[] {
      actions := [];
    } else {
      var a := GoodStep(s);
      GoodStepSettles(s);
      StepKeepsFlight(s, a);
      StepKeepsCounter(s, a);
      var more := Drain(Next(s, a));
      actions := [a] + more;
      assert actions[1..] == more;
    }
  }

  /** From every reachable state the scheduler can finish: the batch, the queue and the threads empty, every entry
      whose worker call was still to come or to be acknowledged is acknowledged, and the counter is down to what
      had leaked before. */
  lemma EverythingCanSettle(run: seq<State>, actions: seq<Action>) returns (more: seq<Action>)
    requires IsRun(run, actions)
    ensures var s, s' := run[|actions|], Played(run[|actions|], more);
            && Playable(s, more) && Rest(s'.phase) == [] && s'.queue == [] && s'.pool == map[]
            && s'.inflight == s'.leaked == s.leaked
            && forall e | Waiting(s, e) :: e in s'.acked
  {
    var s := run[|actions|];
    hide FlightKnown, Enabled, Next, Playable, GroupInv;
    RunsKeepInv(run, actions, |actions|);
    RunsKeepFlight(run, actions, |actions|);
    hide IsRun;
    more := Drain(s);
    var s' := Played(s, more);
    assert forall e :: !Waiting(s', e);
  }
}
