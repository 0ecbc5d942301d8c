/** The scheduler's main loop and its dispatch pool as interleaved steps: stream reads, rescues,
    acknowledgements and the in-flight counter. Other schedulers of the same consumer group take part. */
module SchedulerLoops {
  import opened Graph

  const MAX_INFLIGHT := 2000
  const READ_BATCH := 20
  const RESCUE_BATCH := 50

  /** Where the loop thread is; `rest` are the deliveries of the current batch it has not handled. */
  datatype Phase =
    | Top
    | Checked
    | Rescuing(rest: seq<Id>)
    | Ready
    | Dispatching(rest: seq<Id>)
    | Exited

  /** A dispatch job on a pool thread. */
  datatype PoolJob =
    | Calling(entry: Id)       // RunTask in progress
    | Accepted(entry: Id)      // RunTask returned OK without a header error, XACK outstanding
    | Settling(entry: Id)      // only the counter is left to decrement

  /** `malformed` entries do not parse or have no metadata. `accepted` are the entries for which some
      scheduler's RunTask call returned OK without a header error, `reported` those for which a worker has
      reported SUCCESS or FAILED. `leaked` counts deliveries that an exception or an early stop left
      uncounted for. */
  datatype State = State(unread: seq<Id>, pending: set<Id>, acked: set<Id>, malformed: set<Id>, accepted: set<Id>,
                         inflight: int, phase: Phase, queue: seq<Id>, pool: map<nat, PoolJob>, stop: bool, leaked: nat,
                         reported: set<Id>)

  datatype Action =
    | Arrive(entry: Id)
    | RequestStop
    | PassBackpressure
    | WaitBackpressure
    | Exit
    | SkipRescue
    | Claim(entries: seq<Id>)
    | EndRescue
    | NoWorkers
    | Read(n: nat)
    | ReadReplyLost(n: nat)
    | SkipMalformed(acked: bool)
    | RescueWithoutWorker
    | Enqueue
    | Throw
    | BreakOnStop
    | EndBatch
    | Take(thread: nat)
    | CallOk(thread: nat)
    | CallFails(thread: nat)
    | Ack(thread: nat, done: bool)
    | Settle(thread: nat)
    | PoolThrow(thread: nat)
    | Report(entry: Id)
    | OtherReads(n: nat)
    | OtherAccepts(entry: Id)
    | OtherAcks(entry: Id)

  function Rest(p: Phase): seq<Id> {
    if p.Rescuing? || p.Dispatching? then p.rest else []
  }

  function WithRest(p: Phase, rest: seq<Id>): Phase {
    if p.Rescuing? then Rescuing(rest) else Dispatching(rest)
  }

  /** Where an interrupted batch leaves the loop: DoRescue swallows the exception, RunLoop starts over. */
  function AfterInterruption(p: Phase): Phase {
    if p.Rescuing? then Ready else Top
  }

  ghost predicate Enabled(s: State, a: Action) {
    match a
    case Arrive(e) => e !in s.unread && e !in s.pending && e !in s.acked
    case RequestStop => true
    case PassBackpressure => s.phase.Top? && !s.stop && s.inflight <= MAX_INFLIGHT
    case WaitBackpressure => s.phase.Top? && !s.stop && s.inflight > MAX_INFLIGHT
    case Exit => s.phase.Top? && s.stop
    case SkipRescue => s.phase.Checked?
    case Claim(es) => s.phase.Checked? && |es| <= RESCUE_BATCH && forall e | e in es :: e in s.pending
    case EndRescue => s.phase == Rescuing([])
    case NoWorkers => s.phase.Ready?
    case Read(n) => s.phase.Ready? && n <= READ_BATCH && n <= |s.unread|
    case ReadReplyLost(n) => s.phase.Ready? && n <= READ_BATCH && n <= |s.unread|
    case SkipMalformed(_) => Rest(s.phase) != [] && Rest(s.phase)[0] in s.malformed
    case RescueWithoutWorker => s.phase.Rescuing? && s.phase.rest != [] && s.phase.rest[0] !in s.malformed
    case Enqueue => Rest(s.phase) != [] && Rest(s.phase)[0] !in s.malformed
    case Throw => Rest(s.phase) != []
    case BreakOnStop => s.phase.Dispatching? && s.phase.rest != [] && s.stop
    case EndBatch => s.phase == Dispatching([])
    case Take(t) => t !in s.pool && s.queue != []
    case CallOk(t) => t in s.pool && s.pool[t].Calling?
    case CallFails(t) => t in s.pool && s.pool[t].Calling?
    case Ack(t, _) => t in s.pool && s.pool[t].Accepted?
    case Settle(t) => t in s.pool && s.pool[t].Settling?
    case PoolThrow(t) => t in s.pool && s.pool[t].Calling?
    case Report(e) => e in s.accepted
    case OtherReads(n) => n <= |s.unread|
    case OtherAccepts(e) => e in s.pending || e in s.acked
    case OtherAcks(e) => e in s.pending && (e in s.accepted || e in s.malformed)
  }

  function Delivered(entries: seq<Id>): set<Id> {
    set e | e in entries
  }

  function Next(s: State, a: Action): State {
    match a
    case Arrive(e) => s.(unread := s.unread + [e])
    case RequestStop => s.(stop := true)
    case PassBackpressure => s.(phase := Checked)
    case WaitBackpressure => s
    case Exit => s.(phase := Exited)
    case SkipRescue => s.(phase := Ready)
    case Claim(es) => s.(phase := Rescuing(es), inflight := s.inflight + |es|)
    case EndRescue => s.(phase := Ready)
    case NoWorkers => s.(phase := Top)
    case Read(n) =>
      if n > |s.unread| then s else
      s.(unread := s.unread[n..], pending := s.pending + Delivered(s.unread[..n]), inflight := s.inflight + n,
         phase := if n == 0 then Top else Dispatching(s.unread[..n]))
    case ReadReplyLost(n) =>
      if n > |s.unread| then s else
      s.(unread := s.unread[n..], pending := s.pending + Delivered(s.unread[..n]), phase := Top)
    case SkipMalformed(done) =>
      if Rest(s.phase) == [] then s else
      var e := Rest(s.phase)[0];
      s.(phase := WithRest(s.phase, Rest(s.phase)[1..]), inflight := s.inflight - 1,
         pending := if done then s.pending - {e} else s.pending,
         acked := if done && e in s.pending then s.acked + {e} else s.acked)
    case RescueWithoutWorker =>
      if Rest(s.phase) == [] then s else
      s.(phase := WithRest(s.phase, Rest(s.phase)[1..]), inflight := s.inflight - 1)
    case Enqueue =>
      if Rest(s.phase) == [] then s else
      s.(phase := WithRest(s.phase, Rest(s.phase)[1..]), queue := s.queue + [Rest(s.phase)[0]])
    case Throw => s.(phase := AfterInterruption(s.phase), leaked := s.leaked + |Rest(s.phase)|)
    case BreakOnStop => s.(phase := Top, leaked := s.leaked + |Rest(s.phase)|)
    case EndBatch => s.(phase := Top)
    case Take(t) => if s.queue == [] then s else s.(queue := s.queue[1..], pool := s.pool[t := Calling(s.queue[0])])
    case CallOk(t) =>
      if t !in s.pool then s else
      s.(pool := s.pool[t := Accepted(s.pool[t].entry)], accepted := s.accepted + {s.pool[t].entry})
    case CallFails(t) => if t !in s.pool then s else s.(pool := s.pool[t := Settling(s.pool[t].entry)])
    case Ack(t, done) =>
      if t !in s.pool then s else
      var e := s.pool[t].entry;
      s.(pool := s.pool[t := Settling(e)], pending := if done then s.pending - {e} else s.pending,
         acked := if done && e in s.pending then s.acked + {e} else s.acked)
    case Settle(t) => s.(pool := s.pool - {t}, inflight := s.inflight - 1)
    case PoolThrow(t) => s.(pool := s.pool - {t}, leaked := s.leaked + 1)
    case Report(e) => s.(reported := s.reported + {e})
    case OtherReads(n) =>
      if n > |s.unread| then s else
      s.(unread := s.unread[n..], pending := s.pending + Delivered(s.unread[..n]))
    case OtherAccepts(e) => s.(accepted := s.accepted + {e})
    case OtherAcks(e) => s.(pending := s.pending - {e}, acked := s.acked + {e})
  }

  /** A fresh scheduler in front of a stream that other schedulers may already have been working on. */
  ghost predicate Initial(s: State) {
    && s.inflight == 0 && s.phase == Top && s.queue == [] && s.pool == map[] && s.leaked == 0
    && GroupInv(s)
  }

  /** The consumer group never loses an entry and acknowledges a well-formed one only once accepted. */
  ghost predicate GroupInv(s: State) {
    && s.pending !! s.acked
    && NoDuplicates(s.unread)
    && (forall e | e in s.unread :: e !in s.pending && e !in s.acked)
    && (forall e | e in s.acked :: e in s.accepted || e in s.malformed)
    && (forall t | t in s.pool && s.pool[t].Accepted? :: s.pool[t].entry in s.accepted)
  }

  /** The counter is the number of deliveries still in the current batch, in the pool's queue or on a
      pool thread, plus those leaked. */
  ghost predicate CounterInv(s: State) {
    s.inflight == |Rest(s.phase)| + |s.queue| + |s.pool| + s.leaked
  }

  function Ceiling(p: Phase): int {
    if p.Checked? then MAX_INFLIGHT
    else if p.Rescuing? || p.Ready? then MAX_INFLIGHT + RESCUE_BATCH
    else MAX_INFLIGHT + RESCUE_BATCH + READ_BATCH
  }

  ghost predicate Inv(s: State) {
    GroupInv(s) && CounterInv(s) && s.inflight <= Ceiling(s.phase)
  }

  /** What the group invariant looks at, apart from the pool. */
  ghost predicate EntriesInv(unread: seq<Id>, pending: set<Id>, acked: set<Id>, settled: set<Id>) {
    && pending !! acked && NoDuplicates(unread)
    && (forall e | e in unread :: e !in pending && e !in acked)
    && acked <= settled
  }

  lemma DeliveryKeepsEntries(unread: seq<Id>, pending: set<Id>, acked: set<Id>, settled: set<Id>, n: nat)
    requires EntriesInv(unread, pending, acked, settled) && n <= |unread|
    ensures EntriesInv(unread[n..], pending + Delivered(unread[..n]), acked, settled)
  {
    forall e | e in unread[n..] ensures e !in Delivered(unread[..n]) {
      var i :| n <= i < |unread| && unread[i] == e;
    }
    forall e | e in Delivered(unread[..n]) ensures e in unread && e !in acked { }
  }

  ghost predicate PoolInv(pool: map<nat, PoolJob>, accepted: set<Id>) {
    forall t | t in pool && pool[t].Accepted? :: pool[t].entry in accepted
  }

  lemma GroupSplit(s: State)
    ensures GroupInv(s) <==>
              EntriesInv(s.unread, s.pending, s.acked, s.accepted + s.malformed) && PoolInv(s.pool, s.accepted)
  {
  }

  lemma StepKeepsPool(s: State, a: Action)
    requires PoolInv(s.pool, s.accepted) && Enabled(s, a)
    ensures PoolInv(Next(s, a).pool, Next(s, a).accepted)
  {
    hide NoDuplicates;
  }

  lemma StepKeepsEntries(s: State, a: Action)
    requires EntriesInv(s.unread, s.pending, s.acked, s.accepted + s.malformed) && PoolInv(s.pool, s.accepted)
             && Enabled(s, a)
    ensures var s' := Next(s, a); EntriesInv(s'.unread, s'.pending, s'.acked, s'.accepted + s'.malformed)
  {
    if a.Read? || a.ReadReplyLost? || a.OtherReads? {
      DeliveryKeepsEntries(s.unread, s.pending, s.acked, s.accepted + s.malformed, a.n);
      hide EntriesInv, PoolInv;
    } else if a.Arrive? {
      hide PoolInv;
    } else {
      assert Next(s, a).unread == s.unread;
      hide NoDuplicates;
    }
  }

  lemma StepKeepsGroup(s: State, a: Action)
    requires GroupInv(s) && Enabled(s, a)
    ensures GroupInv(Next(s, a))
  {
    hide Enabled, Next, GroupInv, EntriesInv, PoolInv;
    GroupSplit(s);
    StepKeepsPool(s, a);
    StepKeepsEntries(s, a);
    GroupSplit(Next(s, a));
  }

  lemma StepKeepsCounter(s: State, a: Action)
    requires CounterInv(s) && Enabled(s, a)
    ensures CounterInv(Next(s, a))
  {
    match a {
      case Take(t) => assert s.pool[t := Calling(s.queue[0])].Keys == s.pool.Keys + {t};
      case CallOk(t) => assert s.pool[t := Accepted(s.pool[t].entry)].Keys == s.pool.Keys;
      case CallFails(t) => assert s.pool[t := Settling(s.pool[t].entry)].Keys == s.pool.Keys;
      case Ack(t, _) => assert s.pool[t := Settling(s.pool[t].entry)].Keys == s.pool.Keys;
      case Settle(t) => assert (s.pool - {t}).Keys == s.pool.Keys - {t};
      case PoolThrow(t) => assert (s.pool - {t}).Keys == s.pool.Keys - {t};
      case _ =>
    }
  }

  lemma StepKeepsCeiling(s: State, a: Action)
    requires s.inflight <= Ceiling(s.phase) && Enabled(s, a)
    ensures Next(s, a).inflight <= Ceiling(Next(s, a).phase)
  {
  }

  ghost predicate Step(s: State, a: Action, s': State) {
    Enabled(s, a) && s' == Next(s, a)
  }

  ghost predicate IsRun(run: seq<State>, actions: seq<Action>) {
    && |run| == |actions| + 1 && Initial(run[0])
    && forall i | 0 <= i < |actions| :: Step(run[i], actions[i], run[i + 1])
  }

  lemma {:induction false} RunsKeepInv(run: seq<State>, actions: seq<Action>, i: nat)
    requires IsRun(run, actions) && i < |run|
    ensures Inv(run[i])
  {
    if i > 0 {
      RunsKeepInv(run, actions, i - 1);
      assert Step(run[i - 1], actions[i - 1], run[i - 1 + 1]);
      hide IsRun, GroupInv, CounterInv, Next, Enabled, Ceiling;
      StepKeepsGroup(run[i - 1], actions[i - 1]);
      StepKeepsCounter(run[i - 1], actions[i - 1]);
      StepKeepsCeiling(run[i - 1], actions[i - 1]);
    }
  }

  /** The in-flight counter stays between zero and 2000 + 50 + 20 in every interleaving. */
  lemma InflightBounded(run: seq<State>, actions: seq<Action>, i: nat)
    requires IsRun(run, actions) && i < |run|
    ensures 0 <= run[i].inflight <= 2070
  {
    RunsKeepInv(run, actions, i);
  }

  ghost predicate Leaks(a: Action) {
    a.Throw? || a.BreakOnStop? || a.PoolThrow?
  }

  /** Without exceptions and early stops the counter is exact. */
  lemma {:induction false} InflightExact(run: seq<State>, actions: seq<Action>, i: nat)
    requires IsRun(run, actions) && i < |run|
    requires forall k | 0 <= k < i :: !Leaks(actions[k])
    ensures run[i].inflight == |Rest(run[i].phase)| + |run[i].queue| + |run[i].pool|
  {
    RunsKeepInv(run, actions, i);
    NoLeakUpTo(run, actions, i);
  }

  lemma {:induction false} NoLeakUpTo(run: seq<State>, actions: seq<Action>, i: nat)
    requires IsRun(run, actions) && i < |run| && forall k | 0 <= k < i :: !Leaks(actions[k])
    ensures run[i].leaked == 0
  {
    if i > 0 {
      NoLeakUpTo(run, actions, i - 1);
      assert Step(run[i - 1], actions[i - 1], run[i - 1 + 1]);
    }
  }

  /** Conversely every exception or early stop in the middle of a batch makes the counter too high for
      the rest of the run: leaked deliveries are never given back. */
  lemma {:induction false} LeaksStay(run: seq<State>, actions: seq<Action>, i: nat, k: nat)
    requires IsRun(run, actions) && i < k < |run| && Leaks(actions[i])
    ensures run[k].leaked > run[i].leaked
    ensures run[k].inflight > |Rest(run[k].phase)| + |run[k].queue| + |run[k].pool|
    decreases k
  {
    RunsKeepInv(run, actions, k);
    assert run[k].inflight == |Rest(run[k].phase)| + |run[k].queue| + |run[k].pool| + run[k].leaked;
    RunsKeepInv(run, actions, i);
    assert Step(run[k - 1], actions[k - 1], run[k - 1 + 1]);
    hide Inv;
    LeakStep(run[k - 1], actions[k - 1]);
    if i < k - 1 {
      LeaksStay(run, actions, i, k - 1);
    }
  }

  lemma LeakStep(s: State, a: Action)
    requires Enabled(s, a)
    ensures Next(s, a).leaked >= s.leaked && (Leaks(a) ==> Next(s, a).leaked > s.leaked)
  {
  }

  lemma EntryStays(s: State, a: Action, e: Id)
    requires Enabled(s, a) && (e in s.pending || e in s.acked)
    ensures e in Next(s, a).pending || e in Next(s, a).acked
    ensures e in s.acked ==> e in Next(s, a).acked
  {
  }

  lemma SettledOrClaimable(s: State, e: Id)
    requires Inv(s)
    ensures e in s.acked ==> e in s.accepted || e in s.malformed
    ensures s.phase.Checked? && e in s.pending ==> Enabled(s, Claim([e]))
  {
  }

  /** No entry is lost: once delivered to the group it is pending or acknowledged in every later state,
      acknowledged only after some RunTask call for it was accepted unless it is malformed, and while it
      is pending a rescue can claim it. */
  lemma {:induction false} NoEntryLost(run: seq<State>, actions: seq<Action>, i: nat, k: nat, e: Id)
    requires IsRun(run, actions) && i <= k < |run| && (e in run[i].pending || e in run[i].acked)
    ensures e in run[k].pending || e in run[k].acked
    ensures e in run[k].acked ==> e in run[k].accepted || e in run[k].malformed
    ensures e in run[i].acked ==> e in run[k].acked
    ensures run[k].phase.Checked? && e in run[k].pending ==> Enabled(run[k], Claim([e]))
    decreases k
  {
    hide Inv, Enabled, Next;
    RunsKeepInv(run, actions, k);
    SettledOrClaimable(run[k], e);
    if i < k {
      NoEntryLost(run, actions, i, k - 1, e);
      assert Step(run[k - 1], actions[k - 1], run[k - 1 + 1]);
      hide IsRun;
      EntryStays(run[k - 1], actions[k - 1], e);
    }
  }

  // ---------------------------------------------------------------- two runs

  /** A fresh scheduler and an empty stream. */
  const FRESH_SCHEDULER := State([], {}, {}, {}, {}, 0, Top, [], map[], false, 0, {})

  /** One entry arrives and is read. */
  function Reading(i: nat): State {
    if i == 0 then FRESH_SCHEDULER
    else if i == 1 then FRESH_SCHEDULER.(unread := ["e"])
    else if i == 2 then FRESH_SCHEDULER.(unread := ["e"], phase := Checked)
    else if i == 3 then FRESH_SCHEDULER.(unread := ["e"], phase := Ready)
    else FRESH_SCHEDULER.(pending := {"e"}, phase := Dispatching(["e"]), inflight := 1)
  }

  function ReadingAction(i: nat): Action {
    if i == 0 then Arrive("e") else if i == 1 then PassBackpressure else if i == 2 then SkipRescue else Read(1)
  }

  lemma ReadingStep(i: nat)
    requires i < 4
    ensures Step(Reading(i), ReadingAction(i), Reading(i + 1))
  {
    if i == 3 {
      assert ["e"][1..] == [] && ["e"][..1] == ["e"];
      assert Delivered(["e"]) == {"e"};
    }
  }

  lemma FreshIsInitial()
    ensures Initial(FRESH_SCHEDULER)
  {
  }

  /** Leaks happen: an exception in the middle of a batch leaves the counter at one with nothing in flight. */
  lemma ExceptionLeaks() returns (run: seq<State>, actions: seq<Action>)
    ensures IsRun(run, actions) && |actions| == 5 && Leaks(actions[4])
    ensures var s := run[5]; s.inflight == 1 && Rest(s.phase) == [] && s.queue == [] && s.pool == map[]
  {
    run := [Reading(0), Reading(1), Reading(2), Reading(3), Reading(4), Interrupted()];
    actions := [ReadingAction(0), ReadingAction(1), ReadingAction(2), ReadingAction(3), Throw];
    ReadingStep(0);
    ReadingStep(1);
    ReadingStep(2);
    ReadingStep(3);
    ExceptionStep();
    FreshIsInitial();
    hide Step, Initial, Interrupted;
    assert forall i | 0 <= i < 5 :: Step(run[i], actions[i], run[i + 1]);
  }

  function Interrupted(): State {
    Reading(4).(phase := Top, leaked := 1)
  }

  lemma ExceptionStep()
    ensures Step(Reading(4), Throw, Interrupted())
    ensures var s := Interrupted(); s.inflight == 1 && Rest(s.phase) == [] && s.queue == [] && s.pool == map[]
  {
  }

  /** The rest of a successful dispatch. */
  function DispatchPoint(i: nat): State {
    var s := Reading(4).(phase := Dispatching([]));
    if i == 0 then Reading(4)
    else if i == 1 then s.(queue := ["e"])
    else if i == 2 then s.(pool := map[0 := Calling("e")])
    else if i == 3 then s.(pool := map[0 := Accepted("e")], accepted := {"e"})
    else s.(pool := map[0 := Settling("e")], accepted := {"e"}, pending := {}, acked := {"e"})
  }

  function DispatchAction(i: nat): Action {
    if i == 0 then Enqueue else if i == 1 then Take(0) else if i == 2 then CallOk(0) else Ack(0, true)
  }

  lemma DispatchStep(i: nat)
    requires i < 4
    ensures Step(DispatchPoint(i), DispatchAction(i), DispatchPoint(i + 1))
  {
    if i == 0 {
      assert ["e"][1..] == [];
    } else if i == 1 {
      assert ["e"][1..] == [];
    }
  }

  /** An entry is acknowledged as soon as a worker has accepted the call, before any report. */
  lemma AcknowledgedBeforeReport() returns (run: seq<State>, actions: seq<Action>)
    ensures IsRun(run, actions) && "e" in run[|actions|].acked && run[|actions|].reported == {}
  {
    run := [Reading(0), Reading(1), Reading(2), Reading(3), Reading(4),
            DispatchPoint(1), DispatchPoint(2), DispatchPoint(3), DispatchPoint(4)];
    actions := [ReadingAction(0), ReadingAction(1), ReadingAction(2), ReadingAction(3),
                DispatchAction(0), DispatchAction(1), DispatchAction(2), DispatchAction(3)];
    ReadingStep(0);
    ReadingStep(1);
    ReadingStep(2);
    ReadingStep(3);
    DispatchStep(0);
    DispatchStep(1);
    DispatchStep(2);
    DispatchStep(3);
    FreshIsInitial();
    hide Step, Initial;
    assert forall i | 0 <= i < 8 :: Step(run[i], actions[i], run[i + 1]);
  }
}
