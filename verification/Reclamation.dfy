/** Freeing takes the contents away: the machine in which a freed node is gone, and the histories in which
    nobody notices. */
module Reclamation {
  import opened MpmcQueue
  import opened MpmcRefinement
  import opened HazardPointers
  import opened HazardTheorems

  function Without(mem: Memory, gone: set<Node>): Memory {
    mem.(next := mem.next - gone, data := mem.data - gone)
  }

  /** What is left of a machine that remembers the contents of freed nodes. */
  function Erase(m: Machine): Machine {
    m.(q := Queue(Without(m.q.mem, m.freed), m.q.threads))
  }

  /** The same events, but FreeNode destroys the node. Addresses are not used again. */
  function RealAfter(r: Machine, e: Event): Machine {
    var s := After(r, e);
    if e.FreeNode? then s.(q := Queue(Without(s.q.mem, {e.ptr}), s.q.threads)) else s
  }

  predicate RealPossible(r: Machine, e: Event) {
    Possible(r, e) && (e.QueueStep? && e.action.StartEnqueue? ==> e.action.node !in r.freed)
  }

  /** The node whose fields the next step of a thread reads or writes through a pointer. */
  function Touched(l: Local): Link {
    match l
    case EnqReadNext(_, ct) => To(ct)
    case EnqLink(_, ct) => To(ct)
    case DeqReadNext(ch, _) => To(ch)
    case DeqReadData(_, nx, _) => To(nx)
    case _ => Null
  }

  predicate Faults(r: Machine, e: Event) {
    && e.QueueStep? && e.action.Advance?
    && var n := Touched(At(r.q, e.action.tid)); n.To? && n.node in r.freed
  }

  ghost predicate Turns(r: Machine, e: Event, r': Machine) {
    RealPossible(r, e) && r' == RealAfter(r, e)
  }

  ghost predicate IsRealHistory(run: seq<Machine>, events: seq<Event>) {
    && |run| == |events| + 1 && Initial(run[0])
    && forall i | 0 <= i < |events| :: Turns(run[i], events[i], run[i + 1])
  }

  // ---------------------------------------------------------------- one event

  lemma StepCommutes(mem: Memory, gone: set<Node>, l: Local, cas: bool)
    requires Touched(l).To? ==> Touched(l).node !in gone
    requires l.DeqPop? && mem.head == l.currHead ==> l.first !in gone
    ensures StepLocal(Without(mem, gone), l, cas) ==
              (Without(StepLocal(mem, l, cas).0, gone), StepLocal(mem, l, cas).1)
  {
    if l.EnqLink? {
      assert mem.next[l.currTail := To(l.own)] - gone == (mem.next - gone)[l.currTail := To(l.own)];
    }
  }

  lemma FirstIsNotFreed(m: Machine, t: Tid)
    requires HazardInv(m) && At(m.q, t).DeqPop? && m.q.mem.head == At(m.q, t).currHead
    ensures At(m.q, t).first !in m.freed
  {
    HazardParts(m);
    InvAt(m.q, t);
    hide HazardInv, Inv, HoldersInv, ListInv, SoleUnlinkers, GuardInv, UnlinkedInv, MemInv, HasData, ReclaimInv;
    NextOfHeadNotPassed(m.q.mem, At(m.q, t));
    NotPassedIsSafe(m, At(m.q, t).first);
  }

  lemma AdvanceCommutes(m: Machine, a: Action)
    requires HazardInv(m) && Possible(m, QueueStep(a)) && a.Advance? && !Faults(m, QueueStep(a))
    ensures RealPossible(Erase(m), QueueStep(a))
    ensures RealAfter(Erase(m), QueueStep(a)) == Erase(After(m, QueueStep(a)))
  {
    var l := At(m.q, a.tid);
    if l.DeqPop? && m.q.mem.head == l.currHead { FirstIsNotFreed(m, a.tid); }
    hide HazardInv;
    StepCommutes(m.q.mem, m.freed, l, a.casSucceeds);
    var q, q' := Erase(m).q, Erase(After(m, QueueStep(a))).q;
    assert At(q, a.tid) == l;
    EffectIgnoresMemory(m, q, q', a);
    assert HazardEffect(m, a).freed == m.freed by { EffectFreesNothing(m, a); }
    hide StepLocal, Without, HazardEffect, Leaving, At;
  }

  lemma EffectFreesNothing(m: Machine, a: Action)
    ensures HazardEffect(m, a).freed == m.freed
  {
    hide Store, At;
  }

  /** The effect on the slots depends on the queue only through the thread's own position. */
  lemma EffectIgnoresMemory(m: Machine, q: Queue, q': Queue, a: Action)
    requires At(q, a.tid) == At(m.q, a.tid)
    ensures HazardEffect(m.(q := q), a).(q := q') == HazardEffect(m, a).(q := q')
  {
    hide Store, At;
  }

  lemma StartCommutes(m: Machine, a: Action)
    requires Possible(m, QueueStep(a)) && !a.Advance? && (a.StartEnqueue? ==> a.node !in m.freed)
    ensures RealPossible(Erase(m), QueueStep(a))
    ensures RealAfter(Erase(m), QueueStep(a)) == Erase(After(m, QueueStep(a)))
  {
    assert At(Erase(m).q, a.tid) == At(m.q, a.tid);
    if a.StartEnqueue? {
      assert m.q.mem.next[a.node := Null] - m.freed == (m.q.mem.next - m.freed)[a.node := Null];
      assert m.q.mem.data[a.node := a.value] - m.freed == (m.q.mem.data - m.freed)[a.node := a.value];
    }
    hide Store, Leaving, InDequeue;
  }

  lemma OtherCommutes(m: Machine, e: Event)
    requires Possible(m, e) && !e.QueueStep?
    ensures RealPossible(Erase(m), e)
    ensures RealAfter(Erase(m), e) == Erase(After(m, e))
  {
    var t := Actor(e);
    assert At(Erase(m).q, t) == At(m.q, t);
    if e.FreeNode? {
      assert (m.q.mem.next - m.freed) - {e.ptr} == m.q.mem.next - (m.freed + {e.ptr});
      assert (m.q.mem.data - m.freed) - {e.ptr} == m.q.mem.data - (m.freed + {e.ptr});
    }
    hide At, Leaving, Store, SetOwner, SetLinked, Without;
  }

  /** As long as no freed node is touched, taking the contents away makes no difference. */
  lemma EraseCommutes(m: Machine, e: Event)
    requires HazardInv(m) && Possible(m, e) && !Faults(m, e)
    requires e.QueueStep? && e.action.StartEnqueue? ==> e.action.node !in m.freed
    ensures RealPossible(Erase(m), e) && RealAfter(Erase(m), e) == Erase(After(m, e))
  {
    hide HazardInv, After, RealAfter, RealPossible, Faults, Possible, Erase;
    if !e.QueueStep? {
      OtherCommutes(m, e);
    } else if e.action.Advance? {
      AdvanceCommutes(m, e.action);
    } else {
      StartCommutes(m, e.action);
    }
  }

  lemma RealIsPossible(m: Machine, e: Event)
    requires RealPossible(Erase(m), e)
    ensures Possible(m, e) && (Faults(Erase(m), e) <==> Faults(m, e)) && (Harmless(Erase(m), e) <==> Harmless(m, e))
    ensures e.QueueStep? && e.action.StartEnqueue? ==> e.action.node !in m.freed
  {
    assert forall t :: At(Erase(m).q, t) == At(m.q, t);
    hide At, Leaving, Touched, Relied;
  }

  // ---------------------------------------------------------------- whole histories

  ghost predicate NoFaults(run: seq<Machine>, events: seq<Event>)
    requires |run| == |events| + 1
  {
    forall i | 0 <= i < |events| :: !Faults(run[i], events[i])
  }

  /** A history in which nobody touches a freed node is the erasure of one in which freeing changes nothing. */
  lemma {:induction false} RealHistoryLifts(run: seq<Machine>, events: seq<Event>) returns (whole: seq<Machine>)
    requires IsRealHistory(run, events) && NoFaults(run, events) && NoHarmfulCut(run, events)
    ensures IsHistory(whole, events) && NoHarmfulCut(whole, events)
    ensures forall i | 0 <= i < |run| :: run[i] == Erase(whole[i])
    decreases |events|
  {
    hide HazardInv, RealPossible, RealAfter, Possible, After, Faults, Harmless;
    var k := |events|;
    if k == 0 {
      whole := run;
      assert Erase(run[0]) == run[0] by { NothingErased(run[0]); }
    } else {
      assert forall i | 0 <= i < k - 1 :: Turns(run[i], events[i], run[i + 1]);
      var before := RealHistoryLifts(run[..k], events[..k - 1]);
      HistoriesKeepInv(before, events[..k - 1], k - 1);
      var m, e := before[k - 1], events[k - 1];
      assert Turns(run[k - 1], e, run[k - 1 + 1]) && run[k - 1] == Erase(m);
      RealIsPossible(m, e);
      assert !Faults(run[k - 1], e) && Harmless(run[k - 1], e);
      EraseCommutes(m, e);
      whole := before + [After(m, e)];
      assert Happens(m, e, After(m, e));
      ExtendHistory(before, events, After(m, e));
      hide IsRealHistory, Erase;
    }
  }

  lemma NothingErased(m: Machine)
    requires Initial(m)
    ensures Erase(m) == m
  {
    assert m.q.mem.next - {} == m.q.mem.next && m.q.mem.data - {} == m.q.mem.data;
  }

  lemma ExtendHistory(run: seq<Machine>, events: seq<Event>, m: Machine)
    requires events != [] && IsHistory(run, events[..|events| - 1]) && NoHarmfulCut(run, events[..|events| - 1])
    requires var k := |events| - 1; Happens(run[k], events[k], m) && Harmless(run[k], events[k])
    ensures IsHistory(run + [m], events) && NoHarmfulCut(run + [m], events)
  {
    var k, longer := |events| - 1, run + [m];
    hide Happens, Harmless, Initial;
    forall i | 0 <= i < |events| ensures Happens(longer[i], events[i], longer[i + 1])
      && Harmless(longer[i], events[i]) {
      if i < k { assert Happens(run[i], events[..k][i], run[i + 1]) && Harmless(run[i], events[..k][i]); }
    }
  }

  function Erased(run: seq<Machine>): (r: seq<Machine>)
    ensures |r| == |run| && forall i | 0 <= i < |run| :: r[i] == Erase(run[i])
  {
    seq(|run|, i requires 0 <= i < |run| => Erase(run[i]))
  }

  /** A thread's new node is none of those freed before. */
  lemma FreshIsNotFreed(m: Machine, e: Event)
    requires HazardInv(m) && Possible(m, e) && e.QueueStep? && e.action.StartEnqueue?
    ensures e.action.node !in m.freed
  {
    HazardParts(m);
    InvAt(m.q, e.action.tid);
    hide HazardInv, Inv, HoldersInv, ListInv, SoleUnlinkers, GuardInv, UnlinkedInv, HasData, LocalInv, At;
    if e.action.node in m.freed {
      assert Passed(m, e.action.node);
      MemHasChain(m.q.mem);
      ChainHasNext(m.q.mem, e.action.node);
    }
  }

  lemma EventErases(m: Machine, e: Event)
    requires Possible(m, e) && !Faults(m, e) && (e.QueueStep? ==> HazardInv(m))
    ensures RealPossible(Erase(m), e) && RealAfter(Erase(m), e) == Erase(After(m, e))
  {
    hide HazardInv, After, RealAfter, RealPossible, Faults, Possible, Erase;
    if e.QueueStep? {
      if e.action.StartEnqueue? { FreshIsNotFreed(m, e); }
      EraseCommutes(m, e);
    } else {
      OtherCommutes(m, e);
    }
  }

  /** Conversely, a history without faults whose queue steps start in states in order really happens, with the
      freed nodes gone. */
  lemma ErasedIsReal(run: seq<Machine>, events: seq<Event>)
    requires IsHistory(run, events) && NoFaults(run, events)
    requires forall i | 0 <= i < |events| && events[i].QueueStep? :: HazardInv(run[i])
    ensures IsRealHistory(Erased(run), events) && NoFaults(Erased(run), events)
    ensures forall i | 0 <= i < |events| :: Harmless(Erased(run)[i], events[i]) <==> Harmless(run[i], events[i])
  {
    var erased := Erased(run);
    NothingErased(run[0]);
    hide HazardInv, After, RealAfter, RealPossible, Faults, Possible, Erase, Harmless, Initial, Erased;
    forall i | 0 <= i < |events|
      ensures Turns(erased[i], events[i], erased[i + 1]) && !Faults(erased[i], events[i])
      ensures Harmless(erased[i], events[i]) <==> Harmless(run[i], events[i])
    {
      assert Happens(run[i], events[i], run[i + 1]);
      EventErases(run[i], events[i]);
      RealIsPossible(run[i], events[i]);
    }
  }

  lemma FreedStays(m: Machine, e: Event)
    requires Possible(m, e)
    ensures m.freed <= After(m, e).freed
  {
    if e.QueueStep? { EffectFreesNothing(m, e.action); }
    hide HazardEffect, At, Next, Store, SetOwner, SetLinked;
  }

  lemma {:induction false} NothingFreedBefore(run: seq<Machine>, events: seq<Event>, i: nat, k: nat)
    requires IsHistory(run, events) && i <= k < |run| && run[k].freed == {}
    ensures run[i].freed == {}
    decreases k - i
  {
    hide Possible, After, Initial;
    if i < k {
      assert Happens(run[k - 1], events[k - 1], run[k - 1 + 1]);
      FreedStays(run[k - 1], events[k - 1]);
      NothingFreedBefore(run, events, i, k - 1);
    }
  }

  ghost predicate Gone(r: Machine, n: Node) {
    n !in r.q.mem.next && n !in r.q.mem.data
  }

  lemma StepBringsNothingBack(mem: Memory, l: Local, cas: bool, n: Node)
    requires n !in mem.next && n !in mem.data && Touched(l) != To(n)
    ensures var mem' := StepLocal(mem, l, cas).0; n !in mem'.next && n !in mem'.data
  {
  }

  lemma GoneStays(r: Machine, e: Event, n: Node)
    requires RealPossible(r, e) && !Faults(r, e) && n in RealAfter(r, e).freed && (n in r.freed ==> Gone(r, n))
    ensures Gone(RealAfter(r, e), n)
  {
    if e.QueueStep? {
      EffectFreesNothing(r, e.action);
      if e.action.Advance? {
        StepBringsNothingBack(r.q.mem, At(r.q, e.action.tid), e.action.casSucceeds, n);
        hide StepLocal, HazardEffect, Touched, Possible, At;
      }
    } else {
      hide Possible, At;
    }
  }

  /** As long as nobody touches a freed node, all freed nodes are really gone. */
  lemma {:induction false} FreedIsGone(run: seq<Machine>, events: seq<Event>, i: nat, n: Node)
    requires IsRealHistory(run, events) && NoFaults(run, events) && i < |run| && n in run[i].freed
    ensures n !in run[i].q.mem.next && n !in run[i].q.mem.data
  {
    hide RealAfter, RealPossible, Faults, Initial;
    if i == 0 {
      NoneFreedAtStart(run[0], n);
    } else {
      assert Turns(run[i - 1], events[i - 1], run[i - 1 + 1]);
      if n in run[i - 1].freed { FreedIsGone(run, events, i - 1, n); }
      GoneStays(run[i - 1], events[i - 1], n);
    }
  }

  lemma NoneFreedAtStart(m: Machine, n: Node)
    requires Initial(m)
    ensures n !in m.freed
  {
  }

  lemma NoFaultWithoutFreed(m: Machine, e: Event)
    requires m.freed == {}
    ensures !Faults(m, e)
  {
  }

  /** Nothing was freed up to state k and only the reclaimer moves after it: nobody has touched a freed node. */
  lemma NobodyFaulted(run: seq<Machine>, events: seq<Event>, k: nat)
    requires IsHistory(run, events) && k < |run| && run[k].freed == {}
    requires forall i | k < i < |events| :: !events[i].QueueStep?
    ensures NoFaults(run, events)
  {
    forall i | 0 <= i < |events| ensures !Faults(run[i], events[i]) {
      if i <= k {
        NothingFreedBefore(run, events, i, k);
        NoFaultWithoutFreed(run[i], events[i]);
      }
    }
  }

  predicate AccessesTail(l: Local) {
    l.EnqReadNext? || l.EnqLink?
  }

  /** The enqueuer's node is at or beyond the head. */
  ghost predicate AheadOfHead(m: Machine, l: Local) {
    AccessesTail(l) ==> l.currTail in m.q.mem.pos && m.q.mem.H() <= m.q.mem.pos[l.currTail]
  }

  /** The event does not let an enqueuer access a node the head has passed. */
  ghost predicate Careful(m: Machine, e: Event) {
    e.QueueStep? && e.action.Advance? ==> AheadOfHead(m, At(m.q, e.action.tid))
  }

  lemma DequeuersTouchLiveNodes(m: Machine, t: Tid)
    requires HazardInv(m) && Touched(At(m.q, t)).To? && !AccessesTail(At(m.q, t))
    ensures Touched(At(m.q, t)).node !in m.freed
  {
    InvIsSafe(m);
    assert t in m.q.threads && m.q.threads[t] == At(m.q, t);
    assert Dereferenced(At(m.q, t)) == Touched(At(m.q, t));
  }

  /** Dequeuers never touch a freed node; an enqueuer can only if the head has passed its node. */
  lemma OnlyLateEnqueuersFault(m: Machine, e: Event)
    requires HazardInv(m) && Faults(m, e)
    ensures AccessesTail(At(m.q, e.action.tid)) && !AheadOfHead(m, At(m.q, e.action.tid)) && !Careful(m, e)
  {
    var l := At(m.q, e.action.tid);
    HazardParts(m);
    assert l.EnqReadNext? || l.EnqLink? ==> Passed(m, l.currTail);
    if !AccessesTail(l) {
      DequeuersTouchLiveNodes(m, e.action.tid);
    }
  }

  ghost predicate CarefulThroughout(run: seq<Machine>, events: seq<Event>)
    requires |run| == |events| + 1
  {
    forall i | 0 <= i < |events| :: Careful(run[i], events[i])
  }

  lemma {:induction false} CarefulHistoriesHaveNoFaults(run: seq<Machine>, events: seq<Event>)
    requires IsRealHistory(run, events) && CarefulThroughout(run, events) && NoHarmfulCut(run, events)
    ensures NoFaults(run, events)
    decreases |events|
  {
    hide HazardInv, RealPossible, RealAfter, Faults, Harmless, Careful, Initial;
    var k := |events|;
    if k > 0 {
      assert forall i | 0 <= i < k - 1 :: Turns(run[i], events[i], run[i + 1]);
      CarefulHistoriesHaveNoFaults(run[..k], events[..k - 1]);
      var whole := RealHistoryLifts(run[..k], events[..k - 1]);
      HistoriesKeepInv(whole, events[..k - 1], k - 1);
      var m, e := whole[k - 1], events[k - 1];
      assert run[k - 1] == Erase(m) && Turns(run[k - 1], e, run[k - 1 + 1]);
      RealIsPossible(m, e);
      CarefulIsErased(m, e);
      if Faults(m, e) { OnlyLateEnqueuersFault(m, e); }
      forall i | 0 <= i < k ensures !Faults(run[i], events[i]) {
        if i < k - 1 { assert !Faults(run[..k][i], events[..k - 1][i]); }
      }
    }
  }

  lemma CarefulIsErased(m: Machine, e: Event)
    ensures Careful(Erase(m), e) <==> Careful(m, e)
  {
  }

  /** What the events did to the queue alone. */
  function QueueActions(events: seq<Event>): seq<Action> {
    if events == [] then []
    else
      var last := events[|events| - 1];
      QueueActions(events[..|events| - 1]) + if last.QueueStep? then [last.action] else []
  }

  lemma {:induction false} QueueOfHistory(run: seq<Machine>, events: seq<Event>) returns (queues: seq<Queue>)
    requires IsHistory(run, events)
    ensures IsRun(queues, QueueActions(events)) && queues[|queues| - 1] == run[|run| - 1].q
    decreases |events|
  {
    var k := |events|;
    hide Possible, After, Enabled, Next;
    if k == 0 {
      queues := [run[0].q];
    } else {
      assert Happens(run[k - 1], events[k - 1], run[k - 1 + 1]);
      var shorter := events[..k - 1];
      assert forall i | 0 <= i < k - 1 :: Happens(run[i], events[i], run[i + 1]);
      queues := QueueOfHistory(run[..k], shorter);
      hide IsHistory;
      EventOnQueue(run[k - 1], events[k - 1]);
      if events[k - 1].QueueStep? {
        RunGrows(queues, QueueActions(shorter), events[k - 1].action, run[k].q);
        queues := queues + [run[k].q];
      }
    }
  }

  lemma EventOnQueue(m: Machine, e: Event)
    requires Possible(m, e)
    ensures if e.QueueStep? then Step(m.q, e.action, After(m, e).q) else After(m, e).q == m.q
  {
    hide Next, Enabled;
  }

  lemma RunGrows(run: seq<Queue>, actions: seq<Action>, a: Action, q: Queue)
    requires IsRun(run, actions) && Step(run[|run| - 1], a, q)
    ensures IsRun(run + [q], actions + [a])
  {
    hide Step;
    forall i | 0 <= i < |actions| + 1 ensures Step((run + [q])[i], (actions + [a])[i], (run + [q])[i + 1]) {
      if i < |actions| { assert Step(run[i], actions[i], run[i + 1]); }
    }
  }

  /** The reclaimer is invisible to careful histories: although freed nodes are gone, the threads, the ends
      of the queue and every node that is left are those of a run of the queue alone. */
  lemma ReclaimerIsInvisible(run: seq<Machine>, events: seq<Event>) returns (queues: seq<Queue>)
    requires IsRealHistory(run, events) && CarefulThroughout(run, events) && NoHarmfulCut(run, events)
    ensures NoFaults(run, events)
    ensures IsRun(queues, QueueActions(events))
    ensures var r, q := run[|events|], queues[|queues| - 1];
            r.q.threads == q.threads && r.q.mem == Without(q.mem, r.freed)
  {
    CarefulHistoriesHaveNoFaults(run, events);
    var whole := RealHistoryLifts(run, events);
    hide IsRealHistory, NoHarmfulCut, CarefulThroughout, NoFaults;
    queues := QueueOfHistory(whole, events);
    hide IsHistory, IsRun;
  }
}
