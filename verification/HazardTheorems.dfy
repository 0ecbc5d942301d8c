/** What the hazard pointers promise over whole histories, and exactly when they do. */
module HazardTheorems {
  import opened MpmcQueue
  import opened MpmcRefinement
  import opened HazardPointers

  ghost predicate Initial(m: Machine) {
    m == Machine(Queue(InitialMemory(m.q.mem.head), map[]), [], Free, map[], {}, NoWalk, {}, {})
  }

  ghost predicate Happens(m: Machine, e: Event, m': Machine) {
    Possible(m, e) && m' == After(m, e)
  }

  ghost predicate IsHistory(run: seq<Machine>, events: seq<Event>) {
    && |run| == |events| + 1 && Initial(run[0])
    && forall i | 0 <= i < |events| :: Happens(run[i], events[i], run[i + 1])
  }

  /** No walk was cut short while it was looking for a node in use. */
  ghost predicate NoHarmfulCut(run: seq<Machine>, events: seq<Event>)
    requires |run| == |events| + 1
  {
    forall i | 0 <= i < |events| :: Harmless(run[i], events[i])
  }

  lemma InitialHazardInv(m: Machine)
    requires Initial(m)
    ensures HazardInv(m)
  {
  }

  lemma {:induction false} HistoriesKeepInv(run: seq<Machine>, events: seq<Event>, i: nat)
    requires IsHistory(run, events) && NoHarmfulCut(run, events) && i < |run|
    ensures HazardInv(run[i])
  {
    hide HazardInv, Possible, After, Harmless;
    if i == 0 {
      InitialHazardInv(run[0]);
    } else {
      HistoriesKeepInv(run, events, i - 1);
      assert Happens(run[i - 1], events[i - 1], run[i - 1 + 1]);
      EventKeepsInv(run[i - 1], events[i - 1]);
    }
  }

  // ---------------------------------------------------------------- safety of dequeuers

  /** The node whose field the next step of a dequeue reads: curr_head->next, then next->data. */
  function Dereferenced(l: Local): Link {
    match l
    case DeqReadNext(ch, _) => To(ch)
    case DeqReadData(_, nx, _) => To(nx)
    case _ => Null
  }

  /** No dequeuer is about to read through a freed node. */
  ghost predicate Safe(m: Machine) {
    forall t | t in m.q.threads && Dereferenced(m.q.threads[t]).To? :: Dereferenced(m.q.threads[t]).node !in m.freed
  }

  lemma InvIsSafe(m: Machine)
    requires HazardInv(m)
    ensures Safe(m)
  {
    HazardParts(m);
    forall t | t in m.q.threads && Dereferenced(m.q.threads[t]).To?
      ensures Dereferenced(m.q.threads[t]).node !in m.freed
    {
      assert m.q.threads[t] == At(m.q, t) && InDequeue(At(m.q, t));
      assert t in m.held && Fits(m.held[t], At(m.q, t)) && GuardInv(m, At(m.q, t), m.held[t]);
      hide HazardInv, Inv, HoldersInv, ListInv, ReclaimInv, SoleUnlinkers, UnlinkedInv, At;
    }
  }

  /** No dequeuer reads through a freed node, in any interleaving with the reclaimer and the other threads
      in which no harmful cut happens. */
  lemma NoDequeuerReadsFreedNode(run: seq<Machine>, events: seq<Event>, i: nat)
    requires IsHistory(run, events) && NoHarmfulCut(run, events) && i < |run|
    ensures Safe(run[i])
  {
    HistoriesKeepInv(run, events, i);
    InvIsSafe(run[i]);
  }

  // ---------------------------------------------------------------- exactly when

  /** The events are possible one after the other, none of them a harmful cut, and lead from m to m'. */
  ghost predicate LeadsHarmlessly(m: Machine, events: seq<Event>, m': Machine)
    decreases |events|
  {
    if events == [] then m' == m
    else Possible(m, events[0]) && Harmless(m, events[0]) && LeadsHarmlessly(After(m, events[0]), events[1..], m')
  }

  lemma {:induction false} HarmlessEventsKeepInv(m: Machine, events: seq<Event>, m': Machine)
    requires HazardInv(m) && LeadsHarmlessly(m, events, m')
    ensures HazardInv(m')
    decreases |events|
  {
    hide HazardInv, Possible, After, Harmless;
    if events != [] {
      EventKeepsInv(m, events[0]);
      HarmlessEventsKeepInv(After(m, events[0]), events[1..], m');
    }
  }

  /** After a cut the walk ends at once and the node it looked for can be freed. */
  lemma CutEndsInFree(m: Machine) returns (m2: Machine, m3: Machine)
    requires ReclaimInv(m) && CutsWalk(m, WalkStep)
    ensures var m1, p := After(m, WalkStep), m.walk.ptr;
            && Happens(m1, WalkStep, m2) && Happens(m2, FreeNode(p), m3)
            && Harmless(m1, WalkStep) && Harmless(m2, FreeNode(p))
            && m3.q == m.q && p in m3.freed && m3.held == m.held
  {
    var p := m.walk.ptr;
    var m1 := After(m, WalkStep);
    assert m1 == m.(walk := Checking(p, 0));
    m2 := m.(walk := NoWalk, retired := m.retired - {p}, condemned := m.condemned + {p});
    m3 := m2.(condemned := m2.condemned - {p}, freed := m2.freed + {p});
    hide ReclaimInv;
  }

  /** The fatal continuation of a harmful cut: the walk ends, the node is freed, and the thread that relies
      on it is about to read it. */
  lemma HarmfulCutIsFatal(m: Machine, e: Event) returns (rest: seq<Event>, m': Machine)
    requires HazardInv(m) && Possible(m, e) && !Harmless(m, e)
    ensures LeadsHarmlessly(After(m, e), rest, m') && !Safe(m')
  {
    hide HazardInv, Inv, HoldersInv, ListInv, ReclaimInv, SoleUnlinkers, GuardInv, UnlinkedInv, After, Possible, At;
    var p := m.walk.ptr;
    var t :| t in m.q.threads && Relied(m.q.threads[t]) == To(p);
    HazardParts(m);
    var m2, m3 := CutEndsInFree(m);
    hide Harmless;
    if m.q.threads[t].DeqReadTail? {
      var a := Advance(t, true);
      AdvanceIsPossible(m3, t);
      m' := After(m3, QueueStep(a));
      ReadsTail(m3, a);
      rest := [WalkStep, FreeNode(p), QueueStep(a)];
      QueueStepIsHarmless(m3, a);
      ThreeEvents(After(m, e), m2, m3, m', rest);
    } else {
      m' := m3;
      rest := [WalkStep, FreeNode(p)];
      TwoEvents(After(m, e), m2, m3, rest);
    }
  }

  lemma AdvanceIsPossible(m: Machine, t: Tid)
    requires t in m.q.threads && m.q.threads[t].DeqReadTail?
    ensures Possible(m, QueueStep(Advance(t, true)))
  {
  }

  lemma QueueStepIsHarmless(m: Machine, a: Action)
    ensures Harmless(m, QueueStep(a))
  {
  }

  lemma ReadsTail(m: Machine, a: Action)
    requires a.Advance? && a.tid in m.q.threads && m.q.threads[a.tid].DeqReadTail?
    ensures var m' := After(m, QueueStep(a));
            m'.freed == m.freed && a.tid in m'.q.threads
            && Dereferenced(m'.q.threads[a.tid]) == To(m.q.threads[a.tid].currHead)
  {
  }

  lemma TwoEvents(m: Machine, m1: Machine, m2: Machine, events: seq<Event>)
    requires |events| == 2 && Happens(m, events[0], m1) && Happens(m1, events[1], m2)
    requires Harmless(m, events[0]) && Harmless(m1, events[1])
    ensures LeadsHarmlessly(m, events, m2)
  {
    hide Harmless, Possible, After;
    assert events[1..][0] == events[1] && events[1..][1..] == [];
    assert LeadsHarmlessly(m2, [], m2);
    assert LeadsHarmlessly(m1, events[1..], m2);
  }

  lemma ThreeEvents(m: Machine, m1: Machine, m2: Machine, m3: Machine, events: seq<Event>)
    requires |events| == 3 && Happens(m, events[0], m1) && Happens(m1, events[1], m2) && Happens(m2, events[2], m3)
    requires Harmless(m, events[0]) && Harmless(m1, events[1]) && Harmless(m2, events[2])
    ensures LeadsHarmlessly(m, events, m3)
  {
    hide Harmless, Possible, After;
    TwoEvents(m1, m2, m3, events[1..]);
  }

  /** The exact condition: an event of a machine in order is safe in every continuation without harmful cuts
      if and only if it is not itself one. */
  lemma SafeIffHarmless(m: Machine, e: Event)
    requires HazardInv(m) && Possible(m, e)
    ensures Harmless(m, e) <==> forall rest, m' | LeadsHarmlessly(After(m, e), rest, m') :: Safe(m')
  {
    hide HazardInv, Possible, After, Harmless, Safe;
    if Harmless(m, e) {
      EventKeepsInv(m, e);
      forall rest, m' | LeadsHarmlessly(After(m, e), rest, m') ensures Safe(m') {
        HarmlessEventsKeepInv(After(m, e), rest, m');
        InvIsSafe(m');
      }
    } else {
      var rest, m' := HarmfulCutIsFatal(m, e);
    }
  }

  /** Only between the two stores that append a slot can a walk be cut, and only at that slot. */
  lemma OnlyAppendsCutWalks(m: Machine, e: Event)
    requires HazardInv(m) && Possible(m, e) && CutsWalk(m, e)
    ensures m.mutex.OwnedBy? && m.walk.at == |m.slots| - 1
  {
    hide HazardInv, Inv, HoldersInv, SoleUnlinkers, GuardInv, UnlinkedInv, At, Passed, Linking, NewSlot;
    HazardParts(m);
  }

  /** No walk follows a next_ while the list mutex is held. */
  ghost predicate WalksOutsideAppends(run: seq<Machine>, events: seq<Event>)
    requires |run| == |events| + 1
  {
    forall i | 0 <= i < |events| && events[i].WalkStep? && run[i].walk.Following? :: run[i].mutex.Free?
  }

  lemma NoAppendNoCut(m: Machine, e: Event)
    requires HazardInv(m) && Possible(m, e) && (e.WalkStep? && m.walk.Following? ==> m.mutex.Free?)
    ensures Harmless(m, e)
  {
    hide HazardInv, Possible;
    if CutsWalk(m, e) { OnlyAppendsCutWalks(m, e); }
  }

  /** What a caller can enforce: if no walk follows a next_ while the list mutex is held, for instance because
      the walk takes that mutex, no cut is harmful, and no dequeuer reads through a freed node. */
  lemma {:induction false} LockedWalksAreSafe(run: seq<Machine>, events: seq<Event>)
    requires IsHistory(run, events) && WalksOutsideAppends(run, events)
    ensures NoHarmfulCut(run, events) && Safe(run[|events|])
    decreases |events|
  {
    hide HazardInv, Possible, After, Harmless, Initial, Safe;
    var k := |events|;
    if k > 0 {
      var before, shorter := run[..k], events[..k - 1];
      assert forall i | 0 <= i < k - 1 :: Happens(run[i], events[i], run[i + 1]);
      LockedWalksAreSafe(before, shorter);
      HistoriesKeepInv(before, shorter, k - 1);
      assert Happens(run[k - 1], events[k - 1], run[k - 1 + 1]);
      NoAppendNoCut(run[k - 1], events[k - 1]);
      assert forall i | 0 <= i < k - 1 :: Harmless(before[i], shorter[i]);
    }
    NoDequeuerReadsFreedNode(run, events, k);
  }

  // ---------------------------------------------------------------- reclamation

  /** Every node is freed at most once, and only after the head has passed it. */
  lemma FreedOnceAndUnreachable(run: seq<Machine>, events: seq<Event>, i: nat)
    requires IsHistory(run, events) && NoHarmfulCut(run, events) && i < |events| && events[i].FreeNode?
    ensures events[i].ptr !in run[i].freed && Passed(run[i], events[i].ptr)
    ensures events[i].ptr in run[i + 1].freed
  {
    hide HazardInv, Inv, SoleUnlinkers, UnlinkedInv, GuardInv, HoldersInv, ListInv, Passed, At, Harmless, Initial;
    HistoriesKeepInv(run, events, i);
    assert Happens(run[i], events[i], run[i + 1]);
    hide IsHistory, NoHarmfulCut;
    FreedOnce(run[i], events[i], run[i + 1]);
  }

  lemma FreedOnce(m: Machine, e: Event, m': Machine)
    requires HazardInv(m) && Happens(m, e, m') && e.FreeNode?
    ensures e.ptr !in m.freed && Passed(m, e.ptr) && e.ptr in m'.freed
  {
    hide HazardInv, Inv, SoleUnlinkers, UnlinkedInv, GuardInv, HoldersInv, ListInv, Passed, At;
    HazardParts(m);
  }

  ghost predicate UnlinkedBySomeone(q: Queue, n: Node) {
    exists t :: t in q.threads && Unlinked(q.threads[t]) == To(n)
  }

  /** Where a node is that the head has passed. */
  ghost predicate Accounted(m: Machine, n: Node) {
    n in m.retired || n in m.condemned || n in m.freed || UnlinkedBySomeone(m.q, n)
  }

  ghost predicate NothingLeaked(m: Machine) {
    forall n | Passed(m, n) :: Accounted(m, n)
  }

  lemma PassedByPop(mem: Memory, l: Local, cas: bool, n: Node)
    requires MemInv(mem) && LocalInv(mem, l)
    requires var mem' := StepLocal(mem, l, cas).0; n in mem'.pos && mem'.pos[n] < mem'.H()
    requires n !in mem.pos || mem.pos[n] >= mem.H()
    ensures Unlinked(StepLocal(mem, l, cas).1) == To(n)
  {
    HeadHasPosition(mem);
    if l.DeqPop? && StepLocal(mem, l, cas).1.DeqReadData? {
      PopMovesToNext(mem, l, cas);
      MemHasChain(mem);
      PopLeavesPositions(mem, l, cas);
      hide MemInv, LocalInv, ChainInv;
      if n != mem.head { DifferentNodesDifferentPositions(mem, n, mem.head); }
    } else {
      HeadStays(mem, l, cas);
    }
  }

  lemma PopLeavesPositions(mem: Memory, l: Local, cas: bool)
    requires l.DeqPop? && StepLocal(mem, l, cas).1.DeqReadData?
    ensures StepLocal(mem, l, cas).0.pos == mem.pos && l.currHead == mem.head
    ensures Unlinked(StepLocal(mem, l, cas).1) == To(mem.head)
  {
  }

  lemma HeadStays(mem: Memory, l: Local, cas: bool)
    requires MemInv(mem) && LocalInv(mem, l) && !(l.DeqPop? && StepLocal(mem, l, cas).1.DeqReadData?)
    ensures var mem' := StepLocal(mem, l, cas).0;
            && mem'.H() == mem.H()
            && forall n | n in mem'.pos && mem'.pos[n] < mem.H() :: n in mem.pos && mem.pos[n] == mem'.pos[n]
  {
    HeadHasPosition(mem);
    HeadInsideChain(mem);
    hide MemInv;
    if l.EnqLink? {
      LinkLeavesHead(mem, l.currTail, l.own);
      hide MpmcQueue.Linked;
    }
    assert l.EnqLink? ==> Private(mem, l.own);
    hide LocalInv;
  }

  lemma LinkLeavesHead(mem: Memory, last: Node, n: Node)
    requires mem.head in mem.pos && mem.pos[mem.head] == mem.H() < |mem.chain|
    ensures var mem' := MpmcQueue.Linked(mem, last, n);
            n !in mem.pos ==>
              mem'.H() == mem.H()
              && forall k | k in mem'.pos && mem'.pos[k] < mem.H() :: k in mem.pos && mem.pos[k] == mem'.pos[k]
  {
  }

  lemma HeadInsideChain(mem: Memory)
    requires MemInv(mem)
    ensures mem.H() < |mem.chain|
  {
  }

  lemma UnlinkedMovesOn(mem: Memory, l: Local, cas: bool)
    requires Unlinked(l).To?
    ensures Unlinked(StepLocal(mem, l, cas).1) == Unlinked(l) || (l.DeqRetire? && Unlinked(l) == To(l.currHead))
  {
  }

  lemma QueueStepAccounts(m: Machine, m': Machine, a: Action, n: Node)
    requires Inv(m.q) && Enabled(m.q, a) && NothingLeaked(m) && Passed(m', n) && Reclaims(m, m', a)
    ensures Accounted(m', n)
  {
    AtAfter(m.q, a);
    InvAt(m.q, a.tid);
    if Passed(m, n) {
      assert Accounted(m, n);
      hide Inv, Next, Enabled, StepLocal, MemInv, LocalInv, HasData, NothingLeaked, Passed, Unlinked;
      if UnlinkedBySomeone(m.q, n) { UnlinkedStaysKnown(m, m', a, n); }
    } else {
      assert a.Advance? by { if !a.Advance? { StartPassesNothing(m, m', a, n); } }
      assert m'.q.mem == StepLocal(m.q.mem, At(m.q, a.tid), a.casSucceeds).0;
      hide Inv, Next, Enabled, StepLocal, MemInv, LocalInv, HasData, NothingLeaked, Unlinked;
      PassedByPop(m.q.mem, At(m.q, a.tid), a.casSucceeds, n);
      assert m'.q.threads[a.tid] == At(m'.q, a.tid);
    }
  }

  lemma StartPassesNothing(m: Machine, m': Machine, a: Action, n: Node)
    requires Enabled(m.q, a) && !a.Advance? && Passed(m', n) && m'.q == Next(m.q, a)
    ensures Passed(m, n)
  {
    assert Next(m.q, a).mem.pos == m.q.mem.pos && Next(m.q, a).mem.head == m.q.mem.head;
  }

  lemma UnlinkedStaysKnown(m: Machine, m': Machine, a: Action, n: Node)
    requires Enabled(m.q, a) && UnlinkedBySomeone(m.q, n) && Reclaims(m, m', a)
    ensures Accounted(m', n)
  {
    AtAfter(m.q, a);
    var t :| t in m.q.threads && Unlinked(m.q.threads[t]) == To(n);
    var l := At(m.q, t);
    assert l == m.q.threads[t] && !l.Idle?;
    assert m'.q.threads[t] == At(m'.q, t);
    if t == a.tid {
      assert a.Advance?;
      hide Next, Enabled, StepLocal, Unlinked, At;
      UnlinkedMovesOn(m.q.mem, l, a.casSucceeds);
    }
  }

  lemma OtherEventAccounts(m: Machine, e: Event)
    requires HoldersInv(m) && ListInv(m) && ReclaimInv(m) && Possible(m, e) && !e.QueueStep? && NothingLeaked(m)
    ensures NothingLeaked(After(m, e))
  {
    var m' := After(m, e);
    if !OfReclaimer(e) { SlotEventFrame(m, e); }
    hide HoldersInv, ListInv;
    assert m'.q == m.q;
    forall n | Passed(m', n) ensures Accounted(m', n) {
      assert Passed(m, n);
      assert Accounted(m, n);
      hide NothingLeaked, Passed, UnlinkedBySomeone;
    }
  }

  lemma EventAccounts(m: Machine, e: Event)
    requires HazardInv(m) && Possible(m, e) && NothingLeaked(m)
    ensures NothingLeaked(After(m, e))
  {
    HazardParts(m);
    hide HazardInv, Inv, HoldersInv, ListInv, ReclaimInv, SoleUnlinkers, GuardInv, UnlinkedInv, NothingLeaked;
    var m' := After(m, e);
    if e.QueueStep? {
      assert Enabled(m.q, e.action);
      QueueStepFrame(m, e.action);
      OnlyOwnReclaims(m, m', e.action.tid);
      hide After, Enabled, Possible, Accounted, Passed, OnlyOwn;
      assert NothingLeaked(m') by {
        forall n | Passed(m', n) ensures Accounted(m', n) { QueueStepAccounts(m, m', e.action, n); }
        assert NothingLeaked(m');
      }
    } else {
      OtherEventAccounts(m, e);
    }
  }

  /** Conservation: in every such history a node the head has passed is held by the one dequeue that
      unlinked it, or waits to be reclaimed, or has been freed. */
  lemma {:induction false} NoNodeLeaks(run: seq<Machine>, events: seq<Event>, i: nat)
    requires IsHistory(run, events) && NoHarmfulCut(run, events) && i < |run|
    ensures NothingLeaked(run[i])
  {
    hide HazardInv, Possible, After, NothingLeaked, Harmless;
    if i == 0 {
      NothingPassedAtFirst(run[0]);
    } else {
      NoNodeLeaks(run, events, i - 1);
      HistoriesKeepInv(run, events, i - 1);
      assert Happens(run[i - 1], events[i - 1], run[i - 1 + 1]);
      hide IsHistory;
      EventAccounts(run[i - 1], events[i - 1]);
    }
  }

  lemma NothingPassedAtFirst(m: Machine)
    requires Initial(m)
    ensures NothingLeaked(m)
  {
  }
}
