/** What hazard pointers do not stand in the way of: dequeues end, and nodes that nobody protects are freed. */
module HazardProgress {
  import opened MpmcQueue
  import opened MpmcRefinement
  import opened MpmcProgress
  import opened HazardPointers
  import opened HazardTheorems

  // ---------------------------------------------------------------- slots are given back empty

  /** A slot belongs to a thread whose stage owns it, or is free and protects nothing. */
  ghost predicate SlotOk(m: Machine, i: nat)
    requires i < |m.slots|
  {
    match m.slots[i].owner
    case Free => m.slots[i].value.Null?
    case OwnedBy(t) =>
      && t in m.held && i in Owns(m.held[t])
      && (m.held[t].HeadCleared? && i == m.held[t].head ==> m.slots[i].value.Null?)
      && (m.held[t].NextCleared? ==> m.slots[i].value.Null?)
  }

  ghost predicate SlotsInv(m: Machine) {
    forall i | 0 <= i < |m.slots| :: SlotOk(m, i)
  }

  lemma QueueStepKeepsSlot(m: Machine, a: Action, i: nat)
    requires Possible(m, QueueStep(a)) && HoldersInv(m) && i < |m.slots| && SlotOk(m, i)
    ensures var m' := After(m, QueueStep(a)); |m'.slots| == |m.slots| && SlotOk(m', i)
  {
    var t := a.tid;
    assert t in m.held ==> OwnsItsSlots(m.slots, t, m.held[t]);
    hide HoldersInv, Next, Fits, InDequeue, Enabled, At;
    if i in Slots(m, t) { OwnSlotAfterStep(m, a, i); } else { OtherSlotAfterStep(m, a, i); }
  }

  /** The slots of one thread. */
  function Slots(m: Machine, t: Tid): set<nat> {
    if t in m.held then Owns(m.held[t]) else {}
  }

  lemma OwnSlotAfterStep(m: Machine, a: Action, i: nat)
    requires Possible(m, QueueStep(a)) && a.tid in m.held && OwnsItsSlots(m.slots, a.tid, m.held[a.tid])
    requires i < |m.slots| && i in Slots(m, a.tid) && SlotOk(m, i)
    ensures var m' := After(m, QueueStep(a)); |m'.slots| == |m.slots| && SlotOk(m', i)
  {
    hide Next, Enabled, At;
  }

  lemma OtherSlotAfterStep(m: Machine, a: Action, i: nat)
    requires Possible(m, QueueStep(a)) && i < |m.slots| && i !in Slots(m, a.tid) && SlotOk(m, i)
    ensures var m' := After(m, QueueStep(a)); |m'.slots| == |m.slots| && SlotOk(m', i)
  {
    hide Next, Enabled, At;
  }

  lemma SlotEventKeepsSlot(m: Machine, e: Event, i: nat)
    requires Possible(m, e) && HoldersInv(m) && !e.QueueStep? && !OfReclaimer(e) && i < |m.slots| && SlotOk(m, i)
    ensures var m' := After(m, e); |m.slots| <= |m'.slots| && SlotOk(m', i)
  {
    assert var t := Actor(e); t in m.held ==> OwnsItsSlots(m.slots, t, m.held[t]);
    hide HoldersInv, At, Leaving;
    if e.ReleaseStep? {
      ReleaseKeepsSlot(m, e.tid, i);
    } else {
      AcquireKeepsSlot(m, e, i);
    }
  }

  lemma ReleaseKeepsSlot(m: Machine, t: Tid, i: nat)
    requires t in m.held && OwnsItsSlots(m.slots, t, m.held[t]) && i < |m.slots| && SlotOk(m, i)
    ensures var m' := After(m, ReleaseStep(t)); |m.slots| == |m'.slots| && SlotOk(m', i)
  {
  }

  lemma AcquireKeepsSlot(m: Machine, e: Event, i: nat)
    requires Possible(m, e) && (e.BeginDequeue? || e.TakeSlot? || e.PublishSlot? || e.LinkSlot?)
    requires i < |m.slots| && SlotOk(m, i)
    ensures var m' := After(m, e); |m.slots| <= |m'.slots| && SlotOk(m', i)
  {
    hide At;
  }

  lemma ReclaimerKeepsSlot(m: Machine, e: Event, i: nat)
    requires OfReclaimer(e) && i < |m.slots| && SlotOk(m, i)
    ensures var m' := After(m, e); |m.slots| == |m'.slots| && SlotOk(m', i)
  {
    ReclaimerFrame(m, e);
    hide After, Owns;
  }

  lemma NewSlotOk(m: Machine, e: Event)
    requires Possible(m, e)
    ensures var m' := After(m, e); forall i | |m.slots| <= i < |m'.slots| :: SlotOk(m', i)
  {
    hide At, Leaving, Enabled, Next;
  }

  lemma EventKeepsSlots(m: Machine, e: Event)
    requires HazardInv(m) && SlotsInv(m) && Possible(m, e)
    ensures SlotsInv(After(m, e))
  {
    HazardParts(m);
    NewSlotOk(m, e);
    hide HazardInv, SlotOk, HoldersInv, After, Possible;
    forall i | 0 <= i < |After(m, e).slots| ensures SlotOk(After(m, e), i) {
      if i < |m.slots| {
        if e.QueueStep? {
          QueueStepKeepsSlot(m, e.action, i);
        } else if OfReclaimer(e) {
          ReclaimerKeepsSlot(m, e, i);
        } else {
          SlotEventKeepsSlot(m, e, i);
        }
      }
    }
  }

  lemma {:induction false} HistoriesKeepSlots(run: seq<Machine>, events: seq<Event>, i: nat)
    requires IsHistory(run, events) && NoHarmfulCut(run, events) && i < |run|
    ensures SlotsInv(run[i])
  {
    hide HazardInv, Possible, After, Harmless, SlotOk;
    if i > 0 {
      HistoriesKeepSlots(run, events, i - 1);
      HistoriesKeepInv(run, events, i - 1);
      assert Happens(run[i - 1], events[i - 1], run[i - 1 + 1]);
      EventKeepsSlots(run[i - 1], events[i - 1]);
    }
  }

  // ---------------------------------------------------------------- the reclaimer

  predicate Holds(m: Machine, p: Node) {
    exists i :: 0 <= i < |m.slots| && m.slots[i].value == To(p)
  }

  /** A walk that finds nothing ends with its node condemned. */
  lemma {:induction false} WalkFrees(m: Machine, p: Node, k: nat) returns (events: seq<Event>, m': Machine)
    requires !Holds(m, p) && m.walk == Checking(p, k) && k <= |m.slots|
    requires forall t | t in m.q.threads :: Relied(m.q.threads[t]) != To(p)
    ensures LeadsHarmlessly(m, events, m') && |events| <= 2 * k + 2
    ensures m' == m.(walk := NoWalk, retired := m.retired - {p}, condemned := m.condemned - {p},
                     freed := m.freed + {p})
    decreases k
  {
    var m1 := After(m, WalkStep);
    if k == 0 {
      m' := After(m1, FreeNode(p));
      events := [WalkStep, FreeNode(p)];
      assert m1 == m.(walk := NoWalk, retired := m.retired - {p}, condemned := m.condemned + {p});
      assert m1.condemned - {p} == m.condemned - {p};
      TwoEvents(m, WalkStep, FreeNode(p));
    } else {
      assert m.slots[k - 1].value != To(p);
      assert m1 == m.(walk := Following(p, k - 1));
      var m2 := After(m1, WalkStep);
      var next := if m.slots[k - 1].linked then k - 1 else 0;
      assert m2 == m.(walk := Checking(p, next));
      var rest;
      rest, m' := WalkFrees(m2, p, next);
      events := [WalkStep, WalkStep] + rest;
      assert Harmless(m, WalkStep) && Harmless(m1, WalkStep);
      TwoBefore(m, WalkStep, WalkStep, rest, m');
    }
  }

  lemma TwoEvents(m: Machine, a: Event, b: Event)
    requires Possible(m, a) && Harmless(m, a) && Possible(After(m, a), b) && Harmless(After(m, a), b)
    ensures LeadsHarmlessly(m, [a, b], After(After(m, a), b))
  {
    hide Possible, After, Harmless;
    assert [a, b][1..] == [b] && [b][1..] == [];
    assert LeadsHarmlessly(After(After(m, a), b), [], After(After(m, a), b));
    assert LeadsHarmlessly(After(m, a), [b], After(After(m, a), b));
  }

  lemma TwoBefore(m: Machine, a: Event, b: Event, rest: seq<Event>, m': Machine)
    requires Possible(m, a) && Harmless(m, a) && Possible(After(m, a), b) && Harmless(After(m, a), b)
    requires LeadsHarmlessly(After(After(m, a), b), rest, m')
    ensures LeadsHarmlessly(m, [a, b] + rest, m')
  {
    hide Possible, After, Harmless;
    OneBefore(After(m, a), b, rest, m');
    OneBefore(m, a, [b] + rest, m');
    assert [a] + ([b] + rest) == [a, b] + rest;
  }

  lemma OneBefore(m: Machine, a: Event, rest: seq<Event>, m': Machine)
    requires Possible(m, a) && Harmless(m, a) && LeadsHarmlessly(After(m, a), rest, m')
    ensures LeadsHarmlessly(m, [a] + rest, m')
  {
    hide Possible, After, Harmless;
    assert ([a] + rest)[1..] == rest;
  }

  /** A walk that comes to a slot holding its node spares it. */
  lemma {:induction false} WalkSpares(m: Machine, p: Node, k: nat, slot: nat) returns (events: seq<Event>, m': Machine)
    requires slot < k <= |m.slots| && m.slots[slot].value == To(p) && m.walk == Checking(p, k)
    requires forall i | 0 <= i < |m.slots| :: m.slots[i].linked
    ensures LeadsHarmlessly(m, events, m') && m' == m.(walk := NoWalk)
    decreases k
  {
    var m1 := After(m, WalkStep);
    if m.slots[k - 1].value == To(p) {
      events, m' := [WalkStep], m1;
      assert LeadsHarmlessly(m1, [], m');
      OneBefore(m, WalkStep, [], m');
      assert [WalkStep] + [] == [WalkStep];
    } else {
      assert m1 == m.(walk := Following(p, k - 1));
      var m2 := After(m1, WalkStep);
      assert m2 == m.(walk := Checking(p, k - 1));
      var rest;
      rest, m' := WalkSpares(m2, p, k - 1, slot);
      events := [WalkStep, WalkStep] + rest;
      TwoBefore(m, WalkStep, WalkStep, rest, m');
    }
  }

  lemma ReliedIsHeld(m: Machine, t: Tid)
    requires HazardInv(m) && t in m.q.threads && Relied(m.q.threads[t]).To?
    ensures Holds(m, Relied(m.q.threads[t]).node)
  {
    HazardParts(m);
    hide HazardInv, Inv, ListInv, ReclaimInv, SoleUnlinkers, UnlinkedInv;
    assert m.q.threads[t] == At(m.q, t);
    assert t in m.held && m.held[t].Running? && GuardInv(m, At(m.q, t), m.held[t]);
  }

  lemma NobodyRelies(m: Machine, p: Node)
    requires HazardInv(m) && !Holds(m, p)
    ensures forall t | t in m.q.threads :: Relied(m.q.threads[t]) != To(p)
  {
    hide HazardInv, Holds, Relied;
    forall t | t in m.q.threads ensures Relied(m.q.threads[t]) != To(p) {
      if Relied(m.q.threads[t]).To? { ReliedIsHeld(m, t); }
    }
  }

  /** The reclaimer frees a retired node exactly if no slot holds it. */
  lemma ReclaimerDecides(m: Machine, p: Node) returns (events: seq<Event>, m': Machine)
    requires HazardInv(m) && m.walk.NoWalk? && p in m.retired && forall i | 0 <= i < |m.slots| :: m.slots[i].linked
    ensures LeadsHarmlessly(m, events, m') && events != [] && events[0] == BeginWalk(p)
    ensures m' == if Holds(m, p) then m else m.(retired := m.retired - {p}, freed := m.freed + {p})
  {
    var m1 := m.(walk := Checking(p, |m.slots|));
    BeginsWalk(m, p);
    var rest;
    if Holds(m, p) {
      var slot: nat :| slot < |m.slots| && m.slots[slot].value == To(p);
      hide HazardInv, LeadsHarmlessly, Possible, After, Harmless;
      rest, m' := WalkSpares(m1, p, |m.slots|, slot);
    } else {
      NobodyRelies(m, p);
      RetiredIsNotCondemned(m, p);
      hide HazardInv, LeadsHarmlessly, Possible, After, Harmless;
      rest, m' := WalkFrees(m1, p, |m.slots|);
    }
    events := [BeginWalk(p)] + rest;
    OneBefore(m, BeginWalk(p), rest, m');
  }

  lemma BeginsWalk(m: Machine, p: Node)
    requires m.walk.NoWalk? && p in m.retired
    ensures var e := BeginWalk(p);
            Possible(m, e) && Harmless(m, e) && After(m, e) == m.(walk := Checking(p, |m.slots|))
  {
  }

  lemma RetiredIsNotCondemned(m: Machine, p: Node)
    requires HazardInv(m) && p in m.retired
    ensures m.condemned - {p} == m.condemned
  {
    HazardParts(m);
    hide HazardInv;
  }

  // ---------------------------------------------------------------- when no dequeue is running

  /** No thread has anything to do with hazard slots, and the reclaimer is between two walks. */
  ghost predicate AtRest(m: Machine) {
    m.held == map[] && m.walk.NoWalk?
  }

  lemma RestingSlots(m: Machine)
    requires SlotsInv(m) && HazardInv(m) && m.held == map[]
    ensures forall i | 0 <= i < |m.slots| :: m.slots[i].linked && m.slots[i].value.Null? && m.slots[i].owner.Free?
  {
    HazardParts(m);
    hide HazardInv, Inv, HoldersInv, ReclaimInv, SoleUnlinkers;
    forall i | 0 <= i < |m.slots| ensures m.slots[i].linked && m.slots[i].value.Null? && m.slots[i].owner.Free? {
      assert SlotOk(m, i);
    }
  }

  lemma NothingHeld(m: Machine, p: Node)
    requires forall i | 0 <= i < |m.slots| :: m.slots[i].linked && m.slots[i].value.Null?
    ensures !Holds(m, p)
  {
  }

  lemma {:induction false} FreeAllRetired(m: Machine) returns (events: seq<Event>, m': Machine)
    requires HazardInv(m) && m.walk.NoWalk?
    requires forall i | 0 <= i < |m.slots| :: m.slots[i].linked && m.slots[i].value.Null?
    ensures LeadsHarmlessly(m, events, m') && m' == m.(retired := {}, freed := m.freed + m.retired)
    decreases |m.retired|
  {
    hide HazardInv, Holds;
    if m.retired == {} {
      events, m' := [], m;
      assert m.freed + {} == m.freed;
    } else {
      var p :| p in m.retired;
      NothingHeld(m, p);
      var first, m1 := ReclaimerDecides(m, p);
      HarmlessEventsKeepInv(m, first, m1);
      hide LeadsHarmlessly;
      var rest;
      rest, m' := FreeAllRetired(m1);
      events := first + rest;
      JoinHarmless(m, first, m1, rest, m');
      assert m.freed + {p} + (m.retired - {p}) == m.freed + m.retired;
    }
  }

  lemma {:induction false} JoinHarmless(m: Machine, a: seq<Event>, m1: Machine, b: seq<Event>, m2: Machine)
    requires LeadsHarmlessly(m, a, m1) && LeadsHarmlessly(m1, b, m2)
    ensures LeadsHarmlessly(m, a + b, m2)
    decreases |a|
  {
    hide Possible, Harmless, After;
    if a == [] {
      assert a + b == b;
    } else {
      JoinHarmless(After(m, a[0]), a[1..], m1, b, m2);
      assert (a + b)[0] == a[0] && (a + b)[1..] == a[1..] + b;
    }
  }

  lemma {:induction false} FreeAllCondemned(m: Machine) returns (events: seq<Event>, m': Machine)
    ensures LeadsHarmlessly(m, events, m') && m' == m.(condemned := {}, freed := m.freed + m.condemned)
    decreases |m.condemned|
  {
    if m.condemned == {} {
      events, m' := [], m;
      assert m.freed + {} == m.freed;
    } else {
      var p :| p in m.condemned;
      var m1 := After(m, FreeNode(p));
      assert m1 == m.(condemned := m.condemned - {p}, freed := m.freed + {p});
      var rest;
      rest, m' := FreeAllCondemned(m1);
      events := [FreeNode(p)] + rest;
      OneBefore(m, FreeNode(p), rest, m');
      assert m.freed + {p} + (m.condemned - {p}) == m.freed + m.condemned;
    }
  }

  /** Once no dequeue is running, the reclaimer can free every node the head has ever passed: nothing stays
      protected by a slot that was given back, and no node is forgotten. */
  lemma EverythingCanBeReclaimed(run: seq<Machine>, events: seq<Event>) returns (more: seq<Event>, m': Machine)
    requires IsHistory(run, events) && NoHarmfulCut(run, events) && AtRest(run[|events|])
    ensures LeadsHarmlessly(run[|events|], more, m') && m'.q == run[|events|].q
    ensures m'.retired == m'.condemned == {}
    ensures forall n :: n in m'.freed <==> Passed(m', n)
  {
    var m := run[|events|];
    HistoriesKeepInv(run, events, |events|);
    HistoriesKeepSlots(run, events, |events|);
    NoNodeLeaks(run, events, |events|);
    hide IsHistory, NoHarmfulCut;
    RestingSlots(m);
    var a, m1 := FreeAllRetired(m);
    var b;
    b, m' := FreeAllCondemned(m1);
    more := a + b;
    JoinHarmless(m, a, m1, b, m');
    RestAccount(m);
    hide HazardInv, NothingLeaked;
    assert forall n :: Passed(m', n) <==> Passed(m, n);
  }

  /** Without a dequeue, the nodes the head has passed are with the reclaimer. */
  lemma RestAccount(m: Machine)
    requires HazardInv(m) && NothingLeaked(m) && m.held == map[]
    ensures forall n :: Passed(m, n) <==> n in m.retired || n in m.condemned || n in m.freed
  {
    HazardParts(m);
    hide HazardInv, Inv, HoldersInv, ListInv, SoleUnlinkers, GuardInv, UnlinkedInv, Passed, Unlinked;
    forall t | t in m.q.threads ensures Unlinked(m.q.threads[t]).Null? { UnlinkerIsHeld(m, t); }
    forall n | Passed(m, n) ensures n in m.retired || n in m.condemned || n in m.freed {
      assert Accounted(m, n);
    }
  }

  lemma UnlinkerIsHeld(m: Machine, t: Tid)
    requires HoldersInv(m) && t in m.q.threads
    ensures Unlinked(m.q.threads[t]).To? ==> t in m.held
  {
    assert m.q.threads[t] == At(m.q, t);
    assert Unlinked(At(m.q, t)).To? ==> InDequeue(At(m.q, t));
  }

  // ---------------------------------------------------------------- dequeues end

  /** The next event of a thread inside a dequeue that is not disturbed. */
  function NextEvent(m: Machine, t: Tid): Event
    requires t in m.held
  {
    match m.held[t]
    case First => PublishSlot(t)
    case Second(_) => PublishSlot(t)
    case LinkingFirst(_) => LinkSlot(t)
    case LinkingSecond(_, _) => LinkSlot(t)
    case Ready(_, _) => QueueStep(StartDequeue(t))
    case Running(_, _) => if Leaving(At(m.q, t)) then ReleaseStep(t) else QueueStep(Advance(t, true))
    case Released => QueueStep(Advance(t, true))
    case _ => ReleaseStep(t)
  }

  /** How many events are left at most. */
  function Left(m: Machine, t: Tid): nat
    requires t in m.held
  {
    match m.held[t]
    case First => 42
    case LinkingFirst(_) => 41
    case Second(_) => 40
    case LinkingSecond(_, _) => 39
    case Ready(_, _) => 38
    case Running(_, _) => if Leaving(At(m.q, t)) then 5 else 5 + Rank(m.q.mem, At(m.q, t))
    case HeadCleared(_, _) => 4
    case HeadReleased(_) => 3
    case NextCleared(_) => 2
    case Released => 1
  }

  ghost predicate MayAcquire(m: Machine, t: Tid) {
    m.mutex.Free? || m.mutex == OwnedBy(t)
  }

  /** The stages around the list mutex. */
  lemma AcquiringMoves(m: Machine, t: Tid)
    requires t in m.held && MayAcquire(m, t) && (Acquiring(m.held[t]) || Linking(m.held[t]))
    requires Acquiring(m.held[t]) && m.mutex.OwnedBy? ==> Linking(m.held[t])
    ensures var e, m' := NextEvent(m, t), After(m, NextEvent(m, t));
            Possible(m, e) && !OfReclaimer(e) && t in m'.held && Left(m', t) < Left(m, t) && MayAcquire(m', t)
  {
    hide Rank, Leaving, At, Store, SetOwner, SetLinked;
  }

  lemma ReleasingMoves(m: Machine, t: Tid)
    requires t in m.held && MayAcquire(m, t) && Releasing(m.held[t]) && Leaving(At(m.q, t))
    ensures var e, m' := NextEvent(m, t), After(m, NextEvent(m, t));
            Possible(m, e) && !OfReclaimer(e) && t in m'.held && Left(m', t) < Left(m, t) && MayAcquire(m', t)
  {
    hide Rank, Leaving, At, Store, SetOwner, SetLinked;
  }

  lemma SlotStageMoves(m: Machine, t: Tid)
    requires HazardInv(m) && t in m.held && MayAcquire(m, t) && !NextEvent(m, t).QueueStep?
    ensures var e, m' := NextEvent(m, t), After(m, NextEvent(m, t));
            Possible(m, e) && Harmless(m, e) && t in m'.held && Left(m', t) < Left(m, t) && MayAcquire(m', t)
  {
    HazardParts(m);
    StageFits(m, t);
    hide HazardInv, Inv, HoldersInv, ReclaimInv, SoleUnlinkers, GuardInv, UnlinkedInv, Left, Possible, After, Leaving,
         At;
    if Releasing(m.held[t]) {
      ReleasingMoves(m, t);
    } else {
      AcquiringMoves(m, t);
    }
  }

  lemma StageFits(m: Machine, t: Tid)
    requires HoldersInv(m) && t in m.held
    ensures Releasing(m.held[t]) && !m.held[t].Running? ==> Leaving(At(m.q, t))
  {
    assert Fits(m.held[t], At(m.q, t));
    hide HoldersInv, InDequeue, Leaving;
  }

  lemma ReadyMoves(m: Machine, t: Tid)
    requires t in m.held && m.held[t].Ready? && At(m.q, t).Idle?
    ensures var e := QueueStep(StartDequeue(t));
            && Possible(m, e) && t in After(m, e).held && After(m, e).mutex == m.mutex
            && Left(After(m, e), t) < Left(m, t)
  {
    hide Rank;
  }

  lemma ReleasedMoves(m: Machine, t: Tid)
    requires t in m.held && m.held[t].Released? && Leaving(At(m.q, t))
    ensures var e := QueueStep(Advance(t, true));
            && Possible(m, e) && t !in After(m, e).held && After(m, e).mutex == m.mutex
            && At(After(m, e).q, t).Idle?
  {
  }

  lemma QueueStageMoves(m: Machine, t: Tid)
    requires HazardInv(m) && t in m.held && MayAcquire(m, t) && NextEvent(m, t).QueueStep?
    ensures var e, m' := NextEvent(m, t), After(m, NextEvent(m, t));
            && Possible(m, e) && Harmless(m, e) && MayAcquire(m', t)
            && if m.held[t].Released? then t !in m'.held && At(m'.q, t).Idle?
               else t in m'.held && Left(m', t) < Left(m, t)
  {
    HazardParts(m);
    assert Fits(m.held[t], At(m.q, t)) by { hide HazardInv, InDequeue, Fits; }
    InvAt(m.q, t);
    hide HazardInv, Inv, HoldersInv, ListInv, ReclaimInv, SoleUnlinkers, GuardInv, UnlinkedInv, Left, Possible, After,
         InDequeue, Leaving, MemInv, HasData, LocalInv, At;
    match m.held[t] {
      case Ready(_, _) => ReadyMoves(m, t);
      case Released => ReleasedMoves(m, t);
      case _ => RunningMoves(m, t);
    }
  }

  lemma RunningView(m: Machine, t: Tid)
    requires t in m.held && m.held[t].Running? && InDequeue(At(m.q, t)) && !Leaving(At(m.q, t))
    ensures var e := QueueStep(Advance(t, true));
            && Possible(m, e) && t in After(m, e).held && After(m, e).held[t] == m.held[t]
            && After(m, e).mutex == m.mutex && !At(m.q, t).Idle?
            && After(m, e).q.mem == StepLocal(m.q.mem, At(m.q, t), true).0
            && At(After(m, e).q, t) == StepLocal(m.q.mem, At(m.q, t), true).1
  {
    hide StepLocal, Store;
  }

  lemma RunningMoves(m: Machine, t: Tid)
    requires t in m.held && m.held[t].Running? && InDequeue(At(m.q, t)) && !Leaving(At(m.q, t))
    requires MemInv(m.q.mem) && HasData(m.q.mem) && LocalInv(m.q.mem, At(m.q, t))
    ensures var e := QueueStep(Advance(t, true));
            && Possible(m, e) && t in After(m, e).held && After(m, e).held[t] == m.held[t]
            && After(m, e).mutex == m.mutex && Left(After(m, e), t) < Left(m, t)
  {
    hide MemInv, HasData, LocalInv, StepLocal, Rank, At, InDequeue, Leaving, Possible, After;
    RunningView(m, t);
    RankFalls(m.q.mem, At(m.q, t));
    LeavingIsNear(m.q.mem, At(m.q, t));
  }

  lemma LeavingIsNear(mem: Memory, l: Local)
    requires InDequeue(l) && !Leaving(l)
    ensures Rank(mem, l) > 0
  {
  }

  /** A thread inside a dequeue, wherever it stands, can end it by itself within 42 events, if it does not find the
      list mutex taken by another thread. */
  lemma {:induction false} DequeueCanEnd(m: Machine, t: Tid) returns (events: seq<Event>, m': Machine)
    requires HazardInv(m) && t in m.held && MayAcquire(m, t)
    ensures LeadsHarmlessly(m, events, m') && |events| <= Left(m, t) && t !in m'.held && At(m'.q, t).Idle?
    decreases Left(m, t)
  {
    hide HazardInv, Possible, After, Harmless, Left, MayAcquire;
    var e := NextEvent(m, t);
    if e.QueueStep? { QueueStageMoves(m, t); } else { SlotStageMoves(m, t); }
    EventKeepsInv(m, e);
    var rest;
    if t in After(m, e).held {
      rest, m' := DequeueCanEnd(After(m, e), t);
    } else {
      rest, m' := [], After(m, e);
      LeftIsPositive(m, t);
      assert LeadsHarmlessly(m', [], m');
    }
    events := [e] + rest;
    OneBefore(m, e, rest, m');
  }

  lemma LeftIsPositive(m: Machine, t: Tid)
    requires t in m.held
    ensures 0 < Left(m, t) <= 42
  {
  }

  /** The list mutex is never held for ever: its owner can give it back at once. */
  lemma MutexIsGivenBack(m: Machine)
    requires HazardInv(m) && m.mutex.OwnedBy?
    ensures var e := LinkSlot(m.mutex.tid);
            && Possible(m, e) && Harmless(m, e) && After(m, e).mutex.Free?
            && forall t | t in m.held :: t in After(m, e).held
  {
    HazardParts(m);
    hide HazardInv, Inv, HoldersInv, ReclaimInv, SoleUnlinkers;
  }
}
