/** The conditions of the reclamation theorems are needed: a history in which a cut walk frees a node in use,
    and, for every lag, a history in which an enqueuer is left with a freed node. */
module HazardNecessity {
  import opened MpmcQueue
  import opened MpmcRefinement
  import opened HazardPointers
  import opened HazardTheorems
  import opened HazardScenarios
  import opened Reclamation

  function Start(dummy: Node): Machine {
    Machine(Queue(InitialMemory(dummy), map[]), [], Free, map[], {}, NoWalk, {}, {})
  }

  lemma StartIsInitial(dummy: Node)
    ensures Initial(Start(dummy)) && HazardInv(Start(dummy))
  {
    InitialHazardInv(Start(dummy));
  }

  // ---------------------------------------------------------------- a cut walk

  /** Thread 1 protects the dummy and is about to read its next; thread 2 holds two slots of its own. */
  lemma ProtectedDummy() returns (events: seq<Event>, m: Machine)
    ensures Path(Start(0), events, m)
    ensures m.q == Queue(Appended(InitialMemory(0), 1, 7), map[2 := Idle, 1 := DeqReadNext(0, 1)])
    ensures m.slots == [Slot(To(0), OwnedBy(1), true), Slot(Null, OwnedBy(1), true),
                        Slot(Null, OwnedBy(2), true), Slot(Null, OwnedBy(2), true)]
    ensures m.held == map[1 := Running(0, 1), 2 := Ready(2, 3)] && m.mutex == Free
    ensures m.retired == {} && m.walk == NoWalk && m.condemned == {} && m.freed == {}
  {
    hide Path;
    var m0 := Start(0);
    var a, m1 := EnqueueAlone(m0, 2, 1, 7);
    var b, m2 := AcquireNew(m1, 1);
    var c, m3 := ReachReadNext(m2, 1);
    var d;
    d, m := AcquireNew(m3, 2);
    Join(m0, a, m1, b, m2);
    Join(m0, a + b, m2, c, m3);
    Join(m0, a + b + c, m3, d, m);
    events := a + b + c + d;
  }

  /** Thread 2 has dequeued and retired the dummy, thread 3 has taken its slots, and thread 4 has published a
      new slot without its next_. */
  lemma HalfLinkedSlot() returns (events: seq<Event>, m: Machine)
    ensures Path(Start(0), events, m)
    ensures 1 in m.q.threads && m.q.threads[1] == DeqReadNext(0, 1)
    ensures |m.slots| == 5 && !m.slots[4].linked && m.slots[4].value == Null
    ensures m.retired == {0} && m.walk == NoWalk && m.freed == {}
  {
    var a, m1 := ProtectedDummy();
    hide Path;
    assert m1.q.mem.NextOf(0) == To(1);
    var b, m2 := DequeueAlone(m1, 2, 1);
    assert m2.slots == [Slot(To(0), OwnedBy(1), true), Slot(Null, OwnedBy(1), true), Slot(Null, Free, true),
           Slot(Null, Free, true)];
    var c, m3 := AcquireOld(m2, 3);
    BeginMove(m3, 4);
    var m4 := m3.(held := m3.held[4 := First]);
    PublishMove(m3, 4, m3.slots, First);
    m := m3.(slots := m3.slots + [Slot(Null, OwnedBy(4), false)], mutex := OwnedBy(4),
      held := m3.held[4 := LinkingFirst(4)]);
    hide Move;
    Join(Start(0), a, m1, b, m2);
    Join(Start(0), a + b, m2, c, m3);
    JoinMove(Start(0), a + b + c, m3, BeginDequeue(4), m4);
    JoinMove(Start(0), a + b + c + [BeginDequeue(4)], m4, PublishSlot(4), m);
    events := a + b + c + [BeginDequeue(4)] + [PublishSlot(4)];
  }

  lemma BeginWalkMove(m: Machine, n: Node)
    requires m.walk.NoWalk? && n in m.retired
    ensures Move(m, BeginWalk(n), m.(walk := Checking(n, |m.slots|)))
  {
  }

  lemma CheckMove(m: Machine, n: Node, k: nat)
    requires 0 < k <= |m.slots| && m.slots[k - 1].value != To(n)
    ensures Move(m.(walk := Checking(n, k)), WalkStep, m.(walk := Following(n, k - 1)))
  {
  }

  ghost predicate PlainHistory(run: seq<Machine>, events: seq<Event>) {
    IsHistory(run, events) && forall i | 0 <= i < |events| :: Plain(run[i], events[i])
  }

  /** The two stores that append a slot are not one: a walk that starts between them sees the new slot and
      none of the older ones, frees the node thread 1 protects, and thread 1 is about to read it. No release
      runs at the same time as an acquire, and only the cut event is harmful. */
  lemma CutWalkPath() returns (run: seq<Machine>, events: seq<Event>, cut: nat)
    ensures PlainHistory(run, events) && cut < |events|
    ensures forall i | 0 <= i < |events| :: Harmless(run[i], events[i]) <==> i != cut
    ensures forall i | 0 <= i < |events| && (events[i].QueueStep? || i <= cut) :: HazardInv(run[i])
    ensures forall i | cut < i < |events| :: !events[i].QueueStep?
    ensures run[cut].freed == {}
    ensures var m := run[|events|]; 1 in m.q.threads && m.q.threads[1] == DeqReadNext(0, 1) && 0 in m.freed
  {
    var toCut, m := WalkIntoAppend();
    StartIsInitial(0);
    hide Path, HazardInv, Initial, Harmless, Happens, Plain, CutsWalk;
    var m4, m5, m6 := AfterTheCut(m);
    var before := PathIsHistory(Start(0), toCut, m);
    InvUpTo(before, toCut);
    hide IsHistory, NoHarmfulCut;
    cut := |toCut|;
    run, events := CutAndFree(before, toCut, m4, m5, m6);
  }

  lemma InvUpTo(run: seq<Machine>, events: seq<Event>)
    requires IsHistory(run, events) && NoHarmfulCut(run, events)
    ensures forall i | 0 <= i < |run| :: HazardInv(run[i])
  {
    hide HazardInv, IsHistory, NoHarmfulCut;
    forall i | 0 <= i < |run| ensures HazardInv(run[i]) { HistoriesKeepInv(run, events, i); }
  }

  /** A walk for the node thread 1 protects has reached the slot without next_. */
  lemma WalkIntoAppend() returns (events: seq<Event>, m: Machine)
    ensures Path(Start(0), events, m) && HazardInv(m)
    ensures CutsWalk(m, WalkStep) && m.walk.ptr == 0 && !Harmless(m, WalkStep)
    ensures 1 in m.q.threads && m.q.threads[1] == DeqReadNext(0, 1) && m.freed == {}
  {
    var a, m1 := HalfLinkedSlot();
    BeginWalkMove(m1, 0);
    CheckMove(m1, 0, 5);
    var m2 := m1.(walk := Checking(0, 5));
    m := m1.(walk := Following(0, 4));
    CutIsHarmful(m);
    StartIsInitial(0);
    hide Path, Move, HazardInv, Harmless;
    JoinMove(Start(0), a, m1, BeginWalk(0), m2);
    JoinMove(Start(0), a + [BeginWalk(0)], m2, WalkStep, m);
    events := a + [BeginWalk(0)] + [WalkStep];
    PathsKeepInv(Start(0), events, m);
  }

  /** The same with the freed node gone: thread 1 is about to touch it. */
  lemma CutWalkFreesNodeInUse() returns (run: seq<Machine>, events: seq<Event>, cut: nat)
    ensures AboutToFault(run, events, 1) && cut < |events|
    ensures forall i | 0 <= i < |events| :: Harmless(run[i], events[i]) <==> i != cut
    ensures forall i | 0 <= i < |events| :: Plain(run[i], events[i])
    ensures 1 in run[|events|].q.threads && run[|events|].q.threads[1] == DeqReadNext(0, 1)
  {
    var whole;
    whole, events, cut := CutWalkPath();
    hide HazardInv, Happens, Harmless, Plain, Faults, RealPossible, Erase, Initial, Erased, IsHistory, NoFaults,
         IsRealHistory, PlainHistory;
    PlainIsHistory(whole, events);
    NobodyFaulted(whole, events, cut);
    RelyingTouches(whole[|events|]);
    run := ErasedRun(whole, events, 1);
  }

  lemma RelyingTouches(m: Machine)
    requires 1 in m.q.threads && m.q.threads[1] == DeqReadNext(0, 1) && 0 in m.freed
    ensures Touched(At(m.q, 1)) == To(0)
  {
  }

  /** A plain history in which nobody has touched a freed node and thread t is about to, with the freed nodes
      gone. */
  lemma ErasedRun(whole: seq<Machine>, events: seq<Event>, t: Tid) returns (run: seq<Machine>)
    requires PlainHistory(whole, events) && NoFaults(whole, events)
    requires forall i | 0 <= i < |events| && events[i].QueueStep? :: HazardInv(whole[i])
    requires var m := whole[|events|]; Touched(At(m.q, t)).To? && Touched(At(m.q, t)).node in m.freed
    ensures AboutToFault(run, events, t) && run == Erased(whole)
    ensures forall i | 0 <= i < |events| :: Plain(run[i], events[i])
    ensures forall i | 0 <= i < |events| :: Harmless(run[i], events[i]) <==> Harmless(whole[i], events[i])
    ensures run[|events|] == Erase(whole[|events|]) && run[|events|].q.threads == whole[|events|].q.threads
  {
    hide HazardInv, Happens, Harmless, Plain, Faults, RealPossible, Erase, Initial, Erased, IsRealHistory, NoFaults,
         Touched, At;
    ErasedIsReal(whole, events);
    run := Erased(whole);
    ErasureOf(whole[|events|], t);
    forall i | 0 <= i < |events| ensures Plain(run[i], events[i]) { PlainErased(whole[i], events[i]); }
  }

  lemma CutIsHarmful(m: Machine)
    requires |m.slots| == 5 && !m.slots[4].linked && m.walk == Following(0, 4)
    requires 1 in m.q.threads && m.q.threads[1] == DeqReadNext(0, 1)
    ensures !Harmless(m, WalkStep)
  {
    assert CutsWalk(m, WalkStep) && Relied(m.q.threads[1]) == To(0);
  }

  lemma AfterTheCut(m: Machine) returns (m1: Machine, m2: Machine, m3: Machine)
    requires HazardInv(m) && CutsWalk(m, WalkStep) && m.walk.ptr == 0
    ensures Happens(m, WalkStep, m1) && Happens(m1, WalkStep, m2) && Happens(m2, FreeNode(0), m3)
    ensures Harmless(m1, WalkStep) && Harmless(m2, FreeNode(0))
    ensures Plain(m, WalkStep) && Plain(m1, WalkStep) && Plain(m2, FreeNode(0))
    ensures m3.q == m.q && 0 in m3.freed
  {
    hide HazardInv, Inv, HoldersInv, ListInv, ReclaimInv, SoleUnlinkers, GuardInv, UnlinkedInv, Harmless, At;
    HazardParts(m);
    m1 := After(m, WalkStep);
    m2, m3 := CutEndsInFree(m);
  }

  /** A history up to the cut, and what follows it. */
  lemma CutAndFree(before: seq<Machine>, toCut: seq<Event>, m4: Machine, m5: Machine, m6: Machine)
    returns (run: seq<Machine>, events: seq<Event>)
    requires IsHistory(before, toCut) && NoHarmfulCut(before, toCut)
    requires forall i | 0 <= i < |before| :: HazardInv(before[i])
    requires forall i | 0 <= i < |toCut| :: Plain(before[i], toCut[i])
    requires var m := before[|toCut|];
             && Happens(m, WalkStep, m4) && Happens(m4, WalkStep, m5) && Happens(m5, FreeNode(0), m6)
             && !Harmless(m, WalkStep) && Harmless(m4, WalkStep) && Harmless(m5, FreeNode(0))
             && Plain(m, WalkStep) && Plain(m4, WalkStep) && Plain(m5, FreeNode(0))
    ensures PlainHistory(run, events) && |events| == |toCut| + 3
    ensures forall i | 0 <= i < |events| :: Harmless(run[i], events[i]) <==> i != |toCut|
    ensures forall i | 0 <= i < |events| && (events[i].QueueStep? || i <= |toCut|) :: HazardInv(run[i])
    ensures forall i | |toCut| < i < |events| :: !events[i].QueueStep?
    ensures run[|toCut|] == before[|toCut|] && run[|events|] == m6
  {
    hide Happens, Harmless, Plain, Initial, HazardInv;
    run, events := before + [m4, m5, m6], toCut + [WalkStep, WalkStep, FreeNode(0)];
    forall i | 0 <= i < |events|
      ensures Happens(run[i], events[i], run[i + 1]) && Plain(run[i], events[i])
      ensures Harmless(run[i], events[i]) <==> i != |toCut|
    {
      if i < |toCut| {
        assert Happens(before[i], toCut[i], before[i + 1]);
        assert Harmless(before[i], toCut[i]);
      }
    }
  }

  // ---------------------------------------------------------------- a late enqueuer

  /** Every slot is free and empty, nobody walks, and the queue is empty with its k-th node as the dummy. */
  ghost predicate Calm(m: Machine, k: nat) {
    && HazardInv(m) && CalmSlots(m.slots) && m.mutex.Free? && m.walk.NoWalk?
    && At(m.q, 2).Idle? && 2 !in m.held
    && m.q.mem.head == m.q.mem.tail && m.q.mem.H() == k && m.q.mem.NextOf(m.q.mem.tail).Null?
  }

  ghost predicate CalmSlots(slots: seq<Slot>) {
    && |slots| != 1
    && forall i | 0 <= i < |slots| :: slots[i] == Slot(Null, Free, true)
  }

  /** What thread 1 and the reclaimer's victims look like from outside while thread 2 works. */
  ghost predicate Beside(m: Machine, m': Machine) {
    && At(m'.q, 1) == At(m.q, 1) && (1 in m'.held <==> 1 in m.held)
    && m.retired <= m'.retired && m'.freed == m.freed
    && (forall n | n in m.q.mem.pos :: n in m'.q.mem.pos && m'.q.mem.pos[n] == m.q.mem.pos[n])
  }

  lemma FreshNode(used: set<Node>) returns (n: Node)
    ensures n !in used
  {
    var bound := Bound(used);
    n := bound;
  }

  lemma Bound(used: set<Node>) returns (b: nat)
    ensures forall n | n in used :: n < b
  {
    b := 0;
    var rest := used;
    while rest != {}
      invariant rest <= used && forall n | n in used :: n in rest || n < b
    {
      var n :| n in rest;
      if n >= b { b := n + 1; }
      rest := rest - {n};
    }
  }

  /** Thread 2 acquires its holders on a calm list. */
  lemma AcquireCalm(m: Machine) returns (events: seq<Event>, m': Machine, h: nat, n: nat)
    requires CalmSlots(m.slots) && m.mutex.Free? && At(m.q, 2).Idle? && 2 !in m.held
    ensures Path(m, events, m') && m' == m.(slots := m'.slots, held := m.held[2 := Ready(h, n)])
    ensures h != n && h < |m'.slots| && n < |m'.slots| && |m'.slots| >= 2
    ensures forall i | 0 <= i < |m'.slots| && i != h && i != n :: m'.slots[i] == Slot(Null, Free, true)
    ensures forall i | i == h || i == n :: m'.slots[i] == Slot(Null, OwnedBy(2), true)
  {
    hide Path, At;
    if m.slots == [] {
      events, m' := AcquireNew(m, 2);
      h, n := 0, 1;
    } else {
      events, m' := AcquireOld(m, 2);
      h, n := |m.slots| - 1, |m.slots| - 2;
    }
  }

  lemma ReleasedSlots(slots: seq<Slot>, h: nat, n: nat, a: Link, b: Link)
    requires h != n && h < |slots| && n < |slots| && |slots| >= 2
    requires forall i | 0 <= i < |slots| && i != h && i != n :: slots[i] == Slot(Null, Free, true)
    requires forall i | i == h || i == n :: slots[i] == Slot(Null, OwnedBy(2), true)
    ensures CalmSlots(SlotsReleased(Store(Store(slots, h, a), n, b), h, n))
  {
  }

  lemma NewTail(mem: Memory, n: Node, x: Payload)
    requires MemInv(mem) && n !in mem.next && mem.head == mem.tail && mem.NextOf(mem.tail).Null?
    ensures var mem' := Appended(mem, n, x);
            && n != mem.tail && mem'.head == mem.head && mem'.NextOf(mem'.head) == To(n) && mem'.tail == n
            && mem'.NextOf(n).Null?
            && mem'.pos == mem.pos[n := mem.H() + 1] && n !in mem.pos
  {
    MemHasChain(mem);
    HeadHasPosition(mem);
    hide MemInv;
    LastHasNoNext(mem, mem.tail);
    ChainHasNext(mem, mem.tail);
    if n in mem.pos { ChainHasNext(mem, n); }
    hide ChainInv;
  }

  /** Thread 2 enqueues a value and dequeues it again, retiring the old dummy. */
  lemma Round(m: Machine, k: nat) returns (events: seq<Event>, m': Machine)
    requires Calm(m, k)
    ensures Path(m, events, m') && Calm(m', k + 1) && Beside(m, m') && m.q.mem.head in m'.retired
  {
    var n := FreshNode(m.q.mem.next.Keys);
    RoundTail(m, k, n);
    var mem := Appended(m.q.mem, n, 0);
    var slots;
    events, m', slots := RoundPath(m, n);
    assert HazardInv(m) by { hide HazardInv; }
    hide Path, HazardInv, Appended;
    PathsKeepInv(m, events, m');
    RoundEnds(m, m', k, n, slots);
  }

  lemma RoundTail(m: Machine, k: nat, n: Node)
    requires Calm(m, k) && n !in m.q.mem.next
    ensures var mem, mem' := m.q.mem, Appended(m.q.mem, n, 0);
            && n != mem.tail && mem'.head == mem.head && mem'.NextOf(mem'.head) == To(n) && mem'.tail == n
            && mem'.NextOf(n).Null? && mem'.pos == mem.pos[n := k + 1] && n !in mem.pos
  {
    hide HazardInv, Inv, MemInv, Appended, CalmSlots, HasData, LocalInv, HoldersInv, ListInv, ReclaimInv, SoleUnlinkers,
         GuardInv, UnlinkedInv, At;
    HazardParts(m);
    InvAt(m.q, 2);
    NewTail(m.q.mem, n, 0);
  }

  lemma RoundPath(m: Machine, n: Node) returns (events: seq<Event>, m': Machine, slots: seq<Slot>)
    requires CalmSlots(m.slots) && m.mutex.Free? && At(m.q, 2).Idle? && 2 !in m.held
    requires n !in m.q.mem.next && n != m.q.mem.tail && m.q.mem.NextOf(m.q.mem.tail).Null?
    requires var mem' := Appended(m.q.mem, n, 0);
             mem'.NextOf(mem'.head) == To(n) && mem'.head != mem'.tail && mem'.head == m.q.mem.head
    ensures Path(m, events, m') && CalmSlots(slots)
    ensures m' == m.(q := Queue(Appended(m.q.mem, n, 0).(head := n), m.q.threads[2 := Idle]), slots := slots,
                     retired := m.retired + {m.q.mem.head})
  {
    hide Path, Appended, SlotsReleased, CalmSlots;
    var a, m1 := EnqueueAlone(m, 2, n, 0);
    assert At(m1.q, 2).Idle? && m1.q.mem == Appended(m.q.mem, n, 0);
    var b, m2, h, k2 := AcquireCalm(m1);
    assert At(m2.q, 2).Idle?;
    var c;
    c, m' := DequeueAlone(m2, 2, n);
    ReleasedSlots(m2.slots, h, k2, To(m.q.mem.head), To(n));
    slots := m'.slots;
    Join(m, a, m1, b, m2);
    Join(m, a + b, m2, c, m');
    events := a + b + c;
    PutTwice(m.q.threads, 2, Idle, Idle);
    assert m'.held == m.held;
  }

  lemma RoundEnds(m: Machine, m': Machine, k: nat, n: Node, slots: seq<Slot>)
    requires Calm(m, k) && HazardInv(m') && CalmSlots(slots)
    requires var mem, mem' := m.q.mem, Appended(m.q.mem, n, 0);
             && mem'.tail == n && mem'.NextOf(n).Null? && mem'.pos == mem.pos[n := k + 1] && n !in mem.pos
             && m' == m.(q := Queue(mem'.(head := n), m.q.threads[2 := Idle]), slots := slots,
                         retired := m.retired + {mem.head})
    ensures Calm(m', k + 1) && Beside(m, m') && m.q.mem.head in m'.retired
  {
    hide HazardInv, CalmSlots, Appended;
  }

  lemma BesideTwice(m: Machine, m1: Machine, m2: Machine)
    requires Beside(m, m1) && Beside(m1, m2)
    ensures Beside(m, m2)
  {
    hide At;
  }

  /** The dummy of every round is retired in the end. */
  ghost predicate RetiredBetween(m: Machine, from: nat, to: nat) {
    forall n | n in m.q.mem.pos && from <= m.q.mem.pos[n] < to :: n in m.retired
  }

  lemma {:induction false} Rounds(m: Machine, k: nat, j: nat) returns (events: seq<Event>, m': Machine)
    requires Calm(m, k)
    ensures Path(m, events, m') && Calm(m', k + j) && Beside(m, m') && RetiredBetween(m', k, k + j)
    decreases j
  {
    hide Path, Calm, Beside, RetiredBetween;
    if j == 0 {
      events, m' := [], m;
      NoRoundYet(m, k);
    } else {
      var a, m1 := Rounds(m, k, j - 1);
      var b;
      b, m' := Round(m1, k + j - 1);
      BesideTwice(m, m1, m');
      Join(m, a, m1, b, m');
      events := a + b;
      OneMoreRetired(m1, m', k, k + j - 1);
    }
  }

  lemma NoRoundYet(m: Machine, k: nat)
    ensures Path(m, [], m) && Beside(m, m) && RetiredBetween(m, k, k)
  {
    hide At;
  }

  lemma OneMoreRetired(m: Machine, m': Machine, from: nat, k: nat)
    requires Calm(m, k) && Calm(m', k + 1) && Beside(m, m') && RetiredBetween(m, from, k) && m.q.mem.head in m'.retired
    ensures RetiredBetween(m', from, k + 1)
  {
    assert MemInv(m.q.mem) && MemInv(m'.q.mem) by { HazardParts(m); HazardParts(m'); InvAt(m.q, 2); InvAt(m'.q, 2); }
    MemHasChain(m'.q.mem);
    MemHasChain(m.q.mem);
    HeadHasPosition(m.q.mem);
    HeadInsideChain(m.q.mem);
    forall n | n in m'.q.mem.pos && from <= m'.q.mem.pos[n] < k + 1 ensures n in m'.retired {
      var passed := m.q.mem.chain[m'.q.mem.pos[n]];
      assert passed in m.q.mem.pos && m.q.mem.pos[passed] == m'.q.mem.pos[n];
      hide HazardInv, MemInv;
      if n != passed { DifferentNodesDifferentPositions(m'.q.mem, n, passed); }
      if m'.q.mem.pos[n] == k && n != m.q.mem.head { DifferentNodesDifferentPositions(m.q.mem, n, m.q.mem.head); }
    }
  }

  /** Nobody protects anything: the walk ends and the node is freed. */
  lemma {:induction false} WalkToTheEnd(m: Machine, n: Node, k: nat) returns (events: seq<Event>, m': Machine)
    requires k <= |m.slots| && forall i | 0 <= i < |m.slots| :: m.slots[i].value == Null && m.slots[i].linked
    ensures Path(m.(walk := Checking(n, k)), events, m')
    ensures m' == m.(walk := NoWalk, retired := m.retired - {n}, condemned := m.condemned + {n})
    decreases k
  {
    var m0 := m.(walk := Checking(n, k));
    if k == 0 {
      m' := m.(walk := NoWalk, retired := m.retired - {n}, condemned := m.condemned + {n});
      assert Move(m0, WalkStep, m');
      OneMove(m0, WalkStep, m');
      events := [WalkStep];
    } else {
      var m1, m2 := m.(walk := Following(n, k - 1)), m.(walk := Checking(n, k - 1));
      assert Move(m0, WalkStep, m1) && Move(m1, WalkStep, m2);
      hide Path, Move;
      OneMove(m0, WalkStep, m1);
      JoinMove(m0, [WalkStep], m1, WalkStep, m2);
      var rest;
      rest, m' := WalkToTheEnd(m, n, k - 1);
      Join(m0, [WalkStep] + [WalkStep], m2, rest, m');
      events := [WalkStep] + [WalkStep] + rest;
    }
  }

  lemma FreeCalm(m: Machine, k: nat, n: Node) returns (events: seq<Event>, m': Machine)
    requires Calm(m, k) && n in m.retired
    ensures Path(m, events, m') && m'.q == m.q && m'.freed == m.freed + {n}
    ensures events != [] && events[|events| - 1] == FreeNode(n)
  {
    BeginWalkMove(m, n);
    var m1 := m.(walk := Checking(n, |m.slots|));
    hide Path, Move, HazardInv;
    var a, m2 := WalkToTheEnd(m, n, |m.slots|);
    m' := m2.(condemned := m2.condemned - {n}, freed := m2.freed + {n});
    FreeMove(m2, n);
    OneMove(m, BeginWalk(n), m1);
    Join(m, [BeginWalk(n)], m1, a, m2);
    JoinMove(m, [BeginWalk(n)] + a, m2, FreeNode(n), m');
    events := [BeginWalk(n)] + a + [FreeNode(n)];
  }

  lemma FreeMove(m: Machine, n: Node)
    requires n in m.condemned
    ensures Move(m, FreeNode(n), m.(condemned := m.condemned - {n}, freed := m.freed + {n}))
  {
  }

  /** Thread 1 begins an enqueue and reads the tail. */
  lemma BeginEnqueue(m: Machine, k: nat) returns (events: seq<Event>, m': Machine)
    requires Calm(m, k) && At(m.q, 1).Idle? && 1 !in m.held
    ensures Path(m, events, m') && Calm(m', k)
    ensures At(m'.q, 1).EnqReadNext? && At(m'.q, 1).currTail == m.q.mem.tail
    ensures m.q.mem.tail in m'.q.mem.pos && m'.q.mem.pos[m.q.mem.tail] == k && m'.freed == m.freed
  {
    var n := FreshNode(m.q.mem.next.Keys);
    assert MemInv(m.q.mem) by { HazardParts(m); InvAt(m.q, 2); }
    HeadHasPosition(m.q.mem);
    HeadIsLinked(m.q.mem);
    hide Path, HazardInv, CalmSlots, MemInv;
    EnqueueStart(m, 1, n, 0);
    var mem := Allocated(m.q.mem, n, 0);
    var m1 := Enqueuing(m, 1, mem, EnqReadTail(n));
    EnqueueMove(m, 1, mem, EnqReadTail(n));
    m' := Enqueuing(m, 1, mem, EnqReadNext(n, mem.tail));
    hide Move;
    OneMove(m, QueueStep(StartEnqueue(1, n, 0)), m1);
    JoinMove(m, [QueueStep(StartEnqueue(1, n, 0))], m1, QueueStep(Advance(1, true)), m');
    events := [QueueStep(StartEnqueue(1, n, 0))] + [QueueStep(Advance(1, true))];
    PathsKeepInv(m, events, m');
  }

  lemma HeadIsLinked(mem: Memory)
    requires MemInv(mem)
    ensures mem.head in mem.next
  {
  }

  lemma StartIsCalm(dummy: Node)
    ensures Calm(Start(dummy), 0)
  {
    StartIsInitial(dummy);
    hide HazardInv;
  }

  /** An enqueuer holding the node at position p while the head is at h: about to access it. */
  ghost predicate Lags(m: Machine, t: Tid, p: nat, h: nat) {
    && AccessesTail(At(m.q, t)) && m.q.mem.H() == h
    && At(m.q, t).currTail in m.q.mem.pos && m.q.mem.pos[At(m.q, t).currTail] == p
  }

  /** For every lag there is a history, in the machine that remembers freed nodes, that ends with freeing the
      node an enqueuer holds. */
  lemma LateEnqueuerPath(p: nat, h: nat) returns (run: seq<Machine>, events: seq<Event>)
    requires p < h
    ensures PlainHistory(run, events) && NoHarmfulCut(run, events)
    ensures var m := run[|events|];
            && Lags(m, 1, p, h) && m.freed == {At(m.q, 1).currTail}
            && events != [] && events[|events| - 1] == FreeNode(At(m.q, 1).currTail)
  {
    hide Path, Calm, HazardInv, Initial, At, IsHistory, NoHarmfulCut, Plain, Harmless;
    var m0 := Start(0);
    StartIsCalm(0);
    StartIsInitial(0);
    NobodyAtStart(0);
    var a, m1 := Rounds(m0, 0, p);
    var b, m2 := BeginEnqueue(m1, p);
    var c, m3 := Rounds(m2, p, h - p);
    var ct := At(m2.q, 1).currTail;
    var d, m4 := FreeCalm(m3, h, ct);
    Join(m0, a, m1, b, m2);
    Join(m0, a + b, m2, c, m3);
    Join(m0, a + b + c, m3, d, m4);
    events := a + b + c + d;
    run := PathIsHistory(m0, events, m4);
    CalmHeight(m3, h);
  }

  /** The state before the only node is freed. */
  lemma NothingFreedYet(m: Machine, n: Node, m': Machine)
    requires HazardInv(m) && Happens(m, FreeNode(n), m') && m'.freed == {n}
    ensures m.freed == {}
  {
    hide HazardInv, Inv, HoldersInv, ListInv, SoleUnlinkers, GuardInv, UnlinkedInv, Passed, At;
    HazardParts(m);
  }

  /** A history with the freed nodes gone in which nobody has touched one, and thread t is about to. */
  ghost predicate AboutToFault(run: seq<Machine>, events: seq<Event>, t: Tid) {
    && IsRealHistory(run, events) && NoFaults(run, events)
    && RealPossible(run[|events|], QueueStep(Advance(t, true))) && Faults(run[|events|], QueueStep(Advance(t, true)))
  }

  lemma ErasureOf(m: Machine, t: Tid)
    requires Touched(At(m.q, t)).To? && Touched(At(m.q, t)).node in m.freed
    ensures var r, e := Erase(m), QueueStep(Advance(t, true)); RealPossible(r, e) && Faults(r, e)
    ensures Erase(m).q.threads == m.q.threads && Erase(m).q.mem.H() == m.q.mem.H() && Erase(m).q.mem.pos == m.q.mem.pos
  {
    assert At(Erase(m).q, t) == At(m.q, t);
    hide Without;
  }

  /** For every lag there is a real history without harmful cuts, in which acquire behaves as if alone, that
      leaves an enqueuer about to touch a freed node. */
  lemma LateEnqueuer(p: nat, h: nat) returns (run: seq<Machine>, events: seq<Event>)
    requires p < h
    ensures AboutToFault(run, events, 1) && NoHarmfulCut(run, events) && Lags(run[|events|], 1, p, h)
    ensures forall i | 0 <= i < |events| :: Plain(run[i], events[i])
  {
    var whole;
    whole, events := LateEnqueuerPath(p, h);
    var k := |events| - 1;
    PlainIsHistory(whole, events);
    hide HazardInv, Happens, Harmless, Plain, Faults, RealPossible, Erase, Initial, Erased;
    forall i | 0 <= i < |whole| ensures HazardInv(whole[i]) { HistoriesKeepInv(whole, events, i); }
    assert Happens(whole[k], events[k], whole[k + 1]);
    NothingFreedYet(whole[k], events[k].ptr, whole[k + 1]);
    NobodyFaulted(whole, events, k);
    LagErased(whole[|events|], p, h);
    hide Touched, NoFaults, IsRealHistory;
    run := ErasedRun(whole, events, 1);
  }

  lemma PlainErased(m: Machine, e: Event)
    requires Plain(m, e)
    ensures Plain(Erase(m), e)
  {
    hide Without;
  }

  lemma LagErased(m: Machine, p: nat, h: nat)
    requires Lags(m, 1, p, h) && m.freed == {At(m.q, 1).currTail}
    ensures Lags(Erase(m), 1, p, h) && Touched(At(m.q, 1)) == To(At(m.q, 1).currTail)
  {
    assert At(Erase(m).q, 1) == At(m.q, 1);
    assert Erase(m).q.mem.H() == m.q.mem.H();
  }

  lemma NobodyAtStart(dummy: Node)
    ensures At(Start(dummy).q, 1).Idle? && 1 !in Start(dummy).held
  {
  }

  lemma CalmHeight(m: Machine, k: nat)
    requires Calm(m, k)
    ensures m.q.mem.H() == k
  {
  }

  /** Some real history without harmful cuts lets an enqueuer at position p, with the head at h, touch a freed
      node. */
  ghost predicate CanFault(p: nat, h: nat) {
    exists run, events, t ::
      AboutToFault(run, events, t) && NoHarmfulCut(run, events) && Lags(run[|events|], t, p, h)
  }

  /** Exactly when an enqueuer's access can go wrong: with its node at position p and the head at h, some history
      makes it touch a freed node if and only if the head has passed the node. */
  lemma EnqueuerFaultsIff(p: nat, h: nat)
    ensures CanFault(p, h) <==> p < h
  {
    if p < h {
      var run, events := LateEnqueuer(p, h);
      hide AboutToFault, NoHarmfulCut, Lags;
    } else {
      forall run: seq<Machine>, events: seq<Event>, t: Tid
        | AboutToFault(run, events, t) && NoHarmfulCut(run, events) && Lags(run[|events|], t, p, h)
        ensures false
      {
        AheadDoesNotFault(run, events, t, p, h);
      }
    }
  }

  lemma AheadDoesNotFault(run: seq<Machine>, events: seq<Event>, t: Tid, p: nat, h: nat)
    requires IsRealHistory(run, events) && NoFaults(run, events) && NoHarmfulCut(run, events)
    requires Lags(run[|events|], t, p, h) && h <= p
    ensures !Faults(run[|events|], QueueStep(Advance(t, true)))
  {
    var whole := RealHistoryLifts(run, events);
    HistoriesKeepInv(whole, events, |events|);
    var m, e := whole[|events|], QueueStep(Advance(t, true));
    assert run[|events|] == Erase(m);
    hide IsRealHistory, NoFaults, NoHarmfulCut, IsHistory, HazardInv;
    assert AheadOfHead(m, At(m.q, t)) by { hide Without; LagOfWhole(m, t, p, h); }
    FaultsErased(m, e);
    if Faults(m, e) { OnlyLateEnqueuersFault(m, e); }
  }

  lemma LagOfWhole(m: Machine, t: Tid, p: nat, h: nat)
    requires Lags(Erase(m), t, p, h) && h <= p
    ensures AheadOfHead(m, At(m.q, t))
  {
    assert At(Erase(m).q, t) == At(m.q, t);
    assert Erase(m).q.mem.H() == m.q.mem.H();
  }

  lemma FaultsErased(m: Machine, e: Event)
    ensures Faults(Erase(m), e) <==> Faults(m, e)
  {
    if e.QueueStep? { assert At(Erase(m).q, e.action.tid) == At(m.q, e.action.tid); }
    hide Without, Touched;
  }

  lemma PlainIsHistory(run: seq<Machine>, events: seq<Event>)
    requires PlainHistory(run, events)
    ensures IsHistory(run, events)
  {
  }
}
