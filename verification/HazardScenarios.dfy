/** Histories built from whole operations that run alone: an enqueue, the acquisition of two holders, a
    dequeue with its retirement, a complete walk. They show that the conditions on safe histories are
    needed. */
module HazardScenarios {
  import opened MpmcQueue
  import opened HazardPointers
  import opened HazardTheorems

  /** What acquire does when nobody releases at the same time: it takes the newest free slot and appends one
      only if none is free. */
  predicate Plain(m: Machine, e: Event) {
    && (e.PublishSlot? ==> forall i | 0 <= i < |m.slots| :: m.slots[i].owner.OwnedBy?)
    && (e.TakeSlot? ==> forall i | e.slot < i < |m.slots| :: m.slots[i].owner.OwnedBy?)
  }

  ghost predicate Move(m: Machine, e: Event, m': Machine) {
    Happens(m, e, m') && Harmless(m, e) && Plain(m, e)
  }

  ghost predicate Path(m: Machine, events: seq<Event>, m': Machine)
    decreases |events|
  {
    if events == [] then m' == m
    else Move(m, events[0], After(m, events[0])) && Path(After(m, events[0]), events[1..], m')
  }

  lemma OneMove(m: Machine, e: Event, m': Machine)
    requires Move(m, e, m')
    ensures Path(m, [e], m')
  {
    hide Harmless, Plain, Possible, After;
    assert [e][1..] == [] && Path(m', [], m');
  }

  lemma {:induction false} Join(m: Machine, a: seq<Event>, m1: Machine, b: seq<Event>, m2: Machine)
    requires Path(m, a, m1) && Path(m1, b, m2)
    ensures Path(m, a + b, m2)
    decreases |a|
  {
    hide Move, After;
    if a == [] {
      assert a + b == b;
    } else {
      Join(After(m, a[0]), a[1..], m1, b, m2);
      assert (a + b)[0] == a[0] && (a + b)[1..] == a[1..] + b;
    }
  }

  lemma JoinMove(m: Machine, a: seq<Event>, m1: Machine, e: Event, m2: Machine)
    requires Path(m, a, m1) && Move(m1, e, m2)
    ensures Path(m, a + [e], m2)
  {
    OneMove(m1, e, m2);
    hide Move, Path;
    Join(m, a, m1, [e], m2);
  }

  lemma {:induction false} PathsKeepInv(m: Machine, events: seq<Event>, m': Machine)
    requires HazardInv(m) && Path(m, events, m')
    ensures HazardInv(m')
    decreases |events|
  {
    hide HazardInv, After, Possible, Harmless, Plain;
    if events != [] {
      EventKeepsInv(m, events[0]);
      PathsKeepInv(After(m, events[0]), events[1..], m');
    }
  }

  /** A path from an initial state is a history without harmful cuts. */
  lemma {:induction false} PathIsHistory(m: Machine, events: seq<Event>, m': Machine) returns (run: seq<Machine>)
    requires Initial(m) && Path(m, events, m')
    ensures IsHistory(run, events) && NoHarmfulCut(run, events) && run[|events|] == m'
    ensures forall i | 0 <= i < |events| :: Plain(run[i], events[i])
  {
    run := StatesOf(m, events, m');
    hide Move, Initial, Harmless, Plain, Happens;
    forall i | 0 <= i < |events| ensures Happens(run[i], events[i], run[i + 1]) && Harmless(run[i], events[i])
      && Plain(run[i], events[i]) {
      assert Move(run[i], events[i], run[i + 1]);
      MoveParts(run[i], events[i], run[i + 1]);
    }
  }

  lemma MoveParts(m: Machine, e: Event, m': Machine)
    requires Move(m, e, m')
    ensures Happens(m, e, m') && Harmless(m, e) && Plain(m, e)
  {
  }

  lemma {:induction false} StatesOf(m: Machine, events: seq<Event>, m': Machine) returns (run: seq<Machine>)
    requires Path(m, events, m')
    ensures |run| == |events| + 1 && run[0] == m && run[|events|] == m'
    ensures forall i | 0 <= i < |events| :: Move(run[i], events[i], run[i + 1])
    decreases |events|
  {
    hide Move, After;
    if events == [] {
      run := [m];
    } else {
      var rest := StatesOf(After(m, events[0]), events[1..], m');
      run := [m] + rest;
      forall i | 0 <= i < |events| ensures Move(run[i], events[i], run[i + 1]) {
        if i > 0 { assert Move(rest[i - 1], events[1..][i - 1], rest[i]); }
      }
    }
  }

  // ---------------------------------------------------------------- one thread at work

  /** The machine m in the middle of an operation of thread t. */
  function Mid(m: Machine, t: Tid, mem: Memory, l: Local, slots: seq<Slot>, s: Stage): Machine {
    m.(q := Queue(mem, m.q.threads[t := l]), slots := slots, held := m.held[t := s])
  }

  lemma PutTwice<V>(a: map<Tid, V>, t: Tid, x: V, y: V)
    ensures a[t := x][t := y] == a[t := y]
  {
  }

  lemma NoCut(m: Machine, e: Event)
    requires !e.WalkStep?
    ensures Harmless(m, e)
  {
  }

  /** An enqueuer's step has no part in the hazard slots. */
  function Enqueuing(m: Machine, t: Tid, mem: Memory, l: Local): Machine {
    m.(q := Queue(mem, m.q.threads[t := l]))
  }

  predicate InEnqueue(l: Local) {
    l.EnqReadTail? || l.EnqReadNext? || l.EnqCheckTail? || l.EnqLink? || l.EnqSwing?
  }

  lemma EnqueueMove(m: Machine, t: Tid, mem: Memory, l: Local)
    requires InEnqueue(l)
    ensures var r := StepLocal(mem, l, true);
            Move(Enqueuing(m, t, mem, l), QueueStep(Advance(t, true)), Enqueuing(m, t, r.0, r.1))
  {
    var before := Enqueuing(m, t, mem, l);
    var r := StepLocal(mem, l, true);
    assert At(before.q, t) == l;
    PutTwice(m.q.threads, t, l, r.1);
    NoCut(before, QueueStep(Advance(t, true)));
    hide StepLocal, Harmless;
  }

  function Allocated(mem: Memory, n: Node, x: Payload): Memory {
    mem.(next := mem.next[n := Null], data := mem.data[n := x])
  }

  function Appended(mem: Memory, n: Node, x: Payload): Memory {
    MpmcQueue.Linked(Allocated(mem, n, x), mem.tail, n).(tail := n)
  }

  lemma EnqueueStart(m: Machine, t: Tid, n: Node, x: Payload)
    requires At(m.q, t).Idle? && t !in m.held && n !in m.q.mem.next
    ensures Move(m, QueueStep(StartEnqueue(t, n, x)), Enqueuing(m, t, Allocated(m.q.mem, n, x), EnqReadTail(n)))
  {
    NoCut(m, QueueStep(StartEnqueue(t, n, x)));
    hide Harmless;
  }

  lemma EnqueueAlone(m: Machine, t: Tid, n: Node, x: Payload) returns (events: seq<Event>, m': Machine)
    requires At(m.q, t).Idle? && t !in m.held && n !in m.q.mem.next && n != m.q.mem.tail
    requires m.q.mem.NextOf(m.q.mem.tail).Null?
    ensures Path(m, events, m') && m' == Enqueuing(m, t, Appended(m.q.mem, n, x), Idle)
  {
    var mem, tail := Allocated(m.q.mem, n, x), m.q.mem.tail;
    var linked := MpmcQueue.Linked(mem, tail, n);
    assert mem.NextOf(tail).Null? && mem.tail == tail;
    assert StepLocal(mem, EnqReadTail(n), true) == (mem, EnqReadNext(n, tail));
    assert StepLocal(mem, EnqReadNext(n, tail), true) == (mem, EnqCheckTail(n, tail, Null));
    assert StepLocal(mem, EnqCheckTail(n, tail, Null), true) == (mem, EnqLink(n, tail));
    assert StepLocal(mem, EnqLink(n, tail), true) == (linked, EnqSwing(n, tail));
    assert StepLocal(linked, EnqSwing(n, tail), true) == (linked.(tail := n), Idle);
    EnqueueStart(m, t, n, x);
    EnqueueMove(m, t, mem, EnqReadTail(n));
    EnqueueMove(m, t, mem, EnqReadNext(n, tail));
    EnqueueMove(m, t, mem, EnqCheckTail(n, tail, Null));
    EnqueueMove(m, t, mem, EnqLink(n, tail));
    EnqueueMove(m, t, linked, EnqSwing(n, tail));
    hide Move, Path, StepLocal, Enqueuing, Allocated, MpmcQueue.Linked, Appended, At;
    var go := QueueStep(Advance(t, true));
    var m1 := Enqueuing(m, t, mem, EnqReadTail(n));
    OneMove(m, QueueStep(StartEnqueue(t, n, x)), m1);
    events := [QueueStep(StartEnqueue(t, n, x))];
    JoinMove(m, events, m1, go, Enqueuing(m, t, mem, EnqReadNext(n, tail)));
    events := events + [go];
    JoinMove(m, events, Enqueuing(m, t, mem, EnqReadNext(n, tail)), go,
             Enqueuing(m, t, mem, EnqCheckTail(n, tail, Null)));
    events := events + [go];
    JoinMove(m, events, Enqueuing(m, t, mem, EnqCheckTail(n, tail, Null)), go, Enqueuing(m, t, mem, EnqLink(n, tail)));
    events := events + [go];
    JoinMove(m, events, Enqueuing(m, t, mem, EnqLink(n, tail)), go, Enqueuing(m, t, linked, EnqSwing(n, tail)));
    events := events + [go];
    m' := Enqueuing(m, t, linked.(tail := n), Idle);
    JoinMove(m, events, Enqueuing(m, t, linked, EnqSwing(n, tail)), go, m');
    events := events + [go];
    assert linked.(tail := n) == Appended(m.q.mem, n, x) by { AppendedIs(m.q.mem, n, x); }
  }

  lemma AppendedIs(mem: Memory, n: Node, x: Payload)
    ensures Appended(mem, n, x) == MpmcQueue.Linked(Allocated(mem, n, x), mem.tail, n).(tail := n)
  {
  }

  // ---------------------------------------------------------------- acquiring

  lemma BeginMove(m: Machine, t: Tid)
    requires At(m.q, t).Idle? && t !in m.held
    ensures Move(m, BeginDequeue(t), m.(held := m.held[t := First]))
  {
    NoCut(m, BeginDequeue(t));
    hide Harmless;
  }

  lemma PublishMove(m: Machine, t: Tid, slots: seq<Slot>, s: Stage)
    requires m.mutex.Free? && Acquiring(s) && forall i | 0 <= i < |slots| :: slots[i].owner.OwnedBy?
    ensures Move(m.(slots := slots, held := m.held[t := s]), PublishSlot(t),
                 m.(slots := slots + [Slot(Null, OwnedBy(t), false)], mutex := OwnedBy(t),
                    held := m.held[t := WithNewSlot(s, |slots|)]))
  {
    PutTwice(m.held, t, s, WithNewSlot(s, |slots|));
    NoCut(m.(slots := slots, held := m.held[t := s]), PublishSlot(t));
    hide Harmless;
  }

  lemma LinkMove(m: Machine, t: Tid, slots: seq<Slot>, s: Stage)
    requires m.mutex.Free? && Linking(s) && NewSlot(s) == |slots|
    ensures Move(m.(slots := slots + [Slot(Null, OwnedBy(t), false)], mutex := OwnedBy(t), held := m.held[t := s]),
            LinkSlot(t),
                 m.(slots := slots + [Slot(Null, OwnedBy(t), true)], held := m.held[t := AfterLink(s)]))
  {
    PutTwice(m.held, t, s, AfterLink(s));
    NoCut(m.(slots := slots + [Slot(Null, OwnedBy(t), false)], mutex := OwnedBy(t), held := m.held[t := s]),
      LinkSlot(t));
    hide Harmless;
    var one := slots + [Slot(Null, OwnedBy(t), false)];
    assert SetLinked(one, |slots|) == slots + [Slot(Null, OwnedBy(t), true)];
  }

  lemma TakeMove(m: Machine, t: Tid, slots: seq<Slot>, i: nat, s: Stage)
    requires m.mutex.Free? && Acquiring(s) && i < |slots| && slots[i].owner.Free?
    requires forall k | i < k < |slots| :: slots[k].owner.OwnedBy?
    ensures Move(m.(slots := slots, held := m.held[t := s]), TakeSlot(t, i),
                 m.(slots := SetOwner(slots, i, OwnedBy(t)), held := m.held[t := WithSlot(s, i)]))
  {
    PutTwice(m.held, t, s, WithSlot(s, i));
    NoCut(m.(slots := slots, held := m.held[t := s]), TakeSlot(t, i));
    hide Harmless;
  }

  /** Without a free slot the thread appends two. */
  lemma AcquireNew(m: Machine, t: Tid) returns (events: seq<Event>, m': Machine)
    requires At(m.q, t).Idle? && t !in m.held && m.mutex.Free?
    requires forall i | 0 <= i < |m.slots| :: m.slots[i].owner.OwnedBy?
    ensures var own := Slot(Null, OwnedBy(t), true);
            m' == m.(slots := m.slots + [own, own], held := m.held[t := Ready(|m.slots|, |m.slots| + 1)])
    ensures Path(m, events, m')
  {
    var own, k := Slot(Null, OwnedBy(t), true), |m.slots|;
    var one := m.slots + [own];
    assert one + [own] == m.slots + [own, own];
    BeginMove(m, t);
    PublishMove(m, t, m.slots, First);
    LinkMove(m, t, m.slots, LinkingFirst(k));
    PublishMove(m, t, one, Second(k));
    LinkMove(m, t, one, LinkingSecond(k, k + 1));
    hide Move, Path;
    var published := Slot(Null, OwnedBy(t), false);
    var m1 := m.(held := m.held[t := First]);
    var m2 := m.(slots := m.slots + [published], mutex := OwnedBy(t), held := m.held[t := LinkingFirst(k)]);
    var m3 := m.(slots := one, held := m.held[t := Second(k)]);
    var m4 := m.(slots := one + [published], mutex := OwnedBy(t), held := m.held[t := LinkingSecond(k, k + 1)]);
    m' := m.(slots := one + [own], held := m.held[t := Ready(k, k + 1)]);
    OneMove(m, BeginDequeue(t), m1);
    JoinMove(m, [BeginDequeue(t)], m1, PublishSlot(t), m2);
    JoinMove(m, [BeginDequeue(t)] + [PublishSlot(t)], m2, LinkSlot(t), m3);
    JoinMove(m, [BeginDequeue(t)] + [PublishSlot(t)] + [LinkSlot(t)], m3, PublishSlot(t), m4);
    events := [BeginDequeue(t)] + [PublishSlot(t)] + [LinkSlot(t)] + [PublishSlot(t)];
    JoinMove(m, events, m4, LinkSlot(t), m');
    events := events + [LinkSlot(t)];
  }

  /** With two free slots at the end of the list it takes these. */
  lemma AcquireOld(m: Machine, t: Tid) returns (events: seq<Event>, m': Machine)
    requires At(m.q, t).Idle? && t !in m.held && m.mutex.Free?
    requires |m.slots| >= 2 && m.slots[|m.slots| - 1].owner.Free? && m.slots[|m.slots| - 2].owner.Free?
    ensures var k := |m.slots|;
            m' == m.(slots := SetOwner(SetOwner(m.slots, k - 1, OwnedBy(t)), k - 2, OwnedBy(t)),
                     held := m.held[t := Ready(k - 1, k - 2)])
    ensures Path(m, events, m')
  {
    var k := |m.slots|;
    var one := SetOwner(m.slots, k - 1, OwnedBy(t));
    BeginMove(m, t);
    TakeMove(m, t, m.slots, k - 1, First);
    TakeMove(m, t, one, k - 2, Second(k - 1));
    hide Move, Path;
    var m1 := m.(held := m.held[t := First]);
    var m2 := m.(slots := one, held := m.held[t := Second(k - 1)]);
    m' := m.(slots := SetOwner(one, k - 2, OwnedBy(t)), held := m.held[t := Ready(k - 1, k - 2)]);
    OneMove(m, BeginDequeue(t), m1);
    JoinMove(m, [BeginDequeue(t)], m1, TakeSlot(t, k - 1), m2);
    events := [BeginDequeue(t)] + [TakeSlot(t, k - 1)];
    JoinMove(m, events, m2, TakeSlot(t, k - 2), m');
    events := events + [TakeSlot(t, k - 2)];
  }

  // ---------------------------------------------------------------- dequeuing

  function StoredBy(l: Local, slots: seq<Slot>, h: nat, n: nat): seq<Slot> {
    if l.DeqProtectHead? then Store(slots, h, To(l.currHead))
    else if l.DeqProtectNext? then Store(slots, n, l.next)
    else slots
  }

  lemma DequeueMove(m: Machine, t: Tid, mem: Memory, l: Local, slots: seq<Slot>, h: nat, n: nat)
    requires InDequeue(l) && !Leaving(l)
    ensures var r := StepLocal(mem, l, true);
            Move(Mid(m, t, mem, l, slots, Running(h, n)), QueueStep(Advance(t, true)),
                 Mid(m, t, r.0, r.1, StoredBy(l, slots, h, n), Running(h, n)))
  {
    var before := Mid(m, t, mem, l, slots, Running(h, n));
    var r := StepLocal(mem, l, true);
    assert At(before.q, t) == l && StageOf(before, t) == Running(h, n);
    PutTwice(m.q.threads, t, l, r.1);
    NoCut(before, QueueStep(Advance(t, true)));
    hide StepLocal, Harmless, Store;
  }

  lemma DequeueStart(m: Machine, t: Tid)
    requires At(m.q, t).Idle? && t in m.held && m.held[t].Ready?
    ensures Move(m, QueueStep(StartDequeue(t)),
                 Mid(m, t, m.q.mem, DeqReadHead, m.slots, Running(m.held[t].head, m.held[t].next)))
  {
    NoCut(m, QueueStep(StartDequeue(t)));
    hide Harmless;
  }

  /** A dequeue up to the point where it is about to read the next field of the head it protects. */
  lemma ReachReadNext(m: Machine, t: Tid) returns (events: seq<Event>, m': Machine)
    requires At(m.q, t).Idle? && t in m.held && m.held[t].Ready?
    ensures var h, n := m.held[t].head, m.held[t].next;
            m' == Mid(m, t, m.q.mem, DeqReadNext(m.q.mem.head, m.q.mem.tail), Store(m.slots, h, To(m.q.mem.head)),
              Running(h, n))
    ensures Path(m, events, m')
  {
    var mem, h, n, ch := m.q.mem, m.held[t].head, m.held[t].next, m.q.mem.head;
    var stored := Store(m.slots, h, To(ch));
    DequeueStart(m, t);
    DequeueMove(m, t, mem, DeqReadHead, m.slots, h, n);
    DequeueMove(m, t, mem, DeqProtectHead(ch), m.slots, h, n);
    DequeueMove(m, t, mem, DeqCheckHead(ch), stored, h, n);
    DequeueMove(m, t, mem, DeqReadTail(ch), stored, h, n);
    assert StepLocal(mem, DeqReadHead, true) == (mem, DeqProtectHead(ch));
    assert StepLocal(mem, DeqProtectHead(ch), true) == (mem, DeqCheckHead(ch));
    assert StepLocal(mem, DeqCheckHead(ch), true) == (mem, DeqReadTail(ch));
    assert StepLocal(mem, DeqReadTail(ch), true) == (mem, DeqReadNext(ch, mem.tail));
    hide Move, Path, StepLocal, Store, At, Mid;
    var go := QueueStep(Advance(t, true));
    var m1 := Mid(m, t, mem, DeqReadHead, m.slots, Running(h, n));
    var m2 := Mid(m, t, mem, DeqProtectHead(ch), m.slots, Running(h, n));
    var m3 := Mid(m, t, mem, DeqCheckHead(ch), stored, Running(h, n));
    var m4 := Mid(m, t, mem, DeqReadTail(ch), stored, Running(h, n));
    m' := Mid(m, t, mem, DeqReadNext(ch, mem.tail), stored, Running(h, n));
    OneMove(m, QueueStep(StartDequeue(t)), m1);
    events := [QueueStep(StartDequeue(t))];
    JoinMove(m, events, m1, go, m2);
    events := events + [go];
    JoinMove(m, events, m2, go, m3);
    events := events + [go];
    JoinMove(m, events, m3, go, m4);
    events := events + [go];
    JoinMove(m, events, m4, go, m');
    events := events + [go];
  }

  lemma PopSteps(mem: Memory, f: Node)
    requires mem.NextOf(mem.head) == To(f) && mem.head != mem.tail
    ensures var ch, ct, x, popped := mem.head, mem.tail, mem.DataOf(f), mem.(head := f);
            && StepLocal(mem, DeqReadNext(ch, ct), true) == (mem, DeqProtectNext(ch, ct, To(f)))
            && StepLocal(mem, DeqProtectNext(ch, ct, To(f)), true) == (mem, DeqRecheck(ch, ct, To(f)))
            && StepLocal(mem, DeqRecheck(ch, ct, To(f)), true) == (mem, DeqPop(ch, f))
            && StepLocal(mem, DeqPop(ch, f), true) == (popped, DeqReadData(ch, f, x))
            && StepLocal(popped, DeqReadData(ch, f, x), true) == (popped, DeqRetire(ch, x, x))
  {
  }

  /** From there to the retirement, on a queue with at least one element. */
  lemma ReachRetire(m: Machine, t: Tid, f: Node, slots: seq<Slot>, h: nat, n: nat)
    returns (events: seq<Event>, m': Machine)
    requires m.q.mem.NextOf(m.q.mem.head) == To(f) && m.q.mem.head != m.q.mem.tail
    ensures var mem, x := m.q.mem, m.q.mem.DataOf(f);
            && m' == Mid(m, t, mem.(head := f), DeqRetire(mem.head, x, x), Store(slots, n, To(f)), Running(h, n))
            && Path(Mid(m, t, mem, DeqReadNext(mem.head, mem.tail), slots, Running(h, n)), events, m')
  {
    var mem, ch, ct, x := m.q.mem, m.q.mem.head, m.q.mem.tail, m.q.mem.DataOf(f);
    var popped, stored := mem.(head := f), Store(slots, n, To(f));
    DequeueMove(m, t, mem, DeqReadNext(ch, ct), slots, h, n);
    DequeueMove(m, t, mem, DeqProtectNext(ch, ct, To(f)), slots, h, n);
    DequeueMove(m, t, mem, DeqRecheck(ch, ct, To(f)), stored, h, n);
    DequeueMove(m, t, mem, DeqPop(ch, f), stored, h, n);
    DequeueMove(m, t, popped, DeqReadData(ch, f, x), stored, h, n);
    PopSteps(mem, f);
    hide Move, Path, StepLocal, Store, Mid;
    var go := QueueStep(Advance(t, true));
    var m0 := Mid(m, t, mem, DeqReadNext(ch, ct), slots, Running(h, n));
    var m1 := Mid(m, t, mem, DeqProtectNext(ch, ct, To(f)), slots, Running(h, n));
    var m2 := Mid(m, t, mem, DeqRecheck(ch, ct, To(f)), stored, Running(h, n));
    var m3 := Mid(m, t, mem, DeqPop(ch, f), stored, Running(h, n));
    var m4 := Mid(m, t, popped, DeqReadData(ch, f, x), stored, Running(h, n));
    m' := Mid(m, t, popped, DeqRetire(ch, x, x), stored, Running(h, n));
    OneMove(m0, go, m1);
    events := [go];
    JoinMove(m0, events, m1, go, m2);
    events := events + [go];
    JoinMove(m0, events, m2, go, m3);
    events := events + [go];
    JoinMove(m0, events, m3, go, m4);
    events := events + [go];
    JoinMove(m0, events, m4, go, m');
    events := events + [go];
  }

  lemma ReleaseMove(m: Machine, t: Tid, mem: Memory, l: Local, slots: seq<Slot>, s: Stage)
    requires Leaving(l) && Releasing(s)
    ensures var slots' := match s
                        case Running(h, _) => Store(slots, h, Null)
                        case HeadCleared(h, _) => SetOwner(slots, h, Free)
                        case HeadReleased(n) => Store(slots, n, Null) case _ => SetOwner(slots, s.next, Free);
            var s' := match s case Running(h, n) => HeadCleared(h, n) case HeadCleared(_, n) => HeadReleased(n)
                              case HeadReleased(n) => NextCleared(n) case _ => Released;
            Move(Mid(m, t, mem, l, slots, s), ReleaseStep(t), Mid(m, t, mem, l, slots', s'))
  {
    var before := Mid(m, t, mem, l, slots, s);
    assert At(before.q, t) == l && StageOf(before, t) == s;
    PutTwice(m.held, t, s, match s case Running(h, n) => HeadCleared(h, n) case HeadCleared(_, n) => HeadReleased(n)
                                   case HeadReleased(n) => NextCleared(n) case _ => Released);
    NoCut(before, ReleaseStep(t));
    hide Harmless, Store, SetOwner;
  }

  lemma RetireMove(m: Machine, t: Tid, mem: Memory, l: Local, slots: seq<Slot>)
    requires l.DeqRetire?
    ensures Move(Mid(m, t, mem, l, slots, Released), QueueStep(Advance(t, true)),
                 m.(q := Queue(mem, m.q.threads[t := Idle]), slots := slots, held := m.held - {t},
                   retired := m.retired + {l.currHead}))
  {
    var before := Mid(m, t, mem, l, slots, Released);
    assert At(before.q, t) == l;
    PutTwice(m.q.threads, t, l, Idle);
    assert before.held - {t} == m.held - {t};
    NoCut(before, QueueStep(Advance(t, true)));
    hide Harmless;
  }

  function SlotsReleased(slots: seq<Slot>, h: nat, n: nat): seq<Slot> {
    SetOwner(Store(SetOwner(Store(slots, h, Null), h, Free), n, Null), n, Free)
  }

  lemma ReleaseAndRetire(m: Machine, t: Tid, mem: Memory, l: Local, slots: seq<Slot>, h: nat, n: nat)
    returns (events: seq<Event>, m': Machine)
    requires l.DeqRetire?
    ensures m' == m.(q := Queue(mem, m.q.threads[t := Idle]), slots := SlotsReleased(slots, h, n), held := m.held - {t},
                     retired := m.retired + {l.currHead})
    ensures Path(Mid(m, t, mem, l, slots, Running(h, n)), events, m')
  {
    var s1 := Store(slots, h, Null);
    var s2 := SetOwner(s1, h, Free);
    var s3 := Store(s2, n, Null);
    var s4 := SetOwner(s3, n, Free);
    ReleaseMove(m, t, mem, l, slots, Running(h, n));
    ReleaseMove(m, t, mem, l, s1, HeadCleared(h, n));
    ReleaseMove(m, t, mem, l, s2, HeadReleased(n));
    ReleaseMove(m, t, mem, l, s3, NextCleared(n));
    RetireMove(m, t, mem, l, s4);
    hide Move, Path, Store, SetOwner, Mid;
    var m0 := Mid(m, t, mem, l, slots, Running(h, n));
    var m1 := Mid(m, t, mem, l, s1, HeadCleared(h, n));
    var m2 := Mid(m, t, mem, l, s2, HeadReleased(n));
    var m3 := Mid(m, t, mem, l, s3, NextCleared(n));
    var m4 := Mid(m, t, mem, l, s4, Released);
    m' := m.(q := Queue(mem, m.q.threads[t := Idle]), slots := s4, held := m.held - {t},
      retired := m.retired + {l.currHead});
    OneMove(m0, ReleaseStep(t), m1);
    events := [ReleaseStep(t)];
    JoinMove(m0, events, m1, ReleaseStep(t), m2);
    events := events + [ReleaseStep(t)];
    JoinMove(m0, events, m2, ReleaseStep(t), m3);
    events := events + [ReleaseStep(t)];
    JoinMove(m0, events, m3, ReleaseStep(t), m4);
    events := events + [ReleaseStep(t)];
    JoinMove(m0, events, m4, QueueStep(Advance(t, true)), m');
    events := events + [QueueStep(Advance(t, true))];
  }

  /** A whole dequeue with its retirement, starting from acquired holders, on a queue with an element. */
  lemma DequeueAlone(m: Machine, t: Tid, f: Node) returns (events: seq<Event>, m': Machine)
    requires At(m.q, t).Idle? && t in m.held && m.held[t].Ready?
    requires m.q.mem.NextOf(m.q.mem.head) == To(f) && m.q.mem.head != m.q.mem.tail
    ensures var h, n, ch := m.held[t].head, m.held[t].next, m.q.mem.head;
            m' == m.(q := Queue(m.q.mem.(head := f), m.q.threads[t := Idle]),
                     slots := SlotsReleased(Store(Store(m.slots, h, To(ch)), n, To(f)), h, n),
                     held := m.held - {t}, retired := m.retired + {ch})
    ensures Path(m, events, m')
  {
    var h, n, ch, x := m.held[t].head, m.held[t].next, m.q.mem.head, m.q.mem.DataOf(f);
    hide Path, SlotsReleased, Store, At;
    var a, m1 := ReachReadNext(m, t);
    var b, m2 := ReachRetire(m, t, f, Store(m.slots, h, To(ch)), h, n);
    var c;
    c, m' := ReleaseAndRetire(m, t, m.q.mem.(head := f), DeqRetire(ch, x, x),
                              Store(Store(m.slots, h, To(ch)), n, To(f)), h, n);
    Join(m, a, m1, b, m2);
    Join(m, a + b, m2, c, m');
    events := a + b + c;
  }
}
