/** The lock-free queue refines a FIFO sequence. */
module MpmcRefinement {
  import opened MpmcQueue

  // ---------------------------------------------------------------- one step

  lemma SameContents(m: Memory, m': Memory)
    requires ChainInv(m) && m'.chain == m.chain && m'.H() == m.H()
    requires forall n | n in m.pos :: m'.DataOf(n) == m.DataOf(n)
    ensures Contents(m') == Contents(m)
  {
    assert forall i | 0 <= i < |m.chain| :: m'.DataOf(m.chain[i]) == m.DataOf(m.chain[i]) by {
      assert forall i | 0 <= i < |m.chain| :: m.chain[i] in m.pos;
    }
    hide ChainInv;
    if m.H() < |m.chain| {
      SamePayloads(m, m', m.chain, m.H() + 1);
    }
  }

  lemma SamePayloads(m: Memory, m': Memory, chain: seq<Node>, from: nat)
    requires from <= |chain| && forall i | 0 <= i < |chain| :: m'.DataOf(chain[i]) == m.DataOf(chain[i])
    ensures Payloads(m', chain[from..]) == Payloads(m, chain[from..])
  {
  }

  lemma LinkAppends(m: Memory, last: Node, n: Node)
    requires MemInv(m) && HasData(m) && n !in m.pos && n in m.data
    ensures Contents(Linked(m, last, n)) == Contents(m) + [m.DataOf(n)]
  {
    var m' := Linked(m, last, n);
    LinkKeepsHead(m, last, n);
    hide MemInv, HasData, MpmcQueue.Linked;
    PayloadsGrow(m, m', m.chain, n, m.H() + 1);
  }

  lemma LinkKeepsHead(m: Memory, last: Node, n: Node)
    requires MemInv(m) && n !in m.pos
    ensures Linked(m, last, n).H() == m.H() && m.H() < |m.chain|
    ensures Linked(m, last, n).chain == m.chain + [n] && Linked(m, last, n).data == m.data
  {
    assert m.head in m.pos && m.head != n;
  }

  lemma PayloadsGrow(m: Memory, m': Memory, chain: seq<Node>, n: Node, from: nat)
    requires from <= |chain| && m'.data == m.data
    ensures Payloads(m', (chain + [n])[from..]) == Payloads(m, chain[from..]) + [m.DataOf(n)]
  {
    assert (chain + [n])[from..] == chain[from..] + [n];
  }

  lemma PopTakesOldest(m: Memory, nx: Node)
    requires ChainInv(m) && Follows(m, m.head, nx)
    ensures Contents(m) != [] && Contents(m)[0] == m.DataOf(nx)
    ensures Contents(m.(head := nx)) == Contents(m)[1..]
  {
    var m', h := m.(head := nx), m.H();
    HeadMoves(m, nx);
    hide ChainInv, Follows, Contents;
    ContentsFrom(m, h);
    ContentsFrom(m', h + 1);
    PayloadsShrink(m, m', m.chain, h + 1);
  }

  lemma HeadMoves(m: Memory, nx: Node)
    requires ChainInv(m) && Follows(m, m.head, nx)
    ensures m.(head := nx).H() == m.H() + 1 < |m.chain| && m.chain[m.H() + 1] == nx
  {
    PositionIn(m, nx);
    hide ChainInv;
  }

  lemma PositionIn(m: Memory, n: Node)
    requires ChainInv(m) && n in m.pos
    ensures m.pos[n] < |m.chain| && m.chain[m.pos[n]] == n
  {
    hide NextInv;
  }

  lemma ContentsFrom(m: Memory, h: nat)
    requires m.H() == h < |m.chain|
    ensures Contents(m) == Payloads(m, m.chain[h + 1..])
  {
  }

  lemma PayloadsShrink(m: Memory, m': Memory, chain: seq<Node>, from: nat)
    requires from < |chain| && m'.data == m.data
    ensures Payloads(m, chain[from..])[0] == m.DataOf(chain[from])
    ensures Payloads(m', chain[from + 1..]) == Payloads(m, chain[from..])[1..]
  {
    assert chain[from..][1..] == chain[from + 1..];
  }

  lemma NullNextMeansEmpty(m: Memory, n: Node)
    requires MemInv(m) && BehindHead(m, n) && m.NextOf(n).Null?
    ensures Contents(m) == []
  {
    LastHasNoNext(m, n);
    LastHasNoNext(m, m.head);
  }

  ghost predicate Effects(before: seq<Payload>, e: Effect, after: seq<Payload>) {
    match e
    case Stutter => after == before
    case Enqueued(x) => after == before + [x]
    case Dequeued(x) => before != [] && x == before[0] && after == before[1..]
    case SawEmpty => before == [] && after == []
  }

  /** Every step of every thread is an abstract enqueue, a dequeue of the oldest element, the observation
      of an empty queue at a moment when it is empty, or nothing. */
  lemma StepRefines(q: Queue, a: Action)
    requires Inv(q) && Enabled(q, a)
    ensures Effects(Contents(q.mem), EffectOf(q, a), Contents(Next(q, a).mem))
  {
    match a
    case StartEnqueue(t, n, x) =>
      assert MemInv(q.mem) && HasData(q.mem);
      DataInNodes(q, n);
      MemHasChain(q.mem);
      hide MemInv, ChainInv;
      SameContents(q.mem, q.mem.(next := q.mem.next[n := Null], data := q.mem.data[n := x]));
    case StartDequeue(t) =>
    case Advance(t, cas) =>
      hide Inv, MemInv, LocalInv, HasData, Contents, Grows;
      var l := At(q, t);
      assert MemInv(q.mem) && HasData(q.mem) && LocalInv(q.mem, l) by { InvAt(q, t); }
      AdvanceRefines(q.mem, l, cas);
  }

  lemma InvAt(q: Queue, t: Tid)
    requires Inv(q)
    ensures MemInv(q.mem) && HasData(q.mem) && LocalInv(q.mem, At(q, t))
  {
    hide MemInv, HasData;
  }

  lemma DataInNodes(q: Queue, n: Node)
    requires Inv(q) && n !in q.mem.next
    ensures n !in q.mem.pos
  {
  }

  lemma AdvanceRefines(m: Memory, l: Local, cas: bool)
    requires MemInv(m) && LocalInv(m, l) && HasData(m)
    ensures Effects(Contents(m), LocalEffect(m, l, cas), Contents(StepLocal(m, l, cas).0))
  {
    hide MemInv, HasData, Contents, MpmcQueue.Linked, SwingTail, Follows, BehindTail;
    if l.EnqLink? {
      if cas && m.NextOf(l.currTail).Null? { LinkAppends(m, l.currTail, l.own); }
    } else if l.DeqPop? {
      if cas && m.head == l.currHead { MemHasChain(m); PopTakesOldest(m, l.first); }
    } else if l.DeqReadNext? {
      if m.NextOf(l.currHead).Null? { NullNextMeansEmpty(m, l.currHead); }
    } else if Writes(l) {
      SwingIsInvisible(m, l.currTail, if l.EnqSwing? then l.own else l.helped, cas);
    } else {
      assert StepLocal(m, l, cas).0 == m;
    }
  }

  lemma SwingIsInvisible(m: Memory, from: Node, to: Node, cas: bool)
    ensures Contents(SwingTail(m, from, to, cas)) == Contents(m)
  {
    var m' := SwingTail(m, from, to, cas);
    assert m'.H() == m.H() && m'.chain == m.chain;
    if m.H() < |m.chain| {
      assert Payloads(m', m'.chain[m'.H() + 1..]) == Payloads(m, m.chain[m.H() + 1..]);
    }
  }

  // ---------------------------------------------------------------- whole runs

  ghost predicate Step(q: Queue, a: Action, q': Queue) {
    Enabled(q, a) && q' == Next(q, a)
  }

  ghost predicate IsRun(run: seq<Queue>, actions: seq<Action>) {
    && |run| == |actions| + 1
    && run[0] == Queue(InitialMemory(run[0].mem.head), map[])
    && forall i | 0 <= i < |actions| :: Step(run[i], actions[i], run[i + 1])
  }

  lemma {:induction false} RunsKeepInv(run: seq<Queue>, actions: seq<Action>, i: nat)
    requires IsRun(run, actions) && i < |run|
    ensures Inv(run[i])
  {
    if i == 0 {
      StartKeepsInv(run[0]);
    } else {
      hide Inv, Enabled, Next;
      RunsKeepInv(run, actions, i - 1);
      StepOfRun(run, actions, i);
      hide IsRun;
      StepKeepsInv(run[i - 1], actions[i - 1]);
    }
  }

  lemma StartKeepsInv(q: Queue)
    requires q == Queue(InitialMemory(q.mem.head), map[])
    ensures Inv(q)
  {
  }

  lemma StepOfRun(run: seq<Queue>, actions: seq<Action>, i: nat)
    requires IsRun(run, actions) && 0 < i < |run|
    ensures Enabled(run[i - 1], actions[i - 1]) && run[i] == Next(run[i - 1], actions[i - 1])
  {
    hide Enabled, Next;
    assert Step(run[i - 1], actions[i - 1], run[i - 1 + 1]);
  }

  /** The values enqueued and dequeued during the first i steps, in the order of their effects. */
  function EnqueuedValues(run: seq<Queue>, actions: seq<Action>, i: nat): seq<Payload>
    requires |run| == |actions| + 1 && i <= |actions|
  {
    if i == 0 then [] else
    var e := EffectOf(run[i - 1], actions[i - 1]);
    EnqueuedValues(run, actions, i - 1) + if e.Enqueued? then [e.x] else []
  }

  function DequeuedValues(run: seq<Queue>, actions: seq<Action>, i: nat): seq<Payload>
    requires |run| == |actions| + 1 && i <= |actions|
  {
    if i == 0 then [] else
    var e := EffectOf(run[i - 1], actions[i - 1]);
    DequeuedValues(run, actions, i - 1) + if e.Dequeued? then [e.x] else []
  }

  /** FIFO and conservation: at every moment the values enqueued so far are the values dequeued so far, in
      the same order, followed by the contents of the queue. */
  lemma {:induction false} FifoOrder(run: seq<Queue>, actions: seq<Action>, i: nat)
    requires IsRun(run, actions) && i <= |actions|
    ensures EnqueuedValues(run, actions, i) == DequeuedValues(run, actions, i) + Contents(run[i].mem)
  {
    hide Inv, Enabled, Next, Contents, EffectOf, Effects, Step;
    if i == 0 {
      NothingAtFirst(run[0].mem.head);
    } else {
      FifoOrder(run, actions, i - 1);
      RunsKeepInv(run, actions, i - 1);
      StepOfRun(run, actions, i);
      hide IsRun;
      StepRefines(run[i - 1], actions[i - 1]);
      LogsGrowTogether(EnqueuedValues(run, actions, i - 1), DequeuedValues(run, actions, i - 1),
                       Contents(run[i - 1].mem), EffectOf(run[i - 1], actions[i - 1]), Contents(run[i].mem));
    }
  }

  lemma NothingAtFirst(dummy: Node)
    ensures Contents(InitialMemory(dummy)) == []
  {
  }

  lemma LogsGrowTogether(enq: seq<Payload>, deq: seq<Payload>, before: seq<Payload>, e: Effect, after: seq<Payload>)
    requires enq == deq + before && Effects(before, e, after)
    ensures enq + (if e.Enqueued? then [e.x] else []) == deq + (if e.Dequeued? then [e.x] else []) + after
  {
    if e.Dequeued? {
      assert before == [e.x] + after;
    }
  }

  /** Thread t has been inside one and the same operation from step k to step i. */
  ghost predicate SameOperation(run: seq<Queue>, t: Tid, k: nat, i: nat) {
    k <= i < |run| && forall m | k <= m <= i :: !At(run[m], t).Idle?
  }

  predicate HasSeenEmpty(l: Local) {
    (l.DeqProtectNext? && l.next.Null?) || (l.DeqRecheck? && l.next.Null?) || l.DeqEmpty?
  }

  lemma OneThreadMoves(q: Queue, a: Action, t: Tid)
    requires Enabled(q, a)
    ensures a.tid != t ==> At(Next(q, a), t) == At(q, t)
    ensures a.tid == t && a.Advance? ==> At(Next(q, a), t) == StepLocal(q.mem, At(q, t), a.casSucceeds).1
    ensures a.tid == t && !a.Advance? ==> At(Next(q, a), t) == if a.StartEnqueue? then EnqReadTail(a.node)
            else DeqReadHead
  {
    hide StepLocal;
  }

  lemma SeenEmptyStep(q: Queue, a: Action, t: Tid)
    requires Enabled(q, a) && HasSeenEmpty(At(Next(q, a), t))
    ensures HasSeenEmpty(At(q, t)) || (a.tid == t && EffectOf(q, a) == SawEmpty && !At(q, t).Idle?)
  {
    OneThreadMoves(q, a, t);
    hide Next, Enabled;
  }

  /** A dequeue that returns false saw the queue empty at some moment while it was running. */
  lemma {:induction false} FalseMeansEmpty(run: seq<Queue>, actions: seq<Action>, i: nat, t: Tid) returns (k: nat)
    requires IsRun(run, actions) && i < |run| && HasSeenEmpty(At(run[i], t))
    ensures k < i && actions[k].tid == t && EffectOf(run[k], actions[k]) == SawEmpty
    ensures Contents(run[k].mem) == [] && SameOperation(run, t, k, i)
    decreases i
  {
    hide Inv, EffectOf, Contents, Next, Enabled;
    assert At(run[0], t).Idle?;
    StepOfRun(run, actions, i);
    SeenEmptyStep(run[i - 1], actions[i - 1], t);
    assert !At(run[i], t).Idle?;
    hide At, HasSeenEmpty, Step;
    if HasSeenEmpty(At(run[i - 1], t)) {
      k := FalseMeansEmpty(run, actions, i - 1, t);
    } else {
      k := i - 1;
      RunsKeepInv(run, actions, k);
      hide IsRun;
      StepRefines(run[k], actions[k]);
    }
  }

  /** The thread holds a value its own compare-and-swap has removed. */
  predicate HasPopped(l: Local, x: Payload) {
    (l.DeqReadData? && l.popped == x) || (l.DeqRetire? && l.popped == x)
  }

  lemma PoppedStep(q: Queue, a: Action, t: Tid, x: Payload)
    requires Enabled(q, a) && HasPopped(At(Next(q, a), t), x)
    ensures HasPopped(At(q, t), x) || (a.tid == t && EffectOf(q, a) == Dequeued(x) && !At(q, t).Idle?)
  {
    OneThreadMoves(q, a, t);
    hide Next, Enabled;
  }

  lemma {:induction false} PoppedOnce(run: seq<Queue>, actions: seq<Action>, i: nat, t: Tid, x: Payload)
    returns (k: nat)
    requires IsRun(run, actions) && i < |run| && HasPopped(At(run[i], t), x)
    ensures k < i && actions[k].tid == t && EffectOf(run[k], actions[k]) == Dequeued(x) && SameOperation(run, t, k, i)
    ensures forall m | k < m <= i :: HasPopped(At(run[m], t), x)
    decreases i
  {
    assert At(run[0], t).Idle?;
    assert Step(run[i - 1], actions[i - 1], run[i - 1 + 1]);
    PoppedStep(run[i - 1], actions[i - 1], t, x);
    hide EffectOf;
    if HasPopped(At(run[i - 1], t), x) {
      k := PoppedOnce(run, actions, i - 1, t, x);
    } else {
      k := i - 1;
    }
  }

  /** Before its compare-and-swap on the head has succeeded. */
  predicate BeforePop(l: Local) {
    l.DeqReadHead? || l.DeqProtectHead? || l.DeqCheckHead? || l.DeqReadTail? || l.DeqReadNext? || l.DeqProtectNext?
    || l.DeqRecheck? || l.DeqEmpty? || l.DeqHelp? || l.DeqPop?
  }

  predicate ChangesNothing(e: Effect) {
    e == Stutter || e == SawEmpty
  }

  lemma BeforePopStep(q: Queue, a: Action, t: Tid)
    requires Enabled(q, a) && BeforePop(At(Next(q, a), t))
    ensures a == StartDequeue(t) || (BeforePop(At(q, t)) && (a.tid == t ==> ChangesNothing(EffectOf(q, a))))
    ensures !At(Next(q, a), t).Idle?
    ensures a == StartDequeue(t) ==> EffectOf(q, a) == Stutter
  {
    OneThreadMoves(q, a, t);
    hide Next, Enabled;
  }

  lemma {:induction false} DequeueStarted(run: seq<Queue>, actions: seq<Action>, i: nat, t: Tid) returns (s: nat)
    requires IsRun(run, actions) && i < |run| && BeforePop(At(run[i], t))
    ensures s < i && actions[s] == StartDequeue(t) && SameOperation(run, t, s + 1, i)
    ensures forall m | s <= m < i && actions[m].tid == t :: ChangesNothing(EffectOf(run[m], actions[m]))
    decreases i
  {
    hide EffectOf, Next, Enabled;
    assert At(run[0], t).Idle?;
    StepOfRun(run, actions, i);
    BeforePopStep(run[i - 1], actions[i - 1], t);
    hide At, BeforePop, ChangesNothing;
    if actions[i - 1] == StartDequeue(t) {
      s := i - 1;
      assert ChangesNothing(Stutter) by { StutterChangesNothing(); }
    } else {
      s := DequeueStarted(run, actions, i - 1, t);
    }
  }

  lemma StutterChangesNothing()
    ensures ChangesNothing(Stutter)
  {
  }

  lemma DequeuedByPop(q: Queue, a: Action)
    requires EffectOf(q, a).Dequeued?
    ensures BeforePop(At(q, a.tid))
  {
  }

  lemma OperationsJoin(run: seq<Queue>, t: Tid, i: nat, k: nat, m: nat)
    requires SameOperation(run, t, i, k) && SameOperation(run, t, k, m)
    ensures SameOperation(run, t, i, m)
  {
    hide At;
  }

  /** A dequeue about to return true was started once, its own step k took exactly the returned value from
      the front, and none of its other steps changed the queue. */
  lemma TrueReturnsOldest(run: seq<Queue>, actions: seq<Action>, i: nat, t: Tid) returns (s: nat, k: nat)
    requires IsRun(run, actions) && i < |run| && At(run[i], t).DeqRetire?
    ensures s < k < i && actions[s] == StartDequeue(t) && actions[k].tid == t && SameOperation(run, t, s + 1, i)
    ensures EffectOf(run[k], actions[k]) == Dequeued(At(run[i], t).result)
    ensures Contents(run[k].mem) != [] && Contents(run[k].mem)[0] == At(run[i], t).result
    ensures forall m | s <= m < i && m != k && actions[m].tid == t :: ChangesNothing(EffectOf(run[m], actions[m]))
  {
    hide Inv, Contents, LocalInv, Next, Enabled, EffectOf, StepLocal;
    RunsKeepInv(run, actions, i);
    var l := At(run[i], t);
    ResultIsPopped(run[i], t);
    k := PoppedOnce(run, actions, i, t, l.popped);
    RunsKeepInv(run, actions, k);
    StepOfRun(run, actions, k + 1);
    StepRefines(run[k], actions[k]);
    DequeuedByPop(run[k], actions[k]);
    s := DequeueStarted(run, actions, k, t);
    hide IsRun;
    OperationsJoin(run, t, s + 1, k, i);
    forall m | k < m < i && actions[m].tid == t ensures ChangesNothing(EffectOf(run[m], actions[m])) {
      PoppedStutters(run[m], actions[m], l.popped);
    }
  }

  lemma ResultIsPopped(q: Queue, t: Tid)
    requires Inv(q) && At(q, t).DeqRetire?
    ensures At(q, t).result == At(q, t).popped
  {
    InvAt(q, t);
    hide Inv, MemInv, HasData, At;
    RetireReturnsPopped(q.mem, At(q, t));
  }

  lemma RetireReturnsPopped(m: Memory, l: Local)
    requires LocalInv(m, l) && l.DeqRetire?
    ensures l.result == l.popped
  {
  }

  lemma PoppedStutters(q: Queue, a: Action, x: Payload)
    requires HasPopped(At(q, a.tid), x)
    ensures EffectOf(q, a) == Stutter
  {
  }

  lemma EnqSwingStep(q: Queue, a: Action, t: Tid)
    requires Enabled(q, a) && At(Next(q, a), t).EnqSwing?
    ensures var n := At(Next(q, a), t).own;
            At(q, t) == At(Next(q, a), t) ||
            (a.tid == t && EffectOf(q, a) == Enqueued(q.mem.DataOf(n)) && Owned(At(q, t)) == To(n) && !At(q, t).Idle?)
  {
    OneThreadMoves(q, a, t);
    hide Next, Enabled;
  }

  lemma {:induction false} LinkedOnce(run: seq<Queue>, actions: seq<Action>, i: nat, t: Tid) returns (k: nat)
    requires IsRun(run, actions) && i < |run| && At(run[i], t).EnqSwing?
    ensures k < i && actions[k].tid == t && SameOperation(run, t, k, i)
    ensures EffectOf(run[k], actions[k]) == Enqueued(run[k].mem.DataOf(At(run[i], t).own))
    ensures Owned(At(run[k], t)) == To(At(run[i], t).own)
    ensures forall m | k < m < i && actions[m].tid == t :: EffectOf(run[m], actions[m]) == Stutter
    decreases i
  {
    hide EffectOf, Next, Enabled, Owned;
    assert At(run[0], t).Idle?;
    StepOfRun(run, actions, i);
    EnqSwingStep(run[i - 1], actions[i - 1], t);
    assert !At(run[i], t).Idle?;
    if At(run[i - 1], t) == At(run[i], t) {
      k := LinkedOnce(run, actions, i - 1, t);
      if actions[i - 1].tid == t { EnqSwingStutters(run[i - 1], actions[i - 1]); }
    } else {
      k := i - 1;
    }
  }

  lemma EnqSwingStutters(q: Queue, a: Action)
    requires At(q, a.tid).EnqSwing?
    ensures EffectOf(q, a) == Stutter
  {
  }

  lemma OwnedStep(q: Queue, a: Action, t: Tid, n: Node)
    requires Inv(q) && Enabled(q, a) && Owned(At(Next(q, a), t)) == To(n)
    ensures !At(Next(q, a), t).Idle?
    ensures (a.StartEnqueue? && a.tid == t && a.node == n && Next(q, a).mem.DataOf(n) == a.value
            && EffectOf(q, a) == Stutter)
            || (Owned(At(q, t)) == To(n) && Next(q, a).mem.DataOf(n) == q.mem.DataOf(n)
                && (a.tid == t ==> EffectOf(q, a) == Stutter))
  {
    OneThreadMoves(q, a, t);
    OwnedNodeIsKnown(q, t);
    OwnedIsBusy(At(Next(q, a), t));
    hide Inv, Owned;
    if a.StartEnqueue? {
      StartTouchesOwnNode(q, a);
      assert Owned(EnqReadTail(a.node)) == To(a.node);
      hide Next, Enabled, At;
    } else if a.Advance? {
      OwnedAdvance(q.mem, At(q, a.tid), a.casSucceeds);
      assert Next(q, a).mem == StepLocal(q.mem, At(q, a.tid), a.casSucceeds).0;
      hide Next, Enabled, At, StepLocal;
    }
  }

  lemma OwnedIsBusy(l: Local)
    ensures Owned(l).To? ==> !l.Idle?
    ensures Owned(DeqReadHead) == Null
  {
  }

  lemma OwnedNodeIsKnown(q: Queue, t: Tid)
    requires Inv(q)
    ensures Owned(At(q, t)).To? ==> Owned(At(q, t)).node in q.mem.next
  {
    InvAt(q, t);
    hide Inv, MemInv, HasData;
  }

  lemma StartTouchesOwnNode(q: Queue, a: Action)
    requires a.StartEnqueue? && Enabled(q, a)
    ensures Next(q, a).mem.DataOf(a.node) == a.value
    ensures forall n | n in q.mem.next :: Next(q, a).mem.DataOf(n) == q.mem.DataOf(n)
  {
  }

  lemma OwnedAdvance(m: Memory, l: Local, cas: bool)
    ensures var r := StepLocal(m, l, cas);
            r.0.data == m.data && (Owned(r.1).To? ==> Owned(r.1) == Owned(l) && LocalEffect(m, l, cas) == Stutter)
  {
  }

  lemma {:induction false} EnqueueStarted(run: seq<Queue>, actions: seq<Action>, i: nat, t: Tid, n: Node)
    returns (s: nat)
    requires IsRun(run, actions) && i < |run| && Owned(At(run[i], t)) == To(n)
    ensures s < i && actions[s].StartEnqueue? && actions[s].tid == t && actions[s].node == n
    ensures run[i].mem.DataOf(n) == actions[s].value && SameOperation(run, t, s + 1, i)
    ensures forall m | s <= m < i && actions[m].tid == t :: EffectOf(run[m], actions[m]) == Stutter
    decreases i
  {
    hide EffectOf, Next, Enabled, Inv;
    assert At(run[0], t).Idle?;
    StepOfRun(run, actions, i);
    RunsKeepInv(run, actions, i - 1);
    OwnedStep(run[i - 1], actions[i - 1], t, n);
    hide At, Owned;
    if Owned(At(run[i - 1], t)) == To(n) && run[i].mem.DataOf(n) == run[i - 1].mem.DataOf(n)
       && (actions[i - 1].tid == t ==> EffectOf(run[i - 1], actions[i - 1]) == Stutter) {
      s := EnqueueStarted(run, actions, i - 1, t, n);
    } else {
      s := i - 1;
    }
  }

  /** An enqueue about to return was started with some value, its own step k appended exactly this value, and
      none of its other steps changed the queue. */
  lemma EnqueueTookEffect(run: seq<Queue>, actions: seq<Action>, i: nat, t: Tid) returns (s: nat, k: nat)
    requires IsRun(run, actions) && i < |run| && At(run[i], t).EnqSwing?
    ensures s < k < i && actions[s].StartEnqueue? && actions[s].tid == t && actions[s].node == At(run[i], t).own
    ensures actions[k].tid == t && SameOperation(run, t, s + 1, i)
    ensures EffectOf(run[k], actions[k]) == Enqueued(actions[s].value)
    ensures forall m | s <= m < i && m != k && actions[m].tid == t :: EffectOf(run[m], actions[m]) == Stutter
  {
    k := LinkedOnce(run, actions, i, t);
    var n := At(run[i], t).own;
    hide At, Owned, EffectOf, IsRun;
    s := EnqueueStarted(run, actions, k, t, n);
    OperationsJoin(run, t, s + 1, k, i);
  }

  /** The head never passes the tail, and the tail lags the last node by at most one. */
  lemma EndsStayClose(run: seq<Queue>, actions: seq<Action>, i: nat)
    requires IsRun(run, actions) && i < |run|
    ensures run[i].mem.H() <= run[i].mem.T() < |run[i].mem.chain| <= run[i].mem.T() + 2
  {
    RunsKeepInv(run, actions, i);
    hide IsRun;
  }
}
