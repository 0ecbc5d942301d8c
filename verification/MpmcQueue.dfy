/** The archived lock-free queue: any number of threads enqueue and dequeue, each atomic load, store or
    compare-and-swap is one step, and steps of different threads interleave freely. Node addresses are
    not reused. */
module MpmcQueue {
  type Node = nat
  type Tid = nat
  type Payload = int

  datatype Link = Null | To(node: Node)

  /** Where a thread stands; each constructor names the access it performs next. */
  datatype Local =
    | Idle
    | EnqReadTail(own: Node)
    | EnqReadNext(own: Node, currTail: Node)
    | EnqCheckTail(own: Node, currTail: Node, next: Link)
    | EnqLink(own: Node, currTail: Node)
    | EnqSwing(own: Node, currTail: Node)
    | EnqHelp(own: Node, currTail: Node, helped: Node)
    | DeqReadHead
    | DeqProtectHead(currHead: Node)
    | DeqCheckHead(currHead: Node)
    | DeqReadTail(currHead: Node)
    | DeqReadNext(currHead: Node, currTail: Node)
    | DeqProtectNext(currHead: Node, currTail: Node, next: Link)
    | DeqRecheck(currHead: Node, currTail: Node, next: Link)
    | DeqEmpty
    | DeqHelp(currTail: Node, helped: Node)
    | DeqPop(currHead: Node, first: Node)
    | DeqReadData(currHead: Node, first: Node, popped: Payload)
    | DeqRetire(currHead: Node, result: Payload, popped: Payload)

  /** The shared memory. `chain` lists all nodes ever linked, starting with the first dummy, and `pos` their
      positions; both only record the past. */
  datatype Memory = Memory(next: map<Node, Link>, data: map<Node, Payload>, head: Node, tail: Node,
                           chain: seq<Node>, pos: map<Node, nat>)
  {
    function H(): nat { if head in pos then pos[head] else 0 }
    function T(): nat { if tail in pos then pos[tail] else 0 }
    function NextOf(n: Node): Link { if n in next then next[n] else Null }
    function DataOf(n: Node): Payload { if n in data then data[n] else 0 }
  }

  datatype Queue = Queue(mem: Memory, threads: map<Tid, Local>)

  function At(q: Queue, t: Tid): Local {
    if t in q.threads then q.threads[t] else Idle
  }

  function InitialMemory(dummy: Node): Memory {
    Memory(map[dummy := Null], map[], dummy, dummy, [dummy], map[dummy := 0])
  }

  // ---------------------------------------------------------------- steps

  datatype Action =
    | StartEnqueue(tid: Tid, node: Node, value: Payload)
    | StartDequeue(tid: Tid)
    | Advance(tid: Tid, casSucceeds: bool)  // a weak compare-and-swap may fail although it could succeed

  /** A successful link: the new node becomes the last of the chain. */
  function Linked(m: Memory, last: Node, n: Node): Memory {
    m.(next := m.next[last := To(n)], chain := m.chain + [n], pos := m.pos[n := |m.chain|])
  }

  function SwingTail(m: Memory, from: Node, to: Node, cas: bool): Memory {
    if cas && m.tail == from then m.(tail := to) else m
  }

  /** One step of one thread. */
  function StepLocal(m: Memory, l: Local, cas: bool): (Memory, Local) {
    match l
    case Idle => (m, Idle)
    case EnqReadTail(n) => (m, EnqReadNext(n, m.tail))
    case EnqReadNext(n, ct) => (m, EnqCheckTail(n, ct, m.NextOf(ct)))
    case EnqCheckTail(n, ct, nx) =>
      if ct != m.tail then (m, EnqReadTail(n))
      else if nx.Null? then (m, EnqLink(n, ct))
      else (m, EnqHelp(n, ct, nx.node))
    case EnqLink(n, ct) =>
      if cas && m.NextOf(ct).Null? then (Linked(m, ct, n), EnqSwing(n, ct)) else (m, EnqReadTail(n))
    case EnqSwing(n, ct) => (SwingTail(m, ct, n, cas), Idle)
    case EnqHelp(n, ct, nx) => (SwingTail(m, ct, nx, cas), EnqReadTail(n))
    case DeqReadHead => (m, DeqProtectHead(m.head))
    case DeqProtectHead(ch) => (m, DeqCheckHead(ch))
    case DeqCheckHead(ch) => (m, if ch == m.head then DeqReadTail(ch) else DeqReadHead)
    case DeqReadTail(ch) => (m, DeqReadNext(ch, m.tail))
    case DeqReadNext(ch, ct) => (m, DeqProtectNext(ch, ct, m.NextOf(ch)))
    case DeqProtectNext(ch, ct, nx) => (m, DeqRecheck(ch, ct, nx))
    case DeqRecheck(ch, ct, nx) =>
      (m, if ch != m.head then DeqReadHead
          else if nx.Null? then DeqEmpty
          else if ch == ct then DeqHelp(ct, nx.node)
          else DeqPop(ch, nx.node))
    case DeqEmpty => (m, Idle)
    case DeqHelp(ct, nx) => (SwingTail(m, ct, nx, cas), DeqReadHead)
    case DeqPop(ch, nx) =>
      if cas && m.head == ch then (m.(head := nx), DeqReadData(ch, nx, m.DataOf(nx))) else (m, DeqReadHead)
    case DeqReadData(ch, nx, popped) => (m, DeqRetire(ch, m.DataOf(nx), popped))
    case DeqRetire(_, _, _) => (m, Idle)
  }

  predicate Enabled(q: Queue, a: Action) {
    match a
    case StartEnqueue(t, n, _) => At(q, t).Idle? && n !in q.mem.next
    case StartDequeue(t) => At(q, t).Idle?
    case Advance(t, _) => !At(q, t).Idle?
  }

  function Next(q: Queue, a: Action): Queue {
    match a
    case StartEnqueue(t, n, x) =>
      Queue(q.mem.(next := q.mem.next[n := Null], data := q.mem.data[n := x]), q.threads[t := EnqReadTail(n)])
    case StartDequeue(t) => Queue(q.mem, q.threads[t := DeqReadHead])
    case Advance(t, cas) =>
      var r := StepLocal(q.mem, At(q, t), cas);
      Queue(r.0, q.threads[t := r.1])
  }

  // ---------------------------------------------------------------- the abstract queue

  function Payloads(m: Memory, nodes: seq<Node>): seq<Payload> {
    seq(|nodes|, i requires 0 <= i < |nodes| => m.DataOf(nodes[i]))
  }

  /** The FIFO contents: everything linked behind the head. */
  function Contents(m: Memory): seq<Payload> {
    if m.H() < |m.chain| then Payloads(m, m.chain[m.H() + 1..]) else []
  }

  datatype Effect = Stutter | Enqueued(x: Payload) | Dequeued(x: Payload) | SawEmpty

  /** What a step means for the abstract queue. */
  function LocalEffect(m: Memory, l: Local, cas: bool): Effect {
    match l
    case EnqLink(n, ct) => if cas && m.NextOf(ct).Null? then Enqueued(m.DataOf(n)) else Stutter
    case DeqPop(ch, nx) => if cas && m.head == ch then Dequeued(m.DataOf(nx)) else Stutter
    case DeqReadNext(ch, _) => if m.NextOf(ch).Null? then SawEmpty else Stutter
    case _ => Stutter
  }

  function EffectOf(q: Queue, a: Action): Effect {
    if a.Advance? then LocalEffect(q.mem, At(q, a.tid), a.casSucceeds) else Stutter
  }

  // ---------------------------------------------------------------- the invariant

  ghost predicate ChainInv(m: Memory) {
    PositionsInv(m) && NextInv(m)
  }

  ghost predicate PositionsInv(m: Memory) {
    && |m.chain| >= 1
    && (forall i | 0 <= i < |m.chain| :: m.chain[i] in m.pos && m.pos[m.chain[i]] == i)
    && (forall n | n in m.pos :: m.pos[n] < |m.chain| && m.chain[m.pos[n]] == n)
  }

  /** A linked node points to the one behind it in the chain, the last one to none. */
  ghost predicate NextInv(m: Memory) {
    forall n | n in m.pos :: NextAt(m, n)
  }

  ghost predicate NextAt(m: Memory, n: Node) {
    n in m.pos && n in m.next && m.next[n] == if m.pos[n] + 1 < |m.chain| then To(m.chain[m.pos[n] + 1]) else Null
  }

  /** The head never passes the tail, and the tail lags the last node by at most one. */
  ghost predicate EndsInv(m: Memory) {
    && m.head in m.pos && m.tail in m.pos
    && m.pos[m.head] <= m.pos[m.tail]
    && |m.chain| <= m.pos[m.tail] + 2
  }

  ghost predicate MemInv(m: Memory) {
    ChainInv(m) && EndsInv(m)
  }

  ghost predicate Private(m: Memory, n: Node) {
    n in m.next && m.next[n] == Null && n !in m.pos && n in m.data
  }

  ghost predicate BehindTail(m: Memory, n: Node) {
    n in m.pos && m.pos[n] <= m.T()
  }

  ghost predicate BehindHead(m: Memory, n: Node) {
    n in m.pos && m.pos[n] <= m.H()
  }

  /** `b` follows `a` in the chain. */
  ghost predicate Follows(m: Memory, a: Node, b: Node) {
    a in m.pos && b in m.pos && m.pos[b] == m.pos[a] + 1
  }

  ghost predicate LinkOk(m: Memory, a: Node, nx: Link) {
    nx.To? ==> Follows(m, a, nx.node)
  }

  ghost predicate LocalInv(m: Memory, l: Local) {
    match l
    case Idle => true
    case EnqReadTail(n) => Private(m, n)
    case EnqReadNext(n, ct) => Private(m, n) && BehindTail(m, ct)
    case EnqCheckTail(n, ct, nx) => Private(m, n) && BehindTail(m, ct) && LinkOk(m, ct, nx)
    case EnqLink(n, ct) => Private(m, n) && BehindTail(m, ct)
    case EnqSwing(n, ct) => Follows(m, ct, n)
    case EnqHelp(n, ct, nx) => Private(m, n) && Follows(m, ct, nx)
    case DeqReadHead => true
    case DeqProtectHead(ch) => BehindHead(m, ch)
    case DeqCheckHead(ch) => BehindHead(m, ch)
    case DeqReadTail(ch) => BehindHead(m, ch)
    case DeqReadNext(ch, ct) => BehindHead(m, ch) && BehindTail(m, ct) && m.pos[ch] <= m.pos[ct]
    case DeqProtectNext(ch, ct, nx) => BehindHead(m, ch) && BehindTail(m, ct) && m.pos[ch] <= m.pos[ct]
      && LinkOk(m, ch, nx)
    case DeqRecheck(ch, ct, nx) => BehindHead(m, ch) && BehindTail(m, ct) && m.pos[ch] <= m.pos[ct] && LinkOk(m, ch, nx)
    case DeqEmpty => true
    case DeqHelp(ct, nx) => Follows(m, ct, nx)
    case DeqPop(ch, nx) => Follows(m, ch, nx) && BehindTail(m, nx)
    case DeqReadData(ch, nx, popped) => Follows(m, ch, nx) && BehindHead(m, nx) && m.DataOf(nx) == popped
      && nx in m.data
    case DeqRetire(ch, x, popped) => ch in m.pos && m.pos[ch] < m.H() && x == popped
  }

  /** The node a thread has allocated and not linked yet. */
  function Owned(l: Local): Link {
    if l.EnqReadTail? || l.EnqReadNext? || l.EnqCheckTail? || l.EnqLink? || l.EnqHelp? then To(l.own) else Null
  }

  ghost predicate SoleOwners(threads: map<Tid, Local>) {
    forall t, u | t in threads && u in threads && t != u && Owned(threads[t]).To? ::
      Owned(threads[t]) != Owned(threads[u])
  }

  ghost predicate Inv(q: Queue) {
    && MemInv(q.mem)
    && HasData(q.mem)
    && (forall t | t in q.threads :: LocalInv(q.mem, q.threads[t]))
    && SoleOwners(q.threads)
  }

  // ---------------------------------------------------------------- one thread

  /** What a step of one thread may do to the memory, as the other threads see it. */
  ghost predicate Grows(m: Memory, m': Memory, owned: Link) {
    && (forall n | n in m.pos :: n in m'.pos && m'.pos[n] == m.pos[n])
    && m.H() <= m'.H() && m.T() <= m'.T()
    && (forall n | n in m.data :: n in m'.data && m'.data[n] == m.data[n])
    && (forall n | n in m.next && n !in m.pos && To(n) != owned ::
          n in m'.next && m'.next[n] == m.next[n] && n !in m'.pos)
  }

  lemma OthersKeepInv(m: Memory, m': Memory, owned: Link, l: Local)
    requires LocalInv(m, l) && Grows(m, m', owned) && (Owned(l).To? ==> Owned(l) != owned)
    ensures LocalInv(m', l)
  {
  }

  lemma LastHasNoNext(m: Memory, n: Node)
    requires ChainInv(m) && n in m.pos
    ensures LinkOk(m, n, m.NextOf(n))
    ensures m.NextOf(n).Null? <==> m.pos[n] == |m.chain| - 1
    ensures m.pos[n] < |m.chain| && m.chain[m.pos[n]] == n
  {
  }

  lemma LinkKeepsChain(m: Memory, last: Node, n: Node)
    requires ChainInv(m) && last in m.pos && m.pos[last] == |m.chain| - 1 && n !in m.pos && n in m.next
             && m.next[n] == Null
    ensures ChainInv(Linked(m, last, n))
  {
    var m' := Linked(m, last, n);
    assert PositionsInv(m') by { hide NextInv; }
    forall k | k in m'.pos ensures NextAt(m', k) {
      if k in m.pos { LinkKeepsNext(m, last, n, k); }
    }
  }

  lemma LinkKeepsNext(m: Memory, last: Node, n: Node, k: Node)
    requires ChainInv(m) && last in m.pos && m.pos[last] == |m.chain| - 1 && n !in m.pos && k in m.pos
    ensures NextAt(Linked(m, last, n), k)
  {
    assert NextAt(m, k) && m.pos[k] < |m.chain|;
    if k != last { DifferentNodesDifferentPositions(m, k, last); }
    hide ChainInv;
    NextAfterLink(m, last, n, k);
  }

  lemma NextAfterLink(m: Memory, last: Node, n: Node, k: Node)
    requires NextAt(m, k) && m.pos[k] < |m.chain| && n !in m.pos
    requires k == last <==> m.pos[k] == |m.chain| - 1
    ensures NextAt(Linked(m, last, n), k)
  {
  }

  lemma ChainHasNext(m: Memory, n: Node)
    requires ChainInv(m) && n in m.pos
    ensures n in m.next
  {
    assert NextAt(m, n);
  }

  lemma LinkKeepsInv(m: Memory, last: Node, n: Node)
    requires MemInv(m) && BehindTail(m, last) && m.NextOf(last).Null? && Private(m, n)
    ensures MemInv(Linked(m, last, n)) && Grows(m, Linked(m, last, n), To(n)) && Follows(Linked(m, last, n), last, n)
    ensures m.pos[last] == |m.chain| - 1 == m.T()
  {
    LastHasNoNext(m, last);
    LastHasNoNext(m, m.tail);
    ChainHasNext(m, last);
    assert ChainInv(m) && m.pos[last] == |m.chain| - 1 == m.T();
    hide ChainInv, LinkOk;
    LinkKeepsChain(m, last, n);
    LinkKeepsEnds(m, last, n);
    hide Linked;
  }

  lemma LinkKeepsEnds(m: Memory, last: Node, n: Node)
    requires EndsInv(m) && Private(m, n) && last in m.pos && last in m.next && m.pos[last] == |m.chain| - 1 == m.T()
    ensures EndsInv(Linked(m, last, n)) && Grows(m, Linked(m, last, n), To(n)) && Follows(Linked(m, last, n), last, n)
  {
    assert last != n && m.head != n && m.tail != n;
  }

  lemma SwingKeepsInv(m: Memory, from: Node, to: Node, cas: bool)
    requires MemInv(m) && Follows(m, from, to)
    ensures MemInv(SwingTail(m, from, to, cas)) && Grows(m, SwingTail(m, from, to, cas), Null)
  {
    LastHasNoNext(m, to);
    assert ChainInv(SwingTail(m, from, to, cas));
    hide ChainInv;
  }

  lemma PopKeepsInv(m: Memory, first: Node)
    requires MemInv(m) && Follows(m, m.head, first) && BehindTail(m, first)
    ensures MemInv(m.(head := first)) && Grows(m, m.(head := first), Null)
  {
    assert ChainInv(m.(head := first)) by { SameChain(m, m.(head := first)); }
    hide ChainInv;
  }

  lemma SameChain(m: Memory, m': Memory)
    requires ChainInv(m) && m'.chain == m.chain && m'.pos == m.pos && m'.next == m.next
    ensures ChainInv(m')
  {
    assert PositionsInv(m') by { hide NextInv; }
    hide PositionsInv;
    forall n | n in m'.pos ensures NextAt(m', n) { assert NextAt(m, n); }
  }

  lemma DifferentNodesDifferentPositions(m: Memory, a: Node, b: Node)
    requires ChainInv(m) && a in m.pos && b in m.pos && a != b
    ensures m.pos[a] != m.pos[b]
  {
    assert m.chain[m.pos[a]] == a && m.chain[m.pos[b]] == b;
  }

  ghost predicate HasData(m: Memory) {
    forall n | n in m.pos && m.pos[n] > 0 :: n in m.data
  }

  lemma LinkStep(m: Memory, l: Local, cas: bool)
    requires MemInv(m) && LocalInv(m, l) && HasData(m) && l.EnqLink?
    ensures var r := StepLocal(m, l, cas);
            MemInv(r.0) && LocalInv(r.0, r.1) && Grows(m, r.0, Owned(l)) && HasData(r.0)
  {
    hide MemInv, ChainInv, EndsInv;
    if cas && m.NextOf(l.currTail).Null? {
      LinkKeepsInv(m, l.currTail, l.own);
      hide Grows;
    }
  }

  lemma SwingStep(m: Memory, l: Local, cas: bool)
    requires MemInv(m) && LocalInv(m, l) && HasData(m) && (l.EnqSwing? || l.EnqHelp? || l.DeqHelp?)
    ensures var r := StepLocal(m, l, cas);
            MemInv(r.0) && LocalInv(r.0, r.1) && Grows(m, r.0, Owned(l)) && HasData(r.0)
  {
    hide MemInv, ChainInv, EndsInv;
    SwingKeepsInv(m, l.currTail, if l.EnqSwing? then l.own else l.helped, cas);
  }

  lemma PopStep(m: Memory, l: Local, cas: bool)
    requires MemInv(m) && LocalInv(m, l) && HasData(m) && l.DeqPop?
    ensures var r := StepLocal(m, l, cas);
            MemInv(r.0) && LocalInv(r.0, r.1) && Grows(m, r.0, Owned(l)) && HasData(r.0)
  {
    hide MemInv, ChainInv, EndsInv;
    if cas && m.head == l.currHead {
      PopKeepsInv(m, l.first);
    }
  }

  predicate Writes(l: Local) {
    l.EnqLink? || l.EnqSwing? || l.EnqHelp? || l.DeqHelp? || l.DeqPop?
  }

  lemma EndsBehind(m: Memory)
    requires MemInv(m)
    ensures BehindTail(m, m.tail) && BehindHead(m, m.head) && m.H() <= m.T()
  {
  }

  /** The steps that only read. */
  lemma ReadStep(m: Memory, l: Local, cas: bool)
    requires MemInv(m) && LocalInv(m, l) && !Writes(l)
    ensures var r := StepLocal(m, l, cas); r.0 == m && LocalInv(m, r.1)
  {
    hide MemInv, ChainInv, EndsInv;
    EndsBehind(m);
    match l {
      case EnqReadNext(n, ct) => assert ChainInv(m) by { MemHasChain(m); } LastHasNoNext(m, ct);
      case DeqReadNext(ch, ct) => assert ChainInv(m) by { MemHasChain(m); } LastHasNoNext(m, ch);
      case DeqRecheck(ch, ct, nx) =>
        if ch != ct { assert ChainInv(m) by { MemHasChain(m); } DifferentNodesDifferentPositions(m, ch, ct); }
      case _ =>
    }
  }

  lemma MemHasChain(m: Memory)
    requires MemInv(m)
    ensures ChainInv(m)
  {
  }

  lemma StepKeepsLocal(m: Memory, l: Local, cas: bool)
    requires MemInv(m) && LocalInv(m, l) && HasData(m)
    ensures var r := StepLocal(m, l, cas);
            && MemInv(r.0) && LocalInv(r.0, r.1) && Grows(m, r.0, Owned(l)) && HasData(r.0)
            && (Owned(r.1) == Owned(l) || Owned(r.1) == Null)
  {
    OwnershipStep(m, l, cas);
    hide StepLocal, MemInv, LocalInv, HasData;
    if l.EnqLink? {
      LinkStep(m, l, cas);
    } else if l.DeqPop? {
      PopStep(m, l, cas);
    } else if Writes(l) {
      SwingStep(m, l, cas);
    } else {
      ReadStep(m, l, cas);
      SameGrows(m, Owned(l));
    }
  }

  lemma SameGrows(m: Memory, owned: Link)
    ensures Grows(m, m, owned)
  {
  }

  lemma OwnershipStep(m: Memory, l: Local, cas: bool)
    ensures Owned(StepLocal(m, l, cas).1) == Owned(l) || Owned(StepLocal(m, l, cas).1) == Null
  {
  }

  // ---------------------------------------------------------------- all threads

  lemma AllocKeepsInv(m: Memory, n: Node, x: Payload)
    requires MemInv(m) && HasData(m) && n !in m.next
    ensures var m' := m.(next := m.next[n := Null], data := m.data[n := x]);
            && MemInv(m') && HasData(m') && Private(m', n)
            && (forall k | k in m.next && k !in m.pos :: k in m'.next && m'.next[k] == m.next[k] && k !in m'.pos)
  {
  }

  lemma StartEnqueueKeepsInv(q: Queue, t: Tid, n: Node, x: Payload)
    requires Inv(q) && Enabled(q, StartEnqueue(t, n, x))
    ensures Inv(Next(q, StartEnqueue(t, n, x)))
  {
    var q' := Next(q, StartEnqueue(t, n, x));
    AllocKeepsInv(q.mem, n, x);
    hide MemInv, HasData;
    forall u | u in q.threads ensures LocalInv(q'.mem, q.threads[u]) && Owned(q.threads[u]) != To(n) {
      AllocSeenByOthers(q.mem, n, x, q.threads[u]);
    }
    assert q'.mem == q.mem.(next := q.mem.next[n := Null], data := q.mem.data[n := x]);
    assert q'.threads == q.threads[t := EnqReadTail(n)];
    assert LocalInv(q'.mem, EnqReadTail(n));
    hide LocalInv, Next, Enabled, Private;
    NewOwner(q.threads, t, n);
  }

  lemma NewOwner(threads: map<Tid, Local>, t: Tid, n: Node)
    requires SoleOwners(threads) && forall u | u in threads :: Owned(threads[u]) != To(n)
    ensures SoleOwners(threads[t := EnqReadTail(n)])
  {
    assert Owned(EnqReadTail(n)) == To(n);
    hide Owned;
  }

  lemma AllocSeenByOthers(m: Memory, n: Node, x: Payload, l: Local)
    requires LocalInv(m, l) && n !in m.next && (forall k | k in m.pos :: k in m.next)
    ensures LocalInv(m.(next := m.next[n := Null], data := m.data[n := x]), l) && Owned(l) != To(n)
  {
  }

  lemma AdvanceKeepsInv(q: Queue, t: Tid, cas: bool)
    requires Inv(q) && Enabled(q, Advance(t, cas))
    ensures Inv(Next(q, Advance(t, cas)))
  {
    hide StepLocal, MemInv, LocalInv, HasData, Grows, Owned;
    assert t in q.threads;
    var l := q.threads[t];
    StepKeepsLocal(q.mem, l, cas);
    var r := StepLocal(q.mem, l, cas);
    assert Next(q, Advance(t, cas)) == Queue(r.0, q.threads[t := r.1]);
    hide Next, Enabled;
    OwnedByOne(q, t);
    forall u | u in q.threads && u != t ensures LocalInv(r.0, q.threads[u]) {
      OthersKeepInv(q.mem, r.0, Owned(l), q.threads[u]);
    }
    OwnershipKept(q.threads, t, r.1);
  }

  lemma OwnedByOne(q: Queue, t: Tid)
    requires SoleOwners(q.threads) && t in q.threads
    ensures forall u | u in q.threads && u != t && Owned(q.threads[u]).To? :: Owned(q.threads[u]) != Owned(q.threads[t])
  {
    hide Owned;
  }

  lemma OwnershipKept(threads: map<Tid, Local>, t: Tid, l: Local)
    requires SoleOwners(threads) && t in threads && (Owned(l) == Owned(threads[t]) || Owned(l) == Null)
    ensures SoleOwners(threads[t := l])
  {
    hide Owned;
  }

  lemma StepKeepsInv(q: Queue, a: Action)
    requires Inv(q) && Enabled(q, a)
    ensures Inv(Next(q, a))
  {
    hide Inv, Enabled, Next;
    match a
    case StartEnqueue(t, n, x) => StartEnqueueKeepsInv(q, t, n, x);
    case StartDequeue(t) => StartDequeueKeepsInv(q, t);
    case Advance(t, cas) => AdvanceKeepsInv(q, t, cas);
  }

  lemma StartDequeueKeepsInv(q: Queue, t: Tid)
    requires Inv(q) && Enabled(q, StartDequeue(t))
    ensures Inv(Next(q, StartDequeue(t)))
  {
    hide MemInv, HasData;
  }
}
