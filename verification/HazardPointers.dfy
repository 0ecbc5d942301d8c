/** Safe memory reclamation for the lock-free queue: hazard slots acquired and released store by store,
    retired nodes, and a reclaimer that follows the slot list without taking its mutex while the queue's
    threads keep running. */
module HazardPointers {
  import opened MpmcQueue
  import opened MpmcRefinement

  datatype Owner = Free | OwnedBy(tid: Tid)

  /** `linked`: the slot's next_ has been stored; until then it reads as null. */
  datatype Slot = Slot(value: Link, owner: Owner, linked: bool)

  /** Where a thread's dequeue stands outside the queue's own steps: acquiring its two holders, running, or
      releasing them. A linking thread holds the list mutex. */
  datatype Stage =
    | First
    | LinkingFirst(head: nat)
    | Second(head: nat)
    | LinkingSecond(head: nat, next: nat)
    | Ready(head: nat, next: nat)
    | Running(head: nat, next: nat)
    | HeadCleared(head: nat, next: nat)
    | HeadReleased(next: nat)
    | NextCleared(next: nat)
    | Released

  /** isProtected in progress: about to compare the slot below `unchecked` (none left: not protected), or
      about to read next_ of the slot `at`. */
  datatype Walk = NoWalk | Checking(ptr: Node, unchecked: nat) | Following(ptr: Node, at: nat)

  /** Slots in the order of their publication; the list starts with the newest and each next_ leads to the
      one published before. */
  datatype Machine = Machine(q: Queue, slots: seq<Slot>, mutex: Owner, held: map<Tid, Stage>,
                             retired: set<Node>, walk: Walk, condemned: set<Node>, freed: set<Node>)

  datatype Event =
    | QueueStep(action: Action)
    | BeginDequeue(tid: Tid)
    | TakeSlot(tid: Tid, slot: nat)
    | PublishSlot(tid: Tid)
    | LinkSlot(tid: Tid)
    | ReleaseStep(tid: Tid)
    | BeginWalk(ptr: Node)
    | WalkStep
    | FreeNode(ptr: Node)

  predicate Acquiring(s: Stage) {
    s.First? || s.Second?
  }

  predicate Linking(s: Stage) {
    s.LinkingFirst? || s.LinkingSecond?
  }

  predicate Releasing(s: Stage) {
    s.Running? || s.HeadCleared? || s.HeadReleased? || s.NextCleared?
  }

  predicate Leaving(l: Local) {
    l.DeqEmpty? || l.DeqRetire?
  }

  /** The slot a linking thread has just published. */
  function NewSlot(s: Stage): nat {
    match s case LinkingFirst(h) => h case LinkingSecond(_, n) => n case _ => 0
  }

  function WithSlot(s: Stage, i: nat): Stage {
    match s case First => Second(i) case Second(h) => Ready(h, i) case _ => s
  }

  function WithNewSlot(s: Stage, i: nat): Stage {
    match s case First => LinkingFirst(i) case Second(h) => LinkingSecond(h, i) case _ => s
  }

  function AfterLink(s: Stage): Stage {
    match s case LinkingFirst(h) => Second(h) case LinkingSecond(h, n) => Ready(h, n) case _ => s
  }

  function StageOf(m: Machine, t: Tid): Stage {
    if t in m.held then m.held[t] else Released
  }

  function Store(slots: seq<Slot>, i: nat, v: Link): seq<Slot> {
    if i < |slots| then slots[i := slots[i].(value := v)] else slots
  }

  function SetOwner(slots: seq<Slot>, i: nat, o: Owner): seq<Slot> {
    if i < |slots| then slots[i := slots[i].(owner := o)] else slots
  }

  function SetLinked(slots: seq<Slot>, i: nat): seq<Slot> {
    if i < |slots| then slots[i := slots[i].(linked := true)] else slots
  }

  // ---------------------------------------------------------------- events

  /** What a thread's queue step does to the hazard slots and the retired nodes. */
  function HazardEffect(m: Machine, a: Action): Machine {
    var s := StageOf(m, a.tid);
    if a.StartDequeue? then
      if s.Ready? then m.(held := m.held[a.tid := Running(s.head, s.next)]) else m
    else if !a.Advance? then m
    else match At(m.q, a.tid)
      case DeqProtectHead(ch) => if s.Running? then m.(slots := Store(m.slots, s.head, To(ch))) else m
      case DeqProtectNext(_, _, nx) => if s.Running? then m.(slots := Store(m.slots, s.next, nx)) else m
      case DeqEmpty => m.(held := m.held - {a.tid})
      case DeqRetire(ch, _, _) => m.(held := m.held - {a.tid}, retired := m.retired + {ch})
      case _ => m
  }

  /** One store of release(): first the pointer, then the owner, first of the head's holder. */
  function ReleaseEffect(m: Machine, t: Tid): Machine {
    match StageOf(m, t)
    case Running(h, n) => m.(slots := Store(m.slots, h, Null), held := m.held[t := HeadCleared(h, n)])
    case HeadCleared(h, n) => m.(slots := SetOwner(m.slots, h, Free), held := m.held[t := HeadReleased(n)])
    case HeadReleased(n) => m.(slots := Store(m.slots, n, Null), held := m.held[t := NextCleared(n)])
    case NextCleared(n) => m.(slots := SetOwner(m.slots, n, Free), held := m.held[t := Released])
    case _ => m
  }

  function WalkEffect(m: Machine): Machine {
    match m.walk
    case NoWalk => m
    case Checking(p, k) =>
      if k == 0 then m.(walk := NoWalk, retired := m.retired - {p}, condemned := m.condemned + {p})
      else if k <= |m.slots| && m.slots[k - 1].value == To(p) then m.(walk := NoWalk)
      else m.(walk := Following(p, k - 1))
    case Following(p, i) =>
      m.(walk := Checking(p, if i < |m.slots| && m.slots[i].linked then i else 0))
  }

  /** TakeSlot may take any slot that is free at the moment, and PublishSlot is always possible: releases do
      not take the mutex, so the loop of acquire may or may not see them. */
  predicate Possible(m: Machine, e: Event) {
    match e
    case QueueStep(a) =>
      && Enabled(m.q, a)
      && (a.StartEnqueue? ==> a.tid !in m.held)
      && (a.StartDequeue? ==> StageOf(m, a.tid).Ready?)
      && (a.Advance? && Leaving(At(m.q, a.tid)) ==> a.tid in m.held && m.held[a.tid].Released?)
    case BeginDequeue(t) => t !in m.held && At(m.q, t).Idle?
    case TakeSlot(t, i) => t in m.held && Acquiring(m.held[t]) && m.mutex.Free? && i < |m.slots|
      && m.slots[i].owner.Free?
    case PublishSlot(t) => t in m.held && Acquiring(m.held[t]) && m.mutex.Free?
    case LinkSlot(t) => t in m.held && Linking(m.held[t])
    case ReleaseStep(t) => t in m.held && Releasing(m.held[t]) && Leaving(At(m.q, t))
    case BeginWalk(p) => m.walk.NoWalk? && p in m.retired
    case WalkStep => !m.walk.NoWalk?
    case FreeNode(p) => p in m.condemned
  }

  function After(m: Machine, e: Event): Machine {
    match e
    case QueueStep(a) => HazardEffect(m, a).(q := Next(m.q, a))
    case BeginDequeue(t) => m.(held := m.held[t := First])
    case TakeSlot(t, i) =>
      m.(slots := SetOwner(m.slots, i, OwnedBy(t)), held := m.held[t := WithSlot(StageOf(m, t), i)])
    case PublishSlot(t) =>
      m.(slots := m.slots + [Slot(Null, OwnedBy(t), false)], mutex := OwnedBy(t),
         held := m.held[t := WithNewSlot(StageOf(m, t), |m.slots|)])
    case LinkSlot(t) =>
      m.(slots := SetLinked(m.slots, NewSlot(StageOf(m, t))), mutex := Free,
         held := m.held[t := AfterLink(StageOf(m, t))])
    case ReleaseStep(t) => ReleaseEffect(m, t)
    case BeginWalk(p) => m.(walk := Checking(p, |m.slots|))
    case WalkStep => WalkEffect(m)
    case FreeNode(p) => m.(condemned := m.condemned - {p}, freed := m.freed + {p})
  }

  // ---------------------------------------------------------------- the invariant

  predicate InDequeue(l: Local) {
    l.DeqReadHead? || l.DeqProtectHead? || l.DeqCheckHead? || l.DeqReadTail? || l.DeqReadNext? || l.DeqProtectNext?
    || l.DeqRecheck? || l.DeqEmpty? || l.DeqHelp? || l.DeqPop? || l.DeqReadData? || l.DeqRetire?
  }

  predicate Fits(s: Stage, l: Local) {
    match s
    case Running(_, _) => InDequeue(l)
    case HeadCleared(_, _) => Leaving(l)
    case HeadReleased(_) => Leaving(l)
    case NextCleared(_) => Leaving(l)
    case Released => Leaving(l)
    case _ => l.Idle?
  }

  function Owns(s: Stage): set<nat> {
    match s
    case First => {}
    case LinkingFirst(h) => {h}
    case Second(h) => {h}
    case HeadReleased(n) => {n}
    case NextCleared(n) => {n}
    case Released => {}
    case _ => {s.head, s.next}
  }

  /** The thread owns the slots of its stage, two different ones when there are two. */
  ghost predicate OwnsItsSlots(slots: seq<Slot>, t: Tid, s: Stage) {
    && (forall i | i in Owns(s) :: i < |slots| && slots[i].owner == OwnedBy(t))
    && (s.LinkingSecond? || s.Ready? || s.Running? || s.HeadCleared? ==> s.head != s.next)
  }

  ghost predicate HoldersInv(m: Machine) {
    && (forall t | t in m.held :: Fits(m.held[t], At(m.q, t)))
    && (forall t | InDequeue(At(m.q, t)) :: t in m.held)
    && (forall t | t in m.held :: OwnsItsSlots(m.slots, t, m.held[t]))
  }

  /** Only the newest slot can still miss its next_, and only while its publisher holds the mutex. */
  ghost predicate ListInv(m: Machine) {
    && (forall i | 0 <= i < |m.slots| && !m.slots[i].linked :: i == |m.slots| - 1 && m.mutex.OwnedBy?)
    && (forall t | t in m.held && Linking(m.held[t]) :: m.mutex == OwnedBy(t) && NewSlot(m.held[t]) == |m.slots| - 1)
    && (m.mutex.OwnedBy? ==> m.mutex.tid in m.held && Linking(m.held[m.mutex.tid]))
  }

  /** Only nodes the head has passed are ever handed to the reclaimer. */
  ghost predicate Passed(m: Machine, n: Node) {
    n in m.q.mem.pos && m.q.mem.pos[n] < m.q.mem.H()
  }

  ghost predicate ReclaimInv(m: Machine) {
    && (forall n | n in m.retired || n in m.condemned || n in m.freed :: Passed(m, n))
    && m.retired !! m.condemned !! m.freed
    && (!m.walk.NoWalk? ==> m.walk.ptr in m.retired)
    && (m.walk.Checking? ==> m.walk.unchecked <= |m.slots|)
    && (m.walk.Following? ==> m.walk.at < |m.slots|)
  }

  /** A node in a slot that the reclaimer can no longer miss, as long as it reaches that slot. */
  ghost predicate Guarded(m: Machine, n: Node, slot: nat) {
    && slot < |m.slots| && m.slots[slot].value == To(n)
    && n !in m.condemned && n !in m.freed
    && (m.walk.Checking? && m.walk.ptr == n ==> m.walk.unchecked > slot)
    && (m.walk.Following? && m.walk.ptr == n ==> m.walk.at > slot)
  }

  ghost predicate Stored(m: Machine, v: Link, slot: nat) {
    slot < |m.slots| && m.slots[slot].value == v
  }

  /** What a dequeue relies on. */
  ghost predicate GuardInv(m: Machine, l: Local, s: Stage) {
    s.Running? ==>
      match l
      case DeqCheckHead(ch) => Stored(m, To(ch), s.head)
      case DeqReadTail(ch) => Guarded(m, ch, s.head)
      case DeqReadNext(ch, _) => Guarded(m, ch, s.head)
      case DeqRecheck(_, _, nx) => Stored(m, nx, s.next)
      case DeqPop(_, nx) => Stored(m, To(nx), s.next)
      case DeqReadData(_, nx, _) => Guarded(m, nx, s.next)
      case _ => true
  }

  /** The node a dequeue is going to read from. */
  function Relied(l: Local): Link {
    match l
    case DeqReadTail(ch) => To(ch)
    case DeqReadNext(ch, _) => To(ch)
    case DeqReadData(_, nx, _) => To(nx)
    case _ => Null
  }

  /** The walk is about to read a next_ that has not been stored: it will miss all older slots. */
  predicate CutsWalk(m: Machine, e: Event) {
    e.WalkStep? && m.walk.Following? && 0 < m.walk.at && !(m.walk.at < |m.slots| && m.slots[m.walk.at].linked)
  }

  /** The event does not cut a walk short that is looking for a node some dequeue relies on. */
  ghost predicate Harmless(m: Machine, e: Event) {
    CutsWalk(m, e) ==> forall t | t in m.q.threads :: Relied(m.q.threads[t]) != To(m.walk.ptr)
  }

  /** The node a dequeue has unlinked and not retired yet. */
  function Unlinked(l: Local): Link {
    if l.DeqReadData? || l.DeqRetire? then To(l.currHead) else Null
  }

  ghost predicate UnlinkedInv(m: Machine, l: Local) {
    Unlinked(l).To? ==> var n := Unlinked(l).node; Passed(m, n) && n !in m.retired && n !in m.condemned && n !in m.freed
  }

  ghost predicate SoleUnlinkers(q: Queue) {
    forall t, u | t in q.threads && u in q.threads && t != u && Unlinked(q.threads[t]).To? ::
      Unlinked(q.threads[t]) != Unlinked(q.threads[u])
  }

  ghost predicate HazardInv(m: Machine) {
    && Inv(m.q) && HoldersInv(m) && ListInv(m) && ReclaimInv(m) && SoleUnlinkers(m.q)
    && (forall t | t in m.held :: GuardInv(m, At(m.q, t), m.held[t]))
    && (forall t | t in m.q.threads :: UnlinkedInv(m, m.q.threads[t]))
  }

  // ---------------------------------------------------------------- the reclaimer's steps

  predicate OfReclaimer(e: Event) {
    e.BeginWalk? || e.WalkStep? || e.FreeNode?
  }

  lemma WalkKeepsGuard(m: Machine, l: Local, s: Stage)
    requires GuardInv(m, l, s) && ReclaimInv(m) && !m.walk.NoWalk?
    requires CutsWalk(m, WalkStep) ==> Relied(l) != To(m.walk.ptr)
    ensures GuardInv(After(m, WalkStep), l, s)
  {
  }

  lemma OtherReclaimKeepsGuard(m: Machine, e: Event, l: Local, s: Stage)
    requires GuardInv(m, l, s) && ReclaimInv(m) && Possible(m, e) && (e.BeginWalk? || e.FreeNode?)
    ensures GuardInv(After(m, e), l, s)
  {
  }

  lemma ReclaimerKeepsReclaim(m: Machine, e: Event)
    requires ReclaimInv(m) && Possible(m, e) && OfReclaimer(e)
    ensures ReclaimInv(After(m, e))
    ensures forall n | n !in m.retired ::
              n in After(m, e).condemned || n in After(m, e).freed ==> n in m.condemned || n in m.freed
    ensures After(m, e).retired <= m.retired
  {
    var m' := After(m, e);
    assert m'.q == m.q;
    assert forall n | Passed(m, n) :: Passed(m', n);
    hide Passed;
  }

  lemma ReclaimerKeepsUnlinked(m: Machine, e: Event, l: Local)
    requires ReclaimInv(m) && Possible(m, e) && OfReclaimer(e) && UnlinkedInv(m, l)
    ensures UnlinkedInv(After(m, e), l)
  {
    assert After(m, e).q == m.q;
    ReclaimerKeepsReclaim(m, e);
    hide ReclaimInv, After, Possible;
  }

  lemma ReclaimerFrame(m: Machine, e: Event)
    requires OfReclaimer(e)
    ensures var m' := After(m, e); m'.q == m.q && m'.slots == m.slots && m'.held == m.held && m'.mutex == m.mutex
  {
  }

  lemma SameHolders(m: Machine, m': Machine)
    requires m'.q == m.q && m'.slots == m.slots && m'.held == m.held && m'.mutex == m.mutex
    requires HoldersInv(m) && ListInv(m)
    ensures HoldersInv(m') && ListInv(m')
  {
    hide At, Fits, InDequeue, Owns, Linking, NewSlot;
  }

  lemma HazardParts(m: Machine)
    requires HazardInv(m)
    ensures Inv(m.q) && HoldersInv(m) && ListInv(m) && ReclaimInv(m) && SoleUnlinkers(m.q)
    ensures forall t | t in m.held :: GuardInv(m, At(m.q, t), m.held[t])
    ensures forall t | t in m.q.threads :: UnlinkedInv(m, m.q.threads[t])
  {
    hide Inv, HoldersInv, ListInv, ReclaimInv, SoleUnlinkers, GuardInv, UnlinkedInv, At;
  }

  lemma PartsMakeHazardInv(m: Machine)
    requires Inv(m.q) && HoldersInv(m) && ListInv(m) && ReclaimInv(m) && SoleUnlinkers(m.q)
    requires forall t | t in m.held :: GuardInv(m, At(m.q, t), m.held[t])
    requires forall t | t in m.q.threads :: UnlinkedInv(m, m.q.threads[t])
    ensures HazardInv(m)
  {
    hide Inv, HoldersInv, ListInv, ReclaimInv, SoleUnlinkers, GuardInv, UnlinkedInv, At;
  }

  lemma ReliedByHolder(m: Machine, t: Tid)
    requires HoldersInv(m) && t in m.held
    ensures t in m.q.threads || Relied(At(m.q, t)).Null?
    ensures t in m.q.threads ==> m.q.threads[t] == At(m.q, t)
  {
    hide HoldersInv;
  }

  lemma ReclaimerKeepsInv(m: Machine, e: Event)
    requires HazardInv(m) && Possible(m, e) && OfReclaimer(e) && Harmless(m, e)
    ensures HazardInv(After(m, e))
  {
    HazardParts(m);
    hide Inv, HazardInv, HoldersInv, ListInv, ReclaimInv, SoleUnlinkers, GuardInv, UnlinkedInv, Relied, CutsWalk, At;
    var m' := After(m, e);
    ReclaimerFrame(m, e);
    hide After;
    SameHolders(m, m');
    ReclaimerKeepsReclaim(m, e);
    forall t | t in m'.held ensures GuardInv(m', At(m'.q, t), m'.held[t]) {
      if e.WalkStep? {
        ReliedByHolder(m, t);
        WalkKeepsGuard(m, At(m.q, t), m.held[t]);
      } else {
        OtherReclaimKeepsGuard(m, e, At(m.q, t), m.held[t]);
      }
    }
    forall t | t in m'.q.threads ensures UnlinkedInv(m', m'.q.threads[t]) {
      ReclaimerKeepsUnlinked(m, e, m.q.threads[t]);
    }
    PartsMakeHazardInv(m');
  }

  // ---------------------------------------------------------------- one acting thread

  /** The thread whose step it is. */
  function Actor(e: Event): Tid {
    match e
    case QueueStep(a) => a.tid
    case BeginDequeue(t) => t
    case TakeSlot(t, _) => t
    case PublishSlot(t) => t
    case LinkSlot(t) => t
    case ReleaseStep(t) => t
    case _ => 0
  }

  /** What an event of thread t leaves alone: the slots of the other threads, their stages, and the
      reclaimer. */
  ghost predicate OnlyOwn(m: Machine, m': Machine, t: Tid) {
    && |m.slots| <= |m'.slots|
    && (forall i | 0 <= i < |m.slots| && m.slots[i].owner.OwnedBy? && m.slots[i].owner != OwnedBy(t) ::
          m'.slots[i] == m.slots[i])
    && m'.held - {t} == m.held - {t}
    && m'.walk == m.walk && m'.condemned == m.condemned && m'.freed == m.freed
  }

  lemma SlotEventFrame(m: Machine, e: Event)
    requires HoldersInv(m) && ListInv(m) && Possible(m, e) && !OfReclaimer(e) && !e.QueueStep?
    ensures var m' := After(m, e);
            OnlyOwn(m, m', Actor(e)) && m'.q == m.q && m'.retired == m.retired && Actor(e) in m'.held
            && !m'.held[Actor(e)].Running?
  {
    var t, m' := Actor(e), After(m, e);
    assert t in m.held ==> OwnsItsSlots(m.slots, t, m.held[t]);
    hide HoldersInv, ListInv, At, Fits, InDequeue, Leaving;
    SlotEventHeld(m, e);
    SlotEventSlots(m, e);
    assert m'.q == m.q && m'.retired == m.retired && m'.walk == m.walk && m'.condemned == m.condemned
           && m'.freed == m.freed;
    hide After, Possible;
  }

  lemma SlotEventHeld(m: Machine, e: Event)
    requires Possible(m, e) && !OfReclaimer(e) && !e.QueueStep?
    ensures var m', t := After(m, e), Actor(e); m'.held - {t} == m.held - {t} && t in m'.held && !m'.held[t].Running?
  {
    hide At, Leaving, Store, SetOwner, SetLinked;
  }

  lemma SlotEventSlots(m: Machine, e: Event)
    requires Possible(m, e) && !OfReclaimer(e) && !e.QueueStep?
    requires Actor(e) in m.held ==> OwnsItsSlots(m.slots, Actor(e), m.held[Actor(e)])
    ensures var m', t := After(m, e), Actor(e);
            && |m.slots| <= |m'.slots|
            && forall i | 0 <= i < |m.slots| && m.slots[i].owner.OwnedBy? && m.slots[i].owner != OwnedBy(t) ::
                 m'.slots[i] == m.slots[i]
  {
    hide At, Leaving;
    var t := Actor(e);
    if t in m.held {
      var s := m.held[t];
      assert forall i | i in Owns(s) :: i < |m.slots| && m.slots[i].owner == OwnedBy(t);
      assert Linking(s) ==> NewSlot(s) in Owns(s);
    }
  }

  lemma QueueStepFrame(m: Machine, a: Action)
    requires HoldersInv(m) && Possible(m, QueueStep(a))
    ensures OnlyOwn(m, After(m, QueueStep(a)), a.tid)
    ensures var m' := After(m, QueueStep(a));
            && m'.q == Next(m.q, a) && |m'.slots| == |m.slots| && m'.mutex == m.mutex
            && (forall i | 0 <= i < |m.slots| ::
                  m'.slots[i].owner == m.slots[i].owner && m'.slots[i].linked == m.slots[i].linked)
            && m'.retired ==
                 if a.Advance? && At(m.q, a.tid).DeqRetire? then m.retired + {At(m.q, a.tid).currHead} else m.retired
  {
    var t := a.tid;
    assert t in m.held ==> OwnsItsSlots(m.slots, t, m.held[t]);
    hide HoldersInv, Next, Fits, InDequeue, Enabled;
  }

  lemma AtAfter(q: Queue, a: Action)
    requires Enabled(q, a)
    ensures forall u | u != a.tid :: At(Next(q, a), u) == At(q, u)
    ensures a.Advance? ==> At(Next(q, a), a.tid) == StepLocal(q.mem, At(q, a.tid), a.casSucceeds).1
    ensures !a.Advance? ==> At(Next(q, a), a.tid) == if a.StartEnqueue? then EnqReadTail(a.node) else DeqReadHead
    ensures Next(q, a).threads.Keys == q.threads.Keys + {a.tid}
  {
    hide StepLocal;
  }

  lemma DequeueStays(mem: Memory, l: Local, cas: bool)
    ensures InDequeue(StepLocal(mem, l, cas).1) <==> InDequeue(l) && !Leaving(l)
  {
  }

  /** The actor's own stage after its event. */
  ghost predicate ActorFits(m: Machine, t: Tid) {
    && (t in m.held ==> Fits(m.held[t], At(m.q, t)) && OwnsItsSlots(m.slots, t, m.held[t]))
    && (InDequeue(At(m.q, t)) ==> t in m.held)
  }

  lemma OthersKeepHolders(m: Machine, m': Machine, t: Tid)
    requires HoldersInv(m) && OnlyOwn(m, m', t) && ActorFits(m', t)
    requires forall u | u != t :: At(m'.q, u) == At(m.q, u)
    ensures HoldersInv(m')
  {
    forall u | u in m'.held && u != t ensures u in m.held && m'.held[u] == m.held[u]
      && OwnsItsSlots(m'.slots, u, m'.held[u]) {
      assert u in m'.held - {t} && (m'.held - {t})[u] == m'.held[u];
      assert u in m.held - {t} && (m.held - {t})[u] == m.held[u];
      assert OwnsItsSlots(m.slots, u, m.held[u]);
      hide HoldersInv, At, Fits, InDequeue, Owns;
    }
    forall u | u in m.held && u != t ensures u in m'.held {
      assert u in m.held - {t};
    }
    hide At, Fits, InDequeue, OwnsItsSlots, OnlyOwn;
  }

  lemma SlotEventActorFits(m: Machine, e: Event)
    requires HoldersInv(m) && ListInv(m) && Possible(m, e) && !OfReclaimer(e) && !e.QueueStep?
    ensures ActorFits(After(m, e), Actor(e))
  {
    var t := Actor(e);
    assert t in m.held ==> OwnsItsSlots(m.slots, t, m.held[t]) && Fits(m.held[t], At(m.q, t));
    assert After(m, e).q == m.q;
    hide HoldersInv, ListInv, At, InDequeue;
    if t in m.held {
      StageMoves(m, e, m.held[t], At(m.q, t));
    } else {
      IdleIsNoDequeue(At(m.q, t));
    }
  }

  lemma IdleIsNoDequeue(l: Local)
    ensures l.Idle? ==> !InDequeue(l) && !Leaving(l)
    ensures Leaving(l) ==> InDequeue(l)
  {
  }

  lemma StageMoves(m: Machine, e: Event, s: Stage, l: Local)
    requires Possible(m, e) && !OfReclaimer(e) && !e.QueueStep? && Actor(e) in m.held
    requires s == m.held[Actor(e)] && l == At(m.q, Actor(e)) && Fits(s, l) && OwnsItsSlots(m.slots, Actor(e), s)
    ensures var m', t := After(m, e), Actor(e);
            t in m'.held && Fits(m'.held[t], l) && OwnsItsSlots(m'.slots, t, m'.held[t])
  {
    hide At, InDequeue, Leaving;
    var t := Actor(e);
    assert forall i | i in Owns(s) :: i < |m.slots| && m.slots[i].owner == OwnedBy(t);
    match e {
      case TakeSlot(_, i) =>
        assert i !in Owns(s);
        assert Owns(WithSlot(s, i)) == Owns(s) + {i};
      case PublishSlot(_) =>
        assert Owns(WithNewSlot(s, |m.slots|)) == Owns(s) + {|m.slots|};
      case LinkSlot(_) => assert Owns(AfterLink(s)) == Owns(s);
      case _ =>
    }
  }

  lemma AdvanceKeepsFit(s: Stage, l: Local, mem: Memory, cas: bool)
    requires Fits(s, l) && !l.Idle? && !Leaving(l)
    ensures s.Running? && Fits(s, StepLocal(mem, l, cas).1)
  {
  }

  lemma SameOwners(slots: seq<Slot>, slots': seq<Slot>, t: Tid, s: Stage)
    requires OwnsItsSlots(slots, t, s) && |slots'| == |slots|
    requires forall i | 0 <= i < |slots| :: slots'[i].owner == slots[i].owner
    ensures OwnsItsSlots(slots', t, s)
  {
    hide Owns;
  }

  lemma AdvancingActorFits(m: Machine, a: Action)
    requires HoldersInv(m) && Possible(m, QueueStep(a)) && a.Advance? && a.tid in m.held && !Leaving(At(m.q, a.tid))
    ensures ActorFits(After(m, QueueStep(a)), a.tid)
  {
    var t, m' := a.tid, After(m, QueueStep(a));
    assert OwnsItsSlots(m.slots, t, m.held[t]) && Fits(m.held[t], At(m.q, t)) && Enabled(m.q, a) && !At(m.q, t).Idle?;
    QueueStepFrame(m, a);
    AtAfter(m.q, a);
    AdvanceKeepsStage(m, a);
    hide HoldersInv, At, InDequeue, StepLocal, Next, After, Fits, Enabled, Possible, Leaving, OwnsItsSlots;
    AdvanceKeepsFit(m.held[t], At(m.q, t), m.q.mem, a.casSucceeds);
    SameOwners(m.slots, m'.slots, t, m.held[t]);
  }

  lemma LeavingActorFits(m: Machine, a: Action)
    requires HoldersInv(m) && Possible(m, QueueStep(a)) && a.Advance? && (a.tid !in m.held || Leaving(At(m.q, a.tid)))
    ensures ActorFits(After(m, QueueStep(a)), a.tid)
  {
    assert InDequeue(At(m.q, a.tid)) ==> a.tid in m.held;
    assert Enabled(m.q, a) && After(m, QueueStep(a)).q == Next(m.q, a);
    AtAfter(m.q, a);
    AdvanceEndsStage(m, a);
    IdleIsNoDequeue(At(m.q, a.tid));
    assert Leaving(At(m.q, a.tid)) || !InDequeue(At(m.q, a.tid));
    hide HoldersInv, At, InDequeue, StepLocal, Next, After, Fits, Enabled, Possible, Leaving, OwnsItsSlots;
    DequeueStays(m.q.mem, At(m.q, a.tid), a.casSucceeds);
  }

  lemma StartingActorFits(m: Machine, a: Action)
    requires HoldersInv(m) && Possible(m, QueueStep(a)) && !a.Advance?
    ensures ActorFits(After(m, QueueStep(a)), a.tid)
  {
    var t, m' := a.tid, After(m, QueueStep(a));
    assert t in m.held ==> OwnsItsSlots(m.slots, t, m.held[t]);
    assert Enabled(m.q, a);
    hide HoldersInv, At, Next, Enabled;
    AtAfter(m.q, a);
    assert m'.q == Next(m.q, a) && m'.slots == m.slots;
    if a.StartEnqueue? {
      EnqueuerIsOutside(a.node);
      assert t !in m'.held;
      hide After, InDequeue, Fits;
    } else {
      var h, n := m.held[t].head, m.held[t].next;
      assert m'.held[t] == Running(h, n) && m.held[t] == Ready(h, n);
      assert At(m'.q, t) == DeqReadHead;
      hide After, Possible, InDequeue, Fits, OwnsItsSlots;
      ReadyToRun(m.slots, t, h, n);
    }
  }

  lemma ReadyToRun(slots: seq<Slot>, t: Tid, h: nat, n: nat)
    requires OwnsItsSlots(slots, t, Ready(h, n))
    ensures OwnsItsSlots(slots, t, Running(h, n)) && Fits(Running(h, n), DeqReadHead)
  {
    assert Owns(Ready(h, n)) == Owns(Running(h, n));
    hide Owns;
  }

  lemma EnqueuerIsOutside(n: Node)
    ensures !InDequeue(EnqReadTail(n))
  {
  }

  lemma QueueStepActorFits(m: Machine, a: Action)
    requires HoldersInv(m) && Possible(m, QueueStep(a))
    ensures ActorFits(After(m, QueueStep(a)), a.tid)
  {
    hide HoldersInv, Possible, ActorFits, After, At, Leaving;
    if !a.Advance? {
      StartingActorFits(m, a);
    } else if a.tid in m.held && !Leaving(At(m.q, a.tid)) {
      AdvancingActorFits(m, a);
    } else {
      LeavingActorFits(m, a);
    }
  }

  lemma AdvanceKeepsStage(m: Machine, a: Action)
    requires a.Advance? && a.tid in m.held && !Leaving(At(m.q, a.tid))
    ensures After(m, QueueStep(a)).held == m.held
  {
    hide At, Next;
  }

  lemma AdvanceEndsStage(m: Machine, a: Action)
    requires a.Advance? && (a.tid !in m.held || Leaving(At(m.q, a.tid)))
    requires InDequeue(At(m.q, a.tid)) ==> a.tid in m.held
    ensures a.tid !in After(m, QueueStep(a)).held
  {
    hide At, Next;
  }

  // ---------------------------------------------------------------- the slot list

  lemma SlotEventKeepsList(m: Machine, e: Event)
    requires HoldersInv(m) && ListInv(m) && Possible(m, e) && !OfReclaimer(e) && !e.QueueStep?
    ensures ListInv(After(m, e))
  {
    var t := Actor(e);
    assert t in m.held ==> OwnsItsSlots(m.slots, t, m.held[t]);
    hide HoldersInv, At, Fits, InDequeue, Leaving;
    match e {
      case LinkSlot(_) => LinkKeepsList(m, t);
      case PublishSlot(_) => PublishKeepsList(m, t);
      case _ => MarkingKeepsList(m, e);
    }
  }

  lemma LinkKeepsList(m: Machine, t: Tid)
    requires ListInv(m) && t in m.held && Linking(m.held[t])
    ensures ListInv(After(m, LinkSlot(t)))
  {
  }

  lemma PublishKeepsList(m: Machine, t: Tid)
    requires ListInv(m) && t in m.held && Acquiring(m.held[t]) && m.mutex.Free?
    ensures ListInv(After(m, PublishSlot(t)))
  {
  }

  lemma MarkingKeepsList(m: Machine, e: Event)
    requires ListInv(m) && Possible(m, e) && (e.BeginDequeue? || e.TakeSlot? || e.ReleaseStep?)
    ensures ListInv(After(m, e))
  {
    hide At, Leaving;
  }

  lemma QueueStepKeepsList(m: Machine, a: Action)
    requires HoldersInv(m) && ListInv(m) && Possible(m, QueueStep(a))
    ensures ListInv(After(m, QueueStep(a)))
  {
    var m' := After(m, QueueStep(a));
    QueueStepFrame(m, a);
    QueueStepLeavesLinking(m, a);
    hide HoldersInv, After, Possible, NewSlot, OwnsItsSlots;
    forall u | u in m'.held && Linking(m'.held[u]) ensures u in m.held && m'.held[u] == m.held[u] {
      if u != a.tid {
        assert u in m'.held - {a.tid} && (m'.held - {a.tid})[u] == m'.held[u];
        assert u in m.held - {a.tid} && (m.held - {a.tid})[u] == m.held[u];
      }
    }
    if m.mutex.OwnedBy? {
      assert m.mutex.tid in m.held - {a.tid} && (m.held - {a.tid})[m.mutex.tid] == m.held[m.mutex.tid];
      assert m.mutex.tid in m'.held - {a.tid} && (m'.held - {a.tid})[m.mutex.tid] == m'.held[m.mutex.tid];
    }
  }

  lemma QueueStepLeavesLinking(m: Machine, a: Action)
    requires HoldersInv(m) && Possible(m, QueueStep(a))
    ensures a.tid in m.held ==> !Linking(m.held[a.tid])
    ensures a.tid in After(m, QueueStep(a)).held ==> !Linking(After(m, QueueStep(a)).held[a.tid])
  {
    if a.Advance? {
      assert a.tid in m.held ==> Fits(m.held[a.tid], At(m.q, a.tid));
      assert !At(m.q, a.tid).Idle?;
      hide HoldersInv, InDequeue, Leaving;
      StepOfAdvance(m, a);
    } else {
      hide HoldersInv;
      StepOfStart(m, a);
    }
  }

  lemma StepOfStart(m: Machine, a: Action)
    requires Possible(m, QueueStep(a)) && !a.Advance?
    ensures a.tid in m.held ==> !Linking(m.held[a.tid])
    ensures a.tid in After(m, QueueStep(a)).held ==> !Linking(After(m, QueueStep(a)).held[a.tid])
  {
    hide At, Next;
  }

  lemma StepOfAdvance(m: Machine, a: Action)
    requires a.Advance? && (a.tid in m.held ==> !Linking(m.held[a.tid]))
    ensures a.tid in After(m, QueueStep(a)).held ==> !Linking(After(m, QueueStep(a)).held[a.tid])
  {
    hide At, Next;
  }

  // ---------------------------------------------------------------- the guards

  lemma GuardFrame(m: Machine, m': Machine, l: Local, s: Stage)
    requires GuardInv(m, l, s) && |m.slots| <= |m'.slots|
    requires m'.condemned == m.condemned && m'.freed == m.freed && m'.walk == m.walk
    requires s.Running? ==> forall i | i in Owns(s) :: i < |m.slots| && m'.slots[i] == m.slots[i]
    ensures GuardInv(m', l, s)
  {
  }

  lemma OthersKeepGuards(m: Machine, m': Machine, t: Tid, u: Tid)
    requires HoldersInv(m) && OnlyOwn(m, m', t) && u != t && u in m'.held && At(m'.q, u) == At(m.q, u)
    requires forall v | v in m.held :: GuardInv(m, At(m.q, v), m.held[v])
    ensures GuardInv(m', At(m'.q, u), m'.held[u])
  {
    assert u in m'.held - {t} && (m'.held - {t})[u] == m'.held[u];
    assert u in m.held - {t} && (m.held - {t})[u] == m.held[u];
    assert OwnsItsSlots(m.slots, u, m.held[u]);
    hide HoldersInv, GuardInv, At, Owns, OnlyOwn;
    assert forall i | i in Owns(m.held[u]) :: i < |m.slots| && m'.slots[i] == m.slots[i]
           by { OthersSlots(m, m', t, u, m.held[u]); }
    assert |m.slots| <= |m'.slots| && m'.condemned == m.condemned && m'.freed == m.freed && m'.walk == m.walk
      by { OthersSlots(m, m', t, u, m.held[u]); }
    GuardFrame(m, m', At(m.q, u), m.held[u]);
  }

  lemma OthersSlots(m: Machine, m': Machine, t: Tid, u: Tid, s: Stage)
    requires OnlyOwn(m, m', t) && OwnsItsSlots(m.slots, u, s) && u != t
    ensures |m.slots| <= |m'.slots| && m'.condemned == m.condemned && m'.freed == m.freed && m'.walk == m.walk
    ensures forall i | i in Owns(s) :: i < |m.slots| && m'.slots[i] == m.slots[i]
  {
    hide Owns;
  }

  /** A node at or beyond the head is out of the reclaimer's reach. */
  lemma NotPassedIsSafe(m: Machine, n: Node)
    requires ReclaimInv(m) && !Passed(m, n)
    ensures n !in m.retired && n !in m.condemned && n !in m.freed && (!m.walk.NoWalk? ==> m.walk.ptr != n)
  {
  }

  lemma NextOfHeadNotPassed(mem: Memory, l: Local)
    requires LocalInv(mem, l) && l.DeqPop? && l.currHead == mem.head
    ensures l.first in mem.pos && mem.pos[l.first] > mem.H()
  {
  }

  /** Checking the head again turns a stored hazard into a guard: the current head, and the node behind it,
      have not been passed, so no walk is looking for them yet. */
  lemma MoverKeepsGuard(m: Machine, a: Action)
    requires HoldersInv(m) && Possible(m, QueueStep(a)) && a.Advance? && a.tid in m.held && !Leaving(At(m.q, a.tid))
    requires GuardInv(m, At(m.q, a.tid), m.held[a.tid]) && ReclaimInv(m) && LocalInv(m.q.mem, At(m.q, a.tid))
    requires m.q.mem.head in m.q.mem.pos
    ensures GuardInv(After(m, QueueStep(a)), StepLocal(m.q.mem, At(m.q, a.tid), a.casSucceeds).1, m.held[a.tid])
  {
    var l, s := At(m.q, a.tid), m.held[a.tid];
    MoverSlots(m, a);
    assert Fits(s, l) && !l.Idle?;
    IdleIsNoDequeue(l);
    AdvanceKeepsFit(s, l, m.q.mem, a.casSucceeds);
    hide HoldersInv, At, LocalInv, ReclaimInv, InDequeue, After, Possible;
    if l.DeqCheckHead? && l.currHead == m.q.mem.head {
      NotPassedIsSafe(m, l.currHead) by { hide Fits; }
      hide Passed;
    } else if l.DeqPop? && l.currHead == m.q.mem.head {
      NextOfHeadNotPassed(m.q.mem, l);
      NotPassedIsSafe(m, l.first);
      hide Passed;
    }
  }

  /** What an advancing dequeue stores into its own slots. */
  lemma MoverSlots(m: Machine, a: Action)
    requires HoldersInv(m) && Possible(m, QueueStep(a)) && a.Advance? && a.tid in m.held && m.held[a.tid].Running?
    ensures var m', l, s := After(m, QueueStep(a)), At(m.q, a.tid), m.held[a.tid];
            && s.head < |m.slots| && s.next < |m.slots| && |m'.slots| == |m.slots|
            && m'.walk == m.walk && m'.condemned == m.condemned && m'.freed == m.freed
            && m'.slots[s.head].value == (if l.DeqProtectHead? then To(l.currHead) else m.slots[s.head].value)
            && m'.slots[s.next].value == (if l.DeqProtectNext? then l.next else m.slots[s.next].value)
  {
    assert OwnsItsSlots(m.slots, a.tid, m.held[a.tid]);
    assert m.held[a.tid].head in Owns(m.held[a.tid]) && m.held[a.tid].next in Owns(m.held[a.tid]);
    hide HoldersInv, At, Next, Possible;
  }

  lemma FreshGuard(m: Machine, s: Stage)
    ensures GuardInv(m, DeqReadHead, s)
    ensures !s.Running? ==> forall l :: GuardInv(m, l, s)
  {
  }

  lemma HeadHasPosition(mem: Memory)
    requires MemInv(mem)
    ensures mem.head in mem.pos && mem.pos[mem.head] == mem.H()
  {
  }

  lemma QueueStepKeepsGuards(m: Machine, a: Action)
    requires HazardInv(m) && Possible(m, QueueStep(a))
    ensures var m' := After(m, QueueStep(a)); forall u | u in m'.held :: GuardInv(m', At(m'.q, u), m'.held[u])
  {
    HazardParts(m);
    hide HazardInv, Inv, HoldersInv, ListInv, ReclaimInv, SoleUnlinkers, UnlinkedInv, GuardInv, Next, At, StepLocal;
    var t, m' := a.tid, After(m, QueueStep(a));
    assert Enabled(m.q, a);
    AtAfter(m.q, a);
    QueueStepFrame(m, a);
    QueueStepActorFits(m, a);
    hide After, OnlyOwn, Enabled;
    forall u | u in m'.held ensures GuardInv(m', At(m'.q, u), m'.held[u]) {
      if u != t {
        OthersKeepGuards(m, m', t, u);
      } else if a.Advance? {
        MoverHolds(m, a);
        InvAt(m.q, t);
        HeadHasPosition(m.q.mem);
        hide MemInv, LocalInv;
        MoverKeepsGuard(m, a);
      } else {
        StarterIsRunning(m, a);
        FreshGuard(m', m'.held[u]);
      }
    }
  }

  lemma MoverHolds(m: Machine, a: Action)
    requires Possible(m, QueueStep(a)) && a.Advance? && a.tid in After(m, QueueStep(a)).held
    ensures a.tid in m.held && !Leaving(At(m.q, a.tid)) && After(m, QueueStep(a)).held == m.held
  {
    hide At, Next;
  }

  lemma StarterIsRunning(m: Machine, a: Action)
    requires Possible(m, QueueStep(a)) && !a.Advance? && a.tid in After(m, QueueStep(a)).held
    ensures a.StartDequeue?
  {
    hide At, Next;
  }

  // ---------------------------------------------------------------- retiring

  /** Positions are permanent and the head only moves forward. */
  lemma QueueGrows(q: Queue, a: Action)
    requires Inv(q) && Enabled(q, a)
    ensures forall n | n in q.mem.pos :: n in Next(q, a).mem.pos && Next(q, a).mem.pos[n] == q.mem.pos[n]
    ensures q.mem.H() <= Next(q, a).mem.H()
  {
    InvAt(q, a.tid);
    hide Inv;
    if a.Advance? {
      hide MemInv, LocalInv, HasData, StepLocal;
      StepKeepsLocal(q.mem, At(q, a.tid), a.casSucceeds);
    } else {
      hide MemInv, LocalInv, HasData;
    }
  }

  lemma PassedStays(m: Machine, m': Machine, a: Action, n: Node)
    requires Inv(m.q) && Enabled(m.q, a) && Passed(m, n) && m'.q == Next(m.q, a)
    ensures Passed(m', n)
  {
    QueueGrows(m.q, a);
    hide Inv, Next, Enabled;
  }

  lemma QueueStepKeepsReclaim(m: Machine, a: Action)
    requires HazardInv(m) && Possible(m, QueueStep(a))
    ensures ReclaimInv(After(m, QueueStep(a)))
  {
    HazardParts(m);
    var m' := After(m, QueueStep(a));
    QueueStepFrame(m, a) by { hide HazardInv, Inv, ListInv, ReclaimInv, SoleUnlinkers, GuardInv, UnlinkedInv; }
    assert Enabled(m.q, a);
    if a.Advance? && At(m.q, a.tid).DeqRetire? {
      assert UnlinkedInv(m, At(m.q, a.tid));
    }
    hide HazardInv, Inv, HoldersInv, ListInv, GuardInv, SoleUnlinkers, After, Possible, Passed, At, Enabled;
    forall n | n in m'.retired || n in m'.condemned || n in m'.freed ensures Passed(m', n) {
      PassedStays(m, m', a, n);
    }
  }

  /** Only the successful pop unlinks a node, and it unlinks the current head. */
  lemma UnlinkedStep(mem: Memory, l: Local, cas: bool)
    ensures var l' := StepLocal(mem, l, cas).1;
            Unlinked(l') == Unlinked(l) || Unlinked(l') == Null
            || (l.DeqPop? && l'.DeqReadData? && l'.currHead == mem.head)
    ensures l.DeqRetire? ==> Unlinked(StepLocal(mem, l, cas).1) == Null
  {
  }

  lemma PopMovesToNext(mem: Memory, l: Local, cas: bool)
    requires MemInv(mem) && LocalInv(mem, l) && l.DeqPop? && StepLocal(mem, l, cas).1.DeqReadData?
    ensures StepLocal(mem, l, cas).0.H() == mem.H() + 1 && mem.head in mem.pos && mem.pos[mem.head] == mem.H()
  {
    HeadHasPosition(mem);
    hide MemInv;
  }

  lemma PopAdvancesHead(q: Queue, a: Action)
    requires Inv(q) && Enabled(q, a) && a.Advance? && At(q, a.tid).DeqPop?
    requires StepLocal(q.mem, At(q, a.tid), a.casSucceeds).1.DeqReadData?
    ensures Next(q, a).mem.H() == q.mem.H() + 1 && q.mem.head in q.mem.pos
    ensures q.mem.pos[q.mem.head] == q.mem.H()
  {
    InvAt(q, a.tid);
    hide Inv, MemInv, LocalInv, HasData;
    PopMovesToNext(q.mem, At(q, a.tid), a.casSucceeds);
    hide StepLocal, At;
  }

  /** The facts about a queue step that the unlinked nodes depend on. */
  ghost predicate Reclaims(m: Machine, m': Machine, a: Action) {
    && m'.q == Next(m.q, a) && m'.condemned == m.condemned && m'.freed == m.freed
    && m'.retired ==
                 if a.Advance? && At(m.q, a.tid).DeqRetire? then m.retired + {At(m.q, a.tid).currHead} else m.retired
  }

  lemma PopUnlinksHead(m: Machine, m': Machine, a: Action)
    requires Inv(m.q) && ReclaimInv(m) && Enabled(m.q, a) && a.Advance? && Reclaims(m, m', a)
    requires var l' := At(Next(m.q, a), a.tid); At(m.q, a.tid).DeqPop? && l'.DeqReadData? && l'.currHead == m.q.mem.head
    ensures UnlinkedInv(m', At(Next(m.q, a), a.tid)) && !Passed(m, m.q.mem.head)
  {
    AtAfter(m.q, a);
    hide Inv, ReclaimInv, StepLocal, Enabled;
    PopAdvancesHead(m.q, a);
    QueueGrows(m.q, a);
    hide At, Next;
    NotPassedIsSafe(m, m.q.mem.head);
  }

  lemma CarriedUnlinked(m: Machine, m': Machine, a: Action, l: Local, l': Local)
    requires Inv(m.q) && Enabled(m.q, a) && Reclaims(m, m', a) && a.Advance? && l == At(m.q, a.tid) && !l.DeqRetire?
    requires UnlinkedInv(m, l) && Unlinked(l').To? && Unlinked(l') == Unlinked(l)
    ensures UnlinkedInv(m', l')
  {
    hide Inv, At, Passed, Enabled, Next;
    PassedStays(m, m', a, Unlinked(l).node);
  }

  lemma NothingUnlinked(m: Machine, l: Local)
    requires Unlinked(l) == Null
    ensures UnlinkedInv(m, l)
  {
  }

  lemma MoverKeepsUnlinked(m: Machine, m': Machine, a: Action)
    requires Inv(m.q) && ReclaimInv(m) && Enabled(m.q, a) && a.Advance? && Reclaims(m, m', a)
    requires UnlinkedInv(m, At(m.q, a.tid))
    ensures UnlinkedInv(m', At(Next(m.q, a), a.tid))
    ensures var l, l' := At(m.q, a.tid), At(Next(m.q, a), a.tid);
            Unlinked(l') == Null || (Unlinked(l') == Unlinked(l) && !l.DeqRetire?)
            || (Unlinked(l') == To(m.q.mem.head) && !Passed(m, m.q.mem.head))
  {
    hide Inv, ReclaimInv, UnlinkedInv, StepLocal, At, Next, Enabled, Passed, Reclaims;
    var l, l' := At(m.q, a.tid), At(Next(m.q, a), a.tid);
    AtAfter(m.q, a);
    UnlinkedStep(m.q.mem, l, a.casSucceeds);
    if Unlinked(l') == Null {
      NothingUnlinked(m', l');
    } else if l.DeqPop? {
      PopUnlinksHead(m, m', a);
    } else {
      CarriedUnlinked(m, m', a, l, l');
    }
  }

  lemma NotRetiredByOthers(q: Queue, t: Tid, u: Tid)
    requires SoleUnlinkers(q) && t in q.threads && u in q.threads && t != u
    ensures Unlinked(At(q, u)).To? ==> Unlinked(At(q, u)) != Unlinked(At(q, t))
  {
    hide Unlinked;
  }

  lemma OthersKeepUnlinked(m: Machine, m': Machine, a: Action, u: Tid)
    requires Inv(m.q) && SoleUnlinkers(m.q) && Enabled(m.q, a) && Reclaims(m, m', a) && u in m.q.threads && u != a.tid
    requires UnlinkedInv(m, At(m.q, u))
    ensures UnlinkedInv(m', At(m.q, u))
  {
    var l := At(m.q, u);
    assert a.Advance? ==> a.tid in m.q.threads;
    hide Inv, SoleUnlinkers, Passed;
    if Unlinked(l).To? {
      if a.Advance? { NotRetiredByOthers(m.q, a.tid, u); }
      hide At, Enabled, Next;
      PassedStays(m, m', a, Unlinked(l).node);
    }
  }

  lemma StarterHasNothingUnlinked(q: Queue, a: Action)
    requires Enabled(q, a) && !a.Advance?
    ensures Unlinked(At(Next(q, a), a.tid)) == Null
  {
    AtAfter(q, a);
    hide Next;
  }

  lemma QueueStepKeepsUnlinked(m: Machine, m': Machine, a: Action, u: Tid)
    requires Inv(m.q) && ReclaimInv(m) && SoleUnlinkers(m.q) && Enabled(m.q, a) && Reclaims(m, m', a)
    requires forall v | v in m.q.threads :: UnlinkedInv(m, m.q.threads[v])
    requires u in Next(m.q, a).threads
    ensures UnlinkedInv(m', Next(m.q, a).threads[u])
  {
    assert Next(m.q, a).threads[u] == At(Next(m.q, a), u);
    AtAfter(m.q, a);
    assert u in m.q.threads ==> m.q.threads[u] == At(m.q, u);
    assert a.Advance? ==> a.tid in m.q.threads && m.q.threads[a.tid] == At(m.q, a.tid);
    hide Inv, ReclaimInv, SoleUnlinkers, Next, Unlinked, UnlinkedInv, Enabled, StepLocal, At, Reclaims;
    if u != a.tid {
      OthersKeepUnlinked(m, m', a, u);
    } else if a.Advance? {
      MoverKeepsUnlinked(m, m', a);
    } else {
      StarterHasNothingUnlinked(m.q, a);
      NothingUnlinked(m', At(Next(m.q, a), u));
    }
  }

  lemma QueueStepKeepsSole(m: Machine, m': Machine, a: Action)
    requires Inv(m.q) && ReclaimInv(m) && SoleUnlinkers(m.q) && Enabled(m.q, a) && Reclaims(m, m', a)
    requires forall v | v in m.q.threads :: UnlinkedInv(m, m.q.threads[v])
    ensures SoleUnlinkers(Next(m.q, a))
  {
    var q' := Next(m.q, a);
    AtAfter(m.q, a);
    assert forall v | v in m.q.threads :: m.q.threads[v] == At(m.q, v);
    assert a.Advance? ==> a.tid in m.q.threads;
    hide Inv, ReclaimInv, SoleUnlinkers, Next, Enabled, StepLocal, At, Reclaims, Passed;
    if a.Advance? { MoverKeepsUnlinked(m, m', a) by { hide UnlinkedInv; } } else { StarterHasNothingUnlinked(m.q, a); }
    forall u | u in q'.threads && u != a.tid && Unlinked(At(q', u)).To?
      ensures Unlinked(At(q', u)) != Unlinked(At(q', a.tid)) {
      assert u in m.q.threads && UnlinkedInv(m, At(m.q, u));
      if a.Advance? { NotRetiredByOthers(m.q, a.tid, u); }
    }
    SoleFromMover(m.q, q', a.tid);
  }

  lemma SoleFromMover(q: Queue, q': Queue, t: Tid)
    requires SoleUnlinkers(q) && q'.threads.Keys == q.threads.Keys + {t}
    requires forall u | u != t :: At(q', u) == At(q, u)
    requires forall u | u in q'.threads && u != t && Unlinked(At(q', u)).To? ::
             Unlinked(At(q', u)) != Unlinked(At(q', t))
    ensures SoleUnlinkers(q')
  {
    hide Unlinked;
    forall u, v | u in q'.threads && v in q'.threads && u != v && Unlinked(q'.threads[u]).To?
      ensures Unlinked(q'.threads[u]) != Unlinked(q'.threads[v])
    {
      assert q'.threads[u] == At(q', u) && q'.threads[v] == At(q', v);
      if u != t && v != t {
        assert q.threads[u] == At(q, u) && q.threads[v] == At(q, v);
      }
    }
  }

  // ---------------------------------------------------------------- every event

  lemma QueueStepKeepsInv(m: Machine, a: Action)
    requires HazardInv(m) && Possible(m, QueueStep(a))
    ensures HazardInv(After(m, QueueStep(a)))
  {
    HazardParts(m);
    var m' := After(m, QueueStep(a));
    assert Enabled(m.q, a);
    hide HazardInv, Inv, HoldersInv, ListInv, ReclaimInv, SoleUnlinkers, GuardInv, UnlinkedInv, Next, Enabled, At;
    QueueStepFrame(m, a);
    AtAfter(m.q, a);
    hide After, Possible, StepLocal, OnlyOwn;
    StepKeepsInv(m.q, a);
    QueueStepActorFits(m, a);
    OthersKeepHolders(m, m', a.tid);
    QueueStepKeepsList(m, a);
    QueueStepKeepsReclaim(m, a);
    QueueStepKeepsGuards(m, a);
    assert Reclaims(m, m', a) by { assert OnlyOwn(m, m', a.tid); OnlyOwnReclaims(m, m', a.tid); }
    QueueStepKeepsSole(m, m', a);
    forall t | t in m'.q.threads ensures UnlinkedInv(m', m'.q.threads[t]) { QueueStepKeepsUnlinked(m, m', a, t); }
    PartsMakeHazardInv(m');
  }

  lemma OnlyOwnReclaims(m: Machine, m': Machine, t: Tid)
    requires OnlyOwn(m, m', t)
    ensures m'.condemned == m.condemned && m'.freed == m.freed && m'.walk == m.walk
  {
  }

  lemma SlotEventKeepsInv(m: Machine, e: Event)
    requires HazardInv(m) && Possible(m, e) && !OfReclaimer(e) && !e.QueueStep?
    ensures HazardInv(After(m, e))
  {
    HazardParts(m);
    hide HazardInv, Inv, HoldersInv, ListInv, ReclaimInv, SoleUnlinkers, GuardInv, UnlinkedInv, At, Possible, After;
    var m', t := After(m, e), Actor(e);
    SlotEventFrame(m, e);
    SlotEventActorFits(m, e);
    hide OnlyOwn;
    OthersKeepHolders(m, m', t);
    SlotEventKeepsList(m, e);
    OnlyOwnReclaims(m, m', t);
    forall u | u in m'.held ensures GuardInv(m', At(m'.q, u), m'.held[u]) {
      if u == t { FreshGuard(m', m'.held[u]); } else { OthersKeepGuards(m, m', t, u); }
    }
    SlotEventReclaims(m, m');
    PartsMakeHazardInv(m');
  }

  lemma SlotEventReclaims(m: Machine, m': Machine)
    requires m'.q == m.q && m'.retired == m.retired && m'.walk == m.walk && m'.condemned == m.condemned
             && m'.freed == m.freed && |m.slots| <= |m'.slots|
    requires ReclaimInv(m) && forall t | t in m.q.threads :: UnlinkedInv(m, m.q.threads[t])
    ensures ReclaimInv(m') && forall t | t in m'.q.threads :: UnlinkedInv(m', m'.q.threads[t])
  {
    assert forall n | Passed(m, n) :: Passed(m', n);
    forall t | t in m'.q.threads ensures UnlinkedInv(m', m'.q.threads[t]) {
      assert UnlinkedInv(m, m.q.threads[t]);
      hide Passed, Unlinked;
    }
    hide Passed;
  }

  /** Every event keeps the invariant, unless it cuts a walk short that looks for a node in use. */
  lemma EventKeepsInv(m: Machine, e: Event)
    requires HazardInv(m) && Possible(m, e) && Harmless(m, e)
    ensures HazardInv(After(m, e))
  {
    hide HazardInv, After, Possible, Harmless;
    if e.QueueStep? {
      QueueStepKeepsInv(m, e.action);
    } else if OfReclaimer(e) {
      ReclaimerKeepsInv(m, e);
    } else {
      SlotEventKeepsInv(m, e);
    }
  }
}
