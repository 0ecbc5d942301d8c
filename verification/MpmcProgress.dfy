/** What one thread achieves when the others let it: operations end after a bounded number of own steps, with
    the right answer. */
module MpmcProgress {
  import opened MpmcQueue
  import opened MpmcRefinement

  function Last(m: Memory): Node {
    if m.chain == [] then m.tail else m.chain[|m.chain| - 1]
  }

  // ---------------------------------------------------------------- how far an operation is from its end

  function Stage(l: Local): nat {
    match l
    case Idle => 0
    case EnqReadTail(_) => 5
    case EnqReadNext(_, _) => 4
    case EnqCheckTail(_, _, _) => 3
    case EnqLink(_, _) => 2
    case EnqHelp(_, _, _) => 2
    case EnqSwing(_, _) => 1
    case DeqReadHead => 10
    case DeqProtectHead(_) => 9
    case DeqCheckHead(_) => 8
    case DeqReadTail(_) => 7
    case DeqReadNext(_, _) => 6
    case DeqProtectNext(_, _, _) => 5
    case DeqRecheck(_, _, _) => 4
    case DeqPop(_, _) => 3
    case DeqHelp(_, _) => 3
    case DeqReadData(_, _, _) => 2
    case DeqEmpty => 1
    case DeqRetire(_, _, _) => 1
  }

  /** How often an enqueue or dequeue that begins its loop now has to help the tail first. */
  function EnqHelps(m: Memory): nat {
    if m.tail != Last(m) then 1 else 0
  }

  function DeqHelps(m: Memory): nat {
    if m.head == m.tail && m.head != Last(m) then 1 else 0
  }

  /** How often a thread begins its loop again before it ends, if nobody else changes the queue. */
  function Rounds(m: Memory, l: Local): nat {
    match l
    case EnqReadTail(_) => EnqHelps(m)
    case EnqReadNext(_, ct) => if ct == m.tail then EnqHelps(m) else 1 + EnqHelps(m)
    case EnqCheckTail(_, ct, nx) =>
      if ct != m.tail then 1 + EnqHelps(m)
      else if nx.Null? then (if ct == Last(m) then 0 else 1 + EnqHelps(m))
      else 1
    case EnqLink(_, ct) => if ct == Last(m) then 0 else 1 + EnqHelps(m)
    case EnqHelp(_, ct, _) => if ct == m.tail then 1 else 1 + EnqHelps(m)
    case DeqReadHead => DeqHelps(m)
    case DeqProtectHead(ch) => if ch == m.head then DeqHelps(m) else 1 + DeqHelps(m)
    case DeqCheckHead(ch) => if ch == m.head then DeqHelps(m) else 1 + DeqHelps(m)
    case DeqReadTail(ch) => if ch == m.head then DeqHelps(m) else 1 + DeqHelps(m)
    case DeqReadNext(ch, ct) =>
      if ch != m.head then 1 + DeqHelps(m) else if ch == ct && ch != Last(m) then 1 else 0
    case DeqProtectNext(ch, ct, nx) =>
      if ch != m.head then 1 + DeqHelps(m) else if ch == ct && nx.To? then 1 else 0
    case DeqRecheck(ch, ct, nx) =>
      if ch != m.head then 1 + DeqHelps(m) else if ch == ct && nx.To? then 1 else 0
    case DeqHelp(ct, _) => 1 + if ct == m.tail then 0 else DeqHelps(m)
    case DeqPop(ch, _) => if ch == m.head then 0 else 1 + DeqHelps(m)
    case _ => 0
  }

  function Rank(m: Memory, l: Local): (r: nat)
    ensures r <= 32
  {
    Stage(l) + (if BeforePop(l) then 11 else 6) * Rounds(m, l)
  }

  lemma NextIsNullAtLast(m: Memory, n: Node)
    requires MemInv(m) && n in m.pos
    ensures m.NextOf(n).Null? <==> n == Last(m)
    ensures m.pos[n] == |m.chain| - 1 <==> n == Last(m)
  {
    MemHasChain(m);
    hide MemInv, Last;
    LastHasNoNext(m, n);
    LastHasItsPosition(m);
    hide LinkOk, ChainInv;
  }

  lemma LastHasItsPosition(m: Memory)
    requires ChainInv(m)
    ensures m.chain != [] && Last(m) == m.chain[|m.chain| - 1]
    ensures Last(m) in m.pos && m.pos[Last(m)] == |m.chain| - 1
  {
    hide NextInv;
  }

  /** Once the tail has moved on by one, it is at the last node. */
  lemma SwungTailIsLast(m: Memory, to: Node)
    requires MemInv(m) && Follows(m, m.tail, to)
    ensures m.(tail := to).tail == Last(m.(tail := to)) && m.tail != Last(m)
  {
    MemHasChain(m);
    LastHasNoNext(m, to);
    NextIsNullAtLast(m, to);
    NextIsNullAtLast(m, m.tail);
  }

  /** Moving the tail on leaves nothing to help; a compare-and-swap on an outdated tail changes nothing. */
  lemma HelpsAfterSwing(m: Memory, from: Node, to: Node)
    requires MemInv(m) && Follows(m, from, to)
    ensures var m' := SwingTail(m, from, to, true);
            if from == m.tail then EnqHelps(m') == DeqHelps(m') == 0 else m' == m
  {
    if from == m.tail { SwungTailIsLast(m, to); }
    hide MemInv, Follows, Last;
  }

  lemma EnqRankFalls(m: Memory, l: Local)
    requires MemInv(m) && LocalInv(m, l) && !l.Idle? && !BeforePop(l)
    ensures var r := StepLocal(m, l, true); Rank(r.0, r.1) < Rank(m, l)
  {
    hide Last, SwingTail, EnqHelps, DeqHelps, MpmcQueue.Linked, MemInv, Follows;
    match l {
      case EnqReadNext(n, ct) => TailAndNext(m, ct);
      case EnqCheckTail(n, ct, nx) =>
      case EnqLink(n, ct) => NextIsNullAtLast(m, ct);
      case EnqHelp(n, ct, nx) => HelpsAfterSwing(m, ct, nx); HelpsAtMostOnce(m);
      case _ =>
    }
  }

  lemma TailAndNext(m: Memory, n: Node)
    requires MemInv(m) && n in m.pos
    ensures m.NextOf(n).Null? <==> n == Last(m)
    ensures n == m.tail ==> EnqHelps(m) == if n == Last(m) then 0 else 1
  {
    NextIsNullAtLast(m, n);
  }

  lemma HelpsAtMostOnce(m: Memory)
    ensures EnqHelps(m) <= 1 && DeqHelps(m) <= 1
  {
  }

  lemma DeqRankFalls(m: Memory, l: Local)
    requires MemInv(m) && LocalInv(m, l) && BeforePop(l)
    ensures var r := StepLocal(m, l, true); Rank(r.0, r.1) < Rank(m, l)
  {
    hide Last, SwingTail, EnqHelps, DeqHelps, MemInv, Follows;
    match l {
      case DeqReadTail(ch) => ReadTailHelps(m);
      case DeqReadNext(ch, ct) => NextIsNullAtLast(m, ch);
      case DeqRecheck(ch, ct, nx) => ReadTailHelps(m);
      case DeqHelp(ct, nx) => HelpsAfterSwing(m, ct, nx); HelpsAtMostOnce(m);
      case _ =>
    }
  }

  lemma ReadTailHelps(m: Memory)
    ensures DeqHelps(m) == if m.head == m.tail && m.head != Last(m) then 1 else 0
  {
  }

  // ---------------------------------------------------------------- an operation and its answer

  /** A dequeue that found `c` in the queue: up to its compare-and-swap nothing has changed, afterwards it holds
      the oldest value and the rest is left. */
  ghost predicate DequeueOnCourse(c: seq<Payload>, m: Memory, l: Local) {
    if BeforePop(l) then Contents(m) == c && (HasSeenEmpty(l) ==> c == [])
    else if l.DeqReadData? || l.DeqRetire? then c != [] && HasPopped(l, c[0]) && Contents(m) == c[1..]
    else false
  }

  lemma DequeueStaysOnCourse(c: seq<Payload>, m: Memory, l: Local)
    requires MemInv(m) && HasData(m) && LocalInv(m, l) && DequeueOnCourse(c, m, l) && !l.DeqEmpty? && !l.DeqRetire?
    ensures var r := StepLocal(m, l, true); DequeueOnCourse(c, r.0, r.1)
  {
    hide MemInv, HasData, Contents, SwingTail, Follows, BehindTail, BehindHead;
    AdvanceRefines(m, l, true);
    if l.DeqReadNext? && m.NextOf(l.currHead).Null? {
      NullNextMeansEmpty(m, l.currHead);
    }
  }

  /** An enqueue of x into `c`: nothing has changed before its compare-and-swap, afterwards x is at the end and
      only the tail is left to move. */
  ghost predicate EnqueueOnCourse(c: seq<Payload>, x: Payload, m: Memory, l: Local) {
    if Owned(l).To? then Contents(m) == c && m.DataOf(Owned(l).node) == x
    else l.EnqSwing? && Contents(m) == c + [x] && l.currTail == m.tail && l.own == Last(m)
  }

  lemma EnqueueStaysOnCourse(c: seq<Payload>, x: Payload, m: Memory, l: Local)
    requires MemInv(m) && HasData(m) && LocalInv(m, l) && EnqueueOnCourse(c, x, m, l) && !l.EnqSwing?
    ensures var r := StepLocal(m, l, true); EnqueueOnCourse(c, x, r.0, r.1)
  {
    hide MemInv, HasData, Contents, LocalInv, StepLocal;
    AdvanceRefines(m, l, true);
    if l.EnqLink? && m.NextOf(l.currTail).Null? {
      LinkAtLast(m, l);
    } else {
      OwnedAdvance(m, l, true);
      OwnershipStays(m, l);
    }
  }

  lemma OwnershipStays(m: Memory, l: Local)
    requires Owned(l).To? && !(l.EnqLink? && m.NextOf(l.currTail).Null?)
    ensures Owned(StepLocal(m, l, true).1) == Owned(l)
  {
  }

  lemma LinkAtLast(m: Memory, l: Local)
    requires MemInv(m) && LocalInv(m, l) && l.EnqLink? && m.NextOf(l.currTail).Null?
    ensures var r := StepLocal(m, l, true);
            r.1 == EnqSwing(l.own, l.currTail) && r.0.tail == l.currTail && Last(r.0) == l.own
    ensures LocalEffect(m, l, true) == Enqueued(m.DataOf(l.own)) && Owned(l) == To(l.own)
  {
    hide MemInv, Private, BehindHead;
    LastIsTail(m, l.currTail, l.own);
  }

  lemma LastIsTail(m: Memory, last: Node, n: Node)
    requires MemInv(m) && BehindTail(m, last) && m.NextOf(last).Null? && Private(m, n)
    ensures last == m.tail
  {
    EndsBehind(m);
    LinkKeepsInv(m, last, n);
    hide MemInv, Private, Follows, Grows, MpmcQueue.Linked, Last;
    NextIsNullAtLast(m, m.tail);
    NextIsNullAtLast(m, last);
  }

  lemma SwingEndsEnqueue(c: seq<Payload>, x: Payload, m: Memory, l: Local)
    requires MemInv(m) && HasData(m) && LocalInv(m, l) && EnqueueOnCourse(c, x, m, l) && l.EnqSwing?
    ensures var r := StepLocal(m, l, true);
            r.1.Idle? && Contents(r.0) == c + [x] && r.0.tail == Last(r.0) == Last(m)
  {
    hide MemInv, HasData, Contents, LocalInv;
    SwingIsInvisible(m, l.currTail, l.own, true);
  }

  // ---------------------------------------------------------------- runs in which the others let it

  ghost predicate SameEnds(m: Memory, m': Memory) {
    m'.head == m.head && m'.tail == m.tail && m'.chain == m.chain
  }

  /** Thread t takes steps of its operation whose compare-and-swaps do not fail spuriously; every other thread may
      take any step that links, unlinks and swings nothing. */
  ghost predicate LeavesAlone(q: Queue, a: Action, q': Queue, t: Tid) {
    if a.tid == t then a == Advance(t, true) else SameEnds(q.mem, q'.mem)
  }

  ghost predicate IsPart(run: seq<Queue>, actions: seq<Action>)
    requires |run| == |actions| + 1
  {
    && Inv(run[0])
    && forall i | 0 <= i < |actions| :: Step(run[i], actions[i], run[i + 1])
  }

  ghost predicate Undisturbed(run: seq<Queue>, actions: seq<Action>, t: Tid)
    requires |run| == |actions| + 1
  {
    forall i | 0 <= i < |actions| :: LeavesAlone(run[i], actions[i], run[i + 1], t)
  }

  function OwnSteps(actions: seq<Action>, t: Tid): nat {
    if actions == [] then 0 else
    OwnSteps(actions[..|actions| - 1], t) + if actions[|actions| - 1].tid == t then 1 else 0
  }

  lemma {:induction false} PartsKeepInv(run: seq<Queue>, actions: seq<Action>, i: nat)
    requires |run| == |actions| + 1 && IsPart(run, actions) && i < |run|
    ensures Inv(run[i])
  {
    hide Inv, Enabled, Next;
    if i > 0 {
      PartsKeepInv(run, actions, i - 1);
      assert Step(run[i - 1], actions[i - 1], run[i - 1 + 1]);
      hide IsPart;
      StepKeepsInv(run[i - 1], actions[i - 1]);
    }
  }

  /** A step of thread t in terms of its own position. */
  lemma OwnStep(q: Queue, t: Tid)
    requires Inv(q) && Enabled(q, Advance(t, true))
    ensures var r, q' := StepLocal(q.mem, At(q, t), true), Next(q, Advance(t, true));
            && q'.mem == r.0 && At(q', t) == r.1 && !At(q, t).Idle?
            && MemInv(q.mem) && HasData(q.mem) && LocalInv(q.mem, At(q, t))
  {
    InvAt(q, t);
    hide Inv, StepLocal;
  }

  /** A step of another thread that links, unlinks and swings nothing is not noticed. */
  lemma OthersStep(q: Queue, a: Action, t: Tid)
    requires Inv(q) && Enabled(q, a) && a.tid != t && SameEnds(q.mem, Next(q, a).mem)
    ensures var q' := Next(q, a);
            && At(q', t) == At(q, t) && Contents(q'.mem) == Contents(q.mem) && Last(q'.mem) == Last(q.mem)
            && Rank(q'.mem, At(q, t)) == Rank(q.mem, At(q, t))
            && (Owned(At(q, t)).To? ==>
                  q'.mem.DataOf(Owned(At(q, t)).node) == q.mem.DataOf(Owned(At(q, t)).node))
  {
    OneThreadMoves(q, a, t);
    QuietStepKeepsContents(q, a);
    if Owned(At(q, t)).To? { OwnedStep(q, a, t, Owned(At(q, t)).node); }
    hide Inv, Enabled, Contents, At, StepLocal;
    RankOfEnds(q.mem, Next(q, a).mem, At(q, t));
  }

  lemma RankOfEnds(m: Memory, m': Memory, l: Local)
    requires SameEnds(m, m')
    ensures Rank(m', l) == Rank(m, l) && Last(m') == Last(m)
  {
  }

  lemma QuietStepKeepsContents(q: Queue, a: Action)
    requires Inv(q) && Enabled(q, a) && SameEnds(q.mem, Next(q, a).mem)
    ensures Contents(Next(q, a).mem) == Contents(q.mem)
  {
    hide Inv, Contents;
    StepRefines(q, a);
    if a.Advance? {
      InvAt(q, a.tid);
      hide MemInv, HasData, LocalInv, At, Enabled, LocalEffect, StepLocal;
      QuietEffect(q.mem, At(q, a.tid), a.casSucceeds);
    }
  }

  lemma QuietEffect(m: Memory, l: Local, cas: bool)
    requires LocalInv(m, l) && SameEnds(m, StepLocal(m, l, cas).0)
    ensures ChangesNothing(LocalEffect(m, l, cas))
  {
    if l.EnqLink? { LinkingIsNoticed(m, l.currTail, l.own); }
    hide MpmcQueue.Linked;
  }

  lemma LinkingIsNoticed(m: Memory, last: Node, n: Node)
    ensures Linked(m, last, n).chain != m.chain
  {
    assert |Linked(m, last, n).chain| == |m.chain| + 1;
  }

  /** Each own step brings the operation nearer to its end. */
  lemma {:induction false} OwnStepsCount(run: seq<Queue>, actions: seq<Action>, t: Tid, i: nat)
    requires |run| == |actions| + 1 && IsPart(run, actions) && Undisturbed(run, actions, t) && i <= |actions|
    ensures OwnSteps(actions[..i], t) + Rank(run[i].mem, At(run[i], t)) <= Rank(run[0].mem, At(run[0], t))
  {
    hide Inv, Enabled, Next, At, Rank, IsPart, Undisturbed;
    if i > 0 {
      OwnStepsCount(run, actions, t, i - 1);
      PartStep(run, actions, t, i - 1);
      var q, a := run[i - 1], actions[i - 1];
      assert actions[..i][..i - 1] == actions[..i - 1];
      if a.tid == t {
        OwnStep(q, t);
        RankFalls(q.mem, At(q, t));
      } else {
        OthersStep(q, a, t);
      }
    }
  }

  lemma RankFalls(m: Memory, l: Local)
    requires MemInv(m) && LocalInv(m, l) && !l.Idle?
    ensures var r := StepLocal(m, l, true); Rank(r.0, r.1) < Rank(m, l)
  {
    hide MemInv, LocalInv, StepLocal, Rank;
    if BeforePop(l) { DeqRankFalls(m, l); } else { EnqRankFalls(m, l); }
  }

  /** From every state of the queue an operation ends after at most 32 steps of its own during which the other
      threads link, unlink and swing nothing; until then it can always take its next step. */
  lemma OperationsEnd(run: seq<Queue>, actions: seq<Action>, t: Tid)
    requires |run| == |actions| + 1 && IsPart(run, actions) && Undisturbed(run, actions, t)
    ensures OwnSteps(actions, t) <= 32
    ensures !At(run[|actions|], t).Idle? ==> Enabled(run[|actions|], Advance(t, true))
  {
    OwnStepsCount(run, actions, t, |actions|);
    assert actions[..|actions|] == actions;
  }

  /** Lock freedom: a thread that takes more than 32 steps of one operation without a spurious failure has seen
      another thread link, unlink or swing meanwhile. */
  lemma RetriesMeanProgress(run: seq<Queue>, actions: seq<Action>, t: Tid) returns (i: nat)
    requires |run| == |actions| + 1 && IsPart(run, actions)
    requires forall i | 0 <= i < |actions| && actions[i].tid == t :: actions[i] == Advance(t, true)
    requires OwnSteps(actions, t) > 32
    ensures i < |actions| && actions[i].tid != t && !SameEnds(run[i].mem, run[i + 1].mem)
  {
    if Undisturbed(run, actions, t) {
      OperationsEnd(run, actions, t);
    }
    i :| 0 <= i < |actions| && !LeavesAlone(run[i], actions[i], run[i + 1], t);
  }

  /** A dequeue that the others let do so answers for the queue it found: it returns and takes exactly the oldest
      value, and says that there is none exactly if there is none. */
  lemma DequeueAnswers(run: seq<Queue>, actions: seq<Action>, t: Tid) returns (k: nat)
    requires |run| == |actions| + 1 && IsPart(run, actions) && Undisturbed(run, actions, t)
    requires BeforePop(At(run[0], t)) && !HasSeenEmpty(At(run[0], t)) && At(run[|actions|], t).Idle?
    ensures k < |actions| && actions[k].tid == t && At(run[k + 1], t).Idle?
    ensures var c := Contents(run[0].mem);
            if c == [] then At(run[k], t).DeqEmpty? && Contents(run[k + 1].mem) == []
            else At(run[k], t).DeqRetire? && At(run[k], t).result == c[0] && Contents(run[k + 1].mem) == c[1..]
  {
    hide Contents, At, IsPart, Undisturbed, BeforePop, HasSeenEmpty;
    DequeueCourse(run, actions, t, |actions|);
    k :| 0 <= k < |actions| && Answered(Contents(run[0].mem), run[k], actions[k], run[k + 1], t);
  }

  /** One of the first i steps was the last one of the dequeue. */
  ghost predicate AnsweredBefore(c: seq<Payload>, run: seq<Queue>, actions: seq<Action>, t: Tid, i: nat)
    requires |run| == |actions| + 1 && i <= |actions|
  {
    exists k :: 0 <= k < i && Answered(c, run[k], actions[k], run[k + 1], t)
  }

  lemma {:induction false} DequeueCourse(run: seq<Queue>, actions: seq<Action>, t: Tid, i: nat)
    requires |run| == |actions| + 1 && IsPart(run, actions) && Undisturbed(run, actions, t) && i <= |actions|
    requires BeforePop(At(run[0], t)) && !HasSeenEmpty(At(run[0], t))
    ensures var c := Contents(run[0].mem);
            if At(run[i], t).Idle? then AnsweredBefore(c, run, actions, t, i)
            else DequeueOnCourse(c, run[i].mem, At(run[i], t))
  {
    hide *;
    if i == 0 {
      BeforePopIsBusy(run[0].mem, At(run[0], t));
    } else {
      DequeueCourse(run, actions, t, i - 1);
      PartStep(run, actions, t, i - 1);
      DequeueGoesOn(Contents(run[0].mem), run, actions, t, i - 1);
    }
  }

  lemma DequeueGoesOn(c: seq<Payload>, run: seq<Queue>, actions: seq<Action>, t: Tid, i: nat)
    requires |run| == |actions| + 1 && i < |actions|
    requires Inv(run[i]) && Step(run[i], actions[i], run[i + 1]) && LeavesAlone(run[i], actions[i], run[i + 1], t)
    requires At(run[i], t).Idle? ==> At(run[i + 1], t).Idle?
    requires if At(run[i], t).Idle? then AnsweredBefore(c, run, actions, t, i)
             else DequeueOnCourse(c, run[i].mem, At(run[i], t))
    ensures if At(run[i + 1], t).Idle? then AnsweredBefore(c, run, actions, t, i + 1)
            else DequeueOnCourse(c, run[i + 1].mem, At(run[i + 1], t))
  {
    hide Inv, Contents, BeforePop, DequeueOnCourse, Answered, At, LeavesAlone, Step;
    if !At(run[i], t).Idle? {
      DequeueCourseStep(c, run[i], actions[i], run[i + 1], t);
    }
  }

  lemma PartStep(run: seq<Queue>, actions: seq<Action>, t: Tid, i: nat)
    requires |run| == |actions| + 1 && IsPart(run, actions) && Undisturbed(run, actions, t) && i < |actions|
    ensures Inv(run[i]) && Step(run[i], actions[i], run[i + 1]) && LeavesAlone(run[i], actions[i], run[i + 1], t)
    ensures At(run[i], t).Idle? ==> At(run[i + 1], t).Idle?
  {
    hide Inv, At, LeavesAlone, Enabled, Next;
    PartsKeepInv(run, actions, i);
    assert Step(run[i], actions[i], run[i + 1]) && LeavesAlone(run[i], actions[i], run[i + 1], t);
    hide IsPart, Undisturbed;
    if At(run[i], t).Idle? { IdleStays(run[i], actions[i], t); }
  }

  /** Step a from q to q' ends the dequeue of a thread that found c in the queue. */
  ghost predicate Answered(c: seq<Payload>, q: Queue, a: Action, q': Queue, t: Tid) {
    && a.tid == t && At(q', t).Idle?
    && if c == [] then At(q, t).DeqEmpty? && Contents(q'.mem) == []
       else At(q, t).DeqRetire? && At(q, t).result == c[0] && Contents(q'.mem) == c[1..]
  }

  lemma IdleStays(q: Queue, a: Action, t: Tid)
    requires At(q, t).Idle? && Enabled(q, a) && LeavesAlone(q, a, Next(q, a), t)
    ensures At(Next(q, a), t).Idle?
  {
    OneThreadMoves(q, a, t);
    hide Next, SameEnds;
  }

  lemma DequeueCourseStep(c: seq<Payload>, q: Queue, a: Action, q': Queue, t: Tid)
    requires Inv(q) && Step(q, a, q') && LeavesAlone(q, a, q', t) && DequeueOnCourse(c, q.mem, At(q, t))
    ensures if At(q', t).Idle? then Answered(c, q, a, q', t) else DequeueOnCourse(c, q'.mem, At(q', t))
  {
    hide Inv, Enabled, Next, Contents, DequeueOnCourse, At, SameEnds;
    OnCourseIsBusy(c, q.mem, At(q, t));
    if a.tid != t {
      OthersStep(q, a, t);
      SameCourse(c, q.mem, q'.mem, At(q, t));
    } else {
      OwnStep(q, t);
      if At(q, t).DeqEmpty? || At(q, t).DeqRetire? {
        LastStep(c, q.mem, At(q, t));
      } else {
        DequeueStaysOnCourse(c, q.mem, At(q, t));
        OnCourseIsBusy(c, q'.mem, At(q', t));
      }
    }
  }

  lemma BeforePopIsBusy(m: Memory, l: Local)
    requires BeforePop(l) && !HasSeenEmpty(l)
    ensures !l.Idle? && DequeueOnCourse(Contents(m), m, l)
  {
    hide Contents;
  }

  lemma OnCourseIsBusy(c: seq<Payload>, m: Memory, l: Local)
    requires DequeueOnCourse(c, m, l)
    ensures !l.Idle?
  {
    hide Contents;
  }

  lemma SameCourse(c: seq<Payload>, m: Memory, m': Memory, l: Local)
    requires Contents(m') == Contents(m) && DequeueOnCourse(c, m, l)
    ensures DequeueOnCourse(c, m', l)
  {
    hide Contents, BeforePop;
  }

  lemma LastStep(c: seq<Payload>, m: Memory, l: Local)
    requires LocalInv(m, l) && DequeueOnCourse(c, m, l) && (l.DeqEmpty? || l.DeqRetire?)
    ensures StepLocal(m, l, true) == (m, Idle)
    ensures if c == [] then l.DeqEmpty? && Contents(m) == []
            else l.DeqRetire? && l.result == c[0] && Contents(m) == c[1..]
  {
    hide Contents;
  }

  /** An enqueue that the others let do so puts its value behind everything it found, also if it has to help a
      lagging tail first, and leaves the tail at the last node. */
  lemma EnqueueAppends(run: seq<Queue>, actions: seq<Action>, t: Tid, n: Node)
    requires |run| == |actions| + 1 && IsPart(run, actions) && Undisturbed(run, actions, t)
    requires Owned(At(run[0], t)) == To(n) && At(run[|actions|], t).Idle?
    ensures Contents(run[|actions|].mem) == Contents(run[0].mem) + [run[0].mem.DataOf(n)]
    ensures run[|actions|].mem.tail == Last(run[|actions|].mem)
  {
    EnqueueCourse(run, actions, t, n, |actions|);
  }

  lemma {:induction false} EnqueueCourse(run: seq<Queue>, actions: seq<Action>, t: Tid, n: Node, i: nat)
    requires |run| == |actions| + 1 && IsPart(run, actions) && Undisturbed(run, actions, t) && i <= |actions|
    requires Owned(At(run[0], t)) == To(n)
    ensures var c, x, m, l := Contents(run[0].mem), run[0].mem.DataOf(n), run[i].mem, At(run[i], t);
            if l.Idle? then Contents(m) == c + [x] && m.tail == Last(m) else EnqueueOnCourse(c, x, m, l)
  {
    hide *;
    if i == 0 {
      EnqueueBegins(run[0].mem, At(run[0], t));
    } else {
      EnqueueCourse(run, actions, t, n, i - 1);
      PartStep(run, actions, t, i - 1);
      EnqueueCourseStep(Contents(run[0].mem), run[0].mem.DataOf(n), run[i - 1], actions[i - 1], run[i], t);
    }
  }

  lemma EnqueueCourseStep(c: seq<Payload>, x: Payload, q: Queue, a: Action, q': Queue, t: Tid)
    requires Inv(q) && Step(q, a, q') && LeavesAlone(q, a, q', t)
    requires if At(q, t).Idle? then Contents(q.mem) == c + [x] && q.mem.tail == Last(q.mem)
             else EnqueueOnCourse(c, x, q.mem, At(q, t))
    ensures if At(q', t).Idle? then Contents(q'.mem) == c + [x] && q'.mem.tail == Last(q'.mem)
            else EnqueueOnCourse(c, x, q'.mem, At(q', t))
  {
    hide Inv, Enabled, Next, Contents, EnqueueOnCourse, At, Last;
    if a.tid != t {
      OthersStep(q, a, t);
      if !At(q, t).Idle? { SameEnqueueCourse(c, x, q.mem, q'.mem, At(q, t)); }
    } else {
      OwnStep(q, t);
      if At(q, t).EnqSwing? {
        SwingEndsEnqueue(c, x, q.mem, At(q, t));
      } else {
        EnqueueStaysOnCourse(c, x, q.mem, At(q, t));
        EnqueueIsBusy(c, x, q'.mem, At(q', t));
      }
    }
  }

  lemma EnqueueBegins(m: Memory, l: Local)
    requires Owned(l).To?
    ensures !l.Idle? && EnqueueOnCourse(Contents(m), m.DataOf(Owned(l).node), m, l)
  {
    hide Contents;
  }

  lemma EnqueueIsBusy(c: seq<Payload>, x: Payload, m: Memory, l: Local)
    requires EnqueueOnCourse(c, x, m, l)
    ensures !l.Idle?
  {
    hide Contents;
  }

  lemma SameEnqueueCourse(c: seq<Payload>, x: Payload, m: Memory, m': Memory, l: Local)
    requires EnqueueOnCourse(c, x, m, l) && Contents(m') == Contents(m) && Last(m') == Last(m) && m'.tail == m.tail
    requires Owned(l).To? ==> m'.DataOf(Owned(l).node) == m.DataOf(Owned(l).node)
    ensures EnqueueOnCourse(c, x, m', l)
  {
    hide Contents, Owned, Last;
  }

  /** Every operation can be run to its end, from every state of the queue, by its own thread alone. */
  lemma FinishAlone(q: Queue, t: Tid) returns (run: seq<Queue>, actions: seq<Action>)
    requires Inv(q)
    ensures |run| == |actions| + 1 && IsPart(run, actions) && run[0] == q && Undisturbed(run, actions, t)
    ensures At(run[|actions|], t).Idle? && |actions| <= Rank(q.mem, At(q, t))
    ensures forall i | 0 <= i < |actions| :: actions[i] == Advance(t, true)
    decreases Rank(q.mem, At(q, t))
  {
    hide Inv, Rank, Next, At;
    if At(q, t).Idle? {
      run, actions := [q], [];
    } else {
      var a := Advance(t, true);
      assert Enabled(q, a);
      hide Enabled;
      OwnStep(q, t);
      RankFalls(q.mem, At(q, t));
      StepKeepsInv(q, a);
      var rest, more := FinishAlone(Next(q, a), t);
      run, actions := [q] + rest, [a] + more;
      OneStepBefore(q, t, rest, more);
    }
  }

  lemma OneStepBefore(q: Queue, t: Tid, rest: seq<Queue>, more: seq<Action>)
    requires |rest| == |more| + 1 && IsPart(rest, more) && Undisturbed(rest, more, t)
    requires Inv(q) && Step(q, Advance(t, true), rest[0])
    ensures IsPart([q] + rest, [Advance(t, true)] + more)
    ensures Undisturbed([q] + rest, [Advance(t, true)] + more, t)
  {
    hide Inv, Step, SameEnds;
    var run, actions := [q] + rest, [Advance(t, true)] + more;
    forall i | 0 <= i < |actions|
      ensures Step(run[i], actions[i], run[i + 1]) && LeavesAlone(run[i], actions[i], run[i + 1], t)
    {
      if i > 0 {
        assert Step(rest[i - 1], more[i - 1], rest[i - 1 + 1]);
        assert LeavesAlone(rest[i - 1], more[i - 1], rest[i - 1 + 1], t);
      }
    }
  }
}
