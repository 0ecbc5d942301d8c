/** The write-behind batcher: status updates are queued by the RPC threads and flushed in batches by one
    consumer thread. */
module DbBatching {
  import opened Graph

  datatype UpdateOp = UpdateOp(taskId: Id, state: int, resultJson: string, errorMsg: string, workerId: string)

  const BATCH_SIZE := 1000

  /** What the producers did during one stretch in which they can run: before a loop test of the consumer, or
      between that test and the moment the consumer holds the lock. The updates they added, in order, and
      whether the stop flag was raised by the end. */
  datatype Round = Round(added: seq<UpdateOp>, stop: bool)

  function Concat(batches: seq<seq<UpdateOp>>): seq<UpdateOp> {
    if batches == [] then [] else Concat(batches[..|batches| - 1]) + batches[|batches| - 1]
  }

  function Added(rounds: seq<Round>): seq<UpdateOp> {
    if rounds == [] then [] else Added(rounds[..|rounds| - 1]) + rounds[|rounds| - 1].added
  }

  function Stopped(rounds: seq<Round>): bool {
    exists k | 0 <= k < |rounds| :: rounds[k].stop
  }

  lemma {:induction false} NothingAddedLater(rounds: seq<Round>, i: nat, m: nat)
    requires i <= m <= |rounds| && forall k | i <= k < m :: rounds[k].added == []
    ensures Added(rounds[..m]) == Added(rounds[..i])
    decreases m
  {
    if i < m {
      NothingAddedLater(rounds, i, m - 1);
      assert rounds[..m][..m - 1] == rounds[..m - 1];
    }
  }

  lemma StoppedGrows(rounds: seq<Round>, i: nat)
    requires i < |rounds|
    ensures Stopped(rounds[..i + 1]) <==> Stopped(rounds[..i]) || rounds[i].stop
  {
    assert forall k | 0 <= k < i :: rounds[..i + 1][k] == rounds[..i][k];
    assert rounds[..i + 1][i] == rounds[i];
  }

  class DbBatcher {
    var queue: seq<UpdateOp>
    var stopFlag: bool

    constructor ()
      ensures queue == [] && !stopFlag
    {
      queue, stopFlag := [], false;
    }

    method AddStatusUpdate(op: UpdateOp)
      modifies `queue
      ensures queue == old(queue) + [op]
    {
      queue := queue + [op];
    }

    method Stop()
      modifies `stopFlag
      ensures stopFlag
    {
      stopFlag := true;
    }

    /** Moves at most a batch from the front of the queue. */
    method FillBatch() returns (batch: seq<UpdateOp>)
      modifies `queue
      ensures old(queue) == batch + queue
      ensures |batch| == if |old(queue)| < BATCH_SIZE then |old(queue)| else BATCH_SIZE
    {
      batch := [];
      while queue != [] && |batch| < BATCH_SIZE
        invariant old(queue) == batch + queue && |batch| <= BATCH_SIZE
        decreases |queue|
      {
        batch := batch + [queue[0]];
        queue := queue[1..];
      }
    }

    /** What happened while the consumer was not holding the lock. */
    method LetProducersRun(rounds: seq<Round>, i: nat)
      modifies this
      ensures queue == old(queue) + if i < |rounds| then rounds[i].added else []
      ensures stopFlag == (old(stopFlag) || i >= |rounds| || rounds[i].stop)
    {
      if i < |rounds| {
        for k := 0 to |rounds[i].added|
          invariant queue == old(queue) + rounds[i].added[..k] && stopFlag == old(stopFlag)
        {
          AddStatusUpdate(rounds[i].added[k]);
        }
        if rounds[i].stop { Stop(); }
      } else {
        Stop();
      }
    }

    /** The consumer loop against an arbitrary schedule of stretches, one before each loop test and one before
        each lock; after the schedule the producers are silent and the stop flag is up. `i` is how many
        stretches the loop lived through. */
    method RunLoop(rounds: seq<Round>) returns (flushed: seq<seq<UpdateOp>>, i: nat)
      requires queue == [] && !stopFlag
      modifies this
      ensures queue == []
      ensures Concat(flushed) == Added(Taken(rounds, i))
      ensures forall b | b in flushed :: 0 < |b| <= BATCH_SIZE
      ensures i <= |rounds| ==> Stopped(Taken(rounds, i))
    {
      flushed := [];
      NothingYet(rounds);
      hide Added, Stopped, Concat, Taken;
      i := NextStretch(rounds, 0, Concat(flushed));
      while !stopFlag || queue != []
        invariant Concat(flushed) + queue == Added(Taken(rounds, i))
        invariant forall b | b in flushed :: 0 < |b| <= BATCH_SIZE
        invariant stopFlag <==> Stopped(Taken(rounds, i)) || i > |rounds|
        decreases if i < |rounds| then |rounds| - i else 0, |queue|
      {
        i := NextStretch(rounds, i, Concat(flushed));
        if queue == [] && stopFlag {
          break;
        }
        if queue != [] {
          ghost var all := queue;
          var batch := FillBatch();
          OneMoreBatch(flushed, batch, queue, all);
          flushed := flushed + [batch];
        }
        i := NextStretch(rounds, i, Concat(flushed));
      }
    }

    /** The producers run for one more stretch. */
    method NextStretch(rounds: seq<Round>, i: nat, ghost done: seq<UpdateOp>) returns (next: nat)
      requires done + queue == Added(Taken(rounds, i)) && (stopFlag <==> Stopped(Taken(rounds, i)) || i > |rounds|)
      modifies this
      ensures next == i + 1 && done + queue == Added(Taken(rounds, next))
      ensures stopFlag <==> Stopped(Taken(rounds, next)) || next > |rounds|
      ensures i >= |rounds| ==> stopFlag && queue == old(queue)
    {
      hide Added, Stopped, Taken;
      RoundTaken(rounds, i, done, queue);
      LetProducersRun(rounds, i);
      next := i + 1;
    }
  }

  /** The first i stretches of the schedule. */
  function Taken(rounds: seq<Round>, i: nat): seq<Round> {
    if i < |rounds| then rounds[..i] else rounds
  }

  lemma RoundTaken(rounds: seq<Round>, i: nat, done: seq<UpdateOp>, queue: seq<UpdateOp>)
    requires done + queue == Added(Taken(rounds, i))
    ensures done + (queue + if i < |rounds| then rounds[i].added else []) == Added(Taken(rounds, i + 1))
    ensures Stopped(Taken(rounds, i + 1)) <==> Stopped(Taken(rounds, i)) || (i < |rounds| && rounds[i].stop)
  {
    if i < |rounds| {
      OneMoreRound(rounds, i);
      Reassociate(done, queue, rounds[i].added);
      assert rounds[..i + 1] == Taken(rounds, i + 1);
    } else {
      assert queue + [] == queue;
    }
  }

  lemma NothingYet(rounds: seq<Round>)
    ensures Added(Taken(rounds, 0)) == [] && !Stopped(Taken(rounds, 0)) && Concat([]) == []
  {
  }

  lemma Reassociate(a: seq<UpdateOp>, b: seq<UpdateOp>, c: seq<UpdateOp>)
    ensures a + (b + c) == (a + b) + c
  {
  }

  lemma OneMoreRound(rounds: seq<Round>, i: nat)
    requires i < |rounds|
    ensures Added(rounds[..i + 1]) == Added(rounds[..i]) + rounds[i].added
    ensures Stopped(rounds[..i + 1]) <==> Stopped(rounds[..i]) || rounds[i].stop
  {
    StoppedGrows(rounds, i);
    assert rounds[..i + 1][..i] == rounds[..i];
  }

  lemma OneMoreBatch(flushed: seq<seq<UpdateOp>>, batch: seq<UpdateOp>, rest: seq<UpdateOp>, all: seq<UpdateOp>)
    requires all == batch + rest
    ensures Concat(flushed + [batch]) + rest == Concat(flushed) + all
  {
    assert (flushed + [batch])[..|flushed|] == flushed;
    assert Concat(flushed) + all == (Concat(flushed) + batch) + rest;
  }

  /** If nothing is added once the stop flag is up, the loop ends having handed every update that was ever
      added to exactly one flush, in order, in batches of at most 1000. */
  lemma DrainedAfterStop(rounds: seq<Round>, flushed: seq<seq<UpdateOp>>, i: nat)
    requires Concat(flushed) == Added(Taken(rounds, i)) && (i <= |rounds| ==> Stopped(Taken(rounds, i)))
    requires forall k | 0 <= k < |rounds| && Stopped(rounds[..k]) :: rounds[k].added == []
    ensures Concat(flushed) == Added(rounds)
  {
    if i < |rounds| {
      assert Taken(rounds, i) == rounds[..i];
      hide Added, Concat, Stopped, Taken;
      forall k | i <= k < |rounds| ensures rounds[k].added == [] {
        StoppedStays(rounds, i, k);
      }
      NothingAddedLater(rounds, i, |rounds|);
      assert rounds[..|rounds|] == rounds;
    }
  }

  lemma StoppedStays(rounds: seq<Round>, i: nat, k: nat)
    requires i <= k <= |rounds| && Stopped(rounds[..i])
    ensures Stopped(rounds[..k])
  {
    var m :| 0 <= m < i && rounds[..i][m].stop;
    assert rounds[..k][m].stop;
  }
}
