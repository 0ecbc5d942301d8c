/** The submitter's consumer loop against an arbitrary schedule of producers and shutdown. */
module Flusher {
  import opened DagEngine
  import opened PostgresStore
  import opened CommittedBatches
  import opened Submitter
  import opened SubmissionTheorems

  /** One turn of the loop: what arrived before the loop test, what by the time the lock was held, the
      running flag at both moments, and how the two services answered. */
  datatype Turn = Turn(early: seq<BatchItem>, runningAtTest: bool, late: seq<BatchItem>, runningAtLock: bool,
                       dbUp: bool, redis: Pipelining)

  function Arrived(turns: seq<Turn>): seq<BatchItem> {
    if turns == [] then [] else
    Arrived(turns[..|turns| - 1]) + turns[|turns| - 1].early + turns[|turns| - 1].late
  }

  /** What the loop has received when it ends in turn n. */
  function Received(turns: seq<Turn>, n: nat, atTest: bool): seq<BatchItem>
    requires n <= |turns| && (atTest ==> n < |turns|)
  {
    Arrived(turns[..n]) + if atTest then turns[n].early else []
  }

  function Flushed(batches: seq<(seq<BatchItem>, bool)>): seq<BatchItem> {
    if batches == [] then [] else Flushed(batches[..|batches| - 1]) + batches[|batches| - 1].0
  }

  ghost predicate AllValid(items: seq<BatchItem>) {
    forall i | 0 <= i < |items| :: ValidContext(items[i])
  }

  /** What was sent belongs to the pipeline of one of the items. */
  ghost predicate PublishedBy(items: seq<BatchItem>, c: Sent) {
    exists i :: 0 <= i < |items| && c in WirePipeline(items[i].req, items[i].ctx.jobId, items[i].ctx.naturalToUuid)
  }

  /** The account of a loop that ended in turn n: `at` are the turns that had something to flush, and what was
      sent is one part for each of them, between the `ends`. */
  datatype Account = Account(at: seq<nat>, ends: seq<nat>)

  function Items(turn: Turn): seq<BatchItem> {
    turn.early + turn.late
  }

  /** Batch k is everything that arrived in its turn, with the answer of the database in that turn, and its part of
      what was sent is what it had to publish. */
  ghost predicate FlushedInTurn(turns: seq<Turn>, batches: seq<(seq<BatchItem>, bool)>, sent: seq<Sent>, acc: Account,
                                k: nat)
    requires k < |batches| == |acc.at| && |acc.ends| == |batches| + 1
  {
    && acc.at[k] < |turns| && acc.ends[k] <= acc.ends[k + 1] <= |sent|
    && (forall i | 0 <= i < k :: acc.at[i] < acc.at[k])
    && batches[k] == (Items(turns[acc.at[k]]), turns[acc.at[k]].dbUp)
    && BatchSent(ProcessAll(batches[..k]).db, batches[k].0, batches[k].1, turns[acc.at[k]].redis,
                 sent[acc.ends[k]..acc.ends[k + 1]])
  }

  ghost predicate IsAccount(turns: seq<Turn>, n: nat, batches: seq<(seq<BatchItem>, bool)>, sent: seq<Sent>,
                            acc: Account)
    requires n <= |turns|
  {
    && |acc.at| == |batches| && |acc.ends| == |batches| + 1 && acc.ends[0] == 0 && acc.ends[|batches|] == |sent|
    && (forall k | 0 <= k < |batches| :: acc.at[k] < n)
    && (forall i | 0 <= i < n :: i in acc.at || Items(turns[i]) == [])
    && (forall k | 0 <= k < |batches| :: FlushedInTurn(turns, batches, sent, acc, k))
  }

  lemma EmptyAccount(turns: seq<Turn>)
    ensures IsAccount(turns, 0, [], [], Account([], [0]))
  {
  }

  lemma EmptyTurn(turns: seq<Turn>, n: nat, batches: seq<(seq<BatchItem>, bool)>, sent: seq<Sent>, acc: Account)
    requires n < |turns| && IsAccount(turns, n, batches, sent, acc) && Items(turns[n]) == []
    ensures IsAccount(turns, n + 1, batches, sent, acc)
  {
    hide FlushedInTurn, Items;
  }

  lemma OneMoreFlush(turns: seq<Turn>, n: nat, batches: seq<(seq<BatchItem>, bool)>, sent: seq<Sent>, acc: Account,
                     commands: seq<Sent>)
    requires n < |turns| && IsAccount(turns, n, batches, sent, acc)
    requires BatchSent(ProcessAll(batches).db, Items(turns[n]), turns[n].dbUp, turns[n].redis, commands)
    ensures IsAccount(turns, n + 1, batches + [(Items(turns[n]), turns[n].dbUp)], sent + commands,
                      Account(acc.at + [n], acc.ends + [|sent| + |commands|]))
  {
    hide BatchSent, ProcessAll, Items;
    var batches', sent' := batches + [(Items(turns[n]), turns[n].dbUp)], sent + commands;
    var acc' := Account(acc.at + [n], acc.ends + [|sent| + |commands|]);
    forall k | 0 <= k < |batches'| ensures FlushedInTurn(turns, batches', sent', acc', k) {
      if k < |batches| {
        assert FlushedInTurn(turns, batches, sent, acc, k) && batches'[..k] == batches[..k];
        assert sent'[acc.ends[k]..acc.ends[k + 1]] == sent[acc.ends[k]..acc.ends[k + 1]];
      } else {
        assert batches'[..k] == batches && sent'[|sent|..|sent| + |commands|] == commands;
      }
    }
    hide FlushedInTurn;
    forall i | 0 <= i < n + 1 ensures i in acc'.at || Items(turns[i]) == [] {
      if i == n { assert acc'.at[|acc.at|] == n; }
      if i in acc.at { assert i in acc.at + [n]; }
    }
  }

  /** Every item received is handed to exactly one batch, in order, or still waits when the loop ends; it
      waits only if the stop flag went down while items were queued. The database is what the batches in
      their order make it, only committed items are ever published, and every batch that commits publishes all of
      its items unless Redis fails. The loop ends when it finds the flag down, at its test or with nothing to do. */
  method FlusherLoop(s: TaskSubmitter, turns: seq<Turn>)
    returns (batches: seq<(seq<BatchItem>, bool)>, sent: seq<Sent>, n: nat, ghost atTest: bool, ghost acc: Account)
    requires s.pendingQueue == [] && s.db == EMPTY_LOG.db
    requires forall k | 0 <= k < |turns| :: AllValid(turns[k].early) && AllValid(turns[k].late)
    modifies s
    ensures n <= |turns| && (atTest ==> n < |turns| && !turns[n].runningAtTest)
    ensures Flushed(batches) + s.pendingQueue == Received(turns, n, atTest)
    ensures s.pendingQueue == if atTest then turns[n].early else []
    ensures s.db == ProcessAll(batches).db
    ensures IsAccount(turns, n, batches, sent, acc)
    ensures n < |turns| && !atTest ==> n > 0 && !turns[n - 1].runningAtLock && Items(turns[n - 1]) == []
    ensures forall i | 0 <= i < n ::
              turns[i].runningAtTest && (i < n - 1 || atTest ==> turns[i].runningAtLock || Items(turns[i]) != [])
    ensures forall c | c in sent :: PublishedBy(ProcessAll(batches).committed, c)
  {
    batches, sent, n, atTest, acc := [], [], 0, false, Account([], [0]);
    NothingReceived(turns);
    EmptyAccount(turns);
    hide Received, Arrived, Flushed, AllValid, UniqueKeys, PublishedBy, ProcessAll, IsAccount, BatchSent;
    while n < |turns|
      invariant n <= |turns| && !atTest && s.pendingQueue == []
      invariant Flushed(batches) == Received(turns, n, false)
      invariant s.db == ProcessAll(batches).db && UniqueKeys(s.db)
      invariant IsAccount(turns, n, batches, sent, acc)
      invariant forall i | 0 <= i < n ::
                  turns[i].runningAtTest && (turns[i].runningAtLock || Items(turns[i]) != [])
      invariant forall c | c in sent :: PublishedBy(ProcessAll(batches).committed, c)
      decreases |turns| - n
    {
      var turn := turns[n];
      ReceivedStep(turns, n);
      s.pendingQueue := s.pendingQueue + turn.early;
      if !turn.runningAtTest {
        atTest := true;
        return;
      }
      s.pendingQueue := s.pendingQueue + turn.late;
      n := n + 1;
      if s.pendingQueue == [] {
        EmptyTurn(turns, n - 1, batches, sent, acc);
        if !turn.runningAtLock {
          return;
        }
        continue;
      }
      ValidTogether(turn.early, turn.late);
      assert s.pendingQueue == Items(turn);
      batches, sent, acc := ProcessQueue(s, turns, n - 1, batches, sent, acc, turn.dbUp, turn.redis);
    }
  }

  /** One batch: everything that waits is taken and processed. */
  method ProcessQueue(s: TaskSubmitter, ghost turns: seq<Turn>, ghost n: nat, batches: seq<(seq<BatchItem>, bool)>,
                      sent: seq<Sent>, ghost acc: Account, dbUp: bool, redis: Pipelining)
    returns (batches': seq<(seq<BatchItem>, bool)>, sent': seq<Sent>, ghost acc': Account)
    requires AllValid(s.pendingQueue) && UniqueKeys(s.db) && s.db == ProcessAll(batches).db
    requires n < |turns| && s.pendingQueue == Items(turns[n]) && turns[n].dbUp == dbUp && turns[n].redis == redis
    requires IsAccount(turns, n, batches, sent, acc)
    requires forall c | c in sent :: PublishedBy(ProcessAll(batches).committed, c)
    modifies s
    ensures s.pendingQueue == [] && UniqueKeys(s.db) && s.db == ProcessAll(batches').db
    ensures Flushed(batches') == Flushed(batches) + old(s.pendingQueue)
    ensures IsAccount(turns, n + 1, batches', sent', acc')
    ensures forall c | c in sent' :: PublishedBy(ProcessAll(batches').committed, c)
  {
    hide Flushed, UniqueKeys, PublishedBy, ProcessAll, ValidContext, IsAccount, BatchSent;
    ghost var before := s.db;
    var batch := s.TakeBatch();
    var commands := s.ProcessBatch(batch, dbUp, redis);
    BatchDone(batches, batch, before, dbUp, redis, sent, commands);
    OneMoreFlush(turns, n, batches, sent, acc, commands);
    acc' := Account(acc.at + [n], acc.ends + [|sent| + |commands|]);
    sent' := sent + commands;
    batches' := batches + [(batch, dbUp)];
  }

  lemma NothingReceived(turns: seq<Turn>)
    ensures Received(turns, 0, false) == [] && Flushed([]) == [] && ProcessAll([]) == EMPTY_LOG
            && UniqueKeys(EMPTY_LOG.db)
  {
  }

  lemma ReceivedStep(turns: seq<Turn>, n: nat)
    requires n < |turns|
    ensures Received(turns, n, true) == Received(turns, n, false) + turns[n].early
    ensures Received(turns, n + 1, false) == Received(turns, n, false) + (turns[n].early + turns[n].late)
  {
    assert turns[..n + 1][..n] == turns[..n];
  }

  lemma ValidTogether(a: seq<BatchItem>, b: seq<BatchItem>)
    requires AllValid(a) && AllValid(b)
    ensures AllValid([] + a + b)
  {
    hide ValidContext;
  }

  lemma BatchDone(batches: seq<(seq<BatchItem>, bool)>, batch: seq<BatchItem>, before: Database, dbUp: bool,
    redis: Pipelining,
                  sent: seq<Sent>, commands: seq<Sent>)
    requires before == ProcessAll(batches).db
    requires forall c | c in sent :: PublishedBy(ProcessAll(batches).committed, c)
    requires BatchSent(before, batch, dbUp, redis, commands)
    ensures Flushed(batches + [(batch, dbUp)]) == Flushed(batches) + batch
    ensures ProcessAll(batches + [(batch, dbUp)]).db ==
              if dbUp && Flush(before, batch).Committed? then Flush(before, batch).db else before
    ensures forall c | c in sent + commands :: PublishedBy(ProcessAll(batches + [(batch, dbUp)]).committed, c)
  {
    var next := batches + [(batch, dbUp)];
    assert next[..|batches|] == batches;
    var committed, nowCommitted := ProcessAll(batches).committed, ProcessAll(next).committed;
    assert nowCommitted == committed || nowCommitted == committed + batch;
    assert commands != [] ==> nowCommitted == committed + batch by { hide SentInParts; }
    hide ProcessAll, Flush;
    forall c | c in sent + commands ensures PublishedBy(nowCommitted, c) {
      if c in sent {
        StillPublished(committed, nowCommitted, c);
      } else {
        BatchPublishesItems(before, batch, dbUp, redis, commands, c);
        PublishedInTail(committed, batch, c);
      }
    }
  }

  lemma StillPublished(items: seq<BatchItem>, more: seq<BatchItem>, c: Sent)
    requires PublishedBy(items, c) && items <= more
    ensures PublishedBy(more, c)
  {
    var i :| 0 <= i < |items| && c in WirePipeline(items[i].req, items[i].ctx.jobId, items[i].ctx.naturalToUuid);
    assert more[i] == items[i];
  }

  lemma PublishedInTail(items: seq<BatchItem>, batch: seq<BatchItem>, c: Sent)
    requires PublishedBy(batch, c)
    ensures PublishedBy(items + batch, c)
  {
    var i :| 0 <= i < |batch| && c in WirePipeline(batch[i].req, batch[i].ctx.jobId, batch[i].ctx.naturalToUuid);
    assert (items + batch)[|items| + i] == batch[i];
  }

  lemma BatchPublishesItems(before: Database, batch: seq<BatchItem>, dbUp: bool, redis: Pipelining,
                            sent: seq<Sent>, c: Sent)
    requires BatchSent(before, batch, dbUp, redis, sent) && c in sent
    ensures PublishedBy(batch, c)
  {
    hide SentInParts, PublishedBy, Flush;
    var whole, cuts :| SentInParts(whole, cuts, batch) && sent <= whole;
    var k :| 0 <= k < |whole| && whole[k] == c;
    assert |cuts| == |batch| + 1 && cuts[|batch|] == |whole| by { CutsEnd(whole, cuts, batch); }
    PartOfItem(whole, cuts, batch, |batch|, k);
  }

  lemma CutsEnd(sent: seq<Sent>, cuts: seq<nat>, batch: seq<BatchItem>)
    requires SentInParts(sent, cuts, batch)
    ensures |cuts| == |batch| + 1 && cuts[|batch|] == |sent|
  {
  }

  lemma {:induction false} PartOfItem(sent: seq<Sent>, cuts: seq<nat>, batch: seq<BatchItem>, m: nat, k: nat)
    requires SentInParts(sent, cuts, batch) && m <= |batch| && k < cuts[m] && k < |sent|
    ensures PublishedBy(batch, sent[k])
  {
    hide WirePipeline, Meaning, Pipeline;
    if m > 0 {
      assert PartAt(sent, cuts, m - 1, batch[m - 1]);
      if k < cuts[m - 1] {
        PartOfItem(sent, cuts, batch, m - 1, k);
      } else {
        assert sent[k] == sent[cuts[m - 1]..cuts[m - 1 + 1]][k - cuts[m - 1]];
      }
    }
  }
}
