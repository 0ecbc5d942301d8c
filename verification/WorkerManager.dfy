/** The scheduler's worker table, and the least-loaded round-robin that books tasks on it. */
module WorkerManagement {
  import opened Graph

  datatype WorkerInfo = WorkerInfo(workerId: Id, address: string, lastHeartbeat: int, runningTaskCount: int)

  type Workers = map<Id, WorkerInfo>

  ghost predicate SortedByLoad(ws: seq<WorkerInfo>) {
    forall i, j | 0 <= i < j < |ws| :: ws[i].runningTaskCount <= ws[j].runningTaskCount
  }

  lemma InsertKeepsOrder(sorted: seq<WorkerInfo>, k: nat, w: WorkerInfo)
    requires SortedByLoad(sorted) && k <= |sorted|
    requires forall m | 0 <= m < k :: sorted[m].runningTaskCount <= w.runningTaskCount
    requires forall m | k <= m < |sorted| :: sorted[m].runningTaskCount > w.runningTaskCount
    ensures SortedByLoad(sorted[..k] + [w] + sorted[k..])
    ensures multiset(sorted[..k] + [w] + sorted[k..]) == multiset(sorted) + multiset{w}
  {
    assert sorted == sorted[..k] + sorted[k..];
  }

  method InsertByLoad(sorted: seq<WorkerInfo>, w: WorkerInfo) returns (r: seq<WorkerInfo>)
    requires SortedByLoad(sorted)
    ensures SortedByLoad(r) && multiset(r) == multiset(sorted) + multiset{w}
  {
    var k := 0;
    while k < |sorted| && sorted[k].runningTaskCount <= w.runningTaskCount
      invariant 0 <= k <= |sorted|
      invariant forall m | 0 <= m < k :: sorted[m].runningTaskCount <= w.runningTaskCount
    {
      k := k + 1;
    }
    InsertKeepsOrder(sorted, k, w);
    r := sorted[..k] + [w] + sorted[k..];
  }

  /** Stands for std::sort with the load comparison: some sorted permutation. */
  method SortByLoad(input: seq<WorkerInfo>) returns (sorted: seq<WorkerInfo>)
    ensures multiset(sorted) == multiset(input) && SortedByLoad(sorted)
  {
    sorted := [];
    for i := 0 to |input|
      invariant multiset(sorted) == multiset(input[..i]) && SortedByLoad(sorted)
    {
      sorted := InsertByLoad(sorted, input[i]);
      assert input[..i + 1] == input[..i] + [input[i]];
    }
    assert input[..|input|] == input;
  }

  function Ids(ws: seq<WorkerInfo>): seq<Id> {
    seq(|ws|, i requires 0 <= i < |ws| => ws[i].workerId)
  }

  predicate Alive(ws: Workers, timeout: int, now: int, id: Id) {
    id in ws && now - ws[id].lastHeartbeat <= timeout
  }

  /** A list of all live workers, each once, in which no one precedes a less loaded one. */
  ghost predicate IsSnapshot(ws: Workers, timeout: int, now: int, order: seq<Id>) {
    && NoDuplicates(order)
    && (forall id :: id in order <==> Alive(ws, timeout, now, id))
    && InLoadOrder(LoadsOf(ws), order)
  }

  class WorkerManager {
    var workers: Workers
    const timeout: int

    ghost predicate Valid()
      reads this
    {
      forall id | id in workers :: workers[id].workerId == id
    }

    constructor (seconds: int)
      ensures Valid() && workers == map[] && timeout == seconds
    {
      workers, timeout := map[], seconds;
    }

    method HandleRegister(id: Id, address: string, now: int)
      requires Valid()
      modifies this
      ensures Valid() && workers == old(workers)[id := WorkerInfo(id, address, now, 0)]
    {
      workers := workers[id := WorkerInfo(id, address, now, 0)];
    }

    /** Unknown workers are refused and told to register again. */
    method HandleHeartbeat(id: Id, count: int, now: int) returns (known: bool)
      requires Valid()
      modifies this
      ensures Valid() && known == (id in old(workers))
      ensures workers == if known then old(workers)[id := old(workers)[id].(lastHeartbeat := now,
              runningTaskCount := count)]
                         else old(workers)
    {
      known := id in workers;
      if known {
        workers := workers[id := workers[id].(lastHeartbeat := now, runningTaskCount := count)];
      }
    }

    /** Copies of the live workers, least loaded first; the order among equals is left open. */
    method GetAvailableWorkersSorted(now: int) returns (available: seq<WorkerInfo>)
      requires Valid()
      ensures SortedByLoad(available) && IsSnapshot(workers, timeout, now, Ids(available))
      ensures forall w | w in available :: w.workerId in workers && w == workers[w.workerId]
    {
      var found: seq<WorkerInfo> := [];
      var unseen := workers.Keys;
      while unseen != {}
        invariant unseen <= workers.Keys
        invariant forall w ::
                    w in found <==>
                      w.workerId in workers.Keys - unseen && Alive(workers, timeout, now, w.workerId)
                      && w == workers[w.workerId]
        invariant forall i, j | 0 <= i < j < |found| :: found[i] != found[j]
      {
        var id :| id in unseen;
        unseen := unseen - {id};
        if now - workers[id].lastHeartbeat <= timeout {
          found := found + [workers[id]];
        }
      }
      available := SortByLoad(found);
      PermutationFacts(found, available);
      forall id | Alive(workers, timeout, now, id) ensures id in Ids(available) {
        assert workers[id] in found;
        var i :| 0 <= i < |available| && available[i] == workers[id];
        assert Ids(available)[i] == id;
      }
      SnapshotInOrder(workers, available);
    }

    method PruneDeadWorkers(now: int) returns (dead: seq<Id>)
      requires Valid()
      modifies this
      ensures Valid()
      ensures workers == map id | id in old(workers) && now - old(workers)[id].lastHeartbeat <= timeout ::
              old(workers)[id]
      ensures NoDuplicates(dead) && forall id :: id in dead <==> id in old(workers) && id !in workers
    {
      dead := [];
      var unseen := workers.Keys;
      while unseen != {}
        invariant unseen <= old(workers).Keys && workers == old(workers)
        invariant NoDuplicates(dead)
        invariant forall id :: id in dead <==> id in workers.Keys - unseen && now - workers[id].lastHeartbeat > timeout
      {
        var id :| id in unseen;
        unseen := unseen - {id};
        if now - workers[id].lastHeartbeat > timeout {
          dead := dead + [id];
        }
      }
      workers := map id | id in workers && now - workers[id].lastHeartbeat <= timeout :: workers[id];
    }

    method PrebookTask(id: Id, count: int)
      requires Valid()
      modifies this
      ensures Valid()
      ensures workers == if id in old(workers)
                         then var worker := old(workers)[id];
                              old(workers)[id := worker.(runningTaskCount := worker.runningTaskCount + count)]
                         else old(workers)
    {
      if id in workers {
        workers := workers[id := workers[id].(runningTaskCount := workers[id].runningTaskCount + count)];
      }
    }
  }

  lemma PermutationFacts(a: seq<WorkerInfo>, b: seq<WorkerInfo>)
    requires multiset(a) == multiset(b)
    requires forall i, j | 0 <= i < j < |a| :: a[i] != a[j]
    ensures forall w :: w in a <==> w in b
    ensures forall i, j | 0 <= i < j < |b| :: b[i] != b[j]
  {
    assert forall w :: w in a <==> w in multiset(a);
    assert forall w :: w in b <==> w in multiset(b);
    forall i, j | 0 <= i < j < |b| ensures b[i] != b[j] {
      if b[i] == b[j] {
        Twice(b, i, j);
        Once(a, b[i]);
        assert false;
      }
    }
  }

  lemma Twice(s: seq<WorkerInfo>, i: nat, j: nat)
    requires i < j < |s| && s[i] == s[j]
    ensures multiset(s)[s[i]] >= 2
  {
    assert s == s[..j] + [s[j]] + s[j + 1..];
    assert s[i] in s[..j];
  }

  lemma {:induction false} Once(s: seq<WorkerInfo>, w: WorkerInfo)
    requires forall i, j | 0 <= i < j < |s| :: s[i] != s[j]
    ensures multiset(s)[w] <= 1
  {
    if s != [] {
      var m := |s| - 1;
      Once(s[..m], w);
      assert s == s[..m] + [s[m]];
      assert s[m] !in s[..m];
    }
  }

  // ---------------------------------------------------------------- round robin

  type Loads = map<Id, int>

  function HeartbeatsOf(ws: Workers): map<Id, int> {
    map id | id in ws :: ws[id].lastHeartbeat
  }

  function LoadsOf(ws: Workers): Loads {
    map id | id in ws :: ws[id].runningTaskCount
  }

  /** How many of `m` tasks dealt out in turn to `n` workers reach position i. */
  function Share(m: nat, n: nat, i: nat): nat
    requires n > 0
  {
    m / n + if i < m % n then 1 else 0
  }

  lemma ShareGrows(m: nat, n: nat, i: nat)
    requires i < n
    ensures Share(m + 1, n, i) == Share(m, n, i) + if i == m % n then 1 else 0
  {
    if m % n + 1 < n {
      assert m + 1 == n * (m / n) + (m % n + 1);
      DivMod(m + 1, n, m / n, m % n + 1);
    } else {
      assert m + 1 == n * (m / n + 1) by { assert m + 1 == n * (m / n) + n; }
      DivMod(m + 1, n, m / n + 1, 0);
    }
  }

  lemma AtLeastOnce(n: int, d: int)
    requires n > 0 && d > 0
    ensures n * d >= n
  {
  }

  lemma DivMod(a: nat, n: nat, q: nat, r: nat)
    requires n > 0 && a == n * q + r && r < n
    ensures a / n == q && a % n == r
  {
    var q', r' := a / n, a % n;
    assert a == n * q' + r';
    assert n * (q' - q) == n * q' - n * q == r - r';
    if q' > q { AtLeastOnce(n, q' - q); }
    assert n * (q - q') == -(n * (q' - q));
    if q' < q { AtLeastOnce(n, q - q'); }
  }

  /** The worker the m-th task of a round goes to. */
  function Turn(order: seq<Id>, m: nat): Id
    requires order != []
  {
    order[m % |order|]
  }

  function Booked(loads: Loads, order: seq<Id>, m: nat): Loads
    requires order != []
  {
    map w | w in loads :: loads[w] + if w in order then Share(m, |order|, FirstIndex(order, w)) else 0
  }

  lemma BookOne(loads: Loads, order: seq<Id>, m: nat)
    requires order != [] && NoDuplicates(order) && forall w | w in order :: w in loads
    ensures Turn(order, m) in loads
    ensures Booked(loads, order, m + 1) == Booked(loads, order, m)[Turn(order, m) := Booked(loads, order,
            m)[Turn(order, m)] + 1]
  {
    var n := |order|;
    var w := order[m % n];
    assert FirstIndex(order, w) == m % n;
    forall v | v in order ensures Share(m + 1, n, FirstIndex(order, v)) ==
      Share(m, n, FirstIndex(order, v)) + if v == w then 1 else 0 {
      ShareGrows(m, n, FirstIndex(order, v));
    }
  }

  ghost predicate InLoadOrder(loads: Loads, order: seq<Id>) {
    && (forall w | w in order :: w in loads)
    && forall i, j | 0 <= i < j < |order| :: loads[order[i]] <= loads[order[j]]
  }

  /** The booking half of the scheduler's dispatch loop: `valid` says which stream entries parse and have
      metadata; the others are skipped without moving on to the next worker. */
  method DispatchBatch(manager: WorkerManager, valid: seq<bool>, now: int)
    returns (targets: seq<Id>, ghost order: seq<Id>)
    requires manager.Valid()
    modifies manager
    ensures manager.Valid()
    ensures IsSnapshot(old(manager.workers), manager.timeout, now, order)
    ensures order == [] ==> targets == [] && manager.workers == old(manager.workers)
    ensures order != [] ==> LoadsOf(manager.workers) == Booked(LoadsOf(old(manager.workers)), order, |targets|)
    ensures HeartbeatsOf(manager.workers) == HeartbeatsOf(old(manager.workers))
    ensures order != [] ==> |targets| == multiset(valid)[true]
    ensures order != [] ==> forall k | 0 <= k < |targets| :: targets[k] == Turn(order, k)
  {
    targets := [];
    var workers := manager.GetAvailableWorkersSorted(now);
    order := Ids(workers);
    if |workers| == 0 {
      return;
    }
    BookNothing(LoadsOf(manager.workers), order);
    targets := BookInTurn(manager, workers, valid);
  }

  /** The workers take turns at the valid entries. */
  method BookInTurn(manager: WorkerManager, workers: seq<WorkerInfo>, valid: seq<bool>) returns (targets: seq<Id>)
    requires manager.Valid() && |workers| > 0 && NoDuplicates(Ids(workers))
             && InLoadOrder(LoadsOf(manager.workers), Ids(workers))
    modifies manager
    ensures manager.Valid() && HeartbeatsOf(manager.workers) == HeartbeatsOf(old(manager.workers))
    ensures LoadsOf(manager.workers) == Booked(LoadsOf(old(manager.workers)), Ids(workers), |targets|)
    ensures |targets| == multiset(valid)[true]
    ensures forall k | 0 <= k < |targets| :: targets[k] == Turn(Ids(workers), k)
  {
    targets := [];
    ghost var before, order := LoadsOf(manager.workers), Ids(workers);
    var workerIdx := 0;
    BookNothing(before, order);
    hide Booked, InLoadOrder, Turn, LoadsOf, HeartbeatsOf, FirstIndex, NoDuplicates, Ids;
    for k := 0 to |valid|
      invariant manager.Valid()
      invariant workerIdx == |targets| == multiset(valid[..k])[true]
      invariant LoadsOf(manager.workers) == Booked(before, order, |targets|)
      invariant HeartbeatsOf(manager.workers) == HeartbeatsOf(old(manager.workers))
      invariant forall i | 0 <= i < |targets| :: targets[i] == Turn(order, i)
    {
      CountOne(valid, k);
      if valid[k] {
        var selected := BookNext(manager, workers, workerIdx, before);
        workerIdx := workerIdx + 1;
        targets := targets + [selected];
      }
    }
    assert valid[..|valid|] == valid;
  }

  lemma CountOne(valid: seq<bool>, k: nat)
    requires k < |valid|
    ensures multiset(valid[..k + 1])[true] == multiset(valid[..k])[true] + if valid[k] then 1 else 0
  {
    assert valid[..k + 1] == valid[..k] + [valid[k]];
  }

  /** Picks the worker whose turn it is and books the task on it. */
  method BookNext(manager: WorkerManager, workers: seq<WorkerInfo>, workerIdx: nat, ghost before: Loads)
    returns (selected: Id)
    requires manager.Valid() && |workers| > 0 && NoDuplicates(Ids(workers)) && InLoadOrder(before, Ids(workers))
    requires LoadsOf(manager.workers) == Booked(before, Ids(workers), workerIdx)
    modifies manager
    ensures manager.Valid() && selected == Turn(Ids(workers), workerIdx)
    ensures LoadsOf(manager.workers) == Booked(before, Ids(workers), workerIdx + 1)
    ensures HeartbeatsOf(manager.workers) == HeartbeatsOf(old(manager.workers))
  {
    var worker := workers[workerIdx % |workers|];
    selected := worker.workerId;
    assert selected == Turn(Ids(workers), workerIdx);
    BookOne(before, Ids(workers), workerIdx);
    assert selected in manager.workers by {
      assert LoadsOf(manager.workers).Keys == manager.workers.Keys
             && Booked(before, Ids(workers), workerIdx).Keys == before.Keys;
    }
    hide Booked, Turn, InLoadOrder;
    LoadsAfterBooking(manager.workers, selected);
    manager.PrebookTask(selected, 1);
  }

  lemma LoadsAfterBooking(ws: Workers, id: Id)
    requires id in ws
    ensures LoadsOf(ws[id := ws[id].(runningTaskCount := ws[id].runningTaskCount + 1)]) ==
            LoadsOf(ws)[id := LoadsOf(ws)[id] + 1]
    ensures HeartbeatsOf(ws[id := ws[id].(runningTaskCount := ws[id].runningTaskCount + 1)]) == HeartbeatsOf(ws)
  {
  }

  lemma SnapshotInOrder(ws: Workers, list: seq<WorkerInfo>)
    requires SortedByLoad(list) && forall w | w in list :: w.workerId in ws && w == ws[w.workerId]
    ensures InLoadOrder(LoadsOf(ws), Ids(list))
  {
    forall i | 0 <= i < |list| ensures Ids(list)[i] in ws && ws[Ids(list)[i]] == list[i] {
      assert list[i] in list;
    }
  }

  lemma BookNothing(loads: Loads, order: seq<Id>)
    requires order != []
    ensures Booked(loads, order, 0) == loads
  {
  }

  /** A rescued entry goes to the least loaded worker: a round of one task. */
  method RescueOne(manager: WorkerManager, now: int) returns (targets: seq<Id>, ghost order: seq<Id>)
    requires manager.Valid()
    modifies manager
    ensures manager.Valid()
    ensures IsSnapshot(old(manager.workers), manager.timeout, now, order)
    ensures order == [] ==> targets == [] && manager.workers == old(manager.workers)
    ensures order != [] ==>
              targets == [order[0]] && LoadsOf(manager.workers) == Booked(LoadsOf(old(manager.workers)), order, 1)
    ensures HeartbeatsOf(manager.workers) == HeartbeatsOf(old(manager.workers))
  {
    var workers := manager.GetAvailableWorkersSorted(now);
    order := Ids(workers);
    if |workers| == 0 {
      return [], order;
    }
    BookNothing(LoadsOf(manager.workers), order);
    BookOne(LoadsOf(manager.workers), order, 0);
    manager.PrebookTask(workers[0].workerId, 1);
    return [workers[0].workerId], order;
  }

  // ---------------------------------------------------------------- load balance

  ghost predicate SpreadAtMost(loads: Loads, bound: int) {
    forall a, b | a in loads && b in loads :: loads[a] - loads[b] <= bound
  }

  /** Any order of the live workers in which no one precedes a less loaded one. */
  ghost predicate LeastLoadedFirst(loads: Loads, order: seq<Id>) {
    NoDuplicates(order) && (forall w | w in loads :: w in order) && InLoadOrder(loads, order)
  }

  /** With all registered workers live, every snapshot the manager hands out is such an order. */
  lemma LiveSnapshotIsLeastLoadedFirst(ws: Workers, timeout: int, now: int, order: seq<Id>)
    requires IsSnapshot(ws, timeout, now, order) && forall id | id in ws :: Alive(ws, timeout, now, id)
    ensures LeastLoadedFirst(LoadsOf(ws), order)
  {
  }

  /** One round of any size keeps the spread, however ties are broken. */
  lemma RoundKeepsSpread(loads: Loads, order: seq<Id>, m: nat, bound: int)
    requires order != [] && LeastLoadedFirst(loads, order) && SpreadAtMost(loads, bound) && bound >= 1
    ensures SpreadAtMost(Booked(loads, order, m), bound)
  {
    var after := Booked(loads, order, m);
    forall a, b | a in after && b in after ensures after[a] - after[b] <= bound {
      var i, j := FirstIndex(order, a), FirstIndex(order, b);
      if Share(m, |order|, i) > Share(m, |order|, j) {
        assert i < j;
        assert loads[order[i]] <= loads[order[j]];
      }
    }
  }

  /** The loads after a run of dispatch batches and rescues. */
  function AfterRounds(loads: Loads, rounds: seq<(seq<Id>, nat)>): Loads {
    if rounds == [] then loads else
    var last := rounds[|rounds| - 1];
    var before := AfterRounds(loads, rounds[..|rounds| - 1]);
    if last.0 == [] then before else Booked(before, last.0, last.1)
  }

  /** Over any run on a fixed set of live workers without heartbeats, the spread of booked load never
      exceeds the larger of 1 and what it was at the start; from equal loads it stays within one. */
  lemma {:induction false} LoadStaysBalanced(loads: Loads, rounds: seq<(seq<Id>, nat)>, bound: int)
    requires SpreadAtMost(loads, bound)
    requires forall k | 0 <= k < |rounds| :: LeastLoadedFirst(AfterRounds(loads, rounds[..k]), rounds[k].0)
    ensures SpreadAtMost(AfterRounds(loads, rounds), if bound > 1 then bound else 1)
  {
    if rounds != [] {
      var m := |rounds| - 1;
      assert forall k | 0 <= k < m :: rounds[..m][..k] == rounds[..k];
      LoadStaysBalanced(loads, rounds[..m], bound);
      if rounds[m].0 != [] {
        RoundKeepsSpread(AfterRounds(loads, rounds[..m]), rounds[m].0, rounds[m].1, if bound > 1 then bound else 1);
      }
    }
  }

  /** One turn of the scheduler: a batch of stream entries, or a rescued entry. */
  datatype Work = Batch(valid: seq<bool>, now: int) | Rescue(now: int)

  /** Nobody's heartbeat is too old at any turn. */
  ghost predicate LiveThroughout(ws: Workers, timeout: int, work: seq<Work>) {
    forall k, id | 0 <= k < |work| && id in HeartbeatsOf(ws) :: work[k].now - HeartbeatsOf(ws)[id] <= timeout
  }

  lemma LiveNow(ws: Workers, timeout: int, work: seq<Work>, k: nat)
    requires LiveThroughout(ws, timeout, work) && k < |work|
    ensures forall id | id in ws :: Alive(ws, timeout, work[k].now, id)
  {
    forall id | id in ws ensures Alive(ws, timeout, work[k].now, id) {
      assert id in HeartbeatsOf(ws);
    }
  }

  lemma RoundStaysBalanced(ws: Workers, after: Workers, timeout: int, now: int, order: seq<Id>, m: nat, bound: int)
    requires IsSnapshot(ws, timeout, now, order) && forall id | id in ws :: Alive(ws, timeout, now, id)
    requires order != [] && LoadsOf(after) == Booked(LoadsOf(ws), order, m)
    requires SpreadAtMost(LoadsOf(ws), bound) && bound >= 1
    ensures SpreadAtMost(LoadsOf(after), bound)
  {
    LiveSnapshotIsLeastLoadedFirst(ws, timeout, now, order);
    RoundKeepsSpread(LoadsOf(ws), order, m, bound);
  }

  /** The scheduler at work on a fixed set of live workers, between two heartbeats: whatever batches and
      rescues come, the booked loads of any two workers differ by at most 1, or by what they differed at the
      start if that was more. */
  method RunRounds(manager: WorkerManager, work: seq<Work>, ghost bound: int)
    requires manager.Valid() && SpreadAtMost(LoadsOf(manager.workers), bound)
    requires LiveThroughout(manager.workers, manager.timeout, work)
    modifies manager
    ensures manager.Valid() && HeartbeatsOf(manager.workers) == HeartbeatsOf(old(manager.workers))
    ensures SpreadAtMost(LoadsOf(manager.workers), if bound > 1 then bound else 1)
  {
    ghost var limit := if bound > 1 then bound else 1;
    hide IsSnapshot, Booked, LoadsOf, HeartbeatsOf, Turn, Alive;
    for k := 0 to |work|
      invariant manager.Valid() && HeartbeatsOf(manager.workers) == HeartbeatsOf(old(manager.workers))
      invariant SpreadAtMost(LoadsOf(manager.workers), limit)
    {
      ghost var before := manager.workers;
      LiveNow(before, manager.timeout, work, k);
      var targets;
      ghost var order;
      match work[k] {
        case Batch(valid, now) => targets, order := DispatchBatch(manager, valid, now);
        case Rescue(now) => targets, order := RescueOne(manager, now);
      }
      if order != [] {
        RoundStaysBalanced(before, manager.workers, manager.timeout, work[k].now, order, |targets|, limit);
      }
    }
  }
}
