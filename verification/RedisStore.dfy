/** The part of Redis the scheduler uses, and the completion script that runs inside it. */
module RedisStore {
  import opened Graph

  /** Entries of the task stream. The API server and the retry path write the fields `id`/`job`, the
      script writes `task_id`/`job_id`; the reader accepts both spellings. */
  datatype Entry = Pointer(task: Id, job: Id) | ScriptPointer(task: Id, job: Id)

  datatype ErrorEntry = MissingMeta(job: Id, task: Id) | NegativeDeps(job: Id, task: Id, current: int)

  /** One field of one dependency hash. A Redis hash without fields does not exist, so a map from fields
      to counters describes all hashes at once. */
  datatype Field = Field(job: Id, task: Id)

  datatype Keyspace = Keyspace(children: map<Id, set<Id>>, deps: map<Field, int>, meta: set<Id>,
                               tasks: seq<Entry>, errors: seq<ErrorEntry>)
  {
    /** SMEMBERS: a missing key reads as the empty set. */
    function Members(parent: Id): set<Id> {
      if parent in children then children[parent] else {}
    }

    /** What HINCRBY starts from: a missing field reads as zero. */
    function Count(f: Field): int {
      if f in deps then deps[f] else 0
    }
  }

  const EMPTY_KEYSPACE := Keyspace(map[], map[], {}, [], [])

  datatype Command =
    | SAdd(parent: Id, child: Id)
    | SetMeta(task: Id)
    | HSet(job: Id, task: Id, pending: nat)
    | XAdd(task: Id, job: Id)

  function Execute(ks: Keyspace, cmd: Command): Keyspace {
    match cmd
    case SAdd(p, c) => ks.(children := ks.children[p := ks.Members(p) + {c}])
    case SetMeta(t) => ks.(meta := ks.meta + {t})
    case HSet(j, t, n) => ks.(deps := ks.deps[Field(j, t) := n])
    case XAdd(t, j) => ks.(tasks := ks.tasks + [Pointer(t, j)])
  }

  /** One round of the script's loop over the children. */
  function Visit(ks: Keyspace, job: Id, child: Id): Keyspace {
    var f := Field(job, child);
    var remain := ks.Count(f) - 1;
    if remain == 0 && child in ks.meta then
      ks.(deps := ks.deps - {f}, tasks := ks.tasks + [ScriptPointer(child, job)])
    else if remain == 0 then
      ks.(deps := ks.deps[f := 0], errors := ks.errors + [MissingMeta(job, child)])
    else if remain < 0 then
      ks.(deps := ks.deps[f := remain], errors := ks.errors + [NegativeDeps(job, child, remain)])
    else
      ks.(deps := ks.deps[f := remain])
  }

  function VisitAll(ks: Keyspace, job: Id, order: seq<Id>): Keyspace {
    if order == [] then ks else
    Visit(VisitAll(ks, job, order[..|order| - 1]), job, order[|order| - 1])
  }

  ghost predicate IsEnumeration(order: seq<Id>, members: set<Id>) {
    NoDuplicates(order) && forall x :: x in order <==> x in members
  }

  /** The whole script; SMEMBERS returns the members in some order. */
  function CompleteTask(ks: Keyspace, task: Id, job: Id, order: seq<Id>): Keyspace {
    if ks.Members(task) == {} then ks else
    var visited := VisitAll(ks, job, order);
    visited.(children := visited.children - {task})
  }

  predicate Triggers(ks: Keyspace, job: Id, child: Id) {
    ks.Count(Field(job, child)) == 1 && child in ks.meta
  }

  /** What visiting the children does, whatever the order: each counter of a visited child drops by one
      and disappears when that releases the child, each released child gets one stream entry, errors
      appear exactly for counters that were not positive or children without metadata. */
  ghost predicate VisitEffect(ks: Keyspace, after: Keyspace, job: Id, order: seq<Id>) {
    && after.children == ks.children && after.meta == ks.meta
    && CountersVisited(ks, after, job, order)
    && (forall e :: multiset(after.tasks)[e] == multiset(ks.tasks)[e] + Pushes(ks, job, order, e))
    && ErrorsVisited(ks, after, job, order)
  }

  ghost predicate CountersVisited(ks: Keyspace, after: Keyspace, job: Id, order: seq<Id>) {
    && (forall f :: f in after.deps <==>
          if f.job == job && f.task in order then !Triggers(ks, job, f.task) else f in ks.deps)
    && (forall f | f in after.deps ::
          after.deps[f] == ks.Count(f) - if f.job == job && f.task in order then 1 else 0)
  }

  /** The error entry a visit writes, if any. */
  function ErrorOf(ks: Keyspace, job: Id, child: Id): seq<ErrorEntry> {
    var n := ks.Count(Field(job, child));
    if n == 1 && child !in ks.meta then [MissingMeta(job, child)]
    else if n < 1 then [NegativeDeps(job, child, n - 1)]
    else []
  }

  function ErrorsOf(ks: Keyspace, job: Id, order: seq<Id>): seq<ErrorEntry> {
    if order == [] then [] else
    ErrorsOf(ks, job, order[..|order| - 1]) + ErrorOf(ks, job, order[|order| - 1])
  }

  /** One entry for each failing child, in the order of the visits, and nothing else. */
  ghost predicate ErrorsVisited(ks: Keyspace, after: Keyspace, job: Id, order: seq<Id>) {
    && after.errors == ks.errors + ErrorsOf(ks, job, order)
    && (after.errors == [] <==>
          ks.errors == [] && forall c | c in order :: ks.Count(Field(job, c)) > 1 || Triggers(ks, job, c))
    && (forall x | x in after.errors :: x in ks.errors || x.NegativeDeps?
          || (x.task in order && ks.Count(Field(job, x.task)) == 1 && x.task !in ks.meta))
  }

  function Pushes(ks: Keyspace, job: Id, order: seq<Id>, e: Entry): nat {
    if e.ScriptPointer? && e.job == job && e.task in order && Triggers(ks, job, e.task) then 1 else 0
  }

  lemma {:induction false} VisitAllEffect(ks: Keyspace, job: Id, order: seq<Id>)
    requires NoDuplicates(order)
    ensures VisitEffect(ks, VisitAll(ks, job, order), job, order)
  {
    if order == [] {
      VisitNone(ks, job);
    } else {
      var m := |order| - 1;
      var init := order[..m];
      assert order == init + [order[m]];
      assert order[m] !in init;
      VisitAllEffect(ks, job, init);
      VisitOneMore(ks, VisitAll(ks, job, init), job, init, order[m]);
    }
  }

  lemma VisitNone(ks: Keyspace, job: Id)
    ensures VisitEffect(ks, ks, job, [])
  {
  }

  lemma VisitOneMore(ks: Keyspace, mid: Keyspace, job: Id, visited: seq<Id>, child: Id)
    requires VisitEffect(ks, mid, job, visited) && child !in visited
    ensures VisitEffect(ks, Visit(mid, job, child), job, visited + [child])
  {
    var f := Field(job, child);
    assert mid.Count(f) == ks.Count(f);
    assert Triggers(mid, job, child) <==> Triggers(ks, job, child);
    assert forall c :: c in visited + [child] <==> c in visited || c == child;
    CountersAfterVisit(ks, mid, job, visited, child);
    ErrorsAfterVisit(ks, mid, job, visited, child);
    PushesAfterVisit(ks, mid, job, visited, child);
    VisitKeepsRest(mid, job, child);
    hide CountersVisited, ErrorsVisited, Pushes, Visit, Triggers;
  }

  lemma VisitKeepsRest(ks: Keyspace, job: Id, child: Id)
    ensures Visit(ks, job, child).children == ks.children && Visit(ks, job, child).meta == ks.meta
  {
  }

  lemma PushesAfterVisit(ks: Keyspace, mid: Keyspace, job: Id, visited: seq<Id>, child: Id)
    requires forall e :: multiset(mid.tasks)[e] == multiset(ks.tasks)[e] + Pushes(ks, job, visited, e)
    requires child !in visited && (Triggers(mid, job, child) <==> Triggers(ks, job, child))
    ensures forall e ::
              multiset(Visit(mid, job, child).tasks)[e] == multiset(ks.tasks)[e] + Pushes(ks, job, visited + [child], e)
  {
    var after := Visit(mid, job, child);
    assert after.tasks == if Triggers(mid, job, child) then mid.tasks + [ScriptPointer(child, job)] else mid.tasks;
    hide Visit, Triggers;
  }

  lemma CountersAfterVisit(ks: Keyspace, mid: Keyspace, job: Id, visited: seq<Id>, child: Id)
    requires CountersVisited(ks, mid, job, visited) && child !in visited && mid.meta == ks.meta
    requires mid.Count(Field(job, child)) == ks.Count(Field(job, child))
    ensures CountersVisited(ks, Visit(mid, job, child), job, visited + [child])
  {
  }

  lemma ErrorsAfterVisit(ks: Keyspace, mid: Keyspace, job: Id, visited: seq<Id>, child: Id)
    requires ErrorsVisited(ks, mid, job, visited) && child !in visited && mid.meta == ks.meta
    requires mid.Count(Field(job, child)) == ks.Count(Field(job, child))
    ensures ErrorsVisited(ks, Visit(mid, job, child), job, visited + [child])
  {
    assert (visited + [child])[..|visited|] == visited;
    assert forall c :: c in visited + [child] <==> c in visited || c == child;
  }

  class Redis {
    var ks: Keyspace

    constructor ()
      ensures ks == EMPTY_KEYSPACE
    {
      ks := EMPTY_KEYSPACE;
    }

    method SMembers(key: Id) returns (members: seq<Id>)
      ensures IsEnumeration(members, ks.Members(key))
    {
      members := [];
      var rest := ks.Members(key);
      while rest != {}
        invariant rest <= ks.Members(key)
        invariant IsEnumeration(members, ks.Members(key) - rest)
      {
        var x :| x in rest;
        rest := rest - {x};
        members := members + [x];
      }
    }

    method HIncrBy(f: Field, delta: int) returns (value: int)
      modifies this
      ensures value == old(ks).Count(f) + delta && ks == old(ks).(deps := old(ks).deps[f := value])
    {
      value := ks.Count(f) + delta;
      ks := ks.(deps := ks.deps[f := value]);
    }

    /** The Lua script. Runs atomically: Redis executes no other command in between. */
    method RunCompletionScript(task: Id, job: Id) returns (triggered: nat, ghost order: seq<Id>)
      modifies this
      ensures IsEnumeration(order, old(ks).Members(task))
      ensures ks == CompleteTask(old(ks), task, job, order)
      ensures old(ks).Members(task) != {} ==> VisitEffect(old(ks), ks.(children := old(ks).children), job, order)
      ensures |ks.tasks| == |old(ks).tasks| + triggered
    {
      var children := SMembers(task);
      order := children;
      if |children| == 0 {
        assert forall c | c in ks.Members(task) :: c in children;
        return 0, order;
      }
      assert children[0] in ks.Members(task);
      triggered := 0;
      for i := 0 to |children|
        invariant ks == VisitAll(old(ks), job, children[..i])
        invariant |ks.tasks| == |old(ks).tasks| + triggered
      {
        var childId := children[i];
        assert children[..i + 1][..i] == children[..i];
        var remain := HIncrBy(Field(job, childId), -1);
        if remain == 0 {
          if childId in ks.meta {
            ks := ks.(tasks := ks.tasks + [ScriptPointer(childId, job)]);
            triggered := triggered + 1;
            ks := ks.(deps := ks.deps - {Field(job, childId)});
            assert ks.deps == VisitAll(old(ks), job, children[..i]).deps - {Field(job, childId)};
          } else {
            ks := ks.(errors := ks.errors + [MissingMeta(job, childId)]);
          }
        } else if remain < 0 {
          ks := ks.(errors := ks.errors + [NegativeDeps(job, childId, remain)]);
        }
      }
      assert children[..|children|] == children;
      VisitAllEffect(old(ks), job, children);
      ks := ks.(children := ks.children - {task});
    }
  }
}
