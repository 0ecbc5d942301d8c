/** The API server's task submitter: requests are queued, written to PostgreSQL in batches and then
    published to Redis through a pipeline. */
module Submitter {
  import opened Graph
  import opened Requests
  import opened RedisStore
  import opened DagEngine
  import opened PostgresStore
  import opened CommittedBatches

  // ------------------------------------------------------------ publishing to Redis

  /** unordered_map::at, with "" for the exception. */
  function Uuid(ctx: Context, n: Id): Id {
    if n in ctx.naturalToUuid then ctx.naturalToUuid[n] else ""
  }

  function UuidEdges(ctx: Context, edges: seq<Edge>): seq<Edge> {
    seq(|edges|, i requires 0 <= i < |edges| => Edge(Uuid(ctx, edges[i].parent), Uuid(ctx, edges[i].child)))
  }

  /** The job as the DAG engine sees it: UUIDs instead of natural ids. */
  function PublishedJob(item: BatchItem): Job {
    Job(seq(|item.req.tasks|, i requires 0 <= i < |item.req.tasks| => Uuid(item.ctx, item.req.tasks[i].naturalId)),
        UuidEdges(item.ctx, item.req.edges))
  }

  lemma {:induction false} InDegreeSurvivesRenaming(ctx: Context, edges: seq<Edge>, n: Id)
    requires InjectiveOn(ctx.naturalToUuid, ctx.naturalToUuid.Keys) && n in ctx.naturalToUuid
    requires forall i | 0 <= i < |edges| :: edges[i].parent in ctx.naturalToUuid && edges[i].child in ctx.naturalToUuid
    ensures InDegree(UuidEdges(ctx, edges), Uuid(ctx, n)) == InDegree(edges, n)
  {
    if edges != [] {
      var m := |edges| - 1;
      assert UuidEdges(ctx, edges)[..m] == UuidEdges(ctx, edges[..m]);
      InDegreeSurvivesRenaming(ctx, edges[..m], n);
    }
  }

  // ------------------------------------------------------------ the commands on the wire

  /** What is sent: a command the engine depends on, the metadata of a task, or a lifetime for a key. */
  datatype Sent =
    | Effect(command: Command)
    | Payload(task: Id, job: Id, spec: TaskSpec)
    | ExpireChildren(parent: Id)
    | ExpireCounters(job: Id)

  function UuidIn(uuids: map<Id, Id>, n: Id): Id {
    if n in uuids then uuids[n] else ""
  }

  function ParentUuids(edges: seq<Edge>, uuids: map<Id, Id>): set<Id> {
    set e | e in edges :: UuidIn(uuids, e.parent)
  }

  /** One SADD for each edge, and a lifetime for each children set when it occurs first. */
  function EdgeCommands(edges: seq<Edge>, uuids: map<Id, Id>): seq<Sent> {
    if edges == [] then [] else
    var rest, last := edges[..|edges| - 1], edges[|edges| - 1];
    var parent := UuidIn(uuids, last.parent);
    EdgeCommands(rest, uuids) + [Effect(SAdd(parent, UuidIn(uuids, last.child)))]
    + if parent in ParentUuids(rest, uuids) then [] else [ExpireChildren(parent)]
  }

  /** For each task its metadata, and then its counter or its first stream entry. */
  function TaskCommands(tasks: seq<TaskSpec>, edges: seq<Edge>, job: Id, uuids: map<Id, Id>): seq<Sent> {
    if tasks == [] then [] else
    var task := tasks[|tasks| - 1];
    TaskCommands(tasks[..|tasks| - 1], edges, job, uuids)
    + [Payload(UuidIn(uuids, task.naturalId), job, task), Effect(StartCommand(task.naturalId, edges, job, uuids))]
  }

  function StartCommand(n: Id, edges: seq<Edge>, job: Id, uuids: map<Id, Id>): Command {
    if InDegree(edges, n) > 0 then HSet(job, UuidIn(uuids, n), InDegree(edges, n)) else XAdd(UuidIn(uuids, n), job)
  }

  function WirePipeline(req: Request, job: Id, uuids: map<Id, Id>): seq<Sent> {
    EdgeCommands(req.edges, uuids) + TaskCommands(req.tasks, req.edges, job, uuids)
    + if req.edges != [] then [ExpireCounters(job)] else []
  }

  /** What the engine makes of the commands: metadata counts as present, lifetimes do not matter. */
  function Meaning(sent: seq<Sent>): seq<Command> {
    if sent == [] then [] else
    Meaning(sent[..|sent| - 1])
    + match sent[|sent| - 1]
      case Effect(c) => [c]
      case Payload(t, _, _) => [SetMeta(t)]
      case _ => []
  }

  lemma {:induction false} MeaningOfBoth(a: seq<Sent>, b: seq<Sent>)
    ensures Meaning(a + b) == Meaning(a) + Meaning(b)
  {
    if b == [] {
      assert a + b == a;
    } else {
      var m := |b| - 1;
      assert (a + b)[..|a + b| - 1] == a + b[..m];
      MeaningOfBoth(a, b[..m]);
    }
  }

  lemma MeaningOfOne(x: Sent)
    ensures Meaning([x]) == match x case Effect(c) => [c] case Payload(t, _, _) => [SetMeta(t)] case _ => []
  {
    assert [x][..0] == [] && Meaning([]) == [];
  }

  lemma PipelineStep(j: Id, d: Job, i: nat)
    requires i < CommandCount(d)
    ensures |Pipeline(j, d)| == CommandCount(d) && Pipeline(j, d)[i] == CommandAt(j, d, i)
    ensures Pipeline(j, d)[..i + 1] == Pipeline(j, d)[..i] + [CommandAt(j, d, i)]
  {
  }

  lemma EdgeCommand(item: BatchItem, i: nat)
    requires i < |item.req.edges|
    ensures |PublishedJob(item).edges| == |item.req.edges|
    ensures CommandAt(item.ctx.jobId, PublishedJob(item), i) ==
              SAdd(UuidIn(item.ctx.naturalToUuid, item.req.edges[i].parent), UuidIn(item.ctx.naturalToUuid,
                item.req.edges[i].child))
  {
  }

  lemma OneMoreEdge(edges: seq<Edge>, uuids: map<Id, Id>, i: nat)
    requires i < |edges|
    ensures var parent := UuidIn(uuids, edges[i].parent);
            && EdgeCommands(edges[..i + 1], uuids) ==
                 EdgeCommands(edges[..i], uuids) + [Effect(SAdd(parent, UuidIn(uuids, edges[i].child)))]
                 + (if parent in ParentUuids(edges[..i], uuids) then [] else [ExpireChildren(parent)])
            && ParentUuids(edges[..i + 1], uuids) == ParentUuids(edges[..i], uuids) + {parent}
  {
    assert edges[..i + 1][..i] == edges[..i] && edges[..i + 1] == edges[..i] + [edges[i]];
    hide UuidIn;
  }

  lemma NothingMeansNothing()
    ensures Meaning([]) == []
  {
  }

  lemma EdgeMeans(edges: seq<Edge>, uuids: map<Id, Id>, i: nat)
    requires i < |edges|
    ensures Meaning(EdgeCommands(edges[..i + 1], uuids)) ==
              Meaning(EdgeCommands(edges[..i], uuids)) + [SAdd(UuidIn(uuids, edges[i].parent), UuidIn(uuids,
                edges[i].child))]
  {
    OneMoreEdge(edges, uuids, i);
    NothingMeansNothing();
    hide EdgeCommands, Meaning, ParentUuids, UuidIn;
    var parent := UuidIn(uuids, edges[i].parent);
    var before, one := EdgeCommands(edges[..i], uuids), [Effect(SAdd(parent, UuidIn(uuids, edges[i].child)))];
    var two := if parent in ParentUuids(edges[..i], uuids) then [] else [ExpireChildren(parent)];
    MeaningOfBoth(before + one, two);
    MeaningOfBoth(before, one);
    MeaningOfOne(one[0]);
    MeaningOfOne(ExpireChildren(parent));
  }

  lemma {:induction false} EdgesMean(item: BatchItem, k: nat)
    requires k <= |item.req.edges|
    ensures k <= |Pipeline(item.ctx.jobId, PublishedJob(item))|
    ensures Meaning(EdgeCommands(item.req.edges[..k], item.ctx.naturalToUuid)) ==
              Pipeline(item.ctx.jobId, PublishedJob(item))[..k]
  {
    hide Pipeline, CommandAt, EdgeCommands, Meaning, UuidIn;
    if k == 0 {
      NoEdgesYet(item.req.edges, item.ctx.naturalToUuid);
      NothingMeansNothing();
    } else {
      EdgesMean(item, k - 1);
      EdgeMeans(item.req.edges, item.ctx.naturalToUuid, k - 1);
      EdgeCommand(item, k - 1);
      hide PublishedJob;
      PipelineStep(item.ctx.jobId, PublishedJob(item), k - 1);
    }
  }

  lemma TaskCommand(item: BatchItem, k: nat)
    requires ValidContext(item) && k < |item.req.tasks|
    requires forall i | 0 <= i < |item.req.edges| :: EndpointsMapped(item, item.req.edges[i])
    ensures var d, i, n := PublishedJob(item), |item.req.edges| + 2 * k, item.req.tasks[k].naturalId;
            && i + 1 < CommandCount(d)
            && CommandAt(item.ctx.jobId, d, i) == SetMeta(UuidIn(item.ctx.naturalToUuid, n))
            && CommandAt(item.ctx.jobId, d, i + 1) == StartCommand(n, item.req.edges, item.ctx.jobId,
               item.ctx.naturalToUuid)
  {
    var n := item.req.tasks[k].naturalId;
    assert n in item.ctx.naturalToUuid by { assert n in NaturalIds(item.req.tasks); }
    InDegreeSurvivesRenaming(item.ctx, item.req.edges, n);
    hide InDegree, ValidContext, EndpointsMapped, InjectiveOn, UuidEdges;
    var d := PublishedJob(item);
    assert d.tasks[k] == UuidIn(item.ctx.naturalToUuid, n) && d.edges == UuidEdges(item.ctx, item.req.edges);
    assert |d.edges| == |item.req.edges| && |d.tasks| == |item.req.tasks| by { PublishedSizes(item); }
    hide PublishedJob;
  }

  lemma PublishedSizes(item: BatchItem)
    ensures |PublishedJob(item).edges| == |item.req.edges| && |PublishedJob(item).tasks| == |item.req.tasks|
  {
  }

  lemma NothingSentYet(tasks: seq<TaskSpec>, edges: seq<Edge>, job: Id, uuids: map<Id, Id>)
    ensures TaskCommands(tasks[..0], edges, job, uuids) == [] && Meaning([]) == []
  {
  }

  lemma OneMoreTask(tasks: seq<TaskSpec>, edges: seq<Edge>, job: Id, uuids: map<Id, Id>, k: nat)
    requires k < |tasks|
    ensures TaskCommands(tasks[..k + 1], edges, job, uuids) ==
              TaskCommands(tasks[..k], edges, job, uuids)
              + ([Payload(UuidIn(uuids, tasks[k].naturalId), job, tasks[k])]
                 + [Effect(StartCommand(tasks[k].naturalId, edges, job, uuids))])
  {
    assert tasks[..k + 1][..k] == tasks[..k];
    hide UuidIn, StartCommand;
  }

  lemma TaskMeans(tasks: seq<TaskSpec>, edges: seq<Edge>, job: Id, uuids: map<Id, Id>, k: nat)
    requires k < |tasks|
    ensures Meaning(TaskCommands(tasks[..k + 1], edges, job, uuids)) ==
              Meaning(TaskCommands(tasks[..k], edges, job, uuids))
              + [SetMeta(UuidIn(uuids, tasks[k].naturalId)), StartCommand(tasks[k].naturalId, edges, job, uuids)]
  {
    OneMoreTask(tasks, edges, job, uuids, k);
    hide TaskCommands, Meaning, UuidIn, StartCommand;
    var before, uuid, start := TaskCommands(tasks[..k], edges, job, uuids), UuidIn(uuids, tasks[k].naturalId),
                               StartCommand(tasks[k].naturalId, edges, job, uuids);
    var one, two := [Payload(uuid, job, tasks[k])], [Effect(start)];
    MeaningOfBoth(before, one + two);
    MeaningOfBoth(one, two);
    MeaningOfOne(one[0]);
    MeaningOfOne(two[0]);
  }

  lemma TwoMore(p: seq<Command>, n: nat, i: nat)
    requires n <= i && i + 1 < |p|
    ensures p[n..i + 2] == p[n..i] + [p[i], p[i + 1]]
  {
  }

  lemma Halves(p: seq<Command>, n: nat)
    requires n <= |p|
    ensures p == p[..n] + p[n..|p|]
  {
  }

  /** The two commands p has from position i on are those of the task. */
  ghost predicate TaskAt(p: seq<Command>, i: nat, task: TaskSpec, edges: seq<Edge>, job: Id, uuids: map<Id, Id>) {
    && i + 1 < |p| && p[i] == SetMeta(UuidIn(uuids, task.naturalId))
    && p[i + 1] == StartCommand(task.naturalId, edges, job, uuids)
  }

  /** The commands p has for the tasks, from position n on. */
  ghost predicate HasTaskCommands(p: seq<Command>, n: nat, tasks: seq<TaskSpec>, edges: seq<Edge>, job: Id,
    uuids: map<Id, Id>) {
    && |p| == n + 2 * |tasks|
    && forall k | 0 <= k < |tasks| :: TaskAt(p, n + 2 * k, tasks[k], edges, job, uuids)
  }

  lemma {:induction false} TasksMean(p: seq<Command>, n: nat, tasks: seq<TaskSpec>, edges: seq<Edge>, job: Id,
                                     uuids: map<Id, Id>, k: nat)
    requires HasTaskCommands(p, n, tasks, edges, job, uuids) && k <= |tasks|
    ensures Meaning(TaskCommands(tasks[..k], edges, job, uuids)) == p[n..n + 2 * k]
  {
    hide TaskCommands, Meaning, UuidIn, StartCommand;
    if k == 0 {
      NothingSentYet(tasks, edges, job, uuids);
    } else {
      TasksMean(p, n, tasks, edges, job, uuids, k - 1);
      TaskMeans(tasks, edges, job, uuids, k - 1);
      assert TaskAt(p, n + 2 * (k - 1), tasks[k - 1], edges, job, uuids);
      hide HasTaskCommands;
      TwoMore(p, n, n + 2 * (k - 1));
    }
  }

  lemma TaskIsAt(item: BatchItem, k: nat)
    requires ValidContext(item) && k < |item.req.tasks|
    requires forall i | 0 <= i < |item.req.edges| :: EndpointsMapped(item, item.req.edges[i])
    ensures TaskAt(Pipeline(item.ctx.jobId, PublishedJob(item)), |item.req.edges| + 2 * k, item.req.tasks[k],
            item.req.edges,
                   item.ctx.jobId, item.ctx.naturalToUuid)
  {
    hide Pipeline, CommandAt, ValidContext, EndpointsMapped, UuidIn, StartCommand, CommandCount, PublishedJob;
    TaskCommand(item, k);
    var j, d, i := item.ctx.jobId, PublishedJob(item), |item.req.edges| + 2 * k;
    PipelineStep(j, d, i);
    PipelineStep(j, d, i + 1);
  }

  lemma PipelineHasTaskCommands(item: BatchItem)
    requires ValidContext(item) && forall i | 0 <= i < |item.req.edges| :: EndpointsMapped(item, item.req.edges[i])
    ensures HasTaskCommands(Pipeline(item.ctx.jobId, PublishedJob(item)), |item.req.edges|, item.req.tasks,
            item.req.edges,
                            item.ctx.jobId, item.ctx.naturalToUuid)
  {
    var p, n := Pipeline(item.ctx.jobId, PublishedJob(item)), |item.req.edges|;
    assert |p| == n + 2 * |item.req.tasks|;
    hide Pipeline, CommandAt, ValidContext, EndpointsMapped, TaskAt, PublishedJob;
    forall k | 0 <= k < |item.req.tasks|
      ensures TaskAt(p, n + 2 * k, item.req.tasks[k], item.req.edges, item.ctx.jobId, item.ctx.naturalToUuid)
    {
      TaskIsAt(item, k);
    }
  }

  lemma WholeMeans(p: seq<Command>, edges: seq<Edge>, tasks: seq<TaskSpec>, job: Id, uuids: map<Id, Id>)
    requires HasTaskCommands(p, |edges|, tasks, edges, job, uuids) && Meaning(EdgeCommands(edges, uuids)) ==
             p[..|edges|]
    ensures Meaning(EdgeCommands(edges, uuids) + TaskCommands(tasks, edges, job, uuids)
                    + if edges != [] then [ExpireCounters(job)] else []) == p
  {
    hide EdgeCommands, TaskCommands, Meaning, TaskAt;
    var a, b := EdgeCommands(edges, uuids), TaskCommands(tasks, edges, job, uuids);
    var c := if edges != [] then [ExpireCounters(job)] else [];
    NothingSentYet(tasks, edges, job, uuids);
    TasksMean(p, |edges|, tasks, edges, job, uuids, |tasks|);
    assert tasks[..|tasks|] == tasks;
    MeaningOfBoth(a + b, c);
    MeaningOfBoth(a, b);
    MeaningOfOne(ExpireCounters(job));
    hide HasTaskCommands;
    Halves(p, |edges|);
  }

  /** What is sent for a job means exactly the pipeline of the engine. */
  lemma WireMeansPipeline(item: BatchItem)
    requires ValidContext(item) && EndpointsIn(EdgeSet(item.req.edges), NaturalIds(item.req.tasks))
    ensures Meaning(WirePipeline(item.req, item.ctx.jobId, item.ctx.naturalToUuid)) ==
            Pipeline(item.ctx.jobId, PublishedJob(item))
  {
    hide Pipeline, PublishedJob, ValidContext, EndpointsIn, EndpointsMapped, EdgeCommands, TaskCommands, Meaning,
         HasTaskCommands, EdgeSet, NaturalIds;
    ContextKnows(item);
    PipelineHasTaskCommands(item);
    EdgesMean(item, |item.req.edges|);
    assert item.req.edges[..|item.req.edges|] == item.req.edges;
    WholeMeans(Pipeline(item.ctx.jobId, PublishedJob(item)), item.req.edges, item.req.tasks, item.ctx.jobId,
      item.ctx.naturalToUuid);
  }

  lemma ContextKnows(item: BatchItem)
    requires ValidContext(item)
    ensures EndpointsIn(EdgeSet(item.req.edges), NaturalIds(item.req.tasks)) <==>
              forall k | 0 <= k < |item.req.edges| :: EndpointsMapped(item, item.req.edges[k])
  {
    assert forall k | 0 <= k < |item.req.edges| :: item.req.edges[k] in EdgeSet(item.req.edges);
    hide InjectiveOn;
  }

  // ------------------------------------------------------------ lifetimes and metadata

  ghost predicate IsParent(edges: seq<Edge>, uuids: map<Id, Id>, p: Id) {
    exists i :: 0 <= i < |edges| && UuidIn(uuids, edges[i].parent) == p
  }

  /** Each lifetime of a children set comes right behind a command that adds to this set. */
  ghost predicate LifetimesFollow(sent: seq<Sent>) {
    forall k | 0 <= k < |sent| && sent[k].ExpireChildren? ::
      k > 0 && sent[k - 1].Effect? && sent[k - 1].command.SAdd? && sent[k - 1].command.parent == sent[k].parent
  }

  lemma OneMoreParent(edges: seq<Edge>, uuids: map<Id, Id>, i: nat, p: Id)
    requires i < |edges|
    ensures IsParent(edges[..i + 1], uuids, p) <==>
              IsParent(edges[..i], uuids, p) || UuidIn(uuids, edges[i].parent) == p
    ensures IsParent(edges[..i], uuids, p) <==> p in ParentUuids(edges[..i], uuids)
  {
    hide UuidIn;
    var shorter, longer := edges[..i], edges[..i + 1];
    assert longer[i] == edges[i] && forall k | 0 <= k < i :: longer[k] == shorter[k];
  }

  /** How often a lifetime for the children set of p, or for the counters, is sent. */
  function Lifetimes(sent: seq<Sent>, p: Id): nat {
    multiset(sent)[ExpireChildren(p)]
  }

  function CounterLifetimes(sent: seq<Sent>, job: Id): nat {
    multiset(sent)[ExpireCounters(job)]
  }

  lemma LifetimesOfBoth(a: seq<Sent>, b: seq<Sent>, p: Id, job: Id)
    requires LifetimesFollow(a) && LifetimesFollow(b)
    ensures LifetimesFollow(a + b) && Lifetimes(a + b, p) == Lifetimes(a, p) + Lifetimes(b, p)
    ensures CounterLifetimes(a + b, job) == CounterLifetimes(a, job) + CounterLifetimes(b, job)
  {
    forall k | 0 <= k < |a + b| && (a + b)[k].ExpireChildren?
      ensures k > 0 && (a + b)[k - 1].Effect? && (a + b)[k - 1].command.SAdd?
              && (a + b)[k - 1].command.parent == (a + b)[k].parent
    {
      if k >= |a| { assert b[k - |a|].ExpireChildren?; }
    }
  }

  lemma NothingExpires(p: Id, job: Id)
    ensures LifetimesFollow([]) && Lifetimes([], p) == CounterLifetimes([], job) == 0
  {
  }

  /** One edge's commands. */
  lemma EdgeExpires(parent: Id, child: Id, seen: bool, p: Id, job: Id)
    ensures var sent := [Effect(SAdd(parent, child))] + if seen then [] else [ExpireChildren(parent)];
            && LifetimesFollow(sent) && CounterLifetimes(sent, job) == 0
            && Lifetimes(sent, p) == if !seen && parent == p then 1 else 0
  {
    if seen {
      assert [Effect(SAdd(parent, child))] + [] == [Effect(SAdd(parent, child))];
    } else {
      assert [Effect(SAdd(parent, child))] + [ExpireChildren(parent)] ==
             [Effect(SAdd(parent, child)), ExpireChildren(parent)];
    }
  }

  lemma {:induction false} EdgeLifetimes(edges: seq<Edge>, uuids: map<Id, Id>, job: Id, i: nat, p: Id)
    requires i <= |edges|
    ensures var sent := EdgeCommands(edges[..i], uuids);
            && Lifetimes(sent, p) == (if IsParent(edges[..i], uuids, p) then 1 else 0)
            && CounterLifetimes(sent, job) == 0 && LifetimesFollow(sent)
  {
    hide Lifetimes, CounterLifetimes, LifetimesFollow, ParentUuids, UuidIn;
    if i == 0 {
      NothingExpires(p, job);
    } else {
      hide EdgeCommands, IsParent;
      EdgeLifetimes(edges, uuids, job, i - 1, p);
      OneMoreEdge(edges, uuids, i - 1);
      OneMoreParent(edges, uuids, i - 1, p);
      var before, edge := EdgeCommands(edges[..i - 1], uuids), edges[i - 1];
      var parent, child := UuidIn(uuids, edge.parent), UuidIn(uuids, edge.child);
      var seen := parent in ParentUuids(edges[..i - 1], uuids);
      EdgeExpires(parent, child, seen, p, job);
      var one, two := [Effect(SAdd(parent, child))], if seen then [] else [ExpireChildren(parent)];
      LifetimesOfBoth(before, one + two, p, job);
      assert before + (one + two) == before + one + two;
    }
  }

  /** One task's commands. */
  lemma TaskExpires(uuid: Id, job: Id, task: TaskSpec, start: Command, p: Id)
    ensures var sent := [Payload(uuid, job, task)] + [Effect(start)];
            LifetimesFollow(sent) && Lifetimes(sent, p) == CounterLifetimes(sent, job) == 0
  {
    assert [Payload(uuid, job, task)] + [Effect(start)] == [Payload(uuid, job, task), Effect(start)];
  }

  lemma {:induction false} TaskLifetimes(tasks: seq<TaskSpec>, edges: seq<Edge>, job: Id, uuids: map<Id, Id>, k: nat,
                                         p: Id)
    requires k <= |tasks|
    ensures var sent := TaskCommands(tasks[..k], edges, job, uuids);
            LifetimesFollow(sent) && Lifetimes(sent, p) == CounterLifetimes(sent, job) == 0
  {
    hide Lifetimes, CounterLifetimes, LifetimesFollow, UuidIn, StartCommand;
    if k == 0 {
      NothingExpires(p, job);
    } else {
      hide TaskCommands;
      var task := tasks[k - 1];
      var uuid, start := UuidIn(uuids, task.naturalId), StartCommand(task.naturalId, edges, job, uuids);
      TaskLifetimes(tasks, edges, job, uuids, k - 1, p);
      OneMoreTask(tasks, edges, job, uuids, k - 1);
      TaskExpires(uuid, job, task, start, p);
      LifetimesOfBoth(TaskCommands(tasks[..k - 1], edges, job, uuids), [Payload(uuid, job, task)] + [Effect(start)], p,
                      job);
    }
  }

  lemma {:induction false} TaskPayloads(tasks: seq<TaskSpec>, edges: seq<Edge>, job: Id, uuids: map<Id, Id>, k: nat)
    requires k <= |tasks|
    ensures forall i | 0 <= i < k ::
              Payload(UuidIn(uuids, tasks[i].naturalId), job, tasks[i]) in TaskCommands(tasks[..k], edges, job, uuids)
  {
    if k > 0 {
      hide TaskCommands, UuidIn, StartCommand;
      TaskPayloads(tasks, edges, job, uuids, k - 1);
      OneMoreTask(tasks, edges, job, uuids, k - 1);
    }
  }

  lemma LastExpires(edges: seq<Edge>, job: Id, p: Id)
    ensures var sent := if edges != [] then [ExpireCounters(job)] else [];
            LifetimesFollow(sent) && Lifetimes(sent, p) == 0
            && CounterLifetimes(sent, job) == if edges != [] then 1 else 0
  {
  }

  /** Beyond what the engine sees: every children set gets exactly one lifetime, right behind a command that adds to
      it, the counters get one at the very end if there are edges, and every task's metadata is sent. */
  lemma WireHasLifetimes(req: Request, job: Id, uuids: map<Id, Id>, p: Id)
    ensures var sent := WirePipeline(req, job, uuids);
            && multiset(sent)[ExpireChildren(p)] == (if IsParent(req.edges, uuids, p) then 1 else 0)
            && multiset(sent)[ExpireCounters(job)] == (if req.edges != [] then 1 else 0)
            && (req.edges != [] ==> sent[|sent| - 1] == ExpireCounters(job)) && LifetimesFollow(sent)
            && forall t | t in req.tasks :: Payload(UuidIn(uuids, t.naturalId), job, t) in sent
  {
    WireLifetimes(req, job, uuids, p);
    WirePayloads(req, job, uuids);
    hide WirePipeline, UuidIn, IsParent, LifetimesFollow;
  }

  lemma WireLifetimes(req: Request, job: Id, uuids: map<Id, Id>, p: Id)
    ensures var sent := WirePipeline(req, job, uuids);
            && LifetimesFollow(sent) && Lifetimes(sent, p) == (if IsParent(req.edges, uuids, p) then 1 else 0)
            && CounterLifetimes(sent, job) == if req.edges != [] then 1 else 0
  {
    hide EdgeCommands, TaskCommands, UuidIn, IsParent, LifetimesFollow, Lifetimes, CounterLifetimes;
    AllEdgeLifetimes(req.edges, uuids, job, p);
    AllTaskLifetimes(req.tasks, req.edges, job, uuids, p);
    LastExpires(req.edges, job, p);
    LifetimesOfThree(EdgeCommands(req.edges, uuids), TaskCommands(req.tasks, req.edges, job, uuids),
                     if req.edges != [] then [ExpireCounters(job)] else [], p, job);
  }

  lemma LifetimesOfThree(a: seq<Sent>, b: seq<Sent>, c: seq<Sent>, p: Id, job: Id)
    requires LifetimesFollow(a) && LifetimesFollow(b) && LifetimesFollow(c)
    ensures LifetimesFollow(a + b + c)
    ensures Lifetimes(a + b + c, p) == Lifetimes(a, p) + Lifetimes(b, p) + Lifetimes(c, p)
    ensures CounterLifetimes(a + b + c, job) ==
              CounterLifetimes(a, job) + CounterLifetimes(b, job) + CounterLifetimes(c, job)
  {
    hide *;
    LifetimesOfBoth(a, b, p, job);
    LifetimesOfBoth(a + b, c, p, job);
  }

  lemma AllEdgeLifetimes(edges: seq<Edge>, uuids: map<Id, Id>, job: Id, p: Id)
    ensures var sent := EdgeCommands(edges, uuids);
            && Lifetimes(sent, p) == (if IsParent(edges, uuids, p) then 1 else 0)
            && CounterLifetimes(sent, job) == 0 && LifetimesFollow(sent)
  {
    hide *;
    EdgeLifetimes(edges, uuids, job, |edges|, p);
    assert edges[..|edges|] == edges;
  }

  lemma AllTaskLifetimes(tasks: seq<TaskSpec>, edges: seq<Edge>, job: Id, uuids: map<Id, Id>, p: Id)
    ensures var sent := TaskCommands(tasks, edges, job, uuids);
            LifetimesFollow(sent) && Lifetimes(sent, p) == CounterLifetimes(sent, job) == 0
  {
    hide *;
    TaskLifetimes(tasks, edges, job, uuids, |tasks|, p);
    assert tasks[..|tasks|] == tasks;
  }

  lemma WirePayloads(req: Request, job: Id, uuids: map<Id, Id>)
    ensures var sent := WirePipeline(req, job, uuids);
            && (req.edges != [] ==> sent != [] && sent[|sent| - 1] == ExpireCounters(job))
            && forall t | t in req.tasks :: Payload(UuidIn(uuids, t.naturalId), job, t) in sent
  {
    assert req.tasks[..|req.tasks|] == req.tasks;
    hide EdgeCommands, TaskCommands, UuidIn;
    TaskPayloads(req.tasks, req.edges, job, uuids, |req.tasks|);
    forall t | t in req.tasks ensures Payload(UuidIn(uuids, t.naturalId), job, t) in WirePipeline(req, job, uuids) {
      var i :| 0 <= i < |req.tasks| && req.tasks[i] == t;
    }
  }

  // ------------------------------------------------------------ filling the pipeline

  class Pipe {
    var commands: seq<Sent>

    constructor ()
      ensures commands == []
    {
      commands := [];
    }
  }

  /** Queues the commands of one job; fails if an edge names an unknown task (map::at throws). */
  method AppendDagToPipeline(pipe: Pipe, req: Request, ctx: Context) returns (ok: bool)
    requires ValidContext(BatchItem(req, ctx))
    modifies pipe
    ensures ok <==> ctx.jobId == "" || EndpointsIn(EdgeSet(req.edges), NaturalIds(req.tasks))
    ensures ok ==> pipe.commands == old(pipe.commands) +
                     if ctx.jobId == "" then [] else WirePipeline(req, ctx.jobId, ctx.naturalToUuid)
  {
    if ctx.jobId == "" {
      return true;
    }
    ContextKnows(BatchItem(req, ctx));
    TasksAreMapped(BatchItem(req, ctx));
    ghost var before, uuids := pipe.commands, ctx.naturalToUuid;
    assert |req.edges| == 0 <==> req.edges == [];
    hide InDegree, InjectiveOn, ValidContext, EndpointsIn, EndpointsMapped, Counts, EdgeCommands, TaskCommands;
    var dependencyMap;
    ok, dependencyMap := AppendEdges(pipe, req, ctx);
    if !ok {
      return;
    }
    AppendTasks(pipe, req, ctx, dependencyMap);
    if |req.edges| > 0 {
      pipe.commands := pipe.commands + [ExpireCounters(ctx.jobId)];
    }
    Regroup(before, EdgeCommands(req.edges, uuids), TaskCommands(req.tasks, req.edges, ctx.jobId, uuids),
            if req.edges != [] then [ExpireCounters(ctx.jobId)] else []);
  }

  lemma Regroup(before: seq<Sent>, a: seq<Sent>, b: seq<Sent>, c: seq<Sent>)
    ensures before + a + b + c == before + (a + b + c) && before + a + b + [] == before + a + b
  {
  }

  method AppendTasks(pipe: Pipe, req: Request, ctx: Context, dependencyMap: map<Id, int>)
    requires Counts(dependencyMap, req.edges)
    requires forall k | 0 <= k < |req.tasks| :: req.tasks[k].naturalId in ctx.naturalToUuid
    modifies pipe
    ensures pipe.commands == old(pipe.commands) + TaskCommands(req.tasks, req.edges, ctx.jobId, ctx.naturalToUuid)
  {
    ghost var before := pipe.commands;
    NothingSentYet(req.tasks, req.edges, ctx.jobId, ctx.naturalToUuid);
    hide Counts, TaskCommands;
    for k := 0 to |req.tasks|
      invariant pipe.commands == before + TaskCommands(req.tasks[..k], req.edges, ctx.jobId, ctx.naturalToUuid)
    {
      var commands := CommandsOf(req, k, ctx, dependencyMap);
      pipe.commands := pipe.commands + commands;
    }
    assert req.tasks[..|req.tasks|] == req.tasks;
  }

  lemma TasksAreMapped(item: BatchItem)
    requires ValidContext(item)
    ensures forall k | 0 <= k < |item.req.tasks| :: item.req.tasks[k].naturalId in item.ctx.naturalToUuid
  {
    assert forall k | 0 <= k < |item.req.tasks| :: item.req.tasks[k].naturalId in NaturalIds(item.req.tasks);
    hide InjectiveOn;
  }

  /** The children sets with their lifetimes, and how many edges point to each task. */
  method AppendEdges(pipe: Pipe, req: Request, ctx: Context) returns (ok: bool, dependencyMap: map<Id, int>)
    modifies pipe
    ensures ok <==> forall k | 0 <= k < |req.edges| :: EndpointsMapped(BatchItem(req, ctx), req.edges[k])
    ensures ok ==> Counts(dependencyMap, req.edges)
    ensures ok ==> pipe.commands == old(pipe.commands) + EdgeCommands(req.edges, ctx.naturalToUuid)
  {
    ghost var before, item, uuids := pipe.commands, BatchItem(req, ctx), ctx.naturalToUuid;
    var processedParents: set<Id> := {};
    dependencyMap := map[];
    CountsStart();
    NoEdgesYet(req.edges, uuids);
    hide Counts, EdgeCommands, ParentUuids, EndpointsMapped, UuidIn;
    for i := 0 to |req.edges|
      invariant Counts(dependencyMap, req.edges[..i])
      invariant forall k | 0 <= k < i :: EndpointsMapped(item, req.edges[k])
      invariant processedParents == ParentUuids(req.edges[..i], uuids)
      invariant pipe.commands == before + EdgeCommands(req.edges[..i], uuids)
    {
      var edge := req.edges[i];
      dependencyMap := CountEdge(dependencyMap, req.edges, i);
      ok := EndpointsMapped(BatchItem(req, ctx), edge);
      if !ok {
        return;
      }
      EndpointsKnown(item, edge);
      processedParents := AppendEdge(pipe, req.edges, i, ctx, processedParents, before);
    }
    assert req.edges[..|req.edges|] == req.edges;
    ok := true;
  }

  method CountEdge(counts: map<Id, int>, edges: seq<Edge>, i: nat) returns (counts': map<Id, int>)
    requires i < |edges| && Counts(counts, edges[..i])
    ensures Counts(counts', edges[..i + 1])
  {
    hide Counts;
    CountsStep(counts, edges, i);
    var child := edges[i].child;
    counts' := counts[child := (if child in counts then counts[child] else 0) + 1];
  }

  lemma EndpointsKnown(item: BatchItem, e: Edge)
    requires EndpointsMapped(item, e)
    ensures e.parent in item.ctx.naturalToUuid && e.child in item.ctx.naturalToUuid
  {
  }

  lemma NoEdgesYet(edges: seq<Edge>, uuids: map<Id, Id>)
    ensures EdgeCommands(edges[..0], uuids) == [] && ParentUuids(edges[..0], uuids) == {}
  {
  }

  /** Edge i, after the commands of the edges before it. */
  method AppendEdge(pipe: Pipe, edges: seq<Edge>, i: nat, ctx: Context, seen: set<Id>, ghost before: seq<Sent>)
    returns (seen': set<Id>)
    requires i < |edges| && edges[i].parent in ctx.naturalToUuid && edges[i].child in ctx.naturalToUuid
    requires seen == ParentUuids(edges[..i], ctx.naturalToUuid)
    requires pipe.commands == before + EdgeCommands(edges[..i], ctx.naturalToUuid)
    modifies pipe
    ensures seen' == ParentUuids(edges[..i + 1], ctx.naturalToUuid)
    ensures pipe.commands == before + EdgeCommands(edges[..i + 1], ctx.naturalToUuid)
  {
    OneMoreEdge(edges, ctx.naturalToUuid, i);
    hide EdgeCommands, ParentUuids;
    var edge := edges[i];
    var parent, child := ctx.naturalToUuid[edge.parent], ctx.naturalToUuid[edge.child];
    pipe.commands := pipe.commands + [Effect(SAdd(parent, child))];
    seen' := seen;
    if parent !in seen {
      pipe.commands := pipe.commands + [ExpireChildren(parent)];
      seen' := seen + {parent};
    }
  }

  /** Metadata, then the counter or the first stream entry of one task. */
  method CommandsOf(req: Request, k: nat, ctx: Context, dependencyMap: map<Id, int>) returns (commands: seq<Sent>)
    requires k < |req.tasks| && req.tasks[k].naturalId in ctx.naturalToUuid && Counts(dependencyMap, req.edges)
    ensures TaskCommands(req.tasks[..k + 1], req.edges, ctx.jobId, ctx.naturalToUuid) ==
              TaskCommands(req.tasks[..k], req.edges, ctx.jobId, ctx.naturalToUuid) + commands
  {
    hide InDegree;
    var task := req.tasks[k];
    var uuid := ctx.naturalToUuid[task.naturalId];
    var pending := if task.naturalId in dependencyMap then dependencyMap[task.naturalId] else 0;
    assert req.tasks[..k + 1][..k] == req.tasks[..k];
    commands := [Payload(uuid, ctx.jobId, task)];
    if pending > 0 {
      commands := commands + [Effect(HSet(ctx.jobId, uuid, pending))];
    } else {
      commands := commands + [Effect(XAdd(uuid, ctx.jobId))];
    }
  }

  // ------------------------------------------------------------ the submitter

  datatype Option<T> = None | Some(value: T)

  const MAX_QUEUE_SIZE := 100000

  /** One item's commands: its whole wire pipeline, which means the pipeline of its job; nothing without a job. */
  ghost predicate SentFor(part: seq<Sent>, item: BatchItem) {
    if item.ctx.jobId == "" then part == []
    else part == WirePipeline(item.req, item.ctx.jobId, item.ctx.naturalToUuid)
         && Meaning(part) == Pipeline(item.ctx.jobId, PublishedJob(item))
  }

  /** `sent` consists of one part for each item of the batch, in the order of the batch; part i lies between the
      cuts i and i + 1. */
  ghost predicate SentInParts(sent: seq<Sent>, cuts: seq<nat>, batch: seq<BatchItem>) {
    && |cuts| == |batch| + 1 && cuts[0] == 0 && cuts[|batch|] == |sent|
    && forall i | 0 <= i < |batch| :: PartAt(sent, cuts, i, batch[i])
  }

  ghost predicate PartAt(sent: seq<Sent>, cuts: seq<nat>, i: nat, item: BatchItem)
    requires i + 1 < |cuts|
  {
    cuts[i] <= cuts[i + 1] <= |sent| && SentFor(sent[cuts[i]..cuts[i + 1]], item)
  }

  lemma OneMorePart(sent: seq<Sent>, cuts: seq<nat>, batch: seq<BatchItem>, i: nat, part: seq<Sent>)
    requires i < |batch| && SentInParts(sent, cuts, batch[..i]) && SentFor(part, batch[i])
    ensures SentInParts(sent + part, cuts + [|sent| + |part|], batch[..i + 1])
  {
    hide SentFor;
    var longer, more, items := sent + part, cuts + [|sent| + |part|], batch[..i + 1];
    forall k | 0 <= k < i + 1 ensures PartAt(longer, more, k, items[k]) {
      if k < i {
        assert PartAt(sent, cuts, k, batch[..i][k]);
        assert longer[cuts[k]..cuts[k + 1]] == sent[cuts[k]..cuts[k + 1]] && batch[..i][k] == batch[k];
      } else {
        assert longer[|sent|..|sent| + |part|] == part;
      }
    }
  }

  /** What one call publishes: nothing unless the transaction took effect and its answer came back; then the
      parts of all items, or the first commands of them if the pipeline breaks off. */
  ghost predicate BatchSent(before: Database, batch: seq<BatchItem>, dbUp: bool, redis: Pipelining, sent: seq<Sent>) {
    if !dbUp || Flush(before, batch).Aborted? then sent == []
    else
      match redis
      case AllDone => exists cuts :: SentInParts(sent, cuts, batch)
      case BrokenAfter(count) =>
        exists whole, cuts ::
          SentInParts(whole, cuts, batch) && sent == if count < |whole| then whole[..count] else whole
      case AnswerLost => sent == []
  }

  function Recorded(batch: seq<BatchItem>): seq<BatchItem> {
    seq(|batch|, i requires 0 <= i < |batch| => WithEntries(batch[i]))
  }

  /** Queues the commands of a committed batch. */
  method FillPipeline(ghost before: Database, ghost batch: seq<BatchItem>, batch': seq<BatchItem>)
    returns (commands: seq<Sent>)
    requires UniqueKeys(before) && Flush(before, batch).Committed? && batch' == Recorded(batch)
    requires forall i | 0 <= i < |batch| :: ValidContext(batch[i])
    ensures exists cuts: seq<nat> :: SentInParts(commands, cuts, batch)
  {
    hide Flush, UniqueKeys, WirePipeline, InDegree, InjectiveOn, Roots, EndpointsIn, EdgeSet, NaturalIds, SentFor,
         SentInParts, ValidContext;
    var pipe := new Pipe();
    ghost var cuts: seq<nat> := [0];
    NoPartYet(batch);
    for i := 0 to |batch'|
      invariant SentInParts(pipe.commands, cuts, batch[..i])
    {
      CommittedEndpoints(before, batch, i);
      RecordingKeepsJob(batch[i]);
      ghost var sent, part := pipe.commands, PartFor(batch[i]);
      var ok := AppendDagToPipeline(pipe, batch'[i].req, batch'[i].ctx);
      PartIsSent(batch[i]);
      OneMorePart(sent, cuts, batch, i, part);
      assert sent + part == pipe.commands by { hide ValidContext; }
      cuts := cuts + [|sent| + |part|];
    }
    assert batch[..|batch|] == batch;
    commands := pipe.commands;
  }

  function PartFor(item: BatchItem): seq<Sent> {
    if item.ctx.jobId == "" then [] else WirePipeline(item.req, item.ctx.jobId, item.ctx.naturalToUuid)
  }

  lemma PartIsSent(item: BatchItem)
    requires ValidContext(item)
    requires item.ctx.jobId == "" || EndpointsIn(EdgeSet(item.req.edges), NaturalIds(item.req.tasks))
    ensures SentFor(PartFor(item), item)
  {
    hide WirePipeline, ValidContext, EndpointsIn, Meaning, Pipeline, PublishedJob;
    if item.ctx.jobId != "" { WireMeansPipeline(item); }
  }

  lemma NoPartYet(batch: seq<BatchItem>)
    ensures SentInParts([], [0], batch[..0])
  {
  }

  lemma EmptyBatch(db: Database)
    ensures Flush(db, []) == Committed(db) && SentInParts([], [0], [])
  {
  }

  lemma RecordingKeepsJob(item: BatchItem)
    ensures PublishedJob(WithEntries(item)) == PublishedJob(item)
    ensures ValidContext(item) ==> ValidContext(WithEntries(item))
  {
    assert UuidEdges(WithEntries(item).ctx, item.req.edges) == UuidEdges(item.ctx, item.req.edges);
  }

  /** How publishing ends once the transaction has taken effect; with AnswerLost the client saw an exception
      instead of the answer to its commit and publishes nothing. */
  datatype Pipelining = AllDone | BrokenAfter(count: nat) | AnswerLost

  class TaskSubmitter {
    var pendingQueue: seq<BatchItem>
    var db: Database

    constructor (database: Database)
      ensures pendingQueue == [] && db == database
    {
      pendingQueue, db := [], database;
    }

    /** `uuids` is what the UUID generator returns during the call; the queue-full exception is None. */
    method SubmitDagAsync(req: Request, uuids: seq<Id>) returns (r: Option<Id>)
      requires |uuids| == |req.tasks| + 1 && NoDuplicates(uuids)
      modifies `pendingQueue
      ensures r == if |old(pendingQueue)| >= MAX_QUEUE_SIZE then None else Some(uuids[0])
      ensures r.None? ==> pendingQueue == old(pendingQueue)
      ensures r.Some? ==>
                && |pendingQueue| == |old(pendingQueue)| + 1 && old(pendingQueue) <= pendingQueue
                && var item := pendingQueue[|pendingQueue| - 1];
                   && item.req == req && item.ctx.jobId == uuids[0] && item.ctx.entryTaskIds == []
                   && ValidContext(item) && forall n | n in item.ctx.naturalToUuid ::
                      item.ctx.naturalToUuid[n] in uuids[1..]
    {
      var naturalToUuid: map<Id, Id> := map[];
      for k := 0 to |req.tasks|
        invariant naturalToUuid.Keys == NaturalIds(req.tasks[..k])
        invariant forall n | n in naturalToUuid :: naturalToUuid[n] in uuids[1..k + 1]
        invariant InjectiveOn(naturalToUuid, naturalToUuid.Keys)
      {
        assert req.tasks[..k + 1] == req.tasks[..k] + [req.tasks[k]];
        assert uuids[1..k + 2] == uuids[1..k + 1] + [uuids[k + 1]];
        assert uuids[k + 1] !in uuids[1..k + 1];
        naturalToUuid := naturalToUuid[req.tasks[k].naturalId := uuids[k + 1]];
      }
      assert req.tasks[..|req.tasks|] == req.tasks;
      if |pendingQueue| >= MAX_QUEUE_SIZE {
        return None;
      }
      pendingQueue := pendingQueue + [BatchItem(req, Context(uuids[0], naturalToUuid, []))];
      return Some(uuids[0]);
    }

    /** The flusher's critical section swaps the whole queue out. */
    method TakeBatch() returns (batch: seq<BatchItem>)
      modifies `pendingQueue
      ensures batch == old(pendingQueue) && pendingQueue == []
    {
      batch := [];
      batch, pendingQueue := pendingQueue, batch;
    }

    /** PostgreSQL first; only what committed is published. `dbUp` says whether the transaction can take effect,
        `redis` what becomes of publishing: a pipeline that breaks off may have executed any number of its
        commands. */
    method ProcessBatch(batch: seq<BatchItem>, dbUp: bool, redis: Pipelining) returns (sent: seq<Sent>)
      requires UniqueKeys(db) && forall i | 0 <= i < |batch| :: ValidContext(batch[i])
      modifies `db
      ensures db == if dbUp && Flush(old(db), batch).Committed? then Flush(old(db), batch).db else old(db)
      ensures UniqueKeys(db)
      ensures BatchSent(old(db), batch, dbUp, redis, sent)
    {
      hide Flush, UniqueKeys, SentInParts;
      if |batch| == 0 {
        EmptyBatch(db);
        return [];
      }
      if !dbUp {
        return [];
      }
      var tx, batch' := FlushDBBatch(db, batch);
      if tx.Aborted? {
        return [];
      }
      var commands := FillPipeline(db, batch, batch');
      FlushKeepsKeys(db, batch);
      db := tx.db;
      match redis {
        case AllDone => return commands;
        case BrokenAfter(count) => return if count < |commands| then commands[..count] else commands;
        case AnswerLost => return [];
      }
    }
  }
}
