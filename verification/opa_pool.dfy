/**
 The OPA worker pool: a sender that cuts resource lists into batches, workers that check one object
 at a time, a collector, and the main goroutine that closes the result channel once every worker is
 done.  Both channels are unbuffered, so a send and its receive are one step.  Every interleaving of
 the goroutines is a schedule, a sequence of steps each enabled where it is taken.
 */
module OpaPool {
  import opened Wrappers
  import opened Sequences
  import opened OpaRules
  import opened Totals

  datatype Task = Task(resources: seq<Subject>, statsSummary: seq<Subject>, rules: seq<OpaRule>, resourceType: string)
  {
    /** A worker tells the two kinds of task apart by the key alone. */
    function Query(): Query {
      if resourceType == NODE_STATS_KEY then NodeStatsDeny else ResourceDeny
    }

    function Subjects(): seq<Subject> {
      if resourceType == NODE_STATS_KEY then statsSummary else resources
    }
  }

  // ---------- The sender ----------

  /** What a task reports. */
  function TaskOut(rego: Rego, t: Task): multiset<ResourceResult> {
    multiset(Findings(rego, t.Query(), t.resourceType, t.rules, t.Subjects()))
  }

  function TaskReport(rego: Rego): Task -> multiset<ResourceResult> {
    t => TaskOut(rego, t)
  }

  /** What all the tasks of a queue report. */
  function QueueOut(rego: Rego, queue: seq<Task>): multiset<ResourceResult> {
    Union(Map(TaskReport(rego), queue))
  }

  lemma QueueOutConcat(rego: Rego, a: seq<Task>, b: seq<Task>)
    ensures QueueOut(rego, a + b) == QueueOut(rego, a) + QueueOut(rego, b)
  {
    MapConcat(TaskReport(rego), a, b);
    UnionConcat(Map(TaskReport(rego), a), Map(TaskReport(rego), b));
  }

  lemma QueueOutHead(rego: Rego, queue: seq<Task>)
    requires queue != []
    ensures QueueOut(rego, queue) == TaskOut(rego, queue[0]) + QueueOut(rego, queue[1..])
  {
    MapTail(TaskReport(rego), queue);
  }

  /** A batch of one list: of the statistics when `stats` holds, of the resources otherwise. */
  function BatchTask(stats: bool, batch: seq<Subject>, rules: seq<OpaRule>, key: string): Task {
    if stats then Task([], batch, rules, key) else Task(batch, [], rules, key)
  }

  /** What the tasks cut from one list report together: nothing when the list sits under the wrong key. */
  function ListOut(rego: Rego, stats: bool, subjects: seq<Subject>, rules: seq<OpaRule>,
                   key: string): multiset<ResourceResult>
  {
    TaskOut(rego, BatchTask(stats, subjects, rules, key))
  }

  lemma ListOutConcat(rego: Rego, stats: bool, a: seq<Subject>, b: seq<Subject>, rules: seq<OpaRule>, key: string)
    ensures ListOut(rego, stats, a + b, rules, key)
      == ListOut(rego, stats, a, rules, key) + ListOut(rego, stats, b, rules, key)
  {
    var q := if key == NODE_STATS_KEY then NodeStatsDeny else ResourceDeny;
    FindingsConcat(rego, q, key, rules, a, b);
  }

  lemma ListOutEmpty(rego: Rego, stats: bool, rules: seq<OpaRule>, key: string)
    ensures ListOut(rego, stats, [], rules, key) == multiset{}
  {
  }

  function Batcher(stats: bool, rules: seq<OpaRule>, key: string): seq<Subject> -> Task {
    batch => BatchTask(stats, batch, rules, key)
  }

  /** The batches tile a list exactly, and none is empty or too long. */
  ghost predicate Tiles(batches: seq<seq<Subject>>, subjects: seq<Subject>, batchSize: nat) {
    Flatten(batches) == subjects && forall i :: 0 <= i < |batches| ==> 1 <= |batches[i]| <= batchSize
  }

  /** The tasks carry one batch each, in order, and the batches tile the list. */
  ghost predicate CutFrom(tasks: seq<Task>, stats: bool, subjects: seq<Subject>, rules: seq<OpaRule>, key: string,
                          batchSize: nat)
  {
    exists batches :: tasks == Map(Batcher(stats, rules, key), batches) && Tiles(batches, subjects, batchSize)
  }

  /** The batch loop over one list. */
  method SendBatches(stats: bool, subjects: seq<Subject>, rules: seq<OpaRule>, key: string, batchSize: nat)
    returns (tasks: seq<Task>)
    requires batchSize >= 1
    ensures CutFrom(tasks, stats, subjects, rules, key, batchSize)
    ensures Flatten(Map((t: Task) => if stats then t.statsSummary else t.resources, tasks)) == subjects
    ensures forall i :: 0 <= i < |tasks| ==>
      && tasks[i].rules == rules && tasks[i].resourceType == key
      && 1 <= |tasks[i].statsSummary + tasks[i].resources| <= batchSize
      && (if stats then tasks[i].resources == [] else tasks[i].statsSummary == [])
  {
    tasks := [];
    ghost var batches: seq<seq<Subject>> := [];
    var i := 0;
    ghost var done := 0;
    while i < |subjects|
      invariant 0 <= done <= |subjects|
      invariant i < |subjects| ==> done == i
      invariant i >= |subjects| ==> done == |subjects|
      invariant tasks == Map(Batcher(stats, rules, key), batches)
      invariant Tiles(batches, subjects[..done], batchSize)
    {
      var end := i + batchSize;
      if end > |subjects| {
        end := |subjects|;
      }
      FlattenAppend(batches, subjects[i..end]);
      assert subjects[..i] + subjects[i..end] == subjects[..end];
      batches := batches + [subjects[i..end]];
      tasks := tasks + [BatchTask(stats, subjects[i..end], rules, key)];
      done := end;
      i := i + batchSize;
    }
    assert subjects[..|subjects|] == subjects;
    BatchesOf(stats, rules, key, batches);
  }

  lemma BatchesOf(stats: bool, rules: seq<OpaRule>, key: string, batches: seq<seq<Subject>>)
    ensures Map((t: Task) => if stats then t.statsSummary else t.resources, Map(Batcher(stats, rules, key), batches))
         == batches
  {
  }

  /** Cutting a list into batches, wherever the cuts fall, does not change what is reported. */
  lemma {:induction false} BatchesReport(rego: Rego, stats: bool, rules: seq<OpaRule>, key: string,
                                         batches: seq<seq<Subject>>)
    ensures QueueOut(rego, Map(Batcher(stats, rules, key), batches))
      == ListOut(rego, stats, Flatten(batches), rules, key)
  {
    if batches != [] {
      BatchesReport(rego, stats, rules, key, batches[1..]);
      MapTail(Batcher(stats, rules, key), batches);
      QueueOutHead(rego, Map(Batcher(stats, rules, key), batches));
      ListOutConcat(rego, stats, batches[0], Flatten(batches[1..]), rules, key);
    } else {
      ListOutEmpty(rego, stats, rules, key);
    }
  }

  /** The collected cluster objects, by key. */
  datatype Resources = Resources(resources: map<string, seq<Subject>>, statsSummary: map<string, seq<Subject>>)

  function At<T>(m: map<string, seq<T>>, key: string): seq<T> {
    if key in m then m[key] else []
  }

  /** What one of the two lists under a key contributes: nothing without a rule group for the key. */
  function KeyOut(rego: Rego, stats: bool, lists: map<string, seq<Subject>>, groups: map<string, seq<OpaRule>>,
                  key: string)
    : multiset<ResourceResult>
  {
    if key in groups then ListOut(rego, stats, At(lists, key), groups[key], key) else multiset{}
  }

  lemma KeyOutKey(rego: Rego, stats: bool, lists: map<string, seq<Subject>>, groups: map<string, seq<OpaRule>>,
                  key: string)
    ensures forall x :: x in KeyOut(rego, stats, lists, groups, key) ==> x.resourceType == key
  {
    if key in groups {
      var t := BatchTask(stats, At(lists, key), groups[key], key);
      forall x | x in TaskOut(rego, t)
        ensures x.resourceType == key
      {
        FindingsMembers(rego, t.Query(), key, groups[key], t.Subjects(), x);
      }
    }
  }

  /** The queue reports what is due under every key but those still to come. */
  ghost predicate Sending(rego: Rego, stats: bool, lists: map<string, seq<Subject>>, groups: map<string, seq<OpaRule>>,
                          todo: set<string>, tasks: seq<Task>)
  {
    forall x :: QueueOut(rego, tasks)[x]
             == if x.resourceType in todo then 0 else KeyOut(rego, stats, lists, groups, x.resourceType)[x]
  }

  lemma SendingStep(rego: Rego, stats: bool, lists: map<string, seq<Subject>>, groups: map<string, seq<OpaRule>>,
                    todo: set<string>, tasks: seq<Task>, key: string, more: seq<Task>)
    requires Sending(rego, stats, lists, groups, todo, tasks) && key in todo
    requires QueueOut(rego, more) == KeyOut(rego, stats, lists, groups, key)
    ensures Sending(rego, stats, lists, groups, todo - {key}, tasks + more)
  {
    QueueOutConcat(rego, tasks, more);
    KeyOutKey(rego, stats, lists, groups, key);
    forall x
      ensures QueueOut(rego, tasks + more)[x]
           == if x.resourceType in todo - {key} then 0 else KeyOut(rego, stats, lists, groups, x.resourceType)[x]
    {
      assert QueueOut(rego, tasks + more)[x] == QueueOut(rego, tasks)[x] + KeyOut(rego, stats, lists, groups, key)[x];
    }
  }

  /** The batches of the list under one key, or none when there are no rules about it. */
  method SendKey(ghost rego: Rego, stats: bool, lists: map<string, seq<Subject>>, groups: map<string, seq<OpaRule>>,
                 key: string, batchSize: nat) returns (tasks: seq<Task>)
    requires batchSize >= 1 && key in lists
    ensures QueueOut(rego, tasks) == KeyOut(rego, stats, lists, groups, key)
  {
    if key !in groups {
      tasks := [];
      return;
    }
    tasks := SendBatches(stats, lists[key], groups[key], key, batchSize);
    ghost var batches :|
      tasks == Map(Batcher(stats, groups[key], key), batches) && Tiles(batches, lists[key], batchSize);
    BatchesReport(rego, stats, groups[key], key, batches);
  }

  /** One of the sender's two loops over a map, whose keys come in any order. */
  method SendLists(ghost rego: Rego, stats: bool, lists: map<string, seq<Subject>>, groups: map<string, seq<OpaRule>>,
                   batchSize: nat) returns (tasks: seq<Task>)
    requires batchSize >= 1
    ensures forall x :: QueueOut(rego, tasks)[x] == KeyOut(rego, stats, lists, groups, x.resourceType)[x]
  {
    tasks := [];
    var todo := lists.Keys;
    NothingSent(rego, stats, lists, groups);
    while todo != {}
      invariant todo <= lists.Keys
      invariant Sending(rego, stats, lists, groups, todo, tasks)
      decreases |todo|
    {
      var key :| key in todo;
      var more := SendKey(rego, stats, lists, groups, key, batchSize);
      SendingStep(rego, stats, lists, groups, todo, tasks, key, more);
      tasks := tasks + more;
      todo := todo - {key};
    }
  }

  lemma NothingSent(rego: Rego, stats: bool, lists: map<string, seq<Subject>>, groups: map<string, seq<OpaRule>>)
    ensures Sending(rego, stats, lists, groups, lists.Keys, [])
  {
    forall x: ResourceResult | x.resourceType !in lists
      ensures KeyOut(rego, stats, lists, groups, x.resourceType)[x] == 0
    {
      if x.resourceType in groups {
        ListOutEmpty(rego, stats, groups[x.resourceType], x.resourceType);
      }
    }
  }

  /** The results due under a key: the sequential check of whatever a worker will look at. */
  function Due(rego: Rego, rs: Resources, groups: map<string, seq<OpaRule>>, key: string): multiset<ResourceResult> {
    KeyOut(rego, false, rs.resources, groups, key) + KeyOut(rego, true, rs.statsSummary, groups, key)
  }

  method SendTasks(ghost rego: Rego, rs: Resources, groups: map<string, seq<OpaRule>>, batchSize: nat)
    returns (tasks: seq<Task>)
    requires batchSize >= 1
    ensures forall x :: QueueOut(rego, tasks)[x] == Due(rego, rs, groups, x.resourceType)[x]
  {
    var first := SendLists(rego, false, rs.resources, groups, batchSize);
    var second := SendLists(rego, true, rs.statsSummary, groups, batchSize);
    tasks := first + second;
    QueueOutConcat(rego, first, second);
  }

  // ---------- The pool as a step relation ----------

  datatype Worker = Idle | Busy(task: Task, rest: seq<Subject>) | Exited

  datatype Pool = Pool(
    queue: seq<Task>,             // batches the sender has not handed over
    tasksClosed: bool,            // close(taskChan)
    workers: seq<Worker>,
    resultsClosed: bool,          // close(resultChan)
    collecting: bool,             // the collector is still ranging over the result channel
    collected: seq<ResourceResult>,
    returned: bool)

  datatype Step =
    | Take(w: nat)                // sender and worker w meet on the task channel
    | CloseTasks
    | Skip(w: nat)                // worker w checks an object that reports nothing
    | Emit(w: nat)                // worker w and the collector meet on the result channel
    | Finish(w: nat)              // worker w is done with its batch
    | Exit(w: nat)                // worker w sees the closed task channel
    | CloseResults                // every worker is done
    | StopCollecting
    | Return

  function Head(rego: Rego, b: Worker): ResourceResult
    requires b.Busy? && b.rest != []
  {
    Check(rego, b.task.Query(), b.task.resourceType, b.task.rules, b.rest[0])
  }

  predicate Enabled(rego: Rego, p: Pool, step: Step) {
    match step
    case Take(w) => w < |p.workers| && p.workers[w].Idle? && p.queue != []
    case CloseTasks => p.queue == [] && !p.tasksClosed
    case Skip(w) => w < |p.workers| && p.workers[w].Busy? && p.workers[w].rest != []
      && Head(rego, p.workers[w]).items == []
    case Emit(w) =>
      && w < |p.workers| && p.workers[w].Busy? && p.workers[w].rest != [] && Head(rego, p.workers[w]).items != []
      && p.collecting
    case Finish(w) => w < |p.workers| && p.workers[w].Busy? && p.workers[w].rest == []
    case Exit(w) => w < |p.workers| && p.workers[w].Idle? && p.tasksClosed
    case CloseResults => (forall w :: 0 <= w < |p.workers| ==> p.workers[w].Exited?) && !p.resultsClosed
    case StopCollecting => p.resultsClosed && p.collecting
    case Return => p.resultsClosed && !p.collecting && !p.returned
  }

  function Apply(rego: Rego, p: Pool, step: Step): Pool
    requires Enabled(rego, p, step)
  {
    match step
    case Take(w) => p.(queue := p.queue[1..], workers := p.workers[w := Busy(p.queue[0], p.queue[0].Subjects())])
    case CloseTasks => p.(tasksClosed := true)
    case Skip(w) => p.(workers := p.workers[w := p.workers[w].(rest := p.workers[w].rest[1..])])
    case Emit(w) =>
      p.(collected := p.collected + [Head(rego, p.workers[w])],
         workers := p.workers[w := p.workers[w].(rest := p.workers[w].rest[1..])])
    case Finish(w) => p.(workers := p.workers[w := Idle])
    case Exit(w) => p.(workers := p.workers[w := Exited])
    case CloseResults => p.(resultsClosed := true)
    case StopCollecting => p.(collecting := false)
    case Return => p.(returned := true)
  }

  function Start(queue: seq<Task>, workers: nat): Pool {
    Pool(queue, false, seq(workers, _ => Idle), false, true, [], false)
  }

  /** A schedule is legal when each step is enabled where it is taken. */
  predicate Legal(rego: Rego, p: Pool, schedule: seq<Step>)
    decreases |schedule|
  {
    schedule == [] || (Enabled(rego, p, schedule[0]) && Legal(rego, Apply(rego, p, schedule[0]), schedule[1..]))
  }

  function After(rego: Rego, p: Pool, schedule: seq<Step>): Pool
    requires Legal(rego, p, schedule)
    decreases |schedule|
  {
    if schedule == [] then p else After(rego, Apply(rego, p, schedule[0]), schedule[1..])
  }

  // ---------- What every step keeps ----------

  function WorkerOut(rego: Rego, b: Worker): multiset<ResourceResult> {
    if b.Busy? then multiset(Findings(rego, b.task.Query(), b.task.resourceType, b.task.rules, b.rest)) else multiset{}
  }

  function WorkerReport(rego: Rego): Worker -> multiset<ResourceResult> {
    b => WorkerOut(rego, b)
  }

  function WorkersOut(rego: Rego, bs: seq<Worker>): multiset<ResourceResult> {
    Union(Map(WorkerReport(rego), bs))
  }

  /** The results already collected and those still to come. */
  function Total(rego: Rego, p: Pool): multiset<ResourceResult> {
    (multiset(p.collected) + WorkersOut(rego, p.workers)) + QueueOut(rego, p.queue)
  }

  ghost predicate Inv(rego: Rego, p: Pool) {
    && p.workers != []
    && (p.tasksClosed ==> p.queue == [])
    && ((exists w :: 0 <= w < |p.workers| && p.workers[w].Exited?) ==> p.tasksClosed)
    && (p.resultsClosed ==> forall w :: 0 <= w < |p.workers| ==> p.workers[w].Exited?)
    && (!p.collecting ==> p.resultsClosed)
    && (p.returned ==> !p.collecting)
  }

  lemma WorkersOutQuiet(rego: Rego, bs: seq<Worker>)
    requires forall w :: 0 <= w < |bs| ==> !bs[w].Busy?
    ensures WorkersOut(rego, bs) == multiset{}
  {
    UnionEmpty(Map(WorkerReport(rego), bs));
  }

  /** Checking one object moves at most its own result out of the worker. */
  lemma WorkerOutHead(rego: Rego, b: Worker)
    requires b.Busy? && b.rest != []
    ensures WorkerOut(rego, b)
         == (if Head(rego, b).items == [] then multiset{} else multiset{Head(rego, b)})
           + WorkerOut(rego, b.(rest := b.rest[1..]))
  {
    FindingsHead(rego, b.task.Query(), b.task.resourceType, b.task.rules, b.rest);
  }

  /** A worker that gives up `out` lowers the workers' total by exactly `out`. */
  lemma WorkerGives(rego: Rego, bs: seq<Worker>, w: nat, b: Worker, out: multiset<ResourceResult>)
    requires w < |bs| && WorkerOut(rego, bs[w]) == out + WorkerOut(rego, b)
    ensures out + WorkersOut(rego, bs[w := b]) == WorkersOut(rego, bs)
  {
    MapUpdate(WorkerReport(rego), bs, w, b);
    UnionGives(Map(WorkerReport(rego), bs), w, WorkerOut(rego, b), out);
  }

  lemma TakeTrades(rego: Rego, bs: seq<Worker>, w: nat, queue: seq<Task>)
    requires w < |bs| && bs[w].Idle? && queue != []
    ensures WorkersOut(rego, bs[w := Busy(queue[0], queue[0].Subjects())]) + QueueOut(rego, queue[1..])
         == WorkersOut(rego, bs) + QueueOut(rego, queue)
  {
    var bs' := bs[w := Busy(queue[0], queue[0].Subjects())];
    var out := TaskOut(rego, queue[0]);
    assert bs'[w := Idle] == bs;
    WorkerGives(rego, bs', w, Idle, out);
    QueueOutHead(rego, queue);
  }

  lemma EmitTrades(rego: Rego, bs: seq<Worker>, w: nat, collected: seq<ResourceResult>)
    requires w < |bs| && bs[w].Busy? && bs[w].rest != [] && Head(rego, bs[w]).items != []
    ensures multiset(collected + [Head(rego, bs[w])]) + WorkersOut(rego, bs[w := bs[w].(rest := bs[w].rest[1..])])
         == multiset(collected) + WorkersOut(rego, bs)
  {
    var b := bs[w].(rest := bs[w].rest[1..]);
    var r := Head(rego, bs[w]);
    WorkerOutHead(rego, bs[w]);
    WorkerGives(rego, bs, w, b, multiset{r});
    assert multiset(collected + [r]) == multiset(collected) + multiset{r};
    assert (multiset(collected) + multiset{r}) + WorkersOut(rego, bs[w := b])
        == multiset(collected) + (multiset{r} + WorkersOut(rego, bs[w := b]));
  }

  lemma TakeKeepsTotal(rego: Rego, p: Pool, w: nat)
    requires w < |p.workers| && p.workers[w].Idle? && p.queue != []
    ensures Total(rego, p.(queue := p.queue[1..], workers := p.workers[w := Busy(p.queue[0], p.queue[0].Subjects())]))
      == Total(rego, p)
  {
    TakeTrades(rego, p.workers, w, p.queue);
    var bs := p.workers[w := Busy(p.queue[0], p.queue[0].Subjects())];
    Reassociate(multiset(p.collected), WorkersOut(rego, bs), QueueOut(rego, p.queue[1..]));
    Reassociate(multiset(p.collected), WorkersOut(rego, p.workers), QueueOut(rego, p.queue));
  }

  lemma Reassociate<T>(a: multiset<T>, b: multiset<T>, c: multiset<T>)
    ensures (a + b) + c == a + (b + c)
  {
  }

  lemma QuietStepKeepsTotal(rego: Rego, p: Pool, w: nat, b: Worker)
    requires w < |p.workers| && WorkerOut(rego, b) == WorkerOut(rego, p.workers[w])
    ensures Total(rego, p.(workers := p.workers[w := b])) == Total(rego, p)
  {
    WorkerGives(rego, p.workers, w, b, multiset{});
  }

  /** No step loses, duplicates or alters a result. */
  lemma StepKeepsTotal(rego: Rego, p: Pool, step: Step)
    requires Enabled(rego, p, step)
    ensures Total(rego, Apply(rego, p, step)) == Total(rego, p)
  {
    match step {
      case Take(w) => TakeKeepsTotal(rego, p, w);
      case Emit(w) => EmitTrades(rego, p.workers, w, p.collected);
      case Skip(w) =>
        WorkerOutHead(rego, p.workers[w]);
        QuietStepKeepsTotal(rego, p, w, p.workers[w].(rest := p.workers[w].rest[1..]));
      case Finish(w) => QuietStepKeepsTotal(rego, p, w, Idle);
      case Exit(w) => QuietStepKeepsTotal(rego, p, w, Exited);
      case CloseTasks =>
      case CloseResults =>
      case StopCollecting =>
      case Return =>
    }
  }

  lemma StepKeepsInv(rego: Rego, p: Pool, step: Step)
    requires Inv(rego, p) && Enabled(rego, p, step)
    ensures Inv(rego, Apply(rego, p, step))
  {
    var q := Apply(rego, p, step);
    if step.Take? || step.Skip? || step.Emit? || step.Finish? || step.Exit? {
      assert forall v :: 0 <= v < |q.workers| && v != step.w ==> q.workers[v] == p.workers[v];
      assert !p.workers[step.w].Exited?;
    }
  }

  // ---------- Progress ----------

  function WorkerRank(b: Worker): nat {
    match b
    case Idle => 1
    case Busy(_, rest) => 2 + |rest|
    case Exited => 0
  }

  const WORKER_RANK: Worker -> nat := (b: Worker) => WorkerRank(b)

  function QueueRank(queue: seq<Task>): nat {
    if queue == [] then 0 else 2 + |queue[0].Subjects()| + QueueRank(queue[1..])
  }

  function Flag(b: bool): nat {
    if b then 1 else 0
  }

  /** Unsent batches, unchecked objects, running workers and open phases. */
  function Rank(p: Pool): nat {
    QueueRank(p.queue) + Sum(Map(WORKER_RANK, p.workers))
    + Flag(!p.tasksClosed) + Flag(!p.resultsClosed) + Flag(p.collecting) + Flag(!p.returned)
  }

  lemma StepDecreasesRank(rego: Rego, p: Pool, step: Step)
    requires Enabled(rego, p, step)
    ensures Rank(Apply(rego, p, step)) < Rank(p)
  {
    var q := Apply(rego, p, step);
    if step.Take? || step.Skip? || step.Emit? || step.Finish? || step.Exit? {
      MapUpdate(WORKER_RANK, p.workers, step.w, q.workers[step.w]);
      SumUpdate(Map(WORKER_RANK, p.workers), step.w, WorkerRank(q.workers[step.w]));
    }
  }

  /** The pool is free of deadlock: before it returns, some goroutine can always move. */
  lemma NoDeadlock(rego: Rego, p: Pool) returns (step: Step)
    requires Inv(rego, p) && !p.returned
    ensures Enabled(rego, p, step)
  {
    if w :| 0 <= w < |p.workers| && p.workers[w].Busy? {
      if p.workers[w].rest == [] {
        step := Finish(w);
      } else if Head(rego, p.workers[w]).items == [] {
        step := Skip(w);
      } else {
        step := Emit(w);
      }
    } else if w :| 0 <= w < |p.workers| && p.workers[w].Idle? {
      step := if p.queue != [] then Take(w) else if !p.tasksClosed then CloseTasks else Exit(w);
    } else {
      step := if !p.resultsClosed then CloseResults else if p.collecting then StopCollecting else Return;
    }
  }

  // ---------- Whole runs ----------

  lemma {:induction false} RunKeeps(rego: Rego, p: Pool, schedule: seq<Step>)
    requires Inv(rego, p) && Legal(rego, p, schedule)
    ensures Inv(rego, After(rego, p, schedule))
    ensures Total(rego, After(rego, p, schedule)) == Total(rego, p)
    ensures |schedule| + Rank(After(rego, p, schedule)) <= Rank(p)
    decreases |schedule|
  {
    if schedule != [] {
      StepKeepsInv(rego, p, schedule[0]);
      StepKeepsTotal(rego, p, schedule[0]);
      StepDecreasesRank(rego, p, schedule[0]);
      RunKeeps(rego, Apply(rego, p, schedule[0]), schedule[1..]);
    }
  }

  lemma StartIsGood(rego: Rego, queue: seq<Task>, workers: nat)
    requires workers >= 1
    ensures Inv(rego, Start(queue, workers))
    ensures Total(rego, Start(queue, workers)) == QueueOut(rego, queue)
  {
    WorkersOutQuiet(rego, Start(queue, workers).workers);
  }

  lemma ReturnedIsComplete(rego: Rego, p: Pool)
    requires Inv(rego, p) && p.returned
    ensures Total(rego, p) == multiset(p.collected)
  {
    assert p.workers[0].Exited?;
    WorkersOutQuiet(rego, p.workers);
  }

  /**
   Every run of the pool, whatever the interleaving: it never sends on a closed channel, can always
   move until it returns, takes a bounded number of steps, and what it returns is the queue's results.
   */
  lemma EveryRun(rego: Rego, queue: seq<Task>, workers: nat, schedule: seq<Step>)
    requires workers >= 1 && Legal(rego, Start(queue, workers), schedule)
    ensures
      var p := After(rego, Start(queue, workers), schedule);
      && !(p.tasksClosed && p.queue != [])
      && !(p.resultsClosed && exists w :: 0 <= w < |p.workers| && p.workers[w].Busy? && p.workers[w].rest != [])
      && (p.returned || exists step :: Enabled(rego, p, step))
      && (p.returned ==> multiset(p.collected) == QueueOut(rego, queue))
    ensures |schedule| <= Rank(Start(queue, workers))
  {
    StartIsGood(rego, queue, workers);
    RunKeeps(rego, Start(queue, workers), schedule);
    var p := After(rego, Start(queue, workers), schedule);
    if p.returned {
      ReturnedIsComplete(rego, p);
    } else {
      var step := NoDeadlock(rego, p);
    }
  }

  /** Without workers the pool returns at once and empty handed, its sender left waiting forever. */
  lemma {:induction false} WithoutWorkers(rego: Rego, queue: seq<Task>, schedule: seq<Step>)
    requires Legal(rego, Start(queue, 0), schedule)
    ensures After(rego, Start(queue, 0), schedule).collected == []
    ensures After(rego, Start(queue, 0), schedule).queue == queue
  {
    StaysWithoutWorkers(rego, Start(queue, 0), schedule);
  }

  lemma {:induction false} StaysWithoutWorkers(rego: Rego, p: Pool, schedule: seq<Step>)
    requires p.workers == [] && Legal(rego, p, schedule)
    ensures After(rego, p, schedule).collected == p.collected && After(rego, p, schedule).queue == p.queue
    decreases |schedule|
  {
    if schedule != [] {
      StaysWithoutWorkers(rego, Apply(rego, p, schedule[0]), schedule[1..]);
    }
  }

  function Candidates(workers: nat): set<Step> {
    (set w | 0 <= w < workers :: Take(w)) + (set w | 0 <= w < workers :: Skip(w))
      + (set w | 0 <= w < workers :: Emit(w))
    + (set w | 0 <= w < workers :: Finish(w)) + (set w | 0 <= w < workers :: Exit(w))
    + {CloseTasks, CloseResults, StopCollecting, Return}
  }

  /** One move of an arbitrary scheduler. */
  method Move(rego: Rego, p: Pool) returns (q: Pool)
    requires Inv(rego, p) && !p.returned
    ensures exists step :: Enabled(rego, p, step) && q == Apply(rego, p, step)
  {
    ghost var some := NoDeadlock(rego, p);
    assert some in Candidates(|p.workers|);
    var step :| step in Candidates(|p.workers|) && Enabled(rego, p, step);
    q := Apply(rego, p, step);
  }

  /** The pool run to its end by such a scheduler. */
  method VailOpaRulesResult(rego: Rego, rs: Resources, groups: map<string, seq<OpaRule>>, batchSize: nat, workers: nat)
    returns (results: seq<ResourceResult>)
    requires batchSize >= 1 && workers >= 1
    ensures forall x :: multiset(results)[x] == Due(rego, rs, groups, x.resourceType)[x]
  {
    var queue := SendTasks(rego, rs, groups, batchSize);
    var p := Start(queue, workers);
    StartIsGood(rego, queue, workers);
    while !p.returned
      invariant Inv(rego, p)
      invariant Total(rego, p) == QueueOut(rego, queue)
      decreases Rank(p)
    {
      var q := Move(rego, p);
      ghost var step :| Enabled(rego, p, step) && q == Apply(rego, p, step);
      StepKeepsInv(rego, p, step);
      StepKeepsTotal(rego, p, step);
      StepDecreasesRank(rego, p, step);
      p := q;
    }
    ReturnedIsComplete(rego, p);
    results := p.collected;
  }

  // ---------- The sequential check of a rule list ----------

  /** Every object under a key checked once against the rules about that key, in the order of the list. */
  function Sequential(rego: Rego, keyOf: RuleKey, rules: seq<OpaRule>, rs: Resources,
                      key: string): multiset<ResourceResult>
  {
    multiset(Findings(rego, ResourceDeny, key, RulesFor(keyOf, rules, key), At(rs.resources, key)))
    + multiset(Findings(rego, NodeStatsDeny, key, RulesFor(keyOf, rules, key), At(rs.statsSummary, key)))
  }

  /** Where rules look, node statistics sit only under the key of node statistics, and nothing else does. */
  ghost predicate WellPlaced(rs: Resources, groups: map<string, seq<OpaRule>>) {
    forall key :: key in groups ==>
      if key == NODE_STATS_KEY then At(rs.resources, key) == [] else At(rs.statsSummary, key) == []
  }

  lemma DueIsSequential(rego: Rego, keyOf: RuleKey, rules: seq<OpaRule>, groups: map<string, seq<OpaRule>>,
                        rs: Resources, key: string)
    requires IsGrouping(keyOf, rules, groups) && WellPlaced(rs, groups)
    ensures Due(rego, rs, groups, key) == Sequential(rego, keyOf, rules, rs, key)
  {
    if key !in groups {
      FindingsWithoutRules(rego, ResourceDeny, key, At(rs.resources, key));
      FindingsWithoutRules(rego, NodeStatsDeny, key, At(rs.statsSummary, key));
    }
  }

  lemma FirstIsFound(rego: Rego, query: Query, key: string, rules: seq<OpaRule>, subjects: seq<Subject>)
    requires subjects != [] && Items(rego, query, rules, subjects[0]) != []
    ensures multiset(Findings(rego, query, key, rules, subjects)) > multiset{}
  {
    FindingsHead(rego, query, key, rules, subjects);
    assert Findings(rego, query, key, rules, subjects)[0] == Check(rego, query, key, rules, subjects[0]);
  }

  lemma DueAt(rego: Rego, rs: Resources, groups: map<string, seq<OpaRule>>, key: string)
    requires key in groups
    ensures Due(rego, rs, groups, key)
         == multiset(if key == NODE_STATS_KEY
                     then Findings(rego, NodeStatsDeny, key, groups[key], At(rs.statsSummary, key))
                     else Findings(rego, ResourceDeny, key, groups[key], At(rs.resources, key)))
  {
  }

  /** A misplaced object is never checked by the query that would report it. */
  lemma MisplacedIsLost(keyOf: RuleKey, rules: seq<OpaRule>, groups: map<string, seq<OpaRule>>, rs: Resources)
    returns (rego: Rego, key: string)
    requires IsGrouping(keyOf, rules, groups) && !WellPlaced(rs, groups)
    ensures Due(rego, rs, groups, key) < Sequential(rego, keyOf, rules, rs, key)
  {
    key :| key in groups &&
      !(if key == NODE_STATS_KEY then At(rs.resources, key) == [] else At(rs.statsSummary, key) == []);
    rego := (q, r, s) => PrepareFailed("");
    DueAt(rego, rs, groups, key);
    if key == NODE_STATS_KEY {
      FirstIsFound(rego, ResourceDeny, key, groups[key], At(rs.resources, key));
    } else {
      FirstIsFound(rego, NodeStatsDeny, key, groups[key], At(rs.statsSummary, key));
    }
    Grows(multiset(Findings(rego, ResourceDeny, key, groups[key], At(rs.resources, key))),
          multiset(Findings(rego, NodeStatsDeny, key, groups[key], At(rs.statsSummary, key))));
  }

  lemma Grows<T>(a: multiset<T>, b: multiset<T>)
    ensures a > multiset{} ==> b < a + b
    ensures b > multiset{} ==> a < a + b
  {
    if a > multiset{} {
      var x :| x in a;
      assert (a + b)[x] > b[x];
    }
    if b > multiset{} {
      var x :| x in b;
      assert (a + b)[x] > a[x];
    }
  }

  /** The pool agrees with the sequential check for every rego exactly when the objects are well placed. */
  lemma PoolIsSequentialIff(keyOf: RuleKey, rules: seq<OpaRule>, groups: map<string, seq<OpaRule>>, rs: Resources)
    requires IsGrouping(keyOf, rules, groups)
    ensures WellPlaced(rs, groups)
       <==> forall rego: Rego, key :: Due(rego, rs, groups, key) == Sequential(rego, keyOf, rules, rs, key)
  {
    if WellPlaced(rs, groups) {
      forall rego: Rego, key
        ensures Due(rego, rs, groups, key) == Sequential(rego, keyOf, rules, rs, key)
      {
        DueIsSequential(rego, keyOf, rules, groups, rs, key);
      }
    } else {
      var rego, key := MisplacedIsLost(keyOf, rules, groups, rs);
    }
  }

  // ---------- Collecting the objects and running the whole inspection ----------

  /** Whether the objects of a key are collected as node statistics: the part before the first dot decides. */
  predicate IsStatsKey(key: string) {
    "NodeStatsSummary." <= key
  }

  /** The cluster's objects of each key that has rules, filed as resources or as node statistics. */
  function Collect(groups: map<string, seq<OpaRule>>, cluster: string -> seq<Subject>): Resources {
    Resources(map key | key in groups && !IsStatsKey(key) :: cluster(key),
              map key | key in groups && IsStatsKey(key) :: cluster(key))
  }

  /** Every object the cluster has under a key, checked once against the rules about that key. */
  function Reference(rego: Rego, keyOf: RuleKey, rules: seq<OpaRule>, cluster: string -> seq<Subject>,
                     key: string): multiset<ResourceResult>
  {
    var query := if IsStatsKey(key) then NodeStatsDeny else ResourceDeny;
    multiset(Findings(rego, query, key, RulesFor(keyOf, rules, key), cluster(key)))
  }

  /** Node statistics of a version other than v1 are collected but never looked at. */
  predicate Ignored(key: string) {
    IsStatsKey(key) && key != NODE_STATS_KEY
  }

  lemma DueIsReference(rego: Rego, keyOf: RuleKey, rules: seq<OpaRule>, groups: map<string, seq<OpaRule>>,
                       cluster: string -> seq<Subject>, key: string)
    requires IsGrouping(keyOf, rules, groups)
    ensures Due(rego, Collect(groups, cluster), groups, key)
         == if Ignored(key) then multiset{} else Reference(rego, keyOf, rules, cluster, key)
  {
    if key in groups {
      DueAt(rego, Collect(groups, cluster), groups, key);
    } else {
      FindingsWithoutRules(rego, if IsStatsKey(key) then NodeStatsDeny else ResourceDeny, key, cluster(key));
    }
  }

  /**
   What is due under the key of a result: the result once for each object of its name that answers its items to
   the rules about the key, with the namespace of the object or, for node statistics, none.
   */
  lemma ReferenceIs(rego: Rego, keyOf: RuleKey, rules: seq<OpaRule>, cluster: string -> seq<Subject>, x: ResourceResult)
    ensures
      var stats := "NodeStatsSummary." <= x.resourceType;
      var query := if stats then NodeStatsDeny else ResourceDeny;
      var about := Filter((r: OpaRule) => keyOf(r.rule) == Some(x.resourceType), rules);
      Reference(rego, keyOf, rules, cluster, x.resourceType)[x]
      == if x.items == [] then 0
         else |Filter((s: Subject) =>
                        && x.name == s.name && x.namespace == (if stats then "" else s.namespace)
                        && x.items == Items(rego, query, about, s),
                      cluster(x.resourceType))|
  {
    var stats := "NodeStatsSummary." <= x.resourceType;
    var query := if stats then NodeStatsDeny else ResourceDeny;
    var about := Filter((r: OpaRule) => keyOf(r.rule) == Some(x.resourceType), rules);
    RulesForIs(keyOf, rules, x.resourceType);
    FindingsCount(rego, query, x.resourceType, about, cluster(x.resourceType), x);
    FilterSame((s: Subject) => Check(rego, query, x.resourceType, about, s) == x,
               (s: Subject) =>
                 && x.name == s.name && x.namespace == (if stats then "" else s.namespace)
                 && x.items == Items(rego, query, about, s),
               cluster(x.resourceType));
  }

  /** What the cluster holds under a key, or nothing when it cannot be fetched. */
  type Fetch = string -> Option<seq<Subject>>

  function Fetched(fetch: Fetch): string -> seq<Subject> {
    (key: string) => match fetch(key) case None => [] case Some(subjects) => subjects
  }

  /** Fetches the objects of every key in turn, in any order, and stops at the first error. */
  method CollectAll(groups: map<string, seq<OpaRule>>, fetch: Fetch) returns (rs: Option<Resources>)
    ensures rs.Some? <==> forall key :: key in groups ==> fetch(key).Some?
    ensures rs.Some? ==> rs.value == Collect(groups, Fetched(fetch))
  {
    var resources: map<string, seq<Subject>>, statsSummary: map<string, seq<Subject>> := map[], map[];
    var todo := groups.Keys;
    while todo != {}
      invariant todo <= groups.Keys
      invariant forall key :: key in groups && key !in todo ==> fetch(key).Some?
      invariant Collected(groups, fetch, todo, resources, statsSummary)
      decreases |todo|
    {
      var key :| key in todo;
      match fetch(key) {
        case None => return None;
        case Some(subjects) =>
          CollectStep(groups, fetch, todo, resources, statsSummary, key);
          if IsStatsKey(key) {
            statsSummary := statsSummary[key := subjects];
          } else {
            resources := resources[key := subjects];
          }
      }
      todo := todo - {key};
    }
    return Some(Resources(resources, statsSummary));
  }

  ghost predicate Collected(groups: map<string, seq<OpaRule>>, fetch: Fetch, todo: set<string>,
                            resources: map<string, seq<Subject>>, statsSummary: map<string, seq<Subject>>)
  {
    && resources == (map key | key in groups && key !in todo && !IsStatsKey(key) :: Fetched(fetch)(key))
    && statsSummary == (map key | key in groups && key !in todo && IsStatsKey(key) :: Fetched(fetch)(key))
  }

  lemma CollectStep(groups: map<string, seq<OpaRule>>, fetch: Fetch, todo: set<string>,
                    resources: map<string, seq<Subject>>, statsSummary: map<string, seq<Subject>>, key: string)
    requires Collected(groups, fetch, todo, resources, statsSummary) && key in todo && key in groups
    ensures
      var subjects := Fetched(fetch)(key);
      if IsStatsKey(key) then Collected(groups, fetch, todo - {key}, resources, statsSummary[key := subjects])
      else Collected(groups, fetch, todo - {key}, resources[key := subjects], statsSummary)
  {
  }

  lemma GroupKeys(keyOf: RuleKey, rules: seq<OpaRule>, groups: map<string, seq<OpaRule>>)
    requires IsGrouping(keyOf, rules, groups)
    ensures forall key :: key in groups <==> exists r :: r in rules && keyOf(r.rule) == Some(key)
  {
    forall key
      ensures RulesFor(keyOf, rules, key) != [] <==> exists r :: r in rules && keyOf(r.rule) == Some(key)
    {
      RulesForMembers(keyOf, rules, key);
    }
  }

  lemma {:induction false} RulesForMembers(keyOf: RuleKey, rules: seq<OpaRule>, key: string)
    ensures RulesFor(keyOf, rules, key) != [] <==> exists r :: r in rules && keyOf(r.rule) == Some(key)
  {
    if rules != [] {
      var init, last := rules[..|rules| - 1], rules[|rules| - 1];
      RulesForMembers(keyOf, init, key);
      assert rules == init + [last];
      assert last in rules;
    }
  }

  /** The whole OPA inspection: group the rules, collect the objects, run the pool. */
  method RunInspect(rego: Rego, keyOf: RuleKey, rules: seq<OpaRule>, fetch: Fetch, batchSize: nat, workers: nat)
    returns (results: Option<seq<ResourceResult>>)
    requires batchSize >= 1 && workers >= 1
    ensures results.Some? <==>
      forall r :: r in rules ==> keyOf(r.rule).Some? && fetch(keyOf(r.rule).value).Some?
    ensures results.Some? ==>
      forall x :: multiset(results.value)[x]
               == if "NodeStatsSummary." <= x.resourceType && x.resourceType != "NodeStatsSummary.v1" then 0
                  else Reference(rego, keyOf, rules, Fetched(fetch), x.resourceType)[x]
  {
    var manager := new RulesManager();
    var ok := manager.AddRules(keyOf, rules);
    if !ok {
      return None;
    }
    var groups := manager.Rules;
    GroupKeys(keyOf, rules, groups);
    var rs := CollectAll(groups, fetch);
    if rs.None? {
      return None;
    }
    var found := VailOpaRulesResult(rego, rs.value, groups, batchSize, workers);
    forall x: ResourceResult
      ensures multiset(found)[x]
           == if Ignored(x.resourceType) then 0
              else Reference(rego, keyOf, rules, Fetched(fetch), x.resourceType)[x]
    {
      DueIsReference(rego, keyOf, rules, groups, Fetched(fetch), x.resourceType);
    }
    return Some(found);
  }
}
