/**
 The job runner of a task: one goroutine a job, a semaphore that bounds how many run at once, a loop
 that polls each job until it is over, and a mutex around collecting results.  Every append to the
 list of job phases is one atomic step.
 */
module JobRunner {
  import opened Wrappers
  import opened Sequences
  import opened Totals
  import opened Phases

  // ---------- The size of the semaphore ----------

  /** Rounding half away from zero, for the non-negative values met here. */
  function Round(x: real): int
    requires x >= 0.0
  {
    (x + 0.5).Floor
  }

  function ComputedDeployNum(nodes: nat, jobs: nat): (n: nat)
    ensures n >= 5
    ensures n >= nodes
    ensures n > 5 ==> 10 * nodes + jobs - 5 < 10 * n <= 10 * nodes + jobs + 5
  {
    var runNumber := Round(nodes as real + jobs as real * 0.1);
    if runNumber > 5 then runNumber else 5
  }

  // ---------- Waiting for one job ----------

  /** Times and durations are in milliseconds. */
  const POLL_INTERVAL := 10_000

  predicate IsTimeout(start: int, timeout: int, now: int) {
    start + timeout < now
  }

  /**
   What asking for a job answers: an error, or whether it failed, whether it has a completion time, and its
   active pods.
   */
  datatype Report = GetError | Report(failed: bool, completed: bool, active: nat)

  datatype Poll = Missing | Late | JobFailed | Complete | Unfinished

  function Classify(report: Report, late: bool): Poll {
    match report
    case GetError => Missing
    case Report(failed, completed, active) =>
      if late then Late
      else if failed then JobFailed
      else if completed && active == 0 then Complete
      else Unfinished
  }

  function VerdictOf(poll: Poll): Phase {
    if poll == Complete then Succeeded else Failed
  }

  /** The polls of one job: all but the last find it unfinished, the last decides. */
  predicate IsPolling(polls: seq<Poll>) {
    && polls != []
    && polls[|polls| - 1] != Unfinished
    && forall k :: 0 <= k < |polls| - 1 ==> polls[k] == Unfinished
  }

  function PollBound(timeout: int): nat {
    if timeout < 0 then 1 else timeout / POLL_INTERVAL + 2
  }

  /** What the k-th poll finds. */
  function PollAt(created: int, timeout: int, reports: nat -> Report, clock: nat -> int, k: nat): Poll {
    Classify(reports(k), IsTimeout(created, timeout, clock(k)))
  }

  function Polls(created: int, timeout: int, reports: nat -> Report, clock: nat -> int, n: nat): seq<Poll> {
    seq(n, k requires 0 <= k < n => PollAt(created, timeout, reports, clock, k))
  }

  /**
   The polling loop, against any job and any clock that moves on by at least the interval it sleeps.
   The job was created at a time of the server's clock, which may be ahead of or behind this one.
   */
  method WaitForJobCompletion(created: int, timeout: int, reports: nat -> Report, clock: nat -> int)
    returns (phase: Phase)
    requires forall k: nat :: clock(k + 1) >= clock(k) + POLL_INTERVAL
    ensures phase == Succeeded || phase == Failed
    ensures phase == Succeeded <==>
      exists k: nat ::
        && reports(k).Report? && clock(k) <= created + timeout && !reports(k).failed
        && reports(k).completed && reports(k).active == 0
        && forall j: nat :: j < k ==>
             && reports(j).Report? && clock(j) <= created + timeout && !reports(j).failed
             && !(reports(j).completed && reports(j).active == 0)
    ensures exists n ::
      var polls := Polls(created, timeout, reports, clock, n);
      && IsPolling(polls) && phase == VerdictOf(polls[|polls| - 1])
      && |polls| <= (if timeout + created < clock(0) then 1 else (timeout + created - clock(0)) / 10_000 + 2)
      && (clock(0) >= created ==> |polls| <= if timeout < 0 then 1 else timeout / 10_000 + 2)
  {
    var k := 0;
    while true
      invariant forall j :: 0 <= j < k ==> PollAt(created, timeout, reports, clock, j) == Unfinished
      invariant clock(k) >= clock(0) + k * POLL_INTERVAL
      invariant k > 0 ==> (k - 1) * POLL_INTERVAL <= timeout + created - clock(0)
      decreases PollBound(timeout + created - clock(0)) - k
    {
      var report := reports(k);
      var late := IsTimeout(created, timeout, clock(k));
      if PollAt(created, timeout, reports, clock, k) != Unfinished {
        Decided(created, timeout, reports, clock, k);
      }
      if report.GetError? {
        return Failed;
      }
      if late {
        return Failed;
      }
      if report.failed {
        return Failed;
      }
      if report.completed && report.active == 0 {
        return Succeeded;
      }
      assert k * POLL_INTERVAL <= timeout + created - clock(0);
      k := k + 1;
    }
  }

  /** The k-th poll decides. */
  lemma Decided(created: int, timeout: int, reports: nat -> Report, clock: nat -> int, k: nat)
    requires forall j :: 0 <= j < k ==> PollAt(created, timeout, reports, clock, j) == Unfinished
    requires PollAt(created, timeout, reports, clock, k) != Unfinished
    requires k > 0 ==> (k - 1) * POLL_INTERVAL <= timeout + created - clock(0)
    ensures
      var polls := Polls(created, timeout, reports, clock, k + 1);
      && IsPolling(polls) && polls[|polls| - 1] == PollAt(created, timeout, reports, clock, k)
      && |polls| <= (if timeout + created < clock(0) then 1 else (timeout + created - clock(0)) / 10_000 + 2)
      && (clock(0) >= created ==> |polls| <= if timeout < 0 then 1 else timeout / 10_000 + 2)
    ensures PollAt(created, timeout, reports, clock, k) == Complete <==>
      exists k: nat ::
        && reports(k).Report? && clock(k) <= created + timeout && !reports(k).failed
        && reports(k).completed && reports(k).active == 0
        && forall j: nat :: j < k ==>
             && reports(j).Report? && clock(j) <= created + timeout && !reports(j).failed
             && !(reports(j).completed && reports(j).active == 0)
  {
    CompleteIff(created, timeout, reports, clock, k + 1);
    assert k <= PollBound(timeout + created - clock(0)) - 1;
  }

  /** The last poll finds the job complete exactly when the answers, taken in turn, say so before anything else. */
  lemma CompleteIff(created: int, timeout: int, reports: nat -> Report, clock: nat -> int, n: nat)
    requires IsPolling(Polls(created, timeout, reports, clock, n))
    ensures Polls(created, timeout, reports, clock, n)[n - 1] == Complete <==>
      exists k: nat ::
        && reports(k).Report? && clock(k) <= created + timeout && !reports(k).failed
        && reports(k).completed && reports(k).active == 0
        && forall j: nat :: j < k ==>
             && reports(j).Report? && clock(j) <= created + timeout && !reports(j).failed
             && !(reports(j).completed && reports(j).active == 0)
  {
    var polls := Polls(created, timeout, reports, clock, n);
    forall j: nat | j < n - 1
      ensures
        && reports(j).Report? && clock(j) <= created + timeout && !reports(j).failed
        && !(reports(j).completed && reports(j).active == 0)
    {
      assert polls[j] == Unfinished;
    }
    assert polls[n - 1] == Classify(reports(n - 1), IsTimeout(created, timeout, clock(n - 1)));
    if k: nat :|
      && reports(k).Report? && clock(k) <= created + timeout && !reports(k).failed
      && reports(k).completed && reports(k).active == 0
      && forall j: nat :: j < k ==>
           && reports(j).Report? && clock(j) <= created + timeout && !reports(j).failed
           && !(reports(j).completed && reports(j).active == 0)
    {
      assert k == n - 1;
    }
  }

  // ---------- The runner as a step relation ----------

  /** Everything a job's goroutine observes, in the order it looks. */
  datatype Script = Script(
    late: bool,          // the task had timed out when the goroutine started
    registered: bool,    // there is an operator for the rule type
    deployable: bool,    // a ready node without unfinished work
    created: bool,       // the job could be created
    polls: seq<Poll>,
    fetched: bool)       // reading the result data succeeded
  {
    function Verdict(): Phase
      requires polls != []
    {
      VerdictOf(polls[|polls| - 1])
    }

    predicate Runs() {
      !late && registered && deployable && created
    }

    /** The phases the job's goroutine appends, in order. */
    function Emits(): seq<Phase>
      requires polls != []
    {
      if Runs() then [Verdict()] + (if fetched then [] else [Failed])
      else if late || registered then [Failed]
      else []
    }
  }

  datatype Stage =
    | Unlaunched
    | Started
    | Polling(k: nat)
    | Locking(phase: Phase)      // waiting for the mutex
    | Fetching(phase: Phase)     // result appended, mutex held
    | Unlocking                  // mutex held
    | Leaving                    // body over, wg.Done() next
    | Releasing                  // semaphore token to be given back
    | Gone

  datatype Runner = Runner(next: nat, tokens: nat, stages: seq<Stage>, lock: Option<nat>, names: seq<JobPhase>,
    returned: bool)

  /**
   Launch takes a token and starts the next goroutine, Act(i) is the next step of goroutine i, Return ends
   wg.Wait().
   */
  datatype Step = Launch | Act(i: nat) | Return

  predicate Finished(stage: Stage) {
    stage.Releasing? || stage.Gone?
  }

  predicate Enabled(cap: nat, scripts: seq<Script>, r: Runner, step: Step)
    requires |r.stages| == |scripts|
  {
    match step
    case Launch => r.next < |scripts| && r.tokens < cap
    case Act(i) => i < |scripts| && !r.stages[i].Unlaunched? && !r.stages[i].Gone?
      && (r.stages[i].Locking? ==> r.lock.None?)
    case Return => r.next == |scripts| && !r.returned && forall i :: 0 <= i < |scripts| ==> Finished(r.stages[i])
  }

  /** A goroutine's next stage, and the phases the step appends. */
  function Advance(s: Script, stage: Stage): (Stage, seq<Phase>) {
    match stage
    case Unlaunched => (Started, [])
    case Started =>
      if s.late then (Leaving, [Failed])
      else if !s.registered then (Leaving, [])
      else if !s.deployable then (Leaving, [Failed])
      else if !s.created then (Leaving, [Failed])
      else (Polling(0), [])
    case Polling(k) =>
      if k < |s.polls| && s.polls[k] == Unfinished then (Polling(k + 1), [])
      else (Locking(if k < |s.polls| then VerdictOf(s.polls[k]) else Failed), [])
    case Locking(phase) => (Fetching(phase), [phase])
    case Fetching(_) => (Unlocking, if s.fetched then [] else [Failed])
    case Unlocking => (Leaving, [])
    case Leaving => (Releasing, [])
    case Releasing => (Gone, [])
    case Gone => (Gone, [])
  }

  function Named(job: nat, phases: seq<Phase>): seq<JobPhase> {
    seq(|phases|, k requires 0 <= k < |phases| => JobPhase(job, phases[k]))
  }

  function LockAfter(lock: Option<nat>, i: nat, stage: Stage): Option<nat> {
    match stage
    case Locking(_) => Some(i)
    case Unlocking => None
    case _ => lock
  }

  function Apply(cap: nat, scripts: seq<Script>, r: Runner, step: Step): (r': Runner)
    requires |r.stages| == |scripts| && Enabled(cap, scripts, r, step)
    ensures |r'.stages| == |scripts|
  {
    match step
    case Launch => r.(next := r.next + 1, tokens := r.tokens + 1, stages := r.stages[r.next := Started])
    case Act(i) =>
      var (stage, phases) := Advance(scripts[i], r.stages[i]);
      r.(stages := r.stages[i := stage],
         names := r.names + Named(i, phases),
         lock := LockAfter(r.lock, i, r.stages[i]),
         tokens := if r.stages[i].Releasing? && r.tokens > 0 then r.tokens - 1 else r.tokens)
    case Return => r.(returned := true)
  }

  function Start(jobs: nat): Runner {
    Runner(0, 0, seq(jobs, _ => Unlaunched), None, [], false)
  }

  predicate Legal(cap: nat, scripts: seq<Script>, r: Runner, schedule: seq<Step>)
    requires |r.stages| == |scripts|
    decreases |schedule|
  {
    schedule == []
    || (Enabled(cap, scripts, r, schedule[0])
      && Legal(cap, scripts, Apply(cap, scripts, r, schedule[0]), schedule[1..]))
  }

  function After(cap: nat, scripts: seq<Script>, r: Runner, schedule: seq<Step>): (r': Runner)
    requires |r.stages| == |scripts| && Legal(cap, scripts, r, schedule)
    ensures |r'.stages| == |scripts|
    decreases |schedule|
  {
    if schedule == [] then r else After(cap, scripts, Apply(cap, scripts, r, schedule[0]), schedule[1..])
  }

  // ---------- What every step keeps ----------

  /** Whether a goroutine in this stage holds a semaphore token. */
  function Holds(stage: Stage): nat {
    if stage.Unlaunched? || stage.Gone? then 0 else 1
  }

  const HOLDS: Stage -> nat := (s: Stage) => Holds(s)

  /** Whether the goroutine's job body is running. */
  function Running(stage: Stage): nat {
    if stage.Unlaunched? || stage.Leaving? || Finished(stage) then 0 else 1
  }

  const RUNNING: Stage -> nat := (s: Stage) => Running(s)

  function InFlight(r: Runner): nat {
    Sum(Map(RUNNING, r.stages))
  }

  predicate HasLock(stage: Stage) {
    stage.Fetching? || stage.Unlocking?
  }

  /** A goroutine's stage agrees with what it has observed. */
  predicate OnScript(s: Script, stage: Stage)
    requires s.polls != []
  {
    match stage
    case Polling(k) => s.Runs() && k < |s.polls| && forall j :: 0 <= j < k ==> s.polls[j] == Unfinished
    case Locking(phase) => s.Runs() && phase == s.Verdict()
    case Fetching(phase) => s.Runs() && phase == s.Verdict()
    case Unlocking => s.Runs()
    case _ => true
  }

  /** The phases a goroutine has appended by the time it reaches a stage. */
  function Emitted(s: Script, stage: Stage): seq<Phase>
    requires s.polls != []
  {
    match stage
    case Fetching(phase) => [s.Verdict()]
    case Unlocking => s.Emits()
    case Leaving => s.Emits()
    case Releasing => s.Emits()
    case Gone => s.Emits()
    case _ => []
  }

  predicate AllPolling(scripts: seq<Script>) {
    forall i :: 0 <= i < |scripts| ==> IsPolling(scripts[i].polls)
  }

  function NamesDue(scripts: seq<Script>, stages: seq<Stage>): seq<multiset<JobPhase>>
    requires |stages| == |scripts| && AllPolling(scripts)
  {
    seq(|scripts|, i requires 0 <= i < |scripts| => multiset(Named(i, Emitted(scripts[i], stages[i]))))
  }

  ghost predicate InvStages(scripts: seq<Script>, r: Runner)
    requires |r.stages| == |scripts| && AllPolling(scripts)
  {
    && r.next <= |scripts|
    && (forall i :: 0 <= i < |scripts| ==> (r.stages[i].Unlaunched? <==> r.next <= i))
    && (forall i :: 0 <= i < |scripts| ==> OnScript(scripts[i], r.stages[i]))
    && (r.returned ==> r.next == |scripts| && forall i :: 0 <= i < |scripts| ==> Finished(r.stages[i]))
  }

  ghost predicate InvLock(r: Runner) {
    && (r.lock.Some? ==> r.lock.value < |r.stages| && HasLock(r.stages[r.lock.value]))
    && (forall i :: 0 <= i < |r.stages| && HasLock(r.stages[i]) ==> r.lock == Some(i))
  }

  ghost predicate InvTokens(cap: nat, r: Runner) {
    r.tokens == Sum(Map(HOLDS, r.stages)) && r.tokens <= cap
  }

  ghost predicate InvNames(scripts: seq<Script>, r: Runner)
    requires |r.stages| == |scripts| && AllPolling(scripts)
  {
    multiset(r.names) == Union(NamesDue(scripts, r.stages))
  }

  ghost predicate Inv(cap: nat, scripts: seq<Script>, r: Runner)
    requires |r.stages| == |scripts| && AllPolling(scripts)
  {
    InvStages(scripts, r) && InvLock(r) && InvTokens(cap, r) && InvNames(scripts, r)
  }

  /** One step of a goroutine appends exactly what brings it from one stage to the next. */
  lemma AdvanceEmits(s: Script, stage: Stage)
    requires IsPolling(s.polls) && OnScript(s, stage)
    ensures OnScript(s, Advance(s, stage).0)
    ensures Emitted(s, Advance(s, stage).0) == Emitted(s, stage) + Advance(s, stage).1
  {
  }

  lemma NamedConcat(i: nat, a: seq<Phase>, b: seq<Phase>)
    ensures multiset(Named(i, a + b)) == multiset(Named(i, a)) + multiset(Named(i, b))
  {
    assert Named(i, a + b) == Named(i, a) + Named(i, b);
  }

  lemma NamesDueUpdate(scripts: seq<Script>, stages: seq<Stage>, i: nat, stage: Stage)
    requires |stages| == |scripts| && AllPolling(scripts) && i < |scripts|
    ensures NamesDue(scripts, stages[i := stage])
      == NamesDue(scripts, stages)[i := multiset(Named(i, Emitted(scripts[i], stage)))]
  {
  }

  /** The list of names and the names due grow together. */
  lemma NamesStep(scripts: seq<Script>, stages: seq<Stage>, names: seq<JobPhase>, i: nat, stage: Stage,
                  phases: seq<Phase>)
    requires |stages| == |scripts| && AllPolling(scripts) && i < |scripts|
    requires Emitted(scripts[i], stage) == Emitted(scripts[i], stages[i]) + phases
    requires multiset(names) == Union(NamesDue(scripts, stages))
    ensures multiset(names + Named(i, phases)) == Union(NamesDue(scripts, stages[i := stage]))
  {
    var more := multiset(Named(i, phases));
    var due' := NamesDue(scripts, stages[i := stage]);
    NamesDueUpdate(scripts, stages, i, stage);
    NamedConcat(i, Emitted(scripts[i], stages[i]), phases);
    assert due'[i := multiset(Named(i, Emitted(scripts[i], stages[i])))] == NamesDue(scripts, stages);
    UnionGives(due', i, multiset(Named(i, Emitted(scripts[i], stages[i]))), more);
  }

  lemma ActKeepsStages(cap: nat, scripts: seq<Script>, r: Runner, i: nat)
    requires |r.stages| == |scripts| && AllPolling(scripts)
    requires InvStages(scripts, r) && Enabled(cap, scripts, r, Act(i))
    ensures InvStages(scripts, Apply(cap, scripts, r, Act(i)))
  {
    AdvanceEmits(scripts[i], r.stages[i]);
  }

  lemma ActKeepsLock(cap: nat, scripts: seq<Script>, r: Runner, i: nat)
    requires |r.stages| == |scripts|
    requires InvLock(r) && Enabled(cap, scripts, r, Act(i))
    ensures InvLock(Apply(cap, scripts, r, Act(i)))
  {
  }

  lemma StageKeepsTokens(stages: seq<Stage>, i: nat, stage: Stage)
    requires i < |stages|
    ensures Sum(Map(HOLDS, stages[i := stage])) + Holds(stages[i]) == Sum(Map(HOLDS, stages)) + Holds(stage)
  {
    MapUpdate(HOLDS, stages, i, stage);
    SumUpdate(Map(HOLDS, stages), i, Holds(stage));
  }

  lemma ActKeepsNames(cap: nat, scripts: seq<Script>, r: Runner, i: nat)
    requires |r.stages| == |scripts| && AllPolling(scripts)
    requires InvStages(scripts, r) && InvNames(scripts, r) && Enabled(cap, scripts, r, Act(i))
    ensures InvNames(scripts, Apply(cap, scripts, r, Act(i)))
  {
    var (stage, phases) := Advance(scripts[i], r.stages[i]);
    AdvanceEmits(scripts[i], r.stages[i]);
    NamesStep(scripts, r.stages, r.names, i, stage, phases);
  }

  lemma ActKeepsTokens(cap: nat, scripts: seq<Script>, r: Runner, i: nat)
    requires |r.stages| == |scripts|
    requires InvTokens(cap, r) && Enabled(cap, scripts, r, Act(i))
    ensures InvTokens(cap, Apply(cap, scripts, r, Act(i)))
  {
    StageKeepsTokens(r.stages, i, Advance(scripts[i], r.stages[i]).0);
  }

  lemma LaunchKeepsStages(cap: nat, scripts: seq<Script>, r: Runner)
    requires |r.stages| == |scripts| && AllPolling(scripts)
    requires InvStages(scripts, r) && InvLock(r) && Enabled(cap, scripts, r, Launch)
    ensures InvStages(scripts, Apply(cap, scripts, r, Launch)) && InvLock(Apply(cap, scripts, r, Launch))
  {
    assert r.stages[r.next].Unlaunched?;
  }

  lemma LaunchKeepsInv(cap: nat, scripts: seq<Script>, r: Runner)
    requires |r.stages| == |scripts| && AllPolling(scripts)
    requires Inv(cap, scripts, r) && Enabled(cap, scripts, r, Launch)
    ensures Inv(cap, scripts, Apply(cap, scripts, r, Launch))
  {
    LaunchKeepsStages(cap, scripts, r);
    StageKeepsTokens(r.stages, r.next, Started);
    NamesStep(scripts, r.stages, r.names, r.next, Started, []);
    assert r.names + Named(r.next, []) == r.names;
  }

  lemma StepKeepsInv(cap: nat, scripts: seq<Script>, r: Runner, step: Step)
    requires |r.stages| == |scripts| && AllPolling(scripts)
    requires Inv(cap, scripts, r) && Enabled(cap, scripts, r, step)
    ensures Inv(cap, scripts, Apply(cap, scripts, r, step))
  {
    if step == Launch {
      LaunchKeepsInv(cap, scripts, r);
    } else if step.Act? {
      ActKeepsStages(cap, scripts, r, step.i);
      ActKeepsLock(cap, scripts, r, step.i);
      ActKeepsTokens(cap, scripts, r, step.i);
      ActKeepsNames(cap, scripts, r, step.i);
    }
  }

  // ---------- Progress ----------

  function StageRank(s: Script, stage: Stage): nat {
    match stage
    case Unlaunched => 7 + |s.polls|
    case Started => 6 + |s.polls|
    case Polling(k) => 5 + (if k < |s.polls| then |s.polls| - k else 0)
    case Locking(_) => 5
    case Fetching(_) => 4
    case Unlocking => 3
    case Leaving => 2
    case Releasing => 1
    case Gone => 0
  }

  function StageRanks(scripts: seq<Script>, stages: seq<Stage>): seq<nat>
    requires |stages| == |scripts|
  {
    seq(|scripts|, i requires 0 <= i < |scripts| => StageRank(scripts[i], stages[i]))
  }

  function Rank(scripts: seq<Script>, r: Runner): nat
    requires |r.stages| == |scripts|
  {
    Sum(StageRanks(scripts, r.stages)) + (if r.returned then 0 else 1)
  }

  lemma StageLowersRank(scripts: seq<Script>, stages: seq<Stage>, i: nat, stage: Stage)
    requires |stages| == |scripts| && i < |scripts| && StageRank(scripts[i], stage) < StageRank(scripts[i], stages[i])
    ensures Sum(StageRanks(scripts, stages[i := stage])) < Sum(StageRanks(scripts, stages))
  {
    assert StageRanks(scripts, stages[i := stage]) == StageRanks(scripts, stages)[i := StageRank(scripts[i], stage)];
    SumUpdate(StageRanks(scripts, stages), i, StageRank(scripts[i], stage));
  }

  lemma StepDecreasesRank(cap: nat, scripts: seq<Script>, r: Runner, step: Step)
    requires |r.stages| == |scripts| && AllPolling(scripts)
    requires InvStages(scripts, r) && Enabled(cap, scripts, r, step)
    ensures Rank(scripts, Apply(cap, scripts, r, step)) < Rank(scripts, r)
  {
    if step == Launch {
      StageLowersRank(scripts, r.stages, r.next, Started);
    } else if step.Act? {
      StageLowersRank(scripts, r.stages, step.i, Advance(scripts[step.i], r.stages[step.i]).0);
    }
  }

  lemma {:induction false} SumZero(parts: seq<nat>)
    requires forall i :: 0 <= i < |parts| ==> parts[i] == 0
    ensures Sum(parts) == 0
  {
    if parts != [] {
      SumZero(parts[1..]);
    }
  }

  ghost predicate Over(r: Runner) {
    r.returned && forall i :: 0 <= i < |r.stages| ==> r.stages[i].Gone?
  }

  /**
   Until the runner has returned and every goroutine is gone, some step is enabled: the launch loop cannot block
   forever.
   */
  lemma NoDeadlock(cap: nat, scripts: seq<Script>, r: Runner) returns (step: Step)
    requires |r.stages| == |scripts| && AllPolling(scripts)
    requires cap >= 1 && Inv(cap, scripts, r) && !Over(r)
    ensures Enabled(cap, scripts, r, step)
  {
    if r.lock.Some? {
      step := Act(r.lock.value);
    } else if i :| 0 <= i < |scripts| && !r.stages[i].Unlaunched? && !r.stages[i].Gone? {
      step := Act(i);
    } else if r.next < |scripts| {
      SumZero(Map(HOLDS, r.stages));
      step := Launch;
    } else {
      step := Return;
    }
  }

  // ---------- Whole runs ----------

  lemma StartIsGood(cap: nat, scripts: seq<Script>)
    requires AllPolling(scripts)
    ensures Inv(cap, scripts, Start(|scripts|))
  {
    var r := Start(|scripts|);
    SumZero(Map(HOLDS, r.stages));
    UnionEmpty(NamesDue(scripts, r.stages));
  }

  lemma {:induction false} RunKeeps(cap: nat, scripts: seq<Script>, r: Runner, schedule: seq<Step>)
    requires |r.stages| == |scripts| && AllPolling(scripts)
    requires Inv(cap, scripts, r) && Legal(cap, scripts, r, schedule)
    ensures Inv(cap, scripts, After(cap, scripts, r, schedule))
    ensures |schedule| + Rank(scripts, After(cap, scripts, r, schedule)) <= Rank(scripts, r)
    decreases |schedule|
  {
    if schedule != [] {
      StepKeepsInv(cap, scripts, r, schedule[0]);
      StepDecreasesRank(cap, scripts, r, schedule[0]);
      RunKeeps(cap, scripts, Apply(cap, scripts, r, schedule[0]), schedule[1..]);
    }
  }

  lemma {:induction false} SumMonotone(a: seq<nat>, b: seq<nat>)
    requires |a| == |b| && forall i :: 0 <= i < |a| ==> a[i] <= b[i]
    ensures Sum(a) <= Sum(b)
  {
    if a != [] {
      SumMonotone(a[1..], b[1..]);
    }
  }

  /** The goroutines that run a job body are at most the running ones. */
  lemma {:induction false} BodiesInFlight(stages: seq<Stage>)
    ensures |set i | 0 <= i < |stages| && !stages[i].Unlaunched? && !stages[i].Leaving?
                     && !stages[i].Releasing? && !stages[i].Gone?| <= Sum(Map(RUNNING, stages))
  {
    if stages != [] {
      var n := |stages| - 1;
      var init := stages[..n];
      BodiesInFlight(init);
      var before :=
        set i | 0 <= i < n && !init[i].Unlaunched? && !init[i].Leaving? && !init[i].Releasing? && !init[i].Gone?;
      var all := set i | 0 <= i < |stages| && !stages[i].Unlaunched? && !stages[i].Leaving?
                         && !stages[i].Releasing? && !stages[i].Gone?;
      assert all - {n} == before;
      assert Map(RUNNING, stages) == Map(RUNNING, init) + [Running(stages[n])];
      SumConcat(Map(RUNNING, init), [Running(stages[n])]);
      assert Sum([Running(stages[n])]) == Running(stages[n]) + Sum([]);
    }
  }

  /** Only goroutines that hold a token run a job body. */
  lemma InFlightIsBounded(cap: nat, r: Runner)
    requires InvTokens(cap, r)
    ensures InFlight(r) <= cap
  {
    SumMonotone(Map(RUNNING, r.stages), Map(HOLDS, r.stages));
  }

  lemma StartRank(scripts: seq<Script>, timeout: int)
    requires forall i :: 0 <= i < |scripts| ==> |scripts[i].polls| <= PollBound(timeout)
    ensures Rank(scripts, Start(|scripts|)) <= |scripts| * (7 + PollBound(timeout)) + 1
  {
    SumBound(StageRanks(scripts, Start(|scripts|).stages), 7 + PollBound(timeout));
  }

  /**
   Every run of the job runner, whatever the interleaving and whatever the jobs observe: at most
   ComputedDeployNum job bodies are in flight, some step is enabled until everything is over, and the
   number of steps is bounded.
   */
  lemma EveryRun(nodes: nat, scripts: seq<Script>, timeout: int, schedule: seq<Step>)
    requires AllPolling(scripts) && forall i :: 0 <= i < |scripts| ==> |scripts[i].polls| <= PollBound(timeout)
    requires Legal(ComputedDeployNum(nodes, |scripts|), scripts, Start(|scripts|), schedule)
    ensures
      var cap := ComputedDeployNum(nodes, |scripts|);
      var r := After(cap, scripts, Start(|scripts|), schedule);
      && InFlight(r) <= cap
      && |set i | 0 <= i < |scripts| && !r.stages[i].Unlaunched? && !r.stages[i].Leaving?
                  && !r.stages[i].Releasing? && !r.stages[i].Gone?| <= cap
      && ((r.returned && forall i :: 0 <= i < |scripts| ==> r.stages[i].Gone?)
          || exists step :: Enabled(cap, scripts, r, step))
    ensures |schedule| <= |scripts| * (7 + PollBound(timeout)) + 1
  {
    var cap := ComputedDeployNum(nodes, |scripts|);
    StartIsGood(cap, scripts);
    RunKeeps(cap, scripts, Start(|scripts|), schedule);
    var r := After(cap, scripts, Start(|scripts|), schedule);
    InFlightIsBounded(cap, r);
    BodiesInFlight(r.stages);
    StartRank(scripts, timeout);
    if !Over(r) {
      var step := NoDeadlock(cap, scripts, r);
    }
  }

  // ---------- The outcome of a task ----------

  /** A job that ran as far as it should, or that has no operator and was in time. */
  predicate Fine(s: Script)
    requires s.polls != []
  {
    !s.late && (s.registered ==> s.deployable && s.created && s.Verdict() == Succeeded && s.fetched)
  }

  function AllNames(scripts: seq<Script>): multiset<JobPhase>
    requires AllPolling(scripts)
  {
    Union(NamesDue(scripts, seq(|scripts|, _ => Gone)))
  }

  lemma EmitsFailedIff(s: Script)
    requires s.polls != []
    ensures Failed in s.Emits() <==> !Fine(s)
    ensures Fine(s) ==> (s.Emits() == if s.registered then [Succeeded] else [])
  {
    if s.Runs() {
      assert s.Emits()[0] == s.Verdict();
      if !s.fetched {
        assert s.Emits()[1] == Failed;
      }
    } else if s.late || s.registered {
      assert s.Emits()[0] == Failed;
    }
  }

  lemma NameIsEmitted(scripts: seq<Script>, i: nat, phase: Phase)
    requires AllPolling(scripts) && i < |scripts| && phase in scripts[i].Emits()
    ensures JobPhase(i, phase) in AllNames(scripts)
  {
    var k :| 0 <= k < |scripts[i].Emits()| && scripts[i].Emits()[k] == phase;
    assert Named(i, scripts[i].Emits())[k] == JobPhase(i, phase);
    InUnion(NamesDue(scripts, seq(|scripts|, _ => Gone)), i, JobPhase(i, phase));
  }

  lemma NameComesFromJob(scripts: seq<Script>, name: JobPhase)
    requires AllPolling(scripts) && name in AllNames(scripts)
    ensures name.job < |scripts| && name.phase in scripts[name.job].Emits()
  {
    var i := FromUnion(NamesDue(scripts, seq(|scripts|, _ => Gone)), name);
    assert name in Named(i, scripts[i].Emits());
  }

  lemma ReturnedIsComplete(cap: nat, scripts: seq<Script>, r: Runner)
    requires |r.stages| == |scripts| && AllPolling(scripts) && Inv(cap, scripts, r) && r.returned
    ensures multiset(r.names) == AllNames(scripts)
  {
    assert NamesDue(scripts, r.stages) == NamesDue(scripts, seq(|scripts|, _ => Gone));
  }

  predicate Registered(scripts: seq<Script>) {
    exists i :: 0 <= i < |scripts| && scripts[i].registered
  }

  predicate AllFine(scripts: seq<Script>)
    requires AllPolling(scripts)
  {
    forall i :: 0 <= i < |scripts| ==> Fine(scripts[i])
  }

  lemma FineIs(scripts: seq<Script>)
    requires AllPolling(scripts)
    ensures AllFine(scripts) <==>
      && (forall i :: 0 <= i < |scripts| ==> !scripts[i].late)
      && (forall i :: 0 <= i < |scripts| && scripts[i].registered ==>
            && scripts[i].deployable && scripts[i].created && scripts[i].fetched
            && scripts[i].polls[|scripts[i].polls| - 1] == Complete)
  {
    if AllFine(scripts) {
      forall i | 0 <= i < |scripts|
        ensures Fine(scripts[i])
      {
      }
    }
  }

  lemma OneBadJobFails(scripts: seq<Script>, names: seq<JobPhase>, i: nat)
    requires AllPolling(scripts) && multiset(names) == AllNames(scripts)
    requires i < |scripts| && !Fine(scripts[i])
    ensures GetStatus(names) == Failed
  {
    EmitsFailedIff(scripts[i]);
    NameIsEmitted(scripts, i, Failed);
    assert JobPhase(i, Failed) in multiset(names);
    assert JobPhase(i, Failed) in names;
  }

  lemma FineJobsSucceed(scripts: seq<Script>, names: seq<JobPhase>)
    requires AllPolling(scripts) && multiset(names) == AllNames(scripts) && AllFine(scripts)
    ensures forall name :: name in names ==> name.phase != Failed
    ensures names != [] ==> Registered(scripts)
  {
    forall name | name in names
      ensures name.phase != Failed && name.job < |scripts| && scripts[name.job].registered
    {
      assert name in multiset(names);
      NameComesFromJob(scripts, name);
      EmitsFailedIff(scripts[name.job]);
    }
    if names != [] {
      assert names[0] in names;
      assert scripts[names[0].job].registered;
    }
  }

  lemma RegisteredIsNamed(scripts: seq<Script>, names: seq<JobPhase>)
    requires AllPolling(scripts) && multiset(names) == AllNames(scripts) && AllFine(scripts) && Registered(scripts)
    ensures names != []
  {
    var i :| 0 <= i < |scripts| && scripts[i].registered;
    EmitsFailedIff(scripts[i]);
    NameIsEmitted(scripts, i, Succeeded);
    assert JobPhase(i, Succeeded) in multiset(names);
  }

  /**
   A task succeeds exactly when some job has an operator and every job, with or without one, was in
   time and every one with an operator was deployable, created, seen complete and read back.
   */
  lemma OutcomeIff(scripts: seq<Script>, names: seq<JobPhase>)
    requires AllPolling(scripts) && multiset(names) == AllNames(scripts)
    ensures GetStatus(names) == Succeeded <==> Registered(scripts) && AllFine(scripts)
    ensures GetStatus(names) == Succeeded <==>
      && (exists i :: 0 <= i < |scripts| && scripts[i].registered)
      && (forall i :: 0 <= i < |scripts| ==> !scripts[i].late)
      && (forall i :: 0 <= i < |scripts| && scripts[i].registered ==>
            && scripts[i].deployable && scripts[i].created && scripts[i].fetched
            && scripts[i].polls[|scripts[i].polls| - 1] == Complete)
  {
    FineIs(scripts);
    if AllFine(scripts) {
      FineJobsSucceed(scripts, names);
      if Registered(scripts) {
        RegisteredIsNamed(scripts, names);
      }
    } else {
      var i :| 0 <= i < |scripts| && !Fine(scripts[i]);
      OneBadJobFails(scripts, names, i);
    }
  }

  /** The outcome does not depend on the interleaving. */
  lemma RunOutcome(cap: nat, scripts: seq<Script>, schedule: seq<Step>)
    requires AllPolling(scripts) && Legal(cap, scripts, Start(|scripts|), schedule)
    ensures
      var r := After(cap, scripts, Start(|scripts|), schedule);
      r.returned ==> (GetStatus(r.names) == Succeeded <==> Registered(scripts) && AllFine(scripts))
    ensures
      var r := After(cap, scripts, Start(|scripts|), schedule);
      r.returned ==>
        (r.names != [] && (forall name :: name in r.names ==> name.phase != Failed) <==>
          && (exists i :: 0 <= i < |scripts| && scripts[i].registered)
          && (forall i :: 0 <= i < |scripts| ==> !scripts[i].late)
          && (forall i :: 0 <= i < |scripts| && scripts[i].registered ==>
                && scripts[i].deployable && scripts[i].created && scripts[i].fetched
                && scripts[i].polls[|scripts[i].polls| - 1] == Complete))
  {
    StartIsGood(cap, scripts);
    RunKeeps(cap, scripts, Start(|scripts|), schedule);
    var r := After(cap, scripts, Start(|scripts|), schedule);
    if r.returned {
      ReturnedIsComplete(cap, scripts, r);
      OutcomeIff(scripts, r.names);
    }
  }

  function Candidates(jobs: nat): set<Step> {
    (set i | 0 <= i < jobs :: Act(i)) + {Launch, Return}
  }

  lemma EnabledIsCandidate(cap: nat, scripts: seq<Script>, r: Runner, step: Step)
    requires |r.stages| == |scripts| && Enabled(cap, scripts, r, step)
    ensures step in Candidates(|scripts|)
  {
  }

  /** One move of an arbitrary scheduler. */
  method Move(cap: nat, scripts: seq<Script>, r: Runner) returns (r': Runner)
    requires |r.stages| == |scripts| && AllPolling(scripts)
    requires cap >= 1 && Inv(cap, scripts, r) && !r.returned
    ensures exists step :: Enabled(cap, scripts, r, step) && r' == Apply(cap, scripts, r, step)
  {
    ghost var some := NoDeadlock(cap, scripts, r);
    EnabledIsCandidate(cap, scripts, r, some);
    var step :| step in Candidates(|scripts|) && Enabled(cap, scripts, r, step);
    r' := Apply(cap, scripts, r, step);
  }

  /** The runner run by such a scheduler until wg.Wait() lets it return. */
  method CreateJobsInspect(nodes: nat, scripts: seq<Script>) returns (names: seq<JobPhase>)
    requires AllPolling(scripts)
    ensures multiset(names) == AllNames(scripts)
  {
    var cap := ComputedDeployNum(nodes, |scripts|);
    var r := Start(|scripts|);
    StartIsGood(cap, scripts);
    while !r.returned
      invariant |r.stages| == |scripts|
      invariant Inv(cap, scripts, r)
      decreases Rank(scripts, r)
    {
      var r' := Move(cap, scripts, r);
      ghost var step :| Enabled(cap, scripts, r, step) && r' == Apply(cap, scripts, r, step);
      StepKeepsInv(cap, scripts, r, step);
      StepDecreasesRank(cap, scripts, r, step);
      r := r';
    }
    ReturnedIsComplete(cap, scripts, r);
    names := r.names;
  }
}
