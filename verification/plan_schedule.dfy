/**
 When a plan creates its tasks: cron activations with a padding of 100 ms against clock skew, a
 last schedule time that loses its milliseconds when it is stored, and cleaning up after each task.
 Times are in milliseconds.
 */
module PlanSchedule {
  import opened Wrappers
  import opened Sequences
  import opened Phases
  import opened TaskRetention

  const PADDING := 100
  const SECOND := 1_000
  const MINUTE := 60_000

  // ---------- Cron schedules ----------

  /** The next activation strictly after a time. */
  type Cron = int -> int

  ghost predicate Activation(next: Cron, a: int) {
    next(a - 1) == a
  }

  /** next(t) is the first of a set of activations after t, and activations fall on whole seconds. */
  ghost predicate IsSchedule(next: Cron) {
    && (forall t :: t < next(t) && next(t) % SECOND == 0)
    && (forall t, u :: t <= u < next(t) ==> next(u) == next(t))
  }

  /** Five-field cron expressions activate on whole minutes. */
  ghost predicate OnMinutes(next: Cron) {
    forall t :: next(t) % MINUTE == 0
  }

  lemma NextIsLeast(next: Cron, t: int, a: int)
    requires IsSchedule(next)
    ensures Activation(next, next(t))
    ensures Activation(next, a) && t < a ==> next(t) <= a
  {
    assert t <= next(t) - 1 < next(t);
  }

  lemma NextIsMonotone(next: Cron, t: int, u: int)
    requires IsSchedule(next) && t <= u
    ensures next(t) <= next(u)
  {
    assert u < next(u);
  }

  /** A stored time keeps whole seconds only. */
  function Stored(t: int): int {
    t - t % SECOND
  }

  /** Losing the milliseconds does not lose an activation. */
  lemma StoredKeepsNext(next: Cron, t: int)
    requires IsSchedule(next)
    ensures next(Stored(t)) == next(t)
  {
    assert Stored(t) < next(Stored(t)) && next(Stored(t)) % SECOND == 0;
    assert Stored(t) % SECOND == 0;
  }

  function NextScheduledTimeDuration(next: Cron, t: int): int {
    next(t) + PADDING - t
  }

  predicate Due(next: Cron, last: Option<int>, now: int) {
    last.None? || last.value + NextScheduledTimeDuration(next, last.value) < now
  }

  /** A plan that has fired is due again 100 ms after the activation that follows; one that has not, is due. */
  lemma DueIff(next: Cron, last: int, now: int)
    ensures Due(next, Some(last), now) <==> next(last) + 100 < now
    ensures Due(next, None, now)
  {
  }

  /** A reconcile that is not due asks for a positive delay, and any wake-up later than that finds the plan due. */
  lemma NotDueMakesProgress(next: Cron, last: int, now: int, wake: int)
    requires IsSchedule(next) && last <= now && !Due(next, Some(last), now)
    ensures NextScheduledTimeDuration(next, now) > 0
    ensures wake > now + NextScheduledTimeDuration(next, now) ==> Due(next, Some(last), wake)
  {
    NextIsMonotone(next, last, now);
  }

  /**
   A wake-up at the very instant asked for is due exactly when an activation had already passed at the time of
   asking.
   */
  lemma WakeOnTheDot(next: Cron, last: int, now: int)
    requires IsSchedule(next) && last <= now && !Due(next, Some(last), now)
    ensures Due(next, Some(last), now + NextScheduledTimeDuration(next, now)) <==> next(last) <= now
  {
    NextIsMonotone(next, last, now);
    if now < next(last) {
      assert next(now) == next(last);
    }
  }

  // ---------- One reconcile ----------

  /** What the plan asks for; a schedule that cannot be parsed is None. */
  datatype Trigger = Once(at: int) | Instant | Schedule(next: Option<Cron>)

  datatype Plan = Plan(
    pending: bool,             // the last task status has been set
    suspended: bool,
    last: Option<int>,         // last schedule time
    lastTask: Option<int>,     // name of the last task
    listed: seq<TaskName>,
    live: seq<Task>,           // the plan's tasks in the store, in order of creation
    firings: seq<int>,         // every instant at which a task was asked for
    lost: seq<int>,            // those of them whose status could not be stored
    stored: seq<int>)          // the others

  function NameAt(now: int): int {
    now / MINUTE
  }

  const NAME_OF_TASK: Task -> int := (t: Task) => t.name
  const NAME_LISTED: TaskName -> int := (n: TaskName) => n.name

  /** The position of the first task with a name, or the number of tasks. */
  function TaskIndex(live: seq<Task>, name: int): nat {
    IndexOf(Map(NAME_OF_TASK, live), name)
  }

  predicate HasTask(live: seq<Task>, name: int) {
    TaskIndex(live, name) < |live|
  }

  /** A task of this minute is created unless it exists. */
  function WithTask(live: seq<Task>, now: int): seq<Task> {
    if HasTask(live, NameAt(now)) then live else live + [Task(NameAt(now), Stored(now), false, [])]
  }

  /** The status the task is listed with: that of the existing task, or pending. */
  function StatusOfNew(live: seq<Task>, now: int): Phase {
    if HasTask(live, NameAt(now)) then GetStatus(live[TaskIndex(live, NameAt(now))].jobs) else Pending
  }

  function Kept(maxTasks: int, live: seq<Task>): seq<Task> {
    if maxTasks > 0 && |live| >= maxTasks then live[|live| - maxTasks..] else live
  }

  /** A name already listed gets its status updated, a new one goes to the end. */
  function AddTaskName(listed: seq<TaskName>, name: int, status: Phase): seq<TaskName> {
    var i := IndexOf(Map(NAME_LISTED, listed), name);
    if i < |listed| then listed[i := TaskName(name, status)] else listed + [TaskName(name, status)]
  }

  /** A task has been asked for at an instant, and its status stored or not. */
  function Fired(p: Plan, now: int, landed: bool): Plan {
    p.(firings := p.firings + [now],
       lost := if landed then p.lost else p.lost + [now],
       stored := if landed then p.stored + [now] else p.stored)
  }

  /**
   What is stored when a task is asked for under a cron schedule and cleaning up keeps some of the tasks;
   a lost status patch leaves only the tasks changed.
   */
  function FireKeeping(maxTasks: int, p: Plan, now: int, landed: bool, kept: seq<Task>): Plan {
    var listed := if maxTasks > 0 && |WithTask(p.live, now)| >= maxTasks then Map(STATUS, kept)
                  else p.listed + [TaskName(NameAt(now), StatusOfNew(p.live, now))];
    var p' := Fired(p, now, landed).(live := kept);
    if landed
    then p'.(listed := listed, last := Some(Stored(now)), lastTask := Some(NameAt(now)), pending := true)
    else p'
  }

  /** The same when the order of the tasks leaves no choice which ones to keep. */
  function FireOnSchedule(maxTasks: int, p: Plan, now: int, landed: bool): Plan {
    FireKeeping(maxTasks, p, now, landed, Kept(maxTasks, WithTask(p.live, now)))
  }

  /** The same for a plan without a schedule, which does not clean up. */
  function FireOnce(p: Plan, now: int, landed: bool): Plan {
    var p' := Fired(p, now, landed).(live := WithTask(p.live, now));
    if landed
    then p'.(listed := AddTaskName(p.listed, NameAt(now), StatusOfNew(p.live, now)),
             last := Some(Stored(now)), lastTask := Some(NameAt(now)), pending := true)
    else p'
  }

  /** kept are the newest tasks, as many as the limit allows; tasks of one second are in any order. */
  ghost predicate Cleaned(maxTasks: int, tasks: seq<Task>, kept: seq<Task>) {
    exists deleted :: CleanedOf(maxTasks, tasks, kept, deleted)
  }

  predicate CleanedOf(maxTasks: int, tasks: seq<Task>, kept: seq<Task>, deleted: seq<Task>) {
    && multiset(kept) + multiset(deleted) == multiset(tasks) && Oldest(deleted + kept)
    && if maxTasks > 0 && |tasks| >= maxTasks then |kept| == maxTasks else deleted == []
  }

  /**
   What is stored after one reconcile. `created` says whether creating a task succeeds, `landed` whether storing
   the status does.
   */
  function Next(trigger: Trigger, maxTasks: int, p: Plan, now: int, created: bool, landed: bool): Plan {
    var cannotMake := !created && !HasTask(p.live, NameAt(now));
    if !p.pending then
      if landed then p.(pending := true) else p
    else if p.suspended then p
    else
      match trigger
      case Once(at) => if p.lastTask.Some? || now < at || cannotMake then p else FireOnce(p, now, landed)
      case Instant => if p.lastTask.Some? || cannotMake then p else FireOnce(p, now, landed)
      case Schedule(None) => p
      case Schedule(Some(next)) =>
        if !Due(next, p.last, now) || cannotMake then p else FireOnSchedule(maxTasks, p, now, landed)
  }

  /**
   Any state one reconcile may store: where cleaning up has a choice among tasks of one second, every outcome of
   it.
   */
  ghost predicate CanBecome(trigger: Trigger, maxTasks: int, p: Plan, now: int, created: bool, landed: bool, p': Plan) {
    match trigger
    case Schedule(Some(next)) =>
      if Fires(next, p, Reconcile(now, created, landed))
      then Cleaned(maxTasks, WithTask(p.live, now), p'.live) && p' == FireKeeping(maxTasks, p, now, landed, p'.live)
      else p' == Next(trigger, maxTasks, p, now, created, landed)
    case _ => p' == Next(trigger, maxTasks, p, now, created, landed)
  }

  /** Whether the plan asks for a task at this instant. */
  predicate Wants(trigger: Trigger, p: Plan, now: int) {
    && p.pending && !p.suspended
    && match trigger
       case Once(at) => p.lastTask.None? && at <= now
       case Instant => p.lastTask.None?
       case Schedule(None) => false
       case Schedule(Some(next)) => Due(next, p.last, now)
  }

  class PlanStore {
    var plan: Plan

    constructor ()
      ensures plan == NewPlan()
    {
      plan := NewPlan();
    }

    method CreateInspectTask(now: int, created: bool) returns (task: Option<(int, Phase)>)
      modifies this
      ensures task.None? <==> !created && !HasTask(old(plan.live), NameAt(now))
      ensures task.None? ==> plan == old(plan)
      ensures task.Some? ==>
        task.value == (NameAt(now), StatusOfNew(old(plan.live), now))
          && plan == old(plan).(live := WithTask(old(plan.live), now))
    {
      var name := NameAt(now);
      var i := TaskIndex(plan.live, name);
      if i < |plan.live| {
        return Some((name, GetStatus(plan.live[i].jobs)));
      }
      if !created {
        return None;
      }
      plan := plan.(live := plan.live + [Task(name, Stored(now), false, [])]);
      return Some((name, Pending));
    }

    /**
     One reconcile at one instant.  It asks to be called again after a while, or not at all, or it fails because
     the task or the status could not be stored.
     */
    method Reconcile(trigger: Trigger, maxTasks: int, now: int, created: bool, landed: bool)
      returns (ok: bool, requeueAfter: Option<int>)
      modifies this
      ensures CanBecome(trigger, maxTasks, old(plan), now, created, landed, plan)
      ensures StrictlyOldest(WithTask(old(plan).live, now)) ==>
        plan == Next(trigger, maxTasks, old(plan), now, created, landed)
      ensures ok <==>
        && (Wants(trigger, old(plan), now) ==> created || HasTask(old(plan).live, NameAt(now)))
        && (Wants(trigger, old(plan), now) || !old(plan).pending ==> landed)
      ensures requeueAfter ==
        if !ok || !old(plan).pending || old(plan).suspended then None
        else
          match trigger
          case Once(at) => if old(plan).lastTask.None? && now < at then Some(at - now) else None
          case Schedule(Some(next)) =>
            if Wants(trigger, old(plan), now) then Some(3_000) else Some(next(now) + 100 - now)
          case _ => None
    {
      if !plan.pending {
        if landed {
          plan := plan.(pending := true);
        }
        return landed, None;
      }
      if plan.suspended {
        return true, None;
      }
      match trigger {
        case Once(at) =>
          if plan.lastTask.Some? {
            return true, None;
          }
          if now < at {
            return true, Some(at - now);
          }
          ok := RunOnce(now, created, landed);
          return ok, None;
        case Instant =>
          if plan.lastTask.Some? {
            return true, None;
          }
          ok := RunOnce(now, created, landed);
          return ok, None;
        case Schedule(None) =>
          return true, None;
        case Schedule(Some(next)) =>
          if Due(next, plan.last, now) {
            ok := RunScheduled(maxTasks, now, created, landed);
            return ok, if ok then Some(3 * SECOND) else None;
          }
          return true, Some(NextScheduledTimeDuration(next, now));
      }
    }

    method RunOnce(now: int, created: bool, landed: bool) returns (ok: bool)
      requires plan.pending
      modifies this
      ensures ok <==> landed && (created || HasTask(old(plan.live), NameAt(now)))
      ensures plan == if !created && !HasTask(old(plan.live), NameAt(now)) then old(plan)
        else FireOnce(old(plan), now, landed)
    {
      var task := CreateInspectTask(now, created);
      if task.Some? {
        plan := Fired(plan, now, landed);
        if landed {
          plan := plan.(listed := AddTaskName(plan.listed, task.value.0, task.value.1),
                        last := Some(Stored(now)), lastTask := Some(task.value.0));
        }
      }
      return task.Some? && landed;
    }

    method RunScheduled(maxTasks: int, now: int, created: bool, landed: bool) returns (ok: bool)
      requires plan.pending
      modifies this
      ensures ok <==> landed && (created || HasTask(old(plan.live), NameAt(now)))
      ensures !created && !HasTask(old(plan.live), NameAt(now)) ==> plan == old(plan)
      ensures created || HasTask(old(plan.live), NameAt(now)) ==>
        && Cleaned(maxTasks, WithTask(old(plan.live), now), plan.live)
        && plan == FireKeeping(maxTasks, old(plan), now, landed, plan.live)
      ensures created || HasTask(old(plan.live), NameAt(now)) ==>
        StrictlyOldest(WithTask(old(plan).live, now)) ==> plan == FireOnSchedule(maxTasks, old(plan), now, landed)
    {
      var task := CreateInspectTask(now, created);
      if task.Some? {
        var listed := plan.listed + [TaskName(task.value.0, task.value.1)];
        var kept, deleted, listed' := CleanTask(maxTasks, plan.live, listed);
        assert CleanedOf(maxTasks, plan.live, kept, deleted);
        if StrictlyOldest(plan.live) {
          CleanedIsKept(maxTasks, plan.live, kept, deleted);
        }
        plan := Fired(plan, now, landed).(live := kept);
        if landed {
          plan := plan.(listed := listed', last := Some(Stored(now)), lastTask := Some(task.value.0));
        }
      }
      return task.Some? && landed;
    }
  }

  lemma CleanedIsKept(maxTasks: int, live: seq<Task>, kept: seq<Task>, deleted: seq<Task>)
    requires StrictlyOldest(live) && CleanedOf(maxTasks, live, kept, deleted)
    ensures kept == Kept(maxTasks, live)
  {
    assert multiset(deleted + kept) == multiset(live);
    ListingIsUnique(live, deleted + kept);
  }

  function NewPlan(): Plan {
    Plan(false, false, None, None, [], [], [], [], [])
  }

  // ---------- Runs ----------

  /** Between reconciles the plan may be suspended or resumed and its tasks make progress. */
  datatype Event =
    | Reconcile(now: int, created: bool, landed: bool)
    | SetSuspend(suspended: bool)
    | TaskMoves(i: nat, ended: bool, jobs: seq<JobPhase>)

  function Step(trigger: Trigger, maxTasks: int, p: Plan, e: Event): Plan {
    match e
    case Reconcile(now, created, landed) => Next(trigger, maxTasks, p, now, created, landed)
    case SetSuspend(b) => p.(suspended := b)
    case TaskMoves(i, ended, jobs) =>
      if i < |p.live| then p.(live := p.live[i := p.live[i].(ended := ended, jobs := jobs)]) else p
  }

  function After(trigger: Trigger, maxTasks: int, events: seq<Event>): Plan {
    if events == [] then NewPlan()
    else Step(trigger, maxTasks, After(trigger, maxTasks, events[..|events| - 1]), events[|events| - 1])
  }

  predicate AllLand(events: seq<Event>) {
    forall i :: 0 <= i < |events| && events[i].Reconcile? ==> events[i].landed
  }

  // ---------- Cron safety ----------

  /** After each firing an activation, with the padding, passes before any later firing. */
  ghost predicate Separated(next: Cron, firings: seq<int>) {
    forall i, j :: 0 <= i < j < |firings| ==> next(firings[i]) + PADDING < firings[j]
  }

  ghost predicate LastIsStored(p: Plan) {
    if p.firings == [] then p.last == None && p.lastTask == None
    else p.last == Some(Stored(p.firings[|p.firings| - 1])) && p.lastTask.Some?
  }

  lemma AppendSeparated(next: Cron, firings: seq<int>, now: int)
    requires IsSchedule(next) && Separated(next, firings)
    requires firings == [] || next(firings[|firings| - 1]) + PADDING < now
    ensures Separated(next, firings + [now])
  {
    if firings != [] {
      var n := |firings| - 1;
      assert forall i :: 0 <= i < n ==> next(firings[i]) + PADDING < firings[n] < next(firings[n]);
    }
  }

  lemma FiringIsSeparated(next: Cron, p: Plan, now: int)
    requires IsSchedule(next) && Separated(next, p.firings) && LastIsStored(p) && Due(next, p.last, now)
    ensures Separated(next, p.firings + [now])
  {
    if p.firings != [] {
      StoredKeepsNext(next, p.firings[|p.firings| - 1]);
    }
    AppendSeparated(next, p.firings, now);
  }

  /** A reconcile that asks for a task if the plan is due. */
  predicate Able(p: Plan, e: Event) {
    e.Reconcile? && p.pending && !p.suspended && (e.created || HasTask(p.live, NameAt(e.now)))
  }

  /** Whether an event makes a scheduled plan ask for a task. */
  predicate Fires(next: Cron, p: Plan, e: Event) {
    Able(p, e) && Due(next, p.last, e.now)
  }

  /** The plans agree but for flags and for how far their tasks are. */
  predicate SameTasks(p: Plan, p': Plan) {
    && p'.firings == p.firings && p'.lost == p.lost && p'.stored == p.stored && p'.last == p.last
      && p'.lastTask == p.lastTask && p'.listed == p.listed
    && |p'.live| == |p.live|
    && Map(STAMP_OF_TASK, p'.live) == Map(STAMP_OF_TASK, p.live)
    && Map(NAME_OF_TASK, p'.live) == Map(NAME_OF_TASK, p.live)
  }

  lemma StepCases(next: Cron, maxTasks: int, p: Plan, e: Event)
    ensures Fires(next, p, e) ==>
      Step(Schedule(Some(next)), maxTasks, p, e) == FireOnSchedule(maxTasks, p, e.now, e.landed)
    ensures !Fires(next, p, e) ==> SameTasks(p, Step(Schedule(Some(next)), maxTasks, p, e))
  {
  }

  lemma FireKeepsSeparated(next: Cron, maxTasks: int, p: Plan, now: int)
    requires IsSchedule(next) && Separated(next, p.firings) && LastIsStored(p) && Due(next, p.last, now)
    ensures
      var p' := FireOnSchedule(maxTasks, p, now, true);
      Separated(next, p'.firings) && LastIsStored(p')
  {
    FiringIsSeparated(next, p, now);
  }

  lemma StepKeepsSeparated(next: Cron, maxTasks: int, p: Plan, e: Event)
    requires IsSchedule(next) && Separated(next, p.firings) && LastIsStored(p)
    requires e.Reconcile? ==> e.landed
    ensures
      var p' := Step(Schedule(Some(next)), maxTasks, p, e);
      Separated(next, p'.firings) && LastIsStored(p')
  {
    StepCases(next, maxTasks, p, e);
    if Fires(next, p, e) {
      FireKeepsSeparated(next, maxTasks, p, e.now);
    }
  }

  lemma {:induction false} RunKeepsSeparated(next: Cron, maxTasks: int, events: seq<Event>)
    requires IsSchedule(next) && AllLand(events)
    ensures
      var p := After(Schedule(Some(next)), maxTasks, events);
      Separated(next, p.firings) && LastIsStored(p)
  {
    if events != [] {
      var n := |events| - 1;
      RunKeepsSeparated(next, maxTasks, events[..n]);
      StepKeepsSeparated(next, maxTasks, After(Schedule(Some(next)), maxTasks, events[..n]), events[n]);
    }
  }

  /** Over every run whose status patches land, any two firings have an activation strictly between them. */
  lemma FiringsAreSeparated(next: Cron, maxTasks: int, events: seq<Event>, i: nat, j: nat)
    requires IsSchedule(next) && AllLand(events)
    requires i < j < |After(Schedule(Some(next)), maxTasks, events).firings|
    ensures
      var f := After(Schedule(Some(next)), maxTasks, events).firings;
      Activation(next, next(f[i])) && f[i] < next(f[i]) < f[j]
  {
    RunKeepsSeparated(next, maxTasks, events);
    var f := After(Schedule(Some(next)), maxTasks, events).firings;
    NextIsLeast(next, f[i], f[i]);
  }

  predicate Increasing(s: seq<int>) {
    forall i, j :: 0 <= i < j < |s| ==> s[i] < s[j]
  }

  lemma {:induction false} IncreasingFits(s: seq<int>, within: set<int>)
    requires Increasing(s) && forall i :: 0 <= i < |s| ==> s[i] in within
    ensures |s| <= |within|
  {
    if s != [] {
      IncreasingFits(s[..|s| - 1], within - {s[|s| - 1]});
    }
  }

  /** Firings never exceed the activations between the first and the last one, plus one. */
  lemma FiringsAreCounted(next: Cron, maxTasks: int, events: seq<Event>, activations: set<int>)
    requires IsSchedule(next) && AllLand(events)
    requires
      var f := After(Schedule(Some(next)), maxTasks, events).firings;
      forall a :: f != [] && Activation(next, a) && f[0] < a < f[|f| - 1] ==> a in activations
    ensures |After(Schedule(Some(next)), maxTasks, events).firings| <= |activations| + 1
  {
    RunKeepsSeparated(next, maxTasks, events);
    var f := After(Schedule(Some(next)), maxTasks, events).firings;
    if f != [] {
      var between := Map(next, f[..|f| - 1]);
      forall i | 0 <= i < |between|
        ensures between[i] in activations
      {
        FiringsAreSeparated(next, maxTasks, events, i, |f| - 1);
        if i > 0 {
          FiringsAreSeparated(next, maxTasks, events, 0, i);
        }
      }
      SeparatedIncreases(next, f);
      IncreasingFits(between, activations);
    }
  }

  lemma SeparatedIncreases(next: Cron, firings: seq<int>)
    requires IsSchedule(next) && Separated(next, firings) && firings != []
    ensures Increasing(Map(next, firings[..|firings| - 1]))
  {
    forall i, j | 0 <= i < j < |firings| - 1
      ensures next(firings[i]) < next(firings[j])
    {
      assert firings[j] < next(firings[j]);
    }
  }

  // ---------- Task names and retention ----------

  /** What identifies a task: its name and the second it was created in. */
  datatype Stamp = Stamp(name: int, created: int)

  const STAMP_OF_TASK: Task -> Stamp := (t: Task) => Stamp(t.name, t.created)
  const STAMP_OF_FIRING: int -> Stamp := (now: int) => Stamp(NameAt(now), Stored(now))

  /** The tasks are those of the latest firings, in the same order. */
  predicate OfLatest(live: seq<Task>, firings: seq<int>) {
    |live| <= |firings| && Map(STAMP_OF_TASK, live) == Map(STAMP_OF_FIRING, firings)[|firings| - |live|..]
  }

  /**
   The store holds the tasks of the latest firings, up to the limit, and the status lists their names in the
   same order.
   */
  predicate Retained(maxTasks: int, p: Plan) {
    && |p.live| == (if maxTasks > 0 && |p.firings| > maxTasks then maxTasks else |p.firings|)
    && OfLatest(p.live, p.firings)
    && Map(NAME_LISTED, p.listed) == Map(NAME_OF_TASK, p.live)
  }

  lemma NamesIncrease(next: Cron, s: int, t: int)
    requires IsSchedule(next) && OnMinutes(next) && next(s) + PADDING < t
    ensures NameAt(s) < NameAt(t) && Stored(s) < Stored(t)
  {
    var a := next(s);
    assert s < a && a % SECOND == 0;
    assert a % MINUTE == 0;
    MinuteBetween(s, a, t);
    SecondBetween(s, a, t);
  }

  lemma MinuteBetween(s: int, a: int, t: int)
    requires s < a <= t && a % MINUTE == 0
    ensures NameAt(s) < NameAt(t)
  {
  }

  lemma SecondBetween(s: int, a: int, t: int)
    requires s < a <= t && a % SECOND == 0
    ensures Stored(s) < Stored(t)
  {
  }

  lemma SeparatedNames(next: Cron, firings: seq<int>)
    requires IsSchedule(next) && OnMinutes(next) && Separated(next, firings)
    ensures StampsIncrease(Map(STAMP_OF_FIRING, firings))
  {
    forall i, j | 0 <= i < j < |firings|
      ensures NameAt(firings[i]) < NameAt(firings[j]) && Stored(firings[i]) < Stored(firings[j])
    {
      NamesIncrease(next, firings[i], firings[j]);
    }
  }

  predicate StampsIncrease(stamps: seq<Stamp>) {
    forall i, j :: 0 <= i < j < |stamps| ==> stamps[i].name < stamps[j].name && stamps[i].created < stamps[j].created
  }

  lemma LatestAppend(live: seq<Task>, firings: seq<int>, now: int)
    requires OfLatest(live, firings)
    ensures OfLatest(live + [Task(NameAt(now), Stored(now), false, [])], firings + [now])
  {
    var t := Task(NameAt(now), Stored(now), false, []);
    MapConcat(STAMP_OF_TASK, live, [t]);
    MapConcat(STAMP_OF_FIRING, firings, [now]);
    assert Map(STAMP_OF_TASK, [t]) == [STAMP_OF_FIRING(now)] == Map(STAMP_OF_FIRING, [now]);
  }

  lemma LatestSuffix(live: seq<Task>, firings: seq<int>, cut: nat)
    requires OfLatest(live, firings) && cut <= |live|
    ensures OfLatest(live[cut..], firings)
  {
    assert Map(STAMP_OF_TASK, live[cut..]) == Map(STAMP_OF_TASK, live)[cut..];
  }

  lemma StampsOfLive(live: seq<Task>, firings: seq<int>)
    requires OfLatest(live, firings) && StampsIncrease(Map(STAMP_OF_FIRING, firings))
    ensures StampsIncrease(Map(STAMP_OF_TASK, live))
  {
  }

  lemma StampsOfTasks(live: seq<Task>)
    requires StampsIncrease(Map(STAMP_OF_TASK, live))
    ensures forall i, j :: 0 <= i < j < |live| ==> live[i].name < live[j].name && live[i].created < live[j].created
  {
    forall i, j | 0 <= i < j < |live|
      ensures live[i].name < live[j].name && live[i].created < live[j].created
    {
      assert Map(STAMP_OF_TASK, live)[i] == STAMP_OF_TASK(live[i])
        && Map(STAMP_OF_TASK, live)[j] == STAMP_OF_TASK(live[j]);
    }
  }

  /** A due reconcile never finds a task of its minute, so it really creates one. */
  lemma FiringMakesTask(next: Cron, p: Plan, now: int)
    requires IsSchedule(next) && OnMinutes(next) && Separated(next, p.firings) && LastIsStored(p)
    requires OfLatest(p.live, p.firings)
    requires Due(next, p.last, now)
    ensures !HasTask(p.live, NameAt(now))
    ensures StrictlyOldest(WithTask(p.live, now))
  {
    var made := p.live + [Task(NameAt(now), Stored(now), false, [])];
    FiringIsSeparated(next, p, now);
    SeparatedNames(next, p.firings + [now]);
    LatestAppend(p.live, p.firings, now);
    StampsOfLive(made, p.firings + [now]);
    StampsOfTasks(made);
    NewestIsNew(p.live, made[|p.live|]);
  }

  lemma NewestIsNew(live: seq<Task>, t: Task)
    requires forall i, j :: 0 <= i < j < |live + [t]| ==> (live + [t])[i].name < (live + [t])[j].name
    ensures !HasTask(live, t.name)
  {
    forall i | 0 <= i < |live|
      ensures live[i].name < t.name
    {
      assert (live + [t])[i] == live[i] && (live + [t])[|live|] == t;
    }
  }

  lemma FiringRetains(maxTasks: int, p: Plan, now: int)
    requires Retained(maxTasks, p) && !HasTask(p.live, NameAt(now))
    ensures Retained(maxTasks, FireOnSchedule(maxTasks, p, now, true))
  {
    var made := p.live + [Task(NameAt(now), Stored(now), false, [])];
    var p' := FireOnSchedule(maxTasks, p, now, true);
    LatestAppend(p.live, p.firings, now);
    if maxTasks > 0 && |made| >= maxTasks {
      LatestSuffix(made, p.firings + [now], |made| - maxTasks);
      StatusKeepsNames(p'.live);
    } else {
      MapConcat(NAME_LISTED, p.listed, [TaskName(NameAt(now), Pending)]);
      MapConcat(NAME_OF_TASK, p.live, [Task(NameAt(now), Stored(now), false, [])]);
      assert Map(NAME_LISTED, [TaskName(NameAt(now), Pending)]) == [NameAt(now)];
      assert Map(NAME_OF_TASK, [Task(NameAt(now), Stored(now), false, [])]) == [NameAt(now)];
    }
  }

  lemma StatusKeepsNames(live: seq<Task>)
    ensures Map(NAME_LISTED, Map(STATUS, live)) == Map(NAME_OF_TASK, live)
  {
  }

  lemma StepRetains(next: Cron, maxTasks: int, p: Plan, e: Event)
    requires IsSchedule(next) && OnMinutes(next) && Separated(next, p.firings) && LastIsStored(p)
    requires Retained(maxTasks, p)
    requires e.Reconcile? ==> e.landed
    ensures Retained(maxTasks, Step(Schedule(Some(next)), maxTasks, p, e))
  {
    StepCases(next, maxTasks, p, e);
    if Fires(next, p, e) {
      FiringMakesTask(next, p, e.now);
      FiringRetains(maxTasks, p, e.now);
    } else {
      SameRetains(maxTasks, p, Step(Schedule(Some(next)), maxTasks, p, e));
    }
  }

  lemma SameRetains(maxTasks: int, p: Plan, p': Plan)
    requires Retained(maxTasks, p) && SameTasks(p, p')
    ensures Retained(maxTasks, p')
  {
  }

  lemma {:induction false} RunRetains(next: Cron, maxTasks: int, events: seq<Event>)
    requires IsSchedule(next) && OnMinutes(next) && AllLand(events)
    ensures Retained(maxTasks, After(Schedule(Some(next)), maxTasks, events))
  {
    if events != [] {
      var n := |events| - 1;
      RunRetains(next, maxTasks, events[..n]);
      RunKeepsSeparated(next, maxTasks, events[..n]);
      StepRetains(next, maxTasks, After(Schedule(Some(next)), maxTasks, events[..n]), events[n]);
    }
  }

  /**
   Over every run of a plan on whole minutes whose status patches land, each firing creates a task of
   its own name, the store holds the newest of them up to the limit, and the status lists exactly
   those, oldest first.
   */
  lemma TasksAreRetained(next: Cron, maxTasks: int, events: seq<Event>, p: Plan)
    requires IsSchedule(next) && OnMinutes(next) && AllLand(events)
    requires p == After(Schedule(Some(next)), maxTasks, events)
    ensures Retained(maxTasks, p) && StampsIncrease(Map(STAMP_OF_FIRING, p.firings))
    ensures |p.live| == if maxTasks > 0 && |p.firings| > maxTasks then maxTasks else |p.firings|
    ensures forall i :: 0 <= i < |p.live| ==> p.live[i].name == p.firings[|p.firings| - |p.live| + i] / 60_000
    ensures |p.listed| == |p.live| && forall i :: 0 <= i < |p.live| ==> p.listed[i].name == p.live[i].name
    ensures forall i, j :: 0 <= i < j < |p.live| ==>
      p.live[i].name < p.live[j].name && p.live[i].created < p.live[j].created
  {
    RunRetains(next, maxTasks, events);
    RunKeepsSeparated(next, maxTasks, events);
    RetainedPlan(next, maxTasks, p);
  }

  lemma RetainedPlan(next: Cron, maxTasks: int, p: Plan)
    requires IsSchedule(next) && OnMinutes(next) && Separated(next, p.firings) && Retained(maxTasks, p)
    ensures
      && StampsIncrease(Map(STAMP_OF_FIRING, p.firings))
      && |p.live| == (if maxTasks > 0 && |p.firings| > maxTasks then maxTasks else |p.firings|)
      && (forall i :: 0 <= i < |p.live| ==> p.live[i].name == p.firings[|p.firings| - |p.live| + i] / 60_000)
      && |p.listed| == |p.live| && (forall i :: 0 <= i < |p.live| ==> p.listed[i].name == p.live[i].name)
      && forall i, j :: 0 <= i < j < |p.live| ==>
        p.live[i].name < p.live[j].name && p.live[i].created < p.live[j].created
  {
    StampsOfRun(next, p);
    RetainedIs(maxTasks, p);
  }

  lemma StampsOfRun(next: Cron, p: Plan)
    requires IsSchedule(next) && OnMinutes(next) && Separated(next, p.firings) && OfLatest(p.live, p.firings)
    ensures StampsIncrease(Map(STAMP_OF_FIRING, p.firings))
    ensures forall i, j :: 0 <= i < j < |p.live| ==>
      p.live[i].name < p.live[j].name && p.live[i].created < p.live[j].created
  {
    SeparatedNames(next, p.firings);
    StampsOfLive(p.live, p.firings);
    StampsOfTasks(p.live);
  }

  lemma RetainedIs(maxTasks: int, p: Plan)
    requires Retained(maxTasks, p)
    ensures |p.live| == if maxTasks > 0 && |p.firings| > maxTasks then maxTasks else |p.firings|
    ensures forall i :: 0 <= i < |p.live| ==> p.live[i].name == p.firings[|p.firings| - |p.live| + i] / 60_000
    ensures |p.listed| == |p.live| && forall i :: 0 <= i < |p.live| ==> p.listed[i].name == p.live[i].name
  {
    var shift := |p.firings| - |p.live|;
    forall i | 0 <= i < |p.live|
      ensures p.live[i].name == p.firings[shift + i] / 60_000 && p.listed[i].name == p.live[i].name
    {
      assert Map(STAMP_OF_TASK, p.live)[i] == Map(STAMP_OF_FIRING, p.firings)[shift..][i];
      assert Map(NAME_LISTED, p.listed)[i] == Map(NAME_OF_TASK, p.live)[i];
    }
    assert |Map(NAME_LISTED, p.listed)| == |Map(NAME_OF_TASK, p.live)|;
  }

  // ---------- Plans without a schedule ----------

  /** Nothing has fired, or one firing has, for a dated plan not before its date. */
  predicate FiredOnce(trigger: Trigger, p: Plan) {
    && (p.lastTask.None? <==> p.firings == [])
    && |p.firings| <= 1
    && (trigger.Once? && p.firings != [] ==> p.firings[0] >= trigger.at)
  }

  lemma StepFiresOnce(trigger: Trigger, maxTasks: int, p: Plan, e: Event)
    requires !trigger.Schedule? && FiredOnce(trigger, p) && (e.Reconcile? ==> e.landed)
    ensures FiredOnce(trigger, Step(trigger, maxTasks, p, e))
  {
  }

  /** A plan without a schedule fires at most once, and a dated one not before its date. */
  lemma {:induction false} FiresAtMostOnce(trigger: Trigger, maxTasks: int, events: seq<Event>)
    requires !trigger.Schedule? && AllLand(events)
    ensures FiredOnce(trigger, After(trigger, maxTasks, events))
  {
    if events != [] {
      var n := |events| - 1;
      FiresAtMostOnce(trigger, maxTasks, events[..n]);
      StepFiresOnce(trigger, maxTasks, After(trigger, maxTasks, events[..n]), events[n]);
    }
  }

  /**
   A plan without a schedule that has not fired fires as soon as its date, if it has one, has come: a task of this
   minute is there afterwards, listed and remembered if the status can be stored.
   */
  lemma FiresWhenItMay(trigger: Trigger, maxTasks: int, p: Plan, now: int, created: bool, landed: bool)
    requires p.pending && !p.suspended && p.lastTask.None?
    requires trigger == Instant || (trigger.Once? && trigger.at <= now)
    requires created || exists i :: 0 <= i < |p.live| && p.live[i].name == now / 60_000
    ensures
      var p' := Next(trigger, maxTasks, p, now, created, landed);
      && p'.firings == p.firings + [now]
      && p'.live == (if exists i :: 0 <= i < |p.live| && p.live[i].name == now / 60_000 then p.live
                     else p.live + [Task(now / 60_000, now / 1_000 * 1_000, false, [])])
      && (landed ==> p'.lastTask == Some(now / 60_000) && p'.last == Some(now / 1_000 * 1_000)
                     && exists i :: 0 <= i < |p'.listed| && p'.listed[i].name == now / 60_000)
      && (!landed ==> p'.lastTask == None && p'.listed == p.listed)
  {
    TaskOfMinute(p.live, now);
    FiredOnceIs(p, Next(trigger, maxTasks, p, now, created, landed), now, landed);
  }

  lemma FiredOnceIs(p: Plan, p': Plan, now: int, landed: bool)
    requires p' == FireOnce(p, now, landed)
    ensures p'.firings == p.firings + [now]
    ensures p'.live == (if exists i :: 0 <= i < |p.live| && p.live[i].name == now / 60_000 then p.live
                        else p.live + [Task(now / 60_000, now / 1_000 * 1_000, false, [])])
    ensures landed ==> p'.lastTask == Some(now / 60_000) && p'.last == Some(now / 1_000 * 1_000)
                       && exists i :: 0 <= i < |p'.listed| && p'.listed[i].name == now / 60_000
    ensures !landed ==> p'.lastTask == p.lastTask && p'.listed == p.listed
  {
    TaskOfMinute(p.live, now);
    AddedIsListed(p.listed, NameAt(now), StatusOfNew(p.live, now));
  }

  lemma TaskOfMinute(live: seq<Task>, now: int)
    ensures HasTask(live, NameAt(now)) <==> exists i :: 0 <= i < |live| && live[i].name == now / 60_000
    ensures WithTask(live, now) ==
      if exists i :: 0 <= i < |live| && live[i].name == now / 60_000 then live
      else live + [Task(now / 60_000, now / 1_000 * 1_000, false, [])]
    ensures (forall i :: 0 <= i < |live| ==> live[i].name != now / 60_000) ==> StatusOfNew(live, now) == Pending
  {
    FirstOfMinute(live, now);
  }

  /** The task of a minute is the first that has its name. */
  lemma FirstOfMinute(live: seq<Task>, now: int)
    ensures
      var at := TaskIndex(live, NameAt(now));
      && at <= |live| && (at < |live| ==> live[at].name == now / 60_000)
      && forall j :: 0 <= j < at ==> live[j].name != now / 60_000
  {
    var names := Map(NAME_OF_TASK, live);
    assert forall i :: 0 <= i < |live| ==> names[i] == live[i].name;
  }

  lemma StatusOfMinute(live: seq<Task>, now: int, i: nat)
    requires i < |live| && live[i].name == now / 60_000 && forall j :: 0 <= j < i ==> live[j].name != now / 60_000
    ensures StatusOfNew(live, now) == GetStatus(live[i].jobs)
  {
    FirstOfMinute(live, now);
  }

  lemma AddedIsListed(listed: seq<TaskName>, name: int, status: Phase)
    ensures exists i :: 0 <= i < |AddTaskName(listed, name, status)|
                     && AddTaskName(listed, name, status)[i] == TaskName(name, status)
    ensures |listed| <= |AddTaskName(listed, name, status)| <= |listed| + 1
    ensures forall i :: 0 <= i < |listed| && listed[i].name != name ==>
      AddTaskName(listed, name, status)[i] == listed[i]
    ensures (forall i :: 0 <= i < |listed| ==> listed[i].name != name) <==>
      AddTaskName(listed, name, status) == listed + [TaskName(name, status)]
  {
    var names := Map(NAME_LISTED, listed);
    var at := IndexOf(names, name);
    assert forall i :: 0 <= i < |listed| ==> names[i] == listed[i].name;
    assert AddTaskName(listed, name, status)[at] == TaskName(name, status);
    if at < |listed| {
      assert |AddTaskName(listed, name, status)| == |listed|;
    }
  }

  /** A plan that is suspended, or whose date has not come, or that has fired without a schedule, does nothing. */
  lemma RestsWhenItMust(trigger: Trigger, maxTasks: int, p: Plan, now: int, created: bool, landed: bool)
    requires p.pending
    requires p.suspended || (trigger.Once? && now < trigger.at) || (!trigger.Schedule? && p.lastTask.Some?)
    ensures Next(trigger, maxTasks, p, now, created, landed) == p
  {
  }

  /** A plan whose status has not been set gets it set first, and a cron plan fires exactly when it is due and can. */
  lemma CronFiresIff(next: Cron, maxTasks: int, p: Plan, now: int, created: bool, landed: bool)
    ensures
      var p' := Next(Schedule(Some(next)), maxTasks, p, now, created, landed);
      && (!p.pending ==> p'.firings == p.firings && (p'.pending <==> landed))
      && (p.pending ==>
            (p'.firings == p.firings + [now] <==>
               && !p.suspended && (p.last.None? || next(p.last.value) + 100 < now)
               && (created || exists i :: 0 <= i < |p.live| && p.live[i].name == now / 60_000)))
  {
    TaskOfMinute(p.live, now);
    assert p.firings + [now] != p.firings;
  }

  /**
   What a firing of a cron plan leaves: with the task of this minute, the last ones up to the limit, their status
   listed anew at the limit, otherwise a new task at the end as pending; nothing but tasks if the patch is lost.
   */
  lemma CronFiring(next: Cron, maxTasks: int, p: Plan, now: int, landed: bool)
    requires p.pending && !p.suspended && (p.last.None? || next(p.last.value) + 100 < now)
    requires forall i :: 0 <= i < |p.live| ==> p.live[i].name != now / 60_000
    ensures
      var p' := Next(Schedule(Some(next)), maxTasks, p, now, true, landed);
      var made := p.live + [Task(now / 60_000, now / 1_000 * 1_000, false, [])];
      && p'.live == (if maxTasks > 0 && |made| >= maxTasks then made[|made| - maxTasks..] else made)
      && p'.last == (if landed then Some(now / 1_000 * 1_000) else p.last)
      && p'.lastTask == (if landed then Some(now / 60_000) else p.lastTask)
      && p'.listed == if !landed then p.listed
                      else if maxTasks > 0 && |made| >= maxTasks then Map(STATUS, p'.live)
                      else p.listed + [TaskName(now / 60_000, Pending)]
  {
    TaskOfMinute(p.live, now);
    var made := p.live + [Task(now / 60_000, now / 1_000 * 1_000, false, [])];
    FiredIs(maxTasks, p, Next(Schedule(Some(next)), maxTasks, p, now, true, landed), made, now, landed);
  }

  lemma FiredIs(maxTasks: int, p: Plan, p': Plan, made: seq<Task>, now: int, landed: bool)
    requires p' == FireOnSchedule(maxTasks, p, now, landed)
    requires made == WithTask(p.live, now) && StatusOfNew(p.live, now) == Pending
    ensures p'.live == if maxTasks > 0 && |made| >= maxTasks then made[|made| - maxTasks..] else made
    ensures p'.last == if landed then Some(now / 1_000 * 1_000) else p.last
    ensures p'.lastTask == if landed then Some(now / 60_000) else p.lastTask
    ensures p'.listed == if !landed then p.listed
                         else if maxTasks > 0 && |made| >= maxTasks then Map(STATUS, p'.live)
                         else p.listed + [TaskName(now / 60_000, Pending)]
  {
  }

  // ---------- When a status patch is lost ----------

  /** Reconciles carry times that do not go back. */
  predicate ClockForward(events: seq<Event>) {
    forall i, j :: 0 <= i < j < |events| && events[i].Reconcile? && events[j].Reconcile? ==>
      events[i].now <= events[j].now
  }

  /** After each of some firings the next activation and the padding have passed. */
  predicate HasWaited(next: Cron, lost: seq<int>, now: int) {
    forall k :: 0 <= k < |lost| ==> next(lost[k]) + PADDING < now
  }

  /** The i-th event is not a reconcile able to fire, or it has waited after every firing whose patch was lost. */
  predicate Waits(next: Cron, maxTasks: int, events: seq<Event>, i: nat)
    requires i < |events|
  {
    var p := After(Schedule(Some(next)), maxTasks, events[..i]);
    Able(p, events[i]) ==> HasWaited(next, p.lost, events[i].now)
  }

  predicate Patient(next: Cron, maxTasks: int, events: seq<Event>) {
    forall i :: 0 <= i < |events| ==> Waits(next, maxTasks, events, i)
  }

  predicate Passed(next: Cron, f: int, firings: seq<int>) {
    exists i :: 0 <= i < |firings| && next(f) + PADDING < firings[i]
  }

  /**
   What is known of firings whose status was lost: the plan was due then and still is, or one came after the
   activation.
   */
  predicate LostInv(next: Cron, p: Plan) {
    && (p.firings == [] ==> p.lost == [])
    && (p.firings != [] ==>
          var f := p.firings[|p.firings| - 1];
          p.last == Some(Stored(f)) || f in p.lost)
    && (forall f :: f in p.lost ==> f in p.firings)
  }

  predicate LostAreDue(next: Cron, p: Plan) {
    forall f :: f in p.lost ==> Due(next, p.last, f) || Passed(next, f, p.firings)
  }

  /** The firings lie no later than a time. */
  predicate UpTo(firings: seq<int>, now: int) {
    forall i :: 0 <= i < |firings| ==> firings[i] <= now
  }

  /** A reconcile that is not due has waited. */
  lemma NotDueHasWaited(next: Cron, p: Plan, now: int)
    requires UpTo(p.firings, now) && LostInv(next, p) && LostAreDue(next, p) && !Due(next, p.last, now)
    ensures HasWaited(next, p.lost, now)
  {
    forall k | 0 <= k < |p.lost|
      ensures next(p.lost[k]) + PADDING < now
    {
      var f := p.lost[k];
      assert f in p.lost && f in p.firings;
      assert f <= now;
      assert Passed(next, f, p.firings);
    }
  }

  lemma PrefixSeparated(next: Cron, firings: seq<int>, now: int)
    requires Separated(next, firings + [now])
    ensures Separated(next, firings)
    ensures forall f :: f in firings ==> next(f) + PADDING < now
  {
    var all := firings + [now];
    forall i, j | 0 <= i < j < |firings|
      ensures next(firings[i]) + PADDING < firings[j]
    {
      assert all[i] == firings[i] && all[j] == firings[j];
    }
    forall f | f in firings
      ensures next(f) + PADDING < now
    {
      var i :| 0 <= i < |firings| && firings[i] == f;
      assert all[i] == f && all[|firings|] == now;
    }
  }

  /** A firing keeps separation exactly when it has waited. */
  lemma FiringSeparatesIff(next: Cron, p: Plan, now: int)
    requires IsSchedule(next) && LostInv(next, p) && Due(next, p.last, now)
    ensures Separated(next, p.firings + [now]) <==> Separated(next, p.firings) && HasWaited(next, p.lost, now)
  {
    if Separated(next, p.firings + [now]) {
      PrefixSeparated(next, p.firings, now);
      forall k | 0 <= k < |p.lost|
        ensures next(p.lost[k]) + PADDING < now
      {
        var f := p.lost[k];
        assert f in p.lost && f in p.firings;
      }
    }
    if Separated(next, p.firings) && HasWaited(next, p.lost, now) {
      LastHasWaited(next, p, now);
      AppendSeparated(next, p.firings, now);
    }
  }

  lemma LastHasWaited(next: Cron, p: Plan, now: int)
    requires IsSchedule(next) && LostInv(next, p) && Due(next, p.last, now) && HasWaited(next, p.lost, now)
    ensures p.firings == [] || next(p.firings[|p.firings| - 1]) + PADDING < now
  {
    if p.firings != [] {
      StoredKeepsNext(next, p.firings[|p.firings| - 1]);
    }
  }

  /** What a firing does to the times a plan remembers. */
  predicate FiredAt(p: Plan, p': Plan, now: int, landed: bool) {
    && p'.firings == p.firings + [now]
    && p'.lost == (if landed then p.lost else p.lost + [now])
    && p'.stored == (if landed then p.stored + [now] else p.stored)
    && p'.last == if landed then Some(Stored(now)) else p.last
  }

  lemma FireIsFiredAt(maxTasks: int, p: Plan, now: int, landed: bool)
    ensures FiredAt(p, FireOnSchedule(maxTasks, p, now, landed), now, landed)
  {
  }

  lemma FiredKeepsInv(next: Cron, p: Plan, p': Plan, now: int, landed: bool)
    requires LostInv(next, p) && FiredAt(p, p', now, landed)
    ensures LostInv(next, p')
  {
    forall f | f in p'.lost
      ensures f in p'.firings
    {
      assert f in p.lost || f == p'.firings[|p.firings|];
    }
    assert !landed ==> now in p'.lost;
  }

  lemma FiredKeepsDue(next: Cron, p: Plan, p': Plan, now: int, landed: bool)
    requires LostInv(next, p) && LostAreDue(next, p) && Due(next, p.last, now) && FiredAt(p, p', now, landed)
    requires Separated(next, p'.firings)
    ensures LostAreDue(next, p')
  {
    PrefixSeparated(next, p.firings, now);
    forall f | f in p'.lost
      ensures Due(next, p'.last, f) || Passed(next, f, p'.firings)
    {
      if f in p.lost {
        assert next(f) + PADDING < p'.firings[|p.firings|];
      }
    }
  }

  lemma FiringKeepsLost(next: Cron, maxTasks: int, p: Plan, now: int, landed: bool)
    requires LostInv(next, p) && Due(next, p.last, now)
    requires Separated(next, p.firings) ==> LostAreDue(next, p)
    ensures
      var p' := FireOnSchedule(maxTasks, p, now, landed);
      LostInv(next, p') && (Separated(next, p'.firings) ==> LostAreDue(next, p'))
  {
    var p' := FireOnSchedule(maxTasks, p, now, landed);
    FireIsFiredAt(maxTasks, p, now, landed);
    FiredKeepsInv(next, p, p', now, landed);
    if Separated(next, p'.firings) {
      PrefixSeparated(next, p.firings, now);
      FiredKeepsDue(next, p, p', now, landed);
    }
  }

  /** One event keeps separation exactly when it waits. */
  lemma StepSeparatesIff(next: Cron, maxTasks: int, p: Plan, e: Event)
    requires IsSchedule(next) && LostInv(next, p) && (Separated(next, p.firings) ==> LostAreDue(next, p))
    requires e.Reconcile? ==> UpTo(p.firings, e.now)
    ensures
      var p' := Step(Schedule(Some(next)), maxTasks, p, e);
      && LostInv(next, p') && (Separated(next, p'.firings) ==> LostAreDue(next, p'))
      && (Separated(next, p'.firings)
        <==> Separated(next, p.firings) && (Able(p, e) ==> HasWaited(next, p.lost, e.now)))
  {
    StepCases(next, maxTasks, p, e);
    if Fires(next, p, e) {
      FiringSeparatesIff(next, p, e.now);
      FiringKeepsLost(next, maxTasks, p, e.now, e.landed);
    } else if Able(p, e) && Separated(next, p.firings) {
      NotDueHasWaited(next, p, e.now);
    }
  }

  lemma StepFirings(next: Cron, maxTasks: int, p: Plan, e: Event)
    ensures
      var firings := Step(Schedule(Some(next)), maxTasks, p, e).firings;
      firings == p.firings || (e.Reconcile? && firings == p.firings + [e.now])
  {
    StepCases(next, maxTasks, p, e);
  }

  lemma {:induction false} FiringsAreTimes(next: Cron, maxTasks: int, events: seq<Event>, now: int)
    requires forall i :: 0 <= i < |events| && events[i].Reconcile? ==> events[i].now <= now
    ensures UpTo(After(Schedule(Some(next)), maxTasks, events).firings, now)
  {
    if events != [] {
      var n := |events| - 1;
      FiringsAreTimes(next, maxTasks, events[..n], now);
      StepFirings(next, maxTasks, After(Schedule(Some(next)), maxTasks, events[..n]), events[n]);
    }
  }

  lemma WaitsInPrefix(next: Cron, maxTasks: int, events: seq<Event>, n: nat, i: nat)
    requires i < n <= |events|
    ensures Waits(next, maxTasks, events[..n], i) <==> Waits(next, maxTasks, events, i)
  {
    assert events[..n][..i] == events[..i];
  }

  lemma PatientAppend(next: Cron, maxTasks: int, events: seq<Event>)
    requires events != []
    ensures
      var n := |events| - 1;
      Patient(next, maxTasks, events) <==> Patient(next, maxTasks, events[..n]) && Waits(next, maxTasks, events, n)
  {
    var n := |events| - 1;
    forall i | 0 <= i < n
      ensures Waits(next, maxTasks, events[..n], i) <==> Waits(next, maxTasks, events, i)
    {
      WaitsInPrefix(next, maxTasks, events, n, i);
    }
  }

  lemma {:induction false} RunSeparatesIff(next: Cron, maxTasks: int, events: seq<Event>)
    requires IsSchedule(next) && ClockForward(events)
    ensures
      var p := After(Schedule(Some(next)), maxTasks, events);
      && LostInv(next, p) && (Separated(next, p.firings) ==> LostAreDue(next, p))
      && (Separated(next, p.firings) <==> Patient(next, maxTasks, events))
  {
    if events != [] {
      var n := |events| - 1;
      RunSeparatesIff(next, maxTasks, events[..n]);
      if events[n].Reconcile? {
        FiringsAreTimes(next, maxTasks, events[..n], events[n].now);
      }
      StepSeparatesIff(next, maxTasks, After(Schedule(Some(next)), maxTasks, events[..n]), events[n]);
      PatientAppend(next, maxTasks, events);
    }
  }

  /**
   Over every run of a cron plan, with status patches lost at any firings: every two firings have an
   activation and the padding between them exactly when no reconcile able to fire comes within that time
   after a firing whose patch was lost.
   */
  lemma SeparatedIffPatient(next: Cron, maxTasks: int, events: seq<Event>)
    requires IsSchedule(next) && ClockForward(events)
    ensures Separated(next, After(Schedule(Some(next)), maxTasks, events).firings) <==> Patient(next, maxTasks, events)
  {
    RunSeparatesIff(next, maxTasks, events);
  }

  /** An hourly schedule. */
  function Hourly(t: int): int {
    (t / 3_600_000 + 1) * 3_600_000
  }

  lemma HourlyIsStable(t: int, u: int)
    requires t <= u < Hourly(t)
    ensures Hourly(u) == Hourly(t)
  {
    assert u / 3_600_000 == t / 3_600_000;
  }

  lemma HourlyIsSchedule()
    ensures IsSchedule(HOURLY) && OnMinutes(HOURLY)
  {
    forall t, u | t <= u < Hourly(t)
      ensures Hourly(u) == Hourly(t)
    {
      HourlyIsStable(t, u);
    }
    forall t
      ensures t < Hourly(t) && Hourly(t) % SECOND == 0 && Hourly(t) % MINUTE == 0
    {
      HourlyIsWhole(t / 3_600_000 + 1);
    }
  }

  lemma HourlyIsWhole(n: int)
    ensures n * 3_600_000 % SECOND == 0 && n * 3_600_000 % MINUTE == 0
  {
    WholeSeconds(n * 3_600);
    WholeMinutes(n * 60);
  }

  lemma WholeSeconds(n: int)
    ensures n * 1_000 % SECOND == 0
  {
  }

  lemma WholeMinutes(n: int)
    ensures n * 60_000 % MINUTE == 0
  {
  }

  const HOURLY: Cron := (t: int) => Hourly(t)

  /**
   The first reconcile sets a status, the second fires at zero and loses its patch, the third fires a minute
   later.
   */
  const LOSING := [Reconcile(0, true, true), Reconcile(0, true, false), Reconcile(MINUTE, true, true)]

  lemma LosingRun()
    ensures
      var p := After(Schedule(Some(HOURLY)), 0, LOSING);
      p.firings == [0, MINUTE] && |p.live| == 2
  {
    var trigger := Schedule(Some(HOURLY));
    assert LOSING[..2][..1] == LOSING[..1] && LOSING[..1][..0] == [];
    assert After(trigger, 0, LOSING[..1]) == NewPlan().(pending := true);
    assert After(trigger, 0, LOSING[..2]) == Step(trigger, 0, NewPlan().(pending := true), LOSING[1]);
  }

  lemma NothingInFirstMinute(a: int)
    requires 0 < a < MINUTE
    ensures Hourly(a - 1) != a
  {
  }

  /** Losing one status patch is enough for two tasks within one hour of an hourly plan. */
  lemma LostPatchFiresTwice()
    ensures IsSchedule(HOURLY) && OnMinutes(HOURLY)
    ensures
      var p := After(Schedule(Some(HOURLY)), 0, LOSING);
      p.firings == [0, MINUTE] && |p.live| == 2
    ensures !Patient(HOURLY, 0, LOSING)
    ensures forall a :: 0 < a < MINUTE ==> !Activation(HOURLY, a)
  {
    HourlyIsSchedule();
    LosingRun();
    SeparatedIffPatient(HOURLY, 0, LOSING);
    NothingInFirstMinute(1);
    assert !Separated(HOURLY, [0, MINUTE]) by {
      assert HOURLY([0, MINUTE][0]) + PADDING >= [0, MINUTE][1];
    }
    forall a | 0 < a < MINUTE
      ensures !Activation(HOURLY, a)
    {
      NothingInFirstMinute(a);
    }
  }
}
