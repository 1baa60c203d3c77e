/**
 The life of an inspection task: what one reconcile stores, and what every run of reconciles, with
 any of the calls to the API server failing, can make of it.
 */
module TaskLifecycle {
  import opened Wrappers
  import opened Phases
  import JobRunner

  datatype TaskState = TaskState(
    finalizer: bool,
    deleting: bool,
    phase: Phase,
    start: Option<int>,
    end: Option<int>,
    jobs: seq<JobPhase>)
  {
    predicate Over() {
      phase == Succeeded || phase == Failed
    }
  }

  /** How the calls of one reconcile end; `inspect` holds the job phases of a finished inspection. */
  datatype Calls = Calls(update: bool, planUpdate: bool, statusUpdate: bool, config: bool, init: bool,
    inspect: Option<seq<JobPhase>>)
  {
    predicate Fine() {
      update && planUpdate && statusUpdate && config && init && inspect.Some?
    }
  }

  /** What is stored after one reconcile. */
  function Next(t: TaskState, now: int, calls: Calls): TaskState {
    if t.deleting then
      if calls.update then t.(finalizer := false) else t
    else if !t.finalizer then
      if calls.update then t.(finalizer := true) else t
    else if t.Over() then
      if t.end.None? && calls.statusUpdate then t.(end := Some(now)) else t
    else if t.start.None? then
      if calls.planUpdate && calls.statusUpdate then t.(start := Some(now), phase := Running) else t
    else if calls.config && calls.init && calls.inspect.Some? && calls.statusUpdate then
      t.(jobs := t.jobs + calls.inspect.value, phase := GetStatus(t.jobs + calls.inspect.value))
    else t
  }

  /** A stored task; `stored` is what the API server holds, reconciling works on a copy of it. */
  class TaskStore {
    var stored: TaskState

    constructor ()
      ensures stored == Created()
    {
      stored := Created();
    }

    method Reconcile(now: int, calls: Calls) returns (ok: bool)
      modifies this
      ensures stored == Next(old(stored), now, calls)
      ensures ok <==>
        var t := old(stored);
        if t.deleting || !t.finalizer then calls.update
        else if t.phase == Succeeded || t.phase == Failed then t.end.Some? || calls.statusUpdate
        else if t.start.None? then calls.planUpdate && calls.statusUpdate
        else calls.config && calls.init && calls.inspect.Some? && calls.statusUpdate
    {
      var task := stored;
      if !task.deleting {
        if !task.finalizer {
          task := task.(finalizer := true);
          if !calls.update {
            return false;
          }
          stored := task;
          return true;
        }
      } else {
        task := task.(finalizer := false);
        if !calls.update {
          return false;
        }
        stored := task;
        return true;
      }
      if task.phase == Succeeded || task.phase == Failed {
        if task.end.None? {
          task := task.(end := Some(now));
          if !calls.statusUpdate {
            return false;
          }
          stored := task;
        }
        return true;
      }
      if task.start.None? {
        if !calls.planUpdate {
          return false;
        }
        task := task.(start := Some(now), phase := Running);
        if !calls.statusUpdate {
          return false;
        }
        stored := task;
        return true;
      }
      if !calls.config || !calls.init {
        return false;
      }
      match calls.inspect {
        case None => return false;
        case Some(names) =>
          task := task.(jobs := task.jobs + names);
          task := task.(phase := GetStatus(task.jobs));
          if !calls.statusUpdate {
            return false;
          }
          stored := task;
          return true;
      }
    }
  }

  function Created(): TaskState {
    TaskState(false, false, Unset, None, None, [])
  }

  // ---------- Runs ----------

  /** A run interleaves reconciles with the user asking for deletion. */
  datatype Event = Reconcile(now: int, calls: Calls) | Delete

  function Step(t: TaskState, e: Event): TaskState {
    match e
    case Reconcile(now, calls) => Next(t, now, calls)
    case Delete => t.(deleting := true)
  }

  function After(t: TaskState, events: seq<Event>): TaskState {
    if events == [] then t else Step(After(t, events[..|events| - 1]), events[|events| - 1])
  }

  /** Unset without a start time, Running with one, over with one, and an end time only when over. */
  predicate Inv(t: TaskState) {
    && (t.phase == Unset || t.phase == Running || t.Over())
    && (t.phase == Unset <==> t.start.None?)
    && (t.end.Some? ==> t.Over())
    && (!t.Over() ==> t.jobs == [])
  }

  function Progress(phase: Phase): nat {
    match phase
    case Unset => 0
    case Pending => 0
    case Running => 1
    case Succeeded => 2
    case Failed => 2
  }

  /** What later states keep of earlier ones: phases only advance, and what is decided is never revised. */
  predicate Grows(t: TaskState, t': TaskState) {
    && Progress(t.phase) <= Progress(t'.phase)
    && (t.Over() ==> t'.phase == t.phase && t'.jobs == t.jobs)
    && (t.start.Some? ==> t'.start == t.start)
    && (t.end.Some? ==> t'.end == t.end)
    && (t.deleting ==> t'.deleting)
  }

  lemma {:induction false} RunKeeps(t: TaskState, events: seq<Event>)
    requires Inv(t)
    ensures Inv(After(t, events)) && Grows(t, After(t, events))
  {
    if events != [] {
      RunKeeps(t, events[..|events| - 1]);
    }
  }

  lemma {:induction false} AfterConcat(t: TaskState, a: seq<Event>, b: seq<Event>)
    ensures After(t, a + b) == After(After(t, a), b)
  {
    if b == [] {
      assert a + b == a;
    } else {
      assert (a + b)[..|a + b| - 1] == a + b[..|b| - 1];
      AfterConcat(t, a, b[..|b| - 1]);
    }
  }

  /** One event moves an unset task to Running at most, and ends only a Running one whose start time is set. */
  predicate OneStep(t: TaskState, t': TaskState) {
    && (t.phase == Unset ==> t'.phase == Unset || t'.phase == Running)
    && (t'.Over() && !t.Over() ==> t.phase == Running && t.start.Some? && t'.start == t.start)
  }

  lemma StepIsOneStep(t: TaskState, e: Event)
    requires Inv(t)
    ensures OneStep(t, Step(t, e))
  {
  }

  lemma LaterGrows(events: seq<Event>, i: nat)
    requires i <= |events|
    ensures Inv(After(Created(), events))
    ensures Grows(After(Created(), events[..i]), After(Created(), events))
  {
    RunKeeps(Created(), events[..i]);
    RunKeeps(After(Created(), events[..i]), events[i..]);
    AfterConcat(Created(), events[..i], events[i..]);
    assert events[..i] + events[i..] == events;
  }

  lemma AfterNext(events: seq<Event>, i: nat)
    requires i < |events|
    ensures After(Created(), events[..i + 1]) == Step(After(Created(), events[..i]), events[i])
  {
    assert events[..i + 1][..i] == events[..i];
  }

  /**
   Every later point of every run of a new task has grown from every earlier one, phases go from unset
   to Running and from Running to the end one at a time, and the start time is set before the end.
   */
  lemma EveryRun(events: seq<Event>, i: nat)
    requires i <= |events|
    ensures Inv(After(Created(), events))
    ensures Grows(After(Created(), events[..i]), After(Created(), events))
    ensures i < |events| ==> OneStep(After(Created(), events[..i]), After(Created(), events[..i + 1]))
    ensures
      var t, t' := After(Created(), events[..i]), After(Created(), events);
      && (t.start.Some? ==> t'.start == t.start)
      && (t.end.Some? ==> t'.end == t.end && (t.phase == Succeeded || t.phase == Failed))
      && (t.phase == Succeeded || t.phase == Failed ==> t'.phase == t.phase && t'.jobs == t.jobs)
      && (t.phase == Running ==> t'.phase == Running || t'.phase == Succeeded || t'.phase == Failed)
    ensures i < |events| ==>
      var t, t' := After(Created(), events[..i]), After(Created(), events[..i + 1]);
      && (t.phase == Unset ==> t'.phase == Unset || t'.phase == Running)
      && (t.phase == Running ==> t.start.Some? && t'.start == t.start)
  {
    LaterGrows(events, i);
    LaterGrows(events[..i], 0);
    if i < |events| {
      LaterGrows(events[..i + 1], 0);
      LaterGrows(events[..i + 1], i);
      assert events[..i + 1][..i] == events[..i];
      AfterNext(events, i);
      StepIsOneStep(After(Created(), events[..i]), events[i]);
    }
  }

  /** Reconciles carry times that do not go back. */
  predicate InOrder(events: seq<Event>) {
    forall i, j :: 0 <= i < j < |events| && events[i].Reconcile? && events[j].Reconcile? ==>
      events[i].now <= events[j].now
  }

  predicate UpTo(t: TaskState, events: seq<Event>) {
    && (t.start.Some? ==> exists i :: 0 <= i < |events| && events[i].Reconcile? && events[i].now == t.start.value)
    && (t.start.Some? && t.end.Some? ==> t.start.value <= t.end.value)
  }

  lemma {:induction false} TimesInOrder(events: seq<Event>)
    requires InOrder(events)
    ensures UpTo(After(Created(), events), events)
  {
    if events != [] {
      var init := events[..|events| - 1];
      TimesInOrder(init);
      RunKeeps(Created(), init);
      var t := After(Created(), init);
      if t.start.Some? {
        var i :| 0 <= i < |init| && init[i].Reconcile? && init[i].now == t.start.value;
        assert events[i] == init[i];
      }
      assert events[|events| - 1] == events[|init|];
    }
  }

  /** With a clock that does not go back, no task ends before it starts. */
  lemma EndsAfterStart(events: seq<Event>)
    requires InOrder(events)
    ensures
      var t := After(Created(), events);
      t.end.Some? ==> t.start.Some? && t.start.value <= t.end.value
  {
    TimesInOrder(events);
    RunKeeps(Created(), events);
  }

  // ---------- Quiescence ----------

  /** Reconciles a live task still needs. */
  function Rank(t: TaskState): nat {
    (if t.finalizer then 0 else 1)
    + (if t.Over() then (if t.end.Some? then 0 else 1) else if t.start.Some? then 2 else 3)
  }

  /** A reconcile whose calls succeed does one of the steps still needed, or nothing when none is. */
  lemma FineReconcileAdvances(t: TaskState, now: int, calls: Calls)
    requires Inv(t) && !t.deleting && calls.Fine()
    ensures Rank(t) > 0 ==> Rank(Next(t, now, calls)) == Rank(t) - 1
    ensures Rank(t) == 0 ==> Next(t, now, calls) == t
  {
  }

  predicate AllFine(events: seq<Event>) {
    forall i :: 0 <= i < |events| ==> events[i].Reconcile? && events[i].calls.Fine()
  }

  /** Rank counts down by one a reconcile and stays at zero. */
  lemma {:induction false} RankCountsDown(t: TaskState, events: seq<Event>)
    requires Inv(t) && !t.deleting && AllFine(events)
    ensures Rank(After(t, events)) == if |events| <= Rank(t) then Rank(t) - |events| else 0
    ensures !After(t, events).deleting
  {
    if events != [] {
      var init, last := events[..|events| - 1], events[|events| - 1];
      RankCountsDown(t, init);
      RunKeeps(t, init);
      FineReconcileAdvances(After(t, init), last.now, last.calls);
    }
  }

  /**
   A live task that nobody deletes and whose calls succeed is over, stamped and quiet after four reconciles, and
   not before.
   */
  lemma QuiescentAfterFour(events: seq<Event>, now: int, calls: Calls)
    requires AllFine(events) && calls.Fine()
    ensures
      var t := After(Created(), events);
      && (|events| >= 4 <==> Next(t, now, calls) == t)
      && (|events| >= 4 ==> t.Over() && t.end.Some?)
  {
    RunKeeps(Created(), events);
    RankCountsDown(Created(), events);
    FineReconcileAdvances(After(Created(), events), now, calls);
  }

  // ---------- The outcome ----------

  /**
   The reconcile that runs the jobs decides the task: whatever the interleaving of its jobs, it
   succeeds exactly when every job was fine and one of them had an operator.
   */
  lemma InspectionDecides(events: seq<Event>, now: int, calls: Calls, nodes: nat, scripts: seq<JobRunner.Script>,
                          schedule: seq<JobRunner.Step>)
    requires JobRunner.AllPolling(scripts)
    requires JobRunner.Legal(JobRunner.ComputedDeployNum(nodes, |scripts|), scripts, JobRunner.Start(|scripts|),
      schedule)
    requires
      var r := JobRunner.After(JobRunner.ComputedDeployNum(nodes, |scripts|), scripts, JobRunner.Start(|scripts|),
        schedule);
      r.returned && calls.inspect == Some(r.names)
    requires
      var t := After(Created(), events);
      t.phase == Running && t.finalizer && !t.deleting && calls.Fine()
    ensures
      var t' := Next(After(Created(), events), now, calls);
      && t'.Over()
      && (t'.phase == Succeeded <==> JobRunner.Registered(scripts) && JobRunner.AllFine(scripts))
    ensures
      var t' := Next(After(Created(), events), now, calls);
      && (t'.phase == Succeeded || t'.phase == Failed) && t'.jobs == calls.inspect.value
      && (t'.phase == Succeeded <==>
            && (exists i :: 0 <= i < |scripts| && scripts[i].registered)
            && (forall i :: 0 <= i < |scripts| ==> !scripts[i].late)
            && (forall i :: 0 <= i < |scripts| && scripts[i].registered ==>
                  && scripts[i].deployable && scripts[i].created && scripts[i].fetched
                  && scripts[i].polls[|scripts[i].polls| - 1] == JobRunner.Complete))
  {
    RunKeeps(Created(), events);
    JobRunner.RunOutcome(JobRunner.ComputedDeployNum(nodes, |scripts|), scripts, schedule);
    assert [] + calls.inspect.value == calls.inspect.value;
    JobRunner.FineIs(scripts);
  }

  /** A deleted task loses its finalizer, and nothing else happens to it any more. */
  lemma DeletionReleases(t: TaskState, now: int, calls: Calls)
    requires t.deleting
    ensures Next(t, now, calls).finalizer <==> t.finalizer && !calls.update
    ensures
      var t' := Next(t, now, calls);
      t'.phase == t.phase && t'.start == t.start && t'.end == t.end && t'.jobs == t.jobs && t'.deleting
  {
  }

  /** A reconcile of which a call that it needs fails stores nothing. */
  lemma FailuresStoreNothing(t: TaskState, now: int, calls: Calls)
    requires
      || ((t.deleting || !t.finalizer) && !calls.update)
      || (!t.deleting && t.finalizer && !calls.statusUpdate)
      || (!t.deleting && t.finalizer && t.phase == Unset && t.start.None? && !calls.planUpdate)
      || (!t.deleting && t.finalizer && t.phase == Running && t.start.Some?
          && (!calls.config || !calls.init || calls.inspect.None?))
    ensures Next(t, now, calls) == t
  {
  }

  /** What the steps of a live task store, one at a time: its finalizer, the start, the phases of its jobs, the end. */
  lemma StepsStore(t: TaskState, now: int, calls: Calls)
    requires !t.deleting && calls.update && calls.planUpdate && calls.statusUpdate && calls.config && calls.init
    requires calls.inspect.Some?
    ensures
      var t', over := Next(t, now, calls), t.phase == Succeeded || t.phase == Failed;
      && !t'.deleting && t'.finalizer
      && (t'.jobs == if t.finalizer && !over && t.start.Some? then t.jobs + calls.inspect.value else t.jobs)
      && (t'.start == if t.finalizer && !over && t.start.None? then Some(now) else t.start)
      && (t'.end == if t.finalizer && over && t.end.None? then Some(now) else t.end)
  {
  }
}
