/** Keeping only the newest tasks of a plan, and the list of task names in its status. */
module TaskRetention {
  import opened Wrappers
  import opened Sequences
  import opened Phases

  /** A task, named by the minute it was created in; its creation timestamp has whole seconds. */
  datatype Task = Task(name: int, created: int, ended: bool, jobs: seq<JobPhase>)

  datatype TaskName = TaskName(name: int, status: Phase)

  function TaskStatus(t: Task): TaskName {
    TaskName(t.name, if t.ended then GetStatus(t.jobs) else Pending)
  }

  const STATUS: Task -> TaskName := (t: Task) => TaskStatus(t)

  method ConvertTaskStatus(tasks: seq<Task>) returns (taskStatus: seq<TaskName>)
    ensures taskStatus == Map(STATUS, tasks)
  {
    taskStatus := [];
    for i := 0 to |tasks|
      invariant taskStatus == Map(STATUS, tasks[..i])
    {
      var t := tasks[i];
      if !t.ended {
        taskStatus := taskStatus + [TaskName(t.name, Pending)];
      } else {
        taskStatus := taskStatus + [TaskName(t.name, GetStatus(t.jobs))];
      }
    }
  }

  /** A task is listed as pending until it has ended, and then with the status its jobs come to. */
  lemma ListedStatus(tasks: seq<Task>, i: nat)
    requires i < |tasks|
    ensures
      var t, listed := tasks[i], Map(STATUS, tasks)[i];
      && listed.name == t.name
      && (!t.ended ==> listed.status == Pending)
      && (t.ended ==> (listed.status == Succeeded <==> t.jobs != [] && forall j :: j in t.jobs ==> j.phase != Failed))
      && (t.ended ==> listed.status == Succeeded || listed.status == Failed)
  {
  }

  predicate Oldest(tasks: seq<Task>) {
    forall i, j :: 0 <= i < j < |tasks| ==> tasks[i].created <= tasks[j].created
  }

  /** A listing of the same tasks, oldest first; tasks created in the same second come in any order. */
  ghost predicate IsListing(tasks: seq<Task>, list: seq<Task>) {
    multiset(list) == multiset(tasks) && Oldest(list)
  }

  function Insert(list: seq<Task>, at: nat, t: Task): (r: seq<Task>)
    requires at <= |list|
    ensures |r| == |list| + 1
  {
    list[..at] + [t] + list[at..]
  }

  lemma InsertKeepsTasks(list: seq<Task>, at: nat, t: Task)
    requires at <= |list|
    ensures multiset(Insert(list, at, t)) == multiset(list) + multiset{t}
  {
    assert list == list[..at] + list[at..];
  }

  lemma InsertKeepsOldest(list: seq<Task>, at: nat, t: Task)
    requires Oldest(list) && at <= |list|
    requires at > 0 ==> list[at - 1].created <= t.created
    requires at < |list| ==> t.created < list[at].created
    ensures Oldest(Insert(list, at, t))
  {
    var r := Insert(list, at, t);
    forall i, j | 0 <= i < j < |r|
      ensures r[i].created <= r[j].created
    {
      var i' := if i < at then i else i - 1;
      var j' := if j < at then j else j - 1;
      assert i < at ==> r[i] == list[i];
      assert i > at ==> r[i] == list[i - 1];
      assert j < at ==> r[j] == list[j];
      assert j > at ==> r[j] == list[j - 1];
      if i == at {
        assert list[at].created <= list[j'].created;
      } else if j == at {
        assert list[i'].created <= list[at - 1].created;
      } else {
        assert list[i'].created <= list[j'].created;
      }
    }
  }

  method SortByCreation(tasks: seq<Task>) returns (list: seq<Task>)
    ensures IsListing(tasks, list)
  {
    list := [];
    for i := 0 to |tasks|
      invariant IsListing(tasks[..i], list)
    {
      var t := tasks[i];
      var at := |list|;
      while at > 0 && list[at - 1].created > t.created
        invariant 0 <= at <= |list|
        invariant at < |list| ==> t.created < list[at].created
      {
        at := at - 1;
      }
      InsertKeepsOldest(list, at, t);
      InsertKeepsTasks(list, at, t);
      assert tasks[..i + 1] == tasks[..i] + [t];
      list := Insert(list, at, t);
    }
    assert tasks[..|tasks|] == tasks;
  }

  /**
   Cleaning: with a limit and at least that many tasks, exactly as many are kept and listed, oldest
   first, and none that goes is newer than one that stays; otherwise nothing changes.
   */
  method CleanTask(maxTasks: int, tasks: seq<Task>, listed: seq<TaskName>)
    returns (kept: seq<Task>, deleted: seq<Task>, listed': seq<TaskName>)
    ensures multiset(kept) + multiset(deleted) == multiset(tasks) && Oldest(deleted + kept)
    ensures maxTasks > 0 && |tasks| >= maxTasks ==> |kept| == maxTasks && listed' == Map(STATUS, kept)
    ensures !(maxTasks > 0 && |tasks| >= maxTasks) ==> deleted == [] && listed' == listed
  {
    kept := SortByCreation(tasks);
    deleted, listed' := [], listed;
    assert |kept| == |tasks| by {
      assert |multiset(kept)| == |multiset(tasks)|;
    }
    if maxTasks > 0 {
      if |kept| >= maxTasks {
        var cut := |kept| - maxTasks;
        assert kept == kept[..cut] + kept[cut..];
        deleted := kept[..cut];
        kept := kept[cut..];
        listed' := ConvertTaskStatus(kept);
      }
    }
    assert deleted == [] ==> deleted + kept == kept;
  }

  predicate StrictlyOldest(tasks: seq<Task>) {
    forall i, j :: 0 <= i < j < |tasks| ==> tasks[i].created < tasks[j].created
  }

  lemma NewestAgrees(tasks: seq<Task>, list: seq<Task>)
    requires StrictlyOldest(tasks) && IsListing(tasks, list) && tasks != []
    ensures |list| == |tasks| && list[|list| - 1] == tasks[|tasks| - 1]
  {
    assert |multiset(list)| == |multiset(tasks)|;
    var n := |tasks| - 1;
    assert forall i :: 0 <= i < n ==> tasks[i].created < tasks[n].created;
    assert tasks[n] in multiset(list) && list[n] in multiset(tasks);
    var j :| 0 <= j <= n && list[j] == tasks[n];
    var k :| 0 <= k <= n && tasks[k] == list[n];
    assert list[j].created <= list[n].created;
  }

  lemma NewestApart(tasks: seq<Task>, n: nat)
    requires |tasks| == n + 1
    ensures multiset(tasks[..n]) == multiset(tasks) - multiset{tasks[n]}
  {
    assert tasks == tasks[..n] + [tasks[n]];
  }

  lemma WithoutNewest(tasks: seq<Task>, list: seq<Task>, n: nat)
    requires multiset(list) == multiset(tasks) && |list| == |tasks| == n + 1 && list[n] == tasks[n]
    ensures multiset(list[..n]) == multiset(tasks[..n])
  {
    NewestApart(tasks, n);
    NewestApart(list, n);
  }

  /** Without two tasks of the same second there is only one listing. */
  lemma {:induction false} ListingIsUnique(tasks: seq<Task>, list: seq<Task>)
    requires StrictlyOldest(tasks) && IsListing(tasks, list)
    ensures list == tasks
    decreases |tasks|
  {
    if tasks == [] {
      assert |multiset(list)| == 0;
    } else {
      var n := |tasks| - 1;
      NewestAgrees(tasks, list);
      WithoutNewest(tasks, list, n);
      ListingIsUnique(tasks[..n], list[..n]);
      assert tasks == tasks[..n] + [tasks[n]] && list == list[..n] + [list[n]];
    }
  }
}
