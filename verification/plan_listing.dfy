/**
 The list of task names in the status of a cron plan, when status patches are lost at any time: how many
 tasks there are, and exactly when the listed names are those of the tasks.
 */
module PlanListing {
  import opened Wrappers
  import opened Sequences
  import opened TaskRetention
  import opened PlanSchedule

  // ---------- Names alone ----------

  type Names = seq<int>

  function Last(s: Names): int
    requires s != []
  {
    s[|s| - 1]
  }

  predicate LimitReached(maxTasks: int, names: Names) {
    maxTasks > 0 && |names| >= maxTasks
  }

  function Cleared(maxTasks: int, names: Names): Names {
    if LimitReached(maxTasks, names) then names[|names| - maxTasks..] else names
  }

  /** The names of the tasks once there is one of minute m, the latest. */
  function WithName(names: Names, m: int): Names {
    if names != [] && Last(names) == m then names else names + [m]
  }

  /**
   What is known of the names of the tasks, the names listed, and the minutes of the firings whose status was
   stored.  Below the limit the list is those minutes; at the limit it is right if the last task's is among them.
   */
  predicate Known(maxTasks: int, names: Names, listed: Names, stored: Names) {
    && Increasing(names) && Increasing(stored)
    && (maxTasks > 0 ==> |names| <= maxTasks)
    && (stored == [] ==> listed == [])
    && (stored != [] ==> names != [] && Last(stored) <= Last(names) && forall x :: x in listed ==> x <= Last(stored))
    && (!LimitReached(maxTasks, names) ==> listed == stored && forall x :: x in stored ==> x in names)
    && (LimitReached(maxTasks, names) && stored != [] && Last(stored) == Last(names) ==> listed == names)
  }

  lemma {:induction false} SameIncreasing(a: Names, b: Names)
    requires Increasing(a) && Increasing(b) && forall x :: x in a <==> x in b
    ensures a == b
  {
    if a != [] && b != [] {
      LastIsSame(a, b);
      var init, init' := a[..|a| - 1], b[..|b| - 1];
      forall x
        ensures x in init <==> x in init'
      {
        BelowLast(a, x);
        BelowLast(b, x);
      }
      SameIncreasing(init, init');
      assert a == init + [Last(a)] && b == init' + [Last(b)];
    } else {
      if a == [] {
        NoMembers(a, b);
      }
      if b == [] {
        NoMembers(b, a);
      }
    }
  }

  lemma NoMembers(a: Names, b: Names)
    requires a == [] && forall x :: x in a <==> x in b
    ensures b == []
  {
    if b != [] {
      LastIn(b);
    }
  }

  lemma LastIn(s: Names)
    requires s != []
    ensures Last(s) in s
  {
  }

  lemma BelowLast(a: Names, x: int)
    requires a != [] && Increasing(a)
    ensures x in a[..|a| - 1] <==> x in a && x < Last(a)
  {
    if x in a && x < Last(a) {
      var i :| 0 <= i < |a| && a[i] == x;
      assert a[..|a| - 1][i] == x;
    }
  }

  lemma LastIsSame(a: Names, b: Names)
    requires a != [] && b != [] && Increasing(a) && Increasing(b) && forall x :: x in a <==> x in b
    ensures Last(a) == Last(b)
  {
    assert Last(a) in b && Last(b) in a;
    var i :| 0 <= i < |b| && b[i] == Last(a);
    var j :| 0 <= j < |a| && a[j] == Last(b);
  }

  /**
   The names listed are those of the tasks exactly when the last task's, or below the limit each task's, was
   stored.
   */
  lemma ListedIff(maxTasks: int, names: Names, listed: Names, stored: Names)
    requires Known(maxTasks, names, listed, stored)
    ensures listed == names
       <==> if LimitReached(maxTasks, names) then Last(names) in stored else forall x :: x in names ==> x in stored
  {
    if LimitReached(maxTasks, names) {
      assert Last(names) in names;
      if Last(names) in stored {
        var i :| 0 <= i < |stored| && stored[i] == Last(names);
        assert Last(stored) == Last(names);
      } else if stored != [] {
        assert Last(stored) in stored;
      }
    } else if forall x :: x in names ==> x in stored {
      SameIncreasing(names, stored);
    }
  }

  lemma AppendIncreases(s: Names, m: int)
    requires Increasing(s) && (s != [] ==> Last(s) < m)
    ensures Increasing(s + [m])
  {
  }

  lemma ClearedNames(maxTasks: int, names: Names)
    requires Increasing(names) && names != []
    ensures
      var kept := Cleared(maxTasks, names);
      && kept != [] && Last(kept) == Last(names) && Increasing(kept)
      && (maxTasks > 0 ==> |kept| <= maxTasks)
      && (LimitReached(maxTasks, names) <==> LimitReached(maxTasks, kept))
      && (!LimitReached(maxTasks, names) ==> kept == names)
  {
  }

  /** The names of the tasks after a firing of minute m. */
  predicate Fired(maxTasks: int, names: Names, m: int, names': Names) {
    && Increasing(names') && names' != [] && Last(names') == m
    && (maxTasks > 0 ==> |names'| <= maxTasks)
    && (!LimitReached(maxTasks, names') ==> !LimitReached(maxTasks, names) && forall x :: x in names ==> x in names')
  }

  lemma FiredNames(maxTasks: int, names: Names, m: int)
    requires Increasing(names) && (names != [] ==> Last(names) <= m) && (maxTasks > 0 ==> |names| <= maxTasks)
    ensures Fired(maxTasks, names, m, Cleared(maxTasks, WithName(names, m)))
    ensures LimitReached(maxTasks, Cleared(maxTasks, WithName(names, m)))
      <==> LimitReached(maxTasks, WithName(names, m))
  {
    if names == [] || Last(names) < m {
      AppendIncreases(names, m);
    }
    ClearedNames(maxTasks, WithName(names, m));
  }

  lemma LostKeepsKnown(maxTasks: int, names: Names, listed: Names, stored: Names, m: int, names': Names)
    requires Known(maxTasks, names, listed, stored) && Fired(maxTasks, names, m, names')
    requires stored != [] ==> Last(stored) < m
    ensures Known(maxTasks, names', listed, stored)
  {
  }

  lemma StoredKeepsKnown(maxTasks: int, names: Names, listed: Names, stored: Names, m: int, names': Names)
    requires Known(maxTasks, names, listed, stored) && Fired(maxTasks, names, m, names')
    requires stored != [] ==> Last(stored) < m
    ensures Known(maxTasks, names', if LimitReached(maxTasks, names') then names' else listed + [m], stored + [m])
  {
    AppendIncreases(stored, m);
    UpToLast(names');
    assert m in names';
  }

  lemma UpToLast(names: Names)
    requires Increasing(names) && names != []
    ensures forall x :: x in names ==> x <= Last(names)
  {
    forall x | x in names
      ensures x <= Last(names)
    {
      var i :| 0 <= i < |names| && names[i] == x;
    }
  }

  /** A firing of minute m, later than all stored ones, keeps what is known. */
  lemma FiringKeepsKnown(maxTasks: int, names: Names, listed: Names, stored: Names, m: int, landed: bool)
    requires Known(maxTasks, names, listed, stored)
    requires (names != [] ==> Last(names) <= m) && (stored != [] ==> Last(stored) < m)
    ensures
      var made := WithName(names, m);
      var names' := Cleared(maxTasks, made);
      if landed
      then Known(maxTasks, names', if LimitReached(maxTasks, made) then names' else listed + [m], stored + [m])
      else Known(maxTasks, names', listed, stored)
  {
    var names' := Cleared(maxTasks, WithName(names, m));
    FiredNames(maxTasks, names, m);
    if landed {
      StoredKeepsKnown(maxTasks, names, listed, stored, m, names');
    } else {
      LostKeepsKnown(maxTasks, names, listed, stored, m, names');
    }
  }

  // ---------- Plans ----------

  const NAME_AT: int -> int := (t: int) => NameAt(t)

  function TaskNames(p: Plan): Names {
    Map(NAME_OF_TASK, p.live)
  }

  function ListedNames(p: Plan): Names {
    Map(NAME_LISTED, p.listed)
  }

  function StoredNames(p: Plan): Names {
    Map(NAME_AT, p.stored)
  }

  /** The newest task is of the latest firing, the last schedule time of the latest stored one. */
  predicate Latest(p: Plan) {
    && (p.firings == [] ==> p.live == [])
    && (p.firings != [] ==> p.live != [] && Last(TaskNames(p)) == NameAt(Last(p.firings)))
    && p.last == if p.stored == [] then None else Some(Stored(Last(p.stored)))
  }

  predicate PlanKnown(maxTasks: int, p: Plan) {
    Latest(p) && Known(maxTasks, TaskNames(p), ListedNames(p), StoredNames(p))
  }

  lemma NameIsMonotone(s: int, t: int)
    requires s <= t
    ensures NameAt(s) <= NameAt(t)
  {
  }

  /** A due reconcile is of a later minute than every firing whose status was stored. */
  lemma DueIsLater(next: Cron, p: Plan, now: int)
    requires IsSchedule(next) && OnMinutes(next) && Latest(p) && Due(next, p.last, now)
    ensures p.stored != [] ==> Last(StoredNames(p)) < NameAt(now)
  {
    if p.stored != [] {
      StoredKeepsNext(next, Last(p.stored));
      NamesIncrease(next, Last(p.stored), now);
    }
  }

  /** With names that increase up to this minute, a task of this minute exists exactly if it is the last. */
  lemma HasTaskIff(live: seq<Task>, m: int)
    requires Increasing(Map(NAME_OF_TASK, live)) && (live != [] ==> Last(Map(NAME_OF_TASK, live)) <= m)
    ensures HasTask(live, m) <==> live != [] && Last(Map(NAME_OF_TASK, live)) == m
  {
    var names := Map(NAME_OF_TASK, live);
    var i := IndexOf(names, m);
    if i < |names| {
      assert names[i] == m;
    }
  }

  lemma NamesWithTask(live: seq<Task>, now: int)
    requires Increasing(Map(NAME_OF_TASK, live)) && (live != [] ==> Last(Map(NAME_OF_TASK, live)) <= NameAt(now))
    ensures Map(NAME_OF_TASK, WithTask(live, now)) == WithName(Map(NAME_OF_TASK, live), NameAt(now))
  {
    HasTaskIff(live, NameAt(now));
    MapConcat(NAME_OF_TASK, live, [Task(NameAt(now), Stored(now), false, [])]);
  }

  lemma NamesKept(maxTasks: int, live: seq<Task>)
    ensures Map(NAME_OF_TASK, Kept(maxTasks, live)) == Cleared(maxTasks, Map(NAME_OF_TASK, live))
  {
  }

  lemma ListedAfterFiring(maxTasks: int, p: Plan, now: int, landed: bool)
    requires Increasing(TaskNames(p)) && (p.live != [] ==> Last(TaskNames(p)) <= NameAt(now))
    ensures
      var p' := FireOnSchedule(maxTasks, p, now, landed);
      var made := WithName(TaskNames(p), NameAt(now));
      && TaskNames(p') == Cleared(maxTasks, made)
      && StoredNames(p') == StoredNames(p) + (if landed then [NameAt(now)] else [])
      && ListedNames(p') == if !landed then ListedNames(p)
                            else if LimitReached(maxTasks, made) then TaskNames(p')
                            else ListedNames(p) + [NameAt(now)]
  {
    var made := WithTask(p.live, now);
    NamesWithTask(p.live, now);
    NamesKept(maxTasks, made);
    StatusKeepsNames(Kept(maxTasks, made));
    MapConcat(NAME_AT, p.stored, [now]);
    MapConcat(NAME_LISTED, p.listed, [TaskName(NameAt(now), StatusOfNew(p.live, now))]);
    assert |Map(NAME_OF_TASK, made)| == |made|;
  }

  lemma LatestAfterFiring(maxTasks: int, p: Plan, now: int, landed: bool)
    requires Latest(p) && Increasing(TaskNames(p)) && (p.live != [] ==> Last(TaskNames(p)) <= NameAt(now))
    requires maxTasks > 0 ==> |p.live| <= maxTasks
    ensures Latest(FireOnSchedule(maxTasks, p, now, landed))
  {
    ListedAfterFiring(maxTasks, p, now, landed);
    FiredNames(maxTasks, TaskNames(p), NameAt(now));
    FireIsFiredAt(maxTasks, p, now, landed);
    LatestFrom(p, FireOnSchedule(maxTasks, p, now, landed), now, landed);
  }

  lemma LatestFrom(p: Plan, p': Plan, now: int, landed: bool)
    requires Latest(p) && FiredAt(p, p', now, landed) && p'.live != [] && Last(TaskNames(p')) == NameAt(now)
    ensures Latest(p')
  {
  }

  lemma FiringKeepsPlanKnown(next: Cron, maxTasks: int, p: Plan, now: int, landed: bool)
    requires IsSchedule(next) && OnMinutes(next) && PlanKnown(maxTasks, p) && Due(next, p.last, now)
    requires UpTo(p.firings, now)
    ensures PlanKnown(maxTasks, FireOnSchedule(maxTasks, p, now, landed))
  {
    if p.firings != [] {
      NameIsMonotone(Last(p.firings), now);
    }
    DueIsLater(next, p, now);
    LatestAfterFiring(maxTasks, p, now, landed);
    ListedAfterFiring(maxTasks, p, now, landed);
    FiringKeepsKnown(maxTasks, TaskNames(p), ListedNames(p), StoredNames(p), NameAt(now), landed);
    assert StoredNames(p) + [] == StoredNames(p);
  }

  lemma StepKeepsPlanKnown(next: Cron, maxTasks: int, p: Plan, e: Event)
    requires IsSchedule(next) && OnMinutes(next) && PlanKnown(maxTasks, p) && (e.Reconcile? ==> UpTo(p.firings, e.now))
    ensures PlanKnown(maxTasks, Step(Schedule(Some(next)), maxTasks, p, e))
  {
    StepCases(next, maxTasks, p, e);
    if Fires(next, p, e) {
      FiringKeepsPlanKnown(next, maxTasks, p, e.now, e.landed);
    }
  }

  lemma {:induction false} RunKeepsPlanKnown(next: Cron, maxTasks: int, events: seq<Event>)
    requires IsSchedule(next) && OnMinutes(next) && ClockForward(events)
    ensures PlanKnown(maxTasks, After(Schedule(Some(next)), maxTasks, events))
  {
    if events != [] {
      var n := |events| - 1;
      RunKeepsPlanKnown(next, maxTasks, events[..n]);
      if events[n].Reconcile? {
        FiringsAreTimes(next, maxTasks, events[..n], events[n].now);
      }
      StepKeepsPlanKnown(next, maxTasks, After(Schedule(Some(next)), maxTasks, events[..n]), events[n]);
    }
  }

  /** However many status patches are lost, there are never more tasks than the limit. */
  lemma {:induction false} NeverTooMany(next: Cron, maxTasks: int, events: seq<Event>)
    requires maxTasks > 0
    ensures |After(Schedule(Some(next)), maxTasks, events).live| <= maxTasks
  {
    if events != [] {
      var n := |events| - 1;
      NeverTooMany(next, maxTasks, events[..n]);
      StepCases(next, maxTasks, After(Schedule(Some(next)), maxTasks, events[..n]), events[n]);
    }
  }

  /**
   Over every run of a minute-aligned cron plan, with status patches lost at any firings: there are never more
   tasks than the limit, their names are distinct, and the listed names are theirs exactly when a firing of the
   newest task's minute was stored, or, below the limit, one of each task's minute.
   */
  lemma ListingIff(next: Cron, maxTasks: int, events: seq<Event>)
    requires IsSchedule(next) && OnMinutes(next) && ClockForward(events)
    ensures
      var p := After(Schedule(Some(next)), maxTasks, events);
      && (maxTasks > 0 ==> |p.live| <= maxTasks)
      && (forall i, j :: 0 <= i < j < |p.live| ==> p.live[i].name < p.live[j].name)
      && (|p.listed| == |p.live| && (forall i :: 0 <= i < |p.live| ==> p.listed[i].name == p.live[i].name)
          <==> if maxTasks > 0 && |p.live| == maxTasks
               then exists f :: f in p.stored && f / 60_000 == p.live[|p.live| - 1].name
               else forall i :: 0 <= i < |p.live| ==> exists f :: f in p.stored && f / 60_000 == p.live[i].name)
  {
    RunKeepsPlanKnown(next, maxTasks, events);
    KnownListing(maxTasks, After(Schedule(Some(next)), maxTasks, events));
  }

  lemma KnownListing(maxTasks: int, p: Plan)
    requires PlanKnown(maxTasks, p)
    ensures
      && (maxTasks > 0 ==> |p.live| <= maxTasks)
      && (forall i, j :: 0 <= i < j < |p.live| ==> p.live[i].name < p.live[j].name)
      && (|p.listed| == |p.live| && (forall i :: 0 <= i < |p.live| ==> p.listed[i].name == p.live[i].name)
          <==> if maxTasks > 0 && |p.live| == maxTasks
               then exists f :: f in p.stored && f / 60_000 == p.live[|p.live| - 1].name
               else forall i :: 0 <= i < |p.live| ==> exists f :: f in p.stored && f / 60_000 == p.live[i].name)
  {
    ListedIff(maxTasks, TaskNames(p), ListedNames(p), StoredNames(p));
    SameNames(p);
    forall i | 0 <= i < |p.live|
      ensures p.live[i].name in StoredNames(p) <==> exists f :: f in p.stored && f / 60_000 == p.live[i].name
    {
      StoredMinute(p, p.live[i].name);
    }
    NamesInStored(p);
  }

  lemma SameNames(p: Plan)
    ensures ListedNames(p) == TaskNames(p) <==>
      |p.listed| == |p.live| && forall i :: 0 <= i < |p.live| ==> p.listed[i].name == p.live[i].name
    ensures Increasing(TaskNames(p)) ==> forall i, j :: 0 <= i < j < |p.live| ==> p.live[i].name < p.live[j].name
  {
    if ListedNames(p) == TaskNames(p) {
      assert |ListedNames(p)| == |TaskNames(p)|;
      forall i | 0 <= i < |p.live|
        ensures p.listed[i].name == p.live[i].name
      {
        assert ListedNames(p)[i] == TaskNames(p)[i];
      }
    }
    forall i | 0 <= i < |p.live|
      ensures TaskNames(p)[i] == p.live[i].name
    {
    }
  }

  lemma StoredMinute(p: Plan, name: int)
    ensures name in StoredNames(p) <==> exists f :: f in p.stored && f / 60_000 == name
  {
    var stored := StoredNames(p);
    if name in stored {
      var i :| 0 <= i < |stored| && stored[i] == name;
      assert p.stored[i] in p.stored && p.stored[i] / 60_000 == name;
    }
    if f :| f in p.stored && f / 60_000 == name {
      var i :| 0 <= i < |p.stored| && p.stored[i] == f;
      assert stored[i] == name;
    }
  }

  lemma NamesInStored(p: Plan)
    ensures (forall x :: x in TaskNames(p) ==> x in StoredNames(p))
       <==> forall i :: 0 <= i < |p.live| ==> p.live[i].name in StoredNames(p)
  {
    forall i | 0 <= i < |p.live|
      ensures p.live[i].name in TaskNames(p)
    {
      assert TaskNames(p)[i] == p.live[i].name;
    }
    forall x | x in TaskNames(p)
      ensures exists i :: 0 <= i < |p.live| && p.live[i].name == x
    {
      var i :| 0 <= i < |TaskNames(p)| && TaskNames(p)[i] == x;
      assert p.live[i].name == x;
    }
  }
}
