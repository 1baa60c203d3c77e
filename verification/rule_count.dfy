/**
 Counting over runs: whether the counter of each rule is the number of plan labels on it, when rules
 and plans are created, changed and deleted at any time and calls fail.
 */
module RuleCount {
  import opened Sequences
  import opened RuleJoin

  function Value(a: Annotation): int {
    match a
    case Absent => 0
    case Garbage => -1
    case Number(n) => n
  }

  /** The counter of a rule is the number of plan labels on it. */
  predicate Counted(r: Rule) {
    r.count != Garbage && Value(r.count) == |r.plans|
  }

  lemma IncrementKeepsCount(r: Rule, p: string)
    requires Counted(r) && p !in r.plans
    ensures Counted(Rule(r.plans + {p}, Incremented(r.count)))
  {
  }

  /** Leaving a rule keeps its counter right exactly when the plan had joined it, or the counter reads zero. */
  lemma DecrementKeepsCountIff(r: Rule, p: string)
    requires Counted(r)
    ensures Counted(Rule(r.plans - {p}, Decremented(r.count))) <==> p in r.plans || r.count == Number(0)
  {
    if p !in r.plans {
      assert r.plans - {p} == r.plans;
    }
  }

  datatype Event =
    | CreateRule(name: string)
    | DeleteRule(name: string)
    | CreatePlan(p: string, names: seq<string>)
    | AppendRule(p: string, name: string)
    | RemoveRule(p: string, name: string)
    | Delete(p: string)
    | Reconcile(p: string, up: Reachable, landed: bool)

  /** What may happen at any time; plans name distinct rules. */
  predicate Allowed(c: Cluster, e: Event) {
    match e
    case CreateRule(name) => name !in c.rules
    case DeleteRule(name) => name in c.rules
    case CreatePlan(p, names) => p !in c.plans && Distinct(names)
    case AppendRule(p, name) => p in c.plans && name !in c.plans[p].names
    case RemoveRule(p, name) => p in c.plans
    case Delete(p) => p in c.plans
    case Reconcile(p, _, _) => p in c.plans
  }

  function Other(name: string): string -> bool {
    (n: string) => n != name
  }

  function Step(c: Cluster, e: Event): Cluster {
    match e
    case CreateRule(name) => c.(rules := c.rules[name := Rule({}, Absent)])
    case DeleteRule(name) => c.(rules := c.rules - {name})
    case CreatePlan(p, names) => c.(plans := c.plans[p := Plan(names, map[], false)])
    case AppendRule(p, name) => if p in c.plans then Renamed(c, p, c.plans[p].names + [name]) else c
    case RemoveRule(p, name) => if p in c.plans then Renamed(c, p, Filter(Other(name), c.plans[p].names)) else c
    case Delete(p) => if p in c.plans then c.(plans := c.plans[p := c.plans[p].(deleting := true)]) else c
    case Reconcile(p, up, landed) => if p in c.plans then Reconciled(c, p, up, landed) else c
  }

  function Renamed(c: Cluster, p: string, names: seq<string>): Cluster
    requires p in c.plans
  {
    c.(plans := c.plans[p := c.plans[p].(names := names)])
  }

  /** The plan names distinct rules, and each of its labels names its rule. */
  predicate Shaped(plan: Plan) {
    Distinct(plan.names) && OwnNames(plan.labels)
  }

  predicate AllShaped(c: Cluster) {
    forall p :: p in c.plans ==> Shaped(c.plans[p])
  }

  /** The plans a rule is on, read off the labels of the plans. */
  function PlansOn(c: Cluster, r: string): set<string> {
    set p | p in c.plans && Joined(c.plans[p].labels, r)
  }

  /** The counter is the number of plan labels, and the rule carries the labels of just those plans. */
  predicate RuleAgrees(c: Cluster, r: string)
    requires r in c.rules
  {
    Counted(c.rules[r]) && c.rules[r].plans == PlansOn(c, r)
  }

  predicate Agrees(c: Cluster) {
    forall r :: r in c.rules ==> RuleAgrees(c, r)
  }

  predicate NothingStale(plan: Plan) {
    Remaining(plan.labels, plan.names) == map[]
  }

  /** Whether a reconcile keeps a rule in step. */
  predicate ReconcileKeeps(c: Cluster, p: string, up: Reachable, landed: bool, r: string)
    requires p in c.plans && r in c.rules
  {
    var plan := c.plans[p];
    if plan.deleting then
      if r in plan.names && r in up
      then if landed then Joined(plan.labels, r) || c.rules[r].count == Number(0)
           else !Joined(plan.labels, r) && c.rules[r].count == Number(0)
      else landed ==> !Joined(plan.labels, r)
    else if NothingStale(plan) then landed || r !in up || r !in Joining(plan)
    else r !in up || !Stale(plan, r)
  }

  /**
   What keeps counters and labels in step.  A rule is created when no plan has a label for it.  A reconcile that
   joins rules it reaches stores the plan.  One that meets stale labels reaches none of their rules.  One that
   deletes a plan and stores that reaches all rules joined, and no others but those whose counter reads zero; if
   it does not store it, all rules it reaches are of the latter kind.
   */
  predicate Keeps(c: Cluster, e: Event) {
    match e
    case CreateRule(name) => PlansOn(c, name) == {}
    case Reconcile(p, up, landed) => p in c.plans ==> forall r :: r in c.rules ==> ReconcileKeeps(c, p, up, landed, r)
    case _ => true
  }

  // ---------- The shape of plans ----------

  /** Each label names its rule. */
  predicate OwnNames(labels: Labels) {
    forall k :: k in labels ==> k == Key(labels[k])
  }

  lemma LabelKeepsNames(labels: Labels, name: string)
    requires OwnNames(labels)
    ensures OwnNames(labels[Key(name) := name])
  {
  }

  lemma {:induction false} AddAllKeepsNames(c: Cluster, p: string, names: seq<string>)
    requires p in c.plans && OwnNames(c.plans[p].labels)
    ensures OwnNames(AddAll(c, p, names).plans[p].labels)
  {
    if names != [] {
      var before := AddAll(c, p, names[..|names| - 1]);
      AddAllKeepsNames(c, p, names[..|names| - 1]);
      LabelKeepsNames(before.plans[p].labels, names[|names| - 1]);
    }
  }

  /** A reconcile touches no other plan. */
  lemma OthersStay(c: Cluster, p: string, up: Reachable, landed: bool, q: string)
    requires p in c.plans && q in Reconciled(c, p, up, landed).plans && q != p
    ensures q in c.plans && Reconciled(c, p, up, landed).plans[q] == c.plans[q]
  {
  }

  lemma ReconciledKeepsShape(c: Cluster, p: string, up: Reachable, landed: bool)
    requires AllShaped(c) && p in c.plans
    ensures AllShaped(Reconciled(c, p, up, landed))
  {
    var plan, c' := c.plans[p], Reconciled(c, p, up, landed);
    if !plan.deleting && NothingStale(plan) {
      AddAllKeepsNames(c, p, Filter(In(up), Joining(plan)));
    }
    forall q | q in c'.plans && q != p
      ensures Shaped(c'.plans[q])
    {
      OthersStay(c, p, up, landed, q);
    }
  }

  lemma StepKeepsShape(c: Cluster, e: Event)
    requires AllShaped(c) && Allowed(c, e)
    ensures AllShaped(Step(c, e))
  {
    match e
    case RemoveRule(p, name) => FilterDistinct(Other(name), c.plans[p].names);
    case Reconcile(p, up, landed) => ReconciledKeepsShape(c, p, up, landed);
    case _ =>
  }

  // ---------- Which reconciles keep a rule in step ----------

  /** Only the label of plan p may differ, and it ends as given. */
  lemma PlansOnChange(c: Cluster, c': Cluster, p: string, r: string, on: bool)
    requires forall q :: q != p ==>
               (q in c.plans && Joined(c.plans[q].labels, r) <==> q in c'.plans && Joined(c'.plans[q].labels, r))
    requires on <==> p in c'.plans && Joined(c'.plans[p].labels, r)
    ensures PlansOn(c', r) == if on then PlansOn(c, r) + {p} else PlansOn(c, r) - {p}
  {
  }

  lemma JoiningIsNew(plan: Plan, r: string)
    requires Distinct(plan.names) && NothingStale(plan) && r in Joining(plan)
    ensures !Joined(plan.labels, r)
  {
    JoinsLongestSuffix(plan.labels, plan.names);
    var cut := CoverEnd(plan.labels, plan.names);
    var i :| 0 <= i < |Joining(plan)| && Joining(plan)[i] == r;
    assert plan.names[cut + i] == r;
  }

  /** The rules a loop over names reaches. */
  lemma Reached(names: seq<string>, up: Reachable, r: string)
    requires Distinct(names)
    ensures Distinct(Filter(In(up), names))
    ensures r in Filter(In(up), names) <==> r in names && r in up
  {
    FilterDistinct(In(up), names);
    FilterMembers(In(up), names, r);
  }

  lemma JoiningIsDistinct(plan: Plan)
    requires Distinct(plan.names)
    ensures Distinct(Joining(plan))
  {
  }

  /** A join puts the labels on rule and plan, or only on the rule when the plan update is lost. */
  lemma JoinOnRule(c: Cluster, p: string, up: Reachable, landed: bool, r: string)
    requires p in c.plans && Shaped(c.plans[p]) && !c.plans[p].deleting && NothingStale(c.plans[p])
    requires r in c.rules && RuleAgrees(c, r)
    ensures RuleAgrees(Reconciled(c, p, up, landed), r) <==> ReconcileKeeps(c, p, up, landed, r)
  {
    var plan, c' := c.plans[p], Reconciled(c, p, up, landed);
    var joining := Filter(In(up), Joining(plan));
    JoiningIsDistinct(plan);
    Reached(Joining(plan), up, r);
    AddAllRules(c, p, joining, r);
    AddAllLabels(c, p, joining, r);
    PlansOnChange(c, c', p, r, Joined(c'.plans[p].labels, r));
    if r in joining {
      JoiningIsNew(plan, r);
      IncrementKeepsCount(c.rules[r], p);
      assert p !in PlansOn(c, r) && p in c'.rules[r].plans;
    }
  }

  /** Leaving takes the plan off the rule, and off the plan only when that is stored. */
  lemma LeaveOnRule(c: Cluster, p: string, up: Reachable, landed: bool, r: string)
    requires p in c.plans && Shaped(c.plans[p]) && c.plans[p].deleting
    requires r in c.rules && RuleAgrees(c, r)
    ensures RuleAgrees(Reconciled(c, p, up, landed), r) <==> ReconcileKeeps(c, p, up, landed, r)
  {
    var plan, c' := c.plans[p], Reconciled(c, p, up, landed);
    var leaving := Filter(In(up), plan.names);
    Reached(plan.names, up, r);
    SubAllRules(c, p, leaving, r);
    PlansOnChange(c, c', p, r, !landed && Joined(plan.labels, r));
    assert p in c.rules[r].plans <==> Joined(plan.labels, r);
    if r in leaving {
      DecrementKeepsCountIff(c.rules[r], p);
    }
  }

  /** A removal takes the plan off the rule but leaves the label on the plan. */
  lemma RemoveOnRule(c: Cluster, p: string, up: Reachable, landed: bool, r: string)
    requires p in c.plans && !c.plans[p].deleting && !NothingStale(c.plans[p])
    requires r in c.rules && RuleAgrees(c, r)
    ensures RuleAgrees(Reconciled(c, p, up, landed), r) <==> ReconcileKeeps(c, p, up, landed, r)
  {
    var c' := Reconciled(c, p, up, landed);
    assert PlansOn(c', r) == PlansOn(c, r);
    if Stale(c.plans[p], r) && r in up {
      assert p in PlansOn(c, r) && p !in c'.rules[r].plans;
    }
  }

  lemma ReconcileOnRule(c: Cluster, p: string, up: Reachable, landed: bool, r: string)
    requires p in c.plans && Shaped(c.plans[p]) && r in c.rules && RuleAgrees(c, r)
    ensures r in Reconciled(c, p, up, landed).rules
    ensures RuleAgrees(Reconciled(c, p, up, landed), r) <==> ReconcileKeeps(c, p, up, landed, r)
  {
    if c.plans[p].deleting {
      LeaveOnRule(c, p, up, landed, r);
    } else if NothingStale(c.plans[p]) {
      JoinOnRule(c, p, up, landed, r);
    } else {
      RemoveOnRule(c, p, up, landed, r);
    }
  }

  lemma ReconcileKeepsIff(c: Cluster, p: string, up: Reachable, landed: bool)
    requires AllShaped(c) && Agrees(c) && p in c.plans
    ensures Agrees(Reconciled(c, p, up, landed)) <==> forall r :: r in c.rules ==> ReconcileKeeps(c, p, up, landed, r)
  {
    var c' := Reconciled(c, p, up, landed);
    assert c'.rules.Keys == c.rules.Keys;
    forall r | r in c.rules
      ensures r in c'.rules && (RuleAgrees(c', r) <==> ReconcileKeeps(c, p, up, landed, r))
    {
      ReconcileOnRule(c, p, up, landed, r);
    }
  }

  lemma CreateRuleKeepsIff(c: Cluster, name: string)
    requires Agrees(c) && name !in c.rules
    ensures Agrees(Step(c, CreateRule(name))) <==> PlansOn(c, name) == {}
  {
    var c' := Step(c, CreateRule(name));
    forall r | r in c.rules
      ensures RuleAgrees(c', r)
    {
      assert PlansOn(c', r) == PlansOn(c, r);
    }
    assert PlansOn(c', name) == PlansOn(c, name);
    assert RuleAgrees(c', name) <==> PlansOn(c, name) == {};
  }

  /** Events that leave the labels of all plans as they are, and no rule with other labels or another count. */
  lemma QuietKeeps(c: Cluster, e: Event)
    requires Agrees(c) && Allowed(c, e) && !e.CreateRule? && !e.Reconcile?
    ensures Agrees(Step(c, e))
  {
    var c' := Step(c, e);
    forall r | r in c'.rules
      ensures RuleAgrees(c', r)
    {
      assert RuleAgrees(c, r);
      assert PlansOn(c', r) == PlansOn(c, r);
    }
  }

  /** From a state in step, an event leaves one in step exactly when it is one of those that keep it. */
  lemma StepKeepsIff(c: Cluster, e: Event)
    requires AllShaped(c) && Agrees(c) && Allowed(c, e)
    ensures AllShaped(Step(c, e))
    ensures Agrees(Step(c, e)) <==> Keeps(c, e)
  {
    StepKeepsShape(c, e);
    match e
    case CreateRule(name) => CreateRuleKeepsIff(c, name);
    case Reconcile(p, up, landed) => ReconcileKeepsIff(c, p, up, landed);
    case _ => QuietKeeps(c, e);
  }

  // ---------- Labels left over ----------

  predicate NoneStale(c: Cluster) {
    forall p :: p in c.plans ==> NothingStale(c.plans[p])
  }

  lemma AppendKeepsFresh(plan: Plan, name: string)
    requires NothingStale(plan)
    ensures NothingStale(plan.(names := plan.names + [name]))
  {
    var names := plan.names + [name];
    RemainingStep(plan.labels, names, |plan.names|);
    assert names[..|plan.names|] == plan.names && names[..|names|] == names;
  }

  lemma {:induction false} AddAllKeepsFresh(c: Cluster, p: string, names: seq<string>)
    requires p in c.plans && NothingStale(c.plans[p]) && forall n :: n in names ==> n in c.plans[p].names
    ensures NothingStale(AddAll(c, p, names).plans[p])
  {
    if names != [] {
      var last := names[|names| - 1];
      AddAllKeepsFresh(c, p, names[..|names| - 1]);
      assert last in names;
      var i :| 0 <= i < |c.plans[p].names| && c.plans[p].names[i] == last;
    }
  }

  /** Labels go stale only by taking a name off a plan. */
  lemma StepKeepsFresh(c: Cluster, e: Event)
    requires NoneStale(c) && Allowed(c, e) && !e.RemoveRule?
    ensures NoneStale(Step(c, e))
  {
    match e
    case AppendRule(p, name) => AppendKeepsFresh(c.plans[p], name);
    case Reconcile(p, up, landed) => ReconciledKeepsFresh(c, p, up, landed);
    case _ =>
  }

  lemma ReconciledKeepsFresh(c: Cluster, p: string, up: Reachable, landed: bool)
    requires NoneStale(c) && p in c.plans
    ensures NoneStale(Reconciled(c, p, up, landed))
  {
    var plan, c' := c.plans[p], Reconciled(c, p, up, landed);
    if !plan.deleting {
      forall n | n in Filter(In(up), Joining(plan))
        ensures n in plan.names
      {
        FilterMembers(In(up), Joining(plan), n);
      }
      AddAllKeepsFresh(c, p, Filter(In(up), Joining(plan)));
    }
    forall q | q in c'.plans && q != p
      ensures NothingStale(c'.plans[q])
    {
      OthersStay(c, p, up, landed, q);
    }
  }

  // ---------- Whole runs ----------

  const EMPTY := Cluster(map[], map[])

  function After(events: seq<Event>): Cluster {
    if events == [] then EMPTY else Step(After(events[..|events| - 1]), events[|events| - 1])
  }

  predicate AllowedAt(events: seq<Event>, i: nat)
    requires i < |events|
  {
    Allowed(After(events[..i]), events[i])
  }

  predicate KeepsAt(events: seq<Event>, i: nat)
    requires i < |events|
  {
    Keeps(After(events[..i]), events[i])
  }

  predicate AgreesAt(events: seq<Event>, i: nat)
    requires i <= |events|
  {
    Agrees(After(events[..i]))
  }

  predicate AllAllowed(events: seq<Event>) {
    forall i :: 0 <= i < |events| ==> AllowedAt(events, i)
  }

  predicate AllKeep(events: seq<Event>) {
    forall i :: 0 <= i < |events| ==> KeepsAt(events, i)
  }

  /** Counters and labels are in step at every point of the run. */
  predicate AlwaysAgrees(events: seq<Event>) {
    forall i :: 0 <= i <= |events| ==> AgreesAt(events, i)
  }

  lemma AtPrefix(events: seq<Event>, n: nat, i: nat)
    requires i <= n <= |events|
    ensures AgreesAt(events[..n], i) <==> AgreesAt(events, i)
    ensures i < n ==> (AllowedAt(events[..n], i) <==> AllowedAt(events, i))
    ensures i < n ==> (KeepsAt(events[..n], i) <==> KeepsAt(events, i))
  {
    assert events[..n][..i] == events[..i];
  }

  lemma AllowedPrefix(events: seq<Event>)
    requires events != [] && AllAllowed(events)
    ensures AllAllowed(events[..|events| - 1]) && Allowed(After(events[..|events| - 1]), events[|events| - 1])
  {
    var n := |events| - 1;
    assert AllowedAt(events, n);
    forall i | 0 <= i < n
      ensures AllowedAt(events[..n], i)
    {
      AtPrefix(events, n, i);
    }
  }

  lemma AgreesPrefix(events: seq<Event>)
    requires events != []
    ensures AlwaysAgrees(events[..|events| - 1]) <==> forall i :: 0 <= i < |events| ==> AgreesAt(events, i)
  {
    var n := |events| - 1;
    forall i | 0 <= i <= n
      ensures AgreesAt(events[..n], i) <==> AgreesAt(events, i)
    {
      AtPrefix(events, n, i);
    }
  }

  lemma AgreesAppend(events: seq<Event>)
    requires events != []
    ensures AlwaysAgrees(events) <==> AlwaysAgrees(events[..|events| - 1]) && Agrees(After(events))
  {
    AgreesPrefix(events);
    AgreesAtEnd(events);
  }

  lemma AgreesAtEnd(events: seq<Event>)
    ensures AgreesAt(events, |events|) <==> Agrees(After(events))
  {
    assert events[..|events|] == events;
  }

  lemma AgreesNow(events: seq<Event>)
    requires AlwaysAgrees(events)
    ensures Agrees(After(events))
  {
    AgreesAtEnd(events);
  }

  lemma KeepsAppend(events: seq<Event>)
    requires events != []
    ensures AllKeep(events) <==> AllKeep(events[..|events| - 1]) && KeepsAt(events, |events| - 1)
  {
    var n := |events| - 1;
    forall i | 0 <= i < n
      ensures KeepsAt(events[..n], i) <==> KeepsAt(events, i)
    {
      AtPrefix(events, n, i);
    }
  }

  lemma {:induction false} RunKeepsShape(events: seq<Event>)
    requires AllAllowed(events)
    ensures AllShaped(After(events))
  {
    if events != [] {
      var n := |events| - 1;
      AllowedPrefix(events);
      RunKeepsShape(events[..n]);
      StepKeepsShape(After(events[..n]), events[n]);
    }
  }

  lemma {:induction false} RunKeepsFresh(events: seq<Event>)
    requires AllAllowed(events) && forall i :: 0 <= i < |events| ==> !events[i].RemoveRule?
    ensures NoneStale(After(events))
  {
    if events != [] {
      var n := |events| - 1;
      AllowedPrefix(events);
      RunKeepsFresh(events[..n]);
      StepKeepsFresh(After(events[..n]), events[n]);
    }
  }

  /**
   Over every run from an empty cluster, rules being created and deleted, plans created, changed and deleted,
   rules unreachable and plan updates lost at any time: at every point each counter is the number of plan labels
   on its rule exactly when every event keeps it so; and no plan has a label left over unless a name was removed.
   */
  lemma {:induction false} EveryRun(events: seq<Event>)
    requires AllAllowed(events)
    ensures AlwaysAgrees(events) <==> AllKeep(events)
    ensures (forall i :: 0 <= i < |events| ==> !events[i].RemoveRule?) ==> NoneStale(After(events))
  {
    if events != [] {
      var n := |events| - 1;
      AllowedPrefix(events);
      EveryRun(events[..n]);
      RunKeepsShape(events[..n]);
      AgreesAppend(events);
      KeepsAppend(events);
      if AlwaysAgrees(events[..n]) {
        AgreesNow(events[..n]);
        StepKeepsIff(After(events[..n]), events[n]);
      }
    } else {
      assert Agrees(After(events[..0]));
    }
    if forall i :: 0 <= i < |events| ==> !events[i].RemoveRule? {
      RunKeepsFresh(events);
    }
  }

  // ---------- Orderly runs ----------

  /**
   No rule is deleted, plans grow until they are deleted, which is after all their rules are joined, updates land
   and all rules are reached.
   */
  predicate Orderly(c: Cluster, e: Event) {
    match e
    case DeleteRule(_) => false
    case RemoveRule(_, _) => false
    case AppendRule(p, _) => p in c.plans && !c.plans[p].deleting
    case Delete(p) => p in c.plans && forall n :: n in c.plans[p].names ==> Joined(c.plans[p].labels, n)
    case Reconcile(_, up, landed) => landed && c.rules.Keys <= up
    case _ => true
  }

  predicate OrderlyAt(events: seq<Event>, i: nat)
    requires i < |events|
  {
    Orderly(After(events[..i]), events[i])
  }

  /** Joined rules exist. */
  ghost predicate JoinedExist(c: Cluster) {
    forall p, n :: p in c.plans && Joined(c.plans[p].labels, n) ==> n in c.rules
  }

  /** A plan being deleted has joined all it names. */
  predicate LeavingJoined(plan: Plan) {
    plan.deleting ==> forall n :: n in plan.names ==> Joined(plan.labels, n)
  }

  ghost predicate Tidy(c: Cluster) {
    AllShaped(c) && NoneStale(c) && JoinedExist(c) && forall p :: p in c.plans ==> LeavingJoined(c.plans[p])
  }

  lemma JoinedStillExist(c: Cluster, p: string, up: Reachable)
    requires JoinedExist(c) && p in c.plans && !c.plans[p].deleting && NothingStale(c.plans[p])
    ensures JoinedExist(Reconciled(c, p, up, true))
  {
    var c' := Reconciled(c, p, up, true);
    forall q, n | q in c'.plans && Joined(c'.plans[q].labels, n)
      ensures n in c'.rules
    {
      if q == p {
        AddAllLabels(c, p, Filter(In(up), Joining(c.plans[p])), n);
      } else {
        OthersStay(c, p, up, true, q);
      }
    }
  }

  lemma JoinIsTidy(c: Cluster, p: string, up: Reachable)
    requires Tidy(c) && p in c.plans && !c.plans[p].deleting
    ensures Tidy(Reconciled(c, p, up, true))
  {
    var c' := Reconciled(c, p, up, true);
    ReconciledKeepsShape(c, p, up, true);
    ReconciledKeepsFresh(c, p, up, true);
    JoinedStillExist(c, p, up);
    forall q | q in c'.plans
      ensures LeavingJoined(c'.plans[q])
    {
      if q != p {
        OthersStay(c, p, up, true, q);
      }
    }
  }

  /** A joined rule is named unless its label is stale. */
  lemma JoinedIsNamed(plan: Plan, r: string)
    requires NothingStale(plan) && Joined(plan.labels, r)
    ensures r in plan.names
  {
    KeyIsInjective(r, r);
    assert Key(r) !in Remaining(plan.labels, plan.names);
    var i :| 0 <= i < |plan.names| && Key(r) == Key(plan.names[i]);
    KeyIsInjective(r, plan.names[i]);
  }

  lemma OrderlyLeaves(c: Cluster, p: string, up: Reachable, r: string)
    requires Tidy(c) && p in c.plans && c.rules.Keys <= up && r in c.rules
    ensures ReconcileKeeps(c, p, up, true, r)
  {
    if Joined(c.plans[p].labels, r) {
      JoinedIsNamed(c.plans[p], r);
    }
  }

  lemma OrderlyStep(c: Cluster, e: Event)
    requires Tidy(c) && Allowed(c, e) && Orderly(c, e)
    ensures Tidy(Step(c, e)) && Keeps(c, e)
  {
    StepKeepsShape(c, e);
    StepKeepsFresh(c, e);
    match e
    case CreateRule(name) =>
      assert forall p :: p in c.plans ==> !Joined(c.plans[p].labels, name);
    case Reconcile(p, up, _) =>
      forall r | r in c.rules
        ensures ReconcileKeeps(c, p, up, true, r)
      {
        OrderlyLeaves(c, p, up, r);
      }
      if !c.plans[p].deleting {
        JoinIsTidy(c, p, up);
      }
    case _ =>
  }

  lemma {:induction false} OrderlyKeeps(events: seq<Event>)
    requires AllAllowed(events) && forall i :: 0 <= i < |events| ==> OrderlyAt(events, i)
    ensures AllKeep(events) && Tidy(After(events))
  {
    if events != [] {
      var n := |events| - 1;
      AllowedPrefix(events);
      forall i | 0 <= i < n
        ensures OrderlyAt(events[..n], i)
      {
        assert events[..n][..i] == events[..i];
        assert OrderlyAt(events, i);
      }
      OrderlyKeeps(events[..n]);
      assert OrderlyAt(events, n);
      OrderlyStep(After(events[..n]), events[n]);
      KeepsAppend(events);
    }
  }

  /** Along orderly runs each counter is the number of plan labels on its rule. */
  lemma OrderlyRun(events: seq<Event>)
    requires AllAllowed(events) && forall i :: 0 <= i < |events| ==> OrderlyAt(events, i)
    ensures AlwaysAgrees(events)
    ensures
      var c := After(events);
      forall r :: r in c.rules ==> c.rules[r].plans == PlansOn(c, r) && Value(c.rules[r].count) == |PlansOn(c, r)|
  {
    OrderlyKeeps(events);
    EveryRun(events);
    AgreesNow(events);
    var c := After(events);
    forall r | r in c.rules
      ensures c.rules[r].plans == PlansOn(c, r) && Value(c.rules[r].count) == |PlansOn(c, r)|
    {
      assert RuleAgrees(c, r);
    }
  }

  // ---------- Ways to lose count ----------

  lemma AfterAppend(events: seq<Event>, e: Event)
    ensures After(events + [e]) == Step(After(events), e)
  {
    assert (events + [e])[..|events|] == events;
  }

  /** One rule and one plan that names it. */
  function Pair(r: string, rule: Rule, p: string, plan: Plan): Cluster {
    Cluster(map[r := rule], map[p := plan])
  }

  /** The plan before and after it has joined its rule. */
  function Joiner(r: string, joined: bool): Plan {
    Plan([r], if joined then map[Key(r) := r] else map[], false)
  }

  lemma OneName(c: Cluster, p: string, r: string, up: Reachable)
    requires p in c.plans && r in up
    ensures Filter(In(up), [r]) == [r]
    ensures AddAll(c, p, [r]) == AddOne(c, p, r) && SubAll(c, p, [r]) == SubOne(c, p, r)
  {
    assert [r][1..] == [] && [r][..0] == [];
  }

  /** The plan joins its rule, whether or not its own update lands. */
  lemma FirstJoin(c: Cluster, p: string, r: string, landed: bool)
    requires p in c.plans && c.plans[p] == Joiner(r, false)
    ensures Reconciled(c, p, {r}, landed) == if landed then AddOne(c, p, r) else c.(rules := AddOne(c, p, r).rules)
  {
    assert Remaining(map[], [r][..0]) == map[] && Remaining(map[], [r]) == map[];
    assert CoverEnd(map[], [r]) == 0;
    assert [r][0..] == [r];
    OneName(c, p, r, {r});
  }

  function Begin(r: string, p: string): seq<Event> {
    [CreateRule(r)] + [CreatePlan(p, [r])]
  }

  lemma BeginIsPair(r: string, p: string)
    ensures After(Begin(r, p)) == Pair(r, Rule({}, Absent), p, Joiner(r, false))
  {
    AfterAppend([], CreateRule(r));
    assert [] + [CreateRule(r)] == [CreateRule(r)];
    AfterAppend([CreateRule(r)], CreatePlan(p, [r]));
  }

  lemma LeaveUncounted(r: string, p: string)
    ensures Reconciled(Pair(r, Rule({}, Absent), p, Joiner(r, true).(deleting := true)), p, {r}, true)
         == Cluster(map[r := Rule({}, Number(1))], map[])
  {
    var c := Pair(r, Rule({}, Absent), p, Joiner(r, true).(deleting := true));
    OneName(c, p, r, {r});
    var none: set<string> := {};
    assert c.rules[r].plans == none && none - {p} == none;
    assert SubOne(c, p, r).rules == map[r := Rule(none - {p}, Number(1))];
    assert c.plans - {p} == map[];
  }

  lemma FirstJoined(r: string, p: string)
    ensures After(Begin(r, p) + [Reconcile(p, {r}, true)]) == Pair(r, Rule({p}, Number(1)), p, Joiner(r, true))
  {
    var c := Pair(r, Rule({}, Absent), p, Joiner(r, false));
    BeginIsPair(r, p);
    AfterAppend(Begin(r, p), Reconcile(p, {r}, true));
    FirstJoin(c, p, r, true);
    var none: set<string> := {};
    assert none + {p} == {p};
    assert AddOne(c, p, r) == Pair(r, Rule({p}, Number(1)), p, Joiner(r, true));
  }

  lemma RecreatedRule(r: string, p: string)
    ensures After(Recreating(r, p))
         == Pair(r, Rule({}, Absent), p, Joiner(r, true))
  {
    var e3 := Begin(r, p) + [Reconcile(p, {r}, true)];
    FirstJoined(r, p);
    AfterAppend(e3, DeleteRule(r));
    assert After(e3 + [DeleteRule(r)]) == Cluster(map[], map[p := Joiner(r, true)]);
    AfterAppend(e3 + [DeleteRule(r)], CreateRule(r));
  }

  lemma DeletedAfter(events: seq<Event>, r: string, p: string)
    requires After(events) == Pair(r, Rule({}, Absent), p, Joiner(r, true))
    ensures After(events + [Delete(p)]) == Pair(r, Rule({}, Absent), p, Joiner(r, true).(deleting := true))
  {
    AfterAppend(events, Delete(p));
  }

  /** The events up to the point where the rule has been created again. */
  function Recreating(r: string, p: string): seq<Event> {
    Begin(r, p) + [Reconcile(p, {r}, true)] + [DeleteRule(r)] + [CreateRule(r)]
  }

  /** A rule that is deleted after it was joined and then created again counts one plan when none is left. */
  lemma RecreatedRuleMiscounts(r: string, p: string)
    ensures After(Recreating(r, p) + [Delete(p)] + [Reconcile(p, {r}, true)])
      == Cluster(map[r := Rule({}, Number(1))], map[])
  {
    RecreatedRule(r, p);
    DeletedAfter(Recreating(r, p), r, p);
    AfterAppend(Recreating(r, p) + [Delete(p)], Reconcile(p, {r}, true));
    LeaveUncounted(r, p);
  }

  lemma LostJoin(r: string, p: string)
    ensures After(Begin(r, p) + [Reconcile(p, {r}, false)]) == Pair(r, Rule({p}, Number(1)), p, Joiner(r, false))
  {
    var c := Pair(r, Rule({}, Absent), p, Joiner(r, false));
    BeginIsPair(r, p);
    AfterAppend(Begin(r, p), Reconcile(p, {r}, false));
    FirstJoin(c, p, r, false);
    var none: set<string> := {};
    assert none + {p} == {p};
    assert AddOne(c, p, r).rules == map[r := Rule({p}, Number(1))];
  }

  lemma JoinAgain(r: string, p: string)
    ensures Reconciled(Pair(r, Rule({p}, Number(1)), p, Joiner(r, false)), p, {r}, true)
         == Pair(r, Rule({p}, Number(2)), p, Joiner(r, true))
  {
    var c := Pair(r, Rule({p}, Number(1)), p, Joiner(r, false));
    FirstJoin(c, p, r, true);
    assert {p} + {p} == {p};
    assert AddOne(c, p, r).rules == map[r := Rule({p}, Number(2))];
    assert AddOne(c, p, r).plans == map[p := Joiner(r, true)];
  }

  /** A join whose plan update is lost is made again and counts one plan twice. */
  lemma LostUpdateCountsTwice(r: string, p: string)
    ensures After(Begin(r, p) + [Reconcile(p, {r}, false)] + [Reconcile(p, {r}, true)])
         == Pair(r, Rule({p}, Number(2)), p, Joiner(r, true))
  {
    LostJoin(r, p);
    AfterAppend(Begin(r, p) + [Reconcile(p, {r}, false)], Reconcile(p, {r}, true));
    JoinAgain(r, p);
  }

  lemma NameTakenOff(r: string, p: string)
    ensures After(Begin(r, p) + [Reconcile(p, {r}, true)] + [RemoveRule(p, r)])
         == Pair(r, Rule({p}, Number(1)), p, Joiner(r, true).(names := []))
  {
    FirstJoined(r, p);
    AfterAppend(Begin(r, p) + [Reconcile(p, {r}, true)], RemoveRule(p, r));
    assert Filter(Other(r), [r]) == [] by {
      assert [r][1..] == [];
    }
  }

  lemma RemoveOnly(r: string, p: string)
    ensures Reconciled(Pair(r, Rule({p}, Number(1)), p, Joiner(r, true).(names := [])), p, {r}, true)
         == Pair(r, Rule({}, Number(0)), p, Joiner(r, true).(names := []))
  {
    var c := Pair(r, Rule({p}, Number(1)), p, Joiner(r, true).(names := []));
    KeyIsInjective(r, r);
    assert Stale(c.plans[p], r);
    var none: set<string> := {};
    assert {p} - {p} == none;
    assert RemoveStep(c, p, {r}).rules == map[r := Rule(none, Number(0))];
  }

  /** A removed name leaves its label on the plan, and a reconcile takes one off the counter all the same. */
  lemma RemovedNameCountsDown(r: string, p: string)
    ensures
      var c := After(Begin(r, p) + [Reconcile(p, {r}, true)] + [RemoveRule(p, r)] + [Reconcile(p, {r}, true)]);
      c == Pair(r, Rule({}, Number(0)), p, Joiner(r, true).(names := [])) && PlansOn(c, r) == {p}
  {
    NameTakenOff(r, p);
    AfterAppend(Begin(r, p) + [Reconcile(p, {r}, true)] + [RemoveRule(p, r)], Reconcile(p, {r}, true));
    RemoveOnly(r, p);
  }
}
