/**
 Compiling the inspection rules of a task into jobs: the rules a task names are scheduled, merged by
 kind with duplicates removed, and turned into one job a cluster-scoped kind, jobs a node for every
 other kind, and one job for the components.
 */
module RuleCompiler {
  import opened Wrappers
  import opened Sequences
  import opened RuleItems
  import opened RuleAllocation

  /** Rules whose type has no node fields run once for the cluster. */
  predicate ClusterScoped(k: Kind) {
    k == Opas || k == PromQL || k == ServiceConnect
  }

  datatype InspectRule = InspectRule(name: string, items: map<Kind, seq<Item>>, componentExclude: seq<string>)

  /** How a task names a rule: with a node or a selector for the items that have none of their own. */
  datatype RuleName = RuleName(name: string, nodeName: string, nodeSelector: Option<Labels>)
  {
    predicate Schedules() {
      !IsBlank(nodeName) || nodeSelector.Some?
    }
  }

  function ItemsOf(rule: InspectRule, k: Kind): seq<Item> {
    if k in rule.items then rule.items[k] else []
  }

  // ---------- Scheduling ----------

  /**
   An item without a node and a selector takes those of the task; the types of cluster-scoped rules drop them
   again.
   */
  function ScheduleItem(r: RuleName, k: Kind, x: Item): Item {
    if !ClusterScoped(k) && x.nodeName.None? && x.nodeSelector == map[]
    then x.(nodeName := Some(r.nodeName), nodeSelector := if r.nodeSelector.Some? then r.nodeSelector.value else map[])
    else x
  }

  function Scheduler(r: RuleName, k: Kind): Item -> Item {
    x => ScheduleItem(r, k, x)
  }

  function ScheduleRule(r: RuleName, rule: InspectRule): InspectRule {
    if r.Schedules() then rule.(items := map k | k in rule.items :: Map(Scheduler(r, k), rule.items[k])) else rule
  }

  function FindRule(rules: seq<InspectRule>, name: string): Option<InspectRule> {
    if rules == [] then None else if rules[0].name == name then Some(rules[0]) else FindRule(rules[1..], name)
  }

  /** The scheduled rules, in the order the task names them; names without a rule are skipped. */
  function ScheduleAll(names: seq<RuleName>, rules: seq<InspectRule>): seq<InspectRule> {
    if names == [] then []
    else
      var r := names[|names| - 1];
      var found := FindRule(rules, r.name);
      ScheduleAll(names[..|names| - 1], rules) + (if found.Some? then [ScheduleRule(r, found.value)] else [])
  }

  /** Items that are plain strings cannot take a node: a scheduled rule has no component exclusions. */
  predicate NoScheduledExclusions(names: seq<RuleName>, rules: seq<InspectRule>) {
    forall i :: 0 <= i < |names| && names[i].Schedules() && FindRule(rules, names[i].name).Some? ==>
      FindRule(rules, names[i].name).value.componentExclude == []
  }

  lemma {:induction false} FindRuleIsFirst(rules: seq<InspectRule>, i: nat, name: string)
    requires i < |rules| && rules[i].name == name && forall j :: 0 <= j < i ==> rules[j].name != name
    ensures FindRule(rules, name) == Some(rules[i])
  {
    if i > 0 {
      assert forall j :: 0 <= j < i - 1 ==> rules[1..][j] == rules[j + 1];
      FindRuleIsFirst(rules[1..], i - 1, name);
    }
  }

  lemma {:induction false} FindRuleNone(rules: seq<InspectRule>, name: string)
    requires forall i :: 0 <= i < |rules| ==> rules[i].name != name
    ensures FindRule(rules, name) == None
  {
    if rules != [] {
      FindRuleNone(rules[1..], name);
    }
  }

  method ScheduleItems(r: RuleName, k: Kind, items: seq<Item>) returns (scheduled: seq<Item>)
    ensures scheduled == Map(Scheduler(r, k), items)
  {
    scheduled := [];
    for i := 0 to |items|
      invariant scheduled == Map(Scheduler(r, k), items[..i])
    {
      var x := items[i];
      if x.nodeName.None? && x.nodeSelector == map[] {
        var selector := if r.nodeSelector.Some? then r.nodeSelector.value else map[];
        x := x.(nodeName := Some(r.nodeName), nodeSelector := selector);
      }
      if ClusterScoped(k) {
        x := x.(nodeName := items[i].nodeName, nodeSelector := items[i].nodeSelector);
      }
      assert items[..i + 1] == items[..i] + [items[i]];
      scheduled := scheduled + [x];
    }
    assert items[..|items|] == items;
  }

  method ScheduleOne(r: RuleName, rule: InspectRule) returns (scheduled: InspectRule)
    requires r.Schedules() ==> rule.componentExclude == []
    ensures scheduled == ScheduleRule(r, rule)
  {
    scheduled := rule;
    if r.Schedules() {
      var items: map<Kind, seq<Item>> := map[];
      var todo := rule.items.Keys;
      while todo != {}
        invariant todo <= rule.items.Keys && items.Keys == rule.items.Keys - todo
        invariant forall k :: k in items ==> items[k] == Map(Scheduler(r, k), rule.items[k])
        decreases |todo|
      {
        var k :| k in todo;
        var mapped := ScheduleItems(r, k, rule.items[k]);
        items := items[k := mapped];
        todo := todo - {k};
      }
      scheduled := rule.(items := items);
    }
  }

  method SetRuleSchedule(names: seq<RuleName>, rules: seq<InspectRule>) returns (newRules: seq<InspectRule>)
    requires NoScheduledExclusions(names, rules)
    ensures newRules == ScheduleAll(names, rules)
  {
    newRules := [];
    for i := 0 to |names|
      invariant newRules == ScheduleAll(names[..i], rules)
    {
      var r := names[i];
      assert names[..i + 1][..i] == names[..i];
      var found := ArrayFinds(rules, (m: InspectRule) => m.name == r.name);
      match found {
        case None =>
          assert forall k :: 0 <= k < |rules| ==> rules[k] in rules;
          FindRuleNone(rules, r.name);
        case Some(pair) =>
          FindRuleIsFirst(rules, pair.0, r.name);
          var scheduled := ScheduleOne(r, pair.1);
          newRules := newRules + [scheduled];
      }
    }
    assert names[..|names|] == names;
  }

  // ---------- Merging ----------

  /** The items of one kind over all rules, one rule after the other. */
  function Listed(rules: seq<InspectRule>, k: Kind): seq<Item> {
    if rules == [] then [] else Listed(rules[..|rules| - 1], k) + ItemsOf(rules[|rules| - 1], k)
  }

  function Exclusions(rules: seq<InspectRule>): seq<string> {
    if rules == [] then [] else Exclusions(rules[..|rules| - 1]) + rules[|rules| - 1].componentExclude
  }

  datatype RulesSpec = RulesSpec(items: map<Kind, seq<Item>>, componentExclude: seq<string>)

  /** Batch merging: the first item of each name over everything listed, for the kinds that list something. */
  ghost predicate IsMerge(spec: RulesSpec, rules: seq<InspectRule>) {
    && (forall k :: k in spec.items <==> Listed(rules, k) != [])
    && (forall k :: k in spec.items ==> spec.items[k] == Dedup(Listed(rules, k)))
    && spec.componentExclude == Exclusions(rules)
  }

  /** One job for the components, and as many rules of each kind as were merged. */
  ghost predicate IsTotal(total: map<RuleType, nat>, spec: RulesSpec) {
    && (forall t :: t in total <==> t == Component || t.kind in spec.items)
    && total[Component] == 1
    && forall k :: k in spec.items ==> total[OfKind(k)] == |spec.items[k]|
  }

  /** What a kind lists after one more rule, if that kind is not still to come. */
  function ListedSoFar(rules: seq<InspectRule>, rule: InspectRule, todo: set<Kind>, k: Kind): seq<Item> {
    if k in todo then Listed(rules, k) else Listed(rules, k) + ItemsOf(rule, k)
  }

  /** The merge while the kinds of one more rule are being added, those in todo still to come. */
  ghost predicate Merging(spec: RulesSpec, rules: seq<InspectRule>, rule: InspectRule, todo: set<Kind>) {
    forall k: Kind :: KindMerged(spec, k, ListedSoFar(rules, rule, todo, k))
  }

  /** A kind is in the merge if anything is listed, with the first item of each name. */
  predicate KindMerged(spec: RulesSpec, k: Kind, listed: seq<Item>) {
    (k in spec.items <==> listed != []) && (k in spec.items ==> spec.items[k] == Dedup(listed))
  }

  lemma MergesAtOnce(have: seq<Item>, listed: seq<Item>, more: seq<Item>)
    requires have == if listed != [] then Dedup(listed) else []
    ensures Dedup(have + more) == Dedup(listed + more)
  {
    DedupIncremental(listed, more);
  }

  lemma MergingStep(spec: RulesSpec, rules: seq<InspectRule>, rule: InspectRule, todo: set<Kind>, k: Kind)
    requires Merging(spec, rules, rule, todo) && k in todo && ItemsOf(rule, k) != []
    ensures
      var have := if k in spec.items then spec.items[k] else [];
      Merging(spec.(items := spec.items[k := Dedup(have + ItemsOf(rule, k))]), rules, rule, todo - {k})
  {
    var have := if k in spec.items then spec.items[k] else [];
    var spec' := spec.(items := spec.items[k := Dedup(have + ItemsOf(rule, k))]);
    forall j: Kind
      ensures KindMerged(spec', j, ListedSoFar(rules, rule, todo - {k}, j))
    {
      assert KindMerged(spec, j, ListedSoFar(rules, rule, todo, j));
      if j == k {
        MergesAtOnce(have, Listed(rules, k), ItemsOf(rule, k));
      }
    }
  }

  /** Every array a rule lists is non-empty, as empty arrays are dropped by `omitempty`. */
  predicate NonEmptyLists(rules: seq<InspectRule>) {
    forall i, k :: 0 <= i < |rules| && k in rules[i].items ==> rules[i].items[k] != []
  }

  lemma TotalStep(total: map<RuleType, nat>, spec: RulesSpec, k: Kind, items: seq<Item>)
    requires IsTotal(total, spec)
    ensures IsTotal(total[OfKind(k) := |items|], spec.(items := spec.items[k := items]))
  {
  }

  lemma MergingStarts(spec: RulesSpec, rules: seq<InspectRule>, rule: InspectRule)
    requires IsMerge(spec, rules)
    ensures Merging(spec, rules, rule, rule.items.Keys)
  {
    forall k: Kind
      ensures KindMerged(spec, k, ListedSoFar(rules, rule, rule.items.Keys, k))
    {
      assert k !in rule.items ==> Listed(rules, k) + ItemsOf(rule, k) == Listed(rules, k);
    }
  }

  lemma ListedAppend(rules: seq<InspectRule>, rule: InspectRule, k: Kind)
    ensures Listed(rules + [rule], k) == Listed(rules, k) + ItemsOf(rule, k)
  {
    assert (rules + [rule])[..|rules|] == rules;
  }

  lemma ExclusionsAppend(rules: seq<InspectRule>, rule: InspectRule)
    ensures Exclusions(rules + [rule]) == Exclusions(rules) + rule.componentExclude
  {
    assert (rules + [rule])[..|rules|] == rules;
  }

  lemma MergingEnds(spec: RulesSpec, rules: seq<InspectRule>, rule: InspectRule)
    requires Merging(spec, rules, rule, {}) && spec.componentExclude == Exclusions(rules)
    ensures IsMerge(spec.(componentExclude := spec.componentExclude + rule.componentExclude), rules + [rule])
  {
    ExclusionsAppend(rules, rule);
    forall k: Kind
      ensures KindMerged(spec, k, Listed(rules + [rule], k))
    {
      assert KindMerged(spec, k, ListedSoFar(rules, rule, {}, k));
      ListedAppend(rules, rule, k);
    }
  }

  /** The inner loop: the arrays of one rule, in any order. */
  method MergeOneRule(spec: RulesSpec, ghost rules: seq<InspectRule>, rule: InspectRule, total: map<RuleType, nat>)
    returns (spec': RulesSpec, total': map<RuleType, nat>)
    requires IsMerge(spec, rules) && IsTotal(total, spec)
    requires forall k :: k in rule.items ==> rule.items[k] != []
    ensures IsMerge(spec', rules + [rule]) && IsTotal(total', spec')
  {
    spec', total' := spec, total;
    var todo := rule.items.Keys;
    MergingStarts(spec, rules, rule);
    while todo != {}
      invariant todo <= rule.items.Keys
      invariant Merging(spec', rules, rule, todo) && spec'.componentExclude == spec.componentExclude
      invariant IsTotal(total', spec')
      decreases |todo|
    {
      var k :| k in todo;
      spec', total' := MergeOneKind(spec', rules, rule, total', todo, k);
      todo := todo - {k};
    }
    MergingEnds(spec', rules, rule);
    spec' := spec'.(componentExclude := spec'.componentExclude + rule.componentExclude);
  }

  method MergeOneKind(spec: RulesSpec, ghost rules: seq<InspectRule>, rule: InspectRule, total: map<RuleType, nat>,
                      ghost todo: set<Kind>, k: Kind)
    returns (spec': RulesSpec, total': map<RuleType, nat>)
    requires Merging(spec, rules, rule, todo) && IsTotal(total, spec)
    requires k in todo && k in rule.items && rule.items[k] != []
    ensures Merging(spec', rules, rule, todo - {k}) && IsTotal(total', spec')
    ensures spec'.componentExclude == spec.componentExclude
  {
    var have := if k in spec.items then spec.items[k] else [];
    MergingStep(spec, rules, rule, todo, k);
    var dedupMap := RuleArrayDeduplication(have + rule.items[k]);
    TotalStep(total, spec, k, dedupMap);
    spec' := spec.(items := spec.items[k := dedupMap]);
    total' := total[OfKind(k) := |dedupMap|];
  }

  method MergeRule(names: seq<RuleName>, rules: seq<InspectRule>)
    returns (spec: RulesSpec, ruleTotal: map<RuleType, nat>)
    requires NoScheduledExclusions(names, rules) && NonEmptyLists(rules)
    ensures IsMerge(spec, ScheduleAll(names, rules))
    ensures forall k: Kind ::
      && (OfKind(k) in ruleTotal <==> Listed(ScheduleAll(names, rules), k) != [])
      && (OfKind(k) in ruleTotal ==> ruleTotal[OfKind(k)] == |Dedup(Listed(ScheduleAll(names, rules), k))|)
    ensures Component in ruleTotal && ruleTotal[Component] == 1
  {
    spec, ruleTotal := RulesSpec(map[], []), map[Component := 1];
    var scheduled := SetRuleSchedule(names, rules);
    ScheduleKeepsLists(names, rules);
    for i := 0 to |scheduled|
      invariant IsMerge(spec, scheduled[..i]) && IsTotal(ruleTotal, spec)
    {
      spec, ruleTotal := MergeOneRule(spec, scheduled[..i], scheduled[i], ruleTotal);
      assert scheduled[..i + 1] == scheduled[..i] + [scheduled[i]];
    }
    assert scheduled[..|scheduled|] == scheduled;
  }

  lemma {:induction false} FoundIsMember(rules: seq<InspectRule>, name: string)
    ensures FindRule(rules, name).Some? ==> FindRule(rules, name).value in rules
  {
    if rules != [] {
      FoundIsMember(rules[1..], name);
    }
  }

  lemma {:induction false} ScheduleKeepsLists(names: seq<RuleName>, rules: seq<InspectRule>)
    requires NonEmptyLists(rules)
    ensures NonEmptyLists(ScheduleAll(names, rules))
  {
    if names != [] {
      ScheduleKeepsLists(names[..|names| - 1], rules);
      FoundIsMember(rules, names[|names| - 1].name);
    }
  }

  // ---------- Generating jobs ----------

  function OfType(t: RuleType): JobRule -> bool {
    (job: JobRule) => job.ruleType == t
  }

  /** The jobs of one rule type, in order. */
  function JobsOf(jobs: seq<JobRule>, t: RuleType): seq<JobRule> {
    Filter(OfType(t), jobs)
  }

  /** The jobs a kind should have: one whole-list job, or its rules allocated to nodes. */
  ghost predicate KindJobs(jobs: seq<JobRule>, k: Kind, items: seq<Item>, nodes: seq<Node>) {
    if ClusterScoped(k) then jobs == [JobRule(OfKind(k), Rules(items))] else Allocated(jobs, OfKind(k), items, nodes)
  }

  ghost predicate Generated(jobs: seq<JobRule>, spec: RulesSpec, nodes: seq<Node>) {
    && (forall k :: k in spec.items ==> KindJobs(JobsOf(jobs, OfKind(k)), k, spec.items[k], nodes))
    && (forall k :: k !in spec.items ==> JobsOf(jobs, OfKind(k)) == [])
    && JobsOf(jobs, Component) == [JobRule(Component, Excluded(spec.componentExclude))]
  }

  lemma {:induction false} JobsOfOwn(jobs: seq<JobRule>, t: RuleType, other: RuleType)
    requires forall j :: 0 <= j < |jobs| ==> jobs[j].ruleType == t
    ensures JobsOf(jobs, other) == if other == t then jobs else []
  {
    if jobs != [] {
      JobsOfOwn(jobs[1..], t, other);
    }
  }

  /** The shared maps of one kind, as the merge leaves them. */
  method Load(items: seq<Item>) returns (maps: seq<RuleMap>)
    ensures Values(maps) == items && forall i :: 0 <= i < |maps| ==> fresh(maps[i])
  {
    maps := [];
    for i := 0 to |items|
      invariant Values(maps) == items[..i] && forall j :: 0 <= j < |maps| ==> fresh(maps[j])
    {
      var m := new RuleMap(items[i]);
      assert items[..i + 1] == items[..i] + [items[i]];
      ValuesAppend(maps, m);
      maps := maps + [m];
    }
    assert items[..|items|] == items;
  }

  method JobsOfKind(k: Kind, items: seq<Item>, nodes: seq<Node>) returns (jobs: seq<JobRule>)
    requires ClusterNodes(nodes) && DistinctNames(items)
    ensures KindJobs(jobs, k, items, nodes)
    ensures forall j :: 0 <= j < |jobs| ==> jobs[j].ruleType == OfKind(k)
  {
    if ClusterScoped(k) {
      jobs := [JobRule(OfKind(k), Rules(items))];
    } else {
      var maps := Load(items);
      jobs := AllocationRule(maps, nodes, OfKind(k));
    }
  }

  /** What has been generated while the kinds in todo are still to come. */
  ghost predicate Generating(jobs: seq<JobRule>, spec: RulesSpec, nodes: seq<Node>, todo: set<Kind>) {
    && (forall k: Kind :: KindGenerated(JobsOf(jobs, OfKind(k)), spec, nodes, todo, k))
    && JobsOf(jobs, Component) == []
  }

  /** The jobs of one kind: those it should have, or none while it is still to come or has no rules. */
  ghost predicate KindGenerated(jobs: seq<JobRule>, spec: RulesSpec, nodes: seq<Node>, todo: set<Kind>, k: Kind) {
    if k in spec.items && k !in todo then KindJobs(jobs, k, spec.items[k], nodes) else jobs == []
  }

  lemma JobsOfAppend(jobs: seq<JobRule>, more: seq<JobRule>, own: RuleType, t: RuleType)
    requires forall j :: 0 <= j < |more| ==> more[j].ruleType == own
    ensures JobsOf(jobs + more, t) == if t == own then JobsOf(jobs, t) + more else JobsOf(jobs, t)
  {
    FilterConcat(OfType(t), jobs, more);
    JobsOfOwn(more, own, t);
  }

  lemma KindStep(jobs: seq<JobRule>, more: seq<JobRule>, spec: RulesSpec, nodes: seq<Node>, todo: set<Kind>,
                 k: Kind, j: Kind)
    requires KindGenerated(jobs, spec, nodes, todo, j) && k in todo && k in spec.items
    requires KindJobs(more, k, spec.items[k], nodes)
    ensures KindGenerated(if j == k then jobs + more else jobs, spec, nodes, todo - {k}, j)
  {
    assert [] + more == more;
  }

  lemma GeneratingStep(jobs: seq<JobRule>, more: seq<JobRule>, spec: RulesSpec, nodes: seq<Node>, todo: set<Kind>,
                       k: Kind)
    requires Generating(jobs, spec, nodes, todo) && k in todo && k in spec.items
    requires KindJobs(more, k, spec.items[k], nodes) && forall j :: 0 <= j < |more| ==> more[j].ruleType == OfKind(k)
    ensures Generating(jobs + more, spec, nodes, todo - {k})
  {
    JobsOfAppend(jobs, more, OfKind(k), Component);
    forall j: Kind
      ensures KindGenerated(JobsOf(jobs + more, OfKind(j)), spec, nodes, todo - {k}, j)
    {
      JobsOfAppend(jobs, more, OfKind(k), OfKind(j));
      KindStep(JobsOf(jobs, OfKind(j)), more, spec, nodes, todo, k, j);
    }
  }

  method GenerateJob(spec: RulesSpec, nodes: seq<Node>) returns (jobs: seq<JobRule>)
    requires ClusterNodes(nodes) && forall k :: k in spec.items ==> DistinctNames(spec.items[k])
    ensures Generated(jobs, spec, nodes)
  {
    jobs := [];
    var todo := spec.items.Keys;
    while todo != {}
      invariant todo <= spec.items.Keys
      invariant Generating(jobs, spec, nodes, todo)
      decreases |todo|
    {
      var k :| k in todo;
      var more := JobsOfKind(k, spec.items[k], nodes);
      GeneratingStep(jobs, more, spec, nodes, todo, k);
      jobs := jobs + more;
      todo := todo - {k};
    }
    ComponentLast(jobs, spec, nodes);
    jobs := jobs + [JobRule(Component, Excluded(spec.componentExclude))];
  }

  lemma ComponentLast(jobs: seq<JobRule>, spec: RulesSpec, nodes: seq<Node>)
    requires Generating(jobs, spec, nodes, {})
    ensures Generated(jobs + [JobRule(Component, Excluded(spec.componentExclude))], spec, nodes)
  {
    var job := JobRule(Component, Excluded(spec.componentExclude));
    forall t: RuleType
      ensures JobsOf(jobs + [job], t) == if t == Component then [job] else JobsOf(jobs, t)
    {
      FilterAppend(OfType(t), jobs, job);
    }
  }

  // ---------- The OPA job goes last ----------

  predicate HasOpa(jobs: seq<JobRule>) {
    exists i :: 0 <= i < |jobs| && jobs[i].ruleType == OfKind(Opas)
  }

  /** sorted is jobs with the first OPA job moved to the end. */
  ghost predicate OpaMoved(jobs: seq<JobRule>, sorted: seq<JobRule>) {
    && multiset(sorted) == multiset(jobs)
    && (forall t: RuleType :: t != OfKind(Opas) ==> JobsOf(sorted, t) == JobsOf(jobs, t))
    && (|JobsOf(jobs, OfKind(Opas))| <= 1 ==> JobsOf(sorted, OfKind(Opas)) == JobsOf(jobs, OfKind(Opas)))
    && (HasOpa(jobs) ==> sorted != [] && sorted[|sorted| - 1].ruleType == OfKind(Opas))
    && (!HasOpa(jobs) ==> sorted == jobs)
  }

  /** Closes the gap left at a position and puts a job at the end, in place. */
  method MoveToEnd(rule: array<JobRule>, at: nat)
    requires at < rule.Length
    modifies rule
    ensures rule[..] == old(rule[..at] + rule[at + 1..] + [rule[at]])
  {
    ghost var was := rule[..];
    var moved := rule[at];
    for i := at to rule.Length - 1
      invariant Closed(was, rule[..], at, i)
    {
      ClosedStep(was, rule[..], at, i);
      rule[i] := rule[i + 1];
    }
    ClosedEnds(was, rule[..], at);
    rule[rule.Length - 1] := moved;
  }

  /** The jobs behind a position have moved down by one, as far as i. */
  predicate Closed(was: seq<JobRule>, now: seq<JobRule>, at: nat, i: nat) {
    at <= i < |was| && now == was[..at] + was[at + 1..i + 1] + was[i..]
  }

  lemma ClosedStep(was: seq<JobRule>, now: seq<JobRule>, at: nat, i: nat)
    requires Closed(was, now, at, i) && i + 1 < |was|
    ensures Closed(was, now[i := now[i + 1]], at, i + 1)
  {
    assert now[i + 1] == was[i + 1];
    assert was[at + 1..i + 2] == was[at + 1..i + 1] + [was[i + 1]];
    assert now[i := now[i + 1]] == was[..at] + was[at + 1..i + 2] + was[i + 1..];
  }

  lemma ClosedEnds(was: seq<JobRule>, now: seq<JobRule>, at: nat)
    requires was != [] && Closed(was, now, at, |was| - 1)
    ensures now[|now| - 1 := was[at]] == was[..at] + was[at + 1..] + [was[at]]
  {
    assert was[at + 1..] == was[at + 1..|was| - 1 + 1];
  }

  /** The job list with its OPA job last, in place. */
  method SortRuleOpaToAtLast(rule: array<JobRule>)
    modifies rule
    ensures OpaMoved(old(rule[..]), rule[..])
    ensures forall at ::
      (0 <= at < rule.Length && old(rule[at]).ruleType == OfKind(Opas)
       && forall i :: 0 <= i < at ==> old(rule[i]).ruleType != OfKind(Opas)) ==>
      rule[..] == old(rule[..at]) + old(rule[at + 1..]) + [old(rule[at])]
    ensures (forall i :: 0 <= i < rule.Length ==> old(rule[i]).ruleType != OfKind(Opas)) ==> rule[..] == old(rule[..])
  {
    ghost var before := rule[..];
    var found := ArrayFinds(rule[..], OfType(OfKind(Opas)));
    if found.Some? {
      var at := found.value.0;
      MovedToLast(before, at);
      MoveToEnd(rule, at);
    } else {
      assert forall i :: 0 <= i < |before| ==> before[i] in before;
    }
  }

  lemma MovedOfType(jobs: seq<JobRule>, at: nat, t: RuleType)
    requires at < |jobs|
    ensures
      var job := if jobs[at].ruleType == t then [jobs[at]] else [];
      && JobsOf(jobs[..at] + jobs[at + 1..] + [jobs[at]], t) == JobsOf(jobs[..at], t) + JobsOf(jobs[at + 1..], t) + job
      && JobsOf(jobs, t) == JobsOf(jobs[..at], t) + job + JobsOf(jobs[at + 1..], t)
  {
    assert jobs == jobs[..at] + [jobs[at]] + jobs[at + 1..];
    FilterConcat(OfType(t), jobs[..at], jobs[at + 1..]);
    FilterAppend(OfType(t), jobs[..at] + jobs[at + 1..], jobs[at]);
    FilterAppend(OfType(t), jobs[..at], jobs[at]);
    FilterConcat(OfType(t), jobs[..at] + [jobs[at]], jobs[at + 1..]);
  }

  lemma MovedToLast(jobs: seq<JobRule>, at: nat)
    requires at < |jobs| && jobs[at].ruleType == OfKind(Opas)
    ensures OpaMoved(jobs, jobs[..at] + jobs[at + 1..] + [jobs[at]])
  {
    assert jobs == jobs[..at] + [jobs[at]] + jobs[at + 1..];
    forall t: RuleType
      ensures t != OfKind(Opas) ==> JobsOf(jobs[..at] + jobs[at + 1..] + [jobs[at]], t) == JobsOf(jobs, t)
    {
      MovedOfType(jobs, at, t);
    }
    MovedOfType(jobs, at, OfKind(Opas));
  }

  // ---------- The compiler ----------

  /** The jobs the scheduled rules should have: by kind those of the first items of each name, the OPA job last. */
  ghost predicate Compiled(jobs: seq<JobRule>, scheduled: seq<InspectRule>, nodes: seq<Node>) {
    && (forall k :: Listed(scheduled, k) != [] ==>
      KindJobs(JobsOf(jobs, OfKind(k)), k, Dedup(Listed(scheduled, k)), nodes))
    && (forall k :: Listed(scheduled, k) == [] ==> JobsOf(jobs, OfKind(k)) == [])
    && JobsOf(jobs, Component) == [JobRule(Component, Excluded(Exclusions(scheduled)))]
    && (Listed(scheduled, Opas) != [] ==>
          jobs != [] && jobs[|jobs| - 1] == JobRule(OfKind(Opas), Rules(Dedup(Listed(scheduled, Opas)))))
  }

  /** From the rules a task names to its sorted list of jobs. */
  method CompileJobs(names: seq<RuleName>, rules: seq<InspectRule>, nodes: seq<Node>) returns (jobs: seq<JobRule>)
    requires NoScheduledExclusions(names, rules) && NonEmptyLists(rules) && ClusterNodes(nodes)
    ensures Compiled(jobs, ScheduleAll(names, rules), nodes)
  {
    var merged, ruleTotal := MergeRule(names, rules);
    forall k | k in merged.items
      ensures DistinctNames(merged.items[k])
    {
      DedupIsOrdered(Listed(ScheduleAll(names, rules), k));
    }
    var generated := GenerateJob(merged, nodes);
    var rule := new JobRule[|generated|](i requires 0 <= i < |generated| => generated[i]);
    assert rule[..] == generated;
    SortRuleOpaToAtLast(rule);
    jobs := rule[..];
    SortKeepsGenerated(generated, jobs, merged, nodes);
    if Opas in merged.items {
      OpaIsLast(generated, jobs, merged, nodes);
    }
    MergedIsCompiled(jobs, merged, ScheduleAll(names, rules), nodes);
  }

  lemma MergedIsCompiled(jobs: seq<JobRule>, spec: RulesSpec, scheduled: seq<InspectRule>, nodes: seq<Node>)
    requires IsMerge(spec, scheduled) && Generated(jobs, spec, nodes)
    requires Opas in spec.items ==> jobs != [] && jobs[|jobs| - 1] == JobRule(OfKind(Opas), Rules(spec.items[Opas]))
    ensures Compiled(jobs, scheduled, nodes)
  {
  }

  lemma OpaIsLast(jobs: seq<JobRule>, sorted: seq<JobRule>, spec: RulesSpec, nodes: seq<Node>)
    requires Generated(jobs, spec, nodes) && OpaMoved(jobs, sorted) && Opas in spec.items
    ensures sorted != [] && sorted[|sorted| - 1] == JobRule(OfKind(Opas), Rules(spec.items[Opas]))
  {
    var job := JobRule(OfKind(Opas), Rules(spec.items[Opas]));
    assert JobsOf(jobs, OfKind(Opas)) == [job];
    FilterMembers(OfType(OfKind(Opas)), jobs, job);
    assert HasOpa(jobs);
    var last := sorted[|sorted| - 1];
    FilterMembers(OfType(OfKind(Opas)), sorted, last);
    assert last in sorted;
  }

  lemma SortKeepsGenerated(jobs: seq<JobRule>, sorted: seq<JobRule>, spec: RulesSpec, nodes: seq<Node>)
    requires Generated(jobs, spec, nodes) && OpaMoved(jobs, sorted)
    ensures Generated(sorted, spec, nodes)
  {
    assert ClusterScoped(Opas);
  }

  lemma {:induction false} IdsOnJobsOf(jobs: seq<JobRule>, t: RuleType, node: string)
    ensures IdsOn(JobsOf(jobs, t), t, node) == IdsOn(jobs, t, node)
  {
    if jobs != [] {
      var init, last := jobs[..|jobs| - 1], jobs[|jobs| - 1];
      assert jobs == init + [last];
      IdsOnJobsOf(init, t, node);
      FilterAppend(OfType(t), init, last);
      IdsOnAppend(init, last, t, node);
      if last.ruleType == t {
        IdsOnAppend(JobsOf(init, t), last, t, node);
      } else {
        assert JobsOf(init, t) + [] == JobsOf(init, t);
        assert IdsOn(init, t, node) + multiset{} == IdsOn(init, t, node);
      }
    }
  }

  lemma CompiledKind(jobs: seq<JobRule>, scheduled: seq<InspectRule>, nodes: seq<Node>, k: Kind, node: string)
    requires Compiled(jobs, scheduled, nodes) && !ClusterScoped(k)
    ensures
      var items := Dedup(Listed(scheduled, k));
      && (forall i :: 0 <= i < |items| ==>
        CountFits(items[i], nodes, node, IdsOn(jobs, OfKind(k), node)[IDENT(items[i])]))
      && (forall id :: id in IdsOn(jobs, OfKind(k), node) ==> exists i :: 0 <= i < |items| && IDENT(items[i]) == id)
  {
    IdsOnJobsOf(jobs, OfKind(k), node);
    if Listed(scheduled, k) == [] {
      NoJobsRunNothing(OfKind(k), node);
    }
  }

  /** The first items of each name, as the jobs of the kind run them. */
  lemma CompiledFirst(jobs: seq<JobRule>, scheduled: seq<InspectRule>, nodes: seq<Node>, k: Kind, node: string, x: Item)
    requires Compiled(jobs, scheduled, nodes) && ClusterNodes(nodes) && !ClusterScoped(k)
    requires IsFirst(Listed(scheduled, k), x)
    ensures CountFits(x, nodes, node, IdsOn(jobs, OfKind(k), node)[IDENT(x)])
  {
    CompiledKind(jobs, scheduled, nodes, k, node);
    DedupKeepsFirst(Listed(scheduled, k), x);
    var items := Dedup(Listed(scheduled, k));
    var i :| 0 <= i < |items| && items[i] == x;
  }

  lemma CompiledOnly(jobs: seq<JobRule>, scheduled: seq<InspectRule>, nodes: seq<Node>, k: Kind, node: string,
                     id: Ident)
    requires Compiled(jobs, scheduled, nodes) && !ClusterScoped(k) && id in IdsOn(jobs, OfKind(k), node)
    ensures exists x :: IsFirst(Listed(scheduled, k), x) && IDENT(x) == id
  {
    CompiledKind(jobs, scheduled, nodes, k, node);
    var items := Dedup(Listed(scheduled, k));
    var i :| 0 <= i < |items| && IDENT(items[i]) == id;
    assert items[i] in items;
    DedupKeepsFirst(Listed(scheduled, k), items[i]);
  }

  /**
   Compilation keeps the meaning of the rules: of a node-scoped kind, the first-listed item of each
   name runs exactly once on each node it is meant for and on no other, and nothing else runs.
   */
  lemma CompilationKeepsMeaning(jobs: seq<JobRule>, scheduled: seq<InspectRule>, nodes: seq<Node>, k: Kind,
                                node: string)
    requires Compiled(jobs, scheduled, nodes) && ClusterNodes(nodes) && !ClusterScoped(k)
    ensures forall x :: IsFirst(Listed(scheduled, k), x) && Unambiguous(x, nodes) ==>
              IdsOn(jobs, OfKind(k), node)[IDENT(x)] == if MeantFor(x, nodes, node) then 1 else 0
    ensures forall id :: id in IdsOn(jobs, OfKind(k), node) ==>
      exists x :: IsFirst(Listed(scheduled, k), x) && IDENT(x) == id
  {
    forall x | IsFirst(Listed(scheduled, k), x) && Unambiguous(x, nodes)
      ensures IdsOn(jobs, OfKind(k), node)[IDENT(x)] == if MeantFor(x, nodes, node) then 1 else 0
    {
      CompiledFirst(jobs, scheduled, nodes, k, node, x);
      MeaningKeptIff(x, nodes);
    }
    forall id | id in IdsOn(jobs, OfKind(k), node)
      ensures exists x :: IsFirst(Listed(scheduled, k), x) && IDENT(x) == id
    {
      CompiledOnly(jobs, scheduled, nodes, k, node, id);
    }
  }
}
