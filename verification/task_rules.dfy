/**
 What the rules of a task come to on the nodes of a cluster, in terms of the rules as they were written and
 of the nodes and selectors the task names, and what the jobs say for themselves.
 */
module TaskRules {
  import opened Wrappers
  import opened Sequences
  import opened Totals
  import opened RuleItems
  import opened RuleAllocation
  import opened RuleCompiler

  // ---------- What scheduling does to an item ----------

  /** The rule a name stands for, if there is one. */
  function Named(rules: seq<InspectRule>): RuleName -> bool {
    (n: RuleName) => FindRule(rules, n.name).Some?
  }

  function Taken(rules: seq<InspectRule>): RuleName -> InspectRule {
    (n: RuleName) =>
      match FindRule(rules, n.name)
      case None => InspectRule("", map[], [])
      case Some(r) => ScheduleRule(n, r)
  }

  lemma {:induction false} ScheduledOneByOne(names: seq<RuleName>, rules: seq<InspectRule>)
    ensures ScheduleAll(names, rules) == Map(Taken(rules), Filter(Named(rules), names))
  {
    if names != [] {
      var init, last := names[..|names| - 1], names[|names| - 1];
      ScheduledOneByOne(init, rules);
      assert names == init + [last];
      FilterAppend(Named(rules), init, last);
      MapConcat(Taken(rules), Filter(Named(rules), init), if Named(rules)(last) then [last] else []);
    }
  }

  /**
   The scheduled rules are those the names stand for, in order.  They keep their kinds and how many items each
   lists, and the exclusions.
   */
  lemma ScheduledRules(names: seq<RuleName>, rules: seq<InspectRule>)
    ensures
      var found := Filter((n: RuleName) => FindRule(rules, n.name).Some?, names);
      && |ScheduleAll(names, rules)| == |found|
      && forall j :: 0 <= j < |found| ==>
           && FindRule(rules, found[j].name).Some?
           && var rule, scheduled := FindRule(rules, found[j].name).value, ScheduleAll(names, rules)[j];
              && scheduled.componentExclude == rule.componentExclude && scheduled.items.Keys == rule.items.Keys
              && forall k :: k in rule.items ==> |scheduled.items[k]| == |rule.items[k]|
  {
    var found := Filter((n: RuleName) => FindRule(rules, n.name).Some?, names);
    ScheduledOneByOne(names, rules);
    FilterSame(Named(rules), (n: RuleName) => FindRule(rules, n.name).Some?, names);
    forall j | 0 <= j < |found|
      ensures FindRule(rules, found[j].name).Some?
    {
      FilterMembers((n: RuleName) => FindRule(rules, n.name).Some?, names, found[j]);
    }
  }

  /**
   Item by item: the name of the task gives its node and its selector to an item that has neither, unless the
   kind is one that runs once for the cluster or the name gives neither; nothing else changes.
   */
  lemma ScheduledItem(names: seq<RuleName>, rules: seq<InspectRule>, j: nat, k: Kind, i: nat)
    requires j < |ScheduleAll(names, rules)| && k in ScheduleAll(names, rules)[j].items
    requires i < |ScheduleAll(names, rules)[j].items[k]|
    ensures
      var n := Filter((n: RuleName) => FindRule(rules, n.name).Some?, names);
      && j < |n| && FindRule(rules, n[j].name).Some? && k in FindRule(rules, n[j].name).value.items
      && i < |FindRule(rules, n[j].name).value.items[k]|
      && var x, y := FindRule(rules, n[j].name).value.items[k][i], ScheduleAll(names, rules)[j].items[k][i];
         && y.name == x.name && y.body == x.body
         && if k == Opas || k == PromQL || k == ServiceConnect || x.nodeName.Some? || x.nodeSelector != map[]
               || (IsBlank(n[j].nodeName) && n[j].nodeSelector.None?)
            then y == x
            else
              && y.nodeName == Some(n[j].nodeName)
              && y.nodeSelector == match n[j].nodeSelector case None => map[] case Some(selector) => selector
  {
    ScheduledRules(names, rules);
    ScheduledOneByOne(names, rules);
    FilterSame(Named(rules), (n: RuleName) => FindRule(rules, n.name).Some?, names);
    var n := Filter(Named(rules), names)[j];
    ItemOfRule(n, FindRule(rules, n.name).value, k, i);
  }

  lemma ItemOfRule(n: RuleName, rule: InspectRule, k: Kind, i: nat)
    requires k in rule.items && i < |rule.items[k]|
    ensures ScheduleRule(n, rule).items.Keys == rule.items.Keys && |ScheduleRule(n, rule).items[k]| == |rule.items[k]|
    ensures
      var x, y := rule.items[k][i], ScheduleRule(n, rule).items[k][i];
      && y.name == x.name && y.body == x.body
      && if k == Opas || k == PromQL || k == ServiceConnect || x.nodeName.Some? || x.nodeSelector != map[]
            || (IsBlank(n.nodeName) && n.nodeSelector.None?)
         then y == x
         else
           && y.nodeName == Some(n.nodeName)
           && y.nodeSelector == match n.nodeSelector case None => map[] case Some(selector) => selector
  {
  }

  // ---------- Where an item runs, spelled out ----------

  /** What fits the bounds on runs, for an item with a node, with a selector, or with neither. */
  lemma FitsMeans(x: Item, nodes: seq<Node>, node: string, count: nat)
    requires CountFits(x, nodes, node, count)
    ensures x.nodeName.Some? && !IsBlank(x.nodeName.value) ==> count == if node == x.nodeName.value then 1 else 0
    ensures (x.nodeName.None? || IsBlank(x.nodeName.value)) && x.nodeSelector == map[] ==>
      count == if x.nodeName.None? && exists p :: 0 <= p < |nodes| && nodes[p].name == node then 1 else 0
    ensures (x.nodeName.None? || IsBlank(x.nodeName.value)) && x.nodeSelector != map[] ==>
      && count <= 1
      && ((exists p :: 0 <= p < |nodes| && nodes[p].name == node
             && forall key :: key in x.nodeSelector ==>
                  (if key in nodes[p].labels then nodes[p].labels[key] else "") == x.nodeSelector[key]) ==> count == 1)
      && (count == 1 ==>
            exists p, key :: 0 <= p < |nodes| && nodes[p].name == node && key in x.nodeSelector
              && (if key in nodes[p].labels then nodes[p].labels[key] else "") == x.nodeSelector[key])
  {
    if !Pinned(x) && x.nodeSelector != map[] {
      forall p | 0 <= p < |nodes| && nodes[p].name == node
        && (forall key :: key in x.nodeSelector ==>
              (if key in nodes[p].labels then nodes[p].labels[key] else "") == x.nodeSelector[key])
        ensures MatchesAll(x.nodeSelector, nodes[p].labels)
      {
      }
      if count == 1 {
        var p :| 0 <= p < |nodes| && nodes[p].name == node && !MatchesNone(x.nodeSelector, nodes[p].labels);
        var key :| key in x.nodeSelector && LabelOf(nodes[p].labels, key) == x.nodeSelector[key];
        assert (if key in nodes[p].labels then nodes[p].labels[key] else "") == x.nodeSelector[key];
      }
    }
  }

  /** Where an item is meant to run: on its node, on the nodes its whole selector matches, or on all. */
  lemma MeantForIs(x: Item, nodes: seq<Node>, node: string)
    ensures MeantFor(x, nodes, node) <==>
      if x.nodeName.Some? && !IsBlank(x.nodeName.value) then node == x.nodeName.value
      else
        exists p :: 0 <= p < |nodes| && nodes[p].name == node
          && forall key :: key in x.nodeSelector ==>
               (if key in nodes[p].labels then nodes[p].labels[key] else "") == x.nodeSelector[key]
  {
    if !Pinned(x) {
      if MeantFor(x, nodes, node) {
        var p :| 0 <= p < |nodes| && nodes[p].name == node && MatchesAll(x.nodeSelector, nodes[p].labels);
        assert forall key :: key in x.nodeSelector ==>
          (if key in nodes[p].labels then nodes[p].labels[key] else "") == x.nodeSelector[key];
      }
      forall p | 0 <= p < |nodes| && nodes[p].name == node
        && (forall key :: key in x.nodeSelector ==>
              (if key in nodes[p].labels then nodes[p].labels[key] else "") == x.nodeSelector[key])
        ensures MatchesAll(x.nodeSelector, nodes[p].labels)
      {
      }
    }
  }

  /** Blank text: none at all or spaces; any visible ASCII character makes it a name. */
  lemma BlankIs(s: string, i: nat)
    ensures IsBlank("") && IsBlank(" ") && IsBlank("\t\n\r ")
    ensures i < |s| && '!' <= s[i] <= '~' ==> !IsBlank(s)
  {
    if i < |s| && '!' <= s[i] <= '~' {
      assert !IsSpace(s[i]);
    }
  }

  // ---------- What jobs run where, spelled out ----------

  /** How often the jobs of a type run a rule on a node: the node of a job is that of its first rule. */
  lemma IdsOnIs(jobs: seq<JobRule>, t: RuleType, node: string, id: Ident)
    ensures IdsOn([], t, node)[id] == 0
    ensures jobs != [] ==>
      var rest := IdsOn(jobs[1..], t, node)[id];
      var named := (x: Item) => if x.nodeName.Some? && !IsBlank(x.nodeName.value) then x.nodeName.value else "";
      IdsOn(jobs, t, node)[id]
      == match jobs[0].runRule
         case Excluded(_) => rest
         case Rules(items) =>
           if jobs[0].ruleType == t && items != [] && node == named(items[0])
           then |Filter((x: Item) => x.name == id.name && x.body == id.body, items)| + rest
           else rest
  {
    NoJobsRunNothing(t, node);
    if jobs != [] {
      assert jobs == [jobs[0]] + jobs[1..];
      IdsOnConcat([jobs[0]], jobs[1..], t, node);
      IdsOnOne(jobs[0], t, node);
      if jobs[0].runRule.Rules? {
        IdsCount(jobs[0].runRule.items, id);
      }
    }
  }

  lemma {:induction false} IdsCount(items: seq<Item>, id: Ident)
    ensures Ids(items)[id] == |Filter((x: Item) => x.name == id.name && x.body == id.body, items)|
  {
    if items != [] {
      IdsCount(items[1..], id);
      MapTail(IDENT, items);
      assert items == [items[0]] + items[1..];
    }
  }

  // ---------- The first item of each name ----------

  /** No item of the kind before this one has its name. */
  predicate IsFirstAt(rules: seq<InspectRule>, k: Kind, j: nat, i: nat)
    requires j < |rules| && k in rules[j].items && i < |rules[j].items[k]|
  {
    forall j', i' :: 0 <= j' <= j && k in rules[j'].items && 0 <= i' < |rules[j'].items[k]| && (j' < j || i' < i) ==>
      rules[j'].items[k][i'].name != rules[j].items[k][i].name
  }

  lemma {:induction false} ListedByRule(rules: seq<InspectRule>, k: Kind, x: Item)
    ensures x in Listed(rules, k) <==> exists j :: 0 <= j < |rules| && x in ItemsOf(rules[j], k)
  {
    if rules != [] {
      var n := |rules| - 1;
      ListedByRule(rules[..n], k, x);
      if x in Listed(rules[..n], k) {
        var j :| 0 <= j < n && x in ItemsOf(rules[..n][j], k);
        assert x in ItemsOf(rules[j], k);
      }
      if j :| 0 <= j < n && x in ItemsOf(rules[j], k) {
        assert x in ItemsOf(rules[..n][j], k);
      }
    }
  }

  lemma ListedIs(rules: seq<InspectRule>, k: Kind, x: Item)
    ensures x in Listed(rules, k) <==>
      exists j, i ::
        0 <= j < |rules| && k in rules[j].items && 0 <= i < |rules[j].items[k]| && rules[j].items[k][i] == x
  {
    ListedByRule(rules, k, x);
    if j :| 0 <= j < |rules| && x in ItemsOf(rules[j], k) {
      var i :| 0 <= i < |ItemsOf(rules[j], k)| && ItemsOf(rules[j], k)[i] == x;
      assert rules[j].items[k][i] == x;
    }
    if j, i :| 0 <= j < |rules| && k in rules[j].items && 0 <= i < |rules[j].items[k]| && rules[j].items[k][i] == x {
      assert ItemsOf(rules[j], k)[i] == x;
    }
  }

  lemma NotListedBefore(rules: seq<InspectRule>, k: Kind, name: string)
    requires forall j, i :: 0 <= j < |rules| && k in rules[j].items && 0 <= i < |rules[j].items[k]| ==>
               rules[j].items[k][i].name != name
    ensures forall p :: 0 <= p < |Listed(rules, k)| ==> Listed(rules, k)[p].name != name
  {
    var listed := Listed(rules, k);
    forall p | 0 <= p < |listed|
      ensures listed[p].name != name
    {
      ListedIs(rules, k, listed[p]);
    }
  }

  lemma FirstBehind(before: seq<Item>, items: seq<Item>, i: nat)
    requires i < |items| && forall p :: 0 <= p < |before| ==> before[p].name != items[i].name
    requires forall i' :: 0 <= i' < i ==> items[i'].name != items[i].name
    ensures IsFirst(before + items, items[i])
  {
    assert (before + items)[|before| + i] == items[i];
  }

  lemma FirstBefore(items: seq<Item>, more: seq<Item>, x: Item)
    requires IsFirst(items, x)
    ensures IsFirst(items + more, x)
  {
    var i :| 0 <= i < |items| && items[i] == x && forall j :: 0 <= j < i ==> items[j].name != x.name;
    assert (items + more)[i] == x;
  }

  lemma {:induction false} FirstAtIsFirst(rules: seq<InspectRule>, k: Kind, j: nat, i: nat)
    requires j < |rules| && k in rules[j].items && i < |rules[j].items[k]| && IsFirstAt(rules, k, j, i)
    ensures IsFirst(Listed(rules, k), rules[j].items[k][i])
  {
    var n := |rules| - 1;
    if j == n {
      NotListedBefore(rules[..n], k, rules[n].items[k][i].name);
      FirstBehind(Listed(rules[..n], k), rules[n].items[k], i);
    } else {
      FirstAtIsFirst(rules[..n], k, j, i);
      FirstBefore(Listed(rules[..n], k), ItemsOf(rules[n], k), rules[j].items[k][i]);
    }
  }

  // ---------- Runs of a task's rules ----------

  /**
   The rules of a task on the nodes: the item counts with the node and the selector that the task's name for the
   rule gives it, if it has neither of its own and the name gives any.  If it is the first of its name, it runs
   once on its node; without a node, once on every node its whole selector matches, at most once where some of it
   matches, and nowhere else; with neither, once on every node, but nowhere with a node name that is blank.
   */
  lemma TaskRuns(names: seq<RuleName>, rules: seq<InspectRule>, nodes: seq<Node>, jobs: seq<JobRule>,
                 j: nat, k: Kind, i: nat, node: string)
    requires Compiled(jobs, ScheduleAll(names, rules), nodes) && ClusterNodes(nodes)
    requires k != Opas && k != PromQL && k != ServiceConnect
    requires j < |ScheduleAll(names, rules)| && k in ScheduleAll(names, rules)[j].items
    requires i < |ScheduleAll(names, rules)[j].items[k]|
    requires forall j', i' ::
      0 <= j' <= j && k in ScheduleAll(names, rules)[j'].items && 0 <= i' < |ScheduleAll(names, rules)[j'].items[k]|
      && (j' < j || i' < i) ==>
      ScheduleAll(names, rules)[j'].items[k][i'].name != ScheduleAll(names, rules)[j].items[k][i].name
    ensures
      var n := Filter((n: RuleName) => FindRule(rules, n.name).Some?, names);
      && j < |n| && FindRule(rules, n[j].name).Some? && k in FindRule(rules, n[j].name).value.items
      && i < |FindRule(rules, n[j].name).value.items[k]|
      && var x := FindRule(rules, n[j].name).value.items[k][i];
         var count := IdsOn(jobs, OfKind(k), node)[Ident(x.name, x.body)];
         var given := x.nodeName.None? && x.nodeSelector == map[]
                      && (!IsBlank(n[j].nodeName) || n[j].nodeSelector.Some?);
         var nodeName := if given then Some(n[j].nodeName) else x.nodeName;
         var selector := if !given then x.nodeSelector
                         else match n[j].nodeSelector case None => map[] case Some(s) => s;
         if nodeName.Some? && !IsBlank(nodeName.value) then count == if node == nodeName.value then 1 else 0
         else if selector == map[] then
           count == if nodeName.None? && exists p :: 0 <= p < |nodes| && nodes[p].name == node then 1 else 0
         else
           && count <= 1
           && ((exists p :: 0 <= p < |nodes| && nodes[p].name == node
                  && forall key :: key in selector ==>
                       (if key in nodes[p].labels then nodes[p].labels[key] else "") == selector[key]) ==> count == 1)
           && (count == 1 ==>
                 exists p, key :: 0 <= p < |nodes| && nodes[p].name == node && key in selector
                   && (if key in nodes[p].labels then nodes[p].labels[key] else "") == selector[key])
  {
    var scheduled := ScheduleAll(names, rules);
    var y := scheduled[j].items[k][i];
    ScheduledItem(names, rules, j, k, i);
    FirstAtIsFirst(scheduled, k, j, i);
    CompiledFirst(jobs, scheduled, nodes, k, node, y);
    FitsMeans(y, nodes, node, IdsOn(jobs, OfKind(k), node)[IDENT(y)]);
  }

  /** Nothing runs on a node but items that the rules of the task list. */
  lemma NothingElseRuns(names: seq<RuleName>, rules: seq<InspectRule>, nodes: seq<Node>, jobs: seq<JobRule>,
                        k: Kind, node: string, id: Ident)
    requires Compiled(jobs, ScheduleAll(names, rules), nodes) && ClusterNodes(nodes)
    requires k != Opas && k != PromQL && k != ServiceConnect
    requires IdsOn(jobs, OfKind(k), node)[id] > 0
    ensures exists j, i ::
      && 0 <= j < |ScheduleAll(names, rules)| && k in ScheduleAll(names, rules)[j].items
      && 0 <= i < |ScheduleAll(names, rules)[j].items[k]|
      && id == Ident(ScheduleAll(names, rules)[j].items[k][i].name, ScheduleAll(names, rules)[j].items[k][i].body)
  {
    var scheduled := ScheduleAll(names, rules);
    CompiledOnly(jobs, scheduled, nodes, k, node, id);
    var x :| IsFirst(Listed(scheduled, k), x) && IDENT(x) == id;
    ListedIs(scheduled, k, x);
  }

  lemma {:induction false} ListedFlat(rules: seq<InspectRule>, k: Kind)
    ensures Listed(rules, k)
         == Flatten(Map((rule: InspectRule) => if k in rule.items then rule.items[k] else [], rules))
    ensures Exclusions(rules) == Flatten(Map((rule: InspectRule) => rule.componentExclude, rules))
  {
    if rules != [] {
      var init, last := rules[..|rules| - 1], rules[|rules| - 1];
      ListedFlat(init, k);
      assert rules == init + [last];
      MapAppend((rule: InspectRule) => if k in rule.items then rule.items[k] else [], init, last);
      FlattenAppend(Map((rule: InspectRule) => if k in rule.items then rule.items[k] else [], init), ItemsOf(last, k));
      MapAppend((rule: InspectRule) => rule.componentExclude, init, last);
      FlattenAppend(Map((rule: InspectRule) => rule.componentExclude, init), last.componentExclude);
    }
  }

  /** The kinds that run once for the cluster have one job each, with all their items, the first of each name. */
  lemma WholeListJobs(jobs: seq<JobRule>, scheduled: seq<InspectRule>, nodes: seq<Node>, k: Kind)
    requires Compiled(jobs, scheduled, nodes) && (k == Opas || k == PromQL || k == ServiceConnect)
    ensures
      var listed := Flatten(Map((rule: InspectRule) => if k in rule.items then rule.items[k] else [], scheduled));
      Filter((job: JobRule) => job.ruleType == OfKind(k), jobs)
      == if listed == [] then [] else [JobRule(OfKind(k), Rules(Dedup(listed)))]
  {
    ListedFlat(scheduled, k);
    FilterSame(OfType(OfKind(k)), (job: JobRule) => job.ruleType == OfKind(k), jobs);
  }

  /** One job inspects the components, with all exclusions. */
  lemma ComponentJob(jobs: seq<JobRule>, scheduled: seq<InspectRule>, nodes: seq<Node>)
    requires Compiled(jobs, scheduled, nodes)
    ensures Filter((job: JobRule) => job.ruleType == Component, jobs)
         == [JobRule(Component, Excluded(Flatten(Map((rule: InspectRule) => rule.componentExclude, scheduled))))]
  {
    ListedFlat(scheduled, Opas);
    FilterSame(OfType(Component), (job: JobRule) => job.ruleType == Component, jobs);
  }
}
