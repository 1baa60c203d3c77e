/**
 Joining rules to plans: a plan carries a label for every rule it has joined, a rule carries a label
 for every plan that joined it and an annotation that counts them.
 */
module RuleJoin {
  import opened Wrappers
  import opened Sequences

  type Labels = map<string, string>

  const PREFIX := "kubeeye.kubesphere.io/"

  function Key(name: string): string {
    PREFIX + name
  }

  lemma KeyIsInjective(a: string, b: string)
    ensures PREFIX <= Key(a)
    ensures Key(a) == Key(b) <==> a == b
  {
    assert Key(a)[|PREFIX|..] == a && Key(b)[|PREFIX|..] == b;
  }

  // ---------- What a plan has to join or to leave ----------

  /** The join labels of a plan that none of the names accounts for. */
  function Remaining(labels: Labels, names: seq<string>): Labels {
    map k | k in labels && PREFIX <= k && (forall i :: 0 <= i < |names| ==> k != Key(names[i])) :: labels[k]
  }

  /** How many names, from the front, it takes to account for all join labels, if they do. */
  function CoverEnd(labels: Labels, names: seq<string>): (c: nat)
    ensures c <= |names|
    ensures c < |names| ==> Remaining(labels, names[..c]) == map[]
    ensures forall i :: 0 <= i < c ==> Remaining(labels, names[..i]) != map[]
  {
    if names == [] then 0
    else
      var init := names[..|names| - 1];
      var c := CoverEnd(labels, init);
      assert forall i :: 0 <= i <= |init| ==> init[..i] == names[..i];
      if c < |init| || Remaining(labels, init) == map[] then c else |names|
  }

  lemma RemainingStep(labels: Labels, names: seq<string>, i: nat)
    requires i < |names|
    ensures Remaining(labels, names[..i + 1]) == Remaining(labels, names[..i]) - {Key(names[i])}
  {
    assert names[..i + 1] == names[..i] + [names[i]];
  }

  lemma {:induction false} RemainingShrinks(labels: Labels, names: seq<string>, i: nat, j: nat)
    requires i <= j <= |names|
    ensures Remaining(labels, names[..j]).Keys <= Remaining(labels, names[..i]).Keys
  {
    assert names[..j][..i] == names[..i];
  }

  lemma CoverEndFrom(labels: Labels, names: seq<string>, i: nat)
    requires i < |names|
    ensures Remaining(labels, names[..i]) == map[] <==> CoverEnd(labels, names) <= i
  {
    var c := CoverEnd(labels, names);
    if c <= i {
      RemainingShrinks(labels, names, c, i);
    }
  }

  /** The state of the loop over names: the labels left over, and the names met since none was. */
  predicate JoinLoop(labels: Labels, names: seq<string>, i: nat, newLabel: Labels, rules: seq<string>)
    requires i <= |names|
  {
    && newLabel == Remaining(labels, names[..i])
    && rules == (if CoverEnd(labels, names) < i then names[CoverEnd(labels, names)..i] else [])
  }

  lemma JoinLoopStep(labels: Labels, names: seq<string>, i: nat, newLabel: Labels, rules: seq<string>)
    requires i < |names| && JoinLoop(labels, names, i, newLabel, rules)
    ensures newLabel != map[] ==> JoinLoop(labels, names, i + 1, newLabel - {Key(names[i])}, rules)
    ensures newLabel == map[] ==> JoinLoop(labels, names, i + 1, newLabel, rules + [names[i]])
  {
    RemainingStep(labels, names, i);
    CoverEndFrom(labels, names, i);
    if newLabel == map[] {
      assert newLabel - {Key(names[i])} == newLabel;
      var c := CoverEnd(labels, names);
      assert c < i ==> names[c..i] + [names[i]] == names[c..i + 1];
      assert c == i ==> [] + [names[i]] == names[i..i + 1];
    }
  }

  lemma JoinLoopStarts(labels: Labels, names: seq<string>)
    ensures JoinLoop(labels, names, 0, map k | k in labels && PREFIX <= k :: labels[k], [])
  {
    assert Remaining(labels, names[..0]) == map k | k in labels && PREFIX <= k :: labels[k];
  }

  lemma JoinLoopEnds(labels: Labels, names: seq<string>, newLabel: Labels, rules: seq<string>)
    requires JoinLoop(labels, names, |names|, newLabel, rules)
    ensures newLabel == Remaining(labels, names)
    ensures newLabel == map[] ==> rules == names[CoverEnd(labels, names)..]
  {
    assert names[..|names|] == names;
  }

  ghost predicate IsOrder(order: seq<string>, keys: set<string>) {
    Distinct(order) && forall k :: k in order <==> k in keys
  }

  function LabelValues(labels: Labels, order: seq<string>): seq<string> {
    seq(|order|, i requires 0 <= i < |order| => if order[i] in labels then labels[order[i]] else "")
  }

  /** The values of a map, its keys in any order. */
  method ValuesOf(newLabel: Labels, ghost labels: Labels) returns (rules: seq<string>, ghost order: seq<string>)
    requires forall k :: k in newLabel ==> k in labels && newLabel[k] == labels[k]
    ensures IsOrder(order, newLabel.Keys) && rules == LabelValues(labels, order)
  {
    rules, order := [], [];
    var todo := newLabel.Keys;
    while todo != {}
      invariant todo <= newLabel.Keys
      invariant IsOrder(order, newLabel.Keys - todo) && rules == LabelValues(labels, order)
      decreases |todo|
    {
      var k :| k in todo;
      rules, order := rules + [newLabel[k]], order + [k];
      todo := todo - {k};
    }
  }

  /** What plan labels and rule names ask for: rules to leave when labels remain, otherwise rules to join. */
  method GetUpdatePlanRule(labels: Labels, names: seq<string>)
    returns (rules: seq<string>, join: bool, ghost order: seq<string>)
    ensures join <==> Remaining(labels, names) == map[]
    ensures join ==> rules == names[CoverEnd(labels, names)..]
    ensures !join ==> IsOrder(order, Remaining(labels, names).Keys) && rules == LabelValues(labels, order)
  {
    var newLabel := map k | k in labels && PREFIX <= k :: labels[k];
    rules, order := [], [];
    JoinLoopStarts(labels, names);
    for i := 0 to |names|
      invariant JoinLoop(labels, names, i, newLabel, rules)
    {
      JoinLoopStep(labels, names, i, newLabel, rules);
      if newLabel != map[] {
        newLabel := newLabel - {Key(names[i])};
      } else {
        rules := rules + [names[i]];
      }
    }
    JoinLoopEnds(labels, names, newLabel, rules);
    join := newLabel == map[];
    if !join {
      rules, order := ValuesOf(newLabel, labels);
    }
  }

  predicate Joined(labels: Labels, name: string) {
    Key(name) in labels
  }

  lemma RemainingHasJoined(labels: Labels, names: seq<string>, i: nat, j: nat)
    requires i <= j < |names| && Distinct(names) && Joined(labels, names[j])
    ensures Key(names[j]) in Remaining(labels, names[..i])
  {
    KeyIsInjective(names[j], names[j]);
    forall k | 0 <= k < i
      ensures Key(names[j]) != Key(names[k])
    {
      KeyIsInjective(names[j], names[k]);
    }
  }

  lemma NoneJoinedAfterCover(labels: Labels, names: seq<string>, i: nat)
    requires Distinct(names) && Remaining(labels, names) == map[] && CoverEnd(labels, names) <= i < |names|
    ensures !Joined(labels, names[i])
  {
    var c := CoverEnd(labels, names);
    if Joined(labels, names[i]) {
      RemainingHasJoined(labels, names, c, i);
    }
  }

  lemma LastLeft(labels: Labels, k: string)
    requires labels != map[] && labels - {k} == map[]
    ensures k in labels
  {
    var l :| l in labels;
    assert l !in labels - {k};
  }

  lemma CoverEndsAtJoined(labels: Labels, names: seq<string>)
    requires Remaining(labels, names) == map[] && CoverEnd(labels, names) > 0
    ensures Joined(labels, names[CoverEnd(labels, names) - 1])
  {
    var c := CoverEnd(labels, names);
    CoveredAtEnd(labels, names);
    RemainingStep(labels, names, c - 1);
    LastLeft(Remaining(labels, names[..c - 1]), Key(names[c - 1]));
    InRemaining(labels, names[..c - 1], Key(names[c - 1]));
  }

  lemma CoveredAtEnd(labels: Labels, names: seq<string>)
    requires Remaining(labels, names) == map[]
    ensures Remaining(labels, names[..CoverEnd(labels, names)]) == map[]
  {
    assert names[..|names|] == names;
  }

  lemma InRemaining(labels: Labels, names: seq<string>, k: string)
    requires k in Remaining(labels, names)
    ensures k in labels
  {
  }

  /** For distinct names and no label left over, the rules to join are the longest suffix without a joined rule. */
  lemma JoinsLongestSuffix(labels: Labels, names: seq<string>)
    requires Distinct(names) && Remaining(labels, names) == map[]
    ensures forall i :: CoverEnd(labels, names) <= i < |names| ==> !Joined(labels, names[i])
    ensures CoverEnd(labels, names) > 0 ==> Joined(labels, names[CoverEnd(labels, names) - 1])
  {
    forall i | CoverEnd(labels, names) <= i < |names|
      ensures !Joined(labels, names[i])
    {
      NoneJoinedAfterCover(labels, names, i);
    }
    if CoverEnd(labels, names) > 0 {
      CoverEndsAtJoined(labels, names);
    }
  }

  /** Every rule not yet joined is joined exactly when none of them stands before a joined one. */
  lemma JoinsAllIff(labels: Labels, names: seq<string>)
    requires Distinct(names) && Remaining(labels, names) == map[]
    ensures (forall i :: 0 <= i < |names| && !Joined(labels, names[i]) ==> CoverEnd(labels, names) <= i)
       <==> (forall i, j :: 0 <= i < j < |names| && Joined(labels, names[j]) ==> Joined(labels, names[i]))
  {
    JoinsLongestSuffix(labels, names);
  }

  // ---------- Reference counting ----------

  /** The annotation that counts plans: missing, not a number, or a number. */
  datatype Annotation = Absent | Garbage | Number(n: int)

  datatype Rule = Rule(plans: set<string>, count: Annotation)

  datatype Plan = Plan(names: seq<string>, labels: Labels, deleting: bool)

  datatype Cluster = Cluster(rules: map<string, Rule>, plans: map<string, Plan>)

  function Incremented(a: Annotation): Annotation {
    match a
    case Absent => Number(1)
    case Garbage => Number(0)
    case Number(n) => Number(n + 1)
  }

  function Decremented(a: Annotation): Annotation {
    match a
    case Absent => Number(1)
    case Garbage => Number(0)
    case Number(n) => Number(if n > 0 then n - 1 else n)
  }

  /** One turn of each loop over rule names; a rule that does not exist is skipped. */
  function AddOne(c: Cluster, p: string, name: string): Cluster
    requires p in c.plans
  {
    if name in c.rules then
      Cluster(c.rules[name := Rule(c.rules[name].plans + {p}, Incremented(c.rules[name].count))],
              c.plans[p := c.plans[p].(labels := c.plans[p].labels[Key(name) := name])])
    else c
  }

  function SubOne(c: Cluster, p: string, name: string): Cluster {
    if name in c.rules
    then c.(rules := c.rules[name := Rule(c.rules[name].plans - {p}, Decremented(c.rules[name].count))])
    else c
  }

  function AddAll(c: Cluster, p: string, names: seq<string>): (c': Cluster)
    requires p in c.plans
    ensures p in c'.plans && c'.plans.Keys == c.plans.Keys && c'.rules.Keys == c.rules.Keys
    ensures c'.plans[p].names == c.plans[p].names && c'.plans[p].deleting == c.plans[p].deleting
    ensures forall q :: q in c.plans && q != p ==> c'.plans[q] == c.plans[q]
  {
    if names == [] then c else AddOne(AddAll(c, p, names[..|names| - 1]), p, names[|names| - 1])
  }

  function SubAll(c: Cluster, p: string, names: seq<string>): (c': Cluster)
    ensures c'.plans == c.plans && c'.rules.Keys == c.rules.Keys
  {
    if names == [] then c else SubOne(SubAll(c, p, names[..|names| - 1]), p, names[|names| - 1])
  }

  /** Rules whose lookup and update succeed; the loops over rule names skip the others. */
  type Reachable = set<string>

  function In(up: Reachable): string -> bool {
    (name: string) => name in up
  }

  /** The part of a reconcile that keeps rules and plans in step; false when it goes on to scheduling. */
  class Store {
    var cluster: Cluster

    constructor (c: Cluster)
      ensures cluster == c
    {
      cluster := c;
    }

    method UpdateAddRuleReferNum(p: string, names: seq<string>, up: Reachable)
      requires p in cluster.plans
      modifies this
      ensures cluster == AddAll(old(cluster), p, Filter(In(up), names))
    {
      for i := 0 to |names|
        invariant p in cluster.plans
        invariant cluster == AddAll(old(cluster), p, Filter(In(up), names[..i]))
      {
        NextAdded(old(cluster), p, names, i, up);
        var name := names[i];
        if name in up && name in cluster.rules {
          var rule := cluster.rules[name];
          var num := 1;
          match rule.count {
            case Absent =>
            case Garbage => num := 0;
            case Number(n) => num := n + 1;
          }
          var plan := cluster.plans[p];
          cluster := Cluster(cluster.rules[name := Rule(rule.plans + {p}, Number(num))],
                             cluster.plans[p := plan.(labels := plan.labels[Key(name) := name])]);
        }
      }
      assert names[..|names|] == names;
    }

    method UpdateSubRuleReferNum(p: string, names: seq<string>, up: Reachable)
      modifies this
      ensures cluster == SubAll(old(cluster), p, Filter(In(up), names))
    {
      for i := 0 to |names|
        invariant cluster == SubAll(old(cluster), p, Filter(In(up), names[..i]))
      {
        NextSubtracted(old(cluster), p, names, i, up);
        var name := names[i];
        if name in up && name in cluster.rules {
          var rule := cluster.rules[name];
          var num := 1;
          match rule.count {
            case Absent =>
            case Garbage => num := 0;
            case Number(n) =>
              num := n;
              if num > 0 {
                num := num - 1;
              }
          }
          cluster := cluster.(rules := cluster.rules[name := Rule(rule.plans - {p}, Number(num))]);
        }
      }
      assert names[..|names|] == names;
    }

    /** `landed` says whether the update of the plan that ends a reconcile succeeds. */
    method Reconcile(p: string, up: Reachable, landed: bool) returns (done: bool)
      requires p in cluster.plans
      modifies this
      ensures
        var plan := old(cluster).plans[p];
        && (plan.deleting ==> done && cluster == Reconciled(old(cluster), p, up, landed))
        && (!plan.deleting && Remaining(plan.labels, plan.names) == map[] ==>
              && (done <==> CoverEnd(plan.labels, plan.names) < |plan.names|)
              && cluster == Reconciled(old(cluster), p, up, landed))
        && (!plan.deleting && Remaining(plan.labels, plan.names) != map[] ==>
              done && exists order :: IsOrder(order, Remaining(plan.labels, plan.names).Keys)
                                   && cluster == SubAll(old(cluster), p,
                                     Filter(In(up), LabelValues(plan.labels, order))))
      ensures LabelsNameRules(old(cluster).plans[p].labels) ==> cluster == Reconciled(old(cluster), p, up, landed)
    {
      var plans := cluster.plans;
      var plan := plans[p];
      if plan.deleting {
        UpdateSubRuleReferNum(p, plan.names, up);
        if landed {
          cluster := cluster.(plans := cluster.plans - {p});
        }
        return true;
      }
      var rules, join, order := GetUpdatePlanRule(plan.labels, plan.names);
      if rules == [] {
        assert !join ==> order == [];
        return false;
      }
      if join {
        UpdateAddRuleReferNum(p, rules, up);
        if !landed {
          cluster := cluster.(plans := plans);
        }
      } else {
        if LabelsNameRules(plan.labels) {
          RemoveIsSubAll(cluster, p, up, order);
        }
        UpdateSubRuleReferNum(p, rules, up);
      }
      return true;
    }
  }

  lemma NextReached(names: seq<string>, i: nat, up: Reachable)
    requires i < |names|
    ensures Filter(In(up), names[..i + 1]) == Filter(In(up), names[..i]) + (if names[i] in up then [names[i]] else [])
  {
    assert names[..i + 1] == names[..i] + [names[i]];
    FilterAppend(In(up), names[..i], names[i]);
  }

  lemma AddLast(c: Cluster, p: string, names: seq<string>, name: string)
    requires p in c.plans
    ensures AddAll(c, p, names + [name]) == AddOne(AddAll(c, p, names), p, name)
  {
    assert (names + [name])[..|names|] == names;
  }

  lemma SubLast(c: Cluster, p: string, names: seq<string>, name: string)
    ensures SubAll(c, p, names + [name]) == SubOne(SubAll(c, p, names), p, name)
  {
    assert (names + [name])[..|names|] == names;
  }

  lemma NextAdded(c: Cluster, p: string, names: seq<string>, i: nat, up: Reachable)
    requires i < |names| && p in c.plans
    ensures
      var before := AddAll(c, p, Filter(In(up), names[..i]));
      AddAll(c, p, Filter(In(up), names[..i + 1])) == if names[i] in up then AddOne(before, p, names[i]) else before
  {
    var reached := Filter(In(up), names[..i]);
    NextReached(names, i, up);
    if names[i] in up {
      AddLast(c, p, reached, names[i]);
    } else {
      NothingMore(reached);
    }
  }

  lemma NextSubtracted(c: Cluster, p: string, names: seq<string>, i: nat, up: Reachable)
    requires i < |names|
    ensures
      var before := SubAll(c, p, Filter(In(up), names[..i]));
      SubAll(c, p, Filter(In(up), names[..i + 1])) == if names[i] in up then SubOne(before, p, names[i]) else before
  {
    var reached := Filter(In(up), names[..i]);
    NextReached(names, i, up);
    if names[i] in up {
      SubLast(c, p, reached, names[i]);
    } else {
      NothingMore(reached);
    }
  }

  lemma NothingMore<T>(s: seq<T>)
    ensures s + [] == s
  {
  }

  /** The rules a reconcile joins. */
  function Joining(plan: Plan): seq<string> {
    plan.names[CoverEnd(plan.labels, plan.names)..]
  }

  /** The plan has a label for the rule but does not name it any more. */
  predicate Stale(plan: Plan, r: string) {
    Key(r) in Remaining(plan.labels, plan.names)
  }

  /** Leaving the rules that stale labels stand for, in whatever order; the labels stay. */
  function RemoveStep(c: Cluster, p: string, up: Reachable): Cluster
    requires p in c.plans
  {
    c.(rules := map r | r in c.rules ::
                  if Stale(c.plans[p], r) && r in up
                  then Rule(c.rules[r].plans - {p}, Decremented(c.rules[r].count)) else c.rules[r])
  }

  /** What a reconcile leaves; when the update of the plan is lost only the rules have changed. */
  function Reconciled(c: Cluster, p: string, up: Reachable, landed: bool): Cluster
    requires p in c.plans
  {
    var plan := c.plans[p];
    if plan.deleting then
      var c' := SubAll(c, p, Filter(In(up), plan.names));
      if landed then c'.(plans := c'.plans - {p}) else c'
    else if Remaining(plan.labels, plan.names) != map[] then RemoveStep(c, p, up)
    else
      var c' := AddAll(c, p, Filter(In(up), Joining(plan)));
      if landed then c' else c.(rules := c'.rules)
  }

  /** A join that reaches all rules and stores the plan. */
  function JoinStep(c: Cluster, p: string): Cluster
    requires p in c.plans
  {
    AddAll(c, p, Joining(c.plans[p]))
  }

  // ---------- What the loops over rule names do to each rule and to the plan ----------

  /** AddAll, rule by rule: every existing rule named gains the plan and one more count. */
  lemma {:induction false} AddAllRules(c: Cluster, p: string, names: seq<string>, r: string)
    requires p in c.plans && Distinct(names) && r in c.rules
    ensures AddAll(c, p, names).rules[r]
         == if r in names then Rule(c.rules[r].plans + {p}, Incremented(c.rules[r].count)) else c.rules[r]
  {
    if names != [] {
      var init, last := names[..|names| - 1], names[|names| - 1];
      AddAllRules(c, p, init, r);
      assert names == init + [last];
      assert last !in init;
    }
  }

  /** AddAll, on the plan: one label for each existing rule named. */
  lemma {:induction false} AddAllLabels(c: Cluster, p: string, names: seq<string>, r: string)
    requires p in c.plans
    ensures
      var labels := AddAll(c, p, names).plans[p].labels;
      && (Joined(labels, r) <==> Joined(c.plans[p].labels, r) || (r in names && r in c.rules))
      && (r in names && r in c.rules ==> labels[Key(r)] == r)
      && (Joined(c.plans[p].labels, r) && c.plans[p].labels[Key(r)] == r ==> labels[Key(r)] == r)
  {
    if names != [] {
      var init, last := names[..|names| - 1], names[|names| - 1];
      AddAllLabels(c, p, init, r);
      assert names == init + [last];
      KeyIsInjective(r, last);
    }
  }

  lemma {:induction false} AddAllKeys(c: Cluster, p: string, names: seq<string>, k: string)
    requires p in c.plans && k in AddAll(c, p, names).plans[p].labels
    ensures k in c.plans[p].labels || exists i :: 0 <= i < |names| && k == Key(names[i]) && names[i] in c.rules
  {
    if names != [] {
      var n := |names| - 1;
      if k != Key(names[n]) || names[n] !in c.rules {
        AddAllKeys(c, p, names[..n], k);
        if i :| 0 <= i < n && k == Key(names[..n][i]) && names[..n][i] in c.rules {
          assert names[i] == names[..n][i];
        }
      }
    }
  }

  lemma {:induction false} SubAllRules(c: Cluster, p: string, names: seq<string>, r: string)
    requires Distinct(names) && r in c.rules
    ensures SubAll(c, p, names).rules[r]
         == if r in names then Rule(c.rules[r].plans - {p}, Decremented(c.rules[r].count)) else c.rules[r]
  {
    if names != [] {
      var init, last := names[..|names| - 1], names[|names| - 1];
      SubAllRules(c, p, init, r);
      assert names == init + [last];
      assert last !in init;
    }
  }

  /**
   Joining and leaving, rule by rule: a missing annotation becomes one either way, one that is no number becomes
   zero, and a number goes up by one, or down but not below zero.
   */
  lemma JoinedAndLeft(c: Cluster, p: string, names: seq<string>, r: string)
    requires p in c.plans && Distinct(names) && r in c.rules
    ensures
      var joined, left := AddAll(c, p, names).rules[r], SubAll(c, p, names).rules[r];
      && (r !in names ==> joined == c.rules[r] && left == c.rules[r])
      && (r in names ==> joined.plans == c.rules[r].plans + {p} && left.plans == c.rules[r].plans - {p})
      && (r in names && c.rules[r].count == Absent ==> joined.count == Number(1) && left.count == Number(1))
      && (r in names && c.rules[r].count == Garbage ==> joined.count == Number(0) && left.count == Number(0))
      && forall n :: r in names && c.rules[r].count == Number(n) ==>
           joined.count == Number(n + 1) && left.count == Number(if n > 0 then n - 1 else n)
  {
    AddAllRules(c, p, names, r);
    SubAllRules(c, p, names, r);
  }

  // ---------- When joining settles ----------

  lemma JoinLeavesNothing(c: Cluster, p: string)
    requires p in c.plans && Remaining(c.plans[p].labels, c.plans[p].names) == map[]
    ensures Remaining(JoinStep(c, p).plans[p].labels, c.plans[p].names) == map[]
  {
    var plan := c.plans[p];
    var labels, cut := JoinStep(c, p).plans[p].labels, CoverEnd(plan.labels, plan.names);
    forall k | k in labels && PREFIX <= k
      ensures exists i :: 0 <= i < |plan.names| && k == Key(plan.names[i])
    {
      AddAllKeys(c, p, plan.names[cut..], k);
      if k in plan.labels {
        assert k !in Remaining(plan.labels, plan.names);
      } else {
        var i :| 0 <= i < |plan.names[cut..]| && k == Key(plan.names[cut..][i]);
        assert plan.names[cut + i] == plan.names[cut..][i];
      }
    }
  }

  /** With no label left over, everything is joined up to the last rule exactly when the last rule is joined. */
  lemma CoveredIff(labels: Labels, names: seq<string>)
    requires names != [] && Distinct(names) && Remaining(labels, names) == map[]
    ensures CoverEnd(labels, names) == |names| <==> Joined(labels, names[|names| - 1])
  {
    JoinsLongestSuffix(labels, names);
    CutAtLast(labels, names, CoverEnd(labels, names));
  }

  lemma CutAtLast(labels: Labels, names: seq<string>, cut: nat)
    requires names != [] && cut <= |names|
    requires forall i :: cut <= i < |names| ==> !Joined(labels, names[i])
    requires cut > 0 ==> Joined(labels, names[cut - 1])
    ensures cut == |names| <==> Joined(labels, names[|names| - 1])
  {
  }

  lemma LastIsJoining(labels: Labels, names: seq<string>)
    requires CoverEnd(labels, names) < |names|
    ensures names[|names| - 1] in names[CoverEnd(labels, names)..]
  {
    var cut := CoverEnd(labels, names);
    assert names[cut..][|names| - 1 - cut] == names[|names| - 1];
  }

  lemma LastJoinedAfter(c: Cluster, p: string)
    requires p in c.plans && Remaining(c.plans[p].labels, c.plans[p].names) == map[] && Distinct(c.plans[p].names)
    requires CoverEnd(c.plans[p].labels, c.plans[p].names) < |c.plans[p].names|
    ensures
      var last := c.plans[p].names[|c.plans[p].names| - 1];
      Joined(JoinStep(c, p).plans[p].labels, last) <==> last in c.rules
  {
    var plan := c.plans[p];
    var last := plan.names[|plan.names| - 1];
    CoveredIff(plan.labels, plan.names);
    LastIsJoining(plan.labels, plan.names);
    AddAllLabels(c, p, plan.names[CoverEnd(plan.labels, plan.names)..], last);
  }

  /**
   After the rules to join have been joined the next reconcile asks for nothing exactly when the last
   rule of the plan exists; otherwise the same rules are asked for again and again.
   */
  lemma JoinSettlesIff(c: Cluster, p: string)
    requires p in c.plans
    requires
      var plan := c.plans[p];
      Distinct(plan.names) && Remaining(plan.labels, plan.names) == map[]
        && CoverEnd(plan.labels, plan.names) < |plan.names|
    ensures
      var names := c.plans[p].names;
      var labels := JoinStep(c, p).plans[p].labels;
      && Remaining(labels, names) == map[]
      && (CoverEnd(labels, names) == |names| <==> names[|names| - 1] in c.rules)
  {
    JoinLeavesNothing(c, p);
    LastJoinedAfter(c, p);
    CoveredIff(JoinStep(c, p).plans[p].labels, c.plans[p].names);
  }

  /** Reconciles of a plan, one after the other, while it has rules to join. */
  function JoinRun(c: Cluster, p: string, n: nat): (c': Cluster)
    requires p in c.plans
    ensures p in c'.plans && c'.rules.Keys == c.rules.Keys && c'.plans[p].names == c.plans[p].names
    decreases n
  {
    if n == 0 then c else JoinRun(JoinStep(c, p), p, n - 1)
  }

  predicate HasToJoin(plan: Plan) {
    CoverEnd(plan.labels, plan.names) < |plan.names|
  }

  /** The plan has rules to join, no stale label, and its last rule does not exist. */
  predicate Unfinished(c: Cluster, p: string) {
    && p in c.plans && Distinct(c.plans[p].names) && HasToJoin(c.plans[p])
    && Remaining(c.plans[p].labels, c.plans[p].names) == map[]
    && c.plans[p].names[|c.plans[p].names| - 1] !in c.rules
  }

  lemma StaysUnfinished(c: Cluster, p: string)
    requires Unfinished(c, p)
    ensures Unfinished(JoinStep(c, p), p)
  {
    JoinSettlesIff(c, p);
  }

  lemma {:induction false} JoinsForever(c: Cluster, p: string, n: nat)
    requires Unfinished(c, p)
    ensures Unfinished(JoinRun(c, p, n), p)
    decreases n
  {
    if n > 0 {
      StaysUnfinished(c, p);
      JoinsForever(JoinStep(c, p), p, n - 1);
    }
  }

  /**
   A plan that has rules to join is asked to join again after every reconcile exactly when its last rule is
   missing.
   */
  lemma JoinsForeverIff(c: Cluster, p: string)
    requires p in c.plans && Distinct(c.plans[p].names) && HasToJoin(c.plans[p])
    requires Remaining(c.plans[p].labels, c.plans[p].names) == map[]
    ensures (forall n: nat :: HasToJoin(JoinRun(c, p, n).plans[p])) 
       <==> c.plans[p].names[|c.plans[p].names| - 1] !in c.rules
  {
    if Unfinished(c, p) {
      forall n: nat
        ensures HasToJoin(JoinRun(c, p, n).plans[p])
      {
        JoinsForever(c, p, n);
      }
    } else {
      JoinSettlesIff(c, p);
      assert JoinRun(JoinStep(c, p), p, 0) == JoinStep(c, p);
      assert !HasToJoin(JoinRun(c, p, 1).plans[p]);
    }
  }

  // ---------- Removals never settle ----------

  /** The join labels of a plan name their rules. */
  predicate LabelsNameRules(labels: Labels) {
    forall k :: k in labels && PREFIX <= k ==> k == Key(labels[k])
  }

  lemma ValuesAreDistinct(labels: Labels, order: seq<string>)
    requires LabelsNameRules(labels) && Distinct(order) && forall k :: k in order ==> k in labels && PREFIX <= k
    ensures Distinct(LabelValues(labels, order))
    ensures forall k :: k in order ==> labels[k] in LabelValues(labels, order)
  {
    forall i, j | 0 <= i < j < |order|
      ensures labels[order[i]] != labels[order[j]]
    {
      assert order[i] in order && order[j] in order;
      KeyIsInjective(labels[order[i]], labels[order[j]]);
    }
    forall k | k in order
      ensures labels[k] in LabelValues(labels, order)
    {
      var i :| 0 <= i < |order| && order[i] == k;
      assert LabelValues(labels, order)[i] == labels[k];
    }
  }

  lemma ValueIsStale(plan: Plan, order: seq<string>, r: string)
    requires LabelsNameRules(plan.labels) && IsOrder(order, Remaining(plan.labels, plan.names).Keys)
    ensures r in LabelValues(plan.labels, order) <==> Stale(plan, r)
  {
    var values := LabelValues(plan.labels, order);
    ValuesAreDistinct(plan.labels, order);
    if Stale(plan, r) {
      assert Key(r) in order;
      KeyIsInjective(r, plan.labels[Key(r)]);
    }
    if r in values {
      var i :| 0 <= i < |values| && values[i] == r;
      assert order[i] in order;
    }
  }

  /** The order of the stale labels does not matter. */
  lemma RemoveIsSubAll(c: Cluster, p: string, up: Reachable, order: seq<string>)
    requires p in c.plans && LabelsNameRules(c.plans[p].labels)
    requires IsOrder(order, Remaining(c.plans[p].labels, c.plans[p].names).Keys)
    ensures SubAll(c, p, Filter(In(up), LabelValues(c.plans[p].labels, order))) == RemoveStep(c, p, up)
  {
    var values := LabelValues(c.plans[p].labels, order);
    var c' := SubAll(c, p, Filter(In(up), values));
    ValuesAreDistinct(c.plans[p].labels, order);
    FilterDistinct(In(up), values);
    forall r | r in c.rules
      ensures c'.rules[r] == RemoveStep(c, p, up).rules[r]
    {
      SubAllRules(c, p, Filter(In(up), values), r);
      FilterMembers(In(up), values, r);
      ValueIsStale(c.plans[p], order, r);
    }
    assert c'.rules == RemoveStep(c, p, up).rules;
  }

  /** Reconciles of a plan with labels left over, one order of those labels each. */
  function RemoveRun(c: Cluster, p: string, orders: seq<seq<string>>): Cluster
    requires p in c.plans
  {
    if orders == [] then c
    else
      var before := RemoveRun(c, p, orders[..|orders| - 1]);
      if p in before.plans then SubAll(before, p, LabelValues(before.plans[p].labels, orders[|orders| - 1])) else before
  }

  /**
   A plan whose label outlives its rule name never gets past it: its labels stay as they are, so every
   reconcile removes again, and the count of the rule goes down by one each time until it is zero.
   */
  lemma {:induction false} RemovalNeverSettles(c: Cluster, p: string, orders: seq<seq<string>>, r: string)
    requires p in c.plans && LabelsNameRules(c.plans[p].labels)
    requires
      var stale := Remaining(c.plans[p].labels, c.plans[p].names);
      Key(r) in stale && forall i :: 0 <= i < |orders| ==> IsOrder(orders[i], stale.Keys)
    requires r in c.rules && c.rules[r].count.Number? && c.rules[r].count.n >= 0
    ensures
      var c' := RemoveRun(c, p, orders);
      && c'.plans == c.plans && c'.rules.Keys == c.rules.Keys
      && c'.rules[r].count == Number(if |orders| <= c.rules[r].count.n then c.rules[r].count.n - |orders| else 0)
  {
    if orders != [] {
      var n := |orders| - 1;
      var labels, order := c.plans[p].labels, orders[n];
      RemovalNeverSettles(c, p, orders[..n], r);
      ValuesAreDistinct(labels, order);
      KeyIsInjective(r, labels[Key(r)]);
      assert Key(r) in order;
      SubAllRules(RemoveRun(c, p, orders[..n]), p, LabelValues(labels, order), r);
    }
  }
}
