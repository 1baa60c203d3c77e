/**
 The rego rules of an inspection, grouped by the kind and version they look at, and what checking
 one cluster object against a group of rules reports.  Rego itself is an arbitrary function.
 */
module OpaRules {
  import opened Wrappers
  import opened Sequences

  /** The key under which rules about kubelet statistics and the statistics themselves are kept. */
  const NODE_STATS_KEY := "NodeStatsSummary.v1"

  datatype OpaRule = OpaRule(name: string, rule: string, level: string)

  /** A cluster object, or a node's statistics, in which case `name` is the node. */
  datatype Subject = Subject(namespace: string, name: string, body: int)

  datatype Query = ResourceDeny | NodeStatsDeny

  /** An element of the list a rego query returns; elements that are not maps are skipped. */
  datatype Value = Violation(level: string, message: string, reason: string) | NotAMap

  datatype Outcome = PrepareFailed(error: string) | EvalFailed(error: string) | NoList | Denied(values: seq<Value>)

  type Rego = (Query, OpaRule, Subject) -> Outcome

  datatype ResultItem = ResultItem(level: string, message: string, reason: string)

  datatype ResourceResult = ResourceResult(namespace: string, resourceType: string, name: string,
    items: seq<ResultItem>)

  function ItemsOfValues(values: seq<Value>): seq<ResultItem> {
    if values == [] then []
    else
      (match values[0]
       case Violation(l, m, r) => [ResultItem(l, m, r)]
       case NotAMap => []) + ItemsOfValues(values[1..])
  }

  function ItemsOfOutcome(rule: OpaRule, outcome: Outcome): seq<ResultItem> {
    match outcome
    case PrepareFailed(e) =>
      [ResultItem(rule.level, "prepare rule " + rule.name + " failed: " + e, "PrepareRuleFailed")]
    case EvalFailed(e) => [ResultItem(rule.level, "eval rule " + rule.name + " failed: " + e, "EvalRuleFailed")]
    case NoList => []
    case Denied(values) => ItemsOfValues(values)
  }

  function Items(rego: Rego, query: Query, rules: seq<OpaRule>, s: Subject): seq<ResultItem> {
    if rules == [] then []
    else Items(rego, query, rules[..|rules| - 1], s)
         + ItemsOfOutcome(rules[|rules| - 1], rego(query, rules[|rules| - 1], s))
  }

  /** What one object reports against a list of rules, under key `key`. */
  function Check(rego: Rego, query: Query, key: string, rules: seq<OpaRule>, s: Subject): ResourceResult {
    ResourceResult(if query == NodeStatsDeny then "" else s.namespace, key, s.name, Items(rego, query, rules, s))
  }

  function Checker(rego: Rego, query: Query, key: string, rules: seq<OpaRule>): Subject -> ResourceResult {
    s => Check(rego, query, key, rules, s)
  }

  const HAS_ITEMS: ResourceResult -> bool := (r: ResourceResult) => r.items != []

  /** The sequential check: one result for each object in turn, results without items dropped. */
  function Findings(rego: Rego, query: Query, key: string, rules: seq<OpaRule>,
                    subjects: seq<Subject>): seq<ResourceResult>
  {
    Filter(HAS_ITEMS, Map(Checker(rego, query, key, rules), subjects))
  }

  lemma FindingsConcat(rego: Rego, query: Query, key: string, rules: seq<OpaRule>, a: seq<Subject>, b: seq<Subject>)
    ensures Findings(rego, query, key, rules, a + b)
         == Findings(rego, query, key, rules, a) + Findings(rego, query, key, rules, b)
  {
    var check := Checker(rego, query, key, rules);
    MapConcat(check, a, b);
    FilterConcat(HAS_ITEMS, Map(check, a), Map(check, b));
  }

  lemma FindingsHead(rego: Rego, query: Query, key: string, rules: seq<OpaRule>, subjects: seq<Subject>)
    requires subjects != []
    ensures
      var r := Check(rego, query, key, rules, subjects[0]);
      Findings(rego, query, key, rules, subjects)
      == (if r.items == [] then [] else [r]) + Findings(rego, query, key, rules, subjects[1..])
  {
    MapTail(Checker(rego, query, key, rules), subjects);
  }

  lemma FindingsMembers(rego: Rego, query: Query, key: string, rules: seq<OpaRule>, subjects: seq<Subject>,
                        r: ResourceResult)
    ensures r in Findings(rego, query, key, rules, subjects)
       <==> r.items != [] && exists s :: s in subjects && r == Check(rego, query, key, rules, s)
  {
    var check := Checker(rego, query, key, rules);
    FilterMembers(HAS_ITEMS, Map(check, subjects), r);
    if s :| s in subjects && r == check(s) {
      var i :| 0 <= i < |subjects| && subjects[i] == s;
      assert Map(check, subjects)[i] == r;
    }
  }

  /** A result is reported once for each object whose check it is. */
  lemma {:induction false} FindingsCount(rego: Rego, query: Query, key: string, rules: seq<OpaRule>,
                                         subjects: seq<Subject>, x: ResourceResult)
    ensures multiset(Findings(rego, query, key, rules, subjects))[x]
         == if x.items == [] then 0 else |Filter((s: Subject) => Check(rego, query, key, rules, s) == x, subjects)|
  {
    if subjects != [] {
      FindingsHead(rego, query, key, rules, subjects);
      FindingsCount(rego, query, key, rules, subjects[1..], x);
    }
  }

  /** Without rules nothing is reported. */
  lemma FindingsWithoutRules(rego: Rego, query: Query, key: string, subjects: seq<Subject>)
    ensures Findings(rego, query, key, [], subjects) == []
  {
    var found := Findings(rego, query, key, [], subjects);
    if found != [] {
      FindingsMembers(rego, query, key, [], subjects, found[0]);
    }
  }

  /** The violations of a list give one item each, in order, and nothing else does. */
  lemma {:induction false} ValuesAre(values: seq<Value>)
    ensures |ItemsOfValues(values)| == |Filter((v: Value) => v.Violation?, values)|
    ensures forall i :: 0 <= i < |ItemsOfValues(values)| ==>
      var item := ItemsOfValues(values)[i];
      Filter((v: Value) => v.Violation?, values)[i] == Violation(item.level, item.message, item.reason)
  {
    if values != [] {
      ValuesAre(values[1..]);
    }
  }

  /** The violation loop over the list a query returned: one item for each violation, in order. */
  method ReadViolations(values: seq<Value>) returns (items: seq<ResultItem>)
    ensures items == ItemsOfValues(values)
    ensures |items| == |Filter((v: Value) => v.Violation?, values)|
    ensures forall i :: 0 <= i < |items| ==>
      Filter((v: Value) => v.Violation?, values)[i] == Violation(items[i].level, items[i].message, items[i].reason)
  {
    ValuesAre(values);
    items := [];
    for j := 0 to |values|
      invariant items + ItemsOfValues(values[j..]) == ItemsOfValues(values)
    {
      if values[j].Violation? {
        items := items + [ResultItem(values[j].level, values[j].message, values[j].reason)];
      }
    }
  }

  function Parts(rego: Rego, query: Query, rules: seq<OpaRule>, s: Subject): seq<seq<ResultItem>> {
    seq(|rules|, i requires 0 <= i < |rules| => ItemsOfOutcome(rules[i], rego(query, rules[i], s)))
  }

  lemma {:induction false} ItemsAreParts(rego: Rego, query: Query, rules: seq<OpaRule>, s: Subject)
    ensures Items(rego, query, rules, s) == Flatten(Parts(rego, query, rules, s))
  {
    if rules != [] {
      var init, last := rules[..|rules| - 1], rules[|rules| - 1];
      ItemsAreParts(rego, query, init, s);
      var part := ItemsOfOutcome(last, rego(query, last, s));
      assert Parts(rego, query, rules, s) == Parts(rego, query, init, s) + [part];
      FlattenAppend(Parts(rego, query, init, s), part);
    }
  }

  /**
   What a rule contributes: one item if it cannot be prepared or evaluated, with the level of the rule, and
   otherwise one for each violation it answers, in order.
   */
  predicate PartIs(rule: OpaRule, outcome: Outcome, part: seq<ResultItem>) {
    match outcome
    case PrepareFailed(e) =>
      part == [ResultItem(rule.level, "prepare rule " + rule.name + " failed: " + e, "PrepareRuleFailed")]
    case EvalFailed(e) => part == [ResultItem(rule.level, "eval rule " + rule.name + " failed: " + e, "EvalRuleFailed")]
    case NoList => part == []
    case Denied(values) =>
      && |part| == |Filter((v: Value) => v.Violation?, values)|
      && forall j :: 0 <= j < |part| ==>
           Filter((v: Value) => v.Violation?, values)[j] == Violation(part[j].level, part[j].message, part[j].reason)
  }

  /** What an object reports, rule by rule. */
  lemma ItemsAre(rego: Rego, query: Query, rules: seq<OpaRule>, s: Subject) returns (parts: seq<seq<ResultItem>>)
    ensures |parts| == |rules| && Flatten(parts) == Items(rego, query, rules, s)
    ensures forall i :: 0 <= i < |rules| ==> PartIs(rules[i], rego(query, rules[i], s), parts[i])
  {
    parts := Parts(rego, query, rules, s);
    ItemsAreParts(rego, query, rules, s);
    forall i | 0 <= i < |rules|
      ensures PartIs(rules[i], rego(query, rules[i], s), parts[i])
    {
      if rego(query, rules[i], s).Denied? {
        ValuesAre(rego(query, rules[i], s).values);
      }
    }
  }

  /** The rule loop of one object, as both check functions run it. */
  method RunRules(rego: Rego, query: Query, rules: seq<OpaRule>, s: Subject) returns (items: seq<ResultItem>)
    ensures items == Items(rego, query, rules, s)
    ensures exists parts: seq<seq<ResultItem>> ::
      && |parts| == |rules| && items == Flatten(parts)
      && forall i :: 0 <= i < |rules| ==> PartIs(rules[i], rego(query, rules[i], s), parts[i])
  {
    items := [];
    for i := 0 to |rules|
      invariant items == Items(rego, query, rules[..i], s)
    {
      var rule := rules[i];
      assert rules[..i + 1][..i] == rules[..i];
      var outcome := rego(query, rule, s);
      match outcome {
        case PrepareFailed(e) =>
          items := items + [ResultItem(rule.level, "prepare rule " + rule.name + " failed: " + e, "PrepareRuleFailed")];
        case EvalFailed(e) =>
          items := items + [ResultItem(rule.level, "eval rule " + rule.name + " failed: " + e, "EvalRuleFailed")];
        case NoList =>
        case Denied(values) =>
          var found := ReadViolations(values);
          items := items + found;
      }
    }
    assert rules[..|rules|] == rules;
    ghost var parts := ItemsAre(rego, query, rules, s);
  }

  /**
   Finds the kind and version a rule is about; the regular expressions that do it are an arbitrary
   function, whose `None` is the "invalid rego rule format" error.
   */
  type RuleKey = string -> Option<string>

  /** The rules of a list that belong to a key, in list order. */
  function RulesFor(keyOf: RuleKey, rules: seq<OpaRule>, key: string): seq<OpaRule> {
    if rules == [] then []
    else
      var last := rules[|rules| - 1];
      RulesFor(keyOf, rules[..|rules| - 1], key) + (if keyOf(last.rule) == Some(key) then [last] else [])
  }

  lemma {:induction false} RulesForIs(keyOf: RuleKey, rules: seq<OpaRule>, key: string)
    ensures RulesFor(keyOf, rules, key) == Filter((r: OpaRule) => keyOf(r.rule) == Some(key), rules)
  {
    if rules != [] {
      var init, last := rules[..|rules| - 1], rules[|rules| - 1];
      RulesForIs(keyOf, init, key);
      FilterAppend((r: OpaRule) => keyOf(r.rule) == Some(key), init, last);
      assert rules == init + [last];
    }
  }

  /** The map has exactly the keys of the rules, each with its rules in the order they were added. */
  ghost predicate IsGrouping(keyOf: RuleKey, rules: seq<OpaRule>, groups: map<string, seq<OpaRule>>) {
    && (forall k :: k in groups ==> groups[k] == RulesFor(keyOf, rules, k))
    && (forall k :: k in groups <==> RulesFor(keyOf, rules, k) != [])
  }

  /** One more rule goes to the end of the group of its key. */
  function AddedRule(groups: map<string, seq<OpaRule>>, k: string, rule: OpaRule): map<string, seq<OpaRule>> {
    groups[k := (if k in groups then groups[k] else []) + [rule]]
  }

  lemma GroupingStep(keyOf: RuleKey, rules: seq<OpaRule>, i: nat, groups: map<string, seq<OpaRule>>)
    requires i < |rules| && keyOf(rules[i].rule).Some? && IsGrouping(keyOf, rules[..i], groups)
    ensures IsGrouping(keyOf, rules[..i + 1], AddedRule(groups, keyOf(rules[i].rule).value, rules[i]))
  {
    assert rules[..i + 1][..i] == rules[..i];
    forall k
      ensures RulesFor(keyOf, rules[..i + 1], k)
           == RulesFor(keyOf, rules[..i], k) + (if keyOf(rules[i].rule) == Some(k) then [rules[i]] else [])
    {
    }
  }

  class RulesManager {
    var Rules: map<string, seq<OpaRule>>

    constructor ()
      ensures Rules == map[]
    {
      Rules := map[];
    }

    method AddRule(keyOf: RuleKey, rule: OpaRule) returns (ok: bool)
      modifies this
      ensures ok <==> keyOf(rule.rule).Some?
      ensures !ok ==> Rules == old(Rules)
      ensures ok ==> Rules == AddedRule(old(Rules), keyOf(rule.rule).value, rule)
    {
      match keyOf(rule.rule) {
        case None => ok := false;
        case Some(k) =>
          Rules := Rules[k := (if k in Rules then Rules[k] else []) + [rule]];
          ok := true;
      }
    }

    /** Adds a whole list and stops at the first rule whose kind cannot be found. */
    method AddRules(keyOf: RuleKey, rules: seq<OpaRule>) returns (ok: bool)
      requires Rules == map[]
      modifies this
      ensures ok <==> forall r :: r in rules ==> keyOf(r.rule).Some?
      ensures ok ==> IsGrouping(keyOf, rules, Rules)
    {
      for i := 0 to |rules|
        invariant IsGrouping(keyOf, rules[..i], Rules)
        invariant forall j :: 0 <= j < i ==> keyOf(rules[j].rule).Some?
      {
        ghost var before := Rules;
        ok := AddRule(keyOf, rules[i]);
        if !ok {
          assert rules[i] in rules;
          return;
        }
        GroupingStep(keyOf, rules, i, before);
      }
      assert rules[..|rules|] == rules;
      ok := true;
    }
  }
}
