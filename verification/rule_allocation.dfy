/**
 Placing the rules of one node-scoped type: rules that name a node or select nodes are merged by
 node, the others go to every node, by rewriting the node name in the shared rule maps before each
 snapshot.
 */
module RuleAllocation {
  import opened Wrappers
  import opened Sequences
  import opened Totals
  import opened RuleItems

  datatype Kind = Opas | PromQL | ServiceConnect | FileChange | Sysctl | Systemd | FileFilter | CustomCommand | NodeInfo

  /** The rule type of a job: one for each kind of rule, and one for the component inspection. */
  datatype RuleType = OfKind(kind: Kind) | Component

  /** The JSON snapshot a job carries. */
  datatype RunRule = Rules(items: seq<Item>) | Excluded(names: seq<string>)

  datatype JobRule = JobRule(ruleType: RuleType, runRule: RunRule)

  /** A rule as a shared, mutable map. */
  class RuleMap {
    const name: string
    var nodeName: Option<string>
    const nodeSelector: Labels
    const body: string

    constructor (x: Item)
      ensures Value() == x
    {
      name, nodeName, nodeSelector, body := x.name, x.nodeName, x.nodeSelector, x.body;
    }

    function Value(): Item
      reads this
    {
      Item(name, nodeName, nodeSelector, body)
    }
  }

  function Values(ms: seq<RuleMap>): seq<Item>
    reads ms
  {
    if ms == [] then [] else Values(ms[..|ms| - 1]) + [ms[|ms| - 1].Value()]
  }

  lemma {:induction false} ValuesAt(ms: seq<RuleMap>)
    ensures |Values(ms)| == |ms| && forall i :: 0 <= i < |ms| ==> Values(ms)[i] == ms[i].Value()
  {
    if ms != [] {
      ValuesAt(ms[..|ms| - 1]);
    }
  }

  /** The node a job is deployed on: the node name of its first rule, empty for any node, None for no rules. */
  function GetDeploySchedule(r: RunRule): Option<string> {
    match r
    case Excluded(_) => None
    case Rules(items) =>
      if items == [] then None
      else if items[0].nodeName.Some? && !IsBlank(items[0].nodeName.value) then items[0].nodeName
      else Some("")
  }

  // ---------- What runs where ----------

  datatype Ident = Ident(name: string, body: string)

  const IDENT: Item -> Ident := (x: Item) => Ident(x.name, x.body)

  function Ids(items: seq<Item>): multiset<Ident> {
    multiset(Map(IDENT, items))
  }

  lemma IdsConcat(a: seq<Item>, b: seq<Item>)
    ensures Ids(a + b) == Ids(a) + Ids(b)
  {
    MapConcat(IDENT, a, b);
  }

  lemma InIds(items: seq<Item>, id: Ident)
    ensures id in Ids(items) <==> exists i :: 0 <= i < |items| && IDENT(items[i]) == id
  {
    if id in Ids(items) {
      assert id in Map(IDENT, items);
    }
    if i :| 0 <= i < |items| && IDENT(items[i]) == id {
      assert Map(IDENT, items)[i] == id;
    }
  }

  lemma {:induction false} IdsOfDistinct(items: seq<Item>, i: nat)
    requires DistinctNames(items) && i < |items|
    ensures Ids(items)[IDENT(items[i])] == 1
  {
    var last := |items| - 1;
    assert items == items[..last] + [items[last]];
    IdsConcat(items[..last], [items[last]]);
    assert Map(IDENT, [items[last]]) == [IDENT(items[last])];
    if i == last {
      InIds(items[..last], IDENT(items[i]));
    } else {
      IdsOfDistinct(items[..last], i);
    }
  }

  function IdsOfJob(t: RuleType, node: string, job: JobRule): multiset<Ident> {
    if job.ruleType == t && job.runRule.Rules? && GetDeploySchedule(job.runRule) == Some(node)
      then Ids(job.runRule.items)
    else multiset{}
  }

  function OnNode(t: RuleType, node: string): JobRule -> multiset<Ident> {
    job => IdsOfJob(t, node, job)
  }

  /** The rules of a type that the jobs run on a node. */
  function IdsOn(jobs: seq<JobRule>, t: RuleType, node: string): multiset<Ident> {
    Union(Map(OnNode(t, node), jobs))
  }

  lemma IdsOnConcat(a: seq<JobRule>, b: seq<JobRule>, t: RuleType, node: string)
    ensures IdsOn(a + b, t, node) == IdsOn(a, t, node) + IdsOn(b, t, node)
  {
    MapConcat(OnNode(t, node), a, b);
    UnionConcat(Map(OnNode(t, node), a), Map(OnNode(t, node), b));
  }

  lemma IdsOnOne(job: JobRule, t: RuleType, node: string)
    ensures IdsOn([job], t, node) == IdsOfJob(t, node, job)
  {
    assert Map(OnNode(t, node), [job]) == [IdsOfJob(t, node, job)];
    UnionOne(IdsOfJob(t, node, job));
  }

  lemma IdsOnAppend(jobs: seq<JobRule>, job: JobRule, t: RuleType, node: string)
    ensures IdsOn(jobs + [job], t, node) == IdsOn(jobs, t, node) + IdsOfJob(t, node, job)
  {
    IdsOnConcat(jobs, [job], t, node);
    IdsOnOne(job, t, node);
  }

  /** All the rules of a job name one node, the node the job is deployed on. */
  ghost predicate PlacedOn(job: JobRule, node: string) {
    && job.runRule.Rules? && job.runRule.items != []
    && !IsBlank(node)
    && (forall x :: x in job.runRule.items ==> x.nodeName == Some(node))
  }

  ghost predicate AllPlaced(jobs: seq<JobRule>, t: RuleType) {
    forall j :: 0 <= j < |jobs| ==> jobs[j].ruleType == t && exists node :: PlacedOn(jobs[j], node)
  }

  /**
   The jobs of one node-scoped type run each item on the nodes it must run on, on none it may not run
   on, never twice on a node, and run nothing else.
   */
  ghost predicate Allocated(jobs: seq<JobRule>, t: RuleType, items: seq<Item>, nodes: seq<Node>) {
    && (forall i, node :: 0 <= i < |items| ==> CountFits(items[i], nodes, node, IdsOn(jobs, t, node)[IDENT(items[i])]))
    && (forall node, id :: id in IdsOn(jobs, t, node) ==> exists i :: 0 <= i < |items| && IDENT(items[i]) == id)
    && AllPlaced(jobs, t)
  }

  lemma PlacementAgrees(job: JobRule, node: string)
    requires PlacedOn(job, node)
    ensures GetDeploySchedule(job.runRule) == Some(node)
    ensures forall x :: x in job.runRule.items ==> x.nodeName == GetDeploySchedule(job.runRule)
  {
    assert job.runRule.items[0] in job.runRule.items;
  }

  // ---------- Merging the rules that name or select nodes ----------

  function At(m: map<string, seq<Item>>, node: string): seq<Item> {
    if node in m then m[node] else []
  }

  ghost predicate MapIsPlaced(m: map<string, seq<Item>>) {
    forall node :: node in m ==> PlacedOn(JobRule(Component, Rules(m[node])), node)
  }

  ghost predicate Merged(m: map<string, seq<Item>>, items: seq<Item>, nodes: seq<Node>) {
    && MapIsPlaced(m)
    && (forall i, node :: 0 <= i < |items| ==> CountFits(items[i], nodes, node, Ids(At(m, node))[IDENT(items[i])]))
    && (forall node, id :: id in Ids(At(m, node)) ==> exists i :: 0 <= i < |items| && IDENT(items[i]) == id)
  }

  /** m' is m with x added once to each target node. */
  ghost predicate AddedTo(m: map<string, seq<Item>>, m': map<string, seq<Item>>, x: Item, targets: set<string>) {
    forall node :: Ids(At(m', node)) == Ids(At(m, node)) + (if node in targets then multiset{IDENT(x)} else multiset{})
  }

  lemma CountsAppend(m: map<string, seq<Item>>, m': map<string, seq<Item>>, items: seq<Item>, x: Item,
                     nodes: seq<Node>, targets: set<string>)
    requires Merged(m, items, nodes) && DistinctNames(items + [x]) && AddedTo(m, m', x, targets)
    requires forall node :: MustRun(x, nodes, node) ==> node in targets
    requires forall node :: node in targets ==> MayRun(x, nodes, node)
    ensures forall i, node :: 0 <= i < |items + [x]| ==>
      CountFits((items + [x])[i], nodes, node, Ids(At(m', node))[IDENT((items + [x])[i])])
  {
    var items' := items + [x];
    assert forall j :: 0 <= j < |items| ==> items[j] == items'[j] && items'[j].name != items'[|items|].name;
    forall i, node | 0 <= i < |items'|
      ensures CountFits(items'[i], nodes, node, Ids(At(m', node))[IDENT(items'[i])])
    {
      if i == |items| {
        assert IDENT(x) !in Ids(At(m, node));
      } else {
        assert CountFits(items[i], nodes, node, Ids(At(m, node))[IDENT(items[i])]);
        assert IDENT(items[i]) != IDENT(x);
      }
    }
  }

  lemma MergedAppend(m: map<string, seq<Item>>, m': map<string, seq<Item>>, items: seq<Item>, x: Item,
                     nodes: seq<Node>, targets: set<string>)
    requires Merged(m, items, nodes) && DistinctNames(items + [x])
    requires MapIsPlaced(m') && AddedTo(m, m', x, targets)
    requires forall node :: MustRun(x, nodes, node) ==> node in targets
    requires forall node :: node in targets ==> MayRun(x, nodes, node)
    ensures Merged(m', items + [x], nodes)
  {
    var items' := items + [x];
    CountsAppend(m, m', items, x, nodes, targets);
    forall node, id | id in Ids(At(m', node))
      ensures exists i :: 0 <= i < |items'| && IDENT(items'[i]) == id
    {
      if id in Ids(At(m, node)) {
        var i :| 0 <= i < |items| && IDENT(items[i]) == id;
        assert IDENT(items'[i]) == id;
      } else {
        assert IDENT(items'[|items|]) == id;
      }
    }
  }

  lemma IdsAppend(items: seq<Item>, x: Item, node: string)
    ensures Ids(items + [x.(nodeName := Some(node))]) == Ids(items) + multiset{IDENT(x)}
  {
    var y := x.(nodeName := Some(node));
    IdsConcat(items, [y]);
    assert Map(IDENT, [y]) == [IDENT(x)];
  }

  lemma AddOne(m: map<string, seq<Item>>, x: Item, node: string)
    requires MapIsPlaced(m) && !IsBlank(node)
    ensures
      var m' := m[node := At(m, node) + [x.(nodeName := Some(node))]];
      MapIsPlaced(m') && AddedTo(m, m', x, {node})
  {
    IdsAppend(At(m, node), x, node);
    PlacedWithOne(m, x, node);
  }

  lemma PlacedWithOne(m: map<string, seq<Item>>, x: Item, node: string)
    requires MapIsPlaced(m) && !IsBlank(node)
    ensures MapIsPlaced(m[node := At(m, node) + [x.(nodeName := Some(node))]])
  {
    var items := At(m, node);
    assert node in m ==> PlacedOn(JobRule(Component, Rules(items)), node);
    assert PlacedOn(JobRule(Component, Rules(items + [x.(nodeName := Some(node))])), node);
  }

  lemma AddedTrans(m: map<string, seq<Item>>, m1: map<string, seq<Item>>, m2: map<string, seq<Item>>, x: Item,
                   s: set<string>, node: string)
    requires AddedTo(m, m1, x, s) && AddedTo(m1, m2, x, {node}) && node !in s
    ensures AddedTo(m, m2, x, s + {node})
  {
  }

  /** picked are nodes of the list, with every node the whole selector matches and none it does not match at all. */
  ghost predicate Picked(selector: Labels, nodes: seq<Node>, picked: seq<Node>) {
    && (forall k :: 0 <= k < |picked| ==> picked[k] in nodes && !MatchesNone(selector, picked[k].labels))
    && (forall k :: 0 <= k < |nodes| && MatchesAll(selector, nodes[k].labels) ==> nodes[k] in picked)
  }

  lemma PickedAppend(selector: Labels, nodes: seq<Node>, picked: seq<Node>, node: Node, isExist: bool)
    requires Picked(selector, nodes, picked)
    requires isExist ==> !MatchesNone(selector, node.labels)
    requires !isExist ==> !MatchesAll(selector, node.labels)
    ensures Picked(selector, nodes + [node], if isExist then picked + [node] else picked)
  {
  }

  lemma ClusterAppend(nodes: seq<Node>, i: nat, picked: seq<Node>)
    requires ClusterNodes(nodes) && i < |nodes| && ClusterNodes(picked)
    requires forall k :: 0 <= k < |picked| ==> picked[k] in nodes[..i]
    ensures ClusterNodes(picked + [nodes[i]])
  {
    forall k | 0 <= k < |picked|
      ensures picked[k].name != nodes[i].name
    {
      var j :| 0 <= j < i && nodes[..i][j] == picked[k];
      assert nodes[j].name != nodes[i].name;
    }
  }

  lemma SelectStep(selector: Labels, nodes: seq<Node>, i: nat, picked: seq<Node>, isExist: bool)
    requires ClusterNodes(nodes) && i < |nodes| && ClusterNodes(picked) && Picked(selector, nodes[..i], picked)
    requires isExist ==> !MatchesNone(selector, nodes[i].labels)
    requires !isExist ==> !MatchesAll(selector, nodes[i].labels)
    ensures
      var picked' := if isExist then picked + [nodes[i]] else picked;
      ClusterNodes(picked') && Picked(selector, nodes[..i + 1], picked')
  {
    assert nodes[..i + 1] == nodes[..i] + [nodes[i]];
    PickedAppend(selector, nodes[..i], picked, nodes[i], isExist);
    if isExist {
      ClusterAppend(nodes, i, picked);
    }
  }

  /** The nodes a selector picks, in list order, the selector's keys visited in any order each time. */
  method SelectNodes(selector: Labels, nodes: seq<Node>) returns (picked: seq<Node>)
    requires selector != map[] && ClusterNodes(nodes)
    ensures ClusterNodes(picked) && Picked(selector, nodes, picked)
  {
    picked := [];
    for i := 0 to |nodes|
      invariant ClusterNodes(picked) && Picked(selector, nodes[..i], picked)
    {
      var isExist := Selects(selector, nodes[i].labels);
      SelectStep(selector, nodes, i, picked, isExist);
      if isExist {
        picked := picked + [nodes[i]];
      }
    }
    assert nodes[..|nodes|] == nodes;
  }

  function Names(nodes: seq<Node>): set<string> {
    set i | 0 <= i < |nodes| :: nodes[i].name
  }

  lemma CopyStep(m: map<string, seq<Item>>, m': map<string, seq<Item>>, x: Item, done: set<string>, node: string)
    requires MapIsPlaced(m') && AddedTo(m, m', x, done) && !IsBlank(node) && node !in done
    ensures
      var m'' := m'[node := At(m', node) + [x.(nodeName := Some(node))]];
      MapIsPlaced(m'') && AddedTo(m, m'', x, done + {node})
  {
    AddOne(m', x, node);
    AddedTrans(m, m', m'[node := At(m', node) + [x.(nodeName := Some(node))]], x, done, node);
  }

  lemma NamesStep(picked: seq<Node>, i: nat)
    requires ClusterNodes(picked) && i < |picked|
    ensures picked[i].name !in Names(picked[..i])
    ensures Names(picked[..i + 1]) == Names(picked[..i]) + {picked[i].name}
  {
    assert picked[..i + 1] == picked[..i] + [picked[i]];
  }

  /** A copy of x for each picked node. */
  method CopyToNodes(m: map<string, seq<Item>>, x: Item, picked: seq<Node>) returns (m': map<string, seq<Item>>)
    requires MapIsPlaced(m) && ClusterNodes(picked)
    ensures MapIsPlaced(m') && AddedTo(m, m', x, Names(picked))
  {
    m' := m;
    ghost var done := {};
    for i := 0 to |picked|
      invariant done == Names(picked[..i])
      invariant MapIsPlaced(m') && AddedTo(m, m', x, done)
    {
      var node := picked[i].name;
      NamesStep(picked, i);
      CopyStep(m, m', x, done, node);
      var copyMap := x.(nodeName := Some(node));
      m' := m'[node := At(m', node) + [copyMap]];
      done := done + {node};
    }
    assert picked[..|picked|] == picked;
  }

  predicate Targeted(x: Item) {
    x.nodeName.Some? || x.nodeSelector != map[]
  }

  /** The branches of one turn of the merging loop. */
  method PlaceOne(m: map<string, seq<Item>>, x: Item, nodes: seq<Node>)
    returns (m': map<string, seq<Item>>, ghost targets: set<string>)
    requires MapIsPlaced(m) && ClusterNodes(nodes) && Targeted(x)
    ensures MapIsPlaced(m') && AddedTo(m, m', x, targets)
    ensures forall node :: (MustRun(x, nodes, node) ==> node in targets) && (node in targets ==> MayRun(x, nodes, node))
  {
    if x.nodeName.Some? && !IsBlank(x.nodeName.value) {
      var node := x.nodeName.value;
      AddOne(m, x, node);
      m' := m[node := At(m, node) + [x]];
      targets := {node};
    } else if x.nodeSelector != map[] {
      var picked := SelectNodes(x.nodeSelector, nodes);
      m' := CopyToNodes(m, x, picked);
      targets := Names(picked);
      PickedFits(x, nodes, picked);
    } else {
      m' := m;
      targets := {};
    }
  }

  lemma PickedFits(x: Item, nodes: seq<Node>, picked: seq<Node>)
    requires !Pinned(x) && x.nodeSelector != map[]
    requires Picked(x.nodeSelector, nodes, picked)
    ensures forall node :: MustRun(x, nodes, node) ==> node in Names(picked)
    ensures forall node :: node in Names(picked) ==> MayRun(x, nodes, node)
  {
    forall node | MustRun(x, nodes, node)
      ensures node in Names(picked)
    {
      var i :| 0 <= i < |nodes| && nodes[i].name == node && MatchesAll(x.nodeSelector, nodes[i].labels);
      var k :| 0 <= k < |picked| && picked[k] == nodes[i];
    }
    forall node | node in Names(picked)
      ensures MayRun(x, nodes, node)
    {
      var k :| 0 <= k < |picked| && picked[k].name == node;
      var i :| 0 <= i < |nodes| && nodes[i] == picked[k];
    }
  }

  method MergeOne(m: map<string, seq<Item>>, ghost items: seq<Item>, x: Item, nodes: seq<Node>)
    returns (m': map<string, seq<Item>>)
    requires Merged(m, items, nodes) && DistinctNames(items + [x]) && ClusterNodes(nodes) && Targeted(x)
    ensures Merged(m', items + [x], nodes)
  {
    ghost var targets;
    m', targets := PlaceOne(m, x, nodes);
    MergedAppend(m, m', items, x, nodes, targets);
  }

  lemma DistinctPrefix(items: seq<Item>, i: nat)
    requires DistinctNames(items) && i < |items|
    ensures items[..i + 1] == items[..i] + [items[i]] && DistinctNames(items[..i] + [items[i]])
  {
  }

  method MergeNodeRule(rule: seq<RuleMap>, nodes: seq<Node>) returns (mergeMap: map<string, seq<Item>>)
    requires ClusterNodes(nodes) && DistinctNames(Values(rule))
    requires forall x :: x in Values(rule) ==> Targeted(x)
    ensures Merged(mergeMap, Values(rule), nodes)
  {
    mergeMap := map[];
    ghost var items := Values(rule);
    ValuesAt(rule);
    for i := 0 to |rule|
      invariant Merged(mergeMap, items[..i], nodes)
    {
      DistinctPrefix(items, i);
      var x := rule[i].Value();
      assert x in items;
      mergeMap := MergeOne(mergeMap, items[..i], x, nodes);
    }
    assert items[..|items|] == items;
  }

  // ---------- Allocating one type ----------

  const TARGETED: Item -> bool := (x: Item) => Targeted(x)
  const UNTARGETED: Item -> bool := (x: Item) => !Targeted(x)

  lemma {:induction false} FilterDistinct(p: Item -> bool, items: seq<Item>)
    requires DistinctNames(items)
    ensures DistinctNames(Filter(p, items))
  {
    if items != [] {
      FilterDistinct(p, items[1..]);
      forall x | x in Filter(p, items[1..])
        ensures x.name != items[0].name
      {
        FilterMembers(p, items[1..], x);
      }
    }
  }

  lemma ValuesAppend(ms: seq<RuleMap>, m: RuleMap)
    ensures Values(ms + [m]) == Values(ms) + [m.Value()]
  {
    assert (ms + [m])[..|ms|] == ms;
  }

  method Partition(rule: seq<RuleMap>) returns (nodeData: seq<RuleMap>, filterData: seq<RuleMap>)
    ensures Values(nodeData) == Filter(TARGETED, Values(rule))
    ensures Values(filterData) == Filter(UNTARGETED, Values(rule))
    ensures forall m :: m in filterData ==> m in rule
  {
    nodeData, filterData := [], [];
    for i := 0 to |rule|
      invariant Values(nodeData) == Filter(TARGETED, Values(rule[..i]))
      invariant Values(filterData) == Filter(UNTARGETED, Values(rule[..i]))
      invariant forall m :: m in filterData ==> m in rule
    {
      var m := rule[i];
      assert rule[..i + 1] == rule[..i] + [m];
      ValuesAppend(rule[..i], m);
      FilterAppend(TARGETED, Values(rule[..i]), m.Value());
      FilterAppend(UNTARGETED, Values(rule[..i]), m.Value());
      if m.nodeName.Some? || m.nodeSelector != map[] {
        ValuesAppend(nodeData, m);
        nodeData := nodeData + [m];
      } else {
        ValuesAppend(filterData, m);
        filterData := filterData + [m];
      }
    }
    assert rule[..|rule|] == rule;
  }

  lemma PlacedJobIds(t: RuleType, items: seq<Item>, node: string, other: string)
    requires PlacedOn(JobRule(t, Rules(items)), node)
    ensures IdsOfJob(t, other, JobRule(t, Rules(items))) == if other == node then Ids(items) else multiset{}
  {
    PlacementAgrees(JobRule(t, Rules(items)), node);
  }

  /** The jobs for the merged rules, except for the nodes still to do. */
  ghost predicate RunsMap(jobs: seq<JobRule>, t: RuleType, m: map<string, seq<Item>>, todo: set<string>) {
    AllPlaced(jobs, t) && forall node :: IdsOn(jobs, t, node) == if node in todo then multiset{} else Ids(At(m, node))
  }

  lemma PlacedAppend(jobs: seq<JobRule>, t: RuleType, items: seq<Item>, node: string)
    requires AllPlaced(jobs, t) && PlacedOn(JobRule(t, Rules(items)), node)
    ensures AllPlaced(jobs + [JobRule(t, Rules(items))], t)
  {
  }

  lemma RunsMapAppend(m: map<string, seq<Item>>, t: RuleType, jobs: seq<JobRule>, todo: set<string>, key: string)
    requires MapIsPlaced(m) && key in m && key in todo && RunsMap(jobs, t, m, todo)
    ensures RunsMap(jobs + [JobRule(t, Rules(m[key]))], t, m, todo - {key})
  {
    var job := JobRule(t, Rules(m[key]));
    assert PlacedOn(JobRule(Component, Rules(m[key])), key);
    PlacedAppend(jobs, t, m[key], key);
    forall node
      ensures IdsOn(jobs + [job], t, node) == if node in todo - {key} then multiset{} else Ids(At(m, node))
    {
      IdsOnAppend(jobs, job, t, node);
      PlacedJobIds(t, m[key], key, node);
    }
  }

  /** One job for each node that has rules of its own, in any order. */
  method JobsOfMap(m: map<string, seq<Item>>, t: RuleType) returns (jobs: seq<JobRule>)
    requires MapIsPlaced(m)
    ensures RunsMap(jobs, t, m, {})
  {
    jobs := [];
    var todo := m.Keys;
    NoJobs(m, t);
    while todo != {}
      invariant todo <= m.Keys
      invariant RunsMap(jobs, t, m, todo)
      decreases |todo|
    {
      var key :| key in todo;
      RunsMapAppend(m, t, jobs, todo, key);
      jobs := jobs + [JobRule(t, Rules(m[key]))];
      todo := todo - {key};
    }
  }

  lemma NoJobs(m: map<string, seq<Item>>, t: RuleType)
    ensures RunsMap([], t, m, m.Keys)
  {
  }

  function Rename(node: string): Item -> Item {
    (x: Item) => x.(nodeName := Some(node))
  }

  lemma RenameKeepsIds(items: seq<Item>, node: string)
    ensures Ids(Map(Rename(node), items)) == Ids(items)
  {
    assert Map(IDENT, Map(Rename(node), items)) == Map(IDENT, items);
  }

  /** Rewrites the node name in every shared map. */
  method SetNodeName(ms: seq<RuleMap>, node: string)
    modifies ms
    ensures Values(ms) == Map(Rename(node), old(Values(ms)))
  {
    ValuesAt(ms);
    for i := 0 to |ms|
      invariant forall k :: 0 <= k < i ==> ms[k].nodeName == Some(node)
    {
      ms[i].nodeName := Some(node);
    }
    ValuesAt(ms);
  }

  /** The jobs that run the same rules on each of the nodes. */
  ghost predicate RunsEverywhere(jobs: seq<JobRule>, t: RuleType, nodes: seq<Node>, ids: multiset<Ident>) {
    AllPlaced(jobs, t) && forall node :: IdsOn(jobs, t, node) == if HasNode(nodes, node) then ids else multiset{}
  }

  lemma RunsEverywhereAppend(jobs: seq<JobRule>, t: RuleType, nodes: seq<Node>, i: nat, items: seq<Item>)
    requires ClusterNodes(nodes) && i < |nodes| && items != [] && RunsEverywhere(jobs, t, nodes[..i], Ids(items))
    requires forall x :: x in items ==> x.nodeName == Some(nodes[i].name)
    ensures RunsEverywhere(jobs + [JobRule(t, Rules(items))], t, nodes[..i + 1], Ids(items))
  {
    var job := JobRule(t, Rules(items));
    PlacedAppend(jobs, t, items, nodes[i].name);
    forall node
      ensures IdsOn(jobs + [job], t, node) == if HasNode(nodes[..i + 1], node) then Ids(items) else multiset{}
    {
      IdsOnAppend(jobs, job, t, node);
      PlacedJobIds(t, items, nodes[i].name, node);
      HasNodeStep(nodes, i, node);
    }
  }

  lemma HasNodeStep(nodes: seq<Node>, i: nat, node: string)
    requires ClusterNodes(nodes) && i < |nodes|
    ensures HasNode(nodes[..i + 1], node) <==> HasNode(nodes[..i], node) || node == nodes[i].name
    ensures !HasNode(nodes[..i], nodes[i].name)
  {
    if node == nodes[i].name {
      assert nodes[..i + 1][i].name == node;
    }
    if k :| 0 <= k < i && nodes[..i][k].name == node {
      assert nodes[..i + 1][k].name == node;
    }
  }

  lemma RenamedToOne(items: seq<Item>, node: string)
    ensures forall x :: x in Map(Rename(node), items) ==> x.nodeName == Some(node)
    ensures |Map(Rename(node), items)| == |items|
    ensures Ids(Map(Rename(node), items)) == Ids(items)
  {
    RenameKeepsIds(items, node);
  }

  /** Renames the shared maps and takes a snapshot of them. */
  method Snapshot(ms: seq<RuleMap>, node: string) returns (items: seq<Item>)
    modifies ms
    ensures items == Values(ms) && |items| == |ms| && Ids(items) == Ids(old(Values(ms)))
    ensures forall x :: x in items ==> x.nodeName == Some(node)
  {
    ValuesAt(ms);
    RenamedToOne(Values(ms), node);
    SetNodeName(ms, node);
    items := Values(ms);
  }

  lemma RunsNowhere(t: RuleType, nodes: seq<Node>, ids: multiset<Ident>)
    requires nodes == [] || ids == multiset{}
    ensures RunsEverywhere([], t, nodes, ids)
  {
    forall node
      ensures IdsOn([], t, node) == multiset{}
    {
      NoJobsRunNothing(t, node);
    }
  }

  lemma NoJobsRunNothing(t: RuleType, node: string)
    ensures IdsOn([], t, node) == multiset{}
  {
  }

  lemma NoRules(ms: seq<RuleMap>)
    requires ms == []
    ensures Ids(Values(ms)) == multiset{}
  {
  }

  /** One job a node for the rules that go everywhere: the same maps, renamed before each snapshot. */
  method JobsForAllNodes(ms: seq<RuleMap>, nodes: seq<Node>, t: RuleType) returns (jobs: seq<JobRule>)
    requires ClusterNodes(nodes)
    modifies ms
    ensures RunsEverywhere(jobs, t, nodes, Ids(old(Values(ms))))
  {
    jobs := [];
    if |ms| == 0 {
      NoRules(ms);
      RunsNowhere(t, nodes, Ids(Values(ms)));
    } else {
      ghost var ids := Ids(Values(ms));
      RunsNowhere(t, nodes[..0], ids);
      for i := 0 to |nodes|
        invariant Ids(Values(ms)) == ids
        invariant RunsEverywhere(jobs, t, nodes[..i], ids)
      {
        var items := Snapshot(ms, nodes[i].name);
        RunsEverywhereAppend(jobs, t, nodes, i, items);
        jobs := jobs + [JobRule(t, Rules(items))];
      }
      assert nodes[..|nodes|] == nodes;
    }
  }

  lemma OtherPartHasNot(p: Item -> bool, items: seq<Item>, i: nat)
    requires DistinctNames(items) && i < |items| && !p(items[i])
    ensures IDENT(items[i]) !in Ids(Filter(p, items))
  {
    var part := Filter(p, items);
    InIds(part, IDENT(items[i]));
    forall k | 0 <= k < |part|
      ensures part[k].name != items[i].name
    {
      FilterMembers(p, items, part[k]);
      var j :| 0 <= j < |items| && items[j] == part[k];
      assert j != i;
    }
  }

  lemma OwnPartHas(p: Item -> bool, items: seq<Item>, i: nat) returns (k: nat)
    requires DistinctNames(items) && i < |items| && p(items[i])
    ensures k < |Filter(p, items)| && Filter(p, items)[k] == items[i] && Ids(Filter(p, items))[IDENT(items[i])] == 1
  {
    FilterMembers(p, items, items[i]);
    k :| 0 <= k < |Filter(p, items)| && Filter(p, items)[k] == items[i];
    FilterDistinct(p, items);
    IdsOfDistinct(Filter(p, items), k);
  }

  /** What the jobs of both parts run on a node. */
  function PartsOn(m: map<string, seq<Item>>, items: seq<Item>, nodes: seq<Node>, node: string): multiset<Ident> {
    Ids(At(m, node)) + (if HasNode(nodes, node) then Ids(Filter(UNTARGETED, items)) else multiset{})
  }

  lemma CountsOfParts(m: map<string, seq<Item>>, items: seq<Item>, nodes: seq<Node>, i: nat, node: string)
    requires DistinctNames(items) && i < |items| && Merged(m, Filter(TARGETED, items), nodes)
    ensures CountFits(items[i], nodes, node, PartsOn(m, items, nodes, node)[IDENT(items[i])])
  {
    if Targeted(items[i]) {
      var k := OwnPartHas(TARGETED, items, i);
      OtherPartHasNot(UNTARGETED, items, i);
      assert CountFits(Filter(TARGETED, items)[k], nodes, node, Ids(At(m, node))[IDENT(items[i])]);
    } else {
      var k := OwnPartHas(UNTARGETED, items, i);
      OtherPartHasNot(TARGETED, items, i);
      MergedHasOnlyItems(m, Filter(TARGETED, items), nodes, node, IDENT(items[i]));
    }
  }

  lemma MergedHasOnlyItems(m: map<string, seq<Item>>, items: seq<Item>, nodes: seq<Node>, node: string, id: Ident)
    requires Merged(m, items, nodes)
    ensures id in Ids(At(m, node)) ==> id in Ids(items)
  {
    InIds(items, id);
  }

  lemma {:induction false} PartsAreItems(m: map<string, seq<Item>>, items: seq<Item>, nodes: seq<Node>, node: string,
                                         id: Ident)
    requires Merged(m, Filter(TARGETED, items), nodes) && id in PartsOn(m, items, nodes, node)
    ensures exists i :: 0 <= i < |items| && IDENT(items[i]) == id
  {
    MergedHasOnlyItems(m, Filter(TARGETED, items), nodes, node, id);
    if id in Ids(Filter(TARGETED, items)) {
      PartIsItems(TARGETED, items, id);
    } else {
      PartIsItems(UNTARGETED, items, id);
    }
  }

  lemma PartIsItems(p: Item -> bool, items: seq<Item>, id: Ident)
    requires id in Ids(Filter(p, items))
    ensures exists i :: 0 <= i < |items| && IDENT(items[i]) == id
  {
    InIds(Filter(p, items), id);
    var k :| 0 <= k < |Filter(p, items)| && IDENT(Filter(p, items)[k]) == id;
    FilterMembers(p, items, Filter(p, items)[k]);
    var i :| 0 <= i < |items| && items[i] == Filter(p, items)[k];
  }

  lemma TargetedOnly(items: seq<Item>)
    requires DistinctNames(items)
    ensures DistinctNames(Filter(TARGETED, items)) && forall x :: x in Filter(TARGETED, items) ==> Targeted(x)
  {
    FilterDistinct(TARGETED, items);
    forall x | x in Filter(TARGETED, items)
      ensures Targeted(x)
    {
      FilterMembers(TARGETED, items, x);
    }
  }

  lemma JoinParts(jobs: seq<JobRule>, more: seq<JobRule>, t: RuleType, items: seq<Item>, nodes: seq<Node>,
                  m: map<string, seq<Item>>)
    requires RunsMap(jobs, t, m, {}) && RunsEverywhere(more, t, nodes, Ids(Filter(UNTARGETED, items)))
    ensures AllPlaced(jobs + more, t)
    ensures forall node :: IdsOn(jobs + more, t, node) == PartsOn(m, items, nodes, node)
  {
    forall node
      ensures IdsOn(jobs + more, t, node) == PartsOn(m, items, nodes, node)
    {
      IdsOnConcat(jobs, more, t, node);
    }
  }

  lemma AllocatedFromParts(jobs: seq<JobRule>, more: seq<JobRule>, t: RuleType, items: seq<Item>, nodes: seq<Node>,
                           m: map<string, seq<Item>>)
    requires DistinctNames(items) && Merged(m, Filter(TARGETED, items), nodes)
    requires RunsMap(jobs, t, m, {}) && RunsEverywhere(more, t, nodes, Ids(Filter(UNTARGETED, items)))
    ensures Allocated(jobs + more, t, items, nodes)
  {
    JoinParts(jobs, more, t, items, nodes, m);
    forall i, node | 0 <= i < |items|
      ensures CountFits(items[i], nodes, node, IdsOn(jobs + more, t, node)[IDENT(items[i])])
    {
      CountsOfParts(m, items, nodes, i, node);
    }
    forall node, id | id in IdsOn(jobs + more, t, node)
      ensures exists i :: 0 <= i < |items| && IDENT(items[i]) == id
    {
      PartsAreItems(m, items, nodes, node, id);
    }
  }

  /** The jobs for the rules that name or select nodes. */
  method JobsForNodes(nodeData: seq<RuleMap>, nodes: seq<Node>, t: RuleType, ghost items: seq<Item>)
    returns (jobs: seq<JobRule>, ghost mergeMap: map<string, seq<Item>>)
    requires ClusterNodes(nodes) && DistinctNames(items) && Values(nodeData) == Filter(TARGETED, items)
    ensures Merged(mergeMap, Filter(TARGETED, items), nodes) && RunsMap(jobs, t, mergeMap, {})
  {
    TargetedOnly(items);
    var merged := MergeNodeRule(nodeData, nodes);
    mergeMap := merged;
    jobs := JobsOfMap(merged, t);
  }

  /** The allocation of one node-scoped type, its rules already free of duplicate names. */
  method AllocationRule(rule: seq<RuleMap>, nodes: seq<Node>, t: RuleType) returns (jobs: seq<JobRule>)
    requires ClusterNodes(nodes) && DistinctNames(Values(rule))
    modifies rule
    ensures Allocated(jobs, t, old(Values(rule)), nodes)
    ensures forall j :: 0 <= j < |jobs| ==>
      && jobs[j].ruleType == t && jobs[j].runRule.Rules? && jobs[j].runRule.items != []
      && jobs[j].runRule.items[0].nodeName.Some? && !IsBlank(jobs[j].runRule.items[0].nodeName.value)
      && forall x :: x in jobs[j].runRule.items ==> x.nodeName == jobs[j].runRule.items[0].nodeName
  {
    ghost var items := Values(rule);
    var nodeData, filterData := Partition(rule);
    var own, mergeMap := JobsForNodes(nodeData, nodes, t, items);
    assert forall i :: 0 <= i < |filterData| ==> filterData[i] in rule;
    var shared := JobsForAllNodes(filterData, nodes, t);
    AllocatedFromParts(own, shared, t, items, nodes, mergeMap);
    jobs := own + shared;
    PlacedIs(jobs, t);
  }

  lemma PlacedIs(jobs: seq<JobRule>, t: RuleType)
    requires AllPlaced(jobs, t)
    ensures forall j :: 0 <= j < |jobs| ==>
      && jobs[j].ruleType == t && jobs[j].runRule.Rules? && jobs[j].runRule.items != []
      && jobs[j].runRule.items[0].nodeName.Some? && !IsBlank(jobs[j].runRule.items[0].nodeName.value)
      && forall x :: x in jobs[j].runRule.items ==> x.nodeName == jobs[j].runRule.items[0].nodeName
  {
    forall j | 0 <= j < |jobs|
      ensures exists node :: PlacedOn(jobs[j], node) && jobs[j].runRule.items[0] in jobs[j].runRule.items
    {
      var node :| PlacedOn(jobs[j], node);
    }
  }
}
