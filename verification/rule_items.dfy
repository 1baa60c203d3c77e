/**
 Rule items as they look after the JSON round trips of the rule pipeline, keeping the first item of
 each name, and where an item is meant to run.
 */
module RuleItems {
  import opened Wrappers
  import opened Sequences

  type Labels = map<string, string>

  datatype Node = Node(name: string, labels: Labels)

  /**
   One rule.  An absent name is empty; an empty selector is the same as an absent one, as both are
   dropped by `omitempty`; a node name that was set to the empty string stays present.
   */
  datatype Item = Item(name: string, nodeName: Option<string>, nodeSelector: Labels, body: string)

  // ---------- Keeping the first item of each name ----------

  predicate HasName(s: seq<Item>, name: string) {
    exists i :: 0 <= i < |s| && s[i].name == name
  }

  /** Appends an item unless its name is already there. */
  function Adjoin(s: seq<Item>, x: Item): seq<Item> {
    if HasName(s, x.name) then s else s + [x]
  }

  function Dedup(s: seq<Item>): seq<Item> {
    if s == [] then [] else Adjoin(Dedup(s[..|s| - 1]), s[|s| - 1])
  }

  method RuleArrayDeduplication(s: seq<Item>) returns (kept: seq<Item>)
    ensures kept == Dedup(s)
  {
    kept := [];
    for i := 0 to |s|
      invariant kept == Dedup(s[..i])
    {
      var name := s[i].name;
      var found := ArrayFinds(kept, (m: Item) => m.name == name);
      assert s[..i + 1][..i] == s[..i];
      if found.None? {
        assert forall k :: 0 <= k < |kept| ==> kept[k] in kept;
        kept := kept + [s[i]];
      } else {
        assert kept[found.value.0].name == name;
      }
    }
    assert s[..|s|] == s;
  }

  predicate DistinctNames(s: seq<Item>) {
    forall i, j :: 0 <= i < j < |s| ==> s[i].name != s[j].name
  }

  /** x is the first item of its name in s. */
  predicate IsFirst(s: seq<Item>, x: Item) {
    exists i :: 0 <= i < |s| && s[i] == x && forall j :: 0 <= j < i ==> s[j].name != x.name
  }

  /** The position of the first item with a name, or the length of the list. */
  function FirstIndex(s: seq<Item>, name: string): (i: nat)
    ensures i <= |s| && (forall j :: 0 <= j < i ==> s[j].name != name) && (i < |s| ==> s[i].name == name)
  {
    if s == [] || s[0].name == name then 0 else 1 + FirstIndex(s[1..], name)
  }

  lemma {:induction false} FirstIndexPrefix(s: seq<Item>, t: seq<Item>, name: string)
    requires HasName(s, name)
    ensures FirstIndex(s + t, name) == FirstIndex(s, name) < |s|
  {
    assert (s + t)[0] == s[0] && (s + t)[1..] == s[1..] + t;
    if s[0].name != name {
      var i :| 0 <= i < |s| && s[i].name == name;
      assert s[1..][i - 1].name == name;
      FirstIndexPrefix(s[1..], t, name);
    }
  }

  /** Deduplication keeps every name, and keeps the names in order of first appearance. */
  lemma {:induction false} DedupIsOrdered(s: seq<Item>)
    ensures DistinctNames(Dedup(s))
    ensures forall name :: HasName(Dedup(s), name) <==> HasName(s, name)
    ensures forall a, b :: 0 <= a < b < |Dedup(s)| ==> FirstIndex(s, Dedup(s)[a].name) < FirstIndex(s, Dedup(s)[b].name)
  {
    if s != [] {
      var init, x := s[..|s| - 1], s[|s| - 1];
      assert s == init + [x];
      DedupIsOrdered(init);
      var d := Dedup(init);
      forall name
        ensures HasName(Dedup(s), name) <==> HasName(s, name)
      {
        NamesOfAppend(d, x, name);
        NamesOfAppend(init, x, name);
      }
      forall a | 0 <= a < |d|
        ensures FirstIndex(s, d[a].name) == FirstIndex(init, d[a].name) < |init|
      {
        assert HasName(d, d[a].name);
        FirstIndexPrefix(init, [x], d[a].name);
      }
      if !HasName(d, x.name) {
        assert !HasName(init, x.name);
        assert FirstIndex(s, x.name) == |init|;
      }
    }
  }

  lemma NamesOfAppend(s: seq<Item>, x: Item, name: string)
    ensures HasName(s + [x], name) <==> HasName(s, name) || x.name == name
    ensures HasName(Adjoin(s, x), name) <==> HasName(s, name) || x.name == name
  {
    if HasName(s, name) {
      var i :| 0 <= i < |s| && s[i].name == name;
      assert (s + [x])[i].name == name;
    }
    if x.name == name {
      assert (s + [x])[|s|].name == name;
    }
  }

  lemma IsFirstAppend(init: seq<Item>, last: Item, x: Item)
    ensures IsFirst(init + [last], x) <==> IsFirst(init, x) || (x == last && !HasName(init, x.name))
  {
    var s := init + [last];
    assert forall j :: 0 <= j < |init| ==> s[j] == init[j];
    if x == last && !HasName(init, x.name) {
      assert s[|init|] == x && forall j :: 0 <= j < |init| ==> s[j].name != x.name;
    }
    if i :| 0 <= i < |s| && s[i] == x && forall j :: 0 <= j < i ==> s[j].name != x.name {
      if i < |init| {
        assert init[i] == x && forall j :: 0 <= j < i ==> init[j].name != x.name;
      } else {
        assert !HasName(init, x.name);
      }
    }
    if i :| 0 <= i < |init| && init[i] == x && forall j :: 0 <= j < i ==> init[j].name != x.name {
      assert s[i] == x && forall j :: 0 <= j < i ==> s[j].name != x.name;
    }
  }

  /** What is kept is exactly the first item of each name. */
  lemma {:induction false} DedupKeepsFirst(s: seq<Item>, x: Item)
    ensures x in Dedup(s) <==> IsFirst(s, x)
  {
    if s != [] {
      var init, last := s[..|s| - 1], s[|s| - 1];
      assert s == init + [last];
      DedupKeepsFirst(init, x);
      DedupIsOrdered(init);
      IsFirstAppend(init, last, x);
      assert HasName(Dedup(init), last.name) <==> HasName(init, last.name);
    }
  }

  /** Merging rule by rule is merging all rules at once. */
  lemma {:induction false} DedupIncremental(a: seq<Item>, b: seq<Item>)
    ensures Dedup(Dedup(a) + b) == Dedup(a + b)
  {
    if b == [] {
      assert Dedup(a) + b == Dedup(a) && a + b == a;
      DedupIdempotent(Dedup(a), a);
    } else {
      var init, x := b[..|b| - 1], b[|b| - 1];
      DedupIncremental(a, init);
      assert (Dedup(a) + b)[..|Dedup(a) + b| - 1] == Dedup(a) + init;
      assert (a + b)[..|a + b| - 1] == a + init;
    }
  }

  lemma {:induction false} DedupDistinct(s: seq<Item>)
    requires DistinctNames(s)
    ensures Dedup(s) == s
  {
    if s != [] {
      var init, last := s[..|s| - 1], s[|s| - 1];
      DedupDistinct(init);
      assert !HasName(init, last.name);
      assert s == init + [last];
    }
  }

  lemma DedupIdempotent(d: seq<Item>, a: seq<Item>)
    requires d == Dedup(a)
    ensures Dedup(d) == d
  {
    DedupIsOrdered(a);
    DedupDistinct(d);
  }

  // ---------- Which nodes an item runs on ----------

  /** strings.TrimSpace leaves nothing. */
  predicate IsSpace(c: char) {
    var u := c as int;
    0x09 <= u <= 0x0d || u == 0x20 || u == 0x85 || u == 0xa0 || u == 0x1680 || 0x2000 <= u <= 0x200a
    || u == 0x2028 || u == 0x2029 || u == 0x202f || u == 0x205f || u == 0x3000
  }

  predicate IsBlank(s: string) {
    forall i :: 0 <= i < |s| ==> IsSpace(s[i])
  }

  /** A missing label reads as the empty string. */
  function LabelOf(labels: Labels, key: string): string {
    if key in labels then labels[key] else ""
  }

  predicate MatchesAll(selector: Labels, labels: Labels) {
    forall k :: k in selector ==> LabelOf(labels, k) == selector[k]
  }

  predicate MatchesNone(selector: Labels, labels: Labels) {
    forall k :: k in selector ==> LabelOf(labels, k) != selector[k]
  }

  predicate Pinned(x: Item) {
    x.nodeName.Some? && !IsBlank(x.nodeName.value)
  }

  predicate HasNode(nodes: seq<Node>, name: string) {
    exists i :: 0 <= i < |nodes| && nodes[i].name == name
  }

  /** The item runs on the node in whatever order map keys come. */
  ghost predicate MustRun(x: Item, nodes: seq<Node>, name: string) {
    if Pinned(x) then name == x.nodeName.value
    else if x.nodeSelector != map[] then
      exists i :: 0 <= i < |nodes| && nodes[i].name == name && MatchesAll(x.nodeSelector, nodes[i].labels)
    else x.nodeName.None? && HasNode(nodes, name)
  }

  /** The item runs on the node in some order of map keys. */
  ghost predicate MayRun(x: Item, nodes: seq<Node>, name: string) {
    if Pinned(x) then name == x.nodeName.value
    else if x.nodeSelector != map[] then
      exists i :: 0 <= i < |nodes| && nodes[i].name == name && !MatchesNone(x.nodeSelector, nodes[i].labels)
    else x.nodeName.None? && HasNode(nodes, name)
  }

  /** Where the item is meant to run: on its node, on the nodes its whole selector matches, or on all. */
  ghost predicate MeantFor(x: Item, nodes: seq<Node>, name: string) {
    if Pinned(x) then name == x.nodeName.value
    else if x.nodeSelector != map[] then
      exists i :: 0 <= i < |nodes| && nodes[i].name == name && MatchesAll(x.nodeSelector, nodes[i].labels)
    else HasNode(nodes, name)
  }

  /** A count of runs that agrees with MustRun and MayRun. */
  ghost predicate CountFits(x: Item, nodes: seq<Node>, name: string, count: nat) {
    && count <= 1
    && (MustRun(x, nodes, name) ==> count == 1)
    && (count == 1 ==> MayRun(x, nodes, name))
  }

  /** Kubernetes node names are distinct and not blank. */
  predicate ClusterNodes(nodes: seq<Node>) {
    && (forall i, j :: 0 <= i < j < |nodes| ==> nodes[i].name != nodes[j].name)
    && (forall i :: 0 <= i < |nodes| ==> !IsBlank(nodes[i].name))
  }

  /**
   An item is placed unambiguously when its selector matches each node wholly or not at all, and,
   with a node name that is present but blank, when it has a selector or there is no node.
   */
  ghost predicate Unambiguous(x: Item, nodes: seq<Node>) {
    Pinned(x)
    || (x.nodeSelector != map[]
        && forall i :: 0 <= i < |nodes| ==>
          MatchesAll(x.nodeSelector, nodes[i].labels) || MatchesNone(x.nodeSelector, nodes[i].labels))
    || (x.nodeSelector == map[] && (x.nodeName.None? || nodes == []))
  }

  /** Items run exactly where they are meant to, whatever the map order, if and only if they are unambiguous. */
  lemma MeaningKeptIff(x: Item, nodes: seq<Node>)
    requires ClusterNodes(nodes)
    ensures Unambiguous(x, nodes)
       <==> forall name, count :: CountFits(x, nodes, name, count) ==> (count == 1 <==> MeantFor(x, nodes, name))
  {
    if Unambiguous(x, nodes) {
      UnambiguousIsExact(x, nodes);
    } else if x.nodeSelector != map[] {
      var i :| 0 <= i < |nodes| && !MatchesAll(x.nodeSelector, nodes[i].labels)
        && !MatchesNone(x.nodeSelector, nodes[i].labels);
      assert CountFits(x, nodes, nodes[i].name, 1) && !MeantFor(x, nodes, nodes[i].name);
    } else {
      assert CountFits(x, nodes, nodes[0].name, 0) && MeantFor(x, nodes, nodes[0].name);
    }
  }

  lemma UnambiguousIsExact(x: Item, nodes: seq<Node>)
    requires ClusterNodes(nodes) && Unambiguous(x, nodes)
    ensures forall name, count :: CountFits(x, nodes, name, count) ==> (count == 1 <==> MeantFor(x, nodes, name))
  {
    forall name, count | CountFits(x, nodes, name, count)
      ensures count == 1 <==> MeantFor(x, nodes, name)
    {
      if !Pinned(x) && x.nodeSelector != map[] && MayRun(x, nodes, name) {
        var i :| 0 <= i < |nodes| && nodes[i].name == name && !MatchesNone(x.nodeSelector, nodes[i].labels);
        assert MatchesAll(x.nodeSelector, nodes[i].labels);
      }
    }
  }

  // ---------- The selector loop over an unordered map ----------

  /** The loop's last assignment wins: `isExist` after visiting the selector's keys in a given order. */
  function SelectInOrder(order: seq<string>, selector: Labels, labels: Labels): bool
    requires forall k :: k in order ==> k in selector
  {
    order != [] && LabelOf(labels, order[|order| - 1]) == selector[order[|order| - 1]]
  }

  ghost predicate IsKeyOrder(order: seq<string>, selector: Labels) {
    Distinct(order) && forall k :: k in order <==> k in selector
  }

  lemma {:induction false} SomeOrder(keys: set<string>) returns (order: seq<string>)
    ensures Distinct(order) && forall k :: k in order <==> k in keys
    decreases |keys|
  {
    if keys == {} {
      order := [];
    } else {
      var k :| k in keys;
      var rest := SomeOrder(keys - {k});
      order := rest + [k];
    }
  }

  /**
   Some order selects a node exactly when some key matches, and some order rejects it exactly when some key does
   not.
   */
  lemma SelectionIsAmbiguousIff(selector: Labels, labels: Labels)
    requires selector != map[]
    ensures !MatchesNone(selector, labels)
      <==> exists order :: IsKeyOrder(order, selector) && SelectInOrder(order, selector, labels)
    ensures !MatchesAll(selector, labels)
      <==> exists order :: IsKeyOrder(order, selector) && !SelectInOrder(order, selector, labels)
  {
    if !MatchesNone(selector, labels) {
      var k :| k in selector && LabelOf(labels, k) == selector[k];
      var order := OrderEndingIn(selector, k);
      assert SelectInOrder(order, selector, labels);
    }
    if !MatchesAll(selector, labels) {
      var k :| k in selector && LabelOf(labels, k) != selector[k];
      var order := OrderEndingIn(selector, k);
      assert !SelectInOrder(order, selector, labels);
    }
    if order :| IsKeyOrder(order, selector) && !SelectInOrder(order, selector, labels) {
      var k :| k in selector;
      assert k in order;
      assert order[|order| - 1] in order;
    }
  }

  lemma OrderEndingIn(selector: Labels, k: string) returns (order: seq<string>)
    requires k in selector
    ensures IsKeyOrder(order, selector) && order != [] && order[|order| - 1] == k
  {
    var rest := SomeOrder(selector.Keys - {k});
    order := rest + [k];
  }

  /** The selector loop of the source, its keys in any order: what it answers is what some order gives. */
  method Selects(selector: Labels, labels: Labels) returns (isExist: bool)
    ensures exists order :: IsKeyOrder(order, selector) && isExist == SelectInOrder(order, selector, labels)
    ensures isExist ==> !MatchesNone(selector, labels)
    ensures !isExist && selector != map[] ==> !MatchesAll(selector, labels)
  {
    isExist := false;
    var todo := selector.Keys;
    ghost var order: seq<string> := [];
    while todo != {}
      invariant todo <= selector.Keys
      invariant Distinct(order) && forall k :: k in order <==> k in selector && k !in todo
      invariant isExist == SelectInOrder(order, selector, labels)
      decreases |todo|
    {
      var k :| k in todo;
      isExist := LabelOf(labels, k) == selector[k];
      todo := todo - {k};
      order := order + [k];
    }
    SelectedMatches(order, selector, labels);
  }

  lemma SelectedMatches(order: seq<string>, selector: Labels, labels: Labels)
    requires IsKeyOrder(order, selector)
    ensures SelectInOrder(order, selector, labels) ==> !MatchesNone(selector, labels)
    ensures !SelectInOrder(order, selector, labels) && selector != map[] ==> !MatchesAll(selector, labels)
  {
    if selector != map[] {
      var k :| k in selector;
      assert k in order;
      assert order[|order| - 1] in order;
    }
  }

  // ---------- One order of the selector's keys a node ----------

  /** An order of the selector's keys for each node. */
  ghost predicate IsFamily(orders: seq<seq<string>>, x: Item, nodes: seq<Node>) {
    |orders| == |nodes| && forall i :: 0 <= i < |orders| ==> IsKeyOrder(orders[i], x.nodeSelector)
  }

  /** Whether the selector loops, run in these orders, place the item on a node. */
  ghost predicate RunsIn(x: Item, nodes: seq<Node>, orders: seq<seq<string>>, name: string)
    requires IsFamily(orders, x, nodes)
  {
    if Pinned(x) then name == x.nodeName.value
    else if x.nodeSelector != map[] then
      exists i :: 0 <= i < |nodes| && nodes[i].name == name && SelectInOrder(orders[i], x.nodeSelector, nodes[i].labels)
    else x.nodeName.None? && HasNode(nodes, name)
  }

  /** Every family of orders places an item within the bounds that hold for all of them. */
  lemma FamilyFits(x: Item, nodes: seq<Node>, orders: seq<seq<string>>, name: string)
    requires ClusterNodes(nodes) && IsFamily(orders, x, nodes)
    ensures CountFits(x, nodes, name, if RunsIn(x, nodes, orders, name) then 1 else 0)
  {
    forall i | 0 <= i < |nodes|
      ensures SelectInOrder(orders[i], x.nodeSelector, nodes[i].labels) ==>
        !MatchesNone(x.nodeSelector, nodes[i].labels)
      ensures x.nodeSelector != map[] && !SelectInOrder(orders[i], x.nodeSelector, nodes[i].labels) ==>
                !MatchesAll(x.nodeSelector, nodes[i].labels)
    {
      SelectedMatches(orders[i], x.nodeSelector, nodes[i].labels);
    }
  }

  /** A node that matches some keys but not all gets the item when a matching key comes last. */
  lemma StrayFamily(x: Item, nodes: seq<Node>, i: nat) returns (orders: seq<seq<string>>)
    requires ClusterNodes(nodes) && !Pinned(x) && x.nodeSelector != map[] && i < |nodes|
    requires !MatchesAll(x.nodeSelector, nodes[i].labels) && !MatchesNone(x.nodeSelector, nodes[i].labels)
    ensures IsFamily(orders, x, nodes)
    ensures RunsIn(x, nodes, orders, nodes[i].name) && !MeantFor(x, nodes, nodes[i].name)
  {
    var k :| k in x.nodeSelector && LabelOf(nodes[i].labels, k) == x.nodeSelector[k];
    var order := OrderEndingIn(x.nodeSelector, k);
    orders := seq(|nodes|, _ => order);
    assert SelectInOrder(orders[i], x.nodeSelector, nodes[i].labels);
  }

  /**
   Whatever orders the selector loops take, an item runs exactly where it is meant to, if and only if it
   is unambiguous; otherwise some orders place it on a node it is not meant for, or it runs nowhere.
   */
  lemma RunsMeantIff(x: Item, nodes: seq<Node>)
    requires ClusterNodes(nodes)
    ensures Unambiguous(x, nodes)
       <==> forall orders, name :: IsFamily(orders, x, nodes) ==>
         (RunsIn(x, nodes, orders, name) <==> MeantFor(x, nodes, name))
  {
    if Unambiguous(x, nodes) {
      forall orders, name | IsFamily(orders, x, nodes)
        ensures RunsIn(x, nodes, orders, name) <==> MeantFor(x, nodes, name)
      {
        FamilyFits(x, nodes, orders, name);
        UnambiguousIsExact(x, nodes);
      }
    } else if x.nodeSelector != map[] {
      var i :| 0 <= i < |nodes| && !MatchesAll(x.nodeSelector, nodes[i].labels)
        && !MatchesNone(x.nodeSelector, nodes[i].labels);
      var orders := StrayFamily(x, nodes, i);
    } else {
      var orders: seq<seq<string>> := seq(|nodes|, _ => []);
      assert IsFamily(orders, x, nodes);
      assert !RunsIn(x, nodes, orders, nodes[0].name) && MeantFor(x, nodes, nodes[0].name);
    }
  }
}
