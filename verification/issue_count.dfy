/** Counting the issues of an inspection result by level, through counters shared in one map. */
module IssueCount {
  import opened Wrappers
  import opened Sequences
  import opened Totals

  datatype BaseResult = BaseResult(asserted: bool, level: string)

  datatype FileChangeResult = FileChangeResult(base: BaseResult, issues: seq<string>)

  datatype OpaResult = OpaResult(dangerous: int, warning: int, ignored: int)

  datatype Result = Result(
    opa: OpaResult, fileChange: seq<FileChangeResult>, fileFilter: seq<FileChangeResult>, sysctl: seq<BaseResult>,
    systemd: seq<BaseResult>, nodeInfo: seq<BaseResult>, prometheus: seq<BaseResult>, serviceConnect: seq<BaseResult>,
    component: seq<BaseResult>, command: seq<BaseResult>)

  /** An item as a map: empty fields are left out. */
  datatype Fields = Fields(asserted: bool, level: Option<string>, issues: Option<seq<string>>)

  function NonEmpty<T(==)>(s: seq<T>): Option<seq<T>> {
    if s == [] then None else Some(s)
  }

  const BASE: BaseResult -> Fields := (b: BaseResult) => Fields(b.asserted, NonEmpty(b.level), None)

  const FILE: FileChangeResult -> Fields := (f: FileChangeResult) => Fields(f.base.asserted, NonEmpty(f.base.level),
    NonEmpty(f.issues))

  type Counts = map<string, int>

  function Get(m: Counts, level: string): int {
    if level in m then m[level] else 0
  }

  function Bump(m: Counts, level: string, n: nat): Counts {
    if n == 0 then m else m[level := Get(m, level) + n]
  }

  lemma BumpNext(m: Counts, level: string, n: nat)
    ensures Bump(Bump(m, level, n), level, 1) == Bump(m, level, n + 1)
  {
  }

  function LevelOf(f: Fields): string {
    if f.level.Some? then f.level.value else "danger"
  }

  /** How many issues an item stands for. */
  function Worth(f: Fields): nat {
    if !f.asserted then 0 else if f.issues.Some? then |f.issues.value| else 1
  }

  function Tally(m: Counts, items: seq<Fields>): Counts {
    if items == [] then m
    else
      var last := items[|items| - 1];
      Bump(Tally(m, items[..|items| - 1]), LevelOf(last), Worth(last))
  }

  class Counter {
    var count: int

    constructor (n: int)
      ensures count == n
    {
      count := n;
    }
  }

  /** One counter for each level met so far. */
  class LevelTotal {
    var counters: map<string, Counter>

    ghost predicate Valid()
      reads this
    {
      forall k, l :: k in counters && l in counters && k != l ==> counters[k] != counters[l]
    }

    ghost function Contents(): Counts
      reads this, counters.Values
    {
      map k | k in counters :: counters[k].count
    }

    constructor (opa: OpaResult)
      ensures Valid() && fresh(counters.Values)
      ensures Contents() == map["danger" := opa.dangerous, "warning" := opa.warning, "ignore" := opa.ignored]
    {
      var danger := new Counter(opa.dangerous);
      var warning := new Counter(opa.warning);
      var ignored := new Counter(opa.ignored);
      counters := map["danger" := danger, "warning" := warning, "ignore" := ignored];
    }

    method Autoincrement(level: string)
      requires Valid()
      modifies this, counters.Values
      ensures Valid() && fresh(counters.Values - old(counters.Values))
      ensures Contents() == Bump(old(Contents()), level, 1)
    {
      if level !in counters {
        var c := new Counter(0);
        counters := counters[level := c];
      }
      var c := counters[level];
      c.count := c.count + 1;
    }

    /** One increment for each issue of an item. */
    method CountItem(m: Fields)
      requires Valid()
      modifies this, counters.Values
      ensures Valid() && fresh(counters.Values - old(counters.Values))
      ensures Contents() == Bump(old(Contents()), LevelOf(m), Worth(m))
    {
      if m.asserted {
        var a, level := if m.issues.Some? then |m.issues.value| else 1, LevelOf(m);
        ghost var before := Contents();
        for i := 0 to a
          invariant Valid() && fresh(counters.Values - old(counters.Values))
          invariant Contents() == Bump(before, level, i)
        {
          BumpNext(before, level, i);
          Autoincrement(level);
        }
      }
    }

    method TotalResultLevel(maps: seq<Fields>)
      requires Valid()
      modifies this, counters.Values
      ensures Valid() && fresh(counters.Values - old(counters.Values))
      ensures Contents() == Tally(old(Contents()), maps)
    {
      for i := 0 to |maps|
        invariant Valid() && fresh(counters.Values - old(counters.Values))
        invariant Contents() == Tally(old(Contents()), maps[..i])
      {
        assert maps[..i + 1][..i] == maps[..i];
        CountItem(maps[i]);
      }
      assert maps[..|maps|] == maps;
    }
  }

  function Opening(opa: OpaResult): Counts {
    map["danger" := opa.dangerous, "warning" := opa.warning, "ignore" := opa.ignored]
  }

  function FileLists(r: Result): seq<seq<FileChangeResult>> {
    [r.fileChange, r.fileFilter]
  }

  function BaseLists(r: Result): seq<seq<BaseResult>> {
    [r.sysctl, r.systemd, r.nodeInfo, r.prometheus, r.serviceConnect, r.component, r.command]
  }

  const FILES: seq<FileChangeResult> -> seq<Fields> := (s: seq<FileChangeResult>) => Map(FILE, s)

  const BASES: seq<BaseResult> -> seq<Fields> := (s: seq<BaseResult>) => Map(BASE, s)

  /** The items of a result, list by list in the order they are counted. */
  function Lists(r: Result): seq<seq<Fields>> {
    Map(FILES, FileLists(r)) + Map(BASES, BaseLists(r))
  }

  /** The counts of a result. */
  function Count(r: Result): Counts {
    TallyLists(Opening(r.opa), Lists(r))
  }

  function TallyLists(m: Counts, lists: seq<seq<Fields>>): Counts
    decreases |lists|
  {
    if lists == [] then m else TallyLists(Tally(m, lists[0]), lists[1..])
  }

  ghost function CountsOf(levels: map<string, Counter?>): Counts
    reads levels.Values
  {
    map k | k in levels && levels[k] != null :: levels[k].count
  }

  /** The counters of a result, or nothing when its file cannot be read. */
  method CountLevelNum(file: Option<Result>) returns (levels: Option<map<string, Counter>>)
    ensures levels.None? <==> file.None?
    ensures file.Some? ==> fresh(levels.value.Values) && CountsOf(levels.value) == Count(file.value)
    ensures file.Some? ==>
      forall level ::
        var r, t := file.value, Some(level);
        (if level in levels.value then levels.value[level].count else 0)
        == (if level == "danger" then r.opa.dangerous
            else if level == "warning" then r.opa.warning
            else if level == "ignore" then r.opa.ignored
            else 0)
           + FileIssues(t, r.fileChange) + FileIssues(t, r.fileFilter) + Asserted(t, r.sysctl)
           + Asserted(t, r.systemd) + Asserted(t, r.nodeInfo) + Asserted(t, r.prometheus)
           + Asserted(t, r.serviceConnect) + Asserted(t, r.component) + Asserted(t, r.command)
  {
    if file.None? {
      return None;
    }
    var lists := Lists(file.value);
    var total := new LevelTotal(file.value.opa);
    for i := 0 to |lists|
      invariant total.Valid() && fresh(total) && fresh(total.counters.Values)
      invariant TallyLists(total.Contents(), lists[i..]) == Count(file.value)
    {
      assert lists[i..][0] == lists[i] && lists[i..][1..] == lists[i + 1..];
      total.TotalResultLevel(lists[i]);
    }
    assert CountsOf(total.counters) == total.Contents();
    forall level
      ensures Get(Count(file.value), level) == if level in total.counters then total.counters[level].count else 0
    {
    }
    CountersAreExact(file.value);
    return Some(total.counters);
  }

  // ---------- Sums ----------

  ghost function SumOf(m: Counts): int
    decreases |m|
  {
    if m == map[] then 0
    else
      var k :| k in m;
      m[k] + SumOf(m - {k})
  }

  /** The sum does not depend on the order in which levels are taken. */
  lemma {:induction false} SumPick(m: Counts, k: string)
    requires k in m
    ensures SumOf(m) == m[k] + SumOf(m - {k})
    decreases |m|
  {
    var p :| p in m && SumOf(m) == m[p] + SumOf(m - {p});
    if p != k {
      SumPick(m - {p}, k);
      SumPick(m - {k}, p);
      assert m - {p} - {k} == m - {k} - {p};
    }
  }

  lemma BumpSum(m: Counts, level: string, n: nat)
    ensures SumOf(Bump(m, level, n)) == SumOf(m) + n
  {
    if n > 0 {
      var m' := Bump(m, level, n);
      SumPick(m', level);
      assert m' - {level} == m - {level};
      if level in m {
        SumPick(m, level);
      } else {
        assert m - {level} == m;
      }
    }
  }

  function Only(m: Counts, keys: set<string>): Counts {
    map k | k in m && k in keys :: m[k]
  }

  lemma SumOnly(m: Counts, keys: set<string>, k: string)
    requires k in keys
    ensures SumOf(Only(m, keys)) == Get(m, k) + SumOf(Only(m, keys - {k}))
  {
    if k in m {
      SumPick(Only(m, keys), k);
      assert Only(m, keys) - {k} == Only(m, keys - {k});
    } else {
      assert Only(m, keys) == Only(m, keys - {k});
    }
  }

  /** The number of issues: all counters added up, in any order; a missing counter adds nothing. */
  method GetIssuesNumber(levels: map<string, Counter?>) returns (n: int)
    ensures n == SumOf(CountsOf(levels))
  {
    n := 0;
    var todo := levels.Keys;
    ghost var counts := CountsOf(levels);
    assert Only(counts, todo) == counts;
    while todo != {}
      invariant todo <= levels.Keys && n + SumOf(Only(counts, todo)) == SumOf(counts)
      decreases |todo|
    {
      var k :| k in todo;
      SumOnly(counts, todo, k);
      var l := levels[k];
      if l != null {
        n := n + l.count;
      }
      todo := todo - {k};
    }
    assert Only(counts, {}) == map[];
  }

  // ---------- Conservation ----------

  const WORTH: Fields -> nat := (f: Fields) => Worth(f)

  function WorthAt(level: string): Fields -> nat {
    (f: Fields) => if LevelOf(f) == level then Worth(f) else 0
  }

  lemma SumLast(f: Fields -> nat, items: seq<Fields>)
    requires items != []
    ensures Sum(Map(f, items)) == Sum(Map(f, items[..|items| - 1])) + f(items[|items| - 1])
  {
    var init, last := items[..|items| - 1], items[|items| - 1];
    assert Map(f, items) == Map(f, init) + [f(last)];
    SumConcat(Map(f, init), [f(last)]);
    assert Sum([f(last)]) == f(last) + Sum([]);
  }

  lemma {:induction false} TallySum(m: Counts, items: seq<Fields>)
    ensures SumOf(Tally(m, items)) == SumOf(m) + Sum(Map(WORTH, items))
  {
    if items != [] {
      var n := |items| - 1;
      TallySum(m, items[..n]);
      BumpSum(Tally(m, items[..n]), LevelOf(items[n]), Worth(items[n]));
      SumLast(WORTH, items);
    }
  }

  lemma {:induction false} TallyAt(m: Counts, items: seq<Fields>, level: string)
    ensures Get(Tally(m, items), level) == Get(m, level) + Sum(Map(WorthAt(level), items))
  {
    if items != [] {
      TallyAt(m, items[..|items| - 1], level);
      SumLast(WorthAt(level), items);
    }
  }

  /** What all items of some lists are worth, by a given measure. */
  function WorthOf(w: Fields -> nat, lists: seq<seq<Fields>>): nat
    decreases |lists|
  {
    if lists == [] then 0 else Sum(Map(w, lists[0])) + WorthOf(w, lists[1..])
  }

  lemma {:induction false} WorthConcat(w: Fields -> nat, a: seq<seq<Fields>>, b: seq<seq<Fields>>)
    ensures WorthOf(w, a + b) == WorthOf(w, a) + WorthOf(w, b)
    decreases |a|
  {
    if a == [] {
      assert a + b == b;
    } else {
      assert (a + b)[1..] == a[1..] + b;
      WorthConcat(w, a[1..], b);
    }
  }

  lemma {:induction false} ListsSum(m: Counts, lists: seq<seq<Fields>>)
    ensures SumOf(TallyLists(m, lists)) == SumOf(m) + WorthOf(WORTH, lists)
    decreases |lists|
  {
    if lists != [] {
      TallySum(m, lists[0]);
      ListsSum(Tally(m, lists[0]), lists[1..]);
    }
  }

  lemma {:induction false} ListsAt(m: Counts, lists: seq<seq<Fields>>, level: string)
    ensures Get(TallyLists(m, lists), level) == Get(m, level) + WorthOf(WorthAt(level), lists)
    decreases |lists|
  {
    if lists != [] {
      TallyAt(m, lists[0], level);
      ListsAt(Tally(m, lists[0]), lists[1..], level);
    }
  }

  /** Whether an item of a level counts towards a level, or towards any; a missing level is danger. */
  predicate Towards(target: Option<string>, level: string) {
    target.None? || target.value == if level == "" then "danger" else level
  }

  /** The asserted items of a list. */
  function Asserted(target: Option<string>, s: seq<BaseResult>): nat {
    |Filter((b: BaseResult) => b.asserted && Towards(target, b.level), s)|
  }

  /** The issues of asserted file items: all those listed, or one for an item that lists none. */
  function FileIssues(target: Option<string>, s: seq<FileChangeResult>): nat {
    Sum(Map(IssuesIn(target), s))
  }

  function IssuesIn(target: Option<string>): FileChangeResult -> nat {
    (f: FileChangeResult) =>
      if f.base.asserted && Towards(target, f.base.level) then if f.issues == [] then 1 else |f.issues| else 0
  }

  function Measure(target: Option<string>): Fields -> nat {
    match target
    case None => WORTH
    case Some(level) => WorthAt(level)
  }

  lemma {:induction false} BaseWorth(target: Option<string>, s: seq<BaseResult>)
    ensures Sum(Map(Measure(target), Map(BASE, s))) == Asserted(target, s)
  {
    if s != [] {
      MapTail(BASE, s);
      MapTail(Measure(target), Map(BASE, s));
      BaseWorth(target, s[1..]);
    }
  }

  lemma {:induction false} FileWorth(target: Option<string>, s: seq<FileChangeResult>)
    ensures Sum(Map(Measure(target), Map(FILE, s))) == FileIssues(target, s)
  {
    if s != [] {
      MapTail(FILE, s);
      MapTail(Measure(target), Map(FILE, s));
      MapTail(IssuesIn(target), s);
      FileWorth(target, s[1..]);
    }
  }

  function AssertedIn(target: Option<string>): seq<BaseResult> -> nat {
    (s: seq<BaseResult>) => Asserted(target, s)
  }

  function FileIssuesIn(target: Option<string>): seq<FileChangeResult> -> nat {
    (s: seq<FileChangeResult>) => FileIssues(target, s)
  }

  lemma {:induction false} BaseListsWorth(target: Option<string>, lists: seq<seq<BaseResult>>)
    ensures WorthOf(Measure(target), Map(BASES, lists)) == Sum(Map(AssertedIn(target), lists))
  {
    if lists != [] {
      MapTail(BASES, lists);
      MapTail(AssertedIn(target), lists);
      BaseWorth(target, lists[0]);
      BaseListsWorth(target, lists[1..]);
    }
  }

  lemma {:induction false} FileListsWorth(target: Option<string>, lists: seq<seq<FileChangeResult>>)
    ensures WorthOf(Measure(target), Map(FILES, lists)) == Sum(Map(FileIssuesIn(target), lists))
  {
    if lists != [] {
      MapTail(FILES, lists);
      MapTail(FileIssuesIn(target), lists);
      FileWorth(target, lists[0]);
      FileListsWorth(target, lists[1..]);
    }
  }

  /** The issues that count towards a level, or all of them, apart from those of the OPA result. */
  function Issues(target: Option<string>, r: Result): nat {
    Sum(Map(FileIssuesIn(target), FileLists(r))) + Sum(Map(AssertedIn(target), BaseLists(r)))
  }

  lemma IssuesWorth(target: Option<string>, r: Result)
    ensures WorthOf(Measure(target), Lists(r)) == Issues(target, r)
  {
    WorthConcat(Measure(target), Map(FILES, FileLists(r)), Map(BASES, BaseLists(r)));
    FileListsWorth(target, FileLists(r));
    BaseListsWorth(target, BaseLists(r));
  }

  /** The nine lists, one by one. */
  lemma IssuesAre(t: Option<string>, r: Result)
    ensures Issues(t, r)
         == FileIssues(t, r.fileChange) + FileIssues(t, r.fileFilter) + Asserted(t, r.sysctl)
            + Asserted(t, r.systemd) + Asserted(t, r.nodeInfo) + Asserted(t, r.prometheus)
            + Asserted(t, r.serviceConnect) + Asserted(t, r.component) + Asserted(t, r.command)
  {
    var files, bases := FileLists(r), BaseLists(r);
    SumTwo(Map(FileIssuesIn(t), files));
    SumSeven(Map(AssertedIn(t), bases));
  }

  lemma SumTwo(s: seq<nat>)
    requires |s| == 2
    ensures Sum(s) == s[0] + s[1]
  {
    assert Sum(s[1..]) == s[1] + Sum(s[1..][1..]);
  }

  lemma SumTail(s: seq<nat>, i: nat)
    requires i < |s|
    ensures Sum(s[i..]) == s[i] + Sum(s[i + 1..])
  {
    assert s[i..][1..] == s[i + 1..];
  }

  lemma SumSeven(s: seq<nat>)
    requires |s| == 7
    ensures Sum(s) == s[0] + s[1] + s[2] + s[3] + s[4] + s[5] + s[6]
  {
    SumTail(s, 0);
    SumTail(s, 1);
    SumTail(s, 2);
    SumTail(s, 3);
    SumTail(s, 4);
    SumTail(s, 5);
    SumTail(s, 6);
    assert s[0..] == s && s[7..] == [];
  }

  /** What the items of one list amount to: items that are not asserted nothing, others all their issues, or one. */
  lemma {:induction false} ListsAre(t: Option<string>, files: seq<FileChangeResult>, bases: seq<BaseResult>)
    ensures files != [] ==>
      var f := files[0];
      var counts := f.base.asserted && (t == None || t == Some(if f.base.level == "" then "danger" else f.base.level));
      FileIssues(t, files)
      == (if !counts then 0 else if f.issues == [] then 1 else |f.issues|) + FileIssues(t, files[1..])
    ensures bases != [] ==>
      var b := bases[0];
      var counts := b.asserted && (t == None || t == Some(if b.level == "" then "danger" else b.level));
      Asserted(t, bases) == (if counts then 1 else 0) + Asserted(t, bases[1..])
    ensures FileIssues(t, []) == 0 && Asserted(t, []) == 0
  {
    if files != [] {
      MapTail(IssuesIn(t), files);
    }
  }

  /** Each level's counter is its OPA count, if it has one, and the issues of that level in the nine lists. */
  lemma LevelIsExact(r: Result, level: string)
    ensures
      var opa := if level == "danger" then r.opa.dangerous
                 else if level == "warning" then r.opa.warning
                 else if level == "ignore" then r.opa.ignored
                 else 0;
      var t := Some(level);
      Get(Count(r), level)
      == opa
         + FileIssues(t, r.fileChange) + FileIssues(t, r.fileFilter) + Asserted(t, r.sysctl)
         + Asserted(t, r.systemd) + Asserted(t, r.nodeInfo) + Asserted(t, r.prometheus)
         + Asserted(t, r.serviceConnect) + Asserted(t, r.component) + Asserted(t, r.command)
  {
    ListsAt(Opening(r.opa), Lists(r), level);
    IssuesWorth(Some(level), r);
    IssuesAre(Some(level), r);
    OpeningAt(r.opa, level);
  }

  lemma CountersAreExact(r: Result)
    ensures forall level ::
      var t := Some(level);
      Get(Count(r), level)
      == (if level == "danger" then r.opa.dangerous
          else if level == "warning" then r.opa.warning
          else if level == "ignore" then r.opa.ignored
          else 0)
         + FileIssues(t, r.fileChange) + FileIssues(t, r.fileFilter) + Asserted(t, r.sysctl)
         + Asserted(t, r.systemd) + Asserted(t, r.nodeInfo) + Asserted(t, r.prometheus)
         + Asserted(t, r.serviceConnect) + Asserted(t, r.component) + Asserted(t, r.command)
  {
    forall level
      ensures
        var t := Some(level);
        Get(Count(r), level)
        == (if level == "danger" then r.opa.dangerous
            else if level == "warning" then r.opa.warning
            else if level == "ignore" then r.opa.ignored
            else 0)
           + FileIssues(t, r.fileChange) + FileIssues(t, r.fileFilter) + Asserted(t, r.sysctl)
           + Asserted(t, r.systemd) + Asserted(t, r.nodeInfo) + Asserted(t, r.prometheus)
           + Asserted(t, r.serviceConnect) + Asserted(t, r.component) + Asserted(t, r.command)
    {
      LevelIsExact(r, level);
    }
  }

  lemma OpeningAt(opa: OpaResult, level: string)
    ensures Get(Opening(opa), level)
         == if level == "danger" then opa.dangerous
            else if level == "warning" then opa.warning
            else if level == "ignore" then opa.ignored
            else 0
  {
  }

  lemma OpeningSum(opa: OpaResult)
    ensures SumOf(Opening(opa)) == opa.dangerous + opa.warning + opa.ignored
  {
    var danger := map["danger" := opa.dangerous];
    var both := danger["warning" := opa.warning];
    assert Opening(opa) == both["ignore" := opa.ignored];
    SumNew(map[], "danger", opa.dangerous);
    SumNew(danger, "warning", opa.warning);
    SumNew(both, "ignore", opa.ignored);
  }

  lemma SumNew(m: Counts, k: string, n: int)
    requires k !in m
    ensures SumOf(m[k := n]) == SumOf(m) + n
  {
    SumPick(m[k := n], k);
    assert m[k := n] - {k} == m;
  }

  /** Nothing is lost or counted twice: all counters add up to the OPA counts and the issues in the nine lists. */
  lemma IssuesAreConserved(r: Result)
    ensures
      var t: Option<string> := None;
      SumOf(Count(r))
      == r.opa.dangerous + r.opa.warning + r.opa.ignored
         + FileIssues(t, r.fileChange) + FileIssues(t, r.fileFilter) + Asserted(t, r.sysctl)
         + Asserted(t, r.systemd) + Asserted(t, r.nodeInfo) + Asserted(t, r.prometheus)
         + Asserted(t, r.serviceConnect) + Asserted(t, r.component) + Asserted(t, r.command)
  {
    OpeningSum(r.opa);
    ListsSum(Opening(r.opa), Lists(r));
    IssuesWorth(None, r);
    IssuesAre(None, r);
  }
}
