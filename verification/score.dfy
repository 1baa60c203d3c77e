/** The score of an inspection: what passed, weighed against what could have passed. */
module Score {
  import opened Wrappers
  import opened Sequences
  import opened Arithmetic

  datatype ScoreInfo = ScoreInfo(score: int, total: int, dangerous: nat, warning: nat, ignored: nat, passing: int)

  /** What the cluster holds, by kind. */
  datatype Resources = Resources(workloads: int, roles: nat, clusterRoles: nat, events: nat, nodes: nat)

  function Total(r: Resources): int {
    r.workloads * 20 + (r.roles + r.clusterRoles) * 3 + r.events + r.nodes + 1
  }

  function Abs(x: int): nat {
    if x < 0 then -x else x
  }

  /** Division that rounds towards zero. */
  function TruncDiv(a: int, b: int): int
    requires b != 0
  {
    if (a < 0) == (b < 0) then Abs(a) / Abs(b) else -(Abs(a) / Abs(b) as int)
  }

  /** Two for each finding-free or dangerous item and one for each warning. */
  function Weight(total: int, danger: nat, warning: nat, ignored: nat): int {
    (total - danger - warning - ignored) * 2 + danger * 2 + warning
  }

  function ScoreOf(total: int, danger: nat, warning: nat, ignored: nat): int
    requires Weight(total, danger, warning, ignored) != 0
  {
    TruncDiv((total - danger - warning - ignored) * 200, Weight(total, danger, warning, ignored))
  }

  function CountOf(level: string, results: seq<seq<string>>): nat {
    multiset(Flatten(results))[level]
  }

  /** Each counter holds the items of its level among those seen. */
  predicate Counted(seen: seq<string>, danger: nat, warning: nat, ignored: nat) {
    && danger == multiset(seen)["danger"] && warning == multiset(seen)["warning"] && ignored == multiset(seen)["ignore"]
  }

  lemma CountOne(seen: seq<string>, l: string, danger: nat, warning: nat, ignored: nat)
    requires Counted(seen, danger, warning, ignored)
    ensures Counted(seen + [l], danger + if l == "danger" then 1 else 0, warning + if l == "warning" then 1 else 0,
                    ignored + if l == "ignore" then 1 else 0)
  {
  }

  lemma SeenOne(before: seq<string>, items: seq<string>, j: nat)
    requires j < |items|
    ensures before + items[..j + 1] == before + items[..j] + [items[j]]
  {
  }

  lemma SeenAll(results: seq<seq<string>>, i: nat)
    requires i < |results|
    ensures Flatten(results[..i]) + results[i][..0] == Flatten(results[..i])
    ensures Flatten(results[..i]) + results[i][..|results[i]|] == Flatten(results[..i + 1])
  {
    assert results[..i + 1] == results[..i] + [results[i]];
    FlattenAppend(results[..i], results[i]);
  }

  method CountLevels(results: seq<seq<string>>) returns (countDanger: nat, countWarning: nat, countIgnore: nat)
    ensures Counted(Flatten(results), countDanger, countWarning, countIgnore)
  {
    countDanger, countWarning, countIgnore := 0, 0, 0;
    for i := 0 to |results|
      invariant Counted(Flatten(results[..i]), countDanger, countWarning, countIgnore)
    {
      SeenAll(results, i);
      for j := 0 to |results[i]|
        invariant Counted(Flatten(results[..i]) + results[i][..j], countDanger, countWarning, countIgnore)
      {
        var level := results[i][j];
        CountOne(Flatten(results[..i]) + results[i][..j], level, countDanger, countWarning, countIgnore);
        SeenOne(Flatten(results[..i]), results[i], j);
        if level == "warning" {
          countWarning := countWarning + 1;
        } else if level == "danger" {
          countDanger := countDanger + 1;
        } else if level == "ignore" {
          countIgnore := countIgnore + 1;
        }
      }
    }
    assert results[..|results|] == results;
  }

  /** The levels of all findings and the size of the cluster, as counts and a score; nothing on a division by zero. */
  method CalculateScore(results: seq<seq<string>>, resources: Resources) returns (info: Option<ScoreInfo>)
    ensures info.Some? ==>
      var s, findings := info.value, multiset(Flatten(results));
      && s.total == resources.workloads * 20 + resources.roles * 3 + resources.clusterRoles * 3
                    + resources.events + resources.nodes + 1
      && s.dangerous == findings["danger"] && s.warning == findings["warning"] && s.ignored == findings["ignore"]
      && s.passing == s.total - s.dangerous - s.warning - s.ignored
      && (s.passing >= 0 ==>
            var weight := 2 * (s.total - s.ignored) - s.warning;
            s.score * weight <= 200 * s.passing < (s.score + 1) * weight)
    ensures info.None? <==> 2 * (Total(resources) - CountOf("ignore", results)) == CountOf("warning", results)
    ensures info.Some? ==>
      var s := info.value;
      && s.total == Total(resources) && s.passing + s.dangerous + s.warning + s.ignored == s.total
      && Counted(Flatten(results), s.dangerous, s.warning, s.ignored)
      && Weight(s.total, s.dangerous, s.warning, s.ignored) != 0
      && s.score == ScoreOf(s.total, s.dangerous, s.warning, s.ignored)
  {
    var countDanger, countWarning, countIgnore := CountLevels(results);
    var total := resources.workloads * 20 + (resources.roles + resources.clusterRoles) * 3 + resources.events
      + resources.nodes + 1;
    var countSuccess := total - countDanger - countWarning - countIgnore;
    var totalWeight := countSuccess * 2 + countDanger * 2 + countWarning;
    if totalWeight == 0 {
      return None;
    }
    var score := TruncDiv(countSuccess * 2 * 100, totalWeight);
    if countSuccess >= 0 {
      ScoreIsQuotient(total, countDanger, countWarning, countIgnore);
    }
    info := Some(ScoreInfo(score, total, countDanger, countWarning, countIgnore, countSuccess));
  }

  lemma ScoreIsQuotient(total: int, danger: nat, warning: nat, ignored: nat)
    requires danger + warning + ignored <= total && Weight(total, danger, warning, ignored) != 0
    ensures
      var passing, weight := total - danger - warning - ignored, 2 * (total - ignored) - warning;
      ScoreOf(total, danger, warning, ignored) * weight <= 200 * passing
      < (ScoreOf(total, danger, warning, ignored) + 1) * weight
  {
    QuotientBounds((total - danger - warning - ignored) * 200, Weight(total, danger, warning, ignored));
  }

  lemma QuotientBounds(a: nat, b: nat)
    requires b > 0
    ensures TruncDiv(a, b) * b <= a < (TruncDiv(a, b) + 1) * b
  {
    var q := a / b;
    assert a == q * b + a % b;
    assert (q + 1) * b == q * b + b;
  }

  // ---------- What the score means ----------

  /** When no more is found than there is, there is nothing to divide by exactly when all of it is ignored. */
  lemma NoScoreIff(total: int, danger: nat, warning: nat, ignored: nat)
    requires danger + warning + ignored <= total
    ensures Weight(total, danger, warning, ignored) >= 0
    ensures Weight(total, danger, warning, ignored) == 0 <==> ignored == total
  {
  }

  /** Where a truncated quotient is a percentage. */
  lemma TruncRange(a: int, b: int)
    requires b != 0
    ensures 0 <= TruncDiv(a, b) <= 100 <==> if b > 0 then -b < a < 101 * b else 101 * b < a < -b
  {
    QuotientAtLeast(Abs(a), Abs(b), 1);
    QuotientAtLeast(Abs(a), Abs(b), 101);
  }

  lemma FullShare(a: nat, b: nat)
    requires b > 0
    ensures TruncDiv(a, b) >= 100 <==> a >= 100 * b
  {
    QuotientAtLeast(a, b, 100);
  }

  /** The score is a percentage, and a full one exactly when there is neither danger nor warning. */
  lemma ScoreBounds(total: int, danger: nat, warning: nat, ignored: nat)
    requires danger + warning + ignored <= total && ignored < total
    ensures Weight(total, danger, warning, ignored) > 0
    ensures 0 <= ScoreOf(total, danger, warning, ignored) <= 100
    ensures ScoreOf(total, danger, warning, ignored) == 100 <==> danger == 0 && warning == 0
  {
    var a, b := (total - danger - warning - ignored) * 200, Weight(total, danger, warning, ignored);
    TruncRange(a, b);
    FullShare(a, b);
  }

  /** Every score, also when more is found than there is: it is a percentage exactly under this condition. */
  lemma ScoreInRangeIff(total: int, danger: nat, warning: nat, ignored: nat)
    requires Weight(total, danger, warning, ignored) != 0
    ensures
      var passing, weight := total - danger - warning - ignored, Weight(total, danger, warning, ignored);
      0 <= ScoreOf(total, danger, warning, ignored) <= 100
      <==> if weight > 0 then -200 * passing < weight else -200 * passing < -101 * weight
  {
    TruncRange((total - danger - warning - ignored) * 200, Weight(total, danger, warning, ignored));
  }

  /** A larger share is not scored lower. */
  lemma QuotientMonotone(a: nat, b: nat, a': nat, b': nat)
    requires b > 0 && b' > 0 && a' * b <= a * b'
    ensures a' / b' <= a / b
  {
    var q := a' / b';
    assert a' == b' * q + a' % b';
    QuotientAtLeast(a', b', q);
    assert q * b' <= a';
    assert (q * b') * b <= a' * b;
    assert (q * b) * b' <= a * b';
    Cancel(q * b, a, b');
    QuotientAtLeast(a, b, q);
  }

  lemma Cancel(x: nat, y: nat, k: nat)
    requires k > 0 && x * k <= y * k
    ensures x <= y
  {
  }

  lemma SmallerShare(a: nat, b: nat, d: nat)
    requires d <= a <= d * b && b > 0
    ensures (a - d) * b <= a * (b - 1)
  {
    assert (a - d) * b == a * b - d * b;
    assert a * (b - 1) == a * b - a;
  }

  lemma LargerWhole(a: nat, b: nat)
    ensures a * b <= a * (b + 1)
  {
    assert a * (b + 1) == a * b + a;
  }

  /** A passing item that turns into a warning, or a warning that turns into a danger, never raises the score. */
  lemma WorseNeverScoresHigher(total: int, danger: nat, warning: nat, ignored: nat)
    requires danger + warning + ignored <= total && ignored < total
    ensures danger + warning + ignored < total ==>
      ScoreOf(total, danger, warning + 1, ignored) <= ScoreOf(total, danger, warning, ignored)
    ensures warning > 0 ==>
      ScoreOf(total, danger + 1, warning - 1, ignored) <= ScoreOf(total, danger, warning, ignored)
  {
    var passing, b := total - danger - warning - ignored, Weight(total, danger, warning, ignored);
    if passing > 0 {
      SmallerShare(passing * 200, b, 200);
      QuotientMonotone(passing * 200, b, (passing - 1) * 200, b - 1);
    }
    LargerWhole(passing * 200, b);
    QuotientMonotone(passing * 200, b, passing * 200, b + 1);
  }
}
