/** Printing a Prometheus sample as one line of text and parsing that line back into a map. */
module SampleText {
  import opened Wrappers
  import opened Sequences
  import opened QuotedText

  const NAME := "__name__"

  datatype Sample = Sample(metric: map<string, string>, value: string, timestamp: string)

  datatype Entry = Entry(key: string, value: string)

  function MetricName(s: Sample): string {
    if NAME in s.metric then s.metric[NAME] else ""
  }

  /** The entries of a sample: its labels other than the name, in some order, and three more. */
  function Entries(s: Sample, order: seq<string>): seq<Entry> {
    Map(LabelOf(s), order) + Fixed(s)
  }

  function LabelOf(s: Sample): string -> Entry {
    (name: string) => Entry(name, if name in s.metric then s.metric[name] else "")
  }

  function Fixed(s: Sample): seq<Entry> {
    [Entry("value", s.value), Entry("timestamp", s.timestamp), Entry("metricName", MetricName(s))]
  }

  ghost predicate IsOrder(s: Sample, order: seq<string>) {
    Distinct(order) && forall k :: k in order <==> k in s.metric && k != NAME
  }

  function EntryText(e: Entry, table: char -> bool): string {
    Quote(e.key, table) + "=" + Quote(e.value, table)
  }

  function Text(table: char -> bool): Entry -> string {
    (e: Entry) => EntryText(e, table)
  }

  // ---------- Sorting ----------

  predicate Leq(a: string, b: string) {
    a == "" || (b != "" && (a[0] < b[0] || (a[0] == b[0] && Leq(a[1..], b[1..]))))
  }

  lemma {:induction false} LeqIsAnOrder(a: string, b: string, c: string)
    ensures Leq(a, b) || Leq(b, a)
    ensures Leq(a, b) && Leq(b, a) ==> a == b
    ensures Leq(a, b) && Leq(b, c) ==> Leq(a, c)
  {
    if a != "" && b != "" {
      LeqIsAnOrder(a[1..], b[1..], if c == "" then "" else c[1..]);
    }
  }

  /** Texts are ordered by their first difference, and a text comes before its continuations. */
  lemma {:induction false} LeqIsLexicographic(a: string, b: string)
    ensures Leq(a, b) <==>
      || (|a| <= |b| && a == b[..|a|])
      || exists i :: 0 <= i < |a| && i < |b| && a[..i] == b[..i] && a[i] < b[i]
  {
    if a != "" && b != "" {
      if a[0] == b[0] {
        LeqIsLexicographic(a[1..], b[1..]);
        SameHead(a, b);
      } else if a[0] < b[0] {
        assert a[..0] == b[..0];
      }
    }
  }

  lemma SameHead(a: string, b: string)
    requires a != "" && b != "" && a[0] == b[0]
    ensures |a| <= |b| ==> (a == b[..|a|] <==> a[1..] == b[1..][..|a| - 1])
    ensures forall i :: 0 < i < |a| && i < |b| ==> (a[..i] == b[..i] <==> a[1..][..i - 1] == b[1..][..i - 1])
  {
    assert a == [a[0]] + a[1..] && b == [b[0]] + b[1..];
    assert forall i :: 0 < i < |a| ==> a[..i] == [a[0]] + a[1..][..i - 1];
    assert forall i :: 0 < i <= |b| ==> b[..i] == [b[0]] + b[1..][..i - 1];
  }

  function Insert(x: string, s: seq<string>): seq<string> {
    if s == [] || Leq(x, s[0]) then [x] + s else [s[0]] + Insert(x, s[1..])
  }

  function Sort(s: seq<string>): seq<string> {
    if s == [] then [] else Insert(s[0], Sort(s[1..]))
  }

  predicate Ordered(s: seq<string>) {
    forall i, j :: 0 <= i < j < |s| ==> Leq(s[i], s[j])
  }

  lemma {:induction false} InsertSorts(x: string, s: seq<string>)
    requires Ordered(s)
    ensures Ordered(Insert(x, s)) && multiset(Insert(x, s)) == multiset(s) + multiset{x}
  {
    if s != [] && !Leq(x, s[0]) {
      InsertSorts(x, s[1..]);
      assert s == [s[0]] + s[1..];
      LeqIsAnOrder(x, s[0], s[0]);
      InsertBelow(s[0], x, s[1..]);
    } else {
      PrependSorts(x, s);
    }
  }

  lemma PrependSorts(x: string, s: seq<string>)
    requires Ordered(s) && (s == [] || Leq(x, s[0]))
    ensures Ordered([x] + s)
  {
    forall j | 0 < j < |s|
      ensures Leq(x, s[j])
    {
      LeqIsAnOrder(x, s[0], s[j]);
    }
  }

  lemma InsertBelow(low: string, x: string, s: seq<string>)
    requires Ordered([low] + s) && Leq(low, x) && Ordered(Insert(x, s))
    ensures Ordered([low] + Insert(x, s))
  {
    if s != [] {
      assert ([low] + s)[0] == low && ([low] + s)[1] == s[0];
    }
    PrependSorts(low, Insert(x, s));
  }

  /** Sort gives the sorted arrangement of its argument. */
  lemma {:induction false} SortSorts(s: seq<string>)
    ensures Ordered(Sort(s)) && multiset(Sort(s)) == multiset(s)
  {
    if s != [] {
      SortSorts(s[1..]);
      InsertSorts(s[0], Sort(s[1..]));
      assert s == [s[0]] + s[1..];
    }
  }

  lemma {:induction false} InsertCommutes(x: string, y: string, s: seq<string>)
    ensures Insert(x, Insert(y, s)) == Insert(y, Insert(x, s))
  {
    LeqIsAnOrder(x, y, y);
    if s == [] {
    } else {
      LeqIsAnOrder(x, y, s[0]);
      LeqIsAnOrder(y, x, s[0]);
      if !Leq(x, s[0]) && !Leq(y, s[0]) {
        InsertCommutes(x, y, s[1..]);
        assert Insert(y, s)[1..] == Insert(y, s[1..]) && Insert(x, s)[1..] == Insert(x, s[1..]);
      } else {
        assert ([x] + s)[1..] == s && ([y] + s)[1..] == s;
      }
    }
  }

  lemma {:induction false} SortPulls(a: seq<string>, x: string, b: seq<string>)
    ensures Sort(a + [x] + b) == Insert(x, Sort(a + b))
  {
    if a == [] {
      assert a + [x] + b == [x] + b && a + b == b;
      assert ([x] + b)[1..] == b;
    } else {
      assert (a + [x] + b)[1..] == a[1..] + [x] + b && (a + b)[1..] == a[1..] + b;
      SortPulls(a[1..], x, b);
      InsertCommutes(a[0], x, Sort(a[1..] + b));
    }
  }

  // ---------- Printing ----------

  function Join(parts: seq<string>): string {
    if parts == [] then "" else if |parts| == 1 then parts[0] else parts[0] + ", " + Join(parts[1..])
  }

  function Printed(s: Sample, order: seq<string>, table: char -> bool): string {
    "{" + Join(Sort(Map(Text(table), Entries(s, order)))) + "}"
  }

  method ToString(sample: Option<Sample>, table: char -> bool) returns (text: string, ghost order: seq<string>)
    ensures sample.None? ==> text == "{}"
    ensures sample.Some? ==> IsOrder(sample.value, order) && text == Printed(sample.value, order, table)
  {
    order := [];
    if sample.None? {
      return "{}", [];
    }
    var s := sample.value;
    var labelStrings: seq<string> := [];
    var todo := s.metric.Keys;
    while todo != {}
      invariant PrintLoop(s, todo, order, labelStrings, table)
      decreases |todo|
    {
      var name :| name in todo;
      todo := todo - {name};
      PrintStep(s, todo, name, order, labelStrings, table);
      if name != NAME {
        labelStrings := labelStrings + [EntryText(Entry(name, s.metric[name]), table)];
        order := order + [name];
      }
    }
    var metricName := if NAME in s.metric then s.metric[NAME] else "";
    PrintDone(s, order, labelStrings, table);
    labelStrings := labelStrings + [
      EntryText(Entry("value", s.value), table),
      EntryText(Entry("timestamp", s.timestamp), table),
      EntryText(Entry("metricName", metricName), table)
    ];
    text := "{" + Join(Sort(labelStrings)) + "}";
  }

  /** The labels visited so far, other than the name, have been printed. */
  ghost predicate PrintLoop(s: Sample, todo: set<string>, order: seq<string>, texts: seq<string>, table: char -> bool) {
    && Visited(s, todo, order)
    && texts == Map(Text(table), Map(LabelOf(s), order))
  }

  lemma PrintStep(s: Sample, todo: set<string>, name: string, order: seq<string>, texts: seq<string>,
                  table: char -> bool)
    requires name !in todo && PrintLoop(s, todo + {name}, order, texts, table)
    ensures
      if name == NAME then PrintLoop(s, todo, order, texts, table)
      else
        && name in s.metric
        && PrintLoop(s, todo, order + [name], texts + [EntryText(Entry(name, s.metric[name]), table)], table)
  {
    OrderStep(s, todo, name, order);
    if name != NAME {
      LabelTexts(s, order, name, table);
    }
  }

  /** The labels visited so far, other than the name, are those in order. */
  ghost predicate Visited(s: Sample, todo: set<string>, order: seq<string>) {
    && todo <= s.metric.Keys && Distinct(order)
    && forall k :: k in order <==> k in s.metric && k != NAME && k !in todo
  }

  lemma OrderStep(s: Sample, todo: set<string>, name: string, order: seq<string>)
    requires name !in todo && Visited(s, todo + {name}, order)
    ensures name in s.metric && Visited(s, todo, if name == NAME then order else order + [name])
  {
    assert name in todo + {name};
  }

  lemma PrintDone(s: Sample, order: seq<string>, texts: seq<string>, table: char -> bool)
    requires PrintLoop(s, {}, order, texts, table)
    ensures IsOrder(s, order)
    ensures Map(Text(table), Entries(s, order)) == texts + [
      EntryText(Entry("value", s.value), table),
      EntryText(Entry("timestamp", s.timestamp), table),
      EntryText(Entry("metricName", MetricName(s)), table)
    ]
  {
    MapConcat(Text(table), Map(LabelOf(s), order), Fixed(s));
    MapThree(Text(table), Fixed(s)[0], Fixed(s)[1], Fixed(s)[2]);
  }

  lemma MapThree<A, B>(f: A -> B, a: A, b: A, c: A)
    ensures Map(f, [a, b, c]) == [f(a), f(b), f(c)]
  {
  }

  lemma LabelTexts(s: Sample, order: seq<string>, name: string, table: char -> bool)
    requires name in s.metric
    ensures Map(Text(table), Map(LabelOf(s), order + [name]))
         == Map(Text(table), Map(LabelOf(s), order)) + [EntryText(Entry(name, s.metric[name]), table)]
  {
    var e := Entry(name, s.metric[name]);
    MapAppend(LabelOf(s), order, name);
    MapAppend(Text(table), Map(LabelOf(s), order), e);
  }

  lemma {:induction false} SameMembersSortAlike<A>(f: A -> string, a: seq<A>, b: seq<A>, tail: seq<string>)
    requires Distinct(a) && Distinct(b) && forall x :: x in a <==> x in b
    ensures Sort(Map(f, a) + tail) == Sort(Map(f, b) + tail)
  {
    if a == [] {
      if b != [] {
        HasMember(b);
      }
    } else {
      var x := a[0];
      assert x in b;
      var i :| 0 <= i < |b| && b[i] == x;
      var rest := b[..i] + b[i + 1..];
      RemovedMembers(a, b, i);
      SameMembersSortAlike(f, a[1..], rest, tail);
      assert Map(f, a) + tail == [] + [f(x)] + (Map(f, a[1..]) + tail);
      SortPulls([], f(x), Map(f, a[1..]) + tail);
      assert [] + (Map(f, a[1..]) + tail) == Map(f, a[1..]) + tail;
      MapAround(f, b, i, tail);
      SortPulls(Map(f, b[..i]), f(x), Map(f, b[i + 1..]) + tail);
    }
  }

  lemma HasMember<A>(s: seq<A>)
    requires s != []
    ensures exists x :: x in s
  {
    assert s[0] in s;
  }

  lemma MapAround<A>(f: A -> string, b: seq<A>, i: nat, tail: seq<string>)
    requires i < |b|
    ensures Map(f, b) + tail == Map(f, b[..i]) + [f(b[i])] + (Map(f, b[i + 1..]) + tail)
    ensures Map(f, b[..i] + b[i + 1..]) + tail == Map(f, b[..i]) + (Map(f, b[i + 1..]) + tail)
  {
  }

  lemma RemovedMembers<A>(a: seq<A>, b: seq<A>, i: nat)
    requires a != [] && Distinct(a) && Distinct(b) && (forall x :: x in a <==> x in b)
    requires i < |b| && b[i] == a[0]
    ensures Distinct(b[..i] + b[i + 1..]) && forall x :: x in a[1..] <==> x in b[..i] + b[i + 1..]
  {
    var rest := b[..i] + b[i + 1..];
    forall x | x in a[1..]
      ensures x in rest
    {
      var j :| 0 <= j < |a[1..]| && a[1..][j] == x;
      assert x == a[j + 1] && x in a && x in b && x != b[i];
      var k :| 0 <= k < |b| && b[k] == x;
      assert rest[if k < i then k else k - 1] == x;
    }
    forall x | x in rest
      ensures x in a[1..]
    {
      var j :| 0 <= j < |rest| && rest[j] == x;
      assert x == b[if j < i then j else j + 1] && x != b[i];
      assert x in a;
    }
  }

  /** The text does not depend on the order in which the labels are visited. */
  lemma OneText(s: Sample, a: seq<string>, b: seq<string>, table: char -> bool)
    requires IsOrder(s, a) && IsOrder(s, b)
    ensures Printed(s, a, table) == Printed(s, b, table)
  {
    var f := LabelText(s, table);
    var tail := Map(Text(table), Fixed(s));
    SameMembersSortAlike(f, a, b, tail);
    TextsOf(s, a, table);
    TextsOf(s, b, table);
  }

  function LabelText(s: Sample, table: char -> bool): string -> string {
    (name: string) => EntryText(LabelOf(s)(name), table)
  }

  lemma TextsOf(s: Sample, order: seq<string>, table: char -> bool)
    ensures Map(Text(table), Entries(s, order)) == Map(LabelText(s, table), order) + Map(Text(table), Fixed(s))
  {
    MapConcat(Text(table), Map(LabelOf(s), order), Fixed(s));
    MapMap(LabelOf(s), Text(table), LabelText(s, table), order);
  }

  lemma MapMap<A, B, C>(f: A -> B, g: B -> C, h: A -> C, s: seq<A>)
    requires forall x :: h(x) == g(f(x))
    ensures Map(g, Map(f, s)) == Map(h, s)
  {
  }

  // ---------- Parsing ----------

  type Pairs = map<string, string>

  function Skip(s: string): (r: string)
    ensures |r| <= |s|
  {
    if s != "" && s[0] in " \t\r\n" then Skip(s[1..]) else s
  }

  /** A member value: a string, or null, which leaves the empty string. */
  function ReadValue(s: string): (r: Read<string>)
    ensures r.Read? ==> |r.rest| < |s|
  {
    if |s| >= 4 && s[..4] == "null" then Read("", s[4..])
    else if s != "" && s[0] == '\"' then ReadText(s[1..])
    else Malformed
  }

  function ReadEntry(s: string): (r: Read<Entry>)
    ensures r.Read? ==> |r.rest| < |s|
  {
    if s == "" || s[0] != '\"' then Malformed
    else
      match ReadText(s[1..])
      case Malformed => Malformed
      case Read(key, rest) =>
        var colon := Skip(rest);
        if colon == "" || colon[0] != ':' then Malformed
        else
          match ReadValue(Skip(colon[1..]))
          case Malformed => Malformed
          case Read(value, end) => Read(Entry(key, value), end)
  }

  /** The members of an object up to the end of the input; of members with one key the last wins. */
  function ReadEntries(s: string, pairs: Pairs): Option<Pairs>
    decreases |s|
  {
    match ReadEntry(s)
    case Malformed => None
    case Read(e, rest) =>
      var end, pairs' := Skip(rest), pairs[e.key := e.value];
      if end == "" then None
      else if end[0] == ',' then ReadEntries(Skip(end[1..]), pairs')
      else if end[0] == '}' && Skip(end[1..]) == "" then Some(pairs')
      else None
  }

  /** An object of strings; nil for null and for anything that is not such an object. */
  function ReadObject(s: string): Option<Pairs> {
    var start := Skip(s);
    if start == "" || start[0] != '{' then None
    else
      var first := Skip(start[1..]);
      if first != "" && first[0] == '}' then if Skip(first[1..]) == "" then Some(map[]) else None
      else ReadEntries(first, map[])
  }

  function ParseString(result: string): Option<Pairs> {
    ReadObject(Colon(result))
  }

  // ---------- Parsing what was printed ----------

  predicate ReadableEntry(e: Entry, table: char -> bool) {
    Readable(e.key, table) && Readable(e.value, table)
  }

  lemma QuoteParts(s: string, table: char -> bool, more: string)
    ensures Colon(Quote(s, table)) + more == "\"" + (Colon(Escapes(s, table)) + ("\"" + more))
  {
    ColonConcat("\"", Escapes(s, table));
    ColonConcat("\"" + Escapes(s, table), "\"");
  }

  lemma TextParts(e: Entry, table: char -> bool, more: string)
    ensures Colon(Text(table)(e)) + more == Colon(Quote(e.key, table)) + (":" + (Colon(Quote(e.value, table)) + more))
  {
    ColonConcat(Quote(e.key, table), "=");
    ColonConcat(Quote(e.key, table) + "=", Quote(e.value, table));
  }

  lemma ReadQuoted(s: string, table: char -> bool, more: string)
    ensures
      var text := Colon(Quote(s, table)) + more;
      && text != "" && text[0] == '\"'
      && ReadText(text[1..]) == if Readable(s, table) then Read(Colon(s), more) else Malformed
  {
    QuoteParts(s, table, more);
    var rest := Colon(Escapes(s, table)) + ("\"" + more);
    assert ("\"" + rest)[1..] == rest;
    ReadEscapes(s, table, more);
  }

  lemma ReadQuotedValue(s: string, table: char -> bool, more: string)
    ensures ReadValue(Skip(Colon(Quote(s, table)) + more))
         == if Readable(s, table) then Read(Colon(s), more) else Malformed
  {
    ReadQuoted(s, table, more);
    var text := Colon(Quote(s, table)) + more;
    assert |text| >= 4 ==> text[..4][0] == '\"';
  }

  lemma ReadKey(s: string, key: Read<string>, more: string)
    requires s != "" && s[0] == '\"' && ReadText(s[1..]) == key
    requires key.Read? ==> key.rest == ":" + more
    ensures ReadEntry(s) ==
      if key.Malformed? then Malformed
      else
        match ReadValue(Skip(more))
        case Malformed => Malformed
        case Read(value, end) => Read(Entry(key.value, value), end)
  {
    assert (":" + more)[1..] == more;
  }

  /** An entry is read back, equal signs as colons, exactly when all its characters are readable. */
  lemma ReadOneEntry(e: Entry, table: char -> bool, more: string)
    ensures ReadEntry(Colon(Text(table)(e)) + more)
         == if ReadableEntry(e, table) then Read(Entry(Colon(e.key), Colon(e.value)), more) else Malformed
  {
    TextParts(e, table, more);
    var second := Colon(Quote(e.value, table)) + more;
    var s := Colon(Quote(e.key, table)) + (":" + second);
    ReadQuoted(e.key, table, ":" + second);
    ReadQuotedValue(e.value, table, more);
    ReadKey(s, ReadText(s[1..]), second);
  }

  /** Later entries replace earlier ones whose key reads the same. */
  function Merge(pairs: Pairs, entries: seq<Entry>): Pairs
    decreases |entries|
  {
    if entries == [] then pairs
    else Merge(pairs[Colon(entries[0].key) := Colon(entries[0].value)], entries[1..])
  }

  lemma JoinParts(texts: seq<string>)
    requires |texts| > 1
    ensures Colon(Join(texts) + "}") == Colon(texts[0]) + (", " + Colon(Join(texts[1..]) + "}"))
  {
    FourParts(texts[0], ", ", Join(texts[1..]), "}");
    CommaStays();
  }

  lemma FourParts(a: string, b: string, c: string, d: string)
    ensures Colon(a + b + c + d) == Colon(a) + (Colon(b) + Colon(c + d))
  {
    assert a + b + c + d == a + (b + (c + d));
    ColonConcat(a, b + (c + d));
    ColonConcat(b, c + d);
  }

  lemma CommaStays()
    ensures Colon(", ") == ", "
  {
  }

  lemma JoinStarts(entries: seq<Entry>, table: char -> bool)
    requires entries != []
    ensures
      var text := Colon(Join(Map(Text(table), entries)) + "}");
      text != "" && text[0] == '\"'
  {
  }

  predicate AllReadable(entries: seq<Entry>, table: char -> bool) {
    forall i :: 0 <= i < |entries| ==> ReadableEntry(entries[i], table)
  }

  lemma {:induction false} ReadAllEntries(entries: seq<Entry>, table: char -> bool, pairs: Pairs)
    requires entries != []
    ensures ReadEntries(Colon(Join(Map(Text(table), entries)) + "}"), pairs)
         == if AllReadable(entries, table) then Some(Merge(pairs, entries)) else None
    decreases |entries|
  {
    if |entries| == 1 {
      ReadLastEntry(entries[0], table, pairs);
      assert entries == [entries[0]];
    } else {
      var pairs' := pairs[Colon(entries[0].key) := Colon(entries[0].value)];
      ReadNextEntry(entries, table, pairs);
      ReadAllEntries(entries[1..], table, pairs');
      AllReadableHead(entries, table);
    }
  }

  lemma ReadLastEntry(e: Entry, table: char -> bool, pairs: Pairs)
    ensures ReadEntries(Colon(Join(Map(Text(table), [e])) + "}"), pairs)
         == if AllReadable([e], table) then Some(Merge(pairs, [e])) else None
  {
    var text := Text(table)(e);
    ReadOneEntry(e, table, "}");
    assert Map(Text(table), [e]) == [text];
    ColonConcat(text, "}");
    assert Colon("}") == "}";
    ReadClosing(Colon(text) + "}", pairs);
    assert AllReadable([e], table) <==> ReadableEntry([e][0], table);
    assert Merge(pairs, [e]) == pairs[Colon(e.key) := Colon(e.value)] by {
      assert [e][1..] == [];
    }
  }

  lemma ReadClosing(s: string, pairs: Pairs)
    requires ReadEntry(s).Read? ==> ReadEntry(s).rest == "}"
    ensures ReadEntries(s, pairs)
         == match ReadEntry(s) case Malformed => None case Read(e, _) => Some(pairs[e.key := e.value])
  {
    assert "}"[1..] == "";
  }

  /** The rest of a longer list is read after the first entry and the comma. */
  lemma ReadNextEntry(entries: seq<Entry>, table: char -> bool, pairs: Pairs)
    requires |entries| > 1
    ensures ReadEntries(Colon(Join(Map(Text(table), entries)) + "}"), pairs)
         == if ReadableEntry(entries[0], table)
            then ReadEntries(Colon(Join(Map(Text(table), entries[1..])) + "}"),
              pairs[Colon(entries[0].key) := Colon(entries[0].value)])
            else None
  {
    var texts := Map(Text(table), entries);
    var tail := Colon(Join(Map(Text(table), entries[1..])) + "}");
    assert texts[1..] == Map(Text(table), entries[1..]);
    JoinParts(texts);
    ReadOneEntry(entries[0], table, ", " + tail);
    SkipToNext(entries[1..], table);
  }

  lemma SkipToNext(entries: seq<Entry>, table: char -> bool)
    requires entries != []
    ensures
      var tail := Colon(Join(Map(Text(table), entries)) + "}");
      Skip(", " + tail) == ", " + tail && Skip((", " + tail)[1..]) == tail
  {
    var tail := Colon(Join(Map(Text(table), entries)) + "}");
    JoinStarts(entries, table);
    assert (", " + tail)[1..] == " " + tail;
    assert (" " + tail)[1..] == tail;
  }

  lemma AllReadableHead(entries: seq<Entry>, table: char -> bool)
    requires entries != []
    ensures AllReadable(entries, table) <==> ReadableEntry(entries[0], table) && AllReadable(entries[1..], table)
  {
    assert entries == [entries[0]] + entries[1..];
  }

  // ---------- Round trip ----------

  function InsertEntry(e: Entry, s: seq<Entry>, table: char -> bool): seq<Entry> {
    if s == [] || Leq(EntryText(e, table), EntryText(s[0], table)) then [e] + s
      else [s[0]] + InsertEntry(e, s[1..], table)
  }

  /** The entries in the order of their texts. */
  function SortEntries(s: seq<Entry>, table: char -> bool): (r: seq<Entry>)
    ensures s != [] ==> r != []
  {
    if s == [] then [] else InsertEntry(s[0], SortEntries(s[1..], table), table)
  }

  lemma {:induction false} InsertEntryText(e: Entry, s: seq<Entry>, table: char -> bool)
    ensures Map(Text(table), InsertEntry(e, s, table)) == Insert(EntryText(e, table), Map(Text(table), s))
  {
    if s != [] {
      InsertEntryText(e, s[1..], table);
      MapTail(Text(table), s);
    }
  }

  lemma {:induction false} InsertEntryMembers(e: Entry, s: seq<Entry>, table: char -> bool)
    ensures forall x :: x in InsertEntry(e, s, table) <==> x == e || x in s
  {
    if s != [] {
      InsertEntryMembers(e, s[1..], table);
      assert s == [s[0]] + s[1..];
    }
  }

  lemma {:induction false} SortEntriesText(s: seq<Entry>, table: char -> bool)
    ensures Map(Text(table), SortEntries(s, table)) == Sort(Map(Text(table), s))
  {
    if s != [] {
      SortEntriesText(s[1..], table);
      InsertEntryText(s[0], SortEntries(s[1..], table), table);
      MapTail(Text(table), s);
    }
  }

  lemma {:induction false} SortEntriesMembers(s: seq<Entry>, table: char -> bool)
    ensures forall x :: x in SortEntries(s, table) <==> x in s
  {
    if s != [] {
      SortEntriesMembers(s[1..], table);
      InsertEntryMembers(s[0], SortEntries(s[1..], table), table);
      assert s == [s[0]] + s[1..];
    }
  }

  lemma ReadBraces(entries: seq<Entry>, table: char -> bool)
    requires entries != []
    ensures
      var text := Join(Map(Text(table), entries)) + "}";
      ParseString("{" + text) == ReadEntries(Colon(text), map[])
  {
    JoinStarts(entries, table);
    ReadOpening(Join(Map(Text(table), entries)) + "}");
  }

  lemma ReadOpening(text: string)
    requires text != "" && Colon(text)[0] == '\"'
    ensures ParseString("{" + text) == ReadEntries(Colon(text), map[])
  {
    ColonConcat("{", text);
    assert Colon("{" + text)[1..] == Colon(text);
  }

  /** What parsing makes of a printed sample: nothing, or its entries in the order of their texts. */
  lemma ParsePrinted(s: Sample, order: seq<string>, table: char -> bool)
    ensures ParseString(Printed(s, order, table))
         == if AllReadable(Entries(s, order), table) then Some(Merge(map[], SortEntries(Entries(s, order), table)))
           else None
  {
    var entries := SortEntries(Entries(s, order), table);
    SortEntriesText(Entries(s, order), table);
    SortEntriesMembers(Entries(s, order), table);
    BracesAround(Join(Map(Text(table), entries)));
    ReadBraces(entries, table);
    ReadAllEntries(entries, table, map[]);
    SameReadable(Entries(s, order), entries, table);
  }

  lemma BracesAround(text: string)
    ensures "{" + text + "}" == "{" + (text + "}")
  {
  }

  lemma SameReadable(a: seq<Entry>, b: seq<Entry>, table: char -> bool)
    requires forall x :: x in a <==> x in b
    ensures AllReadable(a, table) <==> AllReadable(b, table)
  {
    ReadableMembers(a, table);
    ReadableMembers(b, table);
  }

  lemma ReadableMembers(a: seq<Entry>, table: char -> bool)
    ensures AllReadable(a, table) <==> forall x :: x in a ==> ReadableEntry(x, table)
  {
    assert (forall x :: x in a ==> ReadableEntry(x, table)) ==> forall i :: 0 <= i < |a| ==> a[i] in a;
  }

  /** Entries whose keys read the same have values that read the same. */
  predicate Consistent(entries: seq<Entry>) {
    forall d, e :: d in entries && e in entries && Colon(d.key) == Colon(e.key) ==> Colon(d.value) == Colon(e.value)
  }

  lemma {:induction false} MergeGives(pairs: Pairs, entries: seq<Entry>, k: string)
    ensures k in Merge(pairs, entries) <==> k in pairs || exists e :: e in entries && Colon(e.key) == k
    ensures k in Merge(pairs, entries) ==>
      || (k in pairs && Merge(pairs, entries)[k] == pairs[k] && forall e :: e in entries ==> Colon(e.key) != k)
      || (exists e :: e in entries && Colon(e.key) == k && Colon(e.value) == Merge(pairs, entries)[k])
    decreases |entries|
  {
    if entries != [] {
      assert entries == [entries[0]] + entries[1..];
      MergeGives(pairs[Colon(entries[0].key) := Colon(entries[0].value)], entries[1..], k);
    }
  }

  /** Every entry is found in the result. */
  predicate Holds(pairs: Pairs, entries: seq<Entry>) {
    forall e :: e in entries ==> Colon(e.key) in pairs && pairs[Colon(e.key)] == Colon(e.value)
  }

  lemma MergeHoldsIff(entries: seq<Entry>)
    ensures Holds(Merge(map[], entries), entries) <==> Consistent(entries)
  {
    forall e | e in entries
      ensures Colon(e.key) in Merge(map[], entries)
      ensures Consistent(entries) ==> Merge(map[], entries)[Colon(e.key)] == Colon(e.value)
    {
      MergeGives(map[], entries, Colon(e.key));
    }
  }

  /**
   Printing and parsing, for every sample: the result is an object exactly when no text has a character
   that is printed with an escape foreign to JSON; its keys are those of the entries, equal signs read as
   colons; and every entry is found under its key exactly when no two entries disagree about one.
   */
  lemma RoundTripIff(s: Sample, order: seq<string>, table: char -> bool)
    ensures
      var entries := Entries(s, order);
      var parsed := ParseString(Printed(s, order, table));
      && (parsed.Some? <==> AllReadable(entries, table))
      && (parsed.Some? ==>
            && (forall k :: k in parsed.value <==> exists e :: e in entries && Colon(e.key) == k)
            && (Holds(parsed.value, entries) <==> Consistent(entries)))
  {
    var entries := Entries(s, order);
    var sorted := SortEntries(entries, table);
    ParsePrinted(s, order, table);
    SortEntriesMembers(entries, table);
    MergeHoldsIff(sorted);
    forall k
      ensures k in Merge(map[], sorted) <==> exists e :: e in entries && Colon(e.key) == k
    {
      MergeGives(map[], sorted, k);
    }
  }

  predicate NoEquals(s: string) {
    '=' !in s
  }

  /** Text that is printed as it is or with an escape that JSON knows, and has no equal sign. */
  predicate Plain(s: string, table: char -> bool) {
    Readable(s, table) && NoEquals(s)
  }

  /** The labels other than the name, with the three added entries. */
  function Flattened(s: Sample): Pairs {
    (s.metric - {NAME})["value" := s.value]["timestamp" := s.timestamp]["metricName" := MetricName(s)]
  }

  lemma PlainColon(s: string)
    requires NoEquals(s)
    ensures Colon(s) == s
  {
    assert forall i :: 0 <= i < |s| ==> s[i] in s;
  }

  predicate PlainEntry(e: Entry, table: char -> bool) {
    Plain(e.key, table) && Plain(e.value, table)
  }

  lemma FixedNames(table: char -> bool)
    ensures Plain("value", table) && Plain("timestamp", table) && Plain("metricName", table) && Plain("", table)
    ensures "value" != "timestamp" && "timestamp" != "metricName" && "value" != "metricName"
  {
    assert |"value"| == 5 && |"timestamp"| == 9 && |"metricName"| == 10;
  }

  /** A sample of plain text without labels named like the three added entries. */
  ghost predicate PlainSample(s: Sample, table: char -> bool) {
    && (forall k :: k in s.metric && k != NAME ==> Plain(k, table) && k !in {"value", "timestamp", "metricName"})
    && (forall k :: k in s.metric ==> Plain(s.metric[k], table))
    && Plain(s.value, table) && Plain(s.timestamp, table)
  }

  /** The entries of a sample are its labels other than the name, its value, its time, and its name if it has one. */
  lemma EntriesOf(s: Sample, order: seq<string>, e: Entry)
    requires IsOrder(s, order)
    ensures e in Entries(s, order) <==>
      || (e.key in s.metric && e.key != "__name__" && e.value == s.metric[e.key])
      || e == Entry("value", s.value) || e == Entry("timestamp", s.timestamp)
      || e == Entry("metricName", if "__name__" in s.metric then s.metric["__name__"] else "")
  {
    var labels := Map(LabelOf(s), order);
    if e in labels {
      var i :| 0 <= i < |labels| && labels[i] == e;
      assert order[i] in order;
    }
    if e.key in s.metric && e.key != NAME && e.value == s.metric[e.key] {
      var i :| 0 <= i < |order| && order[i] == e.key;
      assert labels[i] == e;
    }
  }

  lemma PlainEntries(s: Sample, order: seq<string>, table: char -> bool)
    requires IsOrder(s, order) && PlainSample(s, table)
    ensures forall e :: e in Entries(s, order) ==>
      PlainEntry(e, table) && e.key in Flattened(s) && Flattened(s)[e.key] == e.value
  {
    FixedNames(table);
    forall e | e in Entries(s, order)
      ensures PlainEntry(e, table) && e.key in Flattened(s) && Flattened(s)[e.key] == e.value
    {
      EntriesOf(s, order, e);
    }
  }

  lemma FlattenedKey(s: Sample, order: seq<string>, k: string)
    requires IsOrder(s, order)
    ensures k in Flattened(s) <==> exists e :: e in Entries(s, order) && e.key == k
  {
    if k in s.metric && k != NAME {
      EntriesOf(s, order, Entry(k, s.metric[k]));
    }
    forall e | e in Fixed(s)
      ensures e in Entries(s, order)
    {
      EntriesOf(s, order, e);
    }
    assert Fixed(s)[0] in Fixed(s) && Fixed(s)[1] in Fixed(s) && Fixed(s)[2] in Fixed(s);
    forall e | e in Entries(s, order)
      ensures e.key in Flattened(s)
    {
      EntriesOf(s, order, e);
    }
  }

  lemma PlainEntriesColon(entries: seq<Entry>, table: char -> bool)
    requires forall e :: e in entries ==> PlainEntry(e, table)
    ensures AllReadable(entries, table) && ColonFree(entries)
  {
    ReadableMembers(entries, table);
    forall e | e in entries
      ensures Colon(e.key) == e.key && Colon(e.value) == e.value
    {
      PlainColon(e.key);
      PlainColon(e.value);
    }
  }

  /** The map holds the entries and nothing else. */
  ghost predicate Tells(pairs: Pairs, entries: seq<Entry>) {
    && (forall k :: k in pairs ==> exists e :: e in entries && e.key == k)
    && (forall e :: e in entries ==> e.key in pairs && pairs[e.key] == e.value)
  }

  lemma OneMapTells(a: Pairs, b: Pairs, entries: seq<Entry>)
    requires Tells(a, entries) && Tells(b, entries)
    ensures a == b
  {
  }

  lemma FlattenedTells(s: Sample, order: seq<string>, table: char -> bool)
    requires IsOrder(s, order) && PlainSample(s, table)
    ensures Tells(Flattened(s), Entries(s, order))
  {
    PlainEntries(s, order, table);
    forall k | k in Flattened(s)
      ensures exists e :: e in Entries(s, order) && e.key == k
    {
      FlattenedKey(s, order, k);
    }
  }

  predicate ColonFree(entries: seq<Entry>) {
    forall e :: e in entries ==> Colon(e.key) == e.key && Colon(e.value) == e.value
  }

  lemma TellsConsistent(pairs: Pairs, entries: seq<Entry>)
    requires Tells(pairs, entries) && ColonFree(entries)
    ensures Consistent(entries)
  {
  }

  lemma HoldsTells(pairs: Pairs, entries: seq<Entry>)
    requires Holds(pairs, entries) && ColonFree(entries)
    requires forall k :: k in pairs <==> exists e :: e in entries && Colon(e.key) == k
    ensures Tells(pairs, entries)
  {
  }

  /** A plain sample survives: parsing what was printed gives its labels and the three added entries. */
  lemma PlainRoundTrip(s: Sample, order: seq<string>, table: char -> bool)
    requires IsOrder(s, order) && PlainSample(s, table)
    ensures ParseString(Printed(s, order, table)) == Some(Flattened(s))
  {
    var entries := Entries(s, order);
    FlattenedTells(s, order, table);
    PlainEntries(s, order, table);
    PlainEntriesColon(entries, table);
    TellsConsistent(Flattened(s), entries);
    RoundTripIff(s, order, table);
    var parsed := ParseString(Printed(s, order, table)).value;
    HoldsTells(parsed, entries);
    OneMapTells(parsed, Flattened(s), entries);
  }

  /** The same entry by entry. */
  lemma PlainEntryFound(s: Sample, order: seq<string>, table: char -> bool, k: string)
    requires IsOrder(s, order) && PlainSample(s, table)
    ensures
      var parsed := ParseString(Printed(s, order, table));
      && parsed.Some?
      && (k in parsed.value <==> (k in s.metric && k != "__name__") || k in {"value", "timestamp", "metricName"})
      && (k in s.metric && k != "__name__" ==> k in parsed.value && parsed.value[k] == s.metric[k])
      && (k == "value" ==> parsed.value[k] == s.value)
      && (k == "timestamp" ==> parsed.value[k] == s.timestamp)
      && (k == "metricName" ==>
            parsed.value[k] == if "__name__" in s.metric then s.metric["__name__"] else "")
  {
    PlainRoundTrip(s, order, table);
    FlattenedHas(s, order, table, Flattened(s), k);
  }

  lemma FlattenedHas(s: Sample, order: seq<string>, table: char -> bool, pairs: Pairs, k: string)
    requires IsOrder(s, order) && PlainSample(s, table) && pairs == Flattened(s)
    ensures k in pairs <==> (k in s.metric && k != "__name__") || k in {"value", "timestamp", "metricName"}
    ensures k in s.metric && k != "__name__" ==> pairs[k] == s.metric[k]
    ensures k == "value" ==> pairs[k] == s.value
    ensures k == "timestamp" ==> pairs[k] == s.timestamp
    ensures k == "metricName" ==> pairs[k] == if "__name__" in s.metric then s.metric["__name__"] else ""
  {
    FixedNames(table);
  }

  lemma NilRoundTrip()
    ensures ParseString("{}") == Some(map[])
  {
    assert Colon("{}") == "{}";
    assert "{}"[1..] == "}" && "}"[1..] == "";
  }
}
