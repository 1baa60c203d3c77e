/** Answering a query with one page of a list. */
module Paging {
  import opened Wrappers
  import opened Sequences
  import opened Arithmetic

  const MAX := 0x7fff_ffff_ffff_ffff

  /** A number as it is stored in 64 bits with a sign. */
  function Wrap64(x: int): (r: int)
    ensures -MAX - 1 <= r <= MAX
    ensures -MAX - 1 <= x <= MAX ==> r == x
  {
    (x + MAX + 1) % (2 * (MAX + 1)) - MAX - 1
  }

  function Min(a: int, b: int): int {
    if a < b then a else b
  }

  // ---------- Parameters ----------

  function Digits(s: string): Option<nat> {
    if s == "" then Some(0)
    else
      var high, last := Digits(s[..|s| - 1]), s[|s| - 1];
      if high.Some? && '0' <= last <= '9' then Some(high.value * 10 + (last as int - '0' as int)) else None
  }

  /** A decimal number with an optional sign that fits 64 bits. */
  function Atoi(s: string): (r: Option<int>)
    ensures r.Some? ==> -MAX - 1 <= r.value <= MAX
  {
    var signed := s != "" && s[0] in "+-";
    var digits := Digits(if signed then s[1..] else s);
    if digits.None? || |s| == (if signed then 1 else 0) then None
    else
      var n: int := if signed && s[0] == '-' then -(digits.value as int) else digits.value;
      if -MAX - 1 <= n <= MAX then Some(n) else None
  }

  /** The number of the page asked for; the first unless a later one is named. */
  function PageNumber(page: string): (n: int)
    ensures 1 <= n <= MAX
  {
    var n := Atoi(page);
    if n.Some? && n.value >= 1 then n.value else 1
  }

  /** The page size asked for: ten by default, zero when it is not a positive number. */
  function PageSize(limit: string): (n: int)
    ensures 0 <= n <= MAX
  {
    if limit == "" then 10
    else
      var n := Atoi(limit);
      if n.Some? && n.value >= 1 then n.value else 0
  }

  /** A number as it is written. */
  function Decimal(n: nat): (s: string)
    ensures s != ""
  {
    if n < 10 then ["0123456789"[n]] else Decimal(n / 10) + ["0123456789"[n % 10]]
  }

  lemma DigitChar(d: nat)
    requires d < 10
    ensures '0' <= "0123456789"[d] <= '9' && "0123456789"[d] as int - '0' as int == d
  {
  }

  lemma {:induction false} DigitsOfDecimal(n: nat)
    ensures Digits(Decimal(n)) == Some(n)
    ensures '0' <= Decimal(n)[0] <= '9'
  {
    DigitChar(n % 10);
    if n >= 10 {
      DigitsOfDecimal(n / 10);
      var init, last := Decimal(n / 10), "0123456789"[n % 10];
      assert Decimal(n) == init + [last];
      assert (init + [last])[..|init|] == init;
    } else {
      assert Decimal(n)[..0] == "";
    }
  }

  lemma AtoiSigned(sign: char, digits: string, n: nat)
    requires sign in "+-" && digits != "" && Digits(digits) == Some(n)
    ensures
      var value: int := if sign == '-' then -(n as int) else n;
      Atoi([sign] + digits) == if -MAX - 1 <= value <= MAX then Some(value) else None
  {
    assert ([sign] + digits)[1..] == digits;
  }

  /** Numbers that are written, with or without a sign, are read back if they fit 64 bits, and otherwise rejected. */
  lemma AtoiReads(n: nat)
    ensures Atoi(Decimal(n)) == (if n <= MAX then Some(n) else None)
    ensures Atoi("+" + Decimal(n)) == (if n <= MAX then Some(n) else None)
    ensures Atoi("-" + Decimal(n)) == (if n <= MAX + 1 then Some(-(n as int)) else None)
  {
    DigitsOfDecimal(n);
    AtoiSigned('+', Decimal(n), n);
    AtoiSigned('-', Decimal(n), n);
  }

  lemma {:induction false} NotDigits(s: string, i: nat)
    requires i < |s| && !('0' <= s[i] <= '9')
    ensures Digits(s) == None
  {
    if i < |s| - 1 {
      NotDigits(s[..|s| - 1], i);
    }
  }

  /** Nothing else is a number: a lone sign, nothing at all, or any other character behind the sign. */
  lemma AtoiRejects(s: string, i: nat)
    ensures Atoi("") == None && Atoi("+") == None && Atoi("-") == None
    ensures i < |s| && !('0' <= s[i] <= '9') && (i > 0 || s[0] !in "+-") ==> Atoi(s) == None
  {
    if i < |s| && !('0' <= s[i] <= '9') && (i > 0 || s[0] !in "+-") {
      if s[0] in "+-" {
        NotDigits(s[1..], i - 1);
      } else {
        NotDigits(s, i);
      }
    }
  }

  /** What a query asks for by its page and its size: a number, or the first page, or ten, or no size. */
  lemma PageParameters(n: nat, s: string)
    ensures 1 <= n <= MAX ==> PageNumber(Decimal(n)) == n && PageSize(Decimal(n)) == n
    ensures n == 0 || n > MAX ==> PageNumber(Decimal(n)) == 1 && PageSize(Decimal(n)) == 0
    ensures PageNumber("-" + Decimal(n)) == 1 && PageSize("-" + Decimal(n)) == 0
    ensures PageNumber("") == 1 && PageSize("") == 10
    ensures Atoi(s) == None && s != "" ==> PageNumber(s) == 1 && PageSize(s) == 0
  {
    AtoiReads(n);
    AtoiRejects("", 0);
  }

  class Pagination {
    var limit: int
    var offset: int

    constructor ()
      ensures limit == 10 && offset == 0
    {
      limit, offset := 10, 0;
    }

    /** The part of a list of the given length that is on the page; the end is negative when it overflows. */
    method ComputeIndex(total: nat) returns (start: int, end: int)
      requires limit <= MAX && offset <= MAX
      ensures limit < 0 || offset < 0 || offset > total ==> start == 0 && end == 0
      ensures limit >= 0 && 0 <= offset <= total ==> start == offset
      ensures limit >= 0 && 0 <= offset <= total && offset + limit > MAX ==> end < 0
      ensures limit >= 0 && 0 <= offset <= total && offset + limit <= MAX ==>
        end == if offset + limit == 0 then total else Min(offset + limit, total)
    {
      start, end := 0, 0;
      if limit < 0 || offset < 0 || offset > total {
        return 0, 0;
      }
      start := offset;
      end := Wrap64(start + limit);
      if end > total || end == 0 {
        end := total;
      }
      if start > total {
        start := 0;
      }
    }
  }

  method ParsePagination(limit: string, page: string) returns (p: Pagination)
    ensures fresh(p)
    ensures p.limit == PageSize(limit) && p.offset == Wrap64((PageNumber(page) - 1) * 10)
  {
    p := new Pagination();
    if page != "" {
      var n := 1;
      var atoi := Atoi(page);
      if atoi.Some? && atoi.value >= 1 {
        n := atoi.value;
      }
      p.offset := Wrap64((n - 1) * p.limit);
    }
    if limit != "" {
      var n := 0;
      var atoi := Atoi(limit);
      if atoi.Some? && atoi.value >= 1 {
        n := atoi.value;
      }
      p.limit := n;
    }
  }

  // ---------- Sorting ----------

  /** x put behind the last element that it does not come before. */
  function Insert<T>(less: (T, T) -> bool, s: seq<T>, x: T): (r: seq<T>)
    ensures |r| == |s| + 1
  {
    if s != [] && less(x, s[|s| - 1]) then Insert(less, s[..|s| - 1], x) + [s[|s| - 1]] else s + [x]
  }

  function Sorted<T>(less: (T, T) -> bool, s: seq<T>): (r: seq<T>)
    ensures |r| == |s|
  {
    if s == [] then [] else Insert(less, Sorted(less, s[..|s| - 1]), s[|s| - 1])
  }

  lemma LastItem<T>(s: seq<T>)
    requires s != []
    ensures multiset(s) == multiset(s[..|s| - 1]) + multiset{s[|s| - 1]}
  {
    assert s == s[..|s| - 1] + [s[|s| - 1]];
  }

  lemma {:induction false} InsertKeepsItems<T>(less: (T, T) -> bool, s: seq<T>, x: T)
    ensures multiset(Insert(less, s, x)) == multiset(s) + multiset{x}
  {
    if s != [] && less(x, s[|s| - 1]) {
      InsertKeepsItems(less, s[..|s| - 1], x);
      LastItem(s);
    }
  }

  /** Sorting loses and adds nothing, whatever the comparison. */
  lemma {:induction false} SortedKeepsItems<T>(less: (T, T) -> bool, s: seq<T>)
    ensures multiset(Sorted(less, s)) == multiset(s)
  {
    if s != [] {
      SortedKeepsItems(less, s[..|s| - 1]);
      InsertKeepsItems(less, Sorted(less, s[..|s| - 1]), s[|s| - 1]);
      LastItem(s);
    }
  }

  /** One element may stand before another: it comes before it, or the other does not. */
  predicate Before<T>(less: (T, T) -> bool, x: T, y: T) {
    less(x, y) || !less(y, x)
  }

  ghost predicate IsTransitive<T(!new)>(less: (T, T) -> bool) {
    forall x, y, z :: Before(less, x, y) && Before(less, y, z) ==> Before(less, x, z)
  }

  predicate InOrder<T>(less: (T, T) -> bool, s: seq<T>) {
    forall i, j :: 0 <= i < j < |s| ==> Before(less, s[i], s[j])
  }

  lemma AppendInOrder<T(!new)>(less: (T, T) -> bool, s: seq<T>, x: T)
    requires IsTransitive(less) && InOrder(less, s) && (s != [] ==> Before(less, s[|s| - 1], x))
    ensures InOrder(less, s + [x])
  {
  }

  lemma {:induction false} InsertInOrder<T(!new)>(less: (T, T) -> bool, s: seq<T>, x: T)
    requires IsTransitive(less) && InOrder(less, s)
    ensures InOrder(less, Insert(less, s, x))
    ensures var r := Insert(less, s, x); r[|r| - 1] == x || (s != [] && r[|r| - 1] == s[|s| - 1])
  {
    if s != [] && less(x, s[|s| - 1]) {
      var init := s[..|s| - 1];
      InsertInOrder(less, init, x);
      AppendInOrder(less, Insert(less, init, x), s[|s| - 1]);
    } else {
      AppendInOrder(less, s, x);
    }
  }

  lemma {:induction false} SortedInOrder<T(!new)>(less: (T, T) -> bool, s: seq<T>)
    requires IsTransitive(less)
    ensures InOrder(less, Sorted(less, s))
  {
    if s != [] {
      SortedInOrder(less, s[..|s| - 1]);
      InsertInOrder(less, Sorted(less, s[..|s| - 1]), s[|s| - 1]);
    }
  }

  /** A comparison that orders all elements, up to ties. */
  ghost predicate IsWeakOrder<T(!new)>(c: (T, T) -> bool) {
    && (forall x, y :: c(x, y) ==> !c(y, x))
    && (forall x, y, z :: !c(x, y) && !c(y, z) ==> !c(x, z))
  }

  function Negated<T>(c: (T, T) -> bool): (T, T) -> bool {
    (x, y) => !c(x, y)
  }

  /**
   The insertion sort that serves short lists ascends with a weak order and descends with its negation, ties
   included.
   */
  lemma InsertionSortsBothWays<T(!new)>(c: (T, T) -> bool, s: seq<T>)
    requires IsWeakOrder(c)
    ensures Unbroken(c, Sorted(c, s))
    ensures Unbroken(Flipped(c), Sorted(Negated(c), s))
  {
    SortedInOrder(c, s);
    SortedInOrder(Negated(c), s);
  }

  // ---------- Any sort that keeps its promise ----------

  function Flipped<T>(c: (T, T) -> bool): (T, T) -> bool {
    (x, y) => c(y, x)
  }

  /** No element comes before one that stands in front of it. */
  predicate Unbroken<T>(c: (T, T) -> bool, s: seq<T>) {
    forall i, j :: 0 <= i < j < |s| ==> !c(s[j], s[i])
  }

  /** Two comparisons that cannot be told apart by comparing different positions of a list. */
  predicate Agree<T>(less: (T, T) -> bool, c: (T, T) -> bool, s: seq<T>) {
    forall i, j :: 0 <= i < |s| && 0 <= j < |s| && i != j ==> less(s[i], s[j]) == c(s[i], s[j])
  }

  /**
   What a sort promises: the same elements, and in order if on this list the comparison is a weak order.
   Nothing is promised about the order of ties, or for any other comparison.
   */
  ghost predicate Arranges<T(!new)>(less: (T, T) -> bool, s: seq<T>, r: seq<T>) {
    multiset(r) == multiset(s) && forall c: (T, T) -> bool :: IsWeakOrder(c) && Agree(less, c, s) ==> Unbroken(c, r)
  }

  /** No two positions of the list tie. */
  predicate NoTies<T>(c: (T, T) -> bool, s: seq<T>) {
    forall i, j :: 0 <= i < |s| && 0 <= j < |s| && i != j ==> c(s[i], s[j]) || c(s[j], s[i])
  }

  lemma {:induction false} InsertAlike<T>(less: (T, T) -> bool, c: (T, T) -> bool, s: seq<T>, x: T)
    requires forall y :: y in s ==> less(x, y) == c(x, y)
    ensures Insert(less, s, x) == Insert(c, s, x)
  {
    if s != [] {
      assert s[|s| - 1] in s;
      InsertAlike(less, c, s[..|s| - 1], x);
    }
  }

  lemma AgreeWithLast<T>(less: (T, T) -> bool, c: (T, T) -> bool, s: seq<T>, r: seq<T>)
    requires s != [] && Agree(less, c, s) && multiset(r) == multiset(s[..|s| - 1])
    ensures forall y :: y in r ==> less(s[|s| - 1], y) == c(s[|s| - 1], y)
  {
    var n := |s| - 1;
    forall y | y in r
      ensures less(s[n], y) == c(s[n], y)
    {
      assert y in multiset(s[..n]);
      var k :| 0 <= k < n && s[..n][k] == y;
      assert s[k] == y;
    }
  }

  lemma {:induction false} SortedAlike<T>(less: (T, T) -> bool, c: (T, T) -> bool, s: seq<T>)
    requires Agree(less, c, s)
    ensures Sorted(less, s) == Sorted(c, s)
  {
    if s != [] {
      var init := s[..|s| - 1];
      assert Agree(less, c, init);
      SortedAlike(less, c, init);
      SortedKeepsItems(c, init);
      AgreeWithLast(less, c, s, Sorted(c, init));
      InsertAlike(less, c, Sorted(c, init), s[|s| - 1]);
    }
  }

  /** The insertion sort keeps the promise. */
  lemma SortedArranges<T(!new)>(less: (T, T) -> bool, s: seq<T>)
    ensures Arranges(less, s, Sorted(less, s))
  {
    SortedKeepsItems(less, s);
    forall c: (T, T) -> bool | IsWeakOrder(c) && Agree(less, c, s)
      ensures Unbroken(c, Sorted(less, s))
    {
      SortedAlike(less, c, s);
      InsertionSortsBothWays(c, s);
    }
  }

  /** Different elements do not tie. */
  ghost predicate Ranked<T(!new)>(c: (T, T) -> bool, s: seq<T>) {
    forall x, y :: x in s && y in s && x != y ==> c(x, y) || c(y, x)
  }

  lemma LastAgrees<T(!new)>(c: (T, T) -> bool, r: seq<T>, r': seq<T>)
    requires Unbroken(c, r) && Unbroken(c, r') && multiset(r) == multiset(r') && r != [] && r' != []
    requires Ranked(c, r)
    ensures r[|r| - 1] == r'[|r'| - 1]
  {
    var x, y := r[|r| - 1], r'[|r'| - 1];
    assert x in multiset(r') && y in multiset(r);
    var k :| 0 <= k < |r'| && r'[k] == x;
    var l :| 0 <= l < |r| && r[l] == y;
    assert x == y || (!c(x, y) && !c(y, x));
  }

  lemma WithoutLast<T>(r: seq<T>, r': seq<T>)
    requires multiset(r) == multiset(r') && r != [] && r' != [] && r[|r| - 1] == r'[|r'| - 1]
    ensures multiset(r[..|r| - 1]) == multiset(r'[..|r'| - 1])
  {
    LastItem(r);
    LastItem(r');
    assert multiset(r[..|r| - 1]) == multiset(r) - multiset{r[|r| - 1]};
  }

  lemma SameSize<T>(r: seq<T>, r': seq<T>)
    requires multiset(r) == multiset(r')
    ensures |r| == |r'|
  {
    assert |multiset(r)| == |multiset(r')|;
  }

  lemma {:induction false} OneArrangement<T(!new)>(c: (T, T) -> bool, r: seq<T>, r': seq<T>)
    requires Unbroken(c, r) && Unbroken(c, r') && multiset(r) == multiset(r') && Ranked(c, r)
    ensures r == r'
    decreases |r|
  {
    SameSize(r, r');
    if r != [] {
      var init, init' := r[..|r| - 1], r'[..|r| - 1];
      LastAgrees(c, r, r');
      WithoutLast(r, r');
      assert Ranked(c, init) by {
        assert forall x :: x in init ==> x in r;
      }
      OneArrangement(c, init, init');
      assert r == init + [r[|r| - 1]] && r' == init' + [r'[|r| - 1]];
    }
  }

  lemma NoTiesAmong<T(!new)>(c: (T, T) -> bool, s: seq<T>, r: seq<T>)
    requires NoTies(c, s) && multiset(r) == multiset(s)
    ensures Ranked(c, r)
  {
    forall x, y | x in r && y in r && x != y
      ensures c(x, y) || c(y, x)
    {
      assert x in multiset(s) && y in multiset(s);
      var i :| 0 <= i < |s| && s[i] == x;
      var j :| 0 <= j < |s| && s[j] == y;
    }
  }

  /**
   Whatever sort keeps its promise: a weak order ascends, ties in any order.  Without ties its negation
   descends, and there is one arrangement either way, so that all pages of a list are cut from the same one.
   */
  lemma SortsBothWays<T(!new)>(c: (T, T) -> bool, s: seq<T>, up: seq<T>, down: seq<T>)
    requires IsWeakOrder(c) && Arranges(c, s, up) && Arranges(Negated(c), s, down)
    ensures Unbroken(c, up)
    ensures NoTies(c, s) ==> Unbroken(Flipped(c), down) && up == Sorted(c, s) && down == Sorted(Negated(c), s)
  {
    assert Agree(c, c, s);
    if NoTies(c, s) {
      assert IsWeakOrder(Flipped(c)) && Agree(Negated(c), Flipped(c), s);
      InsertionSortsBothWays(c, s);
      SortedKeepsItems(c, s);
      SortedKeepsItems(Negated(c), s);
      NoTiesAmong(c, s, up);
      NoTiesAmong(c, s, down);
      assert Ranked(Flipped(c), down);
      OneArrangement(c, up, Sorted(c, s));
      OneArrangement(Flipped(c), down, Sorted(Negated(c), s));
    }
  }

  /** The library's sort: one result for each comparison and list, which keeps the promise. */
  type Sort<!T> = ((T, T) -> bool, seq<T>) -> seq<T>

  ghost predicate IsSort<T(!new)>(sort: Sort<T>) {
    forall less: (T, T) -> bool, s: seq<T> :: Arranges(less, s, sort(less, s))
  }

  function InsertionSort<T>(): Sort<T> {
    (less: (T, T) -> bool, s: seq<T>) => Sorted(less, s)
  }

  /** There is such a sort: the insertion sort is one. */
  lemma InsertionIsSort<T(!new)>()
    ensures IsSort<T>(InsertionSort())
  {
    forall less: (T, T) -> bool, s: seq<T>
      ensures Arranges(less, s, Sorted(less, s))
    {
      SortedArranges(less, s);
    }
  }

  // ---------- Pages ----------

  type Filters = map<string, string>

  datatype Query = Query(pagination: Pagination, sortBy: string, ascending: bool, filters: Option<Filters>)

  /** A page with the number of items on all pages, or a crash on a slice out of range. */
  datatype Result<T> = Page(total: nat, items: seq<T>) | Panic

  method KeepMatching<T>(f: Filters, d: seq<T>, fc: (T, Filters) -> bool) returns (data: seq<T>)
    ensures data == Filter(Matches(fc, f), d)
  {
    data := [];
    for i := 0 to |d|
      invariant data == Filter(Matches(fc, f), d[..i])
    {
      assert d[..i + 1] == d[..i] + [d[i]];
      FilterAppend(Matches(fc, f), d[..i], d[i]);
      if fc(d[i], f) {
        data := data + [d[i]];
      }
    }
    assert d[..|d|] == d;
  }

  function Matches<T>(fc: (T, Filters) -> bool, f: Filters): T -> bool {
    x => fc(x, f)
  }

  /** The comparison a query sorts with. */
  function LessOf<T>(c: (T, T, string) -> bool, sortBy: string, ascending: bool): (T, T) -> bool {
    if ascending then By(c, sortBy) else Negated(By(c, sortBy))
  }

  /** The items a query keeps. */
  function Kept<T>(data: seq<T>, q: Query, f: Option<(T, Filters) -> bool>): seq<T> {
    if q.filters.Some? && f.Some? then Filter(Matches(f.value, q.filters.value), data) else data
  }

  /** The list whose pages a query is about. */
  function Listing<T>(sort: Sort<T>, data: seq<T>, q: Query, c: Option<(T, T, string) -> bool>,
                      f: Option<(T, Filters) -> bool>): seq<T> {
    var kept := Kept(data, q, f);
    if q.sortBy != "" && c.Some? then sort(LessOf(c.value, q.sortBy, q.ascending), kept) else kept
  }

  /** The comparison by one field. */
  function By<T>(c: (T, T, string) -> bool, sortBy: string): (T, T) -> bool {
    (x, y) => c(x, y, sortBy)
  }

  /** Filtering drops what the filter function rejects, if the query has filters and there is such a function. */
  lemma KeptIs<T>(data: seq<T>, q: Query, f: Option<(T, Filters) -> bool>, x: T)
    ensures multiset(Kept(data, q, f))[x]
         == if q.filters.Some? && f.Some? && !f.value(x, q.filters.value) then 0 else multiset(data)[x]
  {
    if q.filters.Some? && f.Some? {
      FilterMembers(Matches(f.value, q.filters.value), data, x);
    }
  }

  /** Without sorting the listing is what the filter function accepts of the data, in order. */
  lemma UnsortedListing<T>(sort: Sort<T>, data: seq<T>, q: Query, c: Option<(T, T, string) -> bool>,
                           f: Option<(T, Filters) -> bool>)
    requires q.sortBy == "" || c.None?
    ensures q.filters.None? || f.None? ==> Listing(sort, data, q, c, f) == data
    ensures q.filters.Some? && f.Some? ==>
      Listing(sort, data, q, c, f) == Filter((x: T) => f.value(x, q.filters.value), data)
  {
    if q.filters.Some? && f.Some? {
      FilterSame(Matches(f.value, q.filters.value), (x: T) => f.value(x, q.filters.value), data);
    }
  }

  /**
   A listing holds exactly the items of the data that are not filtered out; by a weak order it ascends, and it
   descends when there are no ties.
   */
  lemma ListingIsSorted<T(!new)>(sort: Sort<T>, data: seq<T>, q: Query, c: Option<(T, T, string) -> bool>,
                                 f: Option<(T, Filters) -> bool>)
    requires IsSort(sort)
    ensures forall x :: multiset(Listing(sort, data, q, c, f))[x]
                     == if q.filters.Some? && f.Some? && !f.value(x, q.filters.value) then 0 else multiset(data)[x]
    ensures q.sortBy != "" && c.Some? && IsWeakOrder(By(c.value, q.sortBy)) ==>
      var list := Listing(sort, data, q, c, f);
      && (q.ascending ==> forall i, j :: 0 <= i < j < |list| ==> !c.value(list[j], list[i], q.sortBy))
      && (!q.ascending && NoTies(By(c.value, q.sortBy), data) ==>
            forall i, j :: 0 <= i < j < |list| ==> !c.value(list[i], list[j], q.sortBy))
  {
    forall x
      ensures multiset(Kept(data, q, f))[x]
           == if q.filters.Some? && f.Some? && !f.value(x, q.filters.value) then 0 else multiset(data)[x]
    {
      KeptIs(data, q, f, x);
    }
    if q.sortBy != "" && c.Some? {
      var kept, order := Kept(data, q, f), By(c.value, q.sortBy);
      assert Arranges(LessOf(c.value, q.sortBy, q.ascending), kept, Listing(sort, data, q, c, f));
      if IsWeakOrder(order) {
        assert Arranges(order, kept, sort(order, kept)) && Arranges(Negated(order), kept, sort(Negated(order), kept));
        if NoTies(order, data) {
          KeptHasNoTies(order, data, q, f);
        }
        SortsBothWays(order, kept, sort(order, kept), sort(Negated(order), kept));
        var list := Listing(sort, data, q, c, f);
        assert q.ascending ==> Unbroken(order, list);
        assert !q.ascending && NoTies(order, data) ==> Unbroken(Flipped(order), list);
      }
    }
  }

  lemma {:induction false} FilterNoTies<T>(c: (T, T) -> bool, p: T -> bool, s: seq<T>)
    requires NoTies(c, s)
    ensures NoTies(c, Filter(p, s))
  {
    if s != [] {
      assert NoTies(c, s[1..]);
      FilterNoTies(c, p, s[1..]);
      if p(s[0]) {
        var rest := Filter(p, s[1..]);
        forall j | 0 <= j < |rest|
          ensures c(s[0], rest[j]) || c(rest[j], s[0])
        {
          FilterMembers(p, s[1..], rest[j]);
          var k :| 0 <= k < |s[1..]| && s[1..][k] == rest[j];
          assert s[k + 1] == rest[j];
        }
        assert Filter(p, s) == [s[0]] + rest;
      }
    }
  }

  lemma KeptHasNoTies<T>(c: (T, T) -> bool, data: seq<T>, q: Query, f: Option<(T, Filters) -> bool>)
    requires NoTies(c, data)
    ensures NoTies(c, Kept(data, q, f))
  {
    if q.filters.Some? && f.Some? {
      FilterNoTies(c, Matches(f.value, q.filters.value), data);
    }
  }

  /** The number of items that are not filtered out. */
  lemma ListingSize<T(!new)>(sort: Sort<T>, data: seq<T>, q: Query, c: Option<(T, T, string) -> bool>,
                             f: Option<(T, Filters) -> bool>)
    requires IsSort(sort)
    ensures |Listing(sort, data, q, c, f)|
         == if q.filters.Some? && f.Some? then |Filter((x: T) => f.value(x, q.filters.value), data)| else |data|
  {
    if q.filters.Some? && f.Some? {
      FilterSame(Matches(f.value, q.filters.value), (x: T) => f.value(x, q.filters.value), data);
    }
    if q.sortBy != "" && c.Some? {
      var kept := Kept(data, q, f);
      assert Arranges(LessOf(c.value, q.sortBy, q.ascending), kept, Listing(sort, data, q, c, f));
      SameSize(Listing(sort, data, q, c, f), kept);
    }
  }

  /** What is on a page of a given size from a given offset on; size zero from the start is everything. */
  function Cut<T>(list: seq<T>, limit: nat, offset: int): seq<T> {
    if 0 <= offset <= |list| then
      if offset + limit == 0 then list else list[offset..Min(offset + limit, |list|)]
    else []
  }

  /** The items of a page are those from its offset on, as many as its size and the list allow. */
  lemma CutIs<T>(list: seq<T>, limit: nat, offset: int)
    ensures offset < 0 || offset > |list| ==> Cut(list, limit, offset) == []
    ensures limit > 0 && 0 <= offset <= |list| ==>
      && |Cut(list, limit, offset)| == (if limit < |list| - offset then limit else |list| - offset)
      && forall i :: 0 <= i < |Cut(list, limit, offset)| ==> Cut(list, limit, offset)[i] == list[offset + i]
    ensures limit == 0 && 0 <= offset <= |list| ==> Cut(list, limit, offset) == if offset == 0 then list else []
  {
  }

  /** The end of the page does not fit 64 bits, and the slice is out of range. */
  predicate Overflows(limit: nat, offset: int, total: nat) {
    0 <= offset <= total && offset + limit > MAX
  }

  /** The data is missing when it could not be turned into items. */
  method GetPageData<T>(sort: Sort<T>, q: Query, data: Option<seq<T>>, c: Option<(T, T, string) -> bool>,
                        f: Option<(T, Filters) -> bool>) returns (r: Result<T>)
    requires 0 <= q.pagination.limit <= MAX && q.pagination.offset <= MAX
    ensures data.None? ==> r == Page(0, [])
    ensures data.Some? ==>
      var list := Listing(sort, data.value, q, c, f);
      var limit, offset := q.pagination.limit, q.pagination.offset;
      r == if Overflows(limit, offset, |list|) then Panic else Page(|list|, Cut(list, limit, offset))
  {
    if data.None? {
      return Page(0, []);
    }
    var toMap := data.value;
    if q.filters.Some? && f.Some? {
      toMap := KeepMatching(q.filters.value, toMap, f.value);
    }
    if q.sortBy != "" && c.Some? {
      toMap := sort(LessOf(c.value, q.sortBy, q.ascending), toMap);
    }
    r := Slice(q.pagination, toMap);
  }

  method Slice<T>(p: Pagination, list: seq<T>) returns (r: Result<T>)
    requires 0 <= p.limit <= MAX && p.offset <= MAX
    ensures r == if Overflows(p.limit, p.offset, |list|) then Panic else Page(|list|, Cut(list, p.limit, p.offset))
  {
    var start, end := p.ComputeIndex(|list|);
    if 0 <= start <= end <= |list| {
      r := Page(|list|, list[start..end]);
    } else {
      r := Panic;
    }
  }

  // ---------- What the pages of a list add up to ----------

  /** The offset of page n, as ParsePagination stores it. */
  function OffsetOf(n: int): int {
    Wrap64((n - 1) * 10)
  }

  /** Page n of a list at a page size. */
  function PageOf<T>(list: seq<T>, limit: nat, n: int): seq<T> {
    Cut(list, limit, OffsetOf(n))
  }

  function Window<T>(list: seq<T>, from: nat, size: nat): seq<T> {
    list[Min(from, |list|)..Min(from + size, |list|)]
  }

  /** At the default size page n is the n-th ten of the list, unless its offset wraps back into the list. */
  lemma PageIsIff<T>(list: seq<T>, n: nat)
    requires n >= 1 && |list| <= MAX
    ensures PageOf(list, 10, n) == Window(list, (n - 1) * 10, 10)
       <==> !((n - 1) * 10 > MAX && 0 <= Wrap64((n - 1) * 10) < |list|)
  {
    var offset := Wrap64((n - 1) * 10);
    if (n - 1) * 10 > MAX {
      assert Window(list, (n - 1) * 10, 10) == [];
      if 0 <= offset <= |list| {
        assert |PageOf(list, 10, n)| == Min(offset + 10, |list|) - offset;
      }
    }
  }

  /** A page number whose offset wraps to four. */
  lemma WrapsToFour<T>(list: seq<T>)
    requires 4 <= |list|
    ensures PageOf(list, 10, 1844674407370955163) == Window(list, 4, 10)
  {
  }

  /** The first k pages of a list, one after the other. */
  function Pages<T>(list: seq<T>, limit: nat, k: nat): seq<T> {
    if k == 0 then [] else Pages(list, limit, k - 1) + PageOf(list, limit, k)
  }

  /** At the default size the pages give each item once and in order, and none after the last. */
  lemma {:induction false} PagesTile<T>(list: seq<T>, k: nat)
    requires |list| <= MAX && (k - 1) * 10 <= MAX
    ensures Pages(list, 10, k) == list[..Min(10 * k, |list|)]
    ensures k >= 1 && (k - 1) * 10 >= |list| ==> PageOf(list, 10, k) == []
  {
    if k > 0 {
      PagesTile(list, k - 1);
      PageIsIff(list, k);
      WindowExtends(list, (k - 1) * 10, 10);
    }
  }

  lemma WindowExtends<T>(list: seq<T>, from: nat, size: nat)
    ensures list[..Min(from, |list|)] + Window(list, from, size) == list[..Min(from + size, |list|)]
  {
  }

  lemma PageLength<T>(list: seq<T>, limit: nat, n: nat)
    requires n >= 1 && (n - 1) * 10 <= MAX && limit > 0
    ensures |PageOf(list, limit, n)| == Min((n - 1) * 10 + limit, |list|) - Min((n - 1) * 10, |list|)
  {
  }

  lemma {:induction false} SmallPagesSkip<T>(list: seq<T>, limit: nat, k: nat)
    requires 0 < limit < 10 && limit < |list| && k >= 1 && (k - 1) * 10 <= MAX
    ensures |Pages(list, limit, k)| < Min(10 * k, |list|)
  {
    PageLength(list, limit, k);
    if k > 1 {
      SmallPagesSkip(list, limit, k - 1);
    } else {
      assert Pages(list, limit, 0) == [];
    }
  }

  lemma {:induction false} LargePagesRepeat<T>(list: seq<T>, limit: nat, k: nat)
    requires limit > 10 && |list| > 10 && k >= 1 && (k - 1) * 10 <= MAX
    ensures |Pages(list, limit, k)| > Min(10 * k, |list|)
  {
    PageLength(list, limit, k);
    if k > 1 {
      LargePagesRepeat(list, limit, k - 1);
    } else {
      assert Pages(list, limit, 0) == [];
    }
  }

  lemma {:induction false} FirstPageIsAll<T>(list: seq<T>, limit: nat, k: nat)
    requires limit == 0 || |list| <= Min(10, limit)
    requires k >= 1 && (k - 1) * 10 <= MAX
    ensures Pages(list, limit, k) == list
  {
    if k == 1 {
      assert Pages(list, limit, 0) == [];
      assert PageOf(list, limit, 1) == list;
    } else {
      FirstPageIsAll(list, limit, k - 1);
      assert PageOf(list, limit, k) == [];
    }
  }

  /** Every page number that fits 64 bits may be asked for, also those whose offset wraps. */
  predicate PageCrashes(limit: nat, total: nat, n: nat) {
    1 <= n <= MAX && Overflows(limit, OffsetOf(n), total)
  }

  lemma OffsetIsEven(n: nat)
    ensures OffsetOf(n) % 2 == 0
  {
    var q := ((n - 1) * 10 + MAX + 1) / (2 * (MAX + 1));
    IsEven(OffsetOf(n), 5 * (n - 1) - q * (MAX + 1));
  }

  lemma IsEven(x: int, half: int)
    requires x == 2 * half
    ensures x % 2 == 0
  {
  }

  /** The inverse of five in 63 bits. */
  const FIFTH := 5534023222112865485

  /** The page whose offset is a given even number. */
  function PageAt(offset: nat): nat {
    offset / 2 * FIFTH % (MAX + 1) + 1
  }

  lemma Tenfold(half: nat, q: nat, r: nat)
    requires half * FIFTH == q * (MAX + 1) + r
    ensures r * 10 == 2 * half + (3 * half - 5 * q) * (2 * (MAX + 1))
  {
  }

  lemma PageAtHasOffset(offset: nat)
    requires offset % 2 == 0 && offset <= MAX
    ensures 1 <= PageAt(offset) <= MAX
    ensures OffsetOf(PageAt(offset)) == offset
  {
    var half := offset / 2;
    var q, r := half * FIFTH / (MAX + 1), half * FIFTH % (MAX + 1);
    Tenfold(half, q, r);
    NotTheLast(offset, r, 3 * half - 5 * q);
    WrapsBack(offset, 3 * half - 5 * q);
  }

  lemma NotTheLast(offset: nat, r: nat, k: int)
    requires offset <= MAX && r <= MAX && r * 10 == offset + k * (2 * (MAX + 1))
    ensures r < MAX
  {
  }

  lemma WrapsBack(x: int, k: int)
    requires -MAX - 1 <= x <= MAX
    ensures Wrap64(x + k * (2 * (MAX + 1))) == x
  {
    var m := 2 * (MAX + 1);
    assert (x + MAX + 1 + k * m) % m == x + MAX + 1;
  }

  /**
   The offsets that pages reach within a listing are the even ones, wrapped or not; no page crashes
   exactly when a page from the last of them on does not.
   */
  lemma NoneCrashesIff(limit: nat, total: nat)
    requires total <= MAX
    ensures (forall n: nat :: !PageCrashes(limit, total, n)) <==> total / 2 * 2 + limit <= MAX
  {
    if total / 2 * 2 + limit > MAX {
      PageAtHasOffset(total / 2 * 2);
      assert PageCrashes(limit, total, PageAt(total / 2 * 2));
    } else {
      forall n: nat
        ensures !PageCrashes(limit, total, n)
      {
        OffsetIsEven(n);
      }
    }
  }

  /** Pages up to the end of the list by tens give it exactly for size ten, no size, or a list that fits one page. */
  lemma EnoughPagesIff<T>(list: seq<T>, limit: nat, k: nat)
    requires |list| <= MAX && k >= 1 && (k - 1) * 10 <= MAX && |list| <= 10 * k
    ensures Pages(list, limit, k) == list <==> limit == 10 || limit == 0 || |list| <= Min(10, limit)
  {
    if limit == 10 {
      PagesTile(list, k);
    } else if limit == 0 || |list| <= Min(10, limit) {
      FirstPageIsAll(list, limit, k);
    } else if limit < 10 {
      SmallPagesSkip(list, limit, k);
    } else {
      LargePagesRepeat(list, limit, k);
    }
  }

  /** How many pages of a size hold a list. */
  function PageCount(total: nat, limit: nat): nat
    requires limit > 0
  {
    (total + limit - 1) / limit
  }

  lemma {:induction false} PagesKeep<T>(list: seq<T>, limit: nat, j: nat, k: nat)
    requires j <= k
    ensures Pages(list, limit, j) <= Pages(list, limit, k)
  {
    if j < k {
      PagesKeep(list, limit, j, k - 1);
    }
  }

  lemma PagesTwo<T>(list: seq<T>, limit: nat)
    requires 0 < limit < |list|
    ensures Pages(list, limit, 2) == list[..limit] + Window(list, 10, limit)
  {
    assert Pages(list, limit, 0) == [];
    assert Pages(list, limit, 1) == PageOf(list, limit, 1) == list[..limit];
    assert PageOf(list, limit, 2) == Window(list, 10, limit);
  }

  lemma CountPages(total: nat, limit: nat)
    requires limit > 0
    ensures total <= limit ==> PageCount(total, limit) == if total == 0 then 0 else 1
    ensures limit < total ==> 2 <= PageCount(total, limit) <= total
  {
    var a := total + limit - 1;
    QuotientAtLeast(a, limit, 1);
    QuotientAtLeast(a, limit, 2);
    QuotientAtLeast(a, limit, total + 1);
    assert (total + 1) * limit == total * limit + limit;
    assert total * limit >= total;
  }

  lemma CountTens(total: nat)
    ensures total <= 10 * PageCount(total, 10) < total + 10
  {
  }

  /** The item after the first page is another one than the first item of the second page. */
  lemma SecondPageIsOff<T>(list: seq<T>, limit: nat, k: nat)
    requires Distinct(list) && 0 < limit < |list| && limit != 10 && |list| > 10 && k >= 2
    ensures Pages(list, limit, k) != list
  {
    PagesTwo(list, limit);
    PagesKeep(list, limit, 2, k);
    assert Pages(list, limit, 2)[limit] == list[10];
    assert Pages(list, limit, k)[limit] == list[10];
    assert list[10] != list[limit];
  }

  /**
   As many pages as hold the list give each of its items once and in order exactly when the size is the
   default or one page holds the list: the offset steps by ten whatever the size is.  Items are told apart.
   */
  lemma TilesIff<T>(list: seq<T>, limit: nat)
    requires |list| <= MAX && limit > 0 && Distinct(list)
    ensures Pages(list, limit, PageCount(|list|, limit)) == list <==> limit == 10 || |list| <= limit
  {
    var k := PageCount(|list|, limit);
    CountPages(|list|, limit);
    if limit == 10 {
      CountTens(|list|);
      PagesTile(list, k);
    } else if |list| <= limit {
      OnePageIsAll(list, limit);
    } else if |list| > 10 {
      SecondPageIsOff(list, limit, k);
    } else {
      SmallPagesSkip(list, limit, k);
    }
  }

  lemma OnePageIsAll<T>(list: seq<T>, limit: nat)
    requires |list| <= limit && limit > 0
    ensures list == [] ==> Pages(list, limit, 0) == list
    ensures Pages(list, limit, 1) == list
  {
    assert Pages(list, limit, 0) == [];
    assert PageOf(list, limit, 1) == list;
  }
}
