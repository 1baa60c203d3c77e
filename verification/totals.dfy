/** Totals over a list of parts, and how replacing one part changes them. */
module Totals {
  function Union<T>(parts: seq<multiset<T>>): multiset<T> {
    if parts == [] then multiset{} else parts[0] + Union(parts[1..])
  }

  lemma {:induction false} UnionConcat<T>(a: seq<multiset<T>>, b: seq<multiset<T>>)
    ensures Union(a + b) == Union(a) + Union(b)
  {
    if a == [] {
      assert a + b == b;
    } else {
      assert (a + b)[1..] == a[1..] + b;
      UnionConcat(a[1..], b);
    }
  }

  lemma UnionAppend<T>(a: seq<multiset<T>>, m: multiset<T>)
    ensures Union(a + [m]) == Union(a) + m
  {
    UnionConcat(a, [m]);
    assert [m][1..] == [];
  }

  lemma UnionOne<T>(m: multiset<T>)
    ensures Union([m]) == m
  {
    UnionAppend([], m);
    assert [] + [m] == [m];
  }

  lemma {:induction false} UnionUpdate<T>(parts: seq<multiset<T>>, i: nat, m: multiset<T>)
    requires i < |parts|
    ensures Union(parts[i := m]) + parts[i] == Union(parts) + m
  {
    var parts' := parts[i := m];
    var rest, rest' := Union(parts[1..]), Union(parts'[1..]);
    if i == 0 {
      assert parts'[1..] == parts[1..];
      Swap(m, rest, parts[0]);
    } else {
      assert parts'[1..] == parts[1..][i - 1 := m];
      UnionUpdate(parts[1..], i - 1, m);
      assert (parts[0] + rest') + parts[i] == parts[0] + (rest' + parts[i]);
      assert (parts[0] + rest) + m == parts[0] + (rest + m);
    }
  }

  lemma Swap<T>(a: multiset<T>, b: multiset<T>, c: multiset<T>)
    ensures (a + b) + c == (c + b) + a
  {
  }

  /** A part that gives up `out` lowers the union by exactly `out`. */
  lemma UnionGives<T>(parts: seq<multiset<T>>, i: nat, m: multiset<T>, out: multiset<T>)
    requires i < |parts| && parts[i] == out + m
    ensures out + Union(parts[i := m]) == Union(parts)
  {
    UnionUpdate(parts, i, m);
    var union, union' := Union(parts), Union(parts[i := m]);
    assert union' + (out + m) == (out + union') + m;
    assert ((out + union') + m) - m == out + union';
    assert (union + m) - m == union;
  }

  lemma {:induction false} UnionEmpty<T>(parts: seq<multiset<T>>)
    requires forall i :: 0 <= i < |parts| ==> parts[i] == multiset{}
    ensures Union(parts) == multiset{}
  {
    if parts != [] {
      UnionEmpty(parts[1..]);
    }
  }

  lemma {:induction false} InUnion<T>(parts: seq<multiset<T>>, i: nat, x: T)
    requires i < |parts| && x in parts[i]
    ensures x in Union(parts)
  {
    if i > 0 {
      InUnion(parts[1..], i - 1, x);
    }
  }

  lemma {:induction false} FromUnion<T>(parts: seq<multiset<T>>, x: T) returns (i: nat)
    requires x in Union(parts)
    ensures i < |parts| && x in parts[i]
  {
    if x in parts[0] {
      i := 0;
    } else {
      i := FromUnion(parts[1..], x);
      i := i + 1;
    }
  }

  function Sum(parts: seq<nat>): nat {
    if parts == [] then 0 else parts[0] + Sum(parts[1..])
  }

  lemma {:induction false} SumUpdate(parts: seq<nat>, i: nat, n: nat)
    requires i < |parts|
    ensures Sum(parts[i := n]) + parts[i] == Sum(parts) + n
  {
    if i == 0 {
      assert parts[i := n][1..] == parts[1..];
    } else {
      assert parts[i := n][1..] == parts[1..][i - 1 := n];
      SumUpdate(parts[1..], i - 1, n);
    }
  }

  lemma {:induction false} SumConcat(a: seq<nat>, b: seq<nat>)
    ensures Sum(a + b) == Sum(a) + Sum(b)
  {
    if a == [] {
      assert a + b == b;
    } else {
      assert (a + b)[1..] == a[1..] + b;
      SumConcat(a[1..], b);
    }
  }

  lemma {:induction false} SumBound(parts: seq<nat>, bound: nat)
    requires forall i :: 0 <= i < |parts| ==> parts[i] <= bound
    ensures Sum(parts) <= bound * |parts|
  {
    if parts != [] {
      SumBound(parts[1..], bound);
      assert bound * |parts| == bound + bound * |parts[1..]|;
    }
  }
}
