/** Vocabulary shared by the models: optional values, query types, and lists without repetition. */
module Basics {

  const UINT64_MAX: nat := 0xFFFF_FFFF_FFFF_FFFF

  type byte = x: nat | x < 256
  type u16 = x: nat | x < 0x1_0000
  type u32 = x: nat | x < 0x1_0000_0000
  type u64 = x: nat | x < 0x1_0000_0000_0000_0000

  datatype Option<+T> = None | Some(value: T)
  /** The query types the relay asks for. */
  datatype QueryKind = A | AAAA | SRV

  ghost predicate Distinct<T>(s: seq<T>) {
    forall i, j :: 0 <= i < j < |s| ==> s[i] != s[j]
  }

  /** Unlinking one element of a doubly linked list. */
  function Unlink<T(==)>(s: seq<T>, x: T): (r: seq<T>)
    ensures |s| - 1 <= |r| <= |s|
    ensures x in s ==> |r| == |s| - 1
    ensures x !in s ==> r == s
    ensures forall y :: y in r ==> y in s
    ensures forall y :: y in s && y != x ==> y in r
  {
    if s == [] then []
    else if s[0] == x then s[1..]
    else [s[0]] + Unlink(s[1..], x)
  }

  lemma {:induction false} UnlinkDistinct<T>(s: seq<T>, x: T)
    requires Distinct(s)
    ensures Distinct(Unlink(s, x))
    ensures x !in Unlink(s, x)
  {
    if s != [] && s[0] != x {
      var rest := s[1..];
      UnlinkDistinct(rest, x);
      var t := Unlink(rest, x);
      assert s[0] !in t;
      assert Unlink(s, x) == [s[0]] + t;
    }
  }

  lemma Extended<T>(s: seq<T>, x: T, r: seq<T>)
    requires Distinct(s) && x !in s
    requires r == [x] + s || r == s + [x]
    ensures Distinct(r)
    ensures forall y :: y in r <==> y == x || y in s
  {
  }

  lemma {:induction false} DistinctOnce<T>(s: seq<T>, x: T)
    requires Distinct(s)
    ensures multiset(s)[x] == if x in s then 1 else 0
  {
    if s != [] {
      DistinctOnce(s[1..], x);
      assert s == [s[0]] + s[1..];
    }
  }

  // ---------------------------------------------------------------- sums over a table

  ghost function Weigh(m: map<nat, nat>): (r: nat)
    decreases |m|
  {
    if m == map[] then 0
    else
      assert m.Keys != {};
      var k :| k in m;
      assert |m - {k}| < |m| by { Fewer(m, k); }
      m[k] + Weigh(m - {k})
  }

  lemma Fewer<V>(m: map<nat, V>, k: nat)
    requires k in m
    ensures |m - {k}| == |m| - 1
  {
    assert m.Keys == (m - {k}).Keys + {k};
  }

  /** The order of summation does not matter. */
  lemma {:induction false} WeighWithout(m: map<nat, nat>, k: nat)
    requires k in m
    ensures Weigh(m) == m[k] + Weigh(m - {k})
    decreases |m|
  {
    assert m.Keys != {};
    var first: nat :| first in m && Weigh(m) == m[first] + Weigh(m - {first});
    if first != k {
      Fewer(m, first);
      Fewer(m, k);
      WeighWithout(m - {first}, k);
      WeighWithout(m - {k}, first);
      assert (m - {first}) - {k} == (m - {k}) - {first};
    }
  }

  lemma WeighWith(m: map<nat, nat>, k: nat, v: nat)
    ensures Weigh(m[k := v]) == Weigh(m) - (if k in m then m[k] else 0) + v
  {
    WeighWithout(m[k := v], k);
    if k in m {
      WeighWithout(m, k);
      assert m[k := v] - {k} == m - {k};
    } else {
      assert m[k := v] - {k} == m;
    }
  }

  lemma SubsetSizes<T>(a: set<T>, b: set<T>)
    requires a <= b
    ensures |a| <= |b| && (|a| == |b| ==> a == b)
  {
    assert b == a + (b - a);
    if |a| == |b| {
      assert |b - a| == 0;
    }
  }

  /** Subtraction that stops at zero, as the accounting of owned bytes does it. */
  function Drop(a: nat, b: nat): (r: nat) {
    if a >= b then a - b else 0
  }
}
