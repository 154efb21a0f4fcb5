/** Small helpers shared by the models: optional values, counting the elements of a
    sequence that satisfy a predicate, and cardinalities of sets that change by one. */
module Basics {

  datatype Option<+T> = None | Some(value: T)

  type byte = x: int | 0 <= x < 256

  const TWO_64: int := 0x1_0000_0000_0000_0000

  type uint64 = x: int | 0 <= x < TWO_64

  function Bit(b: bool): nat { if b then 1 else 0 }

  /** How many elements of `s` satisfy `f`. */
  function Count<T(!new)>(s: seq<T>, f: T -> bool): nat {
    if s == [] then 0 else Bit(f(s[0])) + Count(s[1..], f)
  }

  lemma {:induction false} CountUpdate<T(!new)>(s: seq<T>, i: nat, x: T, f: T -> bool)
    requires i < |s|
    ensures Count(s[i := x], f) == Count(s, f) - Bit(f(s[i])) + Bit(f(x))
  {
    if i == 0 {
      assert s[0 := x][1..] == s[1..];
    } else {
      assert s[i := x][1..] == s[1..][i - 1 := x];
      CountUpdate(s[1..], i - 1, x, f);
    }
  }

  lemma {:induction false} CountBound<T(!new)>(s: seq<T>, f: T -> bool)
    ensures Count(s, f) <= |s|
  {
    if s == [] {
    } else {
      CountBound(s[1..], f);
    }
  }

  lemma {:induction false} CountPositive<T(!new)>(s: seq<T>, i: nat, f: T -> bool)
    requires i < |s| && f(s[i])
    ensures Count(s, f) > 0
  {
    if i == 0 {
    } else {
      CountPositive(s[1..], i - 1, f);
    }
  }

  lemma {:induction false} CountWitness<T(!new)>(s: seq<T>, f: T -> bool) returns (i: nat)
    requires Count(s, f) > 0
    ensures i < |s| && f(s[i])
  {
    if f(s[0]) {
      i := 0;
    } else {
      var j := CountWitness(s[1..], f);
      i := j + 1;
    }
  }

  lemma {:induction false} CountAll<T(!new)>(s: seq<T>, f: T -> bool)
    requires forall i :: 0 <= i < |s| ==> f(s[i])
    ensures Count(s, f) == |s|
  {
    if s == [] {
    } else {
      assert forall i :: 0 <= i < |s[1..]| ==> s[1..][i] == s[i + 1];
      CountAll(s[1..], f);
    }
  }

  lemma {:induction false} CountNone<T(!new)>(s: seq<T>, f: T -> bool)
    requires forall i :: 0 <= i < |s| ==> !f(s[i])
    ensures Count(s, f) == 0
  {
    if s == [] {
    } else {
      assert forall i :: 0 <= i < |s[1..]| ==> s[1..][i] == s[i + 1];
      CountNone(s[1..], f);
    }
  }

  lemma {:induction false} CountAppend<T(!new)>(s: seq<T>, x: T, f: T -> bool)
    ensures Count(s + [x], f) == Count(s, f) + Bit(f(x))
  {
    if s == [] {
    } else {
      assert (s + [x])[1..] == s[1..] + [x];
      CountAppend(s[1..], x, f);
    }
  }

  predicate NoDuplicates<T(==)>(s: seq<T>) {
    forall i, j :: 0 <= i < j < |s| ==> s[i] != s[j]
  }

  function Elements<T>(s: seq<T>): set<T> { set x | x in s }

  lemma {:induction false} DistinctCount<T>(s: seq<T>)
    requires NoDuplicates(s)
    ensures |Elements(s)| == |s|
  {
    if s == [] {
    } else {
      var front, last := s[..|s| - 1], s[|s| - 1];
      DistinctCount(front);
      assert s == front + [last] && last !in front;
      assert Elements(s) == Elements(front) + {last};
    }
  }

  /** The keys of `m` whose value satisfies `f`. */
  ghost function KeysWith<K(!new), V(!new)>(m: map<K, V>, f: V -> bool): (s: set<K>)
    ensures forall k :: k in s <==> k in m && f(m[k])
  {
    set k | k in m && f(m[k])
  }

  ghost function MapCount<K(!new), V(!new)>(m: map<K, V>, f: V -> bool): nat {
    |KeysWith(m, f)|
  }

  lemma MapCountRemove<K(!new), V(!new)>(m: map<K, V>, k: K, f: V -> bool)
    ensures MapCount(m - {k}, f) == MapCount(m, f) - Bit(k in m && f(m[k]))
  {
    var m' := m - {k};
    assert KeysWith(m', f) == KeysWith(m, f) - {k};
  }

  lemma MapCountPositive<K(!new), V(!new)>(m: map<K, V>, k: K, f: V -> bool)
    requires k in m && f(m[k])
    ensures MapCount(m, f) > 0
  {
    assert k in KeysWith(m, f);
  }

  lemma MapCountZero<K(!new), V(!new)>(m: map<K, V>, f: V -> bool)
    requires forall k :: k in m ==> !f(m[k])
    ensures MapCount(m, f) == 0
  {
    assert KeysWith(m, f) == {};
  }

  lemma MapCountWitness<K(!new), V(!new)>(m: map<K, V>, f: V -> bool) returns (k: K)
    requires MapCount(m, f) > 0
    ensures k in m && f(m[k])
  {
    k :| k in KeysWith(m, f);
  }

  /** The sum of `f` over the values of `m`. */
  ghost function MapSum<K(!new), V(!new)>(m: map<K, V>, f: V -> nat): nat
    decreases |m|
  {
    if m == map[] then 0
    else
      var k :| k in m;
      MapShrinks(m, k);
      f(m[k]) + MapSum(m - {k}, f)
  }

  lemma MapShrinks<K(!new), V(!new)>(m: map<K, V>, k: K)
    requires k in m
    ensures |m - {k}| == |m| - 1
  {
    assert (m - {k}).Keys == m.Keys - {k};
  }

  lemma {:induction false} MapSumRemove<K(!new), V(!new)>(m: map<K, V>, k: K, f: V -> nat)
    ensures MapSum(m, f) == MapSum(m - {k}, f) + (if k in m then f(m[k]) else 0)
    decreases |m|
  {
    if k !in m {
      assert m - {k} == m;
    } else {
      var k0 :| k0 in m && MapSum(m, f) == f(m[k0]) + MapSum(m - {k0}, f);
      if k0 != k {
        MapShrinks(m, k0);
        MapShrinks(m, k);
        MapSumRemove(m - {k0}, k, f);
        MapSumRemove(m - {k}, k0, f);
        assert m - {k0} - {k} == m - {k} - {k0};
      }
    }
  }

  lemma {:induction false} MapSumZero<K(!new), V(!new)>(m: map<K, V>, f: V -> nat)
    requires forall k :: k in m ==> f(m[k]) == 0
    ensures MapSum(m, f) == 0
    decreases |m|
  {
    if m == map[] {
    } else {
      var k0 :| k0 in m && MapSum(m, f) == f(m[k0]) + MapSum(m - {k0}, f);
      MapShrinks(m, k0);
      MapSumZero(m - {k0}, f);
    }
  }

  lemma {:induction false} Times(d: nat, a: nat, b: nat)
    requires a < b
    ensures d * a + d <= d * b
  {
    if d == 0 {
    } else {
      Times(d - 1, a, b);
      assert d * a == (d - 1) * a + a && d * b == (d - 1) * b + b;
    }
  }

  function Pred(n: nat): nat { if n == 0 then 0 else n - 1 }
}
