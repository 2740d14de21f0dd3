/** Sums of a function over a sequence, and what reordering does to them. */
module Sums {

  function Sum<T>(s: seq<T>, f: T -> int): int {
    if s == [] then 0 else Sum(s[..|s| - 1], f) + f(s[|s| - 1])
  }

  function Same(x: int): int {
    x
  }

  /** The numbers of a sequence added up. */
  function Total(s: seq<int>): int {
    Sum(s, Same)
  }

  lemma {:induction false} SumConcat<T>(s: seq<T>, t: seq<T>, f: T -> int)
    ensures Sum(s + t, f) == Sum(s, f) + Sum(t, f)
  {
    if t == [] {
      assert s + t == s;
    } else {
      assert (s + t)[..|s + t| - 1] == s + t[..|t| - 1];
      SumConcat(s, t[..|t| - 1], f);
    }
  }

  lemma SumSnoc<T>(s: seq<T>, x: T, f: T -> int)
    ensures Sum(s + [x], f) == Sum(s, f) + f(x)
  {
    assert (s + [x])[..|s|] == s;
  }

  /** The sum up to k + 1, for a loop that has just handled element k. */
  lemma SumTake<T>(s: seq<T>, k: nat, f: T -> int)
    requires k < |s|
    ensures Sum(s[..k + 1], f) == Sum(s[..k], f) + f(s[k])
  {
    assert s[..k + 1] == s[..k] + [s[k]];
    SumSnoc(s[..k], s[k], f);
  }

  lemma {:induction false} SumConst<T>(s: seq<T>, f: T -> int, c: int)
    requires forall i :: 0 <= i < |s| ==> f(s[i]) == c
    ensures Sum(s, f) == c * |s|
  {
    if s != [] {
      SumConst(s[..|s| - 1], f, c);
    }
  }

  lemma {:induction false} SumLe<T>(s: seq<T>, f: T -> int, g: T -> int)
    requires forall i :: 0 <= i < |s| ==> f(s[i]) <= g(s[i])
    ensures Sum(s, f) <= Sum(s, g)
    ensures Sum(s, f) == Sum(s, g) <==> forall i :: 0 <= i < |s| ==> f(s[i]) == g(s[i])
  {
    if s != [] {
      var t := s[..|s| - 1];
      assert forall i :: 0 <= i < |t| ==> t[i] == s[i];
      SumLe(t, f, g);
    }
  }

  lemma SumEq<T>(s: seq<T>, f: T -> int, g: T -> int)
    requires forall i :: 0 <= i < |s| ==> f(s[i]) == g(s[i])
    ensures Sum(s, f) == Sum(s, g)
  {
    SumLe(s, f, g);
  }

  /** f added to g, term by term. */
  lemma {:induction false} SumAdd<T>(s: seq<T>, f: T -> int, g: T -> int, h: T -> int)
    requires forall i :: 0 <= i < |s| ==> h(s[i]) == f(s[i]) + g(s[i])
    ensures Sum(s, h) == Sum(s, f) + Sum(s, g)
  {
    if s != [] {
      SumAdd(s[..|s| - 1], f, g, h);
    }
  }

  lemma SameLength<T>(s: seq<T>, t: seq<T>)
    requires multiset(s) == multiset(t)
    ensures |s| == |t|
  {
    assert |multiset(s)| == |s| && |multiset(t)| == |t|;
  }

  /** A sum does not depend on the order of its terms. */
  lemma {:induction false} SumPerm<T>(s: seq<T>, t: seq<T>, f: T -> int)
    requires multiset(s) == multiset(t)
    ensures Sum(s, f) == Sum(t, f)
    decreases |s|
  {
    if s == [] {
      assert |multiset(t)| == 0;
    } else {
      var n := |s| - 1;
      var x := s[n];
      assert x in multiset(s);
      var k :| 0 <= k < |t| && t[k] == x;
      var rest := t[..k] + t[k + 1..];
      assert s == s[..n] + [x];
      assert t == t[..k] + ([x] + t[k + 1..]);
      assert multiset(s[..n]) == multiset(s) - multiset{x};
      assert multiset(rest) == multiset(t) - multiset{x};
      SumPerm(s[..n], rest, f);
      SumConcat(t[..k], t[k + 1..], f);
      SumConcat(t[..k], [x] + t[k + 1..], f);
      SumConcat([x], t[k + 1..], f);
      SumSnoc([], x, f);
      assert [] + [x] == [x];
    }
  }

  lemma {:induction false} SumUpdate<T>(s: seq<T>, i: nat, x: T, f: T -> int)
    requires i < |s|
    ensures Sum(s[i := x], f) == Sum(s, f) - f(s[i]) + f(x)
  {
    var n := |s| - 1;
    if i == n {
      assert s[i := x][..n] == s[..n];
    } else {
      assert s[i := x][..n] == s[..n][i := x];
      SumUpdate(s[..n], i, x, f);
    }
  }

  /** A sum with a single term that may differ from zero. */
  lemma {:induction false} SumOneHot<T>(s: seq<T>, f: T -> int, k: nat)
    requires k < |s| && forall i :: 0 <= i < |s| && i != k ==> f(s[i]) == 0
    ensures Sum(s, f) == f(s[k])
  {
    assert s == s[..k] + ([s[k]] + s[k + 1..]);
    SumConcat(s[..k], [s[k]] + s[k + 1..], f);
    SumConcat([s[k]], s[k + 1..], f);
    SumConst(s[..k], f, 0);
    SumConst(s[k + 1..], f, 0);
    SumSnoc([], s[k], f);
    assert [] + [s[k]] == [s[k]];
  }

  ghost predicate Distinct<T>(s: seq<T>) {
    forall i, j :: 0 <= i < j < |s| ==> s[i] != s[j]
  }

  /** The part of v that belongs to group k. */
  function Group<T, K(==)>(key: T -> K, v: T -> int, k: K): T -> int {
    x => if key(x) == k then v(x) else 0
  }

  function GroupSum<T, K(==)>(s: seq<T>, key: T -> K, v: T -> int): K -> int {
    k => Sum(s, Group(key, v, k))
  }

  /** Grouping by distinct keys that cover the sequence keeps the total. */
  lemma {:induction false} GroupTotal<T, K>(s: seq<T>, ks: seq<K>, key: T -> K, v: T -> int)
    requires Distinct(ks) && forall i :: 0 <= i < |s| ==> key(s[i]) in ks
    ensures Sum(ks, GroupSum(s, key, v)) == Sum(s, v)
  {
    if s == [] {
      SumConst(ks, GroupSum(s, key, v), 0);
    } else {
      var t, x := s[..|s| - 1], s[|s| - 1];
      assert s == t + [x];
      GroupTotal(t, ks, key, v);
      var hit: K -> int := k => Group(key, v, k)(x);
      forall i | 0 <= i < |ks| ensures GroupSum(s, key, v)(ks[i]) == GroupSum(t, key, v)(ks[i]) + hit(ks[i]) {
        SumSnoc(t, x, Group(key, v, ks[i]));
      }
      SumAdd(ks, GroupSum(t, key, v), hit, GroupSum(s, key, v));
      var k :| 0 <= k < |ks| && ks[k] == key(x);
      forall i | 0 <= i < |ks| && i != k ensures ks[i] != key(x) {
        if i < k { assert ks[i] != ks[k]; } else { assert ks[k] != ks[i]; }
      }
      SumOneHot(ks, hit, k);
    }
  }

  function Map<S, T>(s: seq<S>, g: S -> T): (r: seq<T>)
    ensures |r| == |s| && forall i :: 0 <= i < |s| ==> r[i] == g(s[i])
  {
    seq(|s|, i requires 0 <= i < |s| => g(s[i]))
  }

  lemma {:induction false} SumMap<S, T>(s: seq<S>, g: S -> T, f: T -> int, h: S -> int)
    requires forall i :: 0 <= i < |s| ==> h(s[i]) == f(g(s[i]))
    ensures Sum(Map(s, g), f) == Sum(s, h)
  {
    if s != [] {
      SumMap(s[..|s| - 1], g, f, h);
      assert Map(s, g)[..|s| - 1] == Map(s[..|s| - 1], g);
    }
  }
}
