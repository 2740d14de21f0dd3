/**
 sort.Slice as its callers may rely on it: the slice becomes ordered by a key and stays a
 permutation of itself. Nothing is promised about the order of equal keys.
 */
module Sorting {

  predicate SortedBy<T>(s: seq<T>, key: T -> real) {
    forall i, j :: 0 <= i <= j < |s| ==> key(s[i]) <= key(s[j])
  }

  predicate Ascending(s: seq<int>) {
    forall i, j :: 0 <= i <= j < |s| ==> s[i] <= s[j]
  }

  /** What bounds a sequence and x bounds every arrangement of them. */
  lemma BoundKept<T>(r: seq<T>, s: seq<T>, x: T, key: T -> real, top: real)
    requires multiset(r) == multiset(s) + multiset{x}
    requires key(x) <= top && forall i :: 0 <= i < |s| ==> key(s[i]) <= top
    ensures forall i :: 0 <= i < |r| ==> key(r[i]) <= top
  {
    forall i | 0 <= i < |r| ensures key(r[i]) <= top {
      assert r[i] in multiset(r);
      assert r[i] in s || r[i] == x;
    }
  }

  function Insert<T>(x: T, s: seq<T>, key: T -> real): (r: seq<T>)
    requires SortedBy(s, key)
    ensures SortedBy(r, key) && multiset(r) == multiset(s) + multiset{x} && |r| == |s| + 1
  {
    if s == [] || key(s[|s| - 1]) <= key(x) then s + [x]
    else
      var last := s[|s| - 1];
      var init := s[..|s| - 1];
      assert s == init + [last];
      var r := Insert(x, init, key);
      BoundKept(r, init, x, key, key(last));
      r + [last]
  }

  function Sorted<T>(s: seq<T>, key: T -> real): (r: seq<T>)
    ensures SortedBy(r, key) && multiset(r) == multiset(s) && |r| == |s|
  {
    if s == [] then []
    else
      assert s == s[..|s| - 1] + [s[|s| - 1]];
      Insert(s[|s| - 1], Sorted(s[..|s| - 1], key), key)
  }

  method SortSlice<T>(a: array<T>, key: T -> real)
    modifies a
    ensures SortedBy(a[..], key) && multiset(a[..]) == multiset(old(a[..]))
  {
    var r := Sorted(a[..], key);
    for i := 0 to a.Length
      invariant a[..i] == r[..i]
    {
      a[i] := r[i];
    }
    assert a[..] == a[..a.Length] == r[..a.Length] == r;
  }

  /** Some arrangement of s is ascending. */
  lemma SortExists(s: seq<int>)
    ensures exists r: seq<int> :: Ascending(r) && multiset(r) == multiset(s) && |r| == |s|
  {
    var r := Sorted(s, (x: int) => x as real);
    assert Ascending(r);
  }

  /** The ascending arrangement of s. */
  ghost function SortInts(s: seq<int>): (r: seq<int>)
    ensures Ascending(r) && multiset(r) == multiset(s) && |r| == |s|
  {
    SortExists(s);
    var r: seq<int> :| Ascending(r) && multiset(r) == multiset(s) && |r| == |s|;
    r
  }

  method SortDurations(a: array<int>)
    modifies a
    ensures Ascending(a[..]) && multiset(a[..]) == multiset(old(a[..]))
  {
    SortSlice(a, (x: int) => x as real);
  }
}
