/** Sorting an array by a comparison, as `sort.Slice` and `Array.prototype.sort` promise it. */
module Sorting {
  /** `x` after everything that need not follow it. */
  function Insert<T>(s: seq<T>, x: T, le: (T, T) -> bool): (r: seq<T>)
    ensures |r| == |s| + 1
  {
    if s == [] || le(s[|s| - 1], x) then s + [x] else Insert(s[..|s| - 1], x, le) + [s[|s| - 1]]
  }

  function Sorted<T>(s: seq<T>, le: (T, T) -> bool): (r: seq<T>)
    ensures |r| == |s|
  {
    if s == [] then [] else Insert(Sorted(s[..|s| - 1], le), s[|s| - 1], le)
  }

  ghost predicate Ordered<T>(s: seq<T>, le: (T, T) -> bool) {
    forall i, j :: 0 <= i < j < |s| ==> le(s[i], s[j])
  }

  /** A comparison that leaves no pair undecided and runs in no circle. */
  ghost predicate Ranking<T(!new)>(le: (T, T) -> bool) {
    && (forall x, y :: le(x, y) || le(y, x))
    && (forall x, y, z :: le(x, y) && le(y, z) ==> le(x, z))
  }

  /** What may not precede `x` slides up by one place. */
  lemma SlidDown<T>(s: seq<T>, k: nat, x: T, le: (T, T) -> bool, tail: seq<T>)
    requires 0 < k <= |s| && !le(s[k - 1], x)
    ensures Insert(s[..k], x, le) + tail == Insert(s[..k - 1], x, le) + ([s[k - 1]] + tail)
  {
    assert s[..k][..k - 1] == s[..k - 1] && s[..k][k - 1] == s[k - 1];
    assert Insert(s[..k], x, le) == Insert(s[..k - 1], x, le) + [s[k - 1]];
  }

  /** Moves the last of `a[..n + 1]` down to its place. */
  method InsertInPlace<T>(a: array<T>, n: nat, le: (T, T) -> bool)
    requires n < a.Length
    modifies a
    ensures a[..n + 1] == Insert(old(a[..n]), old(a[n]), le)
    ensures a[n + 1..] == old(a[n + 1..])
  {
    var k := n;
    ghost var before, x := a[..n], a[n];
    while k > 0 && !le(a[k - 1], a[k])
      invariant 0 <= k <= n && a[k] == x
      invariant a[..k] == before[..k]
      invariant Insert(before, x, le) == Insert(before[..k], x, le) + a[k + 1..n + 1]
      invariant a[n + 1..] == old(a[n + 1..])
    {
      ghost var tail := a[k + 1..n + 1];
      assert before[k - 1] == a[k - 1];
      SlidDown(before, k, x, le, tail);
      a[k - 1], a[k] := a[k], a[k - 1];
      k := k - 1;
      assert a[k + 1..n + 1] == [before[k]] + tail;
    }
    assert a[..n + 1] == a[..k] + [a[k]] + a[k + 1..n + 1];
  }

  method Sort<T>(a: array<T>, le: (T, T) -> bool)
    modifies a
    ensures a[..] == Sorted(old(a[..]), le)
  {
    ghost var was := a[..];
    for i := 0 to a.Length
      invariant a[..i] == Sorted(was[..i], le) && a[i..] == was[i..]
    {
      assert was[..i + 1][..i] == was[..i] && a[i] == a[i..][0] == was[i];
      assert a[i..][1..] == a[i + 1..] && was[i..][1..] == was[i + 1..];
      InsertInPlace(a, i, le);
    }
    assert a[..a.Length] == a[..] && was[..|was|] == was;
  }

  lemma {:induction false} InsertPermutes<T>(s: seq<T>, x: T, le: (T, T) -> bool)
    ensures multiset(Insert(s, x, le)) == multiset(s) + multiset{x}
  {
    if s != [] && !le(s[|s| - 1], x) {
      InsertPermutes(s[..|s| - 1], x, le);
      assert s == s[..|s| - 1] + [s[|s| - 1]];
    }
  }

  lemma {:induction false} SortingPermutes<T>(s: seq<T>, le: (T, T) -> bool)
    ensures multiset(Sorted(s, le)) == multiset(s)
  {
    if s != [] {
      SortingPermutes(s[..|s| - 1], le);
      InsertPermutes(Sorted(s[..|s| - 1], le), s[|s| - 1], le);
      assert s == s[..|s| - 1] + [s[|s| - 1]];
    }
  }

  lemma {:induction false} InsertOrders<T(!new)>(s: seq<T>, x: T, le: (T, T) -> bool)
    requires Ranking(le) && Ordered(s, le)
    ensures Ordered(Insert(s, x, le), le)
    ensures forall i | 0 <= i <= |s| :: Insert(s, x, le)[i] == x || Insert(s, x, le)[i] in s
  {
    if s != [] {
      var last := s[|s| - 1];
      if le(last, x) {
        assert forall i | 0 <= i < |s| - 1 :: le(s[i], last);
      } else {
        InsertOrders(s[..|s| - 1], x, le);
        var front := Insert(s[..|s| - 1], x, le);
        forall i | 0 <= i < |front| ensures le(front[i], last) {
          if front[i] != x {
            var j :| 0 <= j < |s| - 1 && s[j] == front[i];
          }
        }
      }
    }
  }

  lemma {:induction false} SortingOrders<T(!new)>(s: seq<T>, le: (T, T) -> bool)
    requires Ranking(le)
    ensures Ordered(Sorted(s, le), le)
  {
    if s != [] {
      SortingOrders(s[..|s| - 1], le);
      InsertOrders(Sorted(s[..|s| - 1], le), s[|s| - 1], le);
    }
  }
}
