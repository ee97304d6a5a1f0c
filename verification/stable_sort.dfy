/**
 * `Array.prototype.sort` with a descending comparator over a pair of
 * integer keys (the second breaks ties of the first), as the engine
 * performs it: a stable sort. Insertion sort is the reference definition.
 */
module StableSort {
  /** `a` comes strictly before `b` in descending lexicographic order. */
  predicate Outranks(a: (int, int), b: (int, int)) {
    a.0 > b.0 || (a.0 == b.0 && a.1 > b.1)
  }

  predicate SortedDesc<T>(s: seq<T>, rank: T -> (int, int)) {
    forall i, j :: 0 <= i < j < |s| ==> !Outranks(rank(s[j]), rank(s[i]))
  }

  /** Places `x` after every element that strictly outranks it and before the rest. */
  function Insert<T>(x: T, s: seq<T>, rank: T -> (int, int)): (r: seq<T>)
    ensures |r| == |s| + 1
    ensures multiset(r) == multiset(s) + multiset{x}
  {
    if s == [] then [x]
    else if Outranks(rank(s[0]), rank(x)) then
      assert s == [s[0]] + s[1..];
      [s[0]] + Insert(x, s[1..], rank)
    else [x] + s
  }

  function SortDesc<T>(s: seq<T>, rank: T -> (int, int)): (r: seq<T>)
    ensures |r| == |s|
    ensures multiset(r) == multiset(s)
  {
    if s == [] then []
    else
      assert s == [s[0]] + s[1..];
      Insert(s[0], SortDesc(s[1..], rank), rank)
  }

  lemma {:induction false} InsertSorted<T>(x: T, s: seq<T>, rank: T -> (int, int))
    requires SortedDesc(s, rank)
    ensures SortedDesc(Insert(x, s, rank), rank)
  {
    if s != [] && Outranks(rank(s[0]), rank(x)) {
      InsertSorted(x, s[1..], rank);
      InsertSortedPast(x, s, rank);
    } else if s != [] {
      forall e | e in s
        ensures !Outranks(rank(e), rank(x))
      {
        var k :| 0 <= k < |s| && s[k] == e;
        if k > 0 {
          assert !Outranks(rank(s[k]), rank(s[0]));
        }
      }
      ConsSorted(x, s, rank);
    }
  }

  /** The step of `InsertSorted` where `x` moves past the head. */
  lemma InsertSortedPast<T>(x: T, s: seq<T>, rank: T -> (int, int))
    requires s != [] && Outranks(rank(s[0]), rank(x))
    requires SortedDesc(s, rank) && SortedDesc(Insert(x, s[1..], rank), rank)
    ensures SortedDesc(Insert(x, s, rank), rank)
  {
    var tail := Insert(x, s[1..], rank);
    InsertMembers(x, s[1..], rank);
    forall e | e in tail
      ensures !Outranks(rank(e), rank(s[0]))
    {
      if e != x {
        var k :| 0 <= k < |s[1..]| && s[1..][k] == e;
        assert s[k + 1] == e;
      }
    }
    ConsSorted(s[0], tail, rank);
  }

  /** Inserting adds `x` and nothing else. */
  lemma InsertMembers<T>(x: T, s: seq<T>, rank: T -> (int, int))
    ensures forall e :: e in Insert(x, s, rank) ==> e == x || e in s
  {
    forall e | e in Insert(x, s, rank)
      ensures e == x || e in s
    {
      assert e in multiset(Insert(x, s, rank));
    }
  }

  /** An element no later element outranks, put in front of an ordered sequence, keeps it ordered. */
  lemma ConsSorted<T>(a: T, tail: seq<T>, rank: T -> (int, int))
    requires SortedDesc(tail, rank)
    requires forall e :: e in tail ==> !Outranks(rank(e), rank(a))
    ensures SortedDesc([a] + tail, rank)
  {
    var r := [a] + tail;
    forall i, j | 0 <= i < j < |r|
      ensures !Outranks(rank(r[j]), rank(r[i]))
    {
      if i == 0 {
        assert r[j] == tail[j - 1];
        assert r[j] in tail;
      } else {
        assert r[i] == tail[i - 1] && r[j] == tail[j - 1];
      }
    }
  }

  /** The result is ordered and is a permutation of the input. */
  lemma {:induction false} SortDescCorrect<T>(s: seq<T>, rank: T -> (int, int))
    ensures SortedDesc(SortDesc(s, rank), rank)
    ensures multiset(SortDesc(s, rank)) == multiset(s)
  {
    if s != [] {
      SortDescCorrect(s[1..], rank);
      InsertSorted(s[0], SortDesc(s[1..], rank), rank);
    }
  }

  /** The elements of rank `v`, in order. */
  function WithRank<T>(s: seq<T>, rank: T -> (int, int), v: (int, int)): seq<T> {
    if s == [] then []
    else (if rank(s[0]) == v then [s[0]] else []) + WithRank(s[1..], rank, v)
  }

  lemma WithRankCons<T>(a: T, t: seq<T>, rank: T -> (int, int), v: (int, int))
    ensures WithRank([a] + t, rank, v) == (if rank(a) == v then [a] else []) + WithRank(t, rank, v)
  {
    assert ([a] + t)[1..] == t;
  }

  /** Putting an element of another rank than `x` in front of both sides keeps `x`'s place among its rank. */
  lemma WithRankConsPast<T>(a: T, tail: seq<T>, rest: seq<T>, x: T, rank: T -> (int, int), v: (int, int))
    requires rank(a) != rank(x)
    requires WithRank(tail, rank, v) == (if rank(x) == v then [x] else []) + WithRank(rest, rank, v)
    ensures WithRank([a] + tail, rank, v) == (if rank(x) == v then [x] else []) + WithRank([a] + rest, rank, v)
  {
    var first := if rank(a) == v then [a] else [];
    var mine := if rank(x) == v then [x] else [];
    assert first == [] || mine == [];
    WithRankCons(a, tail, rank, v);
    WithRankCons(a, rest, rank, v);
    calc {
      WithRank([a] + tail, rank, v);
      first + (mine + WithRank(rest, rank, v));
      mine + (first + WithRank(rest, rank, v));
    }
  }

  lemma {:induction false} InsertStable<T>(x: T, s: seq<T>, rank: T -> (int, int), v: (int, int))
    ensures WithRank(Insert(x, s, rank), rank, v) == (if rank(x) == v then [x] else []) + WithRank(s, rank, v)
  {
    if s == [] {
      WithRankCons(x, [], rank, v);
    } else if Outranks(rank(s[0]), rank(x)) {
      InsertStable(x, s[1..], rank, v);
      WithRankConsPast(s[0], Insert(x, s[1..], rank), s[1..], x, rank, v);
      assert [s[0]] + s[1..] == s;
    } else {
      WithRankCons(x, s, rank, v);
    }
  }

  /** Sorting neither adds nor drops an element. */
  lemma SortDescSameElements<T>(s: seq<T>, rank: T -> (int, int))
    ensures forall e :: e in SortDesc(s, rank) <==> e in s
  {
    forall e
      ensures e in SortDesc(s, rank) <==> e in s
    {
      assert e in SortDesc(s, rank) <==> e in multiset(SortDesc(s, rank));
      assert e in s <==> e in multiset(s);
    }
  }

  /** Stability: elements of equal rank keep their relative order. */
  lemma {:induction false} SortDescStable<T>(s: seq<T>, rank: T -> (int, int), v: (int, int))
    ensures WithRank(SortDesc(s, rank), rank, v) == WithRank(s, rank, v)
  {
    if s != [] {
      SortDescStable(s[1..], rank, v);
      InsertStable(s[0], SortDesc(s[1..], rank), rank, v);
    }
  }

  /** `slice(0, n)` */
  function Take<T>(s: seq<T>, n: nat): (r: seq<T>)
    ensures |r| == if |s| < n then |s| else n
    ensures r == s[..|r|]
  {
    if |s| <= n then s else s[..n]
  }

  /**
   * The first `n` of a descending sort are the leaders: nothing left out
   * strictly outranks anything kept.
   */
  lemma TopNLeads<T>(s: seq<T>, rank: T -> (int, int), n: nat)
    ensures var sorted := SortDesc(s, rank);
      forall i, j :: 0 <= i < |Take(sorted, n)| <= j < |sorted| ==>
        !Outranks(rank(sorted[j]), rank(sorted[i]))
  {
    SortDescCorrect(s, rank);
  }
}
