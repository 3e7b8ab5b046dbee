/**
 * Ranking of the result list by strength, highest first. The library sort
 * used is stable, also when sorting in reverse, so records of
 * equal strength keep the order they were built in. The sort is modelled
 * as a stable insertion sort on sequences.
 */
module Ranking {
  import opened Model

  /**
   * Puts `x` in front of the first record whose strength is at most its
   * own: `x` comes after every stronger record and before every record of
   * equal strength.
   */
  function Insert(x: Record, t: seq<Record>): (r: seq<Record>)
    ensures multiset(r) == multiset([x] + t)
    ensures |r| == |t| + 1
  {
    if t == [] || t[0].strength <= x.strength then [x] + t
    else
      assert t == [t[0]] + t[1..];
      [t[0]] + Insert(x, t[1..])
  }

  /** The result list sorted by strength, highest first, stably. */
  function SortDesc(s: seq<Record>): (r: seq<Record>)
    ensures multiset(r) == multiset(s)
    ensures |r| == |s|
  {
    if s == [] then []
    else
      assert s == [s[0]] + s[1..];
      Insert(s[0], SortDesc(s[1..]))
  }

  predicate NonIncreasing(r: seq<Record>) {
    forall i, j :: 0 <= i < j < |r| ==> r[i].strength >= r[j].strength
  }

  /** The position of `x` in `s`: the index of its first occurrence. */
  function IndexOf<T(==)>(s: seq<T>, x: T): (i: nat)
    requires x in s
    ensures i < |s| && s[i] == x && x !in s[..i]
  {
    if s[0] == x then 0 else IndexOf(s[1..], x) + 1
  }

  lemma IndexOfDistinct<T>(s: seq<T>, k: nat)
    requires NoDuplicates(s) && k < |s|
    ensures IndexOf(s, s[k]) == k
  {
  }

  /** Rank of an idea id in the registration order; unregistered ids rank last. */
  function Rank(order: seq<IdeaId>, id: IdeaId): nat {
    if id in order then IndexOf(order, id) else |order|
  }

  /**
   * `a` belongs before `b`: it is stronger, or equally strong and of lower
   * rank in `order`.
   */
  predicate Precedes(a: Record, b: Record, order: seq<IdeaId>) {
    a.strength > b.strength
    || (a.strength == b.strength && Rank(order, a.id) < Rank(order, b.id))
  }

  /**
   * Sorted by strength, highest first, and among records of equal strength
   * by rank in `order`.
   */
  predicate RankedBy(r: seq<Record>, order: seq<IdeaId>) {
    forall i, j :: 0 <= i < j < |r| ==> Precedes(r[i], r[j], order)
  }

  lemma PrependRanked(y: Record, r: seq<Record>, order: seq<IdeaId>)
    requires RankedBy(r, order)
    requires forall z :: z in r ==> Precedes(y, z, order)
    ensures RankedBy([y] + r, order)
  {
    var yr := [y] + r;
    forall i, j | 0 <= i < j < |yr|
      ensures Precedes(yr[i], yr[j], order)
    {
      assert yr[j] == r[j - 1];
      if i > 0 {
        assert yr[i] == r[i - 1];
      }
    }
  }

  lemma {:induction false} InsertRanked(x: Record, t: seq<Record>, order: seq<IdeaId>)
    requires RankedBy(t, order)
    requires forall y :: y in t ==> Rank(order, x.id) < Rank(order, y.id)
    ensures RankedBy(Insert(x, t), order)
  {
    if t == [] || t[0].strength <= x.strength {
      forall z | z in t
        ensures Precedes(x, z, order)
      {
        var k :| 0 <= k < |t| && t[k] == z;
        if k > 0 {
          assert Precedes(t[0], t[k], order);
        }
      }
      PrependRanked(x, t, order);
    } else {
      var rest := Insert(x, t[1..]);
      assert RankedBy(t[1..], order) by {
        forall i, j | 0 <= i < j < |t| - 1
          ensures Precedes(t[1..][i], t[1..][j], order)
        {
          assert Precedes(t[i + 1], t[j + 1], order);
        }
      }
      InsertRanked(x, t[1..], order);
      forall z | z in rest
        ensures Precedes(t[0], z, order)
      {
        assert z in multiset([x] + t[1..]);
        if z != x {
          var k :| 0 <= k < |t| - 1 && t[1..][k] == z;
          assert Precedes(t[0], t[k + 1], order);
        }
      }
      PrependRanked(t[0], rest, order);
    }
  }

  /**
   * Sorting a list whose records are in increasing rank gives a list sorted
   * by strength, highest first, in which equal strengths keep rank order.
   */
  lemma {:induction false} SortDescRanked(s: seq<Record>, order: seq<IdeaId>)
    requires forall i, j :: 0 <= i < j < |s| ==> Rank(order, s[i].id) < Rank(order, s[j].id)
    ensures RankedBy(SortDesc(s), order)
  {
    if s != [] {
      SortDescRanked(s[1..], order);
      forall y | y in SortDesc(s[1..])
        ensures Rank(order, s[0].id) < Rank(order, y.id)
      {
        assert y in multiset(s[1..]);
        var k :| 0 <= k < |s| - 1 && s[1..][k] == y;
        assert s[k + 1] == y;
      }
      InsertRanked(s[0], SortDesc(s[1..]), order);
    }
  }

  lemma RankedIsNonIncreasing(r: seq<Record>, order: seq<IdeaId>)
    requires RankedBy(r, order)
    ensures NonIncreasing(r)
  {
  }

  lemma PrependNonIncreasing(y: Record, r: seq<Record>)
    requires NonIncreasing(r)
    requires forall z :: z in r ==> y.strength >= z.strength
    ensures NonIncreasing([y] + r)
  {
    var yr := [y] + r;
    forall i, j | 0 <= i < j < |yr|
      ensures yr[i].strength >= yr[j].strength
    {
      assert yr[j] == r[j - 1];
      if i > 0 {
        assert yr[i] == r[i - 1];
      }
    }
  }

  lemma {:induction false} InsertNonIncreasing(x: Record, t: seq<Record>)
    requires NonIncreasing(t)
    ensures NonIncreasing(Insert(x, t))
  {
    if t == [] || t[0].strength <= x.strength {
      forall z | z in t
        ensures x.strength >= z.strength
      {
        var k :| 0 <= k < |t| && t[k] == z;
      }
      PrependNonIncreasing(x, t);
    } else {
      var rest := Insert(x, t[1..]);
      InsertNonIncreasing(x, t[1..]);
      forall z | z in rest
        ensures t[0].strength >= z.strength
      {
        assert z in multiset([x] + t[1..]);
        if z != x {
          var k :| 0 <= k < |t| - 1 && t[1..][k] == z;
          assert t[k + 1] == z;
        }
      }
      PrependNonIncreasing(t[0], rest);
    }
  }

  /** Whatever the input, the sorted list is non-increasing in strength. */
  lemma {:induction false} SortDescNonIncreasing(s: seq<Record>)
    ensures NonIncreasing(SortDesc(s))
  {
    if s != [] {
      SortDescNonIncreasing(s[1..]);
      InsertNonIncreasing(s[0], SortDesc(s[1..]));
    }
  }

  // ---------------------------------------------------------------------
  // Stability, independent of any ranking

  /** The records of strength `v`, in list order. */
  function WithStrength(s: seq<Record>, v: int): seq<Record> {
    if s == [] then []
    else (if s[0].strength == v then [s[0]] else []) + WithStrength(s[1..], v)
  }

  lemma {:induction false} InsertStable(x: Record, t: seq<Record>, v: int)
    ensures WithStrength(Insert(x, t), v) == WithStrength([x] + t, v)
  {
    if t == [] || t[0].strength <= x.strength {
    } else {
      InsertStable(x, t[1..], v);
      var r := [t[0]] + Insert(x, t[1..]);
      assert r[1..] == Insert(x, t[1..]);
      assert ([x] + t[1..])[1..] == t[1..];
      assert ([x] + t)[1..] == t;
    }
  }

  /**
   * The sort is stable: for every strength, the records of that strength
   * appear in the sorted list in the same order as in the input.
   */
  lemma {:induction false} SortDescStable(s: seq<Record>, v: int)
    ensures WithStrength(SortDesc(s), v) == WithStrength(s, v)
  {
    if s != [] {
      SortDescStable(s[1..], v);
      InsertStable(s[0], SortDesc(s[1..]), v);
      assert ([s[0]] + SortDesc(s[1..]))[1..] == SortDesc(s[1..]);
      assert s == [s[0]] + s[1..];
    }
  }
}
