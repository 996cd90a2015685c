/** Order-preserving selection by a mask: the common specification of every loop that deletes
    from a table while walking over it. */
module Sequences {

  function RemoveAt<T>(s: seq<T>, i: nat): seq<T>
    requires i < |s|
  {
    s[..i] + s[i + 1..]
  }

  ghost predicate Distinct<T>(s: seq<T>) {
    forall i, j :: 0 <= i < j < |s| ==> s[i] != s[j]
  }

  /** The elements of `xs` whose position is marked, in their original order. */
  function Keep<T>(xs: seq<T>, mask: seq<bool>): seq<T>
    requires |xs| == |mask|
  {
    if xs == [] then []
    else
      var n := |xs| - 1;
      Keep(xs[..n], mask[..n]) + (if mask[n] then [xs[n]] else [])
  }

  /** The marked positions, in increasing order. */
  function Kept(mask: seq<bool>): (ps: seq<nat>)
    ensures forall k :: 0 <= k < |ps| ==> ps[k] < |mask| && mask[ps[k]]
    ensures forall i, j :: 0 <= i < j < |ps| ==> ps[i] < ps[j]
  {
    if mask == [] then []
    else
      var n := |mask| - 1;
      var front := Kept(mask[..n]);
      if mask[n] then
        assert forall k :: 0 <= k < |front| ==> front[k] < n;
        front + [n]
      else front
  }

  lemma {:induction false} KeptIsComplete(mask: seq<bool>, p: nat)
    requires p < |mask| && mask[p]
    ensures p in Kept(mask)
  {
    var n := |mask| - 1;
    if p < n {
      KeptIsComplete(mask[..n], p);
    }
  }

  /** `Keep` picks exactly the elements at the marked positions, in increasing order of position. */
  lemma {:induction false} KeepIsOrderedFilter<T>(xs: seq<T>, mask: seq<bool>)
    requires |xs| == |mask|
    ensures |Keep(xs, mask)| == |Kept(mask)| <= |xs|
    ensures forall k :: 0 <= k < |Kept(mask)| ==> Keep(xs, mask)[k] == xs[Kept(mask)[k]]
  {
    if xs != [] {
      var n := |xs| - 1;
      KeepIsOrderedFilter(xs[..n], mask[..n]);
      var front := Kept(mask[..n]);
      assert Kept(mask) == front + (if mask[n] then [n] else []);
      assert forall k :: 0 <= k < |front| ==> xs[..n][front[k]] == xs[front[k]];
    }
  }

  lemma KeepMembers<T>(xs: seq<T>, mask: seq<bool>, x: T)
    requires |xs| == |mask|
    ensures x in Keep(xs, mask) <==> exists j :: 0 <= j < |xs| && mask[j] && xs[j] == x
  {
    KeepIsOrderedFilter(xs, mask);
    if x in Keep(xs, mask) {
      var k :| 0 <= k < |Keep(xs, mask)| && Keep(xs, mask)[k] == x;
      assert xs[Kept(mask)[k]] == x;
    }
    if j :| 0 <= j < |xs| && mask[j] && xs[j] == x {
      KeptIsComplete(mask, j);
      var k :| 0 <= k < |Kept(mask)| && Kept(mask)[k] == j;
      assert Keep(xs, mask)[k] == x;
    }
  }

  lemma KeepDistinct<T>(xs: seq<T>, mask: seq<bool>)
    requires |xs| == |mask| && Distinct(xs)
    ensures Distinct(Keep(xs, mask))
  {
    KeepIsOrderedFilter(xs, mask);
  }

  /** One more element: what a single iteration of a deleting loop adds to the kept prefix. */
  lemma KeepSnoc<T>(xs: seq<T>, mask: seq<bool>, n: nat)
    requires n < |xs| == |mask|
    ensures Keep(xs[..n + 1], mask[..n + 1]) == Keep(xs[..n], mask[..n]) + (if mask[n] then [xs[n]] else [])
  {
    assert xs[..n + 1][..n] == xs[..n] && mask[..n + 1][..n] == mask[..n];
  }

  /** In a table of distinct elements a kept element is still at its own position exactly when
      nothing at or before that position was deleted. */
  lemma KeptInPlace<T>(xs: seq<T>, mask: seq<bool>, i: nat)
    requires i < |xs| == |mask| && Distinct(xs)
    ensures (i < |Keep(xs, mask)| && Keep(xs, mask)[i] == xs[i]) <==> forall j :: 0 <= j <= i ==> mask[j]
  {
    KeepIsOrderedFilter(xs, mask);
    var ps := Kept(mask);
    if forall j :: 0 <= j <= i ==> mask[j] {
      KeptOfPrefix(mask, i + 1);
    }
    if i < |ps| && Keep(xs, mask)[i] == xs[i] {
      KeptSkips(ps, i);
      forall j | 0 <= j <= i ensures mask[j] {
        assert ps[j] == j;
      }
    }
  }

  lemma {:induction false} KeptOfPrefix(mask: seq<bool>, n: nat)
    requires n <= |mask| && forall j :: 0 <= j < n ==> mask[j]
    ensures n <= |Kept(mask)| && forall k :: 0 <= k < n ==> Kept(mask)[k] == k
  {
    if n < |mask| {
      KeptOfPrefix(mask[..|mask| - 1], n);
    } else if n > 0 {
      KeptOfPrefix(mask[..n - 1], n - 1);
      KeepIsOrderedFilter(mask[..n - 1], mask[..n - 1]);
    }
  }

  /** An increasing sequence of naturals that has reached i at position i has skipped nothing. */
  lemma {:induction false} KeptSkips(ps: seq<nat>, i: nat)
    requires i < |ps| && ps[i] == i && forall a, b :: 0 <= a < b < |ps| ==> ps[a] < ps[b]
    ensures forall k :: 0 <= k <= i ==> ps[k] == k
  {
    if i > 0 {
      assert ps[i - 1] < ps[i];
      AtLeast(ps, i - 1);
      KeptSkips(ps, i - 1);
    }
  }

  lemma {:induction false} AtLeast(ps: seq<nat>, i: nat)
    requires i < |ps| && forall a, b :: 0 <= a < b < |ps| ==> ps[a] < ps[b]
    ensures ps[i] >= i
  {
    if i > 0 {
      AtLeast(ps, i - 1);
    }
  }

  /** A deleting loop in mid-sweep: `table` started as `was`, n elements have been visited, those
      kept are in front of i with their final values from `result`, the rest is untouched. */
  ghost predicate MidSweep<T>(table: seq<T>, i: nat, was: seq<T>, result: seq<T>, mask: seq<bool>, n: nat) {
    && n <= |was| == |result| == |mask| && i <= |table|
    && table[..i] == Keep(result[..n], mask[..n])
    && table[i..] == was[n..]
  }

  lemma Unvisited<T>(table: seq<T>, i: nat, was: seq<T>, result: seq<T>, mask: seq<bool>, n: nat)
    requires MidSweep(table, i, was, result, mask, n)
    ensures |table| - i == |was| - n
    ensures i < |table| ==> table[i] == was[n]
  {
    if i < |table| {
      assert table[i..][0] == was[n..][0];
    }
  }

  lemma SweepStep<T>(before: seq<T>, after: seq<T>, i: nat, was: seq<T>, result: seq<T>, mask: seq<bool>, n: nat)
    requires MidSweep(before, i, was, result, mask, n) && i < |before| && n < |was|
    requires after == if mask[n] then before[i := result[n]] else RemoveAt(before, i)
    ensures MidSweep(after, if mask[n] then i + 1 else i, was, result, mask, n + 1)
  {
    KeepSnoc(result, mask, n);
    assert was[n..][1..] == was[n + 1..];
    if mask[n] {
      assert after[..i + 1] == before[..i] + [result[n]];
      assert after[i + 1..] == before[i..][1..];
    } else {
      assert after[..i] == before[..i];
      assert after[i..] == before[i..][1..];
    }
  }

  lemma SweepDone<T>(table: seq<T>, i: nat, was: seq<T>, result: seq<T>, mask: seq<bool>, n: nat)
    requires MidSweep(table, i, was, result, mask, n) && i == |table|
    ensures n == |was| && table == Keep(result, mask)
  {
    Unvisited(table, i, was, result, mask, n);
    assert table[..i] == table && result[..n] == result && mask[..n] == mask;
  }

  // ---------- facts about concatenation and slices, kept away from larger contexts ----------

  lemma Associative<T>(a: seq<T>, b: seq<T>, c: seq<T>)
    ensures (a + b) + c == a + (b + c)
  {
  }

  lemma AppendNext<T>(a: seq<T>, b: seq<T>, i: nat)
    requires i < |b|
    ensures (a + b[..i]) + [b[i]] == a + b[..i + 1]
  {
  }

  lemma SliceOfArray<T>(a: array<T>, i: nat, j: nat)
    requires i <= j <= a.Length
    ensures a[..][i..] == a[i..] && a[..][i..j] == a[i..j]
  {
  }
}
