/** Comparing two lists: both are sorted in place and walked with two cursors, and the result names the positions of
    what only one of them has. */
module Diff {
  predicate Sorted(s: seq<int>)
  {
    forall j, k | 0 <= j < k < |s| :: s[j] <= s[k]
  }

  predicate Increasing(s: seq<nat>)
  {
    forall j, k | 0 <= j < k < |s| :: s[j] < s[k]
  }

  // ---- Sorting ----

  function Insert(x: int, s: seq<int>): seq<int>
  {
    if s == [] || x <= s[0] then [x] + s else [s[0]] + Insert(x, s[1..])
  }

  function SortedOf(s: seq<int>): seq<int>
  {
    if s == [] then [] else Insert(s[0], SortedOf(s[1..]))
  }

  lemma SortedCons(h: int, t: seq<int>)
    requires Sorted(t) && (t != [] ==> h <= t[0])
    ensures Sorted([h] + t)
  {
  }

  lemma {:induction false} InsertKeepsSorted(x: int, s: seq<int>)
    requires Sorted(s)
    ensures Sorted(Insert(x, s)) && multiset(Insert(x, s)) == multiset{x} + multiset(s)
    ensures Insert(x, s)[0] == if s == [] || x <= s[0] then x else s[0]
  {
    if s == [] || x <= s[0] {
      SortedCons(x, s);
    } else {
      InsertKeepsSorted(x, s[1..]);
      assert s == [s[0]] + s[1..];
      SortedCons(s[0], Insert(x, s[1..]));
    }
  }

  lemma {:induction false} SortedOfSorts(s: seq<int>)
    ensures Sorted(SortedOf(s)) && multiset(SortedOf(s)) == multiset(s) && |SortedOf(s)| == |s|
  {
    if s != [] {
      SortedOfSorts(s[1..]);
      InsertKeepsSorted(s[0], SortedOf(s[1..]));
      assert s == [s[0]] + s[1..];
      assert |SortedOf(s)| == |multiset(SortedOf(s))|;
    }
  }

  lemma {:induction false} SortedOfSorted(s: seq<int>)
    requires Sorted(s)
    ensures SortedOf(s) == s
  {
    if s != [] {
      SortedOfSorted(s[1..]);
      assert s == [s[0]] + s[1..];
    }
  }

  /** sort.Slice: any algorithm leaves this sequence. */
  method SortSlice(a: array<int>)
    modifies a
    ensures a[..] == SortedOf(old(a[..]))
  {
    var sorted := SortedOf(a[..]);
    SortedOfSorts(a[..]);
    for k := 0 to a.Length
      invariant a[..k] == sorted[..k]
    {
      a[k] := sorted[k];
      assert a[..k + 1] == a[..k] + [sorted[k]];
    }
    assert a[..] == a[..a.Length] && sorted[..a.Length] == sorted;
  }

  // ---- The walk ----

  /** Reduce over a tail, appending its positions. */
  method AppendTail(r0: seq<nat>, tail: seq<int>, start: nat) returns (r: seq<nat>)
    ensures r == r0 + Range(start, start + |tail|)
  {
    r := r0;
    for i := 0 to |tail|
      invariant r == r0 + Range(start, start + i)
    {
      r := r + [start + i];
    }
  }

  method WalkLists(newest: array<int>, current: array<int>) returns (added: seq<nat>, removed: seq<nat>)
    ensures (added, removed) == Walk(newest[..], current[..], 0, 0)
  {
    var x, y := 0, 0;
    added, removed := [], [];
    ghost var n, c := newest[..], current[..];
    ghost var all := Walk(n, c, 0, 0);
    assert [] + all.0 == all.0 && [] + all.1 == all.1;
    while true
      invariant x <= |n| && y <= |c|
      invariant added + Walk(n, c, x, y).0 == all.0 && removed + Walk(n, c, x, y).1 == all.1
      decreases |n| + |c| - x - y
    {
      if x == newest.Length {
        removed := AppendTail(removed, current[y..], y);
        assert added + [] == added;
        break;
      }
      if y == current.Length {
        added := AppendTail(added, newest[x..], x);
        assert removed + [] == removed;
        break;
      }
      WalkStep(n, c, x, y, added, removed);
      if newest[x] == current[y] {
        x, y := x + 1, y + 1;
      } else if newest[x] < current[y] {
        added := added + [x];
        x := x + 1;
      } else {
        removed := removed + [y];
        y := y + 1;
      }
    }
  }

  /** Both lists may be the same array. */
  method Diff(newest: array<int>, current: array<int>) returns (added: seq<nat>, removed: seq<nat>)
    modifies newest, current
    ensures newest[..] == SortedOf(old(newest[..])) && current[..] == SortedOf(old(current[..]))
    ensures (added, removed) == Walk(newest[..], current[..], 0, 0)
  {
    SortSlice(newest);
    ghost var sorted := newest[..];
    SortSlice(current);
    if newest == current {
      SortedOfSorts(old(newest[..]));
      SortedOfSorted(sorted);
    }
    added, removed := WalkLists(newest, current);
  }

  // ---- Its specification ----

  function Range(from: nat, to: nat): seq<nat>
  {
    if from >= to then [] else Range(from, to - 1) + [to - 1]
  }

  function Walk(n: seq<int>, c: seq<int>, x: nat, y: nat): (seq<nat>, seq<nat>)
    requires x <= |n| && y <= |c|
    decreases |n| + |c| - x - y
  {
    if x == |n| then ([], Range(y, |c|))
    else if y == |c| then (Range(x, |n|), [])
    else if n[x] == c[y] then Walk(n, c, x + 1, y + 1)
    else if n[x] < c[y] then
      var (added, removed) := Walk(n, c, x + 1, y);
      ([x] + added, removed)
    else
      var (added, removed) := Walk(n, c, x, y + 1);
      (added, [y] + removed)
  }

  lemma WalkStep(n: seq<int>, c: seq<int>, x: nat, y: nat, added: seq<nat>, removed: seq<nat>)
    requires x < |n| && y < |c|
    ensures n[x] < c[y] ==>
      added + Walk(n, c, x, y).0 == (added + [x]) + Walk(n, c, x + 1, y).0
          && Walk(n, c, x, y).1 == Walk(n, c, x + 1, y).1
    ensures n[x] > c[y] ==>
      Walk(n, c, x, y).0 == Walk(n, c, x, y + 1).0
          && removed + Walk(n, c, x, y).1 == (removed + [y]) + Walk(n, c, x, y + 1).1
  {
    if n[x] < c[y] {
      assert added + ([x] + Walk(n, c, x + 1, y).0) == (added + [x]) + Walk(n, c, x + 1, y).0;
    } else if n[x] > c[y] {
      assert removed + ([y] + Walk(n, c, x, y + 1).1) == (removed + [y]) + Walk(n, c, x, y + 1).1;
    }
  }

  // ---- What it promises ----

  function Pick(s: seq<int>, at: seq<nat>): seq<int>
    requires forall k | 0 <= k < |at| :: at[k] < |s|
  {
    seq(|at|, k requires 0 <= k < |at| => s[at[k]])
  }

  lemma {:induction false} RangeIs(from: nat, to: nat)
    ensures |Range(from, to)| == (if from < to then to - from else 0)
    ensures forall k | 0 <= k < |Range(from, to)| :: Range(from, to)[k] == from + k
  {
    if from < to { RangeIs(from, to - 1); }
  }

  predicate Within(at: seq<nat>, low: nat, high: nat)
  {
    Increasing(at) && forall k | 0 <= k < |at| :: low <= at[k] < high
  }

  lemma {:induction false} WalkWithin(n: seq<int>, c: seq<int>, x: nat, y: nat)
    requires x <= |n| && y <= |c|
    ensures Within(Walk(n, c, x, y).0, x, |n|) && Within(Walk(n, c, x, y).1, y, |c|)
    decreases |n| + |c| - x - y
  {
    RangeIs(x, |n|);
    RangeIs(y, |c|);
    if x < |n| && y < |c| {
      if n[x] == c[y] { WalkWithin(n, c, x + 1, y + 1); }
      else if n[x] < c[y] { WalkWithin(n, c, x + 1, y); }
      else { WalkWithin(n, c, x, y + 1); }
    }
  }

  lemma SameHead(h: int, a: multiset<int>, b: multiset<int>)
    ensures (multiset{h} + a) - (multiset{h} + b) == a - b
  {
  }

  lemma OwnHead(h: int, a: multiset<int>, b: multiset<int>)
    requires h !in b
    ensures (multiset{h} + a) - b == multiset{h} + (a - b) && b - (multiset{h} + a) == b - a
  {
  }

  lemma PickHead(s: seq<int>, x: nat, at: seq<nat>)
    requires x < |s| && forall k | 0 <= k < |at| :: at[k] < |s|
    ensures multiset(Pick(s, [x] + at)) == multiset{s[x]} + multiset(Pick(s, at))
  {
    assert Pick(s, [x] + at) == [s[x]] + Pick(s, at);
  }

  lemma PickRange(s: seq<int>, x: nat)
    requires x <= |s|
    ensures (forall k | 0 <= k < |Range(x, |s|)| :: Range(x, |s|)[k] < |s|) && Pick(s, Range(x, |s|)) == s[x..]
  {
    RangeIs(x, |s|);
  }

  lemma Split(s: seq<int>, x: nat)
    requires x < |s|
    ensures multiset(s[x..]) == multiset{s[x]} + multiset(s[x + 1..])
  {
    assert s[x..] == [s[x]] + s[x + 1..];
  }

  /** The positions pick, counting repetitions, what is left over of the one list and of the other. */
  predicate PicksRest(n: seq<int>, c: seq<int>, x: nat, y: nat)
    requires x <= |n| && y <= |c|
  {
    var (added, removed) := Walk(n, c, x, y);
    && Within(added, x, |n|) && Within(removed, y, |c|)
    && multiset(Pick(n, added)) == multiset(n[x..]) - multiset(c[y..])
    && multiset(Pick(c, removed)) == multiset(c[y..]) - multiset(n[x..])
    && |n| - x - |added| == |c| - y - |removed|
  }

  lemma PicksAtEnd(n: seq<int>, c: seq<int>, x: nat, y: nat)
    requires x <= |n| && y <= |c| && (x == |n| || y == |c|)
    ensures PicksRest(n, c, x, y)
  {
    WalkWithin(n, c, x, y);
    RangeIs(x, |n|);
    RangeIs(y, |c|);
    PickRange(n, x);
    PickRange(c, y);
  }

  lemma PicksPastBoth(n: seq<int>, c: seq<int>, x: nat, y: nat)
    requires x < |n| && y < |c| && n[x] == c[y] && PicksRest(n, c, x + 1, y + 1)
    ensures PicksRest(n, c, x, y)
  {
    Split(n, x);
    Split(c, y);
    SameHead(n[x], multiset(n[x + 1..]), multiset(c[y + 1..]));
    SameHead(n[x], multiset(c[y + 1..]), multiset(n[x + 1..]));
  }

  lemma WithinCons(x: nat, at: seq<nat>, high: nat)
    requires x < high && Within(at, x + 1, high)
    ensures Within([x] + at, x, high)
  {
  }

  lemma PicksPastNew(n: seq<int>, c: seq<int>, x: nat, y: nat)
    requires Sorted(c) && x < |n| && y < |c| && n[x] < c[y] && PicksRest(n, c, x + 1, y)
    ensures PicksRest(n, c, x, y)
  {
    var added := Walk(n, c, x + 1, y).0;
    Split(n, x);
    WithinCons(x, added, |n|);
    PickHead(n, x, added);
    OwnHead(n[x], multiset(n[x + 1..]), multiset(c[y..]));
  }

  lemma PicksPastOld(n: seq<int>, c: seq<int>, x: nat, y: nat)
    requires Sorted(n) && x < |n| && y < |c| && n[x] > c[y] && PicksRest(n, c, x, y + 1)
    ensures PicksRest(n, c, x, y)
  {
    var removed := Walk(n, c, x, y + 1).1;
    Split(c, y);
    WithinCons(y, removed, |c|);
    PickHead(c, y, removed);
    OwnHead(c[y], multiset(c[y + 1..]), multiset(n[x..]));
  }

  lemma {:induction false} WalkPicks(n: seq<int>, c: seq<int>, x: nat, y: nat)
    requires Sorted(n) && Sorted(c) && x <= |n| && y <= |c|
    ensures PicksRest(n, c, x, y)
    decreases |n| + |c| - x - y
  {
    if x == |n| || y == |c| {
      PicksAtEnd(n, c, x, y);
    } else if n[x] == c[y] {
      WalkPicks(n, c, x + 1, y + 1);
      PicksPastBoth(n, c, x, y);
    } else if n[x] < c[y] {
      WalkPicks(n, c, x + 1, y);
      PicksPastNew(n, c, x, y);
    } else {
      WalkPicks(n, c, x, y + 1);
      PicksPastOld(n, c, x, y);
    }
  }

  /** The positions come in increasing order; what stands at them is, counting repetitions, what the one list has and
      the other has not; and what is left of either list is equally much.  Each list is the one given, sorted. */
  lemma DiffIsDifference(newest: seq<int>, current: seq<int>)
    ensures var n, c := SortedOf(newest), SortedOf(current);
      var (added, removed) := Walk(n, c, 0, 0);
      && Within(added, 0, |n|) && Within(removed, 0, |c|)
      && multiset(Pick(n, added)) == multiset(newest) - multiset(current)
      && multiset(Pick(c, removed)) == multiset(current) - multiset(newest)
      && |newest| - |added| == |current| - |removed|
  {
    SortedOfSorts(newest);
    SortedOfSorts(current);
    var n, c := SortedOf(newest), SortedOf(current);
    WalkPicks(n, c, 0, 0);
    assert n[0..] == n && c[0..] == c;
  }

  /** Nothing is added and nothing removed exactly when the lists are rearrangements of each other. */
  lemma NoDiffIffRearranged(newest: seq<int>, current: seq<int>)
    ensures Walk(SortedOf(newest), SortedOf(current), 0, 0) == ([], []) <==> multiset(newest) == multiset(current)
  {
    DiffIsDifference(newest, current);
    var n, c := SortedOf(newest), SortedOf(current);
    var (added, removed) := Walk(n, c, 0, 0);
    if multiset(newest) == multiset(current) {
      assert |multiset(Pick(n, added))| == 0;
      assert |multiset(Pick(c, removed))| == 0;
    }
    if added == [] && removed == [] {
      assert Pick(n, added) == [] && Pick(c, removed) == [];
      forall e ensures multiset(newest)[e] == multiset(current)[e] {
        assert (multiset(newest) - multiset(current))[e] == 0;
        assert (multiset(current) - multiset(newest))[e] == 0;
      }
      assert multiset(newest) == multiset(current);
    }
  }

  // ---- Which of equal elements ----

  /** How often v stands in s from position x up to p. */
  function Count(s: seq<int>, x: nat, p: nat, v: int): nat
    requires x <= p <= |s|
  {
    multiset(s[x..p])[v]
  }

  lemma CountStep(s: seq<int>, x: nat, p: nat, v: int)
    requires x < p <= |s|
    ensures Count(s, x, p, v) == Count(s, x + 1, p, v) + if s[x] == v then 1 else 0
  {
    assert s[x..p] == [s[x]] + s[x + 1..p];
  }

  lemma SortedLacks(s: seq<int>, x: nat, v: int)
    requires Sorted(s) && x <= |s| && (x < |s| ==> v < s[x])
    ensures Count(s, x, |s|, v) == 0
  {
    assert s[x..|s|] == s[x..];
  }

  lemma {:induction false} AddedAt(n: seq<int>, c: seq<int>, x: nat, y: nat, p: nat)
    requires Sorted(n) && Sorted(c) && x <= p < |n| && y <= |c|
    ensures p in Walk(n, c, x, y).0 <==> Count(n, x, p, n[p]) >= Count(c, y, |c|, n[p])
    decreases |n| + |c| - x - y
  {
    WalkWithin(n, c, x, y);
    RangeIs(x, |n|);
    if y == |c| {
      assert c[y..|c|] == [] && Range(x, |n|)[p - x] == p;
    } else if n[x] == c[y] {
      CountStep(c, y, |c|, n[p]);
      WalkWithin(n, c, x + 1, y + 1);
      if p > x {
        CountStep(n, x, p, n[p]);
        AddedAt(n, c, x + 1, y + 1, p);
      }
    } else if n[x] < c[y] {
      SortedLacks(c, y, n[x]);
      if p > x {
        CountStep(n, x, p, n[p]);
        AddedAt(n, c, x + 1, y, p);
      }
    } else {
      CountStep(c, y, |c|, n[p]);
      AddedAt(n, c, x, y + 1, p);
    }
  }

  lemma {:induction false} RemovedAt(n: seq<int>, c: seq<int>, x: nat, y: nat, p: nat)
    requires Sorted(n) && Sorted(c) && x <= |n| && y <= p < |c|
    ensures p in Walk(n, c, x, y).1 <==> Count(c, y, p, c[p]) >= Count(n, x, |n|, c[p])
    decreases |n| + |c| - x - y
  {
    WalkWithin(n, c, x, y);
    RangeIs(y, |c|);
    if x == |n| {
      assert n[x..|n|] == [] && Range(y, |c|)[p - y] == p;
    } else if n[x] == c[y] {
      CountStep(n, x, |n|, c[p]);
      WalkWithin(n, c, x + 1, y + 1);
      if p > y {
        CountStep(c, y, p, c[p]);
        RemovedAt(n, c, x + 1, y + 1, p);
      }
    } else if n[x] > c[y] {
      SortedLacks(n, x, c[y]);
      if p > y {
        CountStep(c, y, p, c[p]);
        RemovedAt(n, c, x, y + 1, p);
      }
    } else {
      CountStep(n, x, |n|, c[p]);
      RemovedAt(n, c, x + 1, y, p);
    }
  }

  /** A position is named exactly if its value stands before it, in the same sorted list, as often already as in the
      other list: of equal elements the last ones are the surplus. */
  lemma PositionsExactly(newest: seq<int>, current: seq<int>, p: nat)
    ensures var n, c := SortedOf(newest), SortedOf(current);
      var (added, removed) := Walk(n, c, 0, 0);
      && (p in added <==> p < |n| && multiset(n[..p])[n[p]] >= multiset(current)[n[p]])
      && (p in removed <==> p < |c| && multiset(c[..p])[c[p]] >= multiset(newest)[c[p]])
  {
    SortedOfSorts(newest);
    SortedOfSorts(current);
    WalkPositions(SortedOf(newest), SortedOf(current), p);
  }

  lemma WalkPositions(n: seq<int>, c: seq<int>, p: nat)
    requires Sorted(n) && Sorted(c)
    ensures p in Walk(n, c, 0, 0).0 <==> p < |n| && multiset(n[..p])[n[p]] >= multiset(c)[n[p]]
    ensures p in Walk(n, c, 0, 0).1 <==> p < |c| && multiset(c[..p])[c[p]] >= multiset(n)[c[p]]
  {
    WalkWithin(n, c, 0, 0);
    assert n[0..|n|] == n && c[0..|c|] == c;
    if p < |n| { AddedAt(n, c, 0, 0, p); }
    if p < |c| { RemovedAt(n, c, 0, 0, p); }
  }
}
