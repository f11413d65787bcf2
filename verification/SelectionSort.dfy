/** homework1/sort.c: selection sort in place, with a count of the exchanges it makes. */
module SelectionSort {
  import opened Permutations

  predicate Sorted(s: seq<int>) { forall i, j :: 0 <= i < j < |s| ==> s[i] <= s[j] }

  predicate Distinct(s: seq<int>) { forall i, j :: 0 <= i < j < |s| ==> s[i] != s[j] }

  // ----- Where each element belongs -----

  function Below(s: seq<int>, v: int): set<int> { set x | x in s && x < v }

  /** Place j of the result is the place of s[j] in sorted order. */
  function Order(s: seq<int>): (r: seq<nat>)
    ensures |r| == |s|
  {
    seq(|s|, j requires 0 <= j < |s| => |Below(s, s[j])|)
  }

  function Values(s: seq<int>): set<int> { set x | x in s }

  lemma {:induction false} DistinctSize(s: seq<int>)
    requires Distinct(s)
    ensures |Values(s)| == |s|
  {
    if s != [] {
      var n := |s| - 1;
      DistinctSize(s[..n]);
      assert Values(s) == Values(s[..n]) + {s[n]};
      assert s[n] !in Values(s[..n]);
    }
  }

  lemma OrderIsPerm(s: seq<int>)
    requires Distinct(s)
    ensures Perm(Order(s))
  {
    DistinctSize(s);
    forall i | 0 <= i < |s|
      ensures Order(s)[i] < |s|
    {
      SubsetSize(Below(s, s[i]), Values(s) - {s[i]});
    }
    forall i, j | 0 <= i < j < |s|
      ensures Order(s)[i] != Order(s)[j]
    {
      if s[i] < s[j] { BelowGrows(s, i, j); } else { BelowGrows(s, j, i); }
    }
  }

  lemma BelowGrows(s: seq<int>, i: nat, j: nat)
    requires i < |s| && j < |s| && s[i] < s[j]
    ensures |Below(s, s[i])| < |Below(s, s[j])|
  {
    SubsetSize(Below(s, s[i]) + {s[i]}, Below(s, s[j]));
  }

  lemma SwapOrder(s: seq<int>, i: nat, j: nat)
    requires i < |s| && j < |s|
    ensures Order(Swap(s, i, j)) == Swap(Order(s), i, j)
  {
    var t := Swap(s, i, j);
    forall x
      ensures x in t <==> x in s
    {
      if x in s {
        var k :| 0 <= k < |s| && s[k] == x;
        assert t[if k == i then j else if k == j then i else k] == x;
      }
      if x in t {
        var k :| 0 <= k < |t| && t[k] == x;
        assert s[if k == i then j else if k == j then i else k] == x;
      }
    }
    forall v
      ensures Below(t, v) == Below(s, v)
    {
    }
  }

  lemma SwapDistinct(s: seq<int>, i: nat, j: nat)
    requires i < |s| && j < |s| && Distinct(s)
    ensures Distinct(Swap(s, i, j))
  {
  }

  /** An element that exceeds just the first `i` belongs at place `i`. */
  lemma BelongsAt(s: seq<int>, i: nat, m: nat)
    requires Distinct(s) && i <= m < |s|
    requires forall k :: 0 <= k < i ==> s[k] < s[m]
    requires forall k :: i <= k < |s| ==> s[m] <= s[k]
    ensures Order(s)[m] == i
  {
    DistinctSize(s[..i]);
    assert Below(s, s[m]) == Values(s[..i]);
  }

  lemma SortedIsIdentity(s: seq<int>)
    requires Distinct(s) && Sorted(s)
    ensures Identity(Order(s))
  {
    forall i | 0 <= i < |s|
      ensures Order(s)[i] == i
    {
      BelongsAt(s, i, i);
    }
  }

  // ----- How many exchanges are needed -----

  /** The exchanges that a permutation is away from the identity. */
  ghost function Distance(s: seq<int>): int { |s| - |Cycles(Order(s))| }

  lemma SortedDistance(s: seq<int>)
    requires Distinct(s) && Sorted(s)
    ensures Distance(s) == 0
  {
    SortedIsIdentity(s);
    IdentityCycles(Order(s));
  }

  lemma SwapDistance(s: seq<int>, i: nat, j: nat)
    requires Distinct(s) && i < |s| && j < |s|
    ensures Distance(Swap(s, i, j)) >= Distance(s) - 1
    ensures i != j && Order(s)[j] == i ==> Distance(Swap(s, i, j)) == Distance(s) - 1
  {
    OrderIsPerm(s);
    SwapOrder(s, i, j);
    SwapAddsAtMostOne(Order(s), i, j);
    if i != j && Order(s)[j] == i {
      HomecomingAddsOne(Order(s), i, j);
    }
  }

  predicate Valid(s: seq<int>, swaps: seq<(nat, nat)>) { forall e :: e in swaps ==> e.0 < |s| && e.1 < |s| }

  /** Any sequence of exchanges, applied in order. */
  function Exchange(s: seq<int>, swaps: seq<(nat, nat)>): (r: seq<int>)
    requires Valid(s, swaps)
    decreases |swaps|
  {
    if swaps == [] then s else Exchange(Swap(s, swaps[0].0, swaps[0].1), swaps[1..])
  }

  /** No sequence of exchanges sorts distinct elements in fewer than Distance steps. */
  lemma {:induction false} NoFewerExchanges(s: seq<int>, swaps: seq<(nat, nat)>)
    requires Distinct(s)
    requires Valid(s, swaps)
    requires Sorted(Exchange(s, swaps))
    ensures |swaps| >= Distance(s)
    decreases |swaps|
  {
    if swaps == [] {
      SortedDistance(s);
    } else {
      var (i, j) := swaps[0];
      SwapDistinct(s, i, j);
      SwapDistance(s, i, j);
      NoFewerExchanges(Swap(s, i, j), swaps[1..]);
    }
  }

  // ----- Elements out of place -----

  function Misplaced(p: seq<nat>): set<nat> { set k: nat | k in Places(|p|) && p[k] != k }

  /** An exchange that brings `i` home settles one place or two and unsettles none. */
  lemma HomecomingSettles(p: seq<nat>, i: nat, m: nat)
    requires Perm(p) && i < |p| && m < |p| && m != i && p[m] == i
    ensures |Misplaced(p)| - 2 <= |Misplaced(Swap(p, i, m))| <= |Misplaced(p)| - 1
    ensures |Misplaced(p)| >= 2
  {
    var q := Swap(p, i, m);
    var before := Misplaced(p);
    assert forall k: nat :: k < |p| && k != i && k != m ==> q[k] == p[k];
    assert i in before && m in before;
    assert |before - {i} - {m}| == |before| - 2;
    if q[m] == m {
      assert Misplaced(q) == before - {i} - {m};
    } else {
      assert Misplaced(q) == before - {i};
    }
  }

  // ----- The program -----

  /** The part before `i` is final: sorted, and below everything after it. */
  predicate Settled(s: seq<int>, i: nat) {
    && i <= |s|
    && (forall j, k :: 0 <= j < k < i ==> s[j] <= s[k])
    && (forall j, k :: 0 <= j < i <= k < |s| ==> s[j] <= s[k])
  }

  predicate MinAt(s: seq<int>, from: nat, to: nat, m: nat) {
    from <= m < to <= |s| && forall k :: from <= k < to ==> s[m] <= s[k]
  }

  lemma SwapSettles(s: seq<int>, i: nat, m: nat)
    requires Settled(s, i) && MinAt(s, i, |s|, m)
    ensures Settled(Swap(s, i, m), i + 1)
  {
  }

  lemma MinBelongs(s: seq<int>, i: nat, m: nat)
    requires Distinct(s) && Settled(s, i) && MinAt(s, i, |s|, m)
    ensures Order(s)[m] == i
  {
    forall k | 0 <= k < i
      ensures s[k] < s[m]
    {
      assert s[k] <= s[m] && s[k] != s[m];
    }
    BelongsAt(s, i, m);
  }

  /** What the exchanges made so far have to do with the order of the elements at the start. */
  ghost predicate Accounted(s0: seq<int>, s: seq<int>, exchanges: int) {
    var m0, m := |Misplaced(Order(s0))|, |Misplaced(Order(s))|;
    && Distinct(s)
    && |s| == |s0|
    && exchanges == Distance(s0) - Distance(s)
    && m0 <= 2 * exchanges + m
    && exchanges + m <= m0
    && (m == 0 && m0 > 0 ==> exchanges <= m0 - 1)
  }

  lemma ExchangeAccounted(s0: seq<int>, s: seq<int>, exchanges: int, i: nat, m: nat)
    requires Accounted(s0, s, exchanges) && Settled(s, i) && MinAt(s, i, |s|, m) && m != i
    ensures Accounted(s0, Swap(s, i, m), exchanges + 1)
  {
    MinBelongs(s, i, m);
    OrderIsPerm(s);
    SwapDistinct(s, i, m);
    SwapDistance(s, i, m);
    SwapOrder(s, i, m);
    HomecomingSettles(Order(s), i, m);
  }

  lemma SortedMisplaced(s: seq<int>)
    requires Distinct(s) && Sorted(s)
    ensures |Misplaced(Order(s))| == 0
  {
    SortedIsIdentity(s);
    assert Misplaced(Order(s)) == {};
  }

  function Max(a: int, b: int): int { if a < b then b else a }

  /**
   * What sort_array's exchanges amount to, when the elements differ: their number follows from the
   * cycles, lies between the two bounds set by the elements out of place, and cannot be improved on.
   */
  ghost predicate Economical(s: seq<int>, exchanges: int) {
    var m := |Misplaced(Order(s))|;
    && exchanges == |s| - |Cycles(Order(s))|
    && m <= 2 * exchanges
    && exchanges <= Max(0, m - 1)
    && (forall swaps :: Valid(s, swaps) && Sorted(Exchange(s, swaps)) ==> exchanges <= |swaps|)
  }

  lemma SortedAccount(s0: seq<int>, s: seq<int>, exchanges: int)
    requires Distinct(s0) && Accounted(s0, s, exchanges) && Sorted(s)
    ensures Economical(s0, exchanges)
  {
    SortedDistance(s);
    SortedMisplaced(s);
    forall swaps | Valid(s0, swaps) && Sorted(Exchange(s0, swaps))
      ensures exchanges <= |swaps|
    {
      NoFewerExchanges(s0, swaps);
    }
  }

  predicate SameElements(s: seq<int>, t: seq<int>) { multiset(s) == multiset(t) }

  method ExchangeElements(arr: array<int>, i: nat, j: nat)
    requires i < arr.Length && j < arr.Length
    modifies arr
    ensures arr[..] == Swap(old(arr[..]), i, j)
  {
    var temp := arr[i];
    arr[i] := arr[j];
    arr[j] := temp;
  }

  lemma SortStart(s: seq<int>)
    ensures Settled(s, 0) && SameElements(s, s)
    ensures Distinct(s) ==> Accounted(s, s, 0)
  {
  }

  lemma MinStart(s: seq<int>, i: nat)
    requires i < |s|
    ensures MinAt(s, i, i + 1, i)
  {
  }

  lemma MinStep(s: seq<int>, i: nat, j: nat, m: nat)
    requires j < |s| && MinAt(s, i, j, m)
    ensures i <= m < |s|
    ensures MinAt(s, i, j + 1, if s[j] < s[m] then j else m)
  {
  }

  method SortArray(arr: array?<int>) returns (code: int, ghost exchanges: int)
    modifies arr
    ensures code == -1 <==> arr == null || arr.Length == 0
    ensures code == 0 <==> arr != null && arr.Length > 0
    ensures code == 0 ==> Sorted(arr[..]) && SameElements(old(arr[..]), arr[..])
    ensures code == 0 && Distinct(old(arr[..])) ==> Economical(old(arr[..]), exchanges)
  {
    exchanges := 0;
    if arr == null {
      return -1, exchanges;
    }
    var len := arr.Length;
    if len == 0 {
      return -1, exchanges;
    }
    ghost var start := arr[..];
    hide Accounted, Economical, Settled, Sorted, Distinct, MinAt, Swap, SameElements;
    SortStart(start);
    var i := 0;
    while i < len - 1
      invariant 0 <= i <= len - 1
      invariant Settled(arr[..], i)
      invariant SameElements(start, arr[..])
      invariant Distinct(start) ==> Accounted(start, arr[..], exchanges)
    {
      var minIndex := i;
      var j := i + 1;
      ghost var before := arr[..];
      MinStart(before, i);
      while j < len
        invariant i + 1 <= j <= len
        invariant arr[..] == before
        invariant i <= minIndex < len
        invariant MinAt(before, i, j, minIndex)
      {
        MinStep(before, i, j, minIndex);
        if arr[j] < arr[minIndex] {
          minIndex := j;
        }
        j := j + 1;
      }
      SwapSettles(before, i, minIndex);
      if minIndex != i {
        ExchangeElements(arr, i, minIndex);
        SwapMultiset(start, before, i, minIndex);
        if Distinct(start) {
          ExchangeAccounted(start, before, exchanges, i, minIndex);
        }
        exchanges := exchanges + 1;
      } else {
        SwapWithItself(before, i);
      }
      i := i + 1;
    }
    SettledIsSorted(arr[..]);
    if Distinct(start) {
      SortedAccount(start, arr[..], exchanges);
    }
    code := 0;
  }

  lemma SwapMultiset(s0: seq<int>, s: seq<int>, i: nat, j: nat)
    requires i < |s| && j < |s| && SameElements(s0, s)
    ensures SameElements(s0, Swap(s, i, j))
  {
  }

  lemma SwapWithItself(s: seq<int>, i: nat)
    requires i < |s|
    ensures Swap(s, i, i) == s
  {
  }

  lemma SettledIsSorted(s: seq<int>)
    requires |s| > 0 && Settled(s, |s| - 1)
    ensures Sorted(s)
  {
  }
}
