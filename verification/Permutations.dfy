/** Permutations of 0, ..., n - 1, their cycles, and what an exchange of two places does to the cycles. */
module Permutations {

  predicate Perm(p: seq<nat>) {
    && (forall i :: 0 <= i < |p| ==> p[i] < |p|)
    && (forall i, j :: 0 <= i < j < |p| ==> p[i] != p[j])
  }

  predicate Closed(p: seq<nat>, c: set<nat>) {
    forall i :: i in c ==> i < |p| && p[i] in c
  }

  /** A least nonempty closed set. */
  ghost predicate IsCycle(p: seq<nat>, c: set<nat>) {
    && c != {}
    && Closed(p, c)
    && forall d: set<nat> :: d <= c && d != {} && Closed(p, d) ==> d == c
  }

  function Places(n: nat): (r: set<nat>)
    ensures forall i: nat :: i in r <==> i < n
  {
    if n == 0 then {} else Places(n - 1) + {n - 1}
  }

  function Image(p: seq<nat>, c: set<nat>): set<nat> { set i | i in c && i < |p| :: p[i] }

  ghost function Cycles(p: seq<nat>): set<set<nat>> {
    set c: set<nat> | c <= Places(|p|) && IsCycle(p, c)
  }

  function Swap<T>(s: seq<T>, i: nat, j: nat): (r: seq<T>)
    requires i < |s| && j < |s|
    ensures |r| == |s|
  {
    s[i := s[j]][j := s[i]]
  }

  // ----- Cycles partition the places -----

  lemma {:induction false} ImageSize(p: seq<nat>, c: set<nat>)
    requires Perm(p) && c <= Places(|p|)
    ensures |Image(p, c)| == |c|
    decreases c
  {
    if c != {} {
      var x :| x in c;
      ImageSize(p, c - {x});
      assert Image(p, c) == Image(p, c - {x}) + {p[x]};
    }
  }

  lemma {:induction false} SubsetSize<T>(a: set<T>, b: set<T>)
    requires a <= b
    ensures |a| <= |b|
    ensures |a| == |b| ==> a == b
    decreases a
  {
    if a == {} {
    } else {
      var x :| x in a;
      SubsetSize(a - {x}, b - {x});
      assert a == (a - {x}) + {x} && b == (b - {x}) + {x};
    }
  }

  /** A permutation maps a closed set onto itself. */
  lemma Preimage(p: seq<nat>, c: set<nat>, x: nat) returns (j: nat)
    requires Perm(p) && Closed(p, c) && x in c
    ensures j in c && j < |p| && p[j] == x
  {
    if x !in Image(p, c) {
      ImageSize(p, c);
      SubsetSize(Image(p, c), c - {x});
    }
    j :| j in c && j < |p| && p[j] == x;
  }

  /** Nothing enters a closed set from outside. */
  lemma NothingEnters(p: seq<nat>, c: set<nat>, i: nat)
    requires Perm(p) && Closed(p, c) && i < |p| && p[i] in c
    ensures i in c
  {
    var j := Preimage(p, c, p[i]);
  }

  lemma {:induction false} HasCycle(p: seq<nat>, c: set<nat>, i: nat) returns (d: set<nat>)
    requires Perm(p) && Closed(p, c) && i in c
    ensures d <= c && i in d && IsCycle(p, d)
    decreases c
  {
    if IsCycle(p, c) {
      d := c;
    } else {
      var e: set<nat> :| e <= c && e != {} && Closed(p, e) && e != c;
      if i in e {
        d := HasCycle(p, e, i);
      } else {
        forall j | j in c - e
          ensures j < |p| && p[j] in c - e
        {
          if p[j] in e {
            NothingEnters(p, e, j);
          }
        }
        d := HasCycle(p, c - e, i);
      }
    }
  }

  lemma CycleOf(p: seq<nat>, i: nat) returns (c: set<nat>)
    requires Perm(p) && i < |p|
    ensures c in Cycles(p) && i in c
  {
    c := HasCycle(p, Places(|p|), i);
  }

  lemma CyclesDisjoint(p: seq<nat>, c: set<nat>, d: set<nat>, i: nat)
    requires c in Cycles(p) && d in Cycles(p) && i in c && i in d
    ensures c == d
  {
    var e := c * d;
    forall j | j in e
      ensures j < |p| && p[j] in e
    {
      assert j in c && j in d;
    }
    assert i in e && e <= c && e <= d;
  }

  // ----- What an exchange does -----

  ghost function Touching(p: seq<nat>, i: nat, j: nat): set<set<nat>> {
    set c | c in Cycles(p) && (i in c || j in c)
  }

  lemma SwapPerm(p: seq<nat>, i: nat, j: nat)
    requires Perm(p) && i < |p| && j < |p|
    ensures Perm(Swap(p, i, j))
  {
  }

  /** A set without the exchanged places does not see the exchange. */
  lemma ClosedElsewhere(p: seq<nat>, i: nat, j: nat, c: set<nat>)
    requires i < |p| && j < |p| && i !in c && j !in c
    ensures Closed(p, c) <==> Closed(Swap(p, i, j), c)
  {
    forall k | k in c && k < |p|
      ensures Swap(p, i, j)[k] == p[k]
    {
    }
  }

  lemma CycleElsewhere(p: seq<nat>, i: nat, j: nat, c: set<nat>)
    requires i < |p| && j < |p| && i !in c && j !in c
    ensures IsCycle(p, c) <==> IsCycle(Swap(p, i, j), c)
  {
    ClosedElsewhere(p, i, j, c);
    forall d: set<nat> | d <= c
      ensures Closed(p, d) <==> Closed(Swap(p, i, j), d)
    {
      ClosedElsewhere(p, i, j, d);
    }
  }

  lemma RestUnchanged(p: seq<nat>, i: nat, j: nat)
    requires i < |p| && j < |p|
    ensures Cycles(p) - Touching(p, i, j) == Cycles(Swap(p, i, j)) - Touching(Swap(p, i, j), i, j)
  {
    forall c: set<nat> | i !in c && j !in c
      ensures c in Cycles(p) <==> c in Cycles(Swap(p, i, j))
    {
      CycleElsewhere(p, i, j, c);
    }
  }

  /** Two places lie on one cycle or on two. */
  lemma TouchingSize(p: seq<nat>, i: nat, j: nat)
    requires Perm(p) && i < |p| && j < |p|
    ensures 1 <= |Touching(p, i, j)| <= 2
    ensures |Touching(p, i, j)| == 1 <==> exists c :: c in Cycles(p) && i in c && j in c
  {
    var c := CycleOf(p, i);
    var d := CycleOf(p, j);
    forall e | e in Touching(p, i, j)
      ensures e == c || e == d
    {
      if i in e { CyclesDisjoint(p, e, c, i); } else { CyclesDisjoint(p, e, d, j); }
    }
    assert Touching(p, i, j) == {c, d};
    if e :| e in Cycles(p) && i in e && j in e {
      CyclesDisjoint(p, e, c, i);
      CyclesDisjoint(p, e, d, j);
    }
    if c == d {
      assert c in Cycles(p) && i in c && j in c;
      assert {c, d} == {c};
    } else {
      assert |{c, d}| == 2;
    }
  }

  lemma CyclesSplit(p: seq<nat>, i: nat, j: nat)
    ensures |Cycles(p)| == |Cycles(p) - Touching(p, i, j)| + |Touching(p, i, j)|
  {
    assert Cycles(p) == (Cycles(p) - Touching(p, i, j)) + Touching(p, i, j);
  }

  /** No exchange makes more than one new cycle. */
  lemma SwapAddsAtMostOne(p: seq<nat>, i: nat, j: nat)
    requires Perm(p) && i < |p| && j < |p|
    ensures |Cycles(Swap(p, i, j))| <= |Cycles(p)| + 1
  {
    SwapPerm(p, i, j);
    RestUnchanged(p, i, j);
    TouchingSize(p, i, j);
    TouchingSize(Swap(p, i, j), i, j);
    CyclesSplit(p, i, j);
    CyclesSplit(Swap(p, i, j), i, j);
  }

  /** An exchange that brings `i` home splits its cycle in two. */
  lemma HomecomingAddsOne(p: seq<nat>, i: nat, m: nat)
    requires Perm(p) && i < |p| && m < |p| && m != i && p[m] == i
    ensures |Cycles(Swap(p, i, m))| == |Cycles(p)| + 1
  {
    var q := Swap(p, i, m);
    SwapPerm(p, i, m);
    RestUnchanged(p, i, m);
    TouchingSize(p, i, m);
    TouchingSize(q, i, m);
    CyclesSplit(p, i, m);
    CyclesSplit(q, i, m);
    var c := CycleOf(p, m);
    assert i in c;
    FixedPointCycle(q, i);
    forall e | e in Cycles(q) && i in e
      ensures m !in e
    {
      CyclesDisjoint(q, e, {i}, i);
    }
  }

  lemma FixedPointCycle(p: seq<nat>, i: nat)
    requires i < |p| && p[i] == i
    ensures {i} in Cycles(p)
  {
    assert Closed(p, {i});
    forall d: set<nat> | d <= {i} && d != {}
      ensures d == {i}
    {
      var x :| x in d;
      assert x == i;
    }
  }

  // ----- The identity -----

  predicate Identity(p: seq<nat>) { forall i :: 0 <= i < |p| ==> p[i] == i }

  lemma {:induction false} SingletonsSize(n: nat)
    ensures |set i: nat | i < n :: {i}| == n
  {
    var all := set i: nat | i < n :: {i};
    if n > 0 {
      SingletonsSize(n - 1);
      assert all == (set i: nat | i < n - 1 :: {i}) + {{n - 1}};
    }
  }

  lemma IdentityCycles(p: seq<nat>)
    requires Identity(p)
    ensures |Cycles(p)| == |p|
  {
    var singles := set i: nat | i < |p| :: {i};
    forall c: set<nat> | c in Cycles(p)
      ensures c in singles
    {
      var i :| i in c;
      assert Closed(p, {i}) && {i} <= c;
    }
    forall i: nat | i < |p|
      ensures {i} in Cycles(p)
    {
      FixedPointCycle(p, i);
    }
    assert Cycles(p) == singles;
    SingletonsSize(|p|);
  }
}
