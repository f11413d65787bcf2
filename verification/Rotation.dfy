/**
 * The rotating turn that 1_2_3.c and both tic_tac.c programs implement: `threads` threads,
 * numbered from 0 here, print in order, `times` rounds over.
 */
module Rotation {

  /** The first `len` numbers printed: thread j % threads prints at place j. */
  function Cycle(threads: nat, len: nat): (r: seq<nat>)
    requires threads > 0
    ensures |r| == len
  {
    seq(len, j => j % threads)
  }

  /** One turn of the abstract token, or nothing: only the thread whose turn it is may print. */
  predicate TokenStep(threads: nat, times: nat, out: seq<nat>, out': seq<nat>)
    requires threads > 0
  {
    out' == out || (|out| < threads * times && out' == out + [|out| % threads])
  }

  predicate TokenInv(threads: nat, times: nat, out: seq<nat>)
    requires threads > 0
  {
    |out| <= threads * times && out == Cycle(threads, |out|)
  }

  lemma TokenStepInv(threads: nat, times: nat, out: seq<nat>, out': seq<nat>)
    requires threads > 0 && TokenInv(threads, times, out) && TokenStep(threads, times, out, out')
    ensures TokenInv(threads, times, out')
  {
  }

  /** (1 2 ... N)^K */
  function Repeat(round: seq<nat>, times: nat): (r: seq<nat>)
    decreases times
  {
    if times == 0 then [] else Repeat(round, times - 1) + round
  }

  lemma MulMonotone(a: nat, b: nat, n: nat)
    requires a <= b
    ensures a * n <= b * n
  {
  }

  lemma MulSign(n: int, d: int)
    requires n >= 0
    ensures d >= 1 ==> n * d >= n
    ensures d <= -1 ==> n * d <= -n
  {
  }

  /** The place of a turn within its round. */
  lemma PlaceInRound(threads: nat, round: nat, turn: nat)
    requires turn < threads
    ensures (round * threads + turn) % threads == turn
  {
    var m := round * threads + turn;
    var d := m / threads - round;
    assert m == threads * (m / threads) + m % threads;
    assert threads * d == turn - m % threads;
    MulSign(threads, d);
  }

  lemma CycleExtends(threads: nat, times: nat)
    requires threads > 0
    ensures Cycle(threads, times * threads + threads) == Cycle(threads, times * threads) + Cycle(threads, threads)
  {
    var all := Cycle(threads, times * threads + threads);
    var parts := Cycle(threads, times * threads) + Cycle(threads, threads);
    forall j | 0 <= j < |all|
      ensures all[j] == parts[j]
    {
      if j >= times * threads {
        PlaceInRound(threads, times, j - times * threads);
        PlaceInRound(threads, 0, j - times * threads);
      }
    }
  }

  /** A complete output is the round 0, 1, ..., threads - 1, repeated. */
  lemma {:induction false} CompleteCycle(threads: nat, times: nat)
    requires threads > 0
    ensures Cycle(threads, times * threads) == Repeat(Cycle(threads, threads), times)
    ensures forall j :: 0 <= j < threads ==> Cycle(threads, threads)[j] == j
    decreases times
  {
    forall j | 0 <= j < threads
      ensures Cycle(threads, threads)[j] == j
    {
      PlaceInRound(threads, 0, j);
    }
    if times > 0 {
      assert times * threads == (times - 1) * threads + threads;
      CompleteCycle(threads, times - 1);
      CycleExtends(threads, times - 1);
    }
  }
}
