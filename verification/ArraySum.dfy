/**
 * array_sum_rand.c: an array that every write of a limit multiplies, element by element, by
 * bounded random draws in 32-bit arithmetic.
 */
module ArraySum {
  import opened RandomDraw

  datatype Option<T> = None | Some(value: T)

  /** What the kernel's parser makes of the written text: base 10 for the check, base 0 for the store. */
  datatype Text = Text(checked: Option<int>, stored: Option<int>) {
    /** Text that is a non-negative number in base 10 has no sign, whatever base it is read in. */
    predicate Consistent() {
      && (checked.Some? && checked.value >= 0 && stored.Some? ==> stored.value >= 0)
      && (stored.Some? ==> IsInt32(stored.value))
    }
  }

  /** A write to one of the two parameters, with the random words that a recalculation would draw. */
  datatype Write = Low(text: Text, words: seq<nat>) | High(text: Text, words: seq<nat>)

  datatype State = State(
    elements: seq<int>,
    low: int,
    high: int,
    total: int,               // the last total reported, 0 before the first
    draws: seq<seq<nat>>)     // auxiliary: the multipliers of each recalculation

  const EINVAL := 22

  // ----- The program as a function -----

  /** The multiplier of one element: a draw that fails leaves the variable at zero. */
  function Multiplier(low: int, high: int, word: nat): nat {
    match RandNumGet(true, low, high, word)
    case Value(w) => w
    case _ => 0
  }

  function Word(words: seq<nat>, i: nat): nat { if i < |words| then words[i] % WORD else 0 }

  function Multipliers(n: nat, low: int, high: int, words: seq<nat>): (r: seq<nat>)
    ensures |r| == n
  {
    seq(n, i requires 0 <= i < n => Multiplier(low, high, Word(words, i)))
  }

  function ScaledElement(e: int, f: nat): int { ToInt32(ToWord(e) * f) }

  function Scaled(elements: seq<int>, factors: seq<nat>): (r: seq<int>)
    requires |elements| == |factors|
    ensures |r| == |elements|
  {
    seq(|elements|, i requires 0 <= i < |elements| => ScaledElement(elements[i], factors[i]))
  }

  /** The running sum of calculate_array_sum, which wraps at every addition. */
  function WrappedSum(elements: seq<int>): int {
    if elements == [] then 0 else ToInt32(WrappedSum(elements[..|elements| - 1]) + elements[|elements| - 1])
  }

  function Recalculate(s: State, words: seq<nat>): State {
    if s.elements == [] then s
    else
      var factors := Multipliers(|s.elements|, s.low, s.high, words);
      var elements := Scaled(s.elements, factors);
      s.(elements := elements, total := WrappedSum(elements), draws := s.draws + [factors])
  }

  function Apply(s: State, w: Write): State {
    if w.text.checked.None? || w.text.checked.value < 0 then s
    else if w.text.stored.None? then s
    else if w.Low? then Recalculate(s.(low := w.text.stored.value), w.words)
    else Recalculate(s.(high := w.text.stored.value), w.words)
  }

  function ApplyAll(s: State, writes: seq<Write>): State
    decreases |writes|
  {
    if writes == [] then s else ApplyAll(Apply(s, writes[0]), writes[1..])
  }

  lemma {:induction false} ApplyAllAppend(s: State, a: seq<Write>, b: seq<Write>)
    ensures ApplyAll(s, a + b) == ApplyAll(ApplyAll(s, a), b)
    decreases |a|
  {
    if a == [] {
      assert a + b == b;
    } else {
      assert (a + b)[1..] == a[1..] + b;
      ApplyAllAppend(Apply(s, a[0]), a[1..], b);
    }
  }

  // ----- Specification vocabulary -----

  /** A write that reaches the variable: it is a non-negative number, and can be stored. */
  predicate Accepted(t: Text) { t.checked.Some? && t.checked.value >= 0 && t.stored.Some? }

  function AcceptedOnly(writes: seq<Write>): seq<Write> {
    if writes == [] then []
    else (if Accepted(writes[0].text) then [writes[0]] else []) + AcceptedOnly(writes[1..])
  }

  /** The multiplier that the documentation of the limits promises; crossed limits give zero. */
  function Drawn(low: int, high: int, word: nat): int {
    if low < high then low + word % (high - low + 1) else 0
  }

  function LowAfter(low: int, w: Write): int { if w.Low? && Accepted(w.text) then w.text.stored.value else low }
  function HighAfter(high: int, w: Write): int { if w.High? && Accepted(w.text) then w.text.stored.value else high }

  /** The multipliers of one recalculation. */
  function Round(n: nat, low: int, high: int, words: seq<nat>): (r: seq<int>)
    requires |words| >= n
    ensures |r| == n
  {
    seq(n, i requires 0 <= i < n => Drawn(low, high, words[i]))
  }

  /** The multipliers of `n` elements over a sequence of writes: one round for each accepted write. */
  function History(n: nat, low: int, high: int, writes: seq<Write>): seq<seq<int>>
    requires forall w :: w in writes ==> |w.words| >= n
    decreases |writes|
  {
    if writes == [] then []
    else
      var w := writes[0];
      var low', high' := LowAfter(low, w), HighAfter(high, w);
      (if Accepted(w.text) then [Round(n, low', high', w.words)] else [])
      + History(n, low', high', writes[1..])
  }

  /** The value stored by the last accepted write of the low limit, or the one it had before. */
  function LastLow(low: int, writes: seq<Write>): int {
    if writes == [] then low
    else
      var w := writes[|writes| - 1];
      if w.Low? && Accepted(w.text) then w.text.stored.value else LastLow(low, writes[..|writes| - 1])
  }

  function LastHigh(high: int, writes: seq<Write>): int {
    if writes == [] then high
    else
      var w := writes[|writes| - 1];
      if w.High? && Accepted(w.text) then w.text.stored.value else LastHigh(high, writes[..|writes| - 1])
  }

  /** Enough random words for every element. */
  predicate Supplied(n: nat, words: seq<nat>) { |words| >= n && forall i :: 0 <= i < n ==> IsWord(words[i]) }

  predicate AllSupplied(n: nat, writes: seq<Write>) {
    forall w :: w in writes ==> w.text.Consistent() && Supplied(n, w.words)
  }

  // ----- Arithmetic modulo 2^32 -----

  predicate Congruent(a: int, b: int) { ToWord(a) == ToWord(b) }

  lemma Int32IsCongruent(a: int)
    ensures Congruent(ToInt32(a), a) && Congruent(ToWord(a), a)
  {
  }

  lemma CongruentTimes(a: int, b: int, f: int)
    requires Congruent(a, b)
    ensures Congruent(a * f, b * f)
  {
    var d := a / WORD - b / WORD;
    assert a == b + WORD * d;
    assert a * f == b * f + WORD * (d * f) by {
      assert (WORD * d) * f == WORD * (d * f);
    }
    Shift(b * f, d * f);
  }

  lemma Shift(a: int, d: int)
    ensures Congruent(a + WORD * d, a)
  {
  }

  lemma CongruentPlus(a: int, b: int, x: int)
    requires Congruent(a, b)
    ensures Congruent(a + x, b + x)
  {
  }

  // ----- Main results -----

  /** The mathematical sum. */
  function Sum(elements: seq<int>): int {
    if elements == [] then 0 else Sum(elements[..|elements| - 1]) + elements[|elements| - 1]
  }

  lemma SumStep(elements: seq<int>, i: nat)
    requires i < |elements|
    ensures WrappedSum(elements[..i + 1]) == ToInt32(WrappedSum(elements[..i]) + elements[i])
  {
    assert elements[..i + 1][..i] == elements[..i];
  }

  lemma {:induction false} WrappedSumIsSum(elements: seq<int>)
    ensures Congruent(WrappedSum(elements), Sum(elements))
    ensures IsInt32(WrappedSum(elements))
    decreases |elements|
  {
    if elements != [] {
      var n := |elements| - 1;
      WrappedSumIsSum(elements[..n]);
      CongruentPlus(WrappedSum(elements[..n]), Sum(elements[..n]), elements[n]);
      Int32IsCongruent(WrappedSum(elements[..n]) + elements[n]);
    }
  }

  /** The product of what element `i` was multiplied by. */
  function Product(draws: seq<seq<int>>, i: nat): int
    requires forall r :: 0 <= r < |draws| ==> i < |draws[r]|
  {
    if draws == [] then 1 else Product(draws[..|draws| - 1], i) * draws[|draws| - 1][i]
  }

  predicate Shaped(s: State) {
    forall r :: 0 <= r < |s.draws| ==> |s.draws[r]| == |s.elements|
  }

  /** Each element is its initial value times all its draws, modulo 2^32. */
  predicate Inv(initial: seq<int>, s: State) {
    && Shaped(s)
    && |s.elements| == |initial|
    && 0 <= s.low <= INT_MAX
    && 0 <= s.high <= INT_MAX
    && (forall i :: 0 <= i < |initial| ==>
          IsInt32(s.elements[i]) && Congruent(s.elements[i], initial[i] * Product(s.draws, i)))
    && (s.draws != [] ==> Congruent(s.total, Sum(s.elements)) && IsInt32(s.total))
  }

  predicate Loaded(initial: seq<int>, s: State) {
    && s.elements == initial
    && (forall i :: 0 <= i < |initial| ==> IsInt32(initial[i]))
    && s.low == 0
    && s.high == 100
    && s.draws == []
    && s.total == 0
  }

  lemma LoadedInv(initial: seq<int>, s: State)
    requires Loaded(initial, s)
    ensures Inv(initial, s)
  {
  }

  lemma RecalculateElement(initial: seq<int>, s: State, words: seq<nat>, i: nat)
    requires Inv(initial, s) && i < |initial|
    ensures var s' := Recalculate(s, words);
      && Shaped(s')
      && IsInt32(s'.elements[i])
      && Congruent(s'.elements[i], initial[i] * Product(s'.draws, i))
  {
    var factors := Multipliers(|s.elements|, s.low, s.high, words);
    var s' := Recalculate(s, words);
    assert s'.draws[..|s.draws|] == s.draws;
    hide Congruent, ScaledElement, Multipliers, Sum, WrappedSum;
    ScaleCongruent(s.elements[i], initial[i], Product(s.draws, i), factors[i]);
  }

  lemma ScaleCongruent(e: int, x: int, p: int, f: nat)
    requires Congruent(e, x * p)
    ensures Congruent(ScaledElement(e, f), x * (p * f)) && IsInt32(ScaledElement(e, f))
  {
    Int32IsCongruent(e);
    CongruentTimes(ToWord(e), e, f);
    CongruentTimes(e, x * p, f);
    Int32IsCongruent(ToWord(e) * f);
    Associative(x, p, f);
  }

  lemma Associative(x: int, p: int, f: int)
    ensures (x * p) * f == x * (p * f)
  {
  }

  lemma RecalculateInv(initial: seq<int>, s: State, words: seq<nat>)
    requires Inv(initial, s)
    ensures Inv(initial, Recalculate(s, words))
  {
    if s.elements != [] {
      var s' := Recalculate(s, words);
      forall i | 0 <= i < |initial|
        ensures Shaped(s') && IsInt32(s'.elements[i]) && Congruent(s'.elements[i], initial[i] * Product(s'.draws, i))
      {
        RecalculateElement(initial, s, words, i);
      }
      assert Shaped(s') by { RecalculateElement(initial, s, words, 0); }
      WrappedSumIsSum(s'.elements);
    }
  }

  /** Over any sequence of writes the elements and the total are what the draws make them, and no limit is negative. */
  lemma {:induction false} WritesKeepInv(initial: seq<int>, s: State, writes: seq<Write>)
    requires Inv(initial, s)
    requires forall w :: w in writes ==> w.text.Consistent()
    ensures Inv(initial, ApplyAll(s, writes))
    decreases |writes|
  {
    if writes != [] {
      var w := writes[0];
      if Accepted(w.text) {
        if w.Low? {
          RecalculateInv(initial, s.(low := w.text.stored.value), w.words);
        } else {
          RecalculateInv(initial, s.(high := w.text.stored.value), w.words);
        }
      }
      WritesKeepInv(initial, Apply(s, w), writes[1..]);
    }
  }

  /** In no run is the remainder taken by a range that has wrapped to zero: no limit is negative. */
  lemma NoFault(initial: seq<int>, s0: State, writes: seq<Write>, word: nat)
    requires Loaded(initial, s0) && IsWord(word)
    requires forall w :: w in writes ==> w.text.Consistent()
    ensures var s := ApplyAll(s0, writes); !RandNumGet(true, s.low, s.high, word).Fault?
  {
    LoadedInv(initial, s0);
    WritesKeepInv(initial, s0, writes);
    var s := ApplyAll(s0, writes);
    DrawIsDefined(true, s.low, s.high, word);
  }

  // ----- What the multipliers are -----

  predicate Limits(s: State) { 0 <= s.low <= INT_MAX && 0 <= s.high <= INT_MAX }

  lemma MultiplierIsDrawn(low: int, high: int, word: nat)
    requires 0 <= low <= INT_MAX && 0 <= high <= INT_MAX && IsWord(word)
    ensures Multiplier(low, high, word) == Drawn(low, high, word)
    ensures low < high ==> low <= Multiplier(low, high, word) <= high
  {
    if low < high {
      assert Rem(word, high - low + 1) == word % (high - low + 1);
      hide Rem, RandNumGet, ToInt32, ToWord;
      DrawIsOffset(low, high, word);
      DrawIsInRange(low, high, word);
      NonNegativeWord(RandNumGet(true, low, high, word).word);
    }
  }

  lemma NonNegativeWord(w: nat)
    requires IsWord(w) && ToInt32(w) >= 0
    ensures ToInt32(w) == w
  {
  }

  /** A recalculation multiplies element i by a draw from its own word, between the limits in force. */
  lemma FactorsAreDraws(s: State, words: seq<nat>)
    requires s.elements != [] && Limits(s) && Supplied(|s.elements|, words)
    ensures var s' := Recalculate(s, words);
      && s'.draws[..|s'.draws| - 1] == s.draws
      && (forall i :: 0 <= i < |s.elements| ==>
            var f := s'.draws[|s.draws|][i];
            && s'.elements[i] == ToInt32(s.elements[i] * f)
            && (s.low < s.high ==> f == s.low + words[i] % (s.high - s.low + 1) && s.low <= f <= s.high)
            && (s.low >= s.high ==> f == 0))
  {
    var s' := Recalculate(s, words);
    forall i | 0 <= i < |s.elements|
      ensures s'.draws[|s.draws|][i] == Drawn(s.low, s.high, words[i])
      ensures s.low < s.high ==> s.low <= s'.draws[|s.draws|][i] <= s.high
      ensures s'.elements[i] == ToInt32(s.elements[i] * s'.draws[|s.draws|][i])
    {
      WordIsItself(words, i);
      MultiplierIsDrawn(s.low, s.high, words[i]);
      ScaledIsProduct(s.elements[i], s'.draws[|s.draws|][i]);
    }
  }

  lemma WordIsItself(words: seq<nat>, i: nat)
    requires i < |words| && IsWord(words[i])
    ensures Word(words, i) == words[i]
  {
  }

  lemma ScaledIsProduct(e: int, f: nat)
    ensures ScaledElement(e, f) == ToInt32(e * f)
  {
    Int32IsCongruent(e);
    CongruentTimes(ToWord(e), e, f);
  }

  /** The multipliers of one accepted write are the first round of the history. */
  lemma RoundIsHistory(s: State, w: Write)
    requires s.elements != [] && Limits(s) && Accepted(w.text) && w.text.Consistent() && Supplied(|s.elements|, w.words)
    ensures var s' := Apply(s, w);
      && Limits(s') && s'.low == LowAfter(s.low, w) && s'.high == HighAfter(s.high, w)
      && |s'.elements| == |s.elements|
      && s'.draws == s.draws + [Round(|s.elements|, s'.low, s'.high, w.words)]
  {
    var set' := if w.Low? then s.(low := w.text.stored.value) else s.(high := w.text.stored.value);
    var s' := Apply(s, w);
    var round := Round(|s.elements|, s'.low, s'.high, w.words);
    FactorsAreDraws(set', w.words);
    assert s' == Recalculate(set', w.words);
    hide Apply, Recalculate, Multipliers, Scaled;
    forall i | 0 <= i < |s.elements|
      ensures s'.draws[|s.draws|][i] == round[i]
    {
    }
    assert s'.draws[|s.draws|] == round;
    assert s'.draws == s'.draws[..|s.draws|] + [s'.draws[|s.draws|]];
  }

  lemma RejectedIsIdle(s: State, w: Write)
    requires !Accepted(w.text)
    ensures Apply(s, w) == s && LowAfter(s.low, w) == s.low && HighAfter(s.high, w) == s.high
  {
  }

  /**
   * Over any sequence of writes the multipliers are exactly the draws of the accepted ones, each from
   * its own word and between the limits in force; the limits are the last ones stored.
   */
  lemma {:induction false} WritesAreDraws(s: State, writes: seq<Write>)
    requires s.elements != [] && Limits(s) && AllSupplied(|s.elements|, writes)
    ensures var e := ApplyAll(s, writes);
      && Limits(e)
      && |e.elements| == |s.elements|
      && e.draws == s.draws + History(|s.elements|, s.low, s.high, writes)
      && |e.draws| == |s.draws| + |AcceptedOnly(writes)|
    decreases |writes|
  {
    if writes != [] {
      hide Apply, Round, Accepted, Limits, Text.Consistent, IsWord, LowAfter, HighAfter;
      var w := writes[0];
      if Accepted(w.text) {
        RoundIsHistory(s, w);
      } else {
        RejectedIsIdle(s, w);
      }
      WritesAreDraws(Apply(s, w), writes[1..]);
    }
  }

  /**
   * The whole life of the module: after loading and any sequence of writes, each element is its initial
   * value times a draw from 0 to 100 and one draw for every accepted write, modulo 2^32.
   */
  lemma ElementsAreProducts(initial: seq<int>, s0: State, words: seq<nat>, writes: seq<Write>)
    requires Loaded(initial, s0) && initial != []
    requires Supplied(|initial|, words) && AllSupplied(|initial|, writes)
    ensures var e := ApplyAll(Recalculate(s0, words), writes);
      && e.draws == [Round(|initial|, 0, 100, words)] + History(|initial|, 0, 100, writes)
      && |e.elements| == |initial|
      && (forall r :: 0 <= r < |e.draws| ==> |e.draws[r]| == |initial|)
      && (forall i :: 0 <= i < |initial| ==>
            IsInt32(e.elements[i]) && Congruent(e.elements[i], initial[i] * Product(e.draws, i)))
      && Congruent(e.total, Sum(e.elements)) && IsInt32(e.total)
  {
    LoadedInv(initial, s0);
    RecalculateInv(initial, s0, words);
    FirstRound(s0, words);
    hide Recalculate, Round, History, IsInt32, Congruent, IsWord, Text.Consistent;
    var s := Recalculate(s0, words);
    assert s.elements != [] && Limits(s);
    WritesKeepInv(initial, s, writes);
    WritesAreDraws(s, writes);
  }

  lemma FirstRound(s: State, words: seq<nat>)
    requires s.elements != [] && s.draws == [] && Limits(s) && Supplied(|s.elements|, words)
    ensures Recalculate(s, words).draws == [Round(|s.elements|, s.low, s.high, words)]
    ensures Recalculate(s, words).low == s.low && Recalculate(s, words).high == s.high
  {
    FactorsAreDraws(s, words);
    assert Recalculate(s, words).draws[0] == Round(|s.elements|, s.low, s.high, words);
  }

  /** A rejected write changes nothing: the run is that of the accepted writes alone. */
  lemma {:induction false} RejectedWritesAreIdle(s: State, writes: seq<Write>)
    ensures ApplyAll(s, writes) == ApplyAll(s, AcceptedOnly(writes))
    decreases |writes|
  {
    if writes != [] {
      RejectedWritesAreIdle(Apply(s, writes[0]), writes[1..]);
      if Accepted(writes[0].text) {
        assert AcceptedOnly(writes)[1..] == AcceptedOnly(writes[1..]);
      } else {
        assert AcceptedOnly(writes) == AcceptedOnly(writes[1..]);
      }
    }
  }

  /** Each limit is the value last stored by an accepted write, on an empty array too. */
  lemma {:induction false} LimitsAreLastStored(s: State, writes: seq<Write>)
    ensures ApplyAll(s, writes).low == LastLow(s.low, writes)
    ensures ApplyAll(s, writes).high == LastHigh(s.high, writes)
    decreases |writes|
  {
    if writes != [] {
      var n := |writes| - 1;
      LimitsAreLastStored(s, writes[..n]);
      assert writes == writes[..n] + [writes[n]];
      ApplyAllAppend(s, writes[..n], [writes[n]]);
      var before := ApplyAll(s, writes[..n]);
      assert ApplyAll(before, [writes[n]]) == Apply(before, writes[n]);
    }
  }

  /** An empty array is never recalculated. */
  lemma {:induction false} EmptyStaysIdle(s: State, writes: seq<Write>)
    requires s.elements == []
    ensures var e := ApplyAll(s, writes); e.elements == [] && e.draws == s.draws && e.total == s.total
    decreases |writes|
  {
    if writes != [] {
      EmptyStaysIdle(Apply(s, writes[0]), writes[1..]);
    }
  }

  // ----- The absorbing state -----

  predicate Dead(s: State) {
    && s.elements != []
    && (forall i :: 0 <= i < |s.elements| ==> s.elements[i] == 0)
    && s.total == 0
  }

  lemma {:induction false} ZeroSum(elements: seq<int>)
    requires forall i :: 0 <= i < |elements| ==> elements[i] == 0
    ensures WrappedSum(elements) == 0
    decreases |elements|
  {
    if elements != [] {
      ZeroSum(elements[..|elements| - 1]);
    }
  }

  /** One recalculation with crossed limits wipes the array; so does one of an array that is zero already. */
  lemma RecalculateDies(s: State, words: seq<nat>)
    requires s.elements != []
    requires s.low >= s.high || Dead(s)
    ensures Dead(Recalculate(s, words))
  {
    var s' := Recalculate(s, words);
    var factors := Multipliers(|s.elements|, s.low, s.high, words);
    forall i | 0 <= i < |s.elements|
      ensures s'.elements[i] == 0
    {
      assert factors[i] == 0 || s.elements[i] == 0;
      assert ScaledElement(s.elements[i], factors[i]) == 0;
    }
    ZeroSum(s'.elements);
  }

  lemma {:induction false} DeadStaysDead(s: State, writes: seq<Write>)
    requires Dead(s)
    ensures Dead(ApplyAll(s, writes))
    decreases |writes|
  {
    if writes != [] {
      var w := writes[0];
      if Accepted(w.text) {
        if w.Low? {
          RecalculateDies(s.(low := w.text.stored.value), w.words);
        } else {
          RecalculateDies(s.(high := w.text.stored.value), w.words);
        }
      }
      DeadStaysDead(Apply(s, w), writes[1..]);
    }
  }

  /** An accepted write that crosses the limits of a non-empty array leaves zeros for the rest of the run. */
  lemma CrossedLimitsAreFinal(s: State, w: Write, later: seq<Write>)
    requires s.elements != [] && Accepted(w.text)
    requires if w.Low? then w.text.stored.value >= s.high else s.low >= w.text.stored.value
    ensures Dead(ApplyAll(Apply(s, w), later))
  {
    if w.Low? {
      RecalculateDies(s.(low := w.text.stored.value), w.words);
    } else {
      RecalculateDies(s.(high := w.text.stored.value), w.words);
    }
    DeadStaysDead(Apply(s, w), later);
  }
}

/** The module's static variables, updated in place. */
module ArraySumProgram {
  import opened RandomDraw
  import opened ArraySum

  class Module {
    const mArray: array<int>
    var mLow: int
    var mHigh: int
    var total: int
    ghost var draws: seq<seq<nat>>

    ghost function Value(): State
      reads this, mArray
    {
      State(mArray[..], mLow, mHigh, total, draws)
    }

    /** Loading with the default limits; array_sum_rand_init then recalculates, or fails on an empty array. */
    constructor (values: array<int>)
      requires forall i :: 0 <= i < values.Length ==> IsInt32(values[i])
      ensures mArray == values
      ensures mLow == 0 && mHigh == 100
      ensures Loaded(values[..], Value())
    {
      mArray := values;
      mLow, mHigh := 0, 100;
      total := 0;
      draws := [];
    }

    method Init(words: seq<nat>) returns (code: int)
      modifies this`total, this`draws, mArray
      ensures code == (if mArray.Length == 0 then -22 else 0)
      ensures Value() == Recalculate(old(Value()), words)
    {
      CalculateArraySum(words);
      code := if mArray.Length == 0 then -EINVAL else 0;
    }

    /** The draw for one element; its error code is ignored. */
    method RandNum(word: nat) returns (randNum: nat)
      ensures randNum == Multiplier(mLow, mHigh, word)
    {
      randNum := 0;
      var draw := RandNumGet(true, mLow, mHigh, word);
      if draw.Value? {
        randNum := draw.word;
      }
    }

    method CalculateArraySum(words: seq<nat>)
      modifies this`total, this`draws, mArray
      ensures Value() == Recalculate(old(Value()), words)
    {
      if mArray.Length == 0 {
        return;
      }
      ghost var before := mArray[..];
      ghost var factors := Multipliers(mArray.Length, mLow, mHigh, words);
      ghost var after := Scaled(before, factors);
      var sum := 0;
      assert WrappedSum(after[..0]) == 0;
      hide ScaledElement, Multiplier, ToInt32, WrappedSum;
      for i := 0 to mArray.Length
        invariant mArray[..i] == after[..i]
        invariant mArray[i..] == before[i..]
        invariant sum == WrappedSum(after[..i])
        invariant mLow == old(mLow) && mHigh == old(mHigh) && draws == old(draws)
      {
        var randNum := RandNum(Word(words, i));
        assert mArray[i] == mArray[i..][0] == before[i];
        mArray[i] := ScaledElement(mArray[i], randNum);
        sum := ToInt32(sum + mArray[i]);
        SumStep(after, i);
        assert mArray[..i + 1] == mArray[..i] + [mArray[i]];
      }
      total := sum;
      draws := draws + [factors];
      assert mArray[..] == mArray[..mArray.Length] && after[..mArray.Length] == after;
    }

    method SetLowLimit(text: Text, words: seq<nat>) returns (code: int)
      modifies this, mArray
      ensures code == (if text.checked.Some? && text.checked.value >= 0 then 0 else -22)
      ensures Value() == Apply(old(Value()), Low(text, words))
    {
      if text.checked.None? || text.checked.value < 0 {
        return -EINVAL;
      }
      if text.stored.Some? {
        mLow := text.stored.value;
        CalculateArraySum(words);
      }
      code := 0;
    }

    method SetHighLimit(text: Text, words: seq<nat>) returns (code: int)
      modifies this, mArray
      ensures code == (if text.checked.Some? && text.checked.value >= 0 then 0 else -22)
      ensures Value() == Apply(old(Value()), High(text, words))
    {
      if text.checked.None? || text.checked.value < 0 {
        return -EINVAL;
      }
      if text.stored.Some? {
        mHigh := text.stored.value;
        CalculateArraySum(words);
      }
      code := 0;
    }
  }

  /**
   * Loading with the default limits: a non-empty array is multiplied, element by element, by draws
   * from 0 to 100; an empty one is refused.
   */
  method Load(values: array<int>, words: seq<nat>) returns (m: Module, code: int)
    requires forall i :: 0 <= i < values.Length ==> IsInt32(values[i])
    requires Supplied(values.Length, words)
    modifies values
    ensures fresh(m) && m.mArray == values
    ensures m.mLow == 0 && m.mHigh == 100
    ensures code == if values.Length == 0 then -22 else 0
    ensures forall i :: 0 <= i < values.Length ==> values[i] == ToInt32(old(values[i]) * (words[i] % 101))
    ensures Congruent(m.total, Sum(values[..])) && IsInt32(m.total)
  {
    ghost var initial := values[..];
    m := new Module(values);
    ghost var loaded := m.Value();
    code := m.Init(words);
    if values.Length > 0 {
      FactorsAreDraws(loaded, words);
      LoadedInv(initial, loaded);
      RecalculateInv(initial, loaded, words);
    }
    assert m.Value() == Recalculate(loaded, words);
    assert values[..] == m.Value().elements;
    forall i | 0 <= i < values.Length
      ensures values[i] == ToInt32(initial[i] * (words[i] % 101))
    {
      assert values[i] == values[..][i];
    }
  }
}
