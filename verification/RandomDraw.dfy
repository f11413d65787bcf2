/** rand_num/rand_num.c: one bounded draw in wrapping 32-bit arithmetic, as the kernel is compiled. */
module RandomDraw {

  const WORD: int := 0x1_0000_0000
  const INT_MAX: int := 0x7fff_ffff
  const INT_MIN: int := -0x8000_0000

  predicate IsInt32(x: int) { INT_MIN <= x <= INT_MAX }
  predicate IsWord(w: int) { 0 <= w < WORD }

  /** Conversion to uint32_t. */
  function ToWord(x: int): nat { x % WORD }

  /** Conversion of a uint32_t to int, and wrapping of int arithmetic. */
  function ToInt32(x: int): (r: int)
    ensures IsInt32(r)
  {
    var w := x % WORD;
    if w <= INT_MAX then w else w - WORD
  }

  /** The remainder of unsigned words. */
  function Rem(a: nat, b: nat): (r: nat)
    requires b > 0
    ensures r < b
  {
    a % b
  }

  /** `Fault` is the remainder by a range that has wrapped to zero. */
  datatype Draw = Value(word: nat) | Invalid | Fault

  /** rand_num_get; `random` is the word that get_random_bytes delivers. */
  function RandNumGet(hasOutput: bool, low: int, upper: int, random: nat): Draw {
    if !hasOutput then Invalid
    else if low >= upper then Invalid
    else
      var range := ToWord(ToInt32(ToInt32(upper - low) + 1));
      if range == 0 then Fault
      else Value(ToWord(ToWord(low) + Rem(random, range)))
  }

  lemma RangeSize(low: int, upper: int)
    requires IsInt32(low) && IsInt32(upper) && low < upper
    ensures ToWord(ToInt32(ToInt32(upper - low) + 1)) == (if upper - low + 1 == WORD then 0 else upper - low + 1)
  {
  }

  /** The draw fails on bad arguments, and faults for just the one pair of limits that covers every int. */
  lemma DrawIsDefined(hasOutput: bool, low: int, upper: int, random: nat)
    requires IsInt32(low) && IsInt32(upper) && IsWord(random)
    ensures RandNumGet(hasOutput, low, upper, random).Invalid? <==> !hasOutput || low >= upper
    ensures RandNumGet(hasOutput, low, upper, random).Fault? <==> hasOutput && low == -0x8000_0000 && upper == 0x7fff_ffff
  {
    if low < upper {
      RangeSize(low, upper);
    }
  }

  /** Read as an int, the output is `low` plus the remainder: no wrap-around is ever visible. */
  lemma DrawIsOffset(low: int, upper: int, random: nat)
    requires IsInt32(low) && IsInt32(upper) && IsWord(random)
    requires low < upper && upper - low + 1 < WORD
    ensures var d := RandNumGet(true, low, upper, random);
      d.Value? && IsWord(d.word) && ToInt32(d.word) == low + Rem(random, upper - low + 1)
  {
    hide Rem;
    RangeSize(low, upper);
    AddOffset(low, Rem(random, upper - low + 1));
  }

  lemma AddOffset(low: int, o: nat)
    requires IsInt32(low) && IsInt32(low + o)
    ensures ToInt32(ToWord(ToWord(low) + o)) == low + o
  {
  }

  lemma DrawIsInRange(low: int, upper: int, random: nat)
    requires IsInt32(low) && IsInt32(upper) && IsWord(random)
    requires low < upper && upper - low + 1 < WORD
    ensures low <= ToInt32(RandNumGet(true, low, upper, random).word) <= upper
  {
    DrawIsOffset(low, upper, random);
  }

  lemma EveryValueIsDrawn(low: int, upper: int, v: int)
    requires IsInt32(low) && IsInt32(upper) && low <= v <= upper
    requires low < upper && upper - low + 1 < WORD
    ensures IsWord(v - low) && ToInt32(RandNumGet(true, low, upper, v - low).word) == v
  {
    Quotient(v - low, upper - low + 1, 0, v - low);
    assert Rem(v - low, upper - low + 1) == v - low;
    hide Rem, RandNumGet, ToInt32;
    DrawIsOffset(low, upper, v - low);
  }

  // ----- How even the draw is -----

  /** The first `n` words that leave the remainder `d`. */
  ghost function Residues(n: nat, range: nat, d: nat): set<nat>
    requires range > 0
  {
    set w: nat | w < n && Rem(w, range) == d
  }

  function Share(n: nat, range: nat, d: nat): nat
    requires range > 0
  {
    n / range + if d < n % range then 1 else 0
  }

  lemma Quotient(n: int, range: int, q: int, r: int)
    requires range > 0 && n == q * range + r && 0 <= r < range
    ensures n / range == q && n % range == r
  {
    var d := n / range - q;
    assert n == range * (n / range) + n % range;
    assert range * d == r - n % range;
    if d >= 1 {
      Times(range, d);
    } else if d <= -1 {
      Times(range, -d);
    }
  }

  lemma Times(a: int, b: int)
    requires a > 0 && b >= 1
    ensures a * b >= a
    ensures a * -b <= -a
  {
  }

  lemma DivStep(n: nat, range: nat)
    requires range > 0
    ensures if n % range == range - 1
            then (n + 1) / range == n / range + 1 && (n + 1) % range == 0
            else (n + 1) / range == n / range && (n + 1) % range == n % range + 1
  {
    var q, r := n / range, n % range;
    assert n == q * range + r;
    if r == range - 1 {
      assert (q + 1) * range == q * range + range;
      Quotient(n + 1, range, q + 1, 0);
    } else {
      Quotient(n + 1, range, q, r + 1);
    }
  }

  lemma {:induction false} ResiduesSize(n: nat, range: nat, d: nat)
    requires d < range
    ensures |Residues(n, range, d)| == Share(n, range, d)
    decreases n
  {
    if n == 0 {
      assert Residues(n, range, d) == {};
      Quotient(0, range, 0, 0);
    } else {
      ResiduesSize(n - 1, range, d);
      DivStep(n - 1, range);
      var before := Residues(n - 1, range, d);
      if Rem(n - 1, range) == d {
        assert Residues(n, range, d) == before + {n - 1};
      } else {
        assert Residues(n, range, d) == before;
      }
    }
  }

  /** The words that make the draw come out as `v`. */
  ghost function WordsFor(low: int, upper: int, v: int): set<nat> {
    set w: nat | w < WORD && RandNumGet(true, low, upper, w) == Value(ToWord(v))
  }

  lemma WordsAgree(x: int, w: nat)
    requires IsInt32(x) && IsWord(w)
    ensures w == ToWord(x) <==> ToInt32(w) == x
  {
  }

  lemma DrawsValue(low: int, upper: int, v: int, w: nat)
    requires IsInt32(low) && IsInt32(upper) && low <= v <= upper && IsWord(w)
    requires low < upper && upper - low + 1 < WORD
    ensures RandNumGet(true, low, upper, w) == Value(ToWord(v)) <==> Rem(w, upper - low + 1) == v - low
  {
    hide Rem, RandNumGet, ToInt32, ToWord;
    DrawIsOffset(low, upper, w);
    WordsAgree(v, RandNumGet(true, low, upper, w).word);
  }

  lemma WordsForAreResidues(low: int, upper: int, v: int)
    requires IsInt32(low) && IsInt32(upper) && low <= v <= upper
    requires low < upper && upper - low + 1 < WORD
    ensures WordsFor(low, upper, v) == Residues(WORD, upper - low + 1, v - low)
  {
    forall w: nat | w < WORD
      ensures RandNumGet(true, low, upper, w) == Value(ToWord(v)) <==> Rem(w, upper - low + 1) == v - low
    {
      DrawsValue(low, upper, v, w);
    }
  }

  /** The numbers of words behind any two outputs differ by one at most. */
  lemma DrawIsEven(low: int, upper: int, v: int, v': int)
    requires IsInt32(low) && IsInt32(upper) && low <= v <= upper && low <= v' <= upper
    requires low < upper && upper - low + 1 < WORD
    ensures |WordsFor(low, upper, v)| <= |WordsFor(low, upper, v')| + 1
    ensures |WordsFor(low, upper, v)| == Share(WORD, upper - low + 1, v - low)
  {
    WordsForAreResidues(low, upper, v);
    WordsForAreResidues(low, upper, v');
    ResiduesSize(WORD, upper - low + 1, v - low);
    ResiduesSize(WORD, upper - low + 1, v' - low);
  }
}
