/**
 * The kernel module homework10/tic_tac.c: each thread spins on the turn outside the mutex and
 * updates it inside, again for any number of threads and of rounds.
 */
module SpinTurn {
  import opened Rotation

  datatype Setup = Setup(threads: nat, times: nat)

  /** `Spin` is the unlocked test around schedule(). */
  datatype Pc = Head | Spin | Lock | Print | Pass | Unlock | Count | Done

  datatype Owner = Nobody | HeldBy(thread: nat)

  datatype State = State(
    turn: nat,
    owner: Owner,
    pc: seq<Pc>,
    count: seq<nat>,
    out: seq<nat>,
    round: nat,         // auxiliary: how often the turn has come round,
    passed: nat)        // and how often it was passed on

  // ----- The program -----

  predicate Start(c: Setup, s: State) {
    && c.threads > 0
    && s.turn == 0
    && s.owner == Nobody
    && s.pc == seq(c.threads, _ => Head)
    && s.count == seq(c.threads, _ => 0)
    && s.out == []
    && s.round == s.passed == 0
  }

  /** The step of thread `i` changes something: it neither yields in the spin nor waits for the mutex. */
  predicate Moves(s: State, i: nat) {
    && i < |s.pc|
    && match s.pc[i]
       case Spin => s.turn == i
       case Lock => s.owner == Nobody
       case Done => false
       case _ => true
  }

  function Step(c: Setup, s: State, i: nat): State
    requires i < |s.pc| == |s.count|
  {
    match s.pc[i]
    case Head => s.(pc := s.pc[i := if s.count[i] < c.times then Spin else Done])
    case Spin => s.(pc := s.pc[i := Lock])
    case Lock => s.(owner := HeldBy(i), pc := s.pc[i := Print])
    case Print => s.(out := s.out + [i], pc := s.pc[i := Pass])
    case Pass =>
      if i + 1 < c.threads then s.(turn := i + 1, passed := s.passed + 1, pc := s.pc[i := Unlock])
      else s.(turn := 0, round := s.round + 1, passed := s.passed + 1, pc := s.pc[i := Unlock])
    case Unlock => s.(owner := Nobody, pc := s.pc[i := Count])
    case Count => s.(count := s.count[i := s.count[i] + 1], pc := s.pc[i := Head])
    case Done => s
  }

  function Next(c: Setup, s: State, i: nat): State {
    if Moves(s, i) && |s.pc| == |s.count| then Step(c, s, i) else s
  }

  /** A schedule names the thread that runs next. */
  function Exec(c: Setup, s: State, schedule: seq<nat>): State
    decreases |schedule|
  {
    if schedule == [] then s else Exec(c, Next(c, s, schedule[0]), schedule[1..])
  }

  // ----- The invariant -----

  function Bit(b: bool): nat { if b then 1 else 0 }

  predicate Holds(p: Pc) { p.Print? || p.Pass? || p.Unlock? }

  function Fired(s: State, i: nat): nat { s.round + Bit(i < s.turn) }

  predicate OwnerAt(s: State, p: Pc) {
    s.owner.HeldBy? && s.owner.thread < |s.pc| && s.pc[s.owner.thread] == p
  }

  /** The third clause: what a thread saw outside the mutex stays true until its own write. */
  predicate ThreadInv(c: Setup, s: State, i: nat)
    requires i < |s.pc| == |s.count|
  {
    var p := s.pc[i];
    && (s.owner == HeldBy(i) <==> Holds(p))
    && (p.Lock? || p.Print? || p.Pass? ==> s.turn == i)
    && Fired(s, i) == s.count[i] + Bit(p.Unlock? || p.Count?)
    && s.count[i] <= c.times
    && (!p.Head? && !p.Done? ==> s.count[i] < c.times)
    && (p.Done? ==> s.count[i] == c.times)
  }

  predicate ShapeInv(c: Setup, s: State) {
    && 0 < c.threads == |s.pc| == |s.count|
    && s.turn < c.threads
    && (s.owner.HeldBy? ==> s.owner.thread < c.threads)
    && s.passed == s.round * c.threads + s.turn
    && |s.out| == s.passed + Bit(OwnerAt(s, Pass))
    && s.out == Cycle(c.threads, |s.out|)
  }

  predicate TurnInv(c: Setup, s: State) {
    && ShapeInv(c, s)
    && forall i :: 0 <= i < c.threads ==> ThreadInv(c, s, i)
  }

  lemma StartInv(c: Setup, s: State)
    requires Start(c, s)
    ensures TurnInv(c, s)
  {
  }

  lemma ShapeStep(c: Setup, s: State, i: nat)
    requires TurnInv(c, s) && Moves(s, i)
    ensures ShapeInv(c, Step(c, s, i))
  {
    assert ThreadInv(c, s, i);
    if s.pc[i].Print? {
      PlaceInRound(c.threads, s.round, s.turn);
    } else if s.pc[i].Pass? && i + 1 == c.threads {
      assert (s.round + 1) * c.threads == s.round * c.threads + c.threads;
    }
  }

  lemma ThreadStep(c: Setup, s: State, i: nat, j: nat)
    requires TurnInv(c, s) && Moves(s, i) && j < c.threads
    ensures ThreadInv(c, Step(c, s, i), j)
  {
    assert ThreadInv(c, s, i) && ThreadInv(c, s, j);
  }

  lemma TurnStep(c: Setup, s: State, i: nat)
    requires TurnInv(c, s)
    ensures TurnInv(c, Next(c, s, i))
  {
    if Moves(s, i) {
      ShapeStep(c, s, i);
      forall j | 0 <= j < c.threads
        ensures ThreadInv(c, Step(c, s, i), j)
      {
        ThreadStep(c, s, i, j);
      }
    }
  }

  lemma {:induction false} TurnRun(c: Setup, s: State, schedule: seq<nat>)
    requires TurnInv(c, s)
    ensures TurnInv(c, Exec(c, s, schedule))
    decreases |schedule|
  {
    if schedule != [] {
      TurnStep(c, s, schedule[0]);
      TurnRun(c, Next(c, s, schedule[0]), schedule[1..]);
    }
  }

  // ----- Main results: the output -----

  /** A thread that has seen its own turn outside the mutex is overtaken by nobody. */
  lemma TestIsStable(c: Setup, s: State, schedule: seq<nat>, i: nat)
    requires TurnInv(c, s) && i < c.threads && s.pc[i] == Lock && i !in schedule
    ensures Exec(c, s, schedule).turn == i && Exec(c, s, schedule).out == s.out
    decreases |schedule|
  {
    if schedule != [] {
      var j := schedule[0];
      assert ThreadInv(c, s, i);
      if j < c.threads {
        assert ThreadInv(c, s, j);
      }
      TurnStep(c, s, j);
      TestIsStable(c, Next(c, s, j), schedule[1..], i);
    }
  }

  lemma OutputFits(c: Setup, s: State)
    requires TurnInv(c, s)
    ensures |s.out| <= c.threads * c.times
    ensures s.passed + Bit(OwnerAt(s, Print) || OwnerAt(s, Pass)) <= c.threads * c.times
  {
    assert ThreadInv(c, s, 0) && ThreadInv(c, s, s.turn);
    if s.owner.HeldBy? {
      assert ThreadInv(c, s, s.owner.thread);
    }
    if s.turn > 0 || OwnerAt(s, Print) || OwnerAt(s, Pass) {
      MulMonotone(s.round + 1, c.times, c.threads);
      assert (s.round + 1) * c.threads == s.round * c.threads + c.threads;
    } else {
      MulMonotone(s.round, c.times, c.threads);
    }
  }

  /** Each step prints nothing, or is the abstract token's step. */
  lemma RefinesToken(c: Setup, s: State, i: nat)
    requires TurnInv(c, s)
    ensures TokenStep(c.threads, c.times, s.out, Next(c, s, i).out)
  {
    if Moves(s, i) && s.pc[i].Print? {
      OutputFits(c, s);
      assert ThreadInv(c, s, i);
      PlaceInRound(c.threads, s.round, s.turn);
    }
  }

  predicate AllDone(s: State) { forall i :: 0 <= i < |s.pc| ==> s.pc[i] == Done }

  lemma DoneOutput(c: Setup, s: State)
    requires TurnInv(c, s) && AllDone(s)
    ensures s.out == Repeat(Cycle(c.threads, c.threads), c.times)
  {
    assert ThreadInv(c, s, 0) && ThreadInv(c, s, c.threads - 1);
    if s.owner.HeldBy? {
      assert ThreadInv(c, s, s.owner.thread);
    }
    CompleteCycle(c.threads, c.times);
  }

  /** Past its test, which it makes outside the mutex, and not yet past its write of the turn. */
  predicate Committed(s: State, i: nat) {
    i < |s.pc| && (s.pc[i].Lock? || s.pc[i].Print? || s.pc[i].Pass?)
  }

  /**
   * In every run the log is a prefix of (TIC TAC)^K, and all of it once every thread has returned;
   * and no two threads are ever committed to a turn together.
   */
  lemma OutputIsCyclic(c: Setup, s0: State, schedule: seq<nat>)
    requires Start(c, s0)
    ensures var s := Exec(c, s0, schedule);
      && TokenInv(c.threads, c.times, s.out)
      && (AllDone(s) ==> s.out == Repeat(Cycle(c.threads, c.threads), c.times))
      && (forall i, j :: Committed(s, i) && Committed(s, j) ==> i == j == s.turn)
  {
    StartInv(c, s0);
    TurnRun(c, s0, schedule);
    var s := Exec(c, s0, schedule);
    OutputFits(c, s);
    forall i | Committed(s, i)
      ensures i == s.turn
    {
      assert ThreadInv(c, s, i);
    }
    if AllDone(s) {
      DoneOutput(c, s);
    }
  }

  // ----- Main results: progress -----

  /** No deadlock: a thread that has written the turn and still holds the mutex blocks nobody for good. */
  lemma SomeoneMoves(c: Setup, s: State) returns (i: nat)
    requires TurnInv(c, s) && !AllDone(s)
    ensures i < c.threads && Moves(s, i)
  {
    if s.owner.HeldBy? {
      i := s.owner.thread;
      assert ThreadInv(c, s, i);
    } else if exists j :: 0 <= j < c.threads && s.pc[j] != Spin && s.pc[j] != Done {
      i :| 0 <= i < c.threads && s.pc[i] != Spin && s.pc[i] != Done;
      assert ThreadInv(c, s, i);
    } else {
      i := s.turn;
      AllSpinIsDone(c, s);
    }
  }

  /** Only when everything is printed is nobody's turn left. */
  lemma AllSpinIsDone(c: Setup, s: State)
    requires TurnInv(c, s) && s.owner == Nobody
    requires forall j :: 0 <= j < c.threads ==> s.pc[j] == Spin || s.pc[j] == Done
    ensures s.pc[s.turn] == Done ==> AllDone(s)
  {
    assert ThreadInv(c, s, s.turn) && ThreadInv(c, s, 0);
    forall j | 0 <= j < c.threads && s.pc[s.turn] == Done
      ensures s.pc[j] == Done
    {
      assert ThreadInv(c, s, j);
    }
  }

  function Rank(p: Pc): nat {
    match p
    case Unlock => 7
    case Count => 6
    case Head => 5
    case Spin => 4
    case Lock => 3
    case Print => 2
    case Pass => 1
    case Done => 0
  }

  function Ranks(pc: seq<Pc>): nat {
    if pc == [] then 0 else Rank(pc[0]) + Ranks(pc[1..])
  }

  lemma {:induction false} RanksUpdate(pc: seq<Pc>, i: nat, p: Pc)
    requires i < |pc|
    ensures Ranks(pc[i := p]) == Ranks(pc) - Rank(pc[i]) + Rank(p)
  {
    if i > 0 {
      assert pc[i := p][1..] == pc[1..][i - 1 := p];
      RanksUpdate(pc[1..], i - 1, p);
    } else {
      assert pc[i := p][1..] == pc[1..];
    }
  }

  /** Bounds the steps that are left and change something. */
  function Measure(c: Setup, s: State): int { 7 * (c.threads * c.times - s.passed) + Ranks(s.pc) }

  /** Every step but a failed spin or lock lowers the measure, so only they can go on for ever. */
  lemma MeasureStep(c: Setup, s: State, i: nat)
    requires TurnInv(c, s) && Moves(s, i)
    ensures 0 <= Measure(c, Step(c, s, i)) < Measure(c, s)
  {
    assert ThreadInv(c, s, i);
    RanksUpdate(s.pc, i, Step(c, s, i).pc[i]);
    TurnStep(c, s, i);
    OutputFits(c, Step(c, s, i));
  }
}
