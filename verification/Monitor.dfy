/**
 * The turn-taking monitors: 1_2_3.c, which wakes by pthread_cond_broadcast, and the user-space
 * tic_tac.c, which wakes by pthread_cond_signal, for any number of threads and of rounds.
 */
module Monitor {
  import opened Rotation

  datatype Wake = Broadcast | Signal

  datatype Setup = Setup(threads: nat, times: nat, wake: Wake)

  /** A thread function, statement by statement; `Asleep` is inside pthread_cond_wait. */
  datatype Pc = Head | Lock | Test | Park | Asleep | Relock | Print | Pass | Notify | Unlock | Count | Done

  datatype Owner = Nobody | HeldBy(thread: nat)

  datatype State = State(
    turn: nat,
    owner: Owner,
    pc: seq<Pc>,
    count: seq<nat>,    // count_thread of each thread
    out: seq<nat>,
    round: nat,         // auxiliary: how often the turn has come round,
    passed: nat)        // and how often it was passed on

  /** `chosen` is the sleeper that a signal wakes, if there is one. */
  datatype Tick = Run(thread: nat, chosen: nat) | Spurious(thread: nat)

  // ----- The program -----

  predicate Start(c: Setup, s: State) {
    && c.threads > 0
    && s.turn == 0
    && s.owner == Nobody
    && s.pc == seq(c.threads, _ => Head)
    && s.count == seq(c.threads, _ => 0)
    && s.out == []
    && s.round == s.passed == 0
  }

  predicate SomeAsleep(pc: seq<Pc>) { exists j :: 0 <= j < |pc| && pc[j] == Asleep }

  predicate Enabled(c: Setup, s: State, t: Tick) {
    && t.thread < |s.pc|
    && match t
       case Spurious(i) => s.pc[i] == Asleep
       case Run(i, chosen) =>
         match s.pc[i]
         case Lock => s.owner == Nobody
         case Relock => s.owner == Nobody
         case Asleep => false
         case Done => false
         case Notify => c.wake == Signal && SomeAsleep(s.pc) ==> chosen < |s.pc| && s.pc[chosen] == Asleep
         case _ => true
  }

  function WakeAll(pc: seq<Pc>): (r: seq<Pc>)
    ensures |r| == |pc|
  {
    seq(|pc|, j requires 0 <= j < |pc| => if pc[j] == Asleep then Relock else pc[j])
  }

  function Woken(c: Setup, pc: seq<Pc>, chosen: nat): (r: seq<Pc>)
    ensures |r| == |pc|
  {
    if c.wake == Broadcast then WakeAll(pc)
    else if chosen < |pc| && pc[chosen] == Asleep then pc[chosen := Relock]
    else pc
  }

  function Step(c: Setup, s: State, t: Tick): State
    requires t.thread < |s.pc| == |s.count|
  {
    var i := t.thread;
    if t.Spurious? then s.(pc := s.pc[i := Relock])
    else match s.pc[i]
      case Head => s.(pc := s.pc[i := if s.count[i] < c.times then Lock else Done])
      case Lock => s.(owner := HeldBy(i), pc := s.pc[i := Test])
      case Test => s.(pc := s.pc[i := if s.turn == i then Print else Park])
      case Park => s.(owner := Nobody, pc := s.pc[i := Asleep])
      case Relock => s.(owner := HeldBy(i), pc := s.pc[i := Test])
      case Print => s.(out := s.out + [i], pc := s.pc[i := Pass])
      case Pass =>
        if i + 1 < c.threads then s.(turn := i + 1, passed := s.passed + 1, pc := s.pc[i := Notify])
        else s.(turn := 0, round := s.round + 1, passed := s.passed + 1, pc := s.pc[i := Notify])
      case Notify => s.(pc := Woken(c, s.pc, t.chosen)[i := Unlock])
      case Unlock => s.(owner := Nobody, pc := s.pc[i := Count])
      case Count => s.(count := s.count[i := s.count[i] + 1], pc := s.pc[i := Head])
      case _ => s
  }

  function Next(c: Setup, s: State, t: Tick): State {
    if Enabled(c, s, t) && |s.pc| == |s.count| then Step(c, s, t) else s
  }

  function Exec(c: Setup, s: State, schedule: seq<Tick>): State
    decreases |schedule|
  {
    if schedule == [] then s else Exec(c, Next(c, s, schedule[0]), schedule[1..])
  }

  lemma {:induction false} ExecAppend(c: Setup, s: State, a: seq<Tick>, b: seq<Tick>)
    ensures Exec(c, s, a + b) == Exec(c, Exec(c, s, a), b)
    decreases |a|
  {
    if a == [] {
      assert a + b == b;
    } else {
      assert (a + b)[1..] == a[1..] + b;
      ExecAppend(c, Next(c, s, a[0]), a[1..], b);
    }
  }

  // ----- What every run keeps, spurious wakeups included -----

  function Bit(b: bool): nat { if b then 1 else 0 }

  predicate Holds(p: Pc) { p.Test? || p.Park? || p.Print? || p.Pass? || p.Notify? || p.Unlock? }

  /** The number of turns thread `i` has passed on. */
  function Fired(s: State, i: nat): nat { s.round + Bit(i < s.turn) }

  predicate OwnerAt(s: State, p: Pc) {
    s.owner.HeldBy? && s.owner.thread < |s.pc| && s.pc[s.owner.thread] == p
  }

  predicate ThreadInv(c: Setup, s: State, i: nat)
    requires i < |s.pc| == |s.count|
  {
    var p := s.pc[i];
    && (s.owner == HeldBy(i) <==> Holds(p))
    && (p.Print? || p.Pass? ==> s.turn == i)
    && (p.Park? ==> s.turn != i)
    && Fired(s, i) == s.count[i] + Bit(p.Notify? || p.Unlock? || p.Count?)
    && s.count[i] <= c.times
    && (!p.Head? && !p.Done? ==> s.count[i] < c.times)
    && (p.Done? ==> s.count[i] == c.times)
  }

  predicate ShapeInv(c: Setup, s: State) {
    && 0 < c.threads == |s.pc| == |s.count|
    && s.turn < c.threads
    && (s.owner.HeldBy? ==> s.owner.thread < c.threads)
    && s.passed == s.round * c.threads + s.turn
    && |s.out| == s.passed + Bit(OwnerAt(s, Pass))
    && s.out == Cycle(c.threads, |s.out|)
  }

  predicate TurnInv(c: Setup, s: State) {
    && ShapeInv(c, s)
    && forall i :: 0 <= i < c.threads ==> ThreadInv(c, s, i)
  }

  lemma StartInv(c: Setup, s: State)
    requires Start(c, s)
    ensures TurnInv(c, s)
  {
  }

  lemma ShapeStep(c: Setup, s: State, t: Tick)
    requires TurnInv(c, s) && Enabled(c, s, t)
    ensures ShapeInv(c, Step(c, s, t))
  {
    var i := t.thread;
    assert ThreadInv(c, s, i);
    if t.Run? && s.pc[i].Print? {
      PlaceInRound(c.threads, s.round, s.turn);
    } else if t.Run? && s.pc[i].Pass? && i + 1 == c.threads {
      assert (s.round + 1) * c.threads == s.round * c.threads + c.threads;
    }
  }

  lemma ThreadStep(c: Setup, s: State, t: Tick, i: nat)
    requires TurnInv(c, s) && Enabled(c, s, t) && i < c.threads
    ensures ThreadInv(c, Step(c, s, t), i)
  {
    assert ThreadInv(c, s, i);
    assert ThreadInv(c, s, t.thread);
  }

  lemma TurnStep(c: Setup, s: State, t: Tick)
    requires TurnInv(c, s)
    ensures TurnInv(c, Next(c, s, t))
  {
    if Enabled(c, s, t) {
      ShapeStep(c, s, t);
      forall i | 0 <= i < c.threads
        ensures ThreadInv(c, Step(c, s, t), i)
      {
        ThreadStep(c, s, t, i);
      }
    }
  }

  lemma {:induction false} TurnRun(c: Setup, s: State, schedule: seq<Tick>)
    requires TurnInv(c, s)
    ensures TurnInv(c, Exec(c, s, schedule))
    decreases |schedule|
  {
    if schedule != [] {
      TurnStep(c, s, schedule[0]);
      TurnRun(c, Next(c, s, schedule[0]), schedule[1..]);
    }
  }

  // ----- Main results: the output -----

  /** No more than `times` rounds are printed. */
  lemma OutputFits(c: Setup, s: State)
    requires TurnInv(c, s)
    ensures |s.out| <= c.threads * c.times
    ensures s.passed + Bit(OwnerAt(s, Print) || OwnerAt(s, Pass)) <= c.threads * c.times
  {
    assert ThreadInv(c, s, 0) && ThreadInv(c, s, s.turn);
    if s.owner.HeldBy? {
      assert ThreadInv(c, s, s.owner.thread);
    }
    if s.turn > 0 || OwnerAt(s, Print) || OwnerAt(s, Pass) {
      MulMonotone(s.round + 1, c.times, c.threads);
      assert (s.round + 1) * c.threads == s.round * c.threads + c.threads;
    } else {
      MulMonotone(s.round, c.times, c.threads);
    }
  }

  /** Each step prints nothing, or is the abstract token's step: both wakeup disciplines refine the rotation. */
  lemma RefinesToken(c: Setup, s: State, t: Tick)
    requires TurnInv(c, s)
    ensures TokenStep(c.threads, c.times, s.out, Next(c, s, t).out)
  {
    if Enabled(c, s, t) && t.Run? && s.pc[t.thread].Print? {
      OutputFits(c, s);
      assert ThreadInv(c, s, t.thread);
      PlaceInRound(c.threads, s.round, s.turn);
    }
  }

  predicate AllDone(s: State) { forall i :: 0 <= i < |s.pc| ==> s.pc[i] == Done }

  lemma DoneOutput(c: Setup, s: State)
    requires TurnInv(c, s) && AllDone(s)
    ensures s.out == Repeat(Cycle(c.threads, c.threads), c.times)
  {
    assert ThreadInv(c, s, 0) && ThreadInv(c, s, c.threads - 1);
    if s.owner.HeldBy? {
      assert ThreadInv(c, s, s.owner.thread);
    }
    CompleteCycle(c.threads, c.times);
  }

  /** In every run the output is a prefix of (1 2 ... N)^K, and all of it once every thread has exited. */
  lemma OutputIsCyclic(c: Setup, s0: State, schedule: seq<Tick>)
    requires Start(c, s0)
    ensures var s := Exec(c, s0, schedule);
      && TokenInv(c.threads, c.times, s.out)
      && (AllDone(s) ==> s.out == Repeat(Cycle(c.threads, c.threads), c.times))
  {
    StartInv(c, s0);
    TurnRun(c, s0, schedule);
    var s := Exec(c, s0, schedule);
    OutputFits(c, s);
    if AllDone(s) {
      DoneOutput(c, s);
    }
  }

  // ----- No lost wakeup -----

  /** Whoever's turn it is does not sleep, or is about to be woken. */
  predicate AwakeInv(s: State) {
    s.turn < |s.pc| && s.pc[s.turn] == Asleep ==> OwnerAt(s, Notify)
  }

  /** Signalling is as good as broadcasting for two threads. */
  predicate Sound(c: Setup) { c.wake == Broadcast || c.threads <= 2 }

  /** With two threads the one sleeper is the only thread a signal can reach: the step is a broadcast. */
  lemma SignalIsBroadcast(c: Setup, s: State, t: Tick)
    requires TurnInv(c, s) && c.threads <= 2 && Enabled(c, s, t)
    ensures Step(c, s, t) == Step(c.(wake := Broadcast), s, t)
  {
    var i := t.thread;
    if t.Run? && s.pc[i].Notify? {
      forall j | 0 <= j < c.threads && j != i
        ensures Woken(c, s.pc, t.chosen)[j] == WakeAll(s.pc)[j]
      {
        if s.pc[j] == Asleep {
          assert SomeAsleep(s.pc);
        }
      }
      assert Woken(c, s.pc, t.chosen)[i := Unlock] == WakeAll(s.pc)[i := Unlock];
    }
  }

  lemma AwakeStep(c: Setup, s: State, t: Tick)
    requires Sound(c) && TurnInv(c, s) && AwakeInv(s)
    ensures AwakeInv(Next(c, s, t))
  {
    if Enabled(c, s, t) {
      assert ThreadInv(c, s, t.thread) && ThreadInv(c, s, s.turn);
      if s.owner.HeldBy? {
        assert ThreadInv(c, s, s.owner.thread);
      }
      if c.wake == Signal {
        SignalIsBroadcast(c, s, t);
      }
    }
  }

  lemma {:induction false} AwakeRun(c: Setup, s: State, schedule: seq<Tick>)
    requires Sound(c) && TurnInv(c, s) && AwakeInv(s)
    ensures TurnInv(c, Exec(c, s, schedule)) && AwakeInv(Exec(c, s, schedule))
    decreases |schedule|
  {
    if schedule != [] {
      TurnStep(c, s, schedule[0]);
      AwakeStep(c, s, schedule[0]);
      AwakeRun(c, Next(c, s, schedule[0]), schedule[1..]);
    }
  }

  /** No deadlock: as long as a thread has not exited, some thread can run without a spurious wakeup. */
  lemma SomeoneRuns(c: Setup, s: State) returns (i: nat, w: nat)
    requires TurnInv(c, s) && AwakeInv(s) && !AllDone(s)
    ensures Enabled(c, s, Run(i, w))
  {
    w := if SomeAsleep(s.pc) then (var j :| 0 <= j < |s.pc| && s.pc[j] == Asleep; j) else 0;
    if s.owner.HeldBy? {
      i := s.owner.thread;
      assert ThreadInv(c, s, i);
    } else if exists j :: 0 <= j < c.threads && s.pc[j] != Asleep && s.pc[j] != Done {
      i :| 0 <= i < c.threads && s.pc[i] != Asleep && s.pc[i] != Done;
      assert ThreadInv(c, s, i);
    } else {
      AllAsleepIsDone(c, s);
      assert false;
    }
  }

  lemma AllAsleepIsDone(c: Setup, s: State)
    requires TurnInv(c, s) && AwakeInv(s) && s.owner == Nobody
    requires forall j :: 0 <= j < c.threads ==> s.pc[j] == Asleep || s.pc[j] == Done
    ensures AllDone(s)
  {
    assert ThreadInv(c, s, s.turn);
    assert s.pc[s.turn] == Done;
    assert ThreadInv(c, s, 0);
    forall j | 0 <= j < c.threads
      ensures s.pc[j] == Done
    {
      assert ThreadInv(c, s, j);
    }
  }

  // ----- Termination without fairness -----

  function Rank(p: Pc): nat {
    match p
    case Unlock => 9
    case Count => 8
    case Head => 7
    case Lock => 6
    case Relock => 6
    case Test => 5
    case Park => 4
    case Print => 4
    case Pass => 3
    case Notify => 2
    case Asleep => 1
    case Done => 0
  }

  function Ranks(pc: seq<Pc>): nat {
    if pc == [] then 0 else Rank(pc[0]) + Ranks(pc[1..])
  }

  lemma {:induction false} RanksUpdate(pc: seq<Pc>, i: nat, p: Pc)
    requires i < |pc|
    ensures Ranks(pc[i := p]) == Ranks(pc) - Rank(pc[i]) + Rank(p)
  {
    if i > 0 {
      assert pc[i := p][1..] == pc[1..][i - 1 := p];
      RanksUpdate(pc[1..], i - 1, p);
    } else {
      assert pc[i := p][1..] == pc[1..];
    }
  }

  /** Waking raises the rank of each woken thread by five. */
  lemma {:induction false} RanksWakeAll(pc: seq<Pc>)
    ensures Ranks(WakeAll(pc)) <= Ranks(pc) + 5 * |pc|
  {
    if pc != [] {
      assert WakeAll(pc)[1..] == WakeAll(pc[1..]);
      RanksWakeAll(pc[1..]);
    }
  }

  /** The notifications still to come. */
  function Remaining(c: Setup, s: State): int { c.threads * c.times - s.passed + Bit(OwnerAt(s, Notify)) }

  function Weight(c: Setup): nat { 5 * c.threads + 8 }

  /** Bounds the steps that are left, whatever the scheduler does. */
  function Measure(c: Setup, s: State): int { Weight(c) * Remaining(c, s) + Ranks(s.pc) }

  lemma MeasureIsNonNegative(c: Setup, s: State)
    requires TurnInv(c, s)
    ensures Remaining(c, s) >= 0 && Measure(c, s) >= 0
  {
    OutputFits(c, s);
    assert Remaining(c, s) >= 0;
  }

  lemma OwnerStep(c: Setup, s: State, t: Tick)
    requires TurnInv(c, s) && Enabled(c, s, t) && t.Run?
    ensures var p := s.pc[t.thread];
      Remaining(c, Step(c, s, t)) == Remaining(c, s) - Bit(p == Notify)
  {
    assert ThreadInv(c, s, t.thread);
    if s.owner.HeldBy? {
      assert ThreadInv(c, s, s.owner.thread);
    }
  }

  lemma RanksStep(c: Setup, s: State, t: Tick)
    requires TurnInv(c, s) && Enabled(c, s, t) && t.Run?
    ensures Ranks(Step(c, s, t).pc) < Ranks(s.pc) + (if s.pc[t.thread] == Notify then Weight(c) else 0)
  {
    var i := t.thread;
    var p := s.pc[i];
    assert ThreadInv(c, s, i);
    if p == Notify {
      var woken := Woken(c, s.pc, t.chosen);
      if c.wake == Broadcast {
        RanksWakeAll(s.pc);
      } else if t.chosen < |s.pc| && s.pc[t.chosen] == Asleep {
        RanksUpdate(s.pc, t.chosen, Relock);
      }
      assert woken[i] == Notify;
      RanksUpdate(woken, i, Unlock);
    } else {
      RanksUpdate(s.pc, i, Step(c, s, t).pc[i]);
    }
  }

  /** Every step of a thread lowers the measure, although each wakeup raises the ranks of the woken. */
  lemma MeasureStep(c: Setup, s: State, t: Tick)
    requires TurnInv(c, s) && Enabled(c, s, t) && t.Run?
    ensures Measure(c, Step(c, s, t)) < Measure(c, s)
  {
    OwnerStep(c, s, t);
    RanksStep(c, s, t);
    hide TurnInv, Step, Enabled, Weight, Remaining, Ranks;
    OneLess(Weight(c), Remaining(c, s));
  }

  lemma OneLess(w: int, r: int)
    ensures w * (r - 1) == w * r - w
  {
  }

  /** The steps that threads really take in a run. */
  function Moves(c: Setup, s: State, schedule: seq<Tick>): nat
    decreases |schedule|
  {
    if schedule == [] then 0
    else (if Enabled(c, s, schedule[0]) then 1 else 0) + Moves(c, Next(c, s, schedule[0]), schedule[1..])
  }

  predicate NoSpurious(schedule: seq<Tick>) { forall i :: 0 <= i < |schedule| ==> schedule[i].Run? }

  lemma {:induction false} MovesBounded(c: Setup, s: State, schedule: seq<Tick>)
    requires TurnInv(c, s) && NoSpurious(schedule)
    ensures Moves(c, s, schedule) + Measure(c, Exec(c, s, schedule)) <= Measure(c, s)
    decreases |schedule|
  {
    if schedule != [] {
      var t := schedule[0];
      if Enabled(c, s, t) {
        MeasureStep(c, s, t);
      }
      TurnStep(c, s, t);
      MovesBounded(c, Next(c, s, t), schedule[1..]);
    }
  }

  lemma {:induction false} RanksAtHead(n: nat)
    ensures Ranks(seq(n, _ => Head)) == 7 * n
  {
    if n > 0 {
      assert seq(n, _ => Head)[1..] == seq(n - 1, _ => Head);
      RanksAtHead(n - 1);
    }
  }

  /** Every run is finite: no scheduler can make the threads take more steps than this. */
  lemma RunsAreFinite(c: Setup, s0: State, schedule: seq<Tick>)
    requires Start(c, s0) && NoSpurious(schedule)
    ensures Moves(c, s0, schedule) <= Weight(c) * (c.threads * c.times) + 7 * c.threads
  {
    StartInv(c, s0);
    MovesBounded(c, s0, schedule);
    RanksAtHead(c.threads);
    TurnRun(c, s0, schedule);
    MeasureIsNonNegative(c, Exec(c, s0, schedule));
  }

  /** A run that cannot go on has printed everything. */
  lemma StuckMeansComplete(c: Setup, s0: State, schedule: seq<Tick>)
    requires Sound(c) && Start(c, s0)
    ensures var s := Exec(c, s0, schedule);
      (forall i, w :: !Enabled(c, s, Run(i, w))) ==> AllDone(s) && s.out == Repeat(Cycle(c.threads, c.threads), c.times)
  {
    StartInv(c, s0);
    AwakeRun(c, s0, schedule);
    var s := Exec(c, s0, schedule);
    if !AllDone(s) {
      var i, w := SomeoneRuns(c, s);
      assert Enabled(c, s, Run(i, w));
    } else {
      DoneOutput(c, s);
    }
  }

  // ----- For three threads or more a signal can reach the wrong sleeper -----

  function Iter(c: Setup, s: State, t: Tick, n: nat): State
    decreases n
  {
    if n == 0 then s else Iter(c, Next(c, s, t), t, n - 1)
  }

  function Times(t: Tick, n: nat): (r: seq<Tick>)
    ensures |r| == n
    ensures t.Run? ==> NoSpurious(r)
  {
    seq(n, _ => t)
  }

  lemma {:induction false} ExecIter(c: Setup, s: State, t: Tick, n: nat)
    ensures Exec(c, s, Times(t, n)) == Iter(c, s, t, n)
    decreases n
  {
    if n > 0 {
      assert Times(t, n)[1..] == Times(t, n - 1);
      ExecIter(c, Next(c, s, t), t, n - 1);
    }
  }

  predicate Fits(c: Setup, s: State) { |s.pc| == |s.count| == c.threads }

  /** A thread whose turn it is not goes to sleep. */
  lemma ParkOne(c: Setup, s: State, i: nat)
    requires Fits(c, s) && i < c.threads && s.owner == Nobody && s.pc[i] == Head && s.count[i] < c.times && s.turn != i
    ensures Exec(c, s, Times(Run(i, 0), 4)) == s.(pc := s.pc[i := Asleep])
  {
    ExecIter(c, s, Run(i, 0), 4);
    var s1 := Iter(c, s, Run(i, 0), 2);
    assert s1 == s.(pc := s.pc[i := Test], owner := HeldBy(i));
    assert Iter(c, s1, Run(i, 0), 2) == s.(pc := s.pc[i := Asleep]);
  }

  lemma {:induction false} ParkRange(c: Setup, s: State, from: nat) returns (schedule: seq<Tick>)
    requires Fits(c, s) && 0 < from <= c.threads && s.owner == Nobody && s.turn == 0
    requires forall i :: from <= i < c.threads ==> s.pc[i] == Head && s.count[i] < c.times
    ensures NoSpurious(schedule)
    ensures Exec(c, s, schedule) == s.(pc := s.pc[..from] + seq(c.threads - from, _ => Asleep))
    decreases c.threads - from
  {
    if from == c.threads {
      schedule := [];
    } else {
      ParkOne(c, s, from);
      var s1 := s.(pc := s.pc[from := Asleep]);
      var rest := ParkRange(c, s1, from + 1);
      schedule := Times(Run(from, 0), 4) + rest;
      ExecAppend(c, s, Times(Run(from, 0), 4), rest);
      assert s1.pc[..from + 1] + seq(c.threads - from - 1, _ => Asleep) == s.pc[..from] + seq(c.threads - from, _ => Asleep);
    }
  }

  /** Thread 0 takes its turn while the others sleep, and signals the last of them. */
  lemma FirstTurn(c: Setup, s: State)
    requires c.wake == Signal && Fits(c, s) && 3 <= c.threads && c.times > 0
    requires s.owner == Nobody && s.turn == 0 && s.pc[0] == Head && s.count[0] == 0
    requires forall i :: 1 <= i < c.threads ==> s.pc[i] == Asleep
    ensures var e := Exec(c, s, Times(Run(0, c.threads - 1), 8));
      && Fits(c, e) && e.owner == Nobody && e.turn == 1 && e.count[0] == 1
      && e.pc == s.pc[c.threads - 1 := Relock]
  {
    var t := Run(0, c.threads - 1);
    ExecIter(c, s, t, 8);
    var s1 := Iter(c, s, t, 3);
    assert s1 == s.(owner := HeldBy(0), pc := s.pc[0 := Print]);
    var s2 := Iter(c, s1, t, 2);
    assert s2.turn == 1 && s2.owner == HeldBy(0) && s2.pc == s.pc[0 := Notify] && s2.count == s.count;
    assert s2.pc[c.threads - 1] == Asleep;
    var s3 := Iter(c, s2, t, 1);
    assert s3.pc == s.pc[0 := Unlock][c.threads - 1 := Relock];
    var s4 := Iter(c, s3, t, 2);
    assert s4.pc == s.pc[c.threads - 1 := Relock];
  }

  /** The thread that was woken in vain sleeps again. */
  lemma WokenInVain(c: Setup, s: State, i: nat)
    requires Fits(c, s) && i < c.threads && s.owner == Nobody && s.pc[i] == Relock && s.turn != i
    ensures Exec(c, s, Times(Run(i, 0), 3)) == s.(pc := s.pc[i := Asleep])
  {
    ExecIter(c, s, Run(i, 0), 3);
    var s1 := Iter(c, s, Run(i, 0), 2);
    assert s1 == s.(pc := s.pc[i := Park], owner := HeldBy(i));
  }

  /** Thread 0 exits after its only turn, or sleeps before its next. */
  lemma FirstRests(c: Setup, s: State) returns (schedule: seq<Tick>)
    requires Fits(c, s) && c.threads > 0 && s.owner == Nobody && s.turn == 1 && s.pc[0] == Head && s.count[0] == 1 <= c.times
    ensures NoSpurious(schedule)
    ensures Exec(c, s, schedule) == s.(pc := s.pc[0 := if c.times == 1 then Done else Asleep])
  {
    if c.times == 1 {
      schedule := Times(Run(0, 0), 1);
      ExecIter(c, s, Run(0, 0), 1);
    } else {
      schedule := Times(Run(0, 0), 4);
      ParkOne(c, s, 0);
    }
  }

  predicate Stuck(s: State) { forall i :: 0 <= i < |s.pc| ==> s.pc[i] == Asleep || s.pc[i] == Done }

  lemma {:induction false} SignalDeadlocks(c: Setup, s0: State) returns (schedule: seq<Tick>)
    requires c.wake == Signal && c.threads >= 3 && c.times > 0 && Start(c, s0)
    ensures NoSpurious(schedule)
    ensures var e := Exec(c, s0, schedule); Stuck(e) && !AllDone(e)
  {
    hide Next, Step, Enabled, Exec;
    var n := c.threads;
    var park := ParkRange(c, s0, 1);
    var s1 := Exec(c, s0, park);
    FirstTurn(c, s1);
    var turn := Times(Run(0, n - 1), 8);
    var s2 := Exec(c, s1, turn);
    ExecAppend(c, s0, park, turn);
    var again := FirstRests(c, s2);
    var s3 := Exec(c, s2, again);
    ExecAppend(c, s0, park + turn, again);
    WokenInVain(c, s3, n - 1);
    var vain := Times(Run(n - 1, 0), 3);
    ExecAppend(c, s0, park + turn + again, vain);
    schedule := park + turn + again + vain;
    assert Exec(c, s0, schedule).pc[1] == Asleep;
  }

  /** Signalling is free of deadlock exactly for at most two threads, which is where the source uses it. */
  lemma SignalSuffices(c: Setup, s0: State)
    requires c.wake == Signal && c.times > 0 && Start(c, s0)
    ensures (forall schedule | NoSpurious(schedule) :: Stuck(Exec(c, s0, schedule)) ==> AllDone(Exec(c, s0, schedule)))
      <==> c.threads <= 2
  {
    if c.threads > 2 {
      var bad := SignalDeadlocks(c, s0);
    } else {
      forall schedule | NoSpurious(schedule) && Stuck(Exec(c, s0, schedule))
        ensures AllDone(Exec(c, s0, schedule))
      {
        StartInv(c, s0);
        AwakeRun(c, s0, schedule);
        var s := Exec(c, s0, schedule);
        if !AllDone(s) {
          var i, w := SomeoneRuns(c, s);
        }
      }
    }
  }
}
