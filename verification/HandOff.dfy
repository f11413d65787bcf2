/**
 * The counter hand-off of linux_c_development/homework11/mutex/mutex3.c: two threads
 * increment one counter under one mutex, test it outside that mutex, and sleep and wake
 * through a second mutex and a condition variable.
 *
 * Every lock operation and every shared load or store is one atomic step.  A run is driven
 * by a schedule, so a statement about every schedule is a statement about every interleaving.
 */
module HandOff {

  /** COUNT_HALT1, COUNT_HALT2 and COUNT_DONE. */
  datatype Limits = Limits(halt1: nat, halt2: nat, done: nat) {
    predicate Proper() {
      1 <= halt1 <= halt2 < done
    }

    /** The thread that the homework comment makes responsible for printing `value`. */
    function Author(value: int): Thread {
      if halt1 < value <= halt2 + 1 then Two else One
    }
  }

  datatype Thread = One | Two

  datatype Owner = Nobody | HeldBy(thread: Thread)

  /** functionCount1; `Asleep` is inside pthread_cond_wait, `Relock` is woken but without the mutex. */
  datatype Pc1 =
    | Greet | Lock | Load | Store | Print | Unlock
    | CondLock | TestLow | TestHigh | Wait | Asleep | Relock | CondUnlock
    | TestDone | Exit

  /** functionCount2. */
  datatype Pc2 =
    | GuardLow | GuardHigh | Lock | Load | Store | Print | Unlock
    | CondLock | SignalLow | SignalHigh | Signal | CondUnlock
    | TestDone | Exit

  /** One line of output that shows an incremented value. */
  datatype Entry = Entry(thread: Thread, value: int)

  datatype State = State(
    count: int,
    countMutex: Owner,
    condMutex: Owner,
    pc1: Pc1,
    pc2: Pc2,
    reg1: int,
    reg2: int,
    greeting: seq<int>,
    log: seq<Entry>)

  /** `Spurious` lets pthread_cond_wait return without a signal. */
  datatype Tick = Run1 | Run2 | Spurious

  predicate Init(s: State) {
    && s.count == 0
    && s.countMutex == s.condMutex == Nobody
    && s.pc1.Greet?
    && s.pc2.GuardLow?
    && s.greeting == []
    && s.log == []
  }

  // ----- The program -----

  lemma Owners(o: Owner)
    ensures o == Nobody || o == HeldBy(One) || o == HeldBy(Two)
  {
    match o {
      case Nobody =>
      case HeldBy(t) => match t { case One => case Two => }
    }
  }

  predicate Ready1(s: State) {
    match s.pc1
    case Lock => s.countMutex == Nobody
    case CondLock => s.condMutex == Nobody
    case Relock => s.condMutex == Nobody
    case Asleep => false
    case Exit => false
    case _ => true
  }

  predicate Ready2(s: State) {
    match s.pc2
    case Lock => s.countMutex == Nobody
    case CondLock => s.condMutex == Nobody
    case Exit => false
    case _ => true
  }

  function Step1(k: Limits, s: State): State {
    match s.pc1
    case Greet => s.(greeting := s.greeting + [s.count], pc1 := Pc1.Lock)
    case Lock => s.(countMutex := HeldBy(One), pc1 := Pc1.Load)
    case Load => s.(reg1 := s.count, pc1 := Pc1.Store)
    case Store => s.(count := s.reg1 + 1, pc1 := Pc1.Print)
    case Print => s.(log := s.log + [Entry(One, s.reg1 + 1)], pc1 := Pc1.Unlock)
    case Unlock => s.(countMutex := Nobody, pc1 := Pc1.CondLock)
    case CondLock => s.(condMutex := HeldBy(One), pc1 := TestLow)
    case TestLow => s.(pc1 := if s.count >= k.halt1 then TestHigh else Pc1.CondUnlock)
    case TestHigh => s.(pc1 := if s.count <= k.halt2 then Wait else Pc1.CondUnlock)
    case Wait => s.(condMutex := Nobody, pc1 := Asleep)
    case Asleep => s
    case Relock => s.(condMutex := HeldBy(One), pc1 := Pc1.CondUnlock)
    case CondUnlock => s.(condMutex := Nobody, pc1 := Pc1.TestDone)
    case TestDone => s.(pc1 := if s.count >= k.done then Pc1.Exit else Pc1.Lock)
    case Exit => s
  }

  function Step2(k: Limits, s: State): State {
    match s.pc2
    case GuardLow => s.(pc2 := if s.count >= k.halt1 then GuardHigh else Pc2.CondLock)
    case GuardHigh => s.(pc2 := if s.count <= k.halt2 then Pc2.Lock else Pc2.CondLock)
    case Lock => s.(countMutex := HeldBy(Two), pc2 := Pc2.Load)
    case Load => s.(reg2 := s.count, pc2 := Pc2.Store)
    case Store => s.(count := s.reg2 + 1, pc2 := Pc2.Print)
    case Print => s.(log := s.log + [Entry(Two, s.count)], pc2 := Pc2.Unlock)
    case Unlock => s.(countMutex := Nobody, pc2 := Pc2.CondLock)
    case CondLock => s.(condMutex := HeldBy(Two), pc2 := SignalLow)
    case SignalLow => s.(pc2 := if s.count < k.halt1 then Signal else SignalHigh)
    case SignalHigh => s.(pc2 := if s.count > k.halt2 then Signal else Pc2.CondUnlock)
    case Signal => s.(pc1 := if s.pc1 == Asleep then Relock else s.pc1, pc2 := Pc2.CondUnlock)
    case CondUnlock => s.(condMutex := Nobody, pc2 := Pc2.TestDone)
    case TestDone => s.(pc2 := if s.count >= k.done then Pc2.Exit else GuardLow)
    case Exit => s
  }

  /** A blocked thread that is scheduled does nothing. */
  function Next(k: Limits, s: State, t: Tick): State {
    match t
    case Run1 => if Ready1(s) then Step1(k, s) else s
    case Run2 => if Ready2(s) then Step2(k, s) else s
    case Spurious => if s.pc1 == Asleep then s.(pc1 := Relock) else s
  }

  function Exec(k: Limits, s: State, schedule: seq<Tick>): State
    decreases |schedule|
  {
    if schedule == [] then s else Exec(k, Next(k, s, schedule[0]), schedule[1..])
  }

  lemma {:induction false} ExecAppend(k: Limits, s: State, a: seq<Tick>, b: seq<Tick>)
    ensures Exec(k, s, a + b) == Exec(k, Exec(k, s, a), b)
    decreases |a|
  {
    if a == [] {
      assert a + b == b;
    } else {
      assert (a + b)[1..] == a[1..] + b;
      ExecAppend(k, Next(k, s, a[0]), a[1..], b);
    }
  }

  function Times(t: Tick, n: nat): (r: seq<Tick>)
    ensures |r| == n
  {
    seq(n, _ => t)
  }

  function Iter(k: Limits, s: State, t: Tick, n: nat): State
    decreases n
  {
    if n == 0 then s else Iter(k, Next(k, s, t), t, n - 1)
  }

  lemma {:induction false} ExecIter(k: Limits, s: State, t: Tick, n: nat)
    ensures Exec(k, s, Times(t, n)) == Iter(k, s, t, n)
    decreases n
  {
    if n > 0 {
      assert Times(t, n)[1..] == Times(t, n - 1);
      ExecIter(k, Next(k, s, t), t, n - 1);
    }
  }

  // ----- What holds in every run, spurious wakeups included -----

  predicate HoldsCount1(s: State) { s.pc1.Load? || s.pc1.Store? || s.pc1.Print? || s.pc1.Unlock? }
  predicate HoldsCount2(s: State) { s.pc2.Load? || s.pc2.Store? || s.pc2.Print? || s.pc2.Unlock? }
  predicate HoldsCond1(s: State) { s.pc1.TestLow? || s.pc1.TestHigh? || s.pc1.Wait? || s.pc1.CondUnlock? }
  predicate HoldsCond2(s: State) { s.pc2.SignalLow? || s.pc2.SignalHigh? || s.pc2.Signal? || s.pc2.CondUnlock? }

  /** The thread has decided to increment and has not stored yet. */
  predicate Pending1(s: State) { s.pc1.Greet? || s.pc1.Lock? || s.pc1.Load? || s.pc1.Store? }
  predicate Pending2(s: State) { s.pc2.Lock? || s.pc2.Load? || s.pc2.Store? }

  function Bit(b: bool): int { if b then 1 else 0 }

  predicate MutexInv(s: State) {
    && (s.countMutex == HeldBy(One) <==> HoldsCount1(s))
    && (s.countMutex == HeldBy(Two) <==> HoldsCount2(s))
    && (s.condMutex == HeldBy(One) <==> HoldsCond1(s))
    && (s.condMutex == HeldBy(Two) <==> HoldsCond2(s))
  }

  /** What the registers and the last test of each thread still say about the counter. */
  predicate RegisterInv(k: Limits, s: State) {
    && (s.pc1.Store? ==> s.reg1 == s.count)
    && (s.pc1.Print? ==> s.reg1 + 1 == s.count)
    && (s.pc2.Store? ==> s.reg2 == s.count)
    && (s.pc2.GuardHigh? || Pending2(s) || s.pc2.Print? ==> s.count >= k.halt1)
    && (s.pc1.TestHigh? || s.pc1.Wait? || s.pc1.Asleep? ==> s.count >= k.halt1)
    && s.count + Bit(Pending1(s)) + Bit(Pending2(s)) <= k.done + 1
    && (s.pc1.Greet? ==> s.count == 0)
    && (s.pc1.Exit? ==> s.count >= k.done)
    && (s.pc2.Exit? ==> s.count >= k.done)
  }

  /** The printed values are 1, 2, 3, ... without a gap or a repetition. */
  predicate LogInv(s: State) {
    && |s.log| == s.count - Bit(s.pc1.Print? || s.pc2.Print?)
    && (forall i :: 0 <= i < |s.log| ==> s.log[i].value == i + 1)
    && s.greeting == (if s.pc1.Greet? then [] else [0])
  }

  predicate CounterInv(k: Limits, s: State) {
    MutexInv(s) && RegisterInv(k, s) && LogInv(s)
  }

  lemma MutexStep(k: Limits, s: State, t: Tick)
    requires MutexInv(s)
    ensures MutexInv(Next(k, s, t))
  {
  }

  lemma RegisterStep(k: Limits, s: State, t: Tick)
    requires k.Proper() && MutexInv(s) && RegisterInv(k, s)
    ensures RegisterInv(k, Next(k, s, t))
  {
  }

  lemma LogStep(k: Limits, s: State, t: Tick)
    requires k.Proper() && MutexInv(s) && RegisterInv(k, s) && LogInv(s)
    ensures LogInv(Next(k, s, t))
  {
  }

  lemma CounterStep(k: Limits, s: State, t: Tick)
    requires k.Proper() && CounterInv(k, s)
    ensures CounterInv(k, Next(k, s, t))
  {
    MutexStep(k, s, t);
    RegisterStep(k, s, t);
    LogStep(k, s, t);
  }

  lemma {:induction false} CounterRun(k: Limits, s: State, schedule: seq<Tick>)
    requires k.Proper() && CounterInv(k, s)
    ensures CounterInv(k, Exec(k, s, schedule))
    decreases |schedule|
  {
    if schedule != [] {
      CounterStep(k, s, schedule[0]);
      CounterRun(k, Next(k, s, schedule[0]), schedule[1..]);
    }
  }

  // ----- The hand-off -----

  /** The counter once a store that thread 2 is committed to, under the mutex, has happened. */
  function Settled(s: State): int { s.count + Bit(s.pc2.Load? || s.pc2.Store?) }

  /** Thread 1 has passed its sleeping test and is on the way to its next increment or exit. */
  predicate Cleared1(s: State) { s.pc1.Relock? || s.pc1.CondUnlock? || s.pc1.TestDone? }

  predicate AboutToSignal(s: State) {
    s.pc2.Print? || s.pc2.Unlock? || s.pc2.CondLock? || s.pc2.SignalLow? || s.pc2.SignalHigh? || s.pc2.Signal?
  }

  /** The output shows 1, 2, ... up to DONE at most, each value printed by its author. */
  predicate Divided(k: Limits, log: seq<Entry>) {
    && |log| <= k.done
    && forall i :: 0 <= i < |log| ==> log[i] == Entry(k.Author(i + 1), i + 1)
  }

  /** Neither thread decides to increment while it is the other's share. */
  predicate GateInv(k: Limits, s: State) {
    && (Cleared1(s) || Pending1(s) ==> s.count < k.halt1 || Settled(s) > k.halt2)
    && (Pending1(s) ==> Settled(s) < k.done)
    && (Cleared1(s) && k.halt1 <= s.count <= k.halt2 ==> k.halt2 + 1 < k.done)
    && (Pending2(s) ==> s.count <= k.halt2)
  }

  /** No lost wakeup: once the counter is past HALT2, a signal for a sleeping thread 1 is on its way. */
  predicate SleepInv(k: Limits, s: State) {
    && ((s.pc1.Wait? || s.pc1.Asleep?) && s.count > k.halt2 ==> AboutToSignal(s))
    && (s.pc1.Asleep? && s.pc2.Signal? ==> s.count > k.halt2)
  }

  predicate ShareInv(k: Limits, s: State) {
    && s.count <= k.done
    && (s.pc1.Print? ==> k.Author(s.count) == One)
    && (s.pc2.Print? ==> k.Author(s.count) == Two)
  }

  predicate HandOffInv(k: Limits, s: State) {
    CounterInv(k, s) && GateInv(k, s) && SleepInv(k, s) && ShareInv(k, s) && Divided(k, s.log)
  }

  /** The wakeups without a signal that can break the hand-off. */
  predicate Harmful(k: Limits, s: State) {
    s.pc1.Asleep? && (Settled(s) <= k.halt2 || (s.count <= k.halt2 && k.done == k.halt2 + 1))
  }

  lemma GateStep(k: Limits, s: State, t: Tick)
    requires k.Proper() && MutexInv(s) && RegisterInv(k, s) && GateInv(k, s) && SleepInv(k, s)
    requires t == Spurious ==> !Harmful(k, s)
    ensures GateInv(k, Next(k, s, t))
  {
  }

  lemma SleepStep(k: Limits, s: State, t: Tick)
    requires k.Proper() && MutexInv(s) && RegisterInv(k, s) && SleepInv(k, s)
    ensures SleepInv(k, Next(k, s, t))
  {
  }

  lemma ShareStep(k: Limits, s: State, t: Tick)
    requires k.Proper() && MutexInv(s) && RegisterInv(k, s) && GateInv(k, s) && ShareInv(k, s)
    ensures ShareInv(k, Next(k, s, t))
  {
  }

  lemma DividedStep(k: Limits, s: State, t: Tick)
    requires k.Proper() && CounterInv(k, s) && ShareInv(k, s) && Divided(k, s.log)
    ensures Divided(k, Next(k, s, t).log)
  {
    if t == Run1 && s.pc1.Print? {
      assert Next(k, s, t).log == s.log + [Entry(One, s.count)];
    } else if t == Run2 && s.pc2.Print? {
      assert Next(k, s, t).log == s.log + [Entry(Two, s.count)];
    } else {
      assert Next(k, s, t).log == s.log;
    }
  }

  lemma HandOffStep(k: Limits, s: State, t: Tick)
    requires k.Proper() && HandOffInv(k, s)
    requires t == Spurious ==> !Harmful(k, s)
    ensures HandOffInv(k, Next(k, s, t))
  {
    CounterStep(k, s, t);
    GateStep(k, s, t);
    SleepStep(k, s, t);
    ShareStep(k, s, t);
    DividedStep(k, s, t);
  }

  /** The spurious wakeups of a run, if any, all come when they can do no harm. */
  predicate Harmless(k: Limits, s: State, schedule: seq<Tick>)
    decreases |schedule|
  {
    schedule == [] ||
    ((schedule[0] == Spurious ==> !Harmful(k, s)) && Harmless(k, Next(k, s, schedule[0]), schedule[1..]))
  }

  lemma {:induction false} NoneIsHarmless(k: Limits, s: State, schedule: seq<Tick>)
    requires Spurious !in schedule
    ensures Harmless(k, s, schedule)
    decreases |schedule|
  {
    if schedule != [] {
      NoneIsHarmless(k, Next(k, s, schedule[0]), schedule[1..]);
    }
  }

  lemma {:induction false} HandOffRun(k: Limits, s: State, schedule: seq<Tick>)
    requires k.Proper() && HandOffInv(k, s)
    requires Harmless(k, s, schedule)
    ensures HandOffInv(k, Exec(k, s, schedule))
    decreases |schedule|
  {
    if schedule != [] {
      HandOffStep(k, s, schedule[0]);
      HandOffRun(k, Next(k, s, schedule[0]), schedule[1..]);
    }
  }

  lemma InitInv(k: Limits, s: State)
    requires k.Proper() && Init(s)
    ensures HandOffInv(k, s)
  {
  }

  // ----- Main results: safety -----

  /** The counter is exact in every run, and overshoots by one at most: the "10, 11" of the source comment. */
  lemma CounterIsExact(k: Limits, s0: State, schedule: seq<Tick>)
    requires k.Proper() && Init(s0)
    ensures var s := Exec(k, s0, schedule);
      && (forall i :: 0 <= i < |s.log| ==> s.log[i].value == i + 1)
      && s.count <= k.done + 1
      && s.greeting <= [0]
      && (s.pc1.Exit? && s.pc2.Exit? ==> k.done <= |s.log| == s.count)
  {
    InitInv(k, s0);
    CounterRun(k, s0, schedule);
  }

  /**
   * Without spurious wakeups, or with harmless ones only, the output follows the division of labour
   * and ends exactly at DONE.
   */
  lemma HandOffHolds(k: Limits, s0: State, schedule: seq<Tick>)
    requires k.Proper() && Init(s0) && (Spurious !in schedule || Harmless(k, s0, schedule))
    ensures var s := Exec(k, s0, schedule);
      && Divided(k, s.log)
      && (s.pc1.Exit? && s.pc2.Exit? ==> |s.log| == s.count == k.done)
  {
    InitInv(k, s0);
    if Spurious !in schedule {
      NoneIsHarmless(k, s0, schedule);
    }
    HandOffRun(k, s0, schedule);
  }

  // ----- Main results: progress -----

  /** The steps thread 1 can still take, whatever thread 2 does. */
  function Work1(k: Limits, s: State): int {
    20 * (k.done + 1 - s.count) +
    match s.pc1
    case Print => 20
    case Unlock => 19
    case CondLock => 18
    case TestLow => 17
    case TestHigh => 16
    case Wait => 15
    case Asleep => 14
    case Relock => 13
    case CondUnlock => 12
    case TestDone => 11
    case Greet => 11
    case Lock => 10
    case Load => 9
    case Store => 8
    case Exit => 0
  }

  lemma Work1IsNat(k: Limits, s: State)
    requires RegisterInv(k, s)
    ensures Work1(k, s) >= 0
  {
  }

  lemma Work1Run1(k: Limits, s: State)
    requires RegisterInv(k, s) && Ready1(s)
    ensures Work1(k, Step1(k, s)) < Work1(k, s)
  {
  }

  lemma Work1Run2(k: Limits, s: State)
    requires RegisterInv(k, s)
    ensures Work1(k, Step2(k, s)) <= Work1(k, s)
  {
  }

  lemma Work1Step(k: Limits, s: State, t: Tick)
    requires k.Proper() && MutexInv(s) && RegisterInv(k, s)
    ensures 0 <= Work1(k, Next(k, s, t)) <= Work1(k, s)
    ensures t == Run1 && Ready1(s) ==> Work1(k, Next(k, s, t)) < Work1(k, s)
  {
    RegisterStep(k, s, t);
    Work1IsNat(k, Next(k, s, t));
    hide RegisterInv, MutexInv, Step1, Step2;
    match t {
      case Run1 => if Ready1(s) { Work1Run1(k, s); }
      case Run2 => Work1Run2(k, s);
      case Spurious =>
    }
  }

  /** How many steps thread 1 takes in a run. */
  function Moves1(k: Limits, s: State, schedule: seq<Tick>): nat
    decreases |schedule|
  {
    if schedule == [] then 0
    else
      (if schedule[0] == Run1 && Ready1(s) then 1 else 0)
      + Moves1(k, Next(k, s, schedule[0]), schedule[1..])
  }

  lemma {:induction false} Moves1Bounded(k: Limits, s: State, schedule: seq<Tick>)
    requires k.Proper() && CounterInv(k, s)
    ensures Moves1(k, s, schedule) + Work1(k, Exec(k, s, schedule)) <= Work1(k, s)
    ensures Work1(k, Exec(k, s, schedule)) >= 0
    decreases |schedule|
  {
    if schedule == [] {
      Work1Step(k, s, Run2);
    } else {
      Work1Step(k, s, schedule[0]);
      CounterStep(k, s, schedule[0]);
      Moves1Bounded(k, Next(k, s, schedule[0]), schedule[1..]);
    }
  }

  /** Thread 1 takes a bounded number of steps in every run, however it is scheduled or woken. */
  lemma Thread1IsBounded(k: Limits, s0: State, schedule: seq<Tick>)
    requires k.Proper() && Init(s0)
    ensures Moves1(k, s0, schedule) <= 20 * (k.done + 1) + 11
  {
    InitInv(k, s0);
    Moves1Bounded(k, s0, schedule);
  }

  /** How long thread 2 needs, on its own, to let a blocked thread 1 go on. */
  function Rank2(k: Limits, s: State): nat {
    (if s.count <= k.halt2 then 20 * (k.halt2 + 1 - s.count) else 0) +
    match s.pc2
    case Print => 14
    case Unlock => 13
    case CondLock => 12
    case SignalLow => 11
    case SignalHigh => 10
    case Signal => 9
    case CondUnlock => 8
    case TestDone => 7
    case GuardLow => 6
    case GuardHigh => 5
    case Lock => 4
    case Load => 3
    case Store => 2
    case Exit => 0
  }

  lemma BlockedStep(k: Limits, s: State)
    requires k.Proper() && HandOffInv(k, s)
    requires !Ready1(s) && !s.pc1.Exit?
    ensures Ready2(s)
    ensures Rank2(k, Next(k, s, Run2)) < Rank2(k, s)
    ensures Next(k, s, Run2).pc1 == s.pc1 || Ready1(Next(k, s, Run2)) || Next(k, s, Run2).pc1.Relock?
  {
    Owners(s.countMutex);
    Owners(s.condMutex);
  }

  lemma {:induction false} BlockedIsReleased(k: Limits, s: State) returns (n: nat)
    requires k.Proper() && HandOffInv(k, s)
    requires !s.pc1.Exit?
    ensures n <= Rank2(k, s)
    ensures Ready1(Iter(k, s, Run2, n))
    decreases Rank2(k, s)
  {
    if Ready1(s) {
      n := 0;
    } else {
      BlockedStep(k, s);
      HandOffStep(k, s, Run2);
      var m := BlockedIsReleased(k, Next(k, s, Run2));
      n := m + 1;
    }
  }

  /** No deadlock and no lost wakeup: thread 2 alone lets a blocked or sleeping thread 1 go on, in bounded time. */
  lemma NoLostWakeup(k: Limits, s0: State, schedule: seq<Tick>) returns (n: nat)
    requires k.Proper() && Init(s0) && Harmless(k, s0, schedule)
    ensures n <= 20 * k.halt2 + 34
    ensures var s := Exec(k, s0, schedule); s.pc1.Exit? || Ready1(Iter(k, s, Run2, n))
  {
    InitInv(k, s0);
    HandOffRun(k, s0, schedule);
    var s := Exec(k, s0, schedule);
    if s.pc1.Exit? {
      n := 0;
    } else {
      n := BlockedIsReleased(k, s);
      assert s.count >= 0;
    }
  }

  function ExitRank2(s: State): nat {
    match s.pc2
    case Exit => 0
    case TestDone => 1
    case CondUnlock => 2
    case Signal => 3
    case SignalHigh => 4
    case SignalLow => 5
    case CondLock => 6
    case GuardHigh => 7
    case GuardLow => 8
    case Unlock => 9
    case Print => 10
    case _ => 11
  }

  lemma ExitStep(k: Limits, s: State)
    requires k.Proper() && HandOffInv(k, s)
    requires s.pc1.Exit? && !s.pc2.Exit?
    ensures Ready2(s) && ExitRank2(Next(k, s, Run2)) < ExitRank2(s)
    ensures Next(k, s, Run2).pc1.Exit?
  {
    Owners(s.countMutex);
    Owners(s.condMutex);
  }

  lemma {:induction false} CanFinish(k: Limits, s: State) returns (schedule: seq<Tick>)
    requires k.Proper() && HandOffInv(k, s)
    ensures Spurious !in schedule
    ensures var e := Exec(k, s, schedule);
      e.pc1.Exit? && e.pc2.Exit? && e.count == k.done && Divided(k, e.log) && |e.log| == k.done
    decreases Work1(k, s), if s.pc1.Exit? then ExitRank2(s) else if Ready1(s) then 0 else Rank2(k, s) + 1
  {
    if s.pc1.Exit? && s.pc2.Exit? {
      schedule := [];
    } else {
      var t := if Ready1(s) then Run1 else Run2;
      Work1Step(k, s, t);
      if s.pc1.Exit? {
        ExitStep(k, s);
      } else if !Ready1(s) {
        BlockedStep(k, s);
      }
      HandOffStep(k, s, t);
      var rest := CanFinish(k, Next(k, s, t));
      schedule := [t] + rest;
      assert schedule[1..] == rest;
    }
  }

  /** From every state of every run both threads can still exit, and then everything is printed. */
  lemma EveryRunCanFinish(k: Limits, s0: State, schedule: seq<Tick>) returns (rest: seq<Tick>)
    requires k.Proper() && Init(s0) && Harmless(k, s0, schedule)
    ensures Spurious !in rest
    ensures var e := Exec(k, s0, schedule + rest); e.pc1.Exit? && e.pc2.Exit? && e.count == k.done && |e.log| == k.done
  {
    InitInv(k, s0);
    HandOffRun(k, s0, schedule);
    rest := CanFinish(k, Exec(k, s0, schedule));
    ExecAppend(k, s0, schedule, rest);
  }

  /** How often thread 1 goes to sleep in a run. */
  function Sleeps(k: Limits, s: State, schedule: seq<Tick>): nat
    decreases |schedule|
  {
    if schedule == [] then 0
    else
      (if schedule[0] == Run1 && s.pc1.Wait? then 1 else 0)
      + Sleeps(k, Next(k, s, schedule[0]), schedule[1..])
  }

  predicate PastSleep(k: Limits, s: State) { s.pc1.Asleep? || (s.count > k.halt2 && !s.pc1.Wait?) }

  lemma PastSleepStep(k: Limits, s: State, t: Tick)
    requires MutexInv(s) && RegisterInv(k, s) && SleepInv(k, s) && PastSleep(k, s) && t != Spurious
    ensures PastSleep(k, Next(k, s, t))
  {
  }

  lemma {:induction false} NoSleepAfterSleep(k: Limits, s: State, schedule: seq<Tick>)
    requires k.Proper() && HandOffInv(k, s) && Spurious !in schedule
    requires PastSleep(k, s)
    ensures Sleeps(k, s, schedule) == 0
    decreases |schedule|
  {
    if schedule != [] {
      HandOffStep(k, s, schedule[0]);
      PastSleepStep(k, s, schedule[0]);
      hide HandOffInv, Next;
      NoSleepAfterSleep(k, Next(k, s, schedule[0]), schedule[1..]);
    }
  }

  /** Without spurious wakeups thread 1 sleeps at most once: the signal that wakes it is final. */
  lemma {:induction false} SleepsAtMostOnce(k: Limits, s: State, schedule: seq<Tick>)
    requires k.Proper() && HandOffInv(k, s) && Spurious !in schedule
    ensures Sleeps(k, s, schedule) <= 1
    decreases |schedule|
  {
    if schedule != [] {
      HandOffStep(k, s, schedule[0]);
      if schedule[0] == Run1 && s.pc1.Wait? {
        NoSleepAfterSleep(k, Next(k, s, Run1), schedule[1..]);
      } else {
        SleepsAtMostOnce(k, Next(k, s, schedule[0]), schedule[1..]);
      }
    }
  }

  // ----- Main results: nothing is skipped in a round -----

  /** With this step thread 1 leaves `p`. */
  predicate Does1(s: State, t: Tick, p: Pc1) { t == Run1 && Ready1(s) && s.pc1 == p }
  predicate Does2(s: State, t: Tick, p: Pc2) { t == Run2 && Ready2(s) && s.pc2 == p }

  /** How often thread 1 executes the statement at `p` in a run. */
  function Count1(k: Limits, s: State, schedule: seq<Tick>, p: Pc1): nat
    decreases |schedule|
  {
    if schedule == [] then 0
    else (if Does1(s, schedule[0], p) then 1 else 0) + Count1(k, Next(k, s, schedule[0]), schedule[1..], p)
  }

  function Count2(k: Limits, s: State, schedule: seq<Tick>, p: Pc2): nat
    decreases |schedule|
  {
    if schedule == [] then 0
    else (if Does2(s, schedule[0], p) then 1 else 0) + Count2(k, Next(k, s, schedule[0]), schedule[1..], p)
  }

  /** With this step thread 2, under the condition mutex, finds the counter out of the range. */
  predicate FindsOutside(k: Limits, s: State, t: Tick) {
    t == Run2 && ((s.pc2.SignalLow? && s.count < k.halt1) || (s.pc2.SignalHigh? && s.count > k.halt2))
  }

  function CountOutside(k: Limits, s: State, schedule: seq<Tick>): nat
    decreases |schedule|
  {
    if schedule == [] then 0
    else (if FindsOutside(k, s, schedule[0]) then 1 else 0) + CountOutside(k, Next(k, s, schedule[0]), schedule[1..])
  }

  /** Thread 1 has incremented and not tested yet, or has tested and not decided about its exit. */
  predicate Untested1(s: State) { s.pc1.Print? || s.pc1.Unlock? || s.pc1.CondLock? || s.pc1.TestLow? }
  predicate Undecided1(s: State) {
    s.pc1.TestHigh? || s.pc1.Wait? || s.pc1.Asleep? || s.pc1.Relock? || s.pc1.CondUnlock? || s.pc1.TestDone?
  }

  predicate Untested2(s: State) {
    s.pc2.GuardHigh? || Pending2(s) || s.pc2.Print? || s.pc2.Unlock? || s.pc2.CondLock? || s.pc2.SignalLow?
  }
  predicate Undecided2(s: State) { s.pc2.SignalHigh? || s.pc2.Signal? || s.pc2.CondUnlock? || s.pc2.TestDone? }

  lemma RoundStep1(k: Limits, s: State, t: Tick)
    ensures var s' := Next(k, s, t);
      && Bit(Does1(s, t, Pc1.Store)) + Bit(Untested1(s)) == Bit(Does1(s, t, TestLow)) + Bit(Untested1(s'))
      && Bit(Does1(s, t, TestLow)) + Bit(Undecided1(s)) == Bit(Does1(s, t, Pc1.TestDone)) + Bit(Undecided1(s'))
  {
  }

  lemma RoundStep2(k: Limits, s: State, t: Tick)
    ensures var s' := Next(k, s, t);
      && Bit(Does2(s, t, GuardLow)) + Bit(Untested2(s)) == Bit(Does2(s, t, SignalLow)) + Bit(Untested2(s'))
      && Bit(Does2(s, t, SignalLow)) + Bit(Undecided2(s)) == Bit(Does2(s, t, Pc2.TestDone)) + Bit(Undecided2(s'))
      && Bit(FindsOutside(k, s, t)) + Bit(s.pc2.Signal?) == Bit(Does2(s, t, Signal)) + Bit(s'.pc2.Signal?)
  {
  }

  lemma {:induction false} RoundRun1(k: Limits, s: State, schedule: seq<Tick>)
    ensures var e := Exec(k, s, schedule);
      && Count1(k, s, schedule, Pc1.Store) + Bit(Untested1(s)) == Count1(k, s, schedule, TestLow) + Bit(Untested1(e))
      && Count1(k, s, schedule, TestLow) + Bit(Undecided1(s)) == Count1(k, s, schedule, Pc1.TestDone) + Bit(Undecided1(e))
    decreases |schedule|
  {
    hide Does1, Next, Untested1, Undecided1;
    if schedule != [] {
      RoundStep1(k, s, schedule[0]);
      RoundRun1(k, Next(k, s, schedule[0]), schedule[1..]);
    }
  }

  lemma {:induction false} RoundRun2(k: Limits, s: State, schedule: seq<Tick>)
    ensures var e := Exec(k, s, schedule);
      && Count2(k, s, schedule, GuardLow) + Bit(Untested2(s)) == Count2(k, s, schedule, SignalLow) + Bit(Untested2(e))
      && Count2(k, s, schedule, SignalLow) + Bit(Undecided2(s)) == Count2(k, s, schedule, Pc2.TestDone) + Bit(Undecided2(e))
      && CountOutside(k, s, schedule) + Bit(s.pc2.Signal?) == Count2(k, s, schedule, Signal) + Bit(e.pc2.Signal?)
    decreases |schedule|
  {
    hide Does2, Next, Untested2, Undecided2, FindsOutside;
    if schedule != [] {
      RoundStep2(k, s, schedule[0]);
      RoundRun2(k, Next(k, s, schedule[0]), schedule[1..]);
    }
  }

  /** In every run thread 1 tests the range once for each increment, and its exit once for each test. */
  lemma Thread1SkipsNothing(k: Limits, s0: State, schedule: seq<Tick>)
    requires Init(s0)
    ensures var e := Exec(k, s0, schedule);
      && Count1(k, s0, schedule, Pc1.Store) == Count1(k, s0, schedule, TestLow) + Bit(Untested1(e))
      && Count1(k, s0, schedule, TestLow) == Count1(k, s0, schedule, Pc1.TestDone) + Bit(Undecided1(e))
  {
    RoundRun1(k, s0, schedule);
  }

  /**
   * In every run thread 2 tests the range under the condition mutex once in each round, its exit once
   * for each test, and signals exactly as often as a test finds the counter outside the range.
   */
  lemma Thread2SkipsNothing(k: Limits, s0: State, schedule: seq<Tick>)
    requires Init(s0)
    ensures var e := Exec(k, s0, schedule);
      && Count2(k, s0, schedule, GuardLow) == Count2(k, s0, schedule, SignalLow) + Bit(Untested2(e))
      && Count2(k, s0, schedule, SignalLow) == Count2(k, s0, schedule, Pc2.TestDone) + Bit(Undecided2(e))
      && CountOutside(k, s0, schedule) == Count2(k, s0, schedule, Signal) + Bit(e.pc2.Signal?)
  {
    RoundRun2(k, s0, schedule);
  }

  // ----- Main results: which spurious wakeups break the hand-off -----

  lemma {:induction false} Thread2Releases(k: Limits, s: State) returns (n: nat)
    requires k.Proper() && CounterInv(k, s)
    requires s.pc1.Relock? || s.pc1.Lock?
    ensures var e := Iter(k, s, Run2, n);
      CounterInv(k, e) && e.countMutex == e.condMutex == Nobody && e.pc1 == s.pc1 && e.count == Settled(s)
    decreases ReleaseRank(s)
  {
    if HoldsCount2(s) || HoldsCond2(s) {
      CounterStep(k, s, Run2);
      var m := Thread2Releases(k, Next(k, s, Run2));
      n := m + 1;
    } else {
      Owners(s.countMutex);
      Owners(s.condMutex);
      n := 0;
    }
  }

  function ReleaseRank(s: State): nat {
    match s.pc2
    case Load => 4
    case Store => 3
    case Print => 2
    case Unlock => 1
    case SignalLow => 4
    case SignalHigh => 3
    case Signal => 2
    case CondUnlock => 1
    case _ => 0
  }

  lemma Thread1Returns(k: Limits, s: State)
    requires s.pc1.Relock? && s.condMutex == Nobody && s.count < k.done
    ensures Iter(k, s, Run1, 3) == s.(pc1 := Pc1.Lock)
  {
  }

  lemma Thread1Increments(k: Limits, s: State)
    requires s.pc1.Lock? && s.countMutex == Nobody
    ensures Iter(k, s, Run1, 4).log == s.log + [Entry(One, s.count + 1)]
  {
  }

  /** Three parts of a schedule that ends with an increment of thread 1. */
  lemma IncrementLast(k: Limits, s: State, a: seq<Tick>, b: seq<Tick>) returns (schedule: seq<Tick>)
    requires Spurious !in a && Spurious !in b
    requires var e := Exec(k, Exec(k, s, a), b); e.pc1.Lock? && e.countMutex == Nobody
    ensures Spurious !in schedule
    ensures var e := Exec(k, Exec(k, s, a), b); Exec(k, s, schedule).log == e.log + [Entry(One, e.count + 1)]
  {
    hide Next;
    var e := Exec(k, Exec(k, s, a), b);
    Thread1Increments(k, e);
    ExecIter(k, e, Run1, 4);
    ExecAppend(k, s, a, b);
    ExecAppend(k, s, a + b, Times(Run1, 4));
    schedule := a + b + Times(Run1, 4);
  }

  /** Thread 2 finishes what it is doing, and thread 1 increments within thread 2's share. */
  lemma EarlyWakeupBreaks(k: Limits, s: State) returns (schedule: seq<Tick>)
    requires k.Proper() && CounterInv(k, s) && s.pc1.Relock? && k.halt1 <= s.count && Settled(s) <= k.halt2
    ensures Spurious !in schedule
    ensures !Divided(k, Exec(k, s, schedule).log)
  {
    var n := Thread2Releases(k, s);
    var s2 := Iter(k, s, Run2, n);
    Thread1Returns(k, s2);
    ExecIter(k, s, Run2, n);
    ExecIter(k, s2, Run1, 3);
    hide Next, Iter;
    schedule := IncrementLast(k, s, Times(Run2, n), Times(Run1, 3));
    assert Exec(k, s, schedule).log[|s2.log|] == Entry(One, s2.count + 1);
  }

  /** Thread 1 passes its exit test before thread 2's last increment, and increments beyond DONE. */
  lemma LateWakeupBreaks(k: Limits, s: State) returns (schedule: seq<Tick>)
    requires k.Proper() && CounterInv(k, s) && s.pc1.Relock? && s.condMutex == Nobody
    requires s.count < k.done && Settled(s) == k.done
    ensures Spurious !in schedule
    ensures !Divided(k, Exec(k, s, schedule).log)
  {
    Thread1Returns(k, s);
    var s2 := s.(pc1 := Pc1.Lock);
    assert CounterInv(k, s2);
    var n := Thread2Releases(k, s2);
    ExecIter(k, s, Run1, 3);
    ExecIter(k, s2, Run2, n);
    hide Next, Iter;
    schedule := IncrementLast(k, s, Times(Run1, 3), Times(Run2, n));
  }

  /** After a harmful wakeup some schedule breaks the division of labour, with no further spurious wakeup. */
  lemma HarmfulBreaks(k: Limits, s: State) returns (schedule: seq<Tick>)
    requires k.Proper() && HandOffInv(k, s) && Harmful(k, s)
    ensures Spurious !in schedule
    ensures !Divided(k, Exec(k, Next(k, s, Spurious), schedule).log)
  {
    var woken := Next(k, s, Spurious);
    CounterStep(k, s, Spurious);
    if Settled(s) <= k.halt2 {
      schedule := EarlyWakeupBreaks(k, woken);
    } else {
      Owners(woken.condMutex);
      schedule := LateWakeupBreaks(k, woken);
    }
  }

  lemma WakeupIsSafe(k: Limits, s: State)
    requires k.Proper() && HandOffInv(k, s)
    ensures (forall schedule | Spurious !in schedule :: Divided(k, Exec(k, Next(k, s, Spurious), schedule).log))
      <==> !Harmful(k, s)
  {
    if Harmful(k, s) {
      var bad := HarmfulBreaks(k, s);
    } else {
      HandOffStep(k, s, Spurious);
      forall schedule | Spurious !in schedule
        ensures Divided(k, Exec(k, Next(k, s, Spurious), schedule).log)
      {
        NoneIsHarmless(k, Next(k, s, Spurious), schedule);
        HandOffRun(k, Next(k, s, Spurious), schedule);
      }
    }
  }

  /** Exactly the harmful spurious wakeups endanger the hand-off, after any run that was harmless so far. */
  lemma SpuriousWakeups(k: Limits, s0: State, before: seq<Tick>)
    requires k.Proper() && Init(s0) && Harmless(k, s0, before)
    ensures var s := Exec(k, s0, before);
      (forall schedule | Spurious !in schedule :: Divided(k, Exec(k, Next(k, s, Spurious), schedule).log))
      <==> !Harmful(k, s)
  {
    InitInv(k, s0);
    HandOffRun(k, s0, before);
    WakeupIsSafe(k, Exec(k, s0, before));
  }

  // ----- The overshoot is real -----

  /** Both mutexes are free and thread 1 is at the head of its loop. */
  predicate AtHead(s: State) { s.pc1.Lock? && s.countMutex == s.condMutex == Nobody }

  lemma LoneIncrement(k: Limits, s: State)
    requires AtHead(s)
    ensures var e := Iter(k, s, Run1, 6);
      e.pc1.TestLow? && e.pc2 == s.pc2 && e.count == s.count + 1 && e.countMutex == Nobody && e.condMutex == HeldBy(One)
  {
  }

  /** From its first range test thread 1 gets through, woken without a signal if it goes to sleep. */
  lemma LoneTest(k: Limits, s: State) returns (schedule: seq<Tick>)
    requires s.pc1.TestLow? && s.condMutex == HeldBy(One)
    ensures Exec(k, s, schedule) == s.(condMutex := Nobody, pc1 := Pc1.TestDone)
  {
    if s.count < k.halt1 {
      schedule := Times(Run1, 2);
      ExecIter(k, s, Run1, 2);
    } else if s.count > k.halt2 {
      schedule := Times(Run1, 3);
      ExecIter(k, s, Run1, 3);
    } else {
      var asleep := Iter(k, s, Run1, 3);
      ExecIter(k, s, Run1, 3);
      var woken := Next(k, asleep, Spurious);
      ExecIter(k, woken, Run1, 2);
      ExecAppend(k, s, Times(Run1, 3), [Spurious] + Times(Run1, 2));
      assert ([Spurious] + Times(Run1, 2))[1..] == Times(Run1, 2);
      schedule := Times(Run1, 3) + ([Spurious] + Times(Run1, 2));
    }
  }

  lemma LoneRound(k: Limits, s: State) returns (schedule: seq<Tick>)
    requires AtHead(s)
    ensures var e := Exec(k, s, schedule);
      && e.countMutex == e.condMutex == Nobody
      && e.count == s.count + 1
      && e.pc1 == (if e.count < k.done then Pc1.Lock else Pc1.Exit)
      && e.pc2 == s.pc2
  {
    LoneIncrement(k, s);
    ExecIter(k, s, Run1, 6);
    var s1 := Iter(k, s, Run1, 6);
    var rest := LoneTest(k, s1);
    ExecAppend(k, s, Times(Run1, 6), rest);
    ExecAppend(k, s, Times(Run1, 6) + rest, [Run1]);
    schedule := Times(Run1, 6) + rest + [Run1];
  }

  /** Thread 1 alone can raise the counter to any `target` up to DONE. */
  lemma {:induction false} LoneRounds(k: Limits, s: State, target: int) returns (schedule: seq<Tick>)
    requires AtHead(s) && s.count < target <= k.done
    ensures var e := Exec(k, s, schedule);
      && e.countMutex == e.condMutex == Nobody
      && e.count == target
      && e.pc1 == (if target < k.done then Pc1.Lock else Pc1.Exit)
      && e.pc2 == s.pc2
    decreases target - s.count
  {
    schedule := LoneRound(k, s);
    if s.count + 1 < target {
      var rest := LoneRounds(k, Exec(k, s, schedule), target);
      ExecAppend(k, s, schedule, rest);
      schedule := schedule + rest;
    }
  }

  /** For all thresholds some run with spurious wakeups counts to DONE + 1, so the bound of CounterIsExact is tight. */
  lemma OvershootHappens(k: Limits, s0: State) returns (schedule: seq<Tick>)
    requires k.Proper() && Init(s0)
    ensures var e := Exec(k, s0, schedule); e.pc1.Exit? && e.pc2.Exit? && e.count == k.done + 1
  {
    var s1 := Next(k, s0, Run1);
    var up := LoneRounds(k, s1, k.halt1);
    var s2 := Exec(k, s1, up);
    ExecIter(k, s2, Run2, 2);
    var s3 := Iter(k, s2, Run2, 2);
    var on := LoneRounds(k, s3, k.done);
    var s4 := Exec(k, s3, on);
    StaleIncrement(k, s4);
    ExecIter(k, s4, Run2, 5);
    var s5 := Iter(k, s4, Run2, 5);
    StaleExit(k, s5);
    ExecIter(k, s5, Run2, 6);
    ExecAppend(k, s0, [Run1], up);
    ExecAppend(k, s0, [Run1] + up, Times(Run2, 2));
    ExecAppend(k, s0, [Run1] + up + Times(Run2, 2), on);
    ExecAppend(k, s0, [Run1] + up + Times(Run2, 2) + on, Times(Run2, 5));
    ExecAppend(k, s0, [Run1] + up + Times(Run2, 2) + on + Times(Run2, 5), Times(Run2, 6));
    schedule := [Run1] + up + Times(Run2, 2) + on + Times(Run2, 5) + Times(Run2, 6);
  }

  /** Thread 2 increments on the strength of a range test that is out of date ... */
  lemma StaleIncrement(k: Limits, s: State)
    requires s.pc2.Lock? && s.countMutex == Nobody
    ensures var e := Iter(k, s, Run2, 5);
      e.pc2.CondLock? && e.pc1 == s.pc1 && e.condMutex == s.condMutex && e.count == s.count + 1
  {
  }

  /** ... signals, and exits. */
  lemma StaleExit(k: Limits, s: State)
    requires k.Proper() && s.pc2.CondLock? && s.pc1.Exit? && s.condMutex == Nobody && s.count >= k.done
    ensures var e := Iter(k, s, Run2, 6); e.pc1.Exit? && e.pc2.Exit? && e.count == s.count
  {
    var s1 := Next(k, Next(k, s, Run2), Run2);
    assert s1.pc1.Exit? && (s1.pc2.SignalHigh? || s1.pc2.Signal?) && s1.count == s.count;
  }
}
