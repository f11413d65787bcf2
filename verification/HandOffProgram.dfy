/** The two threads of mutex3.c acting on their shared variables in place, one atomic step a call. */
module HandOffProgram {
  import opened HandOff

  class Program {
    const limits: Limits

    // the globals of mutex3.c
    var count: int
    var countMutex: Owner
    var condMutex: Owner

    // where the threads are, and the copies of count they work on
    var pc1: Pc1
    var pc2: Pc2
    var reg1: int
    var reg2: int

    // the output
    var greeting: seq<int>
    var log: seq<Entry>

    function Value(): State
      reads this
    {
      State(count, countMutex, condMutex, pc1, pc2, reg1, reg2, greeting, log)
    }

    constructor (limits: Limits)
      ensures this.limits == limits
      ensures Init(Value())
    {
      this.limits := limits;
      count := 0;
      countMutex, condMutex := Nobody, Nobody;
      pc1, pc2 := Pc1.Greet, Pc2.GuardLow;
      reg1, reg2 := 0, 0;
      greeting, log := [], [];
    }

    method FunctionCount1()
      modifies this
      ensures Value() == Next(limits, old(Value()), Run1)
    {
      match pc1 {
        case Greet =>
          greeting := greeting + [count];
          pc1 := Pc1.Lock;
        case Lock =>
          if countMutex == Nobody {
            countMutex := HeldBy(One);
            pc1 := Pc1.Load;
          }
        case Load =>
          reg1 := count;
          pc1 := Pc1.Store;
        case Store =>
          count := reg1 + 1;
          pc1 := Pc1.Print;
        case Print =>
          log := log + [Entry(One, reg1 + 1)];
          pc1 := Pc1.Unlock;
        case Unlock =>
          countMutex := Nobody;
          pc1 := Pc1.CondLock;
        case CondLock =>
          if condMutex == Nobody {
            condMutex := HeldBy(One);
            pc1 := TestLow;
          }
        case TestLow =>
          pc1 := if count >= limits.halt1 then TestHigh else Pc1.CondUnlock;
        case TestHigh =>
          pc1 := if count <= limits.halt2 then Wait else Pc1.CondUnlock;
        case Wait =>
          condMutex := Nobody;
          pc1 := Asleep;
        case Asleep =>
        case Relock =>
          if condMutex == Nobody {
            condMutex := HeldBy(One);
            pc1 := Pc1.CondUnlock;
          }
        case CondUnlock =>
          condMutex := Nobody;
          pc1 := Pc1.TestDone;
        case TestDone =>
          pc1 := if count >= limits.done then Pc1.Exit else Pc1.Lock;
        case Exit =>
      }
    }

    method FunctionCount2()
      modifies this
      ensures Value() == Next(limits, old(Value()), Run2)
    {
      match pc2 {
        case GuardLow =>
          pc2 := if count >= limits.halt1 then GuardHigh else Pc2.CondLock;
        case GuardHigh =>
          pc2 := if count <= limits.halt2 then Pc2.Lock else Pc2.CondLock;
        case Lock =>
          if countMutex == Nobody {
            countMutex := HeldBy(Two);
            pc2 := Pc2.Load;
          }
        case Load =>
          reg2 := count;
          pc2 := Pc2.Store;
        case Store =>
          count := reg2 + 1;
          pc2 := Pc2.Print;
        case Print =>
          log := log + [Entry(Two, count)];
          pc2 := Pc2.Unlock;
        case Unlock =>
          countMutex := Nobody;
          pc2 := Pc2.CondLock;
        case CondLock =>
          if condMutex == Nobody {
            condMutex := HeldBy(Two);
            pc2 := SignalLow;
          }
        case SignalLow =>
          pc2 := if count < limits.halt1 then Signal else SignalHigh;
        case SignalHigh =>
          pc2 := if count > limits.halt2 then Signal else Pc2.CondUnlock;
        case Signal =>
          if pc1 == Asleep {
            pc1 := Relock;
          }
          pc2 := Pc2.CondUnlock;
        case CondUnlock =>
          condMutex := Nobody;
          pc2 := Pc2.TestDone;
        case TestDone =>
          pc2 := if count >= limits.done then Pc2.Exit else GuardLow;
        case Exit =>
      }
    }

    /** Any interleaving from the start prints what HandOffHolds promises. */
    method Run(schedule: seq<Tick>)
      requires limits.Proper() && Init(Value()) && Spurious !in schedule
      modifies this
      ensures Value() == Exec(limits, old(Value()), schedule)
      ensures Divided(limits, log)
      ensures pc1.Exit? && pc2.Exit? ==> |log| == count == limits.done
    {
      ghost var start := Value();
      for i := 0 to |schedule|
        invariant Value() == Exec(limits, start, schedule[..i])
      {
        match schedule[i] {
          case Run1 => FunctionCount1();
          case Run2 => FunctionCount2();
        }
        ExecAppend(limits, start, schedule[..i], [schedule[i]]);
        assert schedule[..i] + [schedule[i]] == schedule[..i + 1];
      }
      assert schedule[..|schedule|] == schedule;
      HandOffHolds(limits, start, schedule);
    }
  }
}
