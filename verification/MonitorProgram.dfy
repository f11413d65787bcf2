/** The threads of the monitors acting on their shared variables in place, one atomic step a call. */
module MonitorProgram {
  import opened Rotation
  import opened Monitor

  class Program {
    const setup: Setup
    var turn: nat
    var owner: Owner
    var pc: seq<Pc>
    var count: seq<nat>
    var out: seq<nat>
    ghost var round: nat
    ghost var passed: nat

    ghost function Value(): State
      reads this
    {
      State(turn, owner, pc, count, out, round, passed)
    }

    constructor (setup: Setup)
      requires setup.threads > 0
      ensures this.setup == setup
      ensures Start(setup, Value())
    {
      this.setup := setup;
      turn := 0;
      owner := Nobody;
      pc := seq(setup.threads, _ => Head);
      count := seq(setup.threads, _ => 0);
      out := [];
      round, passed := 0, 0;
    }

    /** Thread `i` executes its next statement; `chosen` is the thread its signal wakes. */
    method FnThread(i: nat, chosen: nat)
      requires TurnInv(setup, Value()) && Enabled(setup, Value(), Run(i, chosen))
      modifies this
      ensures Value() == Step(setup, old(Value()), Run(i, chosen))
    {
      match pc[i] {
        case Head =>
          pc := pc[i := if count[i] < setup.times then Lock else Done];
        case Lock =>
          owner := HeldBy(i);
          pc := pc[i := Test];
        case Test =>
          pc := pc[i := if turn == i then Print else Park];
        case Park =>
          owner := Nobody;
          pc := pc[i := Asleep];
        case Relock =>
          owner := HeldBy(i);
          pc := pc[i := Test];
        case Print =>
          out := out + [i];
          pc := pc[i := Pass];
        case Pass =>
          if i + 1 < setup.threads {
            turn := i + 1;
          } else {
            turn := 0;
            round := round + 1;
          }
          passed := passed + 1;
          pc := pc[i := Notify];
        case Notify =>
          if setup.wake == Broadcast {
            WakeEveryone();
          } else if chosen < |pc| && pc[chosen] == Asleep {
            pc := pc[chosen := Relock];
          }
          pc := pc[i := Unlock];
        case Unlock =>
          owner := Nobody;
          pc := pc[i := Count];
        case Count =>
          count := count[i := count[i] + 1];
          pc := pc[i := Head];
        case Asleep =>
        case Done =>
      }
    }

    method WakeEveryone()
      modifies this`pc
      ensures pc == WakeAll(old(pc))
    {
      var was := pc;
      for j := 0 to |was|
        invariant |pc| == |was|
        invariant forall m :: 0 <= m < |was| ==> pc[m] == if m < j then WakeAll(was)[m] else was[m]
      {
        if pc[j] == Asleep {
          pc := pc[j := Relock];
        }
      }
    }

    predicate Movable(i: nat)
      reads this
    {
      && i < |pc|
      && pc[i] != Asleep
      && pc[i] != Done
      && (pc[i] == Lock || pc[i] == Relock ==> owner == Nobody)
    }

    /** An arbitrary thread that can move, and an arbitrary sleeper, if there is one. */
    method Pick() returns (i: nat, chosen: nat)
      requires exists who: nat :: Movable(who)
      ensures Enabled(setup, Value(), Run(i, chosen))
    {
      i :| i < |pc| && Movable(i);
      chosen := 0;
      if SomeAsleep(pc) {
        chosen :| chosen < |pc| && pc[chosen] == Asleep;
      }
      ghost var p := pc[i];
      assert p != Asleep && p != Done;
    }

    /** One step of an arbitrary thread. */
    method RunOne()
      requires Sound(setup) && TurnInv(setup, Value()) && AwakeInv(Value()) && !AllDone(Value())
      modifies this
      ensures TurnInv(setup, Value()) && AwakeInv(Value())
      ensures 0 <= Measure(setup, Value()) < old(Measure(setup, Value()))
    {
      ghost var before := Value();
      ghost var who, sleeper := SomeoneRuns(setup, before);
      assert Movable(who);
      var i, chosen := Pick();
      MeasureStep(setup, before, Run(i, chosen));
      TurnStep(setup, before, Run(i, chosen));
      AwakeStep(setup, before, Run(i, chosen));
      FnThread(i, chosen);
      MeasureIsNonNegative(setup, Value());
    }

    /**
     * Lets the scheduler pick any thread that can move, and any sleeper for a signal, until every
     * thread has exited: the program ends whatever it picks, and has printed (1 2 ... N)^K.
     */
    method RunToEnd()
      requires Sound(setup) && Start(setup, Value())
      modifies this
      ensures AllDone(Value())
      ensures out == Repeat(Cycle(setup.threads, setup.threads), setup.times)
    {
      StartInv(setup, Value());
      while exists i :: 0 <= i < |pc| && pc[i] != Done
        invariant TurnInv(setup, Value()) && AwakeInv(Value())
        decreases Measure(setup, Value())
      {
        RunOne();
      }
      DoneOutput(setup, Value());
    }
  }
}
