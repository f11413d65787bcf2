/** The kernel threads acting on their shared variables in place, one atomic step a call. */
module SpinTurnProgram {
  import opened Rotation
  import opened SpinTurn

  class Program {
    const setup: Setup
    var turn: nat
    var owner: Owner
    var pc: seq<Pc>
    var count: seq<nat>
    var out: seq<nat>
    ghost var round: nat
    ghost var passed: nat

    ghost function Value(): State
      reads this
    {
      State(turn, owner, pc, count, out, round, passed)
    }

    constructor (setup: Setup)
      requires setup.threads > 0
      ensures this.setup == setup
      ensures Start(setup, Value())
    {
      this.setup := setup;
      turn := 0;
      owner := Nobody;
      pc := seq(setup.threads, _ => Head);
      count := seq(setup.threads, _ => 0);
      out := [];
      round, passed := 0, 0;
    }

    /** Thread `i` is scheduled; in the spin, and before a held mutex, it may achieve nothing. */
    method ThreadFunc(i: nat)
      requires TurnInv(setup, Value()) && i < setup.threads
      modifies this
      ensures Value() == Next(setup, old(Value()), i)
    {
      match pc[i] {
        case Head =>
          pc := pc[i := if count[i] < setup.times then Spin else Done];
        case Spin =>
          if turn == i {
            pc := pc[i := Lock];
          }
        case Lock =>
          if owner == Nobody {
            owner := HeldBy(i);
            pc := pc[i := Print];
          }
        case Print =>
          out := out + [i];
          pc := pc[i := Pass];
        case Pass =>
          if i + 1 < setup.threads {
            turn := i + 1;
          } else {
            turn := 0;
            round := round + 1;
          }
          passed := passed + 1;
          pc := pc[i := Unlock];
        case Unlock =>
          owner := Nobody;
          pc := pc[i := Count];
        case Count =>
          count := count[i := count[i] + 1];
          pc := pc[i := Head];
        case Done =>
      }
    }

    predicate Movable(i: nat)
      reads this
    {
      && i < |pc|
      && pc[i] != Done
      && (pc[i] == Spin ==> turn == i)
      && (pc[i] == Lock ==> owner == Nobody)
    }

    /** An arbitrary thread that can move. */
    method Pick() returns (i: nat)
      requires exists who: nat :: Movable(who)
      ensures Moves(Value(), i)
    {
      i :| i < |pc| && Movable(i);
      assert pc[i] != Done;
    }

    method RunOne()
      requires TurnInv(setup, Value()) && !AllDone(Value())
      modifies this
      ensures TurnInv(setup, Value())
      ensures 0 <= Measure(setup, Value()) < old(Measure(setup, Value()))
    {
      ghost var before := Value();
      ghost var who := SomeoneMoves(setup, before);
      assert Movable(who);
      var i := Pick();
      MeasureStep(setup, before, i);
      TurnStep(setup, before, i);
      ThreadFunc(i);
    }

    /** Whichever thread the scheduler lets move next, the module ends with (TIC TAC)^K in its log. */
    method RunToEnd()
      requires Start(setup, Value())
      modifies this
      ensures AllDone(Value())
      ensures out == Repeat(Cycle(setup.threads, setup.threads), setup.times)
    {
      StartInv(setup, Value());
      while exists i :: 0 <= i < |pc| && pc[i] != Done
        invariant TurnInv(setup, Value())
        decreases Measure(setup, Value())
      {
        RunOne();
      }
      DoneOutput(setup, Value());
    }
  }
}
