/**
 * semserv.c and semcli.c: the same exchange, its turns granted by two semaphores that are used
 * as one token.  The server posts semaphore 1 before its loop; from there on a process takes
 * its own semaphore to begin a turn and posts the other's to end it.
 */
module Semaphores {
  import opened Exchange
  import opened Keyboard
  import Dialogue

  datatype Sys = Sys(ex: State, sem0: int, sem1: int)

  datatype Tick = RunClient(ch: char) | RunServer

  // ----- The program -----

  predicate Start(s: Sys) { Init(s.ex) && s.sem0 == 0 && s.sem1 == 1 }

  /** A process that waits for a zero semaphore, or has left, cannot move. */
  predicate Ready(s: Sys, t: Tick) {
    if t.RunClient? then !s.ex.client.Gone? && (s.ex.client.Waiting? ==> s.sem1 > 0)
    else !s.ex.server.Gone? && (s.ex.server.Waiting? ==> s.sem0 > 0)
  }

  function Step(s: Sys, t: Tick): Sys {
    match t
    case RunClient(ch) =>
      if s.ex.client.Waiting? then s.(sem1 := s.sem1 - 1, ex := BeginClient(s.ex))
      else if s.ex.client.Leaving? then s.(sem0 := s.sem0 + 1, ex := TestClient(s.ex))
      else s.(ex := ClientStep(s.ex, ch))
    case RunServer =>
      if s.ex.server.Waiting? then s.(sem0 := s.sem0 - 1, ex := BeginServer(s.ex))
      else if s.ex.server.Leaving? then s.(sem1 := s.sem1 + 1, ex := TestServer(s.ex))
      else s.(ex := ServerStep(s.ex))
  }

  function Next(s: Sys, t: Tick): Sys { if Ready(s, t) then Step(s, t) else s }

  function Exec(s: Sys, schedule: seq<Tick>): Sys
    decreases |schedule|
  {
    if schedule == [] then s else Exec(Next(s, schedule[0]), schedule[1..])
  }

  lemma {:induction false} ExecAppend(s: Sys, a: seq<Tick>, b: seq<Tick>)
    ensures Exec(s, a + b) == Exec(Exec(s, a), b)
    decreases |a|
  {
    if a == [] {
      assert a + b == b;
    } else {
      assert (a + b)[1..] == a[1..] + b;
      ExecAppend(Next(s, a[0]), a[1..], b);
    }
  }

  // ----- The invariant -----

  /** One token: in a semaphore, or with the process whose turn it is. */
  predicate TokenInv(s: Sys) {
    && s.sem0 >= 0
    && s.sem1 >= 0
    && s.sem0 + s.sem1 + Bit(ClientIn(s.ex)) + Bit(ServerIn(s.ex)) == 1
    && (s.sem0 == 1 ==> s.ex.next == Server)
    && (s.sem1 == 1 ==> s.ex.next == Client)
  }

  predicate SysInv(s: Sys) { Inv(s.ex) && TokenInv(s) }

  lemma StartInv(s: Sys)
    requires Start(s)
    ensures SysInv(s)
  {
    InitInv(s.ex);
  }

  lemma TokenStep(s: Sys, t: Tick)
    requires TokenInv(s) && TurnInv(s.ex)
    ensures TokenInv(Next(s, t))
  {
  }

  lemma ClientExchangeStep(s: Sys, ch: char)
    requires SysInv(s)
    ensures Inv(Next(s, RunClient(ch)).ex)
    ensures Dialogue.Next(Dialogue.Abs(s.ex), Dialogue.Abs(Next(s, RunClient(ch)).ex))
  {
    hide Inv, ClientStep;
    match s.ex.client {
      case Waiting => if s.sem1 > 0 { BeginClientInv(s.ex); }
      case Leaving => TestClientInv(s.ex);
      case _ =>
        ClientStepInv(s.ex, ch);
        Dialogue.ClientRefines(s.ex, ch);
    }
  }

  lemma ServerExchangeStep(s: Sys)
    requires SysInv(s)
    ensures Inv(Next(s, RunServer).ex)
    ensures Dialogue.Next(Dialogue.Abs(s.ex), Dialogue.Abs(Next(s, RunServer).ex))
  {
    hide Inv, ServerStep;
    match s.ex.server {
      case Waiting => if s.sem0 > 0 { BeginServerInv(s.ex); }
      case Leaving => TestServerInv(s.ex);
      case _ =>
        ServerStepInv(s.ex);
        Dialogue.ServerRefines(s.ex);
    }
  }

  lemma ExchangeStep(s: Sys, t: Tick)
    requires SysInv(s)
    ensures SysInv(Next(s, t))
    ensures Dialogue.Next(Dialogue.Abs(s.ex), Dialogue.Abs(Next(s, t).ex))
  {
    TokenStep(s, t);
    match t {
      case RunClient(ch) => ClientExchangeStep(s, ch);
      case RunServer => ServerExchangeStep(s);
    }
  }

  lemma {:induction false} SysRun(s: Sys, schedule: seq<Tick>)
    requires SysInv(s)
    ensures SysInv(Exec(s, schedule))
    decreases |schedule|
  {
    if schedule != [] {
      ExchangeStep(s, schedule[0]);
      SysRun(Next(s, schedule[0]), schedule[1..]);
    }
  }

  // ----- Main results: safety -----

  /** The token is conserved, so the turns exclude each other. */
  lemma TokenIsConserved(s0: Sys, schedule: seq<Tick>)
    requires Start(s0)
    ensures var s := Exec(s0, schedule);
      s.sem0 + s.sem1 + Bit(ClientIn(s.ex)) + Bit(ServerIn(s.ex)) == 1 && s.sem0 >= 0 && s.sem1 >= 0
  {
    StartInv(s0);
    SysRun(s0, schedule);
  }

  function Talks(s: Sys, schedule: seq<Tick>): (r: seq<Dialogue.Talk>)
    ensures |r| == |schedule| + 1
    decreases |schedule|
  {
    [Dialogue.Abs(s.ex)] + if schedule == [] then [] else Talks(Next(s, schedule[0]), schedule[1..])
  }

  lemma {:induction false} TalksStep(s: Sys, schedule: seq<Tick>, i: nat)
    requires SysInv(s) && i < |schedule|
    ensures var ds := Talks(s, schedule); Dialogue.Next(ds[i], ds[i + 1])
    decreases |schedule|
  {
    ExchangeStep(s, schedule[0]);
    if i > 0 {
      TalksStep(Next(s, schedule[0]), schedule[1..], i - 1);
    }
  }

  lemma {:induction false} TalksEnd(s: Sys, schedule: seq<Tick>)
    ensures Talks(s, schedule)[|schedule|] == Dialogue.Abs(Exec(s, schedule).ex)
    decreases |schedule|
  {
    if schedule != [] {
      TalksEnd(Next(s, schedule[0]), schedule[1..]);
    }
  }

  /** Every run of the semaphore programs is a behaviour of the same dialogue. */
  lemma RefinesDialogue(s0: Sys, schedule: seq<Tick>)
    requires Start(s0)
    ensures Dialogue.Behaviour(Talks(s0, schedule))
  {
    StartInv(s0);
    forall i | 0 <= i < |schedule|
      ensures var ds := Talks(s0, schedule); Dialogue.Next(ds[i], ds[i + 1])
    {
      TalksStep(s0, schedule, i);
    }
  }

  lemma ConversationIsFaithful(s0: Sys, schedule: seq<Tick>)
    requires Start(s0)
    ensures Dialogue.Faithful(Dialogue.Abs(Exec(s0, schedule).ex))
  {
    RefinesDialogue(s0, schedule);
    TalksEnd(s0, schedule);
    Dialogue.BehavioursAreFaithful(Talks(s0, schedule), |schedule|);
  }

  /** The characters that getchar returns in a run, at exactly the steps at which the client calls it. */
  function Typed(s: Sys, schedule: seq<Tick>): Text
    decreases |schedule|
  {
    if schedule == [] then []
    else
      (match schedule[0]
       case RunClient(ch) => Taken(s.ex, ch)
       case RunServer => [])
      + Typed(Next(s, schedule[0]), schedule[1..])
  }

  lemma StoreStep(s: Sys, t: Tick)
    requires SysInv(s)
    ensures Stored(Next(s, t).ex) == Stored(s.ex) + (if t.RunClient? then Taken(s.ex, t.ch) else [])
    ensures |Next(s, t).ex.buf| == |s.ex.buf|
  {
    hide TokenInv, BufferInv, QuitInv, OutputInv, LineInv, ClientStep;
    match t {
      case RunClient(ch) =>
        if !s.ex.client.Waiting? && !s.ex.client.Leaving? {
          ClientStores(s.ex, ch);
        }
      case RunServer =>
    }
  }

  lemma {:induction false} StoreRun(s: Sys, schedule: seq<Tick>)
    requires SysInv(s)
    ensures Stored(Exec(s, schedule).ex) == Stored(s.ex) + Typed(s, schedule)
    ensures |Exec(s, schedule).ex.buf| == |s.ex.buf|
    decreases |schedule|
  {
    hide SysInv, Next, Stored, Taken;
    if schedule != [] {
      StoreStep(s, schedule[0]);
      ExchangeStep(s, schedule[0]);
      StoreRun(Next(s, schedule[0]), schedule[1..]);
    }
  }

  /**
   * Not a character is lost, changed or added between getchar and the server's display: the bytes of
   * the lines sent, and of the line under way, are the characters typed, and the i-th string that the
   * server displays is the i-th line of that stream.
   */
  lemma LinesAreTyped(s0: Sys, schedule: seq<Tick>)
    requires Start(s0)
    ensures var e := Exec(s0, schedule).ex;
      var lines := Lines(|s0.ex.buf|, Typed(s0, schedule));
      && Concat(e.sent) + (if Writing(e) then e.typed else []) == Typed(s0, schedule)
      && e.sent <= lines
      && (forall i :: 0 <= i < |e.heard| ==> i < |lines| && e.heard[i] == Cut(lines[i]))
  {
    StartInv(s0);
    SysRun(s0, schedule);
    StoreRun(s0, schedule);
    StoredGivesLines(Exec(s0, schedule).ex);
  }

  /** Nobody waits for a semaphore without a loop test that has just failed. */
  lemma WaitsAfterTest(s: Sys, t: Tick)
    ensures !s.ex.client.Waiting? && Next(s, t).ex.client.Waiting? ==>
      s.ex.client.Testing? && Read(s.ex.buf, s.ex.client.k) != Byte("q\n", s.ex.client.k)
    ensures !s.ex.server.Waiting? && Next(s, t).ex.server.Waiting? ==>
      s.ex.server.Testing? && Read(s.ex.buf, s.ex.server.k) != Byte("q\n", s.ex.server.k)
  {
  }

  // ----- Main results: progress, with no fairness assumption -----

  predicate Done(s: Sys) { s.ex.client.Gone? && s.ex.server.Gone? }

  /** As long as one process has not left, one of them can move. */
  lemma NoDeadlock(s0: Sys, schedule: seq<Tick>, ch: char)
    requires Start(s0)
    ensures var s := Exec(s0, schedule); Done(s) <==> !Ready(s, RunClient(ch)) && !Ready(s, RunServer)
  {
    StartInv(s0);
    SysRun(s0, schedule);
  }

  function ClientRest(s: State): int {
    if ClientIn(s) then 4 + ClientWork(s)
    else match s.client
      case Testing(k) => 4 - k
      case Waiting => 1
      case _ => 0
  }

  function ServerRest(s: State): int {
    if ServerIn(s) then 4 + ServerWork(s)
    else match s.server
      case Testing(k) => 4 - k
      case Waiting => 1
      case _ => 0
  }

  function Rest(s: Sys): int { ClientRest(s.ex) + ServerRest(s.ex) }

  /** The steps that one turn can cost. */
  function PerTurn(s: Sys): nat { 2 * |s.ex.buf| + 12 }

  lemma ClientRestStep(s: Sys, ch: char)
    requires SizeInv(s.ex) && TurnInv(s.ex) && Ready(s, RunClient(ch))
    ensures var s' := Next(s, RunClient(ch));
      && |s'.ex.buf| == |s.ex.buf|
      && s.ex.turns <= s'.ex.turns <= s.ex.turns + 1
      && Rest(s') < Rest(s) + (if s'.ex.turns > s.ex.turns then PerTurn(s) else 0)
  {
  }

  lemma ServerRestStep(s: Sys)
    requires SizeInv(s.ex) && TurnInv(s.ex) && Ready(s, RunServer)
    ensures var s' := Next(s, RunServer);
      && |s'.ex.buf| == |s.ex.buf|
      && s.ex.turns <= s'.ex.turns <= s.ex.turns + 1
      && Rest(s') < Rest(s) + (if s'.ex.turns > s.ex.turns then PerTurn(s) else 0)
  {
  }

  lemma RestStep(s: Sys, t: Tick)
    requires SysInv(s) && Ready(s, t)
    ensures var s' := Next(s, t);
      && |s'.ex.buf| == |s.ex.buf|
      && s.ex.turns <= s'.ex.turns <= s.ex.turns + 1
      && Rest(s') < Rest(s) + (if s'.ex.turns > s.ex.turns then PerTurn(s) else 0)
  {
    hide TokenInv, OutputInv, LineInv, BufferInv, QuitInv, SizeInv, TurnInv, Next, Rest, Ready;
    match t {
      case RunClient(ch) => ClientRestStep(s, ch);
      case RunServer => ServerRestStep(s);
    }
  }

  /** The steps that processes really take in a run. */
  function Moves(s: Sys, schedule: seq<Tick>): nat
    decreases |schedule|
  {
    if schedule == [] then 0
    else (if Ready(s, schedule[0]) then 1 else 0) + Moves(Next(s, schedule[0]), schedule[1..])
  }

  /** What the turns begun between two states may have cost, at `r` steps each. */
  function Cost(r: nat, s: Sys, e: Sys): int { r * (e.ex.turns - s.ex.turns) }

  lemma {:induction false} MovesBounded(s: Sys, schedule: seq<Tick>, r: nat)
    requires SysInv(s) && r == PerTurn(s)
    ensures var e := Exec(s, schedule);
      && 0 <= Rest(e)
      && e.ex.turns >= s.ex.turns
      && Moves(s, schedule) + Rest(e) <= Rest(s) + Cost(r, s, e)
    decreases |schedule|
  {
    if schedule == [] {
      RestIsNonNegative(s);
      assert Cost(r, s, s) == 0;
    } else {
      hide SysInv, Next, Ready, Rest, PerTurn;
      var t := schedule[0];
      var s' := Next(s, t);
      var e := Exec(s, schedule);
      if Ready(s, t) {
        RestStep(s, t);
        SamePerTurn(s, Next(s, t));
      } else {
        BlockedStep(s, t);
      }
      ExchangeStep(s, t);
      MovesBounded(s', schedule[1..], r);
      CostAdds(r, s, s', e);
      hide Cost;
    }
  }

  lemma CostAdds(r: nat, s: Sys, m: Sys, e: Sys)
    requires s.ex.turns <= m.ex.turns <= s.ex.turns + 1
    ensures Cost(r, s, e) == (if m.ex.turns > s.ex.turns then r else 0) + Cost(r, m, e)
  {
  }

  lemma SamePerTurn(s: Sys, s': Sys)
    requires |s.ex.buf| == |s'.ex.buf|
    ensures PerTurn(s) == PerTurn(s')
  {
  }

  lemma BlockedStep(s: Sys, t: Tick)
    requires !Ready(s, t)
    ensures Next(s, t) == s
  {
  }

  lemma RestIsNonNegative(s: Sys)
    requires SysInv(s)
    ensures Rest(s) >= 0
  {
  }

  /** However the processes are scheduled, every PerTurn steps bring a new turn: there is no busy waiting. */
  lemma TurnsKeepComing(s0: Sys, schedule: seq<Tick>)
    requires Start(s0)
    ensures Moves(s0, schedule) <= 8 + PerTurn(s0) * Exec(s0, schedule).ex.turns
  {
    StartInv(s0);
    MovesBounded(s0, schedule, PerTurn(s0));
  }
}
