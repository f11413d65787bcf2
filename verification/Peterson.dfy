/**
 * shmemserv.c and shmemcli.c: the exchange under Peterson's two-process lock, with the twist
 * that a process which gets through the spin but finds that it read last does not release its
 * flag.  It goes back to its loop test and enters the protocol again.
 */
module Peterson {
  import opened Exchange
  import opened Keyboard
  import Dialogue

  datatype Flag = Free | Busy

  /** Where a waiting process is: the two stores, the two halves of the spin test, and the readlast token. */
  datatype Gate = SetFlag | SetTurn | SpinFlag | SpinTurn | CheckLast | Claim

  datatype Sys = Sys(
    ex: State,
    clientLock: Flag,
    serverLock: Flag,
    turn: Party,
    readlast: Party,
    clientGate: Gate,
    serverGate: Gate)

  /** `RunClient` carries the character that getchar returns if this step calls it. */
  datatype Tick = RunClient(ch: char) | RunServer

  // ----- The program -----

  predicate Start(s: Sys) {
    && Init(s.ex)
    && s.turn == Client
    && s.serverLock == s.clientLock == Free
    && s.readlast == Server
    && s.clientGate == s.serverGate == SetFlag
  }

  function ClientGateStep(s: Sys): Sys {
    match s.clientGate
    case SetFlag => s.(clientLock := Busy, clientGate := SetTurn)
    case SetTurn => s.(turn := Server, clientGate := SpinFlag)
    case SpinFlag => s.(clientGate := if s.serverLock == Busy then SpinTurn else CheckLast)
    case SpinTurn => s.(clientGate := if s.turn == Server then SpinFlag else CheckLast)
    case CheckLast =>
      if s.readlast == Server then s.(clientGate := Claim)
      else s.(ex := TestClient(s.ex), clientGate := SetFlag)
    case Claim => s.(readlast := Client, ex := BeginClient(s.ex), clientGate := SetFlag)
  }

  function ServerGateStep(s: Sys): Sys {
    match s.serverGate
    case SetFlag => s.(serverLock := Busy, serverGate := SetTurn)
    case SetTurn => s.(turn := Client, serverGate := SpinFlag)
    case SpinFlag => s.(serverGate := if s.clientLock == Busy then SpinTurn else CheckLast)
    case SpinTurn => s.(serverGate := if s.turn == Client then SpinFlag else CheckLast)
    case CheckLast =>
      if s.readlast == Client then s.(serverGate := Claim)
      else s.(ex := TestServer(s.ex), serverGate := SetFlag)
    case Claim => s.(readlast := Server, ex := BeginServer(s.ex), serverGate := SetFlag)
  }

  function Next(s: Sys, t: Tick): Sys {
    match t
    case RunClient(ch) =>
      if s.ex.client.Waiting? then ClientGateStep(s)
      else if s.ex.client.Leaving? then s.(clientLock := Free, ex := TestClient(s.ex))
      else s.(ex := ClientStep(s.ex, ch))
    case RunServer =>
      if s.ex.server.Waiting? then ServerGateStep(s)
      else if s.ex.server.Leaving? then s.(serverLock := Free, ex := TestServer(s.ex))
      else s.(ex := ServerStep(s.ex))
  }

  function Exec(s: Sys, schedule: seq<Tick>): Sys
    decreases |schedule|
  {
    if schedule == [] then s else Exec(Next(s, schedule[0]), schedule[1..])
  }

  lemma {:induction false} ExecAppend(s: Sys, a: seq<Tick>, b: seq<Tick>)
    ensures Exec(s, a + b) == Exec(Exec(s, a), b)
    decreases |a|
  {
    if a == [] {
      assert a + b == b;
    } else {
      assert (a + b)[1..] == a[1..] + b;
      ExecAppend(Next(s, a[0]), a[1..], b);
    }
  }

  // ----- Mutual exclusion -----

  function Other(p: Party): Party { if p == Client then Server else Client }

  predicate Waits(s: Sys, p: Party) { if p == Client then s.ex.client.Waiting? else s.ex.server.Waiting? }
  predicate In(s: Sys, p: Party) { if p == Client then ClientIn(s.ex) else ServerIn(s.ex) }
  function GateOf(s: Sys, p: Party): Gate { if p == Client then s.clientGate else s.serverGate }
  function LockOf(s: Sys, p: Party): Flag { if p == Client then s.clientLock else s.serverLock }

  predicate Spins(s: Sys, p: Party) { Waits(s, p) && (GateOf(s, p).SpinFlag? || GateOf(s, p).SpinTurn?) }

  /** Through the spin, and not yet back at the loop test. */
  predicate Passed(s: Sys, p: Party) {
    In(s, p) || (Waits(s, p) && (GateOf(s, p).CheckLast? || GateOf(s, p).Claim?))
  }

  predicate SideInv(s: Sys, p: Party) {
    && (!Waits(s, p) ==> GateOf(s, p) == SetFlag)
    && (In(s, p) || (Waits(s, p) && GateOf(s, p) != SetFlag) ==> LockOf(s, p) == Busy)
    && (Passed(s, p) ==> !Passed(s, Other(p)))
    && (Passed(s, p) && Spins(s, Other(p)) ==> s.turn == p)
    && (GateOf(s, p).Claim? ==> s.readlast == Other(p))
  }

  /** The client gives its flag back before it can leave; the server need not. */
  predicate FarewellInv(s: Sys) {
    && (s.ex.client.Testing? && Quitting(s.ex) ==> s.clientLock == Free)
    && (s.ex.client.Gone? ==> s.clientLock == Free)
  }

  predicate LockInv(s: Sys) {
    && SideInv(s, Client)
    && SideInv(s, Server)
    && s.ex.next == Other(s.readlast)
    && FarewellInv(s)
  }

  predicate SysInv(s: Sys) { Inv(s.ex) && LockInv(s) }

  /** A turn begins only when the abstract exchange allows it: the lock and the token implement `next`. */
  lemma TurnsAreGranted(s: Sys)
    requires SysInv(s)
    ensures s.ex.client.Waiting? && s.clientGate.Claim? ==> ClientMayBegin(s.ex)
    ensures s.ex.server.Waiting? && s.serverGate.Claim? ==> ServerMayBegin(s.ex)
  {
    assert SideInv(s, Client) && SideInv(s, Server);
  }

  lemma ClientExchangeStep(s: Sys, ch: char)
    requires SysInv(s)
    ensures Inv(Next(s, RunClient(ch)).ex)
    ensures Dialogue.Next(Dialogue.Abs(s.ex), Dialogue.Abs(Next(s, RunClient(ch)).ex))
  {
    hide Inv, ClientMayBegin, ServerMayBegin, LockInv, ClientStep;
    TurnsAreGranted(s);
    match s.ex.client {
      case Waiting =>
        if s.clientGate.Claim? { BeginClientInv(s.ex); } else { TestClientInv(s.ex); }
      case Leaving => TestClientInv(s.ex);
      case _ =>
        ClientStepInv(s.ex, ch);
        Dialogue.ClientRefines(s.ex, ch);
    }
  }

  lemma ServerExchangeStep(s: Sys)
    requires SysInv(s)
    ensures Inv(Next(s, RunServer).ex)
    ensures Dialogue.Next(Dialogue.Abs(s.ex), Dialogue.Abs(Next(s, RunServer).ex))
  {
    hide Inv, ClientMayBegin, ServerMayBegin, LockInv, ServerStep;
    TurnsAreGranted(s);
    match s.ex.server {
      case Waiting =>
        if s.serverGate.Claim? { BeginServerInv(s.ex); } else { TestServerInv(s.ex); }
      case Leaving => TestServerInv(s.ex);
      case _ =>
        ServerStepInv(s.ex);
        Dialogue.ServerRefines(s.ex);
    }
  }

  /** Each step of the implementation is a step of the dialogue or none. */
  lemma ExchangeStep(s: Sys, t: Tick)
    requires SysInv(s)
    ensures Inv(Next(s, t).ex)
    ensures Dialogue.Next(Dialogue.Abs(s.ex), Dialogue.Abs(Next(s, t).ex))
  {
    match t {
      case RunClient(ch) => ClientExchangeStep(s, ch);
      case RunServer => ServerExchangeStep(s);
    }
  }

  lemma ClientSideStep(s: Sys, ch: char)
    requires SideInv(s, Client) && SideInv(s, Server)
    ensures SideInv(Next(s, RunClient(ch)), Client) && SideInv(Next(s, RunClient(ch)), Server)
  {
  }

  lemma ServerSideStep(s: Sys)
    requires SideInv(s, Client) && SideInv(s, Server)
    ensures SideInv(Next(s, RunServer), Client) && SideInv(Next(s, RunServer), Server)
  {
  }

  lemma FarewellStep(s: Sys, t: Tick)
    requires QuitInv(s.ex) && QuitInv(Next(s, t).ex) && SideInv(s, Client) && FarewellInv(s)
    ensures FarewellInv(Next(s, t))
  {
  }

  lemma TokenStep(s: Sys, t: Tick)
    requires s.ex.next == Other(s.readlast)
    ensures Next(s, t).ex.next == Other(Next(s, t).readlast)
  {
  }

  lemma LockStep(s: Sys, t: Tick)
    requires SysInv(s) && Inv(Next(s, t).ex)
    ensures LockInv(Next(s, t))
  {
    hide SideInv, FarewellInv, QuitInv, BufferInv, LineInv, TurnInv, OutputInv, SizeInv, ClientStep, ServerStep, Next;
    match t {
      case RunClient(ch) => ClientSideStep(s, ch);
      case RunServer => ServerSideStep(s);
    }
    FarewellStep(s, t);
    TokenStep(s, t);
  }

  lemma SysStep(s: Sys, t: Tick)
    requires SysInv(s)
    ensures SysInv(Next(s, t))
  {
    hide Inv, LockInv, Next;
    ExchangeStep(s, t);
    LockStep(s, t);
  }

  lemma StartInv(s: Sys)
    requires Start(s)
    ensures SysInv(s)
  {
    InitInv(s.ex);
  }

  lemma {:induction false} SysRun(s: Sys, schedule: seq<Tick>)
    requires SysInv(s)
    ensures SysInv(Exec(s, schedule))
    decreases |schedule|
  {
    if schedule != [] {
      SysStep(s, schedule[0]);
      SysRun(Next(s, schedule[0]), schedule[1..]);
    }
  }

  // ----- Main results: safety -----

  /** At most one process is between the spin and the release of its flag, in every interleaving. */
  lemma MutualExclusion(s0: Sys, schedule: seq<Tick>)
    requires Start(s0)
    ensures var s := Exec(s0, schedule);
      !(Passed(s, Client) && Passed(s, Server)) && !(In(s, Client) && In(s, Server))
  {
    StartInv(s0);
    SysRun(s0, schedule);
  }

  /** The dialogue as it stands after each step of a run. */
  function Talks(s: Sys, schedule: seq<Tick>): (r: seq<Dialogue.Talk>)
    ensures |r| == |schedule| + 1
    decreases |schedule|
  {
    [Dialogue.Abs(s.ex)] + if schedule == [] then [] else Talks(Next(s, schedule[0]), schedule[1..])
  }

  lemma {:induction false} TalksStep(s: Sys, schedule: seq<Tick>, i: nat)
    requires SysInv(s) && i < |schedule|
    ensures var ds := Talks(s, schedule); Dialogue.Next(ds[i], ds[i + 1])
    decreases |schedule|
  {
    ExchangeStep(s, schedule[0]);
    if i > 0 {
      SysStep(s, schedule[0]);
      TalksStep(Next(s, schedule[0]), schedule[1..], i - 1);
    }
  }

  lemma {:induction false} TalksEnd(s: Sys, schedule: seq<Tick>)
    ensures Talks(s, schedule)[|schedule|] == Dialogue.Abs(Exec(s, schedule).ex)
    decreases |schedule|
  {
    if schedule != [] {
      TalksEnd(Next(s, schedule[0]), schedule[1..]);
    }
  }

  /** Every run of the two programs is a behaviour of the alternating dialogue. */
  lemma RefinesDialogue(s0: Sys, schedule: seq<Tick>)
    requires Start(s0)
    ensures Dialogue.Behaviour(Talks(s0, schedule))
  {
    StartInv(s0);
    forall i | 0 <= i < |schedule|
      ensures var ds := Talks(s0, schedule); Dialogue.Next(ds[i], ds[i + 1])
    {
      TalksStep(s0, schedule, i);
    }
  }

  /** Every line is displayed exactly once, in order and untorn, and both leave only after "q\n". */
  lemma ConversationIsFaithful(s0: Sys, schedule: seq<Tick>)
    requires Start(s0)
    ensures Dialogue.Faithful(Dialogue.Abs(Exec(s0, schedule).ex))
  {
    RefinesDialogue(s0, schedule);
    TalksEnd(s0, schedule);
    Dialogue.BehavioursAreFaithful(Talks(s0, schedule), |schedule|);
  }

  /** The characters that getchar returns in a run, at exactly the steps at which the client calls it. */
  function Typed(s: Sys, schedule: seq<Tick>): Text
    decreases |schedule|
  {
    if schedule == [] then []
    else
      (match schedule[0]
       case RunClient(ch) => Taken(s.ex, ch)
       case RunServer => [])
      + Typed(Next(s, schedule[0]), schedule[1..])
  }

  lemma StoreStep(s: Sys, t: Tick)
    requires SysInv(s)
    ensures Stored(Next(s, t).ex) == Stored(s.ex) + (if t.RunClient? then Taken(s.ex, t.ch) else [])
    ensures |Next(s, t).ex.buf| == |s.ex.buf|
  {
    hide LockInv, BufferInv, QuitInv, OutputInv, LineInv, ClientStep;
    match t {
      case RunClient(ch) =>
        if !s.ex.client.Waiting? && !s.ex.client.Leaving? {
          ClientStores(s.ex, ch);
        }
      case RunServer =>
    }
  }

  lemma {:induction false} StoreRun(s: Sys, schedule: seq<Tick>)
    requires SysInv(s)
    ensures Stored(Exec(s, schedule).ex) == Stored(s.ex) + Typed(s, schedule)
    ensures |Exec(s, schedule).ex.buf| == |s.ex.buf|
    decreases |schedule|
  {
    hide SysInv, Next, Stored, Taken;
    if schedule != [] {
      StoreStep(s, schedule[0]);
      SysStep(s, schedule[0]);
      StoreRun(Next(s, schedule[0]), schedule[1..]);
    }
  }

  /**
   * Not a character is lost, changed or added between getchar and the server's display: the bytes of
   * the lines sent, and of the line under way, are the characters typed, and the i-th string that the
   * server displays is the i-th line of that stream.
   */
  lemma LinesAreTyped(s0: Sys, schedule: seq<Tick>)
    requires Start(s0)
    ensures var e := Exec(s0, schedule).ex;
      var lines := Lines(|s0.ex.buf|, Typed(s0, schedule));
      && Concat(e.sent) + (if Writing(e) then e.typed else []) == Typed(s0, schedule)
      && e.sent <= lines
      && (forall i :: 0 <= i < |e.heard| ==> i < |lines| && e.heard[i] == Cut(lines[i]))
  {
    StartInv(s0);
    SysRun(s0, schedule);
    StoreRun(s0, schedule);
    StoredGivesLines(Exec(s0, schedule).ex);
  }

  // ----- The not-taken branch keeps the flag -----

  /** A flag is given back only where a turn ends. */
  lemma FlagsAreKept(s: Sys, t: Tick, p: Party)
    requires SysInv(s)
    ensures LockOf(s, p) == Busy && LockOf(Next(s, t), p) == Free ==> In(s, p) && !In(Next(s, t), p)
  {
    hide BufferInv, QuitInv, OutputInv, LineInv, TurnInv, SizeInv, ClientStep, ServerStep;
  }

  /** Some step of the run ends a turn of `p`. */
  predicate EndsTurn(s: Sys, schedule: seq<Tick>, p: Party)
    decreases |schedule|
  {
    schedule != [] &&
    ((In(s, p) && !In(Next(s, schedule[0]), p)) || EndsTurn(Next(s, schedule[0]), schedule[1..], p))
  }

  lemma {:induction false} FlagStaysBusy(s: Sys, schedule: seq<Tick>, p: Party)
    requires SysInv(s) && LockOf(s, p) == Busy && !EndsTurn(s, schedule, p)
    ensures LockOf(Exec(s, schedule), p) == Busy
    decreases |schedule|
  {
    hide SysInv, Next, LockOf, In;
    if schedule != [] {
      FlagsAreKept(s, schedule[0], p);
      SysStep(s, schedule[0]);
      OnlyTwoFlags(LockOf(Next(s, schedule[0]), p));
      FlagStaysBusy(Next(s, schedule[0]), schedule[1..], p);
    }
  }

  lemma OnlyTwoFlags(f: Flag)
    ensures f == Free || f == Busy
  {
  }

  /** With this step `p`, through the spin, finds that it read last. */
  predicate Refused(s: Sys, t: Tick, p: Party) {
    By(t, p) && Waits(s, p) && GateOf(s, p).CheckLast? && s.readlast == p
  }

  /**
   * A process that is refused goes back to its loop test without giving its flag back, and keeps
   * the flag, through any number of further tests and spins, until it has ended a turn.
   */
  lemma RefusalKeepsFlag(s0: Sys, before: seq<Tick>, t: Tick, after: seq<Tick>, p: Party)
    requires Start(s0)
    requires Refused(Exec(s0, before), t, p)
    requires !EndsTurn(Next(Exec(s0, before), t), after, p)
    ensures var r := Next(Exec(s0, before), t);
      Testing(r, p) && TestAt(r, p) == 0 && LockOf(r, p) == Busy
    ensures var e := Exec(s0, before + [t] + after);
      LockOf(e, p) == Busy && (Testing(e, p) || Waits(e, p) || Gone(e, p) || In(e, p))
  {
    StartInv(s0);
    SysRun(s0, before);
    var s := Exec(s0, before);
    var r := Next(s, t);
    SysStep(s, t);
    RefusalStep(s, t, p);
    FlagStaysBusy(r, after, p);
    ExecAppend(s0, before, [t]);
    ExecAppend(s0, before + [t], after);
  }

  lemma RefusalStep(s: Sys, t: Tick, p: Party)
    requires SysInv(s) && Refused(s, t, p)
    ensures var r := Next(s, t);
      Testing(r, p) && TestAt(r, p) == 0 && LockOf(r, p) == Busy && !In(r, p)
      && r.turn == s.turn && r.readlast == s.readlast && r.ex.buf == s.ex.buf && r.ex.turns == s.ex.turns
  {
    hide BufferInv, QuitInv, OutputInv, LineInv, TurnInv, SizeInv;
  }

  /** Nobody competes for a turn, not after a refusal either, without a loop test that has just failed. */
  lemma CompetesAfterTest(s: Sys, t: Tick, p: Party)
    requires SysInv(s)
    requires !(Waits(s, p) && GateOf(s, p) == SetFlag) && Waits(Next(s, t), p) && GateOf(Next(s, t), p) == SetFlag
    ensures Testing(s, p) && Read(s.ex.buf, TestAt(s, p)) != Byte("q\n", TestAt(s, p))
  {
    hide BufferInv, QuitInv, OutputInv, LineInv, TurnInv, SizeInv;
  }

  /** Blocked in the spin: both halves of the test hold. */
  predicate Blocked(s: Sys, p: Party) {
    Spins(s, p) && LockOf(s, Other(p)) == Busy && s.turn == Other(p)
  }

  /** The client leaves its flag free; a server that left with its flag busy blocks nobody; both never block each other. */
  lemma Farewell(s0: Sys, schedule: seq<Tick>)
    requires Start(s0)
    ensures var s := Exec(s0, schedule);
      && (s.ex.client.Gone? ==> s.clientLock == Free)
      && (s.ex.server.Gone? ==> !s.ex.client.Waiting?)
      && !(Blocked(s, Client) && Blocked(s, Server))
  {
    StartInv(s0);
    SysRun(s0, schedule);
  }

  // ----- Main results: progress under weak fairness -----

  predicate Gone(s: Sys, p: Party) { if p == Client then s.ex.client.Gone? else s.ex.server.Gone? }
  predicate Done(s: Sys) { Gone(s, Client) && Gone(s, Server) }

  predicate Testing(s: Sys, p: Party) { if p == Client then s.ex.client.Testing? else s.ex.server.Testing? }
  function TestAt(s: Sys, p: Party): nat
    requires Testing(s, p)
  {
    if p == Client then s.ex.client.k else s.ex.server.k
  }
  function Work(s: Sys, p: Party): int { if p == Client then ClientWork(s.ex) else ServerWork(s.ex) }

  function GateDistance(g: Gate): int {
    match g
    case SetTurn => 1
    case SetFlag => 2
    case CheckLast => 6
    case SpinTurn => 7
    case SpinFlag => 8
    case Claim => 0
  }

  /** The own steps after which `p`, whose turn it is not, has yielded by writing `turn`. */
  function YieldDistance(s: Sys, p: Party): int {
    if Testing(s, p) then 5 - TestAt(s, p)
    else if Waits(s, p) then GateDistance(GateOf(s, p))
    else if In(s, p) then 5 + Work(s, p)
    else 0
  }

  /** The own steps after which a process that is out of its turn, and reads "q\n", is gone. */
  function LeaveDistance(s: Sys, p: Party): int {
    if Testing(s, p) then 3 - TestAt(s, p)
    else if In(s, p) then 3 + Work(s, p)
    else 0
  }

  function Block(s: Sys): int { 2 * |s.ex.buf| + 30 }

  /** The client has said "q\n" and the server has taken its last turn, if it takes one. */
  predicate Ending(s: Sys) {
    s.ex.server.Gone? || (Quitting(s.ex) && s.ex.next == Client)
  }

  /** How far the exchange is from the next turn, or from its end. */
  function Rank(s: Sys): int {
    var p := s.ex.next;
    var q := Other(p);
    if Ending(s) then LeaveDistance(s, Client) + LeaveDistance(s, Server)
    else if Waits(s, p) && GateOf(s, p).Claim? then 1
    else if Waits(s, p) && GateOf(s, p).CheckLast? then 2
    else if Spins(s, p) then
      if s.turn == p then (if GateOf(s, p).SpinTurn? then 3 else 4)
      else if Gone(s, q) then (if GateOf(s, p).SpinFlag? then 3 else 4)
      else 5 + YieldDistance(s, q)
    else Block(s) + YieldDistance(s, p)
  }

  /** The process whose steps bring the exchange forward. */
  function Helper(s: Sys): Party {
    var p := s.ex.next;
    if Ending(s) then (if Gone(s, Client) then Server else Client)
    else if Spins(s, p) && s.turn != p && !Gone(s, Other(p)) then Other(p)
    else p
  }

  predicate By(t: Tick, p: Party) { t.RunClient? <==> p == Client }

  /** What a step by `t` has to achieve. */
  predicate Forward(s: Sys, t: Tick) {
    var s' := Next(s, t);
    && s'.ex.turns >= s.ex.turns
    && (s'.ex.turns == s.ex.turns ==>
          && Rank(s') <= Rank(s)
          && (Rank(s') == Rank(s) && !Done(s) ==> !By(t, Helper(s)) && Helper(s') == Helper(s)))
  }

  /** The parts of the invariant that progress rests on. */
  predicate RankInv(s: Sys) {
    && SizeInv(s.ex)
    && TurnInv(s.ex)
    && QuitInv(s.ex)
    && LockInv(s)
  }

  lemma EndingClientStep(s: Sys, ch: char)
    requires RankInv(s) && Ending(s)
    ensures Forward(s, RunClient(ch))
  {
  }

  lemma EndingServerStep(s: Sys)
    requires RankInv(s) && Ending(s)
    ensures Forward(s, RunServer)
  {
  }

  lemma ClientsTurnClientStep(s: Sys, ch: char)
    requires RankInv(s) && !Ending(s) && s.ex.next == Client
    ensures Forward(s, RunClient(ch))
  {
  }

  lemma ClientsTurnServerInStep(s: Sys)
    requires RankInv(s) && !Ending(s) && s.ex.next == Client && ServerIn(s.ex)
    ensures Forward(s, RunServer)
  {
  }

  lemma ClientsTurnServerOutStep(s: Sys)
    requires RankInv(s) && !Ending(s) && s.ex.next == Client && !ServerIn(s.ex)
    ensures Forward(s, RunServer)
  {
  }

  lemma ServersTurnClientStep(s: Sys, ch: char)
    requires RankInv(s) && !Ending(s) && s.ex.next == Server
    ensures Forward(s, RunClient(ch))
  {
  }

  lemma ServersTurnServerStep(s: Sys)
    requires RankInv(s) && !Ending(s) && s.ex.next == Server
    ensures Forward(s, RunServer)
  {
  }

  lemma RankStep(s: Sys, t: Tick)
    requires SysInv(s)
    ensures Forward(s, t)
  {
    assert RankInv(s);
    hide RankInv, Forward, SysInv, Inv, LockInv, Next;
    if Ending(s) {
      match t {
        case RunClient(ch) => EndingClientStep(s, ch);
        case RunServer => EndingServerStep(s);
      }
    } else {
      match (t, s.ex.next) {
        case (RunClient(ch), Client) => ClientsTurnClientStep(s, ch);
        case (RunClient(ch), Server) => ServersTurnClientStep(s, ch);
        case (RunServer, Server) => ServersTurnServerStep(s);
        case (RunServer, Client) =>
          if ServerIn(s.ex) { ClientsTurnServerInStep(s); } else { ClientsTurnServerOutStep(s); }
      }
    }
  }

  lemma RankBounds(s: Sys)
    requires SysInv(s)
    ensures 0 <= Rank(s) < 2 * Block(s)
    ensures Rank(s) == 0 ==> Done(s)
  {
    assert RankInv(s);
  }

  lemma DoneStays(s: Sys, schedule: seq<Tick>)
    requires Done(s)
    ensures Exec(s, schedule) == s
    decreases |schedule|
  {
    if schedule != [] {
      DoneStays(Next(s, schedule[0]), schedule[1..]);
    }
  }

  /** No schedule takes the exchange back. */
  lemma {:induction false} RankRun(s: Sys, schedule: seq<Tick>)
    requires SysInv(s)
    ensures SysInv(Exec(s, schedule))
    ensures var e := Exec(s, schedule);
      e.ex.turns >= s.ex.turns && (e.ex.turns == s.ex.turns ==> Rank(e) <= Rank(s)) && |e.ex.buf| == |s.ex.buf|
    decreases |schedule|
  {
    hide SysInv, Rank, Next;
    if schedule != [] {
      SysStep(s, schedule[0]);
      RankStep(s, schedule[0]);
      RankRun(Next(s, schedule[0]), schedule[1..]);
      BufferSize(s, schedule[0]);
    }
  }

  lemma BufferSize(s: Sys, t: Tick)
    ensures |Next(s, t).ex.buf| == |s.ex.buf|
  {
  }

  /** A stretch of a run in which each process is scheduled at least once. */
  predicate Fair(round: seq<Tick>) {
    RunServer in round && exists ch :: RunClient(ch) in round
  }

  predicate Schedules(round: seq<Tick>, p: Party) { exists i :: 0 <= i < |round| && By(round[i], p) }

  lemma {:induction false} HelperRun(s: Sys, round: seq<Tick>)
    requires SysInv(s) && Schedules(round, Helper(s))
    ensures var e := Exec(s, round); Done(e) || e.ex.turns > s.ex.turns || Rank(e) < Rank(s)
    decreases |round|
  {
    hide SysInv, Rank, Next, Helper, By;
    if Done(s) {
      DoneStays(s, round);
    } else {
      var s' := Next(s, round[0]);
      SysStep(s, round[0]);
      RankStep(s, round[0]);
      RankRun(s', round[1..]);
      if s'.ex.turns == s.ex.turns && Rank(s') == Rank(s) {
        var i :| 0 <= i < |round| && By(round[i], Helper(s));
        assert round[1..][i - 1] == round[i];
        HelperRun(s', round[1..]);
      }
    }
  }

  lemma FairRound(s: Sys, round: seq<Tick>)
    requires SysInv(s) && Fair(round)
    ensures var e := Exec(s, round); Done(e) || e.ex.turns > s.ex.turns || Rank(e) < Rank(s)
  {
    var ch :| RunClient(ch) in round;
    var i :| 0 <= i < |round| && round[i] == RunClient(ch);
    var j :| 0 <= j < |round| && round[j] == RunServer;
    assert By(round[i], Client) && By(round[j], Server);
    HelperRun(s, round);
  }

  function ExecRounds(s: Sys, rounds: seq<seq<Tick>>): Sys
    decreases |rounds|
  {
    if rounds == [] then s else ExecRounds(Exec(s, rounds[0]), rounds[1..])
  }

  predicate AllFair(rounds: seq<seq<Tick>>) { forall i :: 0 <= i < |rounds| ==> Fair(rounds[i]) }

  lemma {:induction false} RoundsRun(s: Sys, rounds: seq<seq<Tick>>)
    requires SysInv(s)
    ensures var e := ExecRounds(s, rounds);
      SysInv(e) && e.ex.turns >= s.ex.turns && |e.ex.buf| == |s.ex.buf| && (Done(s) ==> Done(e))
    decreases |rounds|
  {
    hide SysInv, Next, Rank;
    if rounds != [] {
      RankRun(s, rounds[0]);
      if Done(s) {
        DoneStays(s, rounds[0]);
      }
      RoundsRun(Exec(s, rounds[0]), rounds[1..]);
    }
  }

  lemma {:induction false} NextTurn(s: Sys, rounds: seq<seq<Tick>>)
    requires SysInv(s) && AllFair(rounds) && |rounds| > Rank(s)
    ensures var e := ExecRounds(s, rounds); Done(e) || e.ex.turns > s.ex.turns
    decreases |rounds|
  {
    hide SysInv, Next, Rank;
    RankBounds(s);
    FairRound(s, rounds[0]);
    RankRun(s, rounds[0]);
    var e := Exec(s, rounds[0]);
    if Done(e) || e.ex.turns > s.ex.turns {
      RoundsRun(e, rounds[1..]);
    } else {
      NextTurn(e, rounds[1..]);
    }
  }

  /** How many fair rounds bring at least one new turn. */
  function RoundsPerTurn(s: Sys): nat { 4 * |s.ex.buf| + 60 }

  lemma {:induction false} ExecRoundsSplit(s: Sys, rounds: seq<seq<Tick>>, n: nat)
    requires n <= |rounds|
    ensures ExecRounds(s, rounds) == ExecRounds(ExecRounds(s, rounds[..n]), rounds[n..])
    decreases n
  {
    if n > 0 {
      assert rounds[..n][1..] == rounds[1..][..n - 1];
      ExecRoundsSplit(Exec(s, rounds[0]), rounds[1..], n - 1);
    }
  }

  lemma TurnAfterTurn(s: Sys, rounds: seq<seq<Tick>>, r: nat, n: nat)
    requires SysInv(s) && AllFair(rounds) && r == RoundsPerTurn(s) <= |rounds|
    requires var e := ExecRounds(s, rounds[..r]);
      var f := ExecRounds(e, rounds[r..]);
      Done(e) || Done(f) || f.ex.turns >= e.ex.turns + n
    ensures var f := ExecRounds(s, rounds); Done(f) || f.ex.turns >= s.ex.turns + n + 1
  {
    RankBounds(s);
    hide SysInv, Next, Rank;
    NextTurn(s, rounds[..r]);
    RoundsRun(s, rounds[..r]);
    ExecRoundsSplit(s, rounds, r);
    RoundsRun(ExecRounds(s, rounds[..r]), rounds[r..]);
  }

  lemma OneLess(n: nat, r: nat)
    requires n > 0
    ensures n * r == (n - 1) * r + r
    ensures (n - 1) * r >= 0
  {
  }

  /** Neither deadlock nor livelock: under weak fairness the turns go on until both processes have left. */
  lemma {:induction false} FairRunsGoOn(s: Sys, rounds: seq<seq<Tick>>, r: nat, n: nat)
    requires SysInv(s) && AllFair(rounds) && r == RoundsPerTurn(s) && |rounds| >= n * r
    ensures var e := ExecRounds(s, rounds); Done(e) || e.ex.turns >= s.ex.turns + n
    decreases n
  {
    hide SysInv, Next, Rank, Done;
    if n == 0 {
      RoundsRun(s, rounds);
    } else {
      OneLess(n, r);
      RoundsRun(s, rounds[..r]);
      FairRunsGoOn(ExecRounds(s, rounds[..r]), rounds[r..], r, n - 1);
      TurnAfterTurn(s, rounds, r, n - 1);
    }
  }

  /** In a weakly fair run the server displays one line after another, until both have left on "q\n". */
  lemma LinesAreDelivered(s0: Sys, rounds: seq<seq<Tick>>, m: nat)
    requires Start(s0) && AllFair(rounds) && |rounds| >= (2 * m + 1) * RoundsPerTurn(s0)
    ensures var e := ExecRounds(s0, rounds);
      && (Done(e) || |e.ex.heard| >= m)
      && (Done(e) ==> Quitting(e.ex))
  {
    StartInv(s0);
    FairRunsGoOn(s0, rounds, RoundsPerTurn(s0), 2 * m + 1);
    RoundsRun(s0, rounds);
  }
}
