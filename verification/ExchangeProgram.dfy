/** The processes of homework6/example3 acting on the shared block in place, one atomic step a call. */
module ExchangeProgram {
  import opened Exchange

  /** The shared string, and what the two processes do to it between gaining and giving up a turn. */
  class Conversation {
    const str: array<char>
    var client: ClientPhase
    var server: ServerPhase
    var clientText: Text
    var serverText: Text
    var typed: Text
    var next: Party
    var sent: seq<Text>
    var shown: seq<Text>
    var heard: seq<Text>
    var turns: nat

    function Value(): State
      reads this, str
    {
      State(str[..], client, server, clientText, serverText, typed, next, sent, shown, heard, turns)
    }

    /** What the server does before its loop. */
    constructor (block: array<char>)
      requires block.Length >= 7
      requires block[..7] == HELLO + [NUL]
      ensures str == block
      ensures Init(Value())
    {
      str := block;
      client, server := ClientPhase.Testing(0), ServerPhase.Testing(0);
      clientText, serverText, typed := [], [], [];
      next := Client;
      sent, shown, heard := [], [], [];
      turns := 0;
      new;
      assert forall i :: 0 <= i < 7 ==> str[i] == str[..7][i];
    }

    method RunClient(ch: char)
      requires SizeInv(Value())
      modifies this, str
      ensures Value() == ClientStep(old(Value()), ch)
    {
      match client {
        case Testing(k) =>
          if str[k] != Byte(QUIT, k) {
            client := ClientPhase.Waiting;
          } else {
            client := if k < 2 then ClientPhase.Testing(k + 1) else ClientPhase.Gone;
          }
        case Showing =>
          var c := str[|clientText|];
          if c == NUL {
            shown := shown + [clientText];
            client := Typing;
          } else {
            clientText := clientText + [c];
          }
        case Typing =>
          if |typed| < str.Length - 1 {
            str[|typed|] := ch;
            typed := typed + [ch];
            client := if ch == NEWLINE then Closing else Typing;
          } else {
            client := Closing;
          }
        case Closing =>
          str[|typed|] := NUL;
          sent := sent + [typed];
          client := ClientPhase.Leaving;
        case Waiting =>
        case Leaving =>
        case Gone =>
      }
    }

    method RunServer()
      requires SizeInv(Value())
      modifies this, str
      ensures Value() == ServerStep(old(Value()))
    {
      match server {
        case Testing(k) =>
          if str[k] != Byte(QUIT, k) {
            server := ServerPhase.Waiting;
          } else {
            server := if k < 2 then ServerPhase.Testing(k + 1) else ServerPhase.Gone;
          }
        case Printing =>
          var c := str[|serverText|];
          if c == NUL {
            heard := heard + [serverText];
            server := Comparing(0);
          } else {
            serverText := serverText + [c];
          }
        case Comparing(k) =>
          if str[k] != Byte(QUIT, k) {
            server := Replying(0);
          } else {
            server := if k < 2 then Comparing(k + 1) else ServerPhase.Leaving;
          }
        case Replying(k) =>
          str[k] := Byte(OK, k);
          server := if k < 3 then Replying(k + 1) else ServerPhase.Leaving;
        case Waiting =>
        case Leaving =>
        case Gone =>
      }
    }

    method StartClientTurn()
      modifies this
      ensures Value() == BeginClient(old(Value()))
    {
      client := Showing;
      clientText, typed := [], [];
      next := Server;
      turns := turns + 1;
    }

    method StartServerTurn()
      modifies this
      ensures Value() == BeginServer(old(Value()))
    {
      server := Printing;
      serverText := [];
      next := Client;
      turns := turns + 1;
    }

    method RetestClient()
      modifies this
      ensures Value() == TestClient(old(Value()))
    {
      client := ClientPhase.Testing(0);
    }

    method RetestServer()
      modifies this
      ensures Value() == TestServer(old(Value()))
    {
      server := ServerPhase.Testing(0);
    }
  }
}

/** shmemserv.c and shmemcli.c over the block. */
module PetersonProgram {
  import opened Exchange
  import opened ExchangeProgram
  import opened Keyboard
  import opened Peterson
  import Dialogue

  class SharedMemory {
    const talk: Conversation
    var clientLock: Flag
    var serverLock: Flag
    var turn: Party
    var readlast: Party
    var clientGate: Gate
    var serverGate: Gate

    function Value(): Sys
      reads this, talk, talk.str
    {
      Sys(talk.Value(), clientLock, serverLock, turn, readlast, clientGate, serverGate)
    }

    constructor (talk: Conversation)
      requires Init(talk.Value())
      ensures this.talk == talk && Start(Value())
    {
      this.talk := talk;
      turn := Client;
      clientLock, serverLock := Free, Free;
      readlast := Server;
      clientGate, serverGate := SetFlag, SetFlag;
    }

    method ClientProcess(ch: char)
      requires SizeInv(talk.Value())
      modifies this, talk, talk.str
      ensures Value() == Next(old(Value()), Tick.RunClient(ch))
    {
      if talk.client == ClientPhase.Waiting {
        match clientGate {
          case SetFlag =>
            clientLock := Busy;
            clientGate := SetTurn;
          case SetTurn =>
            turn := Server;
            clientGate := SpinFlag;
          case SpinFlag =>
            clientGate := if serverLock == Busy then SpinTurn else CheckLast;
          case SpinTurn =>
            clientGate := if turn == Server then SpinFlag else CheckLast;
          case CheckLast =>
            if readlast == Server {
              clientGate := Claim;
            } else {
              talk.RetestClient();
              clientGate := SetFlag;
            }
          case Claim =>
            readlast := Client;
            talk.StartClientTurn();
            clientGate := SetFlag;
        }
      } else if talk.client == ClientPhase.Leaving {
        clientLock := Free;
        talk.RetestClient();
      } else {
        talk.RunClient(ch);
      }
    }

    method ServerProcess()
      requires SizeInv(talk.Value())
      modifies this, talk, talk.str
      ensures Value() == Next(old(Value()), Tick.RunServer)
    {
      if talk.server == ServerPhase.Waiting {
        match serverGate {
          case SetFlag =>
            serverLock := Busy;
            serverGate := SetTurn;
          case SetTurn =>
            turn := Client;
            serverGate := SpinFlag;
          case SpinFlag =>
            serverGate := if clientLock == Busy then SpinTurn else CheckLast;
          case SpinTurn =>
            serverGate := if turn == Client then SpinFlag else CheckLast;
          case CheckLast =>
            if readlast == Client {
              serverGate := Claim;
            } else {
              talk.RetestServer();
              serverGate := SetFlag;
            }
          case Claim =>
            readlast := Server;
            talk.StartServerTurn();
            serverGate := SetFlag;
        }
      } else if talk.server == ServerPhase.Leaving {
        serverLock := Free;
        talk.RetestServer();
      } else {
        talk.RunServer();
      }
    }

    /** Any interleaving keeps inside the string and holds a faithful conversation. */
    method Run(schedule: seq<Tick>)
      requires Start(Value())
      modifies this, talk, talk.str
      ensures Value() == Exec(old(Value()), schedule)
      ensures Dialogue.Faithful(Dialogue.Abs(talk.Value()))
      ensures talk.sent <= Lines(talk.str.Length, Typed(old(Value()), schedule))
      ensures !(ClientIn(talk.Value()) && ServerIn(talk.Value()))
    {
      ghost var start := Value();
      StartInv(start);
      for i := 0 to |schedule|
        invariant Value() == Exec(start, schedule[..i])
      {
        SysRun(start, schedule[..i]);
        match schedule[i] {
          case RunClient(ch) => ClientProcess(ch);
          case RunServer => ServerProcess();
        }
        ExecAppend(start, schedule[..i], [schedule[i]]);
        assert schedule[..i] + [schedule[i]] == schedule[..i + 1];
      }
      assert schedule[..|schedule|] == schedule;
      ConversationIsFaithful(start, schedule);
      LinesAreTyped(start, schedule);
      MutualExclusion(start, schedule);
    }
  }
}

/** semserv.c and semcli.c over the block. */
module SemaphoreProgram {
  import opened Exchange
  import opened ExchangeProgram
  import opened Keyboard
  import opened Semaphores
  import Dialogue

  class SemaphoreSet {
    const talk: Conversation
    var sem0: int
    var sem1: int

    function Value(): Sys
      reads this, talk, talk.str
    {
      Sys(talk.Value(), sem0, sem1)
    }

    /** The server sets semaphore 0 to zero and posts semaphore 1 before its loop. */
    constructor (talk: Conversation)
      requires Init(talk.Value())
      ensures this.talk == talk && Start(Value())
    {
      this.talk := talk;
      sem0 := 0;
      sem1 := 1;
    }

    method ClientProcess(ch: char)
      requires SizeInv(talk.Value())
      modifies this, talk, talk.str
      ensures Value() == Next(old(Value()), Tick.RunClient(ch))
    {
      if talk.client == ClientPhase.Waiting {
        if sem1 > 0 {
          sem1 := sem1 - 1;
          talk.StartClientTurn();
        }
      } else if talk.client == ClientPhase.Leaving {
        sem0 := sem0 + 1;
        talk.RetestClient();
      } else {
        talk.RunClient(ch);
      }
    }

    method ServerProcess()
      requires SizeInv(talk.Value())
      modifies this, talk, talk.str
      ensures Value() == Next(old(Value()), Tick.RunServer)
    {
      if talk.server == ServerPhase.Waiting {
        if sem0 > 0 {
          sem0 := sem0 - 1;
          talk.StartServerTurn();
        }
      } else if talk.server == ServerPhase.Leaving {
        sem1 := sem1 + 1;
        talk.RetestServer();
      } else {
        talk.RunServer();
      }
    }

    method Run(schedule: seq<Tick>)
      requires Start(Value())
      modifies this, talk, talk.str
      ensures Value() == Exec(old(Value()), schedule)
      ensures Dialogue.Faithful(Dialogue.Abs(talk.Value()))
      ensures talk.sent <= Lines(talk.str.Length, Typed(old(Value()), schedule))
      ensures sem0 + sem1 + Bit(ClientIn(talk.Value())) + Bit(ServerIn(talk.Value())) == 1
    {
      ghost var start := Value();
      StartInv(start);
      for i := 0 to |schedule|
        invariant Value() == Exec(start, schedule[..i])
      {
        SysRun(start, schedule[..i]);
        match schedule[i] {
          case RunClient(ch) => ClientProcess(ch);
          case RunServer => ServerProcess();
        }
        ExecAppend(start, schedule[..i], [schedule[i]]);
        assert schedule[..i] + [schedule[i]] == schedule[..i + 1];
      }
      assert schedule[..|schedule|] == schedule;
      ConversationIsFaithful(start, schedule);
      LinesAreTyped(start, schedule);
      TokenIsConserved(start, schedule);
    }
  }
}
