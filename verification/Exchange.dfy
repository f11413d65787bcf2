/**
 * The conversation that shmemserv.c/shmemcli.c and semserv.c/semcli.c hold over one shared
 * string, byte by byte: what each process does with the string once it has its turn, and the
 * test for "q\n" that each makes outside its turn, while the other may be writing.
 *
 * How a turn is granted is left to the two lock implementations; `next` is the abstract token.
 */
module Exchange {

  datatype Party = Client | Server

  type Text = seq<char>

  const NUL: char := '\0'
  const NEWLINE: char := '\n'
  const HELLO: Text := "Hello!"
  const OK: Text := "Ok!"
  const QUIT: Text := "q\n"

  /** Where the client is in its loop; `Waiting` is everything between the quit test and its turn. */
  datatype ClientPhase =
    | Testing(k: nat)   // strcmp is about to compare byte k
    | Waiting
    | Showing           // printing the string
    | Typing            // storing the bytes of getchar
    | Closing           // about to store the final NUL
    | Leaving           // about to give up its turn
    | Gone

  datatype ServerPhase =
    | Testing(k: nat)
    | Waiting
    | Printing
    | Comparing(k: nat) // the strcmp inside the turn
    | Replying(k: nat)  // strcpy is about to store byte k of "Ok!"
    | Leaving
    | Gone

  datatype State = State(
    buf: seq<char>,       // the shared string, MAXLEN bytes
    client: ClientPhase,
    server: ServerPhase,
    clientText: Text,     // what the client has printed of the present string
    serverText: Text,
    typed: Text,          // what the client has stored in the present turn
    next: Party,          // whose turn begins next
    sent: seq<Text>,      // the lines the client has completed
    shown: seq<Text>,     // the strings the client has displayed
    heard: seq<Text>,     // the strings the server has displayed
    turns: nat)           // the turns begun so far

  // ----- The program -----

  /** Invariant SizeInv shows that no access is outside the buffer. */
  function Read(buf: seq<char>, i: nat): char { if i < |buf| then buf[i] else NUL }
  function Write(buf: seq<char>, i: nat, c: char): seq<char> { if i < |buf| then buf[i := c] else buf }

  /** The bytes of a string literal, its terminator included. */
  function Byte(t: Text, i: nat): char { if i < |t| then t[i] else NUL }

  /** One step of the client that does not involve a lock; `ch` is what getchar returns, if called. */
  function ClientStep(s: State, ch: char): State {
    match s.client
    case Testing(k) =>
      if Read(s.buf, k) != Byte(QUIT, k) then s.(client := ClientPhase.Waiting)
      else if k < 2 then s.(client := ClientPhase.Testing(k + 1))
      else s.(client := ClientPhase.Gone)
    case Showing =>
      var c := Read(s.buf, |s.clientText|);
      if c == NUL then s.(shown := s.shown + [s.clientText], client := Typing)
      else s.(clientText := s.clientText + [c])
    case Typing =>
      if |s.typed| < |s.buf| - 1 then
        s.(buf := Write(s.buf, |s.typed|, ch), typed := s.typed + [ch], client := if ch == NEWLINE then Closing else Typing)
      else
        s.(client := Closing)
    case Closing =>
      s.(buf := Write(s.buf, |s.typed|, NUL), sent := s.sent + [s.typed], client := ClientPhase.Leaving)
    case _ => s
  }

  /** One step of the server that does not involve a lock. */
  function ServerStep(s: State): State {
    match s.server
    case Testing(k) =>
      if Read(s.buf, k) != Byte(QUIT, k) then s.(server := ServerPhase.Waiting)
      else if k < 2 then s.(server := ServerPhase.Testing(k + 1))
      else s.(server := ServerPhase.Gone)
    case Printing =>
      var c := Read(s.buf, |s.serverText|);
      if c == NUL then s.(heard := s.heard + [s.serverText], server := Comparing(0))
      else s.(serverText := s.serverText + [c])
    case Comparing(k) =>
      if Read(s.buf, k) != Byte(QUIT, k) then s.(server := Replying(0))
      else if k < 2 then s.(server := Comparing(k + 1))
      else s.(server := ServerPhase.Leaving)
    case Replying(k) =>
      s.(buf := Write(s.buf, k, Byte(OK, k)), server := if k < 3 then Replying(k + 1) else ServerPhase.Leaving)
    case _ => s
  }

  function BeginClient(s: State): State {
    s.(client := Showing, clientText := [], typed := [], next := Server, turns := s.turns + 1)
  }

  function BeginServer(s: State): State {
    s.(server := Printing, serverText := [], next := Client, turns := s.turns + 1)
  }

  /** Back to the loop test, after a turn or without one. */
  function TestClient(s: State): State { s.(client := ClientPhase.Testing(0)) }
  function TestServer(s: State): State { s.(server := ServerPhase.Testing(0)) }

  predicate ClientIn(s: State) { s.client.Showing? || s.client.Typing? || s.client.Closing? || s.client.Leaving? }
  predicate ServerIn(s: State) { s.server.Printing? || s.server.Comparing? || s.server.Replying? || s.server.Leaving? }

  predicate ClientMayBegin(s: State) { s.client.Waiting? && s.next == Client && !ServerIn(s) }
  predicate ServerMayBegin(s: State) { s.server.Waiting? && s.next == Server && !ClientIn(s) }

  /** The server has put "Hello!" in a buffer of MAXLEN bytes and both are at their loop test. */
  predicate Init(s: State) {
    && |s.buf| >= 7
    && Holds(s.buf, HELLO)
    && s.client == ClientPhase.Testing(0)
    && s.server == ServerPhase.Testing(0)
    && s.next == Client
    && s.sent == s.shown == s.heard == []
    && s.turns == 0
  }

  // ----- Specification vocabulary -----

  /** `buf` holds `t` as a C string; bytes after the terminator may be anything. */
  predicate Holds(buf: seq<char>, t: Text) {
    |t| < |buf| && forall i :: 0 <= i <= |t| ==> Read(buf, i) == Byte(t, i)
  }

  /** What printf shows of `t`: up to its first NUL. */
  function Cut(t: Text): Text {
    if t == [] || t[0] == NUL then [] else [t[0]] + Cut(t[1..])
  }

  function Last(s: State): Text { if s.sent == [] then [] else s.sent[|s.sent| - 1] }
  predicate Quitting(s: State) { Last(s) == QUIT }

  /** What is in the string when a turn of the server, or its start-up, is over. */
  function Message(s: State): Text {
    if s.sent == [] then HELLO else if Quitting(s) then QUIT else OK
  }

  /** A line as the typing loop makes it: up to a newline or to MAXLEN - 1 bytes. */
  predicate Line(cap: nat, t: Text) {
    && 0 < |t| < cap
    && (forall i :: 0 <= i < |t| - 1 ==> t[i] != NEWLINE)
    && (t[|t| - 1] == NEWLINE || |t| == cap - 1)
  }

  /** The first `k` bytes of `t`, two at most, are those of "q\n". */
  predicate Starts(t: Text, k: nat) {
    && (k >= 1 ==> |t| >= 1 && t[0] == 'q')
    && (k >= 2 ==> |t| >= 2 && t[1] == NEWLINE)
  }

  predicate Writing(s: State) { s.client.Typing? || s.client.Closing? }

  /** The last completed line still waits for the server. */
  predicate Unheard(s: State) { s.server.Printing? || (s.next == Server && !s.client.Showing? && !Writing(s)) }

  // ----- The invariant -----

  function Bit(b: bool): int { if b then 1 else 0 }

  predicate SizeInv(s: State) {
    && |s.buf| >= 7
    && (s.client.Testing? ==> s.client.k < 3)
    && (s.server.Testing? ==> s.server.k < 3)
    && (s.server.Comparing? ==> s.server.k < 3)
    && (s.server.Replying? ==> s.server.k < 4)
    && (s.client.Showing? ==> |s.clientText| < |s.buf| && s.typed == [])
    && (s.server.Printing? ==> |s.serverText| < |s.buf|)
    && (Writing(s) ==> |s.typed| < |s.buf|)
  }

  predicate TurnInv(s: State) {
    && !(ClientIn(s) && ServerIn(s))
    && (ClientIn(s) ==> s.next == Server)
    && (ServerIn(s) ==> s.next == Client && s.sent != [])
    && |s.shown| == |s.sent| + Bit(Writing(s))
    && |s.sent| == |s.heard| + Bit(Unheard(s))
    && s.turns == |s.shown| + |s.heard| + Bit(s.client.Showing?) + Bit(s.server.Printing?)
  }

  predicate OutputInv(s: State) {
    && |s.heard| <= |s.sent|
    && (forall i :: 0 <= i < |s.heard| ==> s.heard[i] == Cut(s.sent[i]))
    && (forall i :: 0 <= i < |s.shown| ==> s.shown[i] == if i == 0 then HELLO else OK)
  }

  predicate LineInv(s: State) {
    && (forall i :: 0 <= i < |s.sent| ==> Line(|s.buf|, s.sent[i]))
    && (forall i :: 0 <= i < |s.sent| - 1 ==> s.sent[i] != QUIT)
    && (s.client.Typing? ==> NEWLINE !in s.typed)
    && (s.client.Closing? ==> Line(|s.buf|, s.typed))
  }

  predicate BufferInv(s: State) {
    && (Unheard(s) || s.server.Comparing? ==> Holds(s.buf, Last(s)))
    && (s.client.Showing? || s.server.Leaving? || (s.next == Client && !ServerIn(s)) ==> Holds(s.buf, Message(s)))
    && (Writing(s) ==>
          && |s.typed| < |s.buf|
          && (forall i :: 0 <= i < |s.typed| ==> Read(s.buf, i) == s.typed[i])
          && (forall i :: |s.typed| <= i <= |Message(s)| ==> Read(s.buf, i) == Byte(Message(s), i)))
    && (s.server.Replying? ==>
          && |Last(s)| < |s.buf|
          && (forall i :: 0 <= i < s.server.k ==> Read(s.buf, i) == Byte(OK, i))
          && (forall i :: s.server.k <= i <= |Last(s)| ==> Read(s.buf, i) == Byte(Last(s), i)))
    && (s.client.Showing? ==> s.clientText <= Message(s))
    && (s.server.Printing? ==> s.serverText <= Last(s) && NUL !in s.serverText)
  }

  predicate QuitInv(s: State) {
    && (s.client.Waiting? || s.client.Showing? || Writing(s) ==> !Quitting(s))
    && (s.client.Gone? || s.server.Gone? ==> Quitting(s))
    && (s.server.Replying? ==> !Quitting(s))
    && (s.server.Waiting? && s.next == Client ==> !Quitting(s))
    && (s.server.Comparing? ==> Starts(Last(s), s.server.k))
    && (s.client.Testing? && s.client.k > 0 ==> Starts(Last(s), s.client.k))
    && (s.server.Testing? && s.server.k > 0 ==>
          || (Writing(s) && Starts(s.typed, s.server.k))
          || ((Unheard(s) || Quitting(s)) && !Writing(s) && Starts(Last(s), s.server.k)))
  }

  predicate Inv(s: State) {
    SizeInv(s) && TurnInv(s) && OutputInv(s) && LineInv(s) && BufferInv(s) && QuitInv(s)
  }

  // ----- How far a turn is from its end -----

  /** The steps to the end of the client's turn, at most. */
  function ClientWork(s: State): int {
    match s.client
    case Showing => 2 * |s.buf| - |s.clientText| + 3
    case Typing => |s.buf| - |s.typed| + 2
    case Closing => 2
    case Leaving => 1
    case _ => 0
  }

  function ServerWork(s: State): int {
    match s.server
    case Printing => |s.buf| - |s.serverText| + 8
    case Comparing(k) => 8 - k
    case Replying(k) => 5 - k
    case Leaving => 1
    case _ => 0
  }

  // ----- Every step keeps the invariant -----

  /** A newline ends a line, so only "q\n" itself begins with these two bytes. */
  lemma QuitLine(cap: nat, t: Text)
    requires Line(cap, t) && Starts(t, 2)
    ensures t == QUIT
  {
  }

  /** The printing loop stops exactly at the end of what printf shows. */
  lemma {:induction false} CutAt(t: Text, j: nat)
    requires j <= |t|
    requires NUL !in t[..j]
    requires j == |t| || t[j] == NUL
    ensures Cut(t) == t[..j]
  {
    if j > 0 {
      assert t[1..][..j - 1] == t[1..j];
      CutAt(t[1..], j - 1);
    }
  }

  lemma InitInv(s: State)
    requires Init(s)
    ensures Inv(s)
  {
  }

  /** A byte of "q\n" that the client's unlocked test finds is a byte of its own last line. */
  lemma ClientSees(s: State)
    requires Inv(s) && s.client.Testing?
    ensures Read(s.buf, s.client.k) != Byte(QUIT, s.client.k) ==> !Quitting(s)
    ensures Read(s.buf, s.client.k) == Byte(QUIT, s.client.k) ==>
      if s.client.k < 2 then Starts(Last(s), s.client.k + 1) else Quitting(s)
  {
    var k := s.client.k;
    if k == 2 {
      QuitLine(|s.buf|, Last(s));
    }
  }

  /** A byte of "q\n" that the server's unlocked test finds is a byte of the client's present or last line. */
  lemma ServerSees(s: State)
    requires Inv(s) && s.server.Testing?
    ensures Read(s.buf, s.server.k) == Byte(QUIT, s.server.k) ==>
      if s.server.k == 2 then Quitting(s)
      else if Writing(s) then Starts(s.typed, s.server.k + 1)
      else (Unheard(s) || Quitting(s)) && Starts(Last(s), s.server.k + 1)
  {
    var k := s.server.k;
    if k == 2 {
      if Writing(s) {
        if s.client.Closing? {
          QuitLine(|s.buf|, s.typed);
        }
      } else {
        QuitLine(|s.buf|, Last(s));
      }
    }
  }

  lemma ClientTestInv(s: State, ch: char)
    requires Inv(s) && s.client.Testing?
    ensures Inv(ClientStep(s, ch))
  {
    ClientSees(s);
    var s' := ClientStep(s, ch);
    assert QuitInv(s');
  }

  lemma ClientShowByteInv(s: State, ch: char)
    requires Inv(s) && s.client.Showing? && Read(s.buf, |s.clientText|) != NUL
    ensures Inv(ClientStep(s, ch))
  {
  }

  lemma ClientShowEndInv(s: State, ch: char)
    requires Inv(s) && s.client.Showing? && Read(s.buf, |s.clientText|) == NUL
    ensures Inv(ClientStep(s, ch))
  {
    assert s.clientText == Message(s);
  }

  lemma ClientShowInv(s: State, ch: char)
    requires Inv(s) && s.client.Showing?
    ensures Inv(ClientStep(s, ch))
  {
    hide Inv, ClientStep;
    if Read(s.buf, |s.clientText|) == NUL {
      ClientShowEndInv(s, ch);
    } else {
      ClientShowByteInv(s, ch);
    }
  }

  lemma ClientTypeInv(s: State, ch: char)
    requires Inv(s) && s.client.Typing?
    ensures Inv(ClientStep(s, ch))
  {
    var s' := ClientStep(s, ch);
    assert forall i: nat :: i != |s.typed| ==> Read(s'.buf, i) == Read(s.buf, i);
  }

  lemma ClientCloseInv(s: State, ch: char)
    requires Inv(s) && s.client.Closing?
    ensures Inv(ClientStep(s, ch))
  {
  }

  lemma ServerTestInv(s: State)
    requires Inv(s) && s.server.Testing?
    ensures Inv(ServerStep(s))
  {
    ServerSees(s);
    var s' := ServerStep(s);
    assert QuitInv(s');
  }

  lemma ServerPrintInv(s: State)
    requires Inv(s) && s.server.Printing?
    ensures Inv(ServerStep(s))
  {
    var j := |s.serverText|;
    if Read(s.buf, j) == NUL {
      CutAt(Last(s), j);
    }
  }

  lemma ServerCompareInv(s: State)
    requires Inv(s) && s.server.Comparing?
    ensures Inv(ServerStep(s))
  {
    if s.server.k == 2 {
      QuitLine(|s.buf|, Last(s));
    }
  }

  lemma ServerReplyInv(s: State)
    requires Inv(s) && s.server.Replying?
    ensures Inv(ServerStep(s))
  {
    var s' := ServerStep(s);
    assert forall i: nat :: i != s.server.k ==> Read(s'.buf, i) == Read(s.buf, i);
    if s.server.k == 3 {
      assert forall i :: 0 <= i <= 3 ==> Read(s'.buf, i) == Byte(OK, i);
    }
  }

  lemma BeginClientInv(s: State)
    requires Inv(s) && ClientMayBegin(s)
    ensures Inv(BeginClient(s))
  {
  }

  lemma BeginServerInv(s: State)
    requires Inv(s) && ServerMayBegin(s)
    ensures Inv(BeginServer(s))
  {
  }

  lemma TestClientInv(s: State)
    requires Inv(s) && (s.client.Waiting? || s.client.Leaving?)
    ensures Inv(TestClient(s))
  {
  }

  lemma TestServerInv(s: State)
    requires Inv(s) && (s.server.Waiting? || s.server.Leaving?)
    ensures Inv(TestServer(s))
  {
  }

  lemma ClientStepInv(s: State, ch: char)
    requires Inv(s)
    ensures Inv(ClientStep(s, ch))
  {
    hide Inv;
    match s.client {
      case Testing(_) => ClientTestInv(s, ch);
      case Showing => ClientShowInv(s, ch);
      case Typing => ClientTypeInv(s, ch);
      case Closing => ClientCloseInv(s, ch);
      case _ =>
    }
  }

  lemma ServerStepInv(s: State)
    requires Inv(s)
    ensures Inv(ServerStep(s))
  {
    hide Inv;
    match s.server {
      case Testing(_) => ServerTestInv(s);
      case Printing => ServerPrintInv(s);
      case Comparing(_) => ServerCompareInv(s);
      case Replying(_) => ServerReplyInv(s);
      case _ =>
    }
  }
}
