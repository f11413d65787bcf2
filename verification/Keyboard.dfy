/** What the user typed: the stream of characters that getchar returned, and the lines it consists of. */
module Keyboard {
  import opened Exchange

  function Concat(lines: seq<Text>): Text {
    if lines == [] then [] else Concat(lines[..|lines| - 1]) + lines[|lines| - 1]
  }

  // ----- The lines of a stream, from the stream alone -----

  /** The length of the first complete line from place `i` on: it ends with a newline or is cap - 1 long; 0 if there is none. */
  function LineEnd(cap: nat, t: Text, i: nat): (n: nat)
    requires i <= |t| && i < cap
    ensures n <= |t|
    decreases |t| - i
  {
    if i == cap - 1 then i
    else if i == |t| then 0
    else if t[i] == '\n' then i + 1
    else LineEnd(cap, t, i + 1)
  }

  /** The complete lines of a stream; characters after the last of them are not a line yet. */
  function Lines(cap: nat, t: Text): seq<Text>
    requires cap > 0
    decreases |t|
  {
    var n := LineEnd(cap, t, 0);
    if n == 0 then [] else [t[..n]] + Lines(cap, t[n..])
  }

  lemma {:induction false} LineEndOfLine(cap: nat, line: Text, more: Text, i: nat)
    requires Line(cap, line) && i < |line|
    ensures LineEnd(cap, line + more, i) == |line|
    decreases |line| - i
  {
    if i < |line| - 1 {
      LineEndOfLine(cap, line, more, i + 1);
    }
  }

  lemma {:induction false} LinesOfConcat(cap: nat, lines: seq<Text>, more: Text)
    requires cap > 0 && forall i :: 0 <= i < |lines| ==> Line(cap, lines[i])
    ensures Lines(cap, Concat(lines) + more) == lines + Lines(cap, more)
    decreases |lines|
  {
    if lines == [] {
      assert Concat(lines) + more == more;
    } else {
      var n := |lines| - 1;
      var last := lines[n];
      LinesOfConcat(cap, lines[..n], last + more);
      assert Concat(lines) + more == Concat(lines[..n]) + (last + more);
      LineEndOfLine(cap, last, more, 0);
      assert (last + more)[..|last|] == last && (last + more)[|last|..] == more;
      assert lines == lines[..n] + [last];
    }
  }

  // ----- What the exchange has taken from the stream -----

  /** Every byte the client has stored in a line, the present one included, in order. */
  function Stored(s: State): Text {
    Concat(s.sent) + if Writing(s) then s.typed else []
  }

  /** What one step of the client takes from getchar, which returns `ch` if it is called. */
  function Taken(s: State, ch: char): Text {
    if s.client.Typing? && |s.typed| < |s.buf| - 1 then [ch] else []
  }

  lemma ClientStores(s: State, ch: char)
    requires Inv(s)
    ensures Stored(ClientStep(s, ch)) == Stored(s) + Taken(s, ch)
    ensures |ClientStep(s, ch).buf| == |s.buf|
  {
    hide BufferInv, QuitInv, OutputInv, LineInv, TurnInv;
    var s' := ClientStep(s, ch);
    match s.client {
      case Closing => assert s'.sent[..|s.sent|] == s.sent;
      case _ =>
    }
  }

  /** The lines sent are lines of the stream, in order, and what the server displayed is those lines. */
  lemma StoredGivesLines(s: State)
    requires Inv(s)
    ensures s.sent <= Lines(|s.buf|, Stored(s))
    ensures forall i :: 0 <= i < |s.heard| ==> i < |Lines(|s.buf|, Stored(s))| && s.heard[i] == Cut(Lines(|s.buf|, Stored(s))[i])
  {
    LinesOfConcat(|s.buf|, s.sent, if Writing(s) then s.typed else []);
  }
}
