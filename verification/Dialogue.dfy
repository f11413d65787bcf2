/**
 * The conversation without its bytes: the server greets, then the client displays what the
 * server says and sends a line, and the server displays that line and answers, in strict
 * alternation.  The byte-level exchange refines this, step by step.
 */
module Dialogue {
  import opened Exchange

  datatype Talk = Talk(
    sent: seq<Text>,
    shown: seq<Text>,
    heard: seq<Text>,
    clientGone: bool,
    serverGone: bool)

  predicate Over(d: Talk) { d.sent != [] && d.sent[|d.sent| - 1] == "q\n" }

  /** The client displays the greeting or the answer to its last line. */
  predicate Display(d: Talk, d': Talk) {
    && |d.shown| == |d.sent| == |d.heard|
    && !Over(d)
    && d' == d.(shown := d.shown + [if d.sent == [] then "Hello!" else "Ok!"])
  }

  predicate Send(d: Talk, d': Talk, line: Text) {
    && |d.shown| == |d.sent| + 1
    && !Over(d)
    && d' == d.(sent := d.sent + [line])
  }

  /** The server displays, as a C string, the one line it has not seen. */
  predicate Hear(d: Talk, d': Talk) {
    && |d.heard| + 1 == |d.sent|
    && d' == d.(heard := d.heard + [Cut(d.sent[|d.heard|])])
  }

  predicate ClientLeaves(d: Talk, d': Talk) { Over(d) && d' == d.(clientGone := true) }
  predicate ServerLeaves(d: Talk, d': Talk) { Over(d) && d' == d.(serverGone := true) }

  predicate Next(d: Talk, d': Talk) {
    || d' == d
    || Display(d, d')
    || (d'.sent != [] && Send(d, d', d'.sent[|d'.sent| - 1]))
    || Hear(d, d')
    || ClientLeaves(d, d')
    || ServerLeaves(d, d')
  }

  /** Exactly-once delivery in order, one line behind at most; nobody leaves before "q\n" and nothing follows it. */
  predicate Faithful(d: Talk) {
    && |d.heard| <= |d.sent| <= |d.heard| + 1
    && (forall i :: 0 <= i < |d.heard| ==> d.heard[i] == Cut(d.sent[i]))
    && |d.sent| <= |d.shown| <= |d.heard| + 1
    && (forall i :: 0 <= i < |d.shown| ==> d.shown[i] == if i == 0 then "Hello!" else "Ok!")
    && (forall i :: 0 <= i < |d.sent| - 1 ==> d.sent[i] != "q\n")
    && (d.clientGone || d.serverGone ==> Over(d))
    && (Over(d) ==> |d.shown| == |d.sent|)
  }

  function Start(): Talk { Talk([], [], [], false, false) }

  lemma StartIsFaithful()
    ensures Faithful(Start())
  {
  }

  lemma NextIsFaithful(d: Talk, d': Talk)
    requires Faithful(d) && Next(d, d')
    ensures Faithful(d')
  {
    if Display(d, d') {
      assert d'.shown[..|d.shown|] == d.shown;
    }
  }

  /** Every state of a finite behaviour of the dialogue. */
  predicate Behaviour(ds: seq<Talk>) {
    && ds != []
    && ds[0] == Start()
    && forall i :: 0 <= i < |ds| - 1 ==> Next(ds[i], ds[i + 1])
  }

  lemma {:induction false} BehavioursAreFaithful(ds: seq<Talk>, i: nat)
    requires Behaviour(ds) && i < |ds|
    ensures Faithful(ds[i])
  {
    if i == 0 {
      StartIsFaithful();
    } else {
      BehavioursAreFaithful(ds, i - 1);
      NextIsFaithful(ds[i - 1], ds[i]);
    }
  }

  // ----- The byte-level exchange refines the dialogue -----

  function Abs(s: State): Talk {
    Talk(s.sent, s.shown, s.heard, s.client.Gone?, s.server.Gone?)
  }

  lemma DisplayRefines(s: State, ch: char)
    requires Inv(s) && s.client.Showing?
    ensures Next(Abs(s), Abs(ClientStep(s, ch)))
  {
    var s' := ClientStep(s, ch);
    ClientShowInv(s, ch);
    if Read(s.buf, |s.clientText|) == NUL {
      assert s'.shown[|s.shown|] == s.clientText;
      hide BufferInv, LineInv, SizeInv;
      assert Display(Abs(s), Abs(s'));
    }
  }

  lemma ClientRefines(s: State, ch: char)
    requires Inv(s)
    ensures Next(Abs(s), Abs(ClientStep(s, ch)))
  {
    var s' := ClientStep(s, ch);
    match s.client {
      case Testing(k) => ClientTestInv(s, ch);
      case Showing => DisplayRefines(s, ch);
      case Closing =>
        assert Send(Abs(s), Abs(s'), s.typed);
      case _ =>
    }
  }

  lemma ServerRefines(s: State)
    requires Inv(s)
    ensures Next(Abs(s), Abs(ServerStep(s)))
  {
    var s' := ServerStep(s);
    match s.server {
      case Testing(k) => ServerTestInv(s);
      case Printing =>
        ServerPrintInv(s);
        if Read(s.buf, |s.serverText|) == NUL {
          assert s'.heard[|s.heard|] == s.serverText;
          assert Hear(Abs(s), Abs(s'));
        }
      case _ =>
    }
  }
}
