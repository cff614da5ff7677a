/** A login and a registration from beginning to end (src/Client.cpp:204-272, 1175-1221, 1371-1405, 1624-1660,
    1767-1818, 1942-1945, 2330-2381): with nothing failing they end logged in, by way of the authorizer and then the
    server it names. */
module ConnectionLogin {
  import opened Connection

  /** The steps in which a dialled socket comes up: none if connect() succeeded at once. */
  function ComesUp(dial: Dial, chunks: seq<seq<Frame>>): seq<Step> {
    if dial == InProgress then [SocketReady(false, true, true, chunks)] else []
  }

  /** One frame arrives alone. */
  function Arrives(f: Frame): Step { SocketReady(true, false, true, [[f]]) }

  /** A client that is not connected and whose listening socket is not in use. */
  predicate Idle(c: Session) { c.state == NotConnected && c.socket == Closed && (c.inDc ==> !c.listening) }

  lemma FreshIsIdle()
    ensures Idle(Fresh())
  {
  }

  lemma {:induction false} RunAppend(c: Session, a: seq<Step>, b: seq<Step>)
    ensures Run(c, a + b) == Run(Run(c, a), b)
    decreases |a|
  {
    hide Next;
    if a == [] {
      assert a + b == b;
    } else {
      assert (a + b)[0] == a[0] && (a + b)[1..] == a[1..] + b;
      RunAppend(Next(c, a[0]), a[1..], b);
    }
  }

  lemma RunOne(c: Session, step: Step)
    ensures Run(c, [step]) == Next(c, step)
  {
    hide Next;
    assert [step][1..] == [];
  }

  /** A dialled socket comes up, and the state waits on. */
  lemma SocketComesUp(c: Session, dial: Dial, next: State, chunks: seq<seq<Frame>>)
    requires c.socket == Closed && dial != Fails
    ensures Run(Connect(c, dial, next), ComesUp(dial, chunks)) == c.(state := next, socket := Open)
  {
    if dial == InProgress { RunOne(Connect(c, dial, next), SocketReady(false, true, true, chunks)); }
  }

  /** A frame read from an open socket, with nothing thrown, has the effect of its handler, closing the socket or not. */
  lemma FrameArrives(c: Session, f: Frame)
    requires c.socket == Open && !ParseFrame(c, f).1
    ensures Next(c, Arrives(f)) == ParseFrame(c, f).0
  {
    hide ParseFrame;
    var d := ParseFrame(c, f).0;
    var none: seq<seq<Frame>> := [];
    assert [f][1..] == [] && [[f]][1..] == none;
    assert ParseFrames(c, [f]) == (d, false);
    assert RecvFromServer(d, none, false) == d;
    assert RecvFromServer(c, [[f]], false) == RecvFromServer(d, none, false);
  }

  lemma {:induction false} SendAllQuiet(c: Session, oks: seq<bool>)
    requires c.socket == Open && AllTrue(oks)
    ensures SendAll(c, oks) == c
    decreases |oks|
  {
    if oks != [] {
      AllTrueSplit(oks);
      SendAllQuiet(c, oks[1..]);
    }
  }

  // ------------------------------------------------------------------
  //  The four stages
  // ------------------------------------------------------------------

  /** The connection is acknowledged: the request goes out and its answer is waited for. */
  lemma AckAdvances(c: Session)
    requires c.socket == Open && Awaiting(c.state)
    ensures Next(c, Arrives(ConnAck(true, true))) == c.(state :=
      if c.state == AuthAwaitingConnAck then AuthAwaitingAuthReply
      else if c.state == UinAwaitingConnAck then UinAwaitingUinReply
      else BosAwaitingLoginReply)
  {
    FrameArrives(c, ConnAck(true, true));
    hide Next;
  }

  /** The authorizer's redirection leads to the other server, whose acknowledgement is then waited for. */
  lemma RedirectionAdvances(c: Session, dial: Dial, chunks: seq<seq<Frame>>)
    requires c.socket == Open && (c.state == AuthAwaitingAuthReply || c.state == UinAwaitingUinReply) && dial != Fails
    ensures Next(c, Arrives(Channel4(true, dial))).state == BosAwaitingConnAck
    ensures Run(Next(c, Arrives(Channel4(true, dial))), ComesUp(dial, chunks)) == c.(state := BosAwaitingConnAck, socket := Open)
  {
    FrameArrives(c, Channel4(true, dial));
    SocketComesUp(DisconnectAuthorizer(c), dial, BosAwaitingConnAck, chunks);
    hide Next, Run;
  }

  /** The server's rates are the last that is waited for. */
  lemma RatesLogIn(c: Session, oks: seq<bool>)
    requires c.socket == Open && AllTrue(oks) && (c.inDc ==> !c.listening)
    ensures Next(c, Arrives(RateInfo(oks, Bound, true))) ==
      c.(state := BosLoggedIn, listening := c.inDc || c.listening, events := c.events + [ConnectedEvent])
  {
    SendAllQuiet(c, oks);
    hide SendAll, AllTrue;
    FrameArrives(c, RateInfo(oks, Bound, true));
    hide Next;
  }

  /** An answer of the authorizer without a cookie ends the attempt, and so does any frame on channel 4 later on. */
  lemma RefusalEnds(c: Session, cookie: bool, dial: Dial)
    requires c.socket == Open
    ensures var r := Next(c, Arrives(Channel4(cookie, dial)));
      !(cookie && (c.state == AuthAwaitingAuthReply || c.state == UinAwaitingUinReply)) ==>
        r.state == NotConnected && r.socket == Closed && r.events == c.events + [DisconnectedEvent]
  {
    FrameArrives(c, Channel4(cookie, dial));
    hide Next;
  }

  // ------------------------------------------------------------------
  //  From beginning to end
  // ------------------------------------------------------------------

  /** From the authorizer's socket being up to the login. */
  function Talk(dial: Dial, oks: seq<bool>, chunks: seq<seq<Frame>>): seq<Step> {
    [Arrives(ConnAck(true, true))] + ([Arrives(Channel4(true, dial))] + (ComesUp(dial, chunks)
      + ([Arrives(ConnAck(true, true))] + [Arrives(RateInfo(oks, Bound, true))])))
  }

  /** What each further stage of the talk has led to. */
  lemma TalkLogsIn(c: Session, dial: Dial, oks: seq<bool>, chunks: seq<seq<Frame>>)
    requires c.socket == Open && (c.inDc ==> !c.listening) && dial != Fails && AllTrue(oks)
    requires c.state == AuthAwaitingConnAck || c.state == UinAwaitingConnAck
    ensures var c1 := Next(c, Arrives(ConnAck(true, true)));
      var c2 := Next(c1, Arrives(Channel4(true, dial)));
      var c3 := Run(c2, ComesUp(dial, chunks));
      var c4 := Next(c3, Arrives(ConnAck(true, true)));
      var c5 := Next(c4, Arrives(RateInfo(oks, Bound, true)));
      && c1 == c.(state := if c.state == AuthAwaitingConnAck then AuthAwaitingAuthReply else UinAwaitingUinReply)
      && c2.state == BosAwaitingConnAck && c3 == c.(state := BosAwaitingConnAck)
      && c4 == c.(state := BosAwaitingLoginReply)
      && c5 == c.(state := BosLoggedIn, listening := c.inDc || c.listening, events := c.events + [ConnectedEvent])
      && Run(c, Talk(dial, oks, chunks)) == c5
  {
    hide Next, Run, AllTrue;
    AckAdvances(c);
    var c1 := Next(c, Arrives(ConnAck(true, true)));
    RedirectionAdvances(c1, dial, chunks);
    var c2 := Next(c1, Arrives(Channel4(true, dial)));
    var c3 := Run(c2, ComesUp(dial, chunks));
    AckAdvances(c3);
    var c4 := Next(c3, Arrives(ConnAck(true, true)));
    RatesLogIn(c4, oks);
    TalkIsItsSteps(c, dial, oks, chunks);
  }

  lemma TalkIsItsSteps(c: Session, dial: Dial, oks: seq<bool>, chunks: seq<seq<Frame>>)
    ensures Run(c, Talk(dial, oks, chunks)) ==
      Next(Next(Run(Next(Next(c, Arrives(ConnAck(true, true))), Arrives(Channel4(true, dial))), ComesUp(dial, chunks)),
                Arrives(ConnAck(true, true))), Arrives(RateInfo(oks, Bound, true)))
  {
    hide Next, Run, ComesUp, Arrives;
    var ack, redirect, rates := Arrives(ConnAck(true, true)), Arrives(Channel4(true, dial)), Arrives(RateInfo(oks, Bound, true));
    var last := [ack] + [rates];
    var up := ComesUp(dial, chunks);
    RunAppend(c, [ack], [redirect] + (up + last));
    RunOne(c, ack);
    var c1 := Next(c, ack);
    RunAppend(c1, [redirect], up + last);
    RunOne(c1, redirect);
    var c2 := Next(c1, redirect);
    RunAppend(c2, up, last);
    var c3 := Run(c2, up);
    RunAppend(c3, [ack], [rates]);
    RunOne(c3, ack);
    RunOne(Next(c3, ack), rates);
  }

  /** Going online: whatever the two connects answer, short of failing, the client waits for the authorizer's
      acknowledgement, its reply, the server's acknowledgement and its login reply, in that order, and is then logged in,
      with one Connected event. */
  lemma LoginSucceeds(c: Session, ok: bool, dial: Dial, dial2: Dial, oks: seq<bool>, chunks: seq<seq<Frame>>)
    requires Idle(c) && dial != Fails && dial2 != Fails && AllTrue(oks)
    ensures var c0 := Next(c, SetStatus(true, dial, ok));
      var up := Run(c0, ComesUp(dial, chunks));
      && c0.state == AuthAwaitingConnAck && up.state == AuthAwaitingConnAck
      && Next(up, Arrives(ConnAck(true, true))).state == AuthAwaitingAuthReply
      && Run(c, [SetStatus(true, dial, ok)] + (ComesUp(dial, chunks) + Talk(dial2, oks, chunks))) ==
           c.(state := BosLoggedIn, socket := Open, listening := c.inDc || c.listening,
              events := c.events + [ConnectingEvent, ConnectedEvent])
  {
    var step := SetStatus(true, dial, ok);
    var c1 := Emit(c, ConnectingEvent);
    assert Next(c, step) == Connect(c1, dial, AuthAwaitingConnAck);
    SocketComesUp(c1, dial, AuthAwaitingConnAck, chunks);
    hide Next, Run, ComesUp, Talk, AllTrue;
    RunAppend(c, [step], ComesUp(dial, chunks) + Talk(dial2, oks, chunks));
    RunOne(c, step);
    RunAppend(Next(c, step), ComesUp(dial, chunks), Talk(dial2, oks, chunks));
    TalkLogsIn(c1.(state := AuthAwaitingConnAck, socket := Open), dial2, oks, chunks);
    assert c.events + [ConnectingEvent] + [ConnectedEvent] == c.events + [ConnectingEvent, ConnectedEvent];
  }

  /** Registering goes the same way through the states of its own, and tells of the connection only. */
  lemma RegistrationSucceeds(c: Session, dial: Dial, dial2: Dial, oks: seq<bool>, chunks: seq<seq<Frame>>)
    requires Idle(c) && dial != Fails && dial2 != Fails && AllTrue(oks)
    ensures var c0 := Next(c, RegisterUIN(dial));
      var up := Run(c0, ComesUp(dial, chunks));
      && c0.state == UinAwaitingConnAck && up.state == UinAwaitingConnAck
      && Next(up, Arrives(ConnAck(true, true))).state == UinAwaitingUinReply
      && Run(c, [RegisterUIN(dial)] + (ComesUp(dial, chunks) + Talk(dial2, oks, chunks))) ==
           c.(state := BosLoggedIn, socket := Open, listening := c.inDc || c.listening,
              events := c.events + [ConnectedEvent])
  {
    var step := RegisterUIN(dial);
    assert Next(c, step) == Connect(c, dial, UinAwaitingConnAck);
    SocketComesUp(c, dial, UinAwaitingConnAck, chunks);
    hide Next, Run, ComesUp, Talk, AllTrue;
    RunAppend(c, [step], ComesUp(dial, chunks) + Talk(dial2, oks, chunks));
    RunOne(c, step);
    RunAppend(Next(c, step), ComesUp(dial, chunks), Talk(dial2, oks, chunks));
    TalkLogsIn(c.(state := UinAwaitingConnAck, socket := Open), dial2, oks, chunks);
  }

  // ------------------------------------------------------------------
  //  When something fails, and when nothing happens
  // ------------------------------------------------------------------

  /** The connection is over and the user told once; the listening socket goes with it, except while still talking to the
      authorizer. */
  predicate EndedBy(c: Session, r: Session) {
    && r.state == NotConnected && r.socket == Closed && r.inDc == c.inDc
    && r.events == c.events + [DisconnectedEvent] && r.listening == (c.listening && InAuthorizer(c.state))
  }

  /** Going offline, a send that fails, a socket that does not come up or breaks, or has an event nobody waits for. */
  predicate FailsAt(c: Session, step: Step) {
    match step
    case SetStatus(online, _, ok) => !online || (c.state == BosLoggedIn && !(c.socket == Open && ok))
    case RegisterUIN(_) => false
    case SocketReady(read, write, ok, chunks) =>
      if c.socket == Connecting && write then !ok
      else if c.socket == Open && read then chunks == [] && !ok
      else true
    case Request(oks) => oks != [] && !(c.socket == Open && AllTrue(oks))
    case SetAcceptInDC(_) => false
  }

  lemma {:induction false} SendAllEnds(c: Session, oks: seq<bool>)
    requires c.state != NotConnected && oks != [] && !(c.socket == Open && AllTrue(oks))
    ensures EndedBy(c, SendAll(c, oks))
    decreases |oks|
  {
    AllTrueSplit(oks);
    var c1 := Send(c, oks[0]);
    SendAllUnfolds(c, oks);
    if c.socket == Open && oks[0] {
      if oks[1..] == [] { NoneFalse(); }
      SendAllEnds(c, oks[1..]);
    } else {
      SendsFindLoss(c1, oks[1..]);
    }
  }

  lemma FailureEnds(c: Session, step: Step)
    requires c.state != NotConnected && FailsAt(c, step)
    ensures EndedBy(c, Next(c, step))
  {
    if step.Request? {
      SendAllEnds(c, step.oks);
      hide SendAll;
    }
  }

  /** A connect that fails is told of, and leaves the client as it was; a listening socket that cannot be had ends a login
      that had come this far. */
  lemma DialFails(c: Session, step: Step)
    requires Idle(c) && ((step.SetStatus? && step.online && step.dial == Fails) || (step.RegisterUIN? && step.dial == Fails))
    ensures Next(c, step) ==
      c.(events := c.events + (if step.SetStatus? then [ConnectingEvent] else []) + [DisconnectedEvent])
  {
    assert c.events + [] == c.events;
  }

  lemma ListeningFails(c: Session, oks: seq<bool>, bind: Bind, ok: bool)
    requires c.state == BosAwaitingLoginReply && c.socket == Open && AllTrue(oks) && c.inDc && (c.listening || bind != Bound)
    ensures var r := Next(c, SocketReady(true, false, true, [[RateInfo(oks, bind, ok)]])); EndedBy(c.(listening := false), r)
  {
    SendAllQuiet(c, oks);
    hide SendAll, AllTrue;
    var f := RateInfo(oks, bind, ok);
    assert ParseFrame(c, f).1;
    ThrownEnds(c, f);
  }

  lemma ThrownEnds(c: Session, f: Frame)
    requires c.socket == Open && ParseFrame(c, f).1
    ensures Next(c, SocketReady(true, false, true, [[f]])) == Disconnect(ParseFrame(c, f).0)
  {
    hide ParseFrame, Disconnect;
    assert [f][1..] == [];
    assert ParseFrames(c, [f]) == (ParseFrame(c, f).0, true);
  }

  /** What changes nothing: going online while connecting or, with the status sent, while logged in; going offline while not
      connected; registering while connected; requests that get through. */
  lemma NothingHappens(c: Session, step: Step)
    requires match step
      case SetStatus(online, _, ok) =>
        if online then c.state != NotConnected && (c.state == BosLoggedIn ==> c.socket == Open && ok) else c.state == NotConnected
      case RegisterUIN(_) => c.state != NotConnected
      case SocketReady(_, _, _, _) => false
      case Request(oks) => c.socket == Open && AllTrue(oks)
      case SetAcceptInDC(inDc) => inDc == c.inDc && (inDc || !c.listening)
    ensures Next(c, step) == c
  {
    if step.Request? { SendAllQuiet(c, step.oks); }
  }

  /** The frames of a chunk are all handled, in order, also after one that ended the connection, up to one that throws. */
  lemma {:induction false} FramesAreHandled(c: Session, a: seq<Frame>, b: seq<Frame>)
    ensures ParseFrames(c, a + b) ==
      if ParseFrames(c, a).1 then ParseFrames(c, a) else ParseFrames(ParseFrames(c, a).0, b)
    decreases |a|
  {
    hide ParseFrame;
    if a == [] {
      assert a + b == b;
    } else {
      assert (a + b)[0] == a[0] && (a + b)[1..] == a[1..] + b;
      FramesAreHandled(ParseFrame(c, a[0]).0, a[1..], b);
    }
  }

  /** Any other frame changes nothing unless a send of its handler is lost. */
  lemma SnacArrives(c: Session, oks: seq<bool>)
    requires c.socket == Open && c.state != NotConnected
    ensures var r := Next(c, Arrives(Snac(oks))); if AllTrue(oks) then r == c else EndedBy(c, r)
  {
    FrameArrives(c, Snac(oks));
    if AllTrue(oks) {
      SendAllQuiet(c, oks);
    } else {
      SendAllEnds(c, oks);
    }
    hide Next, SendAll;
  }

  /** Accepting no more connections closes the listening socket; accepting them again opens none before the next login. */
  lemma AcceptingIsSet(c: Session, inDc: bool)
    ensures Next(c, SetAcceptInDC(inDc)) == c.(inDc := inDc, listening := if inDc then c.listening else false)
  {
  }

  /** A socket in use cannot be dialled. */
  lemma UsedSocketFails(c: Session, dial: Dial)
    requires c.state == NotConnected && c.socket != Closed
    ensures Next(c, RegisterUIN(dial)) == c.(events := c.events + [DisconnectedEvent])
  {
  }
}
