/** The state of the connection to the server and the events the user sees (src/Client.cpp:204-285,
    325-333, 1175-1284, 1371-1405, 1624-1723, 1762-1960, 2330-2381, 2804-2817). Any send may fail. */
module Connection {
  datatype State =
    | NotConnected | AuthAwaitingConnAck | AuthAwaitingAuthReply | BosAwaitingConnAck
    | BosAwaitingLoginReply | BosLoggedIn | UinAwaitingConnAck | UinAwaitingUinReply

  datatype Socket = Closed | Connecting | Open

  datatype Event = ConnectingEvent | ConnectedEvent | DisconnectedEvent

  datatype Session = Session(state: State, socket: Socket, listening: bool, inDc: bool, events: seq<Event>)

  /** What connect() and the listening socket's creation may answer. */
  datatype Dial = Fails | InProgress | AtOnce
  datatype Bind = Bound | NotCreated | NotBound

  predicate InAuthorizer(s: State) {
    s == AuthAwaitingConnAck || s == AuthAwaitingAuthReply || s == UinAwaitingConnAck || s == UinAwaitingUinReply
  }

  function Emit(c: Session, e: Event): Session { c.(events := c.events + [e]) }

  // ------------------------------------------------------------------
  //  Connecting, disconnecting, sending
  // ------------------------------------------------------------------

  function DisconnectAuthorizer(c: Session): Session { c.(state := NotConnected, socket := Closed) }

  function DisconnectBOS(c: Session): Session { c.(state := NotConnected, socket := Closed, listening := false) }

  function Disconnect(c: Session): Session {
    if c.state == NotConnected then c
    else Emit(if InAuthorizer(c.state) then DisconnectAuthorizer(c) else DisconnectBOS(c), DisconnectedEvent)
  }

  /** Dials, and waits in the given state; a socket in use throws, like a failed connect. */
  function Connect(c: Session, dial: Dial, next: State): Session {
    if c.socket != Closed || dial == Fails then Emit(c, DisconnectedEvent)
    else c.(socket := if dial == AtOnce then Open else Connecting, state := next)
  }

  function Send(c: Session, ok: bool): Session {
    if c.socket == Open && ok then c
    else Disconnect(c.(socket := if c.socket == Open then Closed else c.socket))
  }

  function SendAll(c: Session, oks: seq<bool>): Session
    decreases |oks|
  {
    if oks == [] then c else SendAll(Send(c, oks[0]), oks[1..])
  }

  /** The flag says that a SocketException was thrown. */
  function Listen(c: Session, bind: Bind): (Session, bool) {
    if !c.inDc then (c, false)
    else if c.listening then (c, true)
    else (c.(listening := bind != NotCreated), bind != Bound)
  }

  function SendLogin(c: Session, bind: Bind, ok: bool): (Session, bool) {
    var (c1, thrown) := Listen(c, bind);
    if thrown then (c1, true) else (Emit(Send(c1, ok).(state := BosLoggedIn), ConnectedEvent), false)
  }

  // ------------------------------------------------------------------
  //  Frames from the server, with what their handlers' sends come to
  // ------------------------------------------------------------------

  datatype Frame =
    | ConnAck(ok: bool, ok2: bool)                // channel 1, four bytes
    | Channel4(cookie: bool, dial: Dial)          // a redirection with a cookie, or anything else
    | RateInfo(oks: seq<bool>, bind: Bind, ok: bool)
    | Snac(oks: seq<bool>)                        // any other handler, with its sends

  function ParseConnAck(c: Session, ok: bool, ok2: bool): Session {
    match c.state
    case AuthAwaitingConnAck => Send(c, ok).(state := AuthAwaitingAuthReply)
    case UinAwaitingConnAck => Send(Send(c, ok), ok2).(state := UinAwaitingUinReply)
    case BosAwaitingConnAck => Send(c, ok).(state := BosAwaitingLoginReply)
    case _ => c
  }

  function ParseChannel4(c: Session, cookie: bool, dial: Dial): Session {
    if c.state == AuthAwaitingAuthReply || c.state == UinAwaitingUinReply then
      var c1 := DisconnectAuthorizer(c);
      if cookie then Connect(c1, dial, BosAwaitingConnAck) else Emit(c1, DisconnectedEvent)
    else Emit(DisconnectBOS(c), DisconnectedEvent)
  }

  function ParseFrame(c: Session, f: Frame): (Session, bool) {
    match f
    case ConnAck(ok, ok2) => (ParseConnAck(c, ok, ok2), false)
    case Channel4(cookie, dial) => (ParseChannel4(c, cookie, dial), false)
    case RateInfo(oks, bind, ok) => SendLogin(SendAll(c, oks), bind, ok)
    case Snac(oks) => (SendAll(c, oks), false)
  }

  /** Parse goes through all the frames received, even when one of them disconnects. */
  function ParseFrames(c: Session, frames: seq<Frame>): (Session, bool)
    decreases |frames|
  {
    if frames == [] then (c, false)
    else
      var (c1, thrown) := ParseFrame(c, frames[0]);
      if thrown then (c1, true) else ParseFrames(c1, frames[1..])
  }

  /** Reads while the socket is connected; after the last chunk there is nothing to read, or the read fails. */
  function RecvFromServer(c: Session, chunks: seq<seq<Frame>>, fails: bool): Session
    decreases |chunks|
  {
    if c.socket != Open then c
    else if chunks == [] then if fails then Disconnect(c.(socket := Closed)) else c
    else
      var (c1, thrown) := ParseFrames(c, chunks[0]);
      if thrown then Disconnect(c1) else RecvFromServer(c1, chunks[1..], fails)
  }

  // ------------------------------------------------------------------
  //  Calls from the user
  // ------------------------------------------------------------------

  datatype Step =
    | SetStatus(online: bool, dial: Dial, ok: bool)
    | RegisterUIN(dial: Dial)
    | SocketReady(read: bool, write: bool, ok: bool, chunks: seq<seq<Frame>>)
    | Request(oks: seq<bool>)                     // Poll's ping, and every call that only sends
    | SetAcceptInDC(inDc: bool)

  function SetStatusTo(c: Session, online: bool, dial: Dial, ok: bool): Session {
    if !online then Disconnect(c)
    else if c.state == BosLoggedIn then Send(c, ok)
    else if c.state == NotConnected then Connect(Emit(c, ConnectingEvent), dial, AuthAwaitingConnAck)
    else c
  }

  function ServerSocketReady(c: Session, read: bool, write: bool, ok: bool, chunks: seq<seq<Frame>>): Session {
    if c.socket == Connecting && write then
      if ok then c.(socket := Open) else Disconnect(c.(socket := Closed))
    else if c.socket == Open && read then RecvFromServer(c, chunks, !ok)
    else Disconnect(c)
  }

  function Next(c: Session, step: Step): Session {
    match step
    case SetStatus(online, dial, ok) => SetStatusTo(c, online, dial, ok)
    case RegisterUIN(dial) => if c.state == NotConnected then Connect(c, dial, UinAwaitingConnAck) else c
    case SocketReady(read, write, ok, chunks) => ServerSocketReady(c, read, write, ok, chunks)
    case Request(oks) => SendAll(c, oks)
    case SetAcceptInDC(inDc) => c.(inDc := inDc, listening := c.listening && inDc)
  }

  function Run(c: Session, steps: seq<Step>): Session
    decreases |steps|
  {
    if steps == [] then c else Run(Next(c, steps[0]), steps[1..])
  }

  function Fresh(): Session { Session(NotConnected, Closed, false, true, []) }

  predicate IsConnected(c: Session) { c.state == BosLoggedIn }

  // ------------------------------------------------------------------
  //  isConnected() tells what the events told
  // ------------------------------------------------------------------

  /** Of the Connected and Disconnected events, the most recent is a Connected. */
  predicate LastConnected(events: seq<Event>) {
    if events == [] then false
    else match events[|events| - 1]
      case ConnectedEvent => true
      case DisconnectedEvent => false
      case ConnectingEvent => LastConnected(events[..|events| - 1])
  }

  /** The second half is why a connect from NotConnected never finds the socket in use. */
  predicate Inv(c: Session) {
    && (IsConnected(c) <==> LastConnected(c.events))
    && (c.state == NotConnected ==> c.socket == Closed)
  }

  lemma EmitTells(c: Session, e: Event)
    ensures LastConnected(Emit(c, e).events) ==
      match e case ConnectedEvent => true case DisconnectedEvent => false case ConnectingEvent => LastConnected(c.events)
  {
    assert (c.events + [e])[..|c.events|] == c.events;
  }

  lemma DisconnectKeeps(c: Session, socket: Socket)
    requires Inv(c)
    requires c.state == NotConnected ==> socket == Closed
    ensures Inv(Disconnect(c.(socket := socket))) && Disconnect(c.(socket := socket)).state == NotConnected
  {
    EmitTells(DisconnectBOS(c), DisconnectedEvent);
    EmitTells(DisconnectAuthorizer(c), DisconnectedEvent);
  }

  lemma SendKeeps(c: Session, ok: bool)
    requires Inv(c)
    ensures Inv(Send(c, ok)) && (Send(c, ok) == c || Send(c, ok).state == NotConnected)
  {
    DisconnectKeeps(c, if c.socket == Open then Closed else c.socket);
  }

  lemma {:induction false} SendAllKeeps(c: Session, oks: seq<bool>)
    requires Inv(c)
    ensures Inv(SendAll(c, oks)) && (SendAll(c, oks) == c || SendAll(c, oks).state == NotConnected)
    decreases |oks|
  {
    if oks != [] {
      SendKeeps(c, oks[0]);
      SendAllKeeps(Send(c, oks[0]), oks[1..]);
    }
  }

  lemma ConnectKeeps(c: Session, dial: Dial, next: State)
    requires Inv(c) && c.state == NotConnected && next != BosLoggedIn && next != NotConnected
    ensures Inv(Connect(c, dial, next))
  {
    EmitTells(c, DisconnectedEvent);
  }

  lemma ConnAckKeeps(c: Session, ok: bool, ok2: bool)
    requires Inv(c)
    ensures Inv(ParseConnAck(c, ok, ok2))
  {
    SendKeeps(c, ok);
    SendKeeps(Send(c, ok), ok2);
    hide Send, LastConnected;
  }

  lemma Channel4Keeps(c: Session, cookie: bool, dial: Dial)
    requires Inv(c)
    ensures Inv(ParseChannel4(c, cookie, dial))
  {
    EmitTells(DisconnectBOS(c), DisconnectedEvent);
    var c1 := DisconnectAuthorizer(c);
    EmitTells(c1, DisconnectedEvent);
    if c.state == AuthAwaitingAuthReply || c.state == UinAwaitingUinReply { ConnectKeeps(c1, dial, BosAwaitingConnAck); }
  }

  lemma LoginKeeps(c: Session, bind: Bind, ok: bool)
    requires Inv(c)
    ensures Inv(SendLogin(c, bind, ok).0)
  {
    var c1 := Listen(c, bind).0;
    SendKeeps(c1, ok);
    EmitTells(Send(c1, ok).(state := BosLoggedIn), ConnectedEvent);
  }

  lemma FrameKeeps(c: Session, f: Frame)
    requires Inv(c)
    ensures Inv(ParseFrame(c, f).0)
  {
    match f
    case ConnAck(ok, ok2) => ConnAckKeeps(c, ok, ok2);
    case Channel4(cookie, dial) => Channel4Keeps(c, cookie, dial);
    case RateInfo(oks, bind, ok) => SendAllKeeps(c, oks); LoginKeeps(SendAll(c, oks), bind, ok);
    case Snac(oks) => SendAllKeeps(c, oks);
  }

  lemma {:induction false} FramesKeep(c: Session, frames: seq<Frame>)
    requires Inv(c)
    ensures Inv(ParseFrames(c, frames).0)
    decreases |frames|
  {
    hide ParseFrame, Inv;
    if frames != [] {
      FrameKeeps(c, frames[0]);
      FramesKeep(ParseFrame(c, frames[0]).0, frames[1..]);
    }
  }

  lemma {:induction false} RecvKeeps(c: Session, chunks: seq<seq<Frame>>, fails: bool)
    requires Inv(c)
    ensures Inv(RecvFromServer(c, chunks, fails))
    decreases |chunks|
  {
    hide ParseFrames;
    if c.socket != Open {
    } else if chunks == [] {
      DisconnectKeeps(c, Closed);
    } else {
      FramesKeep(c, chunks[0]);
      var c1 := ParseFrames(c, chunks[0]).0;
      DisconnectKeeps(c1, c1.socket);
      RecvKeeps(c1, chunks[1..], fails);
    }
  }

  lemma StepKeeps(c: Session, step: Step)
    requires Inv(c)
    ensures Inv(Next(c, step))
  {
    DisconnectKeeps(c, c.socket);
    DisconnectKeeps(c, Closed);
    hide RecvFromServer, SendAll;
    match step
    case SetStatus(online, dial, ok) =>
      SendKeeps(c, ok);
      EmitTells(c, ConnectingEvent);
      if c.state == NotConnected { ConnectKeeps(Emit(c, ConnectingEvent), dial, AuthAwaitingConnAck); }
    case RegisterUIN(dial) => if c.state == NotConnected { ConnectKeeps(c, dial, UinAwaitingConnAck); }
    case SocketReady(read, write, ok, chunks) => RecvKeeps(c, chunks, !ok);
    case Request(oks) => SendAllKeeps(c, oks);
    case SetAcceptInDC(_) =>
  }

  lemma {:induction false} RunKeeps(c: Session, steps: seq<Step>)
    requires Inv(c)
    ensures Inv(Run(c, steps))
    decreases |steps|
  {
    hide Next, Inv;
    if steps != [] {
      StepKeeps(c, steps[0]);
      RunKeeps(Next(c, steps[0]), steps[1..]);
    }
  }

  /** What the library promises of isConnected(): after every run it agrees with the events. */
  lemma IsConnectedTellsEvents(steps: seq<Step>)
    ensures var c := Run(Fresh(), steps);
      (IsConnected(c) <==> LastConnected(c.events)) && (c.state == NotConnected ==> c.socket == Closed)
  {
    RunKeeps(Fresh(), steps);
  }

  // ------------------------------------------------------------------
  //  When the state outlives the socket
  // ------------------------------------------------------------------

  /** Any state but NotConnected has a socket behind it. */
  predicate Backed(c: Session) { c.state != NotConnected ==> c.socket != Closed }

  predicate AllTrue(oks: seq<bool>) { forall i :: 0 <= i < |oks| ==> oks[i] }

  predicate Awaiting(s: State) { s == AuthAwaitingConnAck || s == UinAwaitingConnAck || s == BosAwaitingConnAck }

  /** Every send of the handler of f gets through. */
  predicate GetsThrough(c: Session, f: Frame) {
    && c.socket == Open
    && match f
      case ConnAck(ok, ok2) => ok && (c.state == UinAwaitingConnAck ==> ok2)
      case RateInfo(oks, _, ok) => AllTrue(oks) && ok
      case _ => true
  }

  /** Losing one of these sends leaves the login and so stops listening. */
  predicate StopsListening(c: Session, oks: seq<bool>) {
    oks != [] && !(c.socket == Open && AllTrue(oks)) && c.state != NotConnected && !InAuthorizer(c.state)
  }

  /** The listening socket throws: it is wanted, and in use already or not to be had. */
  predicate Throws(c: Session, oks: seq<bool>, bind: Bind) {
    c.inDc && (bind != Bound || (c.listening && !StopsListening(c, oks)))
  }

  /** The frames whose handlers set the state whatever became of their sends. */
  predicate SetsState(c: Session, f: Frame) {
    match f
    case ConnAck(_, _) => Awaiting(c.state)
    case RateInfo(oks, bind, _) => !Throws(c, oks, bind)
    case _ => false
  }

  lemma {:induction false} SendAllListening(c: Session, oks: seq<bool>)
    ensures SendAll(c, oks).inDc == c.inDc && SendAll(c, oks).listening == (c.listening && !StopsListening(c, oks))
    decreases |oks|
  {
    if oks != [] {
      var c1 := Send(c, oks[0]);
      SendAllListening(c1, oks[1..]);
      AllTrueSplit(oks);
      hide AllTrue, SendAll;
      assert SendAll(c, oks) == SendAll(c1, oks[1..]) by { SendAllUnfolds(c, oks); }
      if oks[1..] == [] { assert AllTrue(oks[1..]) by { NoneFalse(); } }
    }
  }

  lemma SendAllUnfolds(c: Session, oks: seq<bool>)
    requires oks != []
    ensures SendAll(c, oks) == SendAll(Send(c, oks[0]), oks[1..])
  {
  }

  lemma NoneFalse()
    ensures AllTrue([])
  {
  }

  /** Whether the handler throws can be told before it is called. */
  lemma ThrowsIff(c: Session, f: Frame)
    ensures ParseFrame(c, f).1 <==> f.RateInfo? && Throws(c, f.oks, f.bind)
  {
    if f.RateInfo? {
      SendAllListening(c, f.oks);
      hide SendAll, Send, StopsListening;
    }
  }

  lemma {:induction false} SendAllOutcome(c: Session, oks: seq<bool>)
    requires Inv(c) && Backed(c)
    ensures Backed(SendAll(c, oks))
    ensures if c.socket == Open && AllTrue(oks) then SendAll(c, oks) == c
            else oks != [] ==> SendAll(c, oks).socket == Closed
    decreases |oks|
  {
    if oks != [] {
      SendKeeps(c, oks[0]);
      var c1 := Send(c, oks[0]);
      SendAllOutcome(c1, oks[1..]);
      assert AllTrue(oks) <==> oks[0] && AllTrue(oks[1..]) by { AllTrueSplit(oks); }
    }
  }

  lemma AllTrueSplit(oks: seq<bool>)
    requires oks != []
    ensures AllTrue(oks) <==> oks[0] && AllTrue(oks[1..])
  {
    if oks[0] && AllTrue(oks[1..]) {
      forall i | 0 <= i < |oks| ensures oks[i] { if i > 0 { assert oks[1..][i - 1]; } }
    }
  }

  /** A handler leaves a state with no socket behind it exactly when it sets the state after a lost send. */
  lemma BackedIff(c: Session, f: Frame)
    requires Inv(c) && Backed(c)
    ensures Backed(ParseFrame(c, f).0) <==> (SetsState(c, f) ==> GetsThrough(c, f))
  {
    ThrowsIff(c, f);
    hide Throws;
    match f
    case ConnAck(ok, ok2) => ConnAckBackedIff(c, ok, ok2);
    case Channel4(cookie, dial) =>
    case RateInfo(oks, bind, ok) =>
      SendAllOutcome(c, oks);
      SendAllKeeps(c, oks);
      if oks == [] { assert AllTrue(oks); }
      hide SendAll, Send, LastConnected, AllTrue, Inv;
      SendOutcome(Listen(SendAll(c, oks), bind).0, ok);
    case Snac(oks) => SendAllOutcome(c, oks);
  }

  lemma SendOutcome(c: Session, ok: bool)
    requires c.state == NotConnected ==> c.socket == Closed
    ensures Send(c, ok).socket == Closed <==> !(c.socket == Open && ok)
    ensures c.socket == Open && ok ==> Send(c, ok) == c
  {
  }

  lemma ConnAckBackedIff(c: Session, ok: bool, ok2: bool)
    requires Inv(c) && Backed(c)
    ensures var f := ConnAck(ok, ok2); Backed(ParseConnAck(c, ok, ok2)) <==> (SetsState(c, f) ==> GetsThrough(c, f))
  {
    hide Throws, AllTrue, LastConnected;
    SendOutcome(c, ok);
    SendKeeps(c, ok);
    assert Send(c, ok).state == NotConnected ==> Send(c, ok).socket == Closed;
    SendOutcome(Send(c, ok), ok2);
    hide Send, Inv;
  }

  // ------------------------------------------------------------------
  //  Over runs
  // ------------------------------------------------------------------

  /** Every state from here on through the frames has a socket behind it. */
  predicate FramesStayBacked(c: Session, frames: seq<Frame>)
    decreases |frames|
  {
    frames != [] ==>
      var (c1, thrown) := ParseFrame(c, frames[0]);
      Backed(c1) && (thrown || FramesStayBacked(c1, frames[1..]))
  }

  /** No handler on the way sets the state after a lost send. */
  predicate FramesGetThrough(c: Session, frames: seq<Frame>)
    decreases |frames|
  {
    frames != [] ==>
      var (c1, thrown) := ParseFrame(c, frames[0]);
      (SetsState(c, frames[0]) ==> GetsThrough(c, frames[0])) && (thrown || FramesGetThrough(c1, frames[1..]))
  }

  predicate RecvStaysBacked(c: Session, chunks: seq<seq<Frame>>)
    decreases |chunks|
  {
    c.socket == Open && chunks != [] ==>
      var (c1, thrown) := ParseFrames(c, chunks[0]);
      FramesStayBacked(c, chunks[0]) && (thrown || RecvStaysBacked(c1, chunks[1..]))
  }

  predicate RecvGetsThrough(c: Session, chunks: seq<seq<Frame>>)
    decreases |chunks|
  {
    c.socket == Open && chunks != [] ==>
      var (c1, thrown) := ParseFrames(c, chunks[0]);
      FramesGetThrough(c, chunks[0]) && (thrown || RecvGetsThrough(c1, chunks[1..]))
  }

  predicate Receives(c: Session, step: Step) { step.SocketReady? && step.read && c.socket == Open }

  predicate StaysBacked(c: Session, steps: seq<Step>)
    decreases |steps|
  {
    steps != [] ==>
      && (Receives(c, steps[0]) ==> RecvStaysBacked(c, steps[0].chunks))
      && Backed(Next(c, steps[0])) && StaysBacked(Next(c, steps[0]), steps[1..])
  }

  predicate GetsAllThrough(c: Session, steps: seq<Step>)
    decreases |steps|
  {
    steps != [] ==>
      && (Receives(c, steps[0]) ==> RecvGetsThrough(c, steps[0].chunks))
      && GetsAllThrough(Next(c, steps[0]), steps[1..])
  }

  lemma {:induction false} FramesBackedIff(c: Session, frames: seq<Frame>)
    requires Inv(c) && Backed(c)
    ensures FramesStayBacked(c, frames) <==> FramesGetThrough(c, frames)
    ensures FramesStayBacked(c, frames) ==> Backed(ParseFrames(c, frames).0)
    decreases |frames|
  {
    hide ParseFrame, Inv, Backed, SetsState, GetsThrough;
    if frames != [] {
      BackedIff(c, frames[0]);
      FrameKeeps(c, frames[0]);
      var (c1, thrown) := ParseFrame(c, frames[0]);
      if Backed(c1) { FramesBackedIff(c1, frames[1..]); }
    }
  }

  lemma DisconnectBacked(c: Session, socket: Socket)
    requires Inv(c) && (c.state == NotConnected ==> socket == Closed)
    ensures Backed(Disconnect(c.(socket := socket)))
  {
  }

  lemma {:induction false} RecvBackedIff(c: Session, chunks: seq<seq<Frame>>, fails: bool)
    requires Inv(c) && Backed(c)
    ensures RecvStaysBacked(c, chunks) <==> RecvGetsThrough(c, chunks)
    ensures RecvStaysBacked(c, chunks) ==> Backed(RecvFromServer(c, chunks, fails))
    decreases |chunks|
  {
    hide ParseFrames, FramesStayBacked, FramesGetThrough;
    if c.socket == Open {
      DisconnectBacked(c, Closed);
      if chunks != [] {
        FramesBackedIff(c, chunks[0]);
        FramesKeep(c, chunks[0]);
        var (c1, thrown) := ParseFrames(c, chunks[0]);
        DisconnectBacked(c1, c1.socket);
        hide Backed, Inv, Disconnect;
        if FramesStayBacked(c, chunks[0]) && !thrown { RecvBackedIff(c1, chunks[1..], fails); }
      }
    }
  }

  /** Every step keeps a socket behind the state, but for the frames it may handle. */
  lemma StepBacked(c: Session, step: Step)
    requires Inv(c) && Backed(c)
    ensures Receives(c, step) ==> (RecvStaysBacked(c, step.chunks) <==> RecvGetsThrough(c, step.chunks))
    ensures !Receives(c, step) || RecvStaysBacked(c, step.chunks) ==> Backed(Next(c, step))
  {
    hide RecvStaysBacked, RecvGetsThrough, RecvFromServer, SendAll;
    match step
    case SocketReady(_, _, ok, chunks) => RecvBackedIff(c, chunks, !ok);
    case Request(oks) => SendAllOutcome(c, oks);
    case _ =>
  }

  lemma {:induction false} StaysBackedFrom(c: Session, steps: seq<Step>)
    requires Inv(c) && Backed(c)
    ensures StaysBacked(c, steps) <==> GetsAllThrough(c, steps)
    decreases |steps|
  {
    hide Next, Inv, Backed, RecvStaysBacked, RecvGetsThrough, Receives;
    if steps != [] {
      StepKeeps(c, steps[0]);
      StepBacked(c, steps[0]);
      if Backed(Next(c, steps[0])) { StaysBackedFrom(Next(c, steps[0]), steps[1..]); }
    }
  }

  /** On a run every state but NotConnected has a socket behind it, after every frame and every call, if and
      only if no handler sets the state after one of its sends was lost. */
  lemma StaysBackedIff(steps: seq<Step>)
    ensures StaysBacked(Fresh(), steps) <==> GetsAllThrough(Fresh(), steps)
  {
    StaysBackedFrom(Fresh(), steps);
  }

  // ------------------------------------------------------------------
  //  Out of a state without a socket
  // ------------------------------------------------------------------

  /** The calls that find the lost connection: anything that sends, going offline, and the socket's own events. */
  predicate FindsLoss(c: Session, step: Step) {
    match step
    case SetStatus(online, _, _) => !online || IsConnected(c)
    case RegisterUIN(_) => false
    case SocketReady(_, _, _, _) => true
    case Request(oks) => oks != []
    case SetAcceptInDC(_) => false
  }

  lemma {:induction false} SendsFindLoss(c: Session, oks: seq<bool>)
    requires c.state == NotConnected && c.socket == Closed
    ensures SendAll(c, oks) == c
    decreases |oks|
  {
    if oks != [] { SendsFindLoss(Send(c, oks[0]), oks[1..]); }
  }

  /** A state with no socket behind it ends, with a Disconnected event, at exactly those calls; going online when
      not logged in, registering and changing whether connections are accepted leave it as it is. */
  lemma UnbackedEndsIff(c: Session, step: Step)
    requires !Backed(c)
    ensures Next(c, step).state == NotConnected <==> FindsLoss(c, step)
    ensures FindsLoss(c, step) ==>
      Next(c, step).socket == Closed && Next(c, step).events == c.events + [DisconnectedEvent]
    ensures !FindsLoss(c, step) ==>
      Next(c, step).state == c.state && Next(c, step).socket == Closed && Next(c, step).events == c.events
  {
    if step.Request? && step.oks != [] {
      SendAllUnfolds(c, step.oks);
      SendsFindLoss(Send(c, step.oks[0]), step.oks[1..]);
      hide SendAll;
    }
  }

  /** A run into such a state: the first packet of a login is lost. Going online again does nothing there. */
  lemma LostLogin(dial: Dial, ok: bool, ok2: bool)
    ensures var c := Run(Fresh(), [SetStatus(true, InProgress, true), SocketReady(false, true, true, []),
                                   SocketReady(true, false, true, [[ConnAck(false, ok2)]])]);
      c.state == AuthAwaitingAuthReply && c.socket == Closed && SetStatusTo(c, true, dial, ok) == c
  {
    var first, second, third := SetStatus(true, InProgress, true), SocketReady(false, true, true, []),
      SocketReady(true, false, true, [[ConnAck(false, ok2)]]);
    var c1 := Next(Fresh(), first);
    var c2 := Next(c1, second);
    assert c2.socket == Open && c2.state == AuthAwaitingConnAck;
    LoneFrame(c2, ConnAck(false, ok2));
    var c3 := Next(c2, third);
    assert c3.socket == Closed && c3.state == AuthAwaitingAuthReply;
    RunThree(Fresh(), first, second, third);
  }

  lemma RunThree(c: Session, s1: Step, s2: Step, s3: Step)
    ensures Run(c, [s1, s2, s3]) == Next(Next(Next(c, s1), s2), s3)
  {
    hide Next;
    var c2 := Next(Next(c, s1), s2);
    assert [s1, s2, s3][1..] == [s2, s3] && [s2, s3][1..] == [s3] && [s3][1..] == [];
    assert Run(c2, [s3]) == Run(Next(c2, s3), []) == Next(c2, s3);
    assert Run(Next(c, s1), [s2, s3]) == Run(c2, [s3]);
  }

  lemma LoneFrame(c: Session, f: Frame)
    requires c.socket == Open && !ParseFrame(c, f).1 && ParseFrame(c, f).0.socket != Open
    ensures RecvFromServer(c, [[f]], false) == ParseFrame(c, f).0
  {
    hide ParseFrame;
    assert [f][1..] == [];
    assert ParseFrames(c, [f]) == ParseFrame(c, f);
  }
}
