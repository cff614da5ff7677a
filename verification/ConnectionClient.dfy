/** The connection part of the Client object (src/Client.cpp), proved against the functions of Connection. */
module ConnectionClients {
  import opened Connection

  class Client {
    var state: State
    var socket: Socket
    var listening: bool
    var inDc: bool
    /** The events emitted so far. */
    var events: seq<Event>

    function Abs(): Session
      reads this
    {
      Session(state, socket, listening, inDc, events)
    }

    constructor ()
      ensures Abs() == Fresh() && Inv(Abs())
    {
      state, socket, listening, inDc, events := NotConnected, Closed, false, true, [];
    }

    method Signal(e: Event)
      modifies this`events
      ensures Abs() == Emit(old(Abs()), e)
    {
      events := events + [e];
    }

    method SignalConnect()
      modifies this`state, this`events
      ensures Abs() == Emit(old(Abs()).(state := BosLoggedIn), ConnectedEvent)
    {
      state := BosLoggedIn;
      Signal(ConnectedEvent);
    }

    method Dialled(dial: Dial, next: State)
      modifies this
      ensures Abs() == Connect(old(Abs()), dial, next)
    {
      if socket != Closed || dial == Fails {
        Signal(DisconnectedEvent);
        return;
      }
      socket := if dial == AtOnce then Open else Connecting;
      state := next;
    }

    method LeaveAuthorizer()
      modifies this
      ensures Abs() == DisconnectAuthorizer(old(Abs()))
    {
      socket := Closed;
      state := NotConnected;
    }

    method LeaveBOS()
      modifies this
      ensures Abs() == DisconnectBOS(old(Abs()))
    {
      state := NotConnected;
      socket := Closed;
      if listening { listening := false; }
    }

    method Disconnect()
      modifies this
      ensures Abs() == Connection.Disconnect(old(Abs()))
    {
      if state == NotConnected { return; }
      if InAuthorizer(state) {
        LeaveAuthorizer();
      } else {
        LeaveBOS();
      }
      Signal(DisconnectedEvent);
    }

    method Send(ok: bool)
      modifies this
      ensures Abs() == Connection.Send(old(Abs()), ok)
    {
      if socket != Open {
        Disconnect();
      } else if !ok {
        socket := Closed;
        Disconnect();
      }
    }

    method SendEach(oks: seq<bool>)
      modifies this
      ensures Abs() == SendAll(old(Abs()), oks) == Next(old(Abs()), Request(oks))
      ensures Inv(old(Abs())) ==> Inv(Abs())
    {
      if Inv(Abs()) { StepKeeps(Abs(), Request(oks)); }
      assert oks[0..] == oks;
      for i := 0 to |oks|
        invariant SendAll(Abs(), oks[i..]) == SendAll(old(Abs()), oks)
      {
        assert oks[i..][1..] == oks[i + 1..];
        Send(oks[i]);
      }
    }

    method StartListening(bind: Bind) returns (thrown: bool)
      modifies this`listening
      ensures (Abs(), thrown) == Listen(old(Abs()), bind)
    {
      thrown := false;
      if inDc {
        if listening { return true; }
        listening := bind != NotCreated;
        thrown := bind != Bound;
      }
    }

    method Login(bind: Bind, ok: bool) returns (thrown: bool)
      modifies this
      ensures (Abs(), thrown) == SendLogin(old(Abs()), bind, ok)
    {
      thrown := StartListening(bind);
      if !thrown {
        Send(ok);
        SignalConnect();
      }
    }

    method ParseCh1(ok: bool, ok2: bool)
      modifies this
      ensures Abs() == ParseConnAck(old(Abs()), ok, ok2)
    {
      if state == AuthAwaitingConnAck {
        Send(ok);
        state := AuthAwaitingAuthReply;
      } else if state == UinAwaitingConnAck {
        Send(ok);
        Send(ok2);
        state := UinAwaitingUinReply;
      } else if state == BosAwaitingConnAck {
        Send(ok);
        state := BosAwaitingLoginReply;
      }
    }

    method ParseCh4(cookie: bool, dial: Dial)
      modifies this
      ensures Abs() == ParseChannel4(old(Abs()), cookie, dial)
    {
      if state == AuthAwaitingAuthReply || state == UinAwaitingUinReply {
        LeaveAuthorizer();
        if cookie {
          Dialled(dial, BosAwaitingConnAck);
        } else {
          Signal(DisconnectedEvent);
        }
      } else {
        LeaveBOS();
        Signal(DisconnectedEvent);
      }
    }

    method Dispatch(f: Frame) returns (thrown: bool)
      modifies this
      ensures (Abs(), thrown) == ParseFrame(old(Abs()), f)
    {
      thrown := false;
      match f
      case ConnAck(ok, ok2) => ParseCh1(ok, ok2);
      case Channel4(cookie, dial) => ParseCh4(cookie, dial);
      case RateInfo(oks, bind, ok) => SendEach(oks); thrown := Login(bind, ok);
      case Snac(oks) => SendEach(oks);
    }

    /** The loop over the frames received; an exception leaves it. */
    method Parse(frames: seq<Frame>) returns (thrown: bool)
      modifies this
      ensures (Abs(), thrown) == ParseFrames(old(Abs()), frames)
    {
      hide ParseFrame;
      thrown := false;
      assert frames[0..] == frames;
      for i := 0 to |frames|
        invariant ParseFrames(Abs(), frames[i..]) == ParseFrames(old(Abs()), frames)
      {
        assert frames[i..][1..] == frames[i + 1..];
        var bad := Dispatch(frames[i]);
        if bad { return true; }
      }
    }

    method RecvFromServer(chunks: seq<seq<Frame>>, fails: bool)
      modifies this
      ensures Abs() == Connection.RecvFromServer(old(Abs()), chunks, fails)
    {
      hide ParseFrames;
      var i := 0;
      assert chunks[0..] == chunks;
      while socket == Open
        invariant 0 <= i <= |chunks|
        invariant Connection.RecvFromServer(Abs(), chunks[i..], fails)
               == Connection.RecvFromServer(old(Abs()), chunks, fails)
        decreases |chunks| - i, socket == Open
      {
        if i == |chunks| {
          if !fails { return; }
          socket := Closed;
          Disconnect();
          return;
        }
        assert chunks[i..][1..] == chunks[i + 1..];
        var thrown := Parse(chunks[i]);
        i := i + 1;
        if thrown {
          Disconnect();
          return;
        }
      }
    }

    method SetStatus(online: bool, dial: Dial, ok: bool)
      modifies this
      ensures Abs() == Next(old(Abs()), Step.SetStatus(online, dial, ok))
      ensures Inv(old(Abs())) ==> Inv(Abs())
    {
      if Inv(Abs()) { StepKeeps(Abs(), Step.SetStatus(online, dial, ok)); }
      if !online {
        if state != NotConnected { Disconnect(); }
        return;
      }
      if state == BosLoggedIn {
        Send(ok);
      } else if state == NotConnected {
        Signal(ConnectingEvent);
        Dialled(dial, AuthAwaitingConnAck);
      }
    }

    method RegisterUIN(dial: Dial)
      modifies this
      ensures Abs() == Next(old(Abs()), Step.RegisterUIN(dial))
      ensures Inv(old(Abs())) ==> Inv(Abs())
    {
      if Inv(Abs()) { StepKeeps(Abs(), Step.RegisterUIN(dial)); }
      if state == NotConnected { Dialled(dial, UinAwaitingConnAck); }
    }

    method SetAcceptInDC(d: bool)
      modifies this
      ensures Abs() == Next(old(Abs()), Step.SetAcceptInDC(d))
      ensures Inv(old(Abs())) ==> Inv(Abs())
    {
      inDc := d;
      if !inDc && listening { listening := false; }
    }

    method SocketCb(read: bool, write: bool, ok: bool, chunks: seq<seq<Frame>>)
      modifies this
      ensures Abs() == Next(old(Abs()), SocketReady(read, write, ok, chunks))
      ensures Inv(old(Abs())) ==> Inv(Abs())
    {
      if Inv(Abs()) { StepKeeps(Abs(), SocketReady(read, write, ok, chunks)); }
      hide Connection.RecvFromServer;
      if socket == Connecting && write {
        if !ok {
          socket := Closed;
          Disconnect();
          return;
        }
        socket := Open;
      } else if socket == Open && read {
        RecvFromServer(chunks, !ok);
      } else {
        Disconnect();
      }
    }

    /** On every object that a run reaches, the answer is what the events emitted so far have told. */
    method IsConnected() returns (connected: bool)
      ensures Inv(Abs()) ==> (connected <==> LastConnected(events))
    {
      connected := state == BosLoggedIn;
    }
  }
}
