/** The SMTPClient object (src/SMTPClient.cpp), proved against the functions of Smtp. */
module SmtpClients {
  import opened Smtp

  /** How Parse ends: normally, or with one of the exceptions it throws. */
  datatype Outcome = Fine | ParseException | SmtpException | DisconnectedException

  class SmtpClient {
    var state: State
    var queue: seq<Message>
    var lastOperation: int
    var timeout: int
    var log: seq<Entry>
    var acks: seq<Ack>

    function Abs(): Mailer
      reads this
    {
      Mailer(state, queue, lastOperation, timeout, log, acks)
    }

    constructor (limit: int)
      ensures Abs() == Fresh(limit)
    {
      state, queue, lastOperation, timeout, log, acks := NotConnected, [], 0, limit, [], [];
    }

    method Disconnect()
      modifies this`state
      ensures Abs() == old(Abs()).(state := NotConnected)
    {
      state := NotConnected;
    }

    method Connect(now: int, ok: bool)
      modifies this`state, this`lastOperation
      ensures Abs() == Smtp.Connect(old(Abs()), now, ok)
    {
      if ok {
        lastOperation := now;
        state := WaitingForConnect;
      } else {
        Disconnect();
      }
    }

    method FinishNonBlockingConnect()
      modifies this`state, this`log
      ensures Abs() == Smtp.FinishNonBlockingConnect(old(Abs()))
    {
      state := WaitingForInvitation;
      log := log + [Session];
    }

    method SendEvent(m: Message, now: int, ok: bool)
      modifies this
      ensures Abs() == Smtp.SendEvent(old(Abs()), m, now, ok)
    {
      queue := queue + [m];
      if state == NotConnected {
        Connect(now, ok);
      }
    }

    method CheckTimeout(now: int)
      modifies this`state
      ensures Abs() == old(Abs()).(state := if now - lastOperation > timeout then NotConnected else old(state))
    {
      if now - lastOperation > timeout {
        Disconnect();
      }
    }

    method ClearoutMessagesPoll(now: int, ok: bool)
      modifies this
      ensures Abs() == Poll(old(Abs()), now, ok)
    {
      if queue != [] {
        if state == NotConnected {
          Connect(now, ok);
        } else {
          CheckTimeout(now);
        }
      }
    }

    /** A failed send leaves the client unconnected and throws. */
    method Send(entry: Entry, ok: bool) returns (thrown: Outcome)
      modifies this`state, this`log
      ensures thrown == if ok then Fine else DisconnectedException
      ensures Abs() == if ok then old(Abs()).(log := old(log) + [entry]) else old(Abs()).(state := NotConnected)
    {
      if ok {
        log := log + [entry];
        thrown := Fine;
      } else {
        state := NotConnected;
        thrown := DisconnectedException;
      }
    }

    method SayAndWait(entry: Entry, next: State, ok: bool) returns (thrown: Outcome)
      modifies this`state, this`log
      ensures thrown == if ok then Fine else DisconnectedException
      ensures Abs() == Say(old(Abs()), entry, next, ok)
    {
      thrown := Send(entry, ok);
      if thrown == Fine { state := next; }
    }

    method SettleHead(delivered: bool)
      requires queue != []
      modifies this`queue, this`acks
      ensures Abs() == Settle(old(Abs()), delivered)
    {
      acks := acks + [Ack(queue[0], delivered)];
      queue := queue[1..];
    }

    method Deliver(ok: bool) returns (thrown: Outcome)
      requires queue != []
      modifies this
      ensures thrown == (if ok then Fine else DisconnectedException) && Abs() == Accepted(old(Abs()), ok)
    {
      SettleHead(true);
      if queue == [] {
        thrown := SayAndWait(Quit, Disconnecting, ok);
      } else {
        thrown := SayAndWait(Mail(queue[0]), WaitingForMailAck, ok);
      }
    }

    /** What Parse does with the code of a reply. */
    ghost predicate Parsed(before: Mailer, code: nat, now: int, ok: bool, after: Mailer, thrown: Outcome)
      requires before.state == WaitingForHeloAck || Mailing(before.state) ==> before.queue != []
    {
      match thrown
      case Fine => after == Recv(before, code, now, ok)
      case DisconnectedException => after == Recv(before, code, now, ok)
      case ParseException => after.(state := NotConnected) == Recv(before, code, now, ok)
      case SmtpException => after.queue != [] && Refused(after, ok) == Recv(before, code, now, ok)
    }

    method Parse(code: nat, now: int, ok: bool) returns (thrown: Outcome)
      requires state == WaitingForHeloAck || Mailing(state) ==> queue != []
      modifies this
      ensures Parsed(old(Abs()), code, now, ok, Abs(), thrown)
    {
      lastOperation := now;
      log := log + [Reply(code)];
      thrown := Fine;
      match state {
        case WaitingForInvitation =>
          if code == 220 { thrown := SayAndWait(Helo, WaitingForHeloAck, ok); } else { thrown := ParseException; }
        case WaitingForHeloAck =>
          if code == 250 { thrown := SayAndWait(Mail(queue[0]), WaitingForMailAck, ok); } else { thrown := ParseException; }
        case WaitingForMailAck =>
          if code == 250 { thrown := SayAndWait(Rcpt(queue[0]), WaitingForRcptAck, ok); } else { thrown := SmtpException; }
        case WaitingForRcptAck =>
          if code == 250 { thrown := SayAndWait(Data, WaitingForDataAck, ok); } else { thrown := SmtpException; }
        case WaitingForDataAck =>
          if code == 354 { thrown := SayAndWait(Text(queue[0]), WaitingForTextAck, ok); } else { thrown := SmtpException; }
        case WaitingForTextAck =>
          if code == 250 { thrown := Deliver(ok); } else { thrown := SmtpException; }
        case _ =>
      }
    }

    /** The exceptions of Parse are handled here. */
    method Receive(code: nat, now: int, ok: bool)
      requires state == WaitingForHeloAck || Mailing(state) ==> queue != []
      modifies this
      ensures Abs() == Recv(old(Abs()), code, now, ok)
    {
      hide Recv;
      var thrown := Parse(code, now, ok);
      if thrown == ParseException {
        state := NotConnected;
      } else if thrown == SmtpException {
        SettleHead(false);
        if queue != [] {
          var dropped := SayAndWait(Mail(queue[0]), WaitingForMailAck, ok);
        } else {
          state := NotConnected;
        }
      }
    }
  }
}
