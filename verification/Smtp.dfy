/** The SMTP client (src/SMTPClient.cpp:51-308): a queue of messages mailed one at a time over a session
    of commands and replies (RFC 5321, sections 3.3 and 4.1.4). */
module Smtp {
  datatype State =
    | NotConnected | WaitingForConnect | WaitingForInvitation | WaitingForHeloAck | WaitingForMailAck
    | WaitingForRcptAck | WaitingForDataAck | WaitingForTextAck | Disconnecting

  /** An SMS or email event, with the addresses and the text the commands take from it. */
  datatype Message = Message(id: nat, from: string, to: string, subject: string, text: string)

  /** What passes on the socket: a session opened, a command sent, a reply's code read. */
  datatype Entry =
    | Session | Helo | Mail(from: Message) | Rcpt(to: Message) | Data | Text(message: Message) | Quit
    | Reply(code: nat)

  /** An emitted messageack, with isFinished true. */
  datatype Ack = Ack(message: Message, delivered: bool)

  datatype Mailer = Mailer(
    state: State, queue: seq<Message>, last: int, timeout: int,
    log: seq<Entry>,                              // the traffic so far
    acks: seq<Ack>)                               // the acknowledgements emitted so far

  // ------------------------------------------------------------------
  //  Commands. A send that fails drops the connection.
  // ------------------------------------------------------------------

  function Say(c: Mailer, entry: Entry, next: State, ok: bool): Mailer {
    if ok then c.(log := c.log + [entry], state := next) else c.(state := NotConnected)
  }

  function SayFrom(c: Mailer, ok: bool): Mailer
    requires c.queue != []
  {
    Say(c, Mail(c.queue[0]), WaitingForMailAck, ok)
  }

  function Settle(c: Mailer, delivered: bool): Mailer
    requires c.queue != []
  {
    c.(queue := c.queue[1..], acks := c.acks + [Ack(c.queue[0], delivered)])
  }

  function Hear(c: Mailer, code: nat, now: int): Mailer { c.(log := c.log + [Reply(code)], last := now) }

  /** The head is refused: it is given up, and the next one is tried in the same session. */
  function Refused(c: Mailer, ok: bool): Mailer
    requires c.queue != []
  {
    var c1 := Settle(c, false);
    if c1.queue != [] then SayFrom(c1, ok) else c1.(state := NotConnected)
  }

  /** The head is accepted. */
  function Accepted(c: Mailer, ok: bool): Mailer
    requires c.queue != []
  {
    var c1 := Settle(c, true);
    if c1.queue == [] then Say(c1, Quit, Disconnecting, ok) else SayFrom(c1, ok)
  }

  /** In these states a message is being mailed. */
  predicate Mailing(s: State) {
    s == WaitingForMailAck || s == WaitingForRcptAck || s == WaitingForDataAck || s == WaitingForTextAck
  }

  /** One reply, with the exceptions it raises and their handlers. */
  function Recv(c: Mailer, code: nat, now: int, ok: bool): Mailer
    requires c.state == WaitingForHeloAck || Mailing(c.state) ==> c.queue != []
  {
    var c1 := Hear(c, code, now);
    match c.state
    case WaitingForInvitation =>
      if code == 220 then Say(c1, Helo, WaitingForHeloAck, ok) else c1.(state := NotConnected)
    case WaitingForHeloAck => if code == 250 then SayFrom(c1, ok) else c1.(state := NotConnected)
    case WaitingForMailAck =>
      if code == 250 then Say(c1, Rcpt(c.queue[0]), WaitingForRcptAck, ok) else Refused(c1, ok)
    case WaitingForRcptAck => if code == 250 then Say(c1, Data, WaitingForDataAck, ok) else Refused(c1, ok)
    case WaitingForDataAck =>
      if code == 354 then Say(c1, Text(c.queue[0]), WaitingForTextAck, ok) else Refused(c1, ok)
    case WaitingForTextAck => if code == 250 then Accepted(c1, ok) else Refused(c1, ok)
    case _ => c1
  }

  // ------------------------------------------------------------------
  //  Calls from outside
  // ------------------------------------------------------------------

  function Connect(c: Mailer, now: int, ok: bool): Mailer {
    if ok then c.(last := now, state := WaitingForConnect) else c.(state := NotConnected)
  }

  function SendEvent(c: Mailer, m: Message, now: int, ok: bool): Mailer {
    var c1 := c.(queue := c.queue + [m]);
    if c1.state == NotConnected then Connect(c1, now, ok) else c1
  }

  function Poll(c: Mailer, now: int, ok: bool): Mailer {
    if c.queue == [] then c
    else if c.state == NotConnected then Connect(c, now, ok)
    else if now - c.last > c.timeout then c.(state := NotConnected)
    else c
  }

  function FinishNonBlockingConnect(c: Mailer): Mailer {
    c.(state := WaitingForInvitation, log := c.log + [Session])
  }

  /** ok says whether the connect or the send this step makes, if any, succeeds. */
  datatype Step =
    | Enqueue(m: Message, now: int, ok: bool)
    | Tick(now: int, ok: bool)
    | Connected
    | Line(code: nat, now: int, ok: bool)
    | RecvFails

  /** The socket is watched for its connect to finish, and read only after that. */
  predicate Enabled(c: Mailer, step: Step) {
    match step
    case Enqueue(_, _, _) => true
    case Tick(_, _) => true
    case Connected => c.state == WaitingForConnect
    case Line(_, _, _) => c.state != NotConnected && c.state != WaitingForConnect
    case RecvFails => c.state != NotConnected && c.state != WaitingForConnect
  }

  /** There is something to mail, unless there is no session or it is being closed. */
  predicate Busy(c: Mailer) { c.queue == [] ==> c.state == NotConnected || c.state == Disconnecting }

  function Next(c: Mailer, step: Step): Mailer
    requires Enabled(c, step) && Busy(c)
  {
    match step
    case Enqueue(m, now, ok) => SendEvent(c, m, now, ok)
    case Tick(now, ok) => Poll(c, now, ok)
    case Connected => FinishNonBlockingConnect(c)
    case Line(code, now, ok) => Recv(c, code, now, ok)
    case RecvFails => c.(state := NotConnected)
  }

  lemma StepKeepsBusy(c: Mailer, step: Step)
    requires Enabled(c, step) && Busy(c)
    ensures Busy(Next(c, step))
  {
  }

  ghost predicate ValidRun(c: Mailer, steps: seq<Step>)
    requires Busy(c)
    decreases |steps|
  {
    steps != [] ==> Enabled(c, steps[0]) && (StepKeepsBusy(c, steps[0]); ValidRun(Next(c, steps[0]), steps[1..]))
  }

  ghost function Run(c: Mailer, steps: seq<Step>): (r: Mailer)
    requires Busy(c) && ValidRun(c, steps)
    ensures Busy(r)
    decreases |steps|
  {
    if steps == [] then c else (StepKeepsBusy(c, steps[0]); Run(Next(c, steps[0]), steps[1..]))
  }

  function Fresh(timeout: int): Mailer { Mailer(NotConnected, [], 0, timeout, [], []) }

  // ------------------------------------------------------------------
  //  Acknowledgements are in the order of the messages
  // ------------------------------------------------------------------

  function Offered(steps: seq<Step>): seq<Message> {
    if steps == [] then []
    else (if steps[0].Enqueue? then [steps[0].m] else []) + Offered(steps[1..])
  }

  function Acked(acks: seq<Ack>): seq<Message> { seq(|acks|, i requires 0 <= i < |acks| => acks[i].message) }

  /** Acknowledged, then still queued. */
  function Handled(c: Mailer): seq<Message> { Acked(c.acks) + c.queue }

  lemma SettleKeepsOrder(c: Mailer, delivered: bool)
    requires c.queue != []
    ensures Handled(Settle(c, delivered)) == Handled(c)
  {
    var m := c.queue[0];
    assert Acked(c.acks + [Ack(m, delivered)]) == Acked(c.acks) + [m];
    assert [m] + c.queue[1..] == c.queue;
  }

  lemma StepKeepsOrder(c: Mailer, step: Step)
    requires Enabled(c, step) && Busy(c)
    ensures Handled(Next(c, step)) == Handled(c) + if step.Enqueue? then [step.m] else []
  {
    if step.Line? && Mailing(c.state) {
      var c1 := Hear(c, step.code, step.now);
      SettleKeepsOrder(c1, true);
      SettleKeepsOrder(c1, false);
    }
  }

  /** Every message offered is either still in the queue or acknowledged, once, and in order. */
  lemma {:induction false} AcksFollowQueue(c: Mailer, steps: seq<Step>)
    requires Busy(c) && ValidRun(c, steps)
    ensures Handled(Run(c, steps)) == Handled(c) + Offered(steps)
    decreases |steps|
  {
    hide Next, Enabled, Handled, Busy;
    if steps != [] {
      StepKeepsBusy(c, steps[0]);
      StepKeepsOrder(c, steps[0]);
      AcksFollowQueue(Next(c, steps[0]), steps[1..]);
    }
  }

  // ------------------------------------------------------------------
  //  The order of the commands
  // ------------------------------------------------------------------

  /** The session opens with 220, HELO, 250. */
  const GREETING := [Session, Reply(220), Helo, Reply(250)]

  function Envelope(m: Message): seq<Entry> { [Mail(m), Reply(250), Rcpt(m), Reply(250)] }

  predicate EndsWith(log: seq<Entry>, tail: seq<Entry>) { |tail| <= |log| && log[|log| - |tail|..] == tail }

  /** A greeted session is open: since the last session began there has been a full greeting. */
  predicate Greeted(log: seq<Entry>) {
    if log == [] || log[|log| - 1].Session? then false
    else EndsWith(log, GREETING) || Greeted(log[..|log| - 1])
  }

  /** Every command comes after the replies that call for it. */
  ghost predicate AllPrompted(log: seq<Entry>) {
    forall i :: 0 <= i < |log| ==> Prompted(log[..i], log[i])
  }

  predicate Prompted(before: seq<Entry>, entry: Entry) {
    match entry
    case Helo => EndsWith(before, [Session, Reply(220)])
    case Mail(_) => Greeted(before)
    case Rcpt(m) => Greeted(before) && EndsWith(before, [Mail(m), Reply(250)])
    case Data =>
      && Greeted(before) && |before| >= 4 && before[|before| - 4].Mail?
      && EndsWith(before, Envelope(before[|before| - 4].from))
    case Text(m) => Greeted(before) && EndsWith(before, Envelope(m) + [Data, Reply(354)])
    case Quit => Greeted(before)
    case _ => true
  }

  /** What the log ends with in each state. */
  ghost predicate Tail(c: Mailer) {
    match c.state
    case WaitingForInvitation => EndsWith(c.log, [Session])
    case WaitingForHeloAck => EndsWith(c.log, [Session, Reply(220), Helo])
    case WaitingForMailAck => Greeted(c.log) && c.queue != [] && EndsWith(c.log, [Mail(c.queue[0])])
    case WaitingForRcptAck =>
      Greeted(c.log) && c.queue != [] && EndsWith(c.log, [Mail(c.queue[0]), Reply(250), Rcpt(c.queue[0])])
    case WaitingForDataAck =>
      Greeted(c.log) && c.queue != [] && EndsWith(c.log, Envelope(c.queue[0]) + [Data])
    case WaitingForTextAck =>
      Greeted(c.log) && c.queue != [] && EndsWith(c.log, Envelope(c.queue[0]) + [Data, Reply(354), Text(c.queue[0])])
    case _ => true
  }

  lemma EndsWithSnoc(log: seq<Entry>, tail: seq<Entry>, e: Entry)
    requires EndsWith(log, tail)
    ensures EndsWith(log + [e], tail + [e])
  {
  }

  lemma GreetedSnoc(log: seq<Entry>, e: Entry)
    requires Greeted(log) && !e.Session?
    ensures Greeted(log + [e])
  {
    assert (log + [e])[..|log|] == log;
  }

  lemma PromptedSnoc(log: seq<Entry>, e: Entry)
    requires AllPrompted(log) && Prompted(log, e)
    ensures AllPrompted(log + [e])
  {
    forall i | 0 <= i < |log| + 1 ensures Prompted((log + [e])[..i], (log + [e])[i]) {
      assert (log + [e])[..i] == log[..i];
    }
  }

  // ------------------------------------------------------------------
  //  What the server has accepted
  // ------------------------------------------------------------------

  /** The messages whose text was answered 250, in order. */
  function ServerAccepted(log: seq<Entry>): seq<Message> {
    if |log| < 2 then []
    else
      var before := ServerAccepted(log[..|log| - 1]);
      if log[|log| - 2].Text? && log[|log| - 1] == Reply(250) then before + [log[|log| - 2].message] else before
  }

  /** The messages acknowledged as delivered, in order. */
  function Delivered(acks: seq<Ack>): seq<Message> {
    if acks == [] then []
    else Delivered(acks[..|acks| - 1]) + if acks[|acks| - 1].delivered then [acks[|acks| - 1].message] else []
  }

  predicate LastIsText(log: seq<Entry>) { log != [] && log[|log| - 1].Text? }

  lemma AcceptedSnoc(log: seq<Entry>, e: Entry)
    ensures ServerAccepted(log + [e]) ==
      ServerAccepted(log) + if LastIsText(log) && e == Reply(250) then [log[|log| - 1].message] else []
  {
    assert (log + [e])[..|log|] == log;
  }

  lemma DeliveredSnoc(acks: seq<Ack>, a: Ack)
    ensures Delivered(acks + [a]) == Delivered(acks) + if a.delivered then [a.message] else []
  {
    assert (acks + [a])[..|acks|] == acks;
  }

  // ------------------------------------------------------------------
  //  The invariant
  // ------------------------------------------------------------------

  ghost predicate Inv(c: Mailer) {
    && Busy(c) && AllPrompted(c.log) && Tail(c)
    && (LastIsText(c.log) ==> c.state == WaitingForTextAck || c.state == NotConnected || c.state == WaitingForConnect)
    && Delivered(c.acks) == ServerAccepted(c.log)
  }

  lemma SayKeeps(c: Mailer, e: Entry, next: State, ok: bool)
    requires AllPrompted(c.log) && Delivered(c.acks) == ServerAccepted(c.log) && !LastIsText(c.log)
    requires Prompted(c.log, e) && !e.Reply? && (e.Text? ==> next == WaitingForTextAck)
    requires c.queue == [] ==> next == Disconnecting
    requires Tail(c.(log := c.log + [e], state := next))
    ensures Inv(Say(c, e, next, ok))
  {
    PromptedSnoc(c.log, e);
    AcceptedSnoc(c.log, e);
  }

  lemma SayFromKeeps(c: Mailer, ok: bool)
    requires AllPrompted(c.log) && Delivered(c.acks) == ServerAccepted(c.log) && !LastIsText(c.log)
    requires Greeted(c.log) && c.queue != []
    ensures Inv(SayFrom(c, ok))
  {
    GreetedSnoc(c.log, Mail(c.queue[0]));
    SayKeeps(c, Mail(c.queue[0]), WaitingForMailAck, ok);
  }

  lemma HearKeeps(c: Mailer, code: nat, now: int)
    requires Inv(c)
    ensures var d := Hear(c, code, now);
      && AllPrompted(d.log) && !LastIsText(d.log) && (Greeted(c.log) ==> Greeted(d.log))
      && ServerAccepted(d.log)
         == Delivered(c.acks) + if LastIsText(c.log) && code == 250 then [c.log[|c.log| - 1].message] else []
  {
    PromptedSnoc(c.log, Reply(code));
    AcceptedSnoc(c.log, Reply(code));
    if Greeted(c.log) { GreetedSnoc(c.log, Reply(code)); }
  }

  lemma RefusedKeeps(c: Mailer, ok: bool)
    requires AllPrompted(c.log) && Delivered(c.acks) == ServerAccepted(c.log) && !LastIsText(c.log)
    requires Greeted(c.log) && c.queue != []
    ensures Inv(Refused(c, ok))
  {
    DeliveredSnoc(c.acks, Ack(c.queue[0], false));
    if |c.queue| > 1 { SayFromKeeps(Settle(c, false), ok); }
  }

  lemma EnvelopePromptsData(before: seq<Entry>, m: Message)
    requires Greeted(before) && EndsWith(before, Envelope(m))
    ensures Prompted(before, Data)
  {
    assert before[|before| - 4] == before[|before| - 4..][0] == Mail(m);
  }

  lemma GreetingDone(log: seq<Entry>)
    requires EndsWith(log, GREETING)
    ensures Greeted(log)
  {
    assert log[|log| - 1] == log[|log| - 4..][3];
  }

  lemma InvitationKeeps(c: Mailer, code: nat, now: int, ok: bool)
    requires Inv(c) && c.state == WaitingForInvitation
    ensures Inv(Recv(c, code, now, ok))
  {
    hide AllPrompted, ServerAccepted, Delivered, EndsWith, Greeted;
    var c1 := Hear(c, code, now);
    HearKeeps(c, code, now);
    if code == 220 {
      EndsWithSnoc(c.log, [Session], Reply(code));
      assert [Session] + [Reply(220)] == [Session, Reply(220)];
      EndsWithSnoc(c1.log, [Session, Reply(220)], Helo);
      assert [Session, Reply(220)] + [Helo] == [Session, Reply(220), Helo];
      SayKeeps(c1, Helo, WaitingForHeloAck, ok);
    }
  }

  lemma HeloKeeps(c: Mailer, code: nat, now: int, ok: bool)
    requires Inv(c) && c.state == WaitingForHeloAck
    ensures Inv(Recv(c, code, now, ok))
  {
    hide AllPrompted, ServerAccepted, Delivered, EndsWith, Greeted;
    var c1 := Hear(c, code, now);
    HearKeeps(c, code, now);
    if code == 250 {
      EndsWithSnoc(c.log, [Session, Reply(220), Helo], Reply(code));
      assert [Session, Reply(220), Helo] + [Reply(250)] == GREETING;
      GreetingDone(c1.log);
      SayFromKeeps(c1, ok);
    }
  }

  lemma MailKeeps(c: Mailer, code: nat, now: int, ok: bool)
    requires Inv(c) && c.state == WaitingForMailAck
    ensures Inv(Recv(c, code, now, ok))
  {
    hide AllPrompted, ServerAccepted, Delivered, EndsWith, Greeted;
    var c1 := Hear(c, code, now);
    HearKeeps(c, code, now);
    var m := c.queue[0];
    if code == 250 {
      EndsWithSnoc(c.log, [Mail(m)], Reply(code));
      assert [Mail(m)] + [Reply(250)] == [Mail(m), Reply(250)];
      EndsWithSnoc(c1.log, [Mail(m), Reply(250)], Rcpt(m));
      assert [Mail(m), Reply(250)] + [Rcpt(m)] == [Mail(m), Reply(250), Rcpt(m)];
      GreetedSnoc(c1.log, Rcpt(m));
      SayKeeps(c1, Rcpt(m), WaitingForRcptAck, ok);
    } else {
      RefusedKeeps(c1, ok);
    }
  }

  lemma RcptKeeps(c: Mailer, code: nat, now: int, ok: bool)
    requires Inv(c) && c.state == WaitingForRcptAck
    ensures Inv(Recv(c, code, now, ok))
  {
    hide AllPrompted, ServerAccepted, Delivered, EndsWith, Greeted;
    var c1 := Hear(c, code, now);
    HearKeeps(c, code, now);
    var m := c.queue[0];
    if code == 250 {
      EndsWithSnoc(c.log, [Mail(m), Reply(250), Rcpt(m)], Reply(code));
      assert [Mail(m), Reply(250), Rcpt(m)] + [Reply(250)] == Envelope(m);
      EnvelopePromptsData(c1.log, m);
      EndsWithSnoc(c1.log, Envelope(m), Data);
      GreetedSnoc(c1.log, Data);
      SayKeeps(c1, Data, WaitingForDataAck, ok);
    } else {
      RefusedKeeps(c1, ok);
    }
  }

  lemma DataKeeps(c: Mailer, code: nat, now: int, ok: bool)
    requires Inv(c) && c.state == WaitingForDataAck
    ensures Inv(Recv(c, code, now, ok))
  {
    hide AllPrompted, ServerAccepted, Delivered, EndsWith, Greeted, Envelope;
    var c1 := Hear(c, code, now);
    HearKeeps(c, code, now);
    var m := c.queue[0];
    if code == 354 {
      EndsWithSnoc(c.log, Envelope(m) + [Data], Reply(code));
      assert Envelope(m) + [Data] + [Reply(354)] == Envelope(m) + [Data, Reply(354)];
      EndsWithSnoc(c1.log, Envelope(m) + [Data, Reply(354)], Text(m));
      assert Envelope(m) + [Data, Reply(354)] + [Text(m)] == Envelope(m) + [Data, Reply(354), Text(m)];
      GreetedSnoc(c1.log, Text(m));
      SayKeeps(c1, Text(m), WaitingForTextAck, ok);
    } else {
      RefusedKeeps(c1, ok);
    }
  }

  lemma TextKeeps(c: Mailer, code: nat, now: int, ok: bool)
    requires Inv(c) && c.state == WaitingForTextAck
    ensures Inv(Recv(c, code, now, ok))
  {
    var c1 := Hear(c, code, now);
    var m := c.queue[0];
    HearKeeps(c, code, now);
    assert c.log[|c.log| - 1] == Text(m);
    if code == 250 {
      var c2 := Settle(c1, true);
      DeliveredSnoc(c1.acks, Ack(m, true));
      if c2.queue == [] {
        SayKeeps(c2, Quit, Disconnecting, ok);
      } else {
        SayFromKeeps(c2, ok);
      }
    } else {
      RefusedKeeps(c1, ok);
    }
  }

  lemma ClosingKeeps(c: Mailer, code: nat, now: int, ok: bool)
    requires Inv(c) && c.state == Disconnecting
    ensures Inv(Recv(c, code, now, ok))
  {
    HearKeeps(c, code, now);
  }

  lemma LineKeeps(c: Mailer, code: nat, now: int, ok: bool)
    requires Inv(c) && Enabled(c, Line(code, now, ok))
    ensures Inv(Recv(c, code, now, ok))
  {
    hide Recv, Inv;
    match c.state
    case WaitingForInvitation => InvitationKeeps(c, code, now, ok);
    case WaitingForHeloAck => HeloKeeps(c, code, now, ok);
    case WaitingForMailAck => MailKeeps(c, code, now, ok);
    case WaitingForRcptAck => RcptKeeps(c, code, now, ok);
    case WaitingForDataAck => DataKeeps(c, code, now, ok);
    case WaitingForTextAck => TextKeeps(c, code, now, ok);
    case Disconnecting => ClosingKeeps(c, code, now, ok);
  }

  lemma StepKeeps(c: Mailer, step: Step)
    requires Inv(c) && Enabled(c, step)
    ensures Inv(Next(c, step))
  {
    match step
    case Line(code, now, ok) => LineKeeps(c, code, now, ok);
    case Connected =>
      hide Recv;
      PromptedSnoc(c.log, Session);
      AcceptedSnoc(c.log, Session);
    case Enqueue(_, _, _) => hide Recv, AllPrompted, ServerAccepted, Delivered, EndsWith, Greeted;
    case Tick(_, _) => hide Recv, AllPrompted, ServerAccepted, Delivered, EndsWith, Greeted;
    case RecvFails => hide Recv, AllPrompted, ServerAccepted, Delivered, EndsWith, Greeted;
  }

  lemma {:induction false} RunKeeps(c: Mailer, steps: seq<Step>)
    requires Inv(c) && ValidRun(c, steps)
    ensures Inv(Run(c, steps))
    decreases |steps|
  {
    hide Next, Enabled, Tail, AllPrompted;
    if steps != [] {
      StepKeeps(c, steps[0]);
      RunKeeps(Next(c, steps[0]), steps[1..]);
    }
  }

  // ------------------------------------------------------------------
  //  No MAIL inside a mail transaction (RFC 5321, section 4.1.4)
  // ------------------------------------------------------------------

  predicate LastIsMail(log: seq<Entry>) { log != [] && log[|log| - 1].Mail? }

  /** A MAIL has been answered 250, and since then neither has a text been answered 250 nor a new session begun. */
  predicate TransactionOpen(log: seq<Entry>) {
    if log == [] || log[|log| - 1].Session? then false
    else
      var before := log[..|log| - 1];
      if log[|log| - 1] == Reply(250) && LastIsMail(before) then true
      else if log[|log| - 1] == Reply(250) && LastIsText(before) then false
      else TransactionOpen(before)
  }

  ghost predicate NoNesting(log: seq<Entry>) {
    forall i :: 0 <= i < |log| && log[i].Mail? ==> !TransactionOpen(log[..i])
  }

  /** The order the standard asks for: every command after its replies, and MAIL only outside a transaction. */
  ghost predicate InOrder(log: seq<Entry>) { AllPrompted(log) && NoNesting(log) }

  lemma TransactionSnoc(log: seq<Entry>, e: Entry)
    ensures TransactionOpen(log + [e]) ==
      if e.Session? then false
      else if e == Reply(250) && LastIsMail(log) then true
      else if e == Reply(250) && LastIsText(log) then false
      else TransactionOpen(log)
  {
    assert (log + [e])[..|log|] == log;
  }

  lemma NestingSnoc(log: seq<Entry>, e: Entry)
    ensures NoNesting(log + [e]) <==> NoNesting(log) && (e.Mail? ==> !TransactionOpen(log))
  {
    var t := log + [e];
    assert t[..|log|] == log && t[|log|] == e;
    forall i | 0 <= i < |log| ensures t[..i] == log[..i] && t[i] == log[i] {}
    if NoNesting(t) {
      forall i | 0 <= i < |log| && log[i].Mail? ensures !TransactionOpen(log[..i]) {
        assert t[i].Mail? && t[..i] == log[..i];
      }
    }
  }

  lemma {:induction false} NestingPrefix(log: seq<Entry>, more: seq<Entry>)
    requires NoNesting(log + more)
    ensures NoNesting(log)
    decreases |more|
  {
    if more == [] {
      assert log + more == log;
    } else {
      var init := more[..|more| - 1];
      assert log + more == (log + init) + [more[|more| - 1]];
      NestingSnoc(log + init, more[|more| - 1]);
      NestingPrefix(log, init);
    }
  }

  /** In this state and on this reply the head is refused. */
  predicate Refuses(s: State, code: nat) {
    match s
    case WaitingForRcptAck => code != 250
    case WaitingForDataAck => code != 354
    case WaitingForTextAck => code != 250
    case _ => false
  }

  /** The head is refused inside its transaction, and MAIL goes out for a further message. */
  predicate Nests(c: Mailer, step: Step) {
    step.Line? && step.ok && |c.queue| > 1 && Refuses(c.state, step.code)
  }

  ghost predicate NeverNests(c: Mailer, steps: seq<Step>)
    requires Busy(c) && ValidRun(c, steps)
    decreases |steps|
  {
    steps != [] ==> !Nests(c, steps[0]) && (StepKeepsBusy(c, steps[0]); NeverNests(Next(c, steps[0]), steps[1..]))
  }

  /** While nothing has nested, a transaction is open exactly from the 250 to MAIL on. */
  predicate Fits(c: Mailer) {
    match c.state
    case WaitingForRcptAck | WaitingForDataAck | WaitingForTextAck => TransactionOpen(c.log)
    case WaitingForInvitation | WaitingForHeloAck | WaitingForMailAck => !TransactionOpen(c.log)
    case _ => true
  }

  lemma LastEntry(c: Mailer)
    requires Inv(c)
    ensures c.state == WaitingForMailAck ==> LastIsMail(c.log)
    ensures c.state == WaitingForTextAck ==> LastIsText(c.log)
    ensures c.state == WaitingForInvitation || c.state == WaitingForHeloAck ==> !LastIsMail(c.log) && !LastIsText(c.log)
    ensures c.state == WaitingForRcptAck || c.state == WaitingForDataAck ==> !LastIsMail(c.log) && !LastIsText(c.log)
  {
  }

  /** What a reply does to the transaction. */
  lemma HeardFits(c: Mailer, code: nat, now: int)
    requires Inv(c) && Fits(c) && NoNesting(c.log) && (c.state == WaitingForHeloAck || Mailing(c.state) || c.state == WaitingForInvitation)
    ensures var d := Hear(c, code, now);
      && NoNesting(d.log)
      && TransactionOpen(d.log) ==
         match c.state
         case WaitingForMailAck => code == 250
         case WaitingForRcptAck | WaitingForDataAck => true
         case WaitingForTextAck => code != 250
         case _ => false
  {
    LastEntry(c);
    hide TransactionOpen, NoNesting, AllPrompted, EndsWith, Greeted, Tail;
    TransactionSnoc(c.log, Reply(code));
    NestingSnoc(c.log, Reply(code));
  }

  lemma RefusedFits(c: Mailer, ok: bool)
    requires NoNesting(c.log) && c.queue != [] && (ok && |c.queue| > 1 ==> !TransactionOpen(c.log))
    ensures Fits(Refused(c, ok)) && NoNesting(Refused(c, ok).log)
  {
    hide TransactionOpen, NoNesting;
    if |c.queue| > 1 {
      var c1 := Settle(c, false);
      TransactionSnoc(c1.log, Mail(c1.queue[0]));
      NestingSnoc(c1.log, Mail(c1.queue[0]));
    }
  }

  lemma LineFits(c: Mailer, code: nat, now: int, ok: bool)
    requires Inv(c) && Fits(c) && NoNesting(c.log) && Enabled(c, Line(code, now, ok)) && !Nests(c, Line(code, now, ok))
    ensures Fits(Recv(c, code, now, ok)) && NoNesting(Recv(c, code, now, ok).log)
  {
    hide TransactionOpen, NoNesting, AllPrompted, EndsWith, Greeted, Tail, ServerAccepted, Delivered;
    var c1 := Hear(c, code, now);
    if c.state == Disconnecting {
      NestingSnoc(c.log, Reply(code));
    } else {
      HeardFits(c, code, now);
      SpokenFits(c1, ok);
      if c.queue != [] && (!TransactionOpen(c1.log) || !ok || |c.queue| == 1) { RefusedFits(c1, ok); }
    }
  }

  /** Each command fits where the transaction is as it should be. */
  lemma SpokenFits(c: Mailer, ok: bool)
    requires NoNesting(c.log)
    ensures !TransactionOpen(c.log) ==> Fits(Say(c, Helo, WaitingForHeloAck, ok)) && NoNesting(Say(c, Helo, WaitingForHeloAck, ok).log)
    ensures !TransactionOpen(c.log) && c.queue != [] ==> Fits(SayFrom(c, ok)) && NoNesting(SayFrom(c, ok).log)
    ensures !TransactionOpen(c.log) && c.queue != [] ==> Fits(Accepted(c, ok)) && NoNesting(Accepted(c, ok).log)
    ensures TransactionOpen(c.log) && c.queue != [] ==>
      && Fits(Say(c, Rcpt(c.queue[0]), WaitingForRcptAck, ok)) && NoNesting(Say(c, Rcpt(c.queue[0]), WaitingForRcptAck, ok).log)
      && Fits(Say(c, Data, WaitingForDataAck, ok)) && NoNesting(Say(c, Data, WaitingForDataAck, ok).log)
      && Fits(Say(c, Text(c.queue[0]), WaitingForTextAck, ok)) && NoNesting(Say(c, Text(c.queue[0]), WaitingForTextAck, ok).log)
  {
    hide TransactionOpen, NoNesting;
    TransactionSnoc(c.log, Helo);
    NestingSnoc(c.log, Helo);
    TransactionSnoc(c.log, Data);
    NestingSnoc(c.log, Data);
    NestingSnoc(c.log, Quit);
    if c.queue != [] {
      TransactionSnoc(c.log, Mail(c.queue[0]));
      NestingSnoc(c.log, Mail(c.queue[0]));
      TransactionSnoc(c.log, Rcpt(c.queue[0]));
      NestingSnoc(c.log, Rcpt(c.queue[0]));
      TransactionSnoc(c.log, Text(c.queue[0]));
      NestingSnoc(c.log, Text(c.queue[0]));
    }
    if |c.queue| > 1 {
      TransactionSnoc(c.log, Mail(c.queue[1]));
      NestingSnoc(c.log, Mail(c.queue[1]));
    }
  }

  lemma StepFits(c: Mailer, step: Step)
    requires Inv(c) && Fits(c) && NoNesting(c.log) && Enabled(c, step) && !Nests(c, step)
    ensures Fits(Next(c, step)) && NoNesting(Next(c, step).log)
  {
    hide TransactionOpen, NoNesting, AllPrompted, EndsWith, Greeted, Tail, Recv;
    match step
    case Line(code, now, ok) => LineFits(c, code, now, ok);
    case Connected =>
      TransactionSnoc(c.log, Session);
      NestingSnoc(c.log, Session);
    case _ =>
  }

  lemma NestsBreaks(c: Mailer, step: Step)
    requires Inv(c) && Fits(c) && NoNesting(c.log) && Enabled(c, step) && Nests(c, step)
    ensures !NoNesting(Next(c, step).log)
  {
    var c1 := Hear(c, step.code, step.now);
    HeardFits(c, step.code, step.now);
    hide TransactionOpen, NoNesting, AllPrompted, EndsWith, Greeted, Tail, ServerAccepted, Delivered;
    NestingSnoc(c1.log, Mail(c1.queue[1]));
  }

  lemma StepGrows(c: Mailer, step: Step)
    requires Busy(c) && Enabled(c, step)
    ensures c.log <= Next(c, step).log
  {
  }

  lemma {:induction false} RunGrows(c: Mailer, steps: seq<Step>)
    requires Busy(c) && ValidRun(c, steps)
    ensures c.log <= Run(c, steps).log
    decreases |steps|
  {
    hide Next, Enabled, Busy;
    if steps != [] {
      StepKeepsBusy(c, steps[0]);
      StepGrows(c, steps[0]);
      RunGrows(Next(c, steps[0]), steps[1..]);
    }
  }

  lemma {:induction false} NestingIff(c: Mailer, steps: seq<Step>)
    requires Inv(c) && Fits(c) && NoNesting(c.log) && ValidRun(c, steps)
    ensures NoNesting(Run(c, steps).log) <==> NeverNests(c, steps)
    decreases |steps|
  {
    hide Next, Enabled, AllPrompted, Tail, NoNesting, Fits, Nests;
    if steps != [] {
      var d := Next(c, steps[0]);
      StepKeeps(c, steps[0]);
      if Nests(c, steps[0]) {
        NestsBreaks(c, steps[0]);
        RunGrows(d, steps[1..]);
        if NoNesting(Run(c, steps).log) {
          assert Run(c, steps).log == d.log + Run(c, steps).log[|d.log|..];
          NestingPrefix(d.log, Run(c, steps).log[|d.log|..]);
        }
      } else {
        StepFits(c, steps[0]);
        NestingIff(d, steps[1..]);
      }
    }
  }

  // ------------------------------------------------------------------
  //  The main results
  // ------------------------------------------------------------------

  /** For every run: the queue is not empty while a session is open and not being closed; every message is
      acknowledged at most once, in the order offered; a message is acknowledged as delivered exactly when
      the server answered its text with 250; and every command has the replies before it that call for it. */
  lemma MailerIsSafe(timeout: int, steps: seq<Step>)
    requires ValidRun(Fresh(timeout), steps)
    ensures var c := Run(Fresh(timeout), steps);
      && (c.state != NotConnected && c.state != Disconnecting ==> c.queue != [])
      && Acked(c.acks) + c.queue == Offered(steps)
      && Delivered(c.acks) == ServerAccepted(c.log)
      && AllPrompted(c.log)
  {
    RunKeeps(Fresh(timeout), steps);
    AcksFollowQueue(Fresh(timeout), steps);
  }

  /** The order RFC 5321 asks for is kept by exactly the runs on which no message is refused inside its
      transaction (at RCPT, DATA or its text) while another one is waiting and its MAIL goes out: the client
      says MAIL again without RSET. */
  lemma InOrderIff(timeout: int, steps: seq<Step>)
    requires ValidRun(Fresh(timeout), steps)
    ensures InOrder(Run(Fresh(timeout), steps).log) <==> NeverNests(Fresh(timeout), steps)
  {
    RunKeeps(Fresh(timeout), steps);
    NestingIff(Fresh(timeout), steps);
  }

  lemma RunCons(c: Mailer, step: Step, rest: seq<Step>)
    requires Busy(c) && Enabled(c, step)
    ensures Busy(Next(c, step))
    ensures ValidRun(Next(c, step), rest) ==> ValidRun(c, [step] + rest) && Run(c, [step] + rest) == Run(Next(c, step), rest)
  {
    StepKeepsBusy(c, step);
    assert ([step] + rest)[1..] == rest;
    hide Next, Enabled, Busy;
  }

  /** Up to the greeting, with two messages waiting. */
  function OpenWithTwo(m1: Message, m2: Message, rest: seq<Step>): seq<Step> {
    [Enqueue(m1, 0, true)] + ([Enqueue(m2, 0, true)] + ([Connected] + ([Line(220, 1, true)] + rest)))
  }

  lemma OpensWithTwo(m1: Message, m2: Message, timeout: int, rest: seq<Step>)
    ensures var c := Mailer(WaitingForHeloAck, [m1, m2], 1, timeout, [Session, Reply(220), Helo], []);
      ValidRun(c, rest) ==>
        ValidRun(Fresh(timeout), OpenWithTwo(m1, m2, rest)) && Run(Fresh(timeout), OpenWithTwo(m1, m2, rest)) == Run(c, rest)
  {
    var c0 := Fresh(timeout);
    var c1, c2 := Next(c0, Enqueue(m1, 0, true)), Mailer(WaitingForConnect, [m1, m2], 0, timeout, [], []);
    var c3 := c2.(state := WaitingForInvitation, log := [Session]);
    assert c1.state == WaitingForConnect && Next(c1, Enqueue(m2, 0, true)) == c2 && Next(c2, Connected) == c3;
    assert Next(c3, Line(220, 1, true)) == Mailer(WaitingForHeloAck, [m1, m2], 1, timeout, [Session, Reply(220), Helo], []);
    hide Run, ValidRun, Next;
    RunCons(c3, Line(220, 1, true), rest);
    RunCons(c2, Connected, [Line(220, 1, true)] + rest);
    RunCons(c1, Enqueue(m2, 0, true), [Connected] + ([Line(220, 1, true)] + rest));
    RunCons(c0, Enqueue(m1, 0, true), [Enqueue(m2, 0, true)] + ([Connected] + ([Line(220, 1, true)] + rest)));
  }

  const REFUSED_RECIPIENT: seq<Step> := [Line(250, 2, true)] + ([Line(250, 3, true)] + [Line(550, 4, true)])

  function NestedLog(m1: Message, m2: Message): seq<Entry> { GREETING + [Mail(m1), Reply(250), Rcpt(m1), Reply(550), Mail(m2)] }

  lemma ThenRefused(m1: Message, m2: Message, timeout: int)
    ensures var c := Mailer(WaitingForHeloAck, [m1, m2], 1, timeout, [Session, Reply(220), Helo], []);
      ValidRun(c, REFUSED_RECIPIENT) && Run(c, REFUSED_RECIPIENT).log == NestedLog(m1, m2)
  {
    var c4 := Mailer(WaitingForHeloAck, [m1, m2], 1, timeout, [Session, Reply(220), Helo], []);
    var c5 := c4.(state := WaitingForMailAck, last := 2, log := GREETING + [Mail(m1)]);
    var c6 := c4.(state := WaitingForRcptAck, last := 3, log := GREETING + [Mail(m1), Reply(250), Rcpt(m1)]);
    var c7 := Next(c6, Line(550, 4, true));
    assert Next(c4, Line(250, 2, true)) == c5 && Next(c5, Line(250, 3, true)) == c6 && c7.log == NestedLog(m1, m2);
    assert ValidRun(c7, []) && Run(c7, []) == c7;
    hide Run, ValidRun, Next;
    RunCons(c6, Line(550, 4, true), []);
    assert [Line(550, 4, true)] + [] == [Line(550, 4, true)];
    RunCons(c5, Line(250, 3, true), [Line(550, 4, true)]);
    RunCons(c4, Line(250, 2, true), [Line(250, 3, true)] + [Line(550, 4, true)]);
  }

  lemma NestedIsNested(m1: Message, m2: Message)
    ensures !InOrder(NestedLog(m1, m2))
  {
    var start, log := GREETING + [Mail(m1)], NestedLog(m1, m2);
    TransactionSnoc(start, Reply(250));
    TransactionSnoc(start + [Reply(250)], Rcpt(m1));
    TransactionSnoc(start + [Reply(250)] + [Rcpt(m1)], Reply(550));
    assert log[..8] == start + [Reply(250)] + [Rcpt(m1)] + [Reply(550)];
    assert log[8] == Mail(m2);
    hide TransactionOpen;
  }

  /** A run that breaks the order: the recipient of the first of two messages is refused. */
  lemma RefusedRecipientNests(m1: Message, m2: Message, timeout: int)
    ensures var steps := OpenWithTwo(m1, m2, REFUSED_RECIPIENT);
      ValidRun(Fresh(timeout), steps) && !InOrder(Run(Fresh(timeout), steps).log)
  {
    ThenRefused(m1, m2, timeout);
    OpensWithTwo(m1, m2, timeout, REFUSED_RECIPIENT);
    NestedIsNested(m1, m2);
    hide Run, ValidRun, OpenWithTwo, InOrder;
  }
}
