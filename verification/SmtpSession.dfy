/** What a session does to the queue, reply by reply (src/SMTPClient.cpp:78-195, 302-308): each message meets its own fate
    and the next one has its turn. */
module SmtpSession {
  import opened Smtp

  /** What the server makes of a message: takes it, or refuses it at one of the four commands. */
  datatype Fate = Taken | AtMail(code: nat) | AtRcpt(code: nat) | AtData(code: nat) | AtText(code: nat)

  predicate Refusing(f: Fate) {
    match f
    case Taken => true
    case AtMail(code) => code != 250
    case AtRcpt(code) => code != 250
    case AtData(code) => code != 354
    case AtText(code) => code != 250
  }

  /** The replies from MAIL on. */
  function Codes(f: Fate): (cs: seq<nat>) {
    match f
    case Taken => [250, 250, 354, 250]
    case AtMail(code) => [code]
    case AtRcpt(code) => [250, code]
    case AtData(code) => [250, 250, code]
    case AtText(code) => [250, 250, 354, code]
  }

  /** What passes on the socket for a message, once MAIL has been said. */
  function Exchange(m: Message, f: Fate): seq<Entry> {
    match f
    case Taken => [Reply(250), Rcpt(m), Reply(250), Data, Reply(354), Text(m), Reply(250)]
    case AtMail(code) => [Reply(code)]
    case AtRcpt(code) => [Reply(250), Rcpt(m), Reply(code)]
    case AtData(code) => [Reply(250), Rcpt(m), Reply(250), Data, Reply(code)]
    case AtText(code) => [Reply(250), Rcpt(m), Reply(250), Data, Reply(354), Text(m), Reply(code)]
  }

  /** Replies as steps, with every send getting through. */
  function Lines(codes: seq<nat>, now: int): (steps: seq<Step>)
    ensures |steps| == |codes|
  {
    seq(|codes|, i requires 0 <= i < |codes| => Line(codes[i], now, true))
  }

  /** The client after steps that are all enabled. */
  ghost predicate Leads(c: Mailer, steps: seq<Step>, d: Mailer) { Busy(c) && ValidRun(c, steps) && Run(c, steps) == d }

  lemma LeadsNowhere(c: Mailer)
    requires Busy(c)
    ensures Leads(c, [], c)
  {
  }

  lemma LeadsOn(c: Mailer, step: Step, rest: seq<Step>, d: Mailer)
    requires Busy(c) && Enabled(c, step) && Leads(Next(c, step), rest, d)
    ensures Leads(c, [step] + rest, d)
  {
    RunCons(c, step, rest);
  }

  lemma {:induction false} LeadsFurther(c: Mailer, a: seq<Step>, d: Mailer, b: seq<Step>, e: Mailer)
    requires Leads(c, a, d) && Leads(d, b, e)
    ensures Leads(c, a + b, e)
    decreases |a|
  {
    hide Next, Enabled, Busy;
    if a == [] {
      assert a + b == b;
    } else {
      StepKeepsBusy(c, a[0]);
      LeadsFurther(Next(c, a[0]), a[1..], d, b, e);
      LeadsOn(c, a[0], a[1..] + b, e);
      assert [a[0]] + (a[1..] + b) == a + b;
    }
  }

  /** The state after the head has met its fate: the ack says whether it was taken, and what comes next is MAIL for the
      next message, QUIT after a last one that was taken, or the end of the session after a last one refused. */
  function After(c: Mailer, f: Fate, now: int): Mailer
    requires c.queue != []
  {
    var m, rest := c.queue[0], c.queue[1..];
    var acks, log := c.acks + [Ack(m, f.Taken?)], c.log + Exchange(m, f);
    if rest != [] then Mailer(WaitingForMailAck, rest, now, c.timeout, log + [Mail(rest[0])], acks)
    else if f.Taken? then Mailer(Disconnecting, [], now, c.timeout, log + [Quit], acks)
    else Mailer(NotConnected, [], now, c.timeout, log, acks)
  }

  lemma OneLine(c: Mailer, code: nat, now: int, d: Mailer)
    requires Busy(c) && Enabled(c, Line(code, now, true)) && Next(c, Line(code, now, true)) == d && Busy(d)
    ensures Leads(c, [Line(code, now, true)], d)
  {
    LeadsNowhere(d);
    LeadsOn(c, Line(code, now, true), [], d);
    assert [Line(code, now, true)] + [] == [Line(code, now, true)];
  }

  /** A reply in one of the four states that is not the one asked for: the head is refused. */
  lemma LastReply(c: Mailer, code: nat, now: int, f: Fate, sent: seq<Entry>, start: seq<Entry>)
    requires c.queue != [] && Refusing(f) && c.log == start + sent
    requires match f
      case Taken => c.state == WaitingForTextAck && code == 250
      case AtMail(k) => c.state == WaitingForMailAck && code == k
      case AtRcpt(k) => c.state == WaitingForRcptAck && code == k
      case AtData(k) => c.state == WaitingForDataAck && code == k
      case AtText(k) => c.state == WaitingForTextAck && code == k
    requires Exchange(c.queue[0], f) == sent + [Reply(code)]
    ensures Leads(c, [Line(code, now, true)], After(c.(log := start), f, now))
  {
    assert c.log + [Reply(code)] == start + Exchange(c.queue[0], f);
    OneLine(c, code, now, After(c.(log := start), f, now));
  }

  /** Up to the n-th command the replies are the ones asked for. */
  function Midway(c: Mailer, n: nat, now: int): Mailer
    requires c.queue != [] && n <= 3
  {
    var m := c.queue[0];
    match n
    case 0 => c
    case 1 => c.(state := WaitingForRcptAck, last := now, log := c.log + [Reply(250), Rcpt(m)])
    case 2 => c.(state := WaitingForDataAck, last := now, log := c.log + [Reply(250), Rcpt(m), Reply(250), Data])
    case _ => c.(state := WaitingForTextAck, last := now,
                 log := c.log + [Reply(250), Rcpt(m), Reply(250), Data, Reply(354), Text(m)])
  }

  function FirstCodes(n: nat): seq<nat>
    requires n <= 3
  {
    [250, 250, 354][..n]
  }

  lemma LinesSnoc(codes: seq<nat>, code: nat, now: int)
    ensures Lines(codes + [code], now) == Lines(codes, now) + [Line(code, now, true)]
  {
  }

  lemma {:induction false} GetsMidway(c: Mailer, n: nat, now: int)
    requires c.queue != [] && c.state == WaitingForMailAck && n <= 3
    ensures Leads(c, Lines(FirstCodes(n), now), Midway(c, n, now))
  {
    if n == 0 {
      LeadsNowhere(c);
      assert Lines(FirstCodes(0), now) == [];
    } else {
      var d, code := Midway(c, n - 1, now), [250, 250, 354][n - 1];
      GetsMidway(c, n - 1, now);
      assert FirstCodes(n) == FirstCodes(n - 1) + [code];
      LinesSnoc(FirstCodes(n - 1), code, now);
      assert Next(d, Line(code, now, true)).log == Midway(c, n, now).log;
      OneLine(d, code, now, Midway(c, n, now));
      LeadsFurther(c, Lines(FirstCodes(n - 1), now), d, [Line(code, now, true)], Midway(c, n, now));
    }
  }

  /** How many commands are answered as asked before the last reply. */
  function Stage(f: Fate): (n: nat)
    ensures n <= 3
  {
    match f
    case AtMail(_) => 0
    case AtRcpt(_) => 1
    case AtData(_) => 2
    case _ => 3
  }

  /** One message meets its fate. */
  lemma OneMessage(c: Mailer, f: Fate, now: int)
    requires c.state == WaitingForMailAck && c.queue != [] && Refusing(f)
    ensures Leads(c, Lines(Codes(f), now), After(c, f, now))
  {
    var n := Stage(f);
    var d, code := Midway(c, n, now), Codes(f)[|Codes(f)| - 1];
    GetsMidway(c, n, now);
    assert Codes(f) == FirstCodes(n) + [code];
    LinesSnoc(FirstCodes(n), code, now);
    var sent := d.log[|c.log|..];
    assert d.log == c.log + sent;
    hide Leads, Lines;
    LastReply(d, code, now, f, sent, c.log);
    assert After(d.(log := c.log), f, now) == After(c, f, now);
    LeadsFurther(c, Lines(FirstCodes(n), now), d, [Line(code, now, true)], After(c, f, now));
  }

  // ------------------------------------------------------------------
  //  The whole queue
  // ------------------------------------------------------------------

  function AllLines(fates: seq<Fate>, now: int): seq<Step> {
    if fates == [] then [] else Lines(Codes(fates[0]), now) + AllLines(fates[1..], now)
  }

  function Acks(queue: seq<Message>, fates: seq<Fate>): (acks: seq<Ack>)
    requires |queue| == |fates|
    ensures |acks| == |queue|
  {
    seq(|queue|, i requires 0 <= i < |queue| => Ack(queue[i], fates[i].Taken?))
  }

  /** The traffic for a queue, from MAIL for its head on; QUIT is said after a last message that was taken. */
  function Traffic(queue: seq<Message>, fates: seq<Fate>): seq<Entry>
    requires |queue| == |fates|
  {
    if queue == [] then []
    else
      var rest := if |queue| > 1 then Traffic(queue[1..], fates[1..]) else if fates[0].Taken? then [Quit] else [];
      [Mail(queue[0])] + Exchange(queue[0], fates[0]) + rest
  }

  /** Whatever the server makes of each message, every one has its turn, in the order of the queue, over one session: it is
      acknowledged as delivered exactly if it was taken, and the traffic is that of each fate, one after the other. */
  lemma {:induction false} SessionMailsAll(c: Mailer, start: seq<Entry>, fates: seq<Fate>, now: int)
    requires c.state == WaitingForMailAck && c.queue != [] && |fates| == |c.queue| && c.log == start + [Mail(c.queue[0])]
    requires forall f :: f in fates ==> Refusing(f)
    ensures Leads(c, AllLines(fates, now),
                  Mailer(if fates[|fates| - 1].Taken? then Disconnecting else NotConnected, [], now, c.timeout,
                         start + Traffic(c.queue, fates), c.acks + Acks(c.queue, fates)))
    decreases |fates|
  {
    hide Leads, Lines, Exchange;
    var f := fates[0];
    assert f in fates;
    OneMessage(c, f, now);
    var d := After(c, f, now);
    var sent := start + [Mail(c.queue[0])] + Exchange(c.queue[0], f);
    assert c.acks + Acks(c.queue, fates) == c.acks + [Ack(c.queue[0], f.Taken?)] + Acks(c.queue[1..], fates[1..]);
    if |c.queue| == 1 {
      assert Lines(Codes(f), now) + AllLines(fates[1..], now) == Lines(Codes(f), now) by { assert fates[1..] == []; }
      LastTraffic(c.queue, fates, start);
      assert c.queue[1..] == [] && Acks(c.queue, fates) == [Ack(c.queue[0], f.Taken?)];
      assert c.log + Exchange(c.queue[0], f) + [Quit] == start + [Mail(c.queue[0])] + Exchange(c.queue[0], f) + [Quit];
      if !f.Taken? {
        assert start + [Mail(c.queue[0])] + Exchange(c.queue[0], f) + [] == c.log + Exchange(c.queue[0], f);
      }
    } else {
      assert d.log == sent + [Mail(c.queue[1])];
      SessionMailsAll(d, sent, fates[1..], now);
      MoreTraffic(c.queue, fates, start);
      LeadsFurther(c, Lines(Codes(f), now), d, AllLines(fates[1..], now),
                   Mailer(if fates[|fates| - 1].Taken? then Disconnecting else NotConnected, [], now, c.timeout,
                          start + Traffic(c.queue, fates), c.acks + Acks(c.queue, fates)));
    }
  }

  lemma LastTraffic(queue: seq<Message>, fates: seq<Fate>, start: seq<Entry>)
    requires |queue| == |fates| == 1
    ensures start + Traffic(queue, fates)
         == start + [Mail(queue[0])] + Exchange(queue[0], fates[0]) + if fates[0].Taken? then [Quit] else []
  {
    hide Exchange;
  }

  lemma MoreTraffic(queue: seq<Message>, fates: seq<Fate>, start: seq<Entry>)
    requires |queue| == |fates| > 1
    ensures start + Traffic(queue, fates)
         == (start + [Mail(queue[0])] + Exchange(queue[0], fates[0])) + Traffic(queue[1..], fates[1..])
  {
    hide Exchange;
  }

  // ------------------------------------------------------------------
  //  From the first message on
  // ------------------------------------------------------------------

  /** The steps that open a session. */
  function Opening(now: int): seq<Step> { [Connected] + ([Line(220, now, true)] + [Line(250, now, true)]) }

  /** A session opens with the greeting and says MAIL for the head of the queue. */
  lemma SessionOpens(c: Mailer, now: int)
    requires c.state == WaitingForConnect && c.queue != []
    ensures Leads(c, Opening(now), c.(state := WaitingForMailAck, last := now, log := c.log + GREETING + [Mail(c.queue[0])]))
  {
    var c1, c2 := Next(c, Connected), Next(Next(c, Connected), Line(220, now, true));
    var d := c.(state := WaitingForMailAck, last := now, log := c.log + GREETING + [Mail(c.queue[0])]);
    assert Next(c2, Line(250, now, true)).log == d.log;
    OneLine(c2, 250, now, d);
    hide Leads, Next;
    LeadsOn(c1, Line(220, now, true), [Line(250, now, true)], d);
    LeadsOn(c, Connected, [Line(220, now, true)] + [Line(250, now, true)], d);
  }

  function EnqueueAll(queue: seq<Message>, now: int): (steps: seq<Step>)
    ensures |steps| == |queue|
  {
    seq(|queue|, i requires 0 <= i < |queue| => Enqueue(queue[i], now, true))
  }

  lemma {:induction false} QueueGrows(c: Mailer, queue: seq<Message>, now: int)
    requires c.queue != [] && c.state != NotConnected
    ensures Leads(c, EnqueueAll(queue, now), c.(queue := c.queue + queue))
    decreases |queue|
  {
    if queue == [] {
      LeadsNowhere(c);
      assert c.queue + queue == c.queue;
    } else {
      var d := Next(c, Enqueue(queue[0], now, true));
      QueueGrows(d, queue[1..], now);
      assert EnqueueAll(queue, now) == [Enqueue(queue[0], now, true)] + EnqueueAll(queue[1..], now);
      assert d.queue + queue[1..] == c.queue + queue;
      LeadsOn(c, Enqueue(queue[0], now, true), EnqueueAll(queue[1..], now), c.(queue := c.queue + queue));
    }
  }

  /** From a new client: any number of messages offered, one session, and every message has met its fate. */
  lemma MailsEverything(queue: seq<Message>, fates: seq<Fate>, now: int, timeout: int)
    requires |queue| == |fates| > 0 && forall f :: f in fates ==> Refusing(f)
    ensures Leads(Fresh(timeout), EnqueueAll(queue, now) + (Opening(now) + AllLines(fates, now)),
                  Mailer(if fates[|fates| - 1].Taken? then Disconnecting else NotConnected, [], now, timeout,
                         GREETING + Traffic(queue, fates), Acks(queue, fates)))
  {
    var c0 := Fresh(timeout);
    var c1 := Next(c0, Enqueue(queue[0], now, true));
    var c2 := Mailer(WaitingForConnect, queue, now, timeout, [], []);
    var c3 := c2.(state := WaitingForMailAck, log := GREETING + [Mail(queue[0])]);
    QueueGrows(c1, queue[1..], now);
    assert [queue[0]] + queue[1..] == queue && c1.queue == [queue[0]];
    assert EnqueueAll(queue, now) == [Enqueue(queue[0], now, true)] + EnqueueAll(queue[1..], now);
    LeadsOn(c0, Enqueue(queue[0], now, true), EnqueueAll(queue[1..], now), c2);
    SessionOpens(c2, now);
    assert [] + GREETING + [Mail(queue[0])] == GREETING + [Mail(queue[0])];
    SessionMailsAll(c3, GREETING, fates, now);
    hide Leads, Traffic, Opening, AllLines, EnqueueAll;
    var acks := Acks(queue, fates);
    assert [] + acks == acks;
    var d := Mailer(if fates[|fates| - 1].Taken? then Disconnecting else NotConnected, [], now, timeout,
                    GREETING + Traffic(queue, fates), acks);
    LeadsFurther(c2, Opening(now), c3, AllLines(fates, now), d);
    LeadsFurther(c0, EnqueueAll(queue, now), c2, Opening(now) + AllLines(fates, now), d);
  }

  /** A session is given up by a poll if something is still queued and the last reply is longer ago than the timeout; when
      there is no session and something queued, a poll dials. */
  lemma PollDecides(c: Mailer, now: int, ok: bool)
    requires Busy(c)
    ensures var r := Next(c, Tick(now, ok));
      && r.queue == c.queue && r.acks == c.acks && r.log == c.log
      && r.state == (if c.queue == [] then c.state
                     else if c.state == NotConnected then if ok then WaitingForConnect else NotConnected
                     else if now > c.last + c.timeout then NotConnected else c.state)
  {
  }

  /** A session lost on the way costs no message: nothing is acknowledged, and with the next session the head of the queue
      is mailed again from MAIL on. */
  lemma LostSessionIsMadeUp(c: Mailer, now: int)
    requires Busy(c) && Enabled(c, RecvFails) && c.queue != []
    ensures Leads(c, [RecvFails] + ([Tick(now, true)] + Opening(now)),
                  c.(state := WaitingForMailAck, last := now, log := c.log + GREETING + [Mail(c.queue[0])]))
  {
    var c1 := Next(c, RecvFails);
    var c2 := Next(c1, Tick(now, true));
    SessionOpens(c2, now);
    hide Leads, Opening;
    var d := c.(state := WaitingForMailAck, last := now, log := c.log + GREETING + [Mail(c.queue[0])]);
    LeadsOn(c1, Tick(now, true), Opening(now), d);
    LeadsOn(c, RecvFails, [Tick(now, true)] + Opening(now), d);
  }

  /** A command that cannot be sent, or a greeting that is refused, drops the session, with the queue as the reply left it. */
  lemma FailedSendDrops(c: Mailer, code: nat, now: int)
    requires Busy(c) && Enabled(c, Line(code, now, false)) && c.state != Disconnecting
    ensures var r := Next(c, Line(code, now, false));
      && r.state == NotConnected && r.log == c.log + [Reply(code)]
      && (if Mailing(c.state) && (Refuses(c.state, code) || (c.state == WaitingForMailAck && code != 250))
          then r.queue == c.queue[1..] && r.acks == c.acks + [Ack(c.queue[0], false)]
          else if c.state == WaitingForTextAck then r.queue == c.queue[1..] && r.acks == c.acks + [Ack(c.queue[0], true)]
          else r.queue == c.queue && r.acks == c.acks)
  {
  }

  lemma RefusedGreetingDrops(c: Mailer, code: nat, now: int, ok: bool)
    requires Busy(c) && Enabled(c, Line(code, now, ok))
    requires (c.state == WaitingForInvitation && code != 220) || (c.state == WaitingForHeloAck && code != 250)
    ensures var r := Next(c, Line(code, now, ok)); r.state == NotConnected && r.queue == c.queue && r.acks == c.acks
  {
  }

  /** Replies after QUIT, the server's goodbye among them, change nothing. */
  lemma GoodbyeIsIgnored(c: Mailer, code: nat, now: int, ok: bool)
    requires Busy(c) && c.state == Disconnecting
    ensures Next(c, Line(code, now, ok)) == c.(log := c.log + [Reply(code)], last := now)
  {
  }
}
