/** Two clients doing the direct-connection handshake over a pair of FIFO channels
    (src/DirectClient.cpp: Connect, FinishNonBlockingConnect, Parse). */
module Handshake {
  import opened Wrappers
  import opened Buffers
  import opened DirectConn
  import C = Cache

  /** a connects to b. A channel is the sender's wire log; the reader has taken its first
      readA (readB) packets. */
  datatype Sys = Sys(
    a: Conn, b: Conn,
    readA: nat, readB: nat,
    failedA: bool, failedB: bool)

  datatype Side = A | B

  datatype Step =
    | ConnectDone(env: Env)
    | Receive(side: Side, env: Env)
    | Submit(side: Side, ev: Event, env: Env)

  /** The fixed circumstances of a run. */
  datatype Setup = Setup(
    uinA: uint, uinB: uint,      // who a and b really are
    target: uint,                // whom a means to call
    version: ushort,             // the protocol version a has recorded for the contact
    session: uint,
    known: set<uint>)            // the UINs b's ConfirmUIN accepts

  function Init(z: Setup): Sys {
    Sys(Connect(NewOutgoing(z.uinA, z.target), z.version, z.session).0, NewIncoming(z.uinB), 0, 0, false, false)
  }

  /** FinishNonBlockingConnect sends the first init packet. */
  function FinishConnect(c: Conn, h: Host): Conn { Write(c, InitPacket(c, h)) }

  predicate Enabled(s: Sys, z: Setup, step: Step) {
    match step
    case ConnectDone(_) => s.a.wire == [] && s.a.state == WaitingForInitAck
    case Receive(A, env) => !s.failedA && s.readA < |s.b.wire|
    case Receive(B, env) => !s.failedB && s.readB < |s.a.wire| && env.known == z.known
    case Submit(A, _, _) => !s.failedA
    case Submit(B, _, _) => !s.failedB
  }

  /** One packet taken by c: the handshake handler, or nothing for a message once connected. A message
      before that, or a handshake packet after it, makes the connection fail. */
  function Take(c: Conn, f: Frame, env: Env): (Conn, bool) {
    match f
    case Handshake(bytes) => if c.state == Connected then (c, false) else HandlePacket(c, bytes, env)
    case Message(_, _) => (c, c.state == Connected)
  }

  function Next(s: Sys, step: Step): Sys
    requires step.Receive? ==> if step.side.A? then s.readA < |s.b.wire| else s.readB < |s.a.wire|
  {
    match step
    case ConnectDone(env) => s.(a := FinishConnect(s.a, env.host))
    case Receive(A, env) =>
      var (c, ok) := Take(s.a, s.b.wire[s.readA], env);
      s.(a := c, readA := s.readA + 1, failedA := !ok)
    case Receive(B, env) =>
      var (c, ok) := Take(s.b, s.a.wire[s.readB], env);
      s.(b := c, readB := s.readB + 1, failedB := !ok)
    case Submit(A, ev, env) => s.(a := SendEvent(s.a, ev, env.now))
    case Submit(B, ev, env) => s.(b := SendEvent(s.b, ev, env.now))
  }

  ghost predicate ValidRun(s: Sys, z: Setup, steps: seq<Step>)
    decreases |steps|
  {
    steps != [] ==> Enabled(s, z, steps[0]) && ValidRun(Next(s, steps[0]), z, steps[1..])
  }

  ghost function Run(s: Sys, z: Setup, steps: seq<Step>): Sys
    requires ValidRun(s, z, steps)
    decreases |steps|
  {
    if steps == [] then s else Run(Next(s, steps[0]), z, steps[1..])
  }

  /** When the handshake can succeed. */
  predicate Agreeable(z: Setup) {
    z.version == 7 && z.target == z.uinB && z.uinA in z.known
  }

  // ------------------------------------------------------------------
  //  The invariant
  // ------------------------------------------------------------------

  predicate OnlyMessages(w: seq<Frame>) { forall f :: f in w ==> f.Message? }

  /** A packet that starts a handshake on behalf of c, from any host. */
  ghost predicate IsInit(f: Frame, c: Conn) {
    exists d: Conn, h: Host :: f == Handshake(InitPacket(d, h))
      && d.selfUin == c.selfUin && d.remoteUin == c.remoteUin && d.session == c.session
  }

  predicate IsAck(f: Frame) { f == Handshake(INIT_ACK) }

  predicate IsInit2(f: Frame, incoming: bool) { f == Handshake(Init2Packet(incoming)) }

  /** What stays fixed at each end. */
  ghost predicate Ends(s: Sys, z: Setup) {
    && !s.failedA && !s.failedB
    && !s.a.incoming && s.a.selfUin == z.uinA && s.a.remoteUin == z.uinB
    && s.a.session == z.session && s.a.remoteVersion == 7 && s.a.effVersion == 7
    && s.b.incoming && s.b.selfUin == z.uinB
    && (s.readB > 0 ==> s.b.remoteUin == z.uinA && s.b.session == z.session && s.b.effVersion == 7)
    && (s.a.state == Connected ==> s.a.queue == [])
    && (s.b.state == Connected ==> s.b.queue == [])
  }

  /** The packets a has sent once it has read n of b's. */
  ghost predicate WireA(s: Sys) {
    var w := s.a.wire;
    match s.readA
    case 0 => |w| <= 1 && (w != [] ==> IsInit(w[0], s.a)) && s.a.state == WaitingForInitAck
    case 1 => |w| == 1 && IsInit(w[0], s.a) && s.a.state == WaitingForInit
    case 2 => |w| == 3 && IsInit(w[0], s.a) && IsAck(w[1]) && IsInit2(w[2], false) && s.a.state == WaitingForInit2
    case _ => |w| >= 3 && IsInit(w[0], s.a) && IsAck(w[1]) && IsInit2(w[2], false) && OnlyMessages(w[3..])
              && s.a.state == Connected
  }

  ghost predicate WireB(s: Sys) {
    var w := s.b.wire;
    match s.readB
    case 0 => w == [] && s.b.state == WaitingForInit
    case 1 => |w| == 2 && IsAck(w[0]) && IsInit(w[1], s.b) && s.b.state == WaitingForInitAck
    case 2 => |w| == 2 && IsAck(w[0]) && IsInit(w[1], s.b) && s.b.state == WaitingForInit2
    case _ => |w| >= 3 && IsAck(w[0]) && IsInit(w[1], s.b) && IsInit2(w[2], true) && OnlyMessages(w[3..])
              && s.b.state == Connected && s.b.contact == Some(s.b.remoteUin)
  }

  ghost predicate Inv(s: Sys, z: Setup) {
    && Ends(s, z) && WireA(s) && WireB(s)
    && s.readA <= |s.b.wire| && s.readB <= |s.a.wire|
  }

  // ------------------------------------------------------------------
  //  Steps keep it
  // ------------------------------------------------------------------

  /** Flushing leaves the handshake fields alone. */
  lemma {:induction false} FlushFields(c: Conn, now: int)
    ensures var r := FlushQueue(c, now);
      r == c.(wire := r.wire, queue := [], cache := r.cache, seqnum := r.seqnum)
    decreases |c.queue|
  {
    hide C.Insert;
    if c.queue != [] {
      FlushFields(SendPacketEvent(c, c.queue[0], now).(queue := c.queue[1..]), now);
    }
  }

  /** Flushing adds messages to the wire. */
  lemma {:induction false} FlushAddsMessages(c: Conn, now: int)
    ensures var r := FlushQueue(c, now);
      c.wire <= r.wire && OnlyMessages(r.wire[|c.wire|..])
    decreases |c.queue|
  {
    hide C.Insert;
    if c.queue != [] {
      var d := SendPacketEvent(c, c.queue[0], now).(queue := c.queue[1..]);
      FlushAddsMessages(d, now);
      var w := FlushQueue(c, now).wire;
      assert c.wire <= d.wire;
      assert w[|c.wire|..] == [d.wire[|c.wire|]] + w[|d.wire|..];
    }
  }

  lemma SendFields(c: Conn, ev: Event, now: int)
    ensures var r := SendEvent(c, ev, now);
      && r == c.(wire := r.wire, queue := r.queue, cache := r.cache, seqnum := r.seqnum)
      && (c.state == Connected ==> r.queue == c.queue && exists m: Frame :: m.Message? && r.wire == c.wire + [m])
      && (c.state != Connected ==> r.wire == c.wire)
  {
    if c.state == Connected {
      var m := Message(c.seqnum, ev);
      assert m.Message? && SendEvent(c, ev, now).wire == c.wire + [m];
    }
  }

  lemma SubmitKeepsInv(s: Sys, z: Setup, step: Step)
    requires Inv(s, z) && step.Submit? && Enabled(s, z, step)
    ensures Inv(Next(s, step), z)
  {
    hide InitPacket, Init2Packet, INIT_ACK, SendEvent;
    var c := if step.side.A? then s.a else s.b;
    SendFields(c, step.ev, step.env.now);
    if c.state == Connected {
      var m: Frame :| m.Message? && SendEvent(c, step.ev, step.env.now).wire == c.wire + [m];
      assert (c.wire + [m])[3..] == c.wire[3..] + [m];
    }
  }

  /** b's turn. */
  lemma ReceiveBKeepsInv(s: Sys, z: Setup, env: Env)
    requires Agreeable(z) && Inv(s, z) && Enabled(s, z, Receive(B, env))
    ensures Inv(Next(s, Receive(B, env)), z)
  {
    hide InitPacket, Init2Packet, INIT_ACK, ParseInitPacket, ParseInitAck, ParseInit2;
    var f := s.a.wire[s.readB];
    ReadAcks(false);
    if s.readB == 0 {
      var d, h :| f == Handshake(InitPacket(d, h))
        && d.selfUin == z.uinA && d.remoteUin == z.uinB && d.session == z.session;
      AcceptInitPacket(s.b, d, h);
      var t := Next(s, Receive(B, env));
      var c1 := ParseInitPacket(s.b, InitPacket(d, h)).0;
      assert t.b.wire == [Handshake(INIT_ACK), Handshake(InitPacket(Write(c1, INIT_ACK), env.host))];
    } else if s.readB == 2 {
      var c := Write(s.b, Init2Packet(true)).(contact := Some(s.b.remoteUin), state := Connected);
      FlushAddsMessages(c, env.now);
      FlushFields(c, env.now);
    } else if s.readB > 2 {
      assert f in s.a.wire[3..];
    }
  }

  /** a's turn. */
  lemma ReceiveAKeepsInv(s: Sys, z: Setup, env: Env)
    requires Agreeable(z) && Inv(s, z) && Enabled(s, z, Receive(A, env))
    ensures Inv(Next(s, Receive(A, env)), z)
  {
    hide InitPacket, Init2Packet, INIT_ACK, ParseInitPacket, ParseInitAck, ParseInit2;
    var f := s.b.wire[s.readA];
    ReadAcks(true);
    if s.readA == 1 {
      var d, h :| f == Handshake(InitPacket(d, h))
        && d.selfUin == z.uinB && d.remoteUin == z.uinA && d.session == z.session;
      CheckInitPacket(s.a, d, h);
    } else if s.readA == 2 {
      FlushAddsMessages(s.a.(state := Connected), env.now);
      FlushFields(s.a.(state := Connected), env.now);
    } else if s.readA > 2 {
      assert f in s.b.wire[3..];
    }
  }

  lemma NextKeepsInv(s: Sys, z: Setup, step: Step)
    requires Agreeable(z) && Inv(s, z) && Enabled(s, z, step)
    ensures Inv(Next(s, step), z)
  {
    match step
    case ConnectDone(env) => assert IsInit(FinishConnect(s.a, env.host).wire[0], s.a);
    case Receive(A, env) => ReceiveAKeepsInv(s, z, env);
    case Receive(B, env) => ReceiveBKeepsInv(s, z, env);
    case Submit(_, _, _) => SubmitKeepsInv(s, z, step);
  }

  lemma {:induction false} RunKeepsInv(s: Sys, z: Setup, steps: seq<Step>)
    requires Agreeable(z) && Inv(s, z) && ValidRun(s, z, steps)
    ensures Inv(Run(s, z, steps), z)
    decreases |steps|
  {
    if steps != [] {
      NextKeepsInv(s, z, steps[0]);
      RunKeepsInv(Next(s, steps[0]), z, steps[1..]);
    }
  }

  // ------------------------------------------------------------------
  //  The theorems
  // ------------------------------------------------------------------

  /** How many handshake packets are still to be taken. */
  function Remaining(s: Sys): nat {
    (if s.a.wire == [] then 1 else 0) + (if s.readA < 3 then 3 - s.readA else 0) + (if s.readB < 3 then 3 - s.readB else 0)
  }

  ghost predicate BothConnected(s: Sys) { s.a.state == Connected && s.b.state == Connected }

  /** On every run no packet meets a state that does not expect it and no exception is thrown; ends that
      are connected agree on session, version and each other's UIN. */
  lemma HandshakeIsSafe(z: Setup, steps: seq<Step>)
    requires Agreeable(z) && ValidRun(Init(z), z, steps)
    ensures var s := Run(Init(z), z, steps);
      && !s.failedA && !s.failedB
      && (BothConnected(s) ==>
            && s.a.session == s.b.session == z.session
            && s.a.effVersion == s.b.effVersion == 7
            && s.a.remoteUin == z.uinB && s.b.remoteUin == z.uinA && s.b.contact == Some(z.uinA)
            && s.a.queue == [] && s.b.queue == [])
  {
    RunKeepsInv(Init(z), z, steps);
  }

  /** A message is read only by an end that is connected. */
  lemma NoEarlyMessage(z: Setup, steps: seq<Step>, env: Env)
    requires Agreeable(z) && ValidRun(Init(z), z, steps)
    ensures var s := Run(Init(z), z, steps);
      && (Enabled(s, z, Receive(A, env)) && s.b.wire[s.readA].Message? ==> s.a.state == Connected)
      && (Enabled(s, z, Receive(B, env)) && s.a.wire[s.readB].Message? ==> s.b.state == Connected)
  {
    RunKeepsInv(Init(z), z, steps);
  }

  /** The next handshake step. */
  function NextStep(s: Sys, env: Env): Step {
    if s.a.wire == [] then ConnectDone(env)
    else if s.readB == 0 || (s.readA >= 2 && s.readB < 3) then Receive(B, env)
    else Receive(A, env)
  }

  lemma NextStepEnabled(s: Sys, z: Setup, env: Env)
    requires Inv(s, z) && env.known == z.known && !BothConnected(s)
    ensures Enabled(s, z, NextStep(s, env))
    ensures s.a.wire == [] || (if NextStep(s, env) == Receive(A, env) then s.readA < 3 else s.readB < 3)
  {
    hide InitPacket, Init2Packet, INIT_ACK, OnlyMessages;
  }

  lemma StepCounts(s: Sys, z: Setup, env: Env)
    requires Inv(s, z) && Enabled(s, z, NextStep(s, env))
    requires s.a.wire == [] || (if NextStep(s, env) == Receive(A, env) then s.readA < 3 else s.readB < 3)
    requires Inv(Next(s, NextStep(s, env)), z)
    ensures Remaining(Next(s, NextStep(s, env))) < Remaining(s)
  {
    hide InitPacket, Init2Packet, INIT_ACK, OnlyMessages, HandlePacket;
  }

  /** The handshake never gets stuck: while an end is not connected, some packet is ready to be sent or
      taken, and doing so brings the end nearer. */
  lemma HandshakeProgresses(z: Setup, steps: seq<Step>, env: Env)
    requires Agreeable(z) && ValidRun(Init(z), z, steps) && env.known == z.known
    requires !BothConnected(Run(Init(z), z, steps))
    ensures var s := Run(Init(z), z, steps);
      exists step: Step :: !step.Submit? && Enabled(s, z, step) && Remaining(Next(s, step)) < Remaining(s)
  {
    RunKeepsInv(Init(z), z, steps);
    var s := Run(Init(z), z, steps);
    var step := NextStep(s, env);
    assert !step.Submit?;
    hide Run, Inv, Remaining, NextStep;
    NextStepEnabled(s, z, env);
    NextKeepsInv(s, z, step);
    StepCounts(s, z, env);
  }

  /** No step, a submission included, sets the handshake back. */
  lemma NothingRaisesRemaining(s: Sys, z: Setup, step: Step)
    requires Agreeable(z) && Inv(s, z) && Enabled(s, z, step)
    ensures Remaining(Next(s, step)) <= Remaining(s)
  {
    hide InitPacket, Init2Packet, INIT_ACK, OnlyMessages, HandlePacket, SendEvent;
    NextKeepsInv(s, z, step);
    if step.Submit? { SendFields(if step.side.A? then s.a else s.b, step.ev, step.env.now); }
  }

  /** A run that connects both ends. */
  ghost predicate Connects(s: Sys, z: Setup, steps: seq<Step>) { ValidRun(s, z, steps) && BothConnected(Run(s, z, steps)) }

  /** From every state a run can reach, what is still to be taken of the handshake connects both ends. */
  lemma HandshakeCompletes(s: Sys, z: Setup, env: Env) returns (steps: seq<Step>)
    requires Agreeable(z) && Inv(s, z) && env.known == z.known
    ensures Connects(s, z, steps) && |steps| <= Remaining(s)
    decreases Remaining(s)
  {
    hide Inv, Next, NextStep, Remaining;
    if BothConnected(s) {
      steps := [];
    } else {
      var step := NextStep(s, env);
      NextStepEnabled(s, z, env);
      NextKeepsInv(s, z, step);
      StepCounts(s, z, env);
      var rest := HandshakeCompletes(Next(s, step), z, env);
      steps := [step] + rest;
      assert steps[1..] == rest;
    }
  }

  /** After any run, however messages and packets were interleaved, some continuation connects both ends. */
  lemma RunCompletes(z: Setup, steps: seq<Step>, env: Env)
    requires Agreeable(z) && ValidRun(Init(z), z, steps) && env.known == z.known
    ensures exists more :: Connects(Run(Init(z), z, steps), z, more)
  {
    RunKeepsInv(Init(z), z, steps);
    var more := HandshakeCompletes(Run(Init(z), z, steps), z, env);
  }

  // ------------------------------------------------------------------
  //  Without agreement the handshake does not succeed
  // ------------------------------------------------------------------

  ghost predicate SomeInit(f: Frame) { exists d: Conn, h: Host :: f == Handshake(InitPacket(d, h)) }

  /** Holds on every run, agreeable or not. */
  ghost predicate Guarded(s: Sys, z: Setup) {
    && !s.a.incoming && s.a.selfUin == z.uinA && s.a.remoteUin == z.target && s.a.remoteVersion == z.version
    && (s.a.wire != [] ==> IsInit(s.a.wire[0], s.a))
    && s.readB <= |s.a.wire| && (s.a.state == NotConnected || s.a.state == WaitingForInitAck || s.a.wire != [])
    && s.b.incoming && s.b.selfUin == z.uinB && s.b.state != NotConnected
    && (s.b.state == WaitingForInit ==> s.b.wire == [] && (s.readB > 0 ==> s.failedB))
    && (s.b.state != WaitingForInit ==>
          && s.readB > 0 && z.target == z.uinB && s.b.remoteUin == z.uinA && s.b.effVersion == 7
          && |s.b.wire| >= 2 && SomeInit(s.b.wire[1]))
    && (s.b.state == Connected ==> z.uinA in z.known)
    && (s.a.state == WaitingForInit ==> s.readA == 1 || s.failedA)
    && (s.a.state == WaitingForInitAck ==> s.readA == 0 || s.failedA)
    && (s.a.state == WaitingForInit2 || s.a.state == Connected ==> z.version == 7)
  }

  lemma SubmitKeepsGuard(s: Sys, z: Setup, step: Step)
    requires Guarded(s, z) && step.Submit? && Enabled(s, z, step)
    ensures Guarded(Next(s, step), z)
  {
    hide InitPacket, Init2Packet, INIT_ACK, SendEvent;
    SendFields(if step.side.A? then s.a else s.b, step.ev, step.env.now);
  }

  lemma ReceiveAKeepsGuard(s: Sys, z: Setup, env: Env)
    requires Guarded(s, z) && Enabled(s, z, Receive(A, env))
    ensures Guarded(Next(s, Receive(A, env)), z)
  {
    hide InitPacket, Init2Packet, INIT_ACK, ParseInitPacket, ParseInitAck, ParseInit2, FlushQueue;
    if s.a.state == WaitingForInit {
      var c1 := Write(s.a, INIT_ACK);
      FlushFields(c1.(state := Connected), env.now);
      FlushAddsMessages(c1.(state := Connected), env.now);
      var d, h :| s.b.wire[1] == Handshake(InitPacket(d, h));
      CheckInitPacket(s.a, d, h);
    } else {
      FlushFields(s.a.(state := Connected), env.now);
      FlushAddsMessages(s.a.(state := Connected), env.now);
    }
  }

  lemma ReceiveBKeepsGuard(s: Sys, z: Setup, env: Env)
    requires Guarded(s, z) && Enabled(s, z, Receive(B, env))
    ensures Guarded(Next(s, Receive(B, env)), z)
  {
    hide InitPacket, Init2Packet, INIT_ACK, ParseInitPacket, ParseInitAck, ParseInit2;
    var t := Next(s, Receive(B, env));
    if s.b.state == WaitingForInit {
      var d, h :| s.a.wire[0] == Handshake(InitPacket(d, h))
        && d.selfUin == z.uinA && d.remoteUin == z.target && d.session == s.a.session;
      AcceptInitPacket(s.b, d, h);
      var c2 := Write(ParseInitPacket(s.b, InitPacket(d, h)).0, INIT_ACK);
      if !t.failedB { assert t.b.wire[1] == Handshake(InitPacket(c2, env.host)); }
    } else {
      var c := Write(s.b, Init2Packet(true)).(contact := Some(s.b.remoteUin), state := Connected);
      FlushFields(c, env.now);
      FlushAddsMessages(c, env.now);
      assert c.wire[1] == s.b.wire[1];
    }
  }

  lemma NextKeepsGuard(s: Sys, z: Setup, step: Step)
    requires Guarded(s, z) && Enabled(s, z, step)
    ensures Guarded(Next(s, step), z)
  {
    match step
    case ConnectDone(env) => assert IsInit(FinishConnect(s.a, env.host).wire[0], s.a);
    case Receive(A, env) => ReceiveAKeepsGuard(s, z, env);
    case Receive(B, env) => ReceiveBKeepsGuard(s, z, env);
    case Submit(_, _, _) => SubmitKeepsGuard(s, z, step);
  }

  lemma {:induction false} RunKeepsGuard(s: Sys, z: Setup, steps: seq<Step>)
    requires Guarded(s, z) && ValidRun(s, z, steps)
    ensures Guarded(Run(s, z, steps), z)
    decreases |steps|
  {
    hide Guarded, Next;
    if steps != [] {
      NextKeepsGuard(s, z, steps[0]);
      RunKeepsGuard(Next(s, steps[0]), z, steps[1..]);
    }
  }

  /** On no run do both ends connect unless the initiator recorded version 7, called the right UIN, and is a
      contact the acceptor confirms. */
  lemma ConnectedOnlyIfAgreeable(z: Setup, steps: seq<Step>)
    requires ValidRun(Init(z), z, steps) && BothConnected(Run(Init(z), z, steps))
    ensures Agreeable(z)
  {
    RunKeepsGuard(Init(z), z, steps);
  }

  /** The two ends can connect if and only if the setup is agreeable. */
  lemma ConnectsIff(z: Setup)
    ensures (exists steps :: Connects(Init(z), z, steps)) <==> Agreeable(z)
  {
    hide Run, BothConnected;
    if Agreeable(z) {
      var none: seq<Step> := [];
      RunKeepsInv(Init(z), z, none);
      var steps := HandshakeCompletes(Init(z), z, Env(Host(0, 0, 0), z.known, 0));
    }
    forall steps | Connects(Init(z), z, steps) ensures Agreeable(z) {
      ConnectedOnlyIfAgreeable(z, steps);
    }
  }
}
