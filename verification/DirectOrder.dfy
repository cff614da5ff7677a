/** Order and numbering of the messages on one direct connection
    (src/DirectClient.cpp: SendEvent, flush_queue, SendPacketEvent, NextSeqNum, the ack branch). */
module DirectOrder {
  import opened Wrappers
  import opened Buffers
  import opened DirectConn
  import C = Cache

  type Sent = (ushort, Event)

  /** The message packets on the wire, in order. */
  function Messages(wire: seq<Frame>): seq<Sent> {
    if wire == [] then []
    else
      var last := wire[|wire| - 1];
      Messages(wire[..|wire| - 1]) + (if last.Message? then [(last.seqnum, last.ev)] else [])
  }

  function Events(ms: seq<Sent>): (es: seq<Event>)
    ensures |es| == |ms|
  {
    seq(|ms|, i requires 0 <= i < |ms| => ms[i].1)
  }

  function Pairs(cache: seq<C.Item<ushort, Event>>): (ps: seq<Sent>)
    ensures |ps| == |cache|
  {
    seq(|cache|, i requires 0 <= i < |cache| => (cache[i].key, cache[i].value))
  }

  /** The number of the i-th message: 0xFFFF, 0xFFFE, ... modulo 2^16. */
  function SeqNumOf(i: nat): ushort { (0xFFFF - i) % 0x1_0000 }

  /** An ack: the entry with that number is taken out, and its event handed back. */
  function Acknowledge(c: Conn, s: ushort): (Conn, Option<Event>) {
    var i := C.IndexOf(c.cache, s);
    if i < |c.cache| then (c.(cache := C.RemoveAt(c.cache, i)), Some(c.cache[i].value)) else (c, None)
  }

  /** What can happen to a connection. */
  datatype Op =
    | Send(ev: Event)
    | Packet(bytes: seq<byte>)
    | Ack(s: ushort)
    | Poll

  function Step(c: Conn, op: Op, env: Env): Conn {
    match op
    case Send(ev) => SendEvent(c, ev, env.now)
    case Packet(bytes) => if c.state == Connected then c else HandlePacket(c, bytes, env).0
    case Ack(s) => Acknowledge(c, s).0
    case Poll => c.(cache := c.cache[C.ExpiredCount(c.cache, env.now)..])
  }

  function Run(c: Conn, ops: seq<(Op, Env)>): Conn
    decreases |ops|
  {
    if ops == [] then c else Run(Step(c, ops[0].0, ops[0].1), ops[1..])
  }

  /** The events handed to SendEvent, in order. */
  function Submitted(ops: seq<(Op, Env)>): seq<Event>
    decreases |ops|
  {
    if ops == [] then []
    else (if ops[0].0.Send? then [ops[0].0.ev] else []) + Submitted(ops[1..])
  }

  ghost predicate Numbered(ms: seq<Sent>) { forall i :: 0 <= i < |ms| ==> ms[i].0 == SeqNumOf(i) }

  /** Wire, then queue, is everything submitted so far; numbers count down; the queue is empty
      once connected; what awaits an ack was sent. */
  ghost predicate Ordered(c: Conn, submitted: seq<Event>) {
    var ms := Messages(c.wire);
    && Events(ms) + c.queue == submitted
    && Numbered(ms) && c.seqnum == SeqNumOf(|ms|)
    && (c.state == Connected ==> c.queue == [])
    && multiset(Pairs(c.cache)) <= multiset(ms)
  }

  lemma MessagesAppend(wire: seq<Frame>, f: Frame)
    ensures Messages(wire + [f]) == Messages(wire) + if f.Message? then [(f.seqnum, f.ev)] else []
  {
    assert (wire + [f])[..|wire|] == wire;
  }

  lemma SeqNumNext(i: nat)
    ensures SeqNumOf(i + 1) == (SeqNumOf(i) - 1) % 0x1_0000
  {
  }

  lemma PairsInsert(cache: seq<C.Item<ushort, Event>>, t: C.Item<ushort, Event>)
    ensures multiset(Pairs(C.Insert(cache, t))) == multiset(Pairs(cache)) + multiset{(t.key, t.value)}
  {
    hide C.InsertPos;
    var p := C.InsertPos(cache, t.Expiry());
    PairsAround(cache, p, t);
    hide Pairs;
    var a, b := Pairs(cache[..p]), Pairs(cache[p..]);
    assert multiset(a + [(t.key, t.value)] + b) == multiset(a + b) + multiset{(t.key, t.value)};
  }

  lemma PairsAround(cache: seq<C.Item<ushort, Event>>, p: nat, t: C.Item<ushort, Event>)
    requires p <= |cache|
    ensures Pairs(cache) == Pairs(cache[..p]) + Pairs(cache[p..])
    ensures Pairs(cache[..p] + [t] + cache[p..]) == Pairs(cache[..p]) + [(t.key, t.value)] + Pairs(cache[p..])
  {
  }

  lemma PairsRemoveAt(cache: seq<C.Item<ushort, Event>>, i: nat)
    requires i < |cache|
    ensures Pairs(C.RemoveAt(cache, i)) == C.RemoveAt(Pairs(cache), i)
    ensures multiset(Pairs(C.RemoveAt(cache, i))) == multiset(Pairs(cache)) - multiset{Pairs(cache)[i]}
  {
    var ps := Pairs(cache);
    assert ps == ps[..i] + [ps[i]] + ps[i + 1..];
    assert Pairs(C.RemoveAt(cache, i)) == ps[..i] + ps[i + 1..];
  }

  lemma PairsDrop(cache: seq<C.Item<ushort, Event>>, n: nat)
    requires n <= |cache|
    ensures multiset(Pairs(cache[n..])) <= multiset(Pairs(cache))
  {
    var ps := Pairs(cache);
    assert ps == ps[..n] + ps[n..];
    assert Pairs(cache[n..]) == ps[n..];
  }

  /** Sending the head of what is still to go: it moves from there to the end of the wire. */
  lemma SendKeepsOrder(c: Conn, ev: Event, rest: seq<Event>, now: int, submitted: seq<Event>)
    requires Ordered(c.(queue := [ev] + rest, state := WaitingForInit), submitted)
    ensures Ordered(SendPacketEvent(c, ev, now).(queue := rest, state := WaitingForInit), submitted)
  {
    var ms, sent := Messages(c.wire), (c.seqnum, ev);
    hide Messages, Pairs, Events, Numbered, SeqNumOf, C.Insert;
    MessagesAppend(c.wire, Message(c.seqnum, ev));
    EventsSnoc(ms, sent);
    assert Events(ms) + ([ev] + rest) == Events(ms) + [ev] + rest;
    NumberedSnoc(ms, ev);
    SeqNumNext(|ms|);
    PairsInsert(c.cache, C.Item(c.seqnum, ev, now, ACK_TIMEOUT));
    assert multiset(ms + [sent]) == multiset(ms) + multiset{sent};
  }

  lemma EventsSnoc(ms: seq<Sent>, sent: Sent)
    ensures Events(ms + [sent]) == Events(ms) + [sent.1]
  {
  }

  lemma NumberedSnoc(ms: seq<Sent>, ev: Event)
    requires Numbered(ms)
    ensures Numbered(ms + [(SeqNumOf(|ms|), ev)])
  {
    hide SeqNumOf;
  }

  lemma {:induction false} FlushKeepsOrder(c: Conn, now: int, submitted: seq<Event>)
    requires Ordered(c.(state := WaitingForInit), submitted)
    ensures Ordered(FlushQueue(c, now), submitted)
    ensures FlushQueue(c, now).state == c.state
    decreases |c.queue|
  {
    if c.queue != [] {
      assert c.queue == [c.queue[0]] + c.queue[1..];
      SendKeepsOrder(c, c.queue[0], c.queue[1..], now, submitted);
      FlushKeepsOrder(SendPacketEvent(c, c.queue[0], now).(queue := c.queue[1..]), now, submitted);
    }
  }

  lemma WriteKeepsOrder(c: Conn, bytes: seq<byte>, submitted: seq<Event>)
    requires Ordered(c, submitted)
    ensures Ordered(Write(c, bytes), submitted)
  {
    MessagesAppend(c.wire, Handshake(bytes));
    assert Messages(Write(c, bytes).wire) == Messages(c.wire);
  }

  /** The handshake fields do not matter to the traffic. */
  lemma OrderIgnores(c: Conn, c': Conn, submitted: seq<Event>)
    requires Ordered(c, submitted) && c'.state != Connected
    requires c'.wire == c.wire && c'.queue == c.queue && c'.cache == c.cache && c'.seqnum == c.seqnum
    ensures Ordered(c', submitted)
  {
  }

  lemma EstablishKeepsOrder(c: Conn, c': Conn, now: int, submitted: seq<Event>)
    requires Ordered(c, submitted)
    requires c'.wire == c.wire && c'.queue == c.queue && c'.cache == c.cache && c'.seqnum == c.seqnum
    ensures Ordered(Establish(c', now), submitted)
  {
    OrderIgnores(c, c'.(state := WaitingForInit), submitted);
    FlushKeepsOrder(c'.(state := Connected), now, submitted);
  }

  lemma InitKeepsOrder(c: Conn, p: seq<byte>, env: Env, submitted: seq<Event>)
    requires Ordered(c, submitted) && c.state == WaitingForInit
    ensures Ordered(HandlePacket(c, p, env).0, submitted)
  {
    var c1 := ParseInitPacket(c, p).0;
    ParsingIsQuiet(c, p);
    hide Ordered, Messages, ParseInitPacket, INIT_ACK, Init2Packet, InitPacket, Establish;
    OrderIgnores(c, c1, submitted);
    WriteKeepsOrder(c1, INIT_ACK, submitted);
    var c2 := Write(c1, INIT_ACK);
    WriteKeepsOrder(c2, InitPacket(c2, env.host), submitted);
    var c3 := Write(c2, InitPacket(c2, env.host));
    OrderIgnores(c3, c3.(state := WaitingForInitAck), submitted);
    WriteKeepsOrder(c2, Init2Packet(false), submitted);
    OrderIgnores(Write(c2, Init2Packet(false)), Write(c2, Init2Packet(false)).(state := WaitingForInit2), submitted);
    EstablishKeepsOrder(c2, c2, env.now, submitted);
  }

  lemma ParsingIsQuiet(c: Conn, p: seq<byte>)
    ensures var c1 := ParseInitPacket(c, p).0;
      c1.state == c.state && c1.wire == c.wire && c1.queue == c.queue && c1.cache == c.cache && c1.seqnum == c.seqnum
  {
    hide Read8, Read16, Read32;
  }

  lemma AckKeepsOrder(c: Conn, p: seq<byte>, env: Env, submitted: seq<Event>)
    requires Ordered(c, submitted) && c.state == WaitingForInitAck
    ensures Ordered(HandlePacket(c, p, env).0, submitted)
  {
    hide Ordered, Messages, ParseInitAck, Establish;
    OrderIgnores(c, c.(state := WaitingForInit), submitted);
    OrderIgnores(c, c.(state := WaitingForInit2), submitted);
    OrderIgnores(c, ConfirmUin(c, env.known).0, submitted);
    EstablishKeepsOrder(c, ConfirmUin(c, env.known).0, env.now, submitted);
  }

  lemma Init2KeepsOrder(c: Conn, p: seq<byte>, env: Env, submitted: seq<Event>)
    requires Ordered(c, submitted) && c.state == WaitingForInit2
    ensures Ordered(HandlePacket(c, p, env).0, submitted)
  {
    hide Ordered, Messages, ParseInit2, Init2Packet, Establish;
    EstablishKeepsOrder(c, c, env.now, submitted);
    WriteKeepsOrder(c, Init2Packet(true), submitted);
    var c1 := Write(c, Init2Packet(true));
    OrderIgnores(c1, ConfirmUin(c1, env.known).0, submitted);
    EstablishKeepsOrder(c1, ConfirmUin(c1, env.known).0, env.now, submitted);
  }

  lemma PacketKeepsOrder(c: Conn, p: seq<byte>, env: Env, submitted: seq<Event>)
    requires Ordered(c, submitted) && c.state != Connected
    ensures Ordered(HandlePacket(c, p, env).0, submitted)
  {
    hide Ordered;
    match c.state
    case NotConnected =>
    case WaitingForInit => InitKeepsOrder(c, p, env, submitted);
    case WaitingForInitAck => AckKeepsOrder(c, p, env, submitted);
    case WaitingForInit2 => Init2KeepsOrder(c, p, env, submitted);
  }

  lemma SubmitKeepsOrder(c: Conn, ev: Event, now: int, submitted: seq<Event>)
    requires Ordered(c, submitted)
    ensures Ordered(SendEvent(c, ev, now), submitted + [ev])
  {
    var es := Events(Messages(c.wire));
    if c.state == Connected {
      assert es + [] == submitted;
      assert es + ([ev] + []) == submitted + [ev];
      SendKeepsOrder(c, ev, [], now, submitted + [ev]);
    } else {
      assert es + (c.queue + [ev]) == submitted + [ev];
    }
  }

  lemma CacheShrinks(c: Conn, cache: seq<C.Item<ushort, Event>>, submitted: seq<Event>)
    requires Ordered(c, submitted) && multiset(Pairs(cache)) <= multiset(Pairs(c.cache))
    ensures Ordered(c.(cache := cache), submitted)
  {
    hide Messages, Pairs, Events, SeqNumOf, Numbered;
  }

  lemma AckShrinks(c: Conn, i: nat, submitted: seq<Event>)
    requires Ordered(c, submitted) && i < |c.cache|
    ensures Ordered(c.(cache := C.RemoveAt(c.cache, i)), submitted)
  {
    hide Ordered, Pairs, C.RemoveAt;
    PairsRemoveAt(c.cache, i);
    CacheShrinks(c, C.RemoveAt(c.cache, i), submitted);
  }

  lemma PollShrinks(c: Conn, n: nat, submitted: seq<Event>)
    requires Ordered(c, submitted) && n <= |c.cache|
    ensures Ordered(c.(cache := c.cache[n..]), submitted)
  {
    hide Ordered, Pairs;
    PairsDrop(c.cache, n);
    CacheShrinks(c, c.cache[n..], submitted);
  }

  lemma StepKeepsOrder(c: Conn, op: Op, env: Env, submitted: seq<Event>)
    requires Ordered(c, submitted)
    ensures Ordered(Step(c, op, env), submitted + if op.Send? then [op.ev] else [])
  {
    hide SendEvent, HandlePacket, Ordered, Pairs, C.RemoveAt, C.ExpiredCount;
    assert submitted + [] == submitted;
    match op
    case Send(ev) => SubmitKeepsOrder(c, ev, env.now, submitted);
    case Packet(bytes) => if c.state != Connected { PacketKeepsOrder(c, bytes, env, submitted); }
    case Ack(s) =>
      var i := C.IndexOf(c.cache, s);
      if i < |c.cache| { AckShrinks(c, i, submitted); }
    case Poll => PollShrinks(c, C.ExpiredCount(c.cache, env.now), submitted);
  }

  lemma {:induction false} RunKeepsOrder(c: Conn, ops: seq<(Op, Env)>, submitted: seq<Event>)
    requires Ordered(c, submitted)
    ensures Ordered(Run(c, ops), submitted + Submitted(ops))
    decreases |ops|
  {
    hide Ordered, Step;
    if ops == [] {
      assert submitted + Submitted(ops) == submitted;
    } else {
      var head := if ops[0].0.Send? then [ops[0].0.ev] else [];
      StepKeepsOrder(c, ops[0].0, ops[0].1, submitted);
      RunKeepsOrder(Step(c, ops[0].0, ops[0].1), ops[1..], submitted + head);
      assert submitted + head + Submitted(ops[1..]) == submitted + Submitted(ops);
    }
  }

  /** On every run of a new connection the messages on the wire, followed by those still queued,
      are the events handed to SendEvent in that order, numbered 0xFFFF downwards modulo 2^16. */
  lemma WireOrder(c: Conn, ops: seq<(Op, Env)>)
    requires c.queue == [] && c.cache == [] && c.wire == [] && c.seqnum == 0xFFFF
    ensures var r := Run(c, ops); var ms := Messages(r.wire);
      && Events(ms) + r.queue == Submitted(ops)
      && (forall i :: 0 <= i < |ms| ==> ms[i].0 == SeqNumOf(i))
      && (r.state == Connected ==> Events(ms) == Submitted(ops))
  {
    assert Pairs(c.cache) == [];
    RunKeepsOrder(c, ops, []);
    assert [] + Submitted(ops) == Submitted(ops);
  }

  // ------------------------------------------------------------------
  //  Which event an ack settles
  // ------------------------------------------------------------------

  /** Two sends carry the same number exactly when they are a multiple of 65536 apart. */
  lemma SameNumberIff(i: nat, j: nat)
    ensures SeqNumOf(i) == SeqNumOf(j) <==> (i - j) % 0x1_0000 == 0
  {
  }

  lemma CountAtLeastTwo<T>(s: seq<T>, i: nat, j: nat)
    requires i < j < |s| && s[i] == s[j]
    ensures multiset(s)[s[i]] >= 2
  {
    assert s == s[..j] + s[j..];
    assert s[i] in s[..j] && s[j] in s[j..];
  }

  lemma CountAtMostOne<T>(s: seq<T>, i: nat)
    requires i < |s| && forall j :: 0 <= j < |s| && j != i ==> s[j] != s[i]
    ensures multiset(s)[s[i]] == 1
  {
    assert s == s[..i] + [s[i]] + s[i + 1..];
    assert s[i] !in s[..i] && s[i] !in s[i + 1..];
  }

  /** Everything that awaits an ack lies within sends lo..hi, at most 65536 of them. */
  ghost predicate OutstandingWithin(c: Conn, lo: nat, hi: nat) {
    var ms := Messages(c.wire);
    && lo <= hi <= |ms| && hi - lo <= 0x1_0000 && Numbered(ms)
    && multiset(Pairs(c.cache)) <= multiset(ms[lo..hi])
  }

  /** Each entry is one of those sends, and the only one of them with that number. */
  lemma EntryIsSend(c: Conn, lo: nat, hi: nat, p: nat) returns (i: nat)
    requires OutstandingWithin(c, lo, hi) && p < |c.cache|
    ensures lo <= i < hi && Messages(c.wire)[i] == (c.cache[p].key, c.cache[p].value)
    ensures forall j :: lo <= j < hi && j != i ==> Messages(c.wire)[j].0 != c.cache[p].key
  {
    hide Messages, SeqNumOf;
    var ms, ps := Messages(c.wire), Pairs(c.cache);
    assert ps[p] in multiset(ps);
    assert ps[p] in multiset(ms[lo..hi]);
    var k :| 0 <= k < hi - lo && ms[lo..hi][k] == ps[p];
    i := lo + k;
    forall j | lo <= j < hi && j != i ensures ms[j].0 != ms[i].0 { SameNumberIff(j, i); }
  }

  /** No two entries share a number. */
  lemma OutstandingDistinct(c: Conn, lo: nat, hi: nat, p: nat, q: nat)
    requires OutstandingWithin(c, lo, hi) && p < q < |c.cache|
    ensures c.cache[p].key != c.cache[q].key
  {
    if c.cache[p].key == c.cache[q].key {
      var w, ps := Messages(c.wire)[lo..hi], Pairs(c.cache);
      var i := EntryIsSend(c, lo, hi, p);
      var j := EntryIsSend(c, lo, hi, q);
      assert i == j;
      CountAtLeastTwo(ps, p, q);
      assert w[i - lo] == ps[p];
      CountAtMostOne(w, i - lo);
      assert false;
    }
  }

  /** While what awaits an ack lies within 65536 consecutive sends, an ack with number s settles
      exactly the one event among them that was sent under s and leaves every other entry; an
      ack for a number not outstanding changes nothing. */
  lemma AckSettlesItsSend(c: Conn, lo: nat, hi: nat, s: ushort)
    requires OutstandingWithin(c, lo, hi)
    ensures var (c', ev) := Acknowledge(c, s);
      if ev.None? then c' == c && forall t :: t in c.cache ==> t.key != s
      else
        && (exists i :: lo <= i < hi && Messages(c.wire)[i] == (s, ev.value)
              && forall j :: lo <= j < hi && j != i ==> Messages(c.wire)[j].0 != s)
        && multiset(Pairs(c'.cache)) == multiset(Pairs(c.cache)) - multiset{(s, ev.value)}
        && (forall t :: t in c'.cache ==> t.key != s)
  {
    var i := C.IndexOf(c.cache, s);
    if i < |c.cache| {
      PairsRemoveAt(c.cache, i);
      var k := EntryIsSend(c, lo, hi, i);
      forall j | 0 <= j < |c.cache| && j != i ensures c.cache[j].key != s {
        OutstandingDistinct(c, lo, hi, if i < j then i else j, if i < j then j else i);
      }
    }
  }

  /** On a run of at most 65536 sends the condition always holds. */
  lemma ShortRunWithin(c: Conn, ops: seq<(Op, Env)>)
    requires c.queue == [] && c.cache == [] && c.wire == [] && c.seqnum == 0xFFFF
    requires |Submitted(ops)| <= 0x1_0000
    ensures var r := Run(c, ops); OutstandingWithin(r, 0, |Messages(r.wire)|)
  {
    assert Pairs(c.cache) == [] && Ordered(c, []);
    hide Run, Submitted, Messages, Pairs, SeqNumOf, Numbered, Events;
    RunKeepsOrder(c, ops, []);
    var ms := Messages(Run(c, ops).wire);
    assert |Events(ms)| + |Run(c, ops).queue| == |[] + Submitted(ops)| == |Submitted(ops)|;
    assert ms[0..|ms|] == ms;
  }
}
