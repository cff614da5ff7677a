/** No message goes to the wrong person (src/Client.cpp:1981-2050, src/DCCache.h:85-104): a direct connection
    carries only events for the contact at its other end. */
module DeliveryAddress {
  import opened Wrappers
  import opened Buffers
  import opened DirectConn
  import DirectOrder
  import opened Delivery
  import opened DeliveryContacts
  import opened DeliveryEffects
  import opened DeliveryRuns
  import C = Cache

  predicate OnWire(wire: seq<Frame>, x: Event) { exists k :: 0 <= k < |wire| && wire[k].Message? && wire[k].ev == x }

  /** The event is queued on the connection, waits there for its ack, or has been sent on it. */
  predicate Carries(c: Conn, x: Event) { x in c.queue || x in Values(c.cache) || OnWire(c.wire, x) }

  /** Who is at the other end of an incoming connection is not known before it is connected. */
  predicate Shy(c: Conn) { c.incoming && c.state != Connected ==> c.contact.None? }

  /** The connection carries only what is meant for its contact; who says for whom each event is meant. */
  ghost predicate Right(c: Conn, who: map<Event, uint>) {
    Shy(c) && forall x :: Carries(c, x) ==> x in who && c.contact == Some(who[x])
  }

  ghost predicate Posted(w: World, who: map<Event, uint>) {
    && who.Keys <= w.live.Keys + w.freed
    && (forall x :: x in w.live ==> x in who && who[x] == w.live[x].contact)
    && AllRight(w.dcs, who)
  }

  ghost predicate AllRight(dcs: seq<C.Item<int, Conn>>, who: map<Event, uint>) {
    forall t :: t in dcs ==> Right(t.value, who)
  }

  // ------------------------------------------------------------------
  //  Where a submitted event goes
  // ------------------------------------------------------------------

  ghost predicate HasConnection(dcs: seq<C.Item<int, Conn>>, uin: uint) {
    exists i :: 0 <= i < |dcs| && dcs[i].value.contact == Some(uin)
  }

  lemma {:induction false} ByContactIsFirst(dcs: seq<C.Item<int, Conn>>, uin: uint)
    ensures var i := ByContact(dcs, uin);
      (forall k :: 0 <= k < i ==> dcs[k].value.contact != Some(uin)) && (i < |dcs| <==> HasConnection(dcs, uin))
  {
    if dcs != [] && dcs[0].value.contact != Some(uin) {
      ByContactIsFirst(dcs[1..], uin);
      var i := ByContact(dcs[1..], uin);
      forall k | 0 <= k < i + 1 ensures dcs[k].value.contact != Some(uin) { if k > 0 { assert dcs[1..][k - 1] == dcs[k]; } }
      if HasConnection(dcs, uin) {
        var k :| 0 <= k < |dcs| && dcs[k].value.contact == Some(uin);
        assert dcs[1..][k - 1] == dcs[k];
      }
      if i < |dcs[1..]| { assert dcs[i + 1] == dcs[1..][i]; }
    }
  }

  /** The direct route is for messages that may go direct, to a contact with getDirect(), over the connection there is
      or one that can be opened. */
  ghost predicate GoesDirect(w: World, info: Info, route: Route) {
    && !info.kind.AuthReq? && !info.kind.AuthAck? && !info.kind.UserAdd? && info.contact in w.direct
    && (HasConnection(w.dcs, info.contact) || (route.Dial? && route.version >= 6))
  }

  /** The event was put on the connection: on its wire once connected, at the end of its queue before. */
  ghost predicate Takes(c: Conn, c1: Conn, e: Event, now: int) {
    && c1 == c.(wire := c1.wire, queue := c1.queue, cache := c1.cache, seqnum := c1.seqnum)
    && if c.state == Connected
       then c1.wire == c.wire + [Message(c.seqnum, e)] && c1.queue == c.queue
            && C.Item(c.seqnum, e, now, 30) in c1.cache
            && forall x :: x in Values(c1.cache) <==> x in Values(c.cache) || x == e
       else c1.wire == c.wire && c1.queue == c.queue + [e] && c1.cache == c.cache
  }

  /** The j-th connection took the event; it is the first one of the contact, and no other has changed. */
  ghost predicate TakenOver(w: World, r: World, j: nat, e: Event, uin: uint, now: int) {
    && j < |w.dcs| && (forall k :: 0 <= k < j ==> w.dcs[k].value.contact != Some(uin))
    && w.dcs[j].value.contact == Some(uin)
    && j < |r.dcs| && r.dcs == w.dcs[j := w.dcs[j].(value := r.dcs[j].value)]
    && Takes(w.dcs[j].value, r.dcs[j].value, e, now)
  }

  /** A new connection to the contact holds the event; the old ones are there as they were. */
  ghost predicate TakenByNew(w: World, r: World, j: nat, e: Event, uin: uint, fd: int, now: int) {
    && j < |r.dcs| && C.RemoveAt(r.dcs, j) == w.dcs && r.dcs[j].key == fd && r.dcs[j].Expiry() == now + 30
    && var c := r.dcs[j].value;
       c.contact == Some(uin) && !c.incoming && c.state == WaitingForInitAck && c.queue == [e] && c.wire == [] && c.cache == []
  }

  lemma InsertMembersIn<K, V>(l: seq<C.Item<K, V>>, t: C.Item<K, V>)
    ensures t in C.Insert(l, t)
  {
    assert C.Insert(l, t)[C.InsertPos(l, t.Expiry())] == t;
  }

  lemma GiveTakes(w: World, i: nat, e: Event, now: int)
    requires Inv(w, multiset{e}) && i < |w.dcs|
    ensures var r := GiveToConnection(w, i, e, now);
      && i < |r.dcs| && r.dcs == w.dcs[i := w.dcs[i].(value := r.dcs[i].value)] && Takes(w.dcs[i].value, r.dcs[i].value, e, now)
      && r == w.(dcs := r.dcs)
  {
    hide Inv, C.Insert, Values;
    var c := w.dcs[i].value;
    forall x { ValuesOfInsert(c.cache, C.Item(c.seqnum, e, now, ACK_TIMEOUT), x); }
    InsertMembersIn(c.cache, C.Item(c.seqnum, e, now, ACK_TIMEOUT));
    assert Update(w.dcs, i, SendEvent(c, e, now)) == w.dcs[i := w.dcs[i].(value := SendEvent(c, e, now))];
  }

  lemma DialTakes(w: World, w1: World, e: Event, info: Info, route: Route, ctx: Ctx)
    requires route.Dial? && route.version >= 6 && Inv(w1, multiset{e}) && w1.dcs == w.dcs && w1.self == w.self
    ensures var (c, _) := Connect(NewOutgoing(w.self, info.contact), route.version, route.session);
      var t := C.Item(route.fd, c, ctx.env.now, CONNECTING_TIMEOUT);
      var w2 := w1.(dcs := C.Insert(w1.dcs, t));
      Inv(w2, multiset{e}) &&
      var r := GiveToConnection(w2, C.InsertPos(w1.dcs, t.Expiry()), e, ctx.env.now);
      TakenByNew(w, r, C.InsertPos(w1.dcs, t.Expiry()), e, info.contact, route.fd, ctx.env.now) && r == w1.(dcs := r.dcs)
  {
    hide Inv, GiveToConnection, C.Insert, C.InsertPos;
    var (c, _) := Connect(NewOutgoing(w.self, info.contact), route.version, route.session);
    var t := C.Item(route.fd, c, ctx.env.now, CONNECTING_TIMEOUT);
    var w2 := w1.(dcs := C.Insert(w1.dcs, t));
    var p := C.InsertPos(w1.dcs, t.Expiry());
    AddConnection(w1, multiset{e}, t);
    InsertedAt(w1.dcs, t);
    GiveTakes(w2, p, e, ctx.env.now);
    var r := GiveToConnection(w2, p, e, ctx.env.now);
    assert C.RemoveAt(r.dcs, p) == C.RemoveAt(w2.dcs, p);
    assert c.queue + [e] == [e];
  }

  /** A submitted event goes to its contact: direct, it is put on the first connection of the contact or on a new one to
      it, and every other connection stays as it was; otherwise it goes via the server and no connection is touched. */
  lemma SubmitGoesTo(w: World, e: Event, info: Info, route: Route, ctx: Ctx)
    requires Inv(w, multiset{}) && e !in w.live && e !in w.freed && PicksFresh(ctx)
    ensures var r := Submit(w, e, info, route, ctx);
      if !GoesDirect(w, info, route) then r == SendViaServer(w.(live := w.live[e := info]), e, ctx) && r.dcs == w.dcs
      else
        && r.cookies == w.cookies && r.trace == w.trace && r.live == w.live[e := info]
        && if HasConnection(w.dcs, info.contact) then exists j: nat :: TakenOver(w, r, j, e, info.contact, ctx.env.now)
           else exists j: nat :: TakenByNew(w, r, j, e, info.contact, route.fd, ctx.env.now)
  {
    hide Inv, ViaServer, GiveToConnection, C.Insert, C.InsertPos, NewOutgoing, HasConnection;
    var w1 := w.(live := w.live[e := info]);
    NewEvent(w, e, info);
    ByContactIsFirst(w.dcs, info.contact);
    ViaServerIsQuiet(w1, e, ctx);
    var r, i := Submit(w, e, info, route, ctx), ByContact(w.dcs, info.contact);
    if GoesDirect(w, info, route) {
      if i < |w.dcs| {
        GiveTakes(w1, i, e, ctx.env.now);
        assert TakenOver(w, r, i, e, info.contact, ctx.env.now);
      } else {
        DialTakes(w, w1, e, info, route, ctx);
        var t := C.Item(route.fd, Connect(NewOutgoing(w.self, info.contact), route.version, route.session).0, ctx.env.now,
                        CONNECTING_TIMEOUT);
        assert TakenByNew(w, r, C.InsertPos(w1.dcs, t.Expiry()), e, info.contact, route.fd, ctx.env.now);
      }
    }
  }

  lemma ViaServerIsQuiet(w: World, e: Event, ctx: Ctx)
    requires Inv(w, multiset{e}) && PicksFresh(ctx)
    ensures e in w.live && ViaServer(w, e, ctx) == SendViaServer(w, e, ctx) && ViaServer(w, e, ctx).dcs == w.dcs
  {
    hide Inv, SendViaServer;
    LooseIsLive(w, multiset{e}, e);
  }

  // ------------------------------------------------------------------
  //  What a connection carries it was given
  // ------------------------------------------------------------------

  /** c1 is c with nothing more on it, at the same contact; a connection that carries nothing is always in order. */
  ghost predicate Within(c: Conn, c1: Conn) {
    && (forall x :: Carries(c1, x) ==> Carries(c, x))
    && (c1.contact == c.contact && c1.incoming == c.incoming && (c.state == Connected ==> c1.state == Connected))
  }

  lemma WithinKeeps(c: Conn, c1: Conn, who: map<Event, uint>)
    requires Right(c, who) && Within(c, c1)
    ensures Right(c1, who)
  {
    hide Carries;
  }

  lemma OnWireSnoc(wire: seq<Frame>, f: Frame, x: Event)
    ensures OnWire(wire + [f], x) <==> OnWire(wire, x) || (f.Message? && f.ev == x)
  {
    if OnWire(wire, x) {
      var k :| 0 <= k < |wire| && wire[k].Message? && wire[k].ev == x;
      assert (wire + [f])[k] == wire[k];
    }
    if f.Message? && f.ev == x { assert (wire + [f])[|wire|] == f; }
  }

  lemma {:induction false} FlushCarries(c: Conn, now: int, x: Event)
    ensures Carries(FlushQueue(c, now), x) ==> Carries(c, x)
    decreases |c.queue|
  {
    hide C.Insert, Values, OnWire;
    if c.queue != [] {
      var e := c.queue[0];
      var d := SendPacketEvent(c, e, now).(queue := c.queue[1..]);
      FlushCarries(d, now, x);
      ValuesOfInsert(c.cache, C.Item(c.seqnum, e, now, ACK_TIMEOUT), x);
      OnWireSnoc(c.wire, Message(c.seqnum, e), x);
    }
  }

  lemma WriteCarries(c: Conn, bytes: seq<byte>, x: Event)
    ensures Carries(Write(c, bytes), x) <==> Carries(c, x)
  {
    hide Values, OnWire;
    OnWireSnoc(c.wire, Handshake(bytes), x);
  }

  lemma EstablishCarries(c: Conn, now: int, x: Event)
    ensures Carries(Establish(c, now), x) ==> Carries(c, x)
  {
    hide FlushQueue, Values, OnWire;
    FlushCarries(c.(state := Connected), now, x);
  }

  /** The handshake puts nothing new on a connection. */
  lemma PacketCarries(c: Conn, p: seq<byte>, env: Env, x: Event)
    requires c.state != Connected && Carries(HandlePacket(c, p, env).0, x)
    ensures Carries(c, x)
  {
    hide ParseInit2, ParseInitAck, INIT_ACK, Init2Packet, InitPacket, ParseInitPacket, Establish, Values, OnWire, Write;
    match c.state
    case NotConnected =>
    case WaitingForInit =>
      var c1 := ParseInitPacket(c, p).0;
      var c2 := Write(c1, INIT_ACK);
      ParsingKeepsLists(c, p);
      WriteCarries(c1, INIT_ACK, x);
      WriteCarries(c2, InitPacket(c2, env.host), x);
      WriteCarries(c2, Init2Packet(false), x);
      EstablishCarries(c2, env.now, x);
    case WaitingForInitAck =>
      EstablishCarries(ConfirmUin(c, env.known).0, env.now, x);
    case WaitingForInit2 =>
      EstablishCarries(c, env.now, x);
      WriteCarries(c, Init2Packet(true), x);
      EstablishCarries(ConfirmUin(Write(c, Init2Packet(true)), env.known).0, env.now, x);
  }

  lemma ParsingKeepsLists(c: Conn, p: seq<byte>)
    ensures var c1 := ParseInitPacket(c, p).0;
      && c1.wire == c.wire && c1.queue == c.queue && c1.cache == c.cache
      && c1.contact == c.contact && c1.incoming == c.incoming && c1.state == c.state
  {
    hide Read8, Read16, Read32;
  }

  lemma {:induction false} FlushKeepsContact(c: Conn, now: int)
    ensures var r := FlushQueue(c, now); r.contact == c.contact && r.incoming == c.incoming && r.state == c.state
    decreases |c.queue|
  {
    hide C.Insert;
    if c.queue != [] { FlushKeepsContact(SendPacketEvent(c, c.queue[0], now).(queue := c.queue[1..]), now); }
  }

  /** An initiator's contact stays; an acceptor's is learnt when it connects. */
  lemma PacketContact(c: Conn, p: seq<byte>, env: Env)
    requires c.state != Connected && Shy(c)
    ensures var c1 := HandlePacket(c, p, env).0;
      c1.incoming == c.incoming && Shy(c1) && (!c.incoming ==> c1.contact == c.contact)
  {
    hide ParseInit2, ParseInitAck, INIT_ACK, Init2Packet, InitPacket, ParseInitPacket, FlushQueue;
    ParsingKeepsLists(c, p);
    var c2 := Write(ParseInitPacket(c, p).0, INIT_ACK);
    FlushKeepsContact(c2.(state := Connected), env.now);
    FlushKeepsContact(c.(state := Connected), env.now);
    FlushKeepsContact(ConfirmUin(c, env.known).0.(state := Connected), env.now);
    FlushKeepsContact(ConfirmUin(Write(c, Init2Packet(true)), env.known).0.(state := Connected), env.now);
  }

  lemma PacketKeepsRight(c: Conn, p: seq<byte>, env: Env, who: map<Event, uint>)
    requires c.state != Connected && Right(c, who)
    ensures Right(HandlePacket(c, p, env).0, who)
  {
    hide HandlePacket, Carries;
    var c1 := HandlePacket(c, p, env).0;
    PacketContact(c, p, env);
    forall x | Carries(c1, x) ensures x in who && c1.contact == Some(who[x]) { PacketCarries(c, p, env, x); }
  }

  lemma CacheWithin(c: Conn, cache: seq<C.Item<ushort, Event>>)
    requires forall x :: x in Values(cache) ==> x in Values(c.cache)
    ensures Within(c, c.(cache := cache))
  {
    hide Values, OnWire;
  }

  // ------------------------------------------------------------------
  //  Every call keeps it
  // ------------------------------------------------------------------

  /** A submitted event is meant for the contact it names. */
  ghost function Post(who: map<Event, uint>, c: Call): map<Event, uint> {
    if c.CallSubmit? then who[c.e := c.info.contact] else who
  }

  lemma PostKeepsRight(dcs: seq<C.Item<int, Conn>>, who: map<Event, uint>, c: Call)
    requires AllRight(dcs, who) && (c.CallSubmit? ==> c.e !in who)
    ensures AllRight(dcs, Post(who, c))
  {
    hide Carries;
  }

  lemma UpdateRight(dcs: seq<C.Item<int, Conn>>, i: nat, c1: Conn, who: map<Event, uint>)
    requires i < |dcs| && AllRight(dcs, who) && Right(c1, who)
    ensures AllRight(Update(dcs, i, c1), who)
  {
    hide Right;
    var d := Update(dcs, i, c1);
    forall t | t in d ensures Right(t.value, who) {
      var k :| 0 <= k < |d| && d[k] == t;
      if k != i { assert dcs[k] in dcs; }
    }
  }

  lemma FewerRight(dcs: seq<C.Item<int, Conn>>, d: seq<C.Item<int, Conn>>, who: map<Event, uint>)
    requires AllRight(dcs, who) && forall t :: t in d ==> t in dcs
    ensures AllRight(d, who)
  {
    hide Right;
  }

  lemma RemovedIn<T>(l: seq<T>, i: nat)
    requires i < |l|
    ensures forall t :: t in C.RemoveAt(l, i) ==> t in l
  {
  }

  lemma {:induction false} OthersIn(dcs: seq<C.Item<int, Conn>>, uin: uint)
    ensures forall t :: t in Others(dcs, uin) ==> t in dcs
  {
    if dcs != [] { OthersIn(dcs[1..], uin); }
  }

  lemma DroppedRight(a: seq<C.Item<int, Conn>>, b: seq<C.Item<int, Conn>>, now: int, who: map<Event, uint>)
    requires AllRight(a, who) && AllDropped(a, b, 0, now)
    ensures AllRight(b, who)
  {
    hide Right;
    forall t | t in b ensures Right(t.value, who) {
      var k :| 0 <= k < |b| && b[k] == t;
      var c := a[k].value;
      assert a[k] in a;
      ValuesSplit(c.cache, C.ExpiredCount(c.cache, now));
      CacheWithin(c, c.cache[C.ExpiredCount(c.cache, now)..]);
      WithinKeeps(c, t.value, who);
    }
  }

  lemma SetTimeoutRight(dcs: seq<C.Item<int, Conn>>, fd: int, s: nat, who: map<Event, uint>)
    requires AllRight(dcs, who)
    ensures AllRight(C.SetTimeout(dcs, fd, s), who)
  {
    hide Right, C.Insert, C.RemoveAt;
    var i := C.IndexOf(dcs, fd);
    if i < |dcs| {
      RemovedIn(dcs, i);
      InsertMembers(C.RemoveAt(dcs, i), dcs[i].(timeout := s));
    }
  }

  lemma PacketRight(w: World, fd: int, bytes: seq<byte>, ctx: Ctx, who: map<Event, uint>)
    requires Inv(w, multiset{}) && PicksFresh(ctx) && AllRight(w.dcs, who)
    ensures AllRight(Delivery.Packet(w, fd, bytes, ctx).dcs, who)
  {
    hide Inv, Right, HandlePacket, Teardown, C.SetTimeout;
    var i := C.IndexOf(w.dcs, fd);
    if i < |w.dcs| && w.dcs[i].value.state != Connected {
      var c1 := HandlePacket(w.dcs[i].value, bytes, ctx.env).0;
      var d := Update(w.dcs, i, c1);
      UpdatedInv(w, i, bytes, ctx);
      PacketKeepsRight(w.dcs[i].value, bytes, ctx.env, who);
      UpdateRight(w.dcs, i, c1, who);
      RemovedIn(d, i);
      FewerRight(d, C.RemoveAt(d, i), who);
      SetTimeoutRight(d, fd, CONNECTED_TIMEOUT, who);
    }
  }

  lemma DirectAckRight(w: World, fd: int, s: ushort, status: nat, who: map<Event, uint>)
    requires Inv(w, multiset{}) && AllRight(w.dcs, who)
    ensures AllRight(DirectAck(w, fd, s, status).dcs, who)
  {
    hide Inv, Right, DirectAck, Favourable, Update, C.RemoveAt;
    DirectAckFinishes(w, fd, s, status);
    var i := C.IndexOf(w.dcs, fd);
    if i < |w.dcs| && w.dcs[i].value.state == Connected && DirectOrder.Acknowledge(w.dcs[i].value, s).1.Some? {
      var c := w.dcs[i].value;
      var k := C.IndexOf(c.cache, s);
      ValuesRemoveAt(c.cache, k);
      FewerValues(c.cache, k);
      CacheWithin(c, C.RemoveAt(c.cache, k));
      WithinKeeps(c, c.(cache := C.RemoveAt(c.cache, k)), who);
      UpdateRight(w.dcs, i, c.(cache := C.RemoveAt(c.cache, k)), who);
    }
  }

  lemma FewerValues(cache: seq<C.Item<ushort, Event>>, k: nat)
    requires k < |cache|
    ensures forall x :: x in Values(C.RemoveAt(cache, k)) ==> x in Values(cache)
  {
    forall x | x in Values(C.RemoveAt(cache, k)) ensures x in Values(cache) {
      var j :| 0 <= j < |C.RemoveAt(cache, k)| && Values(C.RemoveAt(cache, k))[j] == x;
      assert Values(cache)[if j < k then j else j + 1] == x;
    }
  }

  lemma AcceptRight(w: World, fd: int, now: int, who: map<Event, uint>)
    requires Inv(w, multiset{}) && AllRight(w.dcs, who)
    ensures AllRight(Accept(w, fd, now).dcs, who)
  {
    hide Inv, C.Insert;
    InsertMembers(w.dcs, C.Item(fd, NewIncoming(w.self), now, CONNECTING_TIMEOUT));
  }

  lemma TakesRight(c: Conn, c1: Conn, e: Event, now: int, who: map<Event, uint>)
    requires Takes(c, c1, e, now) && Right(c, who) && e in who && c.contact == Some(who[e])
    ensures Right(c1, who)
  {
    hide OnWire, Values;
    forall x | Carries(c1, x) ensures x in who && c1.contact == Some(who[x]) {
      OnWireSnoc(c.wire, Message(c.seqnum, e), x);
      assert Carries(c, x) || x == e;
    }
  }

  lemma SubmitRight(w: World, e: Event, info: Info, route: Route, ctx: Ctx, who: map<Event, uint>)
    requires Inv(w, multiset{}) && e !in w.live && e !in w.freed && PicksFresh(ctx)
    requires AllRight(w.dcs, who) && e in who && who[e] == info.contact
    ensures AllRight(Submit(w, e, info, route, ctx).dcs, who)
  {
    hide Inv, Submit, HasConnection, Right, Takes;
    SubmitGoesTo(w, e, info, route, ctx);
    var r := Submit(w, e, info, route, ctx);
    if GoesDirect(w, info, route) {
      if HasConnection(w.dcs, info.contact) {
        var j: nat :| TakenOver(w, r, j, e, info.contact, ctx.env.now);
        TakesRight(w.dcs[j].value, r.dcs[j].value, e, ctx.env.now, who);
        UpdateRight(w.dcs, j, r.dcs[j].value, who);
        assert Update(w.dcs, j, r.dcs[j].value) == r.dcs;
      } else {
        var j: nat :| TakenByNew(w, r, j, e, info.contact, route.fd, ctx.env.now);
        NewIsRight(r.dcs[j].value, e, who);
        AddedRight(r.dcs, j, who);
      }
    }
  }

  lemma NewIsRight(c: Conn, e: Event, who: map<Event, uint>)
    requires !c.incoming && c.queue == [e] && c.wire == [] && c.cache == [] && e in who && c.contact == Some(who[e])
    ensures Right(c, who)
  {
  }

  lemma AddedRight(dcs: seq<C.Item<int, Conn>>, j: nat, who: map<Event, uint>)
    requires j < |dcs| && AllRight(C.RemoveAt(dcs, j), who) && Right(dcs[j].value, who)
    ensures AllRight(dcs, who)
  {
    hide Right;
    forall t | t in dcs ensures Right(t.value, who) {
      var k :| 0 <= k < |dcs| && dcs[k] == t;
      if k != j { assert C.RemoveAt(dcs, j)[if k < j then k else k - 1] == t; }
    }
  }

  lemma PollRight(w: World, ctx: Ctx, who: map<Event, uint>)
    requires Inv(w, multiset{}) && PicksFresh(ctx) && AllRight(w.dcs, who)
    ensures AllRight(Poll(w, ctx).dcs, who)
  {
    hide Inv, Right, Poll, AllDropped;
    var n := C.ExpiredCount(w.dcs, ctx.env.now);
    PollLeaves(w, ctx);
    FewerRight(w.dcs, w.dcs[n..], who);
    DroppedRight(w.dcs[n..], Poll(w, ctx).dcs, ctx.env.now, who);
  }

  lemma PerformRight(w: World, c: Call, ctx: Ctx, who: map<Event, uint>)
    requires Inv(w, multiset{}) && Allowed(w, c) && PicksFresh(ctx) && AllRight(w.dcs, who)
    requires c.CallSubmit? ==> c.e in who && who[c.e] == c.info.contact
    ensures AllRight(Perform(w, c, ctx).dcs, who)
  {
    hide Inv, AllRight, Submit, Teardown, TeardownContact, Poll, Packet, DirectAck, Accept, Others;
    match c
    case CallSubmit(e, info, route) => SubmitRight(w, e, info, route, ctx, who);
    case CallServerAck(k, msgType, status) => hide ServerAck; ServerAckFinishes(w, k, msgType, status);
    case CallOfflineUser(_) =>
    case CallDirectAck(fd, s, status) => DirectAckRight(w, fd, s, status, who);
    case CallAccept(fd) => AcceptRight(w, fd, ctx.env.now, who);
    case CallPacket(fd, bytes) => PacketRight(w, fd, bytes, ctx, who);
    case CallTeardown(fd) =>
      var i := C.IndexOf(w.dcs, fd);
      if i < |w.dcs| {
        RemovedIn(w.dcs, i);
        FewerRight(w.dcs, C.RemoveAt(w.dcs, i), who);
      }
    case CallRemoveContact(uin) =>
      RemoveContactLeavesOthers(w, uin, 0, ctx);
      assert w.dcs[..0] + Others(w.dcs[0..], uin) == Others(w.dcs, uin) by { assert w.dcs[0..] == w.dcs; }
      OthersIn(w.dcs, uin);
      FewerRight(w.dcs, Others(w.dcs, uin), who);
    case CallPoll => PollRight(w, ctx, who);
    case CallServerConnect =>
    case CallAuthorizerDisconnect =>
    case CallServerDisconnect => FewerRight(w.dcs, [], who);
    case CallSetContact(_, _, _) =>
  }

  /** A call drops no event and changes no addressee. */
  lemma PerformSameEvents(w: World, c: Call, ctx: Ctx)
    requires Inv(w, multiset{}) && Allowed(w, c) && PicksFresh(ctx)
    ensures var w0 := if c.CallSubmit? then w.(live := w.live[c.e := c.info]) else w; SameEvents(w0, Perform(w, c, ctx))
  {
    hide Inv, Poll, ServerAck, Favourable;
    if c.CallPoll? {
      PollKinds(w, ctx);
    } else if c.CallServerAck? {
      ServerAckFinishes(w, c.k, c.msgType, c.status);
    } else {
      OthersKeep(w, c, ctx);
      hide Perform;
    }
  }

  lemma PerformDropsNone(w: World, c: Call, ctx: Ctx, x: Event)
    requires Inv(w, multiset{}) && Allowed(w, c) && PicksFresh(ctx)
    requires x in w.live || x in w.freed || (c.CallSubmit? && x == c.e)
    ensures var r := Perform(w, c, ctx); x in r.live || x in r.freed
  {
    if c.CallSubmit? && x == c.e {
      SubmittedIsHeld(w, c, ctx);
    } else {
      hide Inv, Perform, InQueue, InDirectCache, InCookies;
      var r := Perform(w, c, ctx);
      PerformDescends(w, c, ctx);
      PlaceIsLive(r, 0, x);
      if x in w.live {
        LiveHasPlace(w, x);
        if !InCookies(w, x) {
          var fd :| InQueue(w, fd, x) || InDirectCache(w, fd, x);
          PlaceIsLive(r, fd, x);
        }
      }
    }
  }

  lemma PerformPosted(w: World, who: map<Event, uint>, c: Call, ctx: Ctx)
    requires Inv(w, multiset{}) && Allowed(w, c) && PicksFresh(ctx) && Posted(w, who)
    ensures Posted(Perform(w, c, ctx), Post(who, c))
  {
    hide Inv, Perform, AllRight;
    var r, who1 := Perform(w, c, ctx), Post(who, c);
    PostKeepsRight(w.dcs, who, c);
    PerformRight(w, c, ctx, who1);
    PerformSameEvents(w, c, ctx);
    forall x | x in who1 ensures x in r.live.Keys + r.freed { PerformDropsNone(w, c, ctx, x); }
  }

  ghost function PostAll(who: map<Event, uint>, calls: seq<(Call, Ctx)>): map<Event, uint>
    decreases |calls|
  {
    if calls == [] then who else PostAll(Post(who, calls[0].0), calls[1..])
  }

  lemma {:induction false} RunPosted(w: World, who: map<Event, uint>, calls: seq<(Call, Ctx)>)
    requires Inv(w, multiset{}) && ValidRun(w, calls) && Posted(w, who)
    ensures Posted(Run(w, calls), PostAll(who, calls))
    decreases |calls|
  {
    hide Inv, Perform, Posted;
    if calls != [] {
      PerformPosted(w, who, calls[0].0, calls[0].1);
      RunPosted(Perform(w, calls[0].0, calls[0].1), Post(who, calls[0].0), calls[1..]);
    }
  }

  /** The event was submitted for this contact. */
  ghost predicate SubmittedFor(calls: seq<(Call, Ctx)>, x: Event, uin: uint) {
    exists k :: 0 <= k < |calls| && calls[k].0.CallSubmit? && calls[k].0.e == x && calls[k].0.info.contact == uin
  }

  lemma {:induction false} PostedBySubmit(who: map<Event, uint>, calls: seq<(Call, Ctx)>, x: Event)
    requires x in PostAll(who, calls)
    ensures SubmittedFor(calls, x, PostAll(who, calls)[x]) || (x in who && PostAll(who, calls)[x] == who[x])
    decreases |calls|
  {
    if calls != [] {
      PostedBySubmit(Post(who, calls[0].0), calls[1..], x);
      var uin := PostAll(who, calls)[x];
      if SubmittedFor(calls[1..], x, uin) {
        var k :| 0 <= k < |calls[1..]| && calls[1..][k].0.CallSubmit? && calls[1..][k].0.e == x
          && calls[1..][k].0.info.contact == uin;
        assert calls[k + 1] == calls[1..][k];
      } else if calls[0].0.CallSubmit? && calls[0].0.e == x {
        assert calls[0].0.info.contact == uin;
      }
    }
  }

  // ------------------------------------------------------------------
  //  The result
  // ------------------------------------------------------------------

  /** On every run: whatever is queued on a connection, waits there for an ack or has been sent on it was submitted for
      the contact at its other end; and what is queued or waits is live and still names that contact. */
  lemma NothingGoesAstray(self: uint, calls: seq<(Call, Ctx)>, w: World, i: nat, x: Event)
    requires ValidRun(Start(self), calls) && w == Run(Start(self), calls)
    requires i < |w.dcs| && Carries(w.dcs[i].value, x)
    ensures var contact := w.dcs[i].value.contact; contact.Some? && SubmittedFor(calls, x, contact.value)
    ensures x in w.dcs[i].value.queue || x in Values(w.dcs[i].value.cache) ==>
      x in w.live && w.dcs[i].value.contact == Some(w.live[x].contact)
  {
    hide Inv, Run, SubmittedFor;
    RunPosted(Start(self), map[], calls);
    assert w.dcs[i] in w.dcs;
    PostedBySubmit(map[], calls, x);
    PlaceIsLive(w, w.dcs[i].key, x);
  }
}
