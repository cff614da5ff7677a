/** What holds on every run of the delivery machinery. */
module DeliveryRuns {
  import opened Wrappers
  import opened Buffers
  import opened DirectConn
  import DirectOrder
  import opened Delivery
  import C = Cache

  datatype Call =
    | CallSubmit(e: Event, info: Info, route: Route)
    | CallServerAck(k: Cookie, msgType: byte, status: nat)
    | CallOfflineUser(k: Cookie)
    | CallDirectAck(fd: int, s: ushort, status: nat)
    | CallAccept(fd: int)
    | CallPacket(fd: int, bytes: seq<byte>)
    | CallTeardown(fd: int)
    | CallRemoveContact(uin: uint)
    | CallPoll
    | CallServerConnect
    | CallAuthorizerDisconnect
    | CallServerDisconnect
    | CallSetContact(uin: uint, direct: bool, advanced: bool)

  /** The application hands over an event once only. */
  predicate Allowed(w: World, c: Call) {
    c.CallSubmit? ==> c.e !in w.live && c.e !in w.freed
  }

  function With(s: set<uint>, x: uint, b: bool): set<uint> { if b then s + {x} else s - {x} }

  ghost function Perform(w: World, c: Call, ctx: Ctx): (r: World)
    requires Inv(w, multiset{}) && Allowed(w, c) && PicksFresh(ctx)
    ensures Inv(r, multiset{})
  {
    match c
    case CallSubmit(e, info, route) => Submit(w, e, info, route, ctx)
    case CallServerAck(k, msgType, status) => ServerAck(w, k, msgType, status)
    case CallOfflineUser(k) => OfflineUser(w, k)
    case CallDirectAck(fd, s, status) => DirectAck(w, fd, s, status)
    case CallAccept(fd) => Accept(w, fd, ctx.env.now)
    case CallPacket(fd, bytes) => Packet(w, fd, bytes, ctx)
    case CallTeardown(fd) => if C.IndexOf(w.dcs, fd) < |w.dcs| then Teardown(w, C.IndexOf(w.dcs, fd), ctx) else w
    case CallRemoveContact(uin) => TeardownContact(w, uin, 0, ctx)
    case CallPoll => Poll(w, ctx)
    case CallServerConnect => OwnedReadsLists(w, w.(online := true)); w.(online := true)
    case CallAuthorizerDisconnect => OwnedReadsLists(w, w.(online := false)); w.(online := false)
    case CallServerDisconnect => ServerDisconnect(w, ctx)
    case CallSetContact(uin, d, a) =>
      var r := w.(direct := With(w.direct, uin, d), advanced := With(w.advanced, uin, a));
      OwnedReadsLists(w, r);
      r
  }

  ghost predicate ValidRun(w: World, calls: seq<(Call, Ctx)>)
    requires Inv(w, multiset{})
    decreases |calls|
  {
    calls != [] ==>
      PicksFresh(calls[0].1) && Allowed(w, calls[0].0) && ValidRun(Perform(w, calls[0].0, calls[0].1), calls[1..])
  }

  ghost function Run(w: World, calls: seq<(Call, Ctx)>): (r: World)
    requires Inv(w, multiset{}) && ValidRun(w, calls)
    ensures Inv(r, multiset{})
    decreases |calls|
  {
    if calls == [] then w else Run(Perform(w, calls[0].0, calls[0].1), calls[1..])
  }

  ghost function Start(self: uint): (w: World)
    ensures Inv(w, multiset{})
  {
    var w := World(self, false, [], [], map[], {}, [], {}, {});
    assert Values(w.cookies) == [] && multiset(w.live.Keys) == multiset{};
    w
  }

  // ------------------------------------------------------------------
  //  Hand-offs only go down: direct queue, direct ack cache, cookie cache, finished
  // ------------------------------------------------------------------

  predicate InQueue(w: World, fd: int, e: Event) {
    exists i :: 0 <= i < |w.dcs| && w.dcs[i].key == fd && e in w.dcs[i].value.queue
  }

  predicate InDirectCache(w: World, fd: int, e: Event) {
    exists i :: 0 <= i < |w.dcs| && w.dcs[i].key == fd && e in Values(w.dcs[i].value.cache)
  }

  predicate InCookies(w: World, e: Event) { e in Values(w.cookies) }

  predicate Low(w: World, e: Event) { InCookies(w, e) || e in w.freed }

  /** From w to w' each event stays where it is (on the same connection) or moves down. */
  ghost predicate Descends(w: World, w': World) {
    && (forall e :: e in w.freed ==> e in w'.freed)
    && (forall e :: InCookies(w, e) ==> Low(w', e))
    && (forall fd, e :: InDirectCache(w, fd, e) ==> InDirectCache(w', fd, e) || Low(w', e))
    && (forall fd, e :: InQueue(w, fd, e) ==> InQueue(w', fd, e) || InDirectCache(w', fd, e) || Low(w', e))
  }

  lemma DescendsTransitive(w: World, v: World, u: World)
    requires Descends(w, v) && Descends(v, u)
    ensures Descends(w, u)
  {
    hide InQueue, InDirectCache, InCookies;
    forall e | Low(v, e) ensures Low(u, e) {}
  }

  /** Sending via the server: the event ends up low, nothing else moves. */
  ghost predicate Lowers(w: World, w': World, e: Event) {
    && w'.dcs == w.dcs
    && (forall x :: Low(w, x) ==> Low(w', x))
    && w.freed <= w'.freed
    && Low(w', e)
  }

  lemma ValuesOfInsert<K>(l: seq<C.Item<K, Event>>, t: C.Item<K, Event>, x: Event)
    ensures x in Values(C.Insert(l, t)) <==> x in Values(l) || x == t.value
  {
    ValuesInsert(l, t);
    assert x in Values(C.Insert(l, t)) <==> x in multiset(Values(C.Insert(l, t)));
    assert x in Values(l) <==> x in multiset(Values(l));
  }

  lemma SendViaServerLowers(w: World, e: Event, ctx: Ctx)
    requires e in w.live
    ensures Lowers(w, SendViaServer(w, e, ctx), e)
  {
    var keys := set i | 0 <= i < |w.cookies| :: w.cookies[i].key;
    var t := C.Item(ctx.pick(keys), e, ctx.env.now, COOKIE_TIMEOUT);
    var r := SendViaServer(w, e, ctx);
    ValuesOfInsert(w.cookies, t, e);
    forall x | Low(w, x) ensures Low(r, x) { ValuesOfInsert(w.cookies, t, x); }
  }

  lemma {:induction false} GiveUpAllLowers(w: World, es: seq<Event>, ctx: Ctx)
    requires multiset(es) <= multiset(w.live.Keys)
    ensures var r := GiveUpAll(w, es, ctx);
      r.dcs == w.dcs && w.freed <= r.freed && (forall x :: Low(w, x) || x in es ==> Low(r, x))
    decreases |es|
  {
    hide SendViaServer, InCookies;
    if es != [] {
      assert es == [es[0]] + es[1..] && es[0] in multiset(es);
      assert multiset(w.live.Keys - {es[0]}) == multiset(w.live.Keys) - multiset{es[0]};
      var w1 := Report(w, es[0], false, false, true);
      var w2 := w1.(direct := w1.direct - {w1.live[es[0]].contact});
      assert forall x :: Low(w, x) ==> Low(w2, x) by { LowReadsCookies(w, w2); }
      SendViaServerLowers(w2, es[0], ctx);
      var w3 := GiveUpDirect(w, es[0], ctx);
      assert multiset(es[1..]) <= multiset(w.live.Keys - {es[0]}) <= multiset(w3.live.Keys);
      GiveUpAllLowers(w3, es[1..], ctx);
    }
  }

  lemma LowReadsCookies(w: World, w': World)
    requires w'.cookies == w.cookies && w'.freed == w.freed
    ensures forall x :: Low(w, x) ==> Low(w', x)
  {
  }

  lemma TeardownDescends(w: World, i: nat, ctx: Ctx)
    requires Inv(w, multiset{}) && i < |w.dcs| && PicksFresh(ctx)
    ensures Descends(w, Teardown(w, i, ctx))
  {
    hide Inv;
    var r := Teardown(w, i, ctx);
    var es := Pending(w.dcs[i].value);
    var w1 := w.(dcs := C.RemoveAt(w.dcs, i));
    assert multiset(es) <= multiset(w1.live.Keys) by { PendingIsLive(w, i); }
    GiveUpAllLowers(w1, es, ctx);
    LowReadsCookies(w, w1);
    forall j | 0 <= j < |w.dcs| && j != i ensures w.dcs[j] in r.dcs {
      assert r.dcs[if j < i then j else j - 1] == w.dcs[j];
    }
  }

  lemma PendingIsLive(w: World, i: nat)
    requires Inv(w, multiset{}) && i < |w.dcs|
    ensures multiset(Pending(w.dcs[i].value)) <= multiset(w.live.Keys)
  {
    OwnedByAllRemoveAt(w.dcs, i);
    assert Owned(w) + multiset{} == Owned(w);
  }

  lemma {:induction false} TeardownAllDescends(w: World, ctx: Ctx)
    requires Inv(w, multiset{}) && PicksFresh(ctx)
    ensures Descends(w, TeardownAll(w, ctx))
    decreases |w.dcs|
  {
    hide Inv, Teardown;
    if w.dcs == [] {
      SameListsDescend(w, w);
    } else {
      TeardownDescends(w, 0, ctx);
      TeardownAllDescends(Teardown(w, 0, ctx), ctx);
      DescendsTransitive(w, Teardown(w, 0, ctx), TeardownAll(w, ctx));
    }
  }

  lemma SameListsDescend(w: World, w': World)
    requires w'.dcs == w.dcs && w'.cookies == w.cookies && w.freed <= w'.freed
    ensures Descends(w, w')
  {
  }

  lemma {:induction false} TeardownContactDescends(w: World, uin: uint, i: nat, ctx: Ctx)
    requires Inv(w, multiset{}) && i <= |w.dcs| && PicksFresh(ctx)
    ensures Descends(w, TeardownContact(w, uin, i, ctx))
    decreases |w.dcs| - i
  {
    hide Inv, Teardown;
    if i == |w.dcs| {
      SameListsDescend(w, w);
    } else if w.dcs[i].value.contact == Some(uin) {
      TeardownDescends(w, i, ctx);
      TeardownContactDescends(Teardown(w, i, ctx), uin, i, ctx);
      DescendsTransitive(w, Teardown(w, i, ctx), TeardownContact(w, uin, i, ctx));
    } else {
      TeardownContactDescends(w, uin, i + 1, ctx);
    }
  }

  /** Finishing an event taken out of the cookie cache. */
  lemma FinishCookieDescends(w: World, i: nat, w': World)
    requires i < |w.cookies|
    requires w'.dcs == w.dcs && w'.cookies == C.RemoveAt(w.cookies, i) && w'.freed == w.freed + {w.cookies[i].value}
    ensures Descends(w, w')
  {
    forall e | InCookies(w, e) ensures Low(w', e) {
      var j :| 0 <= j < |w.cookies| && Values(w.cookies)[j] == e;
      if j != i { assert Values(w'.cookies)[if j < i then j else j - 1] == e; }
    }
  }

  lemma {:induction false} PollCookiesDescends(w: World, now: int)
    requires Inv(w, multiset{})
    ensures Descends(w, PollCookies(w, now))
    decreases |w.cookies|
  {
    hide Inv, Descends;
    if w.cookies == [] || w.cookies[0].Expiry() >= now {
      SameListsDescend(w, w);
    } else {
      assert C.RemoveAt(w.cookies, 0) == w.cookies[1..];
      FinishCookieDescends(w, 0, ExpireCookie(w));
      PollCookiesDescends(ExpireCookie(w), now);
      DescendsTransitive(w, ExpireCookie(w), PollCookies(w, now));
    }
  }

  lemma {:induction false} PollConnectionsDescends(w: World, ctx: Ctx)
    requires Inv(w, multiset{}) && PicksFresh(ctx)
    ensures Descends(w, PollConnections(w, ctx))
    decreases |w.dcs|
  {
    hide Inv, Teardown, Descends;
    if w.dcs == [] || w.dcs[0].Expiry() >= ctx.env.now {
      SameListsDescend(w, w);
    } else {
      TeardownDescends(w, 0, ctx);
      PollConnectionsDescends(Teardown(w, 0, ctx), ctx);
      DescendsTransitive(w, Teardown(w, 0, ctx), PollConnections(w, ctx));
    }
  }

  /** One connection replaced: what it lost must be low, what left its queue may be in its cache. */
  lemma UpdateDescends(w: World, i: nat, c1: Conn, w': World)
    requires i < |w.dcs| && w'.dcs == Update(w.dcs, i, c1)
    requires forall x :: Low(w, x) ==> Low(w', x)
    requires w.freed <= w'.freed
    requires forall x :: x in Values(w.dcs[i].value.cache) ==> x in Values(c1.cache) || Low(w', x)
    requires forall x :: x in w.dcs[i].value.queue ==> x in c1.queue || x in Values(c1.cache) || Low(w', x)
    ensures Descends(w, w')
  {
    hide InCookies;
    assert w'.dcs[i].value == c1 && w'.dcs[i].key == w.dcs[i].key;
    assert forall j :: 0 <= j < |w.dcs| && j != i ==> w'.dcs[j] == w.dcs[j];
    assert forall e :: InCookies(w, e) ==> Low(w, e);
    forall fd, e | InDirectCache(w, fd, e) ensures InDirectCache(w', fd, e) || Low(w', e) {
      var j :| 0 <= j < |w.dcs| && w.dcs[j].key == fd && e in Values(w.dcs[j].value.cache);
    }
    forall fd, e | InQueue(w, fd, e) ensures InQueue(w', fd, e) || InDirectCache(w', fd, e) || Low(w', e) {
      var j :| 0 <= j < |w.dcs| && w.dcs[j].key == fd && e in w.dcs[j].value.queue;
    }
  }

  lemma ExpireMessagesDescends(w: World, i: nat, ctx: Ctx)
    requires Inv(w, multiset{}) && i < |w.dcs| && PicksFresh(ctx)
    ensures Descends(w, ExpireMessages(w, i, ctx))
  {
    hide Inv, Descends, Low;
    var c := w.dcs[i].value;
    var n := C.ExpiredCount(c.cache, ctx.env.now);
    var c1 := c.(cache := c.cache[n..]);
    var w1 := w.(dcs := Update(w.dcs, i, c1));
    var es := Values(c.cache[..n]);
    ValuesSplit(c.cache, n);
    ConnectedHasNoQueue(w, i);
    TakeOff(w, i, c1, es);
    assert multiset(es) <= multiset(w1.live.Keys) by { LooseAreLive(w1, es); }
    GiveUpAllLowers(w1, es, ctx);
    LowReadsCookies(w, w1);
    UpdateDescends(w, i, c1, ExpireMessages(w, i, ctx));
  }

  lemma ConnectedHasNoQueue(w: World, i: nat)
    requires Inv(w, multiset{}) && i < |w.dcs|
    ensures w.dcs[i].value.state == Connected ==> w.dcs[i].value.queue == []
  {
  }

  lemma LooseAreLive(w: World, es: seq<Event>)
    requires Inv(w, multiset(es))
    ensures multiset(es) <= multiset(w.live.Keys)
  {
    assert multiset(es) <= Owned(w) + multiset(es);
  }

  lemma {:induction false} PollMessagesDescends(w: World, i: nat, ctx: Ctx)
    requires Inv(w, multiset{}) && i <= |w.dcs| && PicksFresh(ctx)
    ensures Descends(w, PollMessages(w, i, ctx))
    decreases |w.dcs| - i
  {
    hide Inv, ExpireMessages, Descends;
    if i == |w.dcs| {
      SameListsDescend(w, w);
    } else {
      ExpireMessagesDescends(w, i, ctx);
      PollMessagesDescends(ExpireMessages(w, i, ctx), i + 1, ctx);
      DescendsTransitive(w, ExpireMessages(w, i, ctx), PollMessages(w, i, ctx));
    }
  }

  lemma PollDescends(w: World, ctx: Ctx)
    requires Inv(w, multiset{}) && PicksFresh(ctx)
    ensures Descends(w, Poll(w, ctx))
  {
    hide Inv, Descends, PollCookies, PollConnections, PollMessages;
    var w1 := PollCookies(w, ctx.env.now);
    var w2 := PollConnections(w1, ctx);
    PollCookiesDescends(w, ctx.env.now);
    PollConnectionsDescends(w1, ctx);
    PollMessagesDescends(w2, 0, ctx);
    DescendsTransitive(w, w1, w2);
    DescendsTransitive(w, w2, Poll(w, ctx));
  }

  lemma DirectAckDescends(w: World, fd: int, s: ushort, status: nat)
    requires Inv(w, multiset{})
    ensures Descends(w, DirectAck(w, fd, s, status))
  {
    hide Inv, Descends, Owned;
    var r := DirectAck(w, fd, s, status);
    var i := C.IndexOf(w.dcs, fd);
    if i < |w.dcs| && w.dcs[i].value.state == Connected && DirectOrder.Acknowledge(w.dcs[i].value, s).1.Some? {
      var c := w.dcs[i].value;
      var k := C.IndexOf(c.cache, s);
      var c1 := c.(cache := C.RemoveAt(c.cache, k));
      assert r.dcs == Update(w.dcs, i, c1) && r.cookies == w.cookies && r.freed == w.freed + {c.cache[k].value};
      forall x | x in Values(c.cache) ensures x in Values(c1.cache) || Low(r, x) {
        var j :| 0 <= j < |c.cache| && Values(c.cache)[j] == x;
        if j != k { assert Values(c1.cache)[if j < k then j else j - 1] == x; }
      }
      UpdateDescends(w, i, c1, r);
    } else {
      SameListsDescend(w, r);
    }
  }

  /** New connections take nothing away. */
  lemma InsertDescends(w: World, t: C.Item<int, Conn>, w': World)
    requires w'.dcs == C.Insert(w.dcs, t) && w'.cookies == w.cookies && w.freed <= w'.freed
    ensures Descends(w, w')
  {
    var p := C.InsertPos(w.dcs, t.Expiry());
    forall j | 0 <= j < |w.dcs| ensures w.dcs[j] in w'.dcs {
      assert w'.dcs[if j < p then j else j + 1] == w.dcs[j];
    }
  }

  lemma GiveDescends(w: World, i: nat, e: Event, now: int)
    requires Inv(w, multiset{e}) && i < |w.dcs|
    ensures Descends(w, GiveToConnection(w, i, e, now))
  {
    hide Inv, Descends, C.Insert;
    var c := w.dcs[i].value;
    var c1 := SendEvent(c, e, now);
    var r := GiveToConnection(w, i, e, now);
    LowReadsCookies(w, r);
    forall x | x in Values(c.cache) ensures x in Values(c1.cache) {
      ValuesOfInsert(c.cache, C.Item(c.seqnum, e, now, ACK_TIMEOUT), x);
    }
    UpdateDescends(w, i, c1, r);
  }

  lemma ViaServerDescends(w: World, e: Event, ctx: Ctx)
    requires Inv(w, multiset{e}) && PicksFresh(ctx)
    ensures Descends(w, ViaServer(w, e, ctx))
  {
    hide Inv, SendViaServer;
    LooseIsLive(w, multiset{e}, e);
    SendViaServerLowers(w, e, ctx);
  }

  lemma SubmitDescends(w: World, e: Event, info: Info, route: Route, ctx: Ctx)
    requires Inv(w, multiset{}) && e !in w.live && e !in w.freed && PicksFresh(ctx)
    ensures Descends(w, Submit(w, e, info, route, ctx))
  {
    hide Inv, Descends, ViaServer, GiveToConnection, SendViaServer, Connect, NewOutgoing;
    var w1 := w.(live := w.live[e := info]);
    NewEvent(w, e, info);
    SameListsDescend(w, w1);
    ViaServerDescends(w1, e, ctx);
    DescendsTransitive(w, w1, ViaServer(w1, e, ctx));
    var i := ByContact(w.dcs, info.contact);
    if i < |w.dcs| {
      GiveDescends(w1, i, e, ctx.env.now);
      DescendsTransitive(w, w1, GiveToConnection(w1, i, e, ctx.env.now));
    } else if route.Dial? {
      DialDescends(w, w1, e, info, route, ctx);
    }
  }

  lemma DialDescends(w: World, w1: World, e: Event, info: Info, route: Route, ctx: Ctx)
    requires route.Dial? && Inv(w1, multiset{e})
    requires w1.dcs == w.dcs && w1.cookies == w.cookies && w1.freed == w.freed
    ensures var (c, _) := Connect(NewOutgoing(w.self, info.contact), route.version, route.session);
      var t := C.Item(route.fd, c, ctx.env.now, CONNECTING_TIMEOUT);
      var w2 := w1.(dcs := C.Insert(w1.dcs, t));
      Inv(w2, multiset{e}) && Descends(w, GiveToConnection(w2, C.InsertPos(w1.dcs, t.Expiry()), e, ctx.env.now))
  {
    hide Inv, Descends, GiveToConnection;
    var (c, _) := Connect(NewOutgoing(w.self, info.contact), route.version, route.session);
    var t := C.Item(route.fd, c, ctx.env.now, CONNECTING_TIMEOUT);
    var w2 := w1.(dcs := C.Insert(w1.dcs, t));
    AddConnection(w1, multiset{e}, t);
    InsertDescends(w, t, w2);
    GiveDescends(w2, C.InsertPos(w1.dcs, t.Expiry()), e, ctx.env.now);
    DescendsTransitive(w, w2, GiveToConnection(w2, C.InsertPos(w1.dcs, t.Expiry()), e, ctx.env.now));
  }

  lemma {:induction false} FlushMoves(c: Conn, now: int, x: Event)
    ensures var d := FlushQueue(c, now);
      (x in Values(c.cache) ==> x in Values(d.cache)) && (x in c.queue ==> x in Values(d.cache))
    decreases |c.queue|
  {
    hide C.Insert;
    if c.queue != [] {
      var e := c.queue[0];
      var t := C.Item(c.seqnum, e, now, ACK_TIMEOUT);
      ValuesOfInsert(c.cache, t, x);
      FlushMoves(SendPacketEvent(c, e, now).(queue := c.queue[1..]), now, x);
    }
  }

  lemma PacketMoves(c: Conn, p: seq<byte>, env: Env, x: Event)
    requires c.state != Connected
    ensures var d := HandlePacket(c, p, env).0;
      (x in Values(c.cache) ==> x in Values(d.cache)) && (x in c.queue ==> x in d.queue || x in Values(d.cache))
  {
    hide ParseInit2, ParseInitAck, INIT_ACK, Init2Packet, InitPacket, Values, FlushQueue;
    var c1 := Write(ParseInitPacket(c, p).0, INIT_ACK);
    FlushMoves(c1.(state := Connected), env.now, x);
    FlushMoves(c.(state := Connected), env.now, x);
    FlushMoves(ConfirmUin(c, env.known).0.(state := Connected), env.now, x);
    FlushMoves(ConfirmUin(Write(c, Init2Packet(true)), env.known).0.(state := Connected), env.now, x);
  }

  lemma MembersStay(dcs: seq<C.Item<int, Conn>>, i: nat, t: C.Item<int, Conn>)
    requires i < |dcs|
    ensures var r := C.Insert(C.RemoveAt(dcs, i), t); t in r && forall j :: 0 <= j < |dcs| && j != i ==> dcs[j] in r
  {
    var rest := C.RemoveAt(dcs, i);
    var p, r := C.InsertPos(rest, t.Expiry()), C.Insert(rest, t);
    hide C.InsertPos;
    assert r[p] == t;
    forall j | 0 <= j < |dcs| && j != i ensures dcs[j] in r {
      var k := if j < i then j else j - 1;
      assert rest[k] == dcs[j];
      assert r[if k < p then k else k + 1] == rest[k];
    }
  }

  lemma RefileDescends(w: World, fd: int, s: nat)
    ensures Descends(w, w.(dcs := C.SetTimeout(w.dcs, fd, s)))
  {
    hide C.Insert, C.RemoveAt;
    var i := C.IndexOf(w.dcs, fd);
    if i < |w.dcs| { MembersStay(w.dcs, i, w.dcs[i].(timeout := s)); }
  }

  lemma PacketDescends(w: World, fd: int, bytes: seq<byte>, ctx: Ctx)
    requires Inv(w, multiset{}) && PicksFresh(ctx)
    ensures Descends(w, Delivery.Packet(w, fd, bytes, ctx))
  {
    hide Inv, Descends, HandlePacket, Teardown, C.SetTimeout;
    var i := C.IndexOf(w.dcs, fd);
    var r := Delivery.Packet(w, fd, bytes, ctx);
    if i == |w.dcs| || w.dcs[i].value.state == Connected {
      SameListsDescend(w, r);
    } else {
      var c := w.dcs[i].value;
      var (c1, ok) := HandlePacket(c, bytes, ctx.env);
      var w1 := w.(dcs := Update(w.dcs, i, c1));
      forall x | x in Values(c.cache) ensures x in Values(c1.cache) { PacketMoves(c, bytes, ctx.env, x); }
      forall x | x in c.queue ensures x in c1.queue || x in Values(c1.cache) { PacketMoves(c, bytes, ctx.env, x); }
      LowReadsCookies(w, w1);
      UpdateDescends(w, i, c1, w1);
      UpdatedInv(w, i, bytes, ctx);
      if !ok {
        TeardownDescends(w1, i, ctx);
        DescendsTransitive(w, w1, r);
      } else if c1.state == Connected {
        RefileDescends(w1, fd, CONNECTED_TIMEOUT);
        DescendsTransitive(w, w1, r);
      }
    }
  }

  lemma UpdatedInv(w: World, i: nat, bytes: seq<byte>, ctx: Ctx)
    requires Inv(w, multiset{}) && i < |w.dcs| && w.dcs[i].value.state != Connected && PicksFresh(ctx)
    ensures Inv(w.(dcs := Update(w.dcs, i, HandlePacket(w.dcs[i].value, bytes, ctx.env).0)), multiset{})
  {
    hide HandlePacket;
    var c1 := HandlePacket(w.dcs[i].value, bytes, ctx.env).0;
    PacketOwns(w.dcs[i].value, bytes, ctx.env);
    var none: seq<Event> := [];
    assert OwnedBy(c1) + multiset(none) == OwnedBy(c1);
    TakeOff(w, i, c1, none);
    assert multiset(none) == multiset{};
  }

  lemma ServerAckDescends(w: World, k: Cookie, msgType: byte, status: nat)
    requires Inv(w, multiset{})
    ensures Descends(w, ServerAck(w, k, msgType, status))
  {
    hide Inv, Descends;
    var i := C.IndexOf(w.cookies, k);
    if AckTypeKnown(msgType) && i < |w.cookies| {
      FinishCookieDescends(w, i, ServerAck(w, k, msgType, status));
    } else {
      SameListsDescend(w, w);
    }
  }

  /** Every call moves events only down. */
  lemma PerformDescends(w: World, c: Call, ctx: Ctx)
    requires Inv(w, multiset{}) && Allowed(w, c) && PicksFresh(ctx)
    ensures Descends(w, Perform(w, c, ctx))
  {
    hide Inv, Descends, Teardown, Poll, Packet, ServerAck, DirectAck, TeardownContact, TeardownAll;
    match c
    case CallSubmit(e, info, route) => SubmitDescends(w, e, info, route, ctx);
    case CallServerAck(k, msgType, status) => ServerAckDescends(w, k, msgType, status);
    case CallOfflineUser(k) => SameListsDescend(w, OfflineUser(w, k));
    case CallDirectAck(fd, s, status) => DirectAckDescends(w, fd, s, status);
    case CallAccept(fd) =>
      InsertDescends(w, C.Item(fd, NewIncoming(w.self), ctx.env.now, CONNECTING_TIMEOUT), Accept(w, fd, ctx.env.now));
    case CallPacket(fd, bytes) => PacketDescends(w, fd, bytes, ctx);
    case CallTeardown(fd) =>
      if C.IndexOf(w.dcs, fd) < |w.dcs| {
        TeardownDescends(w, C.IndexOf(w.dcs, fd), ctx);
      } else {
        SameListsDescend(w, w);
      }
    case CallRemoveContact(uin) => TeardownContactDescends(w, uin, 0, ctx);
    case CallPoll => PollDescends(w, ctx);
    case CallServerConnect => SameListsDescend(w, w.(online := true));
    case CallAuthorizerDisconnect => SameListsDescend(w, w.(online := false));
    case CallServerDisconnect =>
      var w1 := w.(online := false);
      SameListsDescend(w, w1);
      OfflineInv(w);
      TeardownAllDescends(w1, ctx);
      DescendsTransitive(w, w1, TeardownAll(w1, ctx));
    case CallSetContact(_, _, _) => SameListsDescend(w, Perform(w, c, ctx));
  }

  lemma OfflineInv(w: World)
    requires Inv(w, multiset{})
    ensures Inv(w.(online := false), multiset{})
  {
    OwnedReadsLists(w, w.(online := false));
  }

  lemma {:induction false} RunDescends(w: World, calls: seq<(Call, Ctx)>)
    requires Inv(w, multiset{}) && ValidRun(w, calls)
    ensures Descends(w, Run(w, calls))
    decreases |calls|
  {
    hide Inv, Descends, Perform;
    if calls == [] {
      SameListsDescend(w, w);
    } else {
      var v := Perform(w, calls[0].0, calls[0].1);
      PerformDescends(w, calls[0].0, calls[0].1);
      RunDescends(v, calls[1..]);
      DescendsTransitive(w, v, Run(w, calls));
    }
  }

  // ------------------------------------------------------------------
  //  The theorems
  // ------------------------------------------------------------------

  predicate IsTerminal(o: Obs, e: Event) { o.Signal? && o.ev == e && o.info.finished }

  /** The event was deleted at position k of the trace, once: its one terminal messageack comes directly
      before, and nothing is said about it afterwards. */
  ghost predicate DeletedOnceAt(trace: seq<Obs>, e: Event, k: nat) {
    && 0 < k < |trace| && trace[k] == Freed(e)
    && IsTerminal(trace[k - 1], e)
    && (forall j :: 0 <= j < |trace| && IsTerminal(trace[j], e) ==> j == k - 1)
    && (forall j :: k < j < |trace| ==> trace[j].ev != e)
  }

  ghost predicate NotFinished(trace: seq<Obs>, e: Event) {
    forall i :: 0 <= i < |trace| ==> trace[i] != Freed(e) && !IsTerminal(trace[i], e)
  }

  lemma InvExactlyOnce(w: World, e: Event)
    requires Inv(w, multiset{})
    ensures e in w.live ==> e !in w.freed && Owned(w)[e] == 1 && NotFinished(w.trace, e)
    ensures e !in w.live ==> Owned(w)[e] == 0
    ensures e in w.freed ==> exists k: nat :: DeletedOnceAt(w.trace, e, k)
  {
    assert (Owned(w) + multiset{})[e] == multiset(w.live.Keys)[e];
    forall i | 0 <= i < |w.trace| && IsTerminal(w.trace[i], e) ensures e in w.freed {
      assert w.trace[i + 1] == Freed(e);
    }
    if e in w.freed {
      assert Freed(e) in w.trace;
      var k: nat :| k < |w.trace| && w.trace[k] == Freed(e);
      forall j | 0 <= j < |w.trace| && IsTerminal(w.trace[j], e) ensures j == k - 1 {
        assert w.trace[j + 1] == Freed(e);
        assert !(j + 1 < k) && !(k < j + 1);
      }
      assert DeletedOnceAt(w.trace, e, k);
    }
  }

  /** On every run each event the library holds has exactly one owner and has had no terminal signal;
      every event it has deleted has no owner, and was signalled and deleted exactly once. */
  lemma ExactlyOnce(self: uint, calls: seq<(Call, Ctx)>, w: World, e: Event)
    requires ValidRun(Start(self), calls) && w == Run(Start(self), calls)
    ensures e in w.live ==> e !in w.freed && Owned(w)[e] == 1 && NotFinished(w.trace, e)
    ensures e !in w.live ==> Owned(w)[e] == 0
    ensures e in w.freed ==> exists k: nat :: DeletedOnceAt(w.trace, e, k)
  {
    InvExactlyOnce(w, e);
  }

  lemma {:induction false} OwnedByAllHas(dcs: seq<C.Item<int, Conn>>, e: Event)
    requires e in OwnedByAll(dcs)
    ensures exists i :: 0 <= i < |dcs| && (e in dcs[i].value.queue || e in Values(dcs[i].value.cache))
  {
    if e in OwnedBy(dcs[0].value) {
      assert e in dcs[0].value.queue || e in Values(dcs[0].value.cache);
    } else {
      OwnedByAllHas(dcs[1..], e);
      var i :| 0 <= i < |dcs[1..]| && (e in dcs[1..][i].value.queue || e in Values(dcs[1..][i].value.cache));
      assert dcs[i + 1] == dcs[1..][i];
    }
  }

  /** A live event is in a direct queue, a direct ack cache or the cookie cache. */
  lemma LiveHasPlace(w: World, e: Event)
    requires Inv(w, multiset{}) && e in w.live
    ensures InCookies(w, e) || exists fd :: InQueue(w, fd, e) || InDirectCache(w, fd, e)
  {
    assert e in Owned(w) + multiset{};
    if e in OwnedByAll(w.dcs) {
      OwnedByAllHas(w.dcs, e);
      var i :| 0 <= i < |w.dcs| && (e in w.dcs[i].value.queue || e in Values(w.dcs[i].value.cache));
      assert InQueue(w, w.dcs[i].key, e) || InDirectCache(w, w.dcs[i].key, e);
    }
  }

  lemma PlaceIsLive(w: World, fd: int, e: Event)
    requires Inv(w, multiset{})
    ensures InQueue(w, fd, e) || InDirectCache(w, fd, e) || InCookies(w, e) ==> e in w.live
  {
    hide OwnedByAll;
    if InQueue(w, fd, e) || InDirectCache(w, fd, e) {
      var i :| 0 <= i < |w.dcs| && (e in w.dcs[i].value.queue || e in Values(w.dcs[i].value.cache));
      OwnedByAllRemoveAt(w.dcs, i);
      assert e in OwnedBy(w.dcs[i].value);
      assert e in OwnedByAll(w.dcs);
      assert e in Owned(w);
      LooseIsLiveOrOwned(w, e);
    } else if InCookies(w, e) {
      assert e in multiset(Values(w.cookies));
      assert e in Owned(w);
      LooseIsLiveOrOwned(w, e);
    }
  }

  /** No message is ever dropped: what was live is live or has been finished and deleted, and it never
      moves back up. */
  lemma NeverLost(w: World, calls: seq<(Call, Ctx)>, e: Event)
    requires Inv(w, multiset{}) && ValidRun(w, calls) && e in w.live
    ensures var r := Run(w, calls); Descends(w, r) && (e in r.live || e in r.freed)
  {
    hide Inv, InQueue, InDirectCache, InCookies;
    RunDescends(w, calls);
    var r := Run(w, calls);
    LiveHasPlace(w, e);
    if !InCookies(w, e) {
      var fd :| InQueue(w, fd, e) || InDirectCache(w, fd, e);
      PlaceIsLive(r, fd, e);
    }
    PlaceIsLive(r, 0, e);
  }

  /** What became of an event the library holds or has held: it has one owner and no terminal signal yet, or
      it was finished and deleted once. */
  ghost predicate HeldOrDeletedOnce(w: World, e: Event) {
    if e in w.live then e !in w.freed && Owned(w)[e] == 1 && NotFinished(w.trace, e)
    else exists k: nat :: DeletedOnceAt(w.trace, e, k)
  }

  /** No message is dropped on its way in either: whatever is submitted in the course of a run is at the end
      held by one owner, or was finished by one messageack and deleted directly afterwards. */
  lemma {:induction false} SubmittedSettles(w: World, calls: seq<(Call, Ctx)>, k: nat)
    requires Inv(w, multiset{}) && ValidRun(w, calls) && k < |calls| && calls[k].0.CallSubmit?
    ensures HeldOrDeletedOnce(Run(w, calls), calls[k].0.e)
    decreases |calls|
  {
    hide Inv, Submit, Descends, Perform, HeldOrDeletedOnce;
    var v, e := Perform(w, calls[0].0, calls[0].1), calls[k].0.e;
    if k == 0 {
      SubmittedIsHeld(w, calls[0].0, calls[0].1);
      StaysHeld(v, calls[1..], e);
    } else {
      assert calls[1..][k - 1] == calls[k];
      SubmittedSettles(v, calls[1..], k - 1);
    }
  }

  lemma SubmittedIsHeld(w: World, c: Call, ctx: Ctx)
    requires Inv(w, multiset{}) && Allowed(w, c) && PicksFresh(ctx) && c.CallSubmit?
    ensures var v := Perform(w, c, ctx); c.e in v.live || c.e in v.freed
  {
    hide Inv, Submit;
  }

  lemma StaysHeld(w: World, calls: seq<(Call, Ctx)>, e: Event)
    requires Inv(w, multiset{}) && ValidRun(w, calls) && (e in w.live || e in w.freed)
    ensures HeldOrDeletedOnce(Run(w, calls), e)
  {
    hide Inv, Owned, InQueue, InDirectCache, InCookies, NotFinished, DeletedOnceAt;
    if e in w.live {
      NeverLost(w, calls, e);
    } else {
      RunDescends(w, calls);
    }
    InvExactlyOnce(Run(w, calls), e);
  }

  ghost predicate AllOverdue(w: World, now: int) {
    forall i :: 0 <= i < |w.cookies| ==> w.cookies[i].Expiry() < now
  }

  /** After the server connection is lost, one poll later than every cookie's deadline settles all that
      is left. */
  lemma EverythingSettles(w: World, ctx: Ctx, later: Ctx)
    requires Inv(w, multiset{}) && PicksFresh(ctx)
    requires PicksFresh(later) && AllOverdue(ServerDisconnect(w, ctx), later.env.now)
    ensures Poll(ServerDisconnect(w, ctx), later).live == map[]
  {
    hide TeardownAll, Poll, Inv;
    PollEmpties(ServerDisconnect(w, ctx), later);
  }

  /** Nor does it take losing the server: once every direct connection is overdue, two polls, the second later
      than every cookie's deadline, settle everything. */
  lemma PollsSettle(w: World, ctx: Ctx, later: Ctx)
    requires Inv(w, multiset{}) && PicksFresh(ctx) && PicksFresh(later)
    requires forall i :: 0 <= i < |w.dcs| ==> w.dcs[i].Expiry() < ctx.env.now
    requires AllOverdue(Poll(w, ctx), later.env.now)
    ensures Poll(Poll(w, ctx), later).live == map[]
  {
    hide PollCookies, PollConnections, Inv;
    var v := Poll(w, ctx);
    assert v.dcs == [];
    PollEmpties(v, later);
  }

  lemma PollEmpties(v: World, later: Ctx)
    requires Inv(v, multiset{}) && PicksFresh(later) && v.dcs == [] && AllOverdue(v, later.env.now)
    ensures Poll(v, later).live == map[]
  {
    var n := C.ExpiredCount(v.cookies, later.env.now);
    assert n == |v.cookies|;
    var r := Poll(v, later);
    assert r == PollCookies(v, later.env.now);
    assert Owned(r) == multiset{} && Owned(r) + multiset{} == multiset(r.live.Keys);
    assert |r.live.Keys| == |multiset(r.live.Keys)| == 0;
  }
}
