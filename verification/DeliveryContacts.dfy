/** Acks of the event's own type (src/MessageHandler.cpp, src/ICQ.cpp, src/Client.cpp): all but the acks of
    contact lists settle what they answer. */
module DeliveryContacts {
  import opened Wrappers
  import opened Buffers
  import opened DirectConn
  import DirectOrder
  import opened Delivery
  import opened DeliveryEffects
  import opened DeliveryRuns
  import opened DeliveryTruth
  import C = Cache

  /** The type byte an ack of this kind of event carries: EventToUINICQSubType gives each kind its subtype, an
      away message request one of five, an authorisation reply one of two. */
  predicate OwnType(kind: Kind, msgType: byte) {
    match kind
    case Normal => msgType == 0x01
    case URL => msgType == 0x04
    case AwayMessage => 0xE8 <= msgType <= 0xEC
    case Contacts => msgType == 0x13
    case AuthReq => msgType == 0x06
    case AuthAck => msgType == 0x07 || msgType == 0x08
    case UserAdd => msgType == 0x0C
  }

  /** The kinds that are sent with a cookie. */
  predicate Waits(kind: Kind) { kind.Normal? || kind.URL? || kind.AwayMessage? || kind.Contacts? }

  ghost predicate CookieKinds(w: World) { forall x :: InCookies(w, x) && x in w.live ==> Waits(w.live[x].kind) }

  predicate SentAt(trace: seq<Obs>, j: nat, e: Event, info: Info) {
    j + 1 < |trace| && trace[j] == Signal(e, info) && trace[j + 1] == Freed(e)
  }

  /** Between w and r the event was signalled once more, as finished and as delivered if the server is connected,
      and deleted. */
  ghost predicate SentAgain(w: World, r: World, e: Event) {
    && e in w.live && e in r.freed
    && exists j: nat :: |w.trace| <= j
         && SentAt(r.trace, j, e, w.live[e].(finished := true, delivered := w.online, direct := false))
  }

  // ------------------------------------------------------------------
  //  What keeps the events that wait under a cookie
  // ------------------------------------------------------------------

  ghost predicate SameEvents(w: World, r: World) {
    forall x :: x in r.live ==>
      x in w.live && r.live[x].kind == w.live[x].kind && r.live[x].contact == w.live[x].contact
  }

  /** Nothing that waits under a cookie stops waiting, and only events of the waiting kinds join. */
  ghost predicate Keeps(w: World, r: World) {
    && (forall x :: InCookies(w, x) ==> InCookies(r, x))
    && SameEvents(w, r)
    && (CookieKinds(w) ==> CookieKinds(r))
  }

  lemma KeepsTransitive(w: World, v: World, u: World)
    requires Keeps(w, v) && Keeps(v, u)
    ensures Keeps(w, u)
  {
    hide InCookies, CookieKinds;
  }

  /** Only the cookies and the events matter. */
  lemma KeepsIgnores(w: World, r: World)
    requires r.cookies == w.cookies && SameEvents(w, r)
    ensures Keeps(w, r)
  {
  }

  lemma FinishKeeps(w: World, e: Event, delivered: bool, isDirect: bool)
    requires e in w.live
    ensures Keeps(w, Delete(Report(w, e, true, delivered, isDirect), e))
  {
    hide InCookies, CookieKinds;
    KeepsIgnores(w, Delete(Report(w, e, true, delivered, isDirect), e));
  }

  lemma CookieKeeps(w: World, e: Event, t: C.Item<Cookie, Event>)
    requires e in w.live && Waits(w.live[e].kind) && t.value == e
    ensures Keeps(w, w.(cookies := C.Insert(w.cookies, t)))
  {
    hide C.Insert;
    forall x ensures x in Values(C.Insert(w.cookies, t)) <==> x in Values(w.cookies) || x == e {
      ValuesOfInsert(w.cookies, t, x);
    }
  }

  lemma SendViaServerKeeps(w: World, e: Event, ctx: Ctx)
    requires e in w.live
    ensures Keeps(w, SendViaServer(w, e, ctx))
  {
    hide Keeps, C.Insert, Report, Delete;
    FinishKeeps(w, e, w.online, false);
    FinishKeeps(w, e, false, false);
    if Waits(w.live[e].kind) {
      var keys := set i | 0 <= i < |w.cookies| :: w.cookies[i].key;
      CookieKeeps(w, e, C.Item(ctx.pick(keys), e, ctx.env.now, COOKIE_TIMEOUT));
    }
  }

  lemma GiveUpKeeps(w: World, e: Event, ctx: Ctx)
    requires e in w.live
    ensures Keeps(w, GiveUpDirect(w, e, ctx))
  {
    hide Keeps, SendViaServer;
    var w1 := Report(w, e, false, false, true);
    var w2 := w1.(direct := w1.direct - {w1.live[e].contact});
    KeepsIgnores(w, w2);
    SendViaServerKeeps(w2, e, ctx);
    KeepsTransitive(w, w2, SendViaServer(w2, e, ctx));
  }

  lemma {:induction false} GiveUpAllKeeps(w: World, es: seq<Event>, ctx: Ctx)
    requires multiset(es) <= multiset(w.live.Keys)
    ensures Keeps(w, GiveUpAll(w, es, ctx))
    decreases |es|
  {
    hide Keeps, GiveUpDirect;
    if es == [] {
      KeepsIgnores(w, w);
    } else {
      assert es == [es[0]] + es[1..];
      assert es[0] in multiset(es);
      assert multiset(w.live.Keys - {es[0]}) == multiset(w.live.Keys) - multiset{es[0]};
      var v := GiveUpDirect(w, es[0], ctx);
      GiveUpKeeps(w, es[0], ctx);
      assert multiset(es[1..]) <= multiset(w.live.Keys - {es[0]}) <= multiset(v.live.Keys);
      GiveUpAllKeeps(v, es[1..], ctx);
      KeepsTransitive(w, v, GiveUpAll(w, es, ctx));
    }
  }

  lemma LooseKeeps(w: World, es: seq<Event>, ctx: Ctx)
    requires Inv(w, multiset(es)) && PicksFresh(ctx)
    ensures Keeps(w, GiveUpLoose(w, es, ctx))
  {
    LooseAreLive(w, es);
    hide GiveUpAll, Inv, Keeps;
    GiveUpAllKeeps(w, es, ctx);
  }

  lemma TeardownKeeps(w: World, i: nat, ctx: Ctx)
    requires Inv(w, multiset{}) && i < |w.dcs| && PicksFresh(ctx)
    ensures Keeps(w, Teardown(w, i, ctx))
  {
    hide Inv, GiveUpLoose, Keeps;
    var w1 := w.(dcs := C.RemoveAt(w.dcs, i));
    TakeOut(w, i);
    KeepsIgnores(w, w1);
    LooseKeeps(w1, Pending(w.dcs[i].value), ctx);
    KeepsTransitive(w, w1, Teardown(w, i, ctx));
  }

  lemma {:induction false} TeardownAllKeeps(w: World, ctx: Ctx)
    requires Inv(w, multiset{}) && PicksFresh(ctx)
    ensures Keeps(w, TeardownAll(w, ctx))
    decreases |w.dcs|
  {
    hide Inv, Teardown, Keeps;
    if w.dcs == [] {
      KeepsIgnores(w, w);
    } else {
      TeardownKeeps(w, 0, ctx);
      TeardownAllKeeps(Teardown(w, 0, ctx), ctx);
      KeepsTransitive(w, Teardown(w, 0, ctx), TeardownAll(w, ctx));
    }
  }

  lemma {:induction false} TeardownContactKeeps(w: World, uin: uint, i: nat, ctx: Ctx)
    requires Inv(w, multiset{}) && i <= |w.dcs| && PicksFresh(ctx)
    ensures Keeps(w, TeardownContact(w, uin, i, ctx))
    decreases |w.dcs| - i
  {
    hide Inv, Teardown, Keeps;
    if i == |w.dcs| {
      KeepsIgnores(w, w);
    } else if w.dcs[i].value.contact == Some(uin) {
      TeardownKeeps(w, i, ctx);
      TeardownContactKeeps(Teardown(w, i, ctx), uin, i, ctx);
      KeepsTransitive(w, Teardown(w, i, ctx), TeardownContact(w, uin, i, ctx));
    } else {
      TeardownContactKeeps(w, uin, i + 1, ctx);
    }
  }

  lemma {:induction false} PollConnectionsKeeps(w: World, ctx: Ctx)
    requires Inv(w, multiset{}) && PicksFresh(ctx)
    ensures Keeps(w, PollConnections(w, ctx))
    decreases |w.dcs|
  {
    hide Inv, Teardown, Keeps;
    if w.dcs == [] || w.dcs[0].Expiry() >= ctx.env.now {
      KeepsIgnores(w, w);
    } else {
      TeardownKeeps(w, 0, ctx);
      PollConnectionsKeeps(Teardown(w, 0, ctx), ctx);
      KeepsTransitive(w, Teardown(w, 0, ctx), PollConnections(w, ctx));
    }
  }

  lemma ExpireMessagesKeeps(w: World, i: nat, ctx: Ctx)
    requires Inv(w, multiset{}) && i < |w.dcs| && PicksFresh(ctx)
    ensures Keeps(w, ExpireMessages(w, i, ctx))
  {
    hide Inv, GiveUpLoose, Keeps;
    var c := w.dcs[i].value;
    var n := C.ExpiredCount(c.cache, ctx.env.now);
    var c1 := c.(cache := c.cache[n..]);
    var w1 := w.(dcs := Update(w.dcs, i, c1));
    ValuesSplit(c.cache, n);
    ConnectedHasNoQueue(w, i);
    TakeOff(w, i, c1, Values(c.cache[..n]));
    KeepsIgnores(w, w1);
    LooseKeeps(w1, Values(c.cache[..n]), ctx);
    KeepsTransitive(w, w1, ExpireMessages(w, i, ctx));
  }

  lemma {:induction false} PollMessagesKeeps(w: World, i: nat, ctx: Ctx)
    requires Inv(w, multiset{}) && i <= |w.dcs| && PicksFresh(ctx)
    ensures Keeps(w, PollMessages(w, i, ctx))
    decreases |w.dcs| - i
  {
    hide Inv, ExpireMessages, Keeps;
    if i == |w.dcs| {
      KeepsIgnores(w, w);
    } else {
      ExpireMessagesKeeps(w, i, ctx);
      PollMessagesKeeps(ExpireMessages(w, i, ctx), i + 1, ctx);
      KeepsTransitive(w, ExpireMessages(w, i, ctx), PollMessages(w, i, ctx));
    }
  }

  lemma GiveKeeps(w: World, i: nat, e: Event, now: int)
    requires Inv(w, multiset{e}) && i < |w.dcs|
    ensures Keeps(w, GiveToConnection(w, i, e, now))
  {
    hide Inv, Keeps, SendEvent;
    KeepsIgnores(w, GiveToConnection(w, i, e, now));
  }

  lemma ViaServerKeeps(w: World, e: Event, ctx: Ctx)
    requires Inv(w, multiset{e}) && PicksFresh(ctx)
    ensures Keeps(w, ViaServer(w, e, ctx))
  {
    LooseIsLive(w, multiset{e}, e);
    hide Inv, Keeps, SendViaServer;
    SendViaServerKeeps(w, e, ctx);
  }

  /** Submitting an event only adds it. */
  lemma SubmitKeeps(w: World, e: Event, info: Info, route: Route, ctx: Ctx)
    requires Inv(w, multiset{}) && e !in w.live && e !in w.freed && PicksFresh(ctx)
    ensures Keeps(w.(live := w.live[e := info]), Submit(w, e, info, route, ctx))
  {
    hide Inv, Keeps, ViaServer, GiveToConnection, Connect, NewOutgoing, C.Insert;
    var w1 := w.(live := w.live[e := info]);
    NewEvent(w, e, info);
    ViaServerKeeps(w1, e, ctx);
    var i := ByContact(w.dcs, info.contact);
    if i < |w.dcs| {
      GiveKeeps(w1, i, e, ctx.env.now);
    } else if route.Dial? {
      DialKeeps(w1, e, info, route, ctx);
    }
  }

  lemma DialKeeps(w1: World, e: Event, info: Info, route: Route, ctx: Ctx)
    requires route.Dial? && Inv(w1, multiset{e})
    ensures var (c, _) := Connect(NewOutgoing(w1.self, info.contact), route.version, route.session);
      var t := C.Item(route.fd, c, ctx.env.now, CONNECTING_TIMEOUT);
      var w2 := w1.(dcs := C.Insert(w1.dcs, t));
      Inv(w2, multiset{e}) && Keeps(w1, GiveToConnection(w2, C.InsertPos(w1.dcs, t.Expiry()), e, ctx.env.now))
  {
    hide Inv, Keeps, GiveToConnection;
    var (c, _) := Connect(NewOutgoing(w1.self, info.contact), route.version, route.session);
    var t := C.Item(route.fd, c, ctx.env.now, CONNECTING_TIMEOUT);
    var w2 := w1.(dcs := C.Insert(w1.dcs, t));
    AddConnection(w1, multiset{e}, t);
    KeepsIgnores(w1, w2);
    var r := GiveToConnection(w2, C.InsertPos(w1.dcs, t.Expiry()), e, ctx.env.now);
    GiveKeeps(w2, C.InsertPos(w1.dcs, t.Expiry()), e, ctx.env.now);
    KeepsTransitive(w1, w2, r);
  }

  lemma PacketKeeps(w: World, fd: int, bytes: seq<byte>, ctx: Ctx)
    requires Inv(w, multiset{}) && PicksFresh(ctx)
    ensures Keeps(w, Delivery.Packet(w, fd, bytes, ctx))
  {
    hide Inv, Keeps, Teardown, HandlePacket, C.SetTimeout;
    var i := C.IndexOf(w.dcs, fd);
    var r := Delivery.Packet(w, fd, bytes, ctx);
    if i == |w.dcs| || w.dcs[i].value.state == Connected {
      KeepsIgnores(w, r);
    } else {
      var (c1, ok) := HandlePacket(w.dcs[i].value, bytes, ctx.env);
      var w1 := w.(dcs := Update(w.dcs, i, c1));
      UpdatedInv(w, i, bytes, ctx);
      KeepsIgnores(w, w1);
      if !ok {
        TeardownKeeps(w1, i, ctx);
        KeepsTransitive(w, w1, r);
      } else {
        KeepsIgnores(w, r);
      }
    }
  }

  lemma DirectAckKeeps(w: World, fd: int, s: ushort, status: nat)
    requires Inv(w, multiset{})
    ensures Keeps(w, DirectAck(w, fd, s, status))
  {
    hide Inv, Favourable, Update, C.RemoveAt, InCookies, CookieKinds;
    DirectAckFinishes(w, fd, s, status);
    KeepsIgnores(w, DirectAck(w, fd, s, status));
  }

  // ------------------------------------------------------------------
  //  Runs
  // ------------------------------------------------------------------

  /** An ack for a waiting event is of the event's own type. */
  ghost predicate OwnAck(w: World, c: Call) {
    c.CallServerAck? ==>
      var i := C.IndexOf(w.cookies, c.k);
      i < |w.cookies| && w.cookies[i].value in w.live ==> OwnType(w.live[w.cookies[i].value].kind, c.msgType)
  }

  ghost predicate OwnAcks(w: World, calls: seq<(Call, Ctx)>)
    requires Inv(w, multiset{}) && ValidRun(w, calls)
    decreases |calls|
  {
    calls != [] ==> OwnAck(w, calls[0].0) && OwnAcks(Perform(w, calls[0].0, calls[0].1), calls[1..])
  }

  /** The event's cookie is among those the next poll at this time takes. */
  ghost predicate Overdue(w: World, e: Event, now: int) {
    exists i :: 0 <= i < C.ExpiredCount(w.cookies, now) && w.cookies[i].value == e
  }

  lemma DisconnectKeeps(w: World, ctx: Ctx)
    requires Inv(w, multiset{}) && PicksFresh(ctx)
    ensures Keeps(w, ServerDisconnect(w, ctx))
  {
    OfflineInv(w);
    hide Inv, Keeps, TeardownAll;
    KeepsIgnores(w, w.(online := false));
    TeardownAllKeeps(w.(online := false), ctx);
    KeepsTransitive(w, w.(online := false), TeardownAll(w.(online := false), ctx));
  }

  /** Apart from acks and polls, every call keeps what waits under a cookie. */
  lemma OthersKeep(w: World, c: Call, ctx: Ctx)
    requires Inv(w, multiset{}) && Allowed(w, c) && PicksFresh(ctx)
    requires !c.CallServerAck? && !c.CallPoll?
    ensures var w0 := if c.CallSubmit? then w.(live := w.live[c.e := c.info]) else w; Keeps(w0, Perform(w, c, ctx))
  {
    hide Inv, Keeps, Submit, Teardown, TeardownContact, TeardownAll, ServerDisconnect, Packet, DirectAck;
    var r := Perform(w, c, ctx);
    match c
    case CallSubmit(e, info, route) => SubmitKeeps(w, e, info, route, ctx);
    case CallDirectAck(fd, s, status) => DirectAckKeeps(w, fd, s, status);
    case CallPacket(fd, bytes) => PacketKeeps(w, fd, bytes, ctx);
    case CallTeardown(fd) =>
      if C.IndexOf(w.dcs, fd) < |w.dcs| {
        TeardownKeeps(w, C.IndexOf(w.dcs, fd), ctx);
      } else {
        KeepsIgnores(w, w);
      }
    case CallRemoveContact(uin) => TeardownContactKeeps(w, uin, 0, ctx);
    case CallServerDisconnect => DisconnectKeeps(w, ctx);
    case CallOfflineUser(_) => KeepsIgnores(w, r);
    case CallAccept(_) => KeepsIgnores(w, r);
    case CallServerConnect => KeepsIgnores(w, r);
    case CallAuthorizerDisconnect => KeepsIgnores(w, r);
    case CallSetContact(_, _, _) => KeepsIgnores(w, r);
  }

  lemma {:induction false} PollCookiesKinds(w: World, now: int)
    requires Inv(w, multiset{})
    ensures SameEvents(w, PollCookies(w, now))
    decreases |w.cookies|
  {
    hide Inv, ExpireCookie;
    if w.cookies != [] && w.cookies[0].Expiry() < now {
      ExpireCookieFinishes(w);
      PollCookiesKinds(ExpireCookie(w), now);
    }
  }

  lemma FirstIsSent(w: World, now: int)
    requires Inv(w, multiset{}) && w.cookies != [] && w.cookies[0].Expiry() < now
    ensures SentAgain(w, PollCookies(w, now), w.cookies[0].value)
  {
    hide Inv, ExpireCookie, InCookies, InQueue, InDirectCache;
    var v, r, e := ExpireCookie(w), PollCookies(w, now), w.cookies[0].value;
    ExpireCookieFinishes(w);
    assert r == PollCookies(v, now);
    PollCookiesTruthful(v, now);
    PollCookiesDescends(v, now);
    hide PollCookies;
    var info := w.live[e].(finished := true, delivered := w.online, direct := false);
    assert SentAt(v.trace, |w.trace|, e, info);
    assert SentAt(r.trace, |w.trace|, e, info);
  }

  lemma SentLater(w: World, v: World, r: World, e: Event)
    requires SentAgain(v, r, e) && w.trace <= v.trace && w.online == v.online
    requires e in w.live && e in v.live && w.live[e] == v.live[e]
    ensures SentAgain(w, r, e)
  {
  }

  lemma OthersLeft(w: World, v: World, e: Event, x: Event)
    requires Finishes(w, v, e, w.online, false) && x in v.live
    ensures x in w.live && w.live[x] == v.live[x] && w.trace <= v.trace
  {
  }

  lemma PollUnfolds(w: World, now: int)
    requires Inv(w, multiset{}) && w.cookies != [] && w.cookies[0].Expiry() < now
    ensures PollCookies(w, now) == PollCookies(ExpireCookie(w), now)
  {
    hide Inv, ExpireCookie;
  }

  lemma SentLaterOn(w: World, now: int, x: Event)
    requires Inv(w, multiset{}) && w.cookies != [] && w.cookies[0].Expiry() < now
    requires x in ExpireCookie(w).live && SentAgain(ExpireCookie(w), PollCookies(ExpireCookie(w), now), x)
    ensures SentAgain(w, PollCookies(w, now), x)
  {
    hide Inv, ExpireCookie, SentAgain, Finishes, PollCookies;
    ExpireCookieFinishes(w);
    OthersLeft(w, ExpireCookie(w), w.cookies[0].value, x);
    PollUnfolds(w, now);
    SentLater(w, ExpireCookie(w), PollCookies(w, now), x);
  }

  /** The i-th overdue cookie: its event is sent again, which finishes it, and deleted. */
  lemma {:induction false} PollCookiesSends(w: World, now: int, i: nat)
    requires Inv(w, multiset{}) && i < C.ExpiredCount(w.cookies, now)
    ensures SentAgain(w, PollCookies(w, now), w.cookies[i].value)
    decreases |w.cookies|
  {
    hide Inv, ExpireCookie, SentAgain, PollCookies;
    if i == 0 {
      FirstIsSent(w, now);
    } else {
      OneLess(w.cookies, now);
      CookieIsLive(ExpireCookie(w), i - 1);
      PollCookiesSends(ExpireCookie(w), now, i - 1);
      SentLaterOn(w, now, w.cookies[i].value);
    }
  }

  lemma OneLess<K, V>(l: seq<C.Item<K, V>>, now: int)
    requires l != [] && l[0].Expiry() < now
    ensures C.ExpiredCount(l, now) == C.ExpiredCount(l[1..], now) + 1
  {
  }

  /** What a poll later does leaves it sent. */
  lemma SentStays(w: World, v: World, r: World, e: Event)
    requires SentAgain(w, v, e) && v.freed <= r.freed && v.trace <= r.trace
    ensures SentAgain(w, r, e)
  {
    var info := w.live[e].(finished := true, delivered := w.online, direct := false);
    var j: nat :| |w.trace| <= j && SentAt(v.trace, j, e, info);
    assert SentAt(r.trace, j, e, info);
  }

  lemma FreedGrows(v: World, r: World)
    requires Descends(v, r)
    ensures v.freed <= r.freed
  {
    hide InCookies, InDirectCache, InQueue;
  }

  lemma PollParts(w: World, ctx: Ctx)
    requires Inv(w, multiset{}) && PicksFresh(ctx)
    ensures var v, r := PollCookies(w, ctx.env.now), Poll(w, ctx);
      Keeps(v, r) && v.freed <= r.freed && v.trace <= r.trace
  {
    hide Inv, Keeps, Descends, PollCookies, PollConnections, PollMessages;
    var v := PollCookies(w, ctx.env.now);
    var u := PollConnections(v, ctx);
    PollConnectionsKeeps(v, ctx);
    PollMessagesKeeps(u, 0, ctx);
    KeepsTransitive(v, u, PollMessages(u, 0, ctx));
    PollConnectionsDescends(v, ctx);
    PollMessagesDescends(u, 0, ctx);
    DescendsTransitive(v, u, PollMessages(u, 0, ctx));
    PollConnectionsTruthful(v, ctx);
    PollMessagesTruthful(u, 0, ctx);
    FreedGrows(v, PollMessages(u, 0, ctx));
  }

  /** A poll ends the wait of exactly the events whose cookies are overdue, by sending them again. */
  lemma PollTakesOverdue(w: World, ctx: Ctx, e: Event)
    requires Inv(w, multiset{}) && PicksFresh(ctx) && InCookies(w, e)
    ensures if Overdue(w, e, ctx.env.now) then SentAgain(w, Poll(w, ctx), e) else InCookies(Poll(w, ctx), e)
  {
    hide Inv, Poll, PollCookies, Descends, InCookies;
    var v := PollCookies(w, ctx.env.now);
    PollParts(w, ctx);
    if Overdue(w, e, ctx.env.now) {
      var i :| 0 <= i < C.ExpiredCount(w.cookies, ctx.env.now) && w.cookies[i].value == e;
      PollCookiesSends(w, ctx.env.now, i);
      SentStays(w, v, Poll(w, ctx), e);
    } else {
      NotOverdueStays(w, v, e, ctx.env.now);
    }
  }

  lemma NotOverdueStays(w: World, v: World, e: Event, now: int)
    requires InCookies(w, e) && !Overdue(w, e, now) && v.cookies == w.cookies[C.ExpiredCount(w.cookies, now)..]
    ensures InCookies(v, e)
  {
    var i :| 0 <= i < |w.cookies| && Values(w.cookies)[i] == e;
    var n := C.ExpiredCount(w.cookies, now);
    assert w.cookies[i].value == e && i >= n;
    assert Values(v.cookies)[i - n] == e;
  }

  // ------------------------------------------------------------------
  //  The results
  // ------------------------------------------------------------------

  /** An ack of the event's own type settles it, unless it is a contact list: then nothing at all happens. */
  lemma OwnAckSettlesIff(w: World, i: nat, msgType: byte, status: nat)
    requires Inv(w, multiset{}) && CookieKinds(w) && i < |w.cookies| && w.cookies[i].value in w.live
    requires OwnType(w.live[w.cookies[i].value].kind, msgType)
    ensures var e, r := w.cookies[i].value, ServerAck(w, w.cookies[i].key, msgType, status);
      && (w.live[e].kind.Contacts? ==> r == w)
      && (!w.live[e].kind.Contacts? ==> Finishes(w, r, e, Favourable(w.live[e], status), false))
      && (e in r.freed <==> !w.live[e].kind.Contacts?)
  {
    CookieIsUnique(w, i);
    CookieIsLive(w, i);
    ServerAckFinishes(w, w.cookies[i].key, msgType, status);
    CookieIsIn(w, i);
    hide Inv, ServerAck, Favourable, InCookies;
  }

  lemma CookieIsIn(w: World, i: nat)
    requires i < |w.cookies|
    ensures InCookies(w, w.cookies[i].value)
  {
    assert Values(w.cookies)[i] == w.cookies[i].value;
  }

  /** A contact list waiting under a cookie. */
  ghost predicate ListWaits(w: World, e: Event) { InCookies(w, e) && e in w.live && w.live[e].kind.Contacts? }

  /** A contact list stops waiting for its ack exactly when its cookie expires, and then it is sent a second time,
      whatever acks came in. */
  lemma ListLeavesIff(w: World, c: Call, ctx: Ctx, e: Event)
    requires Inv(w, multiset{}) && CookieKinds(w) && Allowed(w, c) && PicksFresh(ctx)
    requires OwnAck(w, c) && ListWaits(w, e)
    ensures var r := Perform(w, c, ctx);
      if c.CallPoll? && Overdue(w, e, ctx.env.now) then !InCookies(r, e) && SentAgain(w, r, e) else ListWaits(r, e)
  {
    hide Inv, InCookies, Poll, ServerAck, Overdue, OwnType;
    var r := Perform(w, c, ctx);
    PlaceIsLive(r, 0, e);
    if c.CallPoll? {
      PollTakesOverdue(w, ctx, e);
      PollKinds(w, ctx);
      FreedIsDead(r, e);
    } else if c.CallServerAck? {
      AckLeavesLists(w, c.k, c.msgType, c.status, e);
    } else {
      OthersKeepList(w, c, ctx, e);
    }
  }

  lemma OthersKeepList(w: World, c: Call, ctx: Ctx, e: Event)
    requires Inv(w, multiset{}) && Allowed(w, c) && PicksFresh(ctx) && ListWaits(w, e)
    requires !c.CallServerAck? && !c.CallPoll?
    ensures ListWaits(Perform(w, c, ctx), e)
  {
    hide Inv, Perform, CookieKinds, InQueue, InDirectCache;
    OthersKeep(w, c, ctx);
    PlaceIsLive(Perform(w, c, ctx), 0, e);
  }

  lemma AckLeavesLists(w: World, k: Cookie, msgType: byte, status: nat, e: Event)
    requires Inv(w, multiset{}) && OwnAck(w, CallServerAck(k, msgType, status)) && ListWaits(w, e)
    ensures ListWaits(ServerAck(w, k, msgType, status), e)
  {
    hide Inv, InCookies, ServerAck, Favourable, InDirectCache, InQueue;
    var i, r := C.IndexOf(w.cookies, k), ServerAck(w, k, msgType, status);
    ServerAckFinishes(w, k, msgType, status);
    PlaceIsLive(w, 0, e);
    FreedIsDead(w, e);
    if AckTypeKnown(msgType) && i < |w.cookies| {
      CookieIsLive(w, i);
      FinishCookieDescends(w, i, r);
    }
  }

  lemma FreedIsDead(w: World, e: Event)
    requires Inv(w, multiset{})
    ensures e in w.freed ==> e !in w.live
  {
  }

  lemma PollKinds(w: World, ctx: Ctx)
    requires Inv(w, multiset{}) && PicksFresh(ctx)
    ensures SameEvents(w, Poll(w, ctx)) && (CookieKinds(w) ==> CookieKinds(Poll(w, ctx)))
  {
    hide Inv, Poll, PollCookies, Descends;
    var v := PollCookies(w, ctx.env.now);
    PollParts(w, ctx);
    PollCookiesKinds(w, ctx.env.now);
    FewerCookies(w, v, C.ExpiredCount(w.cookies, ctx.env.now));
  }

  lemma FewerCookies(w: World, v: World, n: nat)
    requires n <= |w.cookies| && v.cookies == w.cookies[n..] && SameEvents(w, v)
    ensures CookieKinds(w) ==> CookieKinds(v)
  {
    ValuesSplit(w.cookies, n);
  }

  lemma AckKinds(w: World, k: Cookie, msgType: byte, status: nat)
    requires Inv(w, multiset{}) && CookieKinds(w)
    ensures CookieKinds(ServerAck(w, k, msgType, status))
  {
    hide Inv, ServerAck, Favourable;
    ServerAckFinishes(w, k, msgType, status);
    var i, r := C.IndexOf(w.cookies, k), ServerAck(w, k, msgType, status);
    if r != w {
      forall x | InCookies(r, x) ensures InCookies(w, x) {
        var j :| 0 <= j < |r.cookies| && Values(r.cookies)[j] == x;
        assert Values(w.cookies)[if j < i then j else j + 1] == x;
      }
    }
  }

  /** Whatever the call, only events of the waiting kinds wait under a cookie. */
  lemma PerformKinds(w: World, c: Call, ctx: Ctx)
    requires Inv(w, multiset{}) && CookieKinds(w) && Allowed(w, c) && PicksFresh(ctx)
    ensures CookieKinds(Perform(w, c, ctx))
  {
    hide Inv, InCookies, Poll, ServerAck, Submit;
    if c.CallPoll? {
      PollKinds(w, ctx);
    } else if c.CallServerAck? {
      AckKinds(w, c.k, c.msgType, c.status);
    } else {
      OthersKeepKinds(w, c, ctx);
    }
  }

  lemma OthersKeepKinds(w: World, c: Call, ctx: Ctx)
    requires Inv(w, multiset{}) && CookieKinds(w) && Allowed(w, c) && PicksFresh(ctx)
    requires !c.CallServerAck? && !c.CallPoll?
    ensures CookieKinds(Perform(w, c, ctx))
  {
    hide Inv, Perform, InQueue, InDirectCache;
    if c.CallSubmit? {
      PlaceIsLive(w, 0, c.e);
      assert CookieKinds(w.(live := w.live[c.e := c.info]));
    }
    OthersKeep(w, c, ctx);
  }

  /** On every run only events of the waiting kinds wait under a cookie. */
  lemma {:induction false} RunKinds(w: World, calls: seq<(Call, Ctx)>)
    requires Inv(w, multiset{}) && CookieKinds(w) && ValidRun(w, calls)
    ensures CookieKinds(Run(w, calls))
    decreases |calls|
  {
    hide Inv, CookieKinds, Perform;
    if calls != [] {
      PerformKinds(w, calls[0].0, calls[0].1);
      RunKinds(Perform(w, calls[0].0, calls[0].1), calls[1..]);
    }
  }

  /** In the course of the run a poll comes upon the event's overdue cookie and sends it again. */
  ghost predicate SentOnExpiry(w: World, calls: seq<(Call, Ctx)>, e: Event)
    requires Inv(w, multiset{}) && ValidRun(w, calls)
    decreases |calls|
  {
    if calls == [] then false
    else
      var (c, ctx) := calls[0];
      var v := Perform(w, c, ctx);
      if c.CallPoll? && Overdue(w, e, ctx.env.now) then SentAgain(w, v, e) else SentOnExpiry(v, calls[1..], e)
  }

  /** On every run whose acks are of the events' own types a contact list waits on, or a poll has sent it again when
      its cookie expired; no ack ever settles it. */
  lemma {:induction false} ListIsSentOnExpiry(w: World, calls: seq<(Call, Ctx)>, e: Event)
    requires Inv(w, multiset{}) && CookieKinds(w) && ValidRun(w, calls) && OwnAcks(w, calls) && ListWaits(w, e)
    ensures var r := Run(w, calls);
      if SentOnExpiry(w, calls, e) then e in r.freed && !InCookies(r, e) else ListWaits(r, e)
    decreases |calls|
  {
    hide Inv, CookieKinds, Perform, ListWaits, Descends, OwnAck, Overdue, InCookies;
    if calls != [] {
      var (c, ctx) := calls[0];
      var v := Perform(w, c, ctx);
      ListLeavesIff(w, c, ctx, e);
      PerformKinds(w, c, ctx);
      if c.CallPoll? && Overdue(w, e, ctx.env.now) {
        FreedStays(v, calls[1..], e);
      } else {
        ListIsSentOnExpiry(v, calls[1..], e);
      }
    }
  }

  lemma FreedStays(v: World, calls: seq<(Call, Ctx)>, e: Event)
    requires Inv(v, multiset{}) && ValidRun(v, calls) && e in v.freed
    ensures var r := Run(v, calls); e in r.freed && !InCookies(r, e)
  {
    hide Inv, InCookies, InQueue, InDirectCache;
    RunDescends(v, calls);
    var r := Run(v, calls);
    FreedIsDead(r, e);
    PlaceIsLive(r, 0, e);
  }

  ghost function At(now: int): Ctx { FreshCtx(Env(Host(0, 0, 0), {}, now)) }

  /** A contact list is submitted while the server is connected and its contact takes advanced messages. */
  ghost function ListSubmitted(uin: uint): seq<(Call, Ctx)> {
    [(CallServerConnect, At(0)), (CallSetContact(uin, false, true), At(0)),
     (CallSubmit(0, Info(Contacts, uin, false, false, false), NoRoute), At(0))]
  }

  lemma OneStep(w: World, calls: seq<(Call, Ctx)>)
    requires Inv(w, multiset{}) && calls != []
    requires PicksFresh(calls[0].1) && Allowed(w, calls[0].0) && ValidRun(Perform(w, calls[0].0, calls[0].1), calls[1..])
    ensures ValidRun(w, calls) && Run(w, calls) == Run(Perform(w, calls[0].0, calls[0].1), calls[1..])
  {
    hide Inv, Perform;
  }

  lemma SubmitList(w: World, uin: uint, ctx: Ctx)
    requires Inv(w, multiset{}) && PicksFresh(ctx) && w.live == map[] && 0 !in w.freed
    requires w.online && w.cookies == [] && uin !in w.direct && uin in w.advanced
    ensures var r := Submit(w, 0, Info(Contacts, uin, false, false, false), NoRoute, ctx);
      |r.cookies| == 1 && r.cookies[0].value == 0 && r.cookies[0].Expiry() == ctx.env.now + COOKIE_TIMEOUT
      && ListWaits(r, 0) && r.online
  {
    hide Inv;
    var r := Submit(w, 0, Info(Contacts, uin, false, false, false), NoRoute, ctx);
    assert |r.cookies| == 1;
    CookieIsIn(r, 0);
  }

  /** Such a list: the other side's ack of it changes nothing, and half a minute later it is sent again. */
  lemma ListIsSentTwice(self: uint, uin: uint)
    ensures ValidRun(Start(self), ListSubmitted(uin))
    ensures var w := Run(Start(self), ListSubmitted(uin));
      && |w.cookies| == 1 && ListWaits(w, 0)
      && ServerAck(w, w.cookies[0].key, 0x13, 0) == w && SentAgain(w, Poll(w, At(31)), 0)
  {
    hide Inv, Submit, Poll, ListWaits, SentAgain;
    var calls, w0 := ListSubmitted(uin), Start(self);
    var w1 := Perform(w0, calls[0].0, calls[0].1);
    var w2 := Perform(w1, calls[1].0, calls[1].1);
    var w := Perform(w2, calls[2].0, calls[2].1);
    SubmitList(w2, uin, At(0));
    OneStep(w2, calls[2..]);
    OneStep(w1, calls[1..]);
    OneStep(w0, calls);
    ListFate(w);
  }

  lemma ListFate(w: World)
    requires Inv(w, multiset{}) && ListWaits(w, 0)
    requires |w.cookies| == 1 && w.cookies[0].value == 0 && w.cookies[0].Expiry() == COOKIE_TIMEOUT
    ensures ServerAck(w, w.cookies[0].key, 0x13, 0) == w && SentAgain(w, Poll(w, At(31)), 0)
  {
    hide Inv, Poll, SentAgain, InCookies;
    ServerAckFinishes(w, w.cookies[0].key, 0x13, 0);
    assert C.ExpiredCount(w.cookies, 31) == 1;
    assert Overdue(w, 0, 31);
    PollTakesOverdue(w, At(31), 0);
  }
}
