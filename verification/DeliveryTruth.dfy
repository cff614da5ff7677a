/** A messageack says that a message was delivered only when the library has reason to: the server was
    connected when it was handed over, or its ack has just arrived (src/Client.cpp:406-442, 2164-2196,
    src/MessageHandler.cpp:232-286). */
module DeliveryTruth {
  import opened Wrappers
  import opened Buffers
  import opened DirectConn
  import DirectOrder
  import opened Delivery
  import opened DeliveryEffects
  import opened DeliveryRuns
  import C = Cache

  predicate SaysDelivered(o: Obs) { o.Signal? && o.info.delivered }

  /** What is said of a message handed to the server that will not acknowledge it. */
  predicate Handed(o: Obs) { o.Signal? && o.info.finished && !o.info.direct }

  /** From w to r the trace has only grown, and delivery has been reported only of messages handed to the server. */
  ghost predicate Truthful(w: World, r: World) {
    && r.online == w.online && w.trace <= r.trace
    && forall i :: |w.trace| <= i < |r.trace| && SaysDelivered(r.trace[i]) ==> w.online && Handed(r.trace[i])
  }

  lemma TruthfulTransitive(w: World, v: World, u: World)
    requires Truthful(w, v) && Truthful(v, u)
    ensures Truthful(w, u)
  {
  }

  /** Only the connection and the trace matter. */
  lemma TruthfulIgnores(w: World, w1: World, r: World, r1: World)
    requires Truthful(w, r) && w1.trace == w.trace && w1.online == w.online && r1.trace == r.trace && r1.online == r.online
    ensures Truthful(w1, r1)
  {
  }

  lemma SendViaServerTruthful(w: World, e: Event, ctx: Ctx)
    requires e in w.live
    ensures Truthful(w, SendViaServer(w, e, ctx))
  {
    hide C.Insert;
  }

  lemma GiveUpTruthful(w: World, e: Event, ctx: Ctx)
    requires e in w.live
    ensures Truthful(w, GiveUpDirect(w, e, ctx))
  {
    hide SendViaServer;
    var w1 := Report(w, e, false, false, true);
    var w2 := w1.(direct := w1.direct - {w1.live[e].contact});
    assert Truthful(w, w2);
    SendViaServerTruthful(w2, e, ctx);
    TruthfulTransitive(w, w2, SendViaServer(w2, e, ctx));
  }

  lemma {:induction false} GiveUpAllTruthful(w: World, es: seq<Event>, ctx: Ctx)
    requires multiset(es) <= multiset(w.live.Keys)
    ensures Truthful(w, GiveUpAll(w, es, ctx))
    decreases |es|
  {
    hide GiveUpDirect;
    if es != [] {
      assert es == [es[0]] + es[1..];
      assert es[0] in multiset(es);
      GiveUpTruthful(w, es[0], ctx);
      var v := GiveUpDirect(w, es[0], ctx);
      RestStaysLive(w.live.Keys, v.live.Keys, es);
      GiveUpAllTruthful(v, es[1..], ctx);
      hide Truthful;
      TruthfulTransitive(w, v, GiveUpAll(v, es[1..], ctx));
    }
  }

  lemma TeardownTruthful(w: World, i: nat, ctx: Ctx)
    requires Inv(w, multiset{}) && i < |w.dcs| && PicksFresh(ctx)
    ensures Truthful(w, Teardown(w, i, ctx))
  {
    TakeOut(w, i);
    LooseTruthful(w.(dcs := C.RemoveAt(w.dcs, i)), Pending(w.dcs[i].value), ctx);
    hide Inv, GiveUpLoose;
  }

  lemma LooseTruthful(w: World, es: seq<Event>, ctx: Ctx)
    requires Inv(w, multiset(es)) && PicksFresh(ctx)
    ensures Truthful(w, GiveUpLoose(w, es, ctx))
  {
    assert multiset(es) <= Owned(w) + multiset(es);
    hide GiveUpAll;
    GiveUpAllTruthful(w, es, ctx);
  }

  lemma {:induction false} TeardownAllTruthful(w: World, ctx: Ctx)
    requires Inv(w, multiset{}) && PicksFresh(ctx)
    ensures Truthful(w, TeardownAll(w, ctx))
    decreases |w.dcs|
  {
    hide Inv, Teardown;
    if w.dcs != [] {
      TeardownTruthful(w, 0, ctx);
      TeardownAllTruthful(Teardown(w, 0, ctx), ctx);
      TruthfulTransitive(w, Teardown(w, 0, ctx), TeardownAll(w, ctx));
    }
  }

  lemma {:induction false} TeardownContactTruthful(w: World, uin: uint, i: nat, ctx: Ctx)
    requires Inv(w, multiset{}) && i <= |w.dcs| && PicksFresh(ctx)
    ensures Truthful(w, TeardownContact(w, uin, i, ctx))
    decreases |w.dcs| - i
  {
    hide Inv, Teardown;
    if i < |w.dcs| {
      if w.dcs[i].value.contact == Some(uin) {
        TeardownTruthful(w, i, ctx);
        TeardownContactTruthful(Teardown(w, i, ctx), uin, i, ctx);
        TruthfulTransitive(w, Teardown(w, i, ctx), TeardownContact(w, uin, i, ctx));
      } else {
        TeardownContactTruthful(w, uin, i + 1, ctx);
      }
    }
  }

  lemma ExpireCookieTruthful(w: World)
    requires Inv(w, multiset{}) && w.cookies != []
    ensures Truthful(w, ExpireCookie(w))
  {
    hide Inv;
  }

  lemma {:induction false} PollCookiesTruthful(w: World, now: int)
    requires Inv(w, multiset{})
    ensures Truthful(w, PollCookies(w, now))
    decreases |w.cookies|
  {
    hide Inv, ExpireCookie;
    if w.cookies != [] && w.cookies[0].Expiry() < now {
      ExpireCookieTruthful(w);
      PollCookiesTruthful(ExpireCookie(w), now);
      TruthfulTransitive(w, ExpireCookie(w), PollCookies(w, now));
    }
  }

  lemma {:induction false} PollConnectionsTruthful(w: World, ctx: Ctx)
    requires Inv(w, multiset{}) && PicksFresh(ctx)
    ensures Truthful(w, PollConnections(w, ctx))
    decreases |w.dcs|
  {
    hide Inv, Teardown;
    if w.dcs != [] && w.dcs[0].Expiry() < ctx.env.now {
      TeardownTruthful(w, 0, ctx);
      PollConnectionsTruthful(Teardown(w, 0, ctx), ctx);
      TruthfulTransitive(w, Teardown(w, 0, ctx), PollConnections(w, ctx));
    }
  }

  lemma ExpireMessagesTruthful(w: World, i: nat, ctx: Ctx)
    requires Inv(w, multiset{}) && i < |w.dcs| && PicksFresh(ctx)
    ensures Truthful(w, ExpireMessages(w, i, ctx))
  {
    var c := w.dcs[i].value;
    var n := C.ExpiredCount(c.cache, ctx.env.now);
    var c1 := c.(cache := c.cache[n..]);
    ValuesSplit(c.cache, n);
    hide Inv, GiveUpLoose;
    TakeOff(w, i, c1, Values(c.cache[..n]));
    LooseTruthful(w.(dcs := Update(w.dcs, i, c1)), Values(c.cache[..n]), ctx);
  }

  lemma {:induction false} PollMessagesTruthful(w: World, i: nat, ctx: Ctx)
    requires Inv(w, multiset{}) && i <= |w.dcs| && PicksFresh(ctx)
    ensures Truthful(w, PollMessages(w, i, ctx))
    decreases |w.dcs| - i
  {
    hide Inv, ExpireMessages;
    if i < |w.dcs| {
      ExpireMessagesTruthful(w, i, ctx);
      PollMessagesTruthful(ExpireMessages(w, i, ctx), i + 1, ctx);
      TruthfulTransitive(w, ExpireMessages(w, i, ctx), PollMessages(w, i, ctx));
    }
  }

  lemma PollTruthful(w: World, ctx: Ctx)
    requires Inv(w, multiset{}) && PicksFresh(ctx)
    ensures Truthful(w, Poll(w, ctx))
  {
    hide Inv, PollCookies, PollConnections, PollMessages, Truthful;
    var v := PollCookies(w, ctx.env.now);
    var u := PollConnections(v, ctx);
    PollCookiesTruthful(w, ctx.env.now);
    PollConnectionsTruthful(v, ctx);
    PollMessagesTruthful(u, 0, ctx);
    TruthfulTransitive(w, v, u);
    TruthfulTransitive(w, u, PollMessages(u, 0, ctx));
  }

  lemma SubmitTruthful(w: World, e: Event, info: Info, route: Route, ctx: Ctx)
    requires Inv(w, multiset{}) && e !in w.live && e !in w.freed && PicksFresh(ctx)
    ensures Truthful(w, Submit(w, e, info, route, ctx))
  {
    NewEvent(w, e, info);
    var w1 := w.(live := w.live[e := info]);
    SendViaServerTruthful(w1, e, ctx);
    TruthfulIgnores(w1, w, SendViaServer(w1, e, ctx), SendViaServer(w1, e, ctx));
    hide Inv, SendViaServer, C.Insert, Connect, SendEvent;
  }

  lemma PacketTruthful(w: World, fd: int, bytes: seq<byte>, ctx: Ctx)
    requires Inv(w, multiset{}) && PicksFresh(ctx)
    ensures Truthful(w, Packet(w, fd, bytes, ctx))
  {
    hide Inv, Teardown, HandlePacket, C.SetTimeout;
    var i := C.IndexOf(w.dcs, fd);
    if i < |w.dcs| && w.dcs[i].value.state != Connected {
      var c1 := HandlePacket(w.dcs[i].value, bytes, ctx.env).0;
      var w1 := w.(dcs := Update(w.dcs, i, c1));
      UpdatedInv(w, i, bytes, ctx);
      TeardownTruthful(w1, i, ctx);
      TruthfulIgnores(w1, w, Teardown(w1, i, ctx), Teardown(w1, i, ctx));
    }
  }

  // ------------------------------------------------------------------
  //  The result
  // ------------------------------------------------------------------

  /** What entitles a call to report an event as delivered. */
  ghost predicate MayDeliver(w: World, c: Call, o: Obs)
    requires Inv(w, multiset{})
  {
    match c
    case CallServerAck(k, msgType, status) =>
      var i := C.IndexOf(w.cookies, k);
      && i < |w.cookies| && w.cookies[i].value == o.ev && o.ev in w.live && AckTypeKnown(msgType)
      && Favourable(w.live[o.ev], status) && o.Signal? && o.info.finished && !o.info.direct
    case CallDirectAck(fd, s, status) =>
      var i := C.IndexOf(w.dcs, fd);
      && i < |w.dcs| && DirectOrder.Acknowledge(w.dcs[i].value, s).1 == Some(o.ev) && o.ev in w.live
      && Favourable(w.live[o.ev], status) && o.Signal? && o.info.finished && o.info.direct
    case CallOfflineUser(_) | CallAuthorizerDisconnect | CallServerDisconnect => false
    case _ => w.online && Handed(o)
  }

  ghost predicate OnlyEntitled(w: World, c: Call, r: World)
    requires Inv(w, multiset{})
  {
    w.trace <= r.trace &&
    forall i :: |w.trace| <= i < |r.trace| && SaysDelivered(r.trace[i]) ==> MayDeliver(w, c, r.trace[i])
  }

  lemma ServerAckEntitled(w: World, k: Cookie, msgType: byte, status: nat)
    requires Inv(w, multiset{})
    ensures OnlyEntitled(w, CallServerAck(k, msgType, status), ServerAck(w, k, msgType, status))
  {
    hide Inv, ServerAck, Favourable;
    ServerAckFinishes(w, k, msgType, status);
  }

  lemma DirectAckEntitled(w: World, fd: int, s: ushort, status: nat)
    requires Inv(w, multiset{})
    ensures OnlyEntitled(w, CallDirectAck(fd, s, status), DirectAck(w, fd, s, status))
  {
    hide Inv, DirectAck, Favourable, Update, C.RemoveAt;
    DirectAckFinishes(w, fd, s, status);
  }

  lemma TruthfulEntitled(w: World, c: Call, r: World)
    requires Inv(w, multiset{}) && Truthful(w, r)
    requires !c.CallServerAck? && !c.CallDirectAck? && !c.CallOfflineUser?
    requires !c.CallAuthorizerDisconnect? && !c.CallServerDisconnect?
    ensures OnlyEntitled(w, c, r)
  {
    hide Inv;
  }

  /** Whatever the call, a messageack says delivered only for an event whose ack has just arrived and is
      favourable, or for one that has just been handed to the connected server to be sent without an ack; losing the
      server reports nothing as delivered. */
  lemma DeliveryIsTruthful(w: World, c: Call, ctx: Ctx)
    requires Inv(w, multiset{}) && Allowed(w, c) && PicksFresh(ctx)
    ensures OnlyEntitled(w, c, Perform(w, c, ctx))
  {
    hide Inv, OnlyEntitled;
    match c
    case CallServerAck(k, msgType, status) => ServerAckEntitled(w, k, msgType, status);
    case CallDirectAck(fd, s, status) => DirectAckEntitled(w, fd, s, status);
    case CallOfflineUser(k) => OfflineUserEntitled(w, k);
    case CallAuthorizerDisconnect => AuthorizerEntitled(w);
    case CallServerDisconnect => ServerEntitled(w, ctx);
    case _ => OthersTruthful(w, c, ctx);
  }

  lemma OthersTruthful(w: World, c: Call, ctx: Ctx)
    requires Inv(w, multiset{}) && Allowed(w, c) && PicksFresh(ctx)
    requires !c.CallServerAck? && !c.CallDirectAck? && !c.CallOfflineUser?
    requires !c.CallAuthorizerDisconnect? && !c.CallServerDisconnect?
    ensures OnlyEntitled(w, c, Perform(w, c, ctx))
  {
    hide Inv, OnlyEntitled, Submit, Teardown, TeardownContact, Poll, Packet;
    if c.CallServerConnect? {
      OnlineEntitled(w);
    } else {
      OthersAreTruthful(w, c, ctx);
      TruthfulEntitled(w, c, Perform(w, c, ctx));
    }
  }

  lemma OfflineUserEntitled(w: World, k: Cookie)
    requires Inv(w, multiset{})
    ensures OnlyEntitled(w, CallOfflineUser(k), OfflineUser(w, k))
  {
    hide Inv, MayDeliver;
  }

  lemma AuthorizerEntitled(w: World)
    requires Inv(w, multiset{})
    ensures OnlyEntitled(w, CallAuthorizerDisconnect, w.(online := false))
  {
    hide Inv, MayDeliver;
  }

  lemma ServerEntitled(w: World, ctx: Ctx)
    requires Inv(w, multiset{}) && PicksFresh(ctx)
    ensures OnlyEntitled(w, CallServerDisconnect, ServerDisconnect(w, ctx))
  {
    OfflineInv(w);
    TeardownAllTruthful(w.(online := false), ctx);
    hide Inv, TeardownAll;
  }

  lemma OnlineEntitled(w: World)
    requires Inv(w, multiset{})
    ensures OnlyEntitled(w, CallServerConnect, w.(online := true))
  {
    hide Inv, MayDeliver;
  }

  lemma OthersAreTruthful(w: World, c: Call, ctx: Ctx)
    requires Inv(w, multiset{}) && Allowed(w, c) && PicksFresh(ctx)
    requires !c.CallServerAck? && !c.CallDirectAck? && !c.CallOfflineUser?
    requires !c.CallServerConnect? && !c.CallAuthorizerDisconnect? && !c.CallServerDisconnect?
    ensures Truthful(w, Perform(w, c, ctx))
  {
    hide Inv, Submit, Teardown, TeardownContact, Poll, Packet;
    match c
    case CallSubmit(e, info, route) =>
      SubmitTruthful(w, e, info, route, ctx);
    case CallPacket(fd, bytes) => PacketTruthful(w, fd, bytes, ctx);
    case CallTeardown(fd) => if C.IndexOf(w.dcs, fd) < |w.dcs| { TeardownTruthful(w, C.IndexOf(w.dcs, fd), ctx); }
    case CallRemoveContact(uin) => TeardownContactTruthful(w, uin, 0, ctx);
    case CallPoll => PollTruthful(w, ctx);
    case _ =>
  }

  // ------------------------------------------------------------------
  //  What an ack's status means
  // ------------------------------------------------------------------

  /** The event an ack is for: the one waiting under its cookie, if acks of that type are taken, or the one sent
      under its number on a connected connection. */
  ghost function AckTarget(w: World, c: Call): Option<Event>
    requires c.CallServerAck? || c.CallDirectAck?
  {
    if c.CallServerAck? then
      var i := C.IndexOf(w.cookies, c.k);
      if AckTypeKnown(c.msgType) && i < |w.cookies| then Some(w.cookies[i].value) else None
    else
      var i := C.IndexOf(w.dcs, c.fd);
      if i < |w.dcs| && w.dcs[i].value.state == Connected then DirectOrder.Acknowledge(w.dcs[i].value, c.s).1 else None
  }

  /** Told of the event exactly once, as finished, and deleted. */
  ghost predicate ToldOnce(w: World, r: World, e: Event, delivered: bool, isDirect: bool) {
    && e in w.live && e in r.freed && |r.trace| == |w.trace| + 2 && w.trace <= r.trace
    && r.trace[|w.trace| + 1] == Freed(e)
    && var o := r.trace[|w.trace|];
       o.Signal? && o.ev == e && o.info.finished && o.info.delivered == delivered && o.info.direct == isDirect
  }

  /** An ack tells of the event it is for, and of nothing else: an accepting status says delivered, a refusing one
      (denied, occupied, do not disturb) says not delivered, any other leaves the flag as it was, and an away message
      request counts as delivered whatever the status. */
  lemma AckTellsStatus(w: World, c: Call, ctx: Ctx, status: nat)
    requires Inv(w, multiset{}) && PicksFresh(ctx)
    requires (c.CallServerAck? || c.CallDirectAck?) && c.status == status
    ensures var r, target := Perform(w, c, ctx), AckTarget(w, c);
      if target.None? then r == w
      else
        && target.value in w.live
        && var info := w.live[target.value];
           && (info.kind.AwayMessage? ==> ToldOnce(w, r, target.value, true, c.CallDirectAck?))
           && (!info.kind.AwayMessage? && status in {0x0, 0x4, 0xC, 0xE} ==>
                 ToldOnce(w, r, target.value, true, c.CallDirectAck?))
           && (!info.kind.AwayMessage? && status in {0x1, 0x9, 0xA} ==>
                 ToldOnce(w, r, target.value, false, c.CallDirectAck?))
           && (!info.kind.AwayMessage? && status !in {0x0, 0x1, 0x4, 0x9, 0xA, 0xC, 0xE} ==>
                 ToldOnce(w, r, target.value, info.delivered, c.CallDirectAck?))
  {
    hide Inv, ServerAck, DirectAck, Update, C.RemoveAt;
    if c.CallServerAck? {
      ServerAckFinishes(w, c.k, c.msgType, status);
    } else {
      DirectAckFinishes(w, c.fd, c.s, status);
    }
  }
}
