/** What each operation does to the connections, the cookies and the events it takes out, beside keeping
    the invariant (src/Client.cpp, src/DCCache.h, src/DirectClient.cpp). */
module DeliveryEffects {
  import opened Wrappers
  import opened Buffers
  import opened DirectConn
  import DirectOrder
  import opened Delivery
  import opened DeliveryRuns
  import C = Cache

  /** One messageack for e, directly followed by its delete; no other event is touched. */
  ghost predicate Finishes(w: World, r: World, e: Event, delivered: bool, isDirect: bool) {
    && e in w.live && r.live == w.live - {e} && r.freed == w.freed + {e}
    && r.trace == w.trace
         + [Signal(e, w.live[e].(finished := true, delivered := delivered, direct := isDirect)), Freed(e)]
  }

  lemma FinishIs(w: World, w1: World, e: Event, delivered: bool, isDirect: bool)
    requires e in w.live && w1.live == w.live && w1.freed == w.freed && w1.trace == w.trace
    ensures Finishes(w, Delete(Report(w1, e, true, delivered, isDirect), e), e, delivered, isDirect)
  {
    var info := w.live[e].(finished := true, delivered := delivered, direct := isDirect);
    assert w.trace + [Signal(e, info)] + [Freed(e)] == w.trace + [Signal(e, info), Freed(e)];
    assert w.live[e := info] - {e} == w.live - {e};
  }

  lemma CookieIsLive(w: World, i: nat)
    requires Inv(w, multiset{}) && i < |w.cookies|
    ensures w.cookies[i].value in w.live && w.cookies[i].value !in w.freed
  {
    ValuesRemoveAt(w.cookies, i);
    LooseIsLiveOrOwned(w, w.cookies[i].value);
  }

  /** An expired cookie: its message goes out once more without asking for an ack, which settles it, and the
      contact is taken not to understand advanced messages from then on. */
  lemma ExpireCookieFinishes(w: World)
    requires Inv(w, multiset{}) && w.cookies != []
    ensures var e, r := w.cookies[0].value, ExpireCookie(w);
      Finishes(w, r, e, w.online, false) && r.cookies == w.cookies[1..] && r.dcs == w.dcs
      && r.advanced == w.advanced - {w.live[e].contact}
  {
    CookieIsLive(w, 0);
    hide Inv, Finishes;
    var e := w.cookies[0].value;
    var w1 := w.(cookies := w.cookies[1..]);
    FinishIs(w, w1, e, w.online, false);
    var w2 := Delete(SendNormal(w1, e), e);
    SameFinish(w, w2, w2.(advanced := w2.advanced - {w.live[e].contact}), e, w.online, false);
  }

  lemma SameFinish(w: World, r: World, r1: World, e: Event, delivered: bool, isDirect: bool)
    requires Finishes(w, r, e, delivered, isDirect)
    requires r1.live == r.live && r1.freed == r.freed && r1.trace == r.trace
    ensures Finishes(w, r1, e, delivered, isDirect)
  {
  }

  /** An ack from the server finishes the event waiting under its cookie, and nothing when none waits or the
      type of the ack is not one that is taken. */
  lemma ServerAckFinishes(w: World, k: Cookie, msgType: byte, status: nat)
    requires Inv(w, multiset{})
    ensures var i, r := C.IndexOf(w.cookies, k), ServerAck(w, k, msgType, status);
      if AckTypeKnown(msgType) && i < |w.cookies| then
        var e := w.cookies[i].value;
        && e in w.live && Finishes(w, r, e, Favourable(w.live[e], status), false)
        && r.cookies == C.RemoveAt(w.cookies, i) && r.dcs == w.dcs
      else r == w
  {
    var i := C.IndexOf(w.cookies, k);
    if AckTypeKnown(msgType) && i < |w.cookies| {
      CookieIsLive(w, i);
      hide Inv, Finishes, AckDelivered, Favourable;
      AckDeliveredIff(w.live[w.cookies[i].value], status);
      var e := w.cookies[i].value;
      FinishIs(w, w.(cookies := C.RemoveAt(w.cookies, i)), e, AckDelivered(w.live[e], status), false);
    } else {
      hide Inv;
    }
  }

  /** An ack on a direct connection finishes the event sent under its number. */
  lemma DirectAckFinishes(w: World, fd: int, s: ushort, status: nat)
    requires Inv(w, multiset{})
    ensures var i, r := C.IndexOf(w.dcs, fd), DirectAck(w, fd, s, status);
      if i < |w.dcs| && w.dcs[i].value.state == Connected && DirectOrder.Acknowledge(w.dcs[i].value, s).1.Some? then
        var (c1, ack) := DirectOrder.Acknowledge(w.dcs[i].value, s);
        && ack.value in w.live && Finishes(w, r, ack.value, Favourable(w.live[ack.value], status), true)
        && r.dcs == Update(w.dcs, i, c1) && r.cookies == w.cookies
      else r == w
  {
    hide Inv, AckDelivered, Favourable, Finishes, Update, C.RemoveAt;
    var i := C.IndexOf(w.dcs, fd);
    if i < |w.dcs| && w.dcs[i].value.state == Connected && DirectOrder.Acknowledge(w.dcs[i].value, s).1.Some? {
      var (c1, ack) := DirectOrder.Acknowledge(w.dcs[i].value, s);
      AckedIsLive(w, i, s);
      AckDeliveredIff(w.live[ack.value], status);
      FinishIs(w, w.(dcs := Update(w.dcs, i, c1)), ack.value, AckDelivered(w.live[ack.value], status), true);
    }
  }

  /** The event an ack takes out is one the connection owned. */
  lemma AckedIsLive(w: World, i: nat, s: ushort)
    requires Inv(w, multiset{}) && i < |w.dcs| && C.IndexOf(w.dcs[i].value.cache, s) < |w.dcs[i].value.cache|
    ensures var c := w.dcs[i].value; c.cache[C.IndexOf(c.cache, s)].value in w.live
  {
    var c := w.dcs[i].value;
    ValuesRemoveAt(c.cache, C.IndexOf(c.cache, s));
    OwnedByAllRemoveAt(w.dcs, i);
    LooseIsLiveOrOwned(w, c.cache[C.IndexOf(c.cache, s)].value);
  }

  // ------------------------------------------------------------------
  //  The connection list
  // ------------------------------------------------------------------

  function Others(dcs: seq<C.Item<int, Conn>>, uin: uint): seq<C.Item<int, Conn>> {
    if dcs == [] then []
    else if dcs[0].value.contact == Some(uin) then Others(dcs[1..], uin)
    else [dcs[0]] + Others(dcs[1..], uin)
  }

  /** Removing a contact deletes exactly its connections and keeps the others in order. */
  lemma {:induction false} RemoveContactLeavesOthers(w: World, uin: uint, i: nat, ctx: Ctx)
    requires Inv(w, multiset{}) && i <= |w.dcs| && PicksFresh(ctx)
    ensures TeardownContact(w, uin, i, ctx).dcs == w.dcs[..i] + Others(w.dcs[i..], uin)
    decreases |w.dcs| - i
  {
    hide Inv, Teardown;
    if i < |w.dcs| {
      assert w.dcs[i..][1..] == w.dcs[i + 1..];
      if w.dcs[i].value.contact == Some(uin) {
        var d := C.RemoveAt(w.dcs, i);
        assert d[..i] == w.dcs[..i] && d[i..] == w.dcs[i + 1..];
        RemoveContactLeavesOthers(Teardown(w, i, ctx), uin, i, ctx);
      } else {
        assert w.dcs[..i + 1] + Others(w.dcs[i + 1..], uin) == w.dcs[..i] + ([w.dcs[i]] + Others(w.dcs[i + 1..], uin));
        RemoveContactLeavesOthers(w, uin, i + 1, ctx);
      }
    }
  }

  /** A connection without the overdue messages of its ack cache. */
  function Dropped(c: Conn, now: int): Conn { c.(cache := c.cache[C.ExpiredCount(c.cache, now)..]) }

  /** The overdue messages leave the ack cache and each goes via the server: it waits for its ack there or
      has been finished. */
  lemma ExpireMessagesDrops(w: World, i: nat, ctx: Ctx)
    requires Inv(w, multiset{}) && i < |w.dcs| && PicksFresh(ctx)
    ensures var c, r := w.dcs[i].value, ExpireMessages(w, i, ctx);
      && r.dcs == Update(w.dcs, i, Dropped(c, ctx.env.now))
      && forall x :: x in Values(c.cache[..C.ExpiredCount(c.cache, ctx.env.now)]) ==> Low(r, x)
  {
    hide Inv, Low;
    var c := w.dcs[i].value;
    var n := C.ExpiredCount(c.cache, ctx.env.now);
    var c1, es := Dropped(c, ctx.env.now), Values(c.cache[..n]);
    var w1 := w.(dcs := Update(w.dcs, i, c1));
    ValuesSplit(c.cache, n);
    ConnectedHasNoQueue(w, i);
    TakeOff(w, i, c1, es);
    LooseAreLive(w1, es);
    GiveUpAllLowers(w1, es, ctx);
  }

  ghost predicate AllDropped(a: seq<C.Item<int, Conn>>, b: seq<C.Item<int, Conn>>, from: nat, now: int) {
    && |a| == |b|
    && (forall j :: 0 <= j < |a| ==> b[j] == if j < from then a[j] else a[j].(value := Dropped(a[j].value, now)))
  }

  lemma {:induction false} PollMessagesDrops(w: World, i: nat, ctx: Ctx)
    requires Inv(w, multiset{}) && i <= |w.dcs| && PicksFresh(ctx)
    ensures AllDropped(w.dcs, PollMessages(w, i, ctx).dcs, i, ctx.env.now)
    decreases |w.dcs| - i
  {
    hide Inv, ExpireMessages, Dropped;
    if i < |w.dcs| {
      ExpireMessagesDrops(w, i, ctx);
      PollMessagesDrops(ExpireMessages(w, i, ctx), i + 1, ctx);
    }
  }

  /** A poll deletes the overdue connections at the front of the list and drops the overdue messages from the
      ack caches of those that stay. */
  lemma PollLeaves(w: World, ctx: Ctx)
    requires Inv(w, multiset{}) && PicksFresh(ctx)
    ensures AllDropped(w.dcs[C.ExpiredCount(w.dcs, ctx.env.now)..], Poll(w, ctx).dcs, 0, ctx.env.now)
  {
    hide Inv, PollCookies, PollConnections, PollMessages, AllDropped;
    PollMessagesDrops(PollConnections(PollCookies(w, ctx.env.now), ctx), 0, ctx);
  }

  /** An accepted connection is listed, owns nothing and waits for the first packet. */
  lemma AcceptAdds(w: World, fd: int, now: int)
    requires Inv(w, multiset{})
    ensures var r := Accept(w, fd, now); var t := C.Item(fd, NewIncoming(w.self), now, 30);
      t in r.dcs && (forall x :: x in w.dcs ==> x in r.dcs) && |r.dcs| == |w.dcs| + 1
      && r == w.(dcs := r.dcs)
  {
    hide Inv;
    var t := C.Item(fd, NewIncoming(w.self), now, CONNECTING_TIMEOUT);
    var p, r := C.InsertPos(w.dcs, t.Expiry()), C.Insert(w.dcs, t);
    assert r[p] == t;
    forall j | 0 <= j < |w.dcs| ensures w.dcs[j] in r { assert r[if j < p then j else j + 1] == w.dcs[j]; }
  }

  /** A handshake packet: a failed check deletes the connection and gives its events up; otherwise the
      connection is replaced by what the packet made of it, under the longer timeout once it is connected. */
  lemma PacketEffect(w: World, fd: int, bytes: seq<byte>, ctx: Ctx)
    requires Inv(w, multiset{}) && PicksFresh(ctx)
    ensures var i, r := C.IndexOf(w.dcs, fd), Delivery.Packet(w, fd, bytes, ctx);
      if i == |w.dcs| || w.dcs[i].value.state == Connected then r == w
      else
        var (c1, ok) := HandlePacket(w.dcs[i].value, bytes, ctx.env);
        var t := w.dcs[i].(value := c1);
        if !ok then (r.dcs == C.RemoveAt(w.dcs, i) && forall x :: x in Pending(c1) ==> Low(r, x))
        else (&& r.cookies == w.cookies && r.live == w.live && r.trace == w.trace
              && (if c1.state == Connected then t.(timeout := 600) else t) in r.dcs
              && forall j :: 0 <= j < |w.dcs| && j != i ==> w.dcs[j] in r.dcs)
  {
    hide Inv, HandlePacket, Low, GiveUpLoose;
    var i := C.IndexOf(w.dcs, fd);
    if i < |w.dcs| && w.dcs[i].value.state != Connected {
      var (c1, ok) := HandlePacket(w.dcs[i].value, bytes, ctx.env);
      var w1 := w.(dcs := Update(w.dcs, i, c1));
      UpdatedInv(w, i, bytes, ctx);
      UpdatedAt(w.dcs, i, c1, fd);
      if !ok {
        TeardownLowers(w1, i, ctx);
      } else if c1.state == Connected {
        hide C.Insert, C.RemoveAt, Update;
        MembersStay(w1.dcs, i, w1.dcs[i].(timeout := CONNECTED_TIMEOUT));
      }
    }
  }

  lemma UpdatedAt(dcs: seq<C.Item<int, Conn>>, i: nat, c1: Conn, fd: int)
    requires i == C.IndexOf(dcs, fd) < |dcs|
    ensures var d := Update(dcs, i, c1);
      && |d| == |dcs| && d[i] == dcs[i].(value := c1) && (forall j :: 0 <= j < |dcs| && j != i ==> d[j] == dcs[j])
      && C.IndexOf(d, fd) == i && C.RemoveAt(d, i) == C.RemoveAt(dcs, i)
  {
  }

  lemma TeardownLowers(w: World, i: nat, ctx: Ctx)
    requires Inv(w, multiset{}) && i < |w.dcs| && PicksFresh(ctx)
    ensures forall x :: x in Pending(w.dcs[i].value) ==> Low(Teardown(w, i, ctx), x)
  {
    hide Inv, Low;
    var es := Pending(w.dcs[i].value);
    var w1 := w.(dcs := C.RemoveAt(w.dcs, i));
    assert multiset(es) <= multiset(w1.live.Keys) by { PendingIsLive(w, i); }
    GiveUpAllLowers(w1, es, ctx);
  }

  // ------------------------------------------------------------------
  //  Going via the server
  // ------------------------------------------------------------------

  /** The event waits under a new cookie, for half a minute; nothing else has changed. */
  ghost predicate AwaitsAck(w: World, r: World, e: Event, now: int) {
    && r == w.(cookies := r.cookies)
    && exists i :: 0 <= i < |r.cookies| && C.RemoveAt(r.cookies, i) == w.cookies
         && r.cookies[i].value == e && r.cookies[i].timestamp == now && r.cookies[i].timeout == 30
         && forall j :: 0 <= j < |w.cookies| ==> w.cookies[j].key != r.cookies[i].key
  }

  /** Whether a message sent via the server asks for an ack: authorisation messages never do, the others do if the
      contact understands advanced messages. */
  predicate AsksForAck(w: World, info: Info) {
    !info.kind.AuthReq? && !info.kind.AuthAck? && !info.kind.UserAdd? && info.contact in w.advanced
  }

  /** What becomes of a message that goes via the server: it waits for its ack if it asks for one and the server is
      connected; otherwise that was all, and it counts as delivered exactly if the server is connected, it asks for no ack
      and it is no away message request. */
  lemma SendViaServerTells(w: World, e: Event, ctx: Ctx)
    requires e in w.live && PicksFresh(ctx)
    ensures var r, info := SendViaServer(w, e, ctx), w.live[e];
      if AsksForAck(w, info) && w.online then AwaitsAck(w, r, e, ctx.env.now)
      else && Finishes(w, r, e, w.online && !info.kind.AwayMessage?, false)
           && r.cookies == w.cookies && r.dcs == w.dcs && r.advanced == w.advanced && r.direct == w.direct
  {
    hide C.Insert, C.InsertPos, Finishes;
    FinishIs(w, w, e, w.online, false);
    FinishIs(w, w, e, false, false);
    if AsksForAck(w, w.live[e]) && w.online {
      var keys := set i | 0 <= i < |w.cookies| :: w.cookies[i].key;
      var t := C.Item(ctx.pick(keys), e, ctx.env.now, COOKIE_TIMEOUT);
      InsertedAt(w.cookies, t);
      assert t.key !in keys;
    }
  }

  lemma InsertedAt<K, V>(l: seq<C.Item<K, V>>, t: C.Item<K, V>)
    ensures var p, r := C.InsertPos(l, t.Expiry()), C.Insert(l, t); p < |r| && r[p] == t && C.RemoveAt(r, p) == l
  {
  }

  /** The messages given up by direct connections, in the order they were told of, each as unfinished. */
  function Given(trace: seq<Obs>): seq<Event> {
    if trace == [] then []
    else
      var o := trace[|trace| - 1];
      Given(trace[..|trace| - 1]) + if o.Signal? && !o.info.finished && o.info.direct && !o.info.delivered then [o.ev] else []
  }

  lemma GivenSnoc(trace: seq<Obs>, o: Obs)
    ensures Given(trace + [o]) ==
      Given(trace) + if o.Signal? && !o.info.finished && o.info.direct && !o.info.delivered then [o.ev] else []
  {
    assert (trace + [o])[..|trace|] == trace;
  }

  lemma SendGivesNone(w: World, e: Event, ctx: Ctx)
    requires e in w.live && PicksFresh(ctx)
    ensures var r := SendViaServer(w, e, ctx);
      && Given(r.trace) == Given(w.trace) && r.direct == w.direct
      && forall x :: x in r.live ==> x in w.live && r.live[x].contact == w.live[x].contact
    ensures forall x :: x in w.live && x != e ==> x in SendViaServer(w, e, ctx).live
  {
    hide SendViaServer, Given;
    SendViaServerTells(w, e, ctx);
    var r := SendViaServer(w, e, ctx);
    if r.trace != w.trace {
      var o := r.trace[|w.trace|];
      GivenSnoc(w.trace, o);
      GivenSnoc(w.trace + [o], Freed(e));
      assert r.trace == w.trace + [o] + [Freed(e)];
    }
  }

  lemma GiveUpTells(w: World, e: Event, ctx: Ctx)
    requires e in w.live && PicksFresh(ctx)
    ensures var r := GiveUpDirect(w, e, ctx);
      && Given(r.trace) == Given(w.trace) + [e] && r.direct == w.direct - {w.live[e].contact}
      && forall x :: x in r.live ==> x in w.live && r.live[x].contact == w.live[x].contact
    ensures forall x :: x in w.live && x != e ==> x in GiveUpDirect(w, e, ctx).live
  {
    hide SendViaServer, Given;
    var w1 := Report(w, e, false, false, true);
    GivenSnoc(w.trace, w1.trace[|w.trace|]);
    SendGivesNone(w1.(direct := w1.direct - {w1.live[e].contact}), e, ctx);
  }

  function ContactsOf(live: map<Event, Info>, es: seq<Event>): (s: set<uint>)
    requires forall x :: x in es ==> x in live
  {
    set x | x in es :: live[x].contact
  }

  /** Messages given up are told of in order, each once and as not delivered, and their contacts lose the direct route. */
  lemma {:induction false} GiveUpAllTells(w: World, es: seq<Event>, ctx: Ctx)
    requires multiset(es) <= multiset(w.live.Keys) && PicksFresh(ctx)
    ensures forall x :: x in es ==> x in w.live
    ensures var r := GiveUpAll(w, es, ctx);
      Given(r.trace) == Given(w.trace) + es && r.direct == w.direct - ContactsOf(w.live, es)
    decreases |es|
  {
    hide GiveUpDirect, Given;
    forall x | x in es ensures x in w.live { assert x in multiset(es); }
    if es != [] {
      assert es == [es[0]] + es[1..];
      assert es[0] in multiset(es);
      var v := GiveUpDirect(w, es[0], ctx);
      RestStaysLive(w.live.Keys, v.live.Keys, es);
      GiveUpTells(w, es[0], ctx);
      GiveUpAllTells(v, es[1..], ctx);
      assert Given(w.trace) + [es[0]] + es[1..] == Given(w.trace) + es;
      assert ContactsOf(w.live, es) == {w.live[es[0]].contact} + ContactsOf(v.live, es[1..]);
    }
  }

  lemma RestStaysLive(live: set<Event>, live1: set<Event>, es: seq<Event>)
    requires es != [] && multiset(es) <= multiset(live) && live - {es[0]} <= live1
    ensures multiset(es[1..]) <= multiset(live1)
  {
    assert es == [es[0]] + es[1..] && es[0] in multiset(es);
    assert multiset(live - {es[0]}) == multiset(live) - multiset{es[0]};
    assert multiset(es[1..]) <= multiset(live - {es[0]}) <= multiset(live1);
  }

  lemma LooseTells(w: World, es: seq<Event>, ctx: Ctx)
    requires Inv(w, multiset(es)) && PicksFresh(ctx)
    ensures forall x :: x in es ==> x in w.live
    ensures var r := GiveUpLoose(w, es, ctx);
      Given(r.trace) == Given(w.trace) + es && r.direct == w.direct - ContactsOf(w.live, es)
  {
    LooseAreLive(w, es);
    hide Inv, GiveUpAll, Given;
    GiveUpAllTells(w, es, ctx);
  }

  /** A deleted connection tells of the messages it still held: those waiting for acks in the order they expire, then the
      queue. */
  lemma TeardownTells(w: World, i: nat, ctx: Ctx)
    requires Inv(w, multiset{}) && i < |w.dcs| && PicksFresh(ctx)
    ensures forall x :: x in Values(w.dcs[i].value.cache) + w.dcs[i].value.queue ==> x in w.live
    ensures var c, r := w.dcs[i].value, Teardown(w, i, ctx);
      && Given(r.trace) == Given(w.trace) + (Values(c.cache) + c.queue)
      && r.direct == w.direct - ContactsOf(w.live, Values(c.cache) + c.queue)
  {
    hide Inv, Given, GiveUpLoose;
    TakeOut(w, i);
    LooseTells(w.(dcs := C.RemoveAt(w.dcs, i)), Pending(w.dcs[i].value), ctx);
  }

  /** The overdue messages of a connection are told of in the order they expire. */
  lemma ExpireMessagesTells(w: World, i: nat, ctx: Ctx)
    requires Inv(w, multiset{}) && i < |w.dcs| && PicksFresh(ctx)
    ensures var c := w.dcs[i].value;
      forall x :: x in Values(c.cache[..C.ExpiredCount(c.cache, ctx.env.now)]) ==> x in w.live
    ensures var c, r := w.dcs[i].value, ExpireMessages(w, i, ctx);
      var es := Values(c.cache[..C.ExpiredCount(c.cache, ctx.env.now)]);
      Given(r.trace) == Given(w.trace) + es && r.direct == w.direct - ContactsOf(w.live, es)
  {
    hide Inv, Given, GiveUpLoose;
    var c := w.dcs[i].value;
    var n := C.ExpiredCount(c.cache, ctx.env.now);
    var c1 := c.(cache := c.cache[n..]);
    ValuesSplit(c.cache, n);
    ConnectedHasNoQueue(w, i);
    TakeOff(w, i, c1, Values(c.cache[..n]));
    LooseTells(w.(dcs := Update(w.dcs, i, c1)), Values(c.cache[..n]), ctx);
  }

  /** The server's word that a contact is offline is passed on, and the event waits on for its ack. */
  lemma OfflineUserTells(w: World, k: Cookie)
    requires Inv(w, multiset{})
    ensures var i, r := C.IndexOf(w.cookies, k), OfflineUser(w, k);
      if i == |w.cookies| then r == w
      else
        var e := w.cookies[i].value;
        && e in w.live && r.cookies == w.cookies && r.dcs == w.dcs && r.freed == w.freed && r.live.Keys == w.live.Keys
        && r.trace == w.trace + [Signal(e, w.live[e].(finished := false, delivered := false, direct := false))]
  {
    var i := C.IndexOf(w.cookies, k);
    if i < |w.cookies| { CookieIsLive(w, i); }
    hide Inv;
  }
}
