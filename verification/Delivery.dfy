/** The life of an outgoing message (src/Client.cpp, src/DirectClient.cpp, src/ICBMCookieCache.h,
    src/SeqNumCache.h, src/DCCache.h, src/MessageHandler.cpp): from SendEvent to the terminal
    messageack and the delete. The C++ heap is explicit: an event is live from its SendEvent to
    its delete, and every access to it requires it to be live. */
module Delivery {
  import opened Wrappers
  import opened Buffers
  import opened DirectConn
  import opened DirectOrder
  import C = Cache

  /** The message types in scope. */
  datatype Kind = Normal | URL | AwayMessage | Contacts | AuthReq | AuthAck | UserAdd

  /** The fields of a MessageEvent that delivery reads and writes. */
  datatype Info = Info(kind: Kind, contact: uint, finished: bool, delivered: bool, direct: bool)

  /** A messageack signal, with the event as the listener sees it, and a delete. */
  datatype Obs = Signal(ev: Event, info: Info) | Freed(ev: Event)

  type Cookie = nat

  datatype World = World(
    self: uint,
    online: bool,                              // m_state != NOT_CONNECTED
    dcs: seq<C.Item<int, Conn>>,               // m_dccache, by file descriptor
    cookies: seq<C.Item<Cookie, Event>>,       // m_cookiecache
    live: map<Event, Info>,
    freed: set<Event>,
    trace: seq<Obs>,
    direct: set<uint>,                         // contacts with getDirect()
    advanced: set<uint>)                       // contacts with get_accept_adv_msgs()

  /** The surroundings of a step; pick is the cookie generator, any function to an unused cookie. */
  datatype Ctx = Ctx(env: Env, pick: set<Cookie> -> Cookie)

  ghost predicate PicksFresh(ctx: Ctx) { forall s: set<Cookie> :: ctx.pick(s) !in s }

  /** A cookie above all in use. */
  ghost function Above(s: set<Cookie>): (k: Cookie)
    ensures forall x :: x in s ==> x < k
  {
    if s == {} then 0
    else
      var x :| x in s;
      var k := Above(s - {x});
      assert forall y :: y in s ==> y == x || y in s - {x};
      if x < k then k else x + 1
  }

  /** Surroundings whose cookies are always fresh. */
  ghost function FreshCtx(env: Env): (ctx: Ctx)
    ensures PicksFresh(ctx) && ctx.env == env
  {
    Ctx(env, (s: set<Cookie>) => Above(s))
  }

  const COOKIE_TIMEOUT := 30
  const CONNECTING_TIMEOUT := 30
  const CONNECTED_TIMEOUT := 600

  function Values<K>(l: seq<C.Item<K, Event>>): (es: seq<Event>)
    ensures |es| == |l|
  {
    seq(|l|, i requires 0 <= i < |l| => l[i].value)
  }

  // ------------------------------------------------------------------
  //  Signals and deletes
  // ------------------------------------------------------------------

  /** setFinished, setDelivered, setDirect and the messageack signal. */
  function Report(w: World, e: Event, finished: bool, delivered: bool, direct: bool): (r: World)
    requires e in w.live
    ensures r.live.Keys == w.live.Keys
  {
    var info := w.live[e].(finished := finished, delivered := delivered, direct := direct);
    w.(live := w.live[e := info], trace := w.trace + [Signal(e, info)])
  }

  function Delete(w: World, e: Event): (r: World)
    requires e in w.live
    ensures r.live.Keys == w.live.Keys - {e}
  {
    w.(live := w.live - {e}, freed := w.freed + {e}, trace := w.trace + [Freed(e)])
  }

  // ------------------------------------------------------------------
  //  Sending via the server
  // ------------------------------------------------------------------

  /** SendViaServerNormal: no ack will come, so the signal is terminal at once. Does not delete. */
  function SendNormal(w: World, e: Event): (r: World)
    requires e in w.live
    ensures r.live.Keys == w.live.Keys
  {
    Report(w, e, true, w.online, false)
  }

  /** SendViaServerAdvanced: the event waits for its ack in the cookie cache. */
  function SendAdvanced(w: World, e: Event, ctx: Ctx): (r: World)
    requires e in w.live
    ensures r.dcs == w.dcs && r.online == w.online
    ensures w.live.Keys - {e} <= r.live.Keys
  {
    if !w.online then Delete(Report(w, e, true, false, false), e)
    else
      var keys := set i | 0 <= i < |w.cookies| :: w.cookies[i].key;
      w.(cookies := C.Insert(w.cookies, C.Item(ctx.pick(keys), e, ctx.env.now, COOKIE_TIMEOUT)))
  }

  function SendViaServer(w: World, e: Event, ctx: Ctx): (r: World)
    requires e in w.live
    ensures r.dcs == w.dcs && r.online == w.online
    ensures w.live.Keys - {e} <= r.live.Keys
  {
    match w.live[e].kind
    case Normal | URL | Contacts =>
      if w.live[e].contact in w.advanced then SendAdvanced(w, e, ctx) else Delete(SendNormal(w, e), e)
    case AwayMessage =>
      if w.live[e].contact in w.advanced then SendAdvanced(w, e, ctx)
      else Delete(Report(w, e, true, false, false), e)
    case AuthReq | AuthAck | UserAdd => Delete(SendNormal(w, e), e)
  }

  /** DirectClient::expired_cb and Client::dc_messageack_cb: a message given up by a direct
      connection is signalled as unfinished and goes via the server instead. */
  function GiveUpDirect(w: World, e: Event, ctx: Ctx): (r: World)
    requires e in w.live
    ensures r.dcs == w.dcs && r.online == w.online
    ensures w.live.Keys - {e} <= r.live.Keys
  {
    var w1 := Report(w, e, false, false, true);
    SendViaServer(w1.(direct := w1.direct - {w1.live[e].contact}), e, ctx)
  }

  function GiveUpAll(w: World, es: seq<Event>, ctx: Ctx): (r: World)
    requires multiset(es) <= multiset(w.live.Keys)
    ensures r.dcs == w.dcs && r.online == w.online
    decreases |es|
  {
    if es == [] then w
    else
      assert es == [es[0]] + es[1..];
      assert es[0] in multiset(es);
      assert multiset(w.live.Keys - {es[0]}) == multiset(w.live.Keys) - multiset{es[0]};
      GiveUpAll(GiveUpDirect(w, es[0], ctx), es[1..], ctx)
  }

  // ------------------------------------------------------------------
  //  Ownership
  // ------------------------------------------------------------------

  function OwnedBy(c: Conn): multiset<Event> { multiset(c.queue) + multiset(Values(c.cache)) }

  function OwnedByAll(dcs: seq<C.Item<int, Conn>>): multiset<Event> {
    if dcs == [] then multiset{} else OwnedBy(dcs[0].value) + OwnedByAll(dcs[1..])
  }

  function Owned(w: World): multiset<Event> { OwnedByAll(w.dcs) + multiset(Values(w.cookies)) }

  /** Each terminal signal is directly followed by the delete of its event, a delete directly
      follows a terminal signal, and a deleted event is never mentioned again. */
  ghost predicate Settled(trace: seq<Obs>, freed: set<Event>) {
    && (forall i :: 0 <= i < |trace| && trace[i].Freed? ==>
          trace[i].ev in freed && i > 0
          && trace[i - 1].Signal? && trace[i - 1].ev == trace[i].ev && trace[i - 1].info.finished)
    && (forall i :: 0 <= i < |trace| && trace[i].Signal? && trace[i].info.finished ==>
          i + 1 < |trace| && trace[i + 1] == Freed(trace[i].ev))
    && (forall i, j :: 0 <= i < j < |trace| && trace[i].Freed? ==> trace[j].ev != trace[i].ev)
    && (forall e :: e in freed ==> Freed(e) in trace)
  }

  /** Every live event has exactly one owner among the direct queues, the direct ack caches and the
      cookie cache (and the `loose` events in hand); no deleted event has one. */
  ghost predicate Inv(w: World, loose: multiset<Event>) {
    && Owned(w) + loose == multiset(w.live.Keys)
    && w.live.Keys !! w.freed
    && Settled(w.trace, w.freed)
    && C.DistinctKeys(w.cookies)
    && forall i :: 0 <= i < |w.dcs| && w.dcs[i].value.state == Connected ==> w.dcs[i].value.queue == []
  }

  lemma SignalKeepsSettled(trace: seq<Obs>, freed: set<Event>, e: Event, info: Info)
    requires Settled(trace, freed) && e !in freed && !info.finished
    ensures Settled(trace + [Signal(e, info)], freed)
  {
  }

  lemma FinishKeepsSettled(trace: seq<Obs>, freed: set<Event>, e: Event, info: Info)
    requires Settled(trace, freed) && e !in freed && info.finished
    ensures Settled(trace + [Signal(e, info)] + [Freed(e)], freed + {e})
  {
    var t := trace + [Signal(e, info)] + [Freed(e)];
    assert t[|trace| + 1] == Freed(e) && t[|trace|] == Signal(e, info);
    assert forall i :: 0 <= i < |trace| ==> t[i] == trace[i];
    forall f | f in freed + {e} ensures Freed(f) in t {
      if f in freed { assert Freed(f) in trace; }
    }
  }

  lemma ValuesWith<K>(a: seq<C.Item<K, Event>>, t: C.Item<K, Event>, b: seq<C.Item<K, Event>>)
    ensures Values(a + [t] + b) == Values(a) + [t.value] + Values(b)
  {
  }

  lemma ValuesInsert<K>(l: seq<C.Item<K, Event>>, t: C.Item<K, Event>)
    ensures multiset(Values(C.Insert(l, t))) == multiset(Values(l)) + multiset{t.value}
  {
    hide C.InsertPos;
    var p := C.InsertPos(l, t.Expiry());
    ValuesSplit(l, p);
    ValuesWith(l[..p], t, l[p..]);
    hide Values;
    var a, b := Values(l[..p]), Values(l[p..]);
    assert multiset(a + [t.value] + b) == multiset(a + b) + multiset{t.value};
  }

  lemma ValuesRemoveAt<K>(l: seq<C.Item<K, Event>>, i: nat)
    requires i < |l|
    ensures multiset(Values(l)) == multiset(Values(C.RemoveAt(l, i))) + multiset{l[i].value}
  {
    var es := Values(l);
    assert es == es[..i] + [es[i]] + es[i + 1..];
    assert Values(C.RemoveAt(l, i)) == es[..i] + es[i + 1..];
  }

  lemma ValuesSplit<K>(l: seq<C.Item<K, Event>>, n: nat)
    requires n <= |l|
    ensures Values(l) == Values(l[..n]) + Values(l[n..])
  {
  }

  // ------------------------------------------------------------------
  //  Giving events up keeps ownership
  // ------------------------------------------------------------------

  /** An unfinished signal changes no ownership. */
  lemma ReportKeepsInv(w: World, loose: multiset<Event>, e: Event, direct: bool)
    requires Inv(w, loose) && e in w.live
    ensures Inv(Report(w, e, false, false, direct), loose)
  {
    var info := w.live[e].(finished := false, delivered := false, direct := direct);
    SignalKeepsSettled(w.trace, w.freed, e, info);
  }

  /** A terminal signal and the delete take a loose event out of the world. */
  lemma FinishKeepsInv(w: World, loose: multiset<Event>, e: Event, delivered: bool, direct: bool)
    requires Inv(w, loose) && e in loose && e in w.live
    ensures Inv(Delete(Report(w, e, true, delivered, direct), e), loose - multiset{e})
  {
    var info := w.live[e].(finished := true, delivered := delivered, direct := direct);
    FinishKeepsSettled(w.trace, w.freed, e, info);
    var w' := Delete(Report(w, e, true, delivered, direct), e);
    assert multiset(w'.live.Keys) == multiset(w.live.Keys) - multiset{e};
  }

  /** Entering the cookie cache under a fresh cookie. */
  lemma CookieKeepsInv(w: World, loose: multiset<Event>, t: C.Item<Cookie, Event>)
    requires Inv(w, loose) && t.value in loose
    requires forall i :: 0 <= i < |w.cookies| ==> w.cookies[i].key != t.key
    ensures Inv(w.(cookies := C.Insert(w.cookies, t)), loose - multiset{t.value})
  {
    hide Settled, OwnedByAll, C.Insert, C.DistinctKeys;
    C.InsertDistinct(w.cookies, t);
    ValuesInsert(w.cookies, t);
    var w' := w.(cookies := C.Insert(w.cookies, t));
    assert Owned(w') + (loose - multiset{t.value}) == Owned(w) + loose;
  }

  lemma SendViaServerKeepsInv(w: World, loose: multiset<Event>, e: Event, ctx: Ctx)
    requires Inv(w, loose) && PicksFresh(ctx)
    requires e in loose && e in w.live
    ensures Inv(SendViaServer(w, e, ctx), loose - multiset{e})
  {
    hide Inv, Report, Delete, C.Insert;
    FinishKeepsInv(w, loose, e, w.online, false);
    FinishKeepsInv(w, loose, e, false, false);
    var keys := set i | 0 <= i < |w.cookies| :: w.cookies[i].key;
    var t := C.Item(ctx.pick(keys), e, ctx.env.now, COOKIE_TIMEOUT);
    assert t.key !in keys;
    CookieKeepsInv(w, loose, t);
  }

  lemma GiveUpKeepsInv(w: World, loose: multiset<Event>, e: Event, ctx: Ctx)
    requires Inv(w, loose) && e in loose && e in w.live && PicksFresh(ctx)
    ensures Inv(GiveUpDirect(w, e, ctx), loose - multiset{e})
  {
    hide Settled, Owned, SendViaServer;
    ReportKeepsInv(w, loose, e, true);
    var w1 := Report(w, e, false, false, true);
    var w2 := w1.(direct := w1.direct - {w1.live[e].contact});
    assert Inv(w2, loose) by { OwnedReadsLists(w1, w2); }
    SendViaServerKeepsInv(w2, loose, e, ctx);
  }

  lemma OwnedReadsLists(w: World, w': World)
    requires w'.dcs == w.dcs && w'.cookies == w.cookies
    ensures Owned(w') == Owned(w)
  {
  }

  lemma {:induction false} GiveUpAllKeepsInv(w: World, loose: multiset<Event>, es: seq<Event>, ctx: Ctx)
    requires Inv(w, loose) && multiset(es) <= loose && multiset(es) <= multiset(w.live.Keys) && PicksFresh(ctx)
    ensures Inv(GiveUpAll(w, es, ctx), loose - multiset(es))
    decreases |es|
  {
    hide Inv, GiveUpDirect;
    if es == [] {
      assert loose - multiset(es) == loose;
    } else {
      assert es == [es[0]] + es[1..];
      assert es[0] in multiset(es);
      GiveUpKeepsInv(w, loose, es[0], ctx);
      GiveUpAllKeepsInv(GiveUpDirect(w, es[0], ctx), loose - multiset{es[0]}, es[1..], ctx);
      assert loose - multiset{es[0]} - multiset(es[1..]) == loose - multiset(es);
    }
  }

  // ------------------------------------------------------------------
  //  The connection list
  // ------------------------------------------------------------------

  lemma {:induction false} OwnedByAllAppend(a: seq<C.Item<int, Conn>>, b: seq<C.Item<int, Conn>>)
    ensures OwnedByAll(a + b) == OwnedByAll(a) + OwnedByAll(b)
  {
    hide OwnedBy;
    if a == [] {
      assert a + b == b;
    } else {
      assert (a + b)[1..] == a[1..] + b;
      OwnedByAllAppend(a[1..], b);
    }
  }

  lemma OwnedByAllWith(a: seq<C.Item<int, Conn>>, t: C.Item<int, Conn>, b: seq<C.Item<int, Conn>>)
    ensures OwnedByAll(a + [t] + b) == OwnedByAll(a + b) + OwnedBy(t.value)
  {
    hide OwnedBy;
    OwnedByAllAppend(a + [t], b);
    OwnedByAllAppend(a, [t]);
    OwnedByAllAppend(a, b);
    assert OwnedByAll([t]) == OwnedBy(t.value) by { assert [t][1..] == []; }
  }

  lemma OwnedByAllRemoveAt(dcs: seq<C.Item<int, Conn>>, i: nat)
    requires i < |dcs|
    ensures OwnedByAll(dcs) == OwnedByAll(C.RemoveAt(dcs, i)) + OwnedBy(dcs[i].value)
  {
    hide OwnedByAll, OwnedBy;
    var a, b := dcs[..i], dcs[i + 1..];
    assert dcs == a + [dcs[i]] + b;
    OwnedByAllWith(a, dcs[i], b);
    assert C.RemoveAt(dcs, i) == a + b;
  }

  lemma OwnedByAllInsert(dcs: seq<C.Item<int, Conn>>, t: C.Item<int, Conn>)
    ensures OwnedByAll(C.Insert(dcs, t)) == OwnedByAll(dcs) + OwnedBy(t.value)
  {
    hide OwnedByAll, OwnedBy, C.InsertPos;
    var p := C.InsertPos(dcs, t.Expiry());
    assert dcs == dcs[..p] + dcs[p..];
    OwnedByAllWith(dcs[..p], t, dcs[p..]);
  }

  /** Replacing one connection moves ownership by the difference. */
  lemma OwnedByAllUpdate(dcs: seq<C.Item<int, Conn>>, i: nat, c: Conn)
    requires i < |dcs|
    ensures OwnedByAll(Update(dcs, i, c)) + OwnedBy(dcs[i].value) == OwnedByAll(dcs) + OwnedBy(c)
  {
    OwnedByAllRemoveAt(dcs, i);
    OwnedByAllRemoveAt(Update(dcs, i, c), i);
    assert C.RemoveAt(Update(dcs, i, c), i) == C.RemoveAt(dcs, i);
  }

  function Update(dcs: seq<C.Item<int, Conn>>, i: nat, c: Conn): seq<C.Item<int, Conn>>
    requires i < |dcs|
  {
    dcs[i := dcs[i].(value := c)]
  }

  lemma SendOwns(c: Conn, e: Event, now: int)
    ensures OwnedBy(SendEvent(c, e, now)) == OwnedBy(c) + multiset{e}
    ensures SendEvent(c, e, now).state == c.state
    ensures c.state == Connected ==> SendEvent(c, e, now).queue == c.queue
  {
    ValuesInsert(c.cache, C.Item(c.seqnum, e, now, ACK_TIMEOUT));
  }

  lemma {:induction false} FlushOwns(c: Conn, now: int)
    ensures OwnedBy(FlushQueue(c, now)) == OwnedBy(c) && FlushQueue(c, now).state == c.state
    decreases |c.queue|
  {
    hide C.Insert;
    if c.queue != [] {
      var e := c.queue[0];
      var d := SendPacketEvent(c, e, now).(queue := c.queue[1..]);
      assert c.queue == [e] + c.queue[1..];
      ValuesInsert(c.cache, C.Item(c.seqnum, e, now, ACK_TIMEOUT));
      assert OwnedBy(d) == OwnedBy(c);
      FlushOwns(d, now);
    }
  }

  /** Establishing moves the queue into the ack cache; the handshake fields own nothing. */
  lemma EstablishOwns(c: Conn, c': Conn, now: int)
    requires c'.queue == c.queue && c'.cache == c.cache
    ensures OwnedBy(c') == OwnedBy(c) && OwnedBy(Establish(c', now)) == OwnedBy(c)
    ensures Establish(c', now).queue == []
  {
    FlushOwns(c'.(state := Connected), now);
  }

  /** The handshake only moves events from the queue into the ack cache. */
  lemma PacketOwns(c: Conn, p: seq<byte>, env: Env)
    requires c.state != Connected
    ensures var d := HandlePacket(c, p, env).0;
      OwnedBy(d) == OwnedBy(c) && (d.state == Connected ==> d.queue == [])
  {
    hide ParseInit2, ParseInitAck, INIT_ACK, Init2Packet, InitPacket, Establish, OwnedBy;
    match c.state
    case NotConnected =>
    case WaitingForInit =>
      var c1 := ParseInitPacket(c, p).0;
      var c2 := Write(c1, INIT_ACK);
      EstablishOwns(c, c1, env.now);
      EstablishOwns(c, c2, env.now);
      EstablishOwns(c, Write(c2, InitPacket(c2, env.host)).(state := WaitingForInitAck), env.now);
      EstablishOwns(c, Write(c2, Init2Packet(false)).(state := WaitingForInit2), env.now);
    case WaitingForInitAck =>
      EstablishOwns(c, c.(state := WaitingForInit), env.now);
      EstablishOwns(c, c.(state := WaitingForInit2), env.now);
      EstablishOwns(c, ConfirmUin(c, env.known).0, env.now);
    case WaitingForInit2 =>
      EstablishOwns(c, c, env.now);
      EstablishOwns(c, ConfirmUin(Write(c, Init2Packet(true)), env.known).0, env.now);
  }

  lemma LooseIsLive(w: World, loose: multiset<Event>, e: Event)
    requires Inv(w, loose) && e in loose
    ensures e in w.live && e !in w.freed
  {
    assert e in Owned(w) + loose;
    assert e in multiset(w.live.Keys);
  }

  // ------------------------------------------------------------------
  //  The operations; each is defined on worlds that satisfy the invariant, so no
  //  access is to a deleted event, and each keeps it
  // ------------------------------------------------------------------

  /** Deleting a direct connection: everything in its ack cache, then its queue, is given up. */
  ghost function Teardown(w: World, i: nat, ctx: Ctx): (r: World)
    requires Inv(w, multiset{}) && i < |w.dcs| && PicksFresh(ctx)
    ensures Inv(r, multiset{}) && r.dcs == C.RemoveAt(w.dcs, i) && r.online == w.online
  {
    TakeOut(w, i);
    GiveUpLoose(w.(dcs := C.RemoveAt(w.dcs, i)), Pending(w.dcs[i].value), ctx)
  }

  /** What a connection still holds, in the order its destructor deals with it. */
  function Pending(c: Conn): seq<Event> { Values(c.cache) + c.queue }

  /** Taking a connection out of the list makes its events loose. */
  lemma TakeOut(w: World, i: nat)
    requires Inv(w, multiset{}) && i < |w.dcs|
    ensures Inv(w.(dcs := C.RemoveAt(w.dcs, i)), multiset(Pending(w.dcs[i].value)))
  {
    hide OwnedByAll, Settled;
    OwnedByAllRemoveAt(w.dcs, i);
    assert multiset(Pending(w.dcs[i].value)) == OwnedBy(w.dcs[i].value);
    var w1 := w.(dcs := C.RemoveAt(w.dcs, i));
    assert Owned(w1) + multiset(Pending(w.dcs[i].value)) == Owned(w) + multiset{};
  }

  ghost function TeardownAll(w: World, ctx: Ctx): (r: World)
    requires Inv(w, multiset{}) && PicksFresh(ctx)
    ensures Inv(r, multiset{}) && r.dcs == [] && r.online == w.online
    decreases |w.dcs|
  {
    if w.dcs == [] then w else TeardownAll(Teardown(w, 0, ctx), ctx)
  }

  /** DCCache::removeContact. */
  ghost function TeardownContact(w: World, uin: uint, i: nat, ctx: Ctx): (r: World)
    requires Inv(w, multiset{}) && i <= |w.dcs| && PicksFresh(ctx)
    ensures Inv(r, multiset{})
    decreases |w.dcs| - i
  {
    if i == |w.dcs| then w
    else if w.dcs[i].value.contact == Some(uin) then TeardownContact(Teardown(w, i, ctx), uin, i, ctx)
    else TeardownContact(w, uin, i + 1, ctx)
  }

  /** DisconnectBOS: offline first, then all direct connections go. */
  ghost function ServerDisconnect(w: World, ctx: Ctx): (r: World)
    requires Inv(w, multiset{}) && PicksFresh(ctx)
    ensures Inv(r, multiset{}) && r.dcs == [] && !r.online
  {
    assert Inv(w.(online := false), multiset{}) by { OwnedReadsLists(w, w.(online := false)); }
    TeardownAll(w.(online := false), ctx)
  }

  /** An unanswered advanced message is sent again the normal way; that settles it. */
  ghost function ExpireCookie(w: World): (r: World)
    requires Inv(w, multiset{}) && w.cookies != []
    ensures Inv(r, multiset{}) && r.dcs == w.dcs && r.cookies == w.cookies[1..] && r.online == w.online
  {
    var e := w.cookies[0].value;
    var w1 := w.(cookies := w.cookies[1..]);
    ValuesRemoveAt(w.cookies, 0);
    assert C.RemoveAt(w.cookies, 0) == w.cookies[1..];
    assert e in multiset(Values(w.cookies));
    assert Inv(w1, multiset{e});
    LooseIsLive(w1, multiset{e}, e);
    FinishKeepsInv(w1, multiset{e}, e, w1.online, false);
    var w2 := Delete(SendNormal(w1, e), e);
    assert multiset{e} - multiset{e} == multiset{};
    var r := w2.(advanced := w2.advanced - {w.live[e].contact});
    OwnedReadsLists(w2, r);
    r
  }

  /** The overdue items of a list whose first item is overdue. */
  lemma AfterFirst<K, V>(l: seq<C.Item<K, V>>, now: int)
    requires l != [] && l[0].Expiry() < now
    ensures C.RemoveAt(l, 0) == l[1..]
    ensures l[C.ExpiredCount(l, now)..] == l[1..][C.ExpiredCount(l[1..], now)..]
  {
  }

  ghost function PollCookies(w: World, now: int): (r: World)
    requires Inv(w, multiset{})
    ensures Inv(r, multiset{}) && r.dcs == w.dcs && r.online == w.online
    ensures r.cookies == w.cookies[C.ExpiredCount(w.cookies, now)..]
    decreases |w.cookies|
  {
    hide Inv, ExpireCookie;
    if w.cookies == [] || w.cookies[0].Expiry() >= now then w
    else
      AfterFirst(w.cookies, now);
      PollCookies(ExpireCookie(w), now)
  }

  ghost function PollConnections(w: World, ctx: Ctx): (r: World)
    requires Inv(w, multiset{}) && PicksFresh(ctx)
    ensures Inv(r, multiset{})
    ensures r.dcs == w.dcs[C.ExpiredCount(w.dcs, ctx.env.now)..] && r.online == w.online
    ensures w.dcs == [] ==> r == w
    decreases |w.dcs|
  {
    hide Inv, Teardown;
    if w.dcs == [] || w.dcs[0].Expiry() >= ctx.env.now then w
    else
      AfterFirst(w.dcs, ctx.env.now);
      PollConnections(Teardown(w, 0, ctx), ctx)
  }

  lemma Cancel(a: multiset<Event>, b: multiset<Event>, c: multiset<Event>)
    requires a + c == b + c
    ensures a == b
  {
    forall e: Event ensures a[e] == b[e] { assert (a + c)[e] == (b + c)[e]; }
  }

  /** Taking events off a connection makes them loose. */
  lemma TakeOff(w: World, i: nat, c1: Conn, es: seq<Event>)
    requires Inv(w, multiset{}) && i < |w.dcs|
    requires OwnedBy(w.dcs[i].value) == OwnedBy(c1) + multiset(es)
    requires c1.state == Connected ==> c1.queue == []
    ensures Inv(w.(dcs := Update(w.dcs, i, c1)), multiset(es))
  {
    hide OwnedBy, Settled, OwnedByAll;
    OwnedByAllUpdate(w.dcs, i, c1);
    var a, a' := OwnedByAll(w.dcs), OwnedByAll(Update(w.dcs, i, c1));
    assert (a' + multiset(es)) + OwnedBy(c1) == a + OwnedBy(c1);
    Cancel(a' + multiset(es), a, OwnedBy(c1));
    var w' := w.(dcs := Update(w.dcs, i, c1));
    assert Owned(w') + multiset(es) == Owned(w);
  }

  /** Giving up all that is loose. */
  ghost function GiveUpLoose(w: World, es: seq<Event>, ctx: Ctx): (r: World)
    requires Inv(w, multiset(es)) && PicksFresh(ctx)
    ensures Inv(r, multiset{}) && r.dcs == w.dcs && r.online == w.online
  {
    assert multiset(es) <= Owned(w) + multiset(es);
    GiveUpAllKeepsInv(w, multiset(es), es, ctx);
    assert multiset(es) - multiset(es) == multiset{};
    GiveUpAll(w, es, ctx)
  }

  /** clearoutMessagesPoll on the i-th connection. */
  ghost function ExpireMessages(w: World, i: nat, ctx: Ctx): (r: World)
    requires Inv(w, multiset{}) && i < |w.dcs| && PicksFresh(ctx)
    ensures Inv(r, multiset{}) && |r.dcs| == |w.dcs|
  {
    var c := w.dcs[i].value;
    var n := C.ExpiredCount(c.cache, ctx.env.now);
    var c1 := c.(cache := c.cache[n..]);
    ValuesSplit(c.cache, n);
    TakeOff(w, i, c1, Values(c.cache[..n]));
    GiveUpLoose(w.(dcs := Update(w.dcs, i, c1)), Values(c.cache[..n]), ctx)
  }

  ghost function PollMessages(w: World, i: nat, ctx: Ctx): (r: World)
    requires Inv(w, multiset{}) && i <= |w.dcs| && PicksFresh(ctx)
    ensures Inv(r, multiset{})
    ensures w.dcs == [] ==> r == w
    decreases |w.dcs| - i
  {
    if i == |w.dcs| then w else PollMessages(ExpireMessages(w, i, ctx), i + 1, ctx)
  }

  /** The part of Client::Poll that touches messages. */
  ghost function Poll(w: World, ctx: Ctx): (r: World)
    requires Inv(w, multiset{}) && PicksFresh(ctx)
    ensures Inv(r, multiset{})
  {
    PollMessages(PollConnections(PollCookies(w, ctx.env.now), ctx), 0, ctx)
  }

  // ------------------------------------------------------------------
  //  Acks
  // ------------------------------------------------------------------

  /** handleIncomingACK: an away message request counts as delivered on any ack; an unknown
      accept status leaves the flag as it was. */
  function AckDelivered(info: Info, status: nat): bool {
    if info.kind == AwayMessage then true
    else
      match status
      case 0x0 | 0x4 | 0xC | 0xE => true
      case 0x1 | 0x9 | 0xA => false
      case _ => info.delivered
  }

  /** The accept statuses by what they mean (src/ICQ.h:69-75): online, away, taken in occupied, not available; and
      denied, occupied, do not disturb. */
  const ACCEPTING: set<nat> := {0x0, 0x4, 0xC, 0xE}
  const REFUSING: set<nat> := {0x1, 0x9, 0xA}

  /** An ack is favourable to a message if its status accepts, or says nothing and the flag was set; any ack is
      favourable to an away message request. */
  predicate Favourable(info: Info, status: nat) {
    info.kind.AwayMessage? || status in ACCEPTING || (status !in REFUSING && info.delivered)
  }

  lemma AckDeliveredIff(info: Info, status: nat)
    ensures AckDelivered(info, status) <==> Favourable(info, status)
  {
  }

  /** The message types whose acks SignalMessageACK takes: contact lists are not among them. */
  predicate AckTypeKnown(msgType: byte) {
    msgType == 0x01 || msgType == 0x04 || msgType == 0x03 || 0xE8 <= msgType <= 0xEC
  }

  /** SignalMessageACK. */
  ghost function ServerAck(w: World, k: Cookie, msgType: byte, status: nat): (r: World)
    requires Inv(w, multiset{})
    ensures Inv(r, multiset{})
  {
    var i := C.IndexOf(w.cookies, k);
    if !AckTypeKnown(msgType) || i == |w.cookies| then w
    else
      var e := w.cookies[i].value;
      var w1 := w.(cookies := C.RemoveAt(w.cookies, i));
      ValuesRemoveAt(w.cookies, i);
      assert Inv(w1, multiset{e});
      LooseIsLive(w1, multiset{e}, e);
      FinishKeepsInv(w1, multiset{e}, e, AckDelivered(w1.live[e], status), false);
      assert multiset{e} - multiset{e} == multiset{};
      Delete(Report(w1, e, true, AckDelivered(w1.live[e], status), false), e)
  }

  /** SignalMessageOfflineUser: reported, but neither finished nor taken out. */
  ghost function OfflineUser(w: World, k: Cookie): (r: World)
    requires Inv(w, multiset{})
    ensures Inv(r, multiset{})
  {
    var i := C.IndexOf(w.cookies, k);
    if i == |w.cookies| then w
    else
      var e := w.cookies[i].value;
      ValuesRemoveAt(w.cookies, i);
      LooseIsLiveOrOwned(w, e);
      ReportKeepsInv(w, multiset{}, e, false);
      Report(w, e, false, false, false)
  }

  lemma LooseIsLiveOrOwned(w: World, e: Event)
    requires Inv(w, multiset{}) && e in Owned(w)
    ensures e in w.live && e !in w.freed
  {
    assert e in Owned(w) + multiset{};
    assert e in multiset(w.live.Keys);
  }

  /** While the ids are fresh, no two waiting events share a cookie: the ack reaches the one sent under it. */
  lemma CookieIsUnique(w: World, i: nat)
    requires Inv(w, multiset{}) && i < |w.cookies|
    ensures C.IndexOf(w.cookies, w.cookies[i].key) == i
  {
  }

  /** An ack packet on a connected direct connection. */
  ghost function DirectAck(w: World, fd: int, s: ushort, status: nat): (r: World)
    requires Inv(w, multiset{})
    ensures Inv(r, multiset{})
  {
    var i := C.IndexOf(w.dcs, fd);
    if i == |w.dcs| || w.dcs[i].value.state != Connected then w
    else
      var (c1, ack) := Acknowledge(w.dcs[i].value, s);
      if ack.None? then w
      else
        var e := ack.value;
        ValuesRemoveAt(w.dcs[i].value.cache, C.IndexOf(w.dcs[i].value.cache, s));
        assert multiset([e]) == multiset{e};
        assert OwnedBy(w.dcs[i].value) == OwnedBy(c1) + multiset([e]);
        TakeOff(w, i, c1, [e]);
        var w1 := w.(dcs := Update(w.dcs, i, c1));
        LooseIsLive(w1, multiset{e}, e);
        FinishKeepsInv(w1, multiset{e}, e, AckDelivered(w1.live[e], status), true);
        assert multiset{e} - multiset{e} == multiset{};
        Delete(Report(w1, e, true, AckDelivered(w1.live[e], status), true), e)
  }

  // ------------------------------------------------------------------
  //  Submitting
  // ------------------------------------------------------------------

  /** What ConnectDirect finds when it has to open a connection. */
  datatype Route = NoRoute | Dial(fd: int, version: ushort, session: uint)

  function ByContact(dcs: seq<C.Item<int, Conn>>, uin: uint): (i: nat)
    ensures i <= |dcs|
    ensures i < |dcs| ==> dcs[i].value.contact == Some(uin)
  {
    if dcs == [] || dcs[0].value.contact == Some(uin) then 0 else 1 + ByContact(dcs[1..], uin)
  }

  lemma InsertMembers(l: seq<C.Item<int, Conn>>, t: C.Item<int, Conn>)
    ensures forall j :: 0 <= j < |C.Insert(l, t)| ==> C.Insert(l, t)[j] == t || C.Insert(l, t)[j] in l
  {
    var p, r := C.InsertPos(l, t.Expiry()), C.Insert(l, t);
    forall j | 0 <= j < |r| ensures r[j] == t || r[j] in l {
      assert r[j] == if j < p then l[j] else if j == p then t else l[j - 1];
    }
  }

  /** Adding a connection that owns nothing. */
  lemma AddConnection(w: World, loose: multiset<Event>, t: C.Item<int, Conn>)
    requires Inv(w, loose) && t.value.queue == [] && t.value.cache == []
    ensures Inv(w.(dcs := C.Insert(w.dcs, t)), loose)
  {
    hide Settled, OwnedByAll, C.Insert;
    OwnedByAllInsert(w.dcs, t);
    assert Values(t.value.cache) == [];
    assert OwnedBy(t.value) == multiset{};
    assert Owned(w.(dcs := C.Insert(w.dcs, t))) == Owned(w);
    InsertMembers(w.dcs, t);
  }

  /** The connection hands the loose event over to its queue or its wire. */
  ghost function GiveToConnection(w: World, i: nat, e: Event, now: int): (r: World)
    requires Inv(w, multiset{e}) && i < |w.dcs|
    ensures Inv(r, multiset{})
  {
    var c := w.dcs[i].value;
    SendOwns(c, e, now);
    PutOn(w, i, SendEvent(c, e, now), e);
    w.(dcs := Update(w.dcs, i, SendEvent(c, e, now)))
  }

  lemma PutOn(w: World, i: nat, c1: Conn, e: Event)
    requires Inv(w, multiset{e}) && i < |w.dcs|
    requires OwnedBy(c1) == OwnedBy(w.dcs[i].value) + multiset{e}
    requires c1.state == Connected ==> c1.queue == []
    ensures Inv(w.(dcs := Update(w.dcs, i, c1)), multiset{})
  {
    hide OwnedBy, Settled, OwnedByAll;
    OwnedByAllUpdate(w.dcs, i, c1);
    var b := OwnedBy(w.dcs[i].value);
    var a, a' := OwnedByAll(w.dcs), OwnedByAll(Update(w.dcs, i, c1));
    assert a' + b == (a + multiset{e}) + b;
    Cancel(a', a + multiset{e}, b);
    var w' := w.(dcs := Update(w.dcs, i, c1));
    assert Owned(w') + multiset{} == Owned(w) + multiset{e};
  }

  /** Client::SendEvent for an event the application has just created. */
  ghost function Submit(w: World, e: Event, info: Info, route: Route, ctx: Ctx): (r: World)
    requires Inv(w, multiset{}) && e !in w.live && e !in w.freed && PicksFresh(ctx)
    ensures Inv(r, multiset{}) && (e in r.live || e in r.freed)
  {
    hide Inv, C.Insert, SendEvent;
    var w1 := w.(live := w.live[e := info]);
    NewEvent(w, e, info);
    if info.kind.AuthReq? || info.kind.AuthAck? || info.kind.UserAdd? || info.contact !in w.direct then
      ViaServer(w1, e, ctx)
    else
      var i := ByContact(w.dcs, info.contact);
      if i < |w.dcs| then GiveToConnection(w1, i, e, ctx.env.now)
      else if route.NoRoute? then ViaServer(w1, e, ctx)
      else
        var (c, ok) := Connect(NewOutgoing(w.self, info.contact), route.version, route.session);
        if !ok then ViaServer(w1, e, ctx)
        else
          var t := C.Item(route.fd, c, ctx.env.now, CONNECTING_TIMEOUT);
          AddConnection(w1, multiset{e}, t);
          GiveToConnection(w1.(dcs := C.Insert(w1.dcs, t)), C.InsertPos(w1.dcs, t.Expiry()), e, ctx.env.now)
  }

  lemma SameOwned(w: World, w1: World)
    requires w1.dcs == w.dcs && w1.cookies == w.cookies
    ensures Owned(w1) == Owned(w)
  {
  }

  lemma NewEvent(w: World, e: Event, info: Info)
    requires Inv(w, multiset{}) && e !in w.live && e !in w.freed
    ensures Inv(w.(live := w.live[e := info]), multiset{e})
  {
    hide Settled, OwnedByAll, C.DistinctKeys;
    var w1 := w.(live := w.live[e := info]);
    assert w1.live.Keys == w.live.Keys + {e};
    hide Owned;
    assert Owned(w1) == Owned(w) by { SameOwned(w, w1); }
    assert Owned(w) + multiset{} == Owned(w);
    assert multiset(w.live.Keys + {e}) == multiset(w.live.Keys) + multiset{e};
  }

  ghost function ViaServer(w: World, e: Event, ctx: Ctx): (r: World)
    requires Inv(w, multiset{e}) && PicksFresh(ctx)
    ensures Inv(r, multiset{})
  {
    LooseIsLive(w, multiset{e}, e);
    SendViaServerKeepsInv(w, multiset{e}, e, ctx);
    assert multiset{e} - multiset{e} == multiset{};
    SendViaServer(w, e, ctx)
  }

  // ------------------------------------------------------------------
  //  Connections coming up
  // ------------------------------------------------------------------

  ghost function Accept(w: World, fd: int, now: int): (r: World)
    requires Inv(w, multiset{})
    ensures Inv(r, multiset{})
  {
    var t := C.Item(fd, NewIncoming(w.self), now, CONNECTING_TIMEOUT);
    AddConnection(w, multiset{}, t);
    w.(dcs := C.Insert(w.dcs, t))
  }

  /** A handshake packet: an exception tears the connection down, completing it raises its timeout. */
  ghost function Packet(w: World, fd: int, bytes: seq<byte>, ctx: Ctx): (r: World)
    requires Inv(w, multiset{}) && PicksFresh(ctx)
    ensures Inv(r, multiset{})
  {
    var i := C.IndexOf(w.dcs, fd);
    if i == |w.dcs| || w.dcs[i].value.state == Connected then w
    else
      var (c1, ok) := HandlePacket(w.dcs[i].value, bytes, ctx.env);
      PacketOwns(w.dcs[i].value, bytes, ctx.env);
      var none: seq<Event> := [];
      assert OwnedBy(c1) + multiset(none) == OwnedBy(c1);
      TakeOff(w, i, c1, none);
      assert multiset(none) == multiset{};
      var w1 := w.(dcs := Update(w.dcs, i, c1));
      if !ok then Teardown(w1, i, ctx)
      else if c1.state == Connected then
        RefileConnection(w1, fd, CONNECTED_TIMEOUT);
        w1.(dcs := C.SetTimeout(w1.dcs, fd, CONNECTED_TIMEOUT))
      else w1
  }

  lemma RefileConnection(w: World, fd: int, s: nat)
    requires Inv(w, multiset{})
    ensures Inv(w.(dcs := C.SetTimeout(w.dcs, fd, s)), multiset{})
  {
    hide OwnedBy, Settled, OwnedByAll;
    var i := C.IndexOf(w.dcs, fd);
    if i < |w.dcs| {
      var t := w.dcs[i].(timeout := s);
      OwnedByAllRemoveAt(w.dcs, i);
      OwnedByAllInsert(C.RemoveAt(w.dcs, i), t);
      var w' := w.(dcs := C.SetTimeout(w.dcs, fd, s));
      assert Owned(w') == Owned(w);
      InsertMembers(C.RemoveAt(w.dcs, i), t);
    }
  }
}
