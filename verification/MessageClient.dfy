/** The Client object as far as it delivers messages (src/Client.cpp), with the destructor of
    DirectClient, proved against the functions of Delivery. Signals are direct calls. */
module MessageClient {
  import opened Wrappers
  import opened Buffers
  import D = DirectConn
  import opened DirectClients
  import DirectOrder
  import opened Delivery
  import C = Cache

  type Event = D.Event
  type ConnItem = C.Item<int, DirectClient>

  function Objects(l: seq<ConnItem>): set<DirectClient> { set i | 0 <= i < |l| :: l[i].value }

  ghost function AbsItem(t: ConnItem): C.Item<int, D.Conn>
    reads t.value
  {
    C.Item(t.key, t.value.Abs(), t.timestamp, t.timeout)
  }

  /** The connection list with every object replaced by its value. */
  ghost function AbsList(l: seq<ConnItem>): (r: seq<C.Item<int, D.Conn>>)
    reads Objects(l)
    ensures |r| == |l| && forall i :: 0 <= i < |l| ==> r[i] == AbsItem(l[i])
  {
    if l == [] then []
    else
      assert forall i :: 0 <= i < |l[1..]| ==> l[1..][i] == l[i + 1];
      [AbsItem(l[0])] + AbsList(l[1..])
  }

  function Splice<T>(l: seq<T>, p: nat, t: T): (r: seq<T>)
    requires p <= |l|
    ensures |r| == |l| + 1
  {
    l[..p] + [t] + l[p..]
  }

  lemma SpliceAt<T>(l: seq<T>, p: nat, t: T, j: nat)
    requires p <= |l| && j <= |l|
    ensures Splice(l, p, t)[j] == if j < p then l[j] else if j == p then t else l[j - 1]
  {
  }

  lemma RemovedAt<T>(l: seq<T>, i: nat, j: nat)
    requires i < |l| && j < |l| - 1
    ensures |C.RemoveAt(l, i)| == |l| - 1 && C.RemoveAt(l, i)[j] == if j < i then l[j] else l[j + 1]
  {
  }

  lemma RemovedLength<T>(l: seq<T>, i: nat)
    requires i < |l|
    ensures |C.RemoveAt(l, i)| == |l| - 1
  {
  }

  lemma AbsRemoveAt(l: seq<ConnItem>, i: nat)
    requires i < |l|
    ensures AbsList(C.RemoveAt(l, i)) == C.RemoveAt(AbsList(l), i)
  {
    hide AbsItem, AbsList, C.RemoveAt;
    var x, y := AbsList(C.RemoveAt(l, i)), C.RemoveAt(AbsList(l), i);
    RemovedLength(l, i);
    RemovedLength(AbsList(l), i);
    forall j | 0 <= j < |l| - 1 ensures x[j] == y[j] {
      RemovedAt(l, i, j);
      RemovedAt(AbsList(l), i, j);
    }
  }

  lemma {:induction false} AbsInsertPos(l: seq<ConnItem>, exp: int)
    ensures C.InsertPos(AbsList(l), exp) == C.InsertPos(l, exp)
  {
    var a := AbsList(l);
    if l != [] && l[|l| - 1].Expiry() >= exp {
      AbsInsertPos(l[..|l| - 1], exp);
      assert AbsList(l[..|l| - 1]) == a[..|l| - 1];
    }
  }

  lemma AbsInsert(l: seq<ConnItem>, t: ConnItem)
    ensures AbsList(C.Insert(l, t)) == C.Insert(AbsList(l), AbsItem(t))
  {
    AbsInsertPos(l, t.Expiry());
    AbsItemExpiry(t);
    hide AbsItem, AbsList, C.InsertPos, Splice;
    AbsSplice(l, C.InsertPos(l, t.Expiry()), t);
    InsertIs(l, t);
    InsertIs(AbsList(l), AbsItem(t));
    hide C.Insert;
  }

  lemma InsertIs<V>(l: seq<C.Item<int, V>>, t: C.Item<int, V>)
    ensures C.Insert(l, t) == Splice(l, C.InsertPos(l, t.Expiry()), t)
  {
  }

  lemma AbsSplice(l: seq<ConnItem>, p: nat, t: ConnItem)
    requires p <= |l|
    ensures AbsList(Splice(l, p, t)) == Splice(AbsList(l), p, AbsItem(t))
  {
    hide AbsItem, AbsList, Splice;
    var x, y := AbsList(Splice(l, p, t)), Splice(AbsList(l), p, AbsItem(t));
    forall j | 0 <= j < |l| + 1 ensures x[j] == y[j] {
      SpliceAt(l, p, t, j);
      SpliceAt(AbsList(l), p, AbsItem(t), j);
    }
  }

  lemma AbsItemExpiry(t: ConnItem)
    ensures AbsItem(t).Expiry() == t.Expiry()
  {
  }

  lemma {:induction false} AbsIndexOf(l: seq<ConnItem>, k: int)
    ensures C.IndexOf(AbsList(l), k) == C.IndexOf(l, k)
  {
    if l != [] && l[0].key != k {
      AbsIndexOf(l[1..], k);
      assert AbsList(l[1..]) == AbsList(l)[1..];
    }
  }

  lemma {:induction false} AbsByContact(l: seq<ConnItem>, uin: uint, i: nat)
    requires i <= |l| && forall j :: 0 <= j < i ==> l[j].value.contact != Some(uin)
    requires i < |l| ==> l[i].value.contact == Some(uin)
    ensures ByContact(AbsList(l), uin) == i
  {
    if i > 0 {
      AbsByContact(l[1..], uin, i - 1);
      assert AbsList(l[1..]) == AbsList(l)[1..];
    }
  }

  lemma ReportIgnores(w: World, dcs: seq<C.Item<int, D.Conn>>, e: Event, finished: bool, delivered: bool, isDirect: bool)
    requires e in w.live
    ensures Report(w.(dcs := dcs), e, finished, delivered, isDirect)
         == Report(w, e, finished, delivered, isDirect).(dcs := dcs)
  {
  }

  lemma SendViaServerIgnoresConnections(w: World, dcs: seq<C.Item<int, D.Conn>>, e: Event, ctx: Ctx)
    requires e in w.live
    ensures Delivery.SendViaServer(w.(dcs := dcs), e, ctx) == Delivery.SendViaServer(w, e, ctx).(dcs := dcs)
  {
    hide C.Insert, Report;
    ReportIgnores(w, dcs, e, true, false, false);
    ReportIgnores(w, dcs, e, true, true, false);
  }

  /** Giving an event up does not look at the connections. */
  lemma GiveUpIgnoresConnections(w: World, dcs: seq<C.Item<int, D.Conn>>, e: Event, ctx: Ctx)
    requires e in w.live
    ensures GiveUpDirect(w.(dcs := dcs), e, ctx) == GiveUpDirect(w, e, ctx).(dcs := dcs)
  {
    var w1 := Report(w, e, false, false, true);
    SendViaServerIgnoresConnections(w1.(direct := w1.direct - {w1.live[e].contact}), dcs, e, ctx);
    hide Delivery.SendViaServer;
  }

  lemma GiveUpFirst(w: World, es: seq<Event>, ctx: Ctx)
    requires es != [] && Inv(w, multiset(es)) && PicksFresh(ctx)
    ensures es[0] in w.live
    ensures var w1 := GiveUpDirect(w, es[0], ctx);
      Inv(w1, multiset(es[1..])) && GiveUpLoose(w, es, ctx) == GiveUpLoose(w1, es[1..], ctx)
  {
    hide Inv, GiveUpDirect;
    assert es == [es[0]] + es[1..];
    assert es[0] in multiset(es);
    LooseIsLive(w, multiset(es), es[0]);
    GiveUpKeepsInv(w, multiset(es), es[0], ctx);
    assert multiset(es) - multiset{es[0]} == multiset(es[1..]);
  }

  class Client {
    const self: uint
    var online: bool
    var dccache: seq<ConnItem>
    var cookies: seq<C.Item<Cookie, Event>>
    /** The heap: the MessageEvent objects that have not been deleted. */
    var events: map<Event, Info>
    ghost var freed: set<Event>
    ghost var trace: seq<Obs>
    var direct: set<uint>
    var advanced: set<uint>

    ghost function Abs(): World
      reads this, Objects(dccache)
    {
      World(self, online, AbsList(dccache), cookies, events, freed, trace, direct, advanced)
    }

    /** No connection object is listed twice. */
    ghost predicate Valid()
      reads this
    {
      DistinctObjects(dccache)
    }

    constructor (uin: uint)
      ensures Valid() && Abs() == World(uin, false, [], [], map[], {}, [], {}, {})
    {
      self, online, dccache, cookies, events := uin, false, [], [], map[];
      freed, trace, direct, advanced := {}, [], {}, {};
    }

    // -- events --

    method Signal(e: Event, finished: bool, delivered: bool, isDirect: bool)
      requires e in events
      modifies `events, `trace
      ensures Abs() == Report(old(Abs()), e, finished, delivered, isDirect)
    {
      var info := events[e].(finished := finished, delivered := delivered, direct := isDirect);
      events := events[e := info];
      trace := trace + [Obs.Signal(e, info)];
    }

    method DeleteEvent(e: Event)
      requires e in events
      modifies `events, `freed, `trace
      ensures Abs() == Delete(old(Abs()), e)
    {
      events := events - {e};
      freed := freed + {e};
      trace := trace + [Freed(e)];
    }

    // -- sending via the server --

    method SendViaServerNormal(e: Event)
      requires e in events
      modifies `events, `trace
      ensures Abs() == SendNormal(old(Abs()), e)
    {
      if !online {
        Signal(e, true, false, false);
      } else {
        Signal(e, true, true, false);
      }
    }

    method SendViaServerAdvanced(e: Event, ctx: Ctx)
      requires e in events
      modifies `events, `freed, `trace, `cookies
      ensures Abs() == SendAdvanced(old(Abs()), e, ctx)
    {
      if !online {
        Signal(e, true, false, false);
        DeleteEvent(e);
        return;
      }
      var ck := ctx.pick(set i | 0 <= i < |cookies| :: cookies[i].key);
      cookies := C.Insert(cookies, C.Item(ck, e, ctx.env.now, COOKIE_TIMEOUT));
    }

    method SendViaServer(e: Event, ctx: Ctx)
      requires e in events
      modifies `events, `freed, `trace, `cookies
      ensures Abs() == Delivery.SendViaServer(old(Abs()), e, ctx)
    {
      var info := events[e];
      if info.kind.Normal? || info.kind.URL? || info.kind.Contacts? {
        if info.contact in advanced {
          SendViaServerAdvanced(e, ctx);
        } else {
          SendViaServerNormal(e);
          DeleteEvent(e);
        }
      } else if info.kind.AwayMessage? {
        if info.contact in advanced {
          SendViaServerAdvanced(e, ctx);
        } else {
          Signal(e, true, false, false);
          DeleteEvent(e);
        }
      } else {
        SendViaServerNormal(e);
        DeleteEvent(e);
      }
    }

    /** expired_cb on the connection's side, dc_messageack_cb on this side. */
    method MessageExpired(e: Event, ctx: Ctx)
      requires e in events
      modifies `events, `freed, `trace, `cookies, `direct
      ensures Abs() == GiveUpDirect(old(Abs()), e, ctx)
    {
      hide AbsList, Delivery.SendViaServer;
      ghost var w := Abs();
      Signal(e, false, false, true);
      ghost var w1 := Abs();
      assert w1 == Report(w, e, false, false, true);
      if !events[e].finished {
        direct := direct - {events[e].contact};
        assert Abs() == w1.(direct := w1.direct - {w1.live[e].contact});
        SendViaServer(e, ctx);
      }
    }

    // -- deleting connections --

    /** The world without the i-th connection. */
    ghost function Sans(i: nat): World
      requires i < |dccache|
      reads this, Objects(dccache)
    {
      Abs().(dcs := C.RemoveAt(AbsList(dccache), i))
    }

    /** Changing the i-th connection object leaves the rest of the list as it was. */
    twostate lemma OthersUnchanged(i: nat)
      requires i < |dccache| && dccache == old(dccache) && Valid()
      requires forall j :: 0 <= j < |dccache| && j != i ==> unchanged(dccache[j].value)
      ensures C.RemoveAt(AbsList(dccache), i) == old(C.RemoveAt(AbsList(dccache), i))
    {
      hide AbsList;
      var l := dccache;
      assert forall j :: 0 <= j < |l| && j != i ==> AbsItem(l[j]) == old(AbsItem(l[j]));
    }

    /** What is still to be given up leads to the same result as before. */
    ghost predicate OnCourse(i: nat, ctx: Ctx, result: World)
      requires i < |dccache| && PicksFresh(ctx)
      reads this, Objects(dccache)
    {
      var es := Pending(dccache[i].value.Abs());
      Inv(Sans(i), multiset(es)) && GiveUpLoose(Sans(i), es, ctx) == result
    }

    /** Deletes the i-th connection; its destructor gives up what it holds. */
    method DeleteConnection(i: nat, ctx: Ctx)
      requires Valid() && Inv(Abs(), multiset{}) && PicksFresh(ctx) && i < |dccache|
      modifies this, Objects(dccache)
      ensures Valid() && Abs() == Teardown(old(Abs()), i, ctx)
      ensures dccache == C.RemoveAt(old(dccache), i)
    {
      hide Inv, GiveUpLoose, OnCourse, AbsList, AbsItem, Teardown;
      var dc := dccache[i].value;
      ghost var result := Teardown(Abs(), i, ctx);
      StartCourse(i, ctx, result);
      while dc.cache != []
        invariant dccache == old(dccache) && OnCourse(i, ctx, result)
        decreases |dc.cache|
      {
        GiveUpCached(i, ctx, result);
      }
      while dc.queue != []
        invariant dccache == old(dccache) && dc.cache == [] && OnCourse(i, ctx, result)
        decreases |dc.queue|
      {
        GiveUpQueued(i, ctx, result);
      }
      EndCourse(i, ctx, result);
      AbsRemoveAt(dccache, i);
      dccache := C.RemoveAt(dccache, i);
    }

    lemma OnCourseMeans(i: nat, ctx: Ctx, result: World)
      requires i < |dccache| && PicksFresh(ctx) && OnCourse(i, ctx, result)
      ensures var es := Pending(dccache[i].value.Abs());
        Inv(Sans(i), multiset(es)) && GiveUpLoose(Sans(i), es, ctx) == result
    {
    }

    lemma StartCourse(i: nat, ctx: Ctx, result: World)
      requires Inv(Abs(), multiset{}) && PicksFresh(ctx) && i < |dccache|
      requires result == Teardown(Abs(), i, ctx)
      ensures OnCourse(i, ctx, result)
    {
      TakeOut(Abs(), i);
    }

    lemma EndCourse(i: nat, ctx: Ctx, result: World)
      requires i < |dccache| && PicksFresh(ctx) && OnCourse(i, ctx, result)
      requires dccache[i].value.cache == [] && dccache[i].value.queue == []
      ensures Sans(i) == result
    {
      assert Pending(dccache[i].value.Abs()) == [];
    }

    /** Once the head of what is pending has been given up, the course goes on from there. */
    lemma NextOnCourse(w: World, es: seq<Event>, ctx: Ctx, i: nat, result: World)
      requires i < |dccache| && PicksFresh(ctx) && es != []
      requires Inv(w, multiset(es)) && GiveUpLoose(w, es, ctx) == result && es[0] in w.live
      requires Sans(i) == GiveUpDirect(w, es[0], ctx) && Pending(dccache[i].value.Abs()) == es[1..]
      ensures OnCourse(i, ctx, result)
    {
      hide Inv, GiveUpDirect, GiveUpLoose;
      GiveUpFirst(w, es, ctx);
    }

    method GiveUpCached(i: nat, ctx: Ctx, ghost result: World)
      requires Valid() && PicksFresh(ctx) && i < |dccache|
      requires dccache[i].value.cache != [] && OnCourse(i, ctx, result)
      modifies this`events, this`freed, this`trace, this`cookies, this`direct, dccache[i].value`cache
      ensures dccache[i].value.cache == old(dccache[i].value.cache)[1..]
      ensures OnCourse(i, ctx, result)
    {
      hide Inv, GiveUpDirect, GiveUpLoose, AbsList, AbsItem, OnCourse;
      var dc := dccache[i].value;
      OnCourseMeans(i, ctx, result);
      ghost var es, w := Pending(dc.Abs()), Sans(i);
      GiveUpFirst(w, es, ctx);
      GiveUpIgnoresConnections(Abs(), w.dcs, es[0], ctx);
      MessageExpired(dc.cache[0].value, ctx);
      dc.cache := dc.cache[1..];
      assert Pending(dc.Abs()) == es[1..];
      OthersUnchanged(i);
      NextOnCourse(w, es, ctx, i, result);
    }

    method GiveUpQueued(i: nat, ctx: Ctx, ghost result: World)
      requires Valid() && PicksFresh(ctx) && i < |dccache|
      requires dccache[i].value.cache == [] && dccache[i].value.queue != [] && OnCourse(i, ctx, result)
      modifies this`events, this`freed, this`trace, this`cookies, this`direct, dccache[i].value`queue
      ensures dccache[i].value.queue == old(dccache[i].value.queue)[1..]
      ensures OnCourse(i, ctx, result)
    {
      hide Inv, GiveUpDirect, GiveUpLoose, AbsList, AbsItem, OnCourse;
      var dc := dccache[i].value;
      OnCourseMeans(i, ctx, result);
      ghost var es, w := Pending(dc.Abs()), Sans(i);
      GiveUpFirst(w, es, ctx);
      GiveUpIgnoresConnections(Abs(), w.dcs, es[0], ctx);
      MessageExpired(dc.queue[0], ctx);
      dc.queue := dc.queue[1..];
      assert Pending(dc.Abs()) == es[1..];
      OthersUnchanged(i);
      NextOnCourse(w, es, ctx, i, result);
    }

    method DeleteAllConnections(ctx: Ctx)
      requires Valid() && Inv(Abs(), multiset{}) && PicksFresh(ctx)
      modifies this, Objects(dccache)
      ensures Valid() && Abs() == TeardownAll(old(Abs()), ctx) && dccache == []
    {
      hide Inv, Teardown, AbsList;
      ghost var result := TeardownAll(Abs(), ctx);
      while dccache != []
        invariant Valid() && Inv(Abs(), multiset{}) && TeardownAll(Abs(), ctx) == result
        invariant Objects(dccache) <= old(Objects(dccache))
        decreases |dccache|
      {
        ShrinkObjects(dccache, 0);
        DeleteConnection(0, ctx);
      }
    }

    /** DCCache::removeContact. */
    method DeleteContactConnections(uin: uint, ctx: Ctx)
      requires Valid() && Inv(Abs(), multiset{}) && PicksFresh(ctx)
      modifies this, Objects(dccache)
      ensures Valid() && Abs() == TeardownContact(old(Abs()), uin, 0, ctx)
    {
      hide Inv, Teardown, AbsList;
      ghost var result := TeardownContact(Abs(), uin, 0, ctx);
      var curr := 0;
      while curr < |dccache|
        invariant Valid() && Inv(Abs(), multiset{}) && curr <= |dccache|
        invariant TeardownContact(Abs(), uin, curr, ctx) == result
        invariant Objects(dccache) <= old(Objects(dccache))
        decreases |dccache| - curr
      {
        if dccache[curr].value.contact == Some(uin) {
          ShrinkObjects(dccache, curr);
          DeleteConnection(curr, ctx);
        } else {
          curr := curr + 1;
        }
      }
    }

    method DisconnectBos(ctx: Ctx)
      requires Valid() && Inv(Abs(), multiset{}) && PicksFresh(ctx)
      modifies this, Objects(dccache)
      ensures Valid() && Abs() == ServerDisconnect(old(Abs()), ctx)
    {
      online := false;
      OwnedReadsLists(old(Abs()), Abs());
      DeleteAllConnections(ctx);
    }

    /** DisconnectAuthorizer: the direct connections stay. */
    method DisconnectAuthorizer()
      modifies `online
      ensures Abs() == old(Abs()).(online := false)
    {
      online := false;
    }

    // -- polling --

    /** expireItem of the cookie cache: sent again the normal way, then deleted. */
    method ExpireFirstCookie()
      requires Inv(Abs(), multiset{}) && cookies != []
      modifies `events, `freed, `trace, `cookies, `advanced
      ensures Abs() == ExpireCookie(old(Abs()))
    {
      hide Inv, ExpireCookie, AbsList, SendNormal;
      var e := cookies[0].value;
      FirstCookieIsLive(Abs());
      ExpireCookieIs(Abs());
      SendViaServerNormal(e);
      SendNormalKeeps(old(Abs()), e);
      advanced := advanced - {events[e].contact};
      DeleteEvent(e);
      cookies := cookies[1..];
    }

    method PollCookieCache(now: int)
      requires Inv(Abs(), multiset{})
      modifies `events, `freed, `trace, `cookies, `advanced
      ensures Abs() == PollCookies(old(Abs()), now)
    {
      hide Inv, ExpireCookie, AbsList;
      ghost var result := PollCookies(Abs(), now);
      while cookies != [] && cookies[0].Expiry() < now
        invariant Inv(Abs(), multiset{}) && PollCookies(Abs(), now) == result
        decreases |cookies|
      {
        ExpireFirstCookie();
      }
    }

    method PollDcCache(ctx: Ctx)
      requires Valid() && Inv(Abs(), multiset{}) && PicksFresh(ctx)
      modifies this, Objects(dccache)
      ensures Valid() && Abs() == PollConnections(old(Abs()), ctx)
      ensures Objects(dccache) <= old(Objects(dccache))
    {
      hide Inv, Teardown, AbsList;
      ghost var result := PollConnections(Abs(), ctx);
      while dccache != [] && dccache[0].Expiry() < ctx.env.now
        invariant Valid() && Inv(Abs(), multiset{}) && PollConnections(Abs(), ctx) == result
        invariant Objects(dccache) <= old(Objects(dccache))
        decreases |dccache|
      {
        ShrinkObjects(dccache, 0);
        DeleteConnection(0, ctx);
      }
    }

    /** The world in which the i-th connection's ack cache is `rest`. */
    ghost function WithCache(i: nat, rest: seq<C.Item<ushort, Event>>): World
      requires i < |dccache|
      reads this, Objects(dccache)
    {
      Abs().(dcs := Update(AbsList(dccache), i, dccache[i].value.Abs().(cache := rest)))
    }

    ghost predicate Expiring(i: nat, n: nat, rest: seq<C.Item<ushort, Event>>, ctx: Ctx, result: World)
      requires i < |dccache| && PicksFresh(ctx)
      reads this, Objects(dccache)
    {
      var cache := dccache[i].value.cache;
      && n <= |cache| && cache[n..] == rest && n == C.ExpiredCount(cache, ctx.env.now)
      && Inv(WithCache(i, rest), multiset(Values(cache[..n])))
      && GiveUpLoose(WithCache(i, rest), Values(cache[..n]), ctx) == result
    }

    method ClearoutMessages(i: nat, ctx: Ctx)
      requires Valid() && Inv(Abs(), multiset{}) && PicksFresh(ctx) && i < |dccache|
      modifies this, Objects(dccache)
      ensures Valid() && dccache == old(dccache) && Abs() == ExpireMessages(old(Abs()), i, ctx)
    {
      hide Inv, GiveUpLoose, Expiring, AbsList, AbsItem, ExpireMessages;
      var dc := dccache[i].value;
      ghost var n: nat := C.ExpiredCount(dc.cache, ctx.env.now);
      ghost var rest := dc.cache[n..];
      ghost var result := ExpireMessages(Abs(), i, ctx);
      StartExpiring(i, n, rest, ctx, result);
      while dc.cache != [] && dc.cache[0].Expiry() < ctx.env.now
        invariant dccache == old(dccache) && Expiring(i, n, rest, ctx, result)
        decreases |dc.cache|
      {
        ExpireFirstMessage(i, n, rest, ctx, result);
        n := n - 1;
      }
      EndExpiring(i, n, rest, ctx, result);
    }

    lemma StartExpiring(i: nat, n: nat, rest: seq<C.Item<ushort, Event>>, ctx: Ctx, result: World)
      requires Inv(Abs(), multiset{}) && PicksFresh(ctx) && i < |dccache|
      requires n == C.ExpiredCount(dccache[i].value.cache, ctx.env.now) && rest == dccache[i].value.cache[n..]
      requires result == ExpireMessages(Abs(), i, ctx)
      ensures Expiring(i, n, rest, ctx, result)
    {
      hide Inv, GiveUpLoose, AbsList;
      var c := dccache[i].value.Abs();
      ValuesSplit(c.cache, n);
      ConnectionRests(Abs(), i);
      TakeOff(Abs(), i, c.(cache := rest), Values(c.cache[..n]));
    }

    lemma EndExpiring(i: nat, n: nat, rest: seq<C.Item<ushort, Event>>, ctx: Ctx, result: World)
      requires i < |dccache| && PicksFresh(ctx) && Expiring(i, n, rest, ctx, result)
      requires dccache[i].value.cache == [] || dccache[i].value.cache[0].Expiry() >= ctx.env.now
      ensures Abs() == result
    {
      hide Inv, AbsList;
      assert n == 0;
      assert dccache[i].value.cache == rest;
      assert Update(AbsList(dccache), i, dccache[i].value.Abs()) == AbsList(dccache);
    }

    method ExpireFirstMessage(i: nat, ghost n: nat, ghost rest: seq<C.Item<ushort, Event>>, ctx: Ctx, ghost result: World)
      requires Valid() && PicksFresh(ctx) && i < |dccache| && Expiring(i, n, rest, ctx, result)
      requires dccache[i].value.cache != [] && dccache[i].value.cache[0].Expiry() < ctx.env.now
      modifies this`events, this`freed, this`trace, this`cookies, this`direct, dccache[i].value`cache
      ensures n > 0 && Expiring(i, n - 1, rest, ctx, result)
      ensures dccache[i].value.cache == old(dccache[i].value.cache)[1..]
    {
      hide Inv, GiveUpDirect, GiveUpLoose, AbsList;
      var dc := dccache[i].value;
      ghost var cache, w := dc.cache, WithCache(i, rest);
      ghost var es := Values(cache[..n]);
      GiveUpFirst(w, es, ctx);
      GiveUpIgnoresConnections(Abs(), w.dcs, es[0], ctx);
      MessageExpired(dc.cache[0].value, ctx);
      dc.cache := dc.cache[1..];
      assert Values(dc.cache[..n - 1]) == es[1..] && dc.cache[n - 1..] == rest;
      OthersUnchanged(i);
      assert WithCache(i, rest) == GiveUpDirect(w, es[0], ctx) by { SameUpdate(w, i, rest); }
    }

    /** A list of connections is fixed by one of them and the rest. */
    lemma SameUpdate(w: World, i: nat, rest: seq<C.Item<ushort, Event>>)
      requires i < |dccache| && |w.dcs| == |dccache|
      requires C.RemoveAt(w.dcs, i) == C.RemoveAt(AbsList(dccache), i)
      requires w.dcs[i] == AbsItem(dccache[i]).(value := dccache[i].value.Abs().(cache := rest))
      ensures Update(AbsList(dccache), i, dccache[i].value.Abs().(cache := rest)) == w.dcs
    {
      hide AbsList;
      var u, l := Update(AbsList(dccache), i, dccache[i].value.Abs().(cache := rest)), AbsList(dccache);
      forall j | 0 <= j < |l| ensures u[j] == w.dcs[j] {
        if j < i { assert C.RemoveAt(w.dcs, i)[j] == w.dcs[j] && C.RemoveAt(l, i)[j] == l[j]; }
        if j > i { assert C.RemoveAt(w.dcs, i)[j - 1] == w.dcs[j] && C.RemoveAt(l, i)[j - 1] == l[j]; }
      }
    }

    method PollClient(ctx: Ctx)
      requires Valid() && Inv(Abs(), multiset{}) && PicksFresh(ctx)
      modifies this, Objects(dccache)
      ensures Valid() && Abs() == Poll(old(Abs()), ctx)
    {
      hide Inv, ExpireMessages, PollCookies, PollConnections, AbsList;
      PollCookieCache(ctx.env.now);
      PollDcCache(ctx);
      ghost var result := PollMessages(Abs(), 0, ctx);
      var i := 0;
      label start: assert Objects(dccache) <= old(Objects(dccache));
      while i < |dccache|
        invariant Valid() && Inv(Abs(), multiset{}) && i <= |dccache| && dccache == old@start(dccache)
        invariant PollMessages(Abs(), i, ctx) == result
        decreases |dccache| - i
      {
        ClearoutMessages(i, ctx);
        i := i + 1;
      }
    }
  
    // -- acks --

    /** handleIncomingACK, with the accept status from the ack. */
    method HandleAck(e: Event, status: nat, isDirect: bool)
      requires e in events
      modifies `events, `trace
      ensures Abs() == Report(old(Abs()), e, true, Favourable(old(events[e]), status), isDirect)
      ensures Abs() == Report(old(Abs()), e, true, AckDelivered(old(events[e]), status), isDirect)
    {
      var delivered := events[e].delivered;
      if status == 0x0 || status == 0x4 || status == 0xC || status == 0xE {
        delivered := true;
      } else if status == 0x1 || status == 0x9 || status == 0xA {
        delivered := false;
      }
      if events[e].kind.AwayMessage? { delivered := true; }
      Signal(e, true, delivered, isDirect);
    }

    method SignalMessageAck(k: Cookie, msgType: byte, status: nat)
      requires Inv(Abs(), multiset{})
      modifies `events, `freed, `trace, `cookies
      ensures Abs() == ServerAck(old(Abs()), k, msgType, status)
    {
      hide Inv, AbsList, AckDelivered;
      if !AckTypeKnown(msgType) { return; }
      var i := C.IndexOf(cookies, k);
      if i < |cookies| {
        var e := cookies[i].value;
        CookieIsLive(Abs(), i);
        HandleAck(e, status, false);
        DeleteEvent(e);
        cookies := C.RemoveAt(cookies, i);
      }
    }

    method SignalOfflineUser(k: Cookie)
      requires Inv(Abs(), multiset{})
      modifies `events, `trace
      ensures Abs() == OfflineUser(old(Abs()), k)
    {
      hide Inv, AbsList;
      var i := C.IndexOf(cookies, k);
      if i < |cookies| {
        CookieIsLive(Abs(), i);
        Signal(cookies[i].value, false, false, false);
      }
    }

    /** An ack packet read from a connected direct connection. */
    method DirectAckReceived(fd: int, s: ushort, status: nat)
      requires Valid() && Inv(Abs(), multiset{})
      modifies this, Objects(dccache)
      ensures Valid() && Abs() == DirectAck(old(Abs()), fd, s, status)
    {
      hide Inv, AbsList, AckDelivered;
      var i := C.IndexOf(dccache, fd);
      AbsIndexOf(dccache, fd);
      if i == |dccache| || dccache[i].value.state != D.Connected { return; }
      ghost var w := Abs();
      var dc := dccache[i].value;
      var ev := dc.TakeAck(s);
      if ev.None? {
        ListUpdated(i);
        assert Update(w.dcs, i, w.dcs[i].value) == w.dcs;
        return;
      }
      AckedIsLive(w, i, s);
      ListUpdated(i);
      HandleAck(ev.value, status, true);
      DeleteEvent(ev.value);
    }

    /** Only the i-th connection object changed. */
    twostate lemma ListUpdated(i: nat)
      requires i < |dccache| && dccache == old(dccache) && Valid()
      requires forall j :: 0 <= j < |dccache| && j != i ==> unchanged(dccache[j].value)
      ensures AbsList(dccache) == Update(old(AbsList(dccache)), i, dccache[i].value.Abs())
    {
      hide AbsList;
      var l := dccache;
      assert forall j :: 0 <= j < |l| && j != i ==> AbsItem(l[j]) == old(AbsItem(l[j]));
    }

    // -- sending --

    /** DCCache::getByContact. */
    method GetByContact(uin: uint) returns (i: nat)
      ensures i == ByContact(AbsList(dccache), uin) && i <= |dccache|
    {
      i := 0;
      while i < |dccache| && dccache[i].value.contact != Some(uin)
        invariant i <= |dccache| && forall j :: 0 <= j < i ==> dccache[j].value.contact != Some(uin)
      {
        i := i + 1;
      }
      AbsByContact(dccache, uin, i);
    }

    method HandToConnection(i: nat, e: Event, now: int)
      requires Valid() && Inv(Abs(), multiset{e}) && i < |dccache|
      modifies Objects(dccache)
      ensures Valid() && Abs() == GiveToConnection(old(Abs()), i, e, now)
    {
      hide Inv, AbsList, D.SendEvent;
      dccache[i].value.SendEvent(e, now);
      ListUpdated(i);
    }

    /** ConnectDirect, when there is no connection to the contact yet: the index of the new one. */
    method OpenConnection(uin: uint, route: Route, now: int) returns (i: Option<nat>)
      requires Valid() && route.Dial?
      modifies `dccache
      ensures Valid()
      ensures var (c, ok) := D.Connect(D.NewOutgoing(self, uin), route.version, route.session);
        var t := C.Item(route.fd, c, now, CONNECTING_TIMEOUT);
        if !ok then i.None? && dccache == old(dccache)
        else i == Some(C.InsertPos(old(AbsList(dccache)), t.Expiry())) && i.value < |dccache|
             && AbsList(dccache) == C.Insert(old(AbsList(dccache)), t)
      ensures fresh(Objects(dccache) - old(Objects(dccache)))
    {
      hide AbsList, C.Insert, C.InsertPos, D.NewOutgoing, D.Connect, DistinctObjects;
      var dc := new DirectClient.Outgoing(self, uin);
      var ok := dc.Dial(route.version, route.session);
      if !ok { return None; }
      var t := C.Item(route.fd, dc, now, CONNECTING_TIMEOUT);
      Entered(dccache, t);
      hide AbsItem, Objects;
      i := Some(C.InsertPos(dccache, t.Expiry()));
      dccache := C.Insert(dccache, t);
    }

    method AcceptConnection(fd: int, now: int)
      requires Valid() && Inv(Abs(), multiset{})
      modifies `dccache
      ensures Valid() && Abs() == Accept(old(Abs()), fd, now)
    {
      hide Inv, AbsList, Accept, C.Insert, D.NewIncoming, DistinctObjects;
      AcceptIs(Abs(), fd, now);
      var dc := new DirectClient.Incoming(self);
      var t := C.Item(fd, dc, now, CONNECTING_TIMEOUT);
      AbsInsert(dccache, t);
      InsertNewObject(dccache, t);
      dccache := C.Insert(dccache, t);
    }

    /** Client::SendEvent on an event the application has just allocated. */
    method SendEvent(e: Event, info: Info, route: Route, ctx: Ctx)
      requires Valid() && Inv(Abs(), multiset{}) && PicksFresh(ctx) && e !in events && e !in freed
      modifies this, Objects(dccache)
      ensures Valid() && Abs() == Submit(old(Abs()), e, info, route, ctx)
    {
      hide Inv, AbsList, Delivery.SendViaServer, D.Connect, GiveToConnection;
      NewEvent(Abs(), e, info);
      events := events[e := info];
      var sent := false;
      if !info.kind.AuthReq? && !info.kind.AuthAck? && !info.kind.UserAdd? {
        sent := SendDirect(e, info, route, ctx);
      }
      if !sent { SendViaServer(e, ctx); }
    }

    method SendDirect(e: Event, info: Info, route: Route, ctx: Ctx) returns (sent: bool)
      requires Valid() && Inv(Abs(), multiset{e})
      modifies this, Objects(dccache)
      ensures Valid()
      ensures !sent ==> Abs() == old(Abs()) && dccache == old(dccache)
      ensures sent == Reachable(old(Abs()), info, route)
      ensures sent ==> Abs() == HandOver(old(Abs()), e, info, route, ctx)
    {
      hide Inv, AbsList, D.Connect, D.NewOutgoing, GiveToConnection;
      if info.contact !in direct { return false; }
      var i := GetByContact(info.contact);
      if i < |dccache| {
        HandToConnection(i, e, ctx.env.now);
        return true;
      }
      if route.NoRoute? { return false; }
      ghost var w := Abs();
      var slot := OpenConnection(info.contact, route, ctx.env.now);
      if slot.None? { return false; }
      ghost var t := C.Item(route.fd, D.Connect(D.NewOutgoing(self, info.contact), route.version, route.session).0,
                            ctx.env.now, CONNECTING_TIMEOUT);
      NewConnectionIsEmpty(self, info.contact, route);
      AddConnection(w, multiset{e}, t);
      HandToConnection(slot.value, e, ctx.env.now);
      sent := true;
    }

    // -- handshake packets --

    method PacketReceived(fd: int, bytes: seq<byte>, ctx: Ctx)
      requires Valid() && Inv(Abs(), multiset{}) && PicksFresh(ctx)
      modifies this, Objects(dccache)
      ensures Valid() && Abs() == Packet(old(Abs()), fd, bytes, ctx)
    {
      hide Inv, AbsList, D.HandlePacket, Teardown, C.SetTimeout;
      var i := C.IndexOf(dccache, fd);
      AbsIndexOf(dccache, fd);
      if i == |dccache| || dccache[i].value.state == D.Connected { return; }
      ghost var w := Abs();
      var dc := dccache[i].value;
      var sb := new Buffer();
      sb.PutBytes(bytes);
      assert sb.data == bytes;
      var ok := dc.TakePacket(sb, ctx.env);
      ListUpdated(i);
      PacketKeepsInv(w, i, bytes, ctx);
      if !ok {
        DeleteConnection(i, ctx);
      } else if dc.state == D.Connected {
        RaiseTimeout(fd);
      }
    }

    /** dc_connected_cb. */
    method RaiseTimeout(fd: int)
      requires Valid()
      modifies `dccache
      ensures Valid() && Abs() == old(Abs()).(dcs := C.SetTimeout(old(Abs()).dcs, fd, CONNECTED_TIMEOUT))
    {
      hide AbsList, AbsItem, C.Insert, C.RemoveAt, DistinctObjects;
      AbsIndexOf(dccache, fd);
      var i := C.IndexOf(dccache, fd);
      if i < |dccache| {
        var t := dccache[i].(timeout := CONNECTED_TIMEOUT);
        var rest := C.RemoveAt(dccache, i);
        AbsRemoveAt(dccache, i);
        AbsInsert(rest, t);
        AbsWithTimeout(dccache[i], CONNECTED_TIMEOUT);
        RemovedObject(dccache, i);
        InsertNewObject(rest, t);
        dccache := C.Insert(rest, t);
      }
    }
  }

  ghost predicate DistinctObjects(l: seq<ConnItem>) {
    forall i, j :: 0 <= i < j < |l| ==> l[i].value != l[j].value
  }

  lemma RemovedObject(l: seq<ConnItem>, i: nat)
    requires i < |l| && DistinctObjects(l)
    ensures DistinctObjects(C.RemoveAt(l, i)) && l[i].value !in Objects(C.RemoveAt(l, i))
  {
    var r := C.RemoveAt(l, i);
    assert forall j :: 0 <= j < |r| ==> r[j] == if j < i then l[j] else l[j + 1];
  }

  /** What entering a connection does to the list and to its abstraction. */
  lemma Entered(l: seq<ConnItem>, t: ConnItem)
    requires DistinctObjects(l) && t.value !in Objects(l)
    ensures AbsList(C.Insert(l, t)) == C.Insert(AbsList(l), AbsItem(t))
    ensures C.InsertPos(AbsList(l), AbsItem(t).Expiry()) == C.InsertPos(l, t.Expiry()) < |C.Insert(l, t)|
    ensures DistinctObjects(C.Insert(l, t)) && Objects(C.Insert(l, t)) <= Objects(l) + {t.value}
  {
    AbsInsert(l, t);
    AbsInsertPos(l, t.Expiry());
    AbsItemExpiry(t);
    InsertNewObject(l, t);
    hide AbsList, AbsItem, DistinctObjects, Objects;
  }

  lemma InsertNewObject(l: seq<ConnItem>, t: ConnItem)
    requires DistinctObjects(l) && t.value !in Objects(l)
    ensures DistinctObjects(C.Insert(l, t)) && Objects(C.Insert(l, t)) <= Objects(l) + {t.value}
  {
    hide C.InsertPos;
    var p, r := C.InsertPos(l, t.Expiry()), C.Insert(l, t);
    forall j | 0 <= j < |r| ensures r[j] == if j < p then l[j] else if j == p then t else l[j - 1] {}
    forall j, k | 0 <= j < k < |r| ensures r[j].value != r[k].value {
      if j == p { assert r[k].value in Objects(l); } else if k == p { assert r[j].value in Objects(l); }
    }
  }

  lemma AcceptIs(w: World, fd: int, now: int)
    requires Inv(w, multiset{})
    ensures Accept(w, fd, now) == w.(dcs := C.Insert(w.dcs, C.Item(fd, D.NewIncoming(w.self), now, CONNECTING_TIMEOUT)))
  {
  }

  lemma AbsWithTimeout(t: ConnItem, s: nat)
    ensures AbsItem(t.(timeout := s)) == AbsItem(t).(timeout := s)
  {
  }

  /** SendDirect finds or opens a connection. */
  ghost predicate Reachable(w: World, info: Info, route: Route) {
    && info.contact in w.direct
    && (ByContact(w.dcs, info.contact) < |w.dcs|
        || (route.Dial? && D.Connect(D.NewOutgoing(w.self, info.contact), route.version, route.session).1))
  }

  ghost function HandOver(w: World, e: Event, info: Info, route: Route, ctx: Ctx): World
    requires Inv(w, multiset{e}) && Reachable(w, info, route)
  {
    var i := ByContact(w.dcs, info.contact);
    if i < |w.dcs| then GiveToConnection(w, i, e, ctx.env.now)
    else
      var c := D.Connect(D.NewOutgoing(w.self, info.contact), route.version, route.session).0;
      var t := C.Item(route.fd, c, ctx.env.now, CONNECTING_TIMEOUT);
      AddConnection(w, multiset{e}, t);
      GiveToConnection(w.(dcs := C.Insert(w.dcs, t)), C.InsertPos(w.dcs, t.Expiry()), e, ctx.env.now)
  }

  lemma NewConnectionIsEmpty(self: uint, uin: uint, route: Route)
    requires route.Dial?
    ensures var c := D.Connect(D.NewOutgoing(self, uin), route.version, route.session).0; c.queue == [] && c.cache == []
  {
  }

  lemma CookieIsLive(w: World, i: nat)
    requires Inv(w, multiset{}) && i < |w.cookies|
    ensures w.cookies[i].value in w.live
  {
    ValuesRemoveAt(w.cookies, i);
    LooseIsLiveOrOwned(w, w.cookies[i].value);
  }

  lemma AckedIsLive(w: World, i: nat, s: ushort)
    requires Inv(w, multiset{}) && i < |w.dcs| && DirectOrder.Acknowledge(w.dcs[i].value, s).1.Some?
    ensures DirectOrder.Acknowledge(w.dcs[i].value, s).1.value in w.live
  {
    var c := w.dcs[i].value;
    ValuesRemoveAt(c.cache, C.IndexOf(c.cache, s));
    OwnedByAllRemoveAt(w.dcs, i);
    LooseIsLiveOrOwned(w, c.cache[C.IndexOf(c.cache, s)].value);
  }

  lemma PacketKeepsInv(w: World, i: nat, bytes: seq<byte>, ctx: Ctx)
    requires Inv(w, multiset{}) && i < |w.dcs| && w.dcs[i].value.state != D.Connected
    ensures Inv(w.(dcs := Update(w.dcs, i, D.HandlePacket(w.dcs[i].value, bytes, ctx.env).0)), multiset{})
  {
    hide D.HandlePacket;
    var c1 := D.HandlePacket(w.dcs[i].value, bytes, ctx.env).0;
    PacketOwns(w.dcs[i].value, bytes, ctx.env);
    var none: seq<Event> := [];
    assert OwnedBy(c1) + multiset(none) == OwnedBy(c1);
    TakeOff(w, i, c1, none);
    assert multiset(none) == multiset{};
  }

  lemma ShrinkObjects(l: seq<ConnItem>, i: nat)
    requires i < |l|
    ensures Objects(C.RemoveAt(l, i)) <= Objects(l)
  {
    var r := C.RemoveAt(l, i);
    assert forall j :: 0 <= j < |r| ==> r[j] == if j < i then l[j] else l[j + 1];
  }

  lemma FirstCookieIsLive(w: World)
    requires Inv(w, multiset{}) && w.cookies != []
    ensures w.cookies[0].value in w.live
  {
    ValuesRemoveAt(w.cookies, 0);
    LooseIsLiveOrOwned(w, w.cookies[0].value);
  }

  /** The order of taking the item out and deleting the event makes no difference. */
  lemma ExpireCookieIs(w: World)
    requires Inv(w, multiset{}) && w.cookies != [] && w.cookies[0].value in w.live
    ensures var e := w.cookies[0].value;
      var w1 := SendNormal(w, e);
      ExpireCookie(w) == Delete(w1.(advanced := w.advanced - {w.live[e].contact}), e).(cookies := w.cookies[1..])
  {
    hide Inv, Owned;
  }

  lemma SendNormalKeeps(w: World, e: Event)
    requires e in w.live
    ensures var r := SendNormal(w, e);
      r.live[e].contact == w.live[e].contact && r.advanced == w.advanced && r.cookies == w.cookies
  {
  }

  lemma ConnectionRests(w: World, i: nat)
    requires Inv(w, multiset{}) && i < |w.dcs|
    ensures w.dcs[i].value.state == D.Connected ==> w.dcs[i].value.queue == []
  {
  }
}
