/** The expiry cache (src/Cache.h): a list of timed items kept in expiry order. */
module Cache {

  /** CacheItem. Times are unbounded integers; the clock is an argument of the operations that read it. */
  datatype Item<K, V> = Item(key: K, value: V, timestamp: int, timeout: nat) {
    function Expiry(): int { timestamp + timeout }
  }

  // ------------------------------------------------------------------
  //  What the operations do to the list
  // ------------------------------------------------------------------

  ghost predicate Sorted<K, V>(l: seq<Item<K, V>>) {
    forall i, j :: 0 <= i <= j < |l| ==> l[i].Expiry() <= l[j].Expiry()
  }

  /** Position of the first item with key k, or |l|: the list iterator that lookup returns. */
  function IndexOf<K(==), V>(l: seq<Item<K, V>>, k: K): (i: nat)
    ensures i <= |l|
    ensures i < |l| ==> l[i].key == k
    ensures forall j :: 0 <= j < i ==> l[j].key != k
  {
    if l == [] then 0 else if l[0].key == k then 0 else 1 + IndexOf(l[1..], k)
  }

  /** The insertion point, searched from the back: just after the last item that expires before exp. */
  function InsertPos<K, V>(l: seq<Item<K, V>>, exp: int): (p: nat)
    ensures p <= |l|
    ensures p > 0 ==> l[p - 1].Expiry() < exp
    ensures forall j :: p <= j < |l| ==> l[j].Expiry() >= exp
  {
    if l == [] then 0
    else if l[|l| - 1].Expiry() < exp then |l|
    else InsertPos(l[..|l| - 1], exp)
  }

  function Insert<K, V>(l: seq<Item<K, V>>, t: Item<K, V>): (r: seq<Item<K, V>>)
    ensures |r| == |l| + 1
  {
    var p := InsertPos(l, t.Expiry());
    l[..p] + [t] + l[p..]
  }

  function RemoveAt<T>(l: seq<T>, i: nat): seq<T>
    requires i < |l|
  {
    l[..i] + l[i + 1..]
  }

  function Remove<K(==), V>(l: seq<Item<K, V>>, k: K): seq<Item<K, V>> {
    var i := IndexOf(l, k);
    if i < |l| then RemoveAt(l, i) else l
  }

  /** setTimeout takes the item out and files it again under its new expiry time. */
  function SetTimeout<K(==), V>(l: seq<Item<K, V>>, k: K, s: nat): seq<Item<K, V>> {
    var i := IndexOf(l, k);
    if i < |l| then Insert(RemoveAt(l, i), l[i].(timeout := s)) else l
  }

  /** refresh files the item again, but with the timestamp it already had. */
  function Refresh<K(==), V>(l: seq<Item<K, V>>, k: K): seq<Item<K, V>> {
    var i := IndexOf(l, k);
    if i < |l| then Insert(RemoveAt(l, i), l[i]) else l
  }

  /** How many items a poll at time now takes off the front. */
  function ExpiredCount<K, V>(l: seq<Item<K, V>>, now: int): (n: nat)
    ensures n <= |l|
    ensures forall i :: 0 <= i < n ==> l[i].Expiry() < now
    ensures n < |l| ==> l[n].Expiry() >= now
  {
    if l == [] || l[0].Expiry() >= now then 0 else 1 + ExpiredCount(l[1..], now)
  }

  lemma ExpiredStep<K, V>(l: seq<Item<K, V>>, now: int)
    ensures ExpiredCount(l, now) == if l == [] || l[0].Expiry() >= now then 0 else 1 + ExpiredCount(l[1..], now)
  {
  }

  lemma SplitSorted<K, V>(l: seq<Item<K, V>>, n: nat)
    requires n <= |l| && Sorted(l)
    ensures Sorted(l[..n]) && Sorted(l[n..])
    ensures n < |l| ==> forall i :: 0 <= i < |l| - n ==> l[n..][i].Expiry() >= l[n].Expiry()
  {
  }

  // ------------------------------------------------------------------
  //  The class
  // ------------------------------------------------------------------

  class Cache<K(==), V> {
    var timeout: nat
    var list: seq<Item<K, V>>

    constructor ()
      ensures list == [] && timeout == 60
    {
      timeout := 60;
      list := [];
    }

    method Lookup(k: K) returns (curr: nat)
      ensures curr == IndexOf(list, k)
    {
      curr := 0;
      while curr != |list|
        invariant 0 <= curr <= |list|
        invariant IndexOf(list, k) == curr + IndexOf(list[curr..], k)
        decreases |list| - curr
      {
        if list[curr].key == k { return; }
        assert list[curr..][1..] == list[curr + 1..];
        curr := curr + 1;
      }
    }

    method Exists(k: K) returns (b: bool)
      ensures b <==> exists i :: 0 <= i < |list| && list[i].key == k
    {
      var i := Lookup(k);
      b := i != |list|;
    }

    method InsertItem(t: Item<K, V>)
      modifies this`list
      ensures list == Insert(old(list), t)
    {
      var l := |list|;
      var done := false;
      while l != 0 && !done
        invariant 0 <= l <= |list|
        invariant !done ==> InsertPos(list, t.Expiry()) == InsertPos(list[..l], t.Expiry())
        invariant done ==> InsertPos(list, t.Expiry()) == l
        decreases l, !done
      {
        ghost var seen := list[..l];
        l := l - 1;
        if list[l].Expiry() < t.Expiry() {
          l := l + 1;
          done := true;
        } else {
          assert seen[..|seen| - 1] == list[..l];
        }
      }
      list := list[..l] + [t] + list[l..];
    }

    method InsertValue(k: K, v: V, now: int)
      modifies this`list
      ensures list == Insert(old(list), Item(k, v, now, timeout))
    {
      InsertItem(Item(k, v, now, timeout));
    }

    /** operator[]: an absent key is first entered with the default value. */
    method Get(k: K, default: V, now: int) returns (v: V)
      modifies this`list
      ensures var i := IndexOf(old(list), k);
        if i < |old(list)| then list == old(list) && v == list[i].value
        else list == Insert(old(list), Item(k, default, now, timeout)) && v == default
    {
      var i := Lookup(k);
      if i == |list| {
        InsertValue(k, default, now);
        v := default;
      } else {
        v := list[i].value;
      }
    }

    method RemoveKey(k: K)
      modifies this`list
      ensures list == Remove(old(list), k)
    {
      var i := Lookup(k);
      if i != |list| { list := RemoveAt(list, i); }
    }

    method SetItemTimeout(k: K, s: nat)
      modifies this`list
      ensures list == SetTimeout(old(list), k, s)
    {
      var i := Lookup(k);
      if i != |list| {
        var t := list[i].(timeout := s);
        list := RemoveAt(list, i);
        InsertItem(t);
      }
    }

    method RefreshItem(k: K)
      modifies this`list
      ensures list == Refresh(old(list), k)
    {
      var i := Lookup(k);
      if i != |list| {
        var t := list[i];
        list := RemoveAt(list, i);
        InsertItem(t);
      }
    }

    /** Expires from the front. On a sorted list that is exactly the set of overdue
        items, in expiry order. */
    method ClearoutPoll(now: int) returns (expired: seq<Item<K, V>>)
      modifies this`list
      ensures old(list) == expired + list
      ensures forall i :: 0 <= i < |expired| ==> expired[i].Expiry() < now
      ensures Sorted(old(list)) ==>
        Sorted(expired) && Sorted(list) && forall i :: 0 <= i < |list| ==> list[i].Expiry() >= now
      ensures list == old(list)[ExpiredCount(old(list), now)..]
    {
      hide Sorted, ExpiredCount;
      expired := [];
      while list != [] && list[0].Expiry() < now
        invariant |expired| <= |old(list)| && expired == old(list)[..|expired|] && list == old(list)[|expired|..]
        invariant ExpiredCount(old(list), now) == |expired| + ExpiredCount(list, now)
        decreases |list|
      {
        ExpiredStep(list, now);
        expired := expired + [list[0]];
        list := list[1..];
      }
      ExpiredStep(list, now);
      if Sorted(old(list)) { SplitSorted(old(list), |expired|); }
    }
  }

  // ------------------------------------------------------------------
  //  The list refines a plain map from keys to deadlines
  // ------------------------------------------------------------------

  datatype Entry<V> = Entry(value: V, timestamp: int, timeout: nat)

  ghost predicate DistinctKeys<K, V>(l: seq<Item<K, V>>) {
    forall i, j :: 0 <= i < j < |l| ==> l[i].key != l[j].key
  }

  function EntryOf<K, V>(t: Item<K, V>): Entry<V> { Entry(t.value, t.timestamp, t.timeout) }

  ghost predicate HasKey<K, V>(l: seq<Item<K, V>>, k: K) {
    exists i :: 0 <= i < |l| && l[i].key == k
  }

  ghost predicate EntriesIn<K, V>(l: seq<Item<K, V>>, m: map<K, Entry<V>>) {
    forall i :: 0 <= i < |l| ==> l[i].key in m && m[l[i].key] == EntryOf(l[i])
  }

  ghost predicate KeysIn<K, V>(m: map<K, Entry<V>>, l: seq<Item<K, V>>) { forall k :: k in m ==> HasKey(l, k) }

  ghost predicate Represents<K, V>(l: seq<Item<K, V>>, m: map<K, Entry<V>>) { EntriesIn(l, m) && KeysIn(m, l) }

  datatype Op<K, V> =
    | OpInsert(k: K, v: V)
    | OpIndex(k: K, default: V)
    | OpRemove(k: K)
    | OpSetTimeout(k: K, s: nat)
    | OpRefresh(k: K)
    | OpPoll

  /** One operation at time now on a cache with default timeout t. */
  function Apply<K(==), V>(l: seq<Item<K, V>>, op: Op<K, V>, now: int, t: nat): seq<Item<K, V>> {
    match op
    case OpInsert(k, v) => Insert(l, Item(k, v, now, t))
    case OpIndex(k, d) => if IndexOf(l, k) < |l| then l else Insert(l, Item(k, d, now, t))
    case OpRemove(k) => Remove(l, k)
    case OpSetTimeout(k, s) => SetTimeout(l, k, s)
    case OpRefresh(k) => Refresh(l, k)
    case OpPoll => l[ExpiredCount(l, now)..]
  }

  /** The entries a poll at time now leaves. */
  ghost function Unexpired<K, V>(m: map<K, Entry<V>>, now: int): map<K, Entry<V>> {
    map k | k in m && m[k].timestamp + m[k].timeout >= now :: m[k]
  }

  /** The same operation on the reference map. */
  ghost function ApplyMap<K, V>(m: map<K, Entry<V>>, op: Op<K, V>, now: int, t: nat): map<K, Entry<V>> {
    match op
    case OpInsert(k, v) => m[k := Entry(v, now, t)]
    case OpIndex(k, d) => if k in m then m else m[k := Entry(d, now, t)]
    case OpRemove(k) => m - {k}
    case OpSetTimeout(k, s) => if k in m then m[k := m[k].(timeout := s)] else m
    case OpRefresh(k) => m
    case OpPoll => Unexpired(m, now)
  }

  lemma InsertSorted<K, V>(l: seq<Item<K, V>>, t: Item<K, V>)
    requires Sorted(l)
    ensures Sorted(Insert(l, t))
  {
    hide InsertPos;
  }

  lemma InsertDistinct<K, V>(l: seq<Item<K, V>>, t: Item<K, V>)
    requires DistinctKeys(l) && forall i :: 0 <= i < |l| ==> l[i].key != t.key
    ensures DistinctKeys(Insert(l, t))
  {
    var p := InsertPos(l, t.Expiry());
    var r := Insert(l, t);
    assert forall i :: 0 <= i < |r| ==> r[i] == if i < p then l[i] else if i == p then t else l[i - 1];
    forall i, j | 0 <= i < j < |r| ensures r[i].key != r[j].key {
      if i != p && j != p {
        assert l[if i < p then i else i - 1].key != l[if j < p then j else j - 1].key;
      }
    }
  }

  /** Positions of the old items after an insertion. */
  function Shifted<K, V>(l: seq<Item<K, V>>, t: Item<K, V>, i: nat): (j: nat)
    requires i < |l|
    ensures j < |Insert(l, t)| && Insert(l, t)[j] == l[i]
  {
    if i < InsertPos(l, t.Expiry()) then i else i + 1
  }

  lemma InsertRepresents<K, V>(l: seq<Item<K, V>>, t: Item<K, V>, m: map<K, Entry<V>>)
    requires DistinctKeys(l) && Represents(l, m) && t.key !in m
    ensures DistinctKeys(Insert(l, t))
    ensures Represents(Insert(l, t), m[t.key := EntryOf(t)])
  {
    var p := InsertPos(l, t.Expiry());
    var r := Insert(l, t);
    InsertDistinct(l, t);
    assert r[p] == t;
    forall k | k in m[t.key := EntryOf(t)] ensures HasKey(r, k) {
      if k in m {
        assert HasKey(l, k);
        var i :| 0 <= i < |l| && l[i].key == k;
        assert r[Shifted(l, t, i)] == l[i];
      }
    }
    forall i | 0 <= i < |r|
      ensures r[i].key in m[t.key := EntryOf(t)] && m[t.key := EntryOf(t)][r[i].key] == EntryOf(r[i])
    {
      if i != p { assert r[i] == l[if i < p then i else i - 1]; }
    }
  }

  lemma RemoveAtEntries<K, V>(l: seq<Item<K, V>>, i: nat, m: map<K, Entry<V>>)
    requires i < |l| && DistinctKeys(l) && EntriesIn(l, m)
    ensures DistinctKeys(RemoveAt(l, i)) && EntriesIn(RemoveAt(l, i), m - {l[i].key})
  {
    var r := RemoveAt(l, i);
    assert forall j :: 0 <= j < |r| ==> r[j] == if j < i then l[j] else l[j + 1];
  }

  lemma RemoveAtKeys<K, V>(l: seq<Item<K, V>>, i: nat, m: map<K, Entry<V>>)
    requires i < |l| && KeysIn(m, l)
    ensures KeysIn(m - {l[i].key}, RemoveAt(l, i))
  {
    var r := RemoveAt(l, i);
    forall k | k in m - {l[i].key} ensures HasKey(r, k) {
      assert HasKey(l, k);
      var j :| 0 <= j < |l| && l[j].key == k;
      assert r[if j < i then j else j - 1] == l[j];
    }
  }

  lemma RemoveAtRepresents<K, V>(l: seq<Item<K, V>>, i: nat, m: map<K, Entry<V>>)
    requires i < |l| && DistinctKeys(l) && Represents(l, m)
    ensures DistinctKeys(RemoveAt(l, i))
    ensures Represents(RemoveAt(l, i), m - {l[i].key})
  {
    RemoveAtEntries(l, i, m);
    RemoveAtKeys(l, i, m);
  }

  lemma RemoveAtSorted<K, V>(l: seq<Item<K, V>>, i: nat)
    requires i < |l| && Sorted(l)
    ensures Sorted(RemoveAt(l, i))
  {
    var r := RemoveAt(l, i);
    assert forall j :: 0 <= j < |r| ==> r[j] == if j < i then l[j] else l[j + 1];
  }

  /** Every operation keeps the list sorted, duplicate keys or not. */
  lemma ApplySorted<K, V>(l: seq<Item<K, V>>, op: Op<K, V>, now: int, t: nat)
    requires Sorted(l)
    ensures Sorted(Apply(l, op, now, t))
  {
    match op
    case OpInsert(k, v) => InsertSorted(l, Item(k, v, now, t));
    case OpIndex(k, d) => InsertSorted(l, Item(k, d, now, t));
    case OpRemove(k) => if IndexOf(l, k) < |l| { RemoveAtSorted(l, IndexOf(l, k)); }
    case OpSetTimeout(k, s) =>
      var i := IndexOf(l, k);
      if i < |l| { RemoveAtSorted(l, i); InsertSorted(RemoveAt(l, i), l[i].(timeout := s)); }
    case OpRefresh(k) =>
      var i := IndexOf(l, k);
      if i < |l| { RemoveAtSorted(l, i); InsertSorted(RemoveAt(l, i), l[i]); }
    case OpPoll =>
  }

  /** Taking an item out and filing it again with timeout s updates just its own entry. */
  lemma RefileRepresents<K, V>(l: seq<Item<K, V>>, m: map<K, Entry<V>>, i: nat, s: nat)
    requires i < |l| && DistinctKeys(l) && Represents(l, m)
    ensures var r := Insert(RemoveAt(l, i), l[i].(timeout := s));
      DistinctKeys(r) && Represents(r, m[l[i].key := m[l[i].key].(timeout := s)])
  {
    var k := l[i].key;
    var t := l[i].(timeout := s);
    RemoveAtRepresents(l, i, m);
    InsertRepresents(RemoveAt(l, i), t, m - {k});
    assert (m - {k})[k := EntryOf(t)] == m[k := m[k].(timeout := s)];
  }

  lemma PollEntries<K, V>(l: seq<Item<K, V>>, m: map<K, Entry<V>>, now: int)
    requires Sorted(l) && DistinctKeys(l) && EntriesIn(l, m)
    ensures DistinctKeys(l[ExpiredCount(l, now)..]) && EntriesIn(l[ExpiredCount(l, now)..], Unexpired(m, now))
  {
    hide ExpiredCount;
    var n := ExpiredCount(l, now);
    SplitSorted(l, n);
    hide Sorted;
    forall i | 0 <= i < |l| - n
      ensures l[n..][i].key in Unexpired(m, now) && Unexpired(m, now)[l[n..][i].key] == EntryOf(l[n..][i])
    {
      assert l[n..][i] == l[n + i];
    }
  }

  lemma PollKeys<K, V>(l: seq<Item<K, V>>, m: map<K, Entry<V>>, now: int)
    requires EntriesIn(l, m) && KeysIn(m, l)
    ensures KeysIn(Unexpired(m, now), l[ExpiredCount(l, now)..])
  {
    hide ExpiredCount;
    var n := ExpiredCount(l, now);
    forall k | k in Unexpired(m, now) ensures HasKey(l[n..], k) {
      assert HasKey(l, k);
      var j :| 0 <= j < |l| && l[j].key == k;
      assert l[j].Expiry() >= now;
      assert l[n..][j - n] == l[j];
    }
  }

  lemma PollRepresents<K, V>(l: seq<Item<K, V>>, m: map<K, Entry<V>>, now: int)
    requires Sorted(l) && DistinctKeys(l) && Represents(l, m)
    ensures var r := l[ExpiredCount(l, now)..]; DistinctKeys(r) && Represents(r, Unexpired(m, now))
  {
    PollEntries(l, m, now);
    PollKeys(l, m, now);
  }

  /** One operation on the list is the same operation on the map, provided insert gets an absent key. */
  lemma ApplyRepresents<K, V>(l: seq<Item<K, V>>, m: map<K, Entry<V>>, op: Op<K, V>, now: int, t: nat)
    requires Sorted(l) && DistinctKeys(l) && Represents(l, m)
    requires op.OpInsert? ==> op.k !in m
    ensures DistinctKeys(Apply(l, op, now, t))
    ensures Represents(Apply(l, op, now, t), ApplyMap(m, op, now, t))
  {
    if op.OpPoll? {
      PollRepresents(l, m, now);
    } else {
      Located(l, m, op.k);
      hide Represents, DistinctKeys, Sorted, Insert, RemoveAt;
      match op
      case OpInsert(k, v) => InsertRepresents(l, Item(k, v, now, t), m);
      case OpIndex(k, d) => if k !in m { InsertRepresents(l, Item(k, d, now, t), m); }
      case OpRemove(k) =>
        if k in m { RemoveAtRepresents(l, IndexOf(l, k), m); } else { assert m - {k} == m; }
      case OpSetTimeout(k, s) => if k in m { RefileRepresents(l, m, IndexOf(l, k), s); }
      case OpRefresh(k) =>
        if k in m {
          var i := IndexOf(l, k);
          RefileRepresents(l, m, i, l[i].timeout);
          assert m[k := m[k].(timeout := l[i].timeout)] == m;
        }
    }
  }

  /** An item is found exactly if the map has its key, and then it is the map's entry. */
  lemma Located<K, V>(l: seq<Item<K, V>>, m: map<K, Entry<V>>, k: K)
    requires Represents(l, m)
    ensures var i := IndexOf(l, k); (i < |l| <==> k in m) && (i < |l| ==> m[k] == EntryOf(l[i]))
  {
    if k in m { assert HasKey(l, k); }
  }

  /** An operation, the clock it reads and the default timeout in force. */
  datatype Call<K, V> = Call(op: Op<K, V>, now: int, timeout: nat)

  function Run<K(==), V>(l: seq<Item<K, V>>, calls: seq<Call<K, V>>): seq<Item<K, V>>
    decreases |calls|
  {
    if calls == [] then l
    else Run(Apply(l, calls[0].op, calls[0].now, calls[0].timeout), calls[1..])
  }

  ghost function RunMap<K, V>(m: map<K, Entry<V>>, calls: seq<Call<K, V>>): map<K, Entry<V>>
    decreases |calls|
  {
    if calls == [] then m
    else RunMap(ApplyMap(m, calls[0].op, calls[0].now, calls[0].timeout), calls[1..])
  }

  ghost predicate InsertsOnlyAbsent<K, V>(m: map<K, Entry<V>>, calls: seq<Call<K, V>>)
    decreases |calls|
  {
    calls != [] ==>
      && (calls[0].op.OpInsert? ==> calls[0].op.k !in m)
      && InsertsOnlyAbsent(ApplyMap(m, calls[0].op, calls[0].now, calls[0].timeout), calls[1..])
  }

  lemma {:induction false} RunSorted<K, V>(l: seq<Item<K, V>>, calls: seq<Call<K, V>>)
    requires Sorted(l)
    ensures Sorted(Run(l, calls))
    decreases |calls|
  {
    if calls != [] {
      var c := calls[0];
      ApplySorted(l, c.op, c.now, c.timeout);
      RunSorted(Apply(l, c.op, c.now, c.timeout), calls[1..]);
    }
  }

  lemma {:induction false} RunRepresents<K, V>(l: seq<Item<K, V>>, m: map<K, Entry<V>>, calls: seq<Call<K, V>>)
    requires Sorted(l) && DistinctKeys(l) && Represents(l, m) && InsertsOnlyAbsent(m, calls)
    ensures DistinctKeys(Run(l, calls)) && Represents(Run(l, calls), RunMap(m, calls))
    decreases |calls|
  {
    if calls != [] {
      var c := calls[0];
      ApplySorted(l, c.op, c.now, c.timeout);
      ApplyRepresents(l, m, c.op, c.now, c.timeout);
      RunRepresents(Apply(l, c.op, c.now, c.timeout), ApplyMap(m, c.op, c.now, c.timeout), calls[1..]);
    }
  }

  /** After any run from the empty cache the list is in expiry order, and looking a
      key up in it gives what a plain map of deadlines gives. */
  lemma CacheRefinesMap<K, V>(calls: seq<Call<K, V>>, k: K)
    requires InsertsOnlyAbsent(map[], calls)
    ensures var l := Run([], calls); var m := RunMap(map[], calls); var i := IndexOf(l, k);
      && Sorted(l)
      && (i < |l| <==> k in m)
      && (k in m ==> m[k] == EntryOf(l[i]))
  {
    RunSorted<K, V>([], calls);
    RunRepresents<K, V>([], map[], calls);
  }

  /** Before the new item stand exactly the old ones that expire earlier. */
  lemma InsertedAround<K, V>(l: seq<Item<K, V>>, t: Item<K, V>)
    requires Sorted(l)
    ensures var p, r := InsertPos(l, t.Expiry()), Insert(l, t);
      && p <= |l| && |r| == |l| + 1 && r[p] == t && (forall i :: 0 <= i < p ==> r[i] == l[i])
      && forall i :: 0 <= i < |l| ==> (i < p <==> l[i].Expiry() < t.Expiry())
  {
    hide Sorted;
    var p := InsertPos(l, t.Expiry());
    forall i | 0 <= i < p ensures l[i].Expiry() < t.Expiry() { SortedAt(l, i, p - 1); }
  }

  lemma SortedAt<K, V>(l: seq<Item<K, V>>, i: nat, j: nat)
    requires Sorted(l) && i <= j < |l|
    ensures l[i].Expiry() <= l[j].Expiry()
  {
  }

  /** Inserting under a key that is already there: lookup then finds the new item
      exactly when no item of that key expires earlier. */
  lemma DuplicateInsertIsFoundIff<K, V>(l: seq<Item<K, V>>, t: Item<K, V>)
    requires Sorted(l)
    ensures var r := Insert(l, t);
      IndexOf(r, t.key) == InsertPos(l, t.Expiry()) <==>
      forall i :: 0 <= i < |l| && l[i].key == t.key ==> l[i].Expiry() >= t.Expiry()
  {
    var p, r := InsertPos(l, t.Expiry()), Insert(l, t);
    InsertedAround(l, t);
    hide Insert, Sorted, InsertPos;
    assert IndexOf(r, t.key) <= p;
  }

  /** An item that does not: the one entered earlier under the key expires earlier and hides it. */
  lemma DuplicateInsertIsHidden<K, V>(k: K, v: V, u: V)
    ensures var l := [Item(k, v, 0, 10)];
      var r := Insert(l, Item(k, u, 0, 20));
      r == [Item(k, v, 0, 10), Item(k, u, 0, 20)] && r[IndexOf(r, k)].value == v
  {
    assert InsertPos([Item(k, v, 0, 10)], 20) == 1;
  }
}
