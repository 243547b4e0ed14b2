// Callouts (ken/clock.c:33-65, 128-156): functions to be called after a number of clock
// ticks, in an array in which each entry has the time from the entry before it.
module Callout {
  const NCALL: nat := 20

  // An entry; func 0 ends the array's list.
  datatype Callo = Callo(time: int, func: int, arg: int)

  // A call of timeout at tick made, for tick key.
  datatype Request = Request(func: int, arg: int, key: nat, made: nat)

  // A nested call of timeout by a function that is called.
  datatype Call = Call(func: int, arg: int, delay: nat)

  // When a request is to be served: not before the next tick.
  function Due(r: Request): nat {
    if r.key > r.made then r.key else r.made + 1
  }

  // ---- Order ----

  // r is served after everything that is to be served no later.
  function Insert(l: seq<Request>, r: Request): (m: seq<Request>)
    ensures |m| == |l| + 1
  {
    if l == [] || l[0].key > r.key then [r] + l else [l[0]] + Insert(l[1..], r)
  }

  // All requests in the order of service: by key, those with the same key as they were made.
  function Order(requests: seq<Request>): (m: seq<Request>)
    ensures |m| == |requests|
  {
    if requests == [] then [] else Insert(Order(requests[..|requests| - 1]), requests[|requests| - 1])
  }

  lemma {:induction false} InsertAt(l: seq<Request>, r: Request, j: nat)
    requires j <= |l| && (forall i :: 0 <= i < j ==> l[i].key <= r.key) && (j < |l| ==> l[j].key > r.key)
    ensures Insert(l, r) == l[..j] + [r] + l[j..]
  {
    if j > 0 {
      InsertAt(l[1..], r, j - 1);
      assert l[1..][..j - 1] == l[1..j] && l[1..][j - 1..] == l[j..];
      assert [l[0]] + l[1..j] == l[..j];
    }
  }

  lemma {:induction false} InsertAfter(a: seq<Request>, b: seq<Request>, r: Request)
    requires forall i :: 0 <= i < |a| ==> a[i].key <= r.key
    ensures Insert(a + b, r) == a + Insert(b, r)
  {
    if a == [] {
      assert a + b == b && a + Insert(b, r) == Insert(b, r);
    } else {
      assert (a + b)[1..] == a[1..] + b;
      InsertAfter(a[1..], b, r);
      assert [a[0]] + (a[1..] + Insert(b, r)) == a + Insert(b, r);
    }
  }

  // The order has every request as often as it was made ...
  lemma {:induction false} OrderKeepsAll(requests: seq<Request>)
    ensures multiset(Order(requests)) == multiset(requests)
  {
    if requests != [] {
      var n := |requests| - 1;
      OrderKeepsAll(requests[..n]);
      InsertKeepsAll(Order(requests[..n]), requests[n]);
      assert requests == requests[..n] + [requests[n]];
    }
  }

  lemma {:induction false} InsertKeepsAll(l: seq<Request>, r: Request)
    ensures multiset(Insert(l, r)) == multiset(l) + multiset{r}
  {
    if l != [] && l[0].key <= r.key {
      InsertKeepsAll(l[1..], r);
      assert l == [l[0]] + l[1..];
    }
  }

  // ... by key ...
  predicate ByKey(l: seq<Request>) {
    forall i, j :: 0 <= i < j < |l| ==> l[i].key <= l[j].key
  }

  lemma {:induction false} OrderByKey(requests: seq<Request>)
    ensures ByKey(Order(requests))
  {
    if requests != [] {
      var n := |requests| - 1;
      OrderByKey(requests[..n]);
      InsertByKey(Order(requests[..n]), requests[n]);
    }
  }

  lemma {:induction false} InsertByKey(l: seq<Request>, r: Request)
    requires ByKey(l)
    ensures ByKey(Insert(l, r)) && (forall x :: x in Insert(l, r) <==> x in l || x == r)
  {
    if l != [] && l[0].key <= r.key {
      InsertByKey(l[1..], r);
      var m := Insert(l[1..], r);
      forall x ensures x in Insert(l, r) <==> x in l || x == r {
        assert l == [l[0]] + l[1..];
      }
      forall j | 0 <= j < |m| ensures l[0].key <= m[j].key {
        assert m[j] in m;
      }
    }
  }

  // ... and those with the same key as they were made.
  function WithKey(l: seq<Request>, key: nat): seq<Request> {
    if l == [] then []
    else WithKey(l[..|l| - 1], key) + (if l[|l| - 1].key == key then [l[|l| - 1]] else [])
  }

  lemma {:induction false} WithKeySplit(a: seq<Request>, b: seq<Request>, key: nat)
    ensures WithKey(a + b, key) == WithKey(a, key) + WithKey(b, key)
  {
    if b == [] {
      assert a + b == a;
    } else {
      var n := |b| - 1;
      assert (a + b)[..|a + b| - 1] == a + b[..n];
      WithKeySplit(a, b[..n], key);
    }
  }

  lemma {:induction false} NoneWithKey(l: seq<Request>, key: nat)
    requires forall i :: 0 <= i < |l| ==> l[i].key != key
    ensures WithKey(l, key) == []
  {
    if l != [] {
      NoneWithKey(l[..|l| - 1], key);
    }
  }

  // The first place whose key is greater.
  function Place(l: seq<Request>, key: nat): (j: nat)
    ensures j <= |l| && (forall i :: 0 <= i < j ==> l[i].key <= key) && (j < |l| ==> l[j].key > key)
  {
    if l == [] || l[0].key > key then 0 else 1 + Place(l[1..], key)
  }

  lemma InsertWithKey(l: seq<Request>, r: Request, key: nat)
    requires ByKey(l)
    ensures WithKey(Insert(l, r), key) == WithKey(l + [r], key)
  {
    hide Insert, WithKey, Place;
    var j := Place(l, r.key);
    InsertAt(l, r, j);
    var a, b := l[..j], l[j..];
    assert l == a + b;
    forall i | 0 <= i < |b| ensures b[i].key > r.key {
      assert b[i] == l[j + i];
    }
    hide ByKey;
    SwapWithKey(a, b, r, key);
  }

  lemma SwapWithKey(a: seq<Request>, b: seq<Request>, r: Request, key: nat)
    requires key == r.key ==> forall i :: 0 <= i < |b| ==> b[i].key != key
    ensures WithKey(a + [r] + b, key) == WithKey(a + b + [r], key)
  {
    WithKeySplit(a + [r], b, key);
    WithKeySplit(a, [r], key);
    WithKeySplit(a, b, key);
    WithKeySplit(a + b, [r], key);
    if key == r.key {
      NoneWithKey(b, key);
    } else {
      NoneWithKey([r], key);
    }
  }

  lemma {:induction false} OrderIsStable(requests: seq<Request>, key: nat)
    ensures WithKey(Order(requests), key) == WithKey(requests, key)
  {
    hide WithKey, Insert, ByKey;
    if requests != [] {
      var n := |requests| - 1;
      OrderIsStable(requests[..n], key);
      OrderByKey(requests[..n]);
      InsertWithKey(Order(requests[..n]), requests[n], key);
      WithKeySplit(Order(requests[..n]), [requests[n]], key);
      WithKeySplit(requests[..n], [requests[n]], key);
      assert requests == requests[..n] + [requests[n]];
    }
  }

  // ---- Times ----

  // The time of the entries before entry i.
  function Upto(es: seq<Callo>, i: nat): int
    requires i <= |es|
  {
    if i == 0 then 0 else Upto(es, i - 1) + es[i - 1].time
  }

  function Rest(key: nat, now: nat): nat {
    if key > now then key - now else 0
  }

  // Entry i stands for its request.
  ghost predicate EntryOk(es: seq<Callo>, gone: nat, pending: seq<Request>, now: nat, i: nat)
    requires gone <= i < |es| && i - gone < |pending|
  {
    && es[i].func == pending[i - gone].func && es[i].arg == pending[i - gone].arg
    && Upto(es, i + 1) == Rest(pending[i - gone].key, now)
  }

  // The entries es stand for pending; the first gone of them have been called already.
  ghost predicate Delta(es: seq<Callo>, gone: nat, pending: seq<Request>, now: nat) {
    && gone + |pending| == |es|
    && (forall i :: 0 <= i < |es| ==> es[i].func != 0 && es[i].time >= 0)
    && (forall i :: 0 <= i < gone ==> es[i].time == 0)
    && (forall i :: gone <= i < |es| ==> EntryOk(es, gone, pending, now, i))
  }

  lemma {:induction false} UptoSame(es: seq<Callo>, fs: seq<Callo>, i: nat)
    requires i <= |es| && i <= |fs| && forall k :: 0 <= k < i ==> es[k].time == fs[k].time
    ensures Upto(es, i) == Upto(fs, i)
  {
    if i > 0 {
      UptoSame(es, fs, i - 1);
    }
  }

  lemma {:induction false} UptoZero(es: seq<Callo>, i: nat)
    requires i <= |es| && forall k :: 0 <= k < i ==> es[k].time == 0
    ensures Upto(es, i) == 0
  {
    if i > 0 {
      UptoZero(es, i - 1);
    }
  }

  lemma {:induction false} UptoGrows(es: seq<Callo>, i: nat, j: nat)
    requires i <= j <= |es| && forall k :: 0 <= k < |es| ==> es[k].time >= 0
    ensures Upto(es, i) <= Upto(es, j)
  {
    if i < j {
      UptoGrows(es, i, j - 1);
    }
  }

  // What timeout makes of the entries: a new one before entry k, t after the entries before.
  function Added(es: seq<Callo>, k: nat, func: int, arg: int, t: int): seq<Callo>
    requires k <= |es|
  {
    es[..k] + [Callo(t, func, arg)]
    + (if k < |es| then [es[k].(time := es[k].time - t)] + es[k + 1..] else [])
  }

  lemma {:induction false} UptoAdded(es: seq<Callo>, k: nat, func: int, arg: int, t: int, i: nat)
    requires k <= |es| && i <= |es| + 1
    ensures Upto(Added(es, k, func, arg, t), i) ==
              if i <= k then Upto(es, i) else if i == k + 1 then Upto(es, k) + t else Upto(es, i - 1)
  {
    if i > 0 {
      UptoAdded(es, k, func, arg, t, i - 1);
    }
  }

  // timeout leaves every other deadline as it is, and puts its own where it belongs.
  lemma AddedDelta(es: seq<Callo>, gone: nat, pending: seq<Request>, now: nat,
                   k: nat, func: int, arg: int, delay: nat)
    requires Delta(es, gone, pending, now) && k <= |es| && func != 0
    requires Upto(es, k) <= delay && (k < |es| ==> Upto(es, k + 1) > delay)
    ensures Delta(Added(es, k, func, arg, delay - Upto(es, k)), gone,
                  Insert(pending, Request(func, arg, now + delay, now)), now)
  {
    hide Upto, Added, EntryOk, Insert;
    var t := delay - Upto(es, k);
    var fs := Added(es, k, func, arg, t);
    var r := Request(func, arg, now + delay, now);
    AddedBehind(es, gone, k, delay);
    AddedPlace(es, gone, pending, now, k, r);
    InsertAt(pending, r, k - gone);
    var ps := pending[..k - gone] + [r] + pending[k - gone..];
    AddedSize(es, k, func, arg, t);
    AddedTimes(es, k);
    forall i | gone <= i < |fs| ensures EntryOk(fs, gone, ps, now, i) {
      AddedEntry(es, gone, pending, now, k, r, i);
    }
    forall i | 0 <= i < |fs| ensures fs[i].func != 0 && fs[i].time >= 0 && (i < gone ==> fs[i].time == 0) {
      AddedIndex(es, k, func, arg, t, i);
    }
  }

  // A new entry is not among those that have been called.
  lemma AddedBehind(es: seq<Callo>, gone: nat, k: nat, delay: nat)
    requires gone <= |es| && k <= |es| && (forall i :: 0 <= i < gone ==> es[i].time == 0)
    requires k < |es| ==> Upto(es, k + 1) > delay
    ensures k >= gone
  {
    if k < gone {
      UptoZero(es, k + 1);
    }
  }

  lemma AddedTimes(es: seq<Callo>, k: nat)
    requires k <= |es|
    ensures k < |es| ==> es[k].time == Upto(es, k + 1) - Upto(es, k)
  {
  }

  lemma AddedEntry(es: seq<Callo>, gone: nat, pending: seq<Request>, now: nat, k: nat, r: Request, i: nat)
    requires Delta(es, gone, pending, now) && gone <= k <= |es| && gone <= i <= |es| && r.key >= now
    ensures |Added(es, k, r.func, r.arg, r.key - now - Upto(es, k))| == |es| + 1
    ensures EntryOk(Added(es, k, r.func, r.arg, r.key - now - Upto(es, k)), gone,
                    pending[..k - gone] + [r] + pending[k - gone..], now, i)
  {
    hide Upto, Added;
    var t := r.key - now - Upto(es, k);
    UptoAdded(es, k, r.func, r.arg, t, i + 1);
    AddedSize(es, k, r.func, r.arg, t);
    AddedIndex(es, k, r.func, r.arg, t, i);
    PlacedIndex(pending, k - gone, r, i - gone);
    if i < k {
      assert EntryOk(es, gone, pending, now, i);
    } else if i > k {
      assert EntryOk(es, gone, pending, now, i - 1);
    }
  }

  lemma PlacedIndex(l: seq<Request>, k: nat, r: Request, i: nat)
    requires k <= |l| && i <= |l|
    ensures (l[..k] + [r] + l[k..])[i] == if i < k then l[i] else if i == k then r else l[i - 1]
  {
  }

  lemma AddedPlace(es: seq<Callo>, gone: nat, pending: seq<Request>, now: nat, k: nat, r: Request)
    requires Delta(es, gone, pending, now) && gone <= k <= |es| && r.key >= now
    requires Upto(es, k) <= r.key - now && (k < |es| ==> Upto(es, k + 1) > r.key - now)
    ensures forall i :: 0 <= i < k - gone ==> pending[i].key <= r.key
    ensures k < |es| ==> pending[k - gone].key > r.key
  {
    forall i | 0 <= i < k - gone ensures pending[i].key <= r.key {
      UptoGrows(es, gone + i + 1, k);
      assert EntryOk(es, gone, pending, now, gone + i);
    }
    if k < |es| {
      assert EntryOk(es, gone, pending, now, k);
    }
  }

  // ---- A tick ----

  // The entries in front that have no time left.
  function Leading(es: seq<Callo>): (k: nat)
    ensures k <= |es| && (k < |es| ==> es[k].time > 0) && forall i :: 0 <= i < k ==> es[i].time <= 0
  {
    if es == [] || es[0].time > 0 then 0 else 1 + Leading(es[1..])
  }

  function Ticked(es: seq<Callo>): seq<Callo> {
    var k := Leading(es);
    if k < |es| then es[k := es[k].(time := es[k].time - 1)] else es
  }

  lemma {:induction false} UptoTicked(es: seq<Callo>, i: nat)
    requires i <= |es|
    ensures Upto(Ticked(es), i) == Upto(es, i) - (if i > Leading(es) then 1 else 0)
  {
    if i > 0 {
      UptoTicked(es, i - 1);
    }
  }

  // Each deadline that is not past comes nearer by one.
  lemma TickedUpto(es: seq<Callo>, i: nat)
    requires i < |es| && forall k :: 0 <= k < |es| ==> es[k].time >= 0
    ensures Upto(Ticked(es), i + 1) == if Upto(es, i + 1) > 0 then Upto(es, i + 1) - 1 else 0
  {
    var k := Leading(es);
    UptoTicked(es, i + 1);
    UptoZero(es, k);
    if i < k {
      UptoZero(es, i + 1);
    } else {
      UptoGrows(es, k + 1, i + 1);
    }
  }

  lemma TickedDelta(es: seq<Callo>, pending: seq<Request>, now: nat)
    requires Delta(es, 0, pending, now)
    ensures Delta(Ticked(es), 0, pending, now + 1)
  {
    var fs, next := Ticked(es), now + 1;
    forall i | 0 <= i < |fs| ensures EntryOk(fs, 0, pending, next, i) {
      TickedUpto(es, i);
      assert EntryOk(es, 0, pending, now, i);
    }
  }

  lemma {:induction false} UptoSuffix(es: seq<Callo>, k: nat, i: nat)
    requires k + i <= |es|
    ensures Upto(es[k..], i) == Upto(es, k + i) - Upto(es, k)
  {
    if i > 0 {
      UptoSuffix(es, k, i - 1);
    }
  }

  // The entries called are dropped from the front.
  lemma DroppedDelta(es: seq<Callo>, gone: nat, pending: seq<Request>, now: nat)
    requires Delta(es, gone, pending, now)
    ensures Delta(es[gone..], 0, pending, now)
  {
    UptoZero(es, gone);
    forall i | 0 <= i < |es| - gone ensures EntryOk(es[gone..], 0, pending, now, i) {
      UptoSuffix(es, gone, i + 1);
      assert EntryOk(es, gone, pending, now, gone + i);
    }
  }

  // ---- Service ----

  // A request and the tick at which its function was called.
  datatype Served = Served(request: Request, tick: nat)

  function Requests(log: seq<Served>): (r: seq<Request>)
    ensures |r| == |log|
  {
    if log == [] then [] else [log[0].request] + Requests(log[1..])
  }

  lemma {:induction false} RequestsAppend(log: seq<Served>, x: Served)
    ensures Requests(log + [x]) == Requests(log) + [x.request]
  {
    if log == [] {
      assert log + [x] == [x];
    } else {
      assert (log + [x])[1..] == log[1..] + [x];
      RequestsAppend(log[1..], x);
    }
  }

  // Everything requested has been called at its time or is pending, in order. While a clock
  // tick calls functions, firing holds.
  ghost predicate Kept(requests: seq<Request>, log: seq<Served>, pending: seq<Request>, now: nat, firing: bool) {
    && Requests(log) + pending == Order(requests)
    && (forall k :: 0 <= k < |log| ==> log[k].tick == Due(log[k].request) <= now && log[k].request.key <= now)
    && (forall k :: 0 <= k < |pending| ==>
          && pending[k].made <= pending[k].key && pending[k].made <= now
          && if firing then Due(pending[k]) >= now && (pending[k].key <= now ==> pending[k].made < now)
             else pending[k].key >= now && Due(pending[k]) > now)
  }

  lemma {:induction false} RequestsKeys(log: seq<Served>, key: nat)
    requires forall k :: 0 <= k < |log| ==> log[k].request.key <= key
    ensures forall k :: 0 <= k < |log| ==> Requests(log)[k].key <= key
  {
    if log != [] {
      RequestsKeys(log[1..], key);
    }
  }

  lemma {:induction false} InsertMembers(l: seq<Request>, r: Request)
    ensures forall k :: 0 <= k < |Insert(l, r)| ==> Insert(l, r)[k] == r || Insert(l, r)[k] in l
  {
    if l != [] && l[0].key <= r.key {
      InsertMembers(l[1..], r);
    }
  }

  lemma InsertKept(requests: seq<Request>, log: seq<Served>, pending: seq<Request>, now: nat, firing: bool, r: Request)
    requires Kept(requests, log, pending, now, firing) && r.made == now <= r.key && (firing ==> r.key > now)
    ensures Kept(requests + [r], log, Insert(pending, r), now, firing)
  {
    RequestsKeys(log, r.key);
    InsertAfter(Requests(log), pending, r);
    assert (requests + [r])[..|requests|] == requests;
    InsertMembers(pending, r);
  }

  // The first pending request is called.
  lemma CallKept(requests: seq<Request>, log: seq<Served>, pending: seq<Request>, now: nat)
    requires Kept(requests, log, pending, now, true) && pending != [] && pending[0].key <= now
    ensures Kept(requests, log + [Served(pending[0], now)], pending[1..], now, true)
  {
    RequestsAppend(log, Served(pending[0], now));
    assert Requests(log) + [pending[0]] + pending[1..] == Requests(log) + pending;
  }

  // The calls that the function called k-th makes, of those that a tick calls.
  function Nested(calls: seq<seq<Call>>, k: nat): seq<Call> {
    if k < |calls| then calls[k] else []
  }

  // How many calls there are from the k-th on.
  function Room(calls: seq<seq<Call>>, k: nat): nat
    decreases |calls| - k
  {
    if k < |calls| then |calls[k]| + Room(calls, k + 1) else 0
  }

  // n requests more have been served at tick now.
  ghost predicate Longer(was: seq<Served>, log: seq<Served>, n: nat, now: nat) {
    && |log| == |was| + n && log[..|was|] == was
    && forall k :: |was| <= k < |log| ==> log[k].tick == now
  }

  lemma Longer0(log: seq<Served>, now: nat)
    ensures Longer(log, log, 0, now)
  {
  }

  class Callouts {
    const callout: array<Callo>
    ghost var count: nat
    ghost var gone: nat
    ghost var firing: bool
    ghost var now: nat
    ghost var pending: seq<Request>
    ghost var requests: seq<Request>
    ghost var log: seq<Served>

    ghost predicate Valid()
      reads this, callout
    {
      && callout.Length == NCALL && count < NCALL && callout[count].func == 0
      && Delta(callout[..count], gone, pending, now) && (!firing ==> gone == 0)
      && Kept(requests, log, pending, now, firing)
    }

    // The entries, without what they stand for.
    ghost predicate Shape()
      reads this`count, callout
    {
      && callout.Length == NCALL && count < NCALL && callout[count].func == 0
      && forall i :: 0 <= i < count ==> callout[i].func != 0
    }

    constructor ()
      ensures Valid() && fresh(callout) && !firing && now == 0 && requests == [] && log == []
    {
      callout := new Callo[NCALL](_ => Callo(0, 0, 0));
      count, gone, firing, now, pending, requests, log := 0, 0, false, 0, [], [], [];
    }

    // Moves the entries from p1 on, and the end mark, up by one.
    method ShiftUp(p1: nat)
      requires callout.Length == NCALL && p1 <= count && count + 1 < NCALL && callout[count].func == 0
      requires forall i :: 0 <= i < count ==> callout[i].func != 0
      modifies callout
      ensures forall i :: 0 <= i < p1 ==> callout[i] == old(callout[i])
      ensures forall i :: p1 < i < count + 2 ==> callout[i] == old(callout[i - 1])
    {
      var p2: int := p1;
      while callout[p2].func != 0
        invariant p1 <= p2 <= count
        decreases count - p2
      {
        p2 := p2 + 1;
      }
      assert p2 == count;
      ghost var was := callout[..];
      while p2 >= p1
        invariant p1 - 1 <= p2 <= count
        invariant forall i :: 0 <= i <= p2 ==> callout[i] == was[i]
        invariant forall i :: p2 + 2 <= i < count + 2 ==> callout[i] == was[i - 1]
        decreases p2
      {
        callout[p2 + 1] := callout[p2];
        p2 := p2 - 1;
      }
    }

    // Where an entry for tim ticks belongs, and its time from the entry before it.
    method Search(tim: int) returns (p1: nat, t: int)
      requires Shape()
      ensures p1 == Spot(callout[..count], tim) <= count && t == tim - Upto(callout[..count], p1)
    {
      ghost var es := callout[..count];
      p1, t := 0, tim;
      while callout[p1].func != 0 && callout[p1].time <= t
        invariant p1 <= count && t == tim - Upto(es, p1)
        invariant forall i :: 0 < i <= p1 ==> Upto(es, i) <= tim
        decreases count - p1
      {
        assert callout[p1] == es[p1];
        t := t - callout[p1].time;
        p1 := p1 + 1;
      }
      assert p1 < count ==> callout[p1] == es[p1];
      SpotIs(es, tim, p1);
    }

    // Makes place for an entry at p1 and stores it.
    method Put(p1: nat, t: int, fun: int, arg: int)
      requires Shape() && p1 <= count && count + 1 < NCALL
      modifies callout
      ensures callout[..count + 1] == Added(old(callout[..count]), p1, fun, arg, t)
      ensures callout[count + 1].func == 0
    {
      hide Added;
      ghost var es := callout[..count];
      assert forall i :: 0 <= i < count ==> callout[i] == es[i];
      callout[p1] := callout[p1].(time := callout[p1].time - t);
      ShiftUp(p1);
      callout[p1] := Callo(t, fun, arg);
      ghost var fs := Added(es, p1, fun, arg, t);
      AddedSize(es, p1, fun, arg, t);
      forall i | 0 <= i < count + 1 ensures callout[i] == fs[i] {
        AddedIndex(es, p1, fun, arg, t, i);
      }
    }

    // fun(arg) is to be called after tim ticks. The entry goes in front of the first one that
    // is later, whatever tim is. When tim is not negative (and, while functions are called,
    // positive), the entries go on to stand for what was requested.
    method Timeout(fun: int, arg: int, tim: int)
      requires Shape() && fun != 0 && count + 1 < NCALL
      modifies this`count, this`pending, this`requests, callout
      ensures Shape() && count == old(count) + 1
      ensures var es := old(callout[..count]);
              callout[..count] == Added(es, Spot(es, tim), fun, arg, tim - Upto(es, Spot(es, tim)))
      ensures old(Valid()) && Ahead(tim) ==>
                && Valid() && requests == old(requests) + [Request(fun, arg, now + tim, now)]
                && pending == Insert(old(pending), Request(fun, arg, now + tim, now))
    {
      hide Valid, Insert, Upto, Added, Kept, Delta, Spot;
      ghost var es := callout[..count];
      ghost var valid := Valid() && Ahead(tim);
      var p1, t := Search(tim);
      if valid {
        SpotFacts(es, tim);
        EnteredKept(es, p1, Request(fun, arg, now + tim, now));
      }
      AddedNamed(es, p1, fun, arg, t);
      Put(p1, t, fun, arg);
      count := count + 1;
      if valid {
        pending, requests :=
          Insert(pending, Request(fun, arg, now + tim, now)), requests + [Request(fun, arg, now + tim, now)];
        IsValid();
      }
    }

    ghost predicate Ahead(tim: int)
      reads this`firing
    {
      tim >= 0 && (firing ==> tim > 0)
    }

    lemma EnteredKept(es: seq<Callo>, p1: nat, r: Request)
      requires Valid() && es == callout[..count] && r.made == now <= r.key && r.func != 0 && (firing ==> r.key > now)
      requires p1 <= count && Upto(es, p1) <= r.key - now && (p1 < count ==> Upto(es, p1 + 1) > r.key - now)
      ensures Delta(Added(es, p1, r.func, r.arg, r.key - now - Upto(es, p1)), gone, Insert(pending, r), now)
      ensures Kept(requests + [r], log, Insert(pending, r), now, firing)
      ensures callout.Length == NCALL && (!firing ==> gone == 0)
    {
      hide Kept, Delta, Insert, Upto, Added;
      AddedDelta(es, gone, pending, now, p1, r.func, r.arg, r.key - now);
      InsertKept(requests, log, pending, now, firing, r);
    }

    lemma IsValid()
      requires callout.Length == NCALL && count < NCALL && callout[count].func == 0
      requires Delta(callout[..count], gone, pending, now) && (!firing ==> gone == 0)
      requires Kept(requests, log, pending, now, firing)
      ensures Valid()
    {
    }

    // The first entry with time left, if any, has one tick less; the end mark's time means
    // nothing.
    method Decrement()
      requires Valid() && !firing && count > 0
      modifies callout
      ensures callout[..count] == Ticked(old(callout[..count])) && callout[count].func == 0
    {
      ghost var es := callout[..count];
      EntriesNamed(es, gone, pending, now);
      hide Kept, Delta;
      var p2 := 0;
      while callout[p2].time <= 0 && callout[p2].func != 0
        invariant 0 <= p2 <= count && forall i :: 0 <= i < p2 ==> es[i].time <= 0
        decreases count - p2
      {
        assert callout[p2] == es[p2];
        p2 := p2 + 1;
      }
      assert p2 < count ==> callout[p2] == es[p2];
      LeadingIs(es, p2);
      callout[p2] := callout[p2].(time := callout[p2].time - 1);
    }

    // Moves what follows the entries called to the front.
    method Compact(start: nat)
      requires callout.Length == NCALL && start == gone <= count < NCALL && callout[count].func == 0
      requires forall i :: 0 <= i < count ==> callout[i].func != 0
      modifies callout
      ensures callout[..count - gone] == old(callout[gone..count]) && callout[count - gone].func == 0
    {
      ghost var was := callout[..];
      var p1, p2 := start, 0;
      callout[p2] := callout[p2].(func := callout[p1].func);
      while callout[p2].func != 0
        invariant gone <= p1 <= count && p2 == p1 - gone
        invariant forall i :: 0 <= i < p2 ==> callout[i] == was[start + i]
        invariant forall i :: p1 <= i < NCALL ==> callout[i] == was[i]
        invariant callout[p2].func == was[p1].func
        decreases count - p1
      {
        callout[p2] := Callo(callout[p1].time, callout[p2].func, callout[p1].arg);
        p1, p2 := p1 + 1, p2 + 1;
        callout[p2] := callout[p2].(func := callout[p1].func);
      }
      assert p1 == count;
      assert forall i :: 0 <= i < count - gone ==> callout[i] == was[gone + i];
    }

    // The calls of timeout made by the function called k-th.
    method MakeCalls(calls: seq<seq<Call>>, k: nat)
      requires Valid() && firing && GoodCalls(calls) && count + Room(calls, k) < NCALL
      modifies this`count, this`pending, this`requests, callout
      ensures Valid() && count + Room(calls, k + 1) < NCALL
      ensures requests == old(requests) + Asked(Nested(calls, k), now)
    {
      var cs, i := Nested(calls, k), 0;
      hide Kept, Delta;
      assert cs[..0] == [];
      while i < |cs|
        invariant 0 <= i <= |cs| && Valid() && count + (|cs| - i) + Room(calls, k + 1) < NCALL
        invariant requests == old(requests) + Asked(cs[..i], now)
      {
        AskedAppend(cs, i, now);
        GoneBounds();
        Timeout(cs[i].func, cs[i].arg, cs[i].delay);
        i := i + 1;
      }
      assert cs[..i] == cs;
    }

    // Calls the functions whose time has come.
    method Fire(calls: seq<seq<Call>>) returns (p1: nat)
      requires Valid() && firing && gone == 0 && GoodCalls(calls) && count + Room(calls, 0) < NCALL
      modifies this`count, this`gone, this`pending, this`requests, this`log, callout
      ensures Valid() && p1 == gone && (callout[gone].func == 0 || callout[gone].time > 0)
      ensures Longer(old(log), log, gone, now) && requests == old(requests) + AskedBy(calls, gone, now)
    {
      hide Kept, Delta, Upto, Longer, Room, Nested, Valid;
      p1 := 0;
      GoneBounds();
      Longer0(log, now);
      while callout[p1].func != 0 && callout[p1].time <= 0
        invariant Valid() && p1 == gone <= count && count + Room(calls, p1) < NCALL
        invariant Longer(old(log), log, p1, now) && requests == old(requests) + AskedBy(calls, p1, now)
        decreases NCALL - p1
      {
        GoneBounds();
        Serve();
        MakeCalls(calls, p1);
        GoneBounds();
        p1 := p1 + 1;
      }
    }

    // The function of the first pending request is called.
    ghost method Serve()
      requires Valid() && firing && gone < count && callout[gone].time <= 0
      modifies this`gone, this`pending, this`log
      ensures Valid() && gone == old(gone) + 1
      ensures forall l, n: nat :: Longer(l, old(log), n, now) ==> Longer(l, log, n + 1, now)
    {
      hide Kept, Delta;
      assert callout[gone] == callout[..count][gone];
      CallDelta(callout[..count], gone, pending, now);
      CallKept(requests, log, pending, now);
      log, pending, gone := log + [Served(pending[0], now)], pending[1..], gone + 1;
    }

    lemma GoneBounds()
      requires Valid()
      ensures gone <= count < NCALL == callout.Length && callout[count].func == 0
      ensures Delta(callout[..count], gone, pending, now) && Kept(requests, log, pending, now, firing)
      ensures Shape()
    {
      assert forall i :: 0 <= i < count ==> callout[i] == callout[..count][i];
    }

    // One clock tick; the function called k-th makes the calls of calls[k].
    method Clock(calls: seq<seq<Call>>)
      requires Valid() && !firing && GoodCalls(calls) && count + Room(calls, 0) < NCALL
      modifies this`count, this`gone, this`firing, this`now, this`pending, this`requests, this`log, callout
      ensures Valid() && !firing && now == old(now) + 1
      ensures exists n: nat :: Longer(old(log), log, n, now) && requests == old(requests) + AskedBy(calls, n, now)
    {
      hide Kept, Delta, Leading, Ticked, Longer;
      Longer0(log, now + 1);
      if callout[0].func == 0 {
        assert count > 0 ==> callout[..count][0] == callout[0];
        EntriesNamed(callout[..count], gone, pending, now);
        IdleKept(callout[..count], requests, log, pending, now);
        now := now + 1;
        return;
      }
      assert count > 0;
      TickedDelta(callout[..count], pending, now);
      TickKept(requests, log, pending, now);
      Decrement();
      now, firing := now + 1, true;
      if callout[0].time <= 0 {
        var p1 := Fire(calls);
        GoneBounds();
        EntriesNamed(callout[..count], gone, pending, now);
        assert forall i :: 0 <= i < count ==> callout[i] == callout[..count][i];
        SettledKept(callout[..count], gone, requests, log, pending, now);
        DroppedDelta(callout[..count], gone, pending, now);
        assert callout[gone..count] == callout[..count][gone..];
        Compact(p1);
        count, gone := count - gone, 0;
      } else {
        assert callout[0] == callout[..count][0];
        SettledKept(callout[..count], gone, requests, log, pending, now);
      }
      firing := false;
    }
  }

  // What these calls of timeout request at tick now.
  function Asked(cs: seq<Call>, now: nat): seq<Request> {
    if cs == [] then []
    else
      var c := cs[|cs| - 1];
      Asked(cs[..|cs| - 1], now) + [Request(c.func, c.arg, now + c.delay, now)]
  }

  lemma AskedAppend(cs: seq<Call>, i: nat, now: nat)
    requires i < |cs|
    ensures Asked(cs[..i + 1], now) ==
              Asked(cs[..i], now) + [Request(cs[i].func, cs[i].arg, now + cs[i].delay, now)]
  {
    assert cs[..i + 1][..i] == cs[..i];
  }

  // What the first n functions called request.
  function AskedBy(calls: seq<seq<Call>>, n: nat, now: nat): seq<Request> {
    if n == 0 then [] else AskedBy(calls, n - 1, now) + Asked(Nested(calls, n - 1), now)
  }

  ghost predicate GoodCalls(calls: seq<seq<Call>>) {
    forall i, j :: 0 <= i < |calls| && 0 <= j < |calls[i]| ==> calls[i][j].func != 0 && calls[i][j].delay > 0
  }

  lemma CallDelta(es: seq<Callo>, gone: nat, pending: seq<Request>, now: nat)
    requires Delta(es, gone, pending, now) && gone < |es| && es[gone].time <= 0
    ensures pending != [] && pending[0].key <= now && Delta(es, gone + 1, pending[1..], now)
  {
    assert EntryOk(es, gone, pending, now, gone);
    UptoZero(es, gone + 1);
    var next, rest := gone + 1, pending[1..];
    forall i | next <= i < |es| ensures EntryOk(es, next, rest, now, i) {
      assert EntryOk(es, gone, pending, now, i);
    }
  }

  lemma IdleKept(es: seq<Callo>, requests: seq<Request>, log: seq<Served>, pending: seq<Request>, now: nat)
    requires Delta(es, 0, pending, now) && es == [] && Kept(requests, log, pending, now, false)
    ensures Delta(es, 0, pending, now + 1) && Kept(requests, log, pending, now + 1, false)
  {
  }

  lemma TickKept(requests: seq<Request>, log: seq<Served>, pending: seq<Request>, now: nat)
    requires Kept(requests, log, pending, now, false)
    ensures Kept(requests, log, pending, now + 1, true)
  {
  }

  // Nothing whose time has come is left.
  lemma SettledKept(es: seq<Callo>, gone: nat, requests: seq<Request>, log: seq<Served>,
                    pending: seq<Request>, now: nat)
    requires Delta(es, gone, pending, now) && (gone < |es| ==> es[gone].time > 0)
    requires Kept(requests, log, pending, now, true)
    ensures Kept(requests, log, pending, now, false)
  {
    UptoZero(es, gone);
    forall k | 0 <= k < |pending| ensures pending[k].key > now {
      assert EntryOk(es, gone, pending, now, gone + k);
      UptoGrows(es, gone + 1, gone + k + 1);
    }
  }

  // The place of a new entry for tim: before the first one that is later.
  function Spot(es: seq<Callo>, tim: int): (k: nat)
    ensures k <= |es| && (forall i :: 0 < i <= k ==> Upto(es, i) <= tim)
    ensures k < |es| ==> Upto(es, k + 1) > tim
  {
    SpotFrom(es, tim, 0)
  }

  function SpotFrom(es: seq<Callo>, tim: int, j: nat): (k: nat)
    requires j <= |es| && forall i :: 0 < i <= j ==> Upto(es, i) <= tim
    ensures j <= k <= |es| && (forall i :: 0 < i <= k ==> Upto(es, i) <= tim)
    ensures k < |es| ==> Upto(es, k + 1) > tim
    decreases |es| - j
  {
    if j < |es| && Upto(es, j + 1) <= tim then SpotFrom(es, tim, j + 1) else j
  }

  lemma SpotIs(es: seq<Callo>, tim: int, k: nat)
    requires k <= |es| && (forall i :: 0 < i <= k ==> Upto(es, i) <= tim)
    requires k < |es| ==> Upto(es, k + 1) > tim
    ensures Spot(es, tim) == k
  {
    hide Upto;
    var j := Spot(es, tim);
  }

  lemma SpotFacts(es: seq<Callo>, tim: nat)
    ensures var k := Spot(es, tim);
            Upto(es, k) <= tim && (k < |es| ==> Upto(es, k + 1) > tim)
  {
    var k := Spot(es, tim);
  }

  lemma AddedNamed(es: seq<Callo>, k: nat, func: int, arg: int, t: int)
    requires k <= |es| && func != 0 && forall i :: 0 <= i < |es| ==> es[i].func != 0
    ensures |Added(es, k, func, arg, t)| == |es| + 1
    ensures forall i :: 0 <= i <= |es| ==> Added(es, k, func, arg, t)[i].func != 0
  {
  }

  // A new entry leaves every other deadline as it is, and its own is tim, whatever tim is.
  lemma TimeoutDeadlines(es: seq<Callo>, func: int, arg: int, tim: int, i: nat)
    requires i <= |es|
    ensures var k := Spot(es, tim);
            var fs := Added(es, k, func, arg, tim - Upto(es, k));
            && |fs| == |es| + 1 && fs[k].func == func && fs[k].arg == arg
            && Upto(fs, i + 1) == if i < k then Upto(es, i + 1) else if i == k then tim else Upto(es, i)
  {
    var k := Spot(es, tim);
    UptoAdded(es, k, func, arg, tim - Upto(es, k), i + 1);
  }

  lemma AddedSize(es: seq<Callo>, k: nat, func: int, arg: int, t: int)
    requires k <= |es|
    ensures |Added(es, k, func, arg, t)| == |es| + 1
  {
  }

  lemma AddedIndex(es: seq<Callo>, k: nat, func: int, arg: int, t: int, i: nat)
    requires k <= |es| && i <= |es| < |Added(es, k, func, arg, t)|
    ensures Added(es, k, func, arg, t)[i] ==
              if i < k then es[i] else if i == k then Callo(t, func, arg)
              else if i == k + 1 then es[k].(time := es[k].time - t) else es[i - 1]
  {
  }

  lemma LeadingIs(es: seq<Callo>, k: nat)
    requires k <= |es| && (forall i :: 0 <= i < k ==> es[i].time <= 0) && (k < |es| ==> es[k].time > 0)
    ensures Leading(es) == k
  {
  }

  lemma EntriesNamed(es: seq<Callo>, gone: nat, pending: seq<Request>, now: nat)
    requires Delta(es, gone, pending, now)
    ensures forall i :: 0 <= i < |es| ==> es[i].func != 0
  {
  }

  // ---- What it comes to ----

  lemma {:induction false} RequestsIn(log: seq<Served>, r: Request)
    ensures r in Requests(log) <==> exists k :: 0 <= k < |log| && log[k].request == r
  {
    if log != [] {
      RequestsIn(log[1..], r);
      if r in Requests(log[1..]) {
        var k :| 0 <= k < |log[1..]| && log[1..][k].request == r;
        assert log[k + 1].request == r;
      }
      if k: int :| 0 <= k < |log| && log[k].request == r && k > 0 {
        assert log[1..][k - 1].request == r;
      }
    }
  }

  // Between ticks, every request whose time has come has been served, once, at its time, and
  // no other has; they are in order of their times, and those for the same time in the order
  // in which they were made.
  lemma ServedOnceAtItsTime(requests: seq<Request>, log: seq<Served>, pending: seq<Request>, now: nat)
    requires Kept(requests, log, pending, now, false)
    ensures multiset(Requests(log)) + multiset(pending) == multiset(requests)
    ensures forall r :: r in Requests(log) <==> r in requests && Due(r) <= now
    ensures forall k :: 0 <= k < |log| ==> log[k].tick == Due(log[k].request)
    ensures ByKey(Requests(log) + pending)
    ensures forall key: nat :: WithKey(Requests(log) + pending, key) == WithKey(requests, key)
  {
    var all := Requests(log) + pending;
    OrderKeepsAll(requests);
    OrderByKey(requests);
    assert multiset(all) == multiset(Requests(log)) + multiset(pending);
    forall key: nat ensures WithKey(all, key) == WithKey(requests, key) {
      OrderIsStable(requests, key);
    }
    forall r ensures r in Requests(log) <==> r in requests && Due(r) <= now {
      RequestsIn(log, r);
      assert r in requests <==> r in multiset(requests);
      assert r in all <==> r in multiset(all);
    }
  }

  // With entries whose time is negative in front (timeout does not refuse a negative delay)
  // a tick does not bring the deadlines behind them nearer by one: it does so exactly when
  // every entry in front that has no time left has time 0.
  lemma DropsByOneExactly(es: seq<Callo>, i: nat)
    requires Leading(es) < |es| && forall j :: Leading(es) <= j < |es| ==> es[j].time >= 0
    requires Leading(Ticked(es)) <= i < |es|
    ensures var m := Leading(Ticked(es));
            Upto(Ticked(es)[m..], i - m + 1) == Upto(es, i + 1) - 1
            <==> forall j :: 0 <= j < Leading(es) ==> es[j].time == 0
  {
    var k, m := Leading(es), Leading(Ticked(es));
    var fs := Ticked(es);
    assert m >= k;
    UptoSuffix(fs, m, i - m + 1);
    UptoTicked(es, i + 1);
    UptoTicked(es, k);
    UptoFlat(fs, k, m);
    UptoNegative(es, k);
  }

  lemma {:induction false} UptoFlat(es: seq<Callo>, k: nat, m: nat)
    requires k <= m <= |es| && forall j :: k <= j < m ==> es[j].time == 0
    ensures Upto(es, m) == Upto(es, k)
  {
    if k < m {
      UptoFlat(es, k, m - 1);
    }
  }

  lemma {:induction false} UptoNegative(es: seq<Callo>, k: nat)
    requires k <= |es| && forall j :: 0 <= j < k ==> es[j].time <= 0
    ensures Upto(es, k) <= 0 && (Upto(es, k) == 0 <==> forall j :: 0 <= j < k ==> es[j].time == 0)
  {
    if k > 0 {
      UptoNegative(es, k - 1);
    }
  }
}
