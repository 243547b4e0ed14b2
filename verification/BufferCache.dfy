// The buffer cache (dmr/bio.c) over the disk queue (dmr/rk.c), as a state machine. Any
// number of processes run getblk, bread, breada, bwrite, bawrite, bdwrite, brelse and
// bflush; a step is what one of them does between two points where an interrupt or another
// process may come in. A disk interrupt finishes the head of the queue.
//
// The pointer structure of the lists is in BufferLists.dfy; here a list is a sequence.
module BufferCache {
  import opened Wrappers
  import opened Machine

  // b_dev and b_blkno of a buffer that belongs to a device.
  datatype Key = Key(dev: nat, blkno: nat)

  // A buffer header and its 514 bytes. wanted is B_WANTED; changed says that the process
  // holding the buffer has stored into it since its contents were those of the block.
  datatype Buf = Buf(
    key: Option<Key>, busy: bool, done: bool, read: bool, async: bool, delwri: bool, wanted: bool,
    data: seq<Byte>, holder: Holder, changed: bool)

  datatype Holder = Nobody | By(pid: nat) | Disk

  // What to do with the buffer that getblk returns.
  datatype Next =
    | Plain                                       // getblk
    | ReadIt                                      // bread
    | First(ahead: Option<Key>)                   // breada, the block itself
    | Ahead(main: Option<nat>, mainKey: Key)      // breada, the read-ahead block

  // Where a process is.
  datatype Activity =
    | Run
    | Get(want: Option<Key>, next: Next)                      // top of getblk's loop
    | Got(b: nat, want: Option<Key>, next: Next)              // getblk has returned b
    | Check(main: Option<nat>, mainKey: Key, ahead: Option<Key>)  // breada, before the read-ahead
    | Wait(b: nat, waitKey: Key, release: bool)               // iowait

  datatype Channel = OnBuf(b: nat) | OnFree

  datatype Proc = Proc(act: Activity, sleep: Option<Channel>)

  // issued and finished list the requests given to and completed by the driver.
  datatype State = State(
    bufs: seq<Buf>, avail: seq<nat>, freeWanted: bool, queue: seq<nat>,
    disk: map<Key, Block>, logical: map<Key, Block>, procs: map<nat, Proc>,
    issued: seq<nat>, finished: seq<nat>)

  function At(m: map<Key, Block>, k: Key): Block {
    if k in m then m[k] else ZeroBlock()
  }

  // ---- Primitives ----

  function SetAct(s: State, p: nat, a: Activity): State {
    s.(procs := s.procs[p := Proc(a, None)])
  }

  function Woken(procs: map<nat, Proc>, c: Channel): map<nat, Proc> {
    map p | p in procs :: if procs[p].sleep == Some(c) then procs[p].(sleep := None) else procs[p]
  }

  // The index of the buffer associated with k, or |bufs|.
  function Find(bufs: seq<Buf>, k: Key): (b: nat)
    ensures b <= |bufs|
    ensures b < |bufs| ==> bufs[b].key == Some(k)
    ensures b == |bufs| ==> forall j :: 0 <= j < |bufs| ==> bufs[j].key != Some(k)
  {
    if bufs == [] then 0 else if bufs[0].key == Some(k) then 0 else 1 + Find(bufs[1..], k)
  }

  predicate Incore(s: State, k: Key) {
    Find(s.bufs, k) < |s.bufs|
  }

  function Without(l: seq<nat>, b: nat): (r: seq<nat>)
    ensures forall x :: x in r <==> x in l && x != b
  {
    if l == [] then [] else if l[0] == b then Without(l[1..], b) else [l[0]] + Without(l[1..], b)
  }

  // notavail: off the available list, busy.
  function Notavail(s: State, b: nat, h: Holder): State
    requires b < |s.bufs|
  {
    s.(avail := Without(s.avail, b), bufs := s.bufs[b := s.bufs[b].(busy := true, holder := h, changed := false)])
  }

  // getblk: a clean buffer moves to another block, with contents that mean nothing.
  function Reassign(s: State, b: nat, want: Option<Key>, p: nat): State
    requires b < |s.bufs|
  {
    s.(avail := Without(s.avail, b),
       bufs := s.bufs[b := Buf(want, true, false, false, false, false, false, s.bufs[b].data, By(p), false)])
  }

  function Announced(s: State, b: nat): map<nat, Proc>
    requires b < |s.bufs|
  {
    var procs := if s.bufs[b].wanted then Woken(s.procs, OnBuf(b)) else s.procs;
    if s.freeWanted then Woken(procs, OnFree) else procs
  }

  // brelse: to the tail of the available list; sleepers on the buffer or on the list wake.
  function Brelse(s: State, b: nat): State
    requires b < |s.bufs|
  {
    s.(procs := Announced(s, b), freeWanted := false, avail := s.avail + [b],
       bufs := s.bufs[b := s.bufs[b].(busy := false, wanted := false, async := false, holder := Nobody)])
  }

  // d_strategy: the request goes to the tail of the driver's queue.
  function Start(s: State, b: nat, buf: Buf): State
    requires b < |s.bufs|
  {
    s.(bufs := s.bufs[b := buf], queue := s.queue + [b], issued := s.issued + [b])
  }

  function StartRead(s: State, b: nat, async: bool): State
    requires b < |s.bufs|
  {
    var x := s.bufs[b];
    Start(s, b, x.(read := true, async := async, holder := if async then Disk else x.holder))
  }

  // bwrite up to the wait: the flags, then d_strategy.
  function StartWrite(s: State, b: nat, async: bool): State
    requires b < |s.bufs|
  {
    var x := s.bufs[b];
    Start(s, b, x.(read := false, done := false, delwri := false, changed := false,
                   async := async, holder := if async then Disk else x.holder))
  }

  // Whether p may use b: it holds it and is not in the middle of an operation on it.
  predicate Holds(s: State, p: nat, b: nat) {
    p in s.procs && s.procs[p].act == Run && b < |s.bufs| && s.bufs[b].holder == By(p)
  }

  // ---- Steps ----

  datatype Event =
    | CallGetblk(p: nat, want: Option<Key>)
    | CallBread(p: nat, k: Key)
    | CallBreada(p: nat, k: Key, ahead: Option<Key>)
    | GetStep(p: nat)                   // one pass of getblk's loop
    | UseStep(p: nat)                   // what follows getblk in bread and breada
    | CheckStep(p: nat)                 // breada: is the read-ahead block in core?
    | WaitStep(p: nat)                  // one pass of iowait's loop, and what follows it
    | Store(p: nat, b: nat, data: Block)
    | CallBwrite(p: nat, b: nat)
    | CallBawrite(p: nat, b: nat)
    | CallBdwrite(p: nat, b: nat)
    | CallBrelse(p: nat, b: nat)
    | Flush(p: nat, dev: Option<nat>)   // one pass of bflush's loop; None is NODEV
    | Interrupt

  // When a step can happen. A process must not release a valid buffer that it has changed
  // without writing it; the interrupt needs a request.
  predicate Enabled(s: State, e: Event) {
    match e
    case CallGetblk(p, _) => p in s.procs && s.procs[p].act == Run
    case CallBread(p, _) => p in s.procs && s.procs[p].act == Run
    case CallBreada(p, _, _) => p in s.procs && s.procs[p].act == Run
    case GetStep(p) => p in s.procs && s.procs[p].sleep == None && s.procs[p].act.Get?
    case UseStep(p) => p in s.procs && s.procs[p].act.Got?
    case CheckStep(p) => p in s.procs && s.procs[p].act.Check?
    case WaitStep(p) => p in s.procs && s.procs[p].sleep == None && s.procs[p].act.Wait?
    case Store(p, b, _) => Holds(s, p, b)
    case CallBwrite(p, b) => Holds(s, p, b) && s.bufs[b].key.Some?
    case CallBawrite(p, b) => Holds(s, p, b) && s.bufs[b].key.Some?
    case CallBdwrite(p, b) => Holds(s, p, b) && s.bufs[b].key.Some?
    case CallBrelse(p, b) => Holds(s, p, b) && !(s.bufs[b].done && s.bufs[b].changed)
    case Flush(p, _) => p in s.procs && s.procs[p].act == Run
    case Interrupt => s.queue != []
  }

  // One pass of the loop in getblk.
  function GetPass(s: State, p: nat, want: Option<Key>, next: Next): State
    requires InRange(s.avail, |s.bufs|)
  {
    if want.Some? && Incore(s, want.value) then
      var b := Find(s.bufs, want.value);
      if s.bufs[b].busy then
        s.(bufs := s.bufs[b := s.bufs[b].(wanted := true)],
           procs := s.procs[p := Proc(Get(want, next), Some(OnBuf(b)))])
      else SetAct(Notavail(s, b, By(p)), p, Got(b, want, next))
    else if s.avail == [] then
      s.(freeWanted := true, procs := s.procs[p := Proc(Get(want, next), Some(OnFree))])
    else
      var b := s.avail[0];
      if s.bufs[b].delwri then StartWrite(Notavail(s, b, Disk), b, true)
      else
        SetAct(Reassign(s, b, want, p), p, Got(b, want, next))
  }

  // After getblk, in getblk itself, bread and breada.
  function UsePass(s: State, p: nat, b: nat, want: Option<Key>, next: Next): State
    requires b < |s.bufs|
  {
    match next
    case Plain => SetAct(s, p, Run)
    case ReadIt =>
      if s.bufs[b].done || want == None then SetAct(s, p, Run)
      else SetAct(StartRead(s, b, false), p, Wait(b, want.value, false))
    case First(ahead) =>
      if want == None then SetAct(s, p, Run)
      else SetAct(if s.bufs[b].done then s else StartRead(s, b, false), p, Check(Some(b), want.value, ahead))
    case Ahead(main, mainKey) =>
      SetAct(if s.bufs[b].done || want == None then Brelse(s, b) else StartRead(s, b, true), p,
             if main == None then Get(Some(mainKey), ReadIt) else Wait(main.value, mainKey, false))
  }

  // A delayed write to the device, if one is given.
  predicate Due(x: Buf, dev: Option<nat>) {
    x.delwri && (dev.Some? ==> x.key.Some? && x.key.value.dev == dev.value)
  }

  // The first delayed write to the device on the available list, or |avail|.
  function FirstDue(s: State, dev: Option<nat>, i: nat): (r: nat)
    requires i <= |s.avail| && InRange(s.avail, |s.bufs|)
    ensures i <= r <= |s.avail| && (r < |s.avail| ==> Due(s.bufs[s.avail[r]], dev))
    ensures forall j :: i <= j < r ==> !Due(s.bufs[s.avail[j]], dev)
    decreases |s.avail| - i
  {
    if i == |s.avail| then i else if Due(s.bufs[s.avail[i]], dev) then i else FirstDue(s, dev, i + 1)
  }

  // The transfer for the request at the head of the queue, and iodone's B_DONE.
  function Transferred(s: State): State
    requires s.queue != [] && s.queue[0] < |s.bufs| && |s.bufs[s.queue[0]].data| == 514
  {
    var b := s.queue[0];
    var x := s.bufs[b];
    var k := if x.key.Some? then x.key.value else Key(0, 0);
    s.(queue := s.queue[1..], finished := s.finished + [b],
       disk := if x.read then s.disk else s.disk[k := x.data[..512]],
       bufs := s.bufs[b := x.(done := true, changed := false,
                              data := if x.read then At(s.disk, k) + x.data[512..] else x.data)])
  }

  // iodone for a request somebody waits for: everybody sleeping on the buffer wakes.
  function Roused(s: State, b: nat): State
    requires b < |s.bufs|
  {
    s.(bufs := s.bufs[b := s.bufs[b].(wanted := false)], procs := Woken(s.procs, OnBuf(b)))
  }

  // rkintr.
  function Completed(s: State): State
    requires s.queue != [] && s.queue[0] < |s.bufs| && |s.bufs[s.queue[0]].data| == 514
  {
    var t := Transferred(s);
    var b := s.queue[0];
    if s.bufs[b].async then Brelse(t, b) else Roused(t, b)
  }

  // List entries name buffers, buffers have their 514 bytes, and activities name buffers.
  ghost predicate Typed(s: State) {
    TypedLists(s) && forall p :: p in s.procs ==> TypedAct(s, s.procs[p].act)
  }

  predicate InRange(l: seq<nat>, n: nat) {
    forall i :: 0 <= i < |l| ==> l[i] < n
  }

  ghost predicate TypedLists(s: State) {
    && InRange(s.avail, |s.bufs|) && InRange(s.queue, |s.bufs|)
    && forall b :: 0 <= b < |s.bufs| ==> |s.bufs[b].data| == 514
  }

  predicate TypedAct(s: State, a: Activity) {
    (a.Got? ==> a.b < |s.bufs|) && (a.Wait? ==> a.b < |s.bufs|)
  }

  ghost function Apply(s: State, e: Event): State
    requires Typed(s) && Enabled(s, e)
  {
    match e
    case CallGetblk(p, want) => SetAct(s, p, Get(want, Plain))
    case CallBread(p, k) => SetAct(s, p, Get(Some(k), ReadIt))
    case CallBreada(p, k, ahead) =>
      SetAct(s, p, if Incore(s, k) then Check(None, k, ahead) else Get(Some(k), First(ahead)))
    case GetStep(p) => GetPass(s, p, s.procs[p].act.want, s.procs[p].act.next)
    case UseStep(p) => UsePass(s, p, s.procs[p].act.b, s.procs[p].act.want, s.procs[p].act.next)
    case CheckStep(p) =>
      var Check(main, k, ahead) := s.procs[p].act;
      SetAct(s, p,
        if ahead.Some? && !Incore(s, ahead.value) then Get(ahead, Ahead(main, k))
        else if main == None then Get(Some(k), ReadIt)
        else Wait(main.value, k, false))
    case WaitStep(p) =>
      var Wait(b, k, release) := s.procs[p].act;
      if !s.bufs[b].done then s.(procs := s.procs[p := Proc(Wait(b, k, release), Some(OnBuf(b)))])
      else SetAct(if release then Brelse(s, b) else s, p, Run)
    case Store(p, b, data) =>
      s.(bufs := s.bufs[b := s.bufs[b].(data := data + s.bufs[b].data[512..], changed := true)])
    case CallBwrite(p, b) =>
      SetAct(StartWrite(Logged(s, b), b, false), p, Wait(b, s.bufs[b].key.value, true))
    case CallBawrite(p, b) => SetAct(StartWrite(Logged(s, b), b, true), p, Run)
    case CallBdwrite(p, b) =>
      var t := Logged(s, b);
      SetAct(Brelse(t.(bufs := t.bufs[b := t.bufs[b].(delwri := true, done := true, changed := false)]), b),
             p, Run)
    case CallBrelse(p, b) => SetAct(Brelse(s, b), p, Run)
    case Flush(p, dev) =>
      var i := FirstDue(s, dev, 0);
      if i == |s.avail| then s else StartWrite(Notavail(s, s.avail[i], Disk), s.avail[i], true)
    case Interrupt => Completed(s)
  }

  // The data given to a write becomes the contents of the block.
  function Logged(s: State, b: nat): State
    requires b < |s.bufs| && s.bufs[b].key.Some? && |s.bufs[b].data| == 514
  {
    s.(logical := s.logical[s.bufs[b].key.value := s.bufs[b].data[..512]])
  }

  // ---- The invariant ----

  // A buffer is on the available list if and only if it is not busy; the requests not yet
  // finished are the queue, in the order they were issued.
  ghost predicate Lists(s: State) {
    && TypedLists(s) && NoDuplicates(s.avail) && NoDuplicates(s.queue)
    && (forall b :: 0 <= b < |s.bufs| ==> (b in s.avail <==> !s.bufs[b].busy))
    && (forall i :: 0 <= i < |s.queue| ==> s.bufs[s.queue[i]].busy && s.bufs[s.queue[i]].key.Some?)
    && s.issued == s.finished + s.queue
  }

  // At most one buffer carries a given block.
  ghost predicate Unique(s: State) {
    forall i, j :: 0 <= i < j < |s.bufs| && s.bufs[i].key.Some? ==> s.bufs[i].key != s.bufs[j].key
  }

  // The buffer an operation in progress is waiting or going to wait for, and its block.
  function MainOf(a: Activity): Option<(nat, Key)> {
    match a
    case Run => None
    case Get(_, next) => MainOfNext(next)
    case Got(_, _, next) => MainOfNext(next)
    case Check(main, k, _) => if main.Some? then Some((main.value, k)) else None
    case Wait(b, k, _) => Some((b, k))
  }

  function MainOfNext(next: Next): Option<(nat, Key)> {
    match next
    case Ahead(main, k) => if main.Some? then Some((main.value, k)) else None
    case _ => None
  }

  // Who holds each buffer, and what the activities say about the buffers they hold.
  ghost predicate Holders(s: State) {
    && (forall b :: 0 <= b < |s.bufs| ==> HolderOk(s, b))
    && (forall p :: p in s.procs ==> ProcOk(s, p))
  }

  // Who holds buffer b.
  ghost predicate HolderOk(t: State, b: nat)
    requires b < |t.bufs|
  {
    var x := t.bufs[b];
    && (x.busy <==> x.holder != Nobody) && (x.async <==> x.holder == Disk)
    && (x.holder == Disk ==> b in t.queue)
    && (x.holder.By? ==> x.holder.pid in t.procs)
    && (b in t.queue && x.holder.By? ==>
          var m := MainOf(t.procs[x.holder.pid].act); m.Some? && m.value.0 == b)
  }

  ghost predicate ProcOk(s: State, p: nat)
    requires p in s.procs
  {
    var a := s.procs[p].act;
    && (a.Got? ==>
          a.b < |s.bufs| && s.bufs[a.b].holder == By(p) && a.b !in s.queue
          && s.bufs[a.b].key == a.want && !s.bufs[a.b].changed
          && (a.next != Plain ==> a.want.Some?)
          && (MainOf(a).Some? ==> MainOf(a).value.0 != a.b))
    && (a.Get? && a.next != Plain ==> a.want.Some?)
    && (MainOf(a).Some? ==>
          var (b, k) := MainOf(a).value;
          b < |s.bufs| && s.bufs[b].holder == By(p) && s.bufs[b].key == Some(k)
          && (b in s.queue || (s.bufs[b].done && !s.bufs[b].changed)))
    && (a.Wait? && a.release ==> a.b < |s.bufs| && !s.bufs[a.b].delwri)
  }

  // The contents of buffers and disk agree with the blocks last written.
  ghost predicate DataOk(s: State, b: nat)
    requires b < |s.bufs| && |s.bufs[b].data| == 514
  {
    var x := s.bufs[b];
    && x.data[512] == 0 && x.data[513] == 0
    && (x.delwri ==> x.key.Some?)
    && (x.key.Some? ==>
          var k := x.key.value;
          && (x.delwri ==> x.done)
          && (x.done && !x.changed ==> x.data[..512] == At(s.logical, k))
          && (!x.delwri && (b in s.queue ==> x.read) ==> At(s.disk, k) == At(s.logical, k))
          && (b in s.queue ==> !x.done && !x.delwri)
          && (b in s.queue && !x.read ==> x.data[..512] == At(s.logical, k))
          && (!x.busy && x.done ==> !x.changed))
  }

  ghost predicate Contents(s: State) {
    && TypedLists(s)
    && (forall b :: 0 <= b < |s.bufs| ==> DataOk(s, b))
    && (forall k :: (forall b :: 0 <= b < |s.bufs| ==> s.bufs[b].key != Some(k)) ==>
          At(s.disk, k) == At(s.logical, k))
  }

  // Whoever sleeps is waiting for something that somebody else will announce.
  ghost predicate SleepOk(s: State, p: nat)
    requires p in s.procs
  {
    match s.procs[p].sleep
    case None => true
    case Some(OnFree) => s.procs[p].act.Get? && s.avail == [] && s.freeWanted
    case Some(OnBuf(b)) =>
      b < |s.bufs| && s.bufs[b].busy
      && (if s.procs[p].act.Get? then s.bufs[b].wanted
          else s.procs[p].act.Wait? && s.procs[p].act.b == b && b in s.queue)
  }

  ghost predicate Sleepers(s: State) {
    forall p :: p in s.procs ==> SleepOk(s, p)
  }

  ghost predicate Inv(s: State) {
    Lists(s) && Unique(s) && Holders(s) && Contents(s) && Sleepers(s)
  }

  // ---- Each step keeps it ----

  // Steps that only move a process.
  lemma SameStore(s: State, t: State)
    requires Inv(s) && t == s.(procs := t.procs, freeWanted := t.freeWanted)
    ensures Lists(t) && Unique(t) && Contents(t)
  {
    forall b | 0 <= b < |t.bufs| ensures DataOk(t, b) {
      assert DataOk(s, b);
    }
  }

  lemma MoveInv(s: State, p: nat, a: Activity)
    requires Inv(s) && p in s.procs && s.procs[p].sleep == None
    requires !a.Got? && (a.Get? && a.next != Plain ==> a.want.Some?) && !(a.Wait? && a.release)
    requires MainOf(a) == MainOf(s.procs[p].act) || MainOf(a) == None
    requires MainOf(a) == None && MainOf(s.procs[p].act).Some? ==> MainOf(s.procs[p].act).value.0 !in s.queue
    ensures Inv(SetAct(s, p, a))
  {
    hide Lists, Unique, Contents;
    var t := SetAct(s, p, a);
    SameStore(s, t);
    forall x | 0 <= x < |t.bufs| ensures HolderOk(t, x) {
      assert HolderOk(s, x);
    }
    assert ProcOk(s, p);
    forall q | q in t.procs ensures ProcOk(t, q) && SleepOk(t, q) {
      assert ProcOk(s, q) && SleepOk(s, q);
    }
  }

  // Steps that change one buffer b, and perhaps its block.
  ghost predicate OneBuffer(s: State, t: State, b: nat) {
    && b < |s.bufs| == |t.bufs| && t.bufs[b].key == s.bufs[b].key
    && (forall x :: 0 <= x < |s.bufs| && x != b ==> t.bufs[x] == s.bufs[x])
    && (forall x :: 0 <= x < |s.bufs| && x != b ==> (x in t.queue <==> x in s.queue))
    && (forall k :: s.bufs[b].key != Some(k) ==>
          At(t.disk, k) == At(s.disk, k) && At(t.logical, k) == At(s.logical, k))
  }

  lemma ContentsStep(s: State, t: State, b: nat)
    requires TypedLists(s) && Unique(s) && Contents(s) && OneBuffer(s, t, b)
    requires TypedLists(t) && DataOk(t, b)
    ensures Contents(t) && Unique(t)
  {
    forall x | 0 <= x < |t.bufs| ensures DataOk(t, x) {
      assert DataOk(s, x);
    }
    forall k | forall x :: 0 <= x < |t.bufs| ==> t.bufs[x].key != Some(k)
      ensures At(t.disk, k) == At(t.logical, k)
    {
      assert t.bufs[b].key != Some(k);
      forall x | 0 <= x < |s.bufs| ensures s.bufs[x].key != Some(k) {
        assert t.bufs[x].key == s.bufs[x].key;
      }
    }
  }

  // Steps in which only process p, who alone may have held b, changes what it is doing.
  lemma HoldersStep(s: State, t: State, b: nat, p: nat)
    requires Holders(s) && OneBuffer(s, t, b) && t.procs.Keys == s.procs.Keys
    requires forall q :: q in s.procs && q != p ==> t.procs[q].act == s.procs[q].act
    requires s.bufs[b].holder.By? ==> s.bufs[b].holder.pid == p
    requires HolderOk(t, b) && (p in t.procs ==> ProcOk(t, p))
    requires forall x :: 0 <= x < |s.bufs| && x != b && x in t.queue && t.bufs[x].holder == By(p) ==>
               p in t.procs && MainOf(t.procs[p].act) == MainOf(s.procs[p].act)
    ensures Holders(t)
  {
    forall q | q in t.procs && q != p ensures ProcOk(t, q) {
      assert ProcOk(s, q);
    }
    forall x | 0 <= x < |t.bufs| ensures HolderOk(t, x) {
      if x != b {
        assert t.bufs[x] == s.bufs[x] && HolderOk(s, x);
      }
    }
  }

  lemma StoreInv(s: State, p: nat, b: nat, data: Block)
    requires Inv(s) && Enabled(s, Store(p, b, data))
    ensures Inv(Apply(s, Store(p, b, data)))
  {
    hide Contents, Unique, DataOk, Lists;
    HeldFacts(s, p, b);
    var t := Apply(s, Store(p, b, data));
    StoreData(s, t, b, data);
    HoldersStep(s, t, b, p);
    SleepersSame(s, t);
  }

  lemma HeldFacts(s: State, p: nat, b: nat)
    requires Inv(s) && Holds(s, p, b)
    ensures Typed(s) && |s.bufs[b].data| == 514 && s.bufs[b].busy && b !in s.queue && ProcOk(s, p) && HolderOk(s, b)
  {
    hide Unique, DataOk;
    assert ProcOk(s, p) && HolderOk(s, b);
    forall q | q in s.procs ensures TypedAct(s, s.procs[q].act) {
      assert ProcOk(s, q);
    }
  }

  // The process that holds a buffer changes its data.
  lemma StoreData(s: State, t: State, b: nat, data: Block)
    requires Lists(s) && Unique(s) && Contents(s) && b < |s.bufs| && s.bufs[b].busy && b !in s.queue
    requires |s.bufs[b].data| == 514
    requires t == s.(bufs := s.bufs[b := s.bufs[b].(data := data + s.bufs[b].data[512..], changed := true)])
    ensures Lists(t) && Unique(t) && Contents(t) && OneBuffer(s, t, b)
  {
    hide Unique, Contents;
    assert DataOk(t, b) by { BufferData(s, b); }
    ContentsStep(s, t, b);
  }

  // Who sleeps is unaffected when nobody that sleeps moves and nothing is released.
  lemma SleepersSame(s: State, t: State)
    requires Sleepers(s) && t.procs.Keys == s.procs.Keys && t.queue == s.queue && |t.bufs| == |s.bufs|
    requires forall q :: q in s.procs ==> t.procs[q] == s.procs[q] || t.procs[q].sleep == None
    requires (s.avail == [] ==> t.avail == []) && t.freeWanted == s.freeWanted
    requires forall x :: 0 <= x < |s.bufs| ==>
               (s.bufs[x].busy ==> t.bufs[x].busy) && (s.bufs[x].wanted ==> t.bufs[x].wanted)
    ensures Sleepers(t)
  {
    forall q | q in t.procs ensures SleepOk(t, q) {
      assert SleepOk(s, q);
    }
  }

  // ---- Lists ----

  lemma {:induction false} WithoutProperties(l: seq<nat>, b: nat)
    requires NoDuplicates(l)
    ensures NoDuplicates(Without(l, b))
    ensures forall n: nat :: InRange(l, n) ==> InRange(Without(l, b), n)
    ensures b !in l ==> Without(l, b) == l
  {
    if l != [] {
      WithoutProperties(l[1..], b);
      assert forall i :: 0 <= i < |l[1..]| ==> l[1..][i] == l[i + 1];
      assert l[0] !in l[1..];
      var r := Without(l, b);
      forall n: nat, i | InRange(l, n) && 0 <= i < |r| ensures r[i] < n {
        assert r[i] in l;
      }
      if l[0] != b {
        forall i, j | 0 <= i < j < |r| ensures r[i] != r[j] {
          if i == 0 { assert r[j] in Without(l[1..], b); }
        }
      }
    }
  }

  lemma AppendNew(l: seq<nat>, b: nat)
    requires NoDuplicates(l) && b !in l
    ensures NoDuplicates(l + [b])
  {
  }

  // ---- getblk ----

  // What the lists, the blocks and the contents say together.
  ghost predicate Stored(s: State) {
    Lists(s) && Unique(s) && Contents(s)
  }

  // The buffer was found and is free: it is taken.
  lemma HitStore(s: State, t: State, p: nat, b: nat)
    requires Stored(s) && b < |s.bufs| && !s.bufs[b].busy
    requires t == Notavail(s, b, By(p)).(procs := t.procs)
    ensures Stored(t) && OneBuffer(s, t, b) && b !in s.queue && s.avail != []
    ensures !t.bufs[b].changed
  {
    WithoutProperties(s.avail, b);
    assert b !in s.queue;
    assert DataOk(s, b);
    assert DataOk(t, b);
    ContentsStep(s, t, b);
  }

  lemma HitInv(s: State, p: nat, want: Option<Key>, next: Next, b: nat)
    requires Inv(s) && p in s.procs && s.procs[p] == Proc(Get(want, next), None)
    requires b < |s.bufs| && want.Some? && s.bufs[b].key == want && !s.bufs[b].busy
    ensures Inv(SetAct(Notavail(s, b, By(p)), p, Got(b, want, next)))
  {
    hide Contents, Unique, DataOk, Lists, Without;
    var t := SetAct(Notavail(s, b, By(p)), p, Got(b, want, next));
    HitStore(s, t, p, b);
    assert ProcOk(s, p) && HolderOk(s, b);
    hide SleepOk;
    HoldersStep(s, t, b, p);
    SleepersSame(s, t);
  }

  // It is busy: the process sleeps on it.
  lemma WantedStore(s: State, t: State, b: nat)
    requires Stored(s) && b < |s.bufs|
    requires t == s.(bufs := s.bufs[b := s.bufs[b].(wanted := true)], procs := t.procs)
    ensures Stored(t) && OneBuffer(s, t, b)
  {
    assert DataOk(s, b);
    assert DataOk(t, b);
    ContentsStep(s, t, b);
  }

  lemma BusyInv(s: State, p: nat, want: Option<Key>, next: Next, b: nat)
    requires Inv(s) && p in s.procs && s.procs[p] == Proc(Get(want, next), None)
    requires b < |s.bufs| && s.bufs[b].busy
    ensures Inv(s.(bufs := s.bufs[b := s.bufs[b].(wanted := true)],
                   procs := s.procs[p := Proc(Get(want, next), Some(OnBuf(b)))]))
  {
    hide Contents, Unique, DataOk, Lists;
    var t := s.(bufs := s.bufs[b := s.bufs[b].(wanted := true)],
                procs := s.procs[p := Proc(Get(want, next), Some(OnBuf(b)))]);
    WantedStore(s, t, b);
    HoldersStepAny(s, t, b);
    forall q | q in t.procs ensures SleepOk(t, q) {
      assert SleepOk(s, q);
    }
  }

  // Steps that leave every holder and activity as it is.
  lemma HoldersStepAny(s: State, t: State, b: nat)
    requires Holders(s) && OneBuffer(s, t, b) && t.procs.Keys == s.procs.Keys && t.queue == s.queue
    requires forall q :: q in s.procs ==> t.procs[q].act == s.procs[q].act
    requires t.bufs[b] == s.bufs[b].(wanted := t.bufs[b].wanted)
    ensures Holders(t)
  {
    forall q | q in t.procs ensures ProcOk(t, q) {
      assert ProcOk(s, q);
    }
    forall x | 0 <= x < |t.bufs| ensures HolderOk(t, x) {
      assert HolderOk(s, x);
    }
  }

  // Nothing is available: the process sleeps on the list.
  lemma EmptyInv(s: State, p: nat, want: Option<Key>, next: Next)
    requires Inv(s) && p in s.procs && s.procs[p] == Proc(Get(want, next), None) && s.avail == []
    ensures Inv(s.(freeWanted := true, procs := s.procs[p := Proc(Get(want, next), Some(OnFree))]))
  {
    hide Contents, Unique, DataOk, Lists;
    var t := s.(freeWanted := true, procs := s.procs[p := Proc(Get(want, next), Some(OnFree))]);
    SameStore(s, t);
    forall x | 0 <= x < |t.bufs| ensures HolderOk(t, x) {
      assert HolderOk(s, x);
    }
    forall q | q in t.procs ensures ProcOk(t, q) && SleepOk(t, q) {
      assert ProcOk(s, q) && SleepOk(s, q);
    }
  }

  // A delayed write is started for a buffer on the available list (getblk and bflush).
  lemma EvictStore(s: State, b: nat)
    requires Stored(s) && b < |s.bufs| && !s.bufs[b].busy && s.bufs[b].delwri
    ensures var t := StartWrite(Notavail(s, b, Disk), b, true);
            Stored(t) && OneBuffer(s, t, b) && b !in s.queue && s.avail != []
  {
    hide Unique, Holders;
    var t := StartWrite(Notavail(s, b, Disk), b, true);
    WithoutProperties(s.avail, b);
    assert b !in s.queue;
    AppendNew(s.queue, b);
    assert DataOk(s, b);
    assert DataOk(t, b);
    ContentsStep(s, t, b);
  }

  lemma EvictInv(s: State, b: nat)
    requires Inv(s) && b < |s.bufs| && !s.bufs[b].busy && s.bufs[b].delwri
    ensures Inv(StartWrite(Notavail(s, b, Disk), b, true))
  {
    hide Contents, Unique, DataOk, Lists;
    var t := StartWrite(Notavail(s, b, Disk), b, true);
    EvictStore(s, b);
    hide ProcOk, SleepOk, HolderOk;
    forall q | q in t.procs ensures ProcOk(t, q) && SleepOk(t, q) {
      assert ProcOk(s, q) && SleepOk(s, q) && HolderOk(s, b);
      EvictProc(s, t, b, q);
    }
    forall x | 0 <= x < |t.bufs| ensures HolderOk(t, x) {
      assert HolderOk(s, x);
      EvictHolder(s, t, b, x);
    }
  }

  lemma EvictProc(s: State, t: State, b: nat, q: nat)
    requires b < |s.bufs| && !s.bufs[b].busy && b !in s.queue && s.avail != []
    requires t == StartWrite(Notavail(s, b, Disk), b, true) && HolderOk(s, b)
    requires q in s.procs && ProcOk(s, q) && SleepOk(s, q)
    ensures ProcOk(t, q) && SleepOk(t, q)
  {
    hide Without;
  }

  lemma EvictHolder(s: State, t: State, b: nat, x: nat)
    requires b < |s.bufs| && t == StartWrite(Notavail(s, b, Disk), b, true) && x < |s.bufs| && HolderOk(s, x)
    ensures HolderOk(t, x)
  {
    hide Without;
  }

  // A clean buffer is given to another block.
  lemma ReassignStore(s: State, t: State, p: nat, want: Option<Key>, b: nat)
    requires Stored(s) && b < |s.bufs| && !s.bufs[b].busy && !s.bufs[b].delwri
    requires want.Some? ==> forall x :: 0 <= x < |s.bufs| ==> s.bufs[x].key != want
    requires t == Reassign(s, b, want, p).(procs := t.procs)
    ensures Stored(t) && b !in s.queue && s.avail != []
  {
    WithoutProperties(s.avail, b);
    assert b !in s.queue;
    assert Lists(t);
    assert Unique(t);
    assert DataOk(s, b);
    forall x | 0 <= x < |t.bufs| ensures DataOk(t, x) {
      assert DataOk(s, x);
    }
    forall k | forall x :: 0 <= x < |t.bufs| ==> t.bufs[x].key != Some(k)
      ensures At(t.disk, k) == At(t.logical, k)
    {
      if s.bufs[b].key != Some(k) {
        forall x | 0 <= x < |s.bufs| ensures s.bufs[x].key != Some(k) {
          assert x != b ==> t.bufs[x].key == s.bufs[x].key;
        }
      }
    }
  }

  lemma ReassignInv(s: State, p: nat, want: Option<Key>, next: Next, b: nat)
    requires Inv(s) && p in s.procs && s.procs[p] == Proc(Get(want, next), None)
    requires b < |s.bufs| && !s.bufs[b].busy && !s.bufs[b].delwri
    requires want.Some? ==> forall x :: 0 <= x < |s.bufs| ==> s.bufs[x].key != want
    ensures Inv(SetAct(Reassign(s, b, want, p), p, Got(b, want, next)))
  {
    hide Contents, Unique, DataOk, Lists;
    var t := SetAct(Reassign(s, b, want, p), p, Got(b, want, next));
    ReassignStore(s, t, p, want, b);
    ReassignProcs(s, t, p, want, next, b);
    forall x | 0 <= x < |t.bufs| ensures HolderOk(t, x) {
      assert HolderOk(s, x);
    }
  }

  lemma ReassignProcs(s: State, t: State, p: nat, want: Option<Key>, next: Next, b: nat)
    requires Holders(s) && Sleepers(s) && p in s.procs && s.procs[p] == Proc(Get(want, next), None)
    requires b < |s.bufs| && !s.bufs[b].busy && b !in s.queue && s.avail != []
    requires t == SetAct(Reassign(s, b, want, p), p, Got(b, want, next))
    ensures forall q :: q in t.procs ==> ProcOk(t, q) && SleepOk(t, q)
  {
    hide Without, ProcOk, SleepOk;
    forall q | q in t.procs ensures ProcOk(t, q) && SleepOk(t, q) {
      assert ProcOk(s, q) && SleepOk(s, q);
      ReassignProc(s, t, p, want, next, b, q);
    }
  }

  lemma ReassignProc(s: State, t: State, p: nat, want: Option<Key>, next: Next, b: nat, q: nat)
    requires Holders(s) && p in s.procs && s.procs[p] == Proc(Get(want, next), None)
    requires b < |s.bufs| && !s.bufs[b].busy && b !in s.queue && s.avail != []
    requires t == SetAct(Reassign(s, b, want, p), p, Got(b, want, next))
    requires q in s.procs && ProcOk(s, q) && SleepOk(s, q)
    ensures ProcOk(t, q) && SleepOk(t, q)
  {
    hide Without;
    assert HolderOk(s, b);
  }

  lemma GetPassInv(s: State, p: nat)
    requires Inv(s) && Typed(s) && Enabled(s, GetStep(p))
    ensures Inv(Apply(s, GetStep(p)))
  {
    hide Contents, Unique, Holders, Sleepers;
    var Get(want, next) := s.procs[p].act;
    if want.Some? && Incore(s, want.value) {
      var b := Find(s.bufs, want.value);
      if s.bufs[b].busy {
        BusyInv(s, p, want, next, b);
      } else {
        HitInv(s, p, want, next, b);
      }
    } else if s.avail == [] {
      EmptyInv(s, p, want, next);
    } else {
      var b := s.avail[0];
      assert b in s.avail;
      if s.bufs[b].delwri {
        EvictInv(s, b);
      } else {
        ReassignInv(s, p, want, next, b);
      }
    }
  }

  lemma FlushInv(s: State, p: nat, dev: Option<nat>)
    requires Inv(s) && Typed(s) && Enabled(s, Flush(p, dev))
    ensures Inv(Apply(s, Flush(p, dev)))
  {
    hide Contents, Unique, Holders, Sleepers;
    var i := FirstDue(s, dev, 0);
    if i < |s.avail| {
      assert s.avail[i] in s.avail;
      EvictInv(s, s.avail[i]);
    }
  }

  // ---- brelse ----

  lemma AnnouncedProcs(s: State, b: nat)
    requires b < |s.bufs|
    ensures Announced(s, b).Keys == s.procs.Keys
    ensures forall q :: q in s.procs ==> Announced(s, b)[q].act == s.procs[q].act
    ensures forall q :: q in s.procs ==>
              Announced(s, b)[q].sleep ==
                if (s.bufs[b].wanted && s.procs[q].sleep == Some(OnBuf(b)))
                   || (s.freeWanted && s.procs[q].sleep == Some(OnFree))
                then None else s.procs[q].sleep
  {
  }

  lemma ReleaseStore(s: State, t: State, b: nat)
    requires Stored(s) && b < |s.bufs| && s.bufs[b].busy && b !in s.queue
    requires s.bufs[b].key.Some? ==> !(s.bufs[b].done && s.bufs[b].changed)
    requires t == Brelse(s, b).(procs := t.procs)
    ensures Stored(t) && OneBuffer(s, t, b)
  {
    AppendNew(s.avail, b);
    assert DataOk(s, b);
    assert DataOk(t, b);
    ContentsStep(s, t, b);
  }

  // Process p releases b and goes on with a, which says nothing of b.
  lemma ReleaseInv(s: State, p: nat, b: nat, a: Activity)
    requires Inv(s) && p in s.procs && b < |s.bufs| && s.bufs[b].holder == By(p) && b !in s.queue
    requires s.bufs[b].key.Some? ==> !(s.bufs[b].done && s.bufs[b].changed)
    requires !a.Got? && (a.Get? && a.next != Plain ==> a.want.Some?) && !(a.Wait? && a.release)
    requires MainOf(a).Some? ==> MainOf(a).value.0 != b
    requires MainOf(a) == MainOf(s.procs[p].act)
             || (MainOf(a) == None && MainOf(s.procs[p].act).Some? && MainOf(s.procs[p].act).value.0 == b)
    ensures Inv(SetAct(Brelse(s, b), p, a))
  {
    hide Contents, Unique, DataOk, Lists, Announced;
    var t := SetAct(Brelse(s, b), p, a);
    assert HolderOk(s, b) && ProcOk(s, p);
    ReleaseStore(s, t, b);
    AnnouncedProcs(s, b);
    ReleaseProcs(s, t, p, b);
    forall x | 0 <= x < |s.bufs| && x != b && x in t.queue && t.bufs[x].holder == By(p)
      ensures MainOf(a) == MainOf(s.procs[p].act)
    {
      assert HolderOk(s, x);
    }
    HoldersStep(s, t, b, p);
  }

  lemma ReleaseProcs(s: State, t: State, p: nat, b: nat)
    requires Holders(s) && Sleepers(s) && p in s.procs && p in t.procs
    requires b < |s.bufs| && b !in s.queue && s.bufs[b].holder == By(p)
    requires t == SetAct(Brelse(s, b), p, t.procs[p].act)
    ensures t.procs.Keys == s.procs.Keys && Sleepers(t)
    ensures forall q :: q in s.procs && q != p ==> t.procs[q].act == s.procs[q].act
  {
    hide Announced, SleepOk;
    AnnouncedProcs(s, b);
    forall q | q in t.procs ensures SleepOk(t, q) {
      if q == p {
        Awake(t, q);
      } else {
        assert SleepOk(s, q) && ProcOk(s, q);
        StillAsleep(s, t, b, q);
      }
    }
  }

  lemma Awake(s: State, p: nat)
    requires p in s.procs && s.procs[p].sleep == None
    ensures SleepOk(s, p)
  {
  }

  // The release of b wakes whoever has to be woken.
  lemma StillAsleep(s: State, t: State, b: nat, q: nat)
    requires q in s.procs && SleepOk(s, q) && q in t.procs && OneBuffer(s, t, b)
    requires t.procs[q].act == s.procs[q].act && (s.procs[q].act.Wait? ==> s.procs[q].act.b != b)
    requires t.procs[q].sleep ==
               if (s.bufs[b].wanted && s.procs[q].sleep == Some(OnBuf(b)))
                  || (s.freeWanted && s.procs[q].sleep == Some(OnFree))
               then None else s.procs[q].sleep
    ensures SleepOk(t, q)
  {
  }

  // ---- Requests ----

  // Buffer b goes to the driver's queue; its holder is p, who goes on with a, or the driver.
  ghost predicate Issued(s: State, t: State, b: nat) {
    && OneBuffer(s, t, b) && t.queue == s.queue + [b] && t.issued == s.issued + [b]
    && t.finished == s.finished && t.avail == s.avail && t.freeWanted == s.freeWanted
    && t.bufs[b].busy && t.bufs[b].wanted == s.bufs[b].wanted && |t.bufs[b].data| == 514
  }

  lemma IssueStore(s: State, t: State, b: nat)
    requires Stored(s) && Issued(s, t, b) && s.bufs[b].busy && b !in s.queue
    requires s.bufs[b].key.Some? && DataOk(t, b)
    ensures Stored(t)
  {
    AppendNew(s.queue, b);
    ContentsStep(s, t, b);
  }

  lemma IssueProcs(s: State, t: State, p: nat, b: nat)
    requires Holders(s) && Sleepers(s) && Issued(s, t, b) && p in s.procs && p in t.procs
    requires s.bufs[b].holder == By(p) && s.procs[p].sleep == None
    requires t.procs == s.procs[p := Proc(t.procs[p].act, None)]
    requires HolderOk(t, b) && ProcOk(t, p)
    requires b in s.queue || MainOf(t.procs[p].act) == MainOf(s.procs[p].act) || MainOf(s.procs[p].act) == None
    ensures Holders(t) && Sleepers(t)
  {
    assert HolderOk(s, b);
    forall x | 0 <= x < |s.bufs| && x != b && x in t.queue && t.bufs[x].holder == By(p)
      ensures MainOf(t.procs[p].act) == MainOf(s.procs[p].act)
    {
      assert HolderOk(s, x);
    }
    HoldersStep(s, t, b, p);
    forall q | q in t.procs ensures SleepOk(t, q) {
      assert SleepOk(s, q);
    }
  }

  // bread and breada start to read the buffer that getblk returned.
  lemma ReadInv(s: State, p: nat, b: nat, a: Activity)
    requires Inv(s) && p in s.procs && s.procs[p].act.Got? && s.procs[p].act.b == b
    requires b < |s.bufs| && s.bufs[b].key.Some? && !s.bufs[b].done
    requires MainOf(s.procs[p].act) == None && MainOf(a) == Some((b, s.bufs[b].key.value))
    requires !a.Got? && (a.Get? && a.next != Plain ==> a.want.Some?) && !(a.Wait? && a.release)
    ensures Inv(SetAct(StartRead(s, b, false), p, a))
  {
    hide Unique, Contents, Lists;
    var t := SetAct(StartRead(s, b, false), p, a);
    assert ProcOk(s, p) && HolderOk(s, b) && SleepOk(s, p);
    assert DataOk(s, b) by { BufferData(s, b); }
    IssueStore(s, t, b);
    hide DataOk;
    IssueProcs(s, t, p, b);
  }

  lemma BufferData(s: State, b: nat)
    requires Contents(s) && b < |s.bufs|
    ensures |s.bufs[b].data| == 514 && DataOk(s, b)
  {
  }

  // breada starts to read the read-ahead block, which then belongs to the driver.
  lemma ReadAheadInv(s: State, p: nat, b: nat, a: Activity)
    requires Inv(s) && p in s.procs && s.procs[p].act.Got? && s.procs[p].act.b == b
    requires b < |s.bufs| && s.bufs[b].key.Some? && !s.bufs[b].done
    requires MainOf(a) == MainOf(s.procs[p].act)
    requires !a.Got? && (a.Get? && a.next != Plain ==> a.want.Some?) && !(a.Wait? && a.release)
    ensures Inv(SetAct(StartRead(s, b, true), p, a))
  {
    hide Unique, Contents, Lists;
    var t := SetAct(StartRead(s, b, true), p, a);
    assert ProcOk(s, p) && HolderOk(s, b) && SleepOk(s, p);
    assert DataOk(s, b) by { BufferData(s, b); }
    IssueStore(s, t, b);
    hide DataOk;
    IssueProcs(s, t, p, b);
  }

  // bwrite and bawrite.
  lemma WriteInv(s: State, p: nat, b: nat, async: bool)
    requires Inv(s) && Holds(s, p, b) && s.bufs[b].key.Some? && |s.bufs[b].data| == 514
    ensures Inv(SetAct(StartWrite(Logged(s, b), b, async), p,
                       if async then Run else Wait(b, s.bufs[b].key.value, true)))
  {
    hide Unique, Contents, Lists;
    var a := if async then Run else Wait(b, s.bufs[b].key.value, true);
    var t := SetAct(StartWrite(Logged(s, b), b, async), p, a);
    assert ProcOk(s, p) && HolderOk(s, b) && SleepOk(s, p);
    assert DataOk(s, b) by { BufferData(s, b); }
    IssueStore(s, t, b);
    hide DataOk;
    IssueProcs(s, t, p, b);
  }

  // bdwrite marks the buffer and releases it.
  lemma BdwriteInv(s: State, p: nat, b: nat)
    requires Inv(s) && Holds(s, p, b) && s.bufs[b].key.Some? && |s.bufs[b].data| == 514
    ensures var t := Logged(s, b);
            var u := t.(bufs := t.bufs[b := t.bufs[b].(delwri := true, done := true, changed := false)]);
            Inv(u) && Holds(u, p, b) && b !in u.queue && u.bufs[b].key == s.bufs[b].key
  {
    var l := Logged(s, b);
    var t := l.(bufs := l.bufs[b := l.bufs[b].(delwri := true, done := true, changed := false)]);
    assert ProcOk(s, p) && HolderOk(s, b);
    assert DataOk(t, b) by { BufferData(s, b); }
    ContentsStep(s, t, b);
    assert Lists(t);
    hide Contents, Unique, DataOk, Lists;
    HoldersStep(s, t, b, p);
    SleepersSame(s, t);
  }

  // ---- The interrupt ----

  // The buffer's own part of the invariant, and the lists, after the transfer.
  lemma TransferLists(s: State, t: State, b: nat)
    requires Lists(s) && s.queue != [] && s.queue[0] == b && b < |s.bufs| && |s.bufs[b].data| == 514
    requires t == Transferred(s)
    ensures Lists(t) && OneBuffer(s, t, b) && b in s.queue && b !in t.queue
    ensures t.bufs[b].busy && t.bufs[b].key.Some?
  {
    assert s.queue == [b] + s.queue[1..];
    assert b in s.queue && b !in s.queue[1..];
  }

  lemma TransferStore(s: State, t: State, b: nat)
    requires Stored(s) && s.queue != [] && s.queue[0] == b && b < |s.bufs| && |s.bufs[b].data| == 514
    requires t == Transferred(s)
    ensures Stored(t) && OneBuffer(s, t, b) && b in s.queue && b !in t.queue
    ensures t.bufs[b] == s.bufs[b].(done := true, changed := false, data := t.bufs[b].data)
  {
    hide Unique;
    TransferLists(s, t, b);
    BufferData(s, b);
    TransferData(s, t, b);
    ContentsStep(s, t, b);
  }

  lemma TransferData(s: State, t: State, b: nat)
    requires s.queue != [] && s.queue[0] == b && b < |s.bufs| && |s.bufs[b].data| == 514
    requires b in s.queue && b !in t.queue && s.bufs[b].key.Some? && s.bufs[b].busy && DataOk(s, b)
    requires t == Transferred(s)
    ensures |t.bufs[b].data| == 514 && DataOk(t, b)
  {
    var x := s.bufs[b];
    var k := x.key.value;
    if x.read {
      assert t.bufs[b].data[..512] == At(s.disk, k);
      assert t.bufs[b].data[512..] == x.data[512..];
      assert t.bufs[b].data[512] == x.data[512..][0] && t.bufs[b].data[513] == x.data[512..][1];
    }
  }

  // iodone after the transfer, when the request belongs to the driver.
  lemma CompletedAsync(s: State, b: nat)
    requires Inv(s) && s.queue != [] && s.queue[0] == b && b < |s.bufs| && |s.bufs[b].data| == 514
    requires s.bufs[b].async
    ensures Inv(Completed(s))
  {
    hide Contents, Unique, DataOk, Lists, Announced, SleepOk;
    var t := Transferred(s);
    var u := Brelse(t, b);
    assert HolderOk(s, b);
    TransferStore(s, t, b);
    ReleaseStore(t, u, b);
    AnnouncedProcs(t, b);
    assert SameActs(s, u);
    assert u.bufs[b].holder == Nobody && !u.bufs[b].busy && !u.bufs[b].async && u.queue == t.queue;
    assert OneBuffer(s, u, b);
    assert Sleepers(u) by {
      forall q | q in u.procs ensures SleepOk(u, q) {
        assert SleepOk(s, q) && ProcOk(s, q);
        StillAsleep(s, u, b, q);
      }
    }
    hide Sleepers;
    CompletedHolders(s, u, b);
  }

  ghost predicate SameActs(s: State, t: State) {
    t.procs.Keys == s.procs.Keys && forall q :: q in s.procs ==> t.procs[q].act == s.procs[q].act
  }

  lemma CompletedHolders(s: State, u: State, b: nat)
    requires Holders(s) && OneBuffer(s, u, b) && SameActs(s, u) && b !in u.queue
    requires u.bufs[b].holder == s.bufs[b].holder || (s.bufs[b].holder == Disk && u.bufs[b].holder == Nobody)
    requires u.bufs[b].holder != Disk && !u.bufs[b].async
    requires u.bufs[b].busy <==> u.bufs[b].holder != Nobody
    requires u.bufs[b].done && !u.bufs[b].changed && u.bufs[b].delwri == s.bufs[b].delwri
    ensures Holders(u)
  {
    forall x | 0 <= x < |u.bufs| ensures HolderOk(u, x) {
      assert HolderOk(s, x);
    }
    forall q | q in u.procs ensures ProcOk(u, q) {
      assert ProcOk(s, q);
    }
  }

  // ... and when a process holds the buffer.
  lemma CompletedSync(s: State, b: nat)
    requires Inv(s) && s.queue != [] && s.queue[0] == b && b < |s.bufs| && |s.bufs[b].data| == 514
    requires !s.bufs[b].async
    ensures Inv(Completed(s))
  {
    hide Contents, Unique, DataOk, Lists, SleepOk, Woken;
    var t := Transferred(s);
    var u := Roused(t, b);
    assert HolderOk(s, b);
    TransferStore(s, t, b);
    RousedStore(t, u, b);
    WokenProcs(t.procs, OnBuf(b));
    assert SameActs(s, u);
    assert u.bufs[b].holder == s.bufs[b].holder && !u.bufs[b].async && u.queue == t.queue;
    assert OneBuffer(s, u, b);
    assert Sleepers(u) by {
      forall q | q in u.procs ensures SleepOk(u, q) {
        assert SleepOk(s, q);
        StillAsleepRoused(s, u, b, q);
      }
    }
    hide Sleepers;
    CompletedHolders(s, u, b);
  }

  lemma WokenProcs(procs: map<nat, Proc>, c: Channel)
    ensures Woken(procs, c).Keys == procs.Keys
    ensures forall q :: q in procs ==>
              && Woken(procs, c)[q].act == procs[q].act
              && Woken(procs, c)[q].sleep == if procs[q].sleep == Some(c) then None else procs[q].sleep
  {
  }

  // Everybody who slept on b has been woken.
  lemma StillAsleepRoused(s: State, t: State, b: nat, q: nat)
    requires q in s.procs && SleepOk(s, q) && q in t.procs && OneBuffer(s, t, b)
    requires t.procs[q].act == s.procs[q].act && t.avail == s.avail && t.freeWanted == s.freeWanted
    requires t.procs[q].sleep == if s.procs[q].sleep == Some(OnBuf(b)) then None else s.procs[q].sleep
    ensures SleepOk(t, q)
  {
  }

  lemma RousedStore(s: State, t: State, b: nat)
    requires Stored(s) && b < |s.bufs|
    requires t == Roused(s, b)
    ensures Stored(t) && OneBuffer(s, t, b)
  {
    assert DataOk(s, b);
    assert DataOk(t, b);
    ContentsStep(s, t, b);
  }

  lemma InterruptInv(s: State)
    requires Inv(s) && Typed(s) && Enabled(s, Interrupt)
    ensures Inv(Apply(s, Interrupt))
  {
    hide Inv;
    var b := s.queue[0];
    if s.bufs[b].async {
      CompletedAsync(s, b);
    } else {
      CompletedSync(s, b);
    }
  }

  // ---- Every step ----

  lemma InvTyped(s: State)
    requires Inv(s)
    ensures Typed(s)
  {
    hide Contents, Unique;
    forall p | p in s.procs ensures TypedAct(s, s.procs[p].act) {
      assert ProcOk(s, p);
    }
  }

  lemma Facts(s: State, p: nat)
    requires Inv(s) && p in s.procs
    ensures ProcOk(s, p) && SleepOk(s, p) && Typed(s)
  {
    InvTyped(s);
  }

  // p keeps as its main buffer the one getblk returned, which holds its block already.
  lemma ClaimInv(s: State, p: nat, b: nat, a: Activity)
    requires Inv(s) && p in s.procs && s.procs[p].act.Got? && s.procs[p].act.b == b
    requires b < |s.bufs| && s.bufs[b].key.Some? && s.bufs[b].done
    requires MainOf(s.procs[p].act) == None && MainOf(a) == Some((b, s.bufs[b].key.value))
    requires !a.Got? && !a.Get? && !(a.Wait? && a.release)
    ensures Inv(SetAct(s, p, a))
  {
    hide Lists, Unique, Contents;
    var t := SetAct(s, p, a);
    SameStore(s, t);
    forall x | 0 <= x < |t.bufs| ensures HolderOk(t, x) {
      assert HolderOk(s, x);
    }
    assert ProcOk(s, p);
    forall q | q in t.procs ensures ProcOk(t, q) && SleepOk(t, q) {
      assert ProcOk(s, q) && SleepOk(s, q);
    }
  }

  lemma UseInv(s: State, p: nat)
    requires Inv(s) && Typed(s) && Enabled(s, UseStep(p))
    ensures Inv(Apply(s, UseStep(p)))
  {
    hide Inv;
    Facts(s, p);
    var Got(b, want, next) := s.procs[p].act;
    match next {
      case Plain => MoveInv(s, p, Run);
      case ReadIt =>
        if s.bufs[b].done || want == None {
          MoveInv(s, p, Run);
        } else {
          ReadInv(s, p, b, Wait(b, want.value, false));
        }
      case First(ahead) =>
        if s.bufs[b].done {
          ClaimInv(s, p, b, Check(Some(b), want.value, ahead));
        } else {
          ReadInv(s, p, b, Check(Some(b), want.value, ahead));
        }
      case Ahead(main, mainKey) =>
        var a := if main == None then Get(Some(mainKey), ReadIt) else Wait(main.value, mainKey, false);
        if s.bufs[b].done {
          ReleaseInv(s, p, b, a);
        } else {
          ReadAheadInv(s, p, b, a);
        }
    }
  }

  lemma WaitInv(s: State, p: nat)
    requires Inv(s) && Typed(s) && Enabled(s, WaitStep(p))
    ensures Inv(Apply(s, WaitStep(p)))
  {
    Facts(s, p);
    var Wait(b, k, release) := s.procs[p].act;
    BufferData(s, b);
    if !s.bufs[b].done {
      IowaitInv(s, p, b, k, release);
    } else if release {
      ReleaseInv(s, p, b, Run);
    } else {
      MoveInv(s, p, Run);
    }
  }

  lemma IowaitInv(s: State, p: nat, b: nat, k: Key, release: bool)
    requires Inv(s) && p in s.procs && s.procs[p] == Proc(Wait(b, k, release), None)
    requires b < |s.bufs| && !s.bufs[b].done
    ensures Inv(s.(procs := s.procs[p := Proc(Wait(b, k, release), Some(OnBuf(b)))]))
  {
    hide Lists, Unique, Contents;
    var t := s.(procs := s.procs[p := Proc(Wait(b, k, release), Some(OnBuf(b)))]);
    SameStore(s, t);
    forall x | 0 <= x < |t.bufs| ensures HolderOk(t, x) {
      assert HolderOk(s, x);
    }
    assert ProcOk(s, p) && HolderOk(s, b);
    forall q | q in t.procs ensures ProcOk(t, q) && SleepOk(t, q) {
      assert ProcOk(s, q) && SleepOk(s, q);
    }
  }

  lemma CallInv(s: State, e: Event)
    requires Inv(s) && Typed(s) && Enabled(s, e)
    requires e.CallGetblk? || e.CallBread? || e.CallBreada? || e.CheckStep?
    ensures Inv(Apply(s, e))
  {
    hide Inv, Typed;
    Facts(s, e.p);
    MoveInv(s, e.p, Apply(s, e).procs[e.p].act);
  }

  lemma ReleaseCallInv(s: State, e: Event)
    requires Inv(s) && Typed(s) && Enabled(s, e) && (e.CallBdwrite? || e.CallBrelse?)
    ensures Inv(Apply(s, e))
  {
    assert HolderOk(s, e.b);
    hide Inv;
    if e.CallBrelse? {
      ReleaseInv(s, e.p, e.b, Run);
    } else {
      var l := Logged(s, e.b);
      var t := l.(bufs := l.bufs[e.b := l.bufs[e.b].(delwri := true, done := true, changed := false)]);
      BdwriteInv(s, e.p, e.b);
      ReleaseInv(t, e.p, e.b, Run);
    }
  }

  // What one step does; an event that cannot happen changes nothing.
  ghost function Moved(s: State, e: Event): State {
    if Typed(s) && Enabled(s, e) then Apply(s, e) else s
  }

  lemma StepInv(s: State, e: Event)
    requires Inv(s)
    ensures Inv(Moved(s, e))
  {
    hide Inv, Typed, Enabled, Apply;
    if Typed(s) && Enabled(s, e) {
      match e {
        case CallGetblk(_, _) => CallInv(s, e);
        case CallBread(_, _) => CallInv(s, e);
        case CallBreada(_, _, _) => CallInv(s, e);
        case CheckStep(_) => CallInv(s, e);
        case GetStep(p) => GetPassInv(s, p);
        case UseStep(p) => UseInv(s, p);
        case WaitStep(p) => WaitInv(s, p);
        case Store(p, b, data) => StoreInv(s, p, b, data);
        case CallBwrite(p, b) => WriteCallInv(s, e);
        case CallBawrite(p, b) => WriteCallInv(s, e);
        case CallBdwrite(p, b) => ReleaseCallInv(s, e);
        case CallBrelse(p, b) => ReleaseCallInv(s, e);
        case Flush(p, dev) => FlushInv(s, p, dev);
        case Interrupt => InterruptInv(s);
      }
    }
  }

  lemma WriteCallInv(s: State, e: Event)
    requires Inv(s) && Typed(s) && Enabled(s, e) && (e.CallBwrite? || e.CallBawrite?)
    ensures Inv(Apply(s, e))
  {
    hide Inv;
    WriteInv(s, e.p, e.b, e.CallBawrite?);
  }

  // ---- Runs ----

  // binit: every buffer is free, in order, and belongs to no block.
  function Booted(n: nat, disk: map<Key, Block>, procs: set<nat>): State {
    State(seq(n, i => Buf(None, false, false, false, false, false, false, ZeroBlock() + [0, 0], Nobody, false)),
          seq(n, i requires 0 <= i < n => i as nat), false, [], disk, disk,
          map p | p in procs :: Proc(Run, None), [], [])
  }

  lemma BootedInv(n: nat, disk: map<Key, Block>, procs: set<nat>)
    ensures Inv(Booted(n, disk, procs))
  {
    var s := Booted(n, disk, procs);
    BootedLists(n, disk, procs);
    assert Contents(s);
    hide Lists, Contents;
    forall p | p in s.procs ensures ProcOk(s, p) && SleepOk(s, p) {
    }
  }

  lemma BootedLists(n: nat, disk: map<Key, Block>, procs: set<nat>)
    ensures Lists(Booted(n, disk, procs))
  {
    var s := Booted(n, disk, procs);
    forall b | 0 <= b < |s.bufs| ensures b in s.avail {
      assert s.avail[b] == b;
    }
  }

  // The state after any sequence of events.
  ghost function After(s: State, es: seq<Event>): State {
    if es == [] then s else Moved(After(s, es[..|es| - 1]), es[|es| - 1])
  }

  lemma {:induction false} RunInv(s: State, es: seq<Event>)
    requires Inv(s)
    ensures Inv(After(s, es))
  {
    if es != [] {
      RunInv(s, es[..|es| - 1]);
      StepInv(After(s, es[..|es| - 1]), es[|es| - 1]);
    }
  }

  // The data given to a write of block k in step e, if it is one.
  ghost function Given(s: State, e: Event, k: Key): Option<seq<Byte>> {
    if Typed(s) && Enabled(s, e) && (e.CallBwrite? || e.CallBawrite? || e.CallBdwrite?)
       && s.bufs[e.b].key == Some(k)
    then Some(s.bufs[e.b].data[..512]) else None
  }

  // The data last given to a write of block k, or what the disk held at the start.
  ghost function LastWritten(s: State, es: seq<Event>, k: Key): seq<Byte> {
    if es == [] then At(s.disk, k)
    else
      var n := |es| - 1;
      var g := Given(After(s, es[..n]), es[n], k);
      if g.Some? then g.value else LastWritten(s, es[..n], k)
  }

  lemma StepLogical(s: State, e: Event, k: Key)
    ensures At(Moved(s, e).logical, k) == if Given(s, e, k).Some? then Given(s, e, k).value else At(s.logical, k)
  {
    hide Typed, Enabled, Apply;
    if Typed(s) && Enabled(s, e) {
      if e.CallBwrite? || e.CallBawrite? || e.CallBdwrite? {
        WriteLogical(s, e, k);
      } else {
        OtherLogical(s, e);
      }
    }
  }

  lemma WriteLogical(s: State, e: Event, k: Key)
    requires Typed(s) && Enabled(s, e) && (e.CallBwrite? || e.CallBawrite? || e.CallBdwrite?)
    ensures At(Apply(s, e).logical, k) == if Given(s, e, k).Some? then Given(s, e, k).value else At(s.logical, k)
  {
  }

  lemma PrimitivesLogical(s: State, b: nat)
    requires b < |s.bufs|
    ensures Brelse(s, b).logical == s.logical
    ensures StartRead(s, b, true).logical == s.logical && StartRead(s, b, false).logical == s.logical
    ensures StartWrite(s, b, true).logical == s.logical
    ensures forall h :: Notavail(s, b, h).logical == s.logical && |Notavail(s, b, h).bufs| == |s.bufs|
    ensures forall h :: StartWrite(Notavail(s, b, h), b, true).logical == s.logical
    ensures forall want, p :: Reassign(s, b, want, p).logical == s.logical
    ensures Roused(s, b).logical == s.logical
  {
  }

  lemma OtherLogical(s: State, e: Event)
    requires Typed(s) && Enabled(s, e) && !(e.CallBwrite? || e.CallBawrite? || e.CallBdwrite?)
    ensures Apply(s, e).logical == s.logical
  {
    hide Brelse, StartRead, StartWrite, Notavail, Completed, Without;
    match e {
      case GetStep(p) => GetLogical(s, p, s.procs[p].act.want, s.procs[p].act.next);
      case UseStep(p) => PrimitivesLogical(s, s.procs[p].act.b);
      case WaitStep(p) => PrimitivesLogical(s, s.procs[p].act.b);
      case CallBrelse(_, b) => PrimitivesLogical(s, b);
      case Flush(_, dev) =>
        if FirstDue(s, dev, 0) < |s.avail| {
          PrimitivesLogical(s, s.avail[FirstDue(s, dev, 0)]);
        }
      case Interrupt => InterruptLogical(s);
      case _ =>
    }
  }

  lemma InterruptLogical(s: State)
    requires s.queue != [] && s.queue[0] < |s.bufs| && |s.bufs[s.queue[0]].data| == 514
    ensures Completed(s).logical == s.logical
  {
    hide Brelse, Roused;
    PrimitivesLogical(Transferred(s), s.queue[0]);
  }

  lemma GetLogical(s: State, p: nat, want: Option<Key>, next: Next)
    requires InRange(s.avail, |s.bufs|)
    ensures GetPass(s, p, want, next).logical == s.logical
  {
    hide Notavail, StartWrite, Reassign, Without;
    if want.Some? && Incore(s, want.value) {
      PrimitivesLogical(s, Find(s.bufs, want.value));
    } else if s.avail != [] {
      PrimitivesLogical(s, s.avail[0]);
    }
  }

  lemma {:induction false} LogicalIsLastWritten(s: State, es: seq<Event>, k: Key)
    requires s.logical == s.disk
    ensures At(After(s, es).logical, k) == LastWritten(s, es, k)
  {
    hide Given, Moved;
    if es != [] {
      var n := |es| - 1;
      LogicalIsLastWritten(s, es[..n], k);
      StepLogical(After(s, es[..n]), es[n], k);
    }
  }

  // The block a call in progress is to read: None for getblk and bwrite.
  function Asked(a: Activity): Option<Key> {
    match a
    case Run => None
    case Get(want, next) => AskedNext(want, next)
    case Got(_, want, next) => AskedNext(want, next)
    case Check(_, k, _) => Some(k)
    case Wait(_, k, release) => if release then None else Some(k)
  }

  function AskedNext(want: Option<Key>, next: Next): Option<Key> {
    match next
    case Plain => None
    case Ahead(_, k) => Some(k)
    case _ => want
  }

  // The block of the last call that p made, if that was bread or breada.
  ghost function LastCall(s: State, es: seq<Event>, p: nat): Option<Key> {
    if es == [] then None
    else
      var n := |es| - 1;
      var e := es[n];
      var was := After(s, es[..n]);
      if !(Typed(was) && Enabled(was, e)) then LastCall(s, es[..n], p)
      else if (e.CallBread? || e.CallBreada?) && e.p == p then Some(e.k)
      else if (e.CallGetblk? || e.CallBwrite?) && e.p == p then None
      else LastCall(s, es[..n], p)
  }

  // Releasing a buffer and finishing a request move nobody.
  lemma BrelseActs(s: State, b: nat)
    requires b < |s.bufs|
    ensures SameActs(s, Brelse(s, b))
  {
  }

  lemma CompletedActs(s: State)
    requires s.queue != [] && s.queue[0] < |s.bufs| && |s.bufs[s.queue[0]].data| == 514
    ensures SameActs(s, Completed(s))
  {
    hide Announced;
    var t := Transferred(s);
    BrelseActs(t, s.queue[0]);
  }

  lemma GetActs(s: State, p: nat, want: Option<Key>, next: Next, q: nat)
    requires InRange(s.avail, |s.bufs|) && p in s.procs && s.procs[p].act == Get(want, next) && q in s.procs
    ensures var a := GetPass(s, p, want, next).procs;
            q in a && (q != p ==> a[q] == s.procs[q])
            && (a[p].act == Get(want, next) || (a[p].act.Got? && a[p].act.want == want && a[p].act.next == next))
  {
    hide Without, Notavail, StartWrite, Reassign;
    if want.Some? && Incore(s, want.value) {
      var b := Find(s.bufs, want.value);
      StartActs(s, b);
      assert Notavail(s, b, By(p)).procs == s.procs;
    } else if s.avail != [] {
      StartActs(s, s.avail[0]);
    }
  }

  lemma UseActs(s: State, p: nat, b: nat, want: Option<Key>, next: Next, q: nat)
    requires b < |s.bufs| && p in s.procs && q in s.procs && (next != Plain ==> want.Some?)
    ensures var a := UsePass(s, p, b, want, next).procs;
            q in a && (q != p ==> a[q].act == s.procs[q].act)
            && (a[p].act != Run ==> Asked(a[p].act) == AskedNext(want, next))
  {
    hide Announced, StartRead;
    AnnouncedProcs(s, b);
    StartActs(s, b);
  }

  lemma StartActs(s: State, b: nat)
    requires b < |s.bufs|
    ensures StartRead(s, b, true).procs == s.procs && StartRead(s, b, false).procs == s.procs
    ensures forall h :: |Notavail(s, b, h).bufs| == |s.bufs| && Notavail(s, b, h).procs == s.procs
    ensures forall h :: StartWrite(Notavail(s, b, h), b, true).procs == s.procs
    ensures forall want, p :: Reassign(s, b, want, p).procs == s.procs
  {
  }

  // The request of process p after event e, unless that ended it.
  function AskedAfter(e: Event, p: nat, was: Option<Key>): Option<Key> {
    if (e.CallBread? || e.CallBreada?) && e.p == p then Some(e.k)
    else if (e.CallGetblk? || e.CallBwrite?) && e.p == p then None
    else was
  }

  // The process whose step e is.
  function Actor(e: Event): Option<nat> {
    match e
    case Interrupt => None
    case _ => Some(e.p)
  }

  predicate Continues(a: Activity, e: Event, p: nat, was: Activity) {
    && (Actor(e) != Some(p) ==> a == was)
    && (a != Run ==> Asked(a) == AskedAfter(e, p, Asked(was)))
    && (a != Run && was == Run ==> (e.CallGetblk? || e.CallBread? || e.CallBreada? || e.CallBwrite?) && e.p == p)
    && (a == Run && was != Run ==> e == UseStep(p) || e == WaitStep(p))
  }

  // A step of p goes on with the same request, or ends it; other steps leave p where it is.
  lemma StepAsked(s: State, e: Event, p: nat)
    requires Inv(s) && Typed(s) && Enabled(s, e) && p in s.procs
    ensures p in Apply(s, e).procs
    ensures Continues(Apply(s, e).procs[p].act, e, p, s.procs[p].act)
  {
    hide Inv, Apply, Enabled, Continues;
    match e {
      case GetStep(q) => StepAskedPass(s, e, p);
      case UseStep(q) => StepAskedPass(s, e, p);
      case WaitStep(q) => StepAskedRelease(s, e, p);
      case Interrupt => StepAskedRelease(s, e, p);
      case CallBdwrite(q, b) => StepAskedRelease(s, e, p);
      case CallBrelse(q, b) => StepAskedRelease(s, e, p);
      case _ => StepAskedCall(s, e, p);
    }
  }

  lemma StepAskedPass(s: State, e: Event, p: nat)
    requires Inv(s) && Typed(s) && Enabled(s, e) && p in s.procs && (e.GetStep? || e.UseStep?)
    ensures p in Apply(s, e).procs
    ensures Continues(Apply(s, e).procs[p].act, e, p, s.procs[p].act)
  {
    Facts(s, e.p);
    hide Inv, GetPass, UsePass;
    var a := s.procs[e.p].act;
    if e.GetStep? {
      GetActs(s, e.p, a.want, a.next, p);
    } else {
      UseActs(s, e.p, a.b, a.want, a.next, p);
    }
  }

  lemma StepAskedRelease(s: State, e: Event, p: nat)
    requires Inv(s) && Typed(s) && Enabled(s, e) && p in s.procs
    requires e.WaitStep? || e.Interrupt? || e.CallBdwrite? || e.CallBrelse?
    ensures p in Apply(s, e).procs
    ensures Continues(Apply(s, e).procs[p].act, e, p, s.procs[p].act)
  {
    hide Inv, Completed, Brelse;
    match e {
      case WaitStep(q) => BrelseActs(s, s.procs[q].act.b);
      case Interrupt => CompletedActs(s);
      case CallBdwrite(q, b) =>
        var l := Logged(s, b);
        BrelseActs(l.(bufs := l.bufs[b := l.bufs[b].(delwri := true, done := true, changed := false)]), b);
      case CallBrelse(q, b) => BrelseActs(s, b);
    }
  }

  lemma StepAskedCall(s: State, e: Event, p: nat)
    requires Inv(s) && Typed(s) && Enabled(s, e) && p in s.procs
    requires e.CallGetblk? || e.CallBread? || e.CallBreada? || e.CheckStep? || e.Store?
             || e.CallBwrite? || e.CallBawrite? || e.Flush?
    ensures p in Apply(s, e).procs
    ensures Continues(Apply(s, e).procs[p].act, e, p, s.procs[p].act)
  {
    hide Inv;
  }

  lemma {:induction false} RunAsked(s: State, es: seq<Event>, p: nat)
    requires Inv(s) && p in s.procs && s.procs[p].act == Run
    ensures p in After(s, es).procs
    ensures After(s, es).procs[p].act != Run ==> Asked(After(s, es).procs[p].act) == LastCall(s, es, p)
  {
    hide Inv, Typed, Enabled, Apply;
    if es != [] {
      var n := |es| - 1;
      var was := After(s, es[..n]);
      RunAsked(s, es[..n], p);
      RunInv(s, es[..n]);
      if Typed(was) && Enabled(was, es[n]) {
        StepAsked(was, es[n], p);
      }
    }
  }

  // Process p alone has buffer b, which holds the valid contents of block k.
  predicate HasBlock(s: State, p: nat, b: nat, k: Key) {
    && b < |s.bufs| && s.bufs[b].holder == By(p) && s.bufs[b].busy && s.bufs[b].key == Some(k)
    && s.bufs[b].done && !s.bufs[b].changed && |s.bufs[b].data| == 514
  }

  // bread ends when getblk has found the block valid ...
  lemma UseReturn(s: State, p: nat, k: Key)
    requires Inv(s) && Typed(s) && Enabled(s, UseStep(p)) && Asked(s.procs[p].act) == Some(k)
    requires Apply(s, UseStep(p)).procs[p].act == Run
    ensures HasBlock(Apply(s, UseStep(p)), p, s.procs[p].act.b, k)
  {
    Facts(s, p);
    BusyHeld(s, p, s.procs[p].act.b);
    hide Inv, Brelse, StartRead;
  }

  // ... or when iowait has seen it done.
  lemma WaitReturn(s: State, p: nat, k: Key)
    requires Inv(s) && Typed(s) && Enabled(s, WaitStep(p)) && Asked(s.procs[p].act) == Some(k)
    requires Apply(s, WaitStep(p)).procs[p].act == Run
    ensures HasBlock(Apply(s, WaitStep(p)), p, s.procs[p].act.b, k)
  {
    Facts(s, p);
    BusyHeld(s, p, s.procs[p].act.b);
    hide Inv, Brelse;
  }

  lemma EndsOn(s: State, e: Event, p: nat, k: Key) returns (b: nat)
    requires Inv(s) && p in s.procs && s.procs[p].act != Run && Asked(s.procs[p].act) == Some(k)
    requires Typed(s) && Enabled(s, e) && (e == UseStep(p) || e == WaitStep(p))
    requires p in Apply(s, e).procs && Apply(s, e).procs[p].act == Run
    ensures HasBlock(Apply(s, e), p, b, k)
  {
    hide Inv, Typed, Apply;
    b := s.procs[p].act.b;
    if e == UseStep(p) {
      UseReturn(s, p, k);
    } else {
      WaitReturn(s, p, k);
    }
  }

  lemma BusyHeld(s: State, p: nat, b: nat)
    requires Inv(s) && b < |s.bufs| && s.bufs[b].holder == By(p)
    ensures s.bufs[b].busy && |s.bufs[b].data| == 514 && DataOk(s, b)
  {
    assert HolderOk(s, b);
  }

  // The cache agrees with a plain disk. Whatever the other processes and the disk did in
  // between, when a bread or breada of block k returns, the process alone has a buffer with
  // the data last given to a write of block k.
  lemma BreadReturns(s: State, es: seq<Event>, e: Event, p: nat, k: Key) returns (b: nat)
    requires Inv(s) && s.logical == s.disk && p in s.procs && s.procs[p].act == Run
    requires p in After(s, es).procs && After(s, es).procs[p].act != Run
    requires p in After(s, es + [e]).procs && After(s, es + [e]).procs[p].act == Run
    requires LastCall(s, es, p) == Some(k)
    ensures HasBlock(After(s, es + [e]), p, b, k)
    ensures After(s, es + [e]).bufs[b].data[..512] == LastWritten(s, es + [e], k)
  {
    hide Inv, Typed, Enabled, Apply, LastWritten;
    var u := After(s, es);
    assert (es + [e])[..|es|] == es;
    var t := Moved(u, e);
    assert After(s, es + [e]) == t;
    RunInv(s, es);
    RunAsked(s, es, p);
    StepAsked(u, e, p);
    b := EndsOn(u, e, p, k);
    StepInv(u, e);
    BusyHeld(t, p, b);
    LogicalIsLastWritten(s, es + [e], k);
  }

  // getblk gives the process the buffer of the block it asked for; if its contents are valid
  // they are the block's.
  lemma GetblkReturns(s: State, p: nat)
    requires Inv(s) && Typed(s) && Enabled(s, UseStep(p)) && s.procs[p].act.next == Plain
    ensures var t := Apply(s, UseStep(p));
            var b := s.procs[p].act.b;
            && b < |t.bufs| && t.procs[p].act == Run && t.bufs[b].holder == By(p)
            && t.bufs[b].key == s.procs[p].act.want
            && (t.bufs[b].key.Some? && t.bufs[b].done ==>
                  t.bufs[b].data[..512] == At(t.logical, t.bufs[b].key.value))
  {
    Facts(s, p);
    BusyHeld(s, p, s.procs[p].act.b);
    hide Inv;
  }

  // The word past the end of every buffer is always zero.
  lemma PastTheEnd(s: State, es: seq<Event>, b: nat)
    requires Inv(s) && b < |After(s, es).bufs|
    ensures |After(s, es).bufs[b].data| == 514
    ensures After(s, es).bufs[b].data[512..] == [0, 0]
  {
    RunInv(s, es);
    BufferData(After(s, es), b);
  }

  // Requests are finished one by one in the order in which they were given to the driver.
  lemma FirstInFirstOut(s: State, es: seq<Event>)
    requires Inv(s)
    ensures var t := After(s, es);
            t.finished <= t.issued && t.issued[|t.finished|..] == t.queue && NoDuplicates(t.queue)
  {
    RunInv(s, es);
  }

  // When the queue is empty and no write is delayed, the disk is what was last written.
  lemma DiskUpToDate(s: State, es: seq<Event>, k: Key)
    requires Inv(s) && s.logical == s.disk
    requires After(s, es).queue == []
    requires forall b :: 0 <= b < |After(s, es).bufs| ==> !After(s, es).bufs[b].delwri
    ensures At(After(s, es).disk, k) == LastWritten(s, es, k)
  {
    var t := After(s, es);
    RunInv(s, es);
    LogicalIsLastWritten(s, es, k);
    var b := Find(t.bufs, k);
    if b < |t.bufs| {
      BufferData(t, b);
    }
  }

  // No sleeper is forgotten: when no request is outstanding and every process has released
  // its buffers, nobody sleeps.
  lemma NobodyForgotten(s: State, es: seq<Event>, p: nat)
    requires Inv(s) && |After(s, es).bufs| > 0
    requires After(s, es).queue == [] && p in After(s, es).procs
    requires forall b :: 0 <= b < |After(s, es).bufs| ==> !After(s, es).bufs[b].holder.By?
    ensures After(s, es).procs[p].sleep == None
  {
    RunInv(s, es);
    var t := After(s, es);
    Facts(t, p);
    assert 0 in t.avail by { assert HolderOk(t, 0); }
    forall b | 0 <= b < |t.bufs| ensures !t.bufs[b].busy {
      assert HolderOk(t, b);
    }
  }
}
