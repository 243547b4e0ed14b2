// What calls on the cache come to (dmr/bio.c): which buffer a process gets or sleeps for, and
// when reads and writes reach the driver.
module CacheCalls {
  import opened Wrappers
  import opened Machine
  import opened BufferCache

  // ---- getblk and bread ----

  ghost predicate HasBuffer(s: State, want: Option<Key>) {
    want.Some? && exists b :: 0 <= b < |s.bufs| && s.bufs[b].key == want
  }

  // p is still in getblk, asleep on c or about to look again.
  ghost predicate StaysIn(s: State, t: State, p: nat, sleep: Option<Channel>) {
    p in s.procs && t.procs == s.procs[p := Proc(s.procs[p].act, sleep)]
  }

  // getblk has found buffer b for p.
  ghost predicate Finds(s: State, t: State, p: nat, b: nat) {
    && p in s.procs && s.procs[p].act.Get? && b < |s.bufs| == |t.bufs| && b in s.avail && b !in t.avail
    && t.procs == s.procs[p := Proc(Got(b, s.procs[p].act.want, s.procs[p].act.next), None)]
    && t.bufs[b].key == s.procs[p].act.want && t.bufs[b].holder == By(p)
    && (forall x :: 0 <= x < |s.bufs| && x != b ==> t.bufs[x] == s.bufs[x])
    && (forall x :: x in t.avail <==> x in s.avail && x != b)
  }

  // There is buffer b of the block: it is taken when it is free, and slept for when it is busy.
  ghost predicate Hits(s: State, t: State, p: nat, b: nat)
    requires b < |s.bufs|
  {
    if s.bufs[b].busy then
      StaysIn(s, t, p, Some(OnBuf(b))) && t.avail == s.avail && t.bufs == s.bufs[b := s.bufs[b].(wanted := true)]
    else Finds(s, t, p, b) && t.bufs[b].data == s.bufs[b].data && t.bufs[b].done == s.bufs[b].done
  }

  // There is none: the first on the list is taken, once its delayed write, if it has one, has
  // been started; with an empty list the process sleeps for any.
  ghost predicate Misses(s: State, t: State, p: nat)
    requires InRange(s.avail, |s.bufs|)
  {
    if s.avail == [] then StaysIn(s, t, p, Some(OnFree)) && t.freeWanted && t.bufs == s.bufs
    else if s.bufs[s.avail[0]].delwri then t.procs == s.procs && Started(s, t, s.avail[0])
    else Finds(s, t, p, s.avail[0]) && !t.bufs[s.avail[0]].done
  }

  // One pass of getblk.
  lemma GetTurns(s: State, p: nat)
    requires Inv(s) && Typed(s) && Enabled(s, GetStep(p))
    ensures var t := Apply(s, GetStep(p));
            var want := s.procs[p].act.want;
            if HasBuffer(s, want) then exists b :: 0 <= b < |s.bufs| && s.bufs[b].key == want && Hits(s, t, p, b)
            else Misses(s, t, p)
  {
    hide Inv, Apply, Hits, Misses;
    var want := s.procs[p].act.want;
    if want.Some? && Find(s.bufs, want.value) < |s.bufs| {
      GetHits(s, p, Find(s.bufs, want.value));
    } else {
      GetMisses(s, p);
    }
  }

  lemma GetHits(s: State, p: nat, b: nat)
    requires Inv(s) && Typed(s) && Enabled(s, GetStep(p)) && s.procs[p].act.want.Some?
    requires b == Find(s.bufs, s.procs[p].act.want.value) < |s.bufs|
    ensures HasBuffer(s, s.procs[p].act.want) && s.bufs[b].key == s.procs[p].act.want
    ensures Hits(s, Apply(s, GetStep(p)), p, b)
  {
    hide Inv, Without, StartWrite, Reassign;
    BufIs(s, b);
  }

  lemma GetMisses(s: State, p: nat)
    requires Inv(s) && Typed(s) && Enabled(s, GetStep(p))
    requires s.procs[p].act.want.Some? ==> Find(s.bufs, s.procs[p].act.want.value) == |s.bufs|
    ensures !HasBuffer(s, s.procs[p].act.want) && Misses(s, Apply(s, GetStep(p)), p)
  {
    hide Inv, Without;
  }

  lemma BufIs(s: State, b: nat)
    requires Inv(s) && b < |s.bufs|
    ensures b in s.avail <==> !s.bufs[b].busy
  {
  }

  // bread starts to read a block that is not valid, and returns one that is.
  lemma BreadTurns(s: State, p: nat)
    requires Inv(s) && Typed(s) && Enabled(s, UseStep(p)) && s.procs[p].act.next == ReadIt
    ensures var t := Apply(s, UseStep(p));
            var b := s.procs[p].act.b;
            && b < |s.bufs| == |t.bufs| && s.procs[p].act.want.Some?
            && if s.bufs[b].done then t == s.(procs := s.procs[p := Proc(Run, None)])
               else
                 && t.procs == s.procs[p := Proc(Wait(b, s.procs[p].act.want.value, false), None)]
                 && t.queue == s.queue + [b] && t.bufs == s.bufs[b := s.bufs[b].(read := true, async := false)]
  {
    Facts(s, p);
    hide Inv;
  }

  // iowait sleeps until the request is finished; then the call ends, with the buffer released
  // if it was bwrite.
  lemma WaitTurns(s: State, p: nat)
    requires Inv(s) && Typed(s) && Enabled(s, WaitStep(p))
    ensures var t := Apply(s, WaitStep(p));
            var b := s.procs[p].act.b;
            && b < |s.bufs| == |t.bufs| && t.queue == s.queue
            && if !s.bufs[b].done then StaysIn(s, t, p, Some(OnBuf(b))) && t.bufs == s.bufs && t.avail == s.avail
               else if s.procs[p].act.release then
                 Idle(t, p) && t.avail == s.avail + [b] && t.bufs[b].holder == Nobody
               else t == s.(procs := s.procs[p := Proc(Run, None)])
  {
    Facts(s, p);
    hide Inv, Announced;
  }

  // brelse puts the buffer at the end of the list, so that it is the last to be taken.
  lemma BrelseEnds(s: State, p: nat, b: nat)
    requires Inv(s) && Typed(s) && Enabled(s, CallBrelse(p, b))
    ensures var t := Apply(s, CallBrelse(p, b));
            && Idle(t, p) && t.avail == s.avail + [b] && t.queue == s.queue && |t.bufs| == |s.bufs|
            && t.bufs[b].holder == Nobody && t.bufs[b].key == s.bufs[b].key && t.bufs[b].data == s.bufs[b].data
            && (forall x :: 0 <= x < |s.bufs| && x != b ==> t.bufs[x] == s.bufs[x])
  {
    hide Inv, Announced;
    BrelseActs(s, b);
  }

  // ---- bflush ----

  // The delayed writes to the device on the available list.
  function Delayed(s: State, dev: Option<nat>): set<nat> {
    set b | b in s.avail && b < |s.bufs| && Due(s.bufs[b], dev)
  }

  // Buffer b is given to the driver to be written, and no other buffer changes.
  ghost predicate Started(s: State, t: State, b: nat) {
    && b < |s.bufs| == |t.bufs| && t.queue == s.queue + [b] && t.issued == s.issued + [b]
    && t.bufs[b] == s.bufs[b].(busy := true, done := false, read := false, async := true, delwri := false,
                               holder := Disk, changed := false)
    && (forall x :: 0 <= x < |s.bufs| && x != b ==> t.bufs[x] == s.bufs[x])
    && (forall x :: x in t.avail <==> x in s.avail && x != b)
    && t.procs == s.procs && t.disk == s.disk && t.logical == s.logical
  }

  // A pass of bflush starts one delayed write, as long as there is one.
  lemma FlushStarts(s: State, p: nat, dev: Option<nat>) returns (b: nat)
    requires Inv(s) && Typed(s) && Enabled(s, Flush(p, dev))
    ensures var t := Apply(s, Flush(p, dev));
            if Delayed(s, dev) == {} then t == s
            else b in Delayed(s, dev) && Started(s, t, b) && Delayed(t, dev) == Delayed(s, dev) - {b}
  {
    hide Inv, Without;
    var i := FirstDue(s, dev, 0);
    b := 0;
    if i < |s.avail| {
      b := s.avail[i];
      assert b in Delayed(s, dev);
    } else {
      forall x ensures x !in Delayed(s, dev) {
      }
    }
  }

  // Nothing but the flags and the contents of buffers changes, and no buffer leaves the list.
  ghost predicate SameDelays(s: State, t: State) {
    && |t.bufs| == |s.bufs| && (forall b :: b in s.avail ==> b in t.avail)
    && (forall b :: 0 <= b < |s.bufs| ==> t.bufs[b].delwri == s.bufs[b].delwri && t.bufs[b].key == s.bufs[b].key)
    && (forall b :: b in t.avail && b !in s.avail ==> b < |s.bufs| && !t.bufs[b].delwri)
  }

  // The interrupt delays nothing and frees no delayed write.
  lemma InterruptDelayed(s: State)
    requires Inv(s) && Typed(s) && Enabled(s, Interrupt)
    ensures SameDelays(s, Apply(s, Interrupt)) && Apply(s, Interrupt).queue == s.queue[1..]
  {
    hide Inv, Announced;
    QueuedIs(s, s.queue[0]);
  }

  lemma QueuedIs(s: State, b: nat)
    requires Inv(s) && b in s.queue
    ensures b < |s.bufs| && !s.bufs[b].delwri && |s.bufs[b].data| == 514
  {
    BufferData(s, b);
  }

  lemma SameDelayed(s: State, t: State, dev: Option<nat>)
    requires SameDelays(s, t)
    ensures Delayed(t, dev) == Delayed(s, dev)
  {
    assert forall b :: b in Delayed(t, dev) <==> b in Delayed(s, dev);
  }

  // The passes of bflush; between them only the disk interrupts.
  predicate Flushing(es: seq<Event>, p: nat, dev: Option<nat>) {
    forall i :: 0 <= i < |es| ==> es[i] == Flush(p, dev) || es[i] == Interrupt
  }

  function Passes(es: seq<Event>): nat {
    if es == [] then 0 else Passes(es[..|es| - 1]) + if es[|es| - 1].Flush? then 1 else 0
  }

  // No process has a buffer with a delayed write to the device.
  ghost predicate NoneHeld(s: State, dev: Option<nat>) {
    forall b :: 0 <= b < |s.bufs| && Due(s.bufs[b], dev) ==> b in s.avail
  }

  ghost predicate Idle(s: State, p: nat) {
    p in s.procs && s.procs[p].act == Run
  }

  lemma FlushStep(s: State, e: Event, p: nat, dev: Option<nat>)
    requires Inv(s) && Idle(s, p) && (e == Flush(p, dev) || e == Interrupt)
    ensures var t := Moved(s, e);
            && Inv(t) && Idle(t, p) && t.logical == s.logical && Delayed(t, dev) <= Delayed(s, dev)
            && (e.Flush? && Delayed(s, dev) != {} ==> |Delayed(t, dev)| < |Delayed(s, dev)|)
            && (NoneHeld(s, dev) ==> NoneHeld(t, dev))
  {
    hide Inv, Typed, Apply, SameDelays, Started, Delayed, NoneHeld;
    InvTyped(s);
    StepInv(s, e);
    if Enabled(s, e) {
      OtherLogical(s, e);
      StepAsked(s, e, p);
      if e.Flush? {
        var b := FlushStarts(s, p, dev);
        if Delayed(s, dev) != {} {
          Smaller(Delayed(s, dev), b);
          StartedHeld(s, Apply(s, e), b, dev);
        }
      } else {
        InterruptDelayed(s);
        SameDelayed(s, Apply(s, e), dev);
        SameHeld(s, Apply(s, e), dev);
      }
    }
  }

  lemma Smaller(a: set<nat>, b: nat)
    requires b in a
    ensures |a - {b}| < |a|
  {
  }

  lemma StartedHeld(s: State, t: State, b: nat, dev: Option<nat>)
    requires Started(s, t, b)
    ensures NoneHeld(s, dev) ==> NoneHeld(t, dev)
  {
  }

  lemma SameHeld(s: State, t: State, dev: Option<nat>)
    requires SameDelays(s, t)
    ensures NoneHeld(s, dev) ==> NoneHeld(t, dev)
  {
  }

  // Each pass leaves one delayed write fewer.
  lemma {:induction false} FlushRun(s: State, es: seq<Event>, p: nat, dev: Option<nat>)
    requires Inv(s) && Idle(s, p) && Flushing(es, p, dev)
    ensures var t := After(s, es);
            && Inv(t) && Idle(t, p) && t.logical == s.logical && (NoneHeld(s, dev) ==> NoneHeld(t, dev))
            && (Delayed(t, dev) == {} || |Delayed(t, dev)| + Passes(es) <= |Delayed(s, dev)|)
  {
    hide Inv, Moved, NoneHeld, Delayed, Idle;
    if es != [] {
      var n := |es| - 1;
      FlushRun(s, es[..n], p, dev);
      FlushStep(After(s, es[..n]), es[n], p, dev);
      NoneLeft(Delayed(After(s, es[..n]), dev), Delayed(After(s, es), dev));
    }
  }

  lemma NoneLeft(a: set<nat>, b: set<nat>)
    requires b <= a
    ensures |b| <= |a| && (a == {} ==> b == {})
  {
    SubsetSize(b, a);
  }

  // So after as many passes as there are available buffers none is delayed ...
  lemma FlushEmpties(s: State, es: seq<Event>, p: nat, dev: Option<nat>)
    requires Inv(s) && Idle(s, p) && Flushing(es, p, dev) && Passes(es) >= |s.avail|
    ensures Delayed(After(s, es), dev) == {}
  {
    hide Inv, After, Idle;
    FlushRun(s, es, p, dev);
    DelayedFew(s, dev);
    if |Delayed(After(s, es), dev)| + Passes(es) <= |Delayed(s, dev)| {
      assert |Delayed(After(s, es), dev)| == 0;
    }
  }

  function Members(l: seq<nat>): set<nat> {
    set b | b in l
  }

  lemma DelayedFew(s: State, dev: Option<nat>)
    ensures |Delayed(s, dev)| <= |s.avail|
  {
    MembersFew(s.avail);
    SubsetSize(Delayed(s, dev), Members(s.avail));
  }

  lemma {:induction false} MembersFew(l: seq<nat>)
    ensures |Members(l)| <= |l|
  {
    if l == [] {
      assert Members(l) == {};
    } else {
      var n := |l| - 1;
      MembersFew(l[..n]);
      assert l == l[..n] + [l[n]];
      assert Members(l) == Members(l[..n]) + {l[n]};
    }
  }

  // ... and once the driver has finished what it was given, the disk has every block of the
  // device as last written, unless a process has a delayed write in hand.
  lemma FlushReachesDisk(s0: State, before: seq<Event>, es: seq<Event>, p: nat, dev: Option<nat>, k: Key)
    requires Inv(s0) && s0.logical == s0.disk && Idle(After(s0, before), p)
    requires Flushing(es, p, dev) && Passes(es) >= |After(s0, before).avail|
    requires NoneHeld(After(s0, before), dev) && (dev.Some? ==> k.dev == dev.value)
    requires After(After(s0, before), es).queue == []
    ensures At(After(After(s0, before), es).disk, k) == LastWritten(s0, before, k)
  {
    hide Inv, After, Idle, LastWritten, NoneHeld, Delayed;
    var s := After(s0, before);
    var t := After(s, es);
    RunInv(s0, before);
    LogicalIsLastWritten(s0, before, k);
    FlushRun(s, es, p, dev);
    FlushEmpties(s, es, p, dev);
    NothingDue(t, dev, k);
  }

  lemma NothingDue(t: State, dev: Option<nat>, k: Key)
    requires Inv(t) && NoneHeld(t, dev) && Delayed(t, dev) == {} && t.queue == []
    requires dev.Some? ==> k.dev == dev.value
    ensures At(t.disk, k) == At(t.logical, k)
  {
    hide Lists, Unique, Holders, Sleepers;
    var b := Find(t.bufs, k);
    if b < |t.bufs| {
      BufferData(t, b);
      assert b in Delayed(t, dev) || !Due(t.bufs[b], dev);
    }
  }

  // Enough interrupts finish what the driver has.
  function Interrupts(n: nat): (r: seq<Event>)
    ensures |r| == n && forall i :: 0 <= i < n ==> r[i] == Interrupt
  {
    seq(n, _ => Interrupt)
  }

  lemma {:induction false} QueueEmpties(s: State, n: nat)
    requires Inv(s)
    ensures |After(s, Interrupts(n)).queue| == if n <= |s.queue| then |s.queue| - n else 0
    ensures Inv(After(s, Interrupts(n)))
  {
    hide Inv, Apply;
    if n > 0 {
      QueueEmpties(s, n - 1);
      assert Interrupts(n)[..n - 1] == Interrupts(n - 1);
      var u := After(s, Interrupts(n - 1));
      InvTyped(u);
      StepInv(u, Interrupt);
      if Enabled(u, Interrupt) {
        InterruptDelayed(u);
      }
    }
  }

  function PassesOf(n: nat, p: nat, dev: Option<nat>): (r: seq<Event>)
    ensures |r| == n && forall i :: 0 <= i < n ==> r[i] == Flush(p, dev)
  {
    seq(n, _ => Flush(p, dev))
  }

  lemma {:induction false} AfterBoth(s: State, a: seq<Event>, b: seq<Event>)
    ensures After(s, a + b) == After(After(s, a), b)
    decreases |b|
  {
    hide Moved;
    if b == [] {
      assert a + b == a;
    } else {
      var n := |b| - 1;
      assert (a + b)[..|a| + n] == a + b[..n];
      AfterBoth(s, a, b[..n]);
    }
  }

  lemma {:induction false} PassesCount(n: nat, m: nat, p: nat, dev: Option<nat>)
    ensures Passes(PassesOf(n, p, dev) + Interrupts(m)) == n
    decreases n + m
  {
    var w := PassesOf(n, p, dev) + Interrupts(m);
    if m > 0 {
      PassesCount(n, m - 1, p, dev);
      assert w[..n + m - 1] == PassesOf(n, p, dev) + Interrupts(m - 1);
    } else if n > 0 {
      PassesCount(n - 1, 0, p, dev);
      assert w[..n - 1] == PassesOf(n - 1, p, dev) + Interrupts(0);
    }
  }

  // bflush and the interrupts that it leads to bring the device up to date.
  lemma FlushedToDisk(s0: State, before: seq<Event>, p: nat, dev: Option<nat>) returns (es: seq<Event>)
    requires Inv(s0) && s0.logical == s0.disk && Idle(After(s0, before), p) && NoneHeld(After(s0, before), dev)
    ensures Flushing(es, p, dev)
    ensures forall k: Key :: (dev.Some? ==> k.dev == dev.value) ==>
              At(After(After(s0, before), es).disk, k) == LastWritten(s0, before, k)
  {
    hide Inv, After, Idle, LastWritten, NoneHeld;
    var s := After(s0, before);
    var n := |s.avail|;
    var first := PassesOf(n, p, dev);
    RunInv(s0, before);
    RunInv(s, first);
    var m := |After(s, first).queue|;
    es := first + Interrupts(m);
    QueueEmpties(After(s, first), m);
    AfterBoth(s, first, Interrupts(m));
    PassesCount(n, m, p, dev);
    forall k: Key | dev.Some? ==> k.dev == dev.value ensures At(After(s, es).disk, k) == LastWritten(s0, before, k) {
      FlushReachesDisk(s0, before, es, p, dev, k);
    }
  }

  // ---- bwrite, bawrite and bdwrite ----

  // When bwrite returns, the disk has the block as last written.
  lemma BwriteReturns(s0: State, before: seq<Event>, p: nat)
    requires Inv(s0) && s0.logical == s0.disk
    requires var s := After(s0, before);
             Enabled(s, WaitStep(p)) && s.procs[p].act.release && Idle(Moved(s, WaitStep(p)), p)
    ensures var s := After(s0, before);
            var t := Moved(s, WaitStep(p));
            var b, k := s.procs[p].act.b, s.procs[p].act.waitKey;
            && At(t.disk, k) == LastWritten(s0, before, k)
            && b < |t.bufs| && t.bufs[b].holder == Nobody && b in t.avail
  {
    hide Inv, After, LastWritten, Typed;
    var s := After(s0, before);
    RunInv(s0, before);
    InvTyped(s);
    LogicalIsLastWritten(s0, before, s.procs[p].act.waitKey);
    WrittenOut(s, p);
  }

  lemma WrittenOut(s: State, p: nat)
    requires Inv(s) && Typed(s) && Enabled(s, WaitStep(p)) && s.procs[p].act.release
    requires Idle(Apply(s, WaitStep(p)), p)
    ensures var t := Apply(s, WaitStep(p));
            var b, k := s.procs[p].act.b, s.procs[p].act.waitKey;
            && At(t.disk, k) == At(s.logical, k)
            && b < |t.bufs| && t.bufs[b].holder == Nobody && b in t.avail
  {
    Facts(s, p);
    BufferData(s, s.procs[p].act.b);
    hide Inv, Announced;
  }

  // bawrite gives the buffer to the driver and does not wait.
  lemma BawriteStarts(s: State, p: nat, b: nat)
    requires Inv(s) && Typed(s) && Enabled(s, CallBawrite(p, b))
    ensures var t := Apply(s, CallBawrite(p, b));
            && Idle(t, p) && t.queue == s.queue + [b] && t.issued == s.issued + [b] && t.avail == s.avail
            && t.bufs[b].holder == Disk && t.bufs[b].async && !t.bufs[b].read && !t.bufs[b].delwri
            && t.bufs[b].data == s.bufs[b].data && t.bufs[b].key == s.bufs[b].key
  {
    hide Inv;
  }

  // bwrite gives it to the driver and waits.
  lemma BwriteStarts(s: State, p: nat, b: nat)
    requires Inv(s) && Typed(s) && Enabled(s, CallBwrite(p, b))
    ensures var t := Apply(s, CallBwrite(p, b));
            && p in t.procs && t.procs[p].act == Wait(b, s.bufs[b].key.value, true)
            && t.queue == s.queue + [b] && t.issued == s.issued + [b] && t.avail == s.avail
            && t.bufs[b].holder == By(p) && !t.bufs[b].read && !t.bufs[b].delwri && !t.bufs[b].done
            && t.bufs[b].data == s.bufs[b].data && t.bufs[b].key == s.bufs[b].key
  {
    hide Inv;
  }

  // bdwrite gives the driver nothing; the buffer becomes available, with its write delayed.
  lemma BdwriteDelays(s: State, p: nat, b: nat)
    requires Inv(s) && Typed(s) && Enabled(s, CallBdwrite(p, b))
    ensures var t := Apply(s, CallBdwrite(p, b));
            && Idle(t, p) && t.queue == s.queue && t.disk == s.disk && t.avail == s.avail + [b]
            && b in Delayed(t, None) && t.bufs[b].done && t.bufs[b].holder == Nobody
            && t.bufs[b].data == s.bufs[b].data && t.bufs[b].key == s.bufs[b].key
  {
    hide Inv, Announced;
    BrelseActs(Logged(s, b), b);
  }

  // ---- breada ----

  // The block asked for is looked for in core first, and got when it is not there ...
  lemma BreadaStarts(s: State, p: nat, k: Key, ahead: Option<Key>)
    requires Inv(s) && Typed(s) && Enabled(s, CallBreada(p, k, ahead))
    ensures var a := Apply(s, CallBreada(p, k, ahead)).procs[p].act;
            if HasBuffer(s, Some(k)) then a == Check(None, k, ahead) else a == Get(Some(k), First(ahead))
  {
  }

  // ... and its read is started when it is not valid ...
  lemma BreadaReads(s: State, p: nat)
    requires Inv(s) && Typed(s) && Enabled(s, UseStep(p)) && s.procs[p].act.next.First?
    ensures var t := Apply(s, UseStep(p));
            var Got(b, want, next) := s.procs[p].act;
            && b < |s.bufs| && want.Some?
            && t.procs == s.procs[p := Proc(Check(Some(b), want.value, next.ahead), None)]
            && if s.bufs[b].done then t.queue == s.queue && t.bufs == s.bufs
               else t.queue == s.queue + [b] && t.bufs == s.bufs[b := s.bufs[b].(read := true, async := false)]
  {
    Facts(s, p);
    hide Inv;
  }

  // ... then the read-ahead block is got unless it is there, and last the block asked for is
  // waited for, or read as by bread.
  lemma BreadaChecks(s: State, p: nat)
    requires Inv(s) && Typed(s) && Enabled(s, CheckStep(p))
    ensures var Check(main, k, ahead) := s.procs[p].act;
            Apply(s, CheckStep(p)).procs[p].act ==
            if ahead.Some? && !HasBuffer(s, ahead) then Get(ahead, Ahead(main, k))
            else if main.Some? then Wait(main.value, k, false) else Get(Some(k), ReadIt)
  {
  }

  // The read of the read-ahead block is started, and nobody waits for it.
  lemma ReadAheadStarts(s: State, p: nat)
    requires Inv(s) && Typed(s) && Enabled(s, UseStep(p)) && s.procs[p].act.next.Ahead?
    ensures var t := Apply(s, UseStep(p));
            var b := s.procs[p].act.b;
            var Ahead(main, k) := s.procs[p].act.next;
            && b < |s.bufs| == |t.bufs| && p in t.procs
            && t.procs[p].act == (if main.Some? then Wait(main.value, k, false) else Get(Some(k), ReadIt))
            && if s.bufs[b].done then t.queue == s.queue && t.bufs[b].holder == Nobody && b in t.avail
               else t.queue == s.queue + [b] && t.bufs[b].read && t.bufs[b].async && t.bufs[b].holder == Disk
  {
    Facts(s, p);
    hide Inv, Announced;
  }
}
