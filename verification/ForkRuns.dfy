// A run of the system, from its start, in which a fork loses its parent's image: core and
// swap area fill up, a child finds no area, and sched takes it for a process with an image of
// its own once there is room again.
module ForkRuns {
  import opened Wrappers
  import opened ResourceMap
  import opened MapRuns
  import opened Processes

  // ---- Room ----

  // Free units in a row are in one run.
  lemma FreeRoom(m: Arena, size: nat, a: nat)
    requires Canonical(m.free) && size > 0 && forall u :: a <= u < a + size ==> Free(m.free, u)
    ensures HasRoom(m, size)
  {
    assert Free(m.free, a);
    var i :| 0 <= i < |m.free| && InRun(m.free[i], a);
    EndNotFree(m.free, i);
    assert m.free[i].addr + m.free[i].size >= a + size;
  }

  lemma EndNotFree(e: seq<Run>, i: nat)
    requires Canonical(e) && i < |e|
    ensures !Free(e, e[i].addr + e[i].size)
  {
  }

  function Units(lo: nat, hi: nat): (us: set<nat>)
    requires lo <= hi
    ensures |us| == hi - lo && forall u :: u in us <==> lo <= u < hi
    decreases hi - lo
  {
    if lo == hi then {} else {lo} + Units(lo + 1, hi)
  }

  ghost predicate InPiece(out: set<Run>, u: nat) {
    exists r :: r in out && InRun(r, u)
  }

  lemma OnePiece(out: set<Run>, r: Run, u: nat)
    requires r in out
    ensures InPiece(out, u) <==> InPiece(out - {r}, u) || InRun(r, u)
  {
    if InPiece(out, u) && !InRun(r, u) {
      var q :| q in out && InRun(q, u);
      assert q in out - {r};
    }
  }

  ghost predicate Apart(out: set<Run>) {
    forall r, q, u: nat :: r in out && q in out && InRun(r, u) && InRun(q, u) ==> r == q
  }

  lemma OneMorePiece(out: set<Run>, r: Run, ws: set<nat>, vs: set<nat>)
    requires r in out && Apart(out) && forall u :: u in ws <==> InPiece(out - {r}, u)
    requires forall u :: u in vs <==> InRun(r, u)
    ensures ws !! vs && forall u :: u in ws + vs <==> InPiece(out, u)
  {
    forall u ensures u in ws + vs <==> InPiece(out, u) {
      OnePiece(out, r, u);
    }
  }

  // The units of pieces of one size.
  lemma {:induction false} HeldUnits(out: set<Run>, size: nat) returns (us: set<nat>)
    requires Apart(out) && forall r :: r in out ==> r.size == size
    ensures |us| == size * |out|
    ensures forall u :: u in us <==> InPiece(out, u)
  {
    us := {};
    if out != {} {
      var r :| r in out;
      var rest := out - {r};
      var ws := HeldUnits(rest, size);
      us := MoreUnits(out, r, ws);
      assert |rest| + 1 == |out|;
      Times(size, |rest|);
    }
  }

  lemma MoreUnits(out: set<Run>, r: Run, ws: set<nat>) returns (us: set<nat>)
    requires r in out && Apart(out) && forall u :: u in ws <==> InPiece(out - {r}, u)
    ensures |us| == |ws| + r.size && forall u :: u in us <==> InPiece(out, u)
  {
    var vs := Units(r.addr, r.addr + r.size);
    OneMorePiece(out, r, ws, vs);
    us := ws + vs;
  }

  lemma Times(size: nat, n: nat)
    ensures size * (n + 1) == size * n + size
  {
  }

  // There is room for few pieces only, and none of them wastes a part of it.
  lemma PiecesFit(m: Arena, size: nat, lo: nat, hi: nat)
    requires Partition(m, lo, hi) && forall r :: r in m.out ==> r.size == size
    ensures size * |m.out| <= hi - lo
    ensures size * |m.out| < hi - lo ==> HasRoom(m, 1)
    ensures m.out == {} && lo < hi ==> HasRoom(m, hi - lo)
  {
    hide FirstFit, InRun, Canonical;
    assert Apart(m.out);
    assert forall u :: InPiece(m.out, u) <==> Out(m, u);
    var us := HeldUnits(m.out, size);
    SubsetSize(us, Units(lo, hi));
    hide Partition, InPiece, Out, Free;
    if size * |m.out| < hi - lo {
      assert us != Units(lo, hi);
      var u :| u in Units(lo, hi) && u !in us;
      FreeRoom(m, 1, u);
    }
    if m.out == {} && lo < hi {
      FreeRoom(m, hi - lo, lo);
    }
  }

  // Giving a piece back makes room for another one.
  lemma FreedRoom(m: Arena, r: Run, lo: nat, hi: nat)
    requires Partition(m, lo, hi) && r in m.out
    ensures HasRoom(Serve(m, Mfree(r)), r.size)
  {
    MfreePartition(m, r, lo, hi);
    var t := Serve(m, Mfree(r));
    forall u | r.addr <= u < r.addr + r.size ensures Free(t.free, u) {
      assert InRun(r, u) && Out(m, u);
      forall q | q in t.out ensures !InRun(q, u) {
      }
    }
    FreeRoom(t, r.size, r.addr);
  }

  // ---- Process 1 forks until there is no room ----

  lemma AfterOne(es: seq<Event>, e: Event)
    ensures After(es + [e]) == Moved(After(es), e)
    ensures Careful(es + [e]) <==> Careful(es) && !Steals(After(es), e)
  {
    assert (es + [e])[..|es + [e]| - 1] == es;
  }

  // Entries from 1 up to n are ready to run, those from n on are free; entries 1 and 2 are in
  // core.
  ghost predicate Filled(s: State, n: nat) {
    && Inv(s) && s.sched == NoTransfer && |s.procs| == NPROC && 2 <= n <= NPROC
    && (forall j :: 1 <= j < n ==> s.procs[j].stat == Ready && s.procs[j].phase == User)
    && (forall j :: n <= j < NPROC ==> s.procs[j].stat == NoProc)
    && s.procs[1].loaded && (if n == 2 then HasRoom(s.core, USIZE) else s.procs[2].loaded)
    && n == 1 + |s.core.out| + |s.swap.out|
  }

  lemma FilledSizes(s: State, n: nat)
    requires Filled(s, n)
    ensures forall r :: r in s.core.out ==> r.size == USIZE
    ensures forall r :: r in s.swap.out ==>
              exists k :: 1 <= k < n && !s.procs[k].loaded && r == Run(IMAGE, s.procs[k].addr)
  {
    hide Partition, Life;
    forall j | n <= j < NPROC ensures s.procs[j].phase == User {
      assert StatOk(s, j);
    }
    forall r | r in s.core.out ensures r.size == USIZE {
      var o :| CoreOwners(s)(o) == Some(r);
      assert CoreOf(s, o) == Some(r);
    }
    forall r | r in s.swap.out
      ensures exists k :: 1 <= k < n && !s.procs[k].loaded && r == Run(IMAGE, s.procs[k].addr)
    {
      var o :| SwapOwners(s)(o) == Some(r);
      assert SwapOf(s, o) == Some(r);
      assert o.Image? && 0 < o.i < NPROC;
      assert o.i < n && !s.procs[o.i].loaded;
    }
  }

  lemma FilledFits(s: State, n: nat)
    requires Filled(s, n)
    ensures n < NPROC && FreeSlot(s.procs) == n && Enabled(s, Fork(1)) && HasRoom(s.swap, 1)
    ensures s.swap.out == {} ==> HasRoom(s.swap, IMAGE)
  {
    hide Life, Owned, FreeSlot;
    FilledSizes(s, n);
    PiecesFit(s.core, USIZE, 32, 160);
    PiecesFit(s.swap, IMAGE, 4000, 4872);
    SlotIs(s.procs, n);
  }

  lemma GrowInCore(s: State, n: nat)
    requires Filled(s, n) && HasRoom(s.core, USIZE)
    ensures Filled(Moved(s, Fork(1)), n + 1)
  {
    hide Stats, Life, FirstFit, Serve, FreshPid, FreeSlot, Partition, Owned;
    FilledFits(s, n);
    StepInv(s, Fork(1));
    MallocOut(s.core, USIZE, 32, 160);
  }

  lemma GrowOnSwap(s: State, n: nat)
    requires Filled(s, n) && !HasRoom(s.core, USIZE) && HasRoom(s.swap, IMAGE)
    ensures var t := Moved(s, Fork(1)); Filled(Moved(t, CopyDone(n)), n + 1)
  {
    hide Stats, Life, FirstFit, Serve, FreshPid, FreeSlot, Partition, Owned;
    FilledFits(s, n);
    var t := Moved(s, Fork(1));
    StepInv(s, Fork(1));
    StepInv(t, CopyDone(n));
    MallocOut(s.swap, IMAGE, 4000, 4872);
  }

  // There are runs after which process 1 can fork and there is no room.
  lemma {:induction false} FillUp(es: seq<Event>, n: nat) returns (fs: seq<Event>, m: nat)
    requires Careful(es) && Filled(After(es), n)
    ensures Careful(fs) && Filled(After(fs), m)
    ensures !HasRoom(After(fs).core, USIZE) && !HasRoom(After(fs).swap, IMAGE)
    decreases NPROC - n
  {
    hide Filled, Moved, Steals, Careful, After, HasRoom;
    var s := After(es);
    assert n < NPROC by { FilledFits(s, n); }
    assert !Steals(s, Fork(1)) && !Steals(Moved(s, Fork(1)), CopyDone(n)) by { NoSteal(s, n); }
    if HasRoom(s.core, USIZE) {
      GrowInCore(s, n);
      AfterOne(es, Fork(1));
      fs, m := FillUp(es + [Fork(1)], n + 1);
    } else if HasRoom(s.swap, IMAGE) {
      GrowOnSwap(s, n);
      AfterOne(es, Fork(1));
      AfterOne(es + [Fork(1)], CopyDone(n));
      fs, m := FillUp(es + [Fork(1)] + [CopyDone(n)], n + 1);
    } else {
      fs, m := es, n;
    }
  }

  lemma NoSteal(s: State, n: nat)
    ensures !Steals(s, Fork(1)) && !Steals(Moved(s, Fork(1)), CopyDone(n))
  {
  }

  // ---- Room again ----

  // Child m of a fork has no area; process k is on the swap area.
  ghost predicate Waits(s: State, m: nat, k: nat) {
    && Inv(s) && s.sched == NoTransfer && 2 < k < m < |s.procs|
    && s.procs[m].stat == Asleep && s.procs[m].loaded && !s.procs[m].locked && s.procs[m].phase.Wanting?
    && s.procs[k].stat == Ready && s.procs[k].phase == User && !s.procs[k].loaded
  }

  lemma ForkInVain(s: State, m: nat) returns (k: nat)
    requires Filled(s, m) && !HasRoom(s.core, USIZE) && !HasRoom(s.swap, IMAGE)
    ensures var t := Moved(s, Fork(1));
            Waits(t, m, k) && HasRoom(t.swap, 1) && t.procs[2].phase == User && CanRun(t, 2)
  {
    hide Stats, Memory, Life, FirstFit, FreshPid, FreeSlot;
    FilledFits(s, m);
    FilledSizes(s, m);
    var r :| r in s.swap.out;
    k :| 1 <= k < m && !s.procs[k].loaded && r == Run(IMAGE, s.procs[k].addr);
    StepInv(s, Fork(1));
  }

  // Process 2 leaves, and its pages are free.
  lemma OneLeaves(s: State, m: nat, k: nat)
    requires Waits(s, m, k) && HasRoom(s.swap, 1) && s.procs[2].phase == User && CanRun(s, 2)
    ensures var t := Moved(Moved(s, Exit(2)), ExitDone(2)); Waits(t, m, k) && HasRoom(t.core, USIZE)
  {
    hide Stats, Memory, Life, FirstFit, Serve;
    StepInv(s, Exit(2));
    var u := Moved(s, Exit(2));
    StepInv(u, ExitDone(2));
    InCore(s, 2);
    FreedRoom(s.core, Run(USIZE, s.procs[2].addr), 32, 160);
  }

  lemma InCore(s: State, i: nat)
    requires Memory(s) && CoreOf(s, Image(i)).Some?
    ensures CoreOf(s, Image(i)).value in s.core.out && Partition(s.core, 32, 160)
  {
    hide CoreOf, Partition;
    assert CoreOwners(s)(Image(i)) == CoreOf(s, Image(i));
  }

  lemma OnSwap(s: State, i: nat)
    requires Memory(s) && SwapOf(s, Image(i)).Some?
    ensures SwapOf(s, Image(i)).value in s.swap.out && Partition(s.swap, 4000, 4872)
  {
    hide SwapOf, Partition;
    assert SwapOwners(s)(Image(i)) == SwapOf(s, Image(i));
  }

  // Process k takes them, its blocks are free, and the child is woken.
  lemma OneComesIn(s: State, m: nat, k: nat)
    requires Waits(s, m, k) && HasRoom(s.core, USIZE)
    ensures var t := Moved(Moved(s, SwapIn(k)), SwapInDone);
            && Inv(Moved(t, Wake(m))) && Steals(Moved(t, Wake(m)), SwapOut(m))
            && !Steals(s, SwapIn(k)) && !Steals(Moved(s, SwapIn(k)), SwapInDone) && !Steals(t, Wake(m))
  {
    hide Stats, Memory, Life, FirstFit, Serve;
    StepInv(s, SwapIn(k));
    var u := Moved(s, SwapIn(k));
    StepInv(u, SwapInDone);
    StepInv(Moved(u, SwapInDone), Wake(m));
    OnSwap(s, k);
    FreedRoom(s.swap, Run(IMAGE, s.procs[k].addr), 4000, 4872);
  }

  lemma BootedFilled()
    ensures Filled(Booted(), 2)
  {
    hide Inv, FirstFit, Serve;
    BootedInv();
    BootedRoom();
  }

  lemma BootedRoom()
    ensures var s := Booted();
            HasRoom(s.core, USIZE) && |s.core.out| == 1 && s.swap.out == {}
  {
    var m := Arena([Run(128, 32)], {});
    assert Serve(m, Malloc(USIZE)).out == {Run(USIZE, 32)};
    assert Serve(m, Malloc(USIZE)).free == [Run(112, 48)];
  }

  // A run in order up to its last two steps: sched swaps out a child that runs in its
  // parent's image, and then the pages of the parent are free.
  lemma SomeForkLosesAnImage() returns (es: seq<Event>, c: nat)
    ensures Careful(es) && Enabled(After(es), SwapOut(c)) && !Memory(After(es + [SwapOut(c)] + [SwapOutDone]))
  {
    hide Filled, Waits, Inv, Memory, Moved, Steals, Careful, After, HasRoom, Enabled;
    BootedFilled();
    assert Careful([]) && After([]) == Booted() by { AtStart(); }
    var fs, m := FillUp([], 2);
    var s := After(fs);
    var k := ForkInVain(s, m);
    var t := Moved(s, Fork(1));
    OneLeaves(t, m, k);
    var u := Moved(Moved(t, Exit(2)), ExitDone(2));
    OneComesIn(u, m, k);
    NoSteal(s, m);
    OtherSteps(t);
    AfterOne(fs, Fork(1));
    AfterOne(fs + [Fork(1)], Exit(2));
    AfterOne(fs + [Fork(1)] + [Exit(2)], ExitDone(2));
    var gs := fs + [Fork(1)] + [Exit(2)] + [ExitDone(2)];
    AfterOne(gs, SwapIn(k));
    AfterOne(gs + [SwapIn(k)], SwapInDone);
    AfterOne(gs + [SwapIn(k)] + [SwapInDone], Wake(m));
    es, c := gs + [SwapIn(k)] + [SwapInDone] + [Wake(m)], m;
    AfterOne(es, SwapOut(c));
    AfterOne(es + [SwapOut(c)], SwapOutDone);
    StealEnds(After(es), c);
  }

  lemma AtStart()
    ensures Careful([]) && After([]) == Booted()
  {
  }

  lemma OtherSteps(s: State)
    ensures !Steals(s, Exit(2)) && !Steals(Moved(s, Exit(2)), ExitDone(2))
  {
  }

  lemma StealEnds(s: State, c: nat)
    requires Inv(s) && Steals(s, SwapOut(c))
    ensures Enabled(s, SwapOut(c)) && !Memory(Moved(Moved(s, SwapOut(c)), SwapOutDone))
  {
    hide Inv, Memory, Moved;
    SwapOutExactly(s, c);
  }
}
